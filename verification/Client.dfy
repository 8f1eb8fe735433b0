/** What a proxy makes of a served policy (`client/src/lib.rs`): decoding and access checks. */
module Client {
  import opened Base
  import opened Identity
  import opened Net
  import Policy
  import opened Proto

  datatype Network = Network(net: IpNet, except: seq<IpNet>)

  datatype Authn =
    | Unauthenticated
    | TlsUnauthenticated
    | TlsAuthenticated(identities: set<string>, suffixes: seq<string>)

  datatype Authz = Authz(networks: seq<Network>, authn: Authn, labels: map<string, string>)

  datatype Inbound = Inbound(
    authorizations: seq<Authz>,
    labels: map<string, string>,
    protocol: Policy.ProxyProtocol)

  // --- Decoding -----------------------------------------------------------------

  function FromDuration(d: PDuration): Result<Policy.Duration> {
    if d.seconds < 0 then Err else Ok(Policy.Duration(d.seconds, d.nanos))
  }

  function FromProtocol(p: Option<Option<PKind>>): Result<Policy.ProxyProtocol> {
    if p.None? || p.value.None? then Err
    else match p.value.value
      case PDetect(None) => Err
      case PDetect(Some(t)) =>
        (match FromDuration(t)
         case Err => Err
         case Ok(timeout) => Ok(Policy.Detect(timeout)))
      case PHttp1 => Ok(Policy.Http1)
      case PHttp2 => Ok(Policy.Http2)
      case PGrpc => Ok(Policy.Grpc)
      case POpaque => Ok(Policy.Opaque)
      case PTls => Ok(Policy.Tls)
  }

  function FromIpNet(n: PIpNet): Result<IpNet> {
    match n.ip
    case None => Err
    case Some(V4(a)) => if n.prefixLen <= 32 then Ok(Net4(a, n.prefixLen)) else Err
    case Some(V6(a)) => if n.prefixLen <= 128 then Ok(Net6(a, n.prefixLen)) else Err
  }

  function FromNetwork(n: PNetwork): Result<Network> {
    match n.net
    case None => Err
    case Some(pnet) =>
      match FromIpNet(pnet)
      case Err => Err
      case Ok(net) =>
        match Collect(FromIpNet, n.except)
        case Err => Err
        case Ok(except) => Ok(Network(net, except))
  }

  function FromPermit(p: Option<Option<PPermit>>): Result<Authn> {
    if p.None? || p.value.None? then Err
    else match p.value.value
      case PUnauthenticated => Ok(Unauthenticated)
      case PMeshTls(None) => Err
      case PMeshTls(Some(PClientsUnauthenticated)) => Ok(TlsUnauthenticated)
      case PMeshTls(Some(PClientIdentities(ids, sfxs))) =>
        Ok(TlsAuthenticated(set id | id in ids, seq(|sfxs|, i requires 0 <= i < |sfxs| => ClientSuffix(sfxs[i]))))
  }

  function FromAuthz(a: PAuthz): Result<Authz> {
    if a.networks == [] then Err
    else
      match Collect(FromNetwork, a.networks)
      case Err => Err
      case Ok(networks) =>
        match FromPermit(a.authentication)
        case Err => Err
        case Ok(authn) => Ok(Authz(networks, authn, a.labels))
  }

  function FromServer(s: PServer): Result<Inbound> {
    match FromProtocol(s.protocol)
    case Err => Err
    case Ok(protocol) =>
      match Collect(FromAuthz, s.authorizations)
      case Err => Err
      case Ok(authorizations) => Ok(Inbound(authorizations, s.labels, protocol))
  }

  // --- Access checks -----------------------------------------------------------

  predicate NetworkContains(n: Network, ip: IpAddr) {
    Contains(n.net, ip) && !exists e | e in n.except :: Contains(e, ip)
  }

  predicate AnyNetworkContains(a: Authz, ip: IpAddr) {
    exists n | n in a.networks :: NetworkContains(n, ip)
  }

  function CheckNonTls(auths: seq<Authz>, ip: IpAddr): Option<map<string, string>> {
    if auths == [] then None
    else if auths[0].authn == Unauthenticated && AnyNetworkContains(auths[0], ip) then Some(auths[0].labels)
    else CheckNonTls(auths[1..], ip)
  }

  function CheckTls(auths: seq<Authz>, ip: IpAddr, id: Option<string>): Option<map<string, string>> {
    if auths == [] then None
    else if AnyNetworkContains(auths[0], ip) && AuthnAccepts(auths[0].authn, id) then Some(auths[0].labels)
    else CheckTls(auths[1..], ip, id)
  }

  predicate AuthnAccepts(a: Authn, id: Option<string>) {
    match a
    case Unauthenticated => true
    case TlsUnauthenticated => true
    case TlsAuthenticated(ids, sfxs) =>
      id.Some? && (id.value in ids || exists s | s in sfxs :: EndsWith(id.value, s))
  }

  /** `check_non_tls` or `check_tls`, by the kind of connection. */
  function Check(auths: seq<Authz>, ip: IpAddr, c: Policy.Connection): Option<map<string, string>> {
    match c
    case Plain => CheckNonTls(auths, ip)
    case MeshTls(id) => CheckTls(auths, ip, id)
  }
}
