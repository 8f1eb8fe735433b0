/** The wire form of a served policy, as `controller/grpc/src/lib.rs` writes it. */
module Proto {
  import opened Base
  import opened Net
  import opened Order
  import Policy

  /** The protobuf duration: signed 64-bit seconds. */
  datatype PDuration = PDuration(seconds: i64, nanos: Policy.Nanos)
  type i64 = n: int | -0x8000_0000_0000_0000 <= n < 0x8000_0000_0000_0000
  const MAX_SECONDS: i64 := 0x7fff_ffff_ffff_ffff

  datatype PKind = PDetect(timeout: Option<PDuration>) | PHttp1 | PHttp2 | PGrpc | POpaque | PTls

  datatype PIpNet = PIpNet(ip: Option<IpAddr>, prefixLen: nat)

  datatype PNetwork = PNetwork(net: Option<PIpNet>, except: seq<PIpNet>)

  datatype PClients =
    | PClientsUnauthenticated
    | PClientIdentities(identities: seq<string>, suffixes: seq<seq<string>>)

  datatype PPermit = PUnauthenticated | PMeshTls(clients: Option<PClients>)

  datatype PAuthz = PAuthz(
    labels: map<string, string>,
    networks: seq<PNetwork>,
    authentication: Option<Option<PPermit>>)

  datatype PServer = PServer(
    protocol: Option<Option<PKind>>,
    authorizations: seq<PAuthz>,
    labels: map<string, string>)

  function ToDuration(d: Policy.Duration): PDuration {
    PDuration(if d.secs > MAX_SECONDS then MAX_SECONDS else d.secs, d.nanos)
  }

  function ToKind(p: Policy.ProxyProtocol): PKind {
    match p
    case Detect(timeout) => PDetect(Some(ToDuration(timeout)))
    case Http1 => PHttp1
    case Http2 => PHttp2
    case Grpc => PGrpc
    case Opaque => POpaque
    case Tls => PTls
  }

  function ToIpNet(n: IpNet): PIpNet {
    match n
    case Net4(a, p) => PIpNet(Some(V4(a)), p)
    case Net6(a, p) => PIpNet(Some(V6(a)), p)
  }

  function ToNetwork(n: Policy.NetworkMatch): PNetwork {
    PNetwork(Some(ToIpNet(n.net)), seq(|n.except|, i requires 0 <= i < |n.except| => ToIpNet(n.except[i])))
  }

  function ToNetworks(ns: seq<Policy.NetworkMatch>): seq<PNetwork> {
    if ns == [] then [PNetwork(Some(ToIpNet(ANY4)), []), PNetwork(Some(ToIpNet(ANY6)), [])]
    else seq(|ns|, i requires 0 <= i < |ns| => ToNetwork(ns[i]))
  }

  function Names(ms: seq<Policy.IdentityMatch>): seq<string> {
    if ms == [] then []
    else (if ms[0].Name? then [ms[0].name] else []) + Names(ms[1..])
  }

  function Suffixes(ms: seq<Policy.IdentityMatch>): seq<seq<string>> {
    if ms == [] then []
    else (if ms[0].Suffix? then [ms[0].parts] else []) + Suffixes(ms[1..])
  }

  function ToPermit(a: Policy.ClientAuthentication): PPermit {
    match a
    case Unauthenticated => PUnauthenticated
    case TlsUnauthenticated => PMeshTls(Some(PClientsUnauthenticated))
    case TlsAuthenticated(ms) => PMeshTls(Some(PClientIdentities(Names(ms), Suffixes(ms))))
  }

  function ToLabels(name: string, a: Policy.ClientAuthentication): map<string, string> {
    map["authn" := if a.TlsAuthenticated? then "true" else "false",
        "tls" := if a.Unauthenticated? then "false" else "true",
        "name" := name]
  }

  function ToAuthz(name: string, a: Policy.ClientAuthorization): PAuthz {
    PAuthz(ToLabels(name, a.authentication), ToNetworks(a.networks), Some(Some(ToPermit(a.authentication))))
  }

  /** The authorizations go out in the order of their names. */
  function ToServer(s: Policy.InboundServer): PServer {
    var names := Ascending(s.authorizations.Keys);
    PServer(Some(Some(ToKind(s.protocol))),
            seq(|names|, i requires 0 <= i < |names| =>
              assert names[i] in names; ToAuthz(names[i], s.authorizations[names[i]])),
            map[])
  }
}
