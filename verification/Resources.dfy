/** The Kubernetes objects the index consumes, as decoded data, and the conversions that read
    one object at a time (`mk_authz`, `mk_mtls_authn`, `mk_protocol`, `KubeletIps`). */
module Resources {
  import opened Base
  import opened Identity
  import opened Labels
  import opened Net
  import opened Policy

  /** A CIDR string, by what parsing it yields: nothing, or a network and its first host. */
  datatype CidrText = Malformed | Cidr(net: IpNet, firstHost: Option<IpAddr>)

  // --- Nodes ----------------------------------------------------------------

  datatype Node = Node(name: string, spec: Option<NodeSpec>)

  datatype NodeSpec = NodeSpec(podCidr: Option<CidrText>, podCidrs: seq<CidrText>)

  function KubeletIp(cidr: CidrText): Result<IpAddr> {
    if cidr.Cidr? && cidr.firstHost.Some? then Ok(cidr.firstHost.value) else Err
  }

  function KubeletIps(node: Node): Result<seq<IpAddr>> {
    if node.spec.None? then Err
    else if node.spec.value.podCidrs == [] then
      if node.spec.value.podCidr.None? then Err
      else
        match KubeletIp(node.spec.value.podCidr.value)
        case Err => Err
        case Ok(ip) => Ok([ip])
    else Collect(KubeletIp, node.spec.value.podCidrs)
  }

  /** The CIDRs that count: the list, or the single one if there is no list. */
  function Cidrs(node: Node): seq<CidrText> {
    if node.spec.None? then []
    else if node.spec.value.podCidrs != [] then node.spec.value.podCidrs
    else if node.spec.value.podCidr.Some? then [node.spec.value.podCidr.value]
    else []
  }

  /** A node loads exactly if it has a CIDR and each has a first host, and then its addresses are those
      hosts, one for each CIDR and in their order. */
  lemma KubeletIpsMeaning(node: Node)
    ensures KubeletIps(node).Ok? <==>
              Cidrs(node) != [] && forall c | c in Cidrs(node) :: c.Cidr? && c.firstHost.Some?
    ensures KubeletIps(node).Ok? ==>
              && KubeletIps(node).value != []
              && |KubeletIps(node).value| == |Cidrs(node)|
              && forall i | 0 <= i < |Cidrs(node)| :: Cidrs(node)[i].firstHost == Some(KubeletIps(node).value[i])
  {
    if node.spec.Some? {
      CollectMeaning(KubeletIp, node.spec.value.podCidrs);
      var cidrs := node.spec.value.podCidrs;
      assert forall i | 0 <= i < |cidrs| :: cidrs[i] in cidrs;
      assert forall i | 0 <= i < |cidrs| :: KubeletIp(cidrs[i]).Ok? <==> cidrs[i].Cidr? && cidrs[i].firstHost.Some?;
    }
  }

  // --- Pods -----------------------------------------------------------------

  datatype Pod = Pod(
    ns: string,
    name: string,
    labels: Labels,
    defaultAllow: Option<string>,
    spec: Option<PodSpec>)

  datatype PodSpec = PodSpec(nodeName: Option<string>, containers: seq<seq<ContainerPort>>)

  datatype ContainerPort = ContainerPort(port: i32, name: Option<string>, protocol: Option<string>)

  type i32 = n: int | -0x8000_0000 <= n < 0x8000_0000

  function NodeName(pod: Pod): Option<string> {
    if pod.spec.Some? then pod.spec.value.nodeName else None
  }

  /** The annotation wins over the default of the cluster; an invalid one is ignored. */
  function PodMode(env: Env, pod: Pod): DefaultAllow {
    if pod.defaultAllow.Some? && ParseDefaultAllow(pod.defaultAllow.value).Ok?
    then ParseDefaultAllow(pod.defaultAllow.value).value
    else env.defaultAllow
  }

  /** The mode that an annotation asks for: one of five words, or else the cluster's. */
  predicate AsksFor(env: Env, annotation: Option<string>, mode: DefaultAllow) {
    if annotation == Some("deny") then mode == Deny
    else if annotation == Some("all-unauthenticated") then mode == AllUnauthenticated
    else if annotation == Some("all-authenticated") then mode == AllAuthenticated
    else if annotation == Some("cluster-unauthenticated") then mode == ClusterUnauthenticated
    else if annotation == Some("cluster-authenticated") then mode == ClusterAuthenticated
    else mode == env.defaultAllow
  }

  lemma PodModeMeaning(env: Env, pod: Pod, mode: DefaultAllow)
    ensures PodMode(env, pod) == mode <==> AsksFor(env, pod.defaultAllow, mode)
  {
  }

  // --- Servers --------------------------------------------------------------

  datatype PortRef = Number(port: u16) | Named(name: string)

  datatype CrdProtocol = CrdUnknown | CrdHttp1 | CrdHttp2 | CrdGrpc | CrdOpaque | CrdTls

  datatype Server = Server(
    ns: string,
    name: string,
    labels: Labels,
    podSelector: Selector,
    port: PortRef,
    proxyProtocol: Option<CrdProtocol>)

  function MkProtocol(p: Option<CrdProtocol>): ProxyProtocol {
    if p.None? then Detect(Duration(10, 0))
    else match p.value
      case CrdUnknown => Detect(Duration(10, 0))
      case CrdHttp1 => Http1
      case CrdHttp2 => Http2
      case CrdGrpc => Grpc
      case CrdOpaque => Opaque
      case CrdTls => Tls
  }

  /** The protocol that a resource asks for, HTTP to be detected within ten seconds unless it says. */
  predicate AsksForProtocol(p: Option<CrdProtocol>, protocol: ProxyProtocol) {
    && (protocol.Detect? <==> p == None || p == Some(CrdUnknown))
    && (protocol.Detect? ==> protocol.timeout.secs == 10 && protocol.timeout.nanos == 0)
    && (protocol.Http1? <==> p == Some(CrdHttp1))
    && (protocol.Http2? <==> p == Some(CrdHttp2))
    && (protocol.Grpc? <==> p == Some(CrdGrpc))
    && (protocol.Opaque? <==> p == Some(CrdOpaque))
    && (protocol.Tls? <==> p == Some(CrdTls))
  }

  lemma MkProtocolMeaning(p: Option<CrdProtocol>, protocol: ProxyProtocol)
    ensures MkProtocol(p) == protocol <==> AsksForProtocol(p, protocol)
  {
  }

  // --- Server authorizations --------------------------------------------------

  datatype ServerAuthorization = ServerAuthorization(
    ns: string,
    name: string,
    serverName: Option<string>,
    serverSelector: Option<Selector>,
    networks: Option<seq<CrdNetwork>>,
    unauthenticated: bool,
    meshTls: Option<CrdMeshTls>)

  datatype CrdNetwork = CrdNetwork(cidr: CidrText, except: seq<CidrText>)

  datatype CrdMeshTls = CrdMeshTls(
    unauthenticatedTls: bool,
    identities: seq<string>,
    serviceAccounts: seq<ServiceAccountRef>)

  datatype ServiceAccountRef = ServiceAccountRef(ns: Option<string>, name: string)

  datatype ServerSelector = ByName(name: string) | ByLabels(selector: Selector)

  datatype Authz = Authz(servers: ServerSelector, clients: ClientAuthorization)

  function ParseCidr(c: CidrText): Result<IpNet> {
    match c
    case Malformed => Err
    case Cidr(net, _) => Ok(net)
  }

  function ParseNetwork(n: CrdNetwork): Result<NetworkMatch> {
    match ParseCidr(n.cidr)
    case Err => Err
    case Ok(net) =>
      match Collect(ParseCidr, n.except)
      case Err => Err
      case Ok(except) => Ok(NetworkMatch(net, except))
  }

  /** The identity a service account proves, in the authorization's own namespace by default. */
  function AccountIdentity(sa: ServiceAccountRef, ns: string, domain: string): string {
    var saNs := if sa.ns.Some? then sa.ns.value else ns;
    sa.name + "." + saNs + ".serviceaccount.identity.linkerd." + domain
  }

  function AuthorizedIdentities(mtls: CrdMeshTls, ns: string, domain: string): seq<IdentityMatch> {
    seq(|mtls.identities|, i requires 0 <= i < |mtls.identities| => ParseIdentity(mtls.identities[i]))
    + seq(|mtls.serviceAccounts|,
          i requires 0 <= i < |mtls.serviceAccounts| => Name(AccountIdentity(mtls.serviceAccounts[i], ns, domain)))
  }

  function MtlsAuthn(mtls: CrdMeshTls, ns: string, domain: string): Result<ClientAuthentication> {
    if mtls.unauthenticatedTls then Ok(TlsUnauthenticated)
    else if mtls.identities == [] && mtls.serviceAccounts == [] then Err
    else Ok(TlsAuthenticated(AuthorizedIdentities(mtls, ns, domain)))
  }

  /** `mk_mtls_authn`: pushes one match per identity string and one per service account. */
  method MkMtlsAuthn(mtls: CrdMeshTls, ns: string, domain: string) returns (r: Result<ClientAuthentication>)
    ensures r == MtlsAuthn(mtls, ns, domain)
  {
    if mtls.unauthenticatedTls {
      return Ok(TlsUnauthenticated);
    }
    var identities: seq<IdentityMatch> := [];
    ghost var all := AuthorizedIdentities(mtls, ns, domain);
    for i := 0 to |mtls.identities|
      invariant identities == all[..i]
    {
      var id := mtls.identities[i];
      if id == "*" {
        identities := identities + [Suffix([])];
      } else if "*." <= id {
        var parts := Split(id);
        identities := identities + [Suffix(parts[1..])];
      } else {
        identities := identities + [Name(id)];
      }
    }
    for i := 0 to |mtls.serviceAccounts|
      invariant identities == all[..|mtls.identities| + i]
    {
      identities := identities + [Name(AccountIdentity(mtls.serviceAccounts[i], ns, domain))];
    }
    assert all[..|all|] == all;
    if identities == [] {
      return Err;
    }
    return Ok(TlsAuthenticated(identities));
  }

  function AuthorizedServers(a: ServerAuthorization): Result<ServerSelector> {
    match (a.serverName, a.serverSelector)
    case (Some(n), None) => Ok(ByName(n))
    case (None, Some(s)) => Ok(ByLabels(s))
    case _ => Err
  }

  function AuthorizedNetworks(a: ServerAuthorization): Result<seq<NetworkMatch>> {
    if a.networks.Some? then Collect(ParseNetwork, a.networks.value)
    else Ok([NetworkOf(ANY4), NetworkOf(ANY6)])
  }

  function AuthorizedClients(a: ServerAuthorization, domain: string): Result<ClientAuthentication> {
    if a.unauthenticated then Ok(Unauthenticated)
    else if a.meshTls.None? then Err
    else MtlsAuthn(a.meshTls.value, a.ns, domain)
  }

  function MkAuthz(a: ServerAuthorization, domain: string): Result<Authz> {
    match (AuthorizedServers(a), AuthorizedNetworks(a), AuthorizedClients(a, domain))
    case (Ok(servers), Ok(networks), Ok(authn)) => Ok(Authz(servers, ClientAuthorization(networks, authn)))
    case _ => Err
  }

  // --- Which resources are accepted ----------------------------------------------

  /** A resource is accepted if it names one server or selects servers by label, not both; all its
      networks and exceptions are CIDRs; and it lets in anyone, any TLS client, or some identity. */
  predicate Accepted(a: ServerAuthorization) {
    && (a.serverName.Some? <==> a.serverSelector.None?)
    && (a.networks.Some? ==>
          forall n | n in a.networks.value :: n.cidr.Cidr? && forall e | e in n.except :: e.Cidr?)
    && (|| a.unauthenticated
        || (&& a.meshTls.Some?
            && (|| a.meshTls.value.unauthenticatedTls
                || a.meshTls.value.identities != []
                || a.meshTls.value.serviceAccounts != [])))
  }

  lemma NetworkParses(n: CrdNetwork)
    ensures ParseNetwork(n).Ok? <==> n.cidr.Cidr? && forall e | e in n.except :: e.Cidr?
  {
    CollectMeaning(ParseCidr, n.except);
    assert forall i | 0 <= i < |n.except| :: n.except[i] in n.except;
    assert forall i | 0 <= i < |n.except| :: ParseCidr(n.except[i]).Ok? <==> n.except[i].Cidr?;
  }

  /** Exactly the accepted ones parse. */
  lemma ParsesIfAccepted(a: ServerAuthorization, domain: string)
    ensures MkAuthz(a, domain).Ok? <==> Accepted(a)
  {
    if a.networks.Some? {
      var nets := a.networks.value;
      CollectMeaning(ParseNetwork, nets);
      forall i | 0 <= i < |nets|
        ensures nets[i] in nets
        ensures ParseNetwork(nets[i]).Ok? <==> nets[i].cidr.Cidr? && forall e | e in nets[i].except :: e.Cidr?
      {
        NetworkParses(nets[i]);
      }
    }
  }

  // --- What a resource says, field by field ------------------------------------

  predicate InCidr(c: CidrText, ip: IpAddr) {
    c.Cidr? && Contains(c.net, ip)
  }

  /** A resource selects servers by name or by label, not by both. */
  predicate SaysServer(a: ServerAuthorization, name: string, labels: Labels) {
    || (a.serverName == Some(name) && a.serverSelector == None)
    || (a.serverName == None && a.serverSelector.Some? && Matches(a.serverSelector.value, labels))
  }

  /** No `networks` field and an empty list both mean every network. */
  predicate SaysNetwork(a: ServerAuthorization, ip: IpAddr) {
    a.networks.None? || a.networks.value == [] ||
    exists n | n in a.networks.value :: InCidr(n.cidr, ip) && forall e | e in n.except :: !InCidr(e, ip)
  }

  ghost predicate SaysClient(a: ServerAuthorization, domain: string, c: Connection) {
    || a.unauthenticated
    || (&& a.meshTls.Some? && c.MeshTls?
        && (|| a.meshTls.value.unauthenticatedTls
            || (&& c.id.Some?
                && (|| (exists p | p in a.meshTls.value.identities :: GlobAccepts(p, c.id.value))
                    || (exists sa | sa in a.meshTls.value.serviceAccounts :: Proves(c.id.value, sa, a.ns, domain))))))
  }

  /** The identity is that of the service account in the namespace that it names, or else in the
      resource's own. */
  predicate Proves(id: string, sa: ServiceAccountRef, ns: string, domain: string) {
    match sa.ns
    case Some(other) => id == sa.name + "." + other + ".serviceaccount.identity.linkerd." + domain
    case None => id == sa.name + "." + ns + ".serviceaccount.identity.linkerd." + domain
  }

  lemma NetworksPermitAsWritten(a: ServerAuthorization, ip: IpAddr)
    requires AuthorizedNetworks(a).Ok?
    ensures var nets := AuthorizedNetworks(a).value;
            (nets == [] || exists n | n in nets :: InNetwork(n, ip)) <==> SaysNetwork(a, ip)
  {
    var nets := AuthorizedNetworks(a).value;
    if a.networks.None? {
      AnyNetworkIsEverything(ip);
      assert nets[0] == NetworkOf(ANY4) && nets[1] == NetworkOf(ANY6);
      assert InNetwork(nets[0], ip) || InNetwork(nets[1], ip);
    } else {
      var written := a.networks.value;
      CollectMeaning(ParseNetwork, written);
      forall i | 0 <= i < |written|
        ensures InNetwork(nets[i], ip) <==>
                  InCidr(written[i].cidr, ip) && forall e | e in written[i].except :: !InCidr(e, ip)
      {
        CollectMeaning(ParseCidr, written[i].except);
        var except := Collect(ParseCidr, written[i].except).value;
        assert ParseNetwork(written[i]) == Ok(nets[i]);
        assert forall j | 0 <= j < |except| :: Contains(except[j], ip) <==> InCidr(written[i].except[j], ip);
      }
    }
  }

  lemma ClientsPermitAsWritten(a: ServerAuthorization, domain: string, c: Connection)
    requires AuthorizedClients(a, domain).Ok?
    ensures Authenticates(AuthorizedClients(a, domain).value, c) <==> SaysClient(a, domain, c)
  {
    if !a.unauthenticated && !a.meshTls.value.unauthenticatedTls && c.MeshTls? && c.id.Some? {
      var mtls, id := a.meshTls.value, c.id.value;
      var ms := AuthorizedIdentities(mtls, a.ns, domain);
      forall i | 0 <= i < |mtls.identities|
        ensures ms[i] in ms
        ensures Identifies(ms[i], id) <==> GlobAccepts(mtls.identities[i], id)
      {
        ParsedIdentityAcceptsAsWritten(mtls.identities[i], id);
      }
      forall i | 0 <= i < |mtls.serviceAccounts|
        ensures ms[|mtls.identities| + i] in ms
        ensures Identifies(ms[|mtls.identities| + i], id) <==>
                  Proves(id, mtls.serviceAccounts[i], a.ns, domain)
      {
      }
      assert forall k | 0 <= k < |ms|
               && k >= |mtls.identities| :: ms[k] == ms[|mtls.identities| + (k - |mtls.identities|)];
    }
  }

  /** A parsed authorization permits a connection exactly when the resource, read field by field,
      says so. */
  lemma AuthzPermitsAsWritten(a: ServerAuthorization, domain: string, ip: IpAddr, c: Connection)
    requires MkAuthz(a, domain).Ok?
    ensures Permits(MkAuthz(a, domain).value.clients, ip, c) <==> SaysNetwork(a, ip) && SaysClient(a, domain, c)
  {
    NetworksPermitAsWritten(a, ip);
    ClientsPermitAsWritten(a, domain, c);
  }
}
