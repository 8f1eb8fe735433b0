/** What the controller serves for a port (`controller/core/src/lib.rs`,
    `controller/core/src/network_match.rs`) and the default policies
    (`controller/k8s/index/src/default_allow.rs`). */
module Policy {
  import opened Base
  import opened Net

  datatype IdentityMatch = Name(name: string) | Suffix(parts: seq<string>)

  datatype NetworkMatch = NetworkMatch(net: IpNet, except: seq<IpNet>)

  datatype ClientAuthentication =
    | Unauthenticated
    | TlsUnauthenticated
    | TlsAuthenticated(identities: seq<IdentityMatch>)

  datatype ClientAuthorization =
    ClientAuthorization(networks: seq<NetworkMatch>, authentication: ClientAuthentication)

  type Authorizations = map<string, ClientAuthorization>

  /** `std::time::Duration`: whole seconds (64 bits) and nanoseconds. */
  datatype Duration = Duration(secs: Seconds, nanos: Nanos)
  type Seconds = n: int | 0 <= n < 0x1_0000_0000_0000_0000
  type Nanos = n: int | 0 <= n < 1_000_000_000

  datatype ProxyProtocol = Detect(timeout: Duration) | Http1 | Http2 | Grpc | Opaque | Tls

  datatype InboundServer = InboundServer(protocol: ProxyProtocol, authorizations: Authorizations)

  /** A connection as the proxy sees it: plaintext, or TLS with perhaps a client identity. */
  datatype Connection = Plain | MeshTls(id: Option<string>)

  function NetworkOf(net: IpNet): NetworkMatch {
    NetworkMatch(net, [])
  }

  predicate InNetwork(n: NetworkMatch, ip: IpAddr) {
    Contains(n.net, ip) && forall e | e in n.except :: !Contains(e, ip)
  }

  /** The dotted tail that a suffix stands for: a dot before every part. */
  function Dotted(parts: seq<string>): string {
    if parts == [] then "" else "." + parts[0] + Dotted(parts[1..])
  }

  predicate Identifies(m: IdentityMatch, id: string) {
    match m
    case Name(n) => id == n
    case Suffix(parts) => EndsWith(id, Dotted(parts))
  }

  predicate Authenticates(a: ClientAuthentication, c: Connection) {
    match a
    case Unauthenticated => true
    case TlsUnauthenticated => c.MeshTls?
    case TlsAuthenticated(ms) => c.MeshTls? && c.id.Some? && exists m | m in ms :: Identifies(m, c.id.value)
  }

  /** What one authorization permits; no network at all means every network. */
  predicate Permits(a: ClientAuthorization, ip: IpAddr, c: Connection) {
    && (a.networks == [] || exists n | n in a.networks :: InNetwork(n, ip))
    && Authenticates(a.authentication, c)
  }

  predicate Admits(s: InboundServer, ip: IpAddr, c: Connection) {
    exists n | n in s.authorizations :: Permits(s.authorizations[n], ip, c)
  }

  // --- Default policies -------------------------------------------------

  datatype DefaultAllow =
    | AllAuthenticated
    | AllUnauthenticated
    | ClusterAuthenticated
    | ClusterUnauthenticated
    | Deny

  function ParseDefaultAllow(s: string): Result<DefaultAllow> {
    if s == "all-authenticated" then Ok(AllAuthenticated)
    else if s == "all-unauthenticated" then Ok(AllUnauthenticated)
    else if s == "cluster-authenticated" then Ok(ClusterAuthenticated)
    else if s == "cluster-unauthenticated" then Ok(ClusterUnauthenticated)
    else if s == "deny" then Ok(Deny)
    else Err
  }

  /** The parameters an index is created with (`controller/k8s/index/src/lib.rs`, `Index::new`). */
  datatype Env = Env(
    clusterNets: seq<IpNet>,
    identityDomain: string,
    defaultAllow: DefaultAllow,
    detectTimeout: Duration)

  function MkDetectConfig(name: string, timeout: Duration, nets: seq<IpNet>, authn: ClientAuthentication)
    : InboundServer
  {
    InboundServer(Detect(timeout),
                  map[name := ClientAuthorization(seq(|nets|, i requires 0 <= i < |nets| => NetworkOf(nets[i])), authn)])
  }

  function DefaultConfig(env: Env, mode: DefaultAllow): InboundServer {
    var anyAuthenticated := TlsAuthenticated([Suffix([])]);
    match mode
    case AllAuthenticated =>
      MkDetectConfig("_all_authed", env.detectTimeout, [ANY4, ANY6], anyAuthenticated)
    case AllUnauthenticated =>
      MkDetectConfig("_all_unauthed", env.detectTimeout, [ANY4, ANY6], Unauthenticated)
    case ClusterAuthenticated =>
      MkDetectConfig("_cluster_authed", env.detectTimeout, env.clusterNets, anyAuthenticated)
    case ClusterUnauthenticated =>
      MkDetectConfig("_cluster_unauthed", env.detectTimeout, env.clusterNets, Unauthenticated)
    case Deny =>
      InboundServer(Detect(env.detectTimeout), map[])
  }

  predicate InNets(nets: seq<IpNet>, ip: IpAddr) {
    exists n | n in nets :: Contains(n, ip)
  }

  /** What the default policies mean. Without any cluster network the cluster policies admit all
      networks. */
  predicate DefaultMeans(env: Env, mode: DefaultAllow, ip: IpAddr, c: Connection) {
    match mode
    case AllAuthenticated => c.MeshTls? && c.id.Some?
    case AllUnauthenticated => true
    case ClusterAuthenticated => c.MeshTls? && c.id.Some? && (env.clusterNets == [] || InNets(env.clusterNets, ip))
    case ClusterUnauthenticated => env.clusterNets == [] || InNets(env.clusterNets, ip)
    case Deny => false
  }

  lemma DetectConfigAdmits(name: string, timeout: Duration, nets: seq<IpNet>, authn: ClientAuthentication, ip: IpAddr,
                           c: Connection)
    ensures Admits(MkDetectConfig(name, timeout, nets, authn), ip, c) <==>
              (nets == [] || InNets(nets, ip)) && Authenticates(authn, c)
  {
    var s := MkDetectConfig(name, timeout, nets, authn);
    var a := s.authorizations[name];
    assert forall i | 0 <= i < |nets| :: InNetwork(a.networks[i], ip) <==> Contains(nets[i], ip);
    assert forall n | n in a.networks :: exists i :: 0 <= i < |nets| && a.networks[i] == n;
    assert forall n | n in nets :: exists i :: 0 <= i < |nets| && nets[i] == n;
    assert forall n | n in s.authorizations :: n == name;
  }

  lemma DefaultPolicyMeans(env: Env, mode: DefaultAllow, ip: IpAddr, c: Connection)
    ensures DefaultConfig(env, mode).protocol == Detect(env.detectTimeout)
    ensures Admits(DefaultConfig(env, mode), ip, c) <==> DefaultMeans(env, mode, ip, c)
  {
    var any := TlsAuthenticated([Suffix([])]);
    assert Suffix([]) in any.identities;
    assert c.MeshTls? && c.id.Some? ==> Identifies(Suffix([]), c.id.value);
    AnyNetworkIsEverything(ip);
    assert ANY4 in [ANY4, ANY6] && ANY6 in [ANY4, ANY6];
    DetectConfigAdmits("_all_authed", env.detectTimeout, [ANY4, ANY6], any, ip, c);
    DetectConfigAdmits("_all_unauthed", env.detectTimeout, [ANY4, ANY6], Unauthenticated, ip, c);
    DetectConfigAdmits("_cluster_authed", env.detectTimeout, env.clusterNets, any, ip, c);
    DetectConfigAdmits("_cluster_unauthed", env.detectTimeout, env.clusterNets, Unauthenticated, ip, c);
  }

  // --- The kubelet's standing permission --------------------------------

  const HEALTH_CHECK := "_health_check"

  function KubeletAuthz(kubelet: seq<IpAddr>): ClientAuthorization {
    ClientAuthorization(seq(|kubelet|, i requires 0 <= i < |kubelet| => NetworkOf(HostNet(kubelet[i]))), Unauthenticated)
  }

  /** `Rx::mk_server` (`controller/k8s/index/src/lookup.rs`). */
  function MkServer(kubelet: seq<IpAddr>, inner: InboundServer): InboundServer {
    inner.(authorizations := inner.authorizations[HEALTH_CHECK := KubeletAuthz(kubelet)])
  }

  lemma KubeletAuthzPermits(kubelet: seq<IpAddr>, ip: IpAddr, c: Connection)
    requires kubelet != []
    ensures Permits(KubeletAuthz(kubelet), ip, c) <==> ip in kubelet
  {
    var nets := KubeletAuthz(kubelet).networks;
    forall i | 0 <= i < |kubelet|
      ensures InNetwork(nets[i], ip) <==> ip == kubelet[i]
    {
      HostNetIsOneAddress(kubelet[i], ip);
    }
    if ip in kubelet {
      var i :| 0 <= i < |kubelet| && kubelet[i] == ip;
      assert InNetwork(nets[i], ip);
    }
  }

  /** The overlay admits the kubelet's addresses over any connection, and every other address
      exactly as the policy does without its own entry of that name. */
  lemma KubeletAccessIsExact(kubelet: seq<IpAddr>, inner: InboundServer, ip: IpAddr, c: Connection)
    requires kubelet != []
    ensures Admits(MkServer(kubelet, inner), ip, c) <==>
              ip in kubelet
              || Admits(inner.(authorizations := inner.authorizations - {HEALTH_CHECK}), ip, c)
  {
    KubeletAuthzPermits(kubelet, ip, c);
    var served := MkServer(kubelet, inner).authorizations;
    var rest := inner.authorizations - {HEALTH_CHECK};
    assert forall n | n in rest :: n in served && served[n] == rest[n];
    assert forall n | n in served && n != HEALTH_CHECK :: n in rest;
    assert HEALTH_CHECK in served;
  }

  /** The guard matters: with no kubelet address at all the overlay would admit everyone. */
  lemma EmptyKubeletListAdmitsEveryone(inner: InboundServer, ip: IpAddr, c: Connection)
    ensures Admits(MkServer([], inner), ip, c)
  {
    assert HEALTH_CHECK in MkServer([], inner).authorizations;
    assert KubeletAuthz([]).networks == [];
  }

  /** A plaintext client that is let in is let in over TLS too, whatever identity it shows. */
  lemma PlainAdmissionIsWeakest(s: InboundServer, ip: IpAddr, id: Option<string>)
    requires Admits(s, ip, Plain)
    ensures Admits(s, ip, MeshTls(id))
  {
  }
}
