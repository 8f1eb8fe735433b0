/** The access decision survives the trip from the controller's policy to the client's check. */
module Translation {
  import opened Base
  import opened Client
  import opened Identity
  import IndexState
  import Labels
  import opened Net
  import opened Order
  import Policy
  import opened Proto
  import Resources

  // --- One network, one authentication -------------------------------------------

  lemma NetworkSurvives(n: Policy.NetworkMatch)
    ensures FromNetwork(ToNetwork(n)) == Ok(Network(n.net, n.except))
  {
    var p := ToNetwork(n);
    CollectMeaning(FromIpNet, p.except);
    assert forall i | 0 <= i < |n.except| :: FromIpNet(p.except[i]) == Ok(n.except[i]);
    assert Collect(FromIpNet, p.except).value == n.except;
  }

  lemma NetworksSurvive(ns: seq<Policy.NetworkMatch>, ip: IpAddr)
    ensures ToNetworks(ns) != [] && Collect(FromNetwork, ToNetworks(ns)).Ok?
    ensures var got := Collect(FromNetwork, ToNetworks(ns)).value;
            (exists n | n in got :: NetworkContains(n, ip))
              <==> (ns == [] || exists n | n in ns :: Policy.InNetwork(n, ip))
  {
    var sent := ToNetworks(ns);
    CollectMeaning(FromNetwork, sent);
    if ns == [] {
      AnyNetworkIsEverything(ip);
      assert sent[0] == ToNetwork(Policy.NetworkOf(ANY4)) && sent[1] == ToNetwork(Policy.NetworkOf(ANY6));
      NetworkSurvives(Policy.NetworkOf(ANY4));
      NetworkSurvives(Policy.NetworkOf(ANY6));
      var got := Collect(FromNetwork, sent).value;
      assert got[0] == Network(ANY4, []) && got[1] == Network(ANY6, []);
      assert NetworkContains(got[0], ip) || NetworkContains(got[1], ip);
    } else {
      forall i | 0 <= i < |ns|
        ensures FromNetwork(sent[i]) == Ok(Network(ns[i].net, ns[i].except))
      {
        NetworkSurvives(ns[i]);
      }
      var got := Collect(FromNetwork, sent).value;
      assert forall i | 0 <= i < |ns| :: NetworkContains(got[i], ip) <==> Policy.InNetwork(ns[i], ip);
    }
  }

  lemma {:induction false} IdentitiesSplit(ms: seq<Policy.IdentityMatch>, id: string)
    ensures (exists m | m in ms :: Policy.Identifies(m, id))
              <==> id in Names(ms) || exists p | p in Suffixes(ms) :: EndsWith(id, ClientSuffix(p))
  {
    if ms != [] {
      var rest := ms[1..];
      IdentitiesSplit(rest, id);
      assert forall m :: m in ms <==> m == ms[0] || m in rest;
      match ms[0] {
        case Name(n) =>
          assert Names(ms) == [n] + Names(rest) && Suffixes(ms) == Suffixes(rest);
          assert Policy.Identifies(ms[0], id) <==> id == n;
        case Suffix(parts) =>
          ClientSuffixIsDotted(parts);
          assert Names(ms) == Names(rest) && Suffixes(ms) == [parts] + Suffixes(rest);
          assert forall p :: p in Suffixes(ms) <==> p == parts || p in Suffixes(rest);
          assert Policy.Identifies(ms[0], id) <==> EndsWith(id, ClientSuffix(parts));
      }
    }
  }

  /** The client's reading of an authentication requirement, for any kind of connection. */
  predicate AuthnPermits(a: Authn, c: Policy.Connection) {
    match c
    case Plain => a == Unauthenticated
    case MeshTls(id) => AuthnAccepts(a, id)
  }

  lemma AuthnSurvives(a: Policy.ClientAuthentication, c: Policy.Connection)
    ensures FromPermit(Some(Some(ToPermit(a)))).Ok?
    ensures AuthnPermits(FromPermit(Some(Some(ToPermit(a)))).value, c) <==> Policy.Authenticates(a, c)
  {
    if a.TlsAuthenticated? && c.MeshTls? && c.id.Some? {
      var ms, id := a.identities, c.id.value;
      IdentitiesSplit(ms, id);
      var got := FromPermit(Some(Some(ToPermit(a)))).value;
      var sfxs := Suffixes(ms);
      assert forall i | 0 <= i < |sfxs| :: got.suffixes[i] == ClientSuffix(sfxs[i]);
      if p :| p in sfxs && EndsWith(id, ClientSuffix(p)) {
        var i :| 0 <= i < |sfxs| && sfxs[i] == p;
        assert got.suffixes[i] in got.suffixes;
      }
    }
  }

  // --- One authorization ------------------------------------------------------------

  /** What a client is told about the authorization that let it in: its name, whether it asks for TLS, and
      whether it asks for an identity. */
  predicate LabelsSay(labels: map<string, string>, name: string, a: Policy.ClientAuthentication) {
    match a
    case Unauthenticated => labels == map["authn" := "false", "tls" := "false", "name" := name]
    case TlsUnauthenticated => labels == map["authn" := "false", "tls" := "true", "name" := name]
    case TlsAuthenticated(_) => labels == map["authn" := "true", "tls" := "true", "name" := name]
  }

  predicate AuthzPermits(a: Authz, ip: IpAddr, c: Policy.Connection) {
    AnyNetworkContains(a, ip) && AuthnPermits(a.authn, c)
  }

  lemma AuthzSurvives(name: string, a: Policy.ClientAuthorization, ip: IpAddr, c: Policy.Connection)
    ensures var r := FromAuthz(ToAuthz(name, a));
            && r.Ok?
            && LabelsSay(r.value.labels, name, a.authentication)
            && (AuthzPermits(r.value, ip, c) <==> Policy.Permits(a, ip, c))
  {
    NetworksSurvive(a.networks, ip);
    AuthnSurvives(a.authentication, c);
  }

  // --- The scan ------------------------------------------------------------------------

  /** Both checks return the labels of the first authorization that permits the connection. */
  lemma {:induction false} ScanFindsFirst(auths: seq<Authz>, ip: IpAddr, c: Policy.Connection) returns (i: nat)
    ensures i <= |auths|
    ensures forall j | 0 <= j < i :: !AuthzPermits(auths[j], ip, c)
    ensures i < |auths| ==> AuthzPermits(auths[i], ip, c) && Check(auths, ip, c) == Some(auths[i].labels)
    ensures i == |auths| ==> Check(auths, ip, c) == None
  {
    if auths == [] || AuthzPermits(auths[0], ip, c) {
      i := 0;
    } else {
      var k := ScanFindsFirst(auths[1..], ip, c);
      i := k + 1;
      forall j | 0 <= j < i
        ensures !AuthzPermits(auths[j], ip, c)
      {
        if j > 0 {
          assert auths[j] == auths[1..][j - 1];
        }
      }
    }
  }

  // --- A whole server --------------------------------------------------------------------

  /** A timeout that the wire form can hold. */
  predicate Representable(p: Policy.ProxyProtocol) {
    p.Detect? ==> p.timeout.secs <= MAX_SECONDS
  }

  lemma DecodingSucceeds(s: Policy.InboundServer)
    ensures FromServer(ToServer(s)).Ok?
    ensures var names := Ascending(s.authorizations.Keys);
            var got := FromServer(ToServer(s)).value.authorizations;
            && |got| == |names|
            && forall i | 0 <= i < |names| ::
                 names[i] in s.authorizations && FromAuthz(ToAuthz(names[i], s.authorizations[names[i]])) == Ok(got[i])
  {
    var names := Ascending(s.authorizations.Keys);
    var sent := ToServer(s).authorizations;
    assert forall i | 0 <= i < |names| :: names[i] in names;
    forall i | 0 <= i < |sent|
      ensures FromAuthz(sent[i]).Ok?
    {
      AuthzSurvives(names[i], s.authorizations[names[i]], V4(0), Policy.Plain);
    }
    CollectMeaning(FromAuthz, sent);
  }

  /** The protocol arrives intact exactly when its timeout is representable; a longer one is
      shortened to the longest representable. */
  lemma ProtocolSurvives(s: Policy.InboundServer)
    ensures FromServer(ToServer(s)).Ok?
    ensures FromServer(ToServer(s)).value.protocol == s.protocol <==> Representable(s.protocol)
    ensures !Representable(s.protocol) ==>
              FromServer(ToServer(s)).value.protocol ==
                  Policy.Detect(Policy.Duration(MAX_SECONDS, s.protocol.timeout.nanos))
  {
    DecodingSucceeds(s);
  }

  /** The first name in order whose authorization permits the connection is the least. */
  lemma LeastPermits(s: Policy.InboundServer, i: nat, ip: IpAddr, c: Policy.Connection)
    requires var names := Ascending(s.authorizations.Keys);
             && i < |names| && (forall j | 0 <= j < |names| :: names[j] in s.authorizations)
             && Policy.Permits(s.authorizations[names[i]], ip, c)
             && forall j | 0 <= j < i :: !Policy.Permits(s.authorizations[names[j]], ip, c)
    ensures forall m | m in s.authorizations && Policy.Permits(s.authorizations[m], ip, c) ::
              Le(Ascending(s.authorizations.Keys)[i], m)
  {
    var names := Ascending(s.authorizations.Keys);
    var p := (x: string) => x in s.authorizations && Policy.Permits(s.authorizations[x], ip, c);
    assert FirstWith(names, p, names[i]);
    FirstIsLeast(s.authorizations.Keys, p, names[i]);
    forall m | m in s.authorizations && Policy.Permits(s.authorizations[m], ip, c)
      ensures Le(names[i], m)
    {
      assert p(m);
    }
  }

  /** The client lets a connection in exactly when some authorization of the served policy permits
      it, and the labels it reports name the least such authorization. */
  lemma DecisionSurvives(s: Policy.InboundServer, ip: IpAddr, c: Policy.Connection)
    ensures FromServer(ToServer(s)).Ok?
    ensures var r := Check(FromServer(ToServer(s)).value.authorizations, ip, c);
            && (r.Some? <==> Policy.Admits(s, ip, c))
            && (r.Some? ==>
                  && "name" in r.value
                  && var n := r.value["name"];
                  && n in s.authorizations
                  && Policy.Permits(s.authorizations[n], ip, c)
                  && LabelsSay(r.value, n, s.authorizations[n].authentication)
                  && forall m | m in s.authorizations && Policy.Permits(s.authorizations[m], ip, c) :: Le(n, m))
  {
    DecodingSucceeds(s);
    var names := Ascending(s.authorizations.Keys);
    var got := FromServer(ToServer(s)).value.authorizations;
    forall i | 0 <= i < |names|
      ensures AuthzPermits(got[i], ip, c) <==> Policy.Permits(s.authorizations[names[i]], ip, c)
      ensures LabelsSay(got[i].labels, names[i], s.authorizations[names[i]].authentication)
    {
      AuthzSurvives(names[i], s.authorizations[names[i]], ip, c);
    }
    var i := ScanFindsFirst(got, ip, c);
    if i < |got| {
      LeastPermits(s, i, ip, c);
    } else {
      forall n | n in s.authorizations
        ensures !Policy.Permits(s.authorizations[n], ip, c)
      {
        assert n in names;
        var k :| 0 <= k < |names| && names[k] == n;
        assert !AuthzPermits(got[k], ip, c);
      }
    }
  }

  /** A client that is let in without TLS is let in with TLS too, whatever identity it shows. */
  lemma PlainClientsMayUseTls(s: Policy.InboundServer, ip: IpAddr, id: Option<string>)
    requires FromServer(ToServer(s)).Ok? && Check(FromServer(ToServer(s)).value.authorizations, ip, Policy.Plain).Some?
    ensures Check(FromServer(ToServer(s)).value.authorizations, ip, Policy.MeshTls(id)).Some?
  {
    DecisionSurvives(s, ip, Policy.Plain);
    Policy.PlainAdmissionIsWeakest(s, ip, id);
    DecisionSurvives(s, ip, Policy.MeshTls(id));
  }

  /** The authorizations that parse. */
  function Parsed(objects: map<string, Resources.ServerAuthorization>, domain: string): map<string, IndexState.Authz> {
    map x | x in objects && Resources.MkAuthz(objects[x], domain).Ok? :: Resources.MkAuthz(objects[x], domain).value
  }

  /** One resource, read field by field, lets the connection in on that server. */
  ghost predicate SaysYes(a: Resources.ServerAuthorization, domain: string, server: string, labels: Labels.Labels, ip: IpAddr,
                    c: Policy.Connection)
  {
    && Resources.Accepted(a)
    && Resources.SaysServer(a, server, labels)
    && Resources.SaysNetwork(a, ip)
    && Resources.SaysClient(a, domain, c)
  }

  lemma ObjectPermits(a: Resources.ServerAuthorization, domain: string, server: string, labels: Labels.Labels,
                      ip: IpAddr, c: Policy.Connection)
    ensures var z := Resources.MkAuthz(a, domain);
            SaysYes(a, domain, server, labels, ip, c) <==>
              && z.Ok? && IndexState.SelectsServer(z.value.servers, server, labels)
              && Policy.Permits(z.value.clients, ip, c)
  {
    Resources.ParsesIfAccepted(a, domain);
    if Resources.Accepted(a) {
      Resources.AuthzPermitsAsWritten(a, domain, ip, c);
    }
  }

  lemma SelectedPermits(objects: map<string, Resources.ServerAuthorization>, domain: string, server: string,
                        labels: Labels.Labels, ip: IpAddr, c: Policy.Connection, x: string)
    ensures var view := IndexState.AuthView(Parsed(objects, domain), server, labels);
            x in view && Policy.Permits(view[x], ip, c) <==>
                x in objects && SaysYes(objects[x], domain, server, labels, ip, c)
  {
    if x in objects {
      ObjectPermits(objects[x], domain, server, labels, ip, c);
    }
  }

  /** From the resources to the proxy: whatever authorizations a namespace holds, the client of one of
      its servers lets a connection in exactly if some resource that is accepted and selects the server
      says so, field by field. */
  lemma ResourceDecision(objects: map<string, Resources.ServerAuthorization>, domain: string, server: string,
                         labels: Labels.Labels, protocol: Policy.ProxyProtocol, ip: IpAddr, c: Policy.Connection)
    ensures var s := Policy.InboundServer(protocol, IndexState.AuthView(Parsed(objects, domain), server, labels));
            && FromServer(ToServer(s)).Ok?
            && (Check(FromServer(ToServer(s)).value.authorizations, ip, c).Some? <==>
                  exists x :: x in objects && SaysYes(objects[x], domain, server, labels, ip, c))
  {
    var view := IndexState.AuthView(Parsed(objects, domain), server, labels);
    DecisionSurvives(Policy.InboundServer(protocol, view), ip, c);
    forall x
      ensures x in view && Policy.Permits(view[x], ip, c) <==>
                x in objects && SaysYes(objects[x], domain, server, labels, ip, c)
    {
      SelectedPermits(objects, domain, server, labels, ip, c, x);
    }
  }

  /** Decoding is not total on the wire form: an authorization without networks is refused. */
  lemma MissingNetworksAreRefused(p: PServer, i: nat)
    requires i < |p.authorizations| && p.authorizations[i].networks == []
    ensures FromServer(p) == Err
  {
    CollectMeaning(FromAuthz, p.authorizations);
  }
}
