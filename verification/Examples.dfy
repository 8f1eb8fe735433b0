/** What goes wrong where the theorems' assumptions fail, shown by the program on concrete events: one node,
    one pod with one port, and a server that claims it. */
module Examples {
  import opened Base
  import opened Labels
  import opened Net
  import opened Policy
  import opened Ports
  import Resources
  import opened Watch
  import E = Events
  import opened IndexState
  import opened Invariant
  import opened Refinement
  import opened Binding
  import opened LiveObjects
  import opened Effects
  import opened Intake
  import opened PodIntake
  import opened ServerResets
  import opened RestartBindings
  import opened Resets
  import opened Protocols
  import opened Discovery

  // --- The objects ---------------------------------------------------------------------------

  const IP := V4(0x0A00_0001)
  const CIDR := Resources.Cidr(Net4(0x0A00_0000, 24), Some(IP))
  const NODE := Resources.Node("node", Some(Resources.NodeSpec(Some(CIDR), [])))
  const PORTS := [[Resources.ContainerPort(80, None, None)]]

  function PodOf(app: string): Resources.Pod {
    Resources.Pod("ns", "pod", map["app" := app], None, Some(Resources.PodSpec(Some("node"), PORTS)))
  }

  /** A server for port 80 of the pods of an app. */
  function ServerOf(name: string, app: string, protocol: Resources.CrdProtocol): Resources.Server {
    Resources.Server("ns", name, map[], Selector(Some(map["app" := app]), None), Resources.Number(80), Some(protocol))
  }

  /** An authorization for the clients of server `a`, which does not parse unless it says who they are. */
  function AuthzOf(unauthenticated: bool): Resources.ServerAuthorization {
    Resources.ServerAuthorization("ns", "z", Some("a"), None, None, unauthenticated, None)
  }

  const PREPARED := [E.NodeApplied(NODE)] + [E.PodApplied(PodOf("v1"))]
  const DEPLOYED := PREPARED + [E.ServerApplied(ServerOf("a", "v1", Resources.CrdHttp1))]

  lemma OnePort()
    ensures Declared(PORTS) == [Decl(80, None)]
    ensures PortSet(Declared(PORTS)) == {80} && Named(Declared(PORTS)) == map[]
  {
    var p := PORTS[0][0];
    assert PORTS[0][..0] == [] && DeclaredIn(PORTS[0][..0]) == [];
    assert DeclaredIn(PORTS[0]) == [Decl(80, None)];
    assert PORTS[..0] == [] && Declared(PORTS[..0]) == [];
    var decls := Declared(PORTS);
    assert decls == [Decl(80, None)];
    assert decls[..0] == [] && Named(decls[..0]) == map[];
  }

  // --- States with that pod --------------------------------------------------------------------

  function App(app: string): Labels {
    map["app" := app]
  }

  /** The pod is the only one, has that label, and its port is bound to `holder`. */
  ghost predicate Shows(env: Env, s: State, app: string, holder: Option<string>) {
    && s.namespaces.Keys == {"ns"} && s.namespaces["ns"].pods.Keys == {"pod"}
    && var e := s.namespaces["ns"].pods["pod"];
    && e.labels == App(app) && e.byName == map[] && e.byPort.Keys == {80} && e.defaultRx == DefaultChan(env.defaultAllow)
    && e.byPort[80].serverName == holder && (holder.Some? ==> holder.value in s.namespaces["ns"].servers)
    && s.lookups == map["ns" := map["pod" := map[80 := Rx([IP], e.byPort[80].tx)]]]
  }

  lemma SelectsApp(m: ServerMeta, app: string, other: string)
    requires m.podSelector == Selector(Some(map["app" := app]), None) && m.port == Resources.Number(80)
    ensures SelectsPort(m, App(other), map[], 80) <==> app == other
  {
    assert "app" in App(other);
  }

  /** What the port is served: the holder's policy or the default. */
  lemma ShowsServed(env: Env, s: State, app: string, holder: Option<string>)
    requires Inv(env, s) && Shows(env, s, app, holder)
    ensures var servers := s.namespaces["ns"].servers;
            && (holder.Some? ==> holder.value in servers)
            && Served(s, "ns", "pod", 80) ==
                 Some(MkServer([IP], if holder.None? then DefaultConfig(env, env.defaultAllow)
                                     else Published(servers[holder.value])))
  {
    var n := s.namespaces["ns"];
    var e := n.pods["pod"];
    assert NsOk("ns", n, s.store) && PodOk("ns", "pod", e, n.servers, s.store.outer);
    assert PortOk("ns", "pod", 80, e.byPort[80], e.defaultRx, n.servers, s.store.outer);
    assert StoreOk(env, s.store);
    if holder.Some? {
      assert ServerOk("ns", holder.value, n.servers[holder.value], n.authzs, s.store.inner);
    }
  }

  lemma IsElement<T>(order: seq<T>, i: nat)
    requires i < |order|
    ensures order[i] in order
  {
  }

  lemma EnumeratesNone<T(!new)>(order: seq<T>)
    requires Enumerates(order, {})
    ensures order == []
  {
    if order != [] {
      IsElement(order, 0);
    }
  }

  lemma EnumeratesOne<T(!new)>(order: seq<T>, x: T)
    requires Enumerates(order, {x})
    ensures order == [x]
  {
    if |order| > 1 {
      IsElement(order, 0);
      IsElement(order, 1);
    } else {
      assert x in order;
    }
  }

  lemma NodeThere(env: Env, s: State)
    requires OpStep(env, Init(env), ApplyNode(NODE), s)
    ensures s == Init(env).(nodes := map["node" := Known([IP])])
  {
    var mid := Init(env).(nodes := map["node" := Known([IP])]);
    var pods, order :| Drains(map[], "node", pods, order) && PodsApplied(env, mid, pods, s);
    EnumeratesNone(order);
  }

  lemma PodThere(env: Env, s: State, s': State)
    requires s == Init(env).(nodes := map["node" := Known([IP])]) && OpStep(env, s, ApplyPod(PodOf("v1")), s')
    ensures Shows(env, s', "v1", None) && s'.namespaces["ns"].servers == map[] && s'.namespaces["ns"].authzs == map[]
  {
    PodIndexedAlone(env, EnsureNs(s, "ns"), s');
  }

  lemma PodIndexedAlone(env: Env, s: State, s': State)
    requires s.namespaces == map["ns" := EMPTY_NS] && s.lookups == map[] && PodIndexed(env, s, PodOf("v1"), [IP], s')
    ensures Shows(env, s', "v1", None) && s'.namespaces["ns"].servers == map[] && s'.namespaces["ns"].authzs == map[]
  {
    OnePort();
    var e := s'.namespaces["ns"].pods["pod"];
    assert FreshPort("ns", "pod", 80, map[], e, s.store, s'.store);
    assert RxMap(e.byPort, [IP]) == map[80 := Rx([IP], e.byPort[80].tx)];
  }

  /** Applying a server: an unbound port takes the one that claims it, a bound one that is still claimed
      keeps its holder. */
  lemma ServerThere(env: Env, s: State, app: string, was: Option<string>, srv: Resources.Server, s': State, now: string)
    requires Shows(env, s, app, was) && OpStep(env, s, ApplyServer(srv), s') && srv.ns == "ns"
    requires var claims := Claims(s'.namespaces["ns"].servers, App(app), map[], 80);
             if was.Some? then claims != {} && now == was.value else claims == {now}
    ensures Shows(env, s', app, Some(now))
  {
    var e, e' := s.namespaces["ns"].pods["pod"], s'.namespaces["ns"].pods["pod"];
    var servers := s'.namespaces["ns"].servers;
    assert PodLinked(servers, e, e', s.store.outer, s'.store.outer);
    assert PortLinked(servers, Claims(servers, App(app), map[], 80), e.defaultRx, e.byPort[80], e'.byPort[80],
                      s.store.outer[e.byPort[80].tx], s'.store.outer[e'.byPort[80].tx]);
  }

  // --- The program on these events ------------------------------------------------------------------

  /** The last event of a run. */
  lemma LastEvent(env: Env, evs: seq<E.Event>, ev: E.Event, ops: seq<Op>, s': State)
    returns (before: seq<Op>, s: State)
    requires E.EventsRun(env, Init(env), evs + [ev], ops, s')
    ensures E.EventsRun(env, Init(env), evs, before, s) && E.EventStep(env, s, ev, s')
    ensures E.SingleOp(ev).Some? ==> OpStep(env, s, E.SingleOp(ev).value, s')
  {
    assert (evs + [ev])[..|evs|] == evs;
    var last;
    before, s, last := E.LastEvent(env, evs + [ev], ops, s');
  }

  /** Node, pod and server are there, the port is bound to the server, and no other server is there. */
  ghost predicate Deployed(env: Env, s: State) {
    && Shows(env, s, "v1", Some("a"))
    && var n := s.namespaces["ns"];
    && n.servers.Keys == {"a"} && n.servers["a"].meta == MetaOf(ServerOf("a", "v1", Resources.CrdHttp1))
    && n.servers["a"].authorizations == map[] && n.authzs == map[]
  }

  /** With one pod and one port, the bindings are exact if the holder alone claims it. */
  lemma OneHolderIsExact(env: Env, s: State, app: string, n: string)
    requires Shows(env, s, app, Some(n)) && Claims(s.namespaces["ns"].servers, App(app), map[], 80) == {n}
    ensures Exact(s)
  {
    var here := s.namespaces["ns"];
    assert PodExact(here.servers, here.pods["pod"]);
    forall ns
      ensures NsExact(NsIn(s.namespaces, ns))
    {
    }
  }

  lemma OneServerClaims(env: Env, s: State)
    requires Deployed(env, s)
    ensures Claims(s.namespaces["ns"].servers, App("v1"), map[], 80) == {"a"}
    ensures Exact(s)
  {
    SelectsApp(s.namespaces["ns"].servers["a"].meta, "v1", "v1");
    OneHolderIsExact(env, s, "v1", "a");
  }

  lemma IsDeployed(env: Env, s: State, s': State)
    requires Shows(env, s, "v1", None) && s.namespaces["ns"].servers == map[] && s.namespaces["ns"].authzs == map[]
    requires OpStep(env, s, ApplyServer(ServerOf("a", "v1", Resources.CrdHttp1)), s')
    ensures Deployed(env, s')
  {
    var n := s'.namespaces["ns"];
    SelectsApp(n.servers["a"].meta, "v1", "v1");
    assert Claims(n.servers, App("v1"), map[], 80) == {"a"};
    ServerThere(env, s, "v1", None, ServerOf("a", "v1", Resources.CrdHttp1), s', "a");
  }

  lemma PreparedRun(env: Env, ops: seq<Op>, s: State)
    requires E.EventsRun(env, Init(env), PREPARED, ops, s)
    ensures Shows(env, s, "v1", None) && s.namespaces["ns"].servers == map[] && s.namespaces["ns"].authzs == map[]
  {
    var ops1, s1 := LastEvent(env, [E.NodeApplied(NODE)], E.PodApplied(PodOf("v1")), ops, s);
    assert [] + [E.NodeApplied(NODE)] == [E.NodeApplied(NODE)];
    var ops0, s0 := LastEvent(env, [], E.NodeApplied(NODE), ops1, s1);
    NodeThere(env, s1);
    PodThere(env, s1, s);
  }

  lemma DeployedRun(env: Env, ops: seq<Op>, s: State)
    requires E.EventsRun(env, Init(env), DEPLOYED, ops, s)
    ensures Deployed(env, s)
  {
    var before, s0 := LastEvent(env, PREPARED, E.ServerApplied(ServerOf("a", "v1", Resources.CrdHttp1)), ops, s);
    PreparedRun(env, before, s0);
    IsDeployed(env, s0, s);
  }

  // --- A handover -------------------------------------------------------------------------------------

  const CONTENDED := DEPLOYED + [E.ServerApplied(ServerOf("b", "v2", Resources.CrdHttp2))]
  const HANDED_OVER := CONTENDED + [E.PodApplied(PodOf("v2"))]

  ghost predicate Contended(env: Env, s: State) {
    && s.namespaces.Keys == {"ns"}
    && var servers := s.namespaces["ns"].servers;
    && servers.Keys == {"a", "b"}
    && servers["a"].meta == MetaOf(ServerOf("a", "v1", Resources.CrdHttp1))
    && servers["b"].meta == MetaOf(ServerOf("b", "v2", Resources.CrdHttp2))
  }

  lemma EachClaimsItsApp(env: Env, s: State)
    requires Contended(env, s)
    ensures Claims(s.namespaces["ns"].servers, App("v1"), map[], 80) == {"a"}
    ensures Claims(s.namespaces["ns"].servers, App("v2"), map[], 80) == {"b"}
  {
    var servers := s.namespaces["ns"].servers;
    SelectsApp(servers["a"].meta, "v1", "v1");
    SelectsApp(servers["a"].meta, "v1", "v2");
    SelectsApp(servers["b"].meta, "v2", "v1");
    SelectsApp(servers["b"].meta, "v2", "v2");
  }

  lemma ContendedRun(env: Env, ops: seq<Op>, s: State)
    requires E.EventsRun(env, Init(env), CONTENDED, ops, s)
    ensures Shows(env, s, "v1", Some("a")) && Contended(env, s) && Exact(s)
  {
    var srv := ServerOf("b", "v2", Resources.CrdHttp2);
    var before, s0 := LastEvent(env, DEPLOYED, E.ServerApplied(srv), ops, s);
    DeployedRun(env, before, s0);
    assert Contended(env, s);
    EachClaimsItsApp(env, s);
    ServerThere(env, s0, "v1", Some("a"), srv, s, "a");
    OneHolderIsExact(env, s, "v1", "a");
  }

  /** A pod relabelled from the app of one server to that of another stays with the first, in an index that
      was exactly bound before. */
  lemma HandedOverRun(env: Env, ops: seq<Op>, s: State)
    requires E.EventsRun(env, Init(env), HANDED_OVER, ops, s)
    ensures Shows(env, s, "v2", Some("a")) && Contended(env, s) && !Exact(s)
  {
    var before, s0 := LastEvent(env, CONTENDED, E.PodApplied(PodOf("v2")), ops, s);
    ContendedRun(env, before, s0);
    EachClaimsItsApp(env, s0);
    var servers, e, e' := s0.namespaces["ns"].servers, s0.namespaces["ns"].pods["pod"], s.namespaces["ns"].pods["pod"];
    assert App("v1")["app"] != App("v2")["app"];
    assert NsExact(NsIn(s0.namespaces, "ns")) && PodExact(servers, e);
    HandoverKeepsOldServer(servers, e, App("v2"), e', s0.store.outer, s.store.outer, 80, "a", "b");
    assert !NsExact(NsIn(s.namespaces, "ns"));
  }

  lemma HandedOverServes(env: Env, s: State)
    requires Inv(env, s) && Shows(env, s, "v2", Some("a")) && Contended(env, s)
    ensures var served := Served(s, "ns", "pod", 80); served.Some? && served.value.protocol == Http1
    ensures Claims(s.namespaces["ns"].servers, App("v2"), map[], 80) == {"b"}
    ensures s.namespaces["ns"].servers["b"].meta.protocol == Http2
  {
    EachClaimsItsApp(env, s);
    ShowsServed(env, s, "v2", Some("a"));
  }

  /** The program: it serves the first server's policy for a port that only the second one claims. */
  method Handover(env: Env) returns (r: Option<InboundServer>, ghost s: State)
    ensures exists ops :: E.EventsRun(env, Init(env), HANDED_OVER, ops, s)
    ensures "ns" in s.namespaces && "b" in s.namespaces["ns"].servers
    ensures Claims(s.namespaces["ns"].servers, App("v2"), map[], 80) == {"b"}
    ensures s.namespaces["ns"].servers["b"].meta.protocol == Http2
    ensures r.Some? && r.value.protocol == Http1
  {
    ghost var ops;
    r, ops, s := Answer(env, HANDED_OVER, "ns", "pod", 80);
    E.EventsKeepInv(env, HANDED_OVER, ops, s);
    HandedOverRun(env, ops, s);
    HandedOverServes(env, s);
  }

  // --- A renamed server ---------------------------------------------------------------------------------

  const LISTED := [ServerOf("n", "v1", Resources.CrdHttp1)]
  const RENAMED := DEPLOYED + [E.ServersRestarted(LISTED)]

  lemma OnlyHolderGoes(env: Env, s: State, gone: seq<Id>)
    requires Deployed(env, s) && Enumerates(gone, E.ServerIds(s) - E.ServersListed(LISTED))
    ensures E.ApplyServers(LISTED) == [ApplyServer(LISTED[0])] && E.RmServers(gone) == [RmServer("ns", "a")]
  {
    assert E.ServerIds(s) == {Id("ns", "a")} && E.ServersListed(LISTED) == {Id("ns", "n")};
    EnumeratesOne(gone, Id("ns", "a"));
  }

  lemma RenameSteps(env: Env, s: State, s': State) returns (mid: State)
    requires Deployed(env, s) && E.EventStep(env, s, E.ServersRestarted(LISTED), s')
    ensures OpStep(env, s, ApplyServer(LISTED[0]), mid) && s' == ServerRemoved(mid, "ns", "a")
  {
    var ops :| E.EventOps(s, E.ServersRestarted(LISTED), ops) && Steps(env, s, ops, s');
    var gone :| Enumerates(gone, E.ServerIds(s) - E.ServersListed(LISTED))
                && ops == E.ApplyServers(LISTED) + E.RmServers(gone);
    OnlyHolderGoes(env, s, gone);
    mid := StepsSplit(env, s, [ApplyServer(LISTED[0])], [RmServer("ns", "a")], s');
    E.OneOp(env, s, ApplyServer(LISTED[0]), mid);
    E.OneOp(env, mid, RmServer("ns", "a"), s');
  }

  lemma RenameKeepsHolder(env: Env, s: State, mid: State)
    requires Deployed(env, s) && OpStep(env, s, ApplyServer(LISTED[0]), mid)
    ensures Shows(env, mid, "v1", Some("a"))
    ensures Claims(mid.namespaces["ns"].servers, App("v1"), map[], 80) == {"a", "n"}
  {
    var servers := mid.namespaces["ns"].servers;
    SelectsApp(servers["a"].meta, "v1", "v1");
    SelectsApp(servers["n"].meta, "v1", "v1");
    assert "a" in Claims(servers, App("v1"), map[], 80);
    ServerThere(env, s, "v1", Some("a"), LISTED[0], mid, "a");
  }

  lemma HolderGoes(env: Env, mid: State, s: State)
    requires Shows(env, mid, "v1", Some("a")) && s == ServerRemoved(mid, "ns", "a")
    requires Claims(mid.namespaces["ns"].servers, App("v1"), map[], 80) == {"a", "n"}
    ensures Shows(env, s, "v1", None) && Claims(s.namespaces["ns"].servers, App("v1"), map[], 80) == {"n"}
  {
    assert Claims(s.namespaces["ns"].servers, App("v1"), map[], 80)
        == Claims(mid.namespaces["ns"].servers, App("v1"), map[], 80) - {"a"};
  }

  /** A restart that lists the server under another name leaves the port unbound although it is claimed, in
      an index that was exactly bound before. */
  lemma RenamedRun(env: Env, ops: seq<Op>, s: State)
    requires E.EventsRun(env, Init(env), RENAMED, ops, s)
    ensures Shows(env, s, "v1", None) && Claims(s.namespaces["ns"].servers, App("v1"), map[], 80) == {"n"}
    ensures !Exact(s)
  {
    var before, s0 := LastEvent(env, DEPLOYED, E.ServersRestarted(LISTED), ops, s);
    DeployedRun(env, before, s0);
    E.EventsKeepInv(env, DEPLOYED, before, s0);
    RenameIsInstance(env, s0, s);
    var mid := RenameSteps(env, s0, s);
    RenameKeepsHolder(env, s0, mid);
    HolderGoes(env, mid, s);
  }

  /** The state before the restart has everything that the general theorem asks for. */
  lemma RenameIsInstance(env: Env, s: State, s': State)
    requires Inv(env, s) && Deployed(env, s) && E.EventStep(env, s, E.ServersRestarted(LISTED), s')
    ensures Exact(s) && BoundAt(s, "ns", "pod", 80, App("v1"), map[], Some("a"))
    ensures !Exact(s') && BoundAt(s', "ns", "pod", 80, App("v1"), map[], None)
  {
    OneServerClaims(env, s);
    assert LISTED[0] == ServerOf("n", "v1", Resources.CrdHttp1);
    SelectsApp(MetaOf(LISTED[0]), "v1", "v1");
    assert LastOf(LISTED, "ns", "n") == Some(LISTED[0]);
    assert forall v | v in LISTED :: v == LISTED[0];
    RenamedServerIsUnbound(env, s, LISTED, s', "ns", "pod", 80, App("v1"), map[], "a", "n");
  }

  /** The program: it serves the default policy for a port that a server claims. */
  method Rename(env: Env) returns (r: Option<InboundServer>, ghost s: State)
    ensures exists ops :: E.EventsRun(env, Init(env), RENAMED, ops, s)
    ensures Shows(env, s, "v1", None) && Claims(s.namespaces["ns"].servers, App("v1"), map[], 80) == {"n"}
    ensures r == Some(MkServer([IP], DefaultConfig(env, env.defaultAllow)))
  {
    ghost var ops;
    r, ops, s := Answer(env, RENAMED, "ns", "pod", 80);
    E.EventsKeepInv(env, RENAMED, ops, s);
    RenamedRun(env, ops, s);
    ShowsServed(env, s, "v1", None);
  }

  // --- A changed protocol ---------------------------------------------------------------------------------

  const CHANGED := DEPLOYED + [E.ServerApplied(ServerOf("a", "v1", Resources.CrdHttp2))]

  lemma ChangedRun(env: Env, ops: seq<Op>, s: State)
    requires E.EventsRun(env, Init(env), CHANGED, ops, s)
    ensures Shows(env, s, "v1", Some("a")) && s.namespaces["ns"].servers["a"].meta.protocol == Http1
    ensures Latest(ops, "ns", "a") == Some(ServerOf("a", "v1", Resources.CrdHttp2))
  {
    var srv := ServerOf("a", "v1", Resources.CrdHttp2);
    var before, s0 := LastEvent(env, DEPLOYED, E.ServerApplied(srv), ops, s);
    DeployedRun(env, before, s0);
    var servers := s.namespaces["ns"].servers;
    SelectsApp(servers["a"].meta, "v1", "v1");
    assert "a" in Claims(servers, App("v1"), map[], 80);
    ServerThere(env, s0, "v1", Some("a"), srv, s, "a");
  }

  /** The program: it serves the protocol of the object that the server was created with after another was
      asked for. */
  method Change(env: Env) returns (r: Option<InboundServer>, ghost ops: seq<Op>)
    ensures exists s :: E.EventsRun(env, Init(env), CHANGED, ops, s)
    ensures Latest(ops, "ns", "a").Some? && Latest(ops, "ns", "a").value.proxyProtocol == Some(Resources.CrdHttp2)
    ensures r.Some? && r.value.protocol == Http1
  {
    ghost var s;
    r, ops, s := Answer(env, CHANGED, "ns", "pod", 80);
    E.EventsKeepInv(env, CHANGED, ops, s);
    ChangedRun(env, ops, s);
    ShowsServed(env, s, "v1", Some("a"));
  }

  // --- A stale authorization ---------------------------------------------------------------------------------

  const AUTHORIZED := DEPLOYED + [E.AuthzApplied(AuthzOf(true))]
  const RELISTED := [AuthzOf(false)]
  const STALE := AUTHORIZED + [E.AuthzsRestarted(RELISTED)]

  lemma AuthorizedRun(env: Env, ops: seq<Op>, s: State)
    requires E.EventsRun(env, Init(env), AUTHORIZED, ops, s)
    ensures Shows(env, s, "v1", Some("a"))
    ensures s.namespaces["ns"].authzs.Keys == {"z"} && "z" in s.namespaces["ns"].servers["a"].authorizations
  {
    var before, s0 := LastEvent(env, DEPLOYED, E.AuthzApplied(AuthzOf(true)), ops, s);
    DeployedRun(env, before, s0);
  }

  lemma RestartKeeps(env: Env, s: State, s': State)
    requires s.namespaces.Keys == {"ns"} && s.namespaces["ns"].authzs.Keys == {"z"}
    requires E.EventStep(env, s, E.AuthzsRestarted(RELISTED), s')
    ensures s' == s && !NoneStale(env, s, RELISTED)
  {
    var ops :| E.EventOps(s, E.AuthzsRestarted(RELISTED), ops) && Steps(env, s, ops, s');
    var gone :| Enumerates(gone, E.AuthzIds(s) - E.AuthzsListed(RELISTED))
                && ops == E.ApplyAuthzs(RELISTED) + E.DeleteAuthzs(gone);
    assert RELISTED[0] == AuthzOf(false);
    assert E.AuthzIds(s) == {Id("ns", "z")} && E.AuthzsListed(RELISTED) == {Id("ns", "z")};
    EnumeratesNone(gone);
    assert E.ApplyAuthzs(RELISTED) == [ApplyAuthz(RELISTED[0])] && E.DeleteAuthzs(gone) == [];
    E.OneOp(env, s, ApplyAuthz(RELISTED[0]), s');
    assert RELISTED[..0] == [];
    assert LastValid(env, RELISTED, Id("ns", "z")) == None;
    assert "z" in NsIn(s.namespaces, "ns").authzs;
  }

  lemma StaleRun(env: Env, ops: seq<Op>, s: State)
    requires E.EventsRun(env, Init(env), STALE, ops, s)
    ensures Shows(env, s, "v1", Some("a")) && !NoneStale(env, s, RELISTED)
    ensures "z" in s.namespaces["ns"].servers["a"].authorizations
  {
    var before, s0 := LastEvent(env, AUTHORIZED, E.AuthzsRestarted(RELISTED), ops, s);
    AuthorizedRun(env, before, s0);
    RestartKeeps(env, s0, s);
  }

  /** The program: it still admits clients by an authorization whose only object on the list does not parse. */
  method Relist(env: Env) returns (r: Option<InboundServer>, ghost s: State)
    ensures exists ops :: E.EventsRun(env, Init(env), STALE, ops, s)
    ensures !NoneStale(env, s, RELISTED)
    ensures r.Some? && "z" in r.value.authorizations
  {
    ghost var ops;
    r, ops, s := Answer(env, STALE, "ns", "pod", 80);
    E.EventsKeepInv(env, STALE, ops, s);
    StaleRun(env, ops, s);
    ShowsServed(env, s, "v1", Some("a"));
  }

  // --- A forgotten pod -----------------------------------------------------------------------------------------

  const WAITING := [E.PodApplied(PodOf("v1"))]
  const QUEUE_LOST := WAITING + [E.NodeDeleted("node")]
  const NODE_BACK := QUEUE_LOST + [E.NodeApplied(NODE)]
  const FORGOTTEN := NODE_BACK + [E.PodsRestarted([])]

  lemma WaitingState(env: Env, s: State)
    requires OpStep(env, Init(env), ApplyPod(PodOf("v1")), s)
    ensures s.namespaces == map["ns" := EMPTY_NS] && s.nodes.Keys == {"node"} && s.nodes["node"].Pending?
  {
  }

  lemma NodeBackState(env: Env, s: State, s': State)
    requires s.namespaces == map["ns" := EMPTY_NS] && s.nodes == map[] && OpStep(env, s, ApplyNode(NODE), s')
    ensures !Indexed(s', "ns", "pod")
  {
    var mid := s.(nodes := map["node" := Known([IP])]);
    var pods, order :| Drains(map[], "node", pods, order) && PodsApplied(env, mid, pods, s');
    EnumeratesNone(order);
  }

  lemma QueueLostRun(env: Env, ops: seq<Op>, s: State)
    requires E.EventsRun(env, Init(env), QUEUE_LOST, ops, s)
    ensures s.namespaces == map["ns" := EMPTY_NS] && s.nodes == map[]
    ensures ops == [ApplyPod(PodOf("v1"))] + [RemoveNode("node")]
  {
    var ops2, s2, last2 := E.LastEvent(env, QUEUE_LOST, ops, s);
    assert QUEUE_LOST[..1] == WAITING;
    var ops1, s1, last1 := E.LastEvent(env, WAITING, ops2, s2);
    assert WAITING[..0] == [] && ops1 == [] && s1 == Init(env);
    WaitingState(env, s2);
  }

  /** The pod is on record with its node's addresses, because its object is there and so is the node; the
      index has lost it with the node's queue. */
  lemma NodeBackRun(env: Env, ops: seq<Op>, s: State)
    requires E.EventsRun(env, Init(env), NODE_BACK, ops, s)
    ensures !Indexed(s, "ns", "pod")
    ensures ops == [ApplyPod(PodOf("v1"))] + [RemoveNode("node")] + [ApplyNode(NODE)]
  {
    var before, mid, last := E.LastEvent(env, NODE_BACK, ops, s);
    assert NODE_BACK[..2] == QUEUE_LOST;
    QueueLostRun(env, before, mid);
    NodeBackState(env, mid, s);
  }

  lemma QueueLostRecord(env: Env)
    ensures var ops := [ApplyPod(PodOf("v1"))] + [RemoveNode("node")];
            && Life(Rec(env, ops, "ns", "pod")) == Some(PodLife(PodOf("v1"), None))
            && Get(Nodes(env, ops), "node") == None
  {
    assert [] + [ApplyPod(PodOf("v1"))] == [ApplyPod(PodOf("v1"))];
    RecSnoc(env, [], ApplyPod(PodOf("v1")), "ns", "pod");
    NodesSnoc(env, [], ApplyPod(PodOf("v1")), "node");
    RecSnoc(env, [ApplyPod(PodOf("v1"))], RemoveNode("node"), "ns", "pod");
    NodesSnoc(env, [ApplyPod(PodOf("v1"))], RemoveNode("node"), "node");
  }

  lemma NodeBackRecord(env: Env)
    ensures Life(Rec(env, [ApplyPod(PodOf("v1"))] + [RemoveNode("node")] + [ApplyNode(NODE)], "ns", "pod"))
         == Some(PodLife(PodOf("v1"), Some([IP])))
  {
    var ops := [ApplyPod(PodOf("v1"))] + [RemoveNode("node")];
    QueueLostRecord(env);
    RecSnoc(env, ops, ApplyNode(NODE), "ns", "pod");
    NodesSnoc(env, ops, ApplyNode(NODE), "node");
    assert Hosts(NODE) == Some([IP]) by {
      HostsAreKubeletIps(NODE);
    }
  }

  /** On such objects, which are not stable, the pods on record need not be the live ones: a restart does not
      drop from the records what the index does not have. */
  lemma ForgottenRun(env: Env, ops: seq<Op>, s: State)
    requires E.EventsRun(env, Init(env), FORGOTTEN, ops, s)
    ensures LivePod(FORGOTTEN, "ns", "pod") == None && Rec(env, ops, "ns", "pod").Some?
  {
    var before, mid, more := E.LastEvent(env, FORGOTTEN, ops, s);
    assert FORGOTTEN[..3] == NODE_BACK;
    NodeBackRun(env, before, mid);
    NodeBackRecord(env);
    forall m
      ensures Get(Nodes(env, before), m) == LiveNode(FORGOTTEN, m)
    {
      RecordsAreLive(env, NODE_BACK, before, mid, "ns", m);
    }
    RestartRecorded(env, FORGOTTEN, before, mid, [], more, "ns", "pod");
  }
}
