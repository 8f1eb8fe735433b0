/** Which protocol a server publishes. The comparison in `SrvIndex::apply` takes a new protocol only
    if it equals the old one, so a server keeps the protocol it was created with. */
module Protocols {
  import opened Base
  import opened Policy
  import Resources
  import opened Watch
  import opened IndexState
  import opened Invariant
  import opened Cluster
  import opened Refinement
  import opened Binding

  // --- What a run of operations says about one server --------------------------------------

  predicate AppliesTo(op: Op, ns: string, x: string) {
    op.ApplyServer? && op.server.ns == ns && op.server.name == x
  }

  /** The first object applied since the server was last absent. */
  function Creation(ops: seq<Op>, ns: string, x: string): Option<Resources.Server> {
    if ops == [] then None
    else
      var before, op := Creation(ops[..|ops| - 1], ns, x), ops[|ops| - 1];
      if op == RmServer(ns, x) then None
      else if AppliesTo(op, ns, x) && before.None? then Some(op.server)
      else before
  }

  /** The last object applied since the server was last absent. */
  function Latest(ops: seq<Op>, ns: string, x: string): Option<Resources.Server> {
    if ops == [] then None
    else
      var op := ops[|ops| - 1];
      if op == RmServer(ns, x) then None
      else if AppliesTo(op, ns, x) then Some(op.server)
      else Latest(ops[..|ops| - 1], ns, x)
  }

  /** A live server has the labels, port and pod selector of its latest object and the protocol of the
      object it was created with. */
  lemma {:induction false} RecordsKeepCreation(env: Env, ops: seq<Op>, ns: string, x: string)
    ensures var servers, created, latest := RecordsOf(CRun(env, EMPTY, ops), ns).servers, Creation(ops, ns, x),
              Latest(ops, ns, x);
            && (x in servers <==> created.Some?) && (x in servers <==> latest.Some?)
            && (x in servers ==>
                  servers[x] == ServerMeta(latest.value.labels, latest.value.port, latest.value.podSelector,
                                           Resources.MkProtocol(created.value.proxyProtocol)))
  {
    if ops != [] {
      RecordsKeepCreation(env, ops[..|ops| - 1], ns, x);
      StepOnServers(env, CRun(env, EMPTY, ops[..|ops| - 1]), ops[|ops| - 1], ns);
    }
  }

  /** What an operation does to a namespace's servers. */
  function ServersStep(servers: map<string, ServerMeta>, op: Op, ns: string): map<string, ServerMeta> {
    if op.ApplyServer? && op.server.ns == ns then ServerPut(NO_RECORDS.(servers := servers), op.server).servers
    else if op.RmServer? && op.ns == ns then servers - {op.name}
    else servers
  }

  lemma StepOnServers(env: Env, c: Cluster, op: Op, ns: string)
    ensures RecordsOf(CStep(env, c, op), ns).servers == ServersStep(RecordsOf(c, ns).servers, op, ns)
  {
  }

  // --- The index has the servers on record, whatever else happens -----------------------------

  ghost predicate ServersOnRecord(c: Cluster, s: State) {
    forall ns :: RecordsOf(c, ns).servers == Metas(NsIn(s.namespaces, ns).servers)
  }

  /** Servers and authorizations are as they were. */
  ghost predicate SameServers(s: State, s': State) {
    forall ns ::
      && NsIn(s'.namespaces, ns).servers == NsIn(s.namespaces, ns).servers
      && NsIn(s'.namespaces, ns).authzs == NsIn(s.namespaces, ns).authzs
  }

  lemma PodAppliedServersAt(env: Env, s: State, pod: Resources.Pod, s': State, ns: string)
    requires PodApplied(env, s, pod, s')
    ensures NsIn(s'.namespaces, ns).servers == NsIn(s.namespaces, ns).servers
  {
  }

  lemma PodAppliedAuthzsAt(env: Env, s: State, pod: Resources.Pod, s': State, ns: string)
    requires PodApplied(env, s, pod, s')
    ensures NsIn(s'.namespaces, ns).authzs == NsIn(s.namespaces, ns).authzs
  {
  }

  lemma PodAppliedServers(env: Env, s: State, pod: Resources.Pod, s': State)
    requires PodApplied(env, s, pod, s')
    ensures SameServers(s, s')
  {
    forall ns
      ensures NsIn(s'.namespaces, ns).servers == NsIn(s.namespaces, ns).servers
      ensures NsIn(s'.namespaces, ns).authzs == NsIn(s.namespaces, ns).authzs
    {
      PodAppliedServersAt(env, s, pod, s', ns);
      PodAppliedAuthzsAt(env, s, pod, s', ns);
    }
  }

  lemma {:induction false} PodsAppliedServers(env: Env, s: State, pods: seq<Resources.Pod>, s': State)
    requires PodsApplied(env, s, pods, s')
    ensures SameServers(s, s')
  {
    if pods != [] {
      var before, last := pods[..|pods| - 1], pods[|pods| - 1];
      assert PodsAppliedThen(env, s, before, last, s');
      var mid :| PodsApplied(env, s, before, mid) && PodApplied(env, mid, last, s');
      PodsAppliedServers(env, s, before, mid);
      PodAppliedServers(env, mid, last, s');
    }
  }

  lemma AuthzDeletedServers(s: State, a: string, name: string, ns: string)
    ensures Metas(NsIn(AuthzDeleted(s, a, name).namespaces, ns).servers) == Metas(NsIn(s.namespaces, ns).servers)
  {
  }

  lemma ServerAppliedServers(s: State, srv: Resources.Server, s': State, ns: string)
    requires ServerApplied(s, srv, s')
    ensures Metas(NsIn(s'.namespaces, ns).servers) ==
              ServersStep(Metas(NsIn(s.namespaces, ns).servers), ApplyServer(srv), ns)
  {
  }

  lemma ServerRemovedServers(s: State, a: string, name: string, ns: string)
    ensures Metas(NsIn(ServerRemoved(s, a, name).namespaces, ns).servers)
         == ServersStep(Metas(NsIn(s.namespaces, ns).servers), RmServer(a, name), ns)
  {
  }

  lemma PodRemovedServers(s: State, ns: string, x: string, s': State)
    requires PodRemoved(s, ns, x, s')
    ensures SameServers(s, s')
  {
  }

  lemma NodeAppliedServers(env: Env, s: State, node: Resources.Node, s': State)
    requires NodeApplied(env, s, node, s')
    ensures SameServers(s, s')
  {
    if !(IsKnown(s.nodes, node.name) || Resources.KubeletIps(node).Err?) {
      var s1 := s.(nodes := s.nodes[node.name := Known(Resources.KubeletIps(node).value)]);
      var pods, order :| Drains(s.nodes, node.name, pods, order) && PodsApplied(env, s1, pods, s');
      PodsAppliedServers(env, s1, pods, s');
    }
  }

  lemma OpOnServers(env: Env, s: State, op: Op, s': State, ns: string)
    requires OpStep(env, s, op, s')
    ensures Metas(NsIn(s'.namespaces, ns).servers) == ServersStep(Metas(NsIn(s.namespaces, ns).servers), op, ns)
  {
    match op {
      case ApplyAuthz(a) => AuthzAppliedState(env, s, a);
      case DeleteAuthz(a, name) => AuthzDeletedServers(s, a, name, ns);
      case ApplyServer(srv) => ServerAppliedServers(s, srv, s', ns);
      case RmServer(a, name) => ServerRemovedServers(s, a, name, ns);
      case ApplyPod(pod) => PodAppliedServers(env, s, pod, s');
      case RmPod(a, name) => PodRemovedServers(s, a, name, s');
      case ApplyNode(node) => NodeAppliedServers(env, s, node, s');
      case ClearPending =>
      case RemoveNode(_) =>
    }
  }

  lemma {:induction false} RunOnServers(env: Env, ops: seq<Op>, s: State)
    requires Steps(env, Init(env), ops, s)
    ensures ServersOnRecord(CRun(env, EMPTY, ops), s)
  {
    if ops != [] {
      var before, last := ops[..|ops| - 1], ops[|ops| - 1];
      assert StepsThen(env, Init(env), before, last, s);
      var mid :| Steps(env, Init(env), before, mid) && OpStep(env, mid, last, s);
      RunOnServers(env, before, mid);
      forall ns
        ensures RecordsOf(CRun(env, EMPTY, ops), ns).servers == Metas(NsIn(s.namespaces, ns).servers)
      {
        StepOnServers(env, CRun(env, EMPTY, before), last, ns);
        OpOnServers(env, mid, last, s, ns);
      }
    }
  }

  /** After any run of operations, every live server publishes the protocol of the object it was
      created with; that is the protocol of its latest object exactly when the two ask for the same. */
  lemma PublishedProtocolIsFrozen(env: Env, ops: seq<Op>, s: State, ns: string, x: string)
    requires Steps(env, Init(env), ops, s) && ns in s.namespaces && x in s.namespaces[ns].servers
    ensures Creation(ops, ns, x).Some? && Latest(ops, ns, x).Some?
    ensures var srv := s.namespaces[ns].servers[x];
            var created := Resources.MkProtocol(Creation(ops, ns, x).value.proxyProtocol);
            var latest := Resources.MkProtocol(Latest(ops, ns, x).value.proxyProtocol);
            && srv.chan in s.store.inner
            && s.store.inner[srv.chan].protocol == srv.meta.protocol == created
            && (s.store.inner[srv.chan].protocol == latest <==> latest == created)
  {
    InitInv(env);
    RunInv(env, Init(env), ops, s);
    assert NsOk(ns, s.namespaces[ns], s.store);
    assert ServerOk(ns, x, s.namespaces[ns].servers[x], s.namespaces[ns].authzs, s.store.inner);
    RunOnServers(env, ops, s);
    RecordsKeepCreation(env, ops, ns, x);
    assert RecordsOf(CRun(env, EMPTY, ops), ns).servers == Metas(NsIn(s.namespaces, ns).servers);
    assert x in Metas(s.namespaces[ns].servers);
  }
}
