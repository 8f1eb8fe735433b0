/** What the index takes in: after any events its servers, authorizations and nodes are the live ones, and
    so are the pods on record. */
module Intake {
  import opened Base
  import opened Net
  import opened Policy
  import Resources
  import opened IndexState
  import opened Invariant
  import opened Cluster
  import opened Refinement
  import opened Effects
  import opened Resets
  import opened ServerResets
  import opened Protocols
  import opened History
  import opened LiveObjects
  import E = Events

  // --- Which operations are about what ---------------------------------------------------------

  predicate OnServers(op: Op) {
    op.ApplyServer? || op.RmServer?
  }

  predicate OnAuthzs(op: Op) {
    op.ApplyAuthz? || op.DeleteAuthz?
  }

  predicate OnNodes(op: Op) {
    op.ApplyNode? || op.RemoveNode?
  }

  predicate AboutServers(ev: E.Event) {
    ev.ServerApplied? || ev.ServerDeleted? || ev.ServersRestarted?
  }

  predicate AboutAuthzs(ev: E.Event) {
    ev.AuthzApplied? || ev.AuthzDeleted? || ev.AuthzsRestarted?
  }

  predicate AboutNodes(ev: E.Event) {
    ev.NodeApplied? || ev.NodeDeleted? || ev.NodesRestarted?
  }

  /** The operations of an event are about what the event is about. */
  lemma EventOpsKind(s: State, ev: E.Event, ops: seq<Op>, op: Op)
    requires E.EventOps(s, ev, ops) && op in ops
    ensures OnServers(op) <==> AboutServers(ev)
    ensures OnAuthzs(op) <==> AboutAuthzs(ev)
    ensures OnNodes(op) <==> AboutNodes(ev)
  {
  }

  // --- Servers ---------------------------------------------------------------------------------

  lemma {:induction false} ServersKept(env: Env, s: State, ops: seq<Op>, s': State, ns: string)
    requires Steps(env, s, ops, s') && forall op | op in ops :: !OnServers(op)
    ensures Metas(NsIn(s'.namespaces, ns).servers) == Metas(NsIn(s.namespaces, ns).servers)
  {
    if ops != [] {
      var before, last := ops[..|ops| - 1], ops[|ops| - 1];
      assert last in ops && forall op | op in before :: op in ops;
      assert StepsThen(env, s, before, last, s');
      var mid :| Steps(env, s, before, mid) && OpStep(env, mid, last, s');
      ServersKept(env, s, before, mid, ns);
      OpOnServers(env, mid, last, s', ns);
    }
  }

  /** Everything from the latest object but the protocol, which is that of the first. */
  predicate Leads(m: ServerMeta, life: ServerLife) {
    && m.labels == life.latest.labels && m.port == life.latest.port && m.podSelector == life.latest.podSelector
    && Resources.AsksForProtocol(life.created.proxyProtocol, m.protocol)
  }

  ghost predicate ServerIsLive(evs: seq<E.Event>, servers: map<string, ServerMeta>, ns: string, x: string) {
    var life := LiveServer(evs, ns, x);
    (x in servers <==> life.Some?) && (x in servers ==> Leads(servers[x], life.value))
  }

  lemma RestartedServerIsLive(env: Env, evs: seq<E.Event>, s: State, l: seq<Resources.Server>, s': State, ns: string,
                              x: string)
    requires evs != [] && evs[|evs| - 1] == E.ServersRestarted(l)
    requires Inv(env, s) && E.EventStep(env, s, E.ServersRestarted(l), s')
    requires ServerIsLive(evs[..|evs| - 1], Metas(NsIn(s.namespaces, ns).servers), ns, x)
    ensures ServerIsLive(evs, Metas(NsIn(s'.namespaces, ns).servers), ns, x)
  {
    ServerResetIsExact(env, s, l, s', ns, x);
    LastIsListed(l, ns, x);
    MetasKeys(NsIn(s.namespaces, ns).servers, x);
    MetasKeys(NsIn(s'.namespaces, ns).servers, x);
    var first := FirstOf(l, ns, x);
    if first.Some? {
      Resources.MkProtocolMeaning(first.value.proxyProtocol, Resources.MkProtocol(first.value.proxyProtocol));
    }
  }

  lemma OneServerIsLive(env: Env, evs: seq<E.Event>, s: State, op: Op, s': State, ns: string, x: string)
    requires evs != [] && E.SingleOp(evs[|evs| - 1]) == Some(op) && AboutServers(evs[|evs| - 1])
    requires ServerIsLive(evs[..|evs| - 1], Metas(NsIn(s.namespaces, ns).servers), ns, x) && OpStep(env, s, op, s')
    ensures ServerIsLive(evs, Metas(NsIn(s'.namespaces, ns).servers), ns, x)
  {
    OpOnServers(env, s, op, s', ns);
    if op.ApplyServer? {
      Resources.MkProtocolMeaning(op.server.proxyProtocol, Resources.MkProtocol(op.server.proxyProtocol));
    }
  }

  lemma OtherEventsKeepServers(env: Env, s: State, ev: E.Event, ops: seq<Op>, s': State, ns: string)
    requires !AboutServers(ev) && E.EventOps(s, ev, ops) && Steps(env, s, ops, s')
    ensures Metas(NsIn(s'.namespaces, ns).servers) == Metas(NsIn(s.namespaces, ns).servers)
  {
    forall op | op in ops
      ensures !OnServers(op)
    {
      EventOpsKind(s, ev, ops, op);
    }
    ServersKept(env, s, ops, s', ns);
  }

  /** In every reachable state the indexed servers are exactly the live ones. */
  lemma {:induction false} ServersAreLive(env: Env, evs: seq<E.Event>, ops: seq<Op>, s: State, ns: string, x: string)
    requires E.EventsRun(env, Init(env), evs, ops, s)
    ensures ServerIsLive(evs, Metas(NsIn(s.namespaces, ns).servers), ns, x)
  {
    if evs != [] {
      var ev := evs[|evs| - 1];
      var before, mid, last := E.LastEvent(env, evs, ops, s);
      ServersAreLive(env, evs[..|evs| - 1], before, mid, ns, x);
      if ev.ServersRestarted? {
        RestartedServerIsLive(env, evs, mid, ev.servers, s, ns, x);
      } else if AboutServers(ev) {
        OneServerIsLive(env, evs, mid, E.SingleOp(ev).value, s, ns, x);
      } else {
        OtherEventsKeepServers(env, mid, ev, last, s, ns);
      }
    }
  }

  // --- Authorizations ------------------------------------------------------------------------------

  lemma OpOnAuthzs(env: Env, s: State, op: Op, s': State, ns: string)
    requires OpStep(env, s, op, s')
    ensures var authzs, authzs' := NsIn(s.namespaces, ns).authzs, NsIn(s'.namespaces, ns).authzs;
            authzs' == if op.ApplyAuthz? then AuthzsAfter(env, authzs, [op.authz], ns)
                       else if op.DeleteAuthz? && op.ns == ns then authzs - {op.name}
                       else authzs
  {
    match op {
      case ApplyAuthz(a) => AuthzAppliedEffect(env, s, a);
      case DeleteAuthz(other, name) => AuthzDeletedEffect(s, other, name);
      case ApplyPod(pod) => PodAppliedServers(env, s, pod, s');
      case RmPod(a, name) => PodRemovedServers(s, a, name, s');
      case ApplyNode(node) => NodeAppliedServers(env, s, node, s');
      case _ =>
    }
  }

  lemma {:induction false} AuthzsKept(env: Env, s: State, ops: seq<Op>, s': State, ns: string)
    requires Steps(env, s, ops, s') && forall op | op in ops :: !OnAuthzs(op)
    ensures NsIn(s'.namespaces, ns).authzs == NsIn(s.namespaces, ns).authzs
  {
    if ops != [] {
      var before, last := ops[..|ops| - 1], ops[|ops| - 1];
      assert last in ops && forall op | op in before :: op in ops;
      assert StepsThen(env, s, before, last, s');
      var mid :| Steps(env, s, before, mid) && OpStep(env, mid, last, s');
      AuthzsKept(env, s, before, mid, ns);
      OpOnAuthzs(env, mid, last, s', ns);
    }
  }

  ghost predicate AuthzIsLive(env: Env, evs: seq<E.Event>, authzs: map<string, Authz>, ns: string, x: string) {
    var life := LiveAuthz(evs, ns, x);
    && (x in authzs <==> life.Some?)
    && (x in authzs ==> Resources.MkAuthz(life.value, env.identityDomain) == Ok(authzs[x]))
  }

  lemma {:induction false} LastAcceptedIsValid(env: Env, l: seq<Resources.ServerAuthorization>, ns: string, x: string)
    ensures LastAccepted(l, ns, x).Some? <==> LastValid(env, l, Id(ns, x)).Some?
    ensures LastAccepted(l, ns, x).Some? ==>
              Resources.MkAuthz(LastAccepted(l, ns, x).value, env.identityDomain)
                == Ok(LastValid(env, l, Id(ns, x)).value)
  {
    if l != [] {
      LastAcceptedIsValid(env, l[..|l| - 1], ns, x);
      Resources.ParsesIfAccepted(l[|l| - 1], env.identityDomain);
    }
  }

  lemma RestartedAuthzIsLive(env: Env, evs: seq<E.Event>, s: State, l: seq<Resources.ServerAuthorization>, s': State,
                             ns: string, x: string)
    requires evs != [] && evs[|evs| - 1] == E.AuthzsRestarted(l)
    requires Inv(env, s) && E.EventStep(env, s, E.AuthzsRestarted(l), s')
    requires AuthzIsLive(env, evs[..|evs| - 1], NsIn(s.namespaces, ns).authzs, ns, x)
    ensures AuthzIsLive(env, evs, NsIn(s'.namespaces, ns).authzs, ns, x)
  {
    AuthzResetEffect(env, s, l, s');
    LastAcceptedIsValid(env, l, ns, x);
    assert AuthzsReset(env, l, ns, NsIn(s.namespaces, ns).authzs, NsIn(s'.namespaces, ns).authzs);
    assert Id(ns, x) in E.AuthzsListed(l) <==> exists a :: a in l && a.ns == ns && a.name == x;
  }

  lemma OneAuthzIsLive(env: Env, evs: seq<E.Event>, s: State, op: Op, s': State, ns: string, x: string)
    requires evs != [] && E.SingleOp(evs[|evs| - 1]) == Some(op) && AboutAuthzs(evs[|evs| - 1])
    requires AuthzIsLive(env, evs[..|evs| - 1], NsIn(s.namespaces, ns).authzs, ns, x) && OpStep(env, s, op, s')
    ensures AuthzIsLive(env, evs, NsIn(s'.namespaces, ns).authzs, ns, x)
  {
    OpOnAuthzs(env, s, op, s', ns);
    if op.ApplyAuthz? {
      AuthzsAfterOne(env, NsIn(s.namespaces, ns).authzs, op.authz, ns);
      Resources.ParsesIfAccepted(op.authz, env.identityDomain);
    }
  }

  lemma OtherEventsKeepAuthzs(env: Env, s: State, ev: E.Event, ops: seq<Op>, s': State, ns: string)
    requires !AboutAuthzs(ev) && E.EventOps(s, ev, ops) && Steps(env, s, ops, s')
    ensures NsIn(s'.namespaces, ns).authzs == NsIn(s.namespaces, ns).authzs
  {
    forall op | op in ops
      ensures !OnAuthzs(op)
    {
      EventOpsKind(s, ev, ops, op);
    }
    AuthzsKept(env, s, ops, s', ns);
  }

  /** In every reachable state the indexed authorizations are exactly the live ones. */
  lemma {:induction false} AuthzsAreLive(env: Env, evs: seq<E.Event>, ops: seq<Op>, s: State, ns: string, x: string)
    requires E.EventsRun(env, Init(env), evs, ops, s)
    ensures AuthzIsLive(env, evs, NsIn(s.namespaces, ns).authzs, ns, x)
  {
    if evs != [] {
      var ev := evs[|evs| - 1];
      var before, mid, last := E.LastEvent(env, evs, ops, s);
      AuthzsAreLive(env, evs[..|evs| - 1], before, mid, ns, x);
      if ev.AuthzsRestarted? {
        RestartedAuthzIsLive(env, evs, mid, ev.authzs, s, ns, x);
      } else if AboutAuthzs(ev) {
        OneAuthzIsLive(env, evs, mid, E.SingleOp(ev).value, s, ns, x);
      } else {
        OtherEventsKeepAuthzs(env, mid, ev, last, s, ns);
      }
    }
  }

  // --- Nodes --------------------------------------------------------------------------------------------

  function Addresses(nodes: map<string, NodeState>, m: string): Option<seq<IpAddr>> {
    if IsKnown(nodes, m) then Some(nodes[m].ips) else None
  }

  /** Observing a node gives it its addresses if it has none, and changes no other's. */
  lemma ApplyNodeOnNodes(env: Env, s: State, node: Resources.Node, s': State, m: string)
    requires NodeApplied(env, s, node, s')
    ensures Addresses(s'.nodes, m) ==
              if Addresses(s.nodes, m).None? && node.name == m then Hosts(node) else Addresses(s.nodes, m)
  {
    HostsAreKubeletIps(node);
    if !IsKnown(s.nodes, node.name) && Resources.KubeletIps(node).Ok? {
      var s1 := s.(nodes := s.nodes[node.name := Known(Resources.KubeletIps(node).value)]);
      var pods, order :| Drains(s.nodes, node.name, pods, order) && PodsApplied(env, s1, pods, s');
      PodsAppliedEffect(env, s1, pods, s');
      assert IsKnown(s'.nodes, m) <==> IsKnown(s1.nodes, m);
    }
  }

  lemma OpOnNodes(env: Env, s: State, op: Op, s': State, m: string)
    requires OpStep(env, s, op, s')
    ensures Addresses(s'.nodes, m) ==
              if op == RemoveNode(m) then None
              else if op.ApplyNode? && op.node.name == m && Addresses(s.nodes, m).None? then Hosts(op.node)
              else Addresses(s.nodes, m)
  {
    match op {
      case ApplyPod(pod) => PodAppliedQueues(env, s, pod, s');
      case ApplyNode(node) => ApplyNodeOnNodes(env, s, node, s', m);
      case _ =>
    }
  }

  lemma {:induction false} NodesKept(env: Env, s: State, ops: seq<Op>, s': State, m: string)
    requires Steps(env, s, ops, s') && forall op | op in ops :: !OnNodes(op)
    ensures Addresses(s'.nodes, m) == Addresses(s.nodes, m)
  {
    if ops != [] {
      var before, last := ops[..|ops| - 1], ops[|ops| - 1];
      assert last in ops && forall op | op in before :: op in ops;
      assert StepsThen(env, s, before, last, s');
      var mid :| Steps(env, s, before, mid) && OpStep(env, mid, last, s');
      NodesKept(env, s, before, mid, m);
      OpOnNodes(env, mid, last, s', m);
    }
  }

  lemma {:induction false} ApplyNodesEffect(env: Env, s: State, l: seq<Resources.Node>, s': State, m: string)
    requires Steps(env, s, E.ApplyNodes(l), s')
    ensures Addresses(s'.nodes, m) ==
              if Addresses(s.nodes, m).None? then FirstHosts(l, m) else Addresses(s.nodes, m)
  {
    if l != [] {
      var k := |l| - 1;
      assert E.ApplyNodes(l)[..k] == E.ApplyNodes(l[..k]) && E.ApplyNodes(l)[k] == ApplyNode(l[k]);
      assert StepsThen(env, s, E.ApplyNodes(l[..k]), ApplyNode(l[k]), s');
      var mid :| Steps(env, s, E.ApplyNodes(l[..k]), mid) && OpStep(env, mid, ApplyNode(l[k]), s');
      ApplyNodesEffect(env, s, l[..k], mid, m);
      OpOnNodes(env, mid, ApplyNode(l[k]), s', m);
    }
  }

  lemma {:induction false} RemoveNodesEffect(env: Env, s: State, gone: seq<string>, s': State, m: string)
    requires Steps(env, s, E.RemoveNodes(gone), s')
    ensures Addresses(s'.nodes, m) == if m in gone then None else Addresses(s.nodes, m)
  {
    if gone != [] {
      var k := |gone| - 1;
      assert E.RemoveNodes(gone)[..k] == E.RemoveNodes(gone[..k]) && E.RemoveNodes(gone)[k] == RemoveNode(gone[k]);
      assert StepsThen(env, s, E.RemoveNodes(gone[..k]), RemoveNode(gone[k]), s');
      var mid :| Steps(env, s, E.RemoveNodes(gone[..k]), mid) && OpStep(env, mid, RemoveNode(gone[k]), s');
      RemoveNodesEffect(env, s, gone[..k], mid, m);
      OpOnNodes(env, mid, RemoveNode(gone[k]), s', m);
      assert gone == gone[..k] + [gone[k]];
    }
  }

  lemma NodesRestartedEffect(env: Env, s: State, l: seq<Resources.Node>, s': State, m: string)
    requires E.EventStep(env, s, E.NodesRestarted(l), s')
    ensures var before := Addresses(s.nodes, m);
            Addresses(s'.nodes, m) ==
              if before.None? then FirstHosts(l, m)
              else if exists node :: node in l && node.name == m then before
              else None
  {
    var ops :| E.EventOps(s, E.NodesRestarted(l), ops) && Steps(env, s, ops, s');
    var gone :| Enumerates(gone, E.KnownNames(s) - E.NodesListed(l)) && ops == E.ApplyNodes(l) + E.RemoveNodes(gone);
    var mid := StepsSplit(env, s, E.ApplyNodes(l), E.RemoveNodes(gone), s');
    ApplyNodesEffect(env, s, l, mid, m);
    RemoveNodesEffect(env, mid, gone, s', m);
    assert m in E.NodesListed(l) <==> exists node :: node in l && node.name == m;
    assert m in gone <==> m in E.KnownNames(s) - E.NodesListed(l);
  }

  /** In every reachable state the known nodes are exactly the live ones. */
  lemma {:induction false} NodesAreLive(env: Env, evs: seq<E.Event>, ops: seq<Op>, s: State, m: string)
    requires E.EventsRun(env, Init(env), evs, ops, s)
    ensures Addresses(s.nodes, m) == LiveNode(evs, m)
  {
    if evs != [] {
      var ev := evs[|evs| - 1];
      var before, mid, last := E.LastEvent(env, evs, ops, s);
      NodesAreLive(env, evs[..|evs| - 1], before, mid, m);
      if ev.NodesRestarted? {
        NodesRestartedEffect(env, mid, ev.nodes, s, m);
      } else if AboutNodes(ev) {
        OpOnNodes(env, mid, E.SingleOp(ev).value, s, m);
      } else {
        forall op | op in last
          ensures !OnNodes(op)
        {
          EventOpsKind(mid, ev, last, op);
        }
        NodesKept(env, mid, last, s, m);
      }
    }
  }

  // --- The records have them too --------------------------------------------------------------------------

  lemma {:induction false} RunOnAuthzs(env: Env, ops: seq<Op>, s: State, ns: string)
    requires Steps(env, Init(env), ops, s)
    ensures RecordsOf(CRun(env, EMPTY, ops), ns).authzs == NsIn(s.namespaces, ns).authzs
  {
    if ops != [] {
      var before, last := ops[..|ops| - 1], ops[|ops| - 1];
      assert StepsThen(env, Init(env), before, last, s);
      var mid :| Steps(env, Init(env), before, mid) && OpStep(env, mid, last, s);
      RunOnAuthzs(env, before, mid, ns);
      StepOnAuthzs(env, CRun(env, EMPTY, before), last, ns);
      OpOnAuthzs(env, mid, last, s, ns);
      if last.ApplyAuthz? {
        AuthzsAfterOne(env, NsIn(mid.namespaces, ns).authzs, last.authz, ns);
      }
    }
  }

  lemma StepOnNodes(env: Env, c: Cluster, op: Op, m: string)
    ensures Get(CStep(env, c, op).nodes, m) ==
              if op == RemoveNode(m) then None
              else if op.ApplyNode? && op.node.name == m && Get(c.nodes, m).None? then Hosts(op.node)
              else Get(c.nodes, m)
  {
    if op.ApplyNode? {
      HostsAreKubeletIps(op.node);
    }
  }

  lemma {:induction false} RunOnNodes(env: Env, ops: seq<Op>, s: State, m: string)
    requires Steps(env, Init(env), ops, s)
    ensures Get(CRun(env, EMPTY, ops).nodes, m) == Addresses(s.nodes, m)
  {
    if ops != [] {
      var before, last := ops[..|ops| - 1], ops[|ops| - 1];
      assert StepsThen(env, Init(env), before, last, s);
      var mid :| Steps(env, Init(env), before, mid) && OpStep(env, mid, last, s);
      RunOnNodes(env, before, mid, m);
      StepOnNodes(env, CRun(env, EMPTY, before), last, m);
      OpOnNodes(env, mid, last, s, m);
    }
  }

  /** The servers, authorizations and nodes on record are exactly the live ones, after any events. */
  lemma RecordsAreLive(env: Env, evs: seq<E.Event>, ops: seq<Op>, s: State, ns: string, x: string)
    requires E.EventsRun(env, Init(env), evs, ops, s)
    ensures var c := CRun(env, EMPTY, ops);
            && ServerIsLive(evs, RecordsOf(c, ns).servers, ns, x)
            && AuthzIsLive(env, evs, RecordsOf(c, ns).authzs, ns, x)
            && Get(c.nodes, x) == LiveNode(evs, x)
  {
    E.EventsRunIsSteps(env, Init(env), evs, ops, s);
    RunOnServers(env, ops, s);
    RunOnAuthzs(env, ops, s, ns);
    RunOnNodes(env, ops, s, x);
    ServersAreLive(env, evs, ops, s, ns, x);
    AuthzsAreLive(env, evs, ops, s, ns, x);
    NodesAreLive(env, evs, ops, s, x);
  }
}
