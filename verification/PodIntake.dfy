/** The pods on record are the live ones, with the addresses of the first moment at which a pod and its node
    were there together. */
module PodIntake {
  import opened Base
  import opened Net
  import opened Policy
  import Resources
  import opened IndexState
  import opened Invariant
  import opened Cluster
  import opened Refinement
  import opened Effects
  import opened Resets
  import opened Agreement
  import opened History
  import opened LiveObjects
  import opened Intake
  import E = Events

  // --- One pod's record ---------------------------------------------------------------------------

  function Nodes(env: Env, ops: seq<Op>): map<string, seq<IpAddr>> {
    CRun(env, EMPTY, ops).nodes
  }

  function Rec(env: Env, ops: seq<Op>, ns: string, x: string): Option<PodRecord> {
    Get(RecordsOf(CRun(env, EMPTY, ops), ns).pods, x)
  }

  lemma RunSnoc(env: Env, c: Cluster, ops: seq<Op>, op: Op)
    ensures CRun(env, c, ops + [op]) == CStep(env, CRun(env, c, ops), op)
  {
    assert (ops + [op])[..|ops|] == ops;
  }

  /** What an operation makes of the record. */
  function Recorded(before: Option<PodRecord>, op: Op, nodes: map<string, seq<IpAddr>>, ns: string, x: string)
    : Option<PodRecord>
  {
    if op == RmPod(ns, x) then None
    else if op.ApplyPod? && op.pod.ns == ns && op.pod.name == x then
      Some(Placed(nodes, PodRecord(op.pod, if before.Some? then before.value.ips else None)))
    else if before.None? || (op == ClearPending && before.value.ips.None?) then None
    else Some(Placed(nodes, before.value))
  }

  /** A pod without addresses is not assigned to a node that has some. */
  predicate Homeless(nodes: map<string, seq<IpAddr>>, rec: Option<PodRecord>) {
    rec.Some? && rec.value.ips.None? ==> Place(nodes, rec.value.pod).None?
  }

  lemma RecNext(env: Env, ops: seq<Op>, op: Op, ns: string, x: string)
    requires Homeless(Nodes(env, ops), Rec(env, ops, ns, x))
    ensures Rec(env, ops + [op], ns, x) == Recorded(Rec(env, ops, ns, x), op, Nodes(env, ops + [op]), ns, x)
  {
    var c := CRun(env, EMPTY, ops);
    RunSnoc(env, EMPTY, ops, op);
    StepOnPod(env, c, op, ns, x);
    StepOnPods(env, c, op, ns, x);
  }

  lemma {:induction false} AllHomeless(env: Env, ops: seq<Op>, ns: string, x: string)
    ensures Homeless(Nodes(env, ops), Rec(env, ops, ns, x))
  {
    if ops != [] {
      var k := |ops| - 1;
      AllHomeless(env, ops[..k], ns, x);
      RecNext(env, ops[..k], ops[k], ns, x);
      assert ops[..k] + [ops[k]] == ops;
    }
  }

  lemma RecSnoc(env: Env, ops: seq<Op>, op: Op, ns: string, x: string)
    ensures Rec(env, ops + [op], ns, x) == Recorded(Rec(env, ops, ns, x), op, Nodes(env, ops + [op]), ns, x)
  {
    AllHomeless(env, ops, ns, x);
    RecNext(env, ops, op, ns, x);
  }

  lemma NodesSnoc(env: Env, ops: seq<Op>, op: Op, m: string)
    ensures Get(Nodes(env, ops + [op]), m) ==
              if op == RemoveNode(m) then None
              else if op.ApplyNode? && op.node.name == m && Get(Nodes(env, ops), m).None? then Hosts(op.node)
              else Get(Nodes(env, ops), m)
  {
    RunSnoc(env, EMPTY, ops, op);
    StepOnNodes(env, CRun(env, EMPTY, ops), op, m);
  }

  lemma SameNodesSnoc(env: Env, ops: seq<Op>, op: Op)
    requires !OnNodes(op)
    ensures Nodes(env, ops + [op]) == Nodes(env, ops)
  {
    RunSnoc(env, EMPTY, ops, op);
  }

  // --- Lists of pods --------------------------------------------------------------------------------

  function Life(rec: Option<PodRecord>): Option<PodLife> {
    if rec.Some? then Some(PodLife(rec.value.pod, rec.value.ips)) else None
  }

  ghost predicate LiveNodes(evs: seq<E.Event>, nodes: map<string, seq<IpAddr>>) {
    forall m :: Get(nodes, m) == LiveNode(evs, m)
  }

  lemma PlacedIsSettled(evs: seq<E.Event>, nodes: map<string, seq<IpAddr>>, rec: PodRecord)
    requires LiveNodes(evs, nodes)
    ensures Life(Some(Placed(nodes, rec))) == Some(Settle(evs, PodLife(rec.pod, rec.ips)))
  {
    var m := Resources.NodeName(rec.pod);
    if m.Some? {
      assert Get(nodes, m.value) == LiveNode(evs, m.value);
    }
  }

  lemma {:induction false} ApplyPodsRecorded(env: Env, evs: seq<E.Event>, ops: seq<Op>, l: seq<Resources.Pod>, ns: string,
                                             x: string)
    requires LiveNodes(evs, Nodes(env, ops))
    ensures Nodes(env, ops + E.ApplyPods(l)) == Nodes(env, ops)
    ensures Life(Rec(env, ops + E.ApplyPods(l), ns, x)) == Listed(evs, Life(Rec(env, ops, ns, x)), l, ns, x)
  {
    if l == [] {
      assert ops + E.ApplyPods(l) == ops;
    } else {
      var k := |l| - 1;
      var before, op := ops + E.ApplyPods(l[..k]), ApplyPod(l[k]);
      ApplyPodsRecorded(env, evs, ops, l[..k], ns, x);
      assert ops + E.ApplyPods(l) == before + [op];
      SameNodesSnoc(env, before, op);
      RecSnoc(env, before, op, ns, x);
      AllHomeless(env, before, ns, x);
      var rec := Rec(env, before, ns, x);
      if l[k].ns == ns && l[k].name == x {
        PlacedIsSettled(evs, Nodes(env, ops), PodRecord(l[k], if rec.Some? then rec.value.ips else None));
      }
    }
  }

  lemma {:induction false} RmPodsRecorded(env: Env, ops: seq<Op>, gone: seq<Id>, ns: string, x: string)
    ensures Nodes(env, ops + E.RmPods(gone)) == Nodes(env, ops)
    ensures Rec(env, ops + E.RmPods(gone), ns, x) == if Id(ns, x) in gone then None else Rec(env, ops, ns, x)
  {
    if gone == [] {
      assert ops + E.RmPods(gone) == ops;
    } else {
      var k := |gone| - 1;
      var before, op := ops + E.RmPods(gone[..k]), RmPod(gone[k].ns, gone[k].name);
      RmPodsRecorded(env, ops, gone[..k], ns, x);
      assert ops + E.RmPods(gone) == before + [op];
      assert gone == gone[..k] + [gone[k]];
      SameNodesSnoc(env, before, op);
      RecSnoc(env, before, op, ns, x);
      AllHomeless(env, before, ns, x);
    }
  }

  predicate IsListed(l: seq<Resources.Pod>, ns: string, x: string) {
    exists pod :: pod in l && pod.ns == ns && pod.name == x
  }

  function Kept(before: Option<PodLife>): Option<PodLife> {
    if before.Some? && before.value.ips.Some? then before else None
  }

  lemma {:induction false} UnlistedIsKept(evs: seq<E.Event>, before: Option<PodLife>, l: seq<Resources.Pod>, ns: string,
                                          x: string)
    requires !IsListed(l, ns, x)
    ensures Listed(evs, before, l, ns, x) == before
  {
    if l != [] {
      assert l[|l| - 1] in l && forall pod | pod in l[..|l| - 1] :: pod in l;
      UnlistedIsKept(evs, before, l[..|l| - 1], ns, x);
    }
  }

  lemma GonePods(s: State, l: seq<Resources.Pod>, more: seq<Op>, ns: string, x: string) returns (gone: seq<Id>)
    requires E.EventOps(s, E.PodsRestarted(l), more)
    ensures more == [Op.ClearPending] + E.ApplyPods(l) + E.RmPods(gone)
    ensures Id(ns, x) in gone <==> Indexed(s, ns, x) && !IsListed(l, ns, x)
  {
    gone :| Enumerates(gone, E.PodIds(s) - E.PodsListed(l))
            && more == [Op.ClearPending] + E.ApplyPods(l) + E.RmPods(gone);
    IndexedIds(s, ns, x);
    assert Id(ns, x) in E.PodsListed(l) <==> IsListed(l, ns, x);
    assert Id(ns, x) in gone <==> Id(ns, x) in E.PodIds(s) - E.PodsListed(l);
  }

  /** What the list makes of the record, once the queues are dropped. */
  lemma ListRecorded(env: Env, evs: seq<E.Event>, ops: seq<Op>, l: seq<Resources.Pod>, ns: string, x: string)
    requires LiveNodes(evs, Nodes(env, ops))
    ensures Life(Rec(env, ops + [Op.ClearPending] + E.ApplyPods(l), ns, x))
         == Listed(evs, Kept(Life(Rec(env, ops, ns, x))), l, ns, x)
  {
    SameNodesSnoc(env, ops, Op.ClearPending);
    RecSnoc(env, ops, Op.ClearPending, ns, x);
    ApplyPodsRecorded(env, evs, ops + [Op.ClearPending], l, ns, x);
  }

  lemma Regrouped(a: seq<Op>, b: seq<Op>, c: seq<Op>, d: seq<Op>)
    ensures a + (b + c + d) == a + b + c + d
  {
  }

  lemma RemainingRecorded(env: Env, evs: seq<E.Event>, ops: seq<Op>, l: seq<Resources.Pod>, gone: seq<Id>, ns: string,
                          x: string)
    requires LiveNodes(evs, Nodes(env, ops))
    ensures var kept := Kept(Life(Rec(env, ops, ns, x)));
            Life(Rec(env, ops + ([Op.ClearPending] + E.ApplyPods(l) + E.RmPods(gone)), ns, x)) ==
              if Id(ns, x) in gone then None else Listed(evs, kept, l, ns, x)
  {
    var mid := ops + [Op.ClearPending] + E.ApplyPods(l);
    ListRecorded(env, evs, ops, l, ns, x);
    RmPodsRecorded(env, mid, gone, ns, x);
    Regrouped(ops, [Op.ClearPending], E.ApplyPods(l), E.RmPods(gone));
  }

  /** What a restart makes of the record: a listed pod is taken as listed, one that is not goes if it is
      indexed. */
  lemma RestartRecorded(env: Env, evs: seq<E.Event>, ops: seq<Op>, s: State, l: seq<Resources.Pod>, more: seq<Op>,
                        ns: string, x: string)
    requires E.EventOps(s, E.PodsRestarted(l), more) && LiveNodes(evs, Nodes(env, ops))
    ensures var kept := Kept(Life(Rec(env, ops, ns, x)));
            Life(Rec(env, ops + more, ns, x)) ==
              if IsListed(l, ns, x) then Listed(evs, kept, l, ns, x)
              else if Indexed(s, ns, x) then None
              else kept
  {
    var gone := GonePods(s, l, more, ns, x);
    RemainingRecorded(env, evs, ops, l, gone, ns, x);
    if !IsListed(l, ns, x) {
      UnlistedIsKept(evs, Kept(Life(Rec(env, ops, ns, x))), l, ns, x);
    }
  }

  /** Exactly when a restart leaves the right record: unless the pod is not listed and on record as
      discoverable without being indexed. */
  lemma RestartIsLiveIff(env: Env, evs: seq<E.Event>, ops: seq<Op>, s: State, l: seq<Resources.Pod>, more: seq<Op>,
                         ns: string, x: string)
    requires evs != [] && evs[|evs| - 1] == E.PodsRestarted(l) && E.EventOps(s, E.PodsRestarted(l), more)
    requires LiveNodes(evs, Nodes(env, ops))
    requires Life(Rec(env, ops, ns, x)) == LivePod(evs[..|evs| - 1], ns, x)
    ensures Life(Rec(env, ops + more, ns, x)) == LivePod(evs, ns, x) <==>
              IsListed(l, ns, x) || Indexed(s, ns, x) || Kept(Life(Rec(env, ops, ns, x))).None?
  {
    RestartRecorded(env, evs, ops, s, l, more, ns, x);
  }

  // --- Lists of nodes -----------------------------------------------------------------------------------

  lemma {:induction false} ApplyNodesRecorded(env: Env, ops: seq<Op>, l: seq<Resources.Node>, ns: string, x: string)
    ensures forall m ::
              Get(Nodes(env, ops + E.ApplyNodes(l)), m) ==
                if Get(Nodes(env, ops), m).None? then FirstHosts(l, m) else Get(Nodes(env, ops), m)
    ensures var before := Rec(env, ops, ns, x);
            Rec(env, ops + E.ApplyNodes(l), ns, x) ==
              if before.None? then None else Some(Placed(Nodes(env, ops + E.ApplyNodes(l)), before.value))
  {
    AllHomeless(env, ops, ns, x);
    if l == [] {
      assert ops + E.ApplyNodes(l) == ops;
    } else {
      var k := |l| - 1;
      var before, op := ops + E.ApplyNodes(l[..k]), ApplyNode(l[k]);
      ApplyNodesRecorded(env, ops, l[..k], ns, x);
      assert ops + E.ApplyNodes(l) == before + [op];
      RecSnoc(env, before, op, ns, x);
      forall m
        ensures Get(Nodes(env, before + [op]), m) ==
                  if Get(Nodes(env, ops), m).None? then FirstHosts(l, m) else Get(Nodes(env, ops), m)
        ensures Get(Nodes(env, before), m).Some? ==> Get(Nodes(env, before + [op]), m) == Get(Nodes(env, before), m)
      {
        NodesSnoc(env, before, op, m);
      }
      if Rec(env, ops, ns, x).Some? {
        PlacedTwice(Nodes(env, before), Nodes(env, before + [op]), Rec(env, ops, ns, x).value);
      }
    }
  }

  lemma PlacedTwice(nodes: map<string, seq<IpAddr>>, nodes': map<string, seq<IpAddr>>, rec: PodRecord)
    requires forall m | Get(nodes, m).Some? :: Get(nodes', m) == Get(nodes, m)
    ensures Placed(nodes', Placed(nodes, rec)) == Placed(nodes', rec)
  {
    var m := Resources.NodeName(rec.pod);
    if m.Some? && m.value in nodes {
      assert Get(nodes, m.value).Some?;
    }
  }

  lemma {:induction false} RemoveNodesRecorded(env: Env, ops: seq<Op>, gone: seq<string>, ns: string, x: string)
    ensures Rec(env, ops + E.RemoveNodes(gone), ns, x) == Rec(env, ops, ns, x)
  {
    if gone == [] {
      assert ops + E.RemoveNodes(gone) == ops;
    } else {
      var k := |gone| - 1;
      var before, op := ops + E.RemoveNodes(gone[..k]), RemoveNode(gone[k]);
      RemoveNodesRecorded(env, ops, gone[..k], ns, x);
      assert ops + E.RemoveNodes(gone) == before + [op];
      NodeGoneRecorded(env, before, gone[k], ns, x);
    }
  }

  lemma NodeGoneRecorded(env: Env, ops: seq<Op>, gone: string, ns: string, x: string)
    ensures Rec(env, ops + [RemoveNode(gone)], ns, x) == Rec(env, ops, ns, x)
  {
    RecSnoc(env, ops, RemoveNode(gone), ns, x);
    AllHomeless(env, ops, ns, x);
    forall m | Get(Nodes(env, ops), m).None?
      ensures Get(Nodes(env, ops + [RemoveNode(gone)]), m).None?
    {
      NodesSnoc(env, ops, RemoveNode(gone), m);
    }
    var rec := Rec(env, ops, ns, x);
    if rec.Some? && rec.value.ips.None? && Resources.NodeName(rec.value.pod).Some? {
      assert Get(Nodes(env, ops), Resources.NodeName(rec.value.pod).value).None?;
    }
  }

  /** Observing nodes settles a pod by the nodes that are then there. */
  lemma NodesRestartRecorded(env: Env, evs: seq<E.Event>, ops: seq<Op>, s: State, l: seq<Resources.Node>, more: seq<Op>,
                             ns: string, x: string)
    requires evs != [] && evs[|evs| - 1] == E.NodesRestarted(l) && E.EventOps(s, E.NodesRestarted(l), more)
    requires LiveNodes(evs[..|evs| - 1], Nodes(env, ops))
    requires forall m :: Addresses(s.nodes, m) == LiveNode(evs[..|evs| - 1], m)
    ensures var before := Life(Rec(env, ops, ns, x));
            Life(Rec(env, ops + more, ns, x)) == if before.Some? then Some(Settle(evs, before.value)) else None
  {
    var gone :| Enumerates(gone, E.KnownNames(s) - E.NodesListed(l)) && more == E.ApplyNodes(l) + E.RemoveNodes(gone);
    var mid := ops + E.ApplyNodes(l);
    ApplyNodesRecorded(env, ops, l, ns, x);
    RemoveNodesRecorded(env, mid, gone, ns, x);
    assert ops + more == mid + E.RemoveNodes(gone);
    AllHomeless(env, ops, ns, x);
    var rec := Rec(env, ops, ns, x);
    if rec.Some? && rec.value.ips.None? && Resources.NodeName(rec.value.pod).Some? {
      var m := Resources.NodeName(rec.value.pod).value;
      assert Get(Nodes(env, ops), m) == LiveNode(evs[..|evs| - 1], m) == None;
      assert LiveNode(evs, m) == FirstHosts(l, m) == Get(Nodes(env, mid), m);
    }
  }

  // --- Every event ----------------------------------------------------------------------------------------

  lemma PodAppliedRecorded(env: Env, evs: seq<E.Event>, ops: seq<Op>, pod: Resources.Pod, ns: string, x: string)
    requires evs != [] && evs[|evs| - 1] == E.PodApplied(pod) && LiveNodes(evs, Nodes(env, ops))
    requires Life(Rec(env, ops, ns, x)) == LivePod(evs[..|evs| - 1], ns, x)
    ensures Life(Rec(env, ops + [ApplyPod(pod)], ns, x)) == LivePod(evs, ns, x)
  {
    AllHomeless(env, ops, ns, x);
    RecSnoc(env, ops, ApplyPod(pod), ns, x);
    SameNodesSnoc(env, ops, ApplyPod(pod));
    var rec := Rec(env, ops, ns, x);
    PlacedIsSettled(evs, Nodes(env, ops), PodRecord(pod, if rec.Some? then rec.value.ips else None));
  }

  lemma NodeAppliedRecorded(env: Env, evs: seq<E.Event>, ops: seq<Op>, node: Resources.Node, ns: string, x: string)
    requires evs != [] && evs[|evs| - 1] == E.NodeApplied(node)
    requires LiveNodes(evs, Nodes(env, ops + [ApplyNode(node)]))
    requires Life(Rec(env, ops, ns, x)) == LivePod(evs[..|evs| - 1], ns, x)
    ensures Life(Rec(env, ops + [ApplyNode(node)], ns, x)) == LivePod(evs, ns, x)
  {
    RecSnoc(env, ops, ApplyNode(node), ns, x);
    var rec := Rec(env, ops, ns, x);
    if rec.Some? {
      PlacedIsSettled(evs, Nodes(env, ops + [ApplyNode(node)]), rec.value);
    }
  }

  lemma {:induction false} OthersRecorded(env: Env, ops: seq<Op>, more: seq<Op>, ns: string, x: string)
    requires forall op | op in more :: OnServers(op) || OnAuthzs(op)
    ensures Rec(env, ops + more, ns, x) == Rec(env, ops, ns, x)
  {
    if more == [] {
      assert ops + more == ops;
    } else {
      var k := |more| - 1;
      assert more[k] in more && forall op | op in more[..k] :: op in more;
      OthersRecorded(env, ops, more[..k], ns, x);
      assert ops + more == (ops + more[..k]) + [more[k]];
      RecSnoc(env, ops + more[..k], more[k], ns, x);
      SameNodesSnoc(env, ops + more[..k], more[k]);
      AllHomeless(env, ops + more[..k], ns, x);
    }
  }

  /** One event, with the index as it is before it. */
  lemma EventRecorded(env: Env, evs: seq<E.Event>, ops: seq<Op>, s: State, more: seq<Op>, ns: string, x: string)
    requires evs != [] && E.EventOps(s, evs[|evs| - 1], more)
    requires LiveNodes(evs[..|evs| - 1], Nodes(env, ops)) && LiveNodes(evs, Nodes(env, ops + more))
    requires forall m :: Addresses(s.nodes, m) == LiveNode(evs[..|evs| - 1], m)
    requires Indexed(s, ns, x) <==> Kept(Life(Rec(env, ops, ns, x))).Some?
    requires Life(Rec(env, ops, ns, x)) == LivePod(evs[..|evs| - 1], ns, x)
    ensures Life(Rec(env, ops + more, ns, x)) == LivePod(evs, ns, x)
  {
    var ev := evs[|evs| - 1];
    assert !AboutNodes(ev) ==> forall m :: LiveNode(evs, m) == LiveNode(evs[..|evs| - 1], m);
    match ev {
      case PodApplied(pod) => PodAppliedRecorded(env, evs, ops, pod, ns, x);
      case PodDeleted(other, y) =>
        assert more == E.RmPods([Id(other, y)]);
        RmPodsRecorded(env, ops, [Id(other, y)], ns, x);
      case PodsRestarted(l) => RestartIsLiveIff(env, evs, ops, s, l, more, ns, x);
      case NodeApplied(node) => NodeAppliedRecorded(env, evs, ops, node, ns, x);
      case NodeDeleted(m) => NodeGoneRecorded(env, ops, m, ns, x);
      case NodesRestarted(l) => NodesRestartRecorded(env, evs, ops, s, l, more, ns, x);
      case _ =>
        forall op | op in more
          ensures OnServers(op) || OnAuthzs(op)
        {
          EventOpsKind(s, ev, more, op);
        }
        OthersRecorded(env, ops, more, ns, x);
    }
  }

  lemma {:induction false} StablePrefix(env: Env, c: Cluster, ops: seq<Op>, more: seq<Op>)
    requires StableRun(env, c, ops + more)
    ensures StableRun(env, c, ops)
  {
    if more == [] {
      assert ops + more == ops;
    } else {
      var k := |more| - 1;
      assert (ops + more)[..|ops + more| - 1] == ops + more[..k];
      StablePrefix(env, c, ops, more[..k]);
    }
  }

  lemma IndexedAreOnRecord(env: Env, ops: seq<Op>, s: State, ns: string, x: string)
    requires Steps(env, Init(env), ops, s) && StableRun(env, EMPTY, ops)
    ensures Indexed(s, ns, x) <==> Kept(Life(Rec(env, ops, ns, x))).Some?
  {
    InitInv(env);
    InitAgrees(env);
    StableRunAgrees(env, EMPTY, Init(env), ops, s);
    assert AgreesAt(env, CRun(env, EMPTY, ops), s, ns);
  }

  /** On stable objects the pods on record are exactly the live ones, with their addresses. */
  lemma {:induction false} PodsAreLive(env: Env, evs: seq<E.Event>, ops: seq<Op>, s: State, ns: string, x: string)
    requires E.EventsRun(env, Init(env), evs, ops, s) && StableRun(env, EMPTY, ops)
    ensures Life(Rec(env, ops, ns, x)) == LivePod(evs, ns, x)
  {
    if evs != [] {
      var before, mid, last := E.LastEvent(env, evs, ops, s);
      StablePrefix(env, EMPTY, before, last);
      PodsAreLive(env, evs[..|evs| - 1], before, mid, ns, x);
      E.EventsRunIsSteps(env, Init(env), evs[..|evs| - 1], before, mid);
      IndexedAreOnRecord(env, before, mid, ns, x);
      forall m
        ensures Addresses(mid.nodes, m) == LiveNode(evs[..|evs| - 1], m) == Get(Nodes(env, before), m)
        ensures Get(Nodes(env, ops), m) == LiveNode(evs, m)
      {
        NodesAreLive(env, evs[..|evs| - 1], before, mid, m);
        RecordsAreLive(env, evs[..|evs| - 1], before, mid, ns, m);
        RecordsAreLive(env, evs, ops, s, ns, m);
      }
      EventRecorded(env, evs, before, mid, last, ns, x);
    }
  }
}
