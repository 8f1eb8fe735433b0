/** The queues of pods that wait for their node. A pod is never queued twice, nor queued and indexed at
    once, as long as a queued pod is not given another node; and deleting a node loses its queue. */
module Pending {
  import opened Base
  import opened Policy
  import Resources
  import opened IndexState
  import opened Invariant
  import opened Effects

  /** A pod that waits is not indexed and waits for one node only. */
  ghost predicate Exclusive(s: State) {
    forall m, ns, x | IsPending(s.nodes, m, ns, x) ::
      !Indexed(s, ns, x) && forall k | IsPending(s.nodes, k, ns, x) :: k == m
  }

  /** A pod that waits for one node is not applied with another. */
  ghost predicate KeepsNode(s: State, op: Op) {
    op.ApplyPod? ==>
      forall m | IsPending(s.nodes, m, op.pod.ns, op.pod.name) ::
        Resources.NodeName(op.pod) == None || Resources.NodeName(op.pod) == Some(m)
  }

  /** A queued pod that is applied with another node is then queued under two, or queued and indexed. */
  lemma OtherNodeBreaksExclusive(env: Env, s: State, pod: Resources.Pod, s': State, m: string)
    requires PodApplied(env, s, pod, s') && Exclusive(s)
    requires IsPending(s.nodes, m, pod.ns, pod.name) && Resources.NodeName(pod).Some?
    requires Resources.NodeName(pod) != Some(m)
    ensures !Exclusive(s')
  {
    PodAppliedIndexed(env, s, pod, s');
    PodAppliedQueues(env, s, pod, s');
    var k := Resources.NodeName(pod).value;
    assert IsPending(s'.nodes, m, pod.ns, pod.name);
    if !IsKnown(s.nodes, k) {
      assert IsPending(s'.nodes, k, pod.ns, pod.name);
    }
  }

  lemma ApplyPodExclusive(env: Env, s: State, pod: Resources.Pod, s': State)
    requires Exclusive(s) && PodApplied(env, s, pod, s')
    ensures Exclusive(s') <==> KeepsNode(s, ApplyPod(pod))
  {
    var now := Resources.NodeName(pod);
    if m :| IsPending(s.nodes, m, pod.ns, pod.name) && now != None && now != Some(m) {
      OtherNodeBreaksExclusive(env, s, pod, s', m);
    } else {
      PodAppliedIndexed(env, s, pod, s');
      PodAppliedQueues(env, s, pod, s');
    }
  }

  lemma RmPodExclusive(env: Env, s: State, ns: string, x: string, s': State)
    requires Inv(env, s) && Exclusive(s) && PodRemoved(s, ns, x, s')
    ensures Exclusive(s')
  {
    if m :| IsPending(s.nodes, m, ns, x) && s' == s.(nodes := Unpend(s.nodes, m, ns, x)) {
      UnpendOk(s.nodes, m, ns, x);
    } else {
      assert s' == PodUnindexed(s, ns, x);
    }
  }

  lemma ApplyNodeExclusive(env: Env, s: State, node: Resources.Node, s': State)
    requires Inv(env, s) && Exclusive(s) && NodeApplied(env, s, node, s')
    ensures Exclusive(s')
  {
    if !IsKnown(s.nodes, node.name) && Resources.KubeletIps(node).Ok? {
      NodeDrainsItsQueue(env, s, node, s');
      assert forall ns, x | Id(ns, x) in Queue(s.nodes, node.name) :: IsPending(s.nodes, node.name, ns, x);
    }
  }

  lemma ServersKeepPods(env: Env, s: State, op: Op, s': State)
    requires OpStep(env, s, op, s') && (op.ApplyAuthz? || op.DeleteAuthz? || op.ApplyServer? || op.RmServer?)
    ensures s'.nodes == s.nodes && forall ns, x :: Indexed(s', ns, x) <==> Indexed(s, ns, x)
  {
  }

  /** Exactly when an operation keeps the queues exclusive; the specs, ports and annotations of pods
      make no difference, and nothing is asked of the nodes that are deleted. */
  lemma OpExclusive(env: Env, s: State, op: Op, s': State)
    requires Inv(env, s) && Exclusive(s) && OpStep(env, s, op, s')
    ensures Exclusive(s') <==> KeepsNode(s, op)
  {
    match op {
      case ApplyPod(pod) => ApplyPodExclusive(env, s, pod, s');
      case RmPod(ns, x) => RmPodExclusive(env, s, ns, x, s');
      case ApplyNode(node) => ApplyNodeExclusive(env, s, node, s');
      case ClearPending =>
      case RemoveNode(m) =>
        assert forall k, ns, x | IsPending(s'.nodes, k, ns, x) :: IsPending(s.nodes, k, ns, x);
      case _ => ServersKeepPods(env, s, op, s');
    }
  }

  ghost predicate KeepsNodes(trace: seq<State>, ops: seq<Op>)
    requires |trace| == |ops| + 1
  {
    forall i | 0 <= i < |ops| :: KeepsNode(trace[i], ops[i])
  }

  lemma {:induction false} RunExclusive(env: Env, trace: seq<State>, ops: seq<Op>, i: nat)
    requires Traced(env, trace, ops) && KeepsNodes(trace, ops) && i < |trace|
    ensures Inv(env, trace[i]) && Exclusive(trace[i])
  {
    if i == 0 {
      InitInv(env);
    } else {
      RunExclusive(env, trace, ops, i - 1);
      OpInv(env, trace[i - 1], ops[i - 1], trace[i]);
      OpExclusive(env, trace[i - 1], ops[i - 1], trace[i]);
    }
  }

  /** In every state of a run in which queued pods keep their node, a pod waits for at most one node, the
      one it is assigned to, that node is not known, and no waiting pod is indexed or discoverable. */
  lemma PendingIsExclusive(env: Env, trace: seq<State>, ops: seq<Op>, i: nat, m: string, ns: string, x: string)
    requires Traced(env, trace, ops) && KeepsNodes(trace, ops) && i < |trace|
    requires IsPending(trace[i].nodes, m, ns, x)
    ensures var s := trace[i];
            && !Indexed(s, ns, x) && x !in LookupIn(s.lookups, ns)
            && (forall k | IsPending(s.nodes, k, ns, x) :: k == m)
            && Resources.NodeName(s.nodes[m].pods[ns][x]) == Some(m) && !IsKnown(s.nodes, m)
  {
    RunExclusive(env, trace, ops, i);
    var s := trace[i];
    assert LookupOk(PodsIn(s.namespaces, ns), LookupIn(s.lookups, ns));
  }

  /** The pod is indexed or waits for a node. */
  ghost predicate Tracked(s: State, ns: string, x: string) {
    Indexed(s, ns, x) || exists m :: IsPending(s.nodes, m, ns, x)
  }

  /** Every deletion of a node in such a run loses exactly the pods that wait for it, so it loses none
      exactly if none wait: in particular if the node is known. Earlier deletions may have lost pods. */
  lemma DeletedNodeLosesItsQueue(env: Env, trace: seq<State>, ops: seq<Op>, i: nat, m: string)
    requires Traced(env, trace, ops) && KeepsNodes(trace, ops) && i < |ops| && ops[i] == RemoveNode(m)
    ensures var s, s' := trace[i], trace[i + 1];
            && (forall ns, x :: Tracked(s', ns, x) <==> Tracked(s, ns, x) && Id(ns, x) !in Queue(s.nodes, m))
            && ((forall ns, x | Tracked(s, ns, x) :: Tracked(s', ns, x)) <==> Queue(s.nodes, m) == {})
            && (IsKnown(s.nodes, m) ==> Queue(s.nodes, m) == {})
  {
    RunExclusive(env, trace, ops, i);
    assert OpStep(env, trace[i], ops[i], trace[i + 1]);
    ForgottenQueue(trace[i], m);
  }

  lemma ForgottenQueue(s: State, m: string)
    requires forall ns, x | IsPending(s.nodes, m, ns, x) ::
               !Indexed(s, ns, x) && forall k | IsPending(s.nodes, k, ns, x) :: k == m
    ensures var s' := s.(nodes := s.nodes - {m});
            && (forall ns, x :: Tracked(s', ns, x) <==> Tracked(s, ns, x) && Id(ns, x) !in Queue(s.nodes, m))
            && ((forall ns, x | Tracked(s, ns, x) :: Tracked(s', ns, x)) <==> Queue(s.nodes, m) == {})
  {
    var s' := s.(nodes := s.nodes - {m});
    forall ns, x
      ensures Tracked(s', ns, x) <==> Tracked(s, ns, x) && Id(ns, x) !in Queue(s.nodes, m)
    {
      assert Id(ns, x) in Queue(s.nodes, m) <==> IsPending(s.nodes, m, ns, x);
      forall k
        ensures IsPending(s'.nodes, k, ns, x) <==> IsPending(s.nodes, k, ns, x) && k != m
      {
      }
    }
    forall id | id in Queue(s.nodes, m)
      ensures Tracked(s, id.ns, id.name)
    {
      assert IsPending(s.nodes, m, id.ns, id.name);
    }
  }
}
