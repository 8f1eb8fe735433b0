/** What the records of the cluster are in terms of the history of events: the latest accepted object
    of every name. */
module History {
  import opened Base
  import opened Net
  import opened Policy
  import Resources
  import opened IndexState
  import opened Cluster

  /** The last object of that name that parsed, unless it was deleted since. */
  function LatestAuthz(env: Env, ops: seq<Op>, ns: string, x: string): Option<Authz> {
    if ops == [] then None
    else
      var op := ops[|ops| - 1];
      if op == DeleteAuthz(ns, x) then None
      else if op.ApplyAuthz? && op.authz.ns == ns && op.authz.name == x
          && Resources.MkAuthz(op.authz, env.identityDomain).Ok?
      then Some(Resources.MkAuthz(op.authz, env.identityDomain).value)
      else LatestAuthz(env, ops[..|ops| - 1], ns, x)
  }

  /** The last object of that pod, unless it was deleted since. */
  function LatestPod(ops: seq<Op>, ns: string, x: string): Option<Resources.Pod> {
    if ops == [] then None
    else
      var op := ops[|ops| - 1];
      if op == RmPod(ns, x) then None
      else if op.ApplyPod? && op.pod.ns == ns && op.pod.name == x then Some(op.pod)
      else LatestPod(ops[..|ops| - 1], ns, x)
  }

  lemma StepOnAuthzs(env: Env, c: Cluster, op: Op, ns: string)
    ensures RecordsOf(CStep(env, c, op), ns).authzs ==
              if op.ApplyAuthz? && op.authz.ns == ns then AuthzPut(env, RecordsOf(c, ns), op.authz).authzs
              else if op.DeleteAuthz? && op.ns == ns then RecordsOf(c, ns).authzs - {op.name}
              else RecordsOf(c, ns).authzs
  {
  }

  /** The authorizations on record are the latest ones that parsed and were not deleted since. */
  lemma {:induction false} AuthzsOnRecord(env: Env, ops: seq<Op>, ns: string, x: string)
    ensures var authzs, latest := RecordsOf(CRun(env, EMPTY, ops), ns).authzs, LatestAuthz(env, ops, ns, x);
            && (x in authzs <==> latest.Some?)
            && (x in authzs ==> authzs[x] == latest.value)
  {
    if ops != [] {
      AuthzsOnRecord(env, ops[..|ops| - 1], ns, x);
      StepOnAuthzs(env, CRun(env, EMPTY, ops[..|ops| - 1]), ops[|ops| - 1], ns);
    }
  }

  lemma StepOnPods(env: Env, c: Cluster, op: Op, ns: string, x: string)
    ensures var pods, pods' := RecordsOf(c, ns).pods, RecordsOf(CStep(env, c, op), ns).pods;
            if op == RmPod(ns, x) then x !in pods'
            else if op.ApplyPod? && op.pod.ns == ns && op.pod.name == x then x in pods' && pods'[x].pod == op.pod
            else
              && (x in pods' ==> x in pods && pods'[x].pod == pods[x].pod)
              && (x in pods && x !in pods' ==> op == ClearPending && pods[x].ips.None?)
  {
  }

  /** A pod on record has its latest object, and every pod that was applied and not deleted since is on
      record, unless a restart of the pods dropped it while it waited. */
  lemma {:induction false} PodsOnRecord(env: Env, ops: seq<Op>, ns: string, x: string)
    ensures var pods, latest := RecordsOf(CRun(env, EMPTY, ops), ns).pods, LatestPod(ops, ns, x);
            && (x in pods ==> latest == Some(pods[x].pod))
            && (latest.Some? && ClearPending !in ops ==> x in pods)
  {
    if ops != [] {
      var before, op := ops[..|ops| - 1], ops[|ops| - 1];
      assert ops == before + [op];
      PodsOnRecord(env, before, ns, x);
      StepOnPods(env, CRun(env, EMPTY, before), op, ns, x);
    }
  }

  // --- When a pod becomes discoverable ------------------------------------------------------

  /** The addresses of a node: those of its first object that loaded since it was last removed. */
  function NodeAddresses(ops: seq<Op>, m: string): Option<seq<IpAddr>> {
    if ops == [] then None
    else
      var op, before := ops[|ops| - 1], NodeAddresses(ops[..|ops| - 1], m);
      if op == RemoveNode(m) then None
      else if before.None? && op.ApplyNode? && op.node.name == m && Resources.KubeletIps(op.node).Ok?
      then Some(Resources.KubeletIps(op.node).value)
      else before
  }

  lemma {:induction false} NodesOnRecord(env: Env, ops: seq<Op>, m: string)
    ensures var nodes := CRun(env, EMPTY, ops).nodes;
            && (m in nodes <==> NodeAddresses(ops, m).Some?)
            && (m in nodes ==> NodeAddresses(ops, m) == Some(nodes[m]))
  {
    if ops != [] {
      NodesOnRecord(env, ops[..|ops| - 1], m);
    }
  }

  /** The last object of that pod, unless it was deleted or the pods were restarted since. */
  function Fresh(ops: seq<Op>, ns: string, x: string): Option<Resources.Pod> {
    if ops == [] then None
    else
      var op := ops[|ops| - 1];
      if op == RmPod(ns, x) || op == ClearPending then None
      else if op.ApplyPod? && op.pod.ns == ns && op.pod.name == x then Some(op.pod)
      else Fresh(ops[..|ops| - 1], ns, x)
  }

  /** The pod's fresh object and its node's addresses are there together. */
  function Meeting(ops: seq<Op>, ns: string, x: string): Option<seq<IpAddr>> {
    var pod := Fresh(ops, ns, x);
    if pod.Some? && Resources.NodeName(pod.value).Some?
    then NodeAddresses(ops, Resources.NodeName(pod.value).value)
    else None
  }

  /** They were after the first `k` operations, and the pod has not been deleted since. */
  predicate MetAt(ops: seq<Op>, ns: string, x: string, k: nat) {
    k <= |ops| && RmPod(ns, x) !in ops[k..] && Meeting(ops[..k], ns, x).Some?
  }

  lemma MetBefore(ops: seq<Op>, ns: string, x: string, k: nat)
    requires ops != [] && k < |ops|
    ensures MetAt(ops, ns, x, k) <==> MetAt(ops[..|ops| - 1], ns, x, k) && ops[|ops| - 1] != RmPod(ns, x)
  {
    var before := ops[..|ops| - 1];
    assert before[..k] == ops[..k];
    assert ops[k..] == before[k..] + [ops[|ops| - 1]];
  }

  /** What a pod's record is, with one operation more. */
  lemma StepOnPod(env: Env, c: Cluster, op: Op, ns: string, x: string)
    requires var pods := RecordsOf(c, ns).pods; x in pods && pods[x].ips.None? ==> Place(c.nodes, pods[x].pod).None?
    ensures var pods, pods' := RecordsOf(c, ns).pods, RecordsOf(CStep(env, c, op), ns).pods;
            var nodes' := CStep(env, c, op).nodes;
            && (x in pods' <==>
                  if op == RmPod(ns, x) then false
                  else if op.ApplyPod? && op.pod.ns == ns && op.pod.name == x then true
                  else x in pods && (op == ClearPending ==> pods[x].ips.Some?))
            && (x in pods' ==>
                  pods'[x].ips == if x in pods && pods[x].ips.Some? then pods[x].ips else Place(nodes', pods'[x].pod))
  {
  }

  lemma MetNow(ops: seq<Op>, ns: string, x: string)
    ensures MetAt(ops, ns, x, |ops|) <==> Meeting(ops, ns, x).Some?
  {
    assert ops[..|ops|] == ops;
  }

  lemma PlaceIsMeeting(env: Env, ops: seq<Op>, ns: string, x: string)
    ensures Fresh(ops, ns, x).Some? ==>
              Place(CRun(env, EMPTY, ops).nodes, Fresh(ops, ns, x).value) == Meeting(ops, ns, x)
  {
    if Fresh(ops, ns, x).Some? && Resources.NodeName(Fresh(ops, ns, x).value).Some? {
      NodesOnRecord(env, ops, Resources.NodeName(Fresh(ops, ns, x).value).value);
    }
  }

  ghost predicate EverMet(ops: seq<Op>, ns: string, x: string) {
    exists k: nat :: MetAt(ops, ns, x, k)
  }

  ghost predicate FirstMet(ops: seq<Op>, ns: string, x: string, k: nat) {
    MetAt(ops, ns, x, k) && forall i: nat | i < k :: !MetAt(ops, ns, x, i)
  }

  /** A pod's object and its node's addresses first meet now, or they did before and the pod stays. */
  lemma FirstMetSnoc(ops: seq<Op>, ns: string, x: string)
    requires ops != []
    ensures var before, last := ops[..|ops| - 1], ops[|ops| - 1];
            && (forall k: nat | k < |ops| :: before[..k] == ops[..k])
            && (EverMet(ops, ns, x) <==> (EverMet(before, ns, x) && last != RmPod(ns, x)) || Meeting(ops, ns, x).Some?)
            && (forall k: nat | FirstMet(ops, ns, x, k) ::
                  if EverMet(before, ns, x) then FirstMet(before, ns, x, k) && k < |ops| else k == |ops|)
  {
    var before := ops[..|ops| - 1];
    MetNow(ops, ns, x);
    forall k: nat | k < |ops|
      ensures MetAt(ops, ns, x, k) <==> MetAt(before, ns, x, k) && ops[|ops| - 1] != RmPod(ns, x)
      ensures before[..k] == ops[..k]
    {
      MetBefore(ops, ns, x, k);
    }
    if EverMet(before, ns, x) && ops[|ops| - 1] != RmPod(ns, x) {
      var k: nat :| MetAt(before, ns, x, k);
      assert MetAt(ops, ns, x, k);
    }
  }

  /** A pod is on record exactly if its object is fresh or it has ever met its node's addresses since it
      was last deleted; it is discoverable exactly in the second case, with the addresses of the first
      time; and until then the object on record is the fresh one. */
  lemma {:induction false} DiscoverableOnRecord(env: Env, ops: seq<Op>, ns: string, x: string)
    ensures var pods := RecordsOf(CRun(env, EMPTY, ops), ns).pods;
            && (x in pods <==> Fresh(ops, ns, x).Some? || EverMet(ops, ns, x))
            && (x in pods ==> (pods[x].ips.Some? <==> EverMet(ops, ns, x)))
            && (x in pods && pods[x].ips.None? ==> Fresh(ops, ns, x) == Some(pods[x].pod))
            && (forall k: nat | FirstMet(ops, ns, x, k) :: x in pods && pods[x].ips == Meeting(ops[..k], ns, x))
  {
    PlaceIsMeeting(env, ops, ns, x);
    MetNow(ops, ns, x);
    assert ops[..|ops|] == ops;
    if ops != [] {
      var before, op := ops[..|ops| - 1], ops[|ops| - 1];
      var c := CRun(env, EMPTY, before);
      DiscoverableOnRecord(env, before, ns, x);
      PlaceIsMeeting(env, before, ns, x);
      MetNow(before, ns, x);
      StepOnPod(env, c, op, ns, x);
      StepOnPods(env, c, op, ns, x);
      FirstMetSnoc(ops, ns, x);
    }
  }
}
