/** The main theorems about runs of the index. */
module Agreement {
  import opened Base
  import opened Labels
  import opened Net
  import opened Policy
  import opened Ports
  import Resources
  import opened Watch
  import opened IndexState
  import opened Invariant
  import opened Cluster
  import opened Refinement
  import opened Binding
  import opened Draining
  import opened Effects

  // --- One operation --------------------------------------------------------------------

  lemma OpKeepsExact(env: Env, c: Cluster, s: State, op: Op, s': State)
    requires Inv(env, s) && Agrees(env, c, s) && Exact(s) && OpStep(env, s, op, s')
    requires Admissible(env, c, op)
    ensures Exact(s')
  {
    OpAgrees(env, c, s, op, s');
    match op {
      case ApplyAuthz(a) => ApplyAuthzExact(env, s, a);
      case DeleteAuthz(ns, name) => DeleteAuthzExact(s, ns, name);
      case ApplyServer(srv) =>
        ConflictFreeAt(env, CStep(env, c, op), s', srv.ns);
        ApplyServerExact(s, srv, s');
      case RmServer(ns, name) => RmServerExact(s, ns, name);
      case ApplyPod(pod) => ApplyPodExact(env, c, s, pod, s');
      case RmPod(ns, name) => RmPodExact(s, ns, name, s');
      case ApplyNode(node) => ApplyNodeAgrees(env, c, s, node, s');
      case ClearPending =>
      case RemoveNode(m) =>
    }
  }

  /** Exactly when an operation leaves every port bound to precisely the servers that claim it: no
      port is claimed twice afterwards, and no port is handed straight from one server to another. */
  lemma ExactBindingIff(env: Env, c: Cluster, s: State, op: Op, s': State)
    requires Inv(env, s) && Agrees(env, c, s) && Exact(s) && OpStep(env, s, op, s') && Stable(env, c, op)
    ensures Exact(s') <==> ConflictFree(CStep(env, c, op)) && NoHandover(c, op)
  {
    OpAgrees(env, c, s, op, s');
    if ConflictFree(CStep(env, c, op)) && NoHandover(c, op) {
      OpKeepsExact(env, c, s, op, s');
    }
    if Exact(s') {
      ExactIsConflictFree(env, CStep(env, c, op), s');
      if op.ApplyPod? {
        HandoverBreaksExact(env, c, s, op.pod, s');
      }
    }
  }

  // --- Runs --------------------------------------------------------------------------------

  lemma {:induction false} RunAgrees(env: Env, c: Cluster, s: State, ops: seq<Op>, s': State)
    requires Inv(env, s) && Agrees(env, c, s) && Exact(s)
    requires Steps(env, s, ops, s') && AdmissibleRun(env, c, ops)
    ensures Inv(env, s') && Agrees(env, CRun(env, c, ops), s') && Exact(s')
  {
    if ops != [] {
      var before, last := ops[..|ops| - 1], ops[|ops| - 1];
      assert StepsThen(env, s, before, last, s');
      var mid :| Steps(env, s, before, mid) && OpStep(env, mid, last, s');
      RunAgrees(env, c, s, before, mid);
      OpInv(env, mid, last, s');
      OpAgrees(env, CRun(env, c, before), mid, last, s');
      OpKeepsExact(env, CRun(env, c, before), mid, last, s');
    }
  }

  /** With stable objects the index agrees with the records, even while servers conflict. */
  lemma {:induction false} StableRunAgrees(env: Env, c: Cluster, s: State, ops: seq<Op>, s': State)
    requires Inv(env, s) && Agrees(env, c, s)
    requires Steps(env, s, ops, s') && StableRun(env, c, ops)
    ensures Inv(env, s') && Agrees(env, CRun(env, c, ops), s')
  {
    if ops != [] {
      var before, last := ops[..|ops| - 1], ops[|ops| - 1];
      assert StepsThen(env, s, before, last, s');
      var mid :| Steps(env, s, before, mid) && OpStep(env, mid, last, s');
      StableRunAgrees(env, c, s, before, mid);
      OpInv(env, mid, last, s');
      OpAgrees(env, CRun(env, c, before), mid, last, s');
    }
  }

  // --- Stable objects are what agreement needs --------------------------------------------------

  /** An indexed pod keeps its ports, their names and its default policy whatever is applied. */
  lemma IndexedKeepsSpec(env: Env, s0: State, pod: Resources.Pod, s': State)
    requires PodApplied(env, s0, pod, s') && pod.name in NsIn(s0.namespaces, pod.ns).pods
    ensures pod.name in NsIn(s'.namespaces, pod.ns).pods
    ensures var e, e' := NsIn(s0.namespaces, pod.ns).pods[pod.name], NsIn(s'.namespaces, pod.ns).pods[pod.name];
            e'.byPort.Keys == e.byPort.Keys && e'.byName == e.byName && e'.defaultRx == e.defaultRx
  {
  }

  lemma UnstablePodDisagrees(env: Env, c: Cluster, s: State, pod: Resources.Pod, s': State)
    requires Agrees(env, c, s) && PodApplied(env, s, pod, s') && !Stable(env, c, ApplyPod(pod))
    ensures !Agrees(env, CStep(env, c, ApplyPod(pod)), s')
  {
    var c', r := CStep(env, c, ApplyPod(pod)), RecordsOf(c, pod.ns);
    var rec := r.pods[pod.name];
    assert RecordsOf(c', pod.ns) == PodPut(c.nodes, r, pod);
    if rec.ips.Some? {
      assert AgreesAt(env, c, s, pod.ns);
      IndexedKeepsSpec(env, s, pod, s');
      assert !PodAgrees(env, RecordsOf(c', pod.ns).pods[pod.name], NsIn(s'.namespaces, pod.ns).pods[pod.name]);
      assert !AgreesAt(env, c', s', pod.ns);
    } else {
      var m := Resources.NodeName(rec.pod).value;
      assert Waiting(c, m, pod.ns, pod.name) && IsPending(s.nodes, m, pod.ns, pod.name);
      PodAppliedQueues(env, s, pod, s');
      assert IsPending(s'.nodes, m, pod.ns, pod.name) && !Waiting(c', m, pod.ns, pod.name);
    }
  }

  lemma LostQueueDisagrees(env: Env, c: Cluster, s: State, m: string)
    requires !Stable(env, c, RemoveNode(m))
    ensures !Agrees(env, CStep(env, c, RemoveNode(m)), s.(nodes := s.nodes - {m}))
  {
    var ns, x :| Waiting(c, m, ns, x);
    assert Waiting(CStep(env, c, RemoveNode(m)), m, ns, x);
    assert !IsPending(s.nodes - {m}, m, ns, x);
  }

  /** Exactly when an operation keeps the index in agreement with the records: applied pods keep their
      specs, and a deleted node has nobody waiting for it. */
  lemma AgreesIff(env: Env, c: Cluster, s: State, op: Op, s': State)
    requires Inv(env, s) && Agrees(env, c, s) && OpStep(env, s, op, s')
    ensures Agrees(env, CStep(env, c, op), s') <==> Stable(env, c, op)
  {
    if Stable(env, c, op) {
      OpAgrees(env, c, s, op, s');
    } else if op.ApplyPod? {
      UnstablePodDisagrees(env, c, s, op.pod, s');
    } else {
      LostQueueDisagrees(env, c, s, op.name);
    }
  }

  ghost predicate AllAgree(env: Env, trace: seq<State>, ops: seq<Op>)
    requires |trace| == |ops| + 1
  {
    forall i | 0 <= i < |trace| :: Agrees(env, CRun(env, EMPTY, ops[..i]), trace[i])
  }

  lemma AllAgreeSnoc(env: Env, trace: seq<State>, ops: seq<Op>, s: State, op: Op)
    requires |trace| == |ops| + 1
    ensures AllAgree(env, trace + [s], ops + [op]) <==>
              AllAgree(env, trace, ops) && Agrees(env, CRun(env, EMPTY, ops + [op]), s)
  {
    var t, all := trace + [s], ops + [op];
    forall i | 0 <= i < |trace|
      ensures t[i] == trace[i] && all[..i] == ops[..i]
    {
    }
    assert t[|trace|] == s && all[..|trace|] == all;
  }

  lemma AgreesNext(env: Env, before: seq<Op>, s: State, op: Op, s': State)
    requires Steps(env, Init(env), before, s) && OpStep(env, s, op, s') && Agrees(env, CRun(env, EMPTY, before), s)
    ensures Agrees(env, CRun(env, EMPTY, before + [op]), s') <==> Stable(env, CRun(env, EMPTY, before), op)
  {
    assert (before + [op])[..|before|] == before;
    InitInv(env);
    RunInv(env, Init(env), before, s);
    AgreesIff(env, CRun(env, EMPTY, before), s, op, s');
  }

  lemma StableSnoc(env: Env, ops: seq<Op>, op: Op)
    ensures StableRun(env, EMPTY, ops + [op]) <==>
              StableRun(env, EMPTY, ops) && Stable(env, CRun(env, EMPTY, ops), op)
  {
    assert (ops + [op])[..|ops|] == ops;
  }

  lemma AllAgreeNext(env: Env, t: seq<State>, before: seq<Op>, op: Op, s: State)
    requires Traced(env, t, before) && OpStep(env, t[|before|], op, s)
    requires AllAgree(env, t, before) <==> StableRun(env, EMPTY, before)
    ensures AllAgree(env, t + [s], before + [op]) <==> StableRun(env, EMPTY, before + [op])
  {
    AllAgreeSnoc(env, t, before, s, op);
    StableSnoc(env, before, op);
    if AllAgree(env, t, before) {
      assert before[..|before|] == before;
      TracedIsRun(env, t, before);
      AgreesNext(env, before, t[|before|], op, s);
    }
  }

  lemma AgreesAtFirst(env: Env, trace: seq<State>, ops: seq<Op>)
    requires ops == [] && trace == [Init(env)]
    ensures AllAgree(env, trace, ops)
  {
    InitAgrees(env);
    assert ops[..0] == [];
  }

  /** Over whole runs: the index agrees with the records in every state exactly if the objects are stable
      throughout. */
  lemma {:induction false} AgreesThroughoutIff(env: Env, trace: seq<State>, ops: seq<Op>)
    requires Traced(env, trace, ops)
    ensures AllAgree(env, trace, ops) <==> StableRun(env, EMPTY, ops)
  {
    if ops == [] {
      AgreesAtFirst(env, trace, ops);
    } else {
      var k := |ops| - 1;
      AgreesThroughoutIff(env, trace[..k + 1], ops[..k]);
      AllAgreeNext(env, trace[..k + 1], ops[..k], ops[k], trace[k + 1]);
      assert trace[..k + 1] + [trace[k + 1]] == trace && ops[..k] + [ops[k]] == ops;
    }
  }

  // --- What a proxy is told ---------------------------------------------------------------------

  /** A port's outer channel leads to the policy computed from scratch. */
  lemma PortPolicy(env: Env, r: Records, n: Ns, store: Store, ns: string, x: string, p: u16)
    requires StoreOk(env, store) && NsOk(ns, n, store) && NsAgrees(env, r, n) && NsExact(n)
    requires x in n.pods && p in n.pods[x].byPort
    ensures Discoverable(r, x, p)
    ensures var tx := n.pods[x].byPort[p].tx;
            && tx in store.outer && store.outer[tx] in store.inner
            && FromScratch(env, r, x, p) == Some(MkServer(r.pods[x].ips.value, store.inner[store.outer[tx]]))
  {
    var e, port := n.pods[x], n.pods[x].byPort[p];
    var pod := r.pods[x].pod;
    ClaimsAgree(env, r, n, x, p);
    var claims := ClaimsOf(r.servers, pod, p);
    assert PodAgrees(env, r.pods[x], e) && PodOk(ns, x, e, n.servers, store.outer) && PodExact(n.servers, e);
    assert PortOk(ns, x, p, port, e.defaultRx, n.servers, store.outer);
    OnlyOneClaims(n.servers, e, p);
    if port.serverName.Some? {
      var y := port.serverName.value;
      assert claims == {y};
      assert ServerOk(ns, y, n.servers[y], n.authzs, store.inner);
      assert Metas(n.servers)[y] == n.servers[y].meta;
      assert store.inner[store.outer[port.tx]] == ServerConfig(r, y);
    } else {
      assert claims == {};
      assert store.inner[DefaultRx(env, pod)] == DefaultConfig(env, Resources.PodMode(env, pod));
    }
  }

  /** What the lookup map serves for a port is the policy computed from scratch, and nothing is
      served for a port that is not discoverable. */
  lemma ServedIsFromScratch(env: Env, c: Cluster, s: State, ns: string, x: string, p: u16)
    requires Inv(env, s) && Agrees(env, c, s) && Exact(s)
    ensures Served(s, ns, x, p) == FromScratch(env, RecordsOf(c, ns), x, p)
  {
    var r, n, l := RecordsOf(c, ns), NsIn(s.namespaces, ns), LookupIn(s.lookups, ns);
    assert AgreesAt(env, c, s, ns) && NsExact(n);
    assert LookupOk(PodsIn(s.namespaces, ns), l);
    if x in l {
      assert EntryOk(n.pods[x], l[x]);
      ClaimsAgree(env, r, n, x, p);
      if p in l[x] {
        PortPolicy(env, r, n, s.store, ns, x, p);
        assert Some(l[x][p].kubelet) == r.pods[x].ips;
      }
    } else {
      assert x !in n.pods;
    }
  }

  /** After any admissible run from an empty index, whatever the interleaving of resources and the
      order of every hash map, each port is served exactly the policy that the accepted resources
      define from scratch. */
  lemma WholeRun(env: Env, ops: seq<Op>, s: State)
    requires Steps(env, Init(env), ops, s) && AdmissibleRun(env, EMPTY, ops)
    ensures forall ns, x, p ::
              Served(s, ns, x, p) == FromScratch(env, RecordsOf(CRun(env, EMPTY, ops), ns), x, p)
  {
    InitInv(env);
    InitAgrees(env);
    RunAgrees(env, EMPTY, Init(env), ops, s);
    forall ns, x, p: u16
      ensures Served(s, ns, x, p) == FromScratch(env, RecordsOf(CRun(env, EMPTY, ops), ns), x, p)
    {
      ServedIsFromScratch(env, CRun(env, EMPTY, ops), s, ns, x, p);
    }
  }

  // --- The assumptions are needed ---------------------------------------------------------------

  lemma ExactNext(env: Env, before: seq<Op>, s: State, op: Op, s': State)
    requires Steps(env, Init(env), before, s) && StableRun(env, EMPTY, before)
               && Stable(env, CRun(env, EMPTY, before), op)
    requires OpStep(env, s, op, s') && Exact(s)
    ensures Exact(s') <==> Admissible(env, CRun(env, EMPTY, before), op)
  {
    InitInv(env);
    InitAgrees(env);
    StableRunAgrees(env, EMPTY, Init(env), before, s);
    ExactBindingIff(env, CRun(env, EMPTY, before), s, op, s');
  }

  ghost predicate AllExact(trace: seq<State>) {
    forall i | 0 <= i < |trace| :: Exact(trace[i])
  }

  lemma AllExactSnoc(trace: seq<State>, s: State)
    ensures AllExact(trace + [s]) <==> AllExact(trace) && Exact(s)
  {
    var t := trace + [s];
    assert t[|trace|] == s && forall i | 0 <= i < |trace| :: t[i] == trace[i];
  }

  /** On stable objects, the bindings are exact all the way exactly if the run is admissible: at every
      step no port is claimed twice and none is handed straight over. */
  lemma {:induction false} ExactThroughoutIff(env: Env, trace: seq<State>, ops: seq<Op>)
    requires Traced(env, trace, ops) && StableRun(env, EMPTY, ops)
    ensures AllExact(trace) <==> AdmissibleRun(env, EMPTY, ops)
  {
    if ops != [] {
      var k := |ops| - 1;
      var before, t := ops[..k], trace[..k + 1];
      ExactThroughoutIff(env, t, before);
      TracedIsRun(env, t, before);
      AllExactSnoc(t, trace[k + 1]);
      assert t + [trace[k + 1]] == trace;
      if AllExact(t) {
        assert Exact(t[k]);
        ExactNext(env, before, trace[k], ops[k], trace[k + 1]);
      }
    }
  }
}
