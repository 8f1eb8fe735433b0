/** Which pods are indexed and which wait, after any operation on pods and nodes: nothing here
    depends on what servers claim or on whether specs are stable. */
module Effects {
  import opened Base
  import opened Net
  import opened Policy
  import Resources
  import opened IndexState
  import opened Invariant
  import E = Events

  predicate Indexed(s: State, ns: string, x: string) {
    ns in s.namespaces && x in s.namespaces[ns].pods
  }

  /** The pod's node is known. */
  predicate HasPlace(nodes: map<string, NodeState>, pod: Resources.Pod) {
    Resources.NodeName(pod).Some? && IsKnown(nodes, Resources.NodeName(pod).value)
  }

  ghost predicate SameKnown(s: State, s': State) {
    forall m :: (IsKnown(s'.nodes, m) <==> IsKnown(s.nodes, m)) && (IsKnown(s.nodes, m) ==> s'.nodes[m] == s.nodes[m])
  }

  lemma PodAppliedIndexed(env: Env, s: State, pod: Resources.Pod, s': State)
    requires PodApplied(env, s, pod, s')
    ensures forall ns, x ::
              Indexed(s', ns, x) <==> Indexed(s, ns, x) || (Id(ns, x) == Id(pod.ns, pod.name) && HasPlace(s.nodes, pod))
  {
    var s1 := EnsureNs(s, pod.ns);
    assert forall ns, x :: Indexed(s1, ns, x) <==> Indexed(s, ns, x);
  }

  lemma PodAppliedQueues(env: Env, s: State, pod: Resources.Pod, s': State)
    requires PodApplied(env, s, pod, s')
    ensures SameKnown(s, s')
    ensures forall m, ns, x ::
              IsPending(s'.nodes, m, ns, x) <==>
                || IsPending(s.nodes, m, ns, x)
                || (Id(ns, x) == Id(pod.ns, pod.name) && Resources.NodeName(pod) == Some(m)
                    && !IsKnown(s.nodes, m) && !Indexed(s, ns, x))
  {
    var s1 := EnsureNs(s, pod.ns);
    assert forall ns, x :: Indexed(s1, ns, x) <==> Indexed(s, ns, x);
    if !Indexed(s, pod.ns, pod.name) && Resources.NodeName(pod).Some? && !HasPlace(s.nodes, pod) {
      PushPendingQueues(s.nodes, Resources.NodeName(pod).value, pod);
    }
  }

  lemma PushPendingQueues(nodes: map<string, NodeState>, k: string, pod: Resources.Pod)
    requires !IsKnown(nodes, k)
    ensures forall m, ns, x ::
              IsPending(PushPending(nodes, k, pod), m, ns, x) <==>
                IsPending(nodes, m, ns, x) || (m == k && ns == pod.ns && x == pod.name)
  {
  }

  /** Of an object of an indexed pod only the labels are taken: its spec and its annotation may as well
      be another's. */
  lemma OnlyLabelsAreTaken(env: Env, s: State, pod: Resources.Pod, other: Resources.Pod, s': State)
    requires Indexed(s, pod.ns, pod.name) && other.ns == pod.ns && other.name == pod.name && other.labels == pod.labels
    ensures PodApplied(env, s, pod, s') <==> PodApplied(env, s, other, s')
  {
  }

  // --- A list of pods ---------------------------------------------------------------------

  /** Some pod of the list has that name and is assigned to that node. */
  ghost predicate ListedOn(l: seq<Resources.Pod>, ns: string, x: string, m: string) {
    exists i :: 0 <= i < |l| && l[i].ns == ns && l[i].name == x && Resources.NodeName(l[i]) == Some(m)
  }

  ghost predicate ListedOnKnown(nodes: map<string, NodeState>, l: seq<Resources.Pod>, ns: string, x: string) {
    exists m :: IsKnown(nodes, m) && ListedOn(l, ns, x, m)
  }

  ghost predicate NoDuplicates(l: seq<Resources.Pod>) {
    forall i, j | 0 <= i < j < |l| :: Id(l[i].ns, l[i].name) != Id(l[j].ns, l[j].name)
  }

  lemma ListedOnSnoc(l: seq<Resources.Pod>, pod: Resources.Pod, ns: string, x: string, m: string)
    ensures ListedOn(l + [pod], ns, x, m) <==>
              ListedOn(l, ns, x, m) || (Id(ns, x) == Id(pod.ns, pod.name) && Resources.NodeName(pod) == Some(m))
  {
    var l' := l + [pod];
    if ListedOn(l, ns, x, m) {
      var i :| 0 <= i < |l| && l[i].ns == ns && l[i].name == x && Resources.NodeName(l[i]) == Some(m);
      assert l'[i] == l[i];
    }
    if Id(ns, x) == Id(pod.ns, pod.name) && Resources.NodeName(pod) == Some(m) {
      assert l'[|l|] == pod;
    }
  }

  lemma ListedOnKnownSnoc(nodes: map<string, NodeState>, l: seq<Resources.Pod>, pod: Resources.Pod, ns: string,
                          x: string)
    ensures ListedOnKnown(nodes, l + [pod], ns, x) <==>
              ListedOnKnown(nodes, l, ns, x) || (Id(ns, x) == Id(pod.ns, pod.name) && HasPlace(nodes, pod))
  {
    forall m {
      ListedOnSnoc(l, pod, ns, x, m);
    }
    if Id(ns, x) == Id(pod.ns, pod.name) && HasPlace(nodes, pod) {
      assert ListedOn(l + [pod], ns, x, Resources.NodeName(pod).value);
    }
    if ListedOnKnown(nodes, l, ns, x) {
      var m :| IsKnown(nodes, m) && ListedOn(l, ns, x, m);
      assert ListedOn(l + [pod], ns, x, m);
    }
  }

  /** What applying a list of pods does. */
  ghost predicate PodsEffect(s: State, l: seq<Resources.Pod>, s': State) {
    && SameKnown(s, s')
    && (forall ns, x :: Indexed(s', ns, x) <==> Indexed(s, ns, x) || ListedOnKnown(s.nodes, l, ns, x))
    && (NoDuplicates(l) ==>
          forall m, ns, x ::
            IsPending(s'.nodes, m, ns, x) <==>
              IsPending(s.nodes, m, ns, x) || (!IsKnown(s.nodes, m) && ListedOn(l, ns, x, m) && !Indexed(s, ns, x)))
  }

  lemma PodsEffectStart(s: State)
    ensures PodsEffect(s, [], s)
  {
  }

  lemma PodsEffectNext(env: Env, s: State, l: seq<Resources.Pod>, mid: State, pod: Resources.Pod, s': State)
    requires PodsEffect(s, l, mid) && PodApplied(env, mid, pod, s')
    ensures PodsEffect(s, l + [pod], s')
  {
    PodAppliedIndexed(env, mid, pod, s');
    PodAppliedQueues(env, mid, pod, s');
    assert HasPlace(mid.nodes, pod) <==> HasPlace(s.nodes, pod);
    forall ns, x
      ensures Indexed(s', ns, x) <==> Indexed(s, ns, x) || ListedOnKnown(s.nodes, l + [pod], ns, x)
    {
      ListedOnKnownSnoc(s.nodes, l, pod, ns, x);
    }
    if NoDuplicates(l + [pod]) {
      LastIsNew(l, pod);
      forall m, ns, x
        ensures IsPending(s'.nodes, m, ns, x) <==>
                  IsPending(s.nodes, m, ns, x) || (!IsKnown(s.nodes, m) && ListedOn(l + [pod], ns, x, m)
                      && !Indexed(s, ns, x))
      {
        ListedOnSnoc(l, pod, ns, x, m);
        if Id(ns, x) == Id(pod.ns, pod.name) {
          assert !ListedOnKnown(s.nodes, l, ns, x);
        }
      }
    }
  }

  lemma LastIsNew(l: seq<Resources.Pod>, pod: Resources.Pod)
    requires NoDuplicates(l + [pod])
    ensures NoDuplicates(l) && forall m :: !ListedOn(l, pod.ns, pod.name, m)
  {
    var l' := l + [pod];
    assert l'[|l|] == pod && forall i | 0 <= i < |l| :: l'[i] == l[i];
  }

  lemma {:induction false} PodsAppliedEffect(env: Env, s: State, l: seq<Resources.Pod>, s': State)
    requires PodsApplied(env, s, l, s')
    ensures PodsEffect(s, l, s')
  {
    if l == [] {
      PodsEffectStart(s);
    } else {
      var k := |l| - 1;
      assert PodsAppliedThen(env, s, l[..k], l[k], s');
      var mid :| PodsApplied(env, s, l[..k], mid) && PodApplied(env, mid, l[k], s');
      PodsAppliedEffect(env, s, l[..k], mid);
      PodsEffectNext(env, s, l[..k], mid, l[k], s');
      assert l[..k] + [l[k]] == l;
    }
  }

  lemma {:induction false} ApplyPodsEffect(env: Env, s: State, l: seq<Resources.Pod>, s': State)
    requires Steps(env, s, E.ApplyPods(l), s')
    ensures PodsEffect(s, l, s')
  {
    if l == [] {
      PodsEffectStart(s);
    } else {
      var k := |l| - 1;
      assert E.ApplyPods(l)[..k] == E.ApplyPods(l[..k]) && E.ApplyPods(l)[k] == ApplyPod(l[k]);
      assert StepsThen(env, s, E.ApplyPods(l[..k]), ApplyPod(l[k]), s');
      var mid :| Steps(env, s, E.ApplyPods(l[..k]), mid) && OpStep(env, mid, ApplyPod(l[k]), s');
      ApplyPodsEffect(env, s, l[..k], mid);
      PodsEffectNext(env, s, l[..k], mid, l[k], s');
      assert l[..k] + [l[k]] == l;
    }
  }

  // --- A node is observed --------------------------------------------------------------------

  /** Observing a node moves its whole queue into the index: every queued pod is indexed afterwards
      and none is queued again, no other pod is indexed, and no other queue changes. */
  lemma NodeDrainsItsQueue(env: Env, s: State, node: Resources.Node, s': State)
    requires Inv(env, s) && NodeApplied(env, s, node, s')
    requires !IsKnown(s.nodes, node.name) && Resources.KubeletIps(node).Ok?
    ensures IsKnown(s'.nodes, node.name) && s'.nodes[node.name].ips == Resources.KubeletIps(node).value
    ensures forall ns, x :: Indexed(s', ns, x) <==> Indexed(s, ns, x) || Id(ns, x) in Queue(s.nodes, node.name)
    ensures forall m, ns, x :: IsPending(s'.nodes, m, ns, x) <==> IsPending(s.nodes, m, ns, x) && m != node.name
  {
    var ips := Resources.KubeletIps(node).value;
    var s1 := s.(nodes := s.nodes[node.name := Known(ips)]);
    var pods, order :| Drains(s.nodes, node.name, pods, order) && PodsApplied(env, s1, pods, s');
    PodsAppliedEffect(env, s1, pods, s');
    QueueIsListed(env, s, node.name, pods, order);
    DrainedQueues(s, node.name, ips, pods, s');
  }

  lemma DrainedQueues(s: State, name: string, ips: seq<IpAddr>, pods: seq<Resources.Pod>, s': State)
    requires !IsKnown(s.nodes, name)
    requires PodsEffect(s.(nodes := s.nodes[name := Known(ips)]), pods, s') && NoDuplicates(pods)
    requires forall ns, x, k :: ListedOn(pods, ns, x, k) <==> k == name && Id(ns, x) in Queue(s.nodes, name)
    ensures IsKnown(s'.nodes, name) && s'.nodes[name].ips == ips
    ensures forall ns, x :: Indexed(s', ns, x) <==> Indexed(s, ns, x) || Id(ns, x) in Queue(s.nodes, name)
    ensures forall m, ns, x :: IsPending(s'.nodes, m, ns, x) <==> IsPending(s.nodes, m, ns, x) && m != name
  {
  }

  /** A known node stays known whatever node is observed. */
  lemma NodeAppliedKeepsKnown(env: Env, s: State, node: Resources.Node, s': State)
    requires NodeApplied(env, s, node, s')
    ensures forall m | IsKnown(s.nodes, m) :: IsKnown(s'.nodes, m) && s'.nodes[m] == s.nodes[m]
  {
    if !IsKnown(s.nodes, node.name) && Resources.KubeletIps(node).Ok? {
      var s1 := s.(nodes := s.nodes[node.name := Known(Resources.KubeletIps(node).value)]);
      var pods, order :| Drains(s.nodes, node.name, pods, order) && PodsApplied(env, s1, pods, s');
      PodsAppliedEffect(env, s1, pods, s');
      assert forall m | IsKnown(s.nodes, m) :: IsKnown(s1.nodes, m) && s1.nodes[m] == s.nodes[m];
    }
  }

  lemma QueueIsListed(env: Env, s: State, m: string, pods: seq<Resources.Pod>, order: seq<Id>)
    requires Inv(env, s) && Drains(s.nodes, m, pods, order)
    ensures NoDuplicates(pods)
    ensures forall ns, x, k :: ListedOn(pods, ns, x, k) <==> k == m && Id(ns, x) in Queue(s.nodes, m)
  {
  }
}
