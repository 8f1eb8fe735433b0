/** A node that is observed brings every pod queued on it into the index, none lost, none twice. */
module Draining {
  import opened Base
  import opened Net
  import opened Policy
  import Resources
  import opened IndexState
  import opened Invariant
  import opened Cluster
  import opened Refinement
  import opened Binding

  function WithoutIn(r: Records, ns: string, ids: set<Id>): Records {
    r.(pods := map x | x in r.pods && Id(ns, x) !in ids :: r.pods[x])
  }

  /** The cluster as if some pods had not been seen yet. */
  function Without(c: Cluster, ids: set<Id>): Cluster {
    c.(namespaces := map ns | ns in c.namespaces :: WithoutIn(c.namespaces[ns], ns, ids))
  }

  function Ids(order: seq<Id>): set<Id> {
    set id | id in order
  }

  /** Seeing one more pod. */
  lemma SeeOne(env: Env, c: Cluster, id: Id, ids: set<Id>, pod: Resources.Pod)
    requires id.ns in c.namespaces && id !in ids && pod.ns == id.ns && pod.name == id.name
    requires id.name in c.namespaces[id.ns].pods
    requires c.namespaces[id.ns].pods[id.name] == Placed(c.nodes, PodRecord(pod, None))
    ensures CStep(env, Without(c, ids + {id}), ApplyPod(pod)) == Without(c, ids)
    ensures Stable(env, Without(c, ids + {id}), ApplyPod(pod))
  {
    var before, after := Without(c, ids + {id}), Without(c, ids);
    assert RecordsOf(before, id.ns) == WithoutIn(c.namespaces[id.ns], id.ns, ids + {id});
    assert PodPut(c.nodes, RecordsOf(before, id.ns), pod) == after.namespaces[id.ns];
    forall ns | ns in c.namespaces && ns != id.ns
      ensures before.namespaces[ns] == after.namespaces[ns]
    {
    }
    assert CStep(env, before, ApplyPod(pod)).namespaces == after.namespaces;
  }

  /** The queued pods are applied one after the other. */
  ghost predicate Seen(c: Cluster, order: seq<Id>, pods: seq<Resources.Pod>) {
    && |pods| == |order|
    && (forall i, j | 0 <= i < j < |order| :: order[i] != order[j])
    && forall i | 0 <= i < |order| ::
         && pods[i].ns == order[i].ns && pods[i].name == order[i].name
         && order[i].ns in c.namespaces && order[i].name in c.namespaces[order[i].ns].pods
         && c.namespaces[order[i].ns].pods[order[i].name] == Placed(c.nodes, PodRecord(pods[i], None))
  }

  lemma {:induction false} SeeAll(env: Env, c: Cluster, order: seq<Id>, pods: seq<Resources.Pod>, k: nat, s: State,
                                  s': State)
    requires Seen(c, order, pods) && k <= |order|
    requires Inv(env, s) && Agrees(env, Without(c, Ids(order)), s) && PodsApplied(env, s, pods[..k], s')
    ensures Inv(env, s') && Agrees(env, Without(c, Ids(order[k..])), s')
    ensures ConflictFree(c) && Exact(s) ==> Exact(s')
  {
    if k == 0 {
      assert order[0..] == order;
    } else {
      var mid := LastPod(env, pods, k, s, s');
      SeeAll(env, c, order, pods, k - 1, s, mid);
      LastId(order, k);
      SeeNext(env, c, order[k - 1], Ids(order[k..]), pods[k - 1], mid, s');
    }
  }

  lemma LastPod(env: Env, pods: seq<Resources.Pod>, k: nat, s: State, s': State) returns (mid: State)
    requires 0 < k <= |pods| && PodsApplied(env, s, pods[..k], s')
    ensures PodsApplied(env, s, pods[..k - 1], mid) && PodApplied(env, mid, pods[k - 1], s')
  {
    assert pods[..k][..k - 1] == pods[..k - 1] && pods[..k][k - 1] == pods[k - 1];
    assert PodsAppliedThen(env, s, pods[..k - 1], pods[k - 1], s');
    mid :| PodsApplied(env, s, pods[..k - 1], mid) && PodApplied(env, mid, pods[k - 1], s');
  }

  lemma LastId(order: seq<Id>, k: nat)
    requires 0 < k <= |order| && forall i, j | 0 <= i < j < |order| :: order[i] != order[j]
    ensures Ids(order[k - 1..]) == Ids(order[k..]) + {order[k - 1]} && order[k - 1] !in Ids(order[k..])
  {
  }

  lemma SeeNext(env: Env, c: Cluster, id: Id, ids: set<Id>, pod: Resources.Pod, s: State, s': State)
    requires id.ns in c.namespaces && id !in ids && pod.ns == id.ns && pod.name == id.name
    requires id.name in c.namespaces[id.ns].pods
    requires c.namespaces[id.ns].pods[id.name] == Placed(c.nodes, PodRecord(pod, None))
    requires Inv(env, s) && Agrees(env, Without(c, ids + {id}), s) && PodApplied(env, s, pod, s')
    ensures Inv(env, s') && Agrees(env, Without(c, ids), s')
    ensures ConflictFree(c) && Exact(s) ==> Exact(s')
  {
    var before := Without(c, ids + {id});
    SeeOne(env, c, id, ids, pod);
    ApplyPodAgrees(env, before, s, pod, s');
    ApplyPodInv(env, s, pod, s');
    if ConflictFree(c) && Exact(s) {
      FewerPodsConflictFree(c, ids);
      SeeOneNoHandover(c, id, ids, pod);
      ApplyPodExact(env, before, s, pod, s');
    }
  }

  lemma FewerPodsConflictFree(c: Cluster, ids: set<Id>)
    requires ConflictFree(c)
    ensures ConflictFree(Without(c, ids))
  {
    forall ns
      ensures NsConflictFree(RecordsOf(Without(c, ids), ns))
    {
      assert NsConflictFree(RecordsOf(c, ns));
      FewerPodsNsConflictFree(RecordsOf(c, ns), ns, ids);
    }
  }

  lemma FewerPodsNsConflictFree(r: Records, ns: string, ids: set<Id>)
    requires NsConflictFree(r)
    ensures NsConflictFree(WithoutIn(r, ns, ids))
  {
  }

  lemma SeeOneNoHandover(c: Cluster, id: Id, ids: set<Id>, pod: Resources.Pod)
    requires pod.ns == id.ns && pod.name == id.name
    ensures NoHandover(Without(c, ids + {id}), ApplyPod(pod))
  {
  }

  function WithNode(s: State, m: string, ips: seq<IpAddr>): State {
    s.(nodes := s.nodes[m := Known(ips)])
  }

  lemma UnseenRecords(env: Env, c: Cluster, s: State, m: string, ips: seq<IpAddr>, ns: string)
    requires Agrees(env, c, s) && m !in c.nodes
    ensures RecordsOf(Without(Observe(c, m, ips), Queue(s.nodes, m)), ns) ==
              WithoutIn(RecordsOf(c, ns), ns, Queue(s.nodes, m))
  {
    NothingElseMoves(env, c, s, m, ips, ns);
    var nodes, q := c.nodes[m := ips], Queue(s.nodes, m);
    assert WithoutIn(PlaceAll(nodes, RecordsOf(c, ns)), ns, q) == WithoutIn(RecordsOf(c, ns), ns, q);
  }

  lemma UnseenAgreesAt(env: Env, c: Cluster, s: State, m: string, ips: seq<IpAddr>, ns: string)
    requires Agrees(env, c, s) && m !in c.nodes
    ensures AgreesAt(env, Without(Observe(c, m, ips), Queue(s.nodes, m)), WithNode(s, m, ips), ns)
  {
    assert AgreesAt(env, c, s, ns);
    UnseenRecords(env, c, s, m, ips, ns);
    QueuedAreUnplaced(env, c, s, m, ns);
    WithoutUnplaced(env, RecordsOf(c, ns), NsIn(s.namespaces, ns), LookupIn(s.lookups, ns), ns, Queue(s.nodes, m));
  }

  lemma UnseenQueues(env: Env, c: Cluster, s: State, m: string, ips: seq<IpAddr>)
    requires Agrees(env, c, s) && m !in c.nodes
    ensures QueuesAgree(Without(Observe(c, m, ips), Queue(s.nodes, m)), s.nodes[m := Known(ips)])
  {
    var c0, nodes' := Without(Observe(c, m, ips), Queue(s.nodes, m)), s.nodes[m := Known(ips)];
    forall k, ns, x
      ensures Waiting(c0, k, ns, x) <==> IsPending(nodes', k, ns, x)
      ensures IsPending(nodes', k, ns, x) ==> nodes'[k].pods[ns][x] == RecordsOf(c0, ns).pods[x].pod
    {
      UnseenRecords(env, c, s, m, ips, ns);
      assert Id(ns, x) in Queue(s.nodes, m) <==> IsPending(s.nodes, m, ns, x);
      assert Waiting(c, m, ns, x) <==> IsPending(s.nodes, m, ns, x);
      assert Waiting(c, k, ns, x) <==> IsPending(s.nodes, k, ns, x);
    }
  }

  /** Before any of the queued pods is seen, the node is known and nothing waits for it. */
  lemma NodeKnown(env: Env, c: Cluster, s: State, m: string, ips: seq<IpAddr>)
    requires Agrees(env, c, s) && m !in c.nodes
    ensures Agrees(env, Without(Observe(c, m, ips), Queue(s.nodes, m)), WithNode(s, m, ips))
  {
    forall ns
      ensures AgreesAt(env, Without(Observe(c, m, ips), Queue(s.nodes, m)), WithNode(s, m, ips), ns)
    {
      UnseenAgreesAt(env, c, s, m, ips, ns);
    }
    UnseenQueues(env, c, s, m, ips);
    assert forall k :: IsKnown(s.nodes[m := Known(ips)], k) <==> IsKnown(s.nodes, k) || k == m;
  }

  lemma NothingElseMoves(env: Env, c: Cluster, s: State, m: string, ips: seq<IpAddr>, ns: string)
    requires Agrees(env, c, s) && m !in c.nodes
    ensures forall x | x in RecordsOf(c, ns).pods && Id(ns, x) !in Queue(s.nodes, m) ::
              Placed(c.nodes[m := ips], RecordsOf(c, ns).pods[x]) == RecordsOf(c, ns).pods[x]
  {
    forall x | x in RecordsOf(c, ns).pods && Id(ns, x) !in Queue(s.nodes, m)
      ensures Placed(c.nodes[m := ips], RecordsOf(c, ns).pods[x]) == RecordsOf(c, ns).pods[x]
    {
      var rec := RecordsOf(c, ns).pods[x];
      var node := Resources.NodeName(rec.pod);
      if rec.ips.None? && node.Some? {
        assert Waiting(c, node.value, ns, x);
        WaitingIsNotKnown(env, c, s, node.value, ns, x);
      }
    }
  }

  lemma QueuedAreUnplaced(env: Env, c: Cluster, s: State, m: string, ns: string)
    requires Agrees(env, c, s)
    ensures forall x | Id(ns, x) in Queue(s.nodes, m) ::
              x in RecordsOf(c, ns).pods && RecordsOf(c, ns).pods[x].ips.None?
  {
    forall x | Id(ns, x) in Queue(s.nodes, m)
      ensures x in RecordsOf(c, ns).pods && RecordsOf(c, ns).pods[x].ips.None?
    {
      assert IsPending(s.nodes, m, ns, x);
      assert Waiting(c, m, ns, x);
    }
  }

  lemma WithoutUnplaced(env: Env, r: Records, n: Ns, l: map<string, map<u16, Rx>>, ns: string, ids: set<Id>)
    requires NsAgrees(env, r, n) && KubeletsAgree(r.pods, l)
    requires forall x | Id(ns, x) in ids :: x in r.pods && r.pods[x].ips.None?
    ensures NsAgrees(env, WithoutIn(r, ns, ids), n) && KubeletsAgree(WithoutIn(r, ns, ids).pods, l)
  {
  }

  /** The queue of a node, walked in any order, is exactly what the records say waits for it. */
  lemma QueueIsSeen(env: Env, c: Cluster, s: State, m: string, ips: seq<IpAddr>, pods: seq<Resources.Pod>,
                    order: seq<Id>)
    requires Inv(env, s) && Agrees(env, c, s) && m !in c.nodes
    requires Drains(s.nodes, m, pods, order)
    ensures Seen(Observe(c, m, ips), order, pods)
  {
  }

  lemma SeenAll(c: Cluster)
    ensures Without(c, {}) == c
  {
    forall ns | ns in c.namespaces
      ensures WithoutIn(c.namespaces[ns], ns, {}) == c.namespaces[ns]
    {
    }
    assert Without(c, {}).namespaces == c.namespaces;
  }

  lemma DrainAgrees(env: Env, c: Cluster, s: State, m: string, ips: seq<IpAddr>, pods: seq<Resources.Pod>,
                    order: seq<Id>, s': State)
    requires Inv(env, s) && Agrees(env, c, s) && m !in c.nodes && ips != []
    requires Drains(s.nodes, m, pods, order)
    requires PodsApplied(env, WithNode(s, m, ips), pods, s')
    ensures Agrees(env, Observe(c, m, ips), s')
    ensures ConflictFree(Observe(c, m, ips)) && Exact(s) ==> Exact(s')
  {
    var c', s0 := Observe(c, m, ips), WithNode(s, m, ips);
    NodeKnown(env, c, s, m, ips);
    assert Ids(order) == Queue(s.nodes, m);
    NodesReplaced(env, s, s0.nodes);
    QueueIsSeen(env, c, s, m, ips, pods, order);
    assert pods[..|pods|] == pods && Ids(order[|order|..]) == {};
    SeeAll(env, c', order, pods, |pods|, s0, s');
    SeenAll(c');
  }

  lemma ApplyNodeAgrees(env: Env, c: Cluster, s: State, node: Resources.Node, s': State)
    requires Inv(env, s) && Agrees(env, c, s) && NodeApplied(env, s, node, s')
    ensures Agrees(env, CStep(env, c, ApplyNode(node)), s')
    ensures ConflictFree(CStep(env, c, ApplyNode(node))) && Exact(s) ==> Exact(s')
  {
    assert node.name in c.nodes <==> IsKnown(s.nodes, node.name);
    if Resources.KubeletIps(node).Ok? && node.name !in c.nodes {
      var pods, order :| Drains(s.nodes, node.name, pods, order)
                         && PodsApplied(env, WithNode(s, node.name, Resources.KubeletIps(node).value), pods, s');
      Resources.KubeletIpsMeaning(node);
      DrainAgrees(env, c, s, node.name, Resources.KubeletIps(node).value, pods, order, s');
    }
  }

  // --- Every operation ------------------------------------------------------------------------

  /** Every operation on stable objects keeps the index in agreement with the records, whatever the
      servers claim. */
  lemma OpAgrees(env: Env, c: Cluster, s: State, op: Op, s': State)
    requires Inv(env, s) && Agrees(env, c, s) && Stable(env, c, op) && OpStep(env, s, op, s')
    ensures Agrees(env, CStep(env, c, op), s')
  {
    match op {
      case ApplyAuthz(a) => ApplyAuthzAgrees(env, c, s, a);
      case DeleteAuthz(ns, name) => DeleteAuthzAgrees(env, c, s, ns, name);
      case ApplyServer(srv) => ApplyServerAgrees(env, c, s, srv, s');
      case RmServer(ns, name) => RmServerAgrees(env, c, s, ns, name);
      case ApplyPod(pod) => ApplyPodAgrees(env, c, s, pod, s');
      case RmPod(ns, name) => RmPodAgrees(env, c, s, ns, name, s');
      case ClearPending => ClearPendingAgrees(env, c, s);
      case ApplyNode(node) => ApplyNodeAgrees(env, c, s, node, s');
      case RemoveNode(m) => RemoveNodeAgrees(env, c, s, m);
    }
  }
}
