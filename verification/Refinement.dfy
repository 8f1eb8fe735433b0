/** The patched index agrees with the records of the cluster. */
module Refinement {
  import opened Base
  import opened Labels
  import opened Net
  import opened Policy
  import opened Ports
  import Resources
  import opened Watch
  import opened IndexState
  import opened Invariant
  import opened Cluster

  // --- Agreement between the index and the cluster ---------------------------------------

  function Metas(servers: map<string, ServerEntry>): map<string, ServerMeta> {
    map n | n in servers :: servers[n].meta
  }

  ghost predicate PodAgrees(env: Env, rec: PodRecord, e: PodEntry) {
    && rec.ips.Some?
    && rec.pod.spec.Some?
    && e.labels == rec.pod.labels
    && e.byPort.Keys == PodPorts(rec.pod)
    && e.byName == Named(Decls(rec.pod))
    && e.defaultRx == DefaultRx(env, rec.pod)
  }

  /** The indexed pods are the discoverable ones. */
  ghost predicate PodsAgree(env: Env, recs: map<string, PodRecord>, pods: map<string, PodEntry>) {
    && (forall x | x in pods :: x in recs && PodAgrees(env, recs[x], pods[x]))
    && (forall x | x in recs && recs[x].ips.Some? :: x in pods)
  }

  ghost predicate NsAgrees(env: Env, r: Records, n: Ns) {
    && r.authzs == n.authzs
    && r.servers == Metas(n.servers)
    && PodsAgree(env, r.pods, n.pods)
  }

  ghost predicate KubeletsAgree(recs: map<string, PodRecord>, l: map<string, map<u16, Rx>>) {
    forall x, p | x in l && p in l[x] :: x in recs && Some(l[x][p].kubelet) == recs[x].ips
  }

  ghost predicate AgreesAt(env: Env, c: Cluster, s: State, ns: string) {
    && NsAgrees(env, RecordsOf(c, ns), NsIn(s.namespaces, ns))
    && KubeletsAgree(RecordsOf(c, ns).pods, LookupIn(s.lookups, ns))
  }

  /** The queued pods are those whose node has not been observed, each under its own node. */
  ghost predicate QueuesAgree(c: Cluster, nodes: map<string, NodeState>) {
    forall m, ns, x ::
      && (Waiting(c, m, ns, x) <==> IsPending(nodes, m, ns, x))
      && (IsPending(nodes, m, ns, x) ==> nodes[m].pods[ns][x] == RecordsOf(c, ns).pods[x].pod)
  }

  ghost predicate NodesAgree(observed: map<string, seq<IpAddr>>, nodes: map<string, NodeState>) {
    forall m ::
      && (m in observed <==> IsKnown(nodes, m))
      && (IsKnown(nodes, m) ==> nodes[m].ips == observed[m])
  }

  /** Everything but the bindings. */
  ghost predicate Agrees(env: Env, c: Cluster, s: State) {
    && (forall ns :: AgreesAt(env, c, s, ns))
    && QueuesAgree(c, s.nodes)
    && NodesAgree(c.nodes, s.nodes)
  }

  lemma InitAgrees(env: Env)
    ensures Agrees(env, EMPTY, Init(env))
  {
  }

  // --- Framing ----------------------------------------------------------------------------

  /** When one namespace's records and index change together, the others still agree. */
  lemma ReplaceAgrees(env: Env, c: Cluster, s: State, ns: string, r': Records, s': State)
    requires forall other :: AgreesAt(env, c, s, other)
    requires forall other | other != ns ::
               NsIn(s'.namespaces, other) == NsIn(s.namespaces, other)
                   && LookupIn(s'.lookups, other) == LookupIn(s.lookups, other)
    requires NsAgrees(env, r', NsIn(s'.namespaces, ns)) && KubeletsAgree(r'.pods, LookupIn(s'.lookups, ns))
    ensures forall other :: AgreesAt(env, Put(c, ns, r'), s', other)
  {
    var c' := Put(c, ns, r');
    forall other
      ensures AgreesAt(env, c', s', other)
    {
      assert AgreesAt(env, c, s, other);
      assert RecordsOf(c', other) == if other == ns then r' else RecordsOf(c, other);
    }
  }

  lemma SameQueues(c: Cluster, c': Cluster, nodes: map<string, NodeState>)
    requires QueuesAgree(c, nodes)
    requires forall ns :: RecordsOf(c', ns).pods == RecordsOf(c, ns).pods
    ensures QueuesAgree(c', nodes)
  {
  }

  /** The records of one namespace change, but not its pods or its lookups. */
  lemma PodsKeptAgrees(env: Env, c: Cluster, s: State, ns: string, r': Records, s': State)
    requires Agrees(env, c, s)
    requires r'.pods == RecordsOf(c, ns).pods
    requires s'.nodes == s.nodes && s'.lookups == s.lookups
    requires forall other | other != ns :: NsIn(s'.namespaces, other) == NsIn(s.namespaces, other)
    requires NsAgrees(env, r', NsIn(s'.namespaces, ns))
    ensures Agrees(env, Put(c, ns, r'), s')
  {
    assert AgreesAt(env, c, s, ns);
    ReplaceAgrees(env, c, s, ns, r', s');
    SameQueues(c, Put(c, ns, r'), s.nodes);
  }

  lemma EnsureNsAgrees(env: Env, c: Cluster, s: State, ns: string)
    requires Agrees(env, c, s)
    ensures Agrees(env, c, EnsureNs(s, ns))
    ensures forall other :: NsIn(EnsureNs(s, ns).namespaces, other) == NsIn(s.namespaces, other)
  {
    var s' := EnsureNs(s, ns);
    forall other
      ensures AgreesAt(env, c, s', other)
    {
      assert AgreesAt(env, c, s, other);
    }
  }

  // --- Authorizations and servers -----------------------------------------------------------

  lemma ApplyAuthzAgrees(env: Env, c: Cluster, s0: State, a: Resources.ServerAuthorization)
    requires Agrees(env, c, s0)
    ensures Agrees(env, Put(c, a.ns, AuthzPut(env, RecordsOf(c, a.ns), a)), AuthzApplied(env, s0, a))
  {
    EnsureNsAgrees(env, c, s0, a.ns);
    var s := EnsureNs(s0, a.ns);
    var s' := AuthzApplied(env, s0, a);
    assert AgreesAt(env, c, s, a.ns);
    assert Metas(s'.namespaces[a.ns].servers) == Metas(s.namespaces[a.ns].servers);
    var r := AuthzPut(env, RecordsOf(c, a.ns), a);
    assert r.authzs == s'.namespaces[a.ns].authzs;
    PodsKeptAgrees(env, c, s, a.ns, r, s');
  }

  lemma DeleteAuthzAgrees(env: Env, c: Cluster, s: State, ns: string, name: string)
    requires Agrees(env, c, s)
    ensures Agrees(env, Put(c, ns, AuthzDropped(RecordsOf(c, ns), name)), AuthzDeleted(s, ns, name))
  {
    var s', r := AuthzDeleted(s, ns, name), RecordsOf(c, ns);
    assert AgreesAt(env, c, s, ns);
    assert Metas(NsIn(s'.namespaces, ns).servers) == Metas(NsIn(s.namespaces, ns).servers);
    PodsKeptAgrees(env, c, s, ns, AuthzDropped(r, name), s');
  }

  /** Linking or resetting ports changes nothing that is on record. */
  lemma LinkedPodsAgree(env: Env, recs: map<string, PodRecord>, pods: map<string, PodEntry>,
                        pods': map<string, PodEntry>)
    requires PodsAgree(env, recs, pods) && pods'.Keys == pods.Keys
    requires forall x | x in pods ::
               pods'[x] == pods[x].(byPort := pods'[x].byPort) && pods'[x].byPort.Keys == pods[x].byPort.Keys
    ensures PodsAgree(env, recs, pods')
  {
  }

  lemma ApplyServerAgrees(env: Env, c: Cluster, s0: State, srv: Resources.Server, s': State)
    requires Agrees(env, c, s0) && ServerApplied(s0, srv, s')
    ensures Agrees(env, Put(c, srv.ns, ServerPut(RecordsOf(c, srv.ns), srv)), s')
  {
    EnsureNsAgrees(env, c, s0, srv.ns);
    var s := EnsureNs(s0, srv.ns);
    var n, n', r := s.namespaces[srv.ns], s'.namespaces[srv.ns], RecordsOf(c, srv.ns);
    assert AgreesAt(env, c, s, srv.ns);
    LinkedPodsAgree(env, r.pods, n.pods, n'.pods);
    assert Metas(n'.servers) == ServerPut(r, srv).servers;
    PodsKeptAgrees(env, c, s, srv.ns, ServerPut(r, srv), s');
  }

  lemma RmServerAgrees(env: Env, c: Cluster, s: State, ns: string, name: string)
    requires Agrees(env, c, s)
    ensures Agrees(env, Put(c, ns, ServerDropped(RecordsOf(c, ns), name)), ServerRemoved(s, ns, name))
  {
    var s', r, n := ServerRemoved(s, ns, name), RecordsOf(c, ns), NsIn(s.namespaces, ns);
    assert AgreesAt(env, c, s, ns);
    assert Metas(n.servers - {name}) == r.servers - {name};
    if name in n.servers {
      LinkedPodsAgree(env, r.pods, n.pods, ResetPods(n.pods, name));
    } else {
      assert n.servers - {name} == n.servers;
    }
    PodsKeptAgrees(env, c, s, ns, ServerDropped(r, name), s');
  }

  // --- Pods ----------------------------------------------------------------------------------

  /** One pod's record and its place in the queues change; every other pod's stay. */
  lemma OneQueued(c: Cluster, ns: string, x: string, r': Records, nodes: map<string, NodeState>,
                  nodes': map<string, NodeState>)
    requires QueuesAgree(c, nodes)
    requires forall y | y != x :: (y in r'.pods <==> y in RecordsOf(c, ns).pods)
                               && (y in r'.pods ==> r'.pods[y] == RecordsOf(c, ns).pods[y])
    requires forall m, a, y | Id(a, y) != Id(ns, x) ::
               && (IsPending(nodes', m, a, y) <==> IsPending(nodes, m, a, y))
               && (IsPending(nodes', m, a, y) ==> nodes'[m].pods[a][y] == nodes[m].pods[a][y])
    requires forall m ::
               && (IsPending(nodes', m, ns, x) <==>
                     x in r'.pods && r'.pods[x].ips.None? && Resources.NodeName(r'.pods[x].pod) == Some(m))
               && (IsPending(nodes', m, ns, x) ==> nodes'[m].pods[ns][x] == r'.pods[x].pod)
    ensures QueuesAgree(Put(c, ns, r'), nodes')
  {
  }

  lemma OnePodAgrees(env: Env, recs: map<string, PodRecord>, pods: map<string, PodEntry>, x: string, rec: PodRecord,
                     e: PodEntry)
    requires PodsAgree(env, recs, pods) && PodAgrees(env, rec, e)
    ensures PodsAgree(env, recs[x := rec], pods[x := e])
  {
  }

  lemma WaitingIsNotKnown(env: Env, c: Cluster, s: State, m: string, ns: string, x: string)
    requires Agrees(env, c, s) && Waiting(c, m, ns, x)
    ensures m !in c.nodes && IsPending(s.nodes, m, ns, x)
  {
  }

  /** No other pod is queued or taken from a queue, and the known nodes stay. */
  ghost predicate QueuesSameBut(nodes: map<string, NodeState>, nodes': map<string, NodeState>, ns: string, x: string)
  {
    && (forall m, a, y | Id(a, y) != Id(ns, x) ::
          && (IsPending(nodes', m, a, y) <==> IsPending(nodes, m, a, y))
          && (IsPending(nodes', m, a, y) ==> nodes'[m].pods[a][y] == nodes[m].pods[a][y]))
    && (forall m ::
          && (IsKnown(nodes', m) <==> IsKnown(nodes, m))
          && (IsKnown(nodes, m) ==> nodes'[m] == nodes[m]))
  }

  /** A pod is queued where its record says. */
  ghost predicate QueuedOnRecord(nodes: map<string, NodeState>, ns: string, x: string, recs: map<string, PodRecord>) {
    forall m ::
      && (IsPending(nodes, m, ns, x) <==> x in recs && recs[x].ips.None? && Resources.NodeName(recs[x].pod) == Some(m))
      && (IsPending(nodes, m, ns, x) ==> nodes[m].pods[ns][x] == recs[x].pod)
  }

  /** One pod of one namespace changes, in the records and in the index. */
  lemma OnePodStep(env: Env, c: Cluster, s: State, ns: string, x: string, r': Records, s': State)
    requires Agrees(env, c, s)
    requires forall other | other != ns ::
               NsIn(s'.namespaces, other) == NsIn(s.namespaces, other)
                   && LookupIn(s'.lookups, other) == LookupIn(s.lookups, other)
    requires NsAgrees(env, r', NsIn(s'.namespaces, ns)) && KubeletsAgree(r'.pods, LookupIn(s'.lookups, ns))
    requires forall y | y != x :: (y in r'.pods <==> y in RecordsOf(c, ns).pods)
                               && (y in r'.pods ==> r'.pods[y] == RecordsOf(c, ns).pods[y])
    requires QueuesSameBut(s.nodes, s'.nodes, ns, x) && QueuedOnRecord(s'.nodes, ns, x, r'.pods)
    ensures Agrees(env, Put(c, ns, r'), s')
  {
    ReplaceAgrees(env, c, s, ns, r', s');
    OneQueued(c, ns, x, r', s.nodes, s'.nodes);
  }

  lemma NodesKept(nodes: map<string, NodeState>, ns: string, x: string, recs: map<string, PodRecord>)
    requires forall m :: !IsPending(nodes, m, ns, x)
    requires x in recs ==> recs[x].ips.Some? || Resources.NodeName(recs[x].pod).None?
    ensures QueuesSameBut(nodes, nodes, ns, x) && QueuedOnRecord(nodes, ns, x, recs)
  {
  }

  lemma RelabeledNs(env: Env, observed: map<string, seq<IpAddr>>, r: Records, n: Ns, pod: Resources.Pod, e: PodEntry,
                    n': Ns)
    requires NsAgrees(env, r, n) && pod.name in n.pods && KeepsSpec(env, r.pods[pod.name], pod)
    requires e == n.pods[pod.name].(labels := pod.labels, byPort := e.byPort)
               && e.byPort.Keys == n.pods[pod.name].byPort.Keys
    requires n' == n.(pods := n.pods[pod.name := e])
    ensures NsAgrees(env, PodPut(observed, r, pod), n')
    ensures PodPut(observed, r, pod).pods == r.pods[pod.name := PodRecord(pod, r.pods[pod.name].ips)]
    ensures r.pods[pod.name].ips.Some?
  {
  }

  lemma RelabeledState(s: State, pod: Resources.Pod, s': State)
    requires pod.ns in s.namespaces && pod.name in s.namespaces[pod.ns].pods
    requires if s.namespaces[pod.ns].pods[pod.name].labels != pod.labels then PodRelabeled(s, pod, s') else s' == s
    ensures var n, n' := NsIn(s.namespaces, pod.ns), NsIn(s'.namespaces, pod.ns);
            && pod.name in n'.pods
            && var e := n'.pods[pod.name];
            && n' == n.(pods := n.pods[pod.name := e])
            && e == n.pods[pod.name].(labels := pod.labels, byPort := e.byPort)
            && e.byPort.Keys == n.pods[pod.name].byPort.Keys
    ensures forall other | other != pod.ns :: NsIn(s'.namespaces, other) == NsIn(s.namespaces, other)
    ensures s'.lookups == s.lookups && s'.nodes == s.nodes
  {
  }

  lemma IndexedIsNotQueued(env: Env, c: Cluster, s: State, ns: string, x: string)
    requires Agrees(env, c, s) && x in NsIn(s.namespaces, ns).pods
    ensures x in RecordsOf(c, ns).pods && RecordsOf(c, ns).pods[x].ips.Some?
    ensures forall m :: !IsPending(s.nodes, m, ns, x)
  {
    assert AgreesAt(env, c, s, ns);
    assert PodAgrees(env, RecordsOf(c, ns).pods[x], NsIn(s.namespaces, ns).pods[x]);
    assert forall m :: !Waiting(c, m, ns, x);
  }

  lemma RelabelAgrees(env: Env, c: Cluster, s: State, pod: Resources.Pod, s': State)
    requires Agrees(env, c, s) && pod.ns in s.namespaces && pod.name in s.namespaces[pod.ns].pods
    requires Stable(env, c, ApplyPod(pod))
    requires if s.namespaces[pod.ns].pods[pod.name].labels != pod.labels then PodRelabeled(s, pod, s') else s' == s
    ensures Agrees(env, Put(c, pod.ns, PodPut(c.nodes, RecordsOf(c, pod.ns), pod)), s')
  {
    var r, n, n' := RecordsOf(c, pod.ns), NsIn(s.namespaces, pod.ns), NsIn(s'.namespaces, pod.ns);
    RelabeledState(s, pod, s');
    IndexedIsNotQueued(env, c, s, pod.ns, pod.name);
    assert NsAgrees(env, r, n) && KubeletsAgree(r.pods, LookupIn(s.lookups, pod.ns)) by {
      assert AgreesAt(env, c, s, pod.ns);
    }
    RelabeledNs(env, c.nodes, r, n, pod, n'.pods[pod.name], n');
    NodesKept(s.nodes, pod.ns, pod.name, PodPut(c.nodes, r, pod).pods);
    OnePodStep(env, c, s, pod.ns, pod.name, PodPut(c.nodes, r, pod), s');
  }

  lemma NotQueued(env: Env, c: Cluster, s: State, pod: Resources.Pod)
    requires Agrees(env, c, s) && pod.name !in NsIn(s.namespaces, pod.ns).pods
    requires Stable(env, c, ApplyPod(pod))
    requires Resources.NodeName(pod).None? || Resources.NodeName(pod).value in c.nodes
    ensures forall m :: !IsPending(s.nodes, m, pod.ns, pod.name)
    ensures pod.name in RecordsOf(c, pod.ns).pods ==> RecordsOf(c, pod.ns).pods[pod.name].ips.None?
  {
    assert AgreesAt(env, c, s, pod.ns);
    forall m
      ensures !IsPending(s.nodes, m, pod.ns, pod.name)
    {
      if Waiting(c, m, pod.ns, pod.name) {
        WaitingIsNotKnown(env, c, s, m, pod.ns, pod.name);
      }
    }
  }

  lemma IndexAgrees(env: Env, c: Cluster, s: State, pod: Resources.Pod, m: string, s': State)
    requires Agrees(env, c, s) && pod.ns in s.namespaces && pod.name !in s.namespaces[pod.ns].pods
    requires Stable(env, c, ApplyPod(pod)) && Resources.NodeName(pod) == Some(m) && IsKnown(s.nodes, m)
    requires PodIndexed(env, s, pod, s.nodes[m].ips, s')
    ensures Agrees(env, Put(c, pod.ns, PodPut(c.nodes, RecordsOf(c, pod.ns), pod)), s')
  {
    var r, n, n' := RecordsOf(c, pod.ns), s.namespaces[pod.ns], s'.namespaces[pod.ns];
    var e, ips := n'.pods[pod.name], s.nodes[m].ips;
    assert m in c.nodes && c.nodes[m] == ips;
    NotQueued(env, c, s, pod);
    assert AgreesAt(env, c, s, pod.ns);
    var rec := PodRecord(pod, Some(ips));
    OnePodAgrees(env, r.pods, n.pods, pod.name, rec, e);
    var r' := r.(pods := r.pods[pod.name := rec]);
    assert r' == PodPut(c.nodes, r, pod);
    KubeletSet(r.pods, LookupIn(s.lookups, pod.ns), pod.name, rec, e, ips);
    ReplaceAgrees(env, c, s, pod.ns, r', s');
    OneQueued(c, pod.ns, pod.name, r', s.nodes, s.nodes);
  }

  lemma KubeletSet(recs: map<string, PodRecord>, l: map<string, map<u16, Rx>>, x: string, rec: PodRecord, e: PodEntry,
                   ips: seq<IpAddr>)
    requires KubeletsAgree(recs, l) && rec.ips == Some(ips)
    ensures KubeletsAgree(recs[x := rec], l[x := RxMap(e.byPort, ips)])
  {
  }

  lemma QueuedNs(env: Env, observed: map<string, seq<IpAddr>>, r: Records, n: Ns, l: map<string, map<u16, Rx>>,
                 pod: Resources.Pod)
    requires NsAgrees(env, r, n) && pod.name !in n.pods && KubeletsAgree(r.pods, l) && pod.name !in l
    requires Resources.NodeName(pod).Some? ==> Resources.NodeName(pod).value !in observed
    ensures NsAgrees(env, PodPut(observed, r, pod), n) && KubeletsAgree(PodPut(observed, r, pod).pods, l)
    ensures PodPut(observed, r, pod).pods == r.pods[pod.name := PodRecord(pod, None)]
  {
  }

  lemma PushAgrees(env: Env, c: Cluster, s: State, pod: Resources.Pod)
    requires Inv(env, s) && Agrees(env, c, s) && pod.name !in NsIn(s.namespaces, pod.ns).pods
    requires Stable(env, c, ApplyPod(pod))
    requires Resources.NodeName(pod).Some? ==> !IsKnown(s.nodes, Resources.NodeName(pod).value)
    ensures var s' := if Resources.NodeName(pod).None? then s
                      else s.(nodes := PushPending(s.nodes, Resources.NodeName(pod).value, pod));
            Agrees(env, Put(c, pod.ns, PodPut(c.nodes, RecordsOf(c, pod.ns), pod)), s')
  {
    var r, n, l := RecordsOf(c, pod.ns), NsIn(s.namespaces, pod.ns), LookupIn(s.lookups, pod.ns);
    assert NsAgrees(env, r, n) && KubeletsAgree(r.pods, l) by {
      assert AgreesAt(env, c, s, pod.ns);
    }
    assert pod.name !in l by {
      assert LookupOk(PodsIn(s.namespaces, pod.ns), l);
    }
    QueuedNs(env, c.nodes, r, n, l, pod);
    if Resources.NodeName(pod).None? {
      NotQueued(env, c, s, pod);
      NodesKept(s.nodes, pod.ns, pod.name, PodPut(c.nodes, r, pod).pods);
      OnePodStep(env, c, s, pod.ns, pod.name, PodPut(c.nodes, r, pod), s);
    } else {
      var m := Resources.NodeName(pod).value;
      PushQueue(env, c, s, pod, m);
      OnePodStep(env, c, s, pod.ns, pod.name, PodPut(c.nodes, r, pod), s.(nodes := PushPending(s.nodes, m, pod)));
    }
  }

  lemma PushQueue(env: Env, c: Cluster, s: State, pod: Resources.Pod, m: string)
    requires Agrees(env, c, s) && pod.name !in NsIn(s.namespaces, pod.ns).pods
    requires Stable(env, c, ApplyPod(pod)) && Resources.NodeName(pod) == Some(m) && !IsKnown(s.nodes, m)
    ensures var nodes' := PushPending(s.nodes, m, pod);
            && QueuesSameBut(s.nodes, nodes', pod.ns, pod.name)
            && forall recs | pod.name in recs
                && recs[pod.name] == PodRecord(pod, None) :: QueuedOnRecord(nodes', pod.ns, pod.name, recs)
  {
    var nodes' := PushPending(s.nodes, m, pod);
    forall k
      ensures IsPending(nodes', k, pod.ns, pod.name) <==> k == m
    {
      if IsPending(s.nodes, k, pod.ns, pod.name) {
        assert Waiting(c, k, pod.ns, pod.name);
      }
    }
  }

  lemma ApplyPodAgrees(env: Env, c: Cluster, s0: State, pod: Resources.Pod, s': State)
    requires Inv(env, s0) && Agrees(env, c, s0) && Stable(env, c, ApplyPod(pod)) && PodApplied(env, s0, pod, s')
    ensures Agrees(env, CStep(env, c, ApplyPod(pod)), s')
  {
    EnsureNsAgrees(env, c, s0, pod.ns);
    EnsureNsInv(env, s0, pod.ns);
    var s := EnsureNs(s0, pod.ns);
    var m := Resources.NodeName(pod);
    if pod.name in s.namespaces[pod.ns].pods {
      RelabelAgrees(env, c, s, pod, s');
    } else if m.Some? && IsKnown(s.nodes, m.value) {
      IndexAgrees(env, c, s, pod, m.value, s');
    } else {
      PushAgrees(env, c, s, pod);
    }
  }

  lemma QueuedIsNotIndexed(env: Env, c: Cluster, s: State, m: string, ns: string, x: string)
    requires Inv(env, s) && Agrees(env, c, s) && IsPending(s.nodes, m, ns, x)
    ensures x !in NsIn(s.namespaces, ns).pods && x !in LookupIn(s.lookups, ns)
    ensures forall k | IsPending(s.nodes, k, ns, x) :: k == m
  {
    assert AgreesAt(env, c, s, ns);
    assert LookupOk(PodsIn(s.namespaces, ns), LookupIn(s.lookups, ns));
    assert Waiting(c, m, ns, x);
    assert forall k | IsPending(s.nodes, k, ns, x) :: Waiting(c, k, ns, x);
  }

  lemma UnpendedQueues(nodes: map<string, NodeState>, m: string, ns: string, name: string,
                       recs: map<string, PodRecord>)
    requires IsPending(nodes, m, ns, name) && name !in recs
    requires forall k | IsPending(nodes, k, ns, name) :: k == m
    ensures QueuesSameBut(nodes, Unpend(nodes, m, ns, name), ns, name)
    ensures QueuedOnRecord(Unpend(nodes, m, ns, name), ns, name, recs)
  {
    forall k
      ensures !IsPending(Unpend(nodes, m, ns, name), k, ns, name)
    {
      if k != m {
        assert !IsPending(nodes, k, ns, name);
      }
    }
  }

  lemma UnpendAgrees(env: Env, c: Cluster, s: State, ns: string, name: string, m: string)
    requires Inv(env, s) && Agrees(env, c, s) && IsPending(s.nodes, m, ns, name)
    ensures Agrees(env, Put(c, ns, PodDropped(RecordsOf(c, ns), name)), s.(nodes := Unpend(s.nodes, m, ns, name)))
  {
    var r := RecordsOf(c, ns);
    QueuedIsNotIndexed(env, c, s, m, ns, name);
    assert NsAgrees(env, r, NsIn(s.namespaces, ns)) && KubeletsAgree(r.pods, LookupIn(s.lookups, ns)) by {
      assert AgreesAt(env, c, s, ns);
    }
    UnindexedAgrees(env, r, NsIn(s.namespaces, ns), LookupIn(s.lookups, ns), name);
    AbsentKept(NsIn(s.namespaces, ns).pods, name);
    AbsentKept(LookupIn(s.lookups, ns), name);
    UnpendedQueues(s.nodes, m, ns, name, r.pods - {name});
    OnePodStep(env, c, s, ns, name, PodDropped(r, name), s.(nodes := Unpend(s.nodes, m, ns, name)));
  }

  lemma AbsentKept<V>(m: map<string, V>, x: string)
    requires x !in m
    ensures m - {x} == m
  {
  }

  lemma UnindexedState(s: State, ns: string, name: string)
    requires LookupsOk(s.namespaces, s.lookups)
    ensures var s' := PodUnindexed(s, ns, name);
            && NsIn(s'.namespaces, ns) == NsIn(s.namespaces, ns).(pods := NsIn(s.namespaces, ns).pods - {name})
            && LookupIn(s'.lookups, ns) == LookupIn(s.lookups, ns) - {name}
            && (forall other | other != ns ::
                  NsIn(s'.namespaces, other) == NsIn(s.namespaces, other)
                      && LookupIn(s'.lookups, other) == LookupIn(s.lookups, other))
            && s'.nodes == s.nodes
  {
    assert LookupOk(PodsIn(s.namespaces, ns), LookupIn(s.lookups, ns));
    UnsetLookupEffect(s.lookups, ns, name);
    if name !in NsIn(s.namespaces, ns).pods {
      AbsentKept(NsIn(s.namespaces, ns).pods, name);
      AbsentKept(LookupIn(s.lookups, ns), name);
    }
  }

  lemma UnindexAgrees(env: Env, c: Cluster, s: State, ns: string, name: string)
    requires Inv(env, s) && Agrees(env, c, s) && forall m :: !IsPending(s.nodes, m, ns, name)
    ensures Agrees(env, Put(c, ns, PodDropped(RecordsOf(c, ns), name)), PodUnindexed(s, ns, name))
  {
    var r := RecordsOf(c, ns);
    UnindexedState(s, ns, name);
    assert NsAgrees(env, r, NsIn(s.namespaces, ns)) && KubeletsAgree(r.pods, LookupIn(s.lookups, ns)) by {
      assert AgreesAt(env, c, s, ns);
    }
    UnindexedAgrees(env, r, NsIn(s.namespaces, ns), LookupIn(s.lookups, ns), name);
    NodesKept(s.nodes, ns, name, r.pods - {name});
    OnePodStep(env, c, s, ns, name, PodDropped(r, name), PodUnindexed(s, ns, name));
  }

  lemma RmPodAgrees(env: Env, c: Cluster, s: State, ns: string, name: string, s': State)
    requires Inv(env, s) && Agrees(env, c, s) && PodRemoved(s, ns, name, s')
    ensures Agrees(env, CStep(env, c, RmPod(ns, name)), s')
  {
    if exists m :: IsPending(s.nodes, m, ns, name) {
      var m :| IsPending(s.nodes, m, ns, name) && s' == s.(nodes := Unpend(s.nodes, m, ns, name));
      UnpendAgrees(env, c, s, ns, name, m);
    } else {
      UnindexAgrees(env, c, s, ns, name);
    }
  }

  lemma UnindexedAgrees(env: Env, r: Records, n: Ns, l: map<string, map<u16, Rx>>, name: string)
    requires NsAgrees(env, r, n) && KubeletsAgree(r.pods, l)
    ensures NsAgrees(env, r.(pods := r.pods - {name}), n.(pods := n.pods - {name}))
    ensures KubeletsAgree(r.pods - {name}, l - {name})
  {
  }

  // --- Nodes ---------------------------------------------------------------------------------

  lemma ClearPendingAgrees(env: Env, c: Cluster, s: State)
    requires Agrees(env, c, s)
    ensures Agrees(env, CStep(env, c, ClearPending), s.(nodes := KnownNodes(s.nodes)))
  {
    var c', s' := CStep(env, c, ClearPending), s.(nodes := KnownNodes(s.nodes));
    forall ns
      ensures AgreesAt(env, c', s', ns)
    {
      assert AgreesAt(env, c, s, ns);
      assert RecordsOf(c', ns) == OnlyPlaced(RecordsOf(c, ns));
    }
    assert forall m, ns, x :: !Waiting(c', m, ns, x);
    assert forall m :: IsKnown(s'.nodes, m) <==> IsKnown(s.nodes, m);
  }

  lemma RemoveNodeAgrees(env: Env, c: Cluster, s: State, m: string)
    requires Agrees(env, c, s) && Stable(env, c, RemoveNode(m))
    ensures Agrees(env, CStep(env, c, RemoveNode(m)), s.(nodes := s.nodes - {m}))
  {
    var c', s' := CStep(env, c, RemoveNode(m)), s.(nodes := s.nodes - {m});
    forall ns
      ensures AgreesAt(env, c', s', ns)
    {
      assert AgreesAt(env, c, s, ns);
    }
    forall k, ns, x
      ensures Waiting(c', k, ns, x) <==> Waiting(c, k, ns, x)
      ensures IsPending(s'.nodes, k, ns, x) <==> IsPending(s.nodes, k, ns, x)
    {
      assert RecordsOf(c', ns) == RecordsOf(c, ns);
      assert !Waiting(c, m, ns, x);
    }
    forall k
      ensures IsKnown(s'.nodes, k) <==> IsKnown(s.nodes, k) && k != m
    {
    }
  }
}
