/** The two comparisons of `Variant` differ in nothing but protocols: whatever run the index makes by the
    one, it can make by the other, operation by operation, with the same pods, bindings, lookups,
    queues and authorizations in every state. */
module Twins {
  import opened Base
  import opened Labels
  import opened Net
  import opened Policy
  import opened Ports
  import Resources
  import opened Watch
  import opened IndexState
  import opened Invariant
  import opened Variant

  // --- States that differ in protocols only ------------------------------------------------

  ghost predicate ServersTwin(a: map<string, ServerEntry>, b: map<string, ServerEntry>) {
    && b.Keys == a.Keys
    && forall x | x in a :: b[x] == a[x].(meta := a[x].meta.(protocol := b[x].meta.protocol))
  }

  ghost predicate NsTwin(n: Ns, m: Ns) {
    m.pods == n.pods && m.authzs == n.authzs && ServersTwin(n.servers, m.servers)
  }

  ghost predicate NamespacesTwin(a: map<string, Ns>, b: map<string, Ns>) {
    b.Keys == a.Keys && forall ns | ns in a :: NsTwin(a[ns], b[ns])
  }

  ghost predicate InnerTwin(a: Inner, b: Inner) {
    b.Keys == a.Keys && forall c | c in a :: b[c].authorizations == a[c].authorizations
  }

  ghost predicate Twin(s: State, t: State) {
    && NamespacesTwin(s.namespaces, t.namespaces)
    && t.nodes == s.nodes && t.lookups == s.lookups
    && t.store.outer == s.store.outer && t.store.next == s.store.next
    && InnerTwin(s.store.inner, t.store.inner)
  }

  /** A port is served the same authorizations by both, or by neither. */
  lemma TwinsServe(s: State, t: State, ns: string, x: string, p: u16)
    requires Twin(s, t)
    ensures Served(t, ns, x, p).Some? <==> Served(s, ns, x, p).Some?
    ensures Served(s, ns, x, p).Some? ==>
              Served(t, ns, x, p).value.authorizations == Served(s, ns, x, p).value.authorizations
  {
  }

  // --- Linking does not look at protocols -----------------------------------------------------

  lemma ClaimsTwin(a: map<string, ServerEntry>, b: map<string, ServerEntry>, labels: Labels, byName: NameIndex, p: u16)
    requires ServersTwin(a, b)
    ensures Claims(b, labels, byName, p) == Claims(a, labels, byName, p)
  {
  }

  lemma PodLinkedTwin(a: map<string, ServerEntry>, b: map<string, ServerEntry>, e: PodEntry, e': PodEntry, outer: Outer,
                      outer': Outer)
    requires ServersTwin(a, b) && PodLinked(a, e, e', outer, outer')
    ensures PodLinked(b, e, e', outer, outer')
  {
    forall p | p in e.byPort
      ensures PortLinked(b, Claims(b, e.labels, e.byName, p), e.defaultRx, e.byPort[p], e'.byPort[p],
                         outer[e.byPort[p].tx], outer'[e.byPort[p].tx])
    {
      ClaimsTwin(a, b, e.labels, e.byName, p);
    }
  }

  lemma FreshPodTwin(env: Env, pod: Resources.Pod, a: map<string, ServerEntry>, b: map<string, ServerEntry>, e: PodEntry,
                     store: Store, store': Store, inner: Inner)
    requires ServersTwin(a, b) && FreshPod(env, pod, a, e, store, store')
    ensures FreshPod(env, pod, b, e, store.(inner := inner), store'.(inner := inner))
  {
    forall p | p in e.byPort
      ensures FreshPort(pod.ns, pod.name, p, b, e, store.(inner := inner), store'.(inner := inner))
    {
      assert FreshPort(pod.ns, pod.name, p, a, e, store, store');
      ClaimsTwin(a, b, e.labels, e.byName, p);
    }
  }

  lemma EnsureNsTwin(s: State, t: State, ns: string)
    requires Twin(s, t)
    ensures Twin(EnsureNs(s, ns), EnsureNs(t, ns))
  {
  }

  // --- Operations that are functions of the state ------------------------------------------------

  lemma ReplaceTwin(a: map<string, Ns>, b: map<string, Ns>, ns: string, n: Ns, m: Ns)
    requires NamespacesTwin(a, b) && NsTwin(n, m)
    ensures NamespacesTwin(a[ns := n], b[ns := m])
  {
  }

  lemma RepublishTwin(a: Inner, b: Inner, ns: string, servers: map<string, ServerEntry>,
                      servers': map<string, ServerEntry>)
    requires InnerTwin(a, b) && ServersTwin(servers, servers')
    ensures InnerTwin(Republish(a, ns, servers), Republish(b, ns, servers'))
  {
  }

  lemma ApplyAuthzTwin(env: Env, s: State, t: State, a: Resources.ServerAuthorization)
    requires Twin(s, t)
    ensures Twin(AuthzApplied(env, s, a), AuthzApplied(env, t, a))
  {
    EnsureNsTwin(s, t, a.ns);
    var s1, t1 := EnsureNs(s, a.ns), EnsureNs(t, a.ns);
    var n, m, z := s1.namespaces[a.ns], t1.namespaces[a.ns], Resources.MkAuthz(a, env.identityDomain);
    assert NsTwin(n, m);
    if z.Ok? && !(a.name in n.authzs && n.authzs[a.name] == z.value) {
      var n', m' := WithAuthz(n.servers, a.name, z.value), WithAuthz(m.servers, a.name, z.value);
      assert ServersTwin(n', m');
      RepublishTwin(s1.store.inner, t1.store.inner, a.ns, n', m');
      ReplaceTwin(s1.namespaces, t1.namespaces, a.ns, Ns(n.pods, n', n.authzs[a.name := z.value]),
                  Ns(m.pods, m', m.authzs[a.name := z.value]));
    }
  }

  lemma DeleteAuthzTwin(s: State, t: State, ns: string, name: string)
    requires Twin(s, t)
    ensures Twin(AuthzDeleted(s, ns, name), AuthzDeleted(t, ns, name))
  {
    if ns in s.namespaces {
      var n, m := s.namespaces[ns], t.namespaces[ns];
      assert NsTwin(n, m);
      var n', m' := WithoutAuthz(n.servers, name), WithoutAuthz(m.servers, name);
      assert ServersTwin(n', m');
      RepublishTwin(s.store.inner, t.store.inner, ns, n', m');
      ReplaceTwin(s.namespaces, t.namespaces, ns, Ns(n.pods, n', n.authzs - {name}), Ns(m.pods, m', m.authzs - {name}));
    }
  }

  lemma RmServerTwin(s: State, t: State, ns: string, name: string)
    requires Twin(s, t)
    ensures Twin(ServerRemoved(s, ns, name), ServerRemoved(t, ns, name))
  {
    if ns in s.namespaces {
      var n, m := s.namespaces[ns], t.namespaces[ns];
      assert NsTwin(n, m);
      ReplaceTwin(s.namespaces, t.namespaces, ns, n.(servers := n.servers - {name}, pods := ResetPods(n.pods, name)),
                  m.(servers := m.servers - {name}, pods := ResetPods(m.pods, name)));
    }
  }

  lemma UnindexTwin(s: State, t: State, ns: string, x: string)
    requires Twin(s, t)
    ensures Twin(PodUnindexed(s, ns, x), PodUnindexed(t, ns, x))
  {
    if ns in s.namespaces && x in s.namespaces[ns].pods {
      var n, m := s.namespaces[ns], t.namespaces[ns];
      assert NsTwin(n, m);
      ReplaceTwin(s.namespaces, t.namespaces, ns, n.(pods := n.pods - {x}), m.(pods := m.pods - {x}));
    }
  }

  lemma RmPodTwin(s: State, t: State, ns: string, x: string, s': State) returns (t': State)
    requires Twin(s, t) && PodRemoved(s, ns, x, s')
    ensures PodRemoved(t, ns, x, t') && Twin(s', t')
  {
    if exists m :: IsPending(s.nodes, m, ns, x) {
      t' := t.(nodes := s'.nodes);
    } else {
      UnindexTwin(s, t, ns, x);
      t' := PodUnindexed(t, ns, x);
    }
  }

  // --- Servers ------------------------------------------------------------------------------------

  lemma ServersAfterTwin(cmp: Comparison, cmp': Comparison, n: Ns, m: Ns, srv: Resources.Server, next: nat)
    requires NsTwin(n, m)
    ensures ServersTwin(ServersAfterBy(cmp, n, srv, next), ServersAfterBy(cmp', m, srv, next))
  {
  }

  lemma InnerAfterTwin(cmp: Comparison, cmp': Comparison, n: Ns, m: Ns, srv: Resources.Server, store: Store,
                       store': Store)
    requires NsTwin(n, m) && InnerTwin(store.inner, store'.inner) && store'.next == store.next
    ensures InnerTwin(InnerAfterBy(cmp, n, srv, store), InnerAfterBy(cmp', m, srv, store'))
  {
    ServersAfterTwin(cmp, cmp', n, m, srv, store.next);
    if srv.name in n.servers {
      RepublishTwin(store.inner, store'.inner, srv.ns, ServersAfterBy(cmp, n, srv, store.next),
                    ServersAfterBy(cmp', m, srv, store.next));
    }
  }

  lemma AllLinkedTwin(ns: string, a: map<string, ServerEntry>, b: map<string, ServerEntry>, pods: map<string, PodEntry>,
                      pods': map<string, PodEntry>, outer: Outer, outer': Outer)
    requires ServersTwin(a, b) && AllLinked(ns, a, pods, pods', outer, outer')
    ensures AllLinked(ns, b, pods, pods', outer, outer')
  {
    forall x | x in pods
      ensures PodLinked(b, pods[x], pods'[x], outer, outer')
    {
      PodLinkedTwin(a, b, pods[x], pods'[x], outer, outer');
    }
  }

  lemma ApplyServerTwin(cmp: Comparison, cmp': Comparison, s: State, t: State, srv: Resources.Server, s': State)
    returns (t': State)
    requires Twin(s, t) && ServerAppliedBy(cmp, s, srv, s')
    ensures ServerAppliedBy(cmp', t, srv, t') && Twin(s', t')
  {
    EnsureNsTwin(s, t, srv.ns);
    var s1, t1 := EnsureNs(s, srv.ns), EnsureNs(t, srv.ns);
    var n, m, n' := s1.namespaces[srv.ns], t1.namespaces[srv.ns], s'.namespaces[srv.ns];
    assert NsTwin(n, m);
    var m' := Ns(n'.pods, ServersAfterBy(cmp', m, srv, t1.store.next), m.authzs);
    ServersAfterTwin(cmp, cmp', n, m, srv, s1.store.next);
    InnerAfterTwin(cmp, cmp', n, m, srv, s1.store, t1.store);
    AllLinkedTwin(srv.ns, n'.servers, m'.servers, n.pods, n'.pods, s1.store.outer, s'.store.outer);
    ReplaceTwin(s1.namespaces, t1.namespaces, srv.ns, n', m');
    t' := t1.(namespaces := t1.namespaces[srv.ns := m'],
              store := Store(InnerAfterBy(cmp', m, srv, t1.store), s'.store.outer, NextAfter(m, srv, t1.store)));
  }

  // --- Pods and nodes -----------------------------------------------------------------------------

  /** The state `s'` with the servers and the inner channels of `t`. */
  function Retold(t: State, s': State): State {
    State(map ns | ns in s'.namespaces :: s'.namespaces[ns].(servers := NsIn(t.namespaces, ns).servers),
          s'.nodes, s'.lookups, Store(t.store.inner, s'.store.outer, s'.store.next))
  }

  lemma RetoldReplace(s: State, t: State, ns: string, n': Ns)
    requires NamespacesTwin(s.namespaces, t.namespaces) && ns in s.namespaces
    requires n' == s.namespaces[ns].(pods := n'.pods)
    ensures var s' := s.(namespaces := s.namespaces[ns := n']);
            Retold(t, s').namespaces == t.namespaces[ns := t.namespaces[ns].(pods := n'.pods)]
  {
    forall other | other in s.namespaces
      ensures NsTwin(s.namespaces[other], t.namespaces[other])
    {
    }
  }

  lemma RelabelTwin(s: State, t: State, pod: Resources.Pod, s': State)
    requires Twin(s, t) && pod.ns in s.namespaces && PodRelabeled(s, pod, s')
    ensures PodRelabeled(t, pod, Retold(t, s')) && Twin(s', Retold(t, s'))
  {
    var n, m, n' := s.namespaces[pod.ns], t.namespaces[pod.ns], s'.namespaces[pod.ns];
    assert NsTwin(n, m);
    RetoldReplace(s, t, pod.ns, n');
    PodLinkedTwin(n.servers, m.servers, n.pods[pod.name].(labels := pod.labels), n'.pods[pod.name],
                  s.store.outer, s'.store.outer);
    ReplaceTwin(s.namespaces, t.namespaces, pod.ns, n', m.(pods := n'.pods));
  }

  lemma IndexTwin(env: Env, s: State, t: State, pod: Resources.Pod, ips: seq<IpAddr>, s': State)
    requires Twin(s, t) && pod.ns in s.namespaces && PodIndexed(env, s, pod, ips, s')
    ensures PodIndexed(env, t, pod, ips, Retold(t, s')) && Twin(s', Retold(t, s'))
  {
    var n, m, n' := s.namespaces[pod.ns], t.namespaces[pod.ns], s'.namespaces[pod.ns];
    assert NsTwin(n, m);
    RetoldReplace(s, t, pod.ns, n');
    FreshPodTwin(env, pod, n.servers, m.servers, n'.pods[pod.name], s.store, s'.store, t.store.inner);
    ReplaceTwin(s.namespaces, t.namespaces, pod.ns, n', m.(pods := n'.pods));
  }

  lemma ApplyPodTwin(env: Env, s: State, t: State, pod: Resources.Pod, s': State) returns (t': State)
    requires Twin(s, t) && PodApplied(env, s, pod, s')
    ensures PodApplied(env, t, pod, t') && Twin(s', t')
  {
    EnsureNsTwin(s, t, pod.ns);
    var s1, t1 := EnsureNs(s, pod.ns), EnsureNs(t, pod.ns);
    var n, m := s1.namespaces[pod.ns], Resources.NodeName(pod);
    assert NsTwin(n, t1.namespaces[pod.ns]);
    if pod.name in n.pods && n.pods[pod.name].labels != pod.labels {
      RelabelTwin(s1, t1, pod, s');
      t' := Retold(t1, s');
    } else if pod.name !in n.pods && m.Some? && IsKnown(s1.nodes, m.value) {
      IndexTwin(env, s1, t1, pod, s1.nodes[m.value].ips, s');
      t' := Retold(t1, s');
    } else {
      t' := t1.(nodes := s'.nodes);
    }
  }

  lemma {:induction false} ApplyPodsTwin(env: Env, s: State, t: State, pods: seq<Resources.Pod>, s': State)
    returns (t': State)
    requires Twin(s, t) && PodsApplied(env, s, pods, s')
    ensures PodsApplied(env, t, pods, t') && Twin(s', t')
  {
    if pods == [] {
      t' := t;
    } else {
      var before, last := pods[..|pods| - 1], pods[|pods| - 1];
      assert PodsAppliedThen(env, s, before, last, s');
      var mid :| PodsApplied(env, s, before, mid) && PodApplied(env, mid, last, s');
      var t1 := ApplyPodsTwin(env, s, t, before, mid);
      t' := ApplyPodTwin(env, mid, t1, last, s');
      assert PodsAppliedThen(env, t, before, last, t');
    }
  }

  lemma ApplyNodeTwin(env: Env, s: State, t: State, node: Resources.Node, s': State) returns (t': State)
    requires Twin(s, t) && NodeApplied(env, s, node, s')
    ensures NodeApplied(env, t, node, t') && Twin(s', t')
  {
    if IsKnown(s.nodes, node.name) || Resources.KubeletIps(node).Err? {
      t' := t;
    } else {
      var nodes := s.nodes[node.name := Known(Resources.KubeletIps(node).value)];
      var pods, order :| Drains(s.nodes, node.name, pods, order) && PodsApplied(env, s.(nodes := nodes), pods, s');
      t' := ApplyPodsTwin(env, s.(nodes := nodes), t.(nodes := nodes), pods, s');
    }
  }

  // --- Every operation, every run -------------------------------------------------------------------

  lemma OpTwin(cmp: Comparison, cmp': Comparison, env: Env, s: State, t: State, op: Op, s': State) returns (t': State)
    requires Twin(s, t) && OpStepBy(cmp, env, s, op, s')
    ensures OpStepBy(cmp', env, t, op, t') && Twin(s', t')
  {
    match op {
      case ApplyAuthz(a) =>
        ApplyAuthzTwin(env, s, t, a);
        t' := AuthzApplied(env, t, a);
      case DeleteAuthz(ns, name) =>
        DeleteAuthzTwin(s, t, ns, name);
        t' := AuthzDeleted(t, ns, name);
      case ApplyServer(srv) => t' := ApplyServerTwin(cmp, cmp', s, t, srv, s');
      case RmServer(ns, name) =>
        RmServerTwin(s, t, ns, name);
        t' := ServerRemoved(t, ns, name);
      case ApplyPod(pod) => t' := ApplyPodTwin(env, s, t, pod, s');
      case RmPod(ns, x) => t' := RmPodTwin(s, t, ns, x, s');
      case ClearPending => t' := t.(nodes := s'.nodes);
      case ApplyNode(node) => t' := ApplyNodeTwin(env, s, t, node, s');
      case RemoveNode(m) => t' := t.(nodes := s'.nodes);
    }
  }

  lemma TracedBySnoc(cmp: Comparison, env: Env, trace: seq<State>, ops: seq<Op>, op: Op, s': State)
    requires TracedBy(cmp, env, trace, ops) && OpStepBy(cmp, env, trace[|ops|], op, s')
    ensures TracedBy(cmp, env, trace + [s'], ops + [op])
  {
    var t, all := trace + [s'], ops + [op];
    forall i | 0 <= i < |all|
      ensures OpStepBy(cmp, env, t[i], all[i], t[i + 1])
    {
      assert i < |ops| ==> OpStepBy(cmp, env, trace[i], ops[i], trace[i + 1]);
    }
  }

  /** For every run by one comparison there is a run over the same operations by the other whose states
      differ from it in protocols only. */
  lemma {:induction false} RunTwin(cmp: Comparison, cmp': Comparison, env: Env, trace: seq<State>, ops: seq<Op>)
    returns (twin: seq<State>)
    requires TracedBy(cmp, env, trace, ops)
    ensures TracedBy(cmp', env, twin, ops) && forall i | 0 <= i < |trace| :: Twin(trace[i], twin[i])
  {
    if ops == [] {
      twin := trace;
    } else {
      var k := |ops| - 1;
      var before := RunTwin(cmp, cmp', env, trace[..k + 1], ops[..k]);
      assert Twin(trace[..k + 1][k], before[k]);
      var last := OpTwin(cmp, cmp', env, trace[k], before[k], ops[k], trace[k + 1]);
      twin := before + [last];
      TracedBySnoc(cmp', env, before, ops[..k], ops[k], last);
      assert ops[..k] + [ops[k]] == ops;
      forall i | 0 <= i < |trace|
        ensures Twin(trace[i], twin[i])
      {
        assert i < k + 1 ==> Twin(trace[..k + 1][i], before[i]);
      }
    }
  }
}
