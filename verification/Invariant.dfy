/** What holds in every reachable state of the index, whatever the events, their order, and the
    order in which hash maps are walked; conflicting servers included. */
module Invariant {
  import opened Base
  import opened Labels
  import opened Net
  import opened Policy
  import opened Ports
  import Resources
  import opened Watch
  import opened IndexState

  // --- The invariant ------------------------------------------------------------------

  /** A server's materialised authorizations are exactly those that select it, and its own channel
      publishes them with its protocol. */
  ghost predicate ServerOk(ns: string, name: string, srv: ServerEntry, authzs: map<string, Authz>, inner: Inner) {
    && srv.chan.ServerChan? && srv.chan.ns == ns && srv.chan.name == name
    && srv.chan in inner && inner[srv.chan] == Published(srv)
    && srv.authorizations == AuthView(authzs, name, srv.meta.labels)
  }

  /** A port that names a server follows that server's own channel, in the same namespace; a port
      that names none follows the pod's default policy. */
  ghost predicate PortOk(ns: string, name: string, p: u16, port: PortEntry, defaultRx: ChanId,
                         servers: map<string, ServerEntry>, outer: Outer)
  {
    && port.tx.ns == ns && port.tx.pod == name && port.tx.port == p
    && port.tx in outer
    && (port.serverName.Some? ==>
          port.serverName.value in servers && outer[port.tx] == servers[port.serverName.value].chan)
    && (port.serverName.None? ==> outer[port.tx] == defaultRx)
  }

  ghost predicate PodOk(ns: string, name: string, pod: PodEntry, servers: map<string, ServerEntry>, outer: Outer) {
    && pod.defaultRx.DefaultChan?
    && (forall p | p in pod.byPort :: PortOk(ns, name, p, pod.byPort[p], pod.defaultRx, servers, outer))
    && (forall x, p | x in pod.byName && p in pod.byName[x] :: p in pod.byPort)
  }

  ghost predicate NsOk(ns: string, n: Ns, store: Store) {
    && (forall x | x in n.servers :: ServerOk(ns, x, n.servers[x], n.authzs, store.inner))
    && (forall x | x in n.pods :: PodOk(ns, x, n.pods[x], n.servers, store.outer))
  }

  function PodsIn(namespaces: map<string, Ns>, ns: string): map<string, PodEntry> {
    if ns in namespaces then namespaces[ns].pods else map[]
  }

  function LookupIn(lookups: Lookups, ns: string): map<string, map<u16, Rx>> {
    if ns in lookups then lookups[ns] else map[]
  }

  /** A pod's entry in the lookup map: the receivers of its own ports, and a kubelet to admit. */
  ghost predicate EntryOk(pod: PodEntry, ports: map<u16, Rx>) {
    && ports.Keys == pod.byPort.Keys
    && forall p | p in ports :: ports[p].rx == pod.byPort[p].tx && ports[p].kubelet != []
  }

  ghost predicate LookupOk(pods: map<string, PodEntry>, l: map<string, map<u16, Rx>>) {
    && l.Keys == pods.Keys
    && forall x | x in l :: EntryOk(pods[x], l[x])
  }

  /** The pod indexes and the lookup map hold the same pods; no namespace of lookups is empty. */
  ghost predicate LookupsOk(namespaces: map<string, Ns>, lookups: Lookups) {
    && (forall ns :: LookupOk(PodsIn(namespaces, ns), LookupIn(lookups, ns)))
    && (forall ns | ns in lookups :: lookups[ns] != map[])
  }

  ghost predicate NamespacesOk(namespaces: map<string, Ns>, store: Store) {
    forall ns | ns in namespaces :: NsOk(ns, namespaces[ns], store)
  }

  ghost predicate StoreOk(env: Env, store: Store) {
    && (forall c | c in store.inner && c.ServerChan? :: c.serial < store.next)
    && (forall o | o in store.outer :: o.serial < store.next)
    && (forall mode :: DefaultChan(mode) in store.inner && store.inner[DefaultChan(mode)] == DefaultConfig(env, mode))
  }

  ghost predicate NodesOk(nodes: map<string, NodeState>) {
    && (forall m | m in nodes && nodes[m].Known? :: nodes[m].ips != [])
    && (forall m, ns, name | IsPending(nodes, m, ns, name) ::
          var pod := nodes[m].pods[ns][name];
          pod.ns == ns && pod.name == name && Resources.NodeName(pod) == Some(m))
  }

  ghost predicate Inv(env: Env, s: State) {
    && NamespacesOk(s.namespaces, s.store)
    && LookupsOk(s.namespaces, s.lookups)
    && StoreOk(env, s.store)
    && NodesOk(s.nodes)
  }

  lemma InitInv(env: Env)
    ensures Inv(env, Init(env))
  {
    forall mode
      ensures DefaultChan(mode) in InitialStore(env).inner
      ensures InitialStore(env).inner[DefaultChan(mode)] == DefaultConfig(env, mode)
    {
      match mode {
        case AllAuthenticated =>
        case AllUnauthenticated =>
        case ClusterAuthenticated =>
        case ClusterUnauthenticated =>
        case Deny =>
      }
    }
  }

  // --- Framing ----------------------------------------------------------------------------

  /** A pod stays in order while its channels keep their values and its servers their channels. */
  lemma PodFrame(ns: string, name: string, pod: PodEntry, servers: map<string, ServerEntry>, outer: Outer,
                 servers': map<string, ServerEntry>, outer': Outer)
    requires PodOk(ns, name, pod, servers, outer)
    requires forall p | p in pod.byPort :: pod.byPort[p].tx in outer'
               && outer'[pod.byPort[p].tx] == outer[pod.byPort[p].tx]
    requires forall x | x in servers :: x in servers' && servers'[x].chan == servers[x].chan
    ensures PodOk(ns, name, pod, servers', outer')
  {
  }

  /** Servers stay in order while their channels keep their values. */
  lemma ServersFrame(ns: string, n: Ns, store: Store, inner': Inner)
    requires NsOk(ns, n, store)
    requires forall c | c in store.inner && c.ServerChan? && c.ns == ns :: c in inner' && inner'[c] == store.inner[c]
    ensures forall x | x in n.servers :: ServerOk(ns, x, n.servers[x], n.authzs, inner')
  {
  }

  /** The channels of every namespace but `ns` are as they were. */
  ghost predicate OthersKept(ns: string, store: Store, store': Store) {
    && (forall c | c in store.inner && c.ServerChan? && c.ns != ns ::
          c in store'.inner && store'.inner[c] == store.inner[c])
    && (forall o | o in store.outer && o.ns != ns :: o in store'.outer && store'.outer[o] == store.outer[o])
  }

  /** Pods with the same ports sending on the same channels. */
  ghost predicate SameShape(pods: map<string, PodEntry>, pods': map<string, PodEntry>) {
    && pods'.Keys == pods.Keys
    && forall x | x in pods ::
         && pods'[x].byPort.Keys == pods[x].byPort.Keys
         && forall p | p in pods[x].byPort :: pods'[x].byPort[p].tx == pods[x].byPort[p].tx
  }

  /** Replacing one namespace without adding or removing pods keeps the invariant when the new
      namespace is in order. */
  lemma ReplaceNs(env: Env, s: State, ns: string, n': Ns, store': Store)
    requires Inv(env, s)
    requires NsOk(ns, n', store') && SameShape(PodsIn(s.namespaces, ns), n'.pods)
    requires OthersKept(ns, s.store, store') && StoreOk(env, store')
    ensures Inv(env, s.(namespaces := s.namespaces[ns := n'], store := store'))
  {
  }

  lemma ReplaceWithLookups(env: Env, s: State, ns: string, n': Ns, lookups': Lookups, store': Store)
    requires Inv(env, s)
    requires NsOk(ns, n', store') && OthersKept(ns, s.store, store') && StoreOk(env, store')
    requires LookupOk(n'.pods, LookupIn(lookups', ns))
    requires forall other | other != ns :: LookupIn(lookups', other) == LookupIn(s.lookups, other)
    requires forall other | other in lookups' :: lookups'[other] != map[]
    ensures Inv(env, s.(namespaces := s.namespaces[ns := n'], lookups := lookups', store := store'))
  {
  }

  lemma SetLookupEffect(l: Lookups, ns: string, name: string, ports: map<u16, Rx>)
    requires forall other | other in l :: l[other] != map[]
    ensures LookupIn(SetLookup(l, ns, name, ports), ns) == LookupIn(l, ns)[name := ports]
    ensures forall other | other != ns :: LookupIn(SetLookup(l, ns, name, ports), other) == LookupIn(l, other)
    ensures forall other | other in SetLookup(l, ns, name, ports) :: SetLookup(l, ns, name, ports)[other] != map[]
  {
    assert name in SetLookup(l, ns, name, ports)[ns];
  }

  lemma UnsetLookupEffect(l: Lookups, ns: string, name: string)
    requires forall other | other in l :: l[other] != map[]
    ensures LookupIn(UnsetLookup(l, ns, name), ns) == LookupIn(l, ns) - {name}
    ensures forall other | other != ns :: LookupIn(UnsetLookup(l, ns, name), other) == LookupIn(l, other)
    ensures forall other | other in UnsetLookup(l, ns, name) :: UnsetLookup(l, ns, name)[other] != map[]
  {
  }

  lemma EnsureNsInv(env: Env, s: State, ns: string)
    requires Inv(env, s)
    ensures Inv(env, EnsureNs(s, ns))
    ensures NsIn(EnsureNs(s, ns).namespaces, ns) == NsIn(s.namespaces, ns)
  {
  }

  // --- Authorizations --------------------------------------------------------------------------

  lemma RepublishKeeps(ns: string, n: Ns, servers: map<string, ServerEntry>, authzs: map<string, Authz>, store: Store)
    requires NsOk(ns, n, store)
    requires servers.Keys == n.servers.Keys
    requires forall x | x in servers :: servers[x].chan == n.servers[x].chan
    requires forall x | x in servers :: servers[x].authorizations == AuthView(authzs, x, servers[x].meta.labels)
    ensures NsOk(ns, Ns(n.pods, servers, authzs), store.(inner := Republish(store.inner, ns, servers)))
    ensures OthersKept(ns, store, store.(inner := Republish(store.inner, ns, servers)))
  {
  }

  lemma PodsFrame(ns: string, n: Ns, servers': map<string, ServerEntry>, outer: Outer, outer': Outer)
    requires forall x | x in n.pods :: PodOk(ns, x, n.pods[x], n.servers, outer)
    requires forall x | x in n.servers :: x in servers' && servers'[x].chan == n.servers[x].chan
    requires forall o | o in outer && o.ns == ns :: o in outer' && outer'[o] == outer[o]
    ensures forall x | x in n.pods :: PodOk(ns, x, n.pods[x], servers', outer')
  {
  }

  /** Patching one authorization into a materialised view is recomputing the view. */
  lemma PatchedIsView(authzs: map<string, Authz>, a: string, z: Authz, name: string, labels: Labels)
    ensures Patched(AuthView(authzs, name, labels), a, SelectsServer(z.servers, name, labels), z.clients)
         == AuthView(authzs[a := z], name, labels)
    ensures AuthView(authzs, name, labels) - {a} == AuthView(authzs - {a}, name, labels)
  {
  }

  lemma ApplyAuthzInv(env: Env, s0: State, a: Resources.ServerAuthorization)
    requires Inv(env, s0)
    ensures Inv(env, AuthzApplied(env, s0, a))
  {
    EnsureNsInv(env, s0, a.ns);
    var s := EnsureNs(s0, a.ns);
    var n := s.namespaces[a.ns];
    var r := Resources.MkAuthz(a, env.identityDomain);
    if r.Ok? && !(a.name in n.authzs && n.authzs[a.name] == r.value) {
      var servers := WithAuthz(n.servers, a.name, r.value);
      var authzs := n.authzs[a.name := r.value];
      forall x | x in servers
        ensures servers[x].authorizations == AuthView(authzs, x, servers[x].meta.labels)
      {
        assert ServerOk(a.ns, x, n.servers[x], n.authzs, s.store.inner);
        PatchedIsView(n.authzs, a.name, r.value, x, servers[x].meta.labels);
      }
      RepublishKeeps(a.ns, n, servers, authzs, s.store);
      ReplaceNs(env, s, a.ns, Ns(n.pods, servers, authzs), s.store.(inner := Republish(s.store.inner, a.ns, servers)));
    }
  }

  lemma DeleteAuthzInv(env: Env, s: State, ns: string, name: string)
    requires Inv(env, s)
    ensures Inv(env, AuthzDeleted(s, ns, name))
  {
    if ns in s.namespaces {
      var n := s.namespaces[ns];
      var servers := WithoutAuthz(n.servers, name);
      var authzs := n.authzs - {name};
      forall x | x in servers
        ensures servers[x].authorizations == AuthView(authzs, x, servers[x].meta.labels)
      {
        assert ServerOk(ns, x, n.servers[x], n.authzs, s.store.inner);
        PatchedIsView(n.authzs, name, Resources.Authz(Resources.ByName(""), ClientAuthorization([], Unauthenticated)), x,
                      servers[x].meta.labels);
      }
      RepublishKeeps(ns, n, servers, authzs, s.store);
      ReplaceNs(env, s, ns, Ns(n.pods, servers, authzs), s.store.(inner := Republish(s.store.inner, ns, servers)));
    }
  }

  // --- Servers -----------------------------------------------------------------------------------

  /** `SrvIndex::apply` keeps the servers in order; the pods keep their channels. */
  lemma ServersAfterOk(env: Env, ns: string, n: Ns, srv: Resources.Server, store: Store)
    requires NsOk(ns, n, store) && StoreOk(env, store) && srv.ns == ns
    ensures var servers := ServersAfter(n, srv, store.next);
            var store' := Store(InnerAfter(n, srv, store), store.outer, NextAfter(n, srv, store));
            NsOk(ns, Ns(n.pods, servers, n.authzs), store') && StoreOk(env, store') && OthersKept(ns, store, store')
  {
    var servers := ServersAfter(n, srv, store.next);
    if srv.name in n.servers {
      forall x | x in servers
        ensures servers[x].authorizations == AuthView(n.authzs, x, servers[x].meta.labels)
      {
        assert ServerOk(ns, x, n.servers[x], n.authzs, store.inner);
      }
      RepublishKeeps(ns, n, servers, n.authzs, store);
    } else {
      var inner := InnerAfter(n, srv, store);
      forall x | x in servers
        ensures ServerOk(ns, x, servers[x], n.authzs, inner)
      {
        if x != srv.name {
          assert ServerOk(ns, x, n.servers[x], n.authzs, store.inner);
        }
      }
      PodsFrame(ns, n, servers, store.outer, store.outer);
    }
  }

  lemma PodLinkedOk(ns: string, name: string, servers: map<string, ServerEntry>, e: PodEntry, e': PodEntry,
                    outer: Outer, outer': Outer)
    requires PodOk(ns, name, e, servers, outer) && PodLinked(servers, e, e', outer, outer')
    ensures PodOk(ns, name, e', servers, outer')
  {
  }

  lemma AllLinkedOk(ns: string, n: Ns, pods': map<string, PodEntry>, store: Store, store': Store)
    requires NsOk(ns, n, store) && AllLinked(ns, n.servers, n.pods, pods', store.outer, store'.outer)
    requires store'.inner == store.inner
    ensures NsOk(ns, n.(pods := pods'), store')
    ensures SameShape(n.pods, pods')
  {
    forall x | x in pods'
      ensures PodOk(ns, x, pods'[x], n.servers, store'.outer)
    {
      PodLinkedOk(ns, x, n.servers, n.pods[x], pods'[x], store.outer, store'.outer);
    }
    ServersFrame(ns, n, store, store'.inner);
  }

  lemma OwnedAreTagged(ns: string, pods: map<string, PodEntry>, outer: Outer, outer': Outer)
    requires outer'.Keys == outer.Keys
    requires forall o | o in outer && !OneOwns(ns, pods, o) :: outer'[o] == outer[o]
    ensures forall o | o in outer && o.ns != ns :: outer'[o] == outer[o]
  {
  }

  lemma ApplyServerInv(env: Env, s0: State, srv: Resources.Server, s': State)
    requires Inv(env, s0) && ServerApplied(s0, srv, s')
    ensures Inv(env, s')
  {
    EnsureNsInv(env, s0, srv.ns);
    var s := EnsureNs(s0, srv.ns);
    var n, n' := s.namespaces[srv.ns], s'.namespaces[srv.ns];
    ServersAfterOk(env, srv.ns, n, srv, s.store);
    var mid := Store(InnerAfter(n, srv, s.store), s.store.outer, NextAfter(n, srv, s.store));
    AllLinkedOk(srv.ns, Ns(n.pods, n'.servers, n.authzs), n'.pods, mid, s'.store);
    OwnedAreTagged(srv.ns, n.pods, s.store.outer, s'.store.outer);
    ReplaceNs(env, s, srv.ns, n', s'.store);
  }

  lemma ResetPodOk(ns: string, n: Ns, x: string, name: string, outer: Outer)
    requires x in n.pods && PodOk(ns, x, n.pods[x], n.servers, outer)
    ensures PodOk(ns, x, ResetPod(n.pods[x], name), n.servers - {name}, ResetOuter(ns, n.pods, name, outer))
  {
  }

  lemma ResetNsOk(ns: string, n: Ns, name: string, store: Store)
    requires NsOk(ns, n, store)
    ensures NsOk(ns, n.(servers := n.servers - {name}, pods := ResetPods(n.pods, name)),
                 store.(outer := ResetOuter(ns, n.pods, name, store.outer)))
  {
    ServersFrame(ns, n, store, store.inner);
    forall x | x in n.pods
      ensures PodOk(ns, x, ResetPods(n.pods, name)[x], n.servers - {name}, ResetOuter(ns, n.pods, name, store.outer))
    {
      ResetPodOk(ns, n, x, name, store.outer);
    }
  }

  lemma ResetKeepsOthers(ns: string, pods: map<string, PodEntry>, name: string, store: Store)
    ensures OthersKept(ns, store, store.(outer := ResetOuter(ns, pods, name, store.outer)))
    ensures SameShape(pods, ResetPods(pods, name))
  {
  }

  lemma RmServerInv(env: Env, s: State, ns: string, name: string)
    requires Inv(env, s)
    ensures Inv(env, ServerRemoved(s, ns, name))
  {
    if ns in s.namespaces && name in s.namespaces[ns].servers {
      var n := s.namespaces[ns];
      ResetNsOk(ns, n, name, s.store);
      ResetKeepsOthers(ns, n.pods, name, s.store);
      ReplaceNs(env, s, ns, n.(servers := n.servers - {name}, pods := ResetPods(n.pods, name)),
                s.store.(outer := ResetOuter(ns, n.pods, name, s.store.outer)));
    }
  }

  // --- Pods ------------------------------------------------------------------------------------------

  lemma RelabelOk(ns: string, n: Ns, name: string, e: PodEntry, e': PodEntry, store: Store, outer': Outer)
    requires NsOk(ns, n, store) && name in n.pods && e == n.pods[name].(labels := e.labels)
    requires PodLinked(n.servers, e, e', store.outer, outer') && outer'.Keys == store.outer.Keys
    requires forall o | o in store.outer && !Owns(ns, name, e, o) :: outer'[o] == store.outer[o]
    ensures NsOk(ns, n.(pods := n.pods[name := e']), store.(outer := outer'))
    ensures SameShape(n.pods, n.pods[name := e'])
  {
    ServersFrame(ns, n, store, store.inner);
    assert PodOk(ns, name, e, n.servers, store.outer) by {
      assert PodOk(ns, name, n.pods[name], n.servers, store.outer);
      assert forall p | p in e.byPort :: PortOk(ns, name, p, n.pods[name].byPort[p], e.defaultRx, n.servers, store.outer);
    }
    PodLinkedOk(ns, name, n.servers, e, e', store.outer, outer');
    forall x | x in n.pods && x != name
      ensures PodOk(ns, x, n.pods[x], n.servers, outer')
    {
      assert forall p | p in n.pods[x].byPort ::
          PortOk(ns, x, p, n.pods[x].byPort[p], n.pods[x].defaultRx, n.servers, store.outer);
      PodFrame(ns, x, n.pods[x], n.servers, store.outer, n.servers, outer');
    }
  }

  lemma RelabelInv(env: Env, s: State, pod: Resources.Pod, s': State)
    requires Inv(env, s) && pod.ns in s.namespaces && PodRelabeled(s, pod, s')
    ensures Inv(env, s')
  {
    var n, n' := s.namespaces[pod.ns], s'.namespaces[pod.ns];
    RelabelOk(pod.ns, n, pod.name, n.pods[pod.name].(labels := pod.labels), n'.pods[pod.name], s.store, s'.store.outer);
    ReplaceNs(env, s, pod.ns, n', s'.store);
  }

  lemma FreshPodOk(env: Env, pod: Resources.Pod, servers: map<string, ServerEntry>, e: PodEntry, store: Store,
                   store': Store)
    requires FreshPod(env, pod, servers, e, store, store')
    ensures PodOk(pod.ns, pod.name, e, servers, store'.outer)
  {
    var decls := Declared(pod.spec.value.containers);
    forall x, p | x in e.byName && p in e.byName[x]
      ensures p in e.byPort
    {
      NamedArePorts(decls, x, p);
    }
    forall p | p in e.byPort
      ensures PortOk(pod.ns, pod.name, p, e.byPort[p], e.defaultRx, servers, store'.outer)
    {
      assert e.byPort[p].tx in store'.outer;
    }
  }

  lemma IndexedNsOk(env: Env, n: Ns, pod: Resources.Pod, e: PodEntry, store: Store, store': Store)
    requires NsOk(pod.ns, n, store) && pod.name !in n.pods
    requires FreshPod(env, pod, n.servers, e, store, store')
    ensures NsOk(pod.ns, n.(pods := n.pods[pod.name := e]), store')
  {
    FreshPodOk(env, pod, n.servers, e, store, store');
    ServersFrame(pod.ns, n, store, store'.inner);
    PodsFrame(pod.ns, n, n.servers, store.outer, store'.outer);
  }

  lemma IndexedLookupOk(pods: map<string, PodEntry>, l: map<string, map<u16, Rx>>, name: string, e: PodEntry,
                        ips: seq<IpAddr>)
    requires LookupOk(pods, l) && ips != []
    ensures LookupOk(pods[name := e], l[name := RxMap(e.byPort, ips)])
  {
  }

  lemma FreshStoreOk(env: Env, pod: Resources.Pod, servers: map<string, ServerEntry>, e: PodEntry, store: Store,
                     store': Store)
    requires StoreOk(env, store) && FreshPod(env, pod, servers, e, store, store')
    ensures StoreOk(env, store') && OthersKept(pod.ns, store, store')
  {
  }

  lemma IndexPodInv(env: Env, s: State, pod: Resources.Pod, ips: seq<IpAddr>, s': State)
    requires Inv(env, s) && pod.ns in s.namespaces && pod.name !in s.namespaces[pod.ns].pods && ips != []
    requires PodIndexed(env, s, pod, ips, s')
    ensures Inv(env, s')
  {
    var n, n' := s.namespaces[pod.ns], s'.namespaces[pod.ns];
    var e := n'.pods[pod.name];
    FreshStoreOk(env, pod, n.servers, e, s.store, s'.store);
    IndexedNsOk(env, n, pod, e, s.store, s'.store);
    assert LookupOk(PodsIn(s.namespaces, pod.ns), LookupIn(s.lookups, pod.ns));
    IndexedLookupOk(n.pods, LookupIn(s.lookups, pod.ns), pod.name, e, ips);
    SetLookupEffect(s.lookups, pod.ns, pod.name, RxMap(e.byPort, ips));
    ReplaceWithLookups(env, s, pod.ns, n', s'.lookups, s'.store);
  }

  lemma PushPendingOk(nodes: map<string, NodeState>, m: string, pod: Resources.Pod)
    requires NodesOk(nodes) && !IsKnown(nodes, m) && Resources.NodeName(pod) == Some(m)
    ensures NodesOk(PushPending(nodes, m, pod))
    ensures forall k, ns, x :: IsPending(PushPending(nodes, m, pod), k, ns, x) <==>
                                 IsPending(nodes, k, ns, x) || (k == m && ns == pod.ns && x == pod.name)
  {
  }

  lemma ApplyPodInv(env: Env, s0: State, pod: Resources.Pod, s': State)
    requires Inv(env, s0) && PodApplied(env, s0, pod, s')
    ensures Inv(env, s')
  {
    EnsureNsInv(env, s0, pod.ns);
    var s := EnsureNs(s0, pod.ns);
    var n := s.namespaces[pod.ns];
    if pod.name in n.pods {
      if n.pods[pod.name].labels != pod.labels {
        RelabelInv(env, s, pod, s');
      }
    } else if Resources.NodeName(pod).Some? {
      var m := Resources.NodeName(pod).value;
      if IsKnown(s.nodes, m) {
        IndexPodInv(env, s, pod, s.nodes[m].ips, s');
      } else {
        PushPendingOk(s.nodes, m, pod);
      }
    }
  }

  lemma UnindexedNsOk(ns: string, n: Ns, name: string, store: Store, outer': Outer)
    requires NsOk(ns, n, store) && name in n.pods
    requires outer' == map o | o in store.outer && !Owns(ns, name, n.pods[name], o) :: store.outer[o]
    ensures NsOk(ns, n.(pods := n.pods - {name}), store.(outer := outer'))
  {
  }

  lemma UnindexedLookupOk(pods: map<string, PodEntry>, l: map<string, map<u16, Rx>>, name: string)
    requires LookupOk(pods, l)
    ensures LookupOk(pods - {name}, l - {name})
  {
  }

  lemma UnindexInv(env: Env, s: State, ns: string, name: string)
    requires Inv(env, s)
    ensures Inv(env, PodUnindexed(s, ns, name))
  {
    if ns in s.namespaces && name in s.namespaces[ns].pods {
      var n := s.namespaces[ns];
      var n' := n.(pods := n.pods - {name});
      var outer' := map o | o in s.store.outer && !Owns(ns, name, n.pods[name], o) :: s.store.outer[o];
      UnindexedNsOk(ns, n, name, s.store, outer');
      assert LookupOk(PodsIn(s.namespaces, ns), LookupIn(s.lookups, ns));
      UnindexedLookupOk(n.pods, LookupIn(s.lookups, ns), name);
      UnsetLookupEffect(s.lookups, ns, name);
      ReplaceWithLookups(env, s, ns, n', UnsetLookup(s.lookups, ns, name), s.store.(outer := outer'));
    }
  }

  lemma UnpendOk(nodes: map<string, NodeState>, m: string, ns: string, name: string)
    requires NodesOk(nodes) && IsPending(nodes, m, ns, name)
    ensures NodesOk(Unpend(nodes, m, ns, name))
    ensures forall k, a, x :: IsPending(Unpend(nodes, m, ns, name), k, a, x) <==>
                                IsPending(nodes, k, a, x) && !(k == m && a == ns && x == name)
  {
  }

  lemma RmPodInv(env: Env, s: State, ns: string, name: string, s': State)
    requires Inv(env, s) && PodRemoved(s, ns, name, s')
    ensures Inv(env, s')
  {
    if exists m :: IsPending(s.nodes, m, ns, name) {
      var m :| IsPending(s.nodes, m, ns, name) && s' == s.(nodes := Unpend(s.nodes, m, ns, name));
      UnpendOk(s.nodes, m, ns, name);
    } else {
      UnindexInv(env, s, ns, name);
    }
  }

  // --- Nodes --------------------------------------------------------------------------------------------

  lemma NodesReplaced(env: Env, s: State, nodes: map<string, NodeState>)
    requires Inv(env, s)
    requires forall m | m in nodes && nodes[m].Known? :: nodes[m].ips != []
    requires forall m, ns, x | IsPending(nodes, m, ns, x) ::
               IsPending(s.nodes, m, ns, x) && nodes[m].pods[ns][x] == s.nodes[m].pods[ns][x]
    ensures Inv(env, s.(nodes := nodes))
  {
  }

  lemma {:induction false} PodsAppliedInv(env: Env, s: State, pods: seq<Resources.Pod>, s': State)
    requires Inv(env, s) && PodsApplied(env, s, pods, s')
    ensures Inv(env, s')
  {
    if pods != [] {
      var before, last := pods[..|pods| - 1], pods[|pods| - 1];
      assert PodsAppliedThen(env, s, before, last, s');
      var mid :| PodsApplied(env, s, before, mid) && PodApplied(env, mid, last, s');
      PodsAppliedInv(env, s, before, mid);
      ApplyPodInv(env, mid, last, s');
    }
  }

  lemma ApplyNodeInv(env: Env, s: State, node: Resources.Node, s': State)
    requires Inv(env, s) && NodeApplied(env, s, node, s')
    ensures Inv(env, s')
  {
    var r := Resources.KubeletIps(node);
    if !IsKnown(s.nodes, node.name) && r.Ok? {
      Resources.KubeletIpsMeaning(node);
      var nodes := s.nodes[node.name := Known(r.value)];
      var pods, order :| Drains(s.nodes, node.name, pods, order) && PodsApplied(env, s.(nodes := nodes), pods, s');
      NodesReplaced(env, s, nodes);
      PodsAppliedInv(env, s.(nodes := nodes), pods, s');
    }
  }

  // --- Every operation, every run ------------------------------------------------------------------------

  lemma OpInv(env: Env, s: State, op: Op, s': State)
    requires Inv(env, s) && OpStep(env, s, op, s')
    ensures Inv(env, s')
  {
    match op {
      case ApplyAuthz(a) => ApplyAuthzInv(env, s, a);
      case DeleteAuthz(ns, name) => DeleteAuthzInv(env, s, ns, name);
      case ApplyServer(srv) => ApplyServerInv(env, s, srv, s');
      case RmServer(ns, name) => RmServerInv(env, s, ns, name);
      case ApplyPod(pod) => ApplyPodInv(env, s, pod, s');
      case RmPod(ns, name) => RmPodInv(env, s, ns, name, s');
      case ClearPending => NodesReplaced(env, s, KnownNodes(s.nodes));
      case ApplyNode(node) => ApplyNodeInv(env, s, node, s');
      case RemoveNode(name) => NodesReplaced(env, s, s.nodes - {name});
    }
  }

  lemma {:induction false} RunInv(env: Env, s: State, ops: seq<Op>, s': State)
    requires Inv(env, s) && Steps(env, s, ops, s')
    ensures Inv(env, s')
  {
    if ops != [] {
      var before, last := ops[..|ops| - 1], ops[|ops| - 1];
      assert StepsThen(env, s, before, last, s');
      var mid :| Steps(env, s, before, mid) && OpStep(env, mid, last, s');
      RunInv(env, s, before, mid);
      OpInv(env, mid, last, s');
    }
  }
}
