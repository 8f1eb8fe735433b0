/** The indexer (`controller/k8s/index/src/lib.rs`, `controller/k8s/index/src/namespace.rs` and the
    event handlers of every resource): each handler does to its state what the operations of
    `IndexState` say. */
module Indexer {
  import opened Base
  import opened Effects
  import opened Lookup
  import opened Net
  import opened Nodes
  import opened Pods
  import opened Policy
  import Resources
  import opened Servers
  import opened Watch
  import opened IndexState
  import opened Invariant
  import E = Events

  lemma NsReady(ns: string, n: Ns, store: Store)
    requires NsOk(ns, n, store)
    ensures Publishes(ns, n.servers, store.inner)
    ensures forall x | x in n.pods :: Connected(ns, x, n.pods[x], store.outer)
  {
  }

  lemma AuthzAppliedHere(env: Env, s: State, a: Resources.ServerAuthorization)
    ensures AuthzApplied(env, EnsureNs(s, a.ns), a) == AuthzApplied(env, s, a)
  {
  }

  lemma AuthzAppliedIs(env: Env, s: State, a: Resources.ServerAuthorization, n': Ns, inner': Inner)
    requires a.ns in s.namespaces
    requires var n, r := s.namespaces[a.ns], Resources.MkAuthz(a, env.identityDomain);
             if r.Err? || (a.name in n.authzs && n.authzs[a.name] == r.value) then
               n' == n && inner' == s.store.inner
             else
               n' == Ns(n.pods, WithAuthz(n.servers, a.name, r.value), n.authzs[a.name := r.value])
               && inner' == Republish(s.store.inner, a.ns, n'.servers)
    ensures s.(namespaces := s.namespaces[a.ns := n'], store := s.store.(inner := inner')) == AuthzApplied(env, s, a)
  {
  }

  lemma AuthzDeletedIs(s: State, ns: string, name: string)
    requires ns in s.namespaces
    ensures var n := s.namespaces[ns];
            var servers := WithoutAuthz(n.servers, name);
            AuthzDeleted(s, ns, name) ==
              s.(namespaces := s.namespaces[ns := Ns(n.pods, servers, n.authzs - {name})],
                 store := s.store.(inner := Republish(s.store.inner, ns, servers)))
  {
  }

  lemma ServerAppliedHere(s: State, srv: Resources.Server, s': State)
    ensures ServerApplied(EnsureNs(s, srv.ns), srv, s') == ServerApplied(s, srv, s')
  {
  }

  lemma ServerAppliedIs(s: State, srv: Resources.Server, n': Ns, store': Store)
    requires srv.ns in s.namespaces
    requires var n := s.namespaces[srv.ns];
             var n0 := Ns(map[], n.servers, n.authzs);
             && n' == Ns(n'.pods, ServersAfter(n0, srv, s.store.next), n.authzs)
             && AllLinked(srv.ns, n'.servers, n.pods, n'.pods, s.store.outer, store'.outer)
             && store' == Store(InnerAfter(n0, srv, s.store), store'.outer, NextAfter(n0, srv, s.store))
    ensures ServerApplied(s, srv, s.(namespaces := s.namespaces[srv.ns := n'], store := store'))
  {
  }

  lemma PodAppliedHere(env: Env, s: State, pod: Resources.Pod, s': State)
    ensures PodApplied(env, EnsureNs(s, pod.ns), pod, s') == PodApplied(env, s, pod, s')
  {
  }

  lemma PodAppliedIs(env: Env, s: State, pod: Resources.Pod, pods': map<string, PodEntry>,
                     nodes': map<string, NodeState>, lookups': Lookups, store': Store)
    requires pod.ns in s.namespaces && store'.inner == s.store.inner
    requires var n, m := s.namespaces[pod.ns], Resources.NodeName(pod);
             if pod.name in n.pods then
               && nodes' == s.nodes && lookups' == s.lookups && store'.next == s.store.next
               && var e := n.pods[pod.name];
               && if e.labels != pod.labels then
                    && pod.name in pods' && pods' == n.pods[pod.name := pods'[pod.name]]
                    && PodLinked(n.servers, e.(labels := pod.labels), pods'[pod.name], s.store.outer, store'.outer)
                    && SentBy(pod.ns, pod.name, e.(labels := pod.labels), s.store.outer, store'.outer)
                  else
                    pods' == n.pods && store'.outer == s.store.outer
             else if m.Some? && IsKnown(s.nodes, m.value) then
               && nodes' == s.nodes
               && pod.name in pods' && pods' == n.pods[pod.name := pods'[pod.name]]
               && FreshPod(env, pod, n.servers, pods'[pod.name], s.store, store')
               && lookups' == SetLookup(s.lookups, pod.ns, pod.name, RxMap(pods'[pod.name].byPort, s.nodes[m.value].ips))
             else
               && nodes' == (if m.None? then s.nodes else PushPending(s.nodes, m.value, pod))
               && pods' == n.pods && lookups' == s.lookups && store' == s.store
    ensures PodApplied(env, s, pod,
                       State(s.namespaces[pod.ns := s.namespaces[pod.ns].(pods := pods')], nodes', lookups', store'))
  {
  }

  lemma PodUnindexedIs(s: State, ns: string, name: string)
    requires ns in s.namespaces && name in s.namespaces[ns].pods
    requires Connected(ns, name, s.namespaces[ns].pods[name], s.store.outer)
    ensures var n := s.namespaces[ns];
            PodUnindexed(s, ns, name) ==
              State(s.namespaces[ns := n.(pods := n.pods - {name})], s.nodes, UnsetLookup(s.lookups, ns, name),
                    s.store.(outer := s.store.outer - TxsOf(n.pods[name].byPort)))
  {
  }

  lemma UnpendedIs(env: Env, s: State, ns: string, name: string, m: string)
    requires Inv(env, s) && IsPending(s.nodes, m, ns, name)
    ensures PodRemoved(s, ns, name, s.(nodes := Unpend(s.nodes, m, ns, name)))
    ensures Inv(env, s.(nodes := Unpend(s.nodes, m, ns, name)))
  {
  }

  lemma ClearedIs(env: Env, s: State)
    requires Inv(env, s)
    ensures Inv(env, s.(nodes := KnownNodes(s.nodes)))
  {
  }

  lemma UnindexedIs(s: State, ns: string, name: string)
    requires forall m :: !IsPending(s.nodes, m, ns, name)
    ensures PodRemoved(s, ns, name, PodUnindexed(s, ns, name))
  {
  }

  lemma LearnedIs(env: Env, s: State, name: string, ips: seq<IpAddr>)
    requires Inv(env, s) && ips != []
    ensures Inv(env, s.(nodes := s.nodes[name := Known(ips)]))
  {
  }

  lemma ForgottenIs(env: Env, s: State, name: string)
    requires Inv(env, s)
    ensures Inv(env, s.(nodes := s.nodes - {name}))
  {
  }

  function Queued(queue: map<string, map<string, Resources.Pod>>): set<Id> {
    set ns, x | ns in queue && x in queue[ns] :: Id(ns, x)
  }

  ghost predicate TakenFrom(queue: map<string, map<string, Resources.Pod>>, pods: seq<Resources.Pod>, order: seq<Id>)
  {
    && |pods| == |order|
    && forall i | 0 <= i < |order| ::
         order[i].ns in queue && order[i].name in queue[order[i].ns] && pods[i] == queue[order[i].ns][order[i].name]
  }

  /** All of a queue but the pods in `todo` has been applied. */
  ghost predicate Draining(env: Env, queue: map<string, map<string, Resources.Pod>>, s: State,
                           pods: seq<Resources.Pod>, order: seq<Id>, todo: set<Id>, s': State)
  {
    E.Walked(order, Queued(queue), todo) && TakenFrom(queue, pods, order) && PodsApplied(env, s, pods, s')
  }

  lemma DrainingNext(env: Env, queue: map<string, map<string, Resources.Pod>>, s: State, pods: seq<Resources.Pod>,
                     order: seq<Id>, todo: set<Id>, mid: State, id: Id, s': State)
    requires Draining(env, queue, s, pods, order, todo, mid) && id in todo
    requires id.ns in queue && id.name in queue[id.ns] && PodApplied(env, mid, queue[id.ns][id.name], s')
    ensures Draining(env, queue, s, pods + [queue[id.ns][id.name]], order + [id], todo - {id}, s')
  {
  }

  lemma NodeAppliedIs(env: Env, s: State, node: Resources.Node, queue: map<string, map<string, Resources.Pod>>,
                      pods: seq<Resources.Pod>, order: seq<Id>, s': State)
    requires !IsKnown(s.nodes, node.name) && Resources.KubeletIps(node).Ok?
    requires queue == if node.name in s.nodes then s.nodes[node.name].pods else map[]
    requires Enumerates(order, Queued(queue)) && TakenFrom(queue, pods, order)
    requires PodsApplied(env, s.(nodes := s.nodes[node.name := Known(Resources.KubeletIps(node).value)]), pods, s')
    ensures NodeApplied(env, s, node, s')
  {
    assert Queued(queue) == Queue(s.nodes, node.name);
    assert Drains(s.nodes, node.name, pods, order);
  }

  lemma AuthzListedNext(l: seq<Resources.ServerAuthorization>, i: nat)
    requires i < |l|
    ensures E.ApplyAuthzs(l[..i + 1]) == E.ApplyAuthzs(l[..i]) + [ApplyAuthz(l[i])]
    ensures E.AuthzsListed(l[..i + 1]) == E.AuthzsListed(l[..i]) + {Id(l[i].ns, l[i].name)}
  {
  }

  lemma AuthzGoneNext(ops: seq<Op>, gone: seq<Id>, id: Id)
    ensures ops + E.DeleteAuthzs(gone + [id]) == ops + E.DeleteAuthzs(gone) + [DeleteAuthz(id.ns, id.name)]
  {
  }

  lemma ServerListedNext(l: seq<Resources.Server>, i: nat)
    requires i < |l|
    ensures E.ApplyServers(l[..i + 1]) == E.ApplyServers(l[..i]) + [ApplyServer(l[i])]
    ensures E.ServersListed(l[..i + 1]) == E.ServersListed(l[..i]) + {Id(l[i].ns, l[i].name)}
  {
  }

  lemma ServerGoneNext(ops: seq<Op>, gone: seq<Id>, id: Id)
    ensures ops + E.RmServers(gone + [id]) == ops + E.RmServers(gone) + [RmServer(id.ns, id.name)]
  {
  }

  lemma ClearedNext(env: Env, s: State, s': State)
    requires OpStep(env, s, Op.ClearPending, s')
    ensures Steps(env, s, [Op.ClearPending], s')
    ensures E.PodIds(s') == E.PodIds(s)
  {
  }

  lemma PodListedNext(ops: seq<Op>, l: seq<Resources.Pod>, i: nat)
    requires i < |l|
    ensures ops + E.ApplyPods(l[..i + 1]) == ops + E.ApplyPods(l[..i]) + [ApplyPod(l[i])]
    ensures E.PodsListed(l[..i + 1]) == E.PodsListed(l[..i]) + {Id(l[i].ns, l[i].name)}
  {
  }

  lemma PodGoneNext(ops: seq<Op>, gone: seq<Id>, id: Id)
    ensures ops + E.RmPods(gone + [id]) == ops + E.RmPods(gone) + [RmPod(id.ns, id.name)]
  {
  }

  ghost predicate StillKnown(names: set<string>, s: State) {
    forall m | m in names :: IsKnown(s.nodes, m)
  }

  /** Applying the next node of a list; a known one needs nothing done. */
  lemma NodeListedNext(env: Env, s: State, ops: seq<Op>, prior: set<string>, l: seq<Resources.Node>, i: nat,
                       mid: State, s': State)
    requires i < |l| && Steps(env, s, ops, mid) && ops == E.ApplyNodes(l[..i]) && StillKnown(prior, mid)
    requires OpStep(env, mid, ApplyNode(l[i]), s') || (s' == mid && l[i].name in prior)
    ensures ops + [ApplyNode(l[i])] == E.ApplyNodes(l[..i + 1])
    ensures Steps(env, s, ops + [ApplyNode(l[i])], s') && StillKnown(prior, s')
    ensures E.NodesListed(l[..i + 1]) == E.NodesListed(l[..i]) + {l[i].name}
  {
    assert l[..i + 1] == l[..i] + [l[i]];
    StepsSnoc(env, s, ops, mid, ApplyNode(l[i]), s');
    NodeAppliedKeepsKnown(env, mid, l[i], s');
  }

  lemma NodeGoneNext(ops: seq<Op>, gone: seq<string>, m: string)
    ensures ops + E.RemoveNodes(gone + [m]) == ops + E.RemoveNodes(gone) + [RemoveNode(m)]
  {
  }

  lemma OneStep(env: Env, s: State, op: Op, s': State)
    requires OpStep(env, s, op, s')
    ensures Steps(env, s, [op], s')
  {
  }

  /** Both channels behind every receiver in the lookup map exist. */
  lemma FoundIsConnected(env: Env, s: State, ns: string, pod: string, port: u16)
    requires Inv(env, s) && ns in s.lookups && pod in s.lookups[ns] && port in s.lookups[ns][pod]
    ensures var rx := s.lookups[ns][pod][port].rx;
            rx in s.store.outer && s.store.outer[rx] in s.store.inner
  {
    assert LookupOk(PodsIn(s.namespaces, ns), LookupIn(s.lookups, ns));
    var n := s.namespaces[ns];
    assert EntryOk(n.pods[pod], s.lookups[ns][pod]);
    assert PodOk(ns, pod, n.pods[pod], n.servers, s.store.outer);
    var e := n.pods[pod].byPort[port];
    assert PortOk(ns, pod, port, e, n.pods[pod].defaultRx, n.servers, s.store.outer);
    if e.serverName.Some? {
      assert ServerOk(ns, e.serverName.value, n.servers[e.serverName.value], n.authzs, s.store.inner);
    }
  }

  /** The indexes of one namespace. */
  datatype Namespace = Namespace(defaultAllow: DefaultAllow, pods: PodIndex, servers: SrvIndex, authzs: AuthzIndex)

  method MakeNamespace(name: string, defaultAllow: DefaultAllow) returns (ns: Namespace)
    ensures fresh(ns.pods) && fresh(ns.servers) && fresh(ns.authzs)
    ensures ns.defaultAllow == defaultAllow && ns.pods.owner == ns.servers.owner == ns.authzs.owner == name
    ensures Ns(ns.pods.index, ns.servers.index, ns.authzs.index) == EMPTY_NS
  {
    var pods := new PodIndex(name);
    var servers := new SrvIndex(name);
    var authzs := new AuthzIndex(name);
    ns := Namespace(defaultAllow, pods, servers, authzs);
  }

  class NamespaceIndex {
    var index: map<string, Namespace>
    const defaultAllow: DefaultAllow
    ghost var parts: set<object>

    /** No two namespaces share an index. */
    ghost predicate Separate()
      reads this
    {
      forall a | a in index ::
            && index[a].defaultAllow == defaultAllow
            && index[a].pods.owner == index[a].servers.owner == index[a].authzs.owner == a
            && index[a].pods in parts && index[a].servers in parts && index[a].authzs in parts
    }

    ghost function Abs(): map<string, Ns>
      requires Separate()
      reads this, parts
    {
      map ns | ns in index :: Ns(index[ns].pods.index, index[ns].servers.index, index[ns].authzs.index)
    }

    constructor (mode: DefaultAllow)
      ensures index == map[] && defaultAllow == mode && parts == {}
    {
      index := map[];
      defaultAllow := mode;
      parts := {};
    }

    method Insert(name: string, ns: Namespace)
      requires Separate() && name !in index
      requires ns.defaultAllow == defaultAllow && ns.pods.owner == ns.servers.owner == ns.authzs.owner == name
      modifies this
      ensures Separate() && index == old(index)[name := ns] && parts == old(parts) + {ns.pods, ns.servers, ns.authzs}
      ensures Abs() == old(Abs())[name := Ns(ns.pods.index, ns.servers.index, ns.authzs.index)]
    {
      index := index[name := ns];
      parts := parts + {ns.pods, ns.servers, ns.authzs};
    }

    method GetOrDefault(name: string) returns (ns: Namespace)
      requires Separate()
      modifies this
      ensures Separate() && name in index && index[name] == ns
      ensures parts >= old(parts) && fresh(parts - old(parts))
      ensures Abs() == if name in old(index) then old(Abs()) else old(Abs())[name := EMPTY_NS]
    {
      if name !in index {
        ns := MakeNamespace(name, defaultAllow);
        Insert(name, ns);
      }
      ns := index[name];
    }

    /** Only one namespace's indexes have changed. */
    twostate lemma OneChanged(name: string)
      requires old(Separate()) && name in old(index) && unchanged(this)
      requires forall b | b in old(index) && b != name ::
                 unchanged(old(index)[b].pods) && unchanged(old(index)[b].servers) && unchanged(old(index)[b].authzs)
      ensures Separate()
      ensures Abs() == old(Abs())[name := Ns(index[name].pods.index, index[name].servers.index, index[name].authzs.index)]
    {
    }
  }

  class Index {
    const env: Env
    const namespaces: NamespaceIndex
    const nodes: NodeIndex
    const lookups: Writer
    const channels: Channels

    ghost function Repr(): set<object>
      reads namespaces
    {
      {namespaces, nodes, lookups, channels} + namespaces.parts
    }

    ghost function Abs(): State
      requires namespaces.Separate()
      reads namespaces, Repr()
    {
      State(namespaces.Abs(), nodes.index, lookups.byNs, channels.Abs())
    }

    ghost predicate Valid()
      reads Repr()
    {
      && namespaces.Separate() && namespaces.defaultAllow == env.defaultAllow
      && namespaces !in namespaces.parts && nodes !in namespaces.parts
      && lookups !in namespaces.parts && channels !in namespaces.parts
      && Inv(env, Abs())
    }

    constructor (e: Env)
      ensures Valid() && fresh(Repr()) && env == e && Abs() == Init(e)
    {
      env := e;
      namespaces := new NamespaceIndex(e.defaultAllow);
      nodes := new NodeIndex();
      lookups := new Writer();
      channels := new Channels(e);
      new;
      InitInv(e);
    }

    /** The namespace's indexes are ready to be worked on. */
    lemma NamespaceReady(ns: string)
      requires Valid() && ns in namespaces.index
      ensures Publishes(ns, namespaces.index[ns].servers.index, channels.inner)
      ensures forall x | x in namespaces.index[ns].pods.index ::
                Connected(ns, x, namespaces.index[ns].pods.index[x], channels.outer)
    {
      var n := namespaces.Abs()[ns];
      assert Abs().namespaces[ns] == n;
      assert NsOk(ns, n, channels.Abs());
      NsReady(ns, n, channels.Abs());
    }

    /** Finds or creates a namespace. */
    method Enter(name: string) returns (ns: Namespace)
      requires Valid()
      modifies namespaces
      ensures Valid() && fresh(Repr() - old(Repr()))
      ensures name in namespaces.index && namespaces.index[name] == ns
      ensures Abs() == EnsureNs(old(Abs()), name)
      ensures Publishes(name, ns.servers.index, channels.inner)
      ensures forall x | x in ns.pods.index :: Connected(name, x, ns.pods.index[x], channels.outer)
    {
      ghost var s0 := Abs();
      ns := namespaces.GetOrDefault(name);
      EnsureNsInv(env, s0, name);
      assert Abs() == EnsureNs(s0, name);
      NamespaceReady(name);
    }

    /** Only the nodes have changed. */
    twostate lemma OnlyNodes()
      requires old(namespaces.Separate()) && nodes !in old(namespaces.parts)
      requires unchanged(namespaces) && unchanged(lookups) && unchanged(channels) && unchanged(old(namespaces.parts))
      ensures namespaces.Separate() && Abs() == old(Abs()).(nodes := nodes.index)
    {
    }

    // --- Authorizations ---------------------------------------------------------------

    /** The handler's work inside its namespace. */
    method ApplyAuthzIn(ns: Namespace, a: Resources.ServerAuthorization) returns (ok: bool)
      requires namespaces.Separate() && a.ns in namespaces.index && namespaces.index[a.ns] == ns
      requires Publishes(a.ns, ns.servers.index, channels.inner)
      modifies namespaces.parts, channels
      ensures unchanged(namespaces) && namespaces.Separate()
      ensures Abs() == AuthzApplied(env, old(Abs()), a)
      ensures ok == Resources.MkAuthz(a, env.identityDomain).Ok?
    {
      ok := ns.authzs.Apply(a, ns.servers, env.identityDomain, channels);
      namespaces.OneChanged(a.ns);
      AuthzAppliedIs(env, old(Abs()), a, Ns(ns.pods.index, ns.servers.index, ns.authzs.index), channels.inner);
    }

    method ApplyAuthz(a: Resources.ServerAuthorization) returns (ok: bool)
      requires Valid()
      modifies Repr()
      ensures Valid() && fresh(Repr() - old(Repr()))
      ensures OpStep(env, old(Abs()), Op.ApplyAuthz(a), Abs())
      ensures ok == Resources.MkAuthz(a, env.identityDomain).Ok?
    {
      ghost var s0 := Abs();
      var ns := Enter(a.ns);
      ok := ApplyAuthzIn(ns, a);
      AuthzAppliedHere(env, s0, a);
      ApplyAuthzInv(env, s0, a);
    }

    /** The handler's work inside its namespace. */
    method DeleteAuthzIn(ns: Namespace, name: string, authz: string)
      requires namespaces.Separate() && name in namespaces.index && namespaces.index[name] == ns
      requires Publishes(name, ns.servers.index, channels.inner)
      modifies namespaces.parts, channels
      ensures unchanged(namespaces) && namespaces.Separate()
      ensures Abs() == AuthzDeleted(old(Abs()), name, authz)
    {
      ns.servers.RemoveAuthz(name, authz, channels);
      ns.authzs.Delete(authz);
      namespaces.OneChanged(name);
      AuthzDeletedIs(old(Abs()), name, authz);
    }

    method DeleteAuthz(ns: string, name: string)
      requires Valid()
      modifies Repr()
      ensures Valid() && fresh(Repr() - old(Repr()))
      ensures OpStep(env, old(Abs()), Op.DeleteAuthz(ns, name), Abs())
    {
      ghost var s0 := Abs();
      DeleteAuthzInv(env, s0, ns, name);
      if ns in namespaces.index {
        NamespaceReady(ns);
        DeleteAuthzIn(namespaces.index[ns], ns, name);
      }
    }

    // --- Servers -----------------------------------------------------------------------

    /** The handler's work inside its namespace. */
    method ApplyServerIn(ns: Namespace, srv: Resources.Server)
      requires namespaces.Separate() && srv.ns in namespaces.index && namespaces.index[srv.ns] == ns
      requires Publishes(srv.ns, ns.servers.index, channels.inner)
      requires forall x | x in ns.pods.index :: Connected(srv.ns, x, ns.pods.index[x], channels.outer)
      modifies namespaces.parts, channels
      ensures unchanged(namespaces) && namespaces.Separate()
      ensures ServerApplied(old(Abs()), srv, Abs())
    {
      ns.servers.Apply(srv, ns.authzs, channels);
      ns.pods.LinkServers(srv.ns, ns.servers, channels);
      namespaces.OneChanged(srv.ns);
      ServerAppliedIs(old(Abs()), srv, Ns(ns.pods.index, ns.servers.index, ns.authzs.index), channels.Abs());
    }

    method ApplyServer(srv: Resources.Server)
      requires Valid()
      modifies Repr()
      ensures Valid() && fresh(Repr() - old(Repr()))
      ensures OpStep(env, old(Abs()), Op.ApplyServer(srv), Abs())
    {
      ghost var s0 := Abs();
      var ns := Enter(srv.ns);
      ApplyServerIn(ns, srv);
      ServerAppliedHere(s0, srv, Abs());
      ApplyServerInv(env, s0, srv, Abs());
    }

    /** The handler's work inside its namespace. */
    method RmServerIn(ns: Namespace, name: string, srv: string)
      requires namespaces.Separate() && name in namespaces.index && namespaces.index[name] == ns
      requires srv in ns.servers.index
      requires forall x | x in ns.pods.index :: Connected(name, x, ns.pods.index[x], channels.outer)
      modifies namespaces.parts, channels
      ensures unchanged(namespaces) && namespaces.Separate()
      ensures Abs() == ServerRemoved(old(Abs()), name, srv)
    {
      ns.servers.index := ns.servers.index - {srv};
      ns.pods.ResetServer(name, srv, channels);
      namespaces.OneChanged(name);
    }

    method RmServer(ns: string, name: string) returns (ok: bool)
      requires Valid()
      modifies Repr()
      ensures Valid() && fresh(Repr() - old(Repr()))
      ensures OpStep(env, old(Abs()), Op.RmServer(ns, name), Abs())
      ensures ok == old(ns in namespaces.index && name in namespaces.index[ns].servers.index)
    {
      ghost var s0 := Abs();
      RmServerInv(env, s0, ns, name);
      if ns !in namespaces.index {
        return false;
      }
      if name !in namespaces.index[ns].servers.index {
        return false;
      }
      NamespaceReady(ns);
      RmServerIn(namespaces.index[ns], ns, name);
      return true;
    }

    // --- Pods --------------------------------------------------------------------------

    /** What `PodIndex.Apply` needs to know. */
    lemma PodReady(ns: string, name: string)
      requires Valid() && ns in namespaces.index
      ensures forall o | o in channels.outer :: o.serial < channels.next
      ensures lookups.Contains(ns, name) <==> name in namespaces.index[ns].pods.index
    {
      var s := Abs();
      assert s.store == channels.Abs() && StoreOk(env, s.store);
      assert LookupOk(PodsIn(s.namespaces, ns), LookupIn(s.lookups, ns));
      assert PodsIn(s.namespaces, ns) == namespaces.index[ns].pods.index;
    }

    /** The handler's work inside its namespace. */
    method ApplyPodIn(ns: Namespace, pod: Resources.Pod) returns (ok: bool)
      requires namespaces.Separate() && pod.ns in namespaces.index && namespaces.index[pod.ns] == ns
      requires ns.defaultAllow == env.defaultAllow
      requires forall x | x in ns.pods.index :: Connected(pod.ns, x, ns.pods.index[x], channels.outer)
      requires forall o | o in channels.outer :: o.serial < channels.next
      requires lookups.Contains(pod.ns, pod.name) <==> pod.name in ns.pods.index
      modifies namespaces.parts, channels, nodes, lookups
      ensures unchanged(namespaces) && namespaces.Separate()
      ensures PodApplied(env, old(Abs()), pod, Abs())
      ensures ok
    {
      assert env == env.(defaultAllow := ns.defaultAllow);
      ok := ns.pods.Apply(env.(defaultAllow := ns.defaultAllow), pod, nodes, ns.servers, lookups, channels);
      namespaces.OneChanged(pod.ns);
      PodAppliedIs(env, old(Abs()), pod, ns.pods.index, nodes.index, lookups.byNs, channels.Abs());
    }

    method ApplyPod(pod: Resources.Pod) returns (ok: bool)
      requires Valid()
      modifies Repr()
      ensures Valid() && fresh(Repr() - old(Repr()))
      ensures OpStep(env, old(Abs()), Op.ApplyPod(pod), Abs())
      ensures ok
    {
      ghost var s0 := Abs();
      var ns := Enter(pod.ns);
      PodReady(pod.ns, pod.name);
      ok := ApplyPodIn(ns, pod);
      PodAppliedHere(env, s0, pod, Abs());
      ApplyPodInv(env, s0, pod, Abs());
    }

    /** Removes a pod from the index and from the lookup map; its channels go with it. */
    method UnindexPod(ns: Namespace, name: string, pod: string)
      requires namespaces.Separate() && name in namespaces.index && namespaces.index[name] == ns
      requires pod in ns.pods.index && Connected(name, pod, ns.pods.index[pod], channels.outer)
      requires lookups.Contains(name, pod)
      modifies namespaces.parts, channels, lookups
      ensures unchanged(namespaces) && namespaces.Separate()
      ensures Abs() == PodUnindexed(old(Abs()), name, pod)
    {
      var entry := ns.pods.index[pod];
      ns.pods.index := ns.pods.index - {pod};
      var r := lookups.Unset(name, pod);
      assert r.Ok?;
      channels.DropOuter(TxsOf(entry.byPort));
      namespaces.OneChanged(name);
      PodUnindexedIs(old(Abs()), name, pod);
    }

    /** Removes a pod that is not queued. */
    method RmIndexed(ns: string, name: string) returns (ok: bool)
      requires Valid()
      modifies Repr()
      ensures Valid() && fresh(Repr() - old(Repr()))
      ensures Abs() == PodUnindexed(old(Abs()), ns, name)
      ensures ok == old(ns in namespaces.index && name in namespaces.index[ns].pods.index)
    {
      UnindexInv(env, Abs(), ns, name);
      if ns !in namespaces.index {
        return false;
      }
      if name !in namespaces.index[ns].pods.index {
        return false;
      }
      NamespaceReady(ns);
      PodReady(ns, name);
      UnindexPod(namespaces.index[ns], ns, name);
      return true;
    }

    /** Takes a pod out of a queue. */
    method Unqueue(ns: string, name: string) returns (cleared: bool)
      requires Valid()
      modifies nodes
      ensures Valid() && unchanged(namespaces)
      ensures cleared ==> PodRemoved(old(Abs()), ns, name, Abs()) && exists m :: IsPending(old(nodes.index), m, ns, name)
      ensures !cleared ==> Abs() == old(Abs()) && forall m :: !IsPending(old(nodes.index), m, ns, name)
    {
      ghost var s0 := Abs();
      cleared := nodes.ClearPendingPod(ns, name);
      if cleared {
        ghost var m :| IsPending(s0.nodes, m, ns, name) && nodes.index == Unpend(s0.nodes, m, ns, name);
        UnpendedIs(env, s0, ns, name, m);
      }
      OnlyNodes();
    }

    method RmPod(ns: string, name: string) returns (ok: bool)
      requires Valid()
      modifies Repr()
      ensures Valid() && fresh(Repr() - old(Repr()))
      ensures OpStep(env, old(Abs()), Op.RmPod(ns, name), Abs())
      ensures ok == old((exists m :: IsPending(nodes.index, m, ns, name))
                        || (ns in namespaces.index && name in namespaces.index[ns].pods.index))
    {
      ghost var s0 := Abs();
      var cleared := Unqueue(ns, name);
      if cleared {
        return true;
      }
      UnindexedIs(s0, ns, name);
      ok := RmIndexed(ns, name);
    }

    method ClearPending()
      requires Valid()
      modifies nodes
      ensures Valid() && unchanged(namespaces)
      ensures OpStep(env, old(Abs()), Op.ClearPending, Abs())
    {
      ClearedIs(env, Abs());
      nodes.ClearPendingPods();
      OnlyNodes();
    }

    // --- Nodes -------------------------------------------------------------------------

    /** Applies the pods of a queue, in any order. */
    method Drain(queue: map<string, map<string, Resources.Pod>>)
      returns (ghost pods: seq<Resources.Pod>, ghost order: seq<Id>)
      requires Valid()
      modifies Repr()
      ensures Valid() && fresh(Repr() - old(Repr()))
      ensures PodsApplied(env, old(Abs()), pods, Abs())
      ensures Enumerates(order, Queued(queue)) && TakenFrom(queue, pods, order)
    {
      pods, order := [], [];
      ghost var s0 := Abs();
      var todo := set ns, x | ns in queue && x in queue[ns] :: Id(ns, x);
      while todo != {}
        invariant Valid() && fresh(Repr() - old(Repr()))
        invariant Draining(env, queue, s0, pods, order, todo, Abs())
        decreases |todo|
      {
        var id :| id in todo;
        ghost var mid := Abs();
        var pod := queue[id.ns][id.name];
        var ok := ApplyPod(pod);
        DrainingNext(env, queue, s0, pods, order, todo, mid, id, Abs());
        pods, order, todo := pods + [pod], order + [id], todo - {id};
      }
      E.WalkedAll(order, Queued(queue));
    }

    /** Takes a node's addresses and hands out its queue. */
    method Learn(name: string, ips: seq<IpAddr>) returns (queue: map<string, map<string, Resources.Pod>>)
      requires Valid() && !IsKnown(nodes.index, name) && ips != []
      modifies nodes
      ensures Valid() && unchanged(namespaces)
      ensures Abs() == old(Abs()).(nodes := old(nodes.index)[name := Known(ips)])
      ensures queue == if name in old(nodes.index) then old(nodes.index)[name].pods else map[]
    {
      LearnedIs(env, Abs(), name, ips);
      queue := if name in nodes.index then nodes.index[name].pods else map[];
      nodes.index := nodes.index[name := Known(ips)];
      OnlyNodes();
    }

    method ApplyNode(node: Resources.Node) returns (ok: bool)
      requires Valid()
      modifies Repr()
      ensures Valid() && fresh(Repr() - old(Repr()))
      ensures OpStep(env, old(Abs()), Op.ApplyNode(node), Abs())
      ensures ok == (old(IsKnown(nodes.index, node.name)) || Resources.KubeletIps(node).Ok?)
    {
      ghost var s0 := Abs();
      if node.name in nodes.index && nodes.index[node.name].Known? {
        return true;
      }
      var ips := Resources.KubeletIps(node);
      if ips.Err? {
        return false;
      }
      Resources.KubeletIpsMeaning(node);
      var queue := Learn(node.name, ips.value);
      ghost var pods, order := Drain(queue);
      NodeAppliedIs(env, s0, node, queue, pods, order, Abs());
      return true;
    }

    method DeleteNode(name: string) returns (ok: bool)
      requires Valid()
      modifies Repr()
      ensures Valid() && fresh(Repr() - old(Repr()))
      ensures OpStep(env, old(Abs()), Op.RemoveNode(name), Abs())
      ensures ok == old(name in nodes.index)
    {
      ForgottenIs(env, Abs(), name);
      ok := name in nodes.index;
      nodes.index := nodes.index - {name};
      OnlyNodes();
    }

    // --- Restarts ----------------------------------------------------------------------

    method AuthzKeys() returns (ids: set<Id>)
      requires namespaces.Separate()
      ensures ids == E.AuthzIds(Abs())
    {
      ids := set ns, x | ns in namespaces.index && x in namespaces.index[ns].authzs.index :: Id(ns, x);
    }

    /** Applies the listed authorizations and deletes those that were indexed and are not listed. */
    method ResetAuthzs(l: seq<Resources.ServerAuthorization>) returns (ghost gone: seq<Id>)
      requires Valid()
      modifies Repr()
      ensures Valid() && fresh(Repr() - old(Repr()))
      ensures Enumerates(gone, E.AuthzIds(old(Abs())) - E.AuthzsListed(l))
      ensures Steps(env, old(Abs()), E.ApplyAuthzs(l) + E.DeleteAuthzs(gone), Abs())
    {
      ghost var s0 := Abs();
      var prior := AuthzKeys();
      prior := ApplyAuthzs(l, prior);
      gone := DeleteAuthzs(prior, s0, E.ApplyAuthzs(l));
    }

    /** Applies a list in its order, crossing out what it names. */
    method ApplyAuthzs(l: seq<Resources.ServerAuthorization>, prior: set<Id>) returns (left: set<Id>)
      requires Valid()
      modifies Repr()
      ensures Valid() && fresh(Repr() - old(Repr()))
      ensures left == prior - E.AuthzsListed(l) && Steps(env, old(Abs()), E.ApplyAuthzs(l), Abs())
    {
      left := prior;
      ghost var s0, ops := Abs(), E.ApplyAuthzs([]);
      for i := 0 to |l|
        invariant Valid() && fresh(Repr() - old(Repr()))
        invariant left == prior - E.AuthzsListed(l[..i])
        invariant ops == E.ApplyAuthzs(l[..i]) && Steps(env, s0, ops, Abs())
      {
        ghost var mid := Abs();
        left := left - {Id(l[i].ns, l[i].name)};
        var ok := ApplyAuthz(l[i]);
        StepsSnoc(env, s0, ops, mid, Op.ApplyAuthz(l[i]), Abs());
        AuthzListedNext(l, i);
        ops := ops + [Op.ApplyAuthz(l[i])];
      }
      assert l[..|l|] == l;
    }

    /** Deletes some authorizations in any order. */
    method DeleteAuthzs(ids: set<Id>, ghost s0: State, ghost ops: seq<Op>) returns (ghost gone: seq<Id>)
      requires Valid() && Steps(env, s0, ops, Abs())
      modifies Repr()
      ensures Valid() && fresh(Repr() - old(Repr()))
      ensures Enumerates(gone, ids) && Steps(env, s0, ops + E.DeleteAuthzs(gone), Abs())
    {
      gone := [];
      ghost var all := ops;
      var todo := ids;
      while todo != {}
        invariant Valid() && fresh(Repr() - old(Repr()))
        invariant E.Walked(gone, ids, todo)
        invariant all == ops + E.DeleteAuthzs(gone) && Steps(env, s0, all, Abs())
        decreases |todo|
      {
        var id :| id in todo;
        ghost var mid := Abs();
        DeleteAuthz(id.ns, id.name);
        StepsSnoc(env, s0, all, mid, Op.DeleteAuthz(id.ns, id.name), Abs());
        AuthzGoneNext(ops, gone, id);
        E.WalkedNext(gone, ids, todo, id);
        gone, todo, all := gone + [id], todo - {id}, all + [Op.DeleteAuthz(id.ns, id.name)];
      }
    }

    method ServerKeys() returns (ids: set<Id>)
      requires namespaces.Separate()
      ensures ids == E.ServerIds(Abs())
    {
      ids := set ns, x | ns in namespaces.index && x in namespaces.index[ns].servers.index :: Id(ns, x);
    }

    /** Applies the listed servers and then removes those that were indexed and are not listed. */
    method ResetServers(l: seq<Resources.Server>) returns (ghost gone: seq<Id>)
      requires Valid()
      modifies Repr()
      ensures Valid() && fresh(Repr() - old(Repr()))
      ensures Enumerates(gone, E.ServerIds(old(Abs())) - E.ServersListed(l))
      ensures Steps(env, old(Abs()), E.ApplyServers(l) + E.RmServers(gone), Abs())
    {
      ghost var s0 := Abs();
      var prior := ServerKeys();
      prior := ApplyServers(l, prior);
      gone := RmServers(prior, s0, E.ApplyServers(l));
    }

    /** Applies one more server of a list. */
    method ApplyNextServer(srv: Resources.Server, ghost s0: State, ghost ops: seq<Op>)
      requires Valid() && Steps(env, s0, ops, Abs())
      modifies Repr()
      ensures Valid() && fresh(Repr() - old(Repr()))
      ensures Steps(env, s0, ops + [Op.ApplyServer(srv)], Abs())
    {
      ghost var mid := Abs();
      ApplyServer(srv);
      StepsSnoc(env, s0, ops, mid, Op.ApplyServer(srv), Abs());
    }

    /** Applies a list in its order, crossing out what it names. */
    method ApplyServers(l: seq<Resources.Server>, prior: set<Id>) returns (left: set<Id>)
      requires Valid()
      modifies Repr()
      ensures Valid() && fresh(Repr() - old(Repr()))
      ensures left == prior - E.ServersListed(l) && Steps(env, old(Abs()), E.ApplyServers(l), Abs())
    {
      left := prior;
      ghost var s0, ops := Abs(), E.ApplyServers([]);
      for i := 0 to |l|
        invariant Valid() && fresh(Repr() - old(Repr()))
        invariant left == prior - E.ServersListed(l[..i])
        invariant ops == E.ApplyServers(l[..i]) && Steps(env, s0, ops, Abs())
      {
        left := left - {Id(l[i].ns, l[i].name)};
        ApplyNextServer(l[i], s0, ops);
        ServerListedNext(l, i);
        ops := ops + [Op.ApplyServer(l[i])];
      }
      assert l[..|l|] == l;
    }

    /** Removes some servers in any order. */
    method RmServers(ids: set<Id>, ghost s0: State, ghost ops: seq<Op>) returns (ghost gone: seq<Id>)
      requires Valid() && Steps(env, s0, ops, Abs())
      modifies Repr()
      ensures Valid() && fresh(Repr() - old(Repr()))
      ensures Enumerates(gone, ids) && Steps(env, s0, ops + E.RmServers(gone), Abs())
    {
      gone := [];
      ghost var all := ops;
      var todo := ids;
      while todo != {}
        invariant Valid() && fresh(Repr() - old(Repr()))
        invariant E.Walked(gone, ids, todo)
        invariant all == ops + E.RmServers(gone) && Steps(env, s0, all, Abs())
        decreases |todo|
      {
        var id :| id in todo;
        ghost var mid := Abs();
        var ok := RmServer(id.ns, id.name);
        StepsSnoc(env, s0, all, mid, Op.RmServer(id.ns, id.name), Abs());
        ServerGoneNext(ops, gone, id);
        E.WalkedNext(gone, ids, todo, id);
        gone, todo, all := gone + [id], todo - {id}, all + [Op.RmServer(id.ns, id.name)];
      }
    }

    method PodKeys() returns (ids: set<Id>)
      requires namespaces.Separate()
      ensures ids == E.PodIds(Abs())
    {
      ids := set ns, x | ns in namespaces.index && x in namespaces.index[ns].pods.index :: Id(ns, x);
    }

    /** Drops every queue and collects what is indexed. */
    method StartResetPods() returns (prior: set<Id>)
      requires Valid()
      modifies Repr()
      ensures Valid() && fresh(Repr() - old(Repr()))
      ensures prior == E.PodIds(old(Abs())) && Steps(env, old(Abs()), [Op.ClearPending], Abs())
    {
      ghost var s0 := Abs();
      ClearPending();
      prior := PodKeys();
      ClearedNext(env, s0, Abs());
    }

    /** Drops every queue, applies the listed pods and removes those that were indexed and are not listed. */
    method ResetPods(l: seq<Resources.Pod>) returns (ghost gone: seq<Id>)
      requires Valid()
      modifies Repr()
      ensures Valid() && fresh(Repr() - old(Repr()))
      ensures Enumerates(gone, E.PodIds(old(Abs())) - E.PodsListed(l))
      ensures Steps(env, old(Abs()), [Op.ClearPending] + E.ApplyPods(l) + E.RmPods(gone), Abs())
    {
      ghost var s0 := Abs();
      var prior := StartResetPods();
      prior := ApplyPods(l, prior, s0, [Op.ClearPending]);
      gone := RmPods(prior, s0, [Op.ClearPending] + E.ApplyPods(l));
    }

    /** Applies a list in its order, crossing out what it names. */
    method ApplyPods(l: seq<Resources.Pod>, prior: set<Id>, ghost s0: State, ghost ops: seq<Op>)
      returns (left: set<Id>)
      requires Valid() && Steps(env, s0, ops, Abs())
      modifies Repr()
      ensures Valid() && fresh(Repr() - old(Repr()))
      ensures left == prior - E.PodsListed(l) && Steps(env, s0, ops + E.ApplyPods(l), Abs())
    {
      left := prior;
      ghost var all := ops;
      for i := 0 to |l|
        invariant Valid() && fresh(Repr() - old(Repr()))
        invariant left == prior - E.PodsListed(l[..i])
        invariant all == ops + E.ApplyPods(l[..i]) && Steps(env, s0, all, Abs())
      {
        ghost var mid := Abs();
        left := left - {Id(l[i].ns, l[i].name)};
        var ok := ApplyPod(l[i]);
        StepsSnoc(env, s0, all, mid, Op.ApplyPod(l[i]), Abs());
        PodListedNext(ops, l, i);
        all := all + [Op.ApplyPod(l[i])];
      }
      assert l[..|l|] == l;
    }

    /** Removes some pods in any order. */
    method RmPods(ids: set<Id>, ghost s0: State, ghost ops: seq<Op>) returns (ghost gone: seq<Id>)
      requires Valid() && Steps(env, s0, ops, Abs())
      modifies Repr()
      ensures Valid() && fresh(Repr() - old(Repr()))
      ensures Enumerates(gone, ids) && Steps(env, s0, ops + E.RmPods(gone), Abs())
    {
      gone := [];
      ghost var all := ops;
      var todo := ids;
      while todo != {}
        invariant Valid() && fresh(Repr() - old(Repr()))
        invariant E.Walked(gone, ids, todo)
        invariant all == ops + E.RmPods(gone) && Steps(env, s0, all, Abs())
        decreases |todo|
      {
        var id :| id in todo;
        ghost var mid := Abs();
        var ok := RmPod(id.ns, id.name);
        StepsSnoc(env, s0, all, mid, Op.RmPod(id.ns, id.name), Abs());
        PodGoneNext(ops, gone, id);
        E.WalkedNext(gone, ids, todo, id);
        gone, todo, all := gone + [id], todo - {id}, all + [Op.RmPod(id.ns, id.name)];
      }
    }

    method NodeKeys() returns (known: set<string>)
      ensures known == set m | m in nodes.index && nodes.index[m].Known?
    {
      known := set m | m in nodes.index && nodes.index[m].Known?;
    }

    /** Applies the listed nodes that are not known yet and forgets those that are not listed. */
    method ResetNodes(l: seq<Resources.Node>) returns (ghost gone: seq<string>)
      requires Valid()
      modifies Repr()
      ensures Valid() && fresh(Repr() - old(Repr()))
      ensures Enumerates(gone, E.KnownNames(old(Abs())) - E.NodesListed(l))
      ensures Steps(env, old(Abs()), E.ApplyNodes(l) + E.RemoveNodes(gone), Abs())
    {
      ghost var s0 := Abs();
      var prior := NodeKeys();
      prior := ApplyNodes(l, prior);
      gone := RemoveNodes(prior, s0, E.ApplyNodes(l));
    }

    /** Applies a list of nodes in its order; one that was known before is only crossed out. */
    method ApplyNodes(l: seq<Resources.Node>, prior: set<string>) returns (left: set<string>)
      requires Valid() && forall m | m in prior :: IsKnown(nodes.index, m)
      modifies Repr()
      ensures Valid() && fresh(Repr() - old(Repr()))
      ensures left == prior - E.NodesListed(l) && Steps(env, old(Abs()), E.ApplyNodes(l), Abs())
    {
      left := prior;
      ghost var s0, all := Abs(), E.ApplyNodes([]);
      for i := 0 to |l|
        invariant Valid() && fresh(Repr() - old(Repr()))
        invariant left == prior - E.NodesListed(l[..i]) && StillKnown(prior, Abs())
        invariant all == E.ApplyNodes(l[..i]) && Steps(env, s0, all, Abs())
      {
        ghost var mid := Abs();
        if l[i].name in left {
          left := left - {l[i].name};
        } else {
          var ok := ApplyNode(l[i]);
        }
        NodeListedNext(env, s0, all, prior, l, i, mid, Abs());
        all := all + [Op.ApplyNode(l[i])];
      }
      assert l[..|l|] == l;
    }

    /** Forgets some nodes in any order. */
    method RemoveNodes(names: set<string>, ghost s0: State, ghost ops: seq<Op>) returns (ghost gone: seq<string>)
      requires Valid() && Steps(env, s0, ops, Abs())
      modifies Repr()
      ensures Valid() && fresh(Repr() - old(Repr()))
      ensures Enumerates(gone, names) && Steps(env, s0, ops + E.RemoveNodes(gone), Abs())
    {
      gone := [];
      ghost var all := ops;
      var todo := names;
      while todo != {}
        invariant Valid() && fresh(Repr() - old(Repr()))
        invariant E.Walked(gone, names, todo)
        invariant all == ops + E.RemoveNodes(gone) && Steps(env, s0, all, Abs())
        decreases |todo|
      {
        var m :| m in todo;
        ghost var mid := Abs();
        var ok := DeleteNode(m);
        StepsSnoc(env, s0, all, mid, Op.RemoveNode(m), Abs());
        NodeGoneNext(ops, gone, m);
        E.WalkedNext(gone, names, todo, m);
        gone, todo, all := gone + [m], todo - {m}, all + [Op.RemoveNode(m)];
      }
    }

    // --- Events and discovery -----------------------------------------------------------

    /** Handles a single object's event. */
    method HandleOne(ev: E.Event) returns (ok: bool)
      requires Valid() && E.SingleOp(ev).Some?
      modifies Repr()
      ensures Valid() && fresh(Repr() - old(Repr()))
      ensures OpStep(env, old(Abs()), E.SingleOp(ev).value, Abs())
    {
      ok := true;
      match ev {
        case NodeApplied(node) => ok := ApplyNode(node);
        case NodeDeleted(name) => ok := DeleteNode(name);
        case PodApplied(pod) => ok := ApplyPod(pod);
        case PodDeleted(ns, name) => ok := RmPod(ns, name);
        case ServerApplied(srv) => ApplyServer(srv);
        case ServerDeleted(ns, name) => ok := RmServer(ns, name);
        case AuthzApplied(a) => ok := ApplyAuthz(a);
        case AuthzDeleted(ns, name) => DeleteAuthz(ns, name);
      }
    }

    /** Handles an event: what it does is what the event's operations do. */
    method Handle(ev: E.Event) returns (ghost ops: seq<Op>)
      requires Valid()
      modifies Repr()
      ensures Valid() && fresh(Repr() - old(Repr()))
      ensures E.EventOps(old(Abs()), ev, ops) && Steps(env, old(Abs()), ops, Abs())
    {
      ghost var s0 := Abs();
      match ev {
        case NodesRestarted(l) =>
          ghost var gone := ResetNodes(l);
          ops := E.RestartOps(ev, [], gone);
        case PodsRestarted(l) =>
          ghost var gone := ResetPods(l);
          ops := E.RestartOps(ev, gone, []);
        case ServersRestarted(l) =>
          ghost var gone := ResetServers(l);
          ops := E.RestartOps(ev, gone, []);
        case AuthzsRestarted(l) =>
          ghost var gone := ResetAuthzs(l);
          ops := E.RestartOps(ev, gone, []);
        case _ =>
          var ok := HandleOne(ev);
          ops := [E.SingleOp(ev).value];
          OneStep(env, s0, ops[0], Abs());
      }
    }

    /** Handles a sequence of events. */
    method Run(evs: seq<E.Event>) returns (ghost ops: seq<Op>)
      requires Valid()
      modifies Repr()
      ensures Valid() && fresh(Repr() - old(Repr()))
      ensures E.EventsRun(env, old(Abs()), evs, ops, Abs())
    {
      ops := [];
      for i := 0 to |evs|
        invariant Valid() && fresh(Repr() - old(Repr()))
        invariant E.EventsRun(env, old(Abs()), evs[..i], ops, Abs())
      {
        ghost var mid := Abs();
        ghost var more := Handle(evs[i]);
        E.EventsRunSnoc(env, old(Abs()), evs[..i], ops, mid, evs[i], more, Abs());
        assert evs[..i + 1] == evs[..i] + [evs[i]];
        ops := ops + more;
      }
      assert evs[..|evs|] == evs;
    }

    /** `Reader::get_inbound_server`: the current policy of a port, through both of its channels. */
    method Get(ns: string, pod: string, port: u16) returns (r: Option<InboundServer>)
      requires Valid()
      ensures r == Served(Abs(), ns, pod, port)
      ensures r.Some? <==> lookups.Find(ns, pod, port).Some?
    {
      var rx := lookups.Find(ns, pod, port);
      if rx.None? {
        return None;
      }
      FoundIsConnected(env, Abs(), ns, pod, port);
      var chan := channels.Follow(rx.value.rx);
      var inner := channels.Borrow(chan);
      return Some(MkServer(rx.value.kubelet, inner));
    }
  }
}
