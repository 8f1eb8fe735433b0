/** The index and a stream together. The index handles one operation at a time; whatever the operation
    changes in the store is sent channel by channel, in any order, while the stream takes its own steps
    in between. A channel is its history of values, and a send, a new channel and a dropped sender are
    the writer's steps in `Stream`. */
module Joint {
  import opened Base
  import opened Net
  import opened Policy
  import Resources
  import opened Watch
  import opened Stream
  import opened IndexState
  import opened Invariant

  // --- The system ------------------------------------------------------------------------------

  /** What an operation has to do on one channel: give an inner channel its value or an outer one its
      target, creating it if need be, or drop the sender of either. */
  datatype Effect = Tell(c: ChanId) | Point(o: OuterId) | Retire(c: ChanId) | Cut(o: OuterId)

  /** The operations begun so far, the index after them, what is still to be done on the channels, the
      channels themselves, and the stream if there is one, with the kubelet addresses it was given. */
  datatype System = System(
    ops: seq<Op>,
    now: State,
    todo: set<Effect>,
    inner: map<ChanId, Cell<InboundServer>>,
    outer: map<OuterId, Cell<ChanId>>,
    reader: Option<Reader>,
    kubelet: seq<IpAddr>)

  function Fresh(env: Env): System {
    var s := Init(env);
    System([], s, {}, map c | c in s.store.inner :: Cell([s.store.inner[c]], true), map[], None, [])
  }

  /** What the lookup map has for the port that an outer channel belongs to. */
  function EntryOf(s: State, o: OuterId): Option<Rx> {
    if o.ns in s.lookups && o.pod in s.lookups[o.ns] && o.port in s.lookups[o.ns][o.pod]
        && s.lookups[o.ns][o.pod][o.port].rx == o
    then Some(s.lookups[o.ns][o.pod][o.port])
    else None
  }

  /** The channel of an indexed server. */
  predicate HasServer(s: State, c: ChanId) {
    && c.ServerChan? && c.ns in s.namespaces && c.name in s.namespaces[c.ns].servers
    && s.namespaces[c.ns].servers[c.name].chan == c
  }

  /** The difference between two states of the index, channel by channel. */
  function Effects(s: State, s': State): set<Effect> {
    (set c | c in s'.store.inner && !(c in s.store.inner && s'.store.inner[c] == s.store.inner[c]) :: Tell(c))
    + (set o | o in s'.store.outer && !(o in s.store.outer && s'.store.outer[o] == s.store.outer[o]) :: Point(o))
    + (set c | c in s.store.inner && HasServer(s, c) && !HasServer(s', c) :: Retire(c))
    + (set o | o in s.store.outer && o !in s'.store.outer :: Cut(o))
  }

  function SentTo<T>(cells: map<ChanId, Cell<T>>, c: ChanId, v: T): map<ChanId, Cell<T>> {
    cells[c := if c in cells then Send(cells[c], v) else Cell([v], true)]
  }

  /** One can only send while the sender is there, and only a channel that exists can be pointed to. */
  predicate Enabled(j: System, e: Effect) {
    match e
    case Tell(c) => c in j.now.store.inner && (c in j.inner ==> j.inner[c].open)
    case Point(o) =>
      o in j.now.store.outer && j.now.store.outer[o] in j.inner && (o in j.outer ==> j.outer[o].open)
    case Retire(c) => c in j.inner
    case Cut(o) => o in j.outer
  }

  function Done(j: System, e: Effect): System
    requires Enabled(j, e)
  {
    var rest := j.(todo := j.todo - {e});
    match e
    case Tell(c) => rest.(inner := SentTo(j.inner, c, j.now.store.inner[c]))
    case Point(o) =>
      var target := j.now.store.outer[o];
      rest.(outer := j.outer[o := if o in j.outer then Send(j.outer[o], target) else Cell([target], true)])
    case Retire(c) => rest.(inner := j.inner[c := j.inner[c].(open := false)])
    case Cut(o) => rest.(outer := j.outer[o := j.outer[o].(open := false)])
  }

  /** The channels as a stream of port `o` sees them. */
  function WorldAt(j: System, o: OuterId): World
    requires o in j.outer
  {
    World(j.inner, j.outer[o])
  }

  function StreamAt(j: System, o: OuterId): Config
    requires o in j.outer && j.reader.Some?
  {
    Config(WorldAt(j, o), j.reader.value)
  }

  /** An operation begins when the one before is done; a channel may also be sent once more what it
      holds; the stream is made from the port's entry in the lookup map and reads when it likes. */
  datatype Move =
    | Begin(op: Op, next: State)
    | Do(e: Effect)
    | TellAgain(c: ChanId)
    | PointAgain(o: OuterId)
    | Join(innerSeen: nat, any: InboundServer)
    | Read(step: Step)

  ghost predicate Moves(env: Env, o: OuterId, j: System, m: Move, j': System) {
    match m
    case Begin(op, s') =>
      && j.todo == {} && OpStep(env, j.now, op, s')
      && j' == j.(ops := j.ops + [op], now := s', todo := Effects(j.now, s'))
    case Do(e) => e in j.todo && Enabled(j, e) && j' == Done(j, e)
    case TellAgain(c) =>
      && c in j.inner && j.inner[c].open && Live(j.inner[c])
      && j' == j.(inner := j.inner[c := Send(j.inner[c], Value(j.inner[c]))])
    case PointAgain(p) =>
      && p in j.outer && j.outer[p].open && Live(j.outer[p])
      && j' == j.(outer := j.outer[p := Send(j.outer[p], Value(j.outer[p]))])
    case Join(seen, any) =>
      && j.reader.None? && EntryOf(j.now, o).Some? && o in j.outer && WorldOk(WorldAt(j, o))
      && j' == j.(reader := Some(Subscribe(WorldAt(j, o), seen, any)), kubelet := EntryOf(j.now, o).value.kubelet)
    case Read(step) =>
      && j.reader.Some? && o in j.outer && !ByWriter(step)
      && j'.reader.Some? && j' == j.(reader := j'.reader)
      && Next(StreamAt(j, o), step, Config(WorldAt(j, o), j'.reader.value))
  }

  /** A run of both, with a stream of port `o`. */
  ghost predicate Together(env: Env, o: OuterId, trace: seq<System>, moves: seq<Move>) {
    && |trace| == |moves| + 1
    && forall i | 0 <= i < |moves| :: Moves(env, o, trace[i], moves[i], trace[i + 1])
  }

  // --- What an operation does to the channels --------------------------------------------------------

  /** Entries of the lookup map are there as they were unless their channel is new. */
  ghost predicate EntriesKept(s: State, s': State) {
    forall o | EntryOf(s', o).Some? && o.serial < s.store.next :: EntryOf(s, o) == EntryOf(s', o)
  }

  /** Inner channels never vanish, only those of indexed servers change, none that lost its server
      gets one again, outer channels that appear are new, and so are those of new lookup entries. */
  ghost predicate Carries(s: State, s': State) {
    && s.store.inner.Keys <= s'.store.inner.Keys
    && s.store.next <= s'.store.next
    && (forall c | c in s'.store.inner ::
          (c in s.store.inner && s'.store.inner[c] == s.store.inner[c]) || HasServer(s', c))
    && (forall c | c in s.store.inner && HasServer(s', c) :: HasServer(s, c))
    && (forall o | o in s'.store.outer && o !in s.store.outer :: s.store.next <= o.serial)
    && EntriesKept(s, s')
  }

  /** What pods do: neither the servers nor their channels change. */
  ghost predicate PodsCarry(s: State, s': State) {
    && s'.store.inner == s.store.inner
    && s.store.next <= s'.store.next
    && (forall ns :: NsIn(s'.namespaces, ns).servers == NsIn(s.namespaces, ns).servers)
    && (forall o | o in s'.store.outer && o !in s.store.outer :: s.store.next <= o.serial)
    && EntriesKept(s, s')
  }

  lemma PodsCarryIsCarries(s: State, s': State)
    requires PodsCarry(s, s')
    ensures Carries(s, s')
  {
    forall c
      ensures HasServer(s', c) <==> HasServer(s, c)
    {
      if c.ServerChan? {
        assert NsIn(s'.namespaces, c.ns).servers == NsIn(s.namespaces, c.ns).servers;
      }
    }
  }

  lemma IndexKeepsEntries(env: Env, s: State, pod: Resources.Pod, ips: seq<IpAddr>, s': State)
    requires PodIndexed(env, s, pod, ips, s')
    ensures EntriesKept(s, s')
  {
    var e := s'.namespaces[pod.ns].pods[pod.name];
    forall o | EntryOf(s', o).Some? && o.ns == pod.ns && o.pod == pod.name
      ensures s.store.next <= o.serial
    {
      assert FreshPort(pod.ns, pod.name, o.port, NsIn(s.namespaces, pod.ns).servers, e, s.store, s'.store);
    }
  }

  lemma IndexCarries(env: Env, s: State, pod: Resources.Pod, ips: seq<IpAddr>, s': State)
    requires PodIndexed(env, s, pod, ips, s')
    ensures PodsCarry(s, s')
  {
    IndexKeepsEntries(env, s, pod, ips, s');
    var e := s'.namespaces[pod.ns].pods[pod.name];
    forall o | o in s'.store.outer && o !in s.store.outer
      ensures s.store.next <= o.serial
    {
      var p :| p in e.byPort && e.byPort[p].tx == o;
      assert FreshPort(pod.ns, pod.name, p, NsIn(s.namespaces, pod.ns).servers, e, s.store, s'.store);
    }
  }

  lemma RelabelCarries(s: State, pod: Resources.Pod, s': State)
    requires PodRelabeled(s, pod, s')
    ensures PodsCarry(s, s')
  {
  }

  lemma ApplyPodCarries(env: Env, s0: State, pod: Resources.Pod, s': State)
    requires PodApplied(env, s0, pod, s')
    ensures PodsCarry(s0, s')
  {
    var s := EnsureNs(s0, pod.ns);
    var n := s.namespaces[pod.ns];
    var m := Resources.NodeName(pod);
    if pod.name in n.pods && n.pods[pod.name].labels != pod.labels {
      RelabelCarries(s, pod, s');
    } else if pod.name !in n.pods && m.Some? && IsKnown(s.nodes, m.value) {
      IndexCarries(env, s, pod, s.nodes[m.value].ips, s');
    }
    assert PodsCarry(s, s');
    EnsureNsPodsCarry(s0, pod.ns, s');
  }

  lemma EnsureNsPodsCarry(s: State, ns: string, s': State)
    requires PodsCarry(EnsureNs(s, ns), s')
    ensures PodsCarry(s, s')
  {
    assert forall o :: EntryOf(EnsureNs(s, ns), o) == EntryOf(s, o);
  }

  lemma {:induction false} ApplyPodsCarries(env: Env, s: State, pods: seq<Resources.Pod>, s': State)
    requires PodsApplied(env, s, pods, s')
    ensures PodsCarry(s, s')
  {
    if pods != [] {
      var before, last := pods[..|pods| - 1], pods[|pods| - 1];
      assert PodsAppliedThen(env, s, before, last, s');
      var mid :| PodsApplied(env, s, before, mid) && PodApplied(env, mid, last, s');
      ApplyPodsCarries(env, s, before, mid);
      ApplyPodCarries(env, mid, last, s');
    }
  }

  lemma ApplyNodeCarries(env: Env, s: State, node: Resources.Node, s': State)
    requires NodeApplied(env, s, node, s')
    ensures PodsCarry(s, s')
  {
    if !IsKnown(s.nodes, node.name) && Resources.KubeletIps(node).Ok? {
      var nodes := s.nodes[node.name := Known(Resources.KubeletIps(node).value)];
      var pods, order :| Drains(s.nodes, node.name, pods, order) && PodsApplied(env, s.(nodes := nodes), pods, s');
      ApplyPodsCarries(env, s.(nodes := nodes), pods, s');
    }
  }

  lemma CreateCarries(s: State, srv: Resources.Server, s': State)
    requires srv.ns in s.namespaces && srv.name !in s.namespaces[srv.ns].servers && ServerApplied(s, srv, s')
    requires forall c | c in s.store.inner && c.ServerChan? :: c.serial < s.store.next
    ensures Carries(s, s')
  {
    var n, n' := s.namespaces[srv.ns], s'.namespaces[srv.ns];
    forall c
      ensures HasServer(s', c) <==> HasServer(s, c) || c == ServerChan(srv.ns, srv.name, s.store.next)
    {
    }
  }

  lemma UpdateCarries(s: State, srv: Resources.Server, s': State)
    requires srv.ns in s.namespaces && srv.name in s.namespaces[srv.ns].servers && ServerApplied(s, srv, s')
    ensures Carries(s, s')
  {
    var n, n' := s.namespaces[srv.ns], s'.namespaces[srv.ns];
    RepublishCarries(s, srv.ns, n'.servers, n.authzs);
    forall c
      ensures HasServer(s', c) <==> HasServer(s, c)
    {
    }
  }

  lemma ApplyServerCarries(env: Env, s0: State, srv: Resources.Server, s': State)
    requires Inv(env, s0) && ServerApplied(s0, srv, s')
    ensures Carries(s0, s')
  {
    var s := EnsureNs(s0, srv.ns);
    assert ServerApplied(s, srv, s');
    assert StoreOk(env, s.store);
    if srv.name in s.namespaces[srv.ns].servers {
      UpdateCarries(s, srv, s');
    } else {
      CreateCarries(s, srv, s');
    }
    EnsureNsCarries(s0, srv.ns, s');
  }

  lemma EnsureNsCarries(s: State, ns: string, s': State)
    requires Carries(EnsureNs(s, ns), s')
    ensures Carries(s, s')
  {
    assert forall c :: HasServer(EnsureNs(s, ns), c) <==> HasServer(s, c);
  }

  lemma ApplyAuthzCarries(env: Env, s: State, a: Resources.ServerAuthorization)
    ensures Carries(s, AuthzApplied(env, s, a))
  {
    var s1 := EnsureNs(s, a.ns);
    var n, z := s1.namespaces[a.ns], Resources.MkAuthz(a, env.identityDomain);
    if z.Ok? && !(a.name in n.authzs && n.authzs[a.name] == z.value) {
      RepublishCarries(s1, a.ns, WithAuthz(n.servers, a.name, z.value), n.authzs[a.name := z.value]);
    }
    EnsureNsCarries(s, a.ns, AuthzApplied(env, s, a));
  }

  lemma DeleteAuthzCarries(s: State, ns: string, name: string)
    ensures Carries(s, AuthzDeleted(s, ns, name))
  {
    if ns in s.namespaces {
      var n := s.namespaces[ns];
      RepublishCarries(s, ns, WithoutAuthz(n.servers, name), n.authzs - {name});
    }
  }

  lemma RepublishCarries(s: State, ns: string, servers: map<string, ServerEntry>, authzs: map<string, Authz>)
    requires ns in s.namespaces && servers.Keys == s.namespaces[ns].servers.Keys
    requires forall x | x in servers :: servers[x].chan == s.namespaces[ns].servers[x].chan
    ensures Carries(s, s.(namespaces := s.namespaces[ns := Ns(s.namespaces[ns].pods, servers, authzs)],
                          store := s.store.(inner := Republish(s.store.inner, ns, servers))))
  {
  }

  lemma RmServerCarries(s: State, ns: string, name: string)
    ensures Carries(s, ServerRemoved(s, ns, name))
  {
  }

  lemma RmPodCarries(s: State, ns: string, name: string, s': State)
    requires PodRemoved(s, ns, name, s')
    ensures PodsCarry(s, s')
  {
  }

  lemma OpCarries(env: Env, s: State, op: Op, s': State)
    requires Inv(env, s) && OpStep(env, s, op, s')
    ensures Carries(s, s')
  {
    match op {
      case ApplyAuthz(a) => ApplyAuthzCarries(env, s, a);
      case DeleteAuthz(ns, name) => DeleteAuthzCarries(s, ns, name);
      case ApplyServer(srv) => ApplyServerCarries(env, s, srv, s');
      case RmServer(ns, name) => RmServerCarries(s, ns, name);
      case RmPod(ns, name) =>
        RmPodCarries(s, ns, name, s');
        PodsCarryIsCarries(s, s');
      case ApplyPod(pod) =>
        ApplyPodCarries(env, s, pod, s');
        PodsCarryIsCarries(s, s');
      case ApplyNode(node) =>
        ApplyNodeCarries(env, s, node, s');
        PodsCarryIsCarries(s, s');
      case _ =>
    }
  }

  /** Outer channels point to inner channels that exist. */
  ghost predicate Pointed(store: Store) {
    forall o | o in store.outer :: store.outer[o] in store.inner
  }

  /** In an index in order this need only be asked of the channels that no port has. */
  lemma OwnedArePointed(env: Env, s: State, ns: string)
    requires Inv(env, s) && ns in s.namespaces
    requires forall o | o in s.store.outer && !OneOwns(ns, s.namespaces[ns].pods, o) :: s.store.outer[o] in s.store.inner
    ensures Pointed(s.store)
  {
    var n := s.namespaces[ns];
    forall o | o in s.store.outer
      ensures s.store.outer[o] in s.store.inner
    {
      if OneOwns(ns, n.pods, o) {
        var port := n.pods[o.pod].byPort[o.port];
        assert NsOk(ns, n, s.store) && PodOk(ns, o.pod, n.pods[o.pod], n.servers, s.store.outer);
        assert PortOk(ns, o.pod, o.port, port, n.pods[o.pod].defaultRx, n.servers, s.store.outer);
        if port.serverName.Some? {
          assert ServerOk(ns, port.serverName.value, n.servers[port.serverName.value], n.authzs, s.store.inner);
        } else {
          assert DefaultChan(n.pods[o.pod].defaultRx.mode) in s.store.inner;
        }
      }
    }
  }

  /** Nothing has been done to the inner channels, nor to an outer one that no port of the namespace has. */
  ghost predicate OnlyOwned(s: State, ns: string, s': State) {
    && ns in s'.namespaces
    && s.store.inner.Keys <= s'.store.inner.Keys
    && forall o | o in s'.store.outer && !OneOwns(ns, s'.namespaces[ns].pods, o) ::
         o in s.store.outer && s'.store.outer[o] == s.store.outer[o]
  }

  lemma OnlyOwnedPoints(env: Env, s: State, ns: string, s': State)
    requires Inv(env, s') && Pointed(s.store) && OnlyOwned(s, ns, s')
    ensures Pointed(s'.store)
  {
    OwnedArePointed(env, s', ns);
  }

  lemma IndexOnlyOwned(env: Env, s: State, pod: Resources.Pod, ips: seq<IpAddr>, s': State)
    requires PodIndexed(env, s, pod, ips, s')
    ensures OnlyOwned(s, pod.ns, s')
  {
    var e := s'.namespaces[pod.ns].pods[pod.name];
    forall o | o in s'.store.outer && o !in s.store.outer
      ensures OneOwns(pod.ns, s'.namespaces[pod.ns].pods, o)
    {
      var p :| p in e.byPort && e.byPort[p].tx == o;
      assert FreshPort(pod.ns, pod.name, p, NsIn(s.namespaces, pod.ns).servers, e, s.store, s'.store);
    }
  }

  lemma RelabelOnlyOwned(s: State, pod: Resources.Pod, s': State)
    requires PodRelabeled(s, pod, s')
    ensures OnlyOwned(s, pod.ns, s')
  {
  }

  lemma ApplyPodPoints(env: Env, s0: State, pod: Resources.Pod, s': State)
    requires Inv(env, s0) && Pointed(s0.store) && PodApplied(env, s0, pod, s')
    ensures Pointed(s'.store)
  {
    ApplyPodInv(env, s0, pod, s');
    var s := EnsureNs(s0, pod.ns);
    var n, m := s.namespaces[pod.ns], Resources.NodeName(pod);
    if pod.name in n.pods && n.pods[pod.name].labels != pod.labels {
      RelabelOnlyOwned(s, pod, s');
      OnlyOwnedPoints(env, s, pod.ns, s');
    } else if pod.name !in n.pods && m.Some? && IsKnown(s.nodes, m.value) {
      IndexOnlyOwned(env, s, pod, s.nodes[m.value].ips, s');
      OnlyOwnedPoints(env, s, pod.ns, s');
    }
  }

  lemma {:induction false} ApplyPodsPoints(env: Env, s: State, pods: seq<Resources.Pod>, s': State)
    requires Inv(env, s) && Pointed(s.store) && PodsApplied(env, s, pods, s')
    ensures Pointed(s'.store)
  {
    if pods != [] {
      var before, last := pods[..|pods| - 1], pods[|pods| - 1];
      assert PodsAppliedThen(env, s, before, last, s');
      var mid :| PodsApplied(env, s, before, mid) && PodApplied(env, mid, last, s');
      ApplyPodsPoints(env, s, before, mid);
      PodsAppliedInv(env, s, before, mid);
      ApplyPodPoints(env, mid, last, s');
    }
  }

  lemma ApplyNodePoints(env: Env, s: State, node: Resources.Node, s': State)
    requires Inv(env, s) && Pointed(s.store) && NodeApplied(env, s, node, s')
    ensures Pointed(s'.store)
  {
    var r := Resources.KubeletIps(node);
    if !IsKnown(s.nodes, node.name) && r.Ok? {
      Resources.KubeletIpsMeaning(node);
      var nodes := s.nodes[node.name := Known(r.value)];
      var pods, order :| Drains(s.nodes, node.name, pods, order) && PodsApplied(env, s.(nodes := nodes), pods, s');
      NodesReplaced(env, s, nodes);
      ApplyPodsPoints(env, s.(nodes := nodes), pods, s');
    }
  }

  lemma ApplyServerPoints(env: Env, s: State, srv: Resources.Server, s': State)
    requires Inv(env, s') && Pointed(s.store) && ServerApplied(s, srv, s')
    ensures Pointed(s'.store)
  {
    assert OnlyOwned(s, srv.ns, s') by {
      var pods, pods' := NsIn(s.namespaces, srv.ns).pods, s'.namespaces[srv.ns].pods;
      forall o | OneOwns(srv.ns, pods, o)
        ensures OneOwns(srv.ns, pods', o)
      {
        assert PodLinked(s'.namespaces[srv.ns].servers, pods[o.pod], pods'[o.pod], s.store.outer, s'.store.outer);
      }
    }
    OnlyOwnedPoints(env, s, srv.ns, s');
  }

  lemma RmServerPoints(env: Env, s: State, ns: string, name: string)
    requires Inv(env, ServerRemoved(s, ns, name)) && Pointed(s.store)
    ensures Pointed(ServerRemoved(s, ns, name).store)
  {
    if ns in s.namespaces && name in s.namespaces[ns].servers {
      OnlyOwnedPoints(env, s, ns, ServerRemoved(s, ns, name));
    }
  }

  lemma OpPoints(env: Env, s: State, op: Op, s': State)
    requires Inv(env, s) && Pointed(s.store) && OpStep(env, s, op, s')
    ensures Pointed(s'.store)
  {
    OpInv(env, s, op, s');
    match op {
      case ApplyServer(srv) => ApplyServerPoints(env, s, srv, s');
      case RmServer(ns, name) => RmServerPoints(env, s, ns, name);
      case ApplyPod(pod) => ApplyPodPoints(env, s, pod, s');
      case ApplyNode(node) => ApplyNodePoints(env, s, node, s');
      case _ =>
    }
  }
}
