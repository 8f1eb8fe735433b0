/** The pod index of a namespace (`controller/k8s/index/src/pod.rs`): which ports a pod has and which
    server each is bound to. */
module Pods {
  import opened Base
  import opened Labels
  import opened Lookup
  import opened Net
  import opened Nodes
  import opened Policy
  import opened Ports
  import Resources
  import opened Servers
  import opened Watch
  import opened IndexState

  // --- Linking, as far as it has got ---------------------------------------------------

  /** A pod's ports send on their own channels, each of which has a receiver. */
  ghost predicate Connected(ns: string, name: string, pod: PodEntry, outer: Outer) {
    forall p | p in pod.byPort :: Owns(ns, name, pod, pod.byPort[p].tx) && pod.byPort[p].tx.port == p
        && pod.byPort[p].tx in outer
  }

  /** A port after the servers in `claims` have claimed it: the first of them has it, unless it was
      bound before. */
  predicate PortClaimed(servers: map<string, ServerEntry>, claims: set<string>, before: PortEntry, after: PortEntry,
                        wasAt: ChanId, nowAt: ChanId)
    requires claims <= servers.Keys
  {
    && after.tx == before.tx
    && (claims == {} || before.serverName.Some? ==> after == before && nowAt == wasAt)
    && (claims != {} && before.serverName.None? ==>
          after.serverName.Some? && after.serverName.value in claims && nowAt == servers[after.serverName.value].chan)
  }

  ghost predicate Linking(servers: map<string, ServerEntry>, claimed: map<u16, set<string>>, before: PodEntry,
                          after: PodEntry, outer: Outer, outer': Outer)
  {
    && after == before.(byPort := after.byPort)
    && after.byPort.Keys == before.byPort.Keys == claimed.Keys
    && forall p | p in before.byPort ::
         && before.byPort[p].tx in outer && before.byPort[p].tx in outer'
         && claimed[p] <= servers.Keys
         && PortClaimed(servers, claimed[p], before.byPort[p], after.byPort[p], outer[before.byPort[p].tx],
             outer'[before.byPort[p].tx])
  }

  /** Only the channels of one pod's ports have been sent on. */
  ghost predicate SentBy(ns: string, name: string, pod: PodEntry, outer: Outer, outer': Outer) {
    && outer'.Keys == outer.Keys
    && forall o | o in outer && !Owns(ns, name, pod, o) :: outer'[o] == outer[o]
  }

  ghost predicate Progress(ns: string, name: string, servers: map<string, ServerEntry>,
                           claimed: map<u16, set<string>>, before: PodEntry, after: PodEntry, outer: Outer,
                           outer': Outer)
  {
    && Connected(ns, name, before, outer)
    && Linking(servers, claimed, before, after, outer, outer')
    && SentBy(ns, name, before, outer, outer')
  }

  function Claim(claimed: map<u16, set<string>>, p: u16, n: string): map<u16, set<string>> {
    if p in claimed then claimed[p := claimed[p] + {n}] else claimed
  }

  function ClaimAll(claimed: map<u16, set<string>>, m: ServerMeta, pod: PodEntry, n: string): map<u16, set<string>> {
    map p | p in claimed :: claimed[p] + if SelectsPort(m, pod.labels, pod.byName, p) then {n} else {}
  }

  /** What the servers that are not in `todo` claim. */
  function ClaimsSoFar(servers: map<string, ServerEntry>, pod: PodEntry, todo: set<string>): map<u16, set<string>> {
    map p | p in pod.byPort :: Claims(servers, pod.labels, pod.byName, p) - todo
  }

  lemma ClaimsSoFarNext(servers: map<string, ServerEntry>, pod: PodEntry, todo: set<string>, n: string)
    requires n in todo && n in servers
    ensures var m := servers[n].meta;
            ClaimsSoFar(servers, pod, todo - {n}) ==
              if Matches(m.podSelector, pod.labels) then ClaimAll(ClaimsSoFar(servers, pod, todo), m, pod, n)
              else ClaimsSoFar(servers, pod, todo)
  {
    var m := servers[n].meta;
    var was, now := ClaimsSoFar(servers, pod, todo), ClaimsSoFar(servers, pod, todo - {n});
    forall p | p in pod.byPort
      ensures now[p] == was[p] + if SelectsPort(m, pod.labels, pod.byName, p) then {n} else {}
    {
      OneMore(Claims(servers, pod.labels, pod.byName, p), todo, n);
    }
    if Matches(m.podSelector, pod.labels) {
      assert now == ClaimAll(was, m, pod, n);
    } else {
      assert forall p | p in pod.byPort :: now[p] == was[p] + {} == was[p];
    }
  }

  lemma OneMore(s: set<string>, todo: set<string>, n: string)
    requires n in todo
    ensures s - (todo - {n}) == (s - todo) + if n in s then {n} else {}
  {
  }

  /** The ports that a port reference selects. */
  function CollectPort(pod: PodEntry, port: Resources.PortRef): Option<seq<u16>> {
    match port
    case Number(n) => Some([n])
    case Named(x) => if x in pod.byName then Some(pod.byName[x]) else None
  }

  /** What a server claims by naming some ports. */
  function ClaimSome(claimed: map<u16, set<string>>, ports: seq<u16>, n: string): map<u16, set<string>> {
    map p | p in claimed :: claimed[p] + if p in ports then {n} else {}
  }

  lemma ClaimSomeNext(claimed: map<u16, set<string>>, ports: seq<u16>, i: nat, n: string)
    requires i < |ports|
    ensures ClaimSome(claimed, ports[..i + 1], n) == Claim(ClaimSome(claimed, ports[..i], n), ports[i], n)
  {
    assert ports[..i + 1] == ports[..i] + [ports[i]];
    var now, goal := ClaimSome(claimed, ports[..i + 1], n), Claim(ClaimSome(claimed, ports[..i], n), ports[i], n);
    forall p | p in claimed
      ensures now[p] == goal[p]
    {
    }
    assert now == goal;
  }

  lemma ClaimNone(claimed: map<u16, set<string>>, n: string)
    ensures ClaimSome(claimed, [], n) == claimed
  {
    assert forall p | p in claimed :: claimed[p] + {} == claimed[p];
  }

  /** The ports a reference collects are those of the pod that the server selects. */
  lemma ClaimSelected(claimed: map<u16, set<string>>, m: ServerMeta, pod: PodEntry, n: string)
    requires Matches(m.podSelector, pod.labels)
    ensures var ports := CollectPort(pod, m.port);
            ClaimAll(claimed, m, pod, n) == if ports.Some? then ClaimSome(claimed, ports.value, n) else claimed
  {
    var ports := CollectPort(pod, m.port);
    forall p
      ensures SelectsPort(m, pod.labels, pod.byName, p) <==> ports.Some? && p in ports.value
    {
    }
    if ports.None? {
      assert forall p | p in claimed :: claimed[p] + {} == claimed[p];
    }
  }

  lemma NothingClaimed(servers: map<string, ServerEntry>, pod: PodEntry)
    ensures ClaimsSoFar(servers, pod, servers.Keys) == NoClaims(pod)
  {
    assert forall p | p in pod.byPort :: Claims(servers, pod.labels, pod.byName, p) - servers.Keys == {};
  }

  function NoClaims(pod: PodEntry): map<u16, set<string>> {
    map p | p in pod.byPort :: {}
  }

  function Unclaimed(claimed: map<u16, set<string>>): set<u16> {
    set p | p in claimed && claimed[p] == {}
  }

  function Set(ports: seq<u16>): set<u16> {
    set p | p in ports
  }

  lemma SetNext(ports: seq<u16>, i: nat)
    requires i < |ports|
    ensures Set(ports[..i + 1]) == Set(ports[..i]) + {ports[i]}
  {
  }

  lemma ClaimLeaves(claimed: map<u16, set<string>>, ports: seq<u16>, n: string)
    ensures Unclaimed(ClaimSome(claimed, ports, n)) == Unclaimed(claimed) - Set(ports)
  {
  }

  lemma LinkingStarts(ns: string, name: string, servers: map<string, ServerEntry>, pod: PodEntry, outer: Outer)
    requires Connected(ns, name, pod, outer)
    ensures Linking(servers, NoClaims(pod), pod, pod, outer, outer)
  {
  }

  /** One more claim on one port. */
  lemma LinkingNext(ns: string, name: string, servers: map<string, ServerEntry>, claimed: map<u16, set<string>>,
                    before: PodEntry, after: PodEntry, outer: Outer, outer': Outer, p: u16, n: string)
    requires Connected(ns, name, before, outer) && Linking(servers, claimed, before, after, outer, outer')
    requires n in servers && p in after.byPort
    ensures var port, now := after.byPort[p], claimed[p := claimed[p] + {n}];
            if port.serverName.Some? then Linking(servers, now, before, after, outer, outer')
            else Linking(servers, now, before, after.(byPort := after.byPort[p := port.(serverName := Some(n))]), outer,
                         outer'[port.tx := servers[n].chan])
  {
  }

  /** Every claim has been made and the ports without one are being cleared. */
  ghost predicate Clearing(servers: map<string, ServerEntry>, remaining: set<u16>, before: PodEntry, after: PodEntry,
                           outer: Outer, outer': Outer)
  {
    && after == before.(byPort := after.byPort)
    && after.byPort.Keys == before.byPort.Keys
    && forall p | p in before.byPort ::
         var claims := Claims(servers, before.labels, before.byName, p);
         && before.byPort[p].tx in outer && before.byPort[p].tx in outer'
         && after.byPort[p].tx == before.byPort[p].tx
         && (p in remaining ==> claims == {})
         && (p !in remaining ==>
               PortLinked(servers, claims, before.defaultRx, before.byPort[p], after.byPort[p],
                          outer[before.byPort[p].tx], outer'[before.byPort[p].tx]))
  }

  lemma ClearingStarts(servers: map<string, ServerEntry>, before: PodEntry, after: PodEntry, outer: Outer,
                       outer': Outer)
    requires Linking(servers, ClaimsSoFar(servers, before, {}), before, after, outer, outer')
    ensures Clearing(servers, Unclaimed(ClaimsSoFar(servers, before, {})), before, after, outer, outer')
  {
  }

  lemma ClearingNext(ns: string, name: string, servers: map<string, ServerEntry>, remaining: set<u16>,
                     before: PodEntry, after: PodEntry, outer: Outer, outer': Outer, p: u16)
    requires Connected(ns, name, before, outer) && Clearing(servers, remaining, before, after, outer, outer')
    requires p in remaining && p in after.byPort
    ensures var port := after.byPort[p];
            Clearing(servers, remaining - {p}, before, after.(byPort := after.byPort[p := port.(serverName := None)]),
                     outer, outer'[port.tx := before.defaultRx])
  {
  }

  // --- The ports a pod spec declares -----------------------------------------------------------

  /** Unbound ports with channels created since `store`. */
  ghost predicate FreshPorts(ns: string, name: string, decls: seq<Decl>, defaultRx: ChanId,
                             byPort: map<u16, PortEntry>, store: Store, store': Store)
  {
    && byPort.Keys == PortSet(decls)
    && store' == Store(store.inner, store'.outer, store'.next)
    && store.next <= store'.next
    && store'.outer.Keys == store.outer.Keys + TxsOf(byPort)
    && (forall o | o in store.outer :: store'.outer[o] == store.outer[o])
    && forall p | p in byPort ::
         && byPort[p] == PortEntry(None, OuterId(ns, name, p, byPort[p].tx.serial))
         && store.next <= byPort[p].tx.serial < store'.next
         && store'.outer[byPort[p].tx] == defaultRx
  }

  lemma PortSetNext(decls: seq<Decl>, d: Decl)
    ensures PortSet(decls + [d]) == PortSet(decls) + {d.port}
  {
  }

  lemma TxsNext(byPort: map<u16, PortEntry>, p: u16, port: PortEntry)
    requires p !in byPort
    ensures TxsOf(byPort[p := port]) == TxsOf(byPort) + {port.tx}
  {
    var more := byPort[p := port];
    assert more[p].tx == port.tx;
    assert forall q | q in byPort :: more[q].tx == byPort[q].tx;
  }

  lemma FreshPortsNext(ns: string, name: string, decls: seq<Decl>, d: Decl, defaultRx: ChanId,
                       byPort: map<u16, PortEntry>, store: Store, store': Store)
    requires FreshPorts(ns, name, decls, defaultRx, byPort, store, store') && d.port !in byPort
    requires forall o | o in store.outer :: o.serial < store.next
    ensures var tx := OuterId(ns, name, d.port, store'.next);
            FreshPorts(ns, name, decls + [d], defaultRx, byPort[d.port := PortEntry(None, tx)], store,
                       Store(store'.inner, store'.outer[tx := defaultRx], store'.next + 1))
  {
    var tx := OuterId(ns, name, d.port, store'.next);
    PortSetNext(decls, d);
    TxsNext(byPort, d.port, PortEntry(None, tx));
  }

  lemma FreshPortsSame(ns: string, name: string, decls: seq<Decl>, d: Decl, defaultRx: ChanId,
                       byPort: map<u16, PortEntry>, store: Store, store': Store)
    requires FreshPorts(ns, name, decls, defaultRx, byPort, store, store') && d.port in byPort
    ensures FreshPorts(ns, name, decls + [d], defaultRx, byPort, store, store')
  {
  }

  lemma NamedNext(decls: seq<Decl>, d: Decl)
    ensures Named(decls + [d]) ==
              if d.port in PortSet(decls) || d.name.None? then Named(decls)
              else Named(decls)[d.name.value := (if d.name.value in Named(decls) then Named(decls)[d.name.value]
                  else []) + [d.port]]
  {
  }

  lemma LinkedFreshPort(ns: string, name: string, decls: seq<Decl>, servers: map<string, ServerEntry>, e0: PodEntry,
                        e: PodEntry, store: Store, mid: Store, store': Store, p: u16)
    requires FreshPorts(ns, name, decls, e0.defaultRx, e0.byPort, store, mid) && p in e0.byPort
    requires PodLinked(servers, e0, e, mid.outer, store'.outer) && store' == mid.(outer := store'.outer)
    ensures p in e.byPort && FreshPort(ns, name, p, servers, e, store, store')
  {
  }

  lemma LinkedFreshStore(ns: string, name: string, decls: seq<Decl>, e0: PodEntry, e: PodEntry, store: Store,
                         mid: Store, store': Store)
    requires FreshPorts(ns, name, decls, e0.defaultRx, e0.byPort, store, mid) && TxsOf(e.byPort) == TxsOf(e0.byPort)
    requires forall o | o in store.outer :: o.serial < store.next
    requires SentBy(ns, name, e0, mid.outer, store'.outer) && store' == mid.(outer := store'.outer)
    ensures FreshStore(e, store, store')
  {
  }

  lemma LinkedFreshPorts(ns: string, name: string, decls: seq<Decl>, servers: map<string, ServerEntry>, e0: PodEntry,
                         e: PodEntry, store: Store, mid: Store, store': Store)
    requires FreshPorts(ns, name, decls, e0.defaultRx, e0.byPort, store, mid)
    requires PodLinked(servers, e0, e, mid.outer, store'.outer) && store' == mid.(outer := store'.outer)
    ensures e.byPort.Keys == PortSet(decls) && TxsOf(e.byPort) == TxsOf(e0.byPort)
    ensures forall kubelet :: RxMap(e.byPort, kubelet) == RxMap(e0.byPort, kubelet)
    ensures forall p | p in e.byPort :: FreshPort(ns, name, p, servers, e, store, store')
  {
    SameTxs(e0.byPort, e.byPort);
    forall p | p in e.byPort
      ensures FreshPort(ns, name, p, servers, e, store, store')
    {
      LinkedFreshPort(ns, name, decls, servers, e0, e, store, mid, store', p);
    }
  }

  /** Fresh ports that have been linked make a fresh pod. */
  lemma LinkedFreshPod(env: Env, pod: Resources.Pod, servers: map<string, ServerEntry>, decls: seq<Decl>,
                       e0: PodEntry, e: PodEntry, store: Store, mid: Store, store': Store)
    requires pod.spec.Some? && decls == Declared(pod.spec.value.containers)
    requires e0 == PodEntry(e0.byPort, Named(decls), pod.labels, DefaultRx(env, pod))
    requires FreshPorts(pod.ns, pod.name, decls, e0.defaultRx, e0.byPort, store, mid)
    requires forall o | o in store.outer :: o.serial < store.next
    requires PodLinked(servers, e0, e, mid.outer, store'.outer) && SentBy(pod.ns, pod.name, e0, mid.outer, store'.outer)
    requires store' == mid.(outer := store'.outer)
    ensures FreshPod(env, pod, servers, e, store, store')
    ensures forall kubelet :: RxMap(e.byPort, kubelet) == RxMap(e0.byPort, kubelet)
  {
    LinkedFreshPorts(pod.ns, pod.name, decls, servers, e0, e, store, mid, store');
    LinkedFreshStore(pod.ns, pod.name, decls, e0, e, store, mid, store');
  }

  lemma SameTxs(byPort: map<u16, PortEntry>, byPort': map<u16, PortEntry>)
    requires byPort'.Keys == byPort.Keys && forall p | p in byPort :: byPort'[p].tx == byPort[p].tx
    ensures TxsOf(byPort') == TxsOf(byPort)
    ensures forall kubelet :: RxMap(byPort', kubelet) == RxMap(byPort, kubelet)
  {
  }

  /** Ports, names and receivers read from some declarations. */
  ghost predicate Extracted(ns: string, name: string, decls: seq<Decl>, defaultRx: ChanId, kubelet: seq<IpAddr>,
                            byPort: map<u16, PortEntry>, byName: NameIndex, lookups: map<u16, Rx>, store: Store,
                            store': Store)
  {
    && FreshPorts(ns, name, decls, defaultRx, byPort, store, store')
    && byName == Named(decls)
    && lookups == RxMap(byPort, kubelet)
  }

  lemma ExtractedNext(ns: string, name: string, decls: seq<Decl>, d: Decl, defaultRx: ChanId, kubelet: seq<IpAddr>,
                      byPort: map<u16, PortEntry>, byName: NameIndex, lookups: map<u16, Rx>, store: Store,
                      store': Store)
    requires Extracted(ns, name, decls, defaultRx, kubelet, byPort, byName, lookups, store, store')
    requires forall o | o in store.outer :: o.serial < store.next
    ensures var tx := OuterId(ns, name, d.port, store'.next);
            if d.port in byPort then Extracted(ns, name, decls + [d], defaultRx, kubelet, byPort, byName, lookups, store,
                store')
            else Extracted(ns, name, decls + [d], defaultRx, kubelet, byPort[d.port := PortEntry(None, tx)],
                           if d.name.None? then byName
                           else byName[d.name.value := (if d.name.value in byName then byName[d.name.value]
                               else []) + [d.port]],
                           lookups[d.port := Rx(kubelet, tx)], store,
                           Store(store'.inner, store'.outer[tx := defaultRx], store'.next + 1))
  {
    assert d.port in PortSet(decls) <==> d.port in byPort;
    NamedNext(decls, d);
    if d.port in byPort {
      FreshPortsSame(ns, name, decls, d, defaultRx, byPort, store, store');
    } else {
      var tx := OuterId(ns, name, d.port, store'.next);
      RxMapNext(byPort, d.port, PortEntry(None, tx), kubelet);
      FreshPortsNext(ns, name, decls, d, defaultRx, byPort, store, store');
    }
  }

  lemma RxMapNext(byPort: map<u16, PortEntry>, p: u16, port: PortEntry, kubelet: seq<IpAddr>)
    ensures RxMap(byPort[p := port], kubelet) == RxMap(byPort, kubelet)[p := Rx(kubelet, port.tx)]
  {
  }

  lemma DeclaredNext(decls: seq<Decl>, ports: seq<Resources.ContainerPort>, j: nat)
    requires j < |ports|
    ensures decls + DeclaredIn(ports[..j + 1]) ==
              if IsTcp(ports[j]) then decls + DeclaredIn(ports[..j]) + [Decl(Truncate(ports[j].port), ports[j].name)]
              else decls + DeclaredIn(ports[..j])
  {
    assert ports[..j + 1][..j] == ports[..j];
  }

  lemma ExtractedConnected(ns: string, name: string, decls: seq<Decl>, e: PodEntry, store: Store, store': Store)
    requires FreshPorts(ns, name, decls, e.defaultRx, e.byPort, store, store')
    ensures Connected(ns, name, e, store'.outer)
  {
  }

  // --- Walks over the pods -------------------------------------------------------------------------

  /** Every pod but those in `todo` has been linked. */
  ghost predicate WalkLinked(ns: string, servers: map<string, ServerEntry>, todo: set<string>,
                             was: map<string, PodEntry>, now: map<string, PodEntry>, outer: Outer, outer': Outer)
  {
    && now.Keys == was.Keys
    && (forall x | x in was && x in todo :: now[x] == was[x])
    && (forall x | x in was && x !in todo :: PodLinked(servers, was[x], now[x], outer, outer'))
    && outer'.Keys == outer.Keys
    && (forall o | o in outer && (o.pod in todo || !OneOwns(ns, was, o)) :: outer'[o] == outer[o])
  }

  /** Linking depends only on what the pod's own channels hold. */
  lemma PodLinkedFrame(servers: map<string, ServerEntry>, before: PodEntry, after: PodEntry, outer: Outer,
                       outer': Outer, o: Outer, o': Outer)
    requires PodLinked(servers, before, after, outer, outer')
    requires forall p | p in before.byPort ::
               var tx := before.byPort[p].tx; tx in o && tx in o' && o[tx] == outer[tx] && o'[tx] == outer'[tx]
    ensures PodLinked(servers, before, after, o, o')
  {
  }

  lemma WalkLinkedNext(ns: string, servers: map<string, ServerEntry>, todo: set<string>, was: map<string, PodEntry>,
                       now: map<string, PodEntry>, pod: PodEntry, outer: Outer, mid: Outer, outer': Outer, x: string)
    requires WalkLinked(ns, servers, todo, was, now, outer, mid) && x in todo && x in was
    requires forall y | y in was :: Connected(ns, y, was[y], outer)
    requires PodLinked(servers, was[x], pod, mid, outer') && SentBy(ns, x, was[x], mid, outer')
    ensures WalkLinked(ns, servers, todo - {x}, was, now[x := pod], outer, outer')
  {
    forall y | y in was && y !in todo - {x}
      ensures PodLinked(servers, was[y], now[x := pod][y], outer, outer')
    {
      assert Connected(ns, y, was[y], outer);
      if y == x {
        PodLinkedFrame(servers, was[x], pod, mid, outer', outer, outer');
      } else {
        PodLinkedFrame(servers, was[y], now[y], outer, mid, outer, outer');
      }
    }
  }

  /** Every port of a pod but those in `todo` has been reset. */
  ghost predicate PortsReset(ns: string, name: string, pod: PodEntry, srv: string, todo: set<u16>, r: PodEntry,
                             outer: Outer, outer': Outer) {
    && r == pod.(byPort := r.byPort) && r.byPort.Keys == pod.byPort.Keys
    && (forall p | p in pod.byPort :: r.byPort[p] == if p in todo then pod.byPort[p] else ResetPort(pod.byPort[p], srv))
    && outer'.Keys == outer.Keys
    && (forall o | o in outer ::
          outer'[o] ==
            if Owns(ns, name, pod, o) && o.port !in todo && pod.byPort[o.port].serverName == Some(srv) then
                pod.defaultRx else outer[o])
  }

  lemma PortsResetNext(ns: string, name: string, pod: PodEntry, srv: string, todo: set<u16>, r: PodEntry,
                       outer: Outer, outer': Outer, p: u16)
    requires Connected(ns, name, pod, outer) && PortsReset(ns, name, pod, srv, todo, r, outer, outer')
    requires p in todo && p in r.byPort
    ensures r.byPort[p].tx in outer'
    ensures var port := r.byPort[p];
            if port.serverName == Some(srv) then
              PortsReset(ns, name, pod, srv, todo - {p}, r.(byPort := r.byPort[p := port.(serverName := None)]), outer,
                         outer'[port.tx := pod.defaultRx])
            else PortsReset(ns, name, pod, srv, todo - {p}, r, outer, outer')
  {
    assert r.byPort[p] == pod.byPort[p];
  }

  lemma PortsResetDone(ns: string, name: string, pod: PodEntry, srv: string, r: PodEntry, outer: Outer, outer': Outer)
    requires PortsReset(ns, name, pod, srv, {}, r, outer, outer')
    ensures r == ResetPod(pod, srv) && outer' == ResetOuter(ns, map[name := pod], srv, outer)
  {
  }

  lemma ResetNothing(ns: string, pods: map<string, PodEntry>, name: string, outer: Outer)
    ensures ResetOuter(ns, pods - pods.Keys, name, outer) == outer
  {
  }

  lemma ResetNext(ns: string, pods: map<string, PodEntry>, todo: set<string>, name: string, outer: Outer, x: string)
    requires x in todo && x in pods
    requires forall y | y in pods :: Connected(ns, y, pods[y], outer)
    ensures var mid := ResetOuter(ns, pods - todo, name, outer);
            && Connected(ns, x, pods[x], mid)
            && ResetOuter(ns, map[x := pods[x]], name, mid) == ResetOuter(ns, pods - (todo - {x}), name, outer)
  {
    var mid := ResetOuter(ns, pods - todo, name, outer);
    var all := pods - (todo - {x});
    assert Connected(ns, x, pods[x], outer);
    forall o | o in outer
      ensures ResetOuter(ns, map[x := pods[x]], name, mid)[o] == ResetOuter(ns, all, name, outer)[o]
    {
      assert OneOwns(ns, all, o) <==> if o.pod == x then OneOwns(ns, map[x := pods[x]], o)
               else OneOwns(ns, pods - todo, o);
    }
  }

  // --- The index ------------------------------------------------------------------------------

  class PodIndex {
    var index: map<string, PodEntry>

    /** The namespace the index belongs to. */
    ghost const owner: string

    constructor (ghost ns: string)
      ensures index == map[] && owner == ns
    {
      index := map[];
      owner := ns;
    }

    /** Binds a port to a server unless it is bound already, be it to another server. */
    static method LinkServerPort(pod: PodEntry, p: u16, name: string, chan: ChanId, channels: Channels)
      returns (r: PodEntry)
      requires p in pod.byPort ==> pod.byPort[p].tx in channels.outer
      modifies channels`outer
      ensures if p in pod.byPort && pod.byPort[p].serverName.None? then
                && r == pod.(byPort := pod.byPort[p := pod.byPort[p].(serverName := Some(name))])
                && channels.outer == old(channels.outer)[pod.byPort[p].tx := chan]
              else
                r == pod && channels.outer == old(channels.outer)
    {
      r := pod;
      if p !in pod.byPort {
        return;
      }
      var port := pod.byPort[p];
      if port.serverName.Some? {
        return;
      }
      r := pod.(byPort := pod.byPort[p := port.(serverName := Some(name))]);
      channels.SendOuter(port.tx, chan);
    }

    /** A server claims a port. */
    static method ClaimPort(ns: string, name: string, before: PodEntry, pod: PodEntry, p: u16, n: string,
                            servers: SrvIndex, channels: Channels, ghost claimed: map<u16, set<string>>,
                            ghost outer: Outer)
      returns (r: PodEntry)
      requires n in servers.index && Progress(ns, name, servers.index, claimed, before, pod, outer, channels.outer)
      modifies channels`outer
      ensures Progress(ns, name, servers.index, Claim(claimed, p, n), before, r, outer, channels.outer)
    {
      if p in pod.byPort {
        LinkingNext(ns, name, servers.index, claimed, before, pod, outer, channels.outer, p, n);
        assert Owns(ns, name, before, pod.byPort[p].tx);
      }
      r := LinkServerPort(pod, p, n, servers.index[n].chan, channels);
    }

    /** A server claims some ports. */
    static method ClaimEach(ns: string, name: string, before: PodEntry, pod: PodEntry, ports: seq<u16>, n: string,
                            servers: SrvIndex, remaining: set<u16>, channels: Channels,
                            ghost claimed: map<u16, set<string>>, ghost outer: Outer)
      returns (r: PodEntry, left: set<u16>)
      requires n in servers.index && Progress(ns, name, servers.index, claimed, before, pod, outer, channels.outer)
      modifies channels`outer
      ensures Progress(ns, name, servers.index, ClaimSome(claimed, ports, n), before, r, outer, channels.outer)
      ensures left == remaining - Set(ports)
    {
      r, left := pod, remaining;
      ClaimNone(claimed, n);
      for i := 0 to |ports|
        invariant Progress(ns, name, servers.index, ClaimSome(claimed, ports[..i], n), before, r, outer, channels.outer)
        invariant left == remaining - Set(ports[..i])
      {
        ClaimSomeNext(claimed, ports, i, n);
        r := ClaimPort(ns, name, before, r, ports[i], n, servers, channels, ClaimSome(claimed, ports[..i], n), outer);
        SetNext(ports, i);
        left := left - {ports[i]};
      }
      assert ports[..|ports|] == ports;
    }

    /** A server that matches a pod claims the ports it selects. */
    static method LinkServer(ns: string, name: string, before: PodEntry, pod: PodEntry, n: string, servers: SrvIndex,
                             remaining: set<u16>, channels: Channels, ghost claimed: map<u16, set<string>>,
                             ghost outer: Outer)
      returns (r: PodEntry, left: set<u16>)
      requires n in servers.index && Matches(servers.index[n].meta.podSelector, before.labels)
      requires Progress(ns, name, servers.index, claimed, before, pod, outer, channels.outer)
      requires remaining == Unclaimed(claimed)
      modifies channels`outer
      ensures var now := ClaimAll(claimed, servers.index[n].meta, before, n);
              left == Unclaimed(now) && Progress(ns, name, servers.index, now, before, r, outer, channels.outer)
    {
      r, left := pod, remaining;
      var ports := CollectPort(before, servers.index[n].meta.port);
      ClaimSelected(claimed, servers.index[n].meta, before, n);
      if ports.Some? {
        ClaimLeaves(claimed, ports.value, n);
        r, left := ClaimEach(ns, name, before, pod, ports.value, n, servers, remaining, channels, claimed, outer);
      }
    }

    /** Every server that matches a pod claims the ports it selects, in any order. */
    static method ClaimPorts(ns: string, name: string, pod: PodEntry, servers: SrvIndex, channels: Channels)
      returns (r: PodEntry, remaining: set<u16>)
      requires Connected(ns, name, pod, channels.outer)
      modifies channels`outer
      ensures Clearing(servers.index, remaining, pod, r, old(channels.outer), channels.outer)
      ensures SentBy(ns, name, pod, old(channels.outer), channels.outer) && remaining <= pod.byPort.Keys
    {
      r, remaining := pod, pod.byPort.Keys;
      ghost var outer, claimed := channels.outer, NoClaims(pod);
      LinkingStarts(ns, name, servers.index, pod, channels.outer);
      NothingClaimed(servers.index, pod);
      var todo := servers.index.Keys;
      while todo != {}
        invariant todo <= servers.index.Keys && claimed == ClaimsSoFar(servers.index, pod, todo)
        invariant remaining == Unclaimed(claimed)
                    && Progress(ns, name, servers.index, claimed, pod, r, outer, channels.outer)
        decreases |todo|
      {
        var n :| n in todo;
        ClaimsSoFarNext(servers.index, pod, todo, n);
        if Matches(servers.index[n].meta.podSelector, pod.labels) {
          r, remaining := LinkServer(ns, name, pod, r, n, servers, remaining, channels, claimed, outer);
          claimed := ClaimAll(claimed, servers.index[n].meta, pod, n);
        }
        todo := todo - {n};
      }
      ClearingStarts(servers.index, pod, r, outer, channels.outer);
    }

    /** Links a pod: after every server has claimed its ports, those that nobody claims return to the
        default policy. */
    static method LinkPod(ns: string, name: string, pod: PodEntry, servers: SrvIndex, channels: Channels)
      returns (r: PodEntry)
      requires Connected(ns, name, pod, channels.outer)
      modifies channels`outer
      ensures PodLinked(servers.index, pod, r, old(channels.outer), channels.outer)
      ensures SentBy(ns, name, pod, old(channels.outer), channels.outer)
    {
      ghost var outer := channels.outer;
      var remaining;
      r, remaining := ClaimPorts(ns, name, pod, servers, channels);
      while remaining != {}
        invariant remaining <= pod.byPort.Keys
        invariant Clearing(servers.index, remaining, pod, r, outer, channels.outer)
                    && SentBy(ns, name, pod, outer, channels.outer)
        decreases |remaining|
      {
        var p :| p in remaining;
        ClearingNext(ns, name, servers.index, remaining, pod, r, outer, channels.outer, p);
        remaining := remaining - {p};
        var port := r.byPort[p];
        r := r.(byPort := r.byPort[p := port.(serverName := None)]);
        channels.SendOuter(port.tx, pod.defaultRx);
      }
    }

    /** Links every pod of the namespace, in any order. */
    method LinkServers(ns: string, servers: SrvIndex, channels: Channels)
      requires forall x | x in index :: Connected(ns, x, index[x], channels.outer)
      modifies this, channels`outer
      ensures AllLinked(ns, servers.index, old(index), index, old(channels.outer), channels.outer)
    {
      ghost var was, outer := index, channels.outer;
      var todo := index.Keys;
      while todo != {}
        invariant todo <= index.Keys && WalkLinked(ns, servers.index, todo, was, index, outer, channels.outer)
        decreases |todo|
      {
        var x :| x in todo;
        assert Connected(ns, x, was[x], outer);
        ghost var now, mid := index, channels.outer;
        var pod := LinkPod(ns, x, index[x], servers, channels);
        index := index[x := pod];
        WalkLinkedNext(ns, servers.index, todo, was, now, pod, outer, mid, channels.outer, x);
        todo := todo - {x};
      }
    }

    /** Returns one pod's ports from a server to the default policy. */
    static method ResetPorts(ns: string, name: string, pod: PodEntry, srv: string, channels: Channels)
      returns (r: PodEntry)
      requires Connected(ns, name, pod, channels.outer)
      modifies channels`outer
      ensures r == ResetPod(pod, srv)
      ensures channels.outer == ResetOuter(ns, map[name := pod], srv, old(channels.outer))
    {
      r := pod;
      ghost var outer := channels.outer;
      var todo := pod.byPort.Keys;
      while todo != {}
        invariant todo <= pod.byPort.Keys && PortsReset(ns, name, pod, srv, todo, r, outer, channels.outer)
        decreases |todo|
      {
        var p :| p in todo;
        PortsResetNext(ns, name, pod, srv, todo, r, outer, channels.outer, p);
        todo := todo - {p};
        var port := r.byPort[p];
        if port.serverName == Some(srv) {
          r := r.(byPort := r.byPort[p := port.(serverName := None)]);
          channels.SendOuter(port.tx, pod.defaultRx);
        }
      }
      PortsResetDone(ns, name, pod, srv, r, outer, channels.outer);
    }

    /** Returns every port that is bound to a server to its pod's default policy. */
    method ResetServer(ns: string, name: string, channels: Channels)
      requires forall x | x in index :: Connected(ns, x, index[x], channels.outer)
      modifies this, channels`outer
      ensures index == ResetPods(old(index), name)
      ensures channels.outer == ResetOuter(ns, old(index), name, old(channels.outer))
    {
      ghost var was, outer := index, channels.outer;
      var todo := index.Keys;
      ResetNothing(ns, was, name, outer);
      while todo != {}
        invariant todo <= index.Keys && index.Keys == was.Keys
        invariant forall x | x in was :: index[x] == if x in todo then was[x] else ResetPod(was[x], name)
        invariant channels.outer == ResetOuter(ns, was - todo, name, outer)
        decreases |todo|
      {
        var x :| x in todo;
        assert Connected(ns, x, was[x], outer);
        ResetNext(ns, was, todo, name, outer, x);
        var pod := ResetPorts(ns, x, index[x], name, channels);
        index := index[x := pod];
        todo := todo - {x};
      }
      assert was - {} == was;
      assert index == ResetPods(was, name);
    }

    /** Extracts the ports that a pod's containers declare; the first declaration of a port wins. */
    static method ExtractPorts(ns: string, name: string, spec: Resources.PodSpec, rx: ChanId, kubelet: seq<IpAddr>,
                               channels: Channels)
      returns (byPort: map<u16, PortEntry>, byName: NameIndex, lookups: map<u16, Rx>)
      requires forall o | o in channels.outer :: o.serial < channels.next
      modifies channels
      ensures Extracted(ns, name, Declared(spec.containers), rx, kubelet, byPort, byName, lookups, old(channels.Abs()),
                channels.Abs())
    {
      byPort, byName, lookups := map[], map[], map[];
      ghost var store := channels.Abs();
      var containers := spec.containers;
      for i := 0 to |containers|
        invariant Extracted(ns, name, Declared(containers[..i]), rx, kubelet, byPort, byName, lookups, store,
                    channels.Abs())
      {
        byPort, byName, lookups :=
          ExtractContainer(ns, name, containers[i], rx, kubelet, byPort, byName, lookups, channels,
              Declared(containers[..i]), store);
        assert containers[..i + 1][..i] == containers[..i];
      }
      assert containers[..|containers|] == containers;
    }

    /** The TCP ports of one container. */
    static method ExtractContainer(ns: string, name: string, ports: seq<Resources.ContainerPort>, rx: ChanId,
                                   kubelet: seq<IpAddr>, byPort: map<u16, PortEntry>, byName: NameIndex,
                                   lookups: map<u16, Rx>, channels: Channels, ghost decls: seq<Decl>,
                                   ghost store: Store)
      returns (byPort': map<u16, PortEntry>, byName': NameIndex, lookups': map<u16, Rx>)
      requires forall o | o in store.outer :: o.serial < store.next
      requires Extracted(ns, name, decls, rx, kubelet, byPort, byName, lookups, store, channels.Abs())
      modifies channels
      ensures Extracted(ns, name, decls + DeclaredIn(ports), rx, kubelet, byPort', byName', lookups', store,
                channels.Abs())
    {
      byPort', byName', lookups' := byPort, byName, lookups;
      ghost var seen := decls;
      assert decls + DeclaredIn(ports[..0]) == decls;
      for j := 0 to |ports|
        invariant seen == decls + DeclaredIn(ports[..j])
        invariant Extracted(ns, name, seen, rx, kubelet, byPort', byName', lookups', store, channels.Abs())
      {
        DeclaredNext(decls, ports, j);
        if ports[j].protocol.None? || ports[j].protocol.value == "TCP" {
          byPort', byName', lookups' := AddPort(ns, name, ports[j], rx, kubelet, byPort', byName', lookups', channels,
              seen, store);
          seen := seen + [Decl(Truncate(ports[j].port), ports[j].name)];
        }
      }
      assert ports[..|ports|] == ports;
    }

    /** One TCP port: unless it is there already, it gets a channel that starts with the default policy. */
    static method AddPort(ns: string, name: string, p: Resources.ContainerPort, rx: ChanId, kubelet: seq<IpAddr>,
                          byPort: map<u16, PortEntry>, byName: NameIndex, lookups: map<u16, Rx>, channels: Channels,
                          ghost decls: seq<Decl>, ghost store: Store)
      returns (byPort': map<u16, PortEntry>, byName': NameIndex, lookups': map<u16, Rx>)
      requires forall o | o in store.outer :: o.serial < store.next
      requires Extracted(ns, name, decls, rx, kubelet, byPort, byName, lookups, store, channels.Abs())
      modifies channels
      ensures Extracted(ns, name, decls + [Decl(Truncate(p.port), p.name)], rx, kubelet, byPort', byName', lookups',
                store, channels.Abs())
    {
      byPort', byName', lookups' := byPort, byName, lookups;
      var port := Truncate(p.port);
      ExtractedNext(ns, name, decls, Decl(port, p.name), rx, kubelet, byPort, byName, lookups, store, channels.Abs());
      if port in byPort {
        return;
      }
      var tx := channels.NewOuter(ns, name, port, rx);
      if p.name.Some? {
        var x := p.name.value;
        byName' := byName[x := (if x in byName then byName[x] else []) + [port]];
      }
      byPort' := byPort[port := PortEntry(None, tx)];
      lookups' := lookups[port := Rx(kubelet, tx)];
    }

    /** Applies a pod: a new one is indexed if its node is known and queued or ignored if not; of an
        indexed one only the labels are taken, and its ports linked again if they changed. */
    method Apply(env: Env, pod: Resources.Pod, nodes: NodeIndex, servers: SrvIndex, lookups: Writer,
                 channels: Channels)
      returns (ok: bool)
      requires forall x | x in index :: Connected(pod.ns, x, index[x], channels.outer)
      requires forall o | o in channels.outer :: o.serial < channels.next
      requires lookups.Contains(pod.ns, pod.name) <==> pod.name in index
      modifies this, nodes, lookups, channels
      ensures ok
      ensures channels.inner == old(channels.inner)
      ensures pod.name in old(index) ==>
                && nodes.index == old(nodes.index) && lookups.byNs == old(lookups.byNs)
                    && channels.next == old(channels.next)
                && var e := old(index)[pod.name];
                && if e.labels != pod.labels then
                     && pod.name in index && index == old(index)[pod.name := index[pod.name]]
                     && PodLinked(servers.index, e.(labels := pod.labels), index[pod.name], old(channels.outer),
                         channels.outer)
                     && SentBy(pod.ns, pod.name, e.(labels := pod.labels), old(channels.outer), channels.outer)
                   else
                     index == old(index) && channels.outer == old(channels.outer)
      ensures var m := Resources.NodeName(pod);
              pod.name !in old(index) && m.Some? && IsKnown(old(nodes.index), m.value) ==>
                && nodes.index == old(nodes.index)
                && pod.name in index && index == old(index)[pod.name := index[pod.name]]
                && FreshPod(env, pod, servers.index, index[pod.name], old(channels.Abs()), channels.Abs())
                && lookups.byNs == SetLookup(old(lookups.byNs), pod.ns, pod.name,
                    RxMap(index[pod.name].byPort, old(nodes.index)[m.value].ips))
      ensures var m := Resources.NodeName(pod);
              pod.name !in old(index) && !(m.Some? && IsKnown(old(nodes.index), m.value)) ==>
                && nodes.index == (if m.None? then old(nodes.index) else PushPending(old(nodes.index), m.value, pod))
                && index == old(index) && lookups.byNs == old(lookups.byNs) && channels.Abs() == old(channels.Abs())
    {
      if pod.name in index {
        var entry := index[pod.name];
        if entry.labels != pod.labels {
          assert Connected(pod.ns, pod.name, entry, channels.outer);
          entry := entry.(labels := pod.labels);
          entry := LinkPod(pod.ns, pod.name, entry, servers, channels);
          index := index[pod.name := entry];
        }
        return true;
      }
      var kubelet := nodes.GetOrPushPending(pod);
      if kubelet.None? {
        return true;
      }
      var entry, ports := Discover(env, pod, kubelet.value, servers, channels);
      var absent := lookups.Set(pod.ns, pod.name, ports);
      assert absent;
      index := index[pod.name := entry];
      return true;
    }

    /** Builds a pod from its spec and links it, before anyone can see it. */
    static method Discover(env: Env, pod: Resources.Pod, kubelet: seq<IpAddr>, servers: SrvIndex, channels: Channels)
      returns (entry: PodEntry, ports: map<u16, Rx>)
      requires pod.spec.Some? && forall o | o in channels.outer :: o.serial < channels.next
      modifies channels
      ensures FreshPod(env, pod, servers.index, entry, old(channels.Abs()), channels.Abs())
      ensures ports == RxMap(entry.byPort, kubelet)
    {
      var rx := DefaultRx(env, pod);
      var byPort, byName;
      byPort, byName, ports := ExtractPorts(pod.ns, pod.name, pod.spec.value, rx, kubelet, channels);
      ghost var mid, unlinked := channels.Abs(), PodEntry(byPort, byName, pod.labels, rx);
      ExtractedConnected(pod.ns, pod.name, Declared(pod.spec.value.containers), unlinked, old(channels.Abs()), mid);
      entry := LinkPod(pod.ns, pod.name, PodEntry(byPort, byName, pod.labels, rx), servers, channels);
      LinkedFreshPod(env, pod, servers.index, Declared(pod.spec.value.containers), unlinked, entry, old(channels.Abs()),
          mid, channels.Abs());
    }
  }
}
