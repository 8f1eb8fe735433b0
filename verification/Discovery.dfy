/** From watch events to the proxy's decision: the index, the stream, the wire form and the client
    taken together. */
module Discovery {
  import opened Base
  import Client
  import opened Cluster
  import E = Events
  import opened Indexer
  import opened Net
  import opened Policy
  import opened Ports
  import Proto
  import Resources
  import opened Stream
  import Translation
  import opened Watch
  import opened IndexState
  import opened Invariant
  import opened Refinement
  import opened Agreement
  import opened Binding
  import opened Joint
  import opened Delivery
  import opened LiveObjects
  import opened Intake
  import opened PodIntake

  // --- Any sequence of events ------------------------------------------------------------

  /** Whatever sequence of events arrives, in every reachable state: a port that names a server names
      one of its own namespace and follows that server's channel, one that names none follows the
      pod's default policy, and each server's channel carries exactly the authorizations that select
      it. Conflicting servers make no difference. */
  lemma ReachableStatesAreCoherent(env: Env, evs: seq<E.Event>, ops: seq<Op>, s: State, ns: string)
    requires E.EventsRun(env, Init(env), evs, ops, s) && ns in s.namespaces
    ensures var n := s.namespaces[ns];
            && (forall x, p | x in n.pods && p in n.pods[x].byPort ::
                  var port := n.pods[x].byPort[p];
                  && port.tx in s.store.outer
                  && if port.serverName.Some? then
                       port.serverName.value in n.servers
                           && s.store.outer[port.tx] == n.servers[port.serverName.value].chan
                     else
                       s.store.outer[port.tx] == n.pods[x].defaultRx)
            && (forall x | x in n.servers ::
                  var srv := n.servers[x];
                  && srv.authorizations == AuthView(n.authzs, x, srv.meta.labels)
                  && srv.chan in s.store.inner
                  && s.store.inner[srv.chan] == InboundServer(srv.meta.protocol, srv.authorizations))
  {
    E.EventsKeepInv(env, evs, ops, s);
    var n := s.namespaces[ns];
    assert NsOk(ns, n, s.store);
    forall x, p | x in n.pods && p in n.pods[x].byPort
      ensures PortOk(ns, x, p, n.pods[x].byPort[p], n.pods[x].defaultRx, n.servers, s.store.outer)
    {
      assert PodOk(ns, x, n.pods[x], n.servers, s.store.outer);
    }
    forall x | x in n.servers
      ensures ServerOk(ns, x, n.servers[x], n.authzs, s.store.inner)
    {
    }
  }

  /** In every reachable state the lookup map holds exactly the indexed pods, with exactly their
      ports, each with at least one kubelet address, and no empty namespace. */
  lemma LookupMatchesIndex(env: Env, evs: seq<E.Event>, ops: seq<Op>, s: State)
    requires E.EventsRun(env, Init(env), evs, ops, s)
    ensures forall ns :: LookupIn(s.lookups, ns).Keys == PodsIn(s.namespaces, ns).Keys
    ensures forall ns, x | x in LookupIn(s.lookups, ns) ::
              var e, ports := PodsIn(s.namespaces, ns)[x], LookupIn(s.lookups, ns)[x];
              && ports.Keys == e.byPort.Keys
              && forall p | p in ports :: ports[p].rx == e.byPort[p].tx && ports[p].kubelet != []
    ensures forall ns | ns in s.lookups :: s.lookups[ns] != map[]
  {
    E.EventsKeepInv(env, evs, ops, s);
    forall ns
      ensures LookupOk(PodsIn(s.namespaces, ns), LookupIn(s.lookups, ns))
    {
    }
    forall ns, x | x in LookupIn(s.lookups, ns)
      ensures EntryOk(PodsIn(s.namespaces, ns)[x], LookupIn(s.lookups, ns)[x])
    {
      assert LookupOk(PodsIn(s.namespaces, ns), LookupIn(s.lookups, ns));
    }
  }

  /** In every reachable state, what is served for a port admits the pod's kubelet over any connection,
      and any other address exactly as the port's policy does without an authorization of the
      kubelet's name. */
  lemma KubeletIsAdmittedExactly(env: Env, evs: seq<E.Event>, ops: seq<Op>, s: State, ns: string, x: string, p: u16,
                                 ip: IpAddr, c: Connection)
    requires E.EventsRun(env, Init(env), evs, ops, s) && Served(s, ns, x, p).Some?
    ensures var rx := s.lookups[ns][x][p];
            var policy := s.store.inner[s.store.outer[rx.rx]];
            Admits(Served(s, ns, x, p).value, ip, c) <==>
              || ip in rx.kubelet
              || Admits(policy.(authorizations := policy.authorizations - {HEALTH_CHECK}), ip, c)
  {
    LookupMatchesIndex(env, evs, ops, s);
    var rx := s.lookups[ns][x][p];
    assert x in LookupIn(s.lookups, ns);
    KubeletAccessIsExact(rx.kubelet, s.store.inner[s.store.outer[rx.rx]], ip, c);
  }

  // --- Admissible events --------------------------------------------------------------------

  /** A namespace's records hold exactly the live objects. */
  ghost predicate HoldsLive(env: Env, evs: seq<E.Event>, ns: string, r: Records) {
    forall x ::
      && ServerIsLive(evs, r.servers, ns, x)
      && AuthzIsLive(env, evs, r.authzs, ns, x)
      && Life(Get(r.pods, x)) == LivePod(evs, ns, x)
  }

  lemma {:induction false} AdmissibleIsStable(env: Env, c: Cluster, ops: seq<Op>)
    requires AdmissibleRun(env, c, ops)
    ensures StableRun(env, c, ops)
  {
    if ops != [] {
      AdmissibleIsStable(env, c, ops[..|ops| - 1]);
    }
  }

  lemma RecordsHoldLive(env: Env, evs: seq<E.Event>, ops: seq<Op>, s: State, ns: string)
    requires E.EventsRun(env, Init(env), evs, ops, s) && StableRun(env, EMPTY, ops)
    ensures HoldsLive(env, evs, ns, RecordsOf(CRun(env, EMPTY, ops), ns))
  {
    forall x
      ensures ServerIsLive(evs, RecordsOf(CRun(env, EMPTY, ops), ns).servers, ns, x)
      ensures AuthzIsLive(env, evs, RecordsOf(CRun(env, EMPTY, ops), ns).authzs, ns, x)
      ensures Life(Rec(env, ops, ns, x)) == LivePod(evs, ns, x)
    {
      RecordsAreLive(env, evs, ops, s, ns, x);
      PodsAreLive(env, evs, ops, s, ns, x);
    }
  }

  /** After any events whose operations are admissible, the records hold exactly the objects that are live
      by the events alone, every port is served exactly the policy that these define from scratch, and
      nothing else is served. */
  lemma EventsServeFromScratch(env: Env, evs: seq<E.Event>, ops: seq<Op>, s: State)
    requires E.EventsRun(env, Init(env), evs, ops, s) && AdmissibleRun(env, EMPTY, ops)
    ensures forall ns :: HoldsLive(env, evs, ns, RecordsOf(CRun(env, EMPTY, ops), ns))
    ensures forall ns, x, p ::
              Served(s, ns, x, p) == FromScratch(env, RecordsOf(CRun(env, EMPTY, ops), ns), x, p)
  {
    E.EventsRunIsSteps(env, Init(env), evs, ops, s);
    WholeRun(env, ops, s);
    AdmissibleIsStable(env, EMPTY, ops);
    forall ns
      ensures HoldsLive(env, evs, ns, RecordsOf(CRun(env, EMPTY, ops), ns))
    {
      RecordsHoldLive(env, evs, ops, s, ns);
    }
  }

  // --- Claims, as the objects say it ------------------------------------------------------------------

  lemma DeclaredPortsOf(pod: Resources.Pod, p: u16)
    ensures p in PodPorts(pod) <==> Exposed(Containers(pod), p)
  {
    DeclaredPorts(Containers(pod), p);
  }

  lemma SelectsIfWants(m: ServerMeta, life: ServerLife, pod: Resources.Pod, p: u16)
    requires Leads(m, life)
    ensures SelectsPort(m, pod.labels, Named(Decls(pod)), p) <==> Wants(life.latest, pod, p)
  {
    if m.port.Named? {
      NamedPorts(Containers(pod), p, m.port.name);
    }
  }

  lemma ClaimsIfWants(env: Env, evs: seq<E.Event>, r: Records, ns: string, pod: Resources.Pod, p: u16, n: string)
    requires HoldsLive(env, evs, ns, r)
    ensures n in ClaimsOf(r.servers, pod, p) <==>
              LiveServer(evs, ns, n).Some? && Wants(LiveServer(evs, ns, n).value.latest, pod, p)
  {
    assert ServerIsLive(evs, r.servers, ns, n);
    if n in r.servers {
      SelectsIfWants(r.servers[n], LiveServer(evs, ns, n).value, pod, p);
    }
  }

  /** After any such events, the ports of an indexed pod are those that its live object exposes, and one is
      bound to a server exactly if that is live, its latest object's selector matches the pod's labels, and
      the port has the number or the name that the object asks for. */
  lemma EventsBindExactly(env: Env, evs: seq<E.Event>, ops: seq<Op>, s: State, ns: string, x: string, p: u16,
                          n: string)
    requires E.EventsRun(env, Init(env), evs, ops, s) && AdmissibleRun(env, EMPTY, ops)
    requires ns in s.namespaces && x in s.namespaces[ns].pods && p in s.namespaces[ns].pods[x].byPort
    ensures var life, server := LivePod(evs, ns, x), LiveServer(evs, ns, n);
            && life.Some? && Exposed(Containers(life.value.pod), p)
            && (s.namespaces[ns].pods[x].byPort[p].serverName == Some(n) <==>
                  server.Some? && Wants(server.value.latest, life.value.pod, p))
  {
    EventsServeFromScratch(env, evs, ops, s);
    var r := RecordsOf(CRun(env, EMPTY, ops), ns);
    assert HoldsLive(env, evs, ns, r);
    InitInv(env);
    InitAgrees(env);
    E.EventsRunIsSteps(env, Init(env), evs, ops, s);
    RunAgrees(env, EMPTY, Init(env), ops, s);
    var here := NsIn(s.namespaces, ns);
    assert NsExact(here);
    assert PodExact(here.servers, here.pods[x]);
    assert here.pods[x].byPort[p].serverName == Some(n) <==>
             n in Claims(here.servers, here.pods[x].labels, here.pods[x].byName, p);
    assert AgreesAt(env, CRun(env, EMPTY, ops), s, ns);
    ClaimsAgree(env, r, here, x, p);
    DeclaredPortsOf(r.pods[x].pod, p);
    ClaimsIfWants(env, evs, r, ns, r.pods[x].pod, p, n);
  }

  /** The same for the program: an index that has handled the events answers a discovery request with
      the policy computed from scratch. */
  method Answer(env: Env, evs: seq<E.Event>, ns: string, pod: string, port: u16)
    returns (r: Option<InboundServer>, ghost ops: seq<Op>, ghost s: State)
    ensures E.EventsRun(env, Init(env), evs, ops, s)
    ensures r == Served(s, ns, pod, port)
    ensures AdmissibleRun(env, EMPTY, ops) ==> r == FromScratch(env, RecordsOf(CRun(env, EMPTY, ops), ns), pod, port)
  {
    var index := new Index(env);
    ops := index.Run(evs);
    s := index.Abs();
    r := index.Get(ns, pod, port);
    if AdmissibleRun(env, EMPTY, ops) {
      EventsServeFromScratch(env, evs, ops, s);
    }
  }

  // --- The stream -----------------------------------------------------------------------------

  /** Nothing is left to be done for a port: it points where it should, and what it points to has been
      told. */
  ghost predicate Settled(j: System, o: OuterId) {
    Point(o) !in j.todo && (o in j.now.store.outer ==> Tell(j.now.store.outer[o]) !in j.todo)
  }

  /** What the stream has told the proxy last. */
  function LastTold(j: System): Option<InboundServer> {
    if j.reader.Some? && j.reader.value.emitted != []
    then Some(MkServer(j.kubelet, j.reader.value.emitted[|j.reader.value.emitted| - 1]))
    else None
  }

  /** Index and stream together, in every interleaving: a stream at rest, with nothing left to be done
      for its port, has last told the proxy what a lookup would tell it now. */
  lemma StreamAtRestServes(env: Env, o: OuterId, trace: seq<System>, moves: seq<Move>, i: nat)
    requires Together(env, o, trace, moves) && trace[0] == Fresh(env) && i < |trace|
    requires trace[i].reader.Some? && EntryOf(trace[i].now, o).Some? && Settled(trace[i], o)
    ensures var j := trace[i];
            && o in j.outer && StreamOk(StreamAt(j, o))
            && (Quiescent(StreamAt(j, o)) ==>
                  LastTold(j).Some? && LastTold(j) == Served(j.now, o.ns, o.pod, o.port))
  {
    TogetherKeeps(env, o, trace, moves, i);
    RestServes(env, o, trace[i]);
  }

  lemma RestServes(env: Env, o: OuterId, j: System)
    requires SystemOk(env, o, j) && j.reader.Some? && EntryOf(j.now, o).Some? && Settled(j, o)
    ensures Quiescent(StreamAt(j, o)) ==>
              LastTold(j).Some? && LastTold(j) == Served(j.now, o.ns, o.pod, o.port)
  {
    FoundIsConnected(env, j.now, o.ns, o.pod, o.port);
    assert OuterOk(j, o) && InnerOk(j, j.now.store.outer[o]);
    if Quiescent(StreamAt(j, o)) {
      RestAgrees(StreamAt(j, o));
    }
  }

  /** Two values look the same to a proxy exactly when they differ at most in an authorization of the
      kubelet's name, so not every value that is handed out is news to it. */
  lemma OverlayHides(kubelet: seq<IpAddr>, a: InboundServer, b: InboundServer)
    ensures MkServer(kubelet, a) == MkServer(kubelet, b) <==>
              a.protocol == b.protocol && a.authorizations - {HEALTH_CHECK} == b.authorizations - {HEALTH_CHECK}
  {
    var x, y := MkServer(kubelet, a).authorizations, MkServer(kubelet, b).authorizations;
    assert x - {HEALTH_CHECK} == a.authorizations - {HEALTH_CHECK};
    assert y - {HEALTH_CHECK} == b.authorizations - {HEALTH_CHECK};
    assert x == (x - {HEALTH_CHECK})[HEALTH_CHECK := KubeletAuthz(kubelet)];
    assert y == (y - {HEALTH_CHECK})[HEALTH_CHECK := KubeletAuthz(kubelet)];
  }

  // --- End to end --------------------------------------------------------------------------------

  /** Index and stream together: whatever admissible operations the index has begun and however its
      sends raced with the stream, once the stream of a served port is at rest with nothing left to be
      done for the port, the proxy that decodes its last value lets a connection in exactly if it comes
      from the pod's kubelet or the governing policy, computed from scratch, admits it. */
  lemma EndToEnd(env: Env, o: OuterId, trace: seq<System>, moves: seq<Move>, i: nat, ip: IpAddr, c: Connection)
    requires Together(env, o, trace, moves) && trace[0] == Fresh(env) && i < |trace|
    requires trace[i].reader.Some? && EntryOf(trace[i].now, o).Some? && Settled(trace[i], o)
    requires AdmissibleRun(env, EMPTY, trace[i].ops)
    ensures var j, records := trace[i], RecordsOf(CRun(env, EMPTY, trace[i].ops), o.ns);
            && Discoverable(records, o.pod, o.port)
            && o in j.outer && StreamOk(StreamAt(j, o))
            && var kubelet, policy := records.pods[o.pod].ips.value, Governing(env, records, o.pod, o.port);
            (Quiescent(StreamAt(j, o)) ==>
               && LastTold(j).Some?
               && var seen := Client.FromServer(Proto.ToServer(LastTold(j).value));
               && seen.Ok?
               && (Client.Check(seen.value.authorizations, ip, c).Some? <==>
                     || ip in kubelet
                     || Admits(policy.(authorizations := policy.authorizations - {HEALTH_CHECK}), ip, c)))
  {
    var j := trace[i];
    StreamAtRestServes(env, o, trace, moves, i);
    TogetherRuns(env, o, trace, moves, i);
    WholeRun(env, j.ops, j.now);
    ServedKubelet(env, j.ops, j.now, o);
    var records := RecordsOf(CRun(env, EMPTY, j.ops), o.ns);
    assert Served(j.now, o.ns, o.pod, o.port) == FromScratch(env, records, o.pod, o.port);
    var kubelet, policy := records.pods[o.pod].ips.value, Governing(env, records, o.pod, o.port);
    if Quiescent(StreamAt(j, o)) {
      Translation.DecisionSurvives(MkServer(kubelet, policy), ip, c);
      KubeletAccessIsExact(kubelet, policy, ip, c);
    }
  }

  /** The kubelet addresses in the lookup map are those on record, and there are some. */
  lemma ServedKubelet(env: Env, ops: seq<Op>, s: State, o: OuterId)
    requires Steps(env, Init(env), ops, s) && AdmissibleRun(env, EMPTY, ops) && EntryOf(s, o).Some?
    ensures var records := RecordsOf(CRun(env, EMPTY, ops), o.ns);
            && Discoverable(records, o.pod, o.port)
            && records.pods[o.pod].ips == Some(EntryOf(s, o).value.kubelet)
            && EntryOf(s, o).value.kubelet != []
  {
    InitInv(env);
    InitAgrees(env);
    RunAgrees(env, EMPTY, Init(env), ops, s);
    ServedIsFromScratch(env, CRun(env, EMPTY, ops), s, o.ns, o.pod, o.port);
    FoundIsConnected(env, s, o.ns, o.pod, o.port);
    assert AgreesAt(env, CRun(env, EMPTY, ops), s, o.ns);
    assert LookupOk(PodsIn(s.namespaces, o.ns), LookupIn(s.lookups, o.ns));
    assert EntryOk(PodsIn(s.namespaces, o.ns)[o.pod], LookupIn(s.lookups, o.ns)[o.pod]);
  }
}
