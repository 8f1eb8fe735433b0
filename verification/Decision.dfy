/** From the events to the proxy's decision, in the words of the resources: who is let in on a port is said
    by the objects that are live, read field by field. */
module Decision {
  import opened Base
  import Client
  import opened Cluster
  import E = Events
  import opened Net
  import opened Policy
  import opened Ports
  import Proto
  import Resources
  import opened Translation
  import opened IndexState
  import opened Invariant
  import opened Refinement
  import opened Agreement
  import opened Binding
  import opened LiveObjects
  import opened Intake
  import opened PodIntake
  import opened Indexer
  import opened Watch
  import opened Stream
  import opened Joint
  import opened Delivery
  import opened Discovery

  // --- What the events say ----------------------------------------------------------------------

  /** A live server claims the port of the pod. */
  ghost predicate Claimant(evs: seq<E.Event>, ns: string, pod: Resources.Pod, p: u16, n: string) {
    LiveServer(evs, ns, n).Some? && Wants(LiveServer(evs, ns, n).value.latest, pod, p)
  }

  /** Some live authorization lets the client in on the server. Its name is any but the one that is kept for
      the kubelet. */
  ghost predicate LetIn(env: Env, evs: seq<E.Event>, ns: string, n: string, ip: IpAddr, c: Connection)
    requires LiveServer(evs, ns, n).Some?
  {
    exists z :: z != "_health_check" && Says(env, evs, ns, n, z, ip, c)
  }

  ghost predicate Says(env: Env, evs: seq<E.Event>, ns: string, n: string, z: string, ip: IpAddr, c: Connection)
    requires LiveServer(evs, ns, n).Some?
  {
    && LiveAuthz(evs, ns, z).Some?
    && SaysYes(LiveAuthz(evs, ns, z).value, env.identityDomain, n, LiveServer(evs, ns, n).value.latest.labels, ip, c)
  }

  /** The default policy that the pod's annotation, or else the cluster, asks for lets the client in. */
  ghost predicate LetInByDefault(env: Env, pod: Resources.Pod, ip: IpAddr, c: Connection) {
    exists mode :: Resources.AsksFor(env, pod.defaultAllow, mode) && DefaultMeans(env, mode, ip, c)
  }

  // --- The policy of a port -------------------------------------------------------------------------

  lemma DefaultLetsIn(env: Env, pod: Resources.Pod, ip: IpAddr, c: Connection)
    ensures var policy := DefaultConfig(env, Resources.PodMode(env, pod));
            && (Admits(policy.(authorizations := policy.authorizations - {HEALTH_CHECK}), ip, c) <==>
                  LetInByDefault(env, pod, ip, c))
            && policy.protocol == Detect(env.detectTimeout)
  {
    var mode := Resources.PodMode(env, pod);
    var policy := DefaultConfig(env, mode);
    assert policy.authorizations - {HEALTH_CHECK} == policy.authorizations;
    DefaultPolicyMeans(env, mode, ip, c);
    forall other
      ensures Resources.AsksFor(env, pod.defaultAllow, other) <==> other == mode
    {
      Resources.PodModeMeaning(env, pod, other);
    }
  }

  lemma ServerLetsIn(env: Env, evs: seq<E.Event>, r: Records, ns: string, n: string, ip: IpAddr, c: Connection)
    requires HoldsLive(env, evs, ns, r) && n in r.servers
    ensures LiveServer(evs, ns, n).Some?
    ensures var policy := ServerConfig(r, n);
            && (Admits(policy.(authorizations := policy.authorizations - {HEALTH_CHECK}), ip, c) <==>
                  LetIn(env, evs, ns, n, ip, c))
            && Resources.AsksForProtocol(LiveServer(evs, ns, n).value.created.proxyProtocol, policy.protocol)
  {
    assert ServerIsLive(evs, r.servers, ns, n);
    var labels := r.servers[n].labels;
    var view := AuthView(r.authzs, n, labels);
    forall z
      ensures z in view && Permits(view[z], ip, c) <==> Says(env, evs, ns, n, z, ip, c)
    {
      assert AuthzIsLive(env, evs, r.authzs, ns, z);
      if LiveAuthz(evs, ns, z).Some? {
        ObjectPermits(LiveAuthz(evs, ns, z).value, env.identityDomain, n, labels, ip, c);
      }
    }
    var rest := view - {HEALTH_CHECK};
    assert forall z :: z in rest <==> z in view && z != "_health_check";
    assert forall z | z in rest :: rest[z] == view[z];
  }

  /** On record as in the events: the port is discoverable, and who claims it. */
  lemma PortIsLive(env: Env, evs: seq<E.Event>, r: Records, ns: string, x: string, p: u16)
    requires HoldsLive(env, evs, ns, r)
    ensures var life := LivePod(evs, ns, x);
            && (Discoverable(r, x, p) <==> life.Some? && life.value.ips.Some? && Exposed(Containers(life.value.pod), p))
            && (x in r.pods ==> life == Some(PodLife(r.pods[x].pod, r.pods[x].ips)))
            && (x in r.pods ==> forall n ::
                  n in ClaimsOf(r.servers, r.pods[x].pod, p) <==> Claimant(evs, ns, r.pods[x].pod, p, n))
  {
    assert Life(Get(r.pods, x)) == LivePod(evs, ns, x);
    if x in r.pods {
      DeclaredPortsOf(r.pods[x].pod, p);
      forall n
        ensures n in ClaimsOf(r.servers, r.pods[x].pod, p) <==> Claimant(evs, ns, r.pods[x].pod, p, n)
      {
        ClaimsIfWants(env, evs, r, ns, r.pods[x].pod, p, n);
      }
    }
  }

  /** The governing policy lets in whom the one claimant does, or the default if there is none. */
  lemma PolicyLetsIn(env: Env, evs: seq<E.Event>, r: Records, ns: string, x: string, p: u16, ip: IpAddr,
                     c: Connection)
    requires HoldsLive(env, evs, ns, r) && Discoverable(r, x, p)
    requires AtMostOne(ClaimsOf(r.servers, r.pods[x].pod, p))
    ensures var pod, policy := r.pods[x].pod, Governing(env, r, x, p);
            && (Admits(policy.(authorizations := policy.authorizations - {HEALTH_CHECK}), ip, c) <==>
                  || (exists n :: Claimant(evs, ns, pod, p, n) && LetIn(env, evs, ns, n, ip, c))
                  || ((forall n :: !Claimant(evs, ns, pod, p, n)) && LetInByDefault(env, pod, ip, c)))
            && ProtocolIs(env, evs, ns, pod, p, policy.protocol)
  {
    var pod := r.pods[x].pod;
    PortIsLive(env, evs, r, ns, x, p);
    var claims := ClaimsOf(r.servers, pod, p);
    if claims == {} {
      assert forall n :: !Claimant(evs, ns, pod, p, n);
      DefaultLetsIn(env, pod, ip, c);
    } else {
      var n :| n in claims && Governing(env, r, x, p) == ServerConfig(r, n);
      assert Claimant(evs, ns, pod, p, n);
      assert forall other | Claimant(evs, ns, pod, p, other) :: other in claims && other == n;
      ServerLetsIn(env, evs, r, ns, n, ip, c);
    }
  }

  /** The protocol that the claimant was created with, or else one to be detected in the cluster's time. */
  ghost predicate ProtocolIs(env: Env, evs: seq<E.Event>, ns: string, pod: Resources.Pod, p: u16,
                             protocol: ProxyProtocol)
  {
    && (forall n | Claimant(evs, ns, pod, p, n) ::
          Resources.AsksForProtocol(LiveServer(evs, ns, n).value.created.proxyProtocol, protocol))
    && ((forall n :: !Claimant(evs, ns, pod, p, n)) ==> protocol == Detect(env.detectTimeout))
  }

  // --- The whole way -----------------------------------------------------------------------------------

  /** What a client may do on a port, by the events: it is the pod's kubelet, or the server that claims the
      port has an authorization that lets it in, or no server does and the default lets it in. */
  ghost predicate MayConnect(env: Env, evs: seq<E.Event>, ns: string, life: PodLife, p: u16, ip: IpAddr,
                             c: Connection)
    requires life.ips.Some?
  {
    || ip in life.ips.value
    || (exists n :: Claimant(evs, ns, life.pod, p, n) && LetIn(env, evs, ns, n, ip, c))
    || ((forall n :: !Claimant(evs, ns, life.pod, p, n)) && LetInByDefault(env, life.pod, ip, c))
  }

  lemma AdmissibleIsConflictFree(env: Env, ops: seq<Op>, s: State, r: Records, ns: string, x: string, p: u16)
    requires Steps(env, Init(env), ops, s) && AdmissibleRun(env, EMPTY, ops)
    requires r == RecordsOf(CRun(env, EMPTY, ops), ns) && Discoverable(r, x, p)
    ensures AtMostOne(ClaimsOf(r.servers, r.pods[x].pod, p))
    ensures r.pods[x].ips.value != []
  {
    InitInv(env);
    InitAgrees(env);
    RunAgrees(env, EMPTY, Init(env), ops, s);
    ExactIsConflictFree(env, CRun(env, EMPTY, ops), s);
    assert NsConflictFree(r);
    assert AgreesAt(env, CRun(env, EMPTY, ops), s, ns);
    assert LookupOk(PodsIn(s.namespaces, ns), LookupIn(s.lookups, ns));
    assert x in PodsIn(s.namespaces, ns);
    assert EntryOk(PodsIn(s.namespaces, ns)[x], LookupIn(s.lookups, ns)[x]);
    assert PodAgrees(env, r.pods[x], NsIn(s.namespaces, ns).pods[x]);
  }

  /** After any admissible events, a port is served exactly if a live pod that has met its node exposes it,
      and the proxy that decodes what is served lets a client in exactly if the live objects say so. */
  lemma ProxyDecides(env: Env, evs: seq<E.Event>, ops: seq<Op>, s: State, ns: string, x: string, p: u16, ip: IpAddr,
                     c: Connection)
    requires E.EventsRun(env, Init(env), evs, ops, s) && AdmissibleRun(env, EMPTY, ops)
    ensures var served, life := Served(s, ns, x, p), LivePod(evs, ns, x);
            && (served.Some? <==> life.Some? && life.value.ips.Some? && Exposed(Containers(life.value.pod), p))
            && (served.Some? ==>
                  var seen := Client.FromServer(Proto.ToServer(served.value));
                  && seen.Ok?
                  && (Client.Check(seen.value.authorizations, ip, c).Some? <==>
                        MayConnect(env, evs, ns, life.value, p, ip, c))
                  && (env.detectTimeout.secs <= Proto.MAX_SECONDS ==>
                        ProtocolIs(env, evs, ns, life.value.pod, p, seen.value.protocol)))
  {
    EventsServeFromScratch(env, evs, ops, s);
    E.EventsRunIsSteps(env, Init(env), evs, ops, s);
    var r := RecordsOf(CRun(env, EMPTY, ops), ns);
    assert HoldsLive(env, evs, ns, r);
    PortIsLive(env, evs, r, ns, x, p);
    assert Served(s, ns, x, p) == FromScratch(env, r, x, p);
    if Discoverable(r, x, p) {
      AdmissibleIsConflictFree(env, ops, s, r, ns, x, p);
      PolicyDecodes(env, evs, r, ns, x, p, ip, c);
    }
  }

  lemma PolicyDecodes(env: Env, evs: seq<E.Event>, r: Records, ns: string, x: string, p: u16, ip: IpAddr,
                      c: Connection)
    requires HoldsLive(env, evs, ns, r) && Discoverable(r, x, p) && r.pods[x].ips.value != []
    requires AtMostOne(ClaimsOf(r.servers, r.pods[x].pod, p))
    ensures var life, served := PodLife(r.pods[x].pod, r.pods[x].ips), FromScratch(env, r, x, p).value;
            var seen := Client.FromServer(Proto.ToServer(served));
            && seen.Ok?
            && (Client.Check(seen.value.authorizations, ip, c).Some? <==> MayConnect(env, evs, ns, life, p, ip, c))
            && (env.detectTimeout.secs <= Proto.MAX_SECONDS ==>
                  ProtocolIs(env, evs, ns, life.pod, p, seen.value.protocol))
  {
    var kubelet, policy := r.pods[x].ips.value, Governing(env, r, x, p);
    PolicyLetsIn(env, evs, r, ns, x, p, ip, c);
    KubeletAccessIsExact(kubelet, policy, ip, c);
    DecisionSurvives(MkServer(kubelet, policy), ip, c);
    ProtocolSurvives(MkServer(kubelet, policy));
    PortIsLive(env, evs, r, ns, x, p);
    if env.detectTimeout.secs <= Proto.MAX_SECONDS {
      assert Representable(policy.protocol);
    }
  }

  /** The same for a stream, however the index's sends raced with it: once it is at rest and nothing is left
      to be sent for its port, the proxy lets a client in exactly if the live objects say so. */
  lemma StreamDecides(env: Env, evs: seq<E.Event>, o: OuterId, trace: seq<System>, moves: seq<Move>, i: nat, ip: IpAddr,
                      c: Connection)
    requires Together(env, o, trace, moves) && trace[0] == Fresh(env) && i < |trace|
    requires trace[i].reader.Some? && EntryOf(trace[i].now, o).Some? && Settled(trace[i], o)
    requires E.EventsRun(env, Init(env), evs, trace[i].ops, trace[i].now) && AdmissibleRun(env, EMPTY, trace[i].ops)
    ensures var j, life := trace[i], LivePod(evs, o.ns, o.pod);
            && life.Some? && life.value.ips.Some?
            && o in j.outer && StreamOk(StreamAt(j, o))
            && (Quiescent(StreamAt(j, o)) ==>
                  && LastTold(j).Some?
                  && var seen := Client.FromServer(Proto.ToServer(LastTold(j).value));
                  && seen.Ok?
                  && (Client.Check(seen.value.authorizations, ip, c).Some? <==>
                        MayConnect(env, evs, o.ns, life.value, o.port, ip, c)))
  {
    var j := trace[i];
    StreamAtRestServes(env, o, trace, moves, i);
    ProxyDecides(env, evs, j.ops, j.now, o.ns, o.pod, o.port, ip, c);
    E.EventsKeepInv(env, evs, j.ops, j.now);
    FoundIsConnected(env, j.now, o.ns, o.pod, o.port);
  }
}
