/** The cluster as the event history describes it, without any index: the accepted resources, and
    which pods have become discoverable. The policy of a port is computed from it from scratch. */
module Cluster {
  import opened Base
  import opened Labels
  import opened Net
  import opened Policy
  import opened Ports
  import Resources
  import opened IndexState

  /** The latest object of a pod, and the kubelet addresses of its node once it has been observed
      together with its node. */
  datatype PodRecord = PodRecord(pod: Resources.Pod, ips: Option<seq<IpAddr>>)

  /** One namespace: the accepted authorizations, the servers with the protocol they were created
      with, and the pods. */
  datatype Records = Records(
    authzs: map<string, Authz>,
    servers: map<string, ServerMeta>,
    pods: map<string, PodRecord>)

  /** The namespaces and the kubelet addresses of the observed nodes. */
  datatype Cluster = Cluster(namespaces: map<string, Records>, nodes: map<string, seq<IpAddr>>)

  const NO_RECORDS := Records(map[], map[], map[])

  const EMPTY := Cluster(map[], map[])

  function RecordsOf(c: Cluster, ns: string): Records {
    if ns in c.namespaces then c.namespaces[ns] else NO_RECORDS
  }

  function Put(c: Cluster, ns: string, r: Records): Cluster {
    c.(namespaces := c.namespaces[ns := r])
  }

  function Place(nodes: map<string, seq<IpAddr>>, pod: Resources.Pod): Option<seq<IpAddr>> {
    var node := Resources.NodeName(pod);
    if node.Some? && node.value in nodes then Some(nodes[node.value]) else None
  }

  /** A discoverable pod keeps its addresses; any other takes those of its node if observed. */
  function Placed(nodes: map<string, seq<IpAddr>>, rec: PodRecord): PodRecord {
    if rec.ips.Some? then rec else PodRecord(rec.pod, Place(nodes, rec.pod))
  }

  function PlaceAll(nodes: map<string, seq<IpAddr>>, r: Records): Records {
    r.(pods := map x | x in r.pods :: Placed(nodes, r.pods[x]))
  }

  function OnlyPlaced(r: Records): Records {
    r.(pods := map x | x in r.pods && r.pods[x].ips.Some? :: r.pods[x])
  }

  function AuthzPut(env: Env, r: Records, a: Resources.ServerAuthorization): Records {
    match Resources.MkAuthz(a, env.identityDomain)
    case Err => r
    case Ok(z) => r.(authzs := r.authzs[a.name := z])
  }

  function ServerPut(r: Records, srv: Resources.Server): Records {
    var protocol := if srv.name in r.servers then r.servers[srv.name].protocol
        else Resources.MkProtocol(srv.proxyProtocol);
    r.(servers := r.servers[srv.name := ServerMeta(srv.labels, srv.port, srv.podSelector, protocol)])
  }

  function PodPut(nodes: map<string, seq<IpAddr>>, r: Records, pod: Resources.Pod): Records {
    var ips := if pod.name in r.pods then r.pods[pod.name].ips else None;
    r.(pods := r.pods[pod.name := Placed(nodes, PodRecord(pod, ips))])
  }

  function AuthzDropped(r: Records, name: string): Records {
    r.(authzs := r.authzs - {name})
  }

  function ServerDropped(r: Records, name: string): Records {
    r.(servers := r.servers - {name})
  }

  function PodDropped(r: Records, name: string): Records {
    r.(pods := r.pods - {name})
  }

  /** A node is observed: the pods that wait for it become discoverable. */
  function Observe(c: Cluster, m: string, ips: seq<IpAddr>): Cluster {
    var nodes := c.nodes[m := ips];
    Cluster(map ns | ns in c.namespaces :: PlaceAll(nodes, c.namespaces[ns]), nodes)
  }

  /** What an operation does to the cluster's records. */
  function CStep(env: Env, c: Cluster, op: Op): Cluster {
    match op
    case ApplyAuthz(a) => Put(c, a.ns, AuthzPut(env, RecordsOf(c, a.ns), a))
    case DeleteAuthz(ns, name) => Put(c, ns, AuthzDropped(RecordsOf(c, ns), name))
    case ApplyServer(srv) => Put(c, srv.ns, ServerPut(RecordsOf(c, srv.ns), srv))
    case RmServer(ns, name) => Put(c, ns, ServerDropped(RecordsOf(c, ns), name))
    case ApplyPod(pod) => Put(c, pod.ns, PodPut(c.nodes, RecordsOf(c, pod.ns), pod))
    case RmPod(ns, name) => Put(c, ns, PodDropped(RecordsOf(c, ns), name))
    case ClearPending => c.(namespaces := map ns | ns in c.namespaces :: OnlyPlaced(c.namespaces[ns]))
    case ApplyNode(node) =>
      (match Resources.KubeletIps(node)
       case Err => c
       case Ok(ips) =>
         if node.name in c.nodes then c else Observe(c, node.name, ips))
    case RemoveNode(name) => c.(nodes := c.nodes - {name})
  }

  function CRun(env: Env, c: Cluster, ops: seq<Op>): Cluster {
    if ops == [] then c else CStep(env, CRun(env, c, ops[..|ops| - 1]), ops[|ops| - 1])
  }

  // --- From scratch -----------------------------------------------------------------

  function Decls(pod: Resources.Pod): seq<Decl> {
    if pod.spec.Some? then Declared(pod.spec.value.containers) else []
  }

  function PodPorts(pod: Resources.Pod): set<u16> {
    PortSet(Decls(pod))
  }

  /** The servers of a namespace that claim a pod's port. */
  function ClaimsOf(servers: map<string, ServerMeta>, pod: Resources.Pod, p: u16): set<string> {
    set n | n in servers && SelectsPort(servers[n], pod.labels, Named(Decls(pod)), p)
  }

  function ServerConfig(r: Records, name: string): InboundServer
    requires name in r.servers
  {
    InboundServer(r.servers[name].protocol, AuthView(r.authzs, name, r.servers[name].labels))
  }

  predicate Discoverable(r: Records, x: string, p: u16) {
    x in r.pods && r.pods[x].ips.Some? && p in PodPorts(r.pods[x].pod)
  }

  /** The policy of a port, from the live resources of its namespace alone: that of the server that
      claims it, or the pod's default. */
  ghost function Governing(env: Env, r: Records, x: string, p: u16): InboundServer
    requires Discoverable(r, x, p)
  {
    var pod := r.pods[x].pod;
    var claims := ClaimsOf(r.servers, pod, p);
    if claims == {} then DefaultConfig(env, Resources.PodMode(env, pod))
    else var n :| n in claims; ServerConfig(r, n)
  }

  /** What a proxy ought to be told: the governing policy and the kubelet's standing permission. */
  ghost function FromScratch(env: Env, r: Records, x: string, p: u16): Option<InboundServer> {
    if Discoverable(r, x, p) then Some(MkServer(r.pods[x].ips.value, Governing(env, r, x, p))) else None
  }

  // --- What the operator must guarantee ----------------------------------------------

  predicate AtMostOne(s: set<string>) {
    forall x, y | x in s && y in s :: x == y
  }

  ghost predicate NsConflictFree(r: Records) {
    forall x, p | Discoverable(r, x, p) :: AtMostOne(ClaimsOf(r.servers, r.pods[x].pod, p))
  }

  /** No port of a discoverable pod is claimed by two servers. */
  ghost predicate ConflictFree(c: Cluster) {
    forall ns :: NsConflictFree(RecordsOf(c, ns))
  }

  /** Relabelling a discoverable pod does not pass a port from one server straight to another. */
  ghost predicate NoHandover(c: Cluster, op: Op) {
    op.ApplyPod? ==>
      var r := RecordsOf(c, op.pod.ns);
      forall p, n, n' | Discoverable(r, op.pod.name, p)
                     && n in ClaimsOf(r.servers, r.pods[op.pod.name].pod, p) && n' in ClaimsOf(r.servers, op.pod, p) ::
        n == n'
  }

  /** A live pod keeps its node once it has one; a discoverable one keeps its set of ports, what
      their names resolve to, and its default policy. */
  predicate KeepsSpec(env: Env, rec: PodRecord, pod: Resources.Pod) {
    && (rec.ips.Some? ==>
          && pod.spec.Some? && PodPorts(pod) == PodPorts(rec.pod) && Named(Decls(pod)) == Named(Decls(rec.pod))
          && Resources.PodMode(env, pod) == Resources.PodMode(env, rec.pod))
    && (rec.ips.None? && Resources.NodeName(rec.pod).Some? ==> Resources.NodeName(pod) == Resources.NodeName(rec.pod))
  }

  predicate Waiting(c: Cluster, m: string, ns: string, x: string) {
    var pods := RecordsOf(c, ns).pods;
    x in pods && pods[x].ips.None? && Resources.NodeName(pods[x].pod) == Some(m)
  }

  /** Applied pods keep their specs, and a node is removed only when no pod waits for it. */
  ghost predicate Stable(env: Env, c: Cluster, op: Op) {
    match op
    case ApplyPod(pod) =>
      var pods := RecordsOf(c, pod.ns).pods;
      pod.name in pods ==> KeepsSpec(env, pods[pod.name], pod)
    case RemoveNode(m) => forall ns, x :: !Waiting(c, m, ns, x)
    case _ => true
  }

  ghost predicate Admissible(env: Env, c: Cluster, op: Op) {
    Stable(env, c, op) && NoHandover(c, op) && ConflictFree(CStep(env, c, op))
  }

  /** Every operation of a run is stable when its turn comes. */
  ghost predicate StableRun(env: Env, c: Cluster, ops: seq<Op>) {
    ops != [] ==>
      && StableRun(env, c, ops[..|ops| - 1])
      && Stable(env, CRun(env, c, ops[..|ops| - 1]), ops[|ops| - 1])
  }

  /** Every operation of a run is admissible when its turn comes. */
  ghost predicate AdmissibleRun(env: Env, c: Cluster, ops: seq<Op>) {
    ops != [] ==>
      && AdmissibleRun(env, c, ops[..|ops| - 1])
      && Admissible(env, CRun(env, c, ops[..|ops| - 1]), ops[|ops| - 1])
  }
}
