/** The state of the index as a value, and what each operation does to it. The classes of the index
    are proved against these definitions; the theorems are proved about them. */
module IndexState {
  import opened Base
  import opened Labels
  import opened Net
  import opened Policy
  import opened Ports
  import Resources
  import opened Watch

  type Authz = Resources.Authz

  datatype ServerMeta = ServerMeta(
    labels: Labels,
    port: Resources.PortRef,
    podSelector: Selector,
    protocol: ProxyProtocol)

  datatype ServerEntry = ServerEntry(meta: ServerMeta, authorizations: Authorizations, chan: ChanId)

  datatype PortEntry = PortEntry(serverName: Option<string>, tx: OuterId)

  datatype PodEntry = PodEntry(
    byPort: map<u16, PortEntry>,
    byName: NameIndex,
    labels: Labels,
    defaultRx: ChanId)

  datatype Ns = Ns(pods: map<string, PodEntry>, servers: map<string, ServerEntry>, authzs: map<string, Authz>)

  datatype NodeState = Pending(pods: map<string, map<string, Resources.Pod>>) | Known(ips: seq<IpAddr>)

  datatype Rx = Rx(kubelet: seq<IpAddr>, rx: OuterId)

  type Lookups = map<string, map<string, map<u16, Rx>>>

  datatype State = State(
    namespaces: map<string, Ns>,
    nodes: map<string, NodeState>,
    lookups: Lookups,
    store: Store)

  const EMPTY_NS := Ns(map[], map[], map[])

  function Init(env: Env): State {
    State(map[], map[], map[], InitialStore(env))
  }

  function NsIn(namespaces: map<string, Ns>, ns: string): Ns {
    if ns in namespaces then namespaces[ns] else EMPTY_NS
  }

  function EnsureNs(s: State, ns: string): State {
    if ns in s.namespaces then s else s.(namespaces := s.namespaces[ns := EMPTY_NS])
  }

  // --- Authorizations and servers ---------------------------------------------------

  predicate SelectsServer(sel: Resources.ServerSelector, name: string, labels: Labels) {
    match sel
    case ByName(n) => n == name
    case ByLabels(s) => Matches(s, labels)
  }

  /** The authorizations that select a server, computed from scratch (`filter_selected`). */
  function AuthView(authzs: map<string, Authz>, name: string, labels: Labels): Authorizations {
    map a | a in authzs && SelectsServer(authzs[a].servers, name, labels) :: authzs[a].clients
  }

  function Published(srv: ServerEntry): InboundServer {
    InboundServer(srv.meta.protocol, srv.authorizations)
  }

  /** Every server of a namespace sends its current policy on its own channel. */
  function Republish(inner: Inner, ns: string, servers: map<string, ServerEntry>): Inner {
    map c | c in inner ::
      if c.ServerChan? && c.ns == ns && c.name in servers && servers[c.name].chan == c
      then Published(servers[c.name])
      else inner[c]
  }

  function Patched(auths: Authorizations, name: string, selected: bool, clients: ClientAuthorization)
    : Authorizations
  {
    if selected then auths[name := clients] else auths - {name}
  }

  function WithAuthz(servers: map<string, ServerEntry>, name: string, a: Authz): map<string, ServerEntry> {
    map n | n in servers ::
      servers[n].(authorizations :=
        Patched(servers[n].authorizations, name, SelectsServer(a.servers, n, servers[n].meta.labels), a.clients))
  }

  function WithoutAuthz(servers: map<string, ServerEntry>, name: string): map<string, ServerEntry> {
    map n | n in servers :: servers[n].(authorizations := servers[n].authorizations - {name})
  }

  function MetaOf(srv: Resources.Server): ServerMeta {
    ServerMeta(srv.labels, srv.port, srv.podSelector, Resources.MkProtocol(srv.proxyProtocol))
  }

  /** An update of an existing server. The protocol is replaced only by an equal one, so the one
      the server was created with stays. */
  function Updated(entry: ServerEntry, srv: Resources.Server, authzs: map<string, Authz>): ServerEntry {
    ServerEntry(
      ServerMeta(srv.labels, srv.port, srv.podSelector, entry.meta.protocol),
      if entry.meta.labels != srv.labels then AuthView(authzs, srv.name, srv.labels) else entry.authorizations,
      entry.chan)
  }

  function ServersAfter(n: Ns, srv: Resources.Server, next: nat): map<string, ServerEntry> {
    n.servers[srv.name :=
      if srv.name in n.servers then Updated(n.servers[srv.name], srv, n.authzs)
      else ServerEntry(MetaOf(srv), AuthView(n.authzs, srv.name, srv.labels), ServerChan(srv.ns, srv.name, next))]
  }

  /** The inner channels after `SrvIndex::apply`; a new server brings its own. */
  function InnerAfter(n: Ns, srv: Resources.Server, store: Store): Inner {
    var servers := ServersAfter(n, srv, store.next);
    if srv.name in n.servers then Republish(store.inner, srv.ns, servers)
    else store.inner[servers[srv.name].chan := Published(servers[srv.name])]
  }

  function NextAfter(n: Ns, srv: Resources.Server, store: Store): nat {
    if srv.name in n.servers then store.next else store.next + 1
  }

  // --- Binding ports to servers --------------------------------------------------------

  predicate SelectsPort(m: ServerMeta, labels: Labels, byName: NameIndex, p: u16) {
    && Matches(m.podSelector, labels)
    && match m.port
       case Number(q) => q == p
       case Named(x) => x in byName && p in byName[x]
  }

  /** A port reference means the port of that number, or the one whose first declaration has that name. */
  ghost predicate RefersTo(port: Resources.PortRef, decls: seq<Decl>, p: u16) {
    || port == Resources.Number(p)
    || exists x, i :: port == Resources.Named(x) && 0 <= i < |decls| && decls[i] == Decl(p, Some(x)) && First(decls, i)
  }

  lemma SelectsPortMeaning(m: ServerMeta, labels: Labels, decls: seq<Decl>, p: u16)
    ensures SelectsPort(m, labels, Named(decls), p) <==> Matches(m.podSelector, labels) && RefersTo(m.port, decls, p)
  {
    if m.port.Named? {
      NamedMeaning(decls, m.port.name, p);
    }
  }

  /** The servers that claim a port of a pod. */
  function Claims(servers: map<string, ServerEntry>, labels: Labels, byName: NameIndex, p: u16): set<string> {
    set n | n in servers && SelectsPort(servers[n].meta, labels, byName, p)
  }

  /** One port before and after linking. An unclaimed port is reset; a bound port that is still
      claimed by anyone keeps its server; an unbound one takes any server that claims it. */
  predicate PortLinked(servers: map<string, ServerEntry>, claims: set<string>, defaultRx: ChanId,
                       before: PortEntry, after: PortEntry, wasAt: ChanId, nowAt: ChanId)
    requires claims <= servers.Keys
  {
    && after.tx == before.tx
    && (claims == {} ==> after.serverName == None && nowAt == defaultRx)
    && (claims != {} && before.serverName.Some? ==> after == before && nowAt == wasAt)
    && (claims != {} && before.serverName.None? ==>
          after.serverName.Some? && after.serverName.value in claims && nowAt == servers[after.serverName.value].chan)
  }

  ghost predicate PodLinked(servers: map<string, ServerEntry>, before: PodEntry, after: PodEntry, outer: Outer,
                            outer': Outer) {
    && after == before.(byPort := after.byPort)
    && after.byPort.Keys == before.byPort.Keys
    && forall p | p in before.byPort ::
         && before.byPort[p].tx in outer && before.byPort[p].tx in outer'
         && PortLinked(servers, Claims(servers, before.labels, before.byName, p), before.defaultRx,
                       before.byPort[p], after.byPort[p], outer[before.byPort[p].tx], outer'[before.byPort[p].tx])
  }

  /** The outer channels that a pod's ports send on. */
  predicate Owns(ns: string, name: string, pod: PodEntry, o: OuterId) {
    o.ns == ns && o.pod == name && o.port in pod.byPort && pod.byPort[o.port].tx == o
  }

  predicate OneOwns(ns: string, pods: map<string, PodEntry>, o: OuterId) {
    o.pod in pods && Owns(ns, o.pod, pods[o.pod], o)
  }

  ghost predicate AllLinked(ns: string, servers: map<string, ServerEntry>, pods: map<string, PodEntry>,
                      pods': map<string, PodEntry>, outer: Outer, outer': Outer)
  {
    && pods'.Keys == pods.Keys
    && (forall n | n in pods :: PodLinked(servers, pods[n], pods'[n], outer, outer'))
    && outer'.Keys == outer.Keys
    && (forall o | o in outer && !OneOwns(ns, pods, o) :: outer'[o] == outer[o])
  }

  function ResetPort(port: PortEntry, name: string): PortEntry {
    if port.serverName == Some(name) then port.(serverName := None) else port
  }

  function ResetPod(pod: PodEntry, name: string): PodEntry {
    pod.(byPort := map p | p in pod.byPort :: ResetPort(pod.byPort[p], name))
  }

  function ResetPods(pods: map<string, PodEntry>, name: string): map<string, PodEntry> {
    map n | n in pods :: ResetPod(pods[n], name)
  }

  function ResetOuter(ns: string, pods: map<string, PodEntry>, name: string, outer: Outer): Outer {
    map o | o in outer ::
      if OneOwns(ns, pods, o) && pods[o.pod].byPort[o.port].serverName == Some(name)
      then pods[o.pod].defaultRx
      else outer[o]
  }

  // --- Lookups ------------------------------------------------------------------------------

  function SetLookup(l: Lookups, ns: string, pod: string, ports: map<u16, Rx>): Lookups {
    l[ns := (if ns in l then l[ns] else map[])[pod := ports]]
  }

  function UnsetLookup(l: Lookups, ns: string, pod: string): Lookups {
    if ns !in l || pod !in l[ns] then l
    else if l[ns] - {pod} == map[] then l - {ns}
    else l[ns := l[ns] - {pod}]
  }

  function RxMap(byPort: map<u16, PortEntry>, kubelet: seq<IpAddr>): map<u16, Rx> {
    map p | p in byPort :: Rx(kubelet, byPort[p].tx)
  }

  /** `Reader::lookup` followed by `Rx::get`: what a proxy is told about a port. */
  function Served(s: State, ns: string, pod: string, p: u16): Option<InboundServer> {
    if ns in s.lookups && pod in s.lookups[ns] && p in s.lookups[ns][pod] then
      var rx := s.lookups[ns][pod][p];
      if rx.rx in s.store.outer && s.store.outer[rx.rx] in s.store.inner
      then Some(MkServer(rx.kubelet, s.store.inner[s.store.outer[rx.rx]]))
      else None
    else None
  }

  // --- Nodes and pending pods ------------------------------------------------------------------

  predicate IsPending(nodes: map<string, NodeState>, node: string, ns: string, pod: string) {
    node in nodes && nodes[node].Pending? && ns in nodes[node].pods && pod in nodes[node].pods[ns]
  }

  predicate IsKnown(nodes: map<string, NodeState>, node: string) {
    node in nodes && nodes[node].Known?
  }

  function PushPending(nodes: map<string, NodeState>, node: string, pod: Resources.Pod): map<string, NodeState>
    requires !IsKnown(nodes, node)
  {
    var queue := if node in nodes then nodes[node].pods else map[];
    var inNs := if pod.ns in queue then queue[pod.ns] else map[];
    nodes[node := Pending(queue[pod.ns := inNs[pod.name := pod]])]
  }

  function Unpend(nodes: map<string, NodeState>, node: string, ns: string, pod: string): map<string, NodeState>
    requires IsPending(nodes, node, ns, pod)
  {
    nodes[node := Pending(nodes[node].pods[ns := nodes[node].pods[ns] - {pod}])]
  }

  function KnownNodes(nodes: map<string, NodeState>): map<string, NodeState> {
    map n | n in nodes && nodes[n].Known? :: nodes[n]
  }

  /** The pods that wait for a node. */
  function Queue(nodes: map<string, NodeState>, node: string): set<Id> {
    if node in nodes && nodes[node].Pending?
    then set ns, pod | ns in nodes[node].pods && pod in nodes[node].pods[ns] :: Id(ns, pod)
    else {}
  }

  // --- The operations -----------------------------------------------------------------------------

  datatype Op =
    | ApplyAuthz(authz: Resources.ServerAuthorization)
    | DeleteAuthz(ns: string, name: string)
    | ApplyServer(server: Resources.Server)
    | RmServer(ns: string, name: string)
    | ApplyPod(pod: Resources.Pod)
    | RmPod(ns: string, name: string)
    | ClearPending
    | ApplyNode(node: Resources.Node)
    | RemoveNode(name: string)

  function AuthzApplied(env: Env, s0: State, a: Resources.ServerAuthorization): State {
    var s := EnsureNs(s0, a.ns);
    var n := s.namespaces[a.ns];
    match Resources.MkAuthz(a, env.identityDomain)
    case Err => s
    case Ok(z) =>
      if a.name in n.authzs && n.authzs[a.name] == z then s
      else
        var servers := WithAuthz(n.servers, a.name, z);
        s.(namespaces := s.namespaces[a.ns := n.(servers := servers, authzs := n.authzs[a.name := z])],
           store := s.store.(inner := Republish(s.store.inner, a.ns, servers)))
  }

  function AuthzDeleted(s: State, ns: string, name: string): State {
    if ns !in s.namespaces then s
    else
      var n := s.namespaces[ns];
      var servers := WithoutAuthz(n.servers, name);
      s.(namespaces := s.namespaces[ns := n.(servers := servers, authzs := n.authzs - {name})],
         store := s.store.(inner := Republish(s.store.inner, ns, servers)))
  }

  ghost predicate ServerApplied(s0: State, srv: Resources.Server, s': State) {
    var s := EnsureNs(s0, srv.ns);
    var n := s.namespaces[srv.ns];
    && srv.ns in s'.namespaces
    && var n' := s'.namespaces[srv.ns];
    && n' == Ns(n'.pods, ServersAfter(n, srv, s.store.next), n.authzs)
    && AllLinked(srv.ns, n'.servers, n.pods, n'.pods, s.store.outer, s'.store.outer)
    && s' == s.(namespaces := s.namespaces[srv.ns := n'],
                store := Store(InnerAfter(n, srv, s.store), s'.store.outer, NextAfter(n, srv, s.store)))
  }

  function ServerRemoved(s: State, ns: string, name: string): State {
    if ns !in s.namespaces || name !in s.namespaces[ns].servers then s
    else
      var n := s.namespaces[ns];
      s.(namespaces := s.namespaces[ns := n.(servers := n.servers - {name}, pods := ResetPods(n.pods, name))],
         store := s.store.(outer := ResetOuter(ns, n.pods, name, s.store.outer)))
  }

  /** The default channel of a pod, from its annotation or the cluster's mode. */
  function DefaultRx(env: Env, pod: Resources.Pod): ChanId {
    DefaultChan(Resources.PodMode(env, pod))
  }

  /** The outer channels of some ports. */
  function TxsOf(byPort: map<u16, PortEntry>): set<OuterId> {
    set p | p in byPort :: byPort[p].tx
  }

  /** What a pod's entry takes from its object. */
  ghost predicate FreshEntry(env: Env, pod: Resources.Pod, e: PodEntry) {
    && pod.spec.Some?
    && var decls := Declared(pod.spec.value.containers);
    && e == PodEntry(e.byPort, Named(decls), pod.labels, DefaultRx(env, pod))
    && e.byPort.Keys == PortSet(decls)
  }

  /** Outer channels have been added for a pod's ports, and nothing else has changed. */
  ghost predicate FreshStore(e: PodEntry, store: Store, store': Store) {
    && store' == Store(store.inner, store'.outer, store'.next)
    && store.next <= store'.next
    && store'.outer.Keys == store.outer.Keys + TxsOf(e.byPort)
    && forall o | o in store.outer :: store'.outer[o] == store.outer[o]
  }

  /** A new pod: its ports are those its containers declare, each with a fresh outer channel, bound
      to a server that claims it if there is one and to the default policy otherwise. */
  ghost predicate FreshPod(env: Env, pod: Resources.Pod, servers: map<string, ServerEntry>, e: PodEntry,
                           store: Store, store': Store)
  {
    && FreshEntry(env, pod, e)
    && FreshStore(e, store, store')
    && forall p | p in e.byPort :: FreshPort(pod.ns, pod.name, p, servers, e, store, store')
  }

  /** A port with a channel that did not exist before. */
  predicate FreshPort(ns: string, name: string, p: u16, servers: map<string, ServerEntry>, e: PodEntry, store: Store,
                      store': Store)
    requires p in e.byPort
  {
    var tx := e.byPort[p].tx;
    && tx == OuterId(ns, name, p, tx.serial)
    && store.next <= tx.serial < store'.next
    && tx in store'.outer
    && PortLinked(servers, Claims(servers, e.labels, e.byName, p), e.defaultRx, PortEntry(None, tx), e.byPort[p],
                  e.defaultRx, store'.outer[tx])
  }

  ghost predicate PodIndexed(env: Env, s: State, pod: Resources.Pod, ips: seq<IpAddr>, s': State) {
    var n := NsIn(s.namespaces, pod.ns);
    && pod.ns in s'.namespaces && pod.name in s'.namespaces[pod.ns].pods
    && var e := s'.namespaces[pod.ns].pods[pod.name];
    && FreshPod(env, pod, n.servers, e, s.store, s'.store)
    && s' == s.(namespaces := s.namespaces[pod.ns := n.(pods := n.pods[pod.name := e])],
                lookups := SetLookup(s.lookups, pod.ns, pod.name, RxMap(e.byPort, ips)),
                store := s'.store)
  }

  ghost predicate PodRelabeled(s: State, pod: Resources.Pod, s': State) {
    var n := NsIn(s.namespaces, pod.ns);
    && pod.name in n.pods
    && pod.ns in s'.namespaces && pod.name in s'.namespaces[pod.ns].pods
    && var e := n.pods[pod.name].(labels := pod.labels);
    && var e' := s'.namespaces[pod.ns].pods[pod.name];
    && PodLinked(n.servers, e, e', s.store.outer, s'.store.outer)
    && s'.store.outer.Keys == s.store.outer.Keys
    && (forall o | o in s.store.outer && !Owns(pod.ns, pod.name, e, o) :: s'.store.outer[o] == s.store.outer[o])
    && s' == s.(namespaces := s.namespaces[pod.ns := n.(pods := n.pods[pod.name := e'])],
                store := s.store.(outer := s'.store.outer))
  }

  ghost predicate PodApplied(env: Env, s0: State, pod: Resources.Pod, s': State) {
    var s := EnsureNs(s0, pod.ns);
    var n := s.namespaces[pod.ns];
    if pod.name in n.pods then
      if n.pods[pod.name].labels != pod.labels then PodRelabeled(s, pod, s') else s' == s
    else
      match Resources.NodeName(pod)
      case None => s' == s
      case Some(node) =>
        if IsKnown(s.nodes, node) then PodIndexed(env, s, pod, s.nodes[node].ips, s')
        else s' == s.(nodes := PushPending(s.nodes, node, pod))
  }

  function PodUnindexed(s: State, ns: string, name: string): State {
    if ns !in s.namespaces || name !in s.namespaces[ns].pods then s
    else
      var n := s.namespaces[ns];
      s.(namespaces := s.namespaces[ns := n.(pods := n.pods - {name})],
         lookups := UnsetLookup(s.lookups, ns, name),
         store := s.store.(outer := map o | o in s.store.outer && !Owns(ns, name, n.pods[name], o) :: s.store.outer[o]))
  }

  ghost predicate PodRemoved(s: State, ns: string, name: string, s': State) {
    if exists node :: IsPending(s.nodes, node, ns, name)
    then exists node :: IsPending(s.nodes, node, ns, name) && s' == s.(nodes := Unpend(s.nodes, node, ns, name))
    else s' == PodUnindexed(s, ns, name)
  }

  ghost predicate PodsApplied(env: Env, s: State, pods: seq<Resources.Pod>, s': State)
    decreases |pods|, 0
  {
    if pods == [] then s' == s
    else PodsAppliedThen(env, s, pods[..|pods| - 1], pods[|pods| - 1], s')
  }

  ghost predicate PodsAppliedThen(env: Env, s: State, before: seq<Resources.Pod>, last: Resources.Pod, s': State)
    decreases |before|, 1
  {
    exists mid :: PodsApplied(env, s, before, mid) && PodApplied(env, mid, last, s')
  }

  ghost predicate Enumerates<T(!new)>(order: seq<T>, all: set<T>) {
    && (forall x :: x in order <==> x in all)
    && (forall i, j | 0 <= i < j < |order| :: order[i] != order[j])
  }

  /** The queued pods of a node in some order. */
  ghost predicate Drains(nodes: map<string, NodeState>, node: string, pods: seq<Resources.Pod>, order: seq<Id>) {
    && |pods| == |order|
    && Enumerates(order, Queue(nodes, node))
    && forall i | 0 <= i < |order| ::
         IsPending(nodes, node, order[i].ns, order[i].name)
         && pods[i] == nodes[node].pods[order[i].ns][order[i].name]
  }

  ghost predicate NodeApplied(env: Env, s: State, node: Resources.Node, s': State) {
    if IsKnown(s.nodes, node.name) || Resources.KubeletIps(node).Err? then s' == s
    else exists pods, order ::
      && Drains(s.nodes, node.name, pods, order)
      && PodsApplied(env, s.(nodes := s.nodes[node.name := Known(Resources.KubeletIps(node).value)]), pods, s')
  }

  ghost predicate OpStep(env: Env, s: State, op: Op, s': State) {
    match op
    case ApplyAuthz(a) => s' == AuthzApplied(env, s, a)
    case DeleteAuthz(ns, name) => s' == AuthzDeleted(s, ns, name)
    case ApplyServer(srv) => ServerApplied(s, srv, s')
    case RmServer(ns, name) => s' == ServerRemoved(s, ns, name)
    case ApplyPod(pod) => PodApplied(env, s, pod, s')
    case RmPod(ns, name) => PodRemoved(s, ns, name, s')
    case ClearPending => s' == s.(nodes := KnownNodes(s.nodes))
    case ApplyNode(node) => NodeApplied(env, s, node, s')
    case RemoveNode(name) => s' == s.(nodes := s.nodes - {name})
  }

  /** A run of operations. */
  ghost predicate Steps(env: Env, s: State, ops: seq<Op>, s': State)
    decreases |ops|, 0
  {
    if ops == [] then s' == s
    else StepsThen(env, s, ops[..|ops| - 1], ops[|ops| - 1], s')
  }

  ghost predicate StepsThen(env: Env, s: State, before: seq<Op>, last: Op, s': State)
    decreases |before|, 1
  {
    exists mid :: Steps(env, s, before, mid) && OpStep(env, mid, last, s')
  }

  lemma StepsSnoc(env: Env, s: State, ops: seq<Op>, mid: State, op: Op, s': State)
    requires Steps(env, s, ops, mid) && OpStep(env, mid, op, s')
    ensures Steps(env, s, ops + [op], s')
  {
  }

  lemma {:induction false} StepsConcat(env: Env, s: State, ops: seq<Op>, mid: State, more: seq<Op>, s': State)
    requires Steps(env, s, ops, mid) && Steps(env, mid, more, s')
    ensures Steps(env, s, ops + more, s')
  {
    if more == [] {
      assert ops + more == ops;
    } else {
      var before, last := more[..|more| - 1], more[|more| - 1];
      assert StepsThen(env, mid, before, last, s');
      var m :| Steps(env, mid, before, m) && OpStep(env, m, last, s');
      StepsConcat(env, s, ops, mid, before, m);
      StepsSnoc(env, s, ops + before, m, last, s');
      assert ops + before + [last] == ops + more;
    }
  }

  /** A run with the states it goes through. */
  ghost predicate Traced(env: Env, trace: seq<State>, ops: seq<Op>) {
    && |trace| == |ops| + 1
    && trace[0] == Init(env)
    && forall i | 0 <= i < |ops| :: OpStep(env, trace[i], ops[i], trace[i + 1])
  }

  lemma {:induction false} TracedIsRun(env: Env, trace: seq<State>, ops: seq<Op>)
    requires Traced(env, trace, ops)
    ensures Steps(env, Init(env), ops, trace[|ops|])
  {
    if ops != [] {
      var k := |ops| - 1;
      TracedIsRun(env, trace[..k + 1], ops[..k]);
      StepsSnoc(env, Init(env), ops[..k], trace[k], ops[k], trace[k + 1]);
      assert ops[..k] + [ops[k]] == ops;
    }
  }
}
