/** What the sequence of events alone says: which objects of the cluster are live, and what of each of them
    counts. Nothing here knows of operations, of the index or of its records. */
module LiveObjects {
  import opened Base
  import opened Labels
  import opened Net
  import opened Policy
  import opened Ports
  import Resources
  import E = Events

  // --- Servers ----------------------------------------------------------------------------

  predicate Is(v: Resources.Server, ns: string, x: string) {
    v.ns == ns && v.name == x
  }

  /** The first object of that name in the list. */
  function FirstOf(l: seq<Resources.Server>, ns: string, x: string): Option<Resources.Server> {
    if l == [] then None
    else if Is(l[0], ns, x) then Some(l[0])
    else FirstOf(l[1..], ns, x)
  }

  /** The last object of that name in the list. */
  function LastOf(l: seq<Resources.Server>, ns: string, x: string): Option<Resources.Server> {
    if l == [] then None
    else if Is(l[|l| - 1], ns, x) then Some(l[|l| - 1])
    else LastOf(l[..|l| - 1], ns, x)
  }

  /** The object a live server was created with, and its latest one. */
  datatype ServerLife = ServerLife(created: Resources.Server, latest: Resources.Server)

  /** A server lives from its first object until it is deleted or left out of a restart's list. */
  function LiveServer(evs: seq<E.Event>, ns: string, x: string): Option<ServerLife> {
    if evs == [] then None
    else
      var before := LiveServer(evs[..|evs| - 1], ns, x);
      match evs[|evs| - 1]
      case ServerApplied(v) =>
        if Is(v, ns, x) then Some(ServerLife(if before.Some? then before.value.created else v, v)) else before
      case ServerDeleted(other, y) => if other == ns && y == x then None else before
      case ServersRestarted(l) =>
        var first, last := FirstOf(l, ns, x), LastOf(l, ns, x);
        if first.Some? && last.Some?
        then Some(ServerLife(if before.Some? then before.value.created else first.value, last.value))
        else None
      case _ => before
  }

  // --- Authorizations -----------------------------------------------------------------------

  /** The last accepted object of that name in the list. */
  function LastAccepted(l: seq<Resources.ServerAuthorization>, ns: string, x: string)
    : Option<Resources.ServerAuthorization>
  {
    if l == [] then None
    else
      var a := l[|l| - 1];
      if a.ns == ns && a.name == x && Resources.Accepted(a) then Some(a) else LastAccepted(l[..|l| - 1], ns, x)
  }

  /** The latest accepted object, until the authorization is deleted or left out of a restart's list. One
      that is listed, but with no object that is accepted, stays as it was. */
  function LiveAuthz(evs: seq<E.Event>, ns: string, x: string): Option<Resources.ServerAuthorization> {
    if evs == [] then None
    else
      var before := LiveAuthz(evs[..|evs| - 1], ns, x);
      match evs[|evs| - 1]
      case AuthzApplied(a) => if a.ns == ns && a.name == x && Resources.Accepted(a) then Some(a) else before
      case AuthzDeleted(other, y) => if other == ns && y == x then None else before
      case AuthzsRestarted(l) =>
        if !exists a :: a in l && a.ns == ns && a.name == x then None
        else if LastAccepted(l, ns, x).Some? then LastAccepted(l, ns, x)
        else before
      case _ => before
  }

  // --- Nodes ------------------------------------------------------------------------------------

  /** The first hosts of a node's CIDRs, if it has any and all have one. */
  function Hosts(node: Resources.Node): Option<seq<IpAddr>> {
    var cidrs := Resources.Cidrs(node);
    if cidrs != [] && forall c | c in cidrs :: c.Cidr? && c.firstHost.Some?
    then Some(seq(|cidrs|, i requires 0 <= i < |cidrs| => assert cidrs[i] in cidrs; cidrs[i].firstHost.value))
    else None
  }

  lemma HostsAreKubeletIps(node: Resources.Node)
    ensures Hosts(node).Some? <==> Resources.KubeletIps(node).Ok?
    ensures Hosts(node).Some? ==> Hosts(node).value == Resources.KubeletIps(node).value
  {
    Resources.KubeletIpsMeaning(node);
    var cidrs := Resources.Cidrs(node);
    assert forall i | 0 <= i < |cidrs| :: cidrs[i] in cidrs;
  }

  function FirstHosts(l: seq<Resources.Node>, m: string): Option<seq<IpAddr>> {
    if l == [] then None
    else
      var before := FirstHosts(l[..|l| - 1], m);
      if before.None? && l[|l| - 1].name == m then Hosts(l[|l| - 1]) else before
  }

  /** The addresses of a node are those of its first object that has some, until it is deleted or left out
      of a restart's list. */
  function LiveNode(evs: seq<E.Event>, m: string): Option<seq<IpAddr>> {
    if evs == [] then None
    else
      var before := LiveNode(evs[..|evs| - 1], m);
      match evs[|evs| - 1]
      case NodeApplied(node) => if before.None? && node.name == m then Hosts(node) else before
      case NodeDeleted(k) => if k == m then None else before
      case NodesRestarted(l) =>
        if before.None? then FirstHosts(l, m)
        else if exists node :: node in l && node.name == m then before
        else None
      case _ => before
  }

  // --- Pods ----------------------------------------------------------------------------------------

  /** The latest object of a live pod, and the addresses of its node once both have been there together. */
  datatype PodLife = PodLife(pod: Resources.Pod, ips: Option<seq<IpAddr>>)

  function Home(evs: seq<E.Event>, pod: Resources.Pod): Option<seq<IpAddr>> {
    if pod.spec.Some? && pod.spec.value.nodeName.Some? then LiveNode(evs, pod.spec.value.nodeName.value) else None
  }

  function Settle(evs: seq<E.Event>, life: PodLife): PodLife {
    if life.ips.Some? then life else PodLife(life.pod, Home(evs, life.pod))
  }

  function Renewed(evs: seq<E.Event>, before: Option<PodLife>, pod: Resources.Pod): PodLife {
    Settle(evs, PodLife(pod, if before.Some? then before.value.ips else None))
  }

  function Listed(evs: seq<E.Event>, before: Option<PodLife>, l: seq<Resources.Pod>, ns: string, x: string)
    : Option<PodLife>
  {
    if l == [] then before
    else
      var rest, pod := Listed(evs, before, l[..|l| - 1], ns, x), l[|l| - 1];
      if pod.ns == ns && pod.name == x then Some(Renewed(evs, rest, pod)) else rest
  }

  /** A pod lives from its first object until it is deleted or left out of a restart's list. One that a
      restart finds waiting for its node starts anew. */
  function LivePod(evs: seq<E.Event>, ns: string, x: string): Option<PodLife> {
    if evs == [] then None
    else
      var before := LivePod(evs[..|evs| - 1], ns, x);
      match evs[|evs| - 1]
      case PodApplied(pod) => if pod.ns == ns && pod.name == x then Some(Renewed(evs, before, pod)) else before
      case PodDeleted(other, y) => if other == ns && y == x then None else before
      case PodsRestarted(l) =>
        if !exists pod :: pod in l && pod.ns == ns && pod.name == x then None
        else Listed(evs, if before.Some? && before.value.ips.Some? then before else None, l, ns, x)
      case NodeApplied(_) => if before.Some? then Some(Settle(evs, before.value)) else None
      case NodesRestarted(_) => if before.Some? then Some(Settle(evs, before.value)) else None
      case _ => before
  }

  // --- What the live objects say about a port ---------------------------------------------------------

  function Containers(pod: Resources.Pod): seq<seq<Resources.ContainerPort>> {
    if pod.spec.Some? then pod.spec.value.containers else []
  }

  /** A server's object claims a port of a pod: its selector matches, and its port is that number or the
      name under which the pod exposes it. */
  ghost predicate Wants(v: Resources.Server, pod: Resources.Pod, p: u16) {
    && Matches(v.podSelector, pod.labels)
    && (v.port == Resources.Number(p) || exists x :: v.port == Resources.Named(x) && ExposedAs(Containers(pod), p, x))
  }
}
