/** Watch events and the operations that handling one amounts to. */
module Events {
  import opened Base
  import opened Policy
  import Resources
  import opened IndexState
  import opened Invariant

  datatype Event =
    | NodeApplied(node: Resources.Node)
    | NodeDeleted(name: string)
    | NodesRestarted(nodes: seq<Resources.Node>)
    | PodApplied(pod: Resources.Pod)
    | PodDeleted(ns: string, name: string)
    | PodsRestarted(pods: seq<Resources.Pod>)
    | ServerApplied(server: Resources.Server)
    | ServerDeleted(ns: string, name: string)
    | ServersRestarted(servers: seq<Resources.Server>)
    | AuthzApplied(authz: Resources.ServerAuthorization)
    | AuthzDeleted(ns: string, name: string)
    | AuthzsRestarted(authzs: seq<Resources.ServerAuthorization>)

  function Each<A, B>(f: A -> B, xs: seq<A>): (r: seq<B>)
    ensures |r| == |xs| && forall i | 0 <= i < |xs| :: r[i] == f(xs[i])
  {
    seq(|xs|, i requires 0 <= i < |xs| => f(xs[i]))
  }

  // --- What is indexed, and what a list names ---------------------------------------------

  function KnownNames(s: State): set<string> {
    set m | m in s.nodes && s.nodes[m].Known?
  }

  function PodIds(s: State): set<Id> {
    PodIdsIn(s.namespaces)
  }

  function PodIdsIn(namespaces: map<string, Ns>): set<Id> {
    set ns, x | ns in namespaces && x in namespaces[ns].pods :: Id(ns, x)
  }

  function ServerIds(s: State): set<Id> {
    set ns, x | ns in s.namespaces && x in s.namespaces[ns].servers :: Id(ns, x)
  }

  function AuthzIds(s: State): set<Id> {
    set ns, x | ns in s.namespaces && x in s.namespaces[ns].authzs :: Id(ns, x)
  }

  function NodesListed(l: seq<Resources.Node>): set<string> {
    set n | n in l :: n.name
  }

  function PodsListed(l: seq<Resources.Pod>): set<Id> {
    set p | p in l :: Id(p.ns, p.name)
  }

  function ServersListed(l: seq<Resources.Server>): set<Id> {
    set v | v in l :: Id(v.ns, v.name)
  }

  function AuthzsListed(l: seq<Resources.ServerAuthorization>): set<Id> {
    set a | a in l :: Id(a.ns, a.name)
  }

  // --- The operations of an event -----------------------------------------------------------

  function ApplyNodes(l: seq<Resources.Node>): seq<Op> {
    Each((n: Resources.Node) => ApplyNode(n), l)
  }

  function RemoveNodes(l: seq<string>): seq<Op> {
    Each((m: string) => RemoveNode(m), l)
  }

  function ApplyPods(l: seq<Resources.Pod>): seq<Op> {
    Each((p: Resources.Pod) => ApplyPod(p), l)
  }

  function RmPods(l: seq<Id>): seq<Op> {
    Each((id: Id) => RmPod(id.ns, id.name), l)
  }

  function ApplyServers(l: seq<Resources.Server>): seq<Op> {
    Each((v: Resources.Server) => ApplyServer(v), l)
  }

  function RmServers(l: seq<Id>): seq<Op> {
    Each((id: Id) => RmServer(id.ns, id.name), l)
  }

  function ApplyAuthzs(l: seq<Resources.ServerAuthorization>): seq<Op> {
    Each((a: Resources.ServerAuthorization) => ApplyAuthz(a), l)
  }

  function DeleteAuthzs(l: seq<Id>): seq<Op> {
    Each((id: Id) => DeleteAuthz(id.ns, id.name), l)
  }

  /** A restart applies what is listed, in order, and removes what was indexed and is not listed, in
      any order `gone`. */
  function RestartOps(ev: Event, gone: seq<Id>, goneNodes: seq<string>): seq<Op> {
    match ev
    case NodesRestarted(l) => ApplyNodes(l) + RemoveNodes(goneNodes)
    case PodsRestarted(l) => [ClearPending] + ApplyPods(l) + RmPods(gone)
    case ServersRestarted(l) => ApplyServers(l) + RmServers(gone)
    case AuthzsRestarted(l) => ApplyAuthzs(l) + DeleteAuthzs(gone)
    case _ => []
  }

  /** Part of a walk over a set in some order: `todo` is still to come. */
  ghost predicate Walked<T(!new)>(order: seq<T>, all: set<T>, todo: set<T>) {
    && todo <= all
    && (forall x :: x in order <==> x in all && x !in todo)
    && (forall i, j | 0 <= i < j < |order| :: order[i] != order[j])
  }

  lemma WalkedNext<T(!new)>(order: seq<T>, all: set<T>, todo: set<T>, x: T)
    requires Walked(order, all, todo) && x in todo
    ensures Walked(order + [x], all, todo - {x})
  {
  }

  lemma WalkedAll<T(!new)>(order: seq<T>, all: set<T>)
    requires Walked(order, all, {})
    ensures Enumerates(order, all)
  {
  }

  /** An event about a single object is one operation. */
  function SingleOp(ev: Event): Option<Op> {
    match ev
    case NodeApplied(node) => Some(ApplyNode(node))
    case NodeDeleted(m) => Some(RemoveNode(m))
    case PodApplied(pod) => Some(ApplyPod(pod))
    case PodDeleted(ns, x) => Some(RmPod(ns, x))
    case ServerApplied(srv) => Some(ApplyServer(srv))
    case ServerDeleted(ns, x) => Some(RmServer(ns, x))
    case AuthzApplied(a) => Some(ApplyAuthz(a))
    case AuthzDeleted(ns, x) => Some(DeleteAuthz(ns, x))
    case _ => None
  }

  ghost predicate EventOps(s: State, ev: Event, ops: seq<Op>) {
    match ev
    case NodesRestarted(l) =>
      exists gone :: Enumerates(gone, KnownNames(s) - NodesListed(l)) && ops == RestartOps(ev, [], gone)
    case PodsRestarted(l) =>
      exists gone :: Enumerates(gone, PodIds(s) - PodsListed(l)) && ops == RestartOps(ev, gone, [])
    case ServersRestarted(l) =>
      exists gone :: Enumerates(gone, ServerIds(s) - ServersListed(l)) && ops == RestartOps(ev, gone, [])
    case AuthzsRestarted(l) =>
      exists gone :: Enumerates(gone, AuthzIds(s) - AuthzsListed(l)) && ops == RestartOps(ev, gone, [])
    case _ => ops == [SingleOp(ev).value]
  }

  /** Handling one event. */
  ghost predicate EventStep(env: Env, s: State, ev: Event, s': State) {
    exists ops :: EventOps(s, ev, ops) && Steps(env, s, ops, s')
  }

  /** Handling a sequence of events, with the operations it amounts to. */
  ghost predicate EventsRun(env: Env, s: State, evs: seq<Event>, ops: seq<Op>, s': State)
    decreases |evs|, 0
  {
    if evs == [] then ops == [] && s' == s
    else EventsRunThen(env, s, evs[..|evs| - 1], evs[|evs| - 1], ops, s')
  }

  ghost predicate EventsRunThen(env: Env, s: State, before: seq<Event>, last: Event, ops: seq<Op>, s': State)
    decreases |before|, 1
  {
    exists ops0, mid, ops1 ::
      EventsRun(env, s, before, ops0, mid) && EventOps(mid, last, ops1) && Steps(env, mid, ops1, s') && ops == ops0 + ops1
  }

  lemma EventsRunSnoc(env: Env, s: State, evs: seq<Event>, ops: seq<Op>, mid: State, ev: Event, more: seq<Op>,
                      s': State)
    requires EventsRun(env, s, evs, ops, mid) && EventOps(mid, ev, more) && Steps(env, mid, more, s')
    ensures EventsRun(env, s, evs + [ev], ops + more, s')
  {
  }

  /** A run of events is a run of operations. */
  lemma {:induction false} EventsRunIsSteps(env: Env, s: State, evs: seq<Event>, ops: seq<Op>, s': State)
    requires EventsRun(env, s, evs, ops, s')
    ensures Steps(env, s, ops, s')
  {
    if evs != [] {
      var before, last := evs[..|evs| - 1], evs[|evs| - 1];
      assert EventsRunThen(env, s, before, last, ops, s');
      var ops0, mid, ops1 :| EventsRun(env, s, before, ops0, mid) && EventOps(mid, last, ops1)
                             && Steps(env, mid, ops1, s') && ops == ops0 + ops1;
      EventsRunIsSteps(env, s, before, ops0, mid);
      StepsConcat(env, s, ops0, mid, ops1, s');
    }
  }

  /** Whatever sequence of events arrives, the index keeps its invariant. */
  lemma EventsKeepInv(env: Env, evs: seq<Event>, ops: seq<Op>, s: State)
    requires EventsRun(env, Init(env), evs, ops, s)
    ensures Inv(env, s)
  {
    InitInv(env);
    EventsRunIsSteps(env, Init(env), evs, ops, s);
    RunInv(env, Init(env), ops, s);
  }

  lemma OneOp(env: Env, s: State, op: Op, s': State)
    requires Steps(env, s, [op], s')
    ensures OpStep(env, s, op, s')
  {
    assert [op][..0] == [];
    assert StepsThen(env, s, [], op, s');
    var mid :| Steps(env, s, [], mid) && OpStep(env, mid, op, s');
  }

  /** The last event of a run. */
  lemma LastEvent(env: Env, evs: seq<Event>, ops: seq<Op>, s': State)
    returns (before: seq<Op>, mid: State, last: seq<Op>)
    requires evs != [] && EventsRun(env, Init(env), evs, ops, s')
    ensures EventsRun(env, Init(env), evs[..|evs| - 1], before, mid) && Inv(env, mid) && ops == before + last
    ensures EventOps(mid, evs[|evs| - 1], last) && Steps(env, mid, last, s')
    ensures var op := SingleOp(evs[|evs| - 1]); op.Some? ==> last == [op.value] && OpStep(env, mid, op.value, s')
  {
    var k := |evs| - 1;
    assert EventsRunThen(env, Init(env), evs[..k], evs[k], ops, s');
    before, mid, last :| EventsRun(env, Init(env), evs[..k], before, mid) && EventOps(mid, evs[k], last)
                         && Steps(env, mid, last, s') && ops == before + last;
    EventsKeepInv(env, evs[..k], before, mid);
    if SingleOp(evs[k]).Some? {
      OneOp(env, mid, SingleOp(evs[k]).value, s');
    }
  }
}
