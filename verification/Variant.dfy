/** The index with the comparison of protocols that the comment in `SrvIndex::apply` describes, beside
    the one that is written there. With either, the rest of every run is the same; only the published
    protocols differ. */
module Variant {
  import opened Base
  import opened Labels
  import opened Net
  import opened Policy
  import opened Ports
  import Resources
  import opened Watch
  import opened IndexState
  import opened Invariant
  import opened Cluster
  import opened Refinement
  import opened Protocols

  // --- The index by either comparison ------------------------------------------------------

  /** When the update of a server takes the protocol of the new object: if it equals the one in place,
      as the code is written, or if it differs from it, as the comment has it. */
  datatype Comparison = AsWritten | AsIntended

  predicate Takes(cmp: Comparison, was: ProxyProtocol, now: ProxyProtocol) {
    match cmp
    case AsWritten => was == now
    case AsIntended => was != now
  }

  function UpdatedBy(cmp: Comparison, entry: ServerEntry, srv: Resources.Server, authzs: map<string, Authz>)
    : ServerEntry
  {
    var protocol := Resources.MkProtocol(srv.proxyProtocol);
    ServerEntry(
      ServerMeta(srv.labels, srv.port, srv.podSelector,
                 if Takes(cmp, entry.meta.protocol, protocol) then protocol else entry.meta.protocol),
      if entry.meta.labels != srv.labels then AuthView(authzs, srv.name, srv.labels) else entry.authorizations,
      entry.chan)
  }

  function ServersAfterBy(cmp: Comparison, n: Ns, srv: Resources.Server, next: nat): map<string, ServerEntry> {
    n.servers[srv.name :=
      if srv.name in n.servers then UpdatedBy(cmp, n.servers[srv.name], srv, n.authzs)
      else ServerEntry(MetaOf(srv), AuthView(n.authzs, srv.name, srv.labels), ServerChan(srv.ns, srv.name, next))]
  }

  function InnerAfterBy(cmp: Comparison, n: Ns, srv: Resources.Server, store: Store): Inner {
    var servers := ServersAfterBy(cmp, n, srv, store.next);
    if srv.name in n.servers then Republish(store.inner, srv.ns, servers)
    else store.inner[servers[srv.name].chan := Published(servers[srv.name])]
  }

  ghost predicate ServerAppliedBy(cmp: Comparison, s0: State, srv: Resources.Server, s': State) {
    var s := EnsureNs(s0, srv.ns);
    var n := s.namespaces[srv.ns];
    && srv.ns in s'.namespaces
    && var n' := s'.namespaces[srv.ns];
    && n' == Ns(n'.pods, ServersAfterBy(cmp, n, srv, s.store.next), n.authzs)
    && AllLinked(srv.ns, n'.servers, n.pods, n'.pods, s.store.outer, s'.store.outer)
    && s' == s.(namespaces := s.namespaces[srv.ns := n'],
                store := Store(InnerAfterBy(cmp, n, srv, s.store), s'.store.outer, NextAfter(n, srv, s.store)))
  }

  ghost predicate OpStepBy(cmp: Comparison, env: Env, s: State, op: Op, s': State) {
    if op.ApplyServer? then ServerAppliedBy(cmp, s, op.server, s') else OpStep(env, s, op, s')
  }

  ghost predicate TracedBy(cmp: Comparison, env: Env, trace: seq<State>, ops: seq<Op>) {
    && |trace| == |ops| + 1
    && trace[0] == Init(env)
    && forall i | 0 <= i < |ops| :: OpStepBy(cmp, env, trace[i], ops[i], trace[i + 1])
  }

  /** By the comparison as written, this is the index. */
  lemma AsWrittenIsTheIndex(env: Env, s: State, op: Op, s': State)
    ensures OpStepBy(AsWritten, env, s, op, s') <==> OpStep(env, s, op, s')
  {
    if op.ApplyServer? {
      var n := NsIn(s.namespaces, op.server.ns);
      assert ServersAfterBy(AsWritten, n, op.server, s.store.next) == ServersAfter(n, op.server, s.store.next);
    }
  }

  // --- The invariant holds by either ------------------------------------------------------------

  lemma ServersAfterByOk(cmp: Comparison, env: Env, ns: string, n: Ns, srv: Resources.Server, store: Store)
    requires NsOk(ns, n, store) && StoreOk(env, store) && srv.ns == ns
    ensures var servers := ServersAfterBy(cmp, n, srv, store.next);
            var store' := Store(InnerAfterBy(cmp, n, srv, store), store.outer, NextAfter(n, srv, store));
            NsOk(ns, Ns(n.pods, servers, n.authzs), store') && StoreOk(env, store') && OthersKept(ns, store, store')
  {
    var servers := ServersAfterBy(cmp, n, srv, store.next);
    if srv.name in n.servers {
      forall x | x in servers
        ensures servers[x].authorizations == AuthView(n.authzs, x, servers[x].meta.labels)
      {
        assert ServerOk(ns, x, n.servers[x], n.authzs, store.inner);
      }
      RepublishKeeps(ns, n, servers, n.authzs, store);
    } else {
      var inner := InnerAfterBy(cmp, n, srv, store);
      forall x | x in servers
        ensures ServerOk(ns, x, servers[x], n.authzs, inner)
      {
        if x != srv.name {
          assert ServerOk(ns, x, n.servers[x], n.authzs, store.inner);
        }
      }
      PodsFrame(ns, n, servers, store.outer, store.outer);
    }
  }

  lemma ServerAppliedByInv(cmp: Comparison, env: Env, s0: State, srv: Resources.Server, s': State)
    requires Inv(env, s0) && ServerAppliedBy(cmp, s0, srv, s')
    ensures Inv(env, s')
  {
    EnsureNsInv(env, s0, srv.ns);
    var s := EnsureNs(s0, srv.ns);
    var n, n' := s.namespaces[srv.ns], s'.namespaces[srv.ns];
    ServersAfterByOk(cmp, env, srv.ns, n, srv, s.store);
    var mid := Store(InnerAfterBy(cmp, n, srv, s.store), s.store.outer, NextAfter(n, srv, s.store));
    AllLinkedOk(srv.ns, Ns(n.pods, n'.servers, n.authzs), n'.pods, mid, s'.store);
    OwnedAreTagged(srv.ns, n.pods, s.store.outer, s'.store.outer);
    ReplaceNs(env, s, srv.ns, n', s'.store);
  }

  lemma OpInvBy(cmp: Comparison, env: Env, s: State, op: Op, s': State)
    requires Inv(env, s) && OpStepBy(cmp, env, s, op, s')
    ensures Inv(env, s')
  {
    if op.ApplyServer? {
      ServerAppliedByInv(cmp, env, s, op.server, s');
    } else {
      OpInv(env, s, op, s');
    }
  }

  lemma {:induction false} RunInvBy(cmp: Comparison, env: Env, trace: seq<State>, ops: seq<Op>, i: nat)
    requires TracedBy(cmp, env, trace, ops) && i < |trace|
    ensures Inv(env, trace[i])
  {
    if i == 0 {
      InitInv(env);
    } else {
      RunInvBy(cmp, env, trace, ops, i - 1);
      OpInvBy(cmp, env, trace[i - 1], ops[i - 1], trace[i]);
    }
  }

  // --- The published protocol ----------------------------------------------------------------------

  /** The object whose protocol is in place: the first since the server was last absent, or the latest. */
  function Governing(cmp: Comparison, ops: seq<Op>, ns: string, x: string): Option<Resources.Server> {
    match cmp
    case AsWritten => Creation(ops, ns, x)
    case AsIntended => Latest(ops, ns, x)
  }

  lemma {:induction false} PresentTogether(ops: seq<Op>, ns: string, x: string)
    ensures Creation(ops, ns, x).Some? <==> Latest(ops, ns, x).Some?
  {
    if ops != [] {
      PresentTogether(ops[..|ops| - 1], ns, x);
    }
  }

  lemma OpOnOneServer(cmp: Comparison, env: Env, s: State, op: Op, s': State, ns: string, x: string)
    requires OpStepBy(cmp, env, s, op, s')
    ensures var servers, servers' := NsIn(s.namespaces, ns).servers, NsIn(s'.namespaces, ns).servers;
            && (x in servers' <==> if op == RmServer(ns, x) then false else AppliesTo(op, ns, x) || x in servers)
            && (x in servers' ==>
                  servers'[x].meta.protocol ==
                    if AppliesTo(op, ns, x) then
                      if x in servers then UpdatedBy(cmp, servers[x], op.server, map[]).meta.protocol
                      else Resources.MkProtocol(op.server.proxyProtocol)
                    else servers[x].meta.protocol)
  {
    if op.ApplyServer? {
      if op.server.ns != ns {
        assert NsIn(s'.namespaces, ns) == NsIn(s.namespaces, ns);
      }
    } else {
      OpOnServers(env, s, op, s', ns);
      MetaIsThere(NsIn(s.namespaces, ns).servers, x);
      MetaIsThere(NsIn(s'.namespaces, ns).servers, x);
    }
  }

  lemma MetaIsThere(servers: map<string, ServerEntry>, x: string)
    ensures x in Metas(servers) <==> x in servers
    ensures x in servers ==> Metas(servers)[x] == servers[x].meta
  {
  }

  lemma {:induction false} RunOnOneServer(cmp: Comparison, env: Env, trace: seq<State>, ops: seq<Op>, i: nat,
                                          ns: string, x: string)
    requires TracedBy(cmp, env, trace, ops) && i < |trace|
    ensures var servers, obj := NsIn(trace[i].namespaces, ns).servers, Governing(cmp, ops[..i], ns, x);
            && (x in servers <==> obj.Some?)
            && (x in servers ==> servers[x].meta.protocol == Resources.MkProtocol(obj.value.proxyProtocol))
  {
    if i > 0 {
      RunOnOneServer(cmp, env, trace, ops, i - 1, ns, x);
      OpOnOneServer(cmp, env, trace[i - 1], ops[i - 1], trace[i], ns, x);
      assert ops[..i][..i - 1] == ops[..i - 1];
      PresentTogether(ops[..i - 1], ns, x);
    }
  }

  /** In every state of any run, each live server publishes the protocol of the object it was created
      with by the comparison as written, and that of its latest object by the one intended. */
  lemma PublishedBy(cmp: Comparison, env: Env, trace: seq<State>, ops: seq<Op>, i: nat, ns: string, x: string)
    requires TracedBy(cmp, env, trace, ops) && i < |trace|
    requires ns in trace[i].namespaces && x in trace[i].namespaces[ns].servers
    ensures var s, obj := trace[i], Governing(cmp, ops[..i], ns, x);
            var srv := s.namespaces[ns].servers[x];
            && obj.Some? && srv.chan in s.store.inner
            && s.store.inner[srv.chan].protocol == srv.meta.protocol == Resources.MkProtocol(obj.value.proxyProtocol)
  {
    RunOnOneServer(cmp, env, trace, ops, i, ns, x);
    RunInvBy(cmp, env, trace, ops, i);
    var n := trace[i].namespaces[ns];
    assert NsOk(ns, n, trace[i].store);
    assert ServerOk(ns, x, n.servers[x], n.authzs, trace[i].store.inner);
  }
}
