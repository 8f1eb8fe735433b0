/** Where a restart lands: the state a rebuild from the list would give, and exactly when it does
    not. */
module Resets {
  import opened Base
  import opened Labels
  import opened Net
  import opened Policy
  import Resources
  import opened IndexState
  import opened Invariant
  import opened Cluster
  import opened Refinement
  import opened Binding
  import opened Draining
  import opened Effects
  import E = Events

  // --- Authorizations: unconditional ------------------------------------------------------

  /** Two versions of a namespace that differ at most in authorizations. */
  ghost predicate SameSkeleton(n: Ns, n': Ns) {
    && n'.pods == n.pods
    && n'.servers.Keys == n.servers.Keys
    && forall x | x in n.servers :: n'.servers[x].meta == n.servers[x].meta && n'.servers[x].chan == n.servers[x].chan
  }

  /** Two states differ at most in authorizations. */
  ghost predicate SameSkeletons(s: State, s': State) {
    && s'.lookups == s.lookups && s'.nodes == s.nodes && s'.store.outer == s.store.outer
    && forall ns :: SameSkeleton(NsIn(s.namespaces, ns), NsIn(s'.namespaces, ns))
  }

  lemma SkeletonsTransitive(s0: State, s1: State, s2: State)
    requires SameSkeletons(s0, s1) && SameSkeletons(s1, s2)
    ensures SameSkeletons(s0, s2)
  {
  }

  function AuthzsAfter(env: Env, before: map<string, Authz>, l: seq<Resources.ServerAuthorization>, ns: string)
    : map<string, Authz>
  {
    if l == [] then before
    else
      var rest, a := AuthzsAfter(env, before, l[..|l| - 1], ns), l[|l| - 1];
      var z := Resources.MkAuthz(a, env.identityDomain);
      if a.ns == ns && z.Ok? then rest[a.name := z.value] else rest
  }

  /** The last object of that name in the list that parses. */
  function LastValid(env: Env, l: seq<Resources.ServerAuthorization>, id: Id): Option<Authz> {
    if l == [] then None
    else
      var a := l[|l| - 1];
      var z := Resources.MkAuthz(a, env.identityDomain);
      if Id(a.ns, a.name) == id && z.Ok? then Some(z.value) else LastValid(env, l[..|l| - 1], id)
  }

  lemma {:induction false} AuthzsAfterMeaning(env: Env, before: map<string, Authz>,
                                              l: seq<Resources.ServerAuthorization>, ns: string, x: string)
    ensures var after, last := AuthzsAfter(env, before, l, ns), LastValid(env, l, Id(ns, x));
            && (x in after <==> last.Some? || x in before)
            && (x in after ==> after[x] == if last.Some? then last.value else before[x])
            && (last.Some? ==> Id(ns, x) in E.AuthzsListed(l))
  {
    if l != [] {
      AuthzsAfterMeaning(env, before, l[..|l| - 1], ns, x);
      assert l[|l| - 1] in l;
      assert forall a | a in l[..|l| - 1] :: a in l;
    }
  }

  lemma AuthzsAfterOne(env: Env, before: map<string, Authz>, a: Resources.ServerAuthorization, ns: string)
    ensures var z := Resources.MkAuthz(a, env.identityDomain);
            AuthzsAfter(env, before, [a], ns) == if a.ns == ns && z.Ok? then before[a.name := z.value] else before
  {
  }

  /** The namespace an authorization is applied to. */
  lemma AuthzAppliedHere(env: Env, s: State, a: Resources.ServerAuthorization)
    ensures var n, n' := NsIn(s.namespaces, a.ns), NsIn(AuthzApplied(env, s, a).namespaces, a.ns);
            var z := Resources.MkAuthz(a, env.identityDomain);
            n' == if z.Err? || (a.name in n.authzs && n.authzs[a.name] == z.value) then n
                  else Ns(n.pods, WithAuthz(n.servers, a.name, z.value), n.authzs[a.name := z.value])
  {
  }

  lemma AuthzAppliedAt(env: Env, s: State, a: Resources.ServerAuthorization, ns: string)
    ensures var n, n' := NsIn(s.namespaces, ns), NsIn(AuthzApplied(env, s, a).namespaces, ns);
            var z := Resources.MkAuthz(a, env.identityDomain);
            && SameSkeleton(n, n')
            && n'.authzs == if a.ns == ns && z.Ok? then n.authzs[a.name := z.value] else n.authzs
  {
    var n, z := NsIn(s.namespaces, ns), Resources.MkAuthz(a, env.identityDomain);
    if ns == a.ns {
      AuthzAppliedHere(env, s, a);
      if z.Ok? && a.name in n.authzs && n.authzs[a.name] == z.value {
        assert n.authzs[a.name := z.value] == n.authzs;
      }
    } else {
      AuthzAppliedState(env, s, a);
    }
  }

  lemma AuthzAppliedEffect(env: Env, s: State, a: Resources.ServerAuthorization)
    ensures SameSkeletons(s, AuthzApplied(env, s, a))
    ensures forall ns :: NsIn(AuthzApplied(env, s, a).namespaces, ns).authzs ==
              AuthzsAfter(env, NsIn(s.namespaces, ns).authzs, [a], ns)
  {
    forall ns
      ensures SameSkeleton(NsIn(s.namespaces, ns), NsIn(AuthzApplied(env, s, a).namespaces, ns))
      ensures NsIn(AuthzApplied(env, s, a).namespaces, ns).authzs ==
                AuthzsAfter(env, NsIn(s.namespaces, ns).authzs, [a], ns)
    {
      AuthzsAfterOne(env, NsIn(s.namespaces, ns).authzs, a, ns);
      AuthzAppliedAt(env, s, a, ns);
    }
  }

  lemma {:induction false} ApplyAuthzsEffect(env: Env, s: State, l: seq<Resources.ServerAuthorization>, s': State)
    requires Steps(env, s, E.ApplyAuthzs(l), s')
    ensures SameSkeletons(s, s')
    ensures forall ns :: NsIn(s'.namespaces, ns).authzs == AuthzsAfter(env, NsIn(s.namespaces, ns).authzs, l, ns)
  {
    if l != [] {
      var k := |l| - 1;
      assert E.ApplyAuthzs(l)[..k] == E.ApplyAuthzs(l[..k]) && E.ApplyAuthzs(l)[k] == ApplyAuthz(l[k]);
      assert StepsThen(env, s, E.ApplyAuthzs(l[..k]), ApplyAuthz(l[k]), s');
      var mid :| Steps(env, s, E.ApplyAuthzs(l[..k]), mid) && OpStep(env, mid, ApplyAuthz(l[k]), s');
      ApplyAuthzsEffect(env, s, l[..k], mid);
      AuthzAppliedEffect(env, mid, l[k]);
      SkeletonsTransitive(s, mid, s');
      forall ns
        ensures NsIn(s'.namespaces, ns).authzs == AuthzsAfter(env, NsIn(s.namespaces, ns).authzs, l, ns)
      {
        assert [l[k]][..0] == [];
        assert AuthzsAfter(env, NsIn(mid.namespaces, ns).authzs, [], ns) == NsIn(mid.namespaces, ns).authzs;
      }
    }
  }

  /** The names of one namespace among some identifiers. */
  function NamesIn(ids: seq<Id>, ns: string): set<string> {
    set id | id in ids && id.ns == ns :: id.name
  }

  lemma NamesInSnoc(ids: seq<Id>, ns: string)
    requires ids != []
    ensures NamesIn(ids, ns) ==
              NamesIn(ids[..|ids| - 1], ns) + if ids[|ids| - 1].ns == ns then {ids[|ids| - 1].name} else {}
  {
  }

  lemma AuthzDeletedEffect(s: State, ns: string, x: string)
    ensures SameSkeletons(s, AuthzDeleted(s, ns, x))
    ensures forall other ::
              NsIn(AuthzDeleted(s, ns, x).namespaces, other).authzs
                == NsIn(s.namespaces, other).authzs - (if other == ns then {x} else {})
  {
  }

  lemma {:induction false} DeleteAuthzsEffect(env: Env, s: State, gone: seq<Id>, s': State)
    requires Steps(env, s, E.DeleteAuthzs(gone), s')
    ensures SameSkeletons(s, s')
    ensures forall ns :: NsIn(s'.namespaces, ns).authzs == NsIn(s.namespaces, ns).authzs - NamesIn(gone, ns)
  {
    if gone == [] {
      assert forall ns :: NamesIn(gone, ns) == {};
    } else {
      var k, id := |gone| - 1, gone[|gone| - 1];
      assert E.DeleteAuthzs(gone)[..k] == E.DeleteAuthzs(gone[..k])
               && E.DeleteAuthzs(gone)[k] == DeleteAuthz(id.ns, id.name);
      assert StepsThen(env, s, E.DeleteAuthzs(gone[..k]), DeleteAuthz(id.ns, id.name), s');
      var mid :| Steps(env, s, E.DeleteAuthzs(gone[..k]), mid) && OpStep(env, mid, DeleteAuthz(id.ns, id.name), s');
      DeleteAuthzsEffect(env, s, gone[..k], mid);
      AuthzDeletedEffect(mid, id.ns, id.name);
      SkeletonsTransitive(s, mid, s');
      forall ns
        ensures NsIn(s'.namespaces, ns).authzs == NsIn(s.namespaces, ns).authzs - NamesIn(gone, ns)
      {
        NamesInSnoc(gone, ns);
        LessOneMore(NsIn(s.namespaces, ns).authzs, NamesIn(gone[..k], ns), if id.ns == ns then {id.name} else {});
      }
    }
  }

  lemma LessOneMore<V>(m: map<string, V>, xs: set<string>, ys: set<string>)
    ensures m - xs - ys == m - (xs + ys)
  {
  }

  lemma {:induction false} StepsSplit(env: Env, s: State, ops: seq<Op>, more: seq<Op>, s': State) returns (mid: State)
    requires Steps(env, s, ops + more, s')
    ensures Steps(env, s, ops, mid) && Steps(env, mid, more, s')
    decreases |more|
  {
    if more == [] {
      assert ops + more == ops;
      mid := s';
    } else {
      var all, k := ops + more, |more| - 1;
      assert all[..|all| - 1] == ops + more[..k] && all[|all| - 1] == more[k];
      assert StepsThen(env, s, ops + more[..k], more[k], s');
      var m :| Steps(env, s, ops + more[..k], m) && OpStep(env, m, more[k], s');
      mid := StepsSplit(env, s, ops, more[..k], m);
      StepsSnoc(env, mid, more[..k], m, more[k], s');
      assert more[..k] + [more[k]] == more;
    }
  }

  lemma NamesInMeaning(ids: seq<Id>, ns: string, x: string)
    ensures x in NamesIn(ids, ns) <==> Id(ns, x) in ids
  {
  }

  lemma AuthzIndexed(s: State, ns: string, x: string)
    ensures Id(ns, x) in E.AuthzIds(s) <==> x in NsIn(s.namespaces, ns).authzs
  {
  }

  /** What a restart makes of one namespace's authorizations. */
  ghost predicate AuthzsReset(env: Env, l: seq<Resources.ServerAuthorization>, ns: string,
                              before: map<string, Authz>, after: map<string, Authz>)
  {
    forall x ::
      var last := LastValid(env, l, Id(ns, x));
      && (x in after <==> Id(ns, x) in E.AuthzsListed(l) && (last.Some? || x in before))
      && (x in after ==> after[x] == if last.Some? then last.value else before[x])
  }

  lemma AuthzsResetAt(env: Env, l: seq<Resources.ServerAuthorization>, gone: seq<Id>, ns: string,
                      before: map<string, Authz>)
    requires forall x :: Id(ns, x) in gone <==> x in before && Id(ns, x) !in E.AuthzsListed(l)
    ensures AuthzsReset(env, l, ns, before, AuthzsAfter(env, before, l, ns) - NamesIn(gone, ns))
  {
    forall x
      ensures var after, last := AuthzsAfter(env, before, l, ns) - NamesIn(gone, ns), LastValid(env, l, Id(ns, x));
              && (x in after <==> Id(ns, x) in E.AuthzsListed(l) && (last.Some? || x in before))
              && (x in after ==> after[x] == if last.Some? then last.value else before[x])
    {
      AuthzsAfterMeaning(env, before, l, ns, x);
      NamesInMeaning(gone, ns, x);
    }
  }

  lemma AuthzResetRun(env: Env, s: State, l: seq<Resources.ServerAuthorization>, gone: seq<Id>, s': State)
    requires Steps(env, s, E.ApplyAuthzs(l) + E.DeleteAuthzs(gone), s')
    ensures SameSkeletons(s, s')
    ensures forall ns :: NsIn(s'.namespaces, ns).authzs ==
              AuthzsAfter(env, NsIn(s.namespaces, ns).authzs, l, ns) - NamesIn(gone, ns)
  {
    var mid := StepsSplit(env, s, E.ApplyAuthzs(l), E.DeleteAuthzs(gone), s');
    ApplyAuthzsEffect(env, s, l, mid);
    DeleteAuthzsEffect(env, mid, gone, s');
    SkeletonsTransitive(s, mid, s');
  }

  /** A restart keeps an indexed authorization exactly if it is listed, and gives every listed one
      its last object that parses, or else leaves the version it had. */
  lemma AuthzResetEffect(env: Env, s: State, l: seq<Resources.ServerAuthorization>, s': State)
    requires Inv(env, s) && E.EventStep(env, s, E.AuthzsRestarted(l), s')
    ensures Inv(env, s') && SameSkeletons(s, s')
    ensures forall ns :: AuthzsReset(env, l, ns, NsIn(s.namespaces, ns).authzs, NsIn(s'.namespaces, ns).authzs)
  {
    var ops :| E.EventOps(s, E.AuthzsRestarted(l), ops) && Steps(env, s, ops, s');
    var gone :| Enumerates(gone, E.AuthzIds(s) - E.AuthzsListed(l)) && ops == E.ApplyAuthzs(l) + E.DeleteAuthzs(gone);
    RunInv(env, s, ops, s');
    AuthzResetRun(env, s, l, gone, s');
    forall ns
      ensures AuthzsReset(env, l, ns, NsIn(s.namespaces, ns).authzs, NsIn(s'.namespaces, ns).authzs)
    {
      forall x
        ensures Id(ns, x) in gone <==> x in NsIn(s.namespaces, ns).authzs && Id(ns, x) !in E.AuthzsListed(l)
      {
        AuthzIndexed(s, ns, x);
      }
      AuthzsResetAt(env, l, gone, ns, NsIn(s.namespaces, ns).authzs);
    }
  }

  lemma RebuildEffect(env: Env, s: State, l: seq<Resources.ServerAuthorization>, all: seq<Id>, s': State)
    requires Inv(env, s) && Enumerates(all, E.AuthzIds(s)) && Steps(env, s, E.DeleteAuthzs(all) + E.ApplyAuthzs(l), s')
    ensures Inv(env, s') && SameSkeletons(s, s')
    ensures forall ns, x ::
              var after, last := NsIn(s'.namespaces, ns).authzs, LastValid(env, l, Id(ns, x));
              (x in after <==> last.Some?) && (x in after ==> after[x] == last.value)
  {
    RunInv(env, s, E.DeleteAuthzs(all) + E.ApplyAuthzs(l), s');
    var mid := StepsSplit(env, s, E.DeleteAuthzs(all), E.ApplyAuthzs(l), s');
    DeleteAuthzsEffect(env, s, all, mid);
    ApplyAuthzsEffect(env, mid, l, s');
    SkeletonsTransitive(s, mid, s');
    forall ns, x
      ensures var after, last := NsIn(s'.namespaces, ns).authzs, LastValid(env, l, Id(ns, x));
              (x in after <==> last.Some?) && (x in after ==> after[x] == last.value)
    {
      AuthzsAfterMeaning(env, NsIn(mid.namespaces, ns).authzs, l, ns, x);
      if x in NsIn(s.namespaces, ns).authzs {
        assert Id(ns, x) in E.AuthzIds(s) && Id(ns, x) in all;
        assert x in NamesIn(all, ns);
      }
    }
  }

  /** In states that obey the invariant, a namespace is determined by its skeleton and its
      authorizations: the servers' views follow. */
  lemma SkeletonDetermines(env: Env, s1: State, s2: State, ns: string)
    requires Inv(env, s1) && Inv(env, s2) && SameSkeleton(NsIn(s1.namespaces, ns), NsIn(s2.namespaces, ns))
    ensures NsIn(s1.namespaces, ns) == NsIn(s2.namespaces, ns) <==>
              NsIn(s1.namespaces, ns).authzs == NsIn(s2.namespaces, ns).authzs
  {
  }

  /** States with the same namespaces, lookups and bindings serve the same. */
  lemma ServedFollows(env: Env, s1: State, s2: State, ns: string, x: string, p: u16)
    requires Inv(env, s1) && Inv(env, s2) && NsIn(s1.namespaces, ns) == NsIn(s2.namespaces, ns)
    requires s1.lookups == s2.lookups && s1.store.outer == s2.store.outer
    ensures Served(s1, ns, x, p) == Served(s2, ns, x, p)
  {
    var n, l := NsIn(s1.namespaces, ns), LookupIn(s1.lookups, ns);
    assert LookupOk(PodsIn(s1.namespaces, ns), l);
    if x in l && p in l[x] {
      assert EntryOk(n.pods[x], l[x]);
      assert ns in s1.namespaces && ns in s2.namespaces;
      assert PodOk(ns, x, n.pods[x], n.servers, s1.store.outer);
      var port := n.pods[x].byPort[p];
      assert PortOk(ns, x, p, port, n.pods[x].defaultRx, n.servers, s1.store.outer);
      if port.serverName.Some? {
        var y := port.serverName.value;
        assert ServerOk(ns, y, n.servers[y], n.authzs, s1.store.inner)
                 && ServerOk(ns, y, n.servers[y], n.authzs, s2.store.inner);
      }
    }
  }

  /** What a restart and a rebuild make of one namespace's authorizations. */
  lemma ResetMeetsRebuildAt(env: Env, l: seq<Resources.ServerAuthorization>, ns: string, before: map<string, Authz>,
                            reset: map<string, Authz>, rebuilt: map<string, Authz>)
    requires AuthzsReset(env, l, ns, before, reset)
    requires forall x ::
               var last := LastValid(env, l, Id(ns, x));
               (x in rebuilt <==> last.Some?) && (x in rebuilt ==> rebuilt[x] == last.value)
    ensures reset == rebuilt <==>
              forall x | x in before && Id(ns, x) in E.AuthzsListed(l) :: LastValid(env, l, Id(ns, x)).Some?
  {
    forall x | LastValid(env, l, Id(ns, x)).Some?
      ensures Id(ns, x) in E.AuthzsListed(l)
    {
      ListedIfValid(env, l, ns, x);
    }
    if reset == rebuilt {
      forall x | x in before && Id(ns, x) in E.AuthzsListed(l)
        ensures LastValid(env, l, Id(ns, x)).Some?
      {
        assert x in reset;
      }
    }
  }

  /** No indexed authorization is listed only with objects that do not parse. */
  ghost predicate NoneStale(env: Env, s: State, l: seq<Resources.ServerAuthorization>) {
    forall ns, x | x in NsIn(s.namespaces, ns).authzs
        && Id(ns, x) in E.AuthzsListed(l) :: LastValid(env, l, Id(ns, x)).Some?
  }

  /** A restart lands where deleting every authorization and applying the list would, namespace by
      namespace, exactly if no indexed authorization is listed only with objects that do not parse;
      and then both serve the same everywhere. */
  lemma AuthzResetIsRebuild(env: Env, s: State, l: seq<Resources.ServerAuthorization>, all: seq<Id>, reset: State,
                            rebuilt: State)
    requires Inv(env, s) && E.EventStep(env, s, E.AuthzsRestarted(l), reset)
    requires Enumerates(all, E.AuthzIds(s)) && Steps(env, s, E.DeleteAuthzs(all) + E.ApplyAuthzs(l), rebuilt)
    ensures (forall ns :: NsIn(reset.namespaces, ns) == NsIn(rebuilt.namespaces, ns)) <==> NoneStale(env, s, l)
    ensures NoneStale(env, s, l) ==> forall ns, x, p :: Served(reset, ns, x, p) == Served(rebuilt, ns, x, p)
  {
    AuthzResetEffect(env, s, l, reset);
    RebuildEffect(env, s, l, all, rebuilt);
    forall ns
      ensures NsIn(reset.namespaces, ns) == NsIn(rebuilt.namespaces, ns) <==>
              forall x | x in NsIn(s.namespaces, ns).authzs
                  && Id(ns, x) in E.AuthzsListed(l) :: LastValid(env, l, Id(ns, x)).Some?
    {
      assert SameSkeleton(NsIn(s.namespaces, ns), NsIn(reset.namespaces, ns))
               && SameSkeleton(NsIn(s.namespaces, ns), NsIn(rebuilt.namespaces, ns));
      SkeletonDetermines(env, reset, rebuilt, ns);
      ResetMeetsRebuildAt(env, l, ns, NsIn(s.namespaces, ns).authzs, NsIn(reset.namespaces, ns).authzs,
          NsIn(rebuilt.namespaces, ns).authzs);
    }
    if NoneStale(env, s, l) {
      forall ns, x, p: u16
        ensures Served(reset, ns, x, p) == Served(rebuilt, ns, x, p)
      {
        ServedFollows(env, reset, rebuilt, ns, x, p);
      }
    }
  }

  lemma ListedIfValid(env: Env, l: seq<Resources.ServerAuthorization>, ns: string, x: string)
    requires LastValid(env, l, Id(ns, x)).Some?
    ensures Id(ns, x) in E.AuthzsListed(l)
  {
  }

  // --- Pods: unconditional ------------------------------------------------------------------

  lemma RmPodEffect(s: State, ns: string, x: string, s': State)
    requires PodRemoved(s, ns, x, s') && forall m :: !IsPending(s.nodes, m, ns, x)
    ensures s'.nodes == s.nodes
    ensures forall a, y :: Indexed(s', a, y) <==> Indexed(s, a, y) && Id(a, y) != Id(ns, x)
  {
  }

  lemma {:induction false} RmPodsEffect(env: Env, s: State, gone: seq<Id>, s': State)
    requires Steps(env, s, E.RmPods(gone), s')
    requires forall m, id: Id | id in gone :: !IsPending(s.nodes, m, id.ns, id.name)
    ensures s'.nodes == s.nodes
    ensures forall ns, x :: Indexed(s', ns, x) <==> Indexed(s, ns, x) && Id(ns, x) !in gone
  {
    if gone != [] {
      var k, id := |gone| - 1, gone[|gone| - 1];
      assert E.RmPods(gone)[..k] == E.RmPods(gone[..k]) && E.RmPods(gone)[k] == RmPod(id.ns, id.name);
      assert StepsThen(env, s, E.RmPods(gone[..k]), RmPod(id.ns, id.name), s');
      var mid :| Steps(env, s, E.RmPods(gone[..k]), mid) && OpStep(env, mid, RmPod(id.ns, id.name), s');
      RmPodsEffect(env, s, gone[..k], mid);
      RmPodEffect(mid, id.ns, id.name, s');
      assert gone == gone[..k] + [id];
    }
  }

  lemma ListedOnIsListed(l: seq<Resources.Pod>, ns: string, x: string, m: string)
    requires ListedOn(l, ns, x, m)
    ensures Id(ns, x) in E.PodsListed(l)
  {
  }

  lemma IndexedIds(s: State, ns: string, x: string)
    ensures Id(ns, x) in E.PodIds(s) <==> Indexed(s, ns, x)
  {
  }

  lemma ClearedQueues(s: State)
    ensures var s1 := s.(nodes := KnownNodes(s.nodes));
            SameKnown(s, s1) && forall m, ns, x :: !IsPending(s1.nodes, m, ns, x)
  {
  }

  /** The state after the list has been applied and before what is gone is removed. */
  lemma PodsListApplied(env: Env, s: State, l: seq<Resources.Pod>, s': State)
    requires Steps(env, s, [Op.ClearPending] + E.ApplyPods(l), s') && NoDuplicates(l)
    ensures SameKnown(s, s')
    ensures forall ns, x :: Indexed(s', ns, x) <==> Indexed(s, ns, x) || ListedOnKnown(s.nodes, l, ns, x)
    ensures forall m, ns, x ::
              IsPending(s'.nodes, m, ns, x) <==> ListedOn(l, ns, x, m) && !IsKnown(s.nodes, m) && !Indexed(s, ns, x)
  {
    var s1 := StepsSplit(env, s, [Op.ClearPending], E.ApplyPods(l), s');
    assert [Op.ClearPending][..0] == [];
    assert StepsThen(env, s, [], Op.ClearPending, s1);
    assert s1 == s.(nodes := KnownNodes(s.nodes));
    ClearedQueues(s);
    ApplyPodsEffect(env, s1, l, s');
    forall ns, x
      ensures ListedOnKnown(s1.nodes, l, ns, x) <==> ListedOnKnown(s.nodes, l, ns, x)
    {
      forall m | IsKnown(s.nodes, m)
        ensures IsKnown(s1.nodes, m)
      {
      }
    }
  }

  /** After a restart with a list that names no pod twice, the indexed pods are the listed ones that
      were indexed or whose node is known, the other listed ones wait for their node, and nothing
      else is indexed, queued or discoverable. */
  lemma PodResetIsExact(env: Env, s: State, l: seq<Resources.Pod>, s': State)
    requires Inv(env, s) && E.EventStep(env, s, E.PodsRestarted(l), s') && NoDuplicates(l)
    ensures SameKnown(s, s')
    ensures forall ns, x ::
              Indexed(s', ns, x) <==>
                Id(ns, x) in E.PodsListed(l) && (Indexed(s, ns, x) || ListedOnKnown(s.nodes, l, ns, x))
    ensures forall m, ns, x ::
              IsPending(s'.nodes, m, ns, x) <==> ListedOn(l, ns, x, m) && !IsKnown(s.nodes, m) && !Indexed(s, ns, x)
    ensures forall ns, x :: x in LookupIn(s'.lookups, ns) <==> Indexed(s', ns, x)
  {
    var ops :| E.EventOps(s, E.PodsRestarted(l), ops) && Steps(env, s, ops, s');
    var gone :| Enumerates(gone, E.PodIds(s) - E.PodsListed(l))
        && ops == [Op.ClearPending] + E.ApplyPods(l) + E.RmPods(gone);
    RunInv(env, s, ops, s');
    var mid := StepsSplit(env, s, [Op.ClearPending] + E.ApplyPods(l), E.RmPods(gone), s');
    PodsListApplied(env, s, l, mid);
    forall m, id: Id | id in gone
      ensures !IsPending(mid.nodes, m, id.ns, id.name)
    {
      if ListedOn(l, id.ns, id.name, m) {
        ListedOnIsListed(l, id.ns, id.name, m);
      }
    }
    RmPodsEffect(env, mid, gone, s');
    forall ns, x
      ensures Indexed(s', ns, x) <==>
                Id(ns, x) in E.PodsListed(l) && (Indexed(s, ns, x) || ListedOnKnown(s.nodes, l, ns, x))
    {
      IndexedIds(s, ns, x);
      if ListedOnKnown(s.nodes, l, ns, x) {
        var m :| IsKnown(s.nodes, m) && ListedOn(l, ns, x, m);
        ListedOnIsListed(l, ns, x, m);
      }
    }
    assert forall ns :: LookupOk(PodsIn(s'.namespaces, ns), LookupIn(s'.lookups, ns));
  }
}
