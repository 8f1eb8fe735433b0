/** Whether a restart of the servers leaves each port bound to the server that claims it: exactly if no
    two servers claim a port after any of the applications. Applying comes before removing, so a server
    that is listed under a new name never gets the ports of the old one. */
module RestartBindings {
  import opened Base
  import opened Labels
  import opened Policy
  import opened Ports
  import Resources
  import opened Watch
  import opened IndexState
  import opened Invariant
  import opened Cluster
  import opened Refinement
  import opened Binding
  import opened Draining
  import opened Agreement
  import opened Resets
  import opened LiveObjects
  import opened ServerResets
  import E = Events

  // --- One port through a restart -----------------------------------------------------------

  /** A port of a pod with those labels and names is bound to that server, or to none. */
  ghost predicate BoundAt(s: State, ns: string, x: string, p: u16, labels: Labels, byName: NameIndex,
                          name: Option<string>) {
    && ns in s.namespaces && x in s.namespaces[ns].pods
    && var e := s.namespaces[ns].pods[x];
    && e.labels == labels && e.byName == byName
    && p in e.byPort && e.byPort[p].serverName == name
  }

  ghost predicate ClaimedAt(s: State, ns: string, p: u16, labels: Labels, byName: NameIndex, n: string) {
    n in Claims(NsIn(s.namespaces, ns).servers, labels, byName, p)
  }

  /** A port that is bound to one server while another claims it stays as it is when a third is
      applied. */
  lemma ApplyKeepsHolder(s: State, srv: Resources.Server, s': State, ns: string, x: string, p: u16, labels: Labels,
                         byName: NameIndex, a: string, n: string)
    requires ServerApplied(s, srv, s') && Id(srv.ns, srv.name) != Id(ns, n)
    requires BoundAt(s, ns, x, p, labels, byName, Some(a)) && ClaimedAt(s, ns, p, labels, byName, n)
    ensures BoundAt(s', ns, x, p, labels, byName, Some(a)) && ClaimedAt(s', ns, p, labels, byName, n)
  {
    if srv.ns == ns {
      var was, now := s.namespaces[ns], s'.namespaces[ns];
      assert n in Claims(now.servers, labels, byName, p);
      assert PodLinked(now.servers, was.pods[x], now.pods[x], s.store.outer, s'.store.outer);
    } else {
      assert s'.namespaces[ns] == s.namespaces[ns];
    }
  }

  lemma {:induction false} ListKeepsHolder(env: Env, s: State, l: seq<Resources.Server>, s': State, ns: string,
                                           x: string, p: u16, labels: Labels, byName: NameIndex, a: string, n: string)
    requires Steps(env, s, E.ApplyServers(l), s') && Id(ns, n) !in E.ServersListed(l)
    requires BoundAt(s, ns, x, p, labels, byName, Some(a)) && ClaimedAt(s, ns, p, labels, byName, n)
    ensures BoundAt(s', ns, x, p, labels, byName, Some(a)) && ClaimedAt(s', ns, p, labels, byName, n)
  {
    if l != [] {
      var k := |l| - 1;
      var mid := LastApplied(env, s, l, s');
      ListedSnoc(l);
      ListKeepsHolder(env, s, l[..k], mid, ns, x, p, labels, byName, a, n);
      ApplyKeepsHolder(mid, l[k], s', ns, x, p, labels, byName, a, n);
    }
  }

  lemma LastApplied(env: Env, s: State, l: seq<Resources.Server>, s': State) returns (mid: State)
    requires l != [] && Steps(env, s, E.ApplyServers(l), s')
    ensures Steps(env, s, E.ApplyServers(l[..|l| - 1]), mid) && ServerApplied(mid, l[|l| - 1], s')
  {
    var k := |l| - 1;
    assert E.ApplyServers(l)[..k] == E.ApplyServers(l[..k]) && E.ApplyServers(l)[k] == ApplyServer(l[k]);
    assert StepsThen(env, s, E.ApplyServers(l[..k]), ApplyServer(l[k]), s');
    mid :| Steps(env, s, E.ApplyServers(l[..k]), mid) && OpStep(env, mid, ApplyServer(l[k]), s');
  }

  lemma ListedSnoc(l: seq<Resources.Server>)
    requires l != []
    ensures E.ServersListed(l) == E.ServersListed(l[..|l| - 1]) + {Id(l[|l| - 1].ns, l[|l| - 1].name)}
  {
    assert l == l[..|l| - 1] + [l[|l| - 1]];
  }

  lemma LastRemoved(env: Env, s: State, gone: seq<Id>, s': State) returns (mid: State)
    requires gone != [] && Steps(env, s, E.RmServers(gone), s')
    ensures Steps(env, s, E.RmServers(gone[..|gone| - 1]), mid)
    ensures s' == ServerRemoved(mid, gone[|gone| - 1].ns, gone[|gone| - 1].name)
  {
    var k := |gone| - 1;
    var op := RmServer(gone[k].ns, gone[k].name);
    assert E.RmServers(gone)[..k] == E.RmServers(gone[..k]) && E.RmServers(gone)[k] == op;
    assert StepsThen(env, s, E.RmServers(gone[..k]), op, s');
    mid :| Steps(env, s, E.RmServers(gone[..k]), mid) && OpStep(env, mid, op, s');
  }

  lemma BoundIsIndexed(env: Env, s: State, ns: string, x: string, p: u16, labels: Labels, byName: NameIndex, a: string)
    requires Inv(env, s) && BoundAt(s, ns, x, p, labels, byName, Some(a))
    ensures a in NsIn(s.namespaces, ns).servers
  {
    var here := s.namespaces[ns];
    assert NsOk(ns, here, s.store);
    assert PodOk(ns, x, here.pods[x], here.servers, s.store.outer);
    assert PortOk(ns, x, p, here.pods[x].byPort[p], here.pods[x].defaultRx, here.servers, s.store.outer);
  }

  /** Removing a server returns its own ports to the default policy and leaves other ports alone. */
  lemma RemovalUnbinds(s: State, b: Id, ns: string, x: string, p: u16, labels: Labels, byName: NameIndex,
                       name: Option<string>)
    requires BoundAt(s, ns, x, p, labels, byName, name)
    requires name.Some? ==> name.value in NsIn(s.namespaces, ns).servers
    ensures BoundAt(ServerRemoved(s, b.ns, b.name), ns, x, p, labels, byName,
                    if b.ns == ns && name == Some(b.name) then None else name)
    ensures NsIn(ServerRemoved(s, b.ns, b.name).namespaces, ns).servers ==
              NsIn(s.namespaces, ns).servers - if b.ns == ns then {b.name} else {}
  {
    if b.ns == ns && b.name !in s.namespaces[ns].servers {
      AbsentKept(s.namespaces[ns].servers, b.name);
    }
  }

  lemma {:induction false} RemovalsUnbind(env: Env, s: State, gone: seq<Id>, s': State, ns: string, x: string, p: u16,
                                          labels: Labels, byName: NameIndex, name: Option<string>)
    requires Steps(env, s, E.RmServers(gone), s') && BoundAt(s, ns, x, p, labels, byName, name)
    requires name.Some? ==> name.value in NsIn(s.namespaces, ns).servers
    ensures BoundAt(s', ns, x, p, labels, byName, if name.Some? && name.value in NamesIn(gone, ns) then None else name)
    ensures NsIn(s'.namespaces, ns).servers == NsIn(s.namespaces, ns).servers - NamesIn(gone, ns)
  {
    if gone != [] {
      var k := |gone| - 1;
      var mid := LastRemoved(env, s, gone, s');
      RemovalsUnbind(env, s, gone[..k], mid, ns, x, p, labels, byName, name);
      var now := if name.Some? && name.value in NamesIn(gone[..k], ns) then None else name;
      RemovalUnbinds(mid, gone[k], ns, x, p, labels, byName, now);
      NamesInSnoc(gone, ns);
    }
  }

  lemma StillClaimed(s: State, gone: seq<Id>, s': State, ns: string, p: u16, labels: Labels, byName: NameIndex, n: string)
    requires ClaimedAt(s, ns, p, labels, byName, n) && Id(ns, n) !in gone
    requires NsIn(s'.namespaces, ns).servers == NsIn(s.namespaces, ns).servers - NamesIn(gone, ns)
    ensures ClaimedAt(s', ns, p, labels, byName, n)
  {
    NamesInMeaning(gone, ns, n);
  }

  lemma UnboundIsNotExact(s: State, ns: string, x: string, p: u16, labels: Labels, byName: NameIndex,
                          name: Option<string>, n: string)
    requires BoundAt(s, ns, x, p, labels, byName, name) && ClaimedAt(s, ns, p, labels, byName, n) && name != Some(n)
    ensures !Exact(s)
  {
    var here := NsIn(s.namespaces, ns);
    if Exact(s) {
      assert NsExact(here);
      assert PodExact(here.servers, here.pods[x]);
      OnlyOneClaims(here.servers, here.pods[x], p);
    }
  }

  lemma ExactIsClaimed(s: State, ns: string, x: string, p: u16, labels: Labels, byName: NameIndex, a: string)
    requires Exact(s) && BoundAt(s, ns, x, p, labels, byName, Some(a))
    ensures forall n :: ClaimedAt(s, ns, p, labels, byName, n) <==> n == a
  {
    var here := NsIn(s.namespaces, ns);
    assert NsExact(here);
    assert PodExact(here.servers, here.pods[x]);
    OnlyOneClaims(here.servers, here.pods[x], p);
    assert here.pods[x].byPort[p].serverName == Some(a) <==> a in Claims(here.servers, labels, byName, p);
  }

  lemma HeldUntilRemoved(env: Env, s: State, l: seq<Resources.Server>, gone: seq<Id>, s': State, ns: string,
                         x: string, p: u16, labels: Labels, byName: NameIndex, a: string)
    requires Inv(env, s) && Exact(s) && Steps(env, s, E.ApplyServers(l) + E.RmServers(gone), s')
    requires BoundAt(s, ns, x, p, labels, byName, Some(a)) && Id(ns, a) !in E.ServersListed(l) && Id(ns, a) in gone
    ensures BoundAt(s', ns, x, p, labels, byName, None)
  {
    var mid := StepsSplit(env, s, E.ApplyServers(l), E.RmServers(gone), s');
    RunInv(env, s, E.ApplyServers(l), mid);
    ExactIsClaimed(s, ns, x, p, labels, byName, a);
    ListKeepsHolder(env, s, l, mid, ns, x, p, labels, byName, a, a);
    BoundIsIndexed(env, mid, ns, x, p, labels, byName, a);
    RemovalsUnbind(env, mid, gone, s', ns, x, p, labels, byName, Some(a));
    NamesInMeaning(gone, ns, a);
  }

  /** A restart that does not list a server leaves all its ports on the default policy, whatever else it
      lists: if anyone claims such a port afterwards, the bindings are not exact. */
  lemma GoneServerUnbinds(env: Env, s: State, l: seq<Resources.Server>, s': State, ns: string, x: string, p: u16,
                          labels: Labels, byName: NameIndex, a: string)
    requires Inv(env, s) && Exact(s) && E.EventStep(env, s, E.ServersRestarted(l), s')
    requires BoundAt(s, ns, x, p, labels, byName, Some(a)) && Id(ns, a) !in E.ServersListed(l)
    ensures BoundAt(s', ns, x, p, labels, byName, None)
    ensures Claims(NsIn(s'.namespaces, ns).servers, labels, byName, p) != {} ==> !Exact(s')
  {
    var gone := RestartRun(env, s, l, s');
    BoundIsIndexed(env, s, ns, x, p, labels, byName, a);
    assert Id(ns, a) in E.ServerIds(s);
    HeldUntilRemoved(env, s, l, gone, s', ns, x, p, labels, byName, a);
    if n :| n in Claims(NsIn(s'.namespaces, ns).servers, labels, byName, p) {
      UnboundIsNotExact(s', ns, x, p, labels, byName, None, n);
    }
  }

  /** In particular a server that is only renamed: the new name is listed and claims the port, the old
      one is not, and the port ends up on the default policy. */
  lemma RenamedServerIsUnbound(env: Env, s: State, l: seq<Resources.Server>, s': State, ns: string, x: string, p: u16,
                               labels: Labels, byName: NameIndex, a: string, n: string)
    requires Inv(env, s) && Exact(s) && E.EventStep(env, s, E.ServersRestarted(l), s')
    requires BoundAt(s, ns, x, p, labels, byName, Some(a)) && Id(ns, a) !in E.ServersListed(l)
    requires LastOf(l, ns, n).Some? && SelectsPort(MetaOf(LastOf(l, ns, n).value), labels, byName, p)
    ensures BoundAt(s', ns, x, p, labels, byName, None) && ClaimedAt(s', ns, p, labels, byName, n) && !Exact(s')
  {
    GoneServerUnbinds(env, s, l, s', ns, x, p, labels, byName, a);
    LastIsListed(l, ns, n);
    ServerResetIsExact(env, s, l, s', ns, n);
    assert ClaimedAt(s', ns, p, labels, byName, n);
  }

  // --- Exactly when a restart leaves exact bindings ---------------------------------------------

  ghost predicate NamedOnce(l: seq<Resources.Server>) {
    forall i, j | 0 <= i < j < |l| :: Id(l[i].ns, l[i].name) != Id(l[j].ns, l[j].name)
  }

  /** No port is claimed twice after any of the applications. */
  ghost predicate NeverConflicts(env: Env, c: Cluster, l: seq<Resources.Server>) {
    l != [] ==> NeverConflicts(env, c, l[..|l| - 1]) && ConflictFree(CRun(env, c, E.ApplyServers(l)))
  }

  lemma {:induction false} ListIsAdmissible(env: Env, c: Cluster, l: seq<Resources.Server>)
    requires NeverConflicts(env, c, l)
    ensures AdmissibleRun(env, c, E.ApplyServers(l))
  {
    if l != [] {
      var k := |l| - 1;
      ListIsAdmissible(env, c, l[..k]);
      assert E.ApplyServers(l)[..k] == E.ApplyServers(l[..k]) && E.ApplyServers(l)[k] == ApplyServer(l[k]);
    }
  }

  lemma {:induction false} RemovalsKeepExact(env: Env, s: State, gone: seq<Id>, s': State)
    requires Exact(s) && Steps(env, s, E.RmServers(gone), s')
    ensures Exact(s')
  {
    if gone != [] {
      var k := |gone| - 1;
      var mid := LastRemoved(env, s, gone, s');
      RemovalsKeepExact(env, s, gone[..k], mid);
      RmServerExact(mid, gone[k].ns, gone[k].name);
    }
  }

  /** If applying a server makes two claim a port, the port stays with the other one. */
  lemma ConflictIsHeld(s: State, srv: Resources.Server, s': State)
    returns (x: string, p: u16, a: string)
    requires Exact(s) && ServerApplied(s, srv, s') && !NsUnambiguous(NsIn(s'.namespaces, srv.ns))
    ensures a != srv.name && srv.ns in s'.namespaces && x in s'.namespaces[srv.ns].pods
    ensures var e := s'.namespaces[srv.ns].pods[x];
            && BoundAt(s', srv.ns, x, p, e.labels, e.byName, Some(a))
            && ClaimedAt(s', srv.ns, p, e.labels, e.byName, srv.name)
  {
    var n, n' := NsIn(s.namespaces, srv.ns), NsIn(s'.namespaces, srv.ns);
    var x0, p0 :| x0 in n'.pods && p0 in n'.pods[x0].byPort
                  && !AtMostOne(Claims(n'.servers, n'.pods[x0].labels, n'.pods[x0].byName, p0));
    x, p := x0, p0;
    assert NsExact(n);
    a := ConflictAt(n, n', srv.name, x, p);
    assert PodLinked(n'.servers, n.pods[x], n'.pods[x], s.store.outer, s'.store.outer);
  }

  lemma ConflictAt(n: Ns, n': Ns, name: string, x: string, p: u16) returns (a: string)
    requires NsExact(n) && x in n.pods && x in n'.pods && p in n.pods[x].byPort
    requires n'.pods[x].labels == n.pods[x].labels && n'.pods[x].byName == n.pods[x].byName
    requires forall y | y != name ::
               (y in n'.servers <==> y in n.servers) && (y in n.servers ==> n'.servers[y] == n.servers[y])
    requires !AtMostOne(Claims(n'.servers, n'.pods[x].labels, n'.pods[x].byName, p))
    ensures a != name && n.pods[x].byPort[p].serverName == Some(a)
    ensures name in Claims(n'.servers, n.pods[x].labels, n.pods[x].byName, p)
  {
    var e := n.pods[x];
    var was, now := Claims(n.servers, e.labels, e.byName, p), Claims(n'.servers, e.labels, e.byName, p);
    assert PodExact(n.servers, e);
    OnlyOneClaims(n.servers, e, p);
    var u, v :| u in now && v in now && u != v;
    assert forall y | y != name :: y in now <==> y in was;
    a := if u != name then u else v;
    assert a in was;
  }

  lemma SplitList(env: Env, s: State, l: seq<Resources.Server>, k: nat, rest: seq<Op>, s': State)
    returns (m: State, m1: State, q: State)
    requires k < |l| && Steps(env, s, E.ApplyServers(l) + rest, s')
    ensures Steps(env, s, E.ApplyServers(l[..k]), m) && ServerApplied(m, l[k], m1)
    ensures Steps(env, s, E.ApplyServers(l[..k + 1]), m1) && Steps(env, m1, E.ApplyServers(l[k + 1..]), q)
    ensures Steps(env, q, rest, s')
  {
    assert E.ApplyServers(l) == E.ApplyServers(l[..k + 1]) + E.ApplyServers(l[k + 1..]);
    q := StepsSplit(env, s, E.ApplyServers(l), rest, s');
    m1 := StepsSplit(env, s, E.ApplyServers(l[..k + 1]), E.ApplyServers(l[k + 1..]), q);
    assert l[..k + 1][..k] == l[..k];
    m := LastApplied(env, s, l[..k + 1], m1);
  }

  /** A conflict in the course of a restart shows in the end. */
  lemma ConflictShows(env: Env, m: State, srv: Resources.Server, m1: State, rest: seq<Resources.Server>, q: State,
                      gone: seq<Id>, s': State)
    requires Inv(env, m) && Exact(m) && ServerApplied(m, srv, m1) && !NsUnambiguous(NsIn(m1.namespaces, srv.ns))
    requires Steps(env, m1, E.ApplyServers(rest), q) && Id(srv.ns, srv.name) !in E.ServersListed(rest)
    requires Steps(env, q, E.RmServers(gone), s') && Id(srv.ns, srv.name) !in gone
    ensures !Exact(s')
  {
    var x, p, a := ConflictIsHeld(m, srv, m1);
    var e := m1.namespaces[srv.ns].pods[x];
    ListKeepsHolder(env, m1, rest, q, srv.ns, x, p, e.labels, e.byName, a, srv.name);
    OpInv(env, m, ApplyServer(srv), m1);
    RunInv(env, m1, E.ApplyServers(rest), q);
    BoundIsIndexed(env, q, srv.ns, x, p, e.labels, e.byName, a);
    RemovalsUnbind(env, q, gone, s', srv.ns, x, p, e.labels, e.byName, Some(a));
    StillClaimed(q, gone, s', srv.ns, p, e.labels, e.byName, srv.name);
    UnboundIsNotExact(s', srv.ns, x, p, e.labels, e.byName,
                      if a in NamesIn(gone, srv.ns) then None else Some(a), srv.name);
  }

  lemma NotNamedAgain(l: seq<Resources.Server>, k: nat)
    requires NamedOnce(l) && k < |l|
    ensures Id(l[k].ns, l[k].name) !in E.ServersListed(l[k + 1..]) && Id(l[k].ns, l[k].name) in E.ServersListed(l)
  {
    assert l[k] in l;
    forall v | v in l[k + 1..]
      ensures Id(v.ns, v.name) != Id(l[k].ns, l[k].name)
    {
      var i :| 0 <= i < |l[k + 1..]| && l[k + 1..][i] == v;
      assert v == l[k + 1 + i];
    }
  }

  /** The first conflict of a restart would show in the end. */
  lemma NextHadNoConflict(env: Env, c: Cluster, s: State, l: seq<Resources.Server>, gone: seq<Id>, s': State, k: nat)
    requires Inv(env, s) && Agrees(env, c, s) && Exact(s) && Exact(s') && NamedOnce(l) && k < |l|
    requires forall id | id in gone :: id !in E.ServersListed(l)
    requires Steps(env, s, E.ApplyServers(l) + E.RmServers(gone), s') && NeverConflicts(env, c, l[..k])
    ensures ConflictFree(CRun(env, c, E.ApplyServers(l[..k + 1])))
  {
    var m, m1, q := SplitList(env, s, l, k, E.RmServers(gone), s');
    ListIsAdmissible(env, c, l[..k]);
    RunAgrees(env, c, s, E.ApplyServers(l[..k]), m);
    NotNamedAgain(l, k);
    if !NsUnambiguous(NsIn(m1.namespaces, l[k].ns)) {
      ConflictShows(env, m, l[k], m1, l[k + 1..], q, gone, s');
    }
    ApplyServerExact(m, l[k], m1);
    PrefixConflictFree(env, c, l, k + 1, m, m1);
  }

  lemma ExactHadNoConflict(env: Env, c: Cluster, s: State, l: seq<Resources.Server>, gone: seq<Id>, s': State)
    requires Inv(env, s) && Agrees(env, c, s) && Exact(s) && Exact(s') && NamedOnce(l)
    requires forall id | id in gone :: id !in E.ServersListed(l)
    requires Steps(env, s, E.ApplyServers(l) + E.RmServers(gone), s')
    ensures NeverConflicts(env, c, l)
  {
    for k := 0 to |l|
      invariant NeverConflicts(env, c, l[..k])
    {
      NextHadNoConflict(env, c, s, l, gone, s', k);
      assert l[..k + 1][..k] == l[..k];
    }
    assert l[..|l|] == l;
  }

  lemma PrefixConflictFree(env: Env, c: Cluster, l: seq<Resources.Server>, k: nat, m: State, m1: State)
    requires 0 < k <= |l| && Inv(env, m) && Agrees(env, CRun(env, c, E.ApplyServers(l[..k - 1])), m)
    requires ServerApplied(m, l[k - 1], m1) && Exact(m1)
    ensures ConflictFree(CRun(env, c, E.ApplyServers(l[..k])))
  {
    var ops := E.ApplyServers(l[..k]);
    assert l[..k][..k - 1] == l[..k - 1];
    assert ops[..k - 1] == E.ApplyServers(l[..k - 1]) && ops[k - 1] == ApplyServer(l[k - 1]);
    OpAgrees(env, CRun(env, c, ops[..k - 1]), m, ops[k - 1], m1);
    ExactIsConflictFree(env, CRun(env, c, ops), m1);
  }

  /** From exact bindings, a restart with a list that names no server twice leaves exact bindings if and
      only if no port is claimed twice after any of its applications. Removing servers afterwards
      neither helps nor hurts. */
  lemma RestartBindsExactlyIff(env: Env, c: Cluster, s: State, l: seq<Resources.Server>, s': State)
    requires Inv(env, s) && Agrees(env, c, s) && Exact(s) && NamedOnce(l)
    requires E.EventStep(env, s, E.ServersRestarted(l), s')
    ensures Exact(s') <==> NeverConflicts(env, c, l)
  {
    var gone := RestartRun(env, s, l, s');
    if Exact(s') {
      ExactHadNoConflict(env, c, s, l, gone, s');
    }
    if NeverConflicts(env, c, l) {
      var mid := StepsSplit(env, s, E.ApplyServers(l), E.RmServers(gone), s');
      ListIsAdmissible(env, c, l);
      RunAgrees(env, c, s, E.ApplyServers(l), mid);
      RemovalsKeepExact(env, mid, gone, s');
    }
  }

  lemma FewerServersConflictFree(env: Env, c: Cluster, ns: string, name: string)
    requires ConflictFree(c)
    ensures ConflictFree(CStep(env, c, RmServer(ns, name)))
  {
    var c' := CStep(env, c, RmServer(ns, name));
    forall other
      ensures NsConflictFree(RecordsOf(c', other))
    {
      var r, r' := RecordsOf(c, other), RecordsOf(c', other);
      assert NsConflictFree(r);
      forall x, p | Discoverable(r', x, p)
        ensures AtMostOne(ClaimsOf(r'.servers, r'.pods[x].pod, p))
      {
        assert Discoverable(r, x, p);
        assert ClaimsOf(r'.servers, r'.pods[x].pod, p) <= ClaimsOf(r.servers, r.pods[x].pod, p);
      }
    }
  }

  lemma AdmissiblePrefix(env: Env, c: Cluster, ops: seq<Op>, op: Op)
    ensures AdmissibleRun(env, c, ops + [op]) <==> AdmissibleRun(env, c, ops) && Admissible(env, CRun(env, c, ops), op)
    ensures CRun(env, c, ops + [op]) == CStep(env, CRun(env, c, ops), op)
  {
    assert (ops + [op])[..|ops|] == ops;
  }

  /** The operations of a restart are admissible exactly if its applications never conflict. */
  lemma {:induction false} RestartIsAdmissibleIff(env: Env, c: Cluster, l: seq<Resources.Server>, gone: seq<Id>)
    requires ConflictFree(c)
    ensures AdmissibleRun(env, c, E.ApplyServers(l) + E.RmServers(gone)) <==> NeverConflicts(env, c, l)
    ensures NeverConflicts(env, c, l) ==> ConflictFree(CRun(env, c, E.ApplyServers(l) + E.RmServers(gone)))
    decreases |l| + |gone|
  {
    if gone != [] {
      var k := |gone| - 1;
      var before, op := E.ApplyServers(l) + E.RmServers(gone[..k]), RmServer(gone[k].ns, gone[k].name);
      RestartIsAdmissibleIff(env, c, l, gone[..k]);
      assert E.ApplyServers(l) + E.RmServers(gone) == before + [op];
      AdmissiblePrefix(env, c, before, op);
      if NeverConflicts(env, c, l) {
        FewerServersConflictFree(env, CRun(env, c, before), gone[k].ns, gone[k].name);
      }
    } else if l != [] {
      var k := |l| - 1;
      RestartIsAdmissibleIff(env, c, l[..k], []);
      assert E.ApplyServers(l) + E.RmServers([])
          == E.ApplyServers(l[..k]) + E.RmServers([]) + [ApplyServer(l[k])]
          == E.ApplyServers(l);
      AdmissiblePrefix(env, c, E.ApplyServers(l[..k]) + E.RmServers([]), ApplyServer(l[k]));
    }
  }
}
