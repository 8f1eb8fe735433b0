/** Which port is bound to which server: exactly the one that claims it, whatever the order in which
    servers and pods are walked. */
module Binding {
  import opened Base
  import opened Labels
  import opened Net
  import opened Policy
  import opened Ports
  import Resources
  import opened Watch
  import opened IndexState
  import opened Invariant
  import opened Cluster
  import opened Refinement

  /** A pod's ports are bound to exactly the servers that claim them. */
  ghost predicate PodExact(servers: map<string, ServerEntry>, e: PodEntry) {
    forall p, n | p in e.byPort :: e.byPort[p].serverName == Some(n) <==> n in Claims(servers, e.labels, e.byName, p)
  }

  ghost predicate NsExact(n: Ns) {
    forall x | x in n.pods :: PodExact(n.servers, n.pods[x])
  }

  ghost predicate Exact(s: State) {
    forall ns :: NsExact(NsIn(s.namespaces, ns))
  }

  // --- One link ---------------------------------------------------------------------------

  /** A port after linking is bound exactly when at most one server claims it and the server it was
      bound to before, if it stays claimed at all, still does. */
  predicate Linkable(claims: set<string>, before: PortEntry) {
    AtMostOne(claims) && (before.serverName.Some? && claims != {} ==> before.serverName.value in claims)
  }

  lemma PortLinkedExact(servers: map<string, ServerEntry>, claims: set<string>, defaultRx: ChanId,
                        before: PortEntry, after: PortEntry, wasAt: ChanId, nowAt: ChanId)
    requires claims <= servers.Keys && PortLinked(servers, claims, defaultRx, before, after, wasAt, nowAt)
    ensures (forall n :: after.serverName == Some(n) <==> n in claims) <==> Linkable(claims, before)
  {
  }

  lemma PodLinkedExact(servers: map<string, ServerEntry>, e: PodEntry, e': PodEntry, outer: Outer, outer': Outer)
    requires PodLinked(servers, e, e', outer, outer')
    ensures PodExact(servers, e') <==>
              forall p | p in e.byPort :: Linkable(Claims(servers, e.labels, e.byName, p), e.byPort[p])
  {
    forall p | p in e.byPort
      ensures (forall n :: e'.byPort[p].serverName == Some(n) <==> n in Claims(servers, e'.labels, e'.byName, p))
                <==> Linkable(Claims(servers, e.labels, e.byName, p), e.byPort[p])
    {
      PortLinkedExact(servers, Claims(servers, e.labels, e.byName, p), e.defaultRx, e.byPort[p], e'.byPort[p],
                      outer[e.byPort[p].tx], outer'[e.byPort[p].tx]);
    }
  }

  /** A relabelled port whose old and new claimants differ stays with the old one. */
  lemma HandoverKeepsOldServer(servers: map<string, ServerEntry>, e: PodEntry, labels: Labels, e': PodEntry,
                               outer: Outer, outer': Outer, p: u16, old': string, new': string)
    requires PodExact(servers, e) && PodLinked(servers, e.(labels := labels), e', outer, outer')
    requires p in e.byPort && old' != new'
    requires Claims(servers, e.labels, e.byName, p) == {old'} && Claims(servers, labels, e.byName, p) == {new'}
    ensures e'.byPort[p].serverName == Some(old') && !PodExact(servers, e')
  {
  }

  // --- Claims in the index and in the records -------------------------------------------------

  lemma ClaimsAgree(env: Env, r: Records, n: Ns, x: string, p: u16)
    requires NsAgrees(env, r, n) && x in n.pods
    ensures x in r.pods && ClaimsOf(r.servers, r.pods[x].pod, p) ==
              Claims(n.servers, n.pods[x].labels, n.pods[x].byName, p)
    ensures Discoverable(r, x, p) <==> p in n.pods[x].byPort
  {
    assert PodAgrees(env, r.pods[x], n.pods[x]);
  }

  /** No port of an indexed pod is claimed twice. */
  ghost predicate NsUnambiguous(n: Ns) {
    forall x, p | x in n.pods && p in n.pods[x].byPort ::
        AtMostOne(Claims(n.servers, n.pods[x].labels, n.pods[x].byName, p))
  }

  lemma UnambiguousIsConflictFree(env: Env, r: Records, n: Ns)
    requires NsAgrees(env, r, n)
    ensures NsUnambiguous(n) <==> NsConflictFree(r)
  {
    forall x, p | x in n.pods && p in n.pods[x].byPort
      ensures Discoverable(r, x, p)
      ensures ClaimsOf(r.servers, r.pods[x].pod, p) == Claims(n.servers, n.pods[x].labels, n.pods[x].byName, p)
    {
      ClaimsAgree(env, r, n, x, p);
    }
    forall x, p | Discoverable(r, x, p)
      ensures x in n.pods && p in n.pods[x].byPort
    {
      ClaimsAgree(env, r, n, x, p);
    }
  }

  lemma ConflictFreeAt(env: Env, c: Cluster, s: State, ns: string)
    requires Agrees(env, c, s) && ConflictFree(c)
    ensures NsUnambiguous(NsIn(s.namespaces, ns))
  {
    assert AgreesAt(env, c, s, ns);
    UnambiguousIsConflictFree(env, RecordsOf(c, ns), NsIn(s.namespaces, ns));
  }

  lemma ExactIsUnambiguous(n: Ns)
    requires NsExact(n)
    ensures NsUnambiguous(n)
  {
    forall x, p | x in n.pods && p in n.pods[x].byPort
      ensures AtMostOne(Claims(n.servers, n.pods[x].labels, n.pods[x].byName, p))
    {
      assert PodExact(n.servers, n.pods[x]);
      OnlyOneClaims(n.servers, n.pods[x], p);
    }
  }

  lemma OnlyOneClaims(servers: map<string, ServerEntry>, e: PodEntry, p: u16)
    requires PodExact(servers, e) && p in e.byPort
    ensures forall n | n in Claims(servers, e.labels, e.byName, p) :: e.byPort[p].serverName == Some(n)
  {
  }

  /** Exact bindings leave no room for a conflict. */
  lemma ExactIsConflictFree(env: Env, c: Cluster, s: State)
    requires Agrees(env, c, s) && Exact(s)
    ensures ConflictFree(c)
  {
    forall ns
      ensures NsConflictFree(RecordsOf(c, ns))
    {
      var r, n := RecordsOf(c, ns), NsIn(s.namespaces, ns);
      assert AgreesAt(env, c, s, ns);
      assert NsExact(n);
      ExactIsUnambiguous(n);
      UnambiguousIsConflictFree(env, r, n);
    }
  }

  // --- The operations ---------------------------------------------------------------------------

  lemma ReplaceExact(s: State, s': State, ns: string)
    requires Exact(s) && NsExact(NsIn(s'.namespaces, ns))
    requires forall other | other != ns :: NsIn(s'.namespaces, other) == NsIn(s.namespaces, other)
    ensures Exact(s')
  {
  }

  lemma SameMetasExact(n: Ns, servers: map<string, ServerEntry>, authzs: map<string, Authz>)
    requires NsExact(n) && Metas(servers) == Metas(n.servers)
    ensures NsExact(Ns(n.pods, servers, authzs))
  {
    forall x | x in n.pods
      ensures PodExact(servers, n.pods[x])
    {
      assert PodExact(n.servers, n.pods[x]);
      forall p
        ensures Claims(servers, n.pods[x].labels, n.pods[x].byName, p) ==
                  Claims(n.servers, n.pods[x].labels, n.pods[x].byName, p)
      {
        SameMetasClaim(n.servers, servers, n.pods[x], p);
      }
    }
  }

  lemma SameMetasClaim(servers: map<string, ServerEntry>, servers': map<string, ServerEntry>, e: PodEntry, p: u16)
    requires Metas(servers') == Metas(servers)
    ensures Claims(servers', e.labels, e.byName, p) == Claims(servers, e.labels, e.byName, p)
  {
    assert servers'.Keys == Metas(servers').Keys == Metas(servers).Keys == servers.Keys;
    forall n | n in servers
      ensures servers'[n].meta == servers[n].meta
    {
      assert Metas(servers')[n] == Metas(servers)[n];
    }
  }

  lemma AuthzAppliedState(env: Env, s: State, a: Resources.ServerAuthorization)
    ensures var n, n' := NsIn(s.namespaces, a.ns), NsIn(AuthzApplied(env, s, a).namespaces, a.ns);
            n'.pods == n.pods && Metas(n'.servers) == Metas(n.servers)
    ensures forall other | other != a.ns ::
              NsIn(AuthzApplied(env, s, a).namespaces, other) == NsIn(s.namespaces, other)
  {
    var n, z := NsIn(s.namespaces, a.ns), Resources.MkAuthz(a, env.identityDomain);
    if z.Ok? {
      MetasWithAuthz(n.servers, a.name, z.value);
    }
  }

  lemma MetasWithAuthz(servers: map<string, ServerEntry>, name: string, z: Authz)
    ensures Metas(WithAuthz(servers, name, z)) == Metas(servers)
  {
  }

  lemma ApplyAuthzExact(env: Env, s: State, a: Resources.ServerAuthorization)
    requires Exact(s)
    ensures Exact(AuthzApplied(env, s, a))
  {
    var s' := AuthzApplied(env, s, a);
    var n, n' := NsIn(s.namespaces, a.ns), NsIn(s'.namespaces, a.ns);
    AuthzAppliedState(env, s, a);
    assert NsExact(n);
    SameMetasExact(n, n'.servers, n'.authzs);
    ReplaceExact(s, s', a.ns);
  }

  lemma DeleteAuthzExact(s: State, ns: string, name: string)
    requires Exact(s)
    ensures Exact(AuthzDeleted(s, ns, name))
  {
    var n, n' := NsIn(s.namespaces, ns), NsIn(AuthzDeleted(s, ns, name).namespaces, ns);
    assert NsExact(n);
    assert Metas(n'.servers) == Metas(n.servers);
    SameMetasExact(n, n'.servers, n'.authzs);
    ReplaceExact(s, AuthzDeleted(s, ns, name), ns);
  }

  /** Only one server changes, so a port cannot pass from one unchanged server to another. */
  lemma OneServerNoHandover(servers: map<string, ServerEntry>, servers': map<string, ServerEntry>, name: string,
                            e: PodEntry, p: u16)
    requires PodExact(servers, e) && p in e.byPort
    requires forall n | n != name :: (n in servers' <==> n in servers) && (n in servers ==> servers'[n] == servers[n])
    requires AtMostOne(Claims(servers', e.labels, e.byName, p))
    ensures Linkable(Claims(servers', e.labels, e.byName, p), e.byPort[p])
  {
    var was, now := Claims(servers, e.labels, e.byName, p), Claims(servers', e.labels, e.byName, p);
    if e.byPort[p].serverName.Some? && now != {} {
      var x := e.byPort[p].serverName.value;
      var y :| y in now;
      OnlyOneClaims(servers, e, p);
      assert x in was;
      assert forall n | n != name :: n in was <==> n in now;
    }
  }

  lemma ApplyServerExact(s0: State, srv: Resources.Server, s': State)
    requires Exact(s0) && ServerApplied(s0, srv, s') && NsUnambiguous(NsIn(s'.namespaces, srv.ns))
    ensures Exact(s')
  {
    var n, n' := NsIn(s0.namespaces, srv.ns), NsIn(s'.namespaces, srv.ns);
    assert NsExact(n);
    forall x | x in n'.pods
      ensures PodExact(n'.servers, n'.pods[x])
    {
      var e := n.pods[x];
      assert PodExact(n.servers, e);
      forall p | p in e.byPort
        ensures Linkable(Claims(n'.servers, e.labels, e.byName, p), e.byPort[p])
      {
        assert AtMostOne(Claims(n'.servers, n'.pods[x].labels, n'.pods[x].byName, p));
        OneServerNoHandover(n.servers, n'.servers, srv.name, e, p);
      }
      PodLinkedExact(n'.servers, e, n'.pods[x], s0.store.outer, s'.store.outer);
    }
    ReplaceExact(s0, s', srv.ns);
  }

  lemma RmServerExact(s: State, ns: string, name: string)
    requires Exact(s)
    ensures Exact(ServerRemoved(s, ns, name))
  {
    var n, n' := NsIn(s.namespaces, ns), NsIn(ServerRemoved(s, ns, name).namespaces, ns);
    assert NsExact(n);
    if name in n.servers {
      forall x | x in n'.pods
        ensures PodExact(n'.servers, n'.pods[x])
      {
        var e, e' := n.pods[x], n'.pods[x];
        assert PodExact(n.servers, e);
        assert e' == ResetPod(e, name);
        forall p
          ensures Claims(n'.servers, e.labels, e.byName, p) == Claims(n.servers, e.labels, e.byName, p) - {name}
        {
        }
      }
    }
    ReplaceExact(s, ServerRemoved(s, ns, name), ns);
  }

  lemma RelabelExact(env: Env, c: Cluster, s: State, pod: Resources.Pod, s': State)
    requires Agrees(env, c, s) && Exact(s) && PodRelabeled(s, pod, s') && pod.ns in s.namespaces
    requires Stable(env, c, ApplyPod(pod)) && NoHandover(c, ApplyPod(pod)) && NsUnambiguous(NsIn(s'.namespaces, pod.ns))
    ensures Exact(s')
  {
    var r, n, n' := RecordsOf(c, pod.ns), NsIn(s.namespaces, pod.ns), NsIn(s'.namespaces, pod.ns);
    var e0, e' := n.pods[pod.name], n'.pods[pod.name];
    var e := e0.(labels := pod.labels);
    assert NsExact(n) && PodExact(n.servers, e0);
    assert AgreesAt(env, c, s, pod.ns);
    forall p | p in e.byPort
      ensures Linkable(Claims(n.servers, e.labels, e.byName, p), e.byPort[p])
    {
      assert AtMostOne(Claims(n'.servers, e'.labels, e'.byName, p));
      RelabelLinkable(env, r, n, pod, p);
    }
    PodLinkedExact(n.servers, e, e', s.store.outer, s'.store.outer);
    forall x | x in n'.pods && x != pod.name
      ensures PodExact(n'.servers, n'.pods[x])
    {
      assert PodExact(n.servers, n.pods[x]);
    }
    ReplaceExact(s, s', pod.ns);
  }

  /** What the condition on relabelling says of the records, it says of the index. */
  lemma RelabelLinkable(env: Env, r: Records, n: Ns, pod: Resources.Pod, p: u16)
    requires NsAgrees(env, r, n) && pod.name in n.pods && PodExact(n.servers, n.pods[pod.name])
    requires p in n.pods[pod.name].byPort
    requires KeepsSpec(env, r.pods[pod.name], pod)
    requires AtMostOne(Claims(n.servers, pod.labels, n.pods[pod.name].byName, p))
    ensures ClaimsOf(r.servers, pod, p) == Claims(n.servers, pod.labels, n.pods[pod.name].byName, p)
    ensures Linkable(Claims(n.servers, pod.labels, n.pods[pod.name].byName, p), n.pods[pod.name].byPort[p]) <==>
              forall x, y | x in ClaimsOf(r.servers, r.pods[pod.name].pod, p)
                  && y in ClaimsOf(r.servers, pod, p) :: x == y
  {
    var e := n.pods[pod.name];
    ClaimsAgree(env, r, n, pod.name, p);
    assert PodAgrees(env, r.pods[pod.name], e);
    var now := Claims(n.servers, pod.labels, e.byName, p);
    assert now == ClaimsOf(r.servers, pod, p);
    var was := ClaimsOf(r.servers, r.pods[pod.name].pod, p);
    if e.byPort[p].serverName.Some? {
      assert e.byPort[p].serverName.value in was;
    }
    forall x | x in was
      ensures e.byPort[p].serverName == Some(x)
    {
    }
  }

  lemma IndexExact(env: Env, s: State, pod: Resources.Pod, ips: seq<IpAddr>, s': State)
    requires Exact(s) && pod.name !in NsIn(s.namespaces, pod.ns).pods && PodIndexed(env, s, pod, ips, s')
    requires NsUnambiguous(NsIn(s'.namespaces, pod.ns))
    ensures Exact(s')
  {
    var n, n' := NsIn(s.namespaces, pod.ns), NsIn(s'.namespaces, pod.ns);
    var e := n'.pods[pod.name];
    assert NsExact(n);
    forall p | p in e.byPort
      ensures forall x :: e.byPort[p].serverName == Some(x) <==> x in Claims(n'.servers, e.labels, e.byName, p)
    {
      assert AtMostOne(Claims(n'.servers, e.labels, e.byName, p));
      var tx := e.byPort[p].tx;
      PortLinkedExact(n.servers, Claims(n.servers, e.labels, e.byName, p), e.defaultRx, PortEntry(None, tx), e.byPort[p],
                      e.defaultRx, s'.store.outer[tx]);
    }
    forall x | x in n'.pods && x != pod.name
      ensures PodExact(n'.servers, n'.pods[x])
    {
      assert PodExact(n.servers, n.pods[x]);
    }
    ReplaceExact(s, s', pod.ns);
  }

  lemma ApplyPodExact(env: Env, c: Cluster, s0: State, pod: Resources.Pod, s': State)
    requires Inv(env, s0) && Agrees(env, c, s0) && Exact(s0) && PodApplied(env, s0, pod, s')
    requires Stable(env, c, ApplyPod(pod)) && NoHandover(c, ApplyPod(pod)) && ConflictFree(CStep(env, c, ApplyPod(pod)))
    ensures Exact(s')
  {
    ApplyPodAgrees(env, c, s0, pod, s');
    ConflictFreeAt(env, CStep(env, c, ApplyPod(pod)), s', pod.ns);
    EnsureNsAgrees(env, c, s0, pod.ns);
    var s := EnsureNs(s0, pod.ns);
    assert NsExact(NsIn(s0.namespaces, pod.ns));
    ReplaceExact(s0, s, pod.ns);
    var n, m := s.namespaces[pod.ns], Resources.NodeName(pod);
    if pod.name in n.pods {
      if n.pods[pod.name].labels != pod.labels {
        RelabelExact(env, c, s, pod, s');
      }
    } else if m.Some? && IsKnown(s.nodes, m.value) {
      IndexExact(env, s, pod, s.nodes[m.value].ips, s');
    } else {
      assert s'.namespaces == s.namespaces;
    }
  }

  lemma RmPodExact(s: State, ns: string, name: string, s': State)
    requires Exact(s) && PodRemoved(s, ns, name, s')
    ensures Exact(s')
  {
    var n, n' := NsIn(s.namespaces, ns), NsIn(s'.namespaces, ns);
    assert NsExact(n);
    forall x | x in n'.pods
      ensures PodExact(n'.servers, n'.pods[x])
    {
      assert PodExact(n.servers, n.pods[x]);
    }
    ReplaceExact(s, s', ns);
  }

  /** The condition on relabelling is needed: without it the binding is not exact afterwards. */
  lemma RelabelNeedsNoHandover(env: Env, c: Cluster, s: State, pod: Resources.Pod, s': State, p: u16)
    requires Agrees(env, c, s) && Exact(s) && Exact(s')
    requires pod.ns in s.namespaces && pod.name in s.namespaces[pod.ns].pods
    requires Stable(env, c, ApplyPod(pod)) && PodRelabeled(s, pod, s')
    requires p in s.namespaces[pod.ns].pods[pod.name].byPort
    ensures var r := RecordsOf(c, pod.ns);
            && pod.name in r.pods
            && forall x, y | x in ClaimsOf(r.servers, r.pods[pod.name].pod, p)
                && y in ClaimsOf(r.servers, pod, p) :: x == y
  {
    var r, n, n' := RecordsOf(c, pod.ns), NsIn(s.namespaces, pod.ns), NsIn(s'.namespaces, pod.ns);
    var e, e' := n.pods[pod.name], n'.pods[pod.name];
    assert NsAgrees(env, r, n) by {
      assert AgreesAt(env, c, s, pod.ns);
    }
    assert NsExact(n) && NsExact(n');
    assert PodExact(n.servers, e) && PodExact(n'.servers, e');
    PodLinkedExact(n.servers, e.(labels := pod.labels), e', s.store.outer, s'.store.outer);
    assert Linkable(Claims(n.servers, pod.labels, e.byName, p), e.byPort[p]);
    RelabelLinkable(env, r, n, pod, p);
  }

  lemma HandoverBreaksExact(env: Env, c: Cluster, s0: State, pod: Resources.Pod, s': State)
    requires Agrees(env, c, s0) && Exact(s0) && PodApplied(env, s0, pod, s') && Exact(s')
    requires Stable(env, c, ApplyPod(pod))
    ensures NoHandover(c, ApplyPod(pod))
  {
    EnsureNsAgrees(env, c, s0, pod.ns);
    var s := EnsureNs(s0, pod.ns);
    var r, n := RecordsOf(c, pod.ns), NsIn(s.namespaces, pod.ns);
    assert NsAgrees(env, r, n) by {
      assert AgreesAt(env, c, s, pod.ns);
    }
    forall p, x, y | Discoverable(r, pod.name, p) && x in ClaimsOf(r.servers, r.pods[pod.name].pod, p)
                     && y in ClaimsOf(r.servers, pod, p)
      ensures x == y
    {
      ClaimsAgree(env, r, n, pod.name, p);
      if n.pods[pod.name].labels != pod.labels {
        assert NsExact(NsIn(s0.namespaces, pod.ns));
        ReplaceExact(s0, s, pod.ns);
        RelabelNeedsNoHandover(env, c, s, pod, s', p);
      } else {
        SameLabelsSameClaims(env, r, n, pod, p);
      }
    }
  }

  lemma SameLabelsSameClaims(env: Env, r: Records, n: Ns, pod: Resources.Pod, p: u16)
    requires NsAgrees(env, r, n) && pod.name in n.pods && NsExact(n) && p in n.pods[pod.name].byPort
    requires KeepsSpec(env, r.pods[pod.name], pod) && n.pods[pod.name].labels == pod.labels
    ensures AtMostOne(ClaimsOf(r.servers, pod, p))
    ensures ClaimsOf(r.servers, pod, p) == ClaimsOf(r.servers, r.pods[pod.name].pod, p)
  {
    assert PodAgrees(env, r.pods[pod.name], n.pods[pod.name]);
    ExactIsUnambiguous(n);
    ClaimsAgree(env, r, n, pod.name, p);
  }
}
