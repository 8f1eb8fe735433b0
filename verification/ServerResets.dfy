/** Where a restart of the servers lands: exactly the listed servers. */
module ServerResets {
  import opened Base
  import opened Labels
  import opened Policy
  import Resources
  import opened Watch
  import opened IndexState
  import opened Invariant
  import opened Cluster
  import opened Refinement
  import opened Protocols
  import opened Resets
  import opened LiveObjects
  import E = Events

  // --- The servers themselves -----------------------------------------------------------

  lemma {:induction false} FirstOfSnoc(l: seq<Resources.Server>, v: Resources.Server, ns: string, x: string)
    ensures FirstOf(l + [v], ns, x) ==
              if FirstOf(l, ns, x).Some? then FirstOf(l, ns, x)
              else if v.ns == ns && v.name == x then Some(v)
              else None
  {
    if l == [] {
      assert l + [v] == [v];
    } else {
      FirstOfSnoc(l[1..], v, ns, x);
      assert (l + [v])[1..] == l[1..] + [v];
    }
  }

  /** A server after a list has been applied: everything from the last object that names it, except the
      protocol, which is the one it had or else that of the first object that names it. */
  ghost predicate ListApplied(l: seq<Resources.Server>, ns: string, before: map<string, ServerMeta>,
                              after: map<string, ServerMeta>) {
    forall x ::
      var first, last := FirstOf(l, ns, x), LastOf(l, ns, x);
      && (first.Some? <==> last.Some?)
      && (x in after <==> x in before || last.Some?)
      && (x in after ==>
            after[x] == if last.None? then before[x]
                        else ServerMeta(last.value.labels, last.value.port, last.value.podSelector,
                                        if x in before then before[x].protocol
                                            else Resources.MkProtocol(first.value.proxyProtocol)))
  }

  lemma ListAppliedNext(l: seq<Resources.Server>, v: Resources.Server, ns: string, before: map<string, ServerMeta>,
                        mid: map<string, ServerMeta>)
    requires ListApplied(l, ns, before, mid)
    ensures ListApplied(l + [v], ns, before, ServersStep(mid, ApplyServer(v), ns))
  {
    var l', after := l + [v], ServersStep(mid, ApplyServer(v), ns);
    assert l'[..|l|] == l;
    forall x
      ensures var first, last := FirstOf(l', ns, x), LastOf(l', ns, x);
              && (first.Some? <==> last.Some?)
              && (x in after <==> x in before || last.Some?)
              && (x in after ==>
                    after[x] == if last.None? then before[x]
                                else ServerMeta(last.value.labels, last.value.port, last.value.podSelector,
                                                if x in before then before[x].protocol
                                                    else Resources.MkProtocol(first.value.proxyProtocol)))
    {
      FirstOfSnoc(l, v, ns, x);
    }
  }

  lemma {:induction false} ApplyServersEffect(env: Env, s: State, l: seq<Resources.Server>, s': State, ns: string)
    requires Steps(env, s, E.ApplyServers(l), s')
    ensures ListApplied(l, ns, Metas(NsIn(s.namespaces, ns).servers), Metas(NsIn(s'.namespaces, ns).servers))
  {
    if l != [] {
      var k := |l| - 1;
      assert E.ApplyServers(l)[..k] == E.ApplyServers(l[..k]) && E.ApplyServers(l)[k] == ApplyServer(l[k]);
      assert StepsThen(env, s, E.ApplyServers(l[..k]), ApplyServer(l[k]), s');
      var mid :| Steps(env, s, E.ApplyServers(l[..k]), mid) && OpStep(env, mid, ApplyServer(l[k]), s');
      ApplyServersEffect(env, s, l[..k], mid, ns);
      OpOnServers(env, mid, ApplyServer(l[k]), s', ns);
      ListAppliedNext(l[..k], l[k], ns, Metas(NsIn(s.namespaces, ns).servers), Metas(NsIn(mid.namespaces, ns).servers));
      assert l[..k] + [l[k]] == l;
    }
  }

  lemma {:induction false} RmServersEffect(env: Env, s: State, gone: seq<Id>, s': State, ns: string)
    requires Steps(env, s, E.RmServers(gone), s')
    ensures Metas(NsIn(s'.namespaces, ns).servers) == Metas(NsIn(s.namespaces, ns).servers) - NamesIn(gone, ns)
  {
    if gone == [] {
      assert NamesIn(gone, ns) == {};
    } else {
      var k, id := |gone| - 1, gone[|gone| - 1];
      assert E.RmServers(gone)[..k] == E.RmServers(gone[..k]) && E.RmServers(gone)[k] == RmServer(id.ns, id.name);
      assert StepsThen(env, s, E.RmServers(gone[..k]), RmServer(id.ns, id.name), s');
      var mid :| Steps(env, s, E.RmServers(gone[..k]), mid) && OpStep(env, mid, RmServer(id.ns, id.name), s');
      RmServersEffect(env, s, gone[..k], mid, ns);
      OpOnServers(env, mid, RmServer(id.ns, id.name), s', ns);
      NamesInSnoc(gone, ns);
    }
  }

  lemma {:induction false} LastIsListed(l: seq<Resources.Server>, ns: string, x: string)
    ensures LastOf(l, ns, x).Some? <==> Id(ns, x) in E.ServersListed(l)
  {
    if l != [] {
      LastIsListed(l[..|l| - 1], ns, x);
      var v := l[|l| - 1];
      assert l == l[..|l| - 1] + [v];
      assert E.ServersListed(l) == E.ServersListed(l[..|l| - 1]) + {Id(v.ns, v.name)};
    }
  }

  /** After a restart the indexed servers are exactly the listed ones, each with the labels, port and
      pod selector of its last listed object; its protocol is the one it had before, or that of its
      first listed object. */
  lemma ServerResetIsExact(env: Env, s: State, l: seq<Resources.Server>, s': State, ns: string, x: string)
    requires Inv(env, s) && E.EventStep(env, s, E.ServersRestarted(l), s')
    ensures var before, after := NsIn(s.namespaces, ns).servers, NsIn(s'.namespaces, ns).servers;
            var first, last := FirstOf(l, ns, x), LastOf(l, ns, x);
            && (x in after <==> Id(ns, x) in E.ServersListed(l))
            && (x in after ==>
                  && first.Some? && last.Some?
                  && after[x].meta == ServerMeta(last.value.labels, last.value.port, last.value.podSelector,
                                                 if x in before then before[x].meta.protocol
                                                 else Resources.MkProtocol(first.value.proxyProtocol)))
  {
    var gone := RestartRun(env, s, l, s');
    var mid := StepsSplit(env, s, E.ApplyServers(l), E.RmServers(gone), s');
    ApplyServersEffect(env, s, l, mid, ns);
    RmServersEffect(env, mid, gone, s', ns);
    LastIsListed(l, ns, x);
    NamesInMeaning(gone, ns, x);
    MetasKeys(NsIn(s.namespaces, ns).servers, x);
    MetasKeys(NsIn(s'.namespaces, ns).servers, x);
    assert Id(ns, x) in E.ServerIds(s) <==> x in NsIn(s.namespaces, ns).servers;
  }

  lemma RestartRun(env: Env, s: State, l: seq<Resources.Server>, s': State) returns (gone: seq<Id>)
    requires E.EventStep(env, s, E.ServersRestarted(l), s')
    ensures Enumerates(gone, E.ServerIds(s) - E.ServersListed(l))
    ensures Steps(env, s, E.ApplyServers(l) + E.RmServers(gone), s')
  {
    var ops :| E.EventOps(s, E.ServersRestarted(l), ops) && Steps(env, s, ops, s');
    gone :| Enumerates(gone, E.ServerIds(s) - E.ServersListed(l)) && ops == E.ApplyServers(l) + E.RmServers(gone);
  }

  lemma MetasKeys(servers: map<string, ServerEntry>, x: string)
    ensures x in Metas(servers) <==> x in servers
    ensures x in servers ==> Metas(servers)[x] == servers[x].meta
  {
  }
}
