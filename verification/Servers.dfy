/** The server index of a namespace and its authorization index
    (`controller/k8s/index/src/server.rs`, `controller/k8s/index/src/authz.rs`). */
module Servers {
  import opened Base
  import opened Labels
  import opened Policy
  import Resources
  import opened Watch
  import opened IndexState
  import opened Invariant

  /** Every server's own channel carries its current policy. */
  ghost predicate Publishes(ns: string, servers: map<string, ServerEntry>, inner: Inner) {
    forall n | n in servers ::
      && servers[n].chan.ServerChan? && servers[n].chan.ns == ns && servers[n].chan.name == n
      && servers[n].chan in inner && inner[servers[n].chan] == Published(servers[n])
  }

  /** Servers that publish have nothing to send. */
  lemma RepublishNothing(inner: Inner, ns: string, servers: map<string, ServerEntry>)
    requires Publishes(ns, servers, inner)
    ensures Republish(inner, ns, servers) == inner
  {
  }

  /** One server sends its new policy. */
  lemma RepublishOne(inner: Inner, ns: string, servers: map<string, ServerEntry>, n: string, entry: ServerEntry)
    requires n in servers && entry.chan == servers[n].chan
    requires entry.chan in inner && entry.chan.ServerChan? && entry.chan.ns == ns && entry.chan.name == n
    ensures Republish(inner, ns, servers)[entry.chan := Published(entry)] == Republish(inner, ns, servers[n := entry])
  {
  }

  /** A walk over the servers that has reached all but those in `todo`. */
  ghost predicate Partly(was: map<string, ServerEntry>, goal: map<string, ServerEntry>, todo: set<string>,
                         now: map<string, ServerEntry>)
  {
    && now.Keys == was.Keys == goal.Keys
    && (forall n | n in was :: goal[n].chan == was[n].chan && goal[n].meta == was[n].meta)
    && forall n | n in now :: now[n] == if n in todo then was[n] else goal[n]
  }

  /** Before a server is reached it publishes what it did; giving it its new entry and sending that is
      one more step of the walk. */
  lemma PartlyNext(inner: Inner, ns: string, was: map<string, ServerEntry>, goal: map<string, ServerEntry>,
                   todo: set<string>, now: map<string, ServerEntry>, n: string)
    requires Publishes(ns, was, inner) && Partly(was, goal, todo, now) && n in todo && n in now
    ensures now[n] == was[n] && Partly(was, goal, todo - {n}, now[n := goal[n]])
    ensures var sent := Republish(inner, ns, now);
            && now[n].chan in sent && sent[now[n].chan] == Published(now[n])
            && sent[now[n].chan := Published(goal[n])] == Republish(inner, ns, now[n := goal[n]])
  {
  }

  lemma PartlyDone(was: map<string, ServerEntry>, goal: map<string, ServerEntry>, now: map<string, ServerEntry>)
    requires Partly(was, goal, {}, now)
    ensures now == goal
  {
  }

  class AuthzIndex {
    var index: map<string, Authz>

    /** The namespace the index belongs to. */
    ghost const owner: string

    constructor (ghost ns: string)
      ensures index == map[] && owner == ns
    {
      index := map[];
      owner := ns;
    }

    /** The authorizations that select a server. */
    function FilterSelected(name: string, labels: Labels): Authorizations
      reads this
    {
      AuthView(index, name, labels)
    }

    /** Parses an authorization; if it is new or has changed, patches every server and stores it. */
    method Apply(authz: Resources.ServerAuthorization, servers: SrvIndex, domain: string, channels: Channels)
      returns (ok: bool)
      requires Publishes(authz.ns, servers.index, channels.inner)
      modifies this, servers, channels`inner
      ensures var r := Resources.MkAuthz(authz, domain);
              && ok == r.Ok?
              && if r.Err? || (authz.name in old(index) && old(index)[authz.name] == r.value) then
                   index == old(index) && servers.index == old(servers.index) && channels.inner == old(channels.inner)
                 else
                   && index == old(index)[authz.name := r.value]
                   && servers.index == WithAuthz(old(servers.index), authz.name, r.value)
                   && channels.inner == Republish(old(channels.inner), authz.ns, servers.index)
    {
      var r := Resources.MkAuthz(authz, domain);
      if r.Err? {
        return false;
      }
      if authz.name !in index {
        servers.AddAuthz(authz.ns, authz.name, r.value.servers, r.value.clients, channels);
        index := index[authz.name := r.value];
      } else if index[authz.name] != r.value {
        servers.AddAuthz(authz.ns, authz.name, r.value.servers, r.value.clients, channels);
        index := index[authz.name := r.value];
      }
      return true;
    }

    method Delete(name: string)
      modifies this
      ensures index == old(index) - {name}
    {
      index := index - {name};
    }
  }

  class SrvIndex {
    var index: map<string, ServerEntry>

    /** The namespace the index belongs to. */
    ghost const owner: string

    constructor (ghost ns: string)
      ensures index == map[] && owner == ns
    {
      index := map[];
      owner := ns;
    }

    /** A server takes an authorization and sends all it has, with the protocol it last sent. */
    method AddTo(srv: string, name: string, clients: ClientAuthorization, channels: Channels)
      requires srv in index && index[srv].chan in channels.inner
                 && channels.inner[index[srv].chan] == Published(index[srv])
      modifies this, channels`inner
      ensures var was := old(index)[srv];
              index == old(index)[srv := was.(authorizations := was.authorizations[name := clients])]
      ensures channels.inner == old(channels.inner)[index[srv].chan := Published(index[srv])]
    {
      var entry := index[srv];
      entry := entry.(authorizations := entry.authorizations[name := clients]);
      index := index[srv := entry];
      var config := channels.Borrow(entry.chan);
      channels.SendInner(entry.chan, config.(authorizations := entry.authorizations));
    }

    /** A server drops an authorization; it sends only if it had it. */
    method RemoveFrom(srv: string, name: string, channels: Channels)
      requires srv in index && index[srv].chan in channels.inner
                 && channels.inner[index[srv].chan] == Published(index[srv])
      modifies this, channels`inner
      ensures index == old(index)[srv := old(index)[srv].(authorizations := old(index)[srv].authorizations - {name})]
      ensures channels.inner == old(channels.inner)[index[srv].chan := Published(index[srv])]
    {
      var entry := index[srv];
      if name in entry.authorizations {
        entry := entry.(authorizations := entry.authorizations - {name});
        index := index[srv := entry];
        var config := channels.Borrow(entry.chan);
        channels.SendInner(entry.chan, config.(authorizations := entry.authorizations));
      } else {
        assert entry.authorizations - {name} == entry.authorizations;
      }
    }

    /** Adds an authorization to the servers it selects and removes it from the others, in any order. */
    method AddAuthz(ns: string, name: string, selector: Resources.ServerSelector, clients: ClientAuthorization,
                    channels: Channels)
      requires Publishes(ns, index, channels.inner)
      modifies this, channels`inner
      ensures index == WithAuthz(old(index), name, Resources.Authz(selector, clients))
      ensures channels.inner == Republish(old(channels.inner), ns, index)
    {
      ghost var goal := WithAuthz(index, name, Resources.Authz(selector, clients));
      RepublishNothing(channels.inner, ns, index);
      var todo := index.Keys;
      while todo != {}
        invariant todo <= index.Keys
        invariant Partly(old(index), goal, todo, index)
        invariant channels.inner == Republish(old(channels.inner), ns, index)
        decreases |todo|
      {
        var n :| n in todo;
        PartlyNext(old(channels.inner), ns, old(index), goal, todo, index, n);
        if SelectsServer(selector, n, index[n].meta.labels) {
          AddTo(n, name, clients, channels);
        } else {
          RemoveFrom(n, name, channels);
        }
        todo := todo - {n};
      }
      PartlyDone(old(index), goal, index);
    }

    /** Removes an authorization from every server that holds it, in any order. */
    method RemoveAuthz(ns: string, name: string, channels: Channels)
      requires Publishes(ns, index, channels.inner)
      modifies this, channels`inner
      ensures index == WithoutAuthz(old(index), name)
      ensures channels.inner == Republish(old(channels.inner), ns, index)
    {
      ghost var goal := WithoutAuthz(index, name);
      RepublishNothing(channels.inner, ns, index);
      var todo := index.Keys;
      while todo != {}
        invariant todo <= index.Keys
        invariant Partly(old(index), goal, todo, index)
        invariant channels.inner == Republish(old(channels.inner), ns, index)
        decreases |todo|
      {
        var n :| n in todo;
        PartlyNext(old(channels.inner), ns, old(index), goal, todo, index, n);
        RemoveFrom(n, name, channels);
        todo := todo - {n};
      }
      PartlyDone(old(index), goal, index);
    }

    /** The first application of a server: its authorizations are selected from scratch and it gets a
        channel of its own. */
    method Create(srv: Resources.Server, authzs: AuthzIndex, channels: Channels)
      requires srv.name !in index
      modifies this, channels
      ensures var entry := ServerEntry(MetaOf(srv), AuthView(authzs.index, srv.name, srv.labels),
                                       ServerChan(srv.ns, srv.name, old(channels.next)));
              && index == old(index)[srv.name := entry]
              && channels.Abs() == Store(old(channels.inner)[entry.chan := Published(entry)], old(channels.outer),
                  old(channels.next) + 1)
    {
      var protocol := Resources.MkProtocol(srv.proxyProtocol);
      var authorizations := authzs.FilterSelected(srv.name, srv.labels);
      var meta := ServerMeta(srv.labels, srv.port, srv.podSelector, protocol);
      var chan := channels.NewInner(srv.ns, srv.name, InboundServer(protocol, authorizations));
      index := index[srv.name := ServerEntry(meta, authorizations, chan)];
    }

    /** A later application. Note the comparison of protocols: the new one is taken when it equals the
        one in place. */
    method Update(srv: Resources.Server, authzs: AuthzIndex, channels: Channels)
      requires srv.name in index && Publishes(srv.ns, index, channels.inner)
      modifies this, channels`inner
      ensures index == old(index)[srv.name := Updated(old(index)[srv.name], srv, authzs.index)]
      ensures channels.inner == Republish(old(channels.inner), srv.ns, index)
    {
      var protocol := Resources.MkProtocol(srv.proxyProtocol);
      var entry := index[srv.name];
      var newLabels := if entry.meta.labels != srv.labels then Some(srv.labels) else None;
      var newProtocol := if entry.meta.protocol == protocol then Some(protocol) else None;
      RepublishNothing(channels.inner, srv.ns, index);
      RepublishOne(channels.inner, srv.ns, index, srv.name, Updated(entry, srv, authzs.index));
      if newLabels.Some? || newProtocol.Some? {
        var config := channels.Borrow(entry.chan);
        if newLabels.Some? {
          var authorizations := authzs.FilterSelected(srv.name, srv.labels);
          config := config.(authorizations := authorizations);
          entry := entry.(meta := entry.meta.(labels := newLabels.value), authorizations := authorizations);
        }
        if newProtocol.Some? {
          config := config.(protocol := newProtocol.value);
          entry := entry.(meta := entry.meta.(protocol := newProtocol.value));
        }
        channels.SendInner(entry.chan, config);
      } else {
        assert channels.inner[entry.chan := Published(entry)] == channels.inner;
      }
      if entry.meta.podSelector != srv.podSelector || entry.meta.port != srv.port {
        entry := entry.(meta := entry.meta.(podSelector := srv.podSelector, port := srv.port));
      }
      index := index[srv.name := entry];
    }

    method Apply(srv: Resources.Server, authzs: AuthzIndex, channels: Channels)
      requires Publishes(srv.ns, index, channels.inner)
      modifies this, channels
      ensures var n, store := Ns(map[], old(index), authzs.index), old(channels.Abs());
              && index == ServersAfter(n, srv, store.next)
              && channels.Abs() == Store(InnerAfter(n, srv, store), store.outer, NextAfter(n, srv, store))
    {
      if srv.name !in index {
        Create(srv, authzs, channels);
      } else {
        Update(srv, authzs, channels);
      }
    }
  }
}
