/** Watch channels, as a store of cells.

    An inner channel carries one server's policy; an outer channel, one for each pod port, carries
    the inner channel that the port currently follows. A channel's identity records who created it
    and when, so two creations never share a cell. The cells of an outer channel exist for as long
    as the lookup map holds its receiver. */
module Watch {
  import opened Base
  import opened Policy

  datatype ChanId = DefaultChan(mode: DefaultAllow) | ServerChan(ns: string, name: string, serial: nat)

  datatype OuterId = OuterId(ns: string, pod: string, port: u16, serial: nat)

  type Inner = map<ChanId, InboundServer>

  type Outer = map<OuterId, ChanId>

  datatype Store = Store(inner: Inner, outer: Outer, next: nat)

  function InitialStore(env: Env): Store {
    Store(map[DefaultChan(AllAuthenticated) := DefaultConfig(env, AllAuthenticated),
              DefaultChan(AllUnauthenticated) := DefaultConfig(env, AllUnauthenticated),
              DefaultChan(ClusterAuthenticated) := DefaultConfig(env, ClusterAuthenticated),
              DefaultChan(ClusterUnauthenticated) := DefaultConfig(env, ClusterUnauthenticated),
              DefaultChan(Deny) := DefaultConfig(env, Deny)],
          map[], 0)
  }

  class Channels {
    var inner: Inner
    var outer: Outer
    var next: nat

    function Abs(): Store
      reads this
    {
      Store(inner, outer, next)
    }

    /** The default policies' channels, which nothing ever updates (`DefaultAllows::spawn`). */
    constructor (env: Env)
      ensures Abs() == InitialStore(env)
    {
      inner := InitialStore(env).inner;
      outer := map[];
      next := 0;
    }

    method NewInner(ns: string, name: string, config: InboundServer) returns (c: ChanId)
      modifies this
      ensures c == ServerChan(ns, name, old(next))
      ensures Abs() == Store(old(inner)[c := config], old(outer), old(next) + 1)
    {
      c := ServerChan(ns, name, next);
      inner := inner[c := config];
      next := next + 1;
    }

    method Borrow(c: ChanId) returns (config: InboundServer)
      requires c in inner
      ensures config == inner[c]
    {
      config := inner[c];
    }

    method Follow(o: OuterId) returns (c: ChanId)
      requires o in outer
      ensures c == outer[o]
    {
      c := outer[o];
    }

    method SendInner(c: ChanId, config: InboundServer)
      requires c in inner
      modifies this`inner
      ensures inner == old(inner)[c := config]
    {
      inner := inner[c := config];
    }

    method NewOuter(ns: string, pod: string, port: u16, target: ChanId) returns (o: OuterId)
      modifies this
      ensures o == OuterId(ns, pod, port, old(next))
      ensures Abs() == Store(old(inner), old(outer)[o := target], old(next) + 1)
    {
      o := OuterId(ns, pod, port, next);
      outer := outer[o := target];
      next := next + 1;
    }

    /** Sending requires a receiver: the source panics without one. */
    method SendOuter(o: OuterId, target: ChanId)
      requires o in outer
      modifies this`outer
      ensures outer == old(outer)[o := target]
    {
      outer := outer[o := target];
    }

    method DropOuter(os: set<OuterId>)
      modifies this`outer
      ensures outer == old(outer) - os
    {
      outer := outer - os;
    }
  }
}
