/** What holds of the index and a stream together: the channels hold what the index's store holds except
    where the operation under way has something left to do, and that can always be done. */
module Delivery {
  import opened Base
  import opened Policy
  import opened Watch
  import opened Stream
  import opened IndexState
  import opened Invariant
  import opened Joint

  // --- The invariant ------------------------------------------------------------------------------

  /** An inner channel holds its server's policy unless that is still to be sent, and its sender is
      there as long as the server, unless it is still to be dropped. */
  ghost predicate InnerOk(j: System, c: ChanId) {
    var store := j.now.store;
    && (c in j.inner ==>
          && c in store.inner && Live(j.inner[c])
          && (HasServer(j.now, c) || c.DefaultChan? ==> j.inner[c].open)
          && (c.ServerChan? && !HasServer(j.now, c) && Retire(c) !in j.todo ==> !j.inner[c].open))
    && (c in store.inner && Tell(c) !in j.todo ==> c in j.inner && Value(j.inner[c]) == store.inner[c])
    && (Tell(c) in j.todo ==> c in store.inner && HasServer(j.now, c))
    && (Retire(c) in j.todo ==> c in j.inner && c.ServerChan? && !HasServer(j.now, c))
  }

  /** An outer channel holds its port's target unless that is still to be sent, and its sender is there
      as long as the port, unless it is still to be dropped. */
  ghost predicate OuterOk(j: System, o: OuterId) {
    var store := j.now.store;
    && (o in j.outer ==>
          && o.serial < store.next && Live(j.outer[o])
          && (forall c | c in j.outer[o].history :: c in j.inner)
          && (o in store.outer ==> j.outer[o].open)
          && (o !in store.outer && Cut(o) !in j.todo ==> !j.outer[o].open))
    && (o in store.outer && Point(o) !in j.todo ==> o in j.outer && Value(j.outer[o]) == store.outer[o])
    && (Point(o) in j.todo ==> o in store.outer)
    && (Cut(o) in j.todo ==> o in j.outer && o !in store.outer)
  }

  ghost predicate ChannelsOk(j: System) {
    (forall c :: InnerOk(j, c)) && (forall o :: OuterOk(j, o))
  }

  ghost predicate IndexOk(env: Env, s: State) {
    Inv(env, s) && Pointed(s.store)
  }

  /** The stream is in order, and was given the kubelet addresses that the lookup map has for the port. */
  ghost predicate ReaderOk(o: OuterId, j: System) {
    j.reader.Some? ==>
      && o in j.outer && StreamOk(StreamAt(j, o))
      && (EntryOf(j.now, o).Some? ==> EntryOf(j.now, o).value.kubelet == j.kubelet)
  }

  ghost predicate SystemOk(env: Env, o: OuterId, j: System) {
    IndexOk(env, j.now) && ChannelsOk(j) && ReaderOk(o, j)
  }

  lemma FreshOk(env: Env, o: OuterId)
    ensures SystemOk(env, o, Fresh(env))
  {
    InitInv(env);
  }

  // --- Every move keeps it ---------------------------------------------------------------------------

  function Begun(j: System, op: Op, s': State): System {
    j.(ops := j.ops + [op], now := s', todo := Effects(j.now, s'))
  }

  lemma ServersHaveChannels(env: Env, s: State)
    requires Inv(env, s)
    ensures forall c | HasServer(s, c) :: c in s.store.inner
  {
    forall c | HasServer(s, c)
      ensures c in s.store.inner
    {
      var n := s.namespaces[c.ns];
      assert NsOk(c.ns, n, s.store);
      assert ServerOk(c.ns, c.name, n.servers[c.name], n.authzs, s.store.inner);
    }
  }

  lemma BeginChannels(j: System, op: Op, s': State)
    requires ChannelsOk(j) && j.todo == {} && Carries(j.now, s')
    requires forall c | HasServer(j.now, c) :: c in j.now.store.inner
    ensures ChannelsOk(Begun(j, op, s'))
  {
    var j' := Begun(j, op, s');
    forall c
      ensures InnerOk(j', c)
    {
      assert InnerOk(j, c);
    }
    forall o
      ensures OuterOk(j', o)
    {
      assert OuterOk(j, o);
    }
  }

  lemma BeginIndex(env: Env, s: State, op: Op, s': State)
    requires IndexOk(env, s) && OpStep(env, s, op, s')
    ensures IndexOk(env, s') && Carries(s, s')
  {
    OpInv(env, s, op, s');
    OpPoints(env, s, op, s');
    OpCarries(env, s, op, s');
  }

  lemma BeginKeeps(env: Env, o: OuterId, j: System, op: Op, s': State)
    requires SystemOk(env, o, j) && j.todo == {} && OpStep(env, j.now, op, s')
    ensures SystemOk(env, o, Begun(j, op, s'))
  {
    BeginIndex(env, j.now, op, s');
    ServersHaveChannels(env, j.now);
    BeginChannels(j, op, s');
    assert OuterOk(j, o);
  }

  lemma WorldIsOk(j: System, o: OuterId)
    requires ChannelsOk(j) && o in j.outer
    ensures WorldOk(WorldAt(j, o))
  {
    assert OuterOk(j, o) && forall c | c in j.inner :: InnerOk(j, c);
  }

  /** For a stream of port `o`, what the index does on a channel is a step of the writer, or nothing if
      it is on another port's channel. */
  lemma EffectIsWriterStep(o: OuterId, j: System, e: Effect) returns (step: Option<Step>)
    requires ChannelsOk(j) && o in j.outer && j.reader.Some? && e in j.todo && Enabled(j, e)
    ensures o in Done(j, e).outer
    ensures step.None? ==> StreamAt(Done(j, e), o) == StreamAt(j, o)
    ensures step.Some? ==> ByWriter(step.value) && Next(StreamAt(j, o), step.value, StreamAt(Done(j, e), o))
    ensures step.Some? <==> e.Tell? || e.Retire? || e == Point(o) || e == Cut(o)
  {
    assert OuterOk(j, o);
    match e {
      case Tell(c) =>
        var v := j.now.store.inner[c];
        step := Some(if c in j.inner then SendInner(c, v) else NewInner(c, v));
      case Point(p) => step := if p == o then Some(SendOuter(j.now.store.outer[p])) else None;
      case Retire(c) => step := Some(CloseInner(c));
      case Cut(p) => step := if p == o then Some(CloseOuter) else None;
    }
  }

  lemma EffectKeepsStream(o: OuterId, j: System, e: Effect)
    requires ChannelsOk(j) && ReaderOk(o, j) && e in j.todo && Enabled(j, e)
    ensures ReaderOk(o, Done(j, e))
  {
    if j.reader.Some? {
      var step := EffectIsWriterStep(o, j, e);
      if step.Some? {
        WriterKeeps(StreamAt(j, o), step.value, StreamAt(Done(j, e), o));
      }
    }
  }

  lemma EffectKeepsChannels(j: System, e: Effect)
    requires ChannelsOk(j) && e in j.todo && Enabled(j, e)
    requires forall o | o in j.now.store.outer :: o.serial < j.now.store.next
    ensures ChannelsOk(Done(j, e))
  {
    forall c
      ensures InnerOk(Done(j, e), c)
    {
      assert InnerOk(j, c);
    }
    forall o
      ensures OuterOk(Done(j, e), o)
    {
      assert OuterOk(j, o);
    }
  }

  lemma EffectKeeps(env: Env, o: OuterId, j: System, e: Effect)
    requires SystemOk(env, o, j) && e in j.todo && Enabled(j, e)
    ensures SystemOk(env, o, Done(j, e))
  {
    EffectKeepsStream(o, j, e);
    assert StoreOk(env, j.now.store);
    EffectKeepsChannels(j, e);
  }

  function ToldAgain(j: System, c: ChanId): System
    requires c in j.inner && Live(j.inner[c])
  {
    j.(inner := j.inner[c := Send(j.inner[c], Value(j.inner[c]))])
  }

  function PointedAgain(j: System, p: OuterId): System
    requires p in j.outer && Live(j.outer[p])
  {
    j.(outer := j.outer[p := Send(j.outer[p], Value(j.outer[p]))])
  }

  lemma TellAgainKeeps(o: OuterId, j: System, c: ChanId)
    requires ChannelsOk(j) && ReaderOk(o, j) && c in j.inner && j.inner[c].open && Live(j.inner[c])
    ensures ChannelsOk(ToldAgain(j, c)) && ReaderOk(o, ToldAgain(j, c))
  {
    var j' := ToldAgain(j, c);
    forall d
      ensures InnerOk(j', d)
    {
      assert InnerOk(j, d);
    }
    forall p
      ensures OuterOk(j', p)
    {
      assert OuterOk(j, p);
    }
    if j.reader.Some? {
      WriterKeeps(StreamAt(j, o), SendInner(c, Value(j.inner[c])), StreamAt(j', o));
    }
  }

  lemma PointAgainKeeps(o: OuterId, j: System, p: OuterId)
    requires ChannelsOk(j) && ReaderOk(o, j) && p in j.outer && j.outer[p].open && Live(j.outer[p])
    ensures ChannelsOk(PointedAgain(j, p)) && ReaderOk(o, PointedAgain(j, p))
  {
    var j' := PointedAgain(j, p);
    assert forall c :: InnerOk(j, c) ==> InnerOk(j', c);
    forall q
      ensures OuterOk(j', q)
    {
      assert OuterOk(j, q);
    }
    if j.reader.Some? && p == o {
      WriterKeeps(StreamAt(j, o), SendOuter(Value(j.outer[p])), StreamAt(j', o));
    }
  }

  lemma ReadKeeps(o: OuterId, j: System, step: Step, j': System)
    requires ReaderOk(o, j) && j.reader.Some? && j'.reader.Some? && j' == j.(reader := j'.reader)
    requires !ByWriter(step) && Next(StreamAt(j, o), step, StreamAt(j', o))
    ensures ReaderOk(o, j')
  {
    ReaderKeeps(StreamAt(j, o), step, StreamAt(j', o));
  }

  lemma ReadersLeaveChannels(j: System, j': System)
    requires ChannelsOk(j) && j' == j.(reader := j'.reader, kubelet := j'.kubelet)
    ensures ChannelsOk(j')
  {
    assert forall c :: InnerOk(j, c) ==> InnerOk(j', c);
    assert forall o :: OuterOk(j, o) ==> OuterOk(j', o);
  }

  lemma MoveKeeps(env: Env, o: OuterId, j: System, m: Move, j': System)
    requires SystemOk(env, o, j) && Moves(env, o, j, m, j')
    ensures SystemOk(env, o, j')
  {
    match m {
      case Begin(op, s') => BeginKeeps(env, o, j, op, s');
      case Do(e) => EffectKeeps(env, o, j, e);
      case TellAgain(c) => TellAgainKeeps(o, j, c);
      case PointAgain(p) => PointAgainKeeps(o, j, p);
      case Join(seen, any) =>
        ReadersLeaveChannels(j, j');
        BeginsOk(StreamAt(j', o));
      case Read(step) =>
        ReadersLeaveChannels(j, j');
        ReadKeeps(o, j, step, j');
    }
  }

  /** It holds throughout every run. */
  lemma {:induction false} TogetherKeeps(env: Env, o: OuterId, trace: seq<System>, moves: seq<Move>, i: nat)
    requires Together(env, o, trace, moves) && i < |trace| && trace[0] == Fresh(env)
    ensures SystemOk(env, o, trace[i])
  {
    if i == 0 {
      FreshOk(env, o);
    } else {
      TogetherKeeps(env, o, trace, moves, i - 1);
      MoveKeeps(env, o, trace[i - 1], moves[i - 1], trace[i]);
    }
  }

  lemma {:induction false} TogetherRuns(env: Env, o: OuterId, trace: seq<System>, moves: seq<Move>, i: nat)
    requires Together(env, o, trace, moves) && i < |trace| && trace[0] == Fresh(env)
    ensures Steps(env, Init(env), trace[i].ops, trace[i].now)
  {
    if i > 0 {
      TogetherRuns(env, o, trace, moves, i - 1);
      assert Moves(env, o, trace[i - 1], moves[i - 1], trace[i]);
      if moves[i - 1].Begin? {
        StepsSnoc(env, Init(env), trace[i - 1].ops, trace[i - 1].now, moves[i - 1].op, trace[i].now);
      }
    }
  }

  // --- What the channels hold ---------------------------------------------------------------------------

  /** An inner channel exists if it does in the store, holds what the store holds, and has its sender
      exactly if it is a default one or a server's. */
  ghost predicate InnerMirrors(j: System, c: ChanId) {
    && (c in j.inner <==> c in j.now.store.inner)
    && (c in j.inner ==>
          && Live(j.inner[c]) && Value(j.inner[c]) == j.now.store.inner[c]
          && (j.inner[c].open <==> HasServer(j.now, c) || c.DefaultChan?))
  }

  /** An outer channel of a port holds what the store holds and has its sender; one that no port has any
      more has lost it. */
  ghost predicate OuterMirrors(j: System, o: OuterId) {
    && (o in j.now.store.outer ==>
          o in j.outer && Live(j.outer[o]) && Value(j.outer[o]) == j.now.store.outer[o])
    && (o in j.outer ==> (j.outer[o].open <==> o in j.now.store.outer))
  }

  ghost predicate Mirrors(j: System) {
    (forall c :: InnerMirrors(j, c)) && (forall o :: OuterMirrors(j, o))
  }

  lemma OkMirrors(j: System)
    requires ChannelsOk(j) && j.todo == {}
    ensures Mirrors(j)
  {
    forall c
      ensures InnerMirrors(j, c)
    {
      assert InnerOk(j, c);
    }
    forall o
      ensures OuterMirrors(j, o)
    {
      assert OuterOk(j, o);
    }
  }

  /** In every run, whenever the last operation is done, the channels mirror the store, and the index is
      in a state that its operations lead to. */
  lemma IdleMirrors(env: Env, o: OuterId, trace: seq<System>, moves: seq<Move>, i: nat)
    requires Together(env, o, trace, moves) && i < |trace| && trace[0] == Fresh(env)
    ensures Steps(env, Init(env), trace[i].ops, trace[i].now)
    ensures trace[i].todo == {} ==> Mirrors(trace[i])
  {
    TogetherRuns(env, o, trace, moves, i);
    TogetherKeeps(env, o, trace, moves, i);
    if trace[i].todo == {} {
      OkMirrors(trace[i]);
    }
  }

  // --- Operations are carried out --------------------------------------------------------------------------

  /** One run after another. */
  lemma RunsJoin(env: Env, o: OuterId, t: seq<System>, ms: seq<Move>, t': seq<System>, ms': seq<Move>)
    requires Together(env, o, t, ms) && Together(env, o, t', ms') && t[|ms|] == t'[0]
    ensures Together(env, o, t + t'[1..], ms + ms')
    ensures (t + t'[1..])[0] == t[0] && (t + t'[1..])[|ms + ms'|] == t'[|ms'|]
  {
    var all, moves := t + t'[1..], ms + ms';
    forall i | 0 <= i < |moves|
      ensures Moves(env, o, all[i], moves[i], all[i + 1])
    {
      if i < |ms| {
        assert Moves(env, o, t[i], ms[i], t[i + 1]);
      } else {
        assert Moves(env, o, t'[i - |ms|], ms'[i - |ms|], t'[i - |ms| + 1]);
      }
    }
  }

  /** Something on the channels can be done as long as anything is left: values before targets. */
  lemma NextEffect(env: Env, o: OuterId, j: System) returns (e: Effect)
    requires SystemOk(env, o, j) && j.todo != {}
    ensures e in j.todo && Enabled(j, e)
  {
    assert StoreOk(env, j.now.store);
    if exists c :: Tell(c) in j.todo {
      var c :| Tell(c) in j.todo;
      assert InnerOk(j, c);
      e := Tell(c);
    } else {
      e :| e in j.todo;
      match e {
        case Tell(c) =>
        case Point(o) =>
          assert OuterOk(j, o);
          assert Tell(j.now.store.outer[o]) !in j.todo && InnerOk(j, j.now.store.outer[o]);
        case Retire(c) => assert InnerOk(j, c);
        case Cut(o) => assert OuterOk(j, o);
      }
    }
  }

  /** The index can always finish what it has begun, whatever the stream does. */
  lemma {:induction false} Finishes(env: Env, o: OuterId, j: System) returns (t: seq<System>, ms: seq<Move>)
    requires SystemOk(env, o, j)
    ensures Together(env, o, t, ms) && t[0] == j && SystemOk(env, o, t[|ms|])
    ensures t[|ms|] == j.(todo := {}, inner := t[|ms|].inner, outer := t[|ms|].outer)
    ensures forall m | m in ms :: m.Do?
    decreases |j.todo|
  {
    if j.todo == {} {
      t, ms := [j], [];
    } else {
      var e := NextEffect(env, o, j);
      EffectKeeps(env, o, j, e);
      var t', ms' := Finishes(env, o, Done(j, e));
      assert Together(env, o, [j, Done(j, e)], [Do(e)]);
      RunsJoin(env, o, [j, Done(j, e)], [Do(e)], t', ms');
      t, ms := [j, Done(j, e)] + t'[1..], [Do(e)] + ms';
    }
  }

  /** An operation that the index may do is begun and finished. */
  lemma CarriesOut(env: Env, o: OuterId, j: System, op: Op, s': State) returns (t: seq<System>, ms: seq<Move>)
    requires SystemOk(env, o, j) && j.todo == {} && OpStep(env, j.now, op, s')
    ensures Together(env, o, t, ms) && t[0] == j && SystemOk(env, o, t[|ms|])
    ensures t[|ms|].ops == j.ops + [op] && t[|ms|].now == s' && t[|ms|].todo == {}
  {
    BeginKeeps(env, o, j, op, s');
    var j' := Begun(j, op, s');
    var t', ms' := Finishes(env, o, j');
    assert Together(env, o, [j, j'], [Begin(op, s')]);
    RunsJoin(env, o, [j, j'], [Begin(op, s')], t', ms');
    t, ms := [j, j'] + t'[1..], [Begin(op, s')] + ms';
  }

  /** Every run of the index is carried out to the end. */
  lemma {:induction false} EveryRunIsCarriedOut(env: Env, o: OuterId, ops: seq<Op>, s: State)
    returns (t: seq<System>, ms: seq<Move>)
    requires Steps(env, Init(env), ops, s)
    ensures Together(env, o, t, ms) && t[0] == Fresh(env) && SystemOk(env, o, t[|ms|])
    ensures t[|ms|].ops == ops && t[|ms|].now == s && t[|ms|].todo == {}
  {
    if ops == [] {
      FreshOk(env, o);
      t, ms := [Fresh(env)], [];
    } else {
      var before, last := ops[..|ops| - 1], ops[|ops| - 1];
      assert StepsThen(env, Init(env), before, last, s);
      var mid :| Steps(env, Init(env), before, mid) && OpStep(env, mid, last, s);
      var t1, ms1 := EveryRunIsCarriedOut(env, o, before, mid);
      var t2, ms2 := CarriesOut(env, o, t1[|ms1|], last, s);
      RunsJoin(env, o, t1, ms1, t2, ms2);
      t, ms := t1 + t2[1..], ms1 + ms2;
    }
  }
}
