/** A stream always catches up: from every state that index and stream reach together, the index's
    remaining sends and a few steps of the stream bring the proxy to what a lookup would tell it, or the
    stream to its end if the port is gone. */
module CatchingUp {
  import opened Base
  import opened Policy
  import opened Stream
  import opened Watch
  import opened IndexState
  import opened Invariant
  import opened Indexer
  import opened Joint
  import opened Delivery
  import opened Discovery

  lemma ReadOnce(env: Env, o: OuterId, j: System, step: Step, b: Config) returns (j': System)
    requires SystemOk(env, o, j) && j.reader.Some? && !ByWriter(step) && Next(StreamAt(j, o), step, b)
    ensures j' == j.(reader := Some(b.reader))
    ensures Together(env, o, [j, j'], [Read(step)]) && SystemOk(env, o, j')
  {
    j' := j.(reader := Some(b.reader));
    assert StreamAt(j', o) == b;
    MoveKeeps(env, o, j, Read(step), j');
  }

  /** The stream alone comes to rest, or to its end if the port's sender is gone. */
  lemma {:induction false} ReaderRests(env: Env, o: OuterId, j: System) returns (t: seq<System>, ms: seq<Move>)
    requires SystemOk(env, o, j) && j.reader.Some?
    ensures Together(env, o, t, ms) && t[0] == j && SystemOk(env, o, t[|ms|])
    ensures t[|ms|] == j.(reader := t[|ms|].reader) && t[|ms|].reader.Some?
    ensures if j.outer[o].open then Quiescent(StreamAt(t[|ms|], o)) else t[|ms|].reader.value.pc == Ended
    ensures forall m | m in ms :: m.Read?
    decreases Rank(StreamAt(j, o))
  {
    var a := StreamAt(j, o);
    if a.reader.pc == Ended || (Quiescent(a) && j.outer[o].open) {
      t, ms := [j], [];
    } else {
      var step, b := End, a.(reader := a.reader.(pc := Ended));
      if !Quiescent(a) {
        step, b := NeverStuck(a);
      }
      ReaderProgress(a, step, b);
      var j' := ReadOnce(env, o, j, step, b);
      var t', ms' := ReaderRests(env, o, j');
      RunsJoin(env, o, [j, j'], [Read(step)], t', ms');
      t, ms := [j, j'] + t'[1..], [Read(step)] + ms';
    }
  }

  /** A stream is made if there is none. */
  lemma Joins(env: Env, o: OuterId, j: System) returns (t: seq<System>, ms: seq<Move>)
    requires SystemOk(env, o, j) && EntryOf(j.now, o).Some? && o in j.outer
    ensures Together(env, o, t, ms) && t[0] == j && SystemOk(env, o, t[|ms|])
    ensures t[|ms|] == j.(reader := t[|ms|].reader, kubelet := t[|ms|].kubelet) && t[|ms|].reader.Some?
    ensures forall m | m in ms :: m.Join?
  {
    if j.reader.Some? {
      t, ms := [j], [];
    } else {
      var w := WorldAt(j, o);
      WorldIsOk(j, o);
      var any := w.inner[Value(w.outer)].history[0];
      var j' := j.(reader := Some(Subscribe(w, 0, any)), kubelet := EntryOf(j.now, o).value.kubelet);
      MoveKeeps(env, o, j, Join(0, any), j');
      t, ms := [j, j'], [Join(0, any)];
    }
  }

  /** Whatever index and stream have been through, sends that are due and steps of the stream suffice
      for the stream of a served port to tell the proxy what the index serves. */
  lemma StreamCatchesUp(env: Env, o: OuterId, trace: seq<System>, moves: seq<Move>, i: nat)
    returns (t: seq<System>, ms: seq<Move>)
    requires Together(env, o, trace, moves) && trace[0] == Fresh(env) && i < |trace|
    requires EntryOf(trace[i].now, o).Some?
    ensures Together(env, o, t, ms) && t[0] == trace[i]
    ensures forall m | m in ms :: m.Do? || m.Join? || m.Read?
    ensures t[|ms|].now == trace[i].now && t[|ms|].todo == {}
    ensures LastTold(t[|ms|]).Some? && LastTold(t[|ms|]) == Served(trace[i].now, o.ns, o.pod, o.port)
  {
    TogetherKeeps(env, o, trace, moves, i);
    var t1, ms1 := Finishes(env, o, trace[i]);
    assert OuterOk(t1[|ms1|], o);
    FoundIsConnected(env, trace[i].now, o.ns, o.pod, o.port);
    var t2, ms2 := Joins(env, o, t1[|ms1|]);
    var t3, ms3 := ReaderRests(env, o, t2[|ms2|]);
    RunsJoin(env, o, t1, ms1, t2, ms2);
    RunsJoin(env, o, t1 + t2[1..], ms1 + ms2, t3, ms3);
    t, ms := t1 + t2[1..] + t3[1..], ms1 + ms2 + ms3;
    RestServes(env, o, t3[|ms3|]);
  }

  /** And for the stream of a port that is gone to end. */
  lemma StreamEnds(env: Env, o: OuterId, trace: seq<System>, moves: seq<Move>, i: nat)
    returns (t: seq<System>, ms: seq<Move>)
    requires Together(env, o, trace, moves) && trace[0] == Fresh(env) && i < |trace|
    requires trace[i].reader.Some? && o !in trace[i].now.store.outer
    ensures Together(env, o, t, ms) && t[0] == trace[i]
    ensures forall m | m in ms :: m.Do? || m.Read?
    ensures t[|ms|].reader.Some? && t[|ms|].reader.value.pc == Ended
  {
    TogetherKeeps(env, o, trace, moves, i);
    var t1, ms1 := Finishes(env, o, trace[i]);
    assert OuterOk(t1[|ms1|], o);
    var t2, ms2 := ReaderRests(env, o, t1[|ms1|]);
    RunsJoin(env, o, t1, ms1, t2, ms2);
    t, ms := t1 + t2[1..], ms1 + ms2;
  }
}
