/** The two-level watch protocol (`Rx::into_stream` in `controller/k8s/index/src/lookup.rs`): a stream
    follows a pod port's outer channel, whose value is an inner channel, and races with the writer.
    A watch channel is its history of values and whether its sender is still there; a receiver is the
    number of the last version it has seen. Waking up and reading are separate steps. */
module Stream {
  import opened Policy
  import opened Watch

  // --- The writer -----------------------------------------------------------------------

  datatype Cell<T> = Cell(history: seq<T>, open: bool)

  predicate Live<T>(c: Cell<T>) {
    c.history != []
  }

  function Version<T>(c: Cell<T>): nat
    requires Live(c)
  {
    |c.history| - 1
  }

  function Value<T>(c: Cell<T>): T
    requires Live(c)
  {
    c.history[|c.history| - 1]
  }

  datatype World = World(inner: map<ChanId, Cell<InboundServer>>, outer: Cell<ChanId>)

  /** Every channel has a value, and the outer one has only ever pointed to channels that exist. */
  ghost predicate WorldOk(w: World) {
    && Live(w.outer)
    && (forall c | c in w.inner :: Live(w.inner[c]))
    && (forall c | c in w.outer.history :: c in w.inner)
  }

  function Send<T>(c: Cell<T>, v: T): Cell<T> {
    c.(history := c.history + [v])
  }

  // --- The reader -----------------------------------------------------------------------

  /** Where the stream is: before its first value, waiting in `select!`, or between a wake-up and the
      reads that follow it. */
  datatype Pc = Start | Select | InnerWoken | OuterWoken | OuterRead | Ended

  /** `at` is the inner channel being followed, `server` the last value handed out. */
  datatype Reader = Reader(
    pc: Pc,
    at: ChanId,
    outerSeen: nat,
    innerSeen: nat,
    server: InboundServer,
    emitted: seq<InboundServer>)

  /** Creating the stream reads the outer channel; nothing has been handed out yet. */
  function Subscribe(w: World, innerSeen: nat, any: InboundServer): Reader
    requires WorldOk(w)
  {
    Reader(Start, Value(w.outer), Version(w.outer), innerSeen, any, [])
  }

  /** Hands a value out unless it is the last one handed out. */
  function Offer(r: Reader, s: InboundServer): Reader {
    if s != r.server then r.(server := s, emitted := r.emitted + [s]) else r
  }

  // --- The steps ------------------------------------------------------------------------

  datatype Step =
    // the writer
    | SendInner(c: ChanId, v: InboundServer)
    | SendOuter(c: ChanId)
    | NewInner(c: ChanId, v: InboundServer)
    | CloseInner(c: ChanId)
    | CloseOuter
    // the reader
    | First
    | WakeInner
    | ReadInner
    | WakeOuter
    | ReadOuter(innerSeen: nat)
    | ReadNewInner
    | Spin
    | End

  predicate ByWriter(step: Step) {
    step.SendInner? || step.SendOuter? || step.NewInner? || step.CloseInner? || step.CloseOuter?
  }

  /** What the writer does to the channels. */
  ghost predicate WriterStep(w: World, step: Step, w': World) {
    match step
    case SendInner(c, v) => c in w.inner && w.inner[c].open && w' == w.(inner := w.inner[c := Send(w.inner[c], v)])
    case SendOuter(c) => w.outer.open && c in w.inner && w' == w.(outer := Send(w.outer, c))
    case NewInner(c, v) => c !in w.inner && w' == w.(inner := w.inner[c := Cell([v], true)])
    case CloseInner(c) => c in w.inner && w' == w.(inner := w.inner[c := w.inner[c].(open := false)])
    case CloseOuter => w' == w.(outer := w.outer.(open := false))
    case _ => false
  }

  /** What the reader does. `changed()` looks at the version before it looks for the sender, and the
      reads after it take whatever is there by then without marking it seen; only the first read of a
      newly followed channel does. */
  ghost predicate ReaderStep(w: World, r: Reader, step: Step, r': Reader)
    requires WorldOk(w) && r.at in w.inner
  {
    var inner := w.inner[r.at];
    match step
    case First =>
      && r.pc == Start
      && r' == r.(pc := Select, innerSeen := Version(inner), server := Value(inner), emitted := [Value(inner)])
    case WakeInner => r.pc == Select && r.innerSeen != Version(inner)
        && r' == r.(pc := InnerWoken, innerSeen := Version(inner))
    case ReadInner => r.pc == InnerWoken && r' == Offer(r, Value(inner)).(pc := Select)
    case WakeOuter => r.pc == Select && r.outerSeen != Version(w.outer)
        && r' == r.(pc := OuterWoken, outerSeen := Version(w.outer))
    case ReadOuter(seen) => r.pc == OuterWoken && r' == r.(pc := OuterRead, at := Value(w.outer), innerSeen := seen)
    case ReadNewInner => r.pc == OuterRead && r' == Offer(r, Value(inner)).(pc := Select, innerSeen := Version(inner))
    case Spin => r.pc == Select && r.innerSeen == Version(inner) && !inner.open && r' == r
    case End => r.pc == Select && r.outerSeen == Version(w.outer) && !w.outer.open && r' == r.(pc := Ended)
    case _ => false
  }

  datatype Config = Config(world: World, reader: Reader)

  ghost predicate Next(a: Config, step: Step, b: Config) {
    if ByWriter(step) then
      WriterStep(a.world, step, b.world) && b.reader == a.reader
    else
      && WorldOk(a.world) && a.reader.at in a.world.inner
      && ReaderStep(a.world, a.reader, step, b.reader) && b.world == a.world
  }

  /** A run: any interleaving of the two. */
  ghost predicate Run(trace: seq<Config>, steps: seq<Step>) {
    && |trace| == |steps| + 1
    && forall i | 0 <= i < |steps| :: Next(trace[i], steps[i], trace[i + 1])
  }

  ghost predicate Begins(a: Config) {
    WorldOk(a.world) && exists seen, any :: a.reader == Subscribe(a.world, seen, any)
  }

  // --- The invariant ----------------------------------------------------------------------

  /** The followed channel is one that the outer channel pointed to at or after the last version
      seen, except between waking up and reading. */
  ghost predicate FollowsOuter(w: World, r: Reader)
    requires WorldOk(w)
  {
    && r.outerSeen <= Version(w.outer)
    && r.at in w.outer.history
    && (r.pc != OuterWoken ==> exists k :: r.outerSeen <= k < |w.outer.history| && w.outer.history[k] == r.at)
  }

  /** The last value handed out is one that the followed channel had at or after the last version
      seen, when the stream is back in `select!`. */
  ghost predicate FollowsInner(w: World, r: Reader)
    requires WorldOk(w) && r.at in w.inner
  {
    var inner := w.inner[r.at];
    && (r.pc == Select || r.pc == InnerWoken || r.pc == Ended ==> r.innerSeen <= Version(inner))
    && (r.pc == Select || r.pc == Ended ==>
          exists k :: r.innerSeen <= k < |inner.history| && inner.history[k] == r.server)
  }

  /** The value was published on a channel that the outer one pointed to. */
  ghost predicate Genuine(w: World, s: InboundServer) {
    exists c :: c in w.outer.history && c in w.inner && s in w.inner[c].history
  }

  ghost predicate EmittedOk(w: World, r: Reader) {
    && (r.pc == Start <==> r.emitted == [])
    && (r.emitted != [] ==> r.emitted[|r.emitted| - 1] == r.server)
    && (forall i | 0 < i < |r.emitted| :: r.emitted[i] != r.emitted[i - 1])
    && (forall s | s in r.emitted :: Genuine(w, s))
  }

  ghost predicate StreamOk(a: Config) {
    && WorldOk(a.world)
    && FollowsOuter(a.world, a.reader)
    && FollowsInner(a.world, a.reader)
    && EmittedOk(a.world, a.reader)
    && (a.reader.pc == Ended ==> !a.world.outer.open && a.reader.outerSeen == Version(a.world.outer))
  }

  lemma BeginsOk(a: Config)
    requires Begins(a)
    ensures StreamOk(a)
  {
  }

  // --- Every step keeps it ------------------------------------------------------------------

  /** The writer only ever adds to histories. */
  ghost predicate Extends(w: World, w': World) {
    && w.outer.history <= w'.outer.history
    && (forall c | c in w.inner :: c in w'.inner && w.inner[c].history <= w'.inner[c].history)
  }

  lemma WriterExtends(w: World, step: Step, w': World)
    requires WorldOk(w) && WriterStep(w, step, w')
    ensures WorldOk(w') && Extends(w, w')
    ensures !w.outer.open ==> !w'.outer.open && w'.outer.history == w.outer.history
  {
  }

  lemma InPrefix<T>(s: seq<T>, t: seq<T>, x: T)
    requires s <= t && x in s
    ensures x in t
  {
  }

  lemma GenuineStays(w: World, w': World, s: InboundServer)
    requires Extends(w, w') && Genuine(w, s)
    ensures Genuine(w', s)
  {
  }

  lemma WriterKeeps(a: Config, step: Step, b: Config)
    requires StreamOk(a) && ByWriter(step) && Next(a, step, b)
    ensures StreamOk(b)
  {
    var w, w', r := a.world, b.world, a.reader;
    WriterExtends(w, step, w');
    InPrefix(w.outer.history, w'.outer.history, r.at);
    if r.pc != OuterWoken {
      var k :| r.outerSeen <= k < |w.outer.history| && w.outer.history[k] == r.at;
      assert w'.outer.history[k] == r.at;
    }
    if r.pc == Select || r.pc == Ended {
      var k :| r.innerSeen <= k < |w.inner[r.at].history| && w.inner[r.at].history[k] == r.server;
      assert w'.inner[r.at].history[k] == r.server;
    }
    forall s | s in r.emitted
      ensures Genuine(w', s)
    {
      GenuineStays(w, w', s);
    }
  }

  lemma ReaderKeeps(a: Config, step: Step, b: Config)
    requires StreamOk(a) && !ByWriter(step) && Next(a, step, b)
    ensures StreamOk(b)
  {
  }

  lemma {:induction false} RunKeeps(trace: seq<Config>, steps: seq<Step>, i: nat)
    requires Run(trace, steps) && i < |trace| && Begins(trace[0])
    ensures StreamOk(trace[i])
  {
    if i == 0 {
      BeginsOk(trace[0]);
    } else {
      RunKeeps(trace, steps, i - 1);
      assert Next(trace[i - 1], steps[i - 1], trace[i]);
      if ByWriter(steps[i - 1]) {
        WriterKeeps(trace[i - 1], steps[i - 1], trace[i]);
      } else {
        ReaderKeeps(trace[i - 1], steps[i - 1], trace[i]);
      }
    }
  }

  // --- Agreement at rest ----------------------------------------------------------------------

  /** The stream waits and has nothing left to see. */
  predicate Quiescent(a: Config)
    requires Live(a.world.outer) && a.reader.at in a.world.inner && Live(a.world.inner[a.reader.at])
  {
    && a.reader.pc == Select
    && a.reader.outerSeen == Version(a.world.outer)
    && a.reader.innerSeen == Version(a.world.inner[a.reader.at])
  }

  lemma RestAgrees(a: Config)
    requires StreamOk(a) && Quiescent(a)
    ensures a.reader.at == Value(a.world.outer)
    ensures a.reader.emitted != []
    ensures a.reader.emitted[|a.reader.emitted| - 1] == Value(a.world.inner[Value(a.world.outer)])
  {
    var w, r := a.world, a.reader;
    var k :| r.outerSeen <= k < |w.outer.history| && w.outer.history[k] == r.at;
    var j :| r.innerSeen <= j < |w.inner[r.at].history| && w.inner[r.at].history[j] == r.server;
    assert k == Version(w.outer) && j == Version(w.inner[r.at]);
  }

  /** Whatever the interleaving: when the stream is at rest, it follows the channel that the port
      points to and has handed out that channel's current value last. No update is lost, not even one
      that races with a rebinding. */
  lemma AgreementAtRest(trace: seq<Config>, steps: seq<Step>, i: nat)
    requires Run(trace, steps) && i < |trace| && Begins(trace[0])
    ensures var w, r := trace[i].world, trace[i].reader;
            && WorldOk(w) && r.at in w.inner
            && (Quiescent(trace[i]) ==>
                  && r.at == Value(w.outer)
                  && r.emitted != []
                  && r.emitted[|r.emitted| - 1] == Value(w.inner[Value(w.outer)]))
  {
    RunKeeps(trace, steps, i);
    if Quiescent(trace[i]) {
      RestAgrees(trace[i]);
    }
  }

  /** No value is handed out twice in a row, every value was published on a channel the port pointed
      to, and the stream ends only after the port's own sender is gone and its last word was read. */
  lemma FrugalAndGenuine(trace: seq<Config>, steps: seq<Step>, i: nat)
    requires Run(trace, steps) && i < |trace| && Begins(trace[0])
    ensures var w, r := trace[i].world, trace[i].reader;
            && (forall k | 0 < k < |r.emitted| :: r.emitted[k] != r.emitted[k - 1])
            && (forall s | s in r.emitted :: Genuine(w, s))
            && (r.pc == Ended ==> !w.outer.open && WorldOk(w) && r.at == Value(w.outer))
  {
    RunKeeps(trace, steps, i);
    var w, r := trace[i].world, trace[i].reader;
    if r.pc == Ended {
      var k :| r.outerSeen <= k < |w.outer.history| && w.outer.history[k] == r.at;
    }
  }

  // --- Progress ---------------------------------------------------------------------------------

  function Unseen(seen: nat, version: nat): nat {
    if seen == version then 0 else 1
  }

  /** How many wake-ups are left if the writer rests. */
  function Wakes(a: Config): nat
    requires WorldOk(a.world) && a.reader.at in a.world.inner
  {
    var r := a.reader;
    (if r.pc == Select || r.pc == InnerWoken then Unseen(r.innerSeen, Version(a.world.inner[r.at])) else 0)
    + Unseen(r.outerSeen, Version(a.world.outer))
  }

  /** How many steps are left, at most, if the writer rests. */
  function Rank(a: Config): nat
    requires WorldOk(a.world) && a.reader.at in a.world.inner
  {
    var r := a.reader;
    var outer := 3 * Unseen(r.outerSeen, Version(a.world.outer)) + (if a.world.outer.open then 0 else 1);
    match r.pc
    case Start => 1 + outer
    case Select => 2 * Unseen(r.innerSeen, Version(a.world.inner[r.at])) + outer
    case InnerWoken => 1 + 2 * Unseen(r.innerSeen, Version(a.world.inner[r.at])) + outer
    case OuterWoken => 2 + outer
    case OuterRead => 1 + outer
    case Ended => 0
  }

  /** Every step of the reader but spinning brings it closer to rest, and every wake-up uses up one of
      at most two. */
  lemma ReaderProgress(a: Config, step: Step, b: Config)
    requires StreamOk(a) && !ByWriter(step) && step != Spin && Next(a, step, b)
    ensures StreamOk(b) && Rank(b) < Rank(a)
    ensures Wakes(b) + (if step.WakeInner? || step.WakeOuter? then 1 else 0) <= Wakes(a) <= 2
  {
    ReaderKeeps(a, step, b);
  }

  /** A stream that is neither at rest nor over can always move on. */
  lemma NeverStuck(a: Config) returns (step: Step, b: Config)
    requires StreamOk(a) && !Quiescent(a) && a.reader.pc != Ended
    ensures !ByWriter(step) && step != Spin && Next(a, step, b)
  {
    var w, r := a.world, a.reader;
    var inner := w.inner[r.at];
    match r.pc {
      case Start =>
        step, b := First, a.(reader := r.(pc := Select, innerSeen := Version(inner), server := Value(inner),
            emitted := [Value(inner)]));
      case Select =>
        if r.innerSeen != Version(inner) {
          step, b := WakeInner, a.(reader := r.(pc := InnerWoken, innerSeen := Version(inner)));
        } else {
          step, b := WakeOuter, a.(reader := r.(pc := OuterWoken, outerSeen := Version(w.outer)));
        }
      case InnerWoken =>
        step, b := ReadInner, a.(reader := Offer(r, Value(inner)).(pc := Select));
      case OuterWoken =>
        step, b := ReadOuter(0), a.(reader := r.(pc := OuterRead, at := Value(w.outer), innerSeen := 0));
      case OuterRead =>
        step, b := ReadNewInner, a.(reader := Offer(r, Value(inner)).(pc := Select, innerSeen := Version(inner)));
    }
  }

  /** The reader alone, never spinning. */
  ghost predicate ReaderRun(trace: seq<Config>, steps: seq<Step>) {
    Run(trace, steps) && forall s | s in steps :: !ByWriter(s) && s != Spin
  }

  function CountWakes(steps: seq<Step>): nat {
    if steps == [] then 0
    else (if steps[0].WakeInner? || steps[0].WakeOuter? then 1 else 0) + CountWakes(steps[1..])
  }

  /** Once the writer rests, the reader comes to rest or to its end within `Rank` steps, whichever
      order it wakes up in, and wakes up at most twice on the way. */
  lemma {:induction false} ComesToRest(trace: seq<Config>, steps: seq<Step>)
    requires ReaderRun(trace, steps) && StreamOk(trace[0])
    ensures |steps| <= Rank(trace[0]) && CountWakes(steps) <= Wakes(trace[0]) <= 2
    ensures StreamOk(trace[|steps|])
    ensures (forall step, b | !ByWriter(step) && step != Spin :: !Next(trace[|steps|], step, b)) ==>
              trace[|steps|].reader.pc == Ended || Quiescent(trace[|steps|])
    decreases |steps|
  {
    if steps == [] {
      var a := trace[0];
      if a.reader.pc != Ended && !Quiescent(a) {
        var step, b := NeverStuck(a);
      }
    } else {
      assert Next(trace[0], steps[0], trace[1]) && steps[0] in steps;
      ReaderProgress(trace[0], steps[0], trace[1]);
      var rest, t := steps[1..], trace[1..];
      assert Run(t, rest) by {
        forall i | 0 <= i < |rest|
          ensures Next(t[i], rest[i], t[i + 1])
        {
          assert Next(trace[i + 1], steps[i + 1], trace[i + 2]);
        }
      }
      ComesToRest(t, rest);
    }
  }
}
