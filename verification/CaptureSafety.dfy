/** What the capture session promises in every reachable state. */
module CaptureSafety {
  import opened Bytes
  import opened Capture
  import opened CaptureInvariant
  import V = Vaapi

  ghost predicate Reachable(st: State, n: nat, dma: bool, frugal: bool) {
    exists schedule :: Run(Start(n, dma, frugal), schedule) == Some(st)
  }

  lemma ReachableOk(st: State, n: nat, dma: bool, frugal: bool)
    requires Reachable(st, n, dma, frugal)
    ensures Inv(st) && |st.refs| == |st.hwRefs| == |st.contents| == n && st.dma == dma && st.frugal == frugal
  {
    var schedule :| Run(Start(n, dma, frugal), schedule) == Some(st);
    StartOk(n, dma, frugal);
    RunKeeps(Start(n, dma, frugal), schedule);
    RunKeepsShape(Start(n, dma, frugal), schedule);
  }

  ghost predicate SameShape(st: State, next: State) {
    |next.refs| == |st.refs| && |next.hwRefs| == |st.hwRefs| && |next.contents| == |st.contents|
    && next.dma == st.dma && next.frugal == st.frugal
  }

  lemma StepKeepsShape(st: State, step: Step)
    requires Enabled(st, step)
    ensures SameShape(st, Next(st, step))
  {
    hide SameShape, CallbackNext, CallbackEnabled, ConsumerNext, ConsumerEnabled, OtherNext, OtherEnabled;
    if CallbackStep(step) {
      CallbackKeepsShape(st, step);
    } else if ConsumerStep(step) {
      ConsumerKeepsShape(st, step);
    } else {
      OtherKeepsShape(st, step);
    }
  }

  lemma CallbackKeepsShape(st: State, step: Step)
    requires CallbackStep(step) && CallbackEnabled(st, step)
    ensures SameShape(st, CallbackNext(st, step))
  {
    hide FirstFree, Acquire, Release, ReleaseOne, Exchanged;
    match step
    case BeginCallback =>
    case Dequeue(_) =>
    case EndDrain =>
    case Discard =>
    case TooSmall =>
    case Throw =>
    case BeginScan =>
    case Test =>
    case GiveUp =>
    case CopyRow(_) =>
    case FinishCopy(_) =>
    case StartConvert =>
    case FinishConvert(_) =>
    case FailConvert =>
    case Catch =>
    case Push =>
    case Return =>
    case _ =>
  }

  lemma ConsumerKeepsShape(st: State, step: Step)
    requires ConsumerStep(step) && ConsumerEnabled(st, step)
    ensures SameShape(st, ConsumerNext(st, step))
  {
    match step
    case NextTakes =>
    case NextEmpty =>
    case BeginEncode =>
    case SkipEncode =>
    case Retain =>
    case RetainSurface =>
    case ReleaseFrame(_) =>
    case ReleaseSurface(_) =>
    case EndEncode =>
    case _ =>
  }

  lemma OtherKeepsShape(st: State, step: Step)
    requires OtherEnabled(st, step)
    ensures SameShape(st, OtherNext(st, step))
  {
  }

  lemma {:induction false} RunKeepsShape(st: State, schedule: seq<Step>)
    ensures Run(st, schedule).Some? ==> SameShape(st, Run(st, schedule).value)
    decreases schedule
  {
    hide Next, Enabled;
    if schedule != [] && Enabled(st, schedule[0]) {
      StepKeepsShape(st, schedule[0]);
      RunKeepsShape(Next(st, schedule[0]), schedule[1..]);
    }
  }

  // ---------------------------------------------------------------------------------------------
  // Ownership
  // ---------------------------------------------------------------------------------------------

  /**
   * No step changes the contents of a frame that a queue, the consumer or an encoder holds: a frame is
   * written only while the pool and the callback are its sole holders, and a conversion that timed out
   * goes on writing into a frame that is never handed out again.
   */
  lemma HeldFramesNeverChange(st: State, n: nat, dma: bool, frugal: bool, step: Step, f: nat)
    requires Reachable(st, n, dma, frugal) && Enabled(st, step)
    requires IsHeld(Held(st), f) && f < |st.contents|
    ensures f < |Next(st, step).contents| && Next(st, step).contents[f] == st.contents[f]
  {
    ReachableOk(st, n, dma, frugal);
    WrittenIsNotHeld(st, f);
    StepWritesOwnFrame(st, step, f);
  }

  lemma WrittenIsNotHeld(st: State, f: nat)
    requires Inv(st) && IsHeld(Held(st), f)
    ensures Own(st.callback) != Some(f) && !(st.reading.Some? && st.reading.value.1 == f)
  {
    hide RefsOk, EncoderOk, ConsumerOk, CountsOk, BuffersOk, IsHeld;
  }

  lemma StepWritesOwnFrame(st: State, step: Step, f: nat)
    requires Enabled(st, step) && f < |st.contents|
    requires Own(st.callback) != Some(f) && !(st.reading.Some? && st.reading.value.1 == f)
    ensures f < |Next(st, step).contents| && Next(st, step).contents[f] == st.contents[f]
  {
    hide Release, FirstFree, ReleaseOne, Acquire;
    if CallbackStep(step) {
      CallbackWritesOwnFrame(st, step, f);
    } else if ConsumerStep(step) {
      ConsumerWritesNothing(st, step);
    }
  }

  lemma CallbackWritesOwnFrame(st: State, step: Step, f: nat)
    requires CallbackStep(step) && CallbackEnabled(st, step) && f < |st.contents| && Own(st.callback) != Some(f)
    ensures f < |CallbackNext(st, step).contents| && CallbackNext(st, step).contents[f] == st.contents[f]
  {
    hide Release, FirstFree, ReleaseOne, Acquire;
    match step
    case BeginCallback =>
    case Dequeue(_) =>
    case EndDrain =>
    case Discard =>
    case TooSmall =>
    case Throw =>
    case BeginScan =>
    case Test =>
    case GiveUp =>
    case CopyRow(_) =>
    case FinishCopy(_) =>
    case StartConvert =>
    case FinishConvert(_) =>
    case FailConvert =>
    case Catch =>
    case Push =>
    case Return =>
    case _ =>
  }

  lemma ConsumerWritesNothing(st: State, step: Step)
    requires ConsumerStep(step) && ConsumerEnabled(st, step)
    ensures ConsumerNext(st, step).contents == st.contents
    ensures ConsumerNext(st, step).outstanding == st.outstanding
  {
    hide Release, FirstFree, ReleaseOne, Acquire;
    match step
    case NextTakes =>
    case NextEmpty =>
    case BeginEncode =>
    case SkipEncode =>
    case Retain =>
    case RetainSurface =>
    case ReleaseFrame(_) =>
    case ReleaseSurface(_) =>
    case EndEncode =>
    case _ =>
  }

  /** Every held frame still shows the image it was published with. */
  lemma HeldFramesShowTheirImage(st: State, n: nat, dma: bool, frugal: bool, f: nat)
    requires Reachable(st, n, dma, frugal) && IsHeld(Held(st), f)
    ensures f < n && |st.contents| == |st.stamped| == n && st.contents[f] == st.stamped[f]
  {
    ReachableOk(st, n, dma, frugal);
    HeldIsInPool(st.refs, st.hwRefs, Held(st), Own(st.callback), f);
  }

  /** use_count tells the truth: a frame is free for the scan exactly when nothing but the pool holds it. */
  lemma FreeMeansUnheld(st: State, n: nat, dma: bool, frugal: bool, f: nat)
    requires Reachable(st, n, dma, frugal) && f < n
    ensures IsFree(st.refs, st.hwRefs, f) <==> !IsHeld(Held(st), f) && Own(st.callback) != Some(f)
  {
    ReachableOk(st, n, dma, frugal);
    hide Uses, Count;
    assert st.refs[f] == 1 + Uses(Held(st), f) + One(Own(st.callback), f) && st.hwRefs[f] == Count(st.encoderHw, f);
  }

  // ---------------------------------------------------------------------------------------------
  // The size of the pool
  // ---------------------------------------------------------------------------------------------

  /**
   * The scan finds a frame whenever the pool has five frames more than the encoder keeps beyond the one it
   * is given: two queued, one being encoded, the last one, and a spare.
   */
  lemma ScanFindsFrame(st: State, n: nat, dma: bool, frugal: bool, kept: seq<nat>)
    requires Reachable(st, n, dma, frugal) && st.callback.Consuming?
    requires forall f: nat :: f in st.encoder || f in st.encoderHw ==> st.mapped == Some(f) || f in kept
    requires n >= 5 + |kept|
    ensures FirstFree(st.refs, st.hwRefs, 0).Some?
  {
    ReachableOk(st, n, dma, frugal);
    if FirstFree(st.refs, st.hwRefs, 0) == None {
      var taken := st.queue + AsSeq(st.sample) + AsSeq(st.last) + kept;
      forall f: nat | f < n
        ensures f in taken
      {
        assert !IsFree(st.refs, st.hwRefs, f);
        FreeMeansUnheld(st, n, dma, frugal, f);
        HeldIsListed(st, f);
      }
      Pigeonhole(n, taken);
    }
  }

  lemma FrugalEncoderKeepsNone(st: State, n: nat, dma: bool)
    requires Reachable(st, n, dma, true)
    ensures forall f: nat :: f in st.encoder || f in st.encoderHw ==> st.mapped == Some(f)
  {
    ReachableOk(st, n, dma, true);
    forall f: nat | f in st.encoder || f in st.encoderHw
      ensures st.mapped == Some(f)
    {
      FrugalKeepsNone(st, f);
    }
  }

  /**
   * The pool of five is enough for an encoder that keeps no frame once encode() has returned: however the
   * consumer moves while the callback tests one frame after the other, the scan never comes up empty.
   */
  lemma FiveFramesAreEnough(st: State, dma: bool)
    requires Reachable(st, 5, dma, true)
    ensures !Enabled(st, GiveUp)
    ensures st.callback.Consuming? ==> FirstFree(st.refs, st.hwRefs, 0).Some?
  {
    hide RefsOk, ContentOk, EncoderOk, ConsumerOk, CountsOk, BuffersOk, IsHeld, FirstFree;
    ReachableOk(st, POOL_SIZE, dma, true);
    if st.callback.Consuming? {
      FrugalEncoderKeepsNone(st, POOL_SIZE, dma);
      ScanFindsFrame(st, POOL_SIZE, dma, true, []);
    }
  }

  // A pool of four

  lemma {:induction false} FirstFreeIs(refs: seq<int>, hwRefs: seq<int>, i: nat, f: nat)
    requires i <= f && IsFree(refs, hwRefs, f) && forall g: nat :: i <= g < f ==> !IsFree(refs, hwRefs, g)
    ensures FirstFree(refs, hwRefs, i) == Some(f)
    decreases f - i
  {
    if i < f {
      FirstFreeIs(refs, hwRefs, i + 1, f);
    }
  }

  lemma Unfold(st: State, step: Step, schedule: seq<Step>)
    requires Enabled(st, step)
    ensures Run(st, [step] + schedule) == Run(Next(st, step), schedule)
  {
    assert ([step] + schedule)[1..] == schedule;
  }

  /** The state after one undisturbed callback that captures buffer 0 into frame f. */
  function Captured(st: State, f: nat): (next: State)
    requires f < |st.refs| && f < |st.contents| && f < |st.stamped|
  {
    st.(arrivals := st.arrivals + 1, dequeued := st.dequeued + 1, returned := st.returned + 1,
        refs := Acquire(st.refs, f), contents := st.contents[f := 1], stamped := st.stamped[f := 1],
            queue := st.queue + [f])
  }

  function Tests(n: nat): (steps: seq<Step>) {
    seq(n, _ => Test)
  }

  /** An undisturbed callback that finds frame f. */
  function Capturing(f: nat, rest: seq<Step>): (schedule: seq<Step>) {
    var publish := [FinishCopy(1)] + ([Push] + ([Return] + rest));
    [BeginCallback] + ([Dequeue(0)] + ([EndDrain] + ([BeginScan] + (Tests(f + 1) + publish))))
  }

  lemma CaptureRuns(st: State, f: nat, rest: seq<Step>)
    requires st.callback == NoCallback && !st.stopping && !st.dma && st.outstanding == {} && |st.queue| < QUEUE_LIMIT
    requires f < |st.refs| == |st.contents| == |st.stamped| && FirstFree(st.refs, st.hwRefs, 0) == Some(f)
    ensures Run(st, Capturing(f, rest)) == Run(Captured(st, f), rest)
  {
    hide Run, FirstFree;
    var later := [FinishCopy(1)] + ([Push] + ([Return] + rest));
    ScanRuns(st, f, later);
    var filling := st.(arrivals := st.arrivals + 1, dequeued := st.dequeued + 1, outstanding := {0},
                       refs := Acquire(st.refs, f), callback := Writing(0, f));
    PublishRuns(filling, f, rest);
    assert Captured(st, f) == Published(filling, f);
  }

  lemma ScanRuns(st: State, f: nat, rest: seq<Step>)
    requires st.callback == NoCallback && !st.stopping && st.outstanding == {}
    requires f < |st.refs| && FirstFree(st.refs, st.hwRefs, 0) == Some(f)
    ensures var filling := st.(arrivals := st.arrivals + 1, dequeued := st.dequeued + 1, outstanding := {0},
                               refs := Acquire(st.refs, f), callback := Writing(0, f));
      Run(st, [BeginCallback] + ([Dequeue(0)] + ([EndDrain] + ([BeginScan] + (Tests(f + 1) + rest)))))
          == Run(filling, rest)
  {
    hide Run, FirstFree, Tests;
    var s3 := LastCallback(st, [BeginScan] + (Tests(f + 1) + rest));
    Unfold(s3, BeginScan, Tests(f + 1) + rest);
    var s4 := s3.(callback := Scanning(0, 0));
    FirstFreeLow(st.refs, st.hwRefs, 0);
    TestsFind(s4, f, rest);
  }

  lemma {:induction false} FirstFreeLow(refs: seq<int>, hwRefs: seq<int>, i: nat)
    ensures var r := FirstFree(refs, hwRefs, i);
      r.Some? ==> i <= r.value && forall g: nat :: i <= g < r.value ==> !IsFree(refs, hwRefs, g)
    decreases |refs| - i
  {
    if i < |refs| && !IsFree(refs, hwRefs, i) {
      FirstFreeLow(refs, hwRefs, i + 1);
    }
  }

  /** While nobody else moves, the tests take the callback to the first free frame. */
  lemma {:induction false} TestsFind(st: State, f: nat, rest: seq<Step>)
    requires st.callback.Scanning? && st.callback.i <= f < |st.refs| && IsFree(st.refs, st.hwRefs, f)
    requires forall g: nat :: st.callback.i <= g < f ==> !IsFree(st.refs, st.hwRefs, g)
    ensures Run(st, Tests(f + 1 - st.callback.i) + rest)
            == Run(st.(refs := Acquire(st.refs, f), callback := Writing(st.callback.b, f)), rest)
    decreases f - st.callback.i
  {
    hide Run, IsFree;
    var i := st.callback.i;
    var left := Tests(f - i);
    assert Tests(f + 1 - i) + rest == [Test] + (left + rest);
    Unfold(st, Test, left + rest);
    if i < f {
      TestsFind(st.(callback := Scanning(st.callback.b, i + 1)), f, rest);
    } else {
      assert left + rest == rest;
    }
  }

  /** While nobody else moves and no frame is free, the tests run through the pool. */
  lemma {:induction false} TestsFail(st: State, rest: seq<Step>)
    requires st.callback.Scanning? && st.callback.i <= |st.refs|
    requires forall g: nat :: st.callback.i <= g < |st.refs| ==> !IsFree(st.refs, st.hwRefs, g)
    ensures Run(st, Tests(|st.refs| - st.callback.i) + rest)
            == Run(st.(callback := Scanning(st.callback.b, |st.refs|)), rest)
    decreases |st.refs| - st.callback.i
  {
    hide Run, IsFree;
    var i := st.callback.i;
    if i < |st.refs| {
      var left := Tests(|st.refs| - i - 1);
      assert Tests(|st.refs| - i) + rest == [Test] + (left + rest);
      Unfold(st, Test, left + rest);
      TestsFail(st.(callback := Scanning(st.callback.b, i + 1)), rest);
    } else {
      assert Tests(0) + rest == rest;
    }
  }

  function Published(st: State, f: nat): (next: State)
    requires f < |st.contents| && f < |st.stamped|
  {
    st.(returned := st.returned + 1, outstanding := {}, contents := st.contents[f := 1], stamped := st.stamped[f := 1],
        queue := st.queue + [f], callback := NoCallback)
  }

  lemma PublishRuns(st: State, f: nat, rest: seq<Step>)
    requires st.callback == Writing(0, f) && !st.dma && st.outstanding == {0} && |st.queue| < QUEUE_LIMIT
    requires f < |st.contents| && f < |st.stamped|
    ensures Run(st, [FinishCopy(1)] + ([Push] + ([Return] + rest))) == Run(Published(st, f), rest)
  {
    hide Run;
    var s5 := Next(st, FinishCopy(1));
    var s6 := Next(s5, Push);
    Unfold(st, FinishCopy(1), [Push] + ([Return] + rest));
    Unfold(s5, Push, [Return] + rest);
    Unfold(s6, Return, rest);
    assert {0} - {0} == {};
  }

  /** The state after the consumer takes, encodes and keeps the only queued frame f. */
  function Consumed(st: State, f: nat): (next: State) {
    st.(queue := [], last := Some(f), handed := st.handed + 1, consumed := st.consumed + 1)
  }

  lemma ConsumeRuns(st: State, f: nat, rest: seq<Step>)
    requires st.consumer == Outside && st.sample == None && st.mapped == None && st.last == None
    requires st.queue == [f] && f < |st.refs| && st.encoder == [] && st.encoderHw == []
    ensures Run(st, [NextTakes] + ([BeginEncode] + ([EndEncode] + rest))) == Run(Consumed(st, f), rest)
  {
    hide Run, Release;
    TakeRuns(st, f, [BeginEncode] + ([EndEncode] + rest));
    var s1 := Taken(st, f);
    var s2 := Next(s1, BeginEncode);
    Unfold(s1, BeginEncode, [EndEncode] + rest);
    Unfold(s2, EndEncode, rest);
    assert Next(s2, EndEncode).refs == st.refs;
  }

  function Taken(st: State, f: nat): (next: State) {
    st.(queue := [], sample := Some(f), handed := st.handed + 1, consumer := Ready)
  }

  lemma TakeRuns(st: State, f: nat, rest: seq<Step>)
    requires st.consumer == Outside && st.queue == [f]
    ensures Run(st, [NextTakes] + rest) == Run(Taken(st, f), rest)
  {
    hide Run, Release;
    Unfold(st, NextTakes, rest);
    NothingReleased(st.refs);
    assert st.queue[..0] == [];
  }

  /** A pool of four has a reachable state whose scan comes up empty, with the same frugal encoder. */
  lemma FourFramesCanRunOut() returns (st: State)
    ensures Reachable(st, 4, false, true) && Enabled(st, GiveUp)
  {
    hide Run, FirstFree, Captured, Taken, Consumed, Tests;
    var start := Start(4, false, true);
    var scan := [BeginScan] + (Tests(4) + []);
    var end := [BeginCallback] + ([Dequeue(0)] + ([EndDrain] + scan));
    var tail := [NextTakes] + Capturing(2, Capturing(3, end));
    var middle := [NextTakes] + ([BeginEncode] + ([EndEncode] + Capturing(1, tail)));
    FirstFreeIs(start.refs, start.hwRefs, 0, 0);
    CaptureRuns(start, 0, middle);
    var b := LastKept(start, Capturing(1, tail));
    var e := AllTaken(b, tail, end);
    var s := LastCallback(e, scan);
    Unfold(s, BeginScan, Tests(4) + []);
    st := s.(callback := Scanning(0, 4));
    TestsFail(s.(callback := Scanning(0, 0)), []);
    assert Run(st, []) == Some(st) by { LastUnfold(st); }
    assert Run(start, Capturing(0, middle)) == Some(st);
  }

  lemma LastUnfold(st: State)
    ensures Run(st, []) == Some(st)
  {
  }

  /** One frame captured, encoded and kept as the last one. */
  lemma LastKept(start: State, rest: seq<Step>) returns (st: State)
    requires start == Start(4, false, true)
    ensures Run(Captured(start, 0), [NextTakes] + ([BeginEncode] + ([EndEncode] + rest))) == Run(st, rest)
    ensures Idle(st) && st.queue == [] && st.refs == [2, 1, 1, 1] && st.hwRefs == [0, 0, 0, 0]
  {
    hide Run;
    ConsumeRuns(Captured(start, 0), 0, rest);
    st := Consumed(Captured(start, 0), 0);
  }

  predicate Idle(st: State) {
    && st.callback == NoCallback && !st.stopping && !st.dma && st.outstanding == {} && st.consumer == Outside
    && |st.refs| == |st.contents| == |st.stamped| == 4
  }

  /** Three more captured: one taken, two queued. */
  lemma AllTaken(b: State, tail: seq<Step>, end: seq<Step>) returns (st: State)
    requires Idle(b) && b.queue == [] && b.refs == [2, 1, 1, 1] && b.hwRefs == [0, 0, 0, 0]
    requires tail == [NextTakes] + Capturing(2, Capturing(3, end))
    ensures Run(b, Capturing(1, tail)) == Run(st, end)
    ensures st.callback == NoCallback && !st.stopping && st.outstanding == {} && st.refs == [2, 2, 2, 2]
  {
    hide Run, FirstFree;
    FirstFreeIs(b.refs, b.hwRefs, 0, 1);
    CaptureRuns(b, 1, tail);
    var c := Captured(b, 1);
    TakeRuns(c, 1, Capturing(2, Capturing(3, end)));
    var d := Taken(c, 1);
    assert d.refs == [2, 2, 1, 1];
    FirstFreeIs(d.refs, d.hwRefs, 0, 2);
    CaptureRuns(d, 2, Capturing(3, end));
    var e := Captured(d, 2);
    assert e.refs == [2, 2, 2, 1];
    FirstFreeIs(e.refs, e.hwRefs, 0, 3);
    CaptureRuns(e, 3, end);
    st := Captured(e, 3);
  }

  lemma LastCallback(st: State, rest: seq<Step>) returns (next: State)
    requires st.callback == NoCallback && !st.stopping && st.outstanding == {}
    ensures Run(st, [BeginCallback] + ([Dequeue(0)] + ([EndDrain] + rest))) == Run(next, rest)
    ensures next == st.(arrivals := st.arrivals + 1, dequeued := st.dequeued + 1, outstanding := {0},
        callback := Consuming(0))
  {
    hide Run;
    var s1 := Next(st, BeginCallback);
    var s2 := Next(s1, Dequeue(0));
    next := Next(s2, EndDrain);
    Unfold(st, BeginCallback, [Dequeue(0)] + ([EndDrain] + rest));
    Unfold(s1, Dequeue(0), [EndDrain] + rest);
    Unfold(s2, EndDrain, rest);
  }

  // ---------------------------------------------------------------------------------------------
  // Conservation
  // ---------------------------------------------------------------------------------------------

  /** Every arrival is dropped, handed out, queued, reported as a failure, or in the callback's hands. */
  lemma ArrivalsAreConserved(st: State, n: nat, dma: bool, frugal: bool)
    requires Reachable(st, n, dma, frugal)
    ensures st.arrivals == st.drops + st.handed + |st.queue| + st.failed + InHand(st.callback)
    ensures |st.queue| <= 2
  {
    ReachableOk(st, n, dma, frugal);
  }

  /** The queue after samples were pushed one after the other and none was taken. */
  function QueuedAll(queue: seq<nat>, fs: seq<nat>): (after: seq<nat>) {
    if fs == [] then queue else Queued(QueuedAll(queue, fs[..|fs| - 1]), fs[|fs| - 1])
  }

  function LastTwo(all: seq<nat>): (two: seq<nat>) {
    if |all| <= 2 then all else [all[|all| - 2], all[|all| - 1]]
  }

  lemma OneMoreQueued(all: seq<nat>, f: nat)
    ensures Queued(LastTwo(all), f) == LastTwo(all + [f])
  {
    if |all| >= 2 {
      assert LastTwo(all + [f]) == [all[|all| - 1], f];
    } else {
      assert LastTwo(all + [f]) == all + [f];
    }
  }

  /** However many samples arrive before the consumer looks, the newest two are queued, in order. */
  lemma {:induction false} QueueKeepsTheNewestTwo(queue: seq<nat>, fs: seq<nat>)
    requires |queue| <= 2
    ensures var all := queue + fs;
      QueuedAll(queue, fs) == if |all| <= 2 then all else [all[|all| - 2], all[|all| - 1]]
  {
    hide Queued;
    if fs == [] {
      assert queue + fs == queue;
    } else {
      var n := |fs| - 1;
      QueueKeepsTheNewestTwo(queue, fs[..n]);
      OneMoreQueued(queue + fs[..n], fs[n]);
      assert queue + fs == queue + fs[..n] + [fs[n]];
    }
  }

  /** The figure reported as capture_pending_at_stop. */
  function PendingAtStop(st: State): (pending: nat) {
    if st.arrivals > st.consumed + st.drops then st.arrivals - st.consumed - st.drops else 0
  }

  /** At rest, with the worker between iterations, the figure is the queue length plus the failed arrivals. */
  lemma PendingAtStopIsExact(st: State, n: nat, dma: bool, frugal: bool)
    requires Reachable(st, n, dma, frugal) && !Running(st.callback) && st.consumer == Outside
    ensures PendingAtStop(st) == |st.queue| + st.failed
    ensures PendingAtStop(st) == |st.queue| <==> st.failed == 0
  {
    ReachableOk(st, n, dma, frugal);
  }

  /** A buffer that is too small fails its arrival: the figure is then one more than the queue length. */
  lemma PendingAtStopCanBeTooHigh() returns (st: State)
    ensures Reachable(st, 5, false, true) && !Running(st.callback) && st.consumer == Outside
    ensures st.failed == 1 && PendingAtStop(st) == |st.queue| + 1
  {
    hide Run;
    var start := Start(POOL_SIZE, false, true);
    var s3 := LastCallback(start, [TooSmall] + ([Return] + []));
    var s4 := Next(s3, TooSmall);
    Unfold(s3, TooSmall, [Return] + []);
    st := Next(s4, Return);
    Unfold(s4, Return, []);
    assert Run(st, []) == Some(st) by { LastUnfold(st); }
    var schedule := [BeginCallback] + ([Dequeue(0)] + ([EndDrain] + ([TooSmall] + ([Return] + []))));
    assert Run(start, schedule) == Some(st);
  }

  // ---------------------------------------------------------------------------------------------
  // Producer buffers
  // ---------------------------------------------------------------------------------------------

  /**
   * Every buffer taken has been given back once, except the one in the callback's hands and at most one in
   * quarantine; after a quarantine no callback runs again.
   */
  lemma BuffersAreGivenBack(st: State, n: nat, dma: bool, frugal: bool)
    requires Reachable(st, n, dma, frugal)
    ensures st.dequeued == st.returned + |st.outstanding| && |st.quarantined| <= 1
    ensures !Running(st.callback) ==> st.outstanding == st.quarantined
    ensures st.quarantined != {} ==> st.stopping && !Running(st.callback)
  {
    ReachableOk(st, n, dma, frugal);
  }

  /** A step that gives a buffer back gives back one that is out, and never one the GPU still reads. */
  lemma NoBufferIsReturnedWhileRead(st: State, n: nat, dma: bool, frugal: bool, step: Step, b: Buffer)
    requires Reachable(st, n, dma, frugal) && Enabled(st, step)
    requires b in st.outstanding && b !in Next(st, step).outstanding
    ensures !(st.reading.Some? && st.reading.value.0 == b)
    ensures Next(st, step).returned == st.returned + 1
  {
    hide Next, Enabled, RefsOk, ContentOk, EncoderOk, ConsumerOk, CountsOk, BuffersOk;
    ReachableOk(st, n, dma, frugal);
    ReturningStep(st, step, b);
  }

  lemma ReturningStep(st: State, step: Step, b: Buffer)
    requires Enabled(st, step) && b in st.outstanding && b !in Next(st, step).outstanding
    ensures st.callback == Draining(Some(b)) || st.callback == Returning(b)
    ensures Next(st, step).returned == st.returned + 1
  {
    hide Release, FirstFree, ReleaseOne, Acquire, ConsumerNext, ConsumerEnabled;
    if ConsumerStep(step) {
      ConsumerWritesNothing(st, step);
    } else if CallbackStep(step) {
      ReturningCallback(st, step, b);
    }
  }

  lemma ReturningCallback(st: State, step: Step, b: Buffer)
    requires CallbackStep(step) && CallbackEnabled(st, step) && b in st.outstanding
        && b !in CallbackNext(st, step).outstanding
    ensures st.callback == Draining(Some(b)) || st.callback == Returning(b)
    ensures CallbackNext(st, step).returned == st.returned + 1
  {
    hide Release, FirstFree, ReleaseOne, Acquire;
    match step
    case BeginCallback =>
    case Dequeue(_) =>
    case EndDrain =>
    case Discard =>
    case TooSmall =>
    case Throw =>
    case BeginScan =>
    case Test =>
    case GiveUp =>
    case CopyRow(_) =>
    case FinishCopy(_) =>
    case StartConvert =>
    case FinishConvert(_) =>
    case FailConvert =>
    case Catch =>
    case Push =>
    case Return =>
    case _ =>
  }

  /** A conversion is started only when nothing is pending: the pending surface always covers the only one. */
  lemma ConversionsNeverOverlap(st: State, n: nat, dma: bool, frugal: bool)
    requires Reachable(st, n, dma, frugal)
    ensures CallbackEnabled(st, StartConvert) ==> st.pending == None && st.reading == None
    ensures st.reading.Some? ==> st.pending == Some(st.reading.value.1)
  {
    hide RefsOk, ContentOk, EncoderOk, ConsumerOk, CountsOk, BuffersOk;
    ReachableOk(st, n, dma, frugal);
  }

  /** The conversions of a session as the converter sees them: `imported` is the surface of each buffer. */
  function Converting(reading: Option<(Buffer, nat)>, imported: Buffer -> nat): (running: set<V.Conversion>) {
    if reading.Some? then {V.Conversion(imported(reading.value.0), reading.value.1)} else {}
  }

  function ConverterState(st: State, imported: Buffer -> nat): (c: (Option<nat>, set<V.Conversion>)) {
    (st.pending, Converting(st.reading, imported))
  }

  /**
   * The session's steps are calls of the converter, and it always meets the converter's condition: a
   * conversion starts with nothing pending, and what is pending covers everything the GPU is doing.
   */
  lemma SessionUsesConverterSafely(st: State, n: nat, dma: bool, frugal: bool, step: Step, imported: Buffer -> nat)
    requires Reachable(st, n, dma, frugal) && Enabled(st, step)
    ensures var was, now, c := ConverterState(st, imported), ConverterState(Next(st, step), imported), st.callback;
      && V.Covered(was.0, was.1) && V.Covered(now.0, now.1)
      && match step
         case StartConvert => was.0 == None && now == V.Processed(was.0, was.1, imported(c.b), c.f, V.Unfinished)
         case FinishConvert(_) => now == V.Processed(was.0, was.1, imported(c.b), c.f, V.Finished)
         case RemoveBuffer => now == V.After(was.0, was.1, V.SettleCall)
         case Settle => now == V.After(was.0, was.1, V.SettleCall)
         case GpuDone => now.0 == was.0 && now.1 <= was.1
         case _ => now == was
  {
    hide Reachable, Inv, Next, Enabled, V.Covered;
    ConversionsNeverOverlap(st, n, dma, frugal);
    ReachableOk(st, n, dma, frugal);
    StepKeeps(st, step);
    InvCovers(st, imported);
    InvCovers(Next(st, step), imported);
    StepCallsConverter(st, step, imported);
  }

  lemma InvCovers(st: State, imported: Buffer -> nat)
    requires Inv(st)
    ensures V.Covered(st.pending, Converting(st.reading, imported))
    ensures st.callback.Converting? ==>
              st.reading == Some((st.callback.b, st.callback.f)) && st.pending == Some(st.callback.f)
    ensures st.callback.Writing? ==> st.reading == None && st.pending == None
  {
    hide RefsOk, ContentOk, EncoderOk, ConsumerOk, CountsOk, BuffersOk, ScanOk;
  }

  lemma StepCallsConverter(st: State, step: Step, imported: Buffer -> nat)
    requires Enabled(st, step)
    requires st.callback.Converting? ==>
               st.reading == Some((st.callback.b, st.callback.f)) && st.pending == Some(st.callback.f)
    requires st.callback.Writing? ==> st.reading == None && st.pending == None
    ensures var was, now, c := ConverterState(st, imported), ConverterState(Next(st, step), imported), st.callback;
      match step
      case StartConvert => was.0 == None && now == V.Processed(was.0, was.1, imported(c.b), c.f, V.Unfinished)
      case FinishConvert(_) => now == V.Processed(was.0, was.1, imported(c.b), c.f, V.Finished)
      case RemoveBuffer => now == V.After(was.0, was.1, V.SettleCall)
      case Settle => now == V.After(was.0, was.1, V.SettleCall)
      case GpuDone => now.0 == was.0 && now.1 <= was.1
      case _ => now == was
  {
    hide CallbackNext, CallbackEnabled, ConsumerNext, ConsumerEnabled, OtherNext, OtherEnabled, V.Processed, V.After;
    if CallbackStep(step) {
      CallbackCallsConverter(st, step, imported);
    } else if ConsumerStep(step) {
      ConsumerConvertsNothing(st, step);
    } else {
      OtherCallsConverter(st, step, imported);
    }
  }

  lemma ConsumerConvertsNothing(st: State, step: Step)
    requires ConsumerStep(step) && ConsumerEnabled(st, step)
    ensures ConsumerNext(st, step).pending == st.pending && ConsumerNext(st, step).reading == st.reading
  {
    hide Release, FirstFree, ReleaseOne, Acquire;
    match step
    case NextTakes =>
    case NextEmpty =>
    case BeginEncode =>
    case SkipEncode =>
    case Retain =>
    case RetainSurface =>
    case ReleaseFrame(_) =>
    case ReleaseSurface(_) =>
    case EndEncode =>
    case _ =>
  }

  lemma CallbackCallsConverter(st: State, step: Step, imported: Buffer -> nat)
    requires CallbackStep(step) && CallbackEnabled(st, step)
    requires st.callback.Converting? ==>
               st.reading == Some((st.callback.b, st.callback.f)) && st.pending == Some(st.callback.f)
    requires st.callback.Writing? ==> st.reading == None && st.pending == None
    ensures var was, now, c := ConverterState(st, imported), ConverterState(CallbackNext(st, step), imported),
        st.callback;
      match step
      case StartConvert => was.0 == None && now == V.Processed(was.0, was.1, imported(c.b), c.f, V.Unfinished)
      case FinishConvert(_) => now == V.Processed(was.0, was.1, imported(c.b), c.f, V.Finished)
      case _ => now == was
  {
    hide V.Processed, CallbackNext, CallbackEnabled;
    match step
    case StartConvert =>
      ConversionStarts(st);
      OneConversion(V.Conversion(imported(st.callback.b), st.callback.f));
    case FinishConvert(image) =>
      ConversionFinishes(st, image);
      OneConversion(V.Conversion(imported(st.callback.b), st.callback.f));
    case _ => CallbackConvertsNothing(st, step);
  }

  /** A conversion that is all the GPU does: begun, it is pending; finished, nothing is. */
  lemma OneConversion(c: V.Conversion)
    ensures V.Processed(None, {}, c.input, c.output, V.Unfinished) == (Some(c.output), {c})
    ensures V.Processed(Some(c.output), {c}, c.input, c.output, V.Finished) == (None, {})
  {
    assert {} + {c} == {c};
    assert V.Synced({c}, c.output) == {};
  }

  lemma ConversionStarts(st: State)
    requires CallbackEnabled(st, StartConvert)
    ensures var next, c := CallbackNext(st, StartConvert), st.callback;
      c.Writing? && next.pending == Some(c.f) && next.reading == Some((c.b, c.f))
  {
  }

  lemma ConversionFinishes(st: State, image: Image)
    requires CallbackEnabled(st, FinishConvert(image))
    ensures var next := CallbackNext(st, FinishConvert(image));
      st.callback.Converting? && next.pending == None && next.reading == None
  {
  }

  lemma CallbackConvertsNothing(st: State, step: Step)
    requires CallbackStep(step) && CallbackEnabled(st, step) && !step.StartConvert? && !step.FinishConvert?
    ensures CallbackNext(st, step).pending == st.pending && CallbackNext(st, step).reading == st.reading
  {
    hide Release, FirstFree, ReleaseOne, Acquire;
    match step
    case BeginCallback =>
    case Dequeue(_) =>
    case EndDrain =>
    case Discard =>
    case TooSmall =>
    case Throw =>
    case BeginScan =>
    case Test =>
    case GiveUp =>
    case CopyRow(_) =>
    case FinishCopy(_) =>
    case FailConvert =>
    case Catch =>
    case Push =>
    case Return =>
    case _ =>
  }

  lemma OtherCallsConverter(st: State, step: Step, imported: Buffer -> nat)
    requires !CallbackStep(step) && !ConsumerStep(step) && OtherEnabled(st, step)
    ensures var was, now := ConverterState(st, imported), ConverterState(OtherNext(st, step), imported);
      match step
      case RemoveBuffer => now == V.After(was.0, was.1, V.SettleCall)
      case Settle => now == V.After(was.0, was.1, V.SettleCall)
      case GpuDone => now.0 == was.0 && now.1 <= was.1
      case _ => now == was
  {
    if step.RemoveBuffer? || step.Settle? {
      if st.pending.Some? {
        SyncAgrees(st, imported);
      }
    }
  }

  lemma SyncAgrees(st: State, imported: Buffer -> nat)
    requires st.pending.Some?
    ensures Converting(SyncPending(st).reading, imported)
        == V.Synced(Converting(st.reading, imported), st.pending.value)
  {
  }

  /** The stream is destroyed only when no conversion is unsettled. */
  lemma NoConversionOutlivesTheStream(st: State, n: nat, dma: bool, frugal: bool)
    requires Reachable(st, n, dma, frugal) && st.callback == Destroyed
    ensures st.reading == None
  {
    ReachableOk(st, n, dma, frugal);
  }
}
