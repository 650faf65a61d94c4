/**
 * The capture session as the object of host/capture/capture.cpp: its loops and its queue, updated in place.
 * A ghost field follows the state machine step by step, so every state of the object is a reachable one and
 * has all the properties proved of those.
 */
module CaptureSession {
  import opened Bytes
  import opened Capture
  import opened CaptureInvariant
  import opened CaptureSafety

  /** The PipeWire stream: buffers that arrived, and buffers given back. */
  class Stream {
    var arrived: seq<Buffer>
    var givenBack: seq<Buffer>

    method Dequeue() returns (b: Option<Buffer>)
      modifies this`arrived
      ensures old(arrived) == [] ==> b == None && arrived == []
      ensures old(arrived) != [] ==> b == Some(old(arrived)[0]) && arrived == old(arrived)[1..]
    {
      if arrived == [] {
        return None;
      }
      b := Some(arrived[0]);
      arrived := arrived[1..];
    }

    method QueueBuffer(b: Buffer)
      modifies this`givenBack
      ensures givenBack == old(givenBack) + [b]
    {
      givenBack := givenBack + [b];
    }
  }

  /**
   * What consume() finds: a buffer it cannot use, memory of another type than negotiated, a buffer that is
   * too small, one that cannot be imported, a conversion that fails or times out, or an image.
   */
  datatype Verdict = Unusable | WrongMemory | Undersized | ImportFails | ConversionFails | Usable

  predicate NeedsDma(verdict: Verdict) {
    verdict.WrongMemory? || verdict.ImportFails? || verdict.ConversionFails?
  }

  class Impl {
    const dma: bool
    var refs: seq<int>
    var hwRefs: seq<int>
    var queue: seq<nat>
    var arrivals: nat
    var drops: nat
    var stopping: bool
    var error: bool
    ghost const size: nat
    ghost const frugal: bool
    ghost var machine: State

    /** The fields show a reachable state of the state machine. */
    ghost predicate Valid()
      reads this
    {
      && Reachable(machine, size, dma, frugal)
      && refs == machine.refs && hwRefs == machine.hwRefs && queue == machine.queue
      && arrivals == machine.arrivals && drops == machine.drops
      && stopping == machine.stopping && error == machine.error
    }

    constructor (n: nat, dma: bool, ghost frugal: bool)
      ensures Valid() && machine == Start(n, dma, frugal)
      ensures this.dma == dma && size == n && this.frugal == frugal
    {
      this.dma, size, this.frugal := dma, n, frugal;
      refs, hwRefs, queue := Fill(n, 1), Fill(n, 0), [];
      arrivals, drops, stopping, error := 0, 0, false, false;
      machine := Start(n, dma, frugal);
      StartIsReachable(n, dma, frugal);
    }

    /** The drain loop keeps the newest arrival; the others go back at once, in order, and count as drops. */
    method TakeNewest(stream: Stream) returns (latest: Option<Buffer>)
      modifies this`arrivals, this`drops, stream
      ensures var all := old(stream.arrived);
        && stream.arrived == [] && latest == Newest(all)
        && arrivals == old(arrivals) + |all| && drops == old(drops) + |Older(all)|
        && stream.givenBack == old(stream.givenBack) + Older(all)
      ensures var all := old(stream.arrived);
        all != [] ==>
          && latest == Some(all[|all| - 1]) && stream.givenBack == old(stream.givenBack) + all[..|all| - 1]
          && drops == old(drops) + |all| - 1
    {
      ghost var all, i := stream.arrived, 0;
      latest := None;
      var next := stream.Dequeue();
      while next.Some?
        invariant i <= |all| && latest == (if i == 0 then None else Some(all[i - 1]))
        invariant next == if i < |all| then Some(all[i]) else None
        invariant stream.arrived == if i < |all| then all[i + 1..] else []
        invariant arrivals == old(arrivals) + i && drops == old(drops) + if i == 0 then 0 else i - 1
        invariant stream.givenBack == old(stream.givenBack) + all[..if i == 0 then 0 else i - 1]
        decreases |all| - i
      {
        arrivals := arrivals + 1;
        if latest.Some? {
          stream.QueueBuffer(latest.value);
          drops := drops + 1;
        }
        latest := next;
        next := stream.Dequeue();
        i := i + 1;
      }
    }

    /** The drain loop takes the machine's steps. */
    method Drain(stream: Stream) returns (latest: Option<Buffer>)
      requires Valid() && machine.callback == Draining(None)
      requires Distinct(stream.arrived) && forall b :: b in stream.arrived ==> b !in machine.outstanding
      modifies this`arrivals, this`drops, this`machine, stream
      ensures Valid() && stream.arrived == []
      ensures machine == Drained(old(machine), old(stream.arrived)) && machine.callback == Draining(latest)
      ensures latest == Newest(old(stream.arrived))
      ensures stream.givenBack == old(stream.givenBack) + Older(old(stream.arrived))
    {
      hide Reachable, Distinct;
      DrainRuns(machine, size, dma, frugal, stream.arrived);
      ghost var next := Drained(machine, stream.arrived);
      latest := TakeNewest(stream);
      machine := next;
    }

    /** The pool scan takes a reference to the first frame that only the pool holds. */
    method TakeFree() returns (frame: Option<nat>)
      requires |refs| == |hwRefs|
      modifies this`refs
      ensures frame == FirstFree(old(refs), hwRefs, 0)
      ensures frame.Some? ==> frame.value < |old(refs)| && old(refs)[frame.value] == 1 && hwRefs[frame.value] == 0
      ensures forall f :: 0 <= f < |hwRefs| && (frame.Some? ==> f < frame.value) ==> old(refs)[f] != 1 || hwRefs[f] != 0
      ensures refs == if frame.Some? then Acquire(old(refs), frame.value) else old(refs)
    {
      var i := 0;
      while i < |refs|
        invariant i <= |refs| && FirstFree(refs, hwRefs, 0) == FirstFree(refs, hwRefs, i)
        invariant forall f :: 0 <= f < i ==> refs[f] != 1 || hwRefs[f] != 0
      {
        if refs[i] == 1 && hwRefs[i] == 0 {
          frame := Some(i);
          refs := refs[i := refs[i] + 1];
          return;
        }
        i := i + 1;
      }
      return None;
    }

    /** The queue holds at most two samples: a third one drops the oldest. */
    method Push(f: nat)
      modifies this`queue, this`drops, this`refs
      ensures queue == Queued(old(queue), f) && refs == ReleaseOne(old(refs), Oldest(old(queue)))
      ensures drops == old(drops) + if Oldest(old(queue)).Some? then 1 else 0
      ensures Oldest(old(queue)).Some? <==> |old(queue)| == 2
      ensures queue == if |old(queue)| == 2 then [old(queue)[1], f] else old(queue) + [f]
    {
      if |queue| == QUEUE_LIMIT {
        if queue[0] < |refs| {
          refs := refs[queue[0] := refs[queue[0]] - 1];
        }
        queue := queue[1..];
        drops := drops + 1;
      }
      queue := queue + [f];
    }

    /** takeLatest: the newest sample is moved out, every other one is released and counted as a drop. */
    method TakeLatest() returns (sample: Option<nat>)
      modifies this`queue, this`drops, this`refs
      ensures queue == [] && sample == Newest(old(queue))
      ensures drops == old(drops) + |Older(old(queue))| && refs == Release(old(refs), Older(old(queue)))
      ensures old(queue) != [] ==>
                sample == Some(old(queue)[|old(queue)| - 1]) && drops == old(drops) + |old(queue)| - 1
    {
      NothingReleased(refs);
      if queue == [] {
        return None;
      }
      sample := Some(queue[|queue| - 1]);
      drops := drops + |queue| - 1;
      ghost var all := queue;
      ghost var i, n := 0, |all| - 1;
      queue := queue[..|queue| - 1];
      while queue != []
        invariant i <= n && queue == all[i..n]
        invariant drops == old(drops) + n && sample == Some(all[n])
        invariant refs == Release(old(refs), all[..i])
      {
        ReleaseNext(old(refs), all[..i], queue[0]);
        assert all[..i + 1] == all[..i] + [queue[0]];
        if queue[0] < |refs| {
          refs := refs[queue[0] := refs[queue[0]] - 1];
        }
        queue := queue[1..];
        i := i + 1;
      }
      assert all[..i] == all[..n];
    }

    /** next(), once it stops waiting: the newest queued sample goes to the consumer. */
    method NextSample() returns (sample: Option<nat>)
      requires Valid() && machine.consumer == Outside
      modifies this`queue, this`drops, this`refs, this`machine
      ensures Valid() && machine.consumer == Ready && machine.callback == old(machine.callback)
      ensures sample == machine.sample == Newest(old(queue)) && queue == []
      ensures drops == old(drops) + |Older(old(queue))|
    {
      hide Reachable, Release;
      ghost var next := NextSampleStep(machine, size, dma, frugal);
      sample := TakeLatest();
      machine := next;
    }

    /**
     * consume(): one buffer becomes a queued sample, a drop, a reported error or an exception. A usable image
     * is always queued if the encoder keeps no frame and the pool has five.
     */
    method Consume(b: Buffer, verdict: Verdict, ghost image: Image) returns (thrown: bool)
      requires Valid() && machine.callback == Consuming(b)
      requires (NeedsDma(verdict) ==> dma) && (verdict.Undersized? ==> !dma)
      modifies this`queue, this`drops, this`refs, this`error, this`machine
      ensures Valid() && machine.callback == (if thrown then Failing(b) else Returning(b))
      ensures machine.outstanding == old(machine).outstanding
      ensures var free := FirstFree(old(refs), old(hwRefs), 0);
        && (thrown <==> verdict == WrongMemory || (NeedsDma(verdict) && free.Some?))
        && (if verdict == Usable && free.Some? then Newest(queue) == free && Shows(machine, free.value, image)
            else
              && queue == old(queue) && refs == old(refs)
              && drops == old(drops) + if thrown || verdict == Undersized then 0 else 1)
        && (verdict == Usable && frugal && size >= POOL_SIZE ==> free.Some?)
        && machine.reading == (if thrown && verdict == ConversionFails then Some((b, free.value))
            else old(machine).reading)
      ensures error == (old(error) || verdict == Undersized)
    {
      hide Reachable, FirstFree;
      if verdict == Unusable {
        DiscardStep(machine, size, dma, frugal);
        drops := drops + 1;
        machine := machine.(drops := drops, callback := Returning(b));
        return false;
      }
      if verdict == WrongMemory {
        ThrowStep(machine, size, dma, frugal);
        machine := machine.(callback := Failing(b));
        return true;
      }
      if verdict == Undersized {
        TooSmallStep(machine, size, dma, frugal);
        error := true;
        machine := machine.(error := true, failed := machine.failed + 1, callback := Returning(b));
        return false;
      }
      thrown := ConsumeImage(b, verdict, image);
    }

    /** The part of consume() that needs a frame. */
    method ConsumeImage(b: Buffer, verdict: Verdict, ghost image: Image) returns (thrown: bool)
      requires Valid() && machine.callback == Consuming(b)
      requires verdict == Usable || (dma && (verdict == ImportFails || verdict == ConversionFails))
      modifies this`queue, this`drops, this`refs, this`machine
      ensures Valid() && machine.callback == (if thrown then Failing(b) else Returning(b))
      ensures machine.outstanding == old(machine).outstanding
      ensures var free := FirstFree(old(refs), old(hwRefs), 0);
        && (thrown <==> verdict != Usable && free.Some?)
        && (if verdict == Usable && free.Some? then Newest(queue) == free && Shows(machine, free.value, image)
            else queue == old(queue) && refs == old(refs) && drops == old(drops) + if thrown then 0 else 1)
        && (frugal && size >= POOL_SIZE ==> free.Some?)
        && machine.reading == (if thrown && verdict == ConversionFails then Some((b, free.value))
            else old(machine).reading)
    {
      hide Reachable, FirstFree, Shows, Newest;
      var frame := ScanPool(b);
      if frame == None {
        return false;
      }
      if verdict != Usable {
        Abandon(b, frame.value, verdict == ConversionFails);
        assert refs == old(refs);
        return true;
      }
      Publish(b, frame.value, image);
      return false;
    }

    /** The scan, with its outcome on the counters. */
    method ScanPool(b: Buffer) returns (frame: Option<nat>)
      requires Valid() && machine.callback == Consuming(b)
      modifies this`drops, this`refs, this`machine
      ensures Valid() && machine.outstanding == old(machine).outstanding && machine.reading == old(machine).reading
      ensures frame == FirstFree(old(refs), old(hwRefs), 0) && (frugal && size >= POOL_SIZE ==> frame.Some?)
      ensures if frame.Some? then
                && machine.callback == Writing(b, frame.value) && drops == old(drops)
                && frame.value < |old(refs)| && refs == Acquire(old(refs), frame.value)
              else machine.callback == Returning(b) && drops == old(drops) + 1 && refs == old(refs)
    {
      hide Reachable, FirstFree, Acquire;
      ScanStep(machine, size, dma, frugal);
      var frame' := TakeFree();
      if frame' == None {
        drops := drops + 1;
      }
      machine := Scanned(machine, b, frame');
      return frame';
    }

    /** The import or the conversion into the scanned frame fails: the local reference dies with the exception. */
    method Abandon(b: Buffer, f: nat, converting: bool)
      requires Valid() && machine.callback == Writing(b, f) && dma
      modifies this`refs, this`machine
      ensures Valid() && machine.callback == Failing(b) && machine.outstanding == old(machine).outstanding
      ensures machine.reading == if converting then Some((b, f)) else old(machine).reading
      ensures refs == ReleaseOne(old(refs), Some(f))
    {
      hide Reachable;
      FailSteps(machine, size, dma, frugal, converting);
      refs := refs[f := refs[f] - 1];
      machine := Failed(machine, converting);
    }

    /** The image is written into the frame, and the frame joins the queue. */
    method Publish(b: Buffer, f: nat, ghost image: Image)
      requires Valid() && machine.callback == Writing(b, f)
      modifies this`queue, this`drops, this`refs, this`machine
      ensures Valid() && machine.callback == Returning(b) && machine.outstanding == old(machine).outstanding
      ensures machine.reading == old(machine).reading
      ensures Newest(queue) == Some(f) && Shows(machine, f, image)
    {
      hide Reachable, ReleaseOne, Oldest;
      PublishSteps(machine, size, dma, frugal, image);
      Push(f);
      machine := PublishedImage(machine, image);
    }

    /**
     * onProcess(); `locked` is whether it gets the processing lock, which the destructor may hold.
     * Every buffer goes back in the callback that took it, in order, except the newest one when
     * consume() throws on a DMA session; that one is the session's only quarantined buffer.
     */
    method OnProcess(stream: Stream, locked: bool, verdict: Verdict, ghost image: Image)
      requires Valid() && (locked ==> machine.callback == NoCallback)
      requires Distinct(stream.arrived) && forall b :: b in stream.arrived ==> b !in machine.outstanding
      requires (NeedsDma(verdict) ==> dma) && (verdict.Undersized? ==> !dma)
      modifies this, stream
      ensures Valid() && machine.callback == old(machine).callback
      ensures old(stopping) || !locked ==>
                && machine == old(machine)
                && stream.givenBack == old(stream.givenBack) && stream.arrived == old(stream.arrived)
      ensures !old(stopping) && locked ==>
                && stream.arrived == [] && arrivals == old(arrivals) + |old(stream.arrived)|
                && stream.givenBack == old(stream.givenBack)
                     + (if stopping then Older(old(stream.arrived)) else old(stream.arrived))
                && machine.outstanding == (if stopping then AsSet(Newest(old(stream.arrived))) else {})
                && (stopping ==> dma && error && old(stream.arrived) != [] && NeedsDma(verdict))
                && (verdict == WrongMemory && old(stream.arrived) != [] ==> stopping)
    {
      if stopping || !locked {
        return;
      }
      hide Valid, Distinct;
      var latest := DrainCallback(stream);
      if latest.Some? {
        HandleNewest(stream, latest.value, verdict, image);
      }
    }

    /** The callback up to the newest buffer, if any arrived. */
    method DrainCallback(stream: Stream) returns (latest: Option<Buffer>)
      requires Valid() && machine.callback == NoCallback && !stopping
      requires Distinct(stream.arrived)
      modifies this`arrivals, this`drops, this`machine, stream
      ensures Valid() && latest == Newest(old(stream.arrived))
      ensures machine.callback == (if latest.Some? then Consuming(latest.value) else NoCallback)
      ensures machine.outstanding == AsSet(latest)
      ensures stream.arrived == [] && arrivals == old(arrivals) + |old(stream.arrived)|
      ensures stream.givenBack == old(stream.givenBack) + Older(old(stream.arrived))
      ensures latest.Some? ==> Older(old(stream.arrived)) + [latest.value] == old(stream.arrived)
    {
      hide Reachable, Distinct, Drained, Newest, Older;
      BeginStep(machine, size, dma, frugal);
      machine := machine.(callback := Draining(None));
      DrainedShape(machine, stream.arrived);
      latest := Drain(stream);
      EndDrainStep(machine, size, dma, frugal);
      machine := machine.(callback := if latest.Some? then Consuming(latest.value) else NoCallback);
    }

    /** The handler of onProcess(), up to its early return. */
    method Stop(b: Buffer)
      requires Valid() && machine.callback == Failing(b)
      modifies this`stopping, this`error, this`machine
      ensures Valid() && stopping && error && machine.outstanding == old(machine).outstanding
      ensures machine.callback == if dma then NoCallback else Returning(b)
    {
      hide Reachable;
      CatchStep(machine, size, dma, frugal);
      stopping, error := true, true;
      machine := Caught(machine, b);
    }

    /** The try block of onProcess() and what follows it. */
    method HandleNewest(stream: Stream, b: Buffer, verdict: Verdict, ghost image: Image)
      requires Valid() && machine.callback == Consuming(b) && machine.outstanding == {b} && !stopping
      requires (NeedsDma(verdict) ==> dma) && (verdict.Undersized? ==> !dma)
      modifies this, stream`givenBack
      ensures Valid() && machine.callback == NoCallback && arrivals == old(arrivals)
      ensures stopping ==> dma && error && machine.outstanding == {b} && stream.givenBack == old(stream.givenBack)
      ensures stopping ==> NeedsDma(verdict)
      ensures verdict == WrongMemory ==> stopping
      ensures !stopping ==> machine.outstanding == {} && stream.givenBack == old(stream.givenBack) + [b]
    {
      hide Reachable, Shows, Newest, FirstFree;
      var thrown := Consume(b, verdict, image);
      if thrown {
        Stop(b);
        if dma {
          return;
        }
      }
      ReturnStep(machine, size, dma, frugal);
      stream.QueueBuffer(b);
      machine := machine.(outstanding := {}, returned := machine.returned + 1, callback := NoCallback);
    }
  }

  // ---------------------------------------------------------------------------------------------
  // The object and the state machine
  // ---------------------------------------------------------------------------------------------

  predicate Distinct(buffers: seq<Buffer>) {
    forall i, j :: 0 <= i < j < |buffers| ==> buffers[i] != buffers[j]
  }

  function Newest<T>(list: seq<T>): (o: Option<T>) {
    if list == [] then None else Some(list[|list| - 1])
  }

  function Older<T>(list: seq<T>): (older: seq<T>) {
    if list == [] then [] else list[..|list| - 1]
  }

  function AsSet(o: Option<Buffer>): (s: set<Buffer>) {
    if o.Some? then {o.value} else {}
  }

  predicate Shows(st: State, f: nat, image: Image) {
    f < |st.stamped| && st.stamped[f] == image
  }

  /** A draining callback after it has taken these buffers: the newest in hand, the others given back. */
  function Drained(st: State, buffers: seq<Buffer>): (next: State) {
    var n := |buffers|;
    if n == 0 then st
    else st.(arrivals := st.arrivals + n, dequeued := st.dequeued + n, drops := st.drops + n - 1,
        returned := st.returned + n - 1,
             outstanding := st.outstanding + {buffers[n - 1]}, callback := Draining(Some(buffers[n - 1])))
  }

  lemma DrainedShape(st: State, buffers: seq<Buffer>)
    ensures var next := Drained(st, buffers);
      && next.arrivals == st.arrivals + |buffers|
      && (st.outstanding == {} ==> next.outstanding == AsSet(Newest(buffers)))
    ensures Newest(buffers).Some? ==> Older(buffers) + [Newest(buffers).value] == buffers
  {
  }

  function Scanned(st: State, b: Buffer, frame: Option<nat>): (next: State)
    requires frame.Some? ==> frame.value < |st.refs|
  {
    if frame.Some? then st.(refs := Acquire(st.refs, frame.value), callback := Writing(b, frame.value))
    else st.(drops := st.drops + 1, callback := Returning(b))
  }

  lemma DrainOne(st: State, buffers: seq<Buffer>, i: nat)
    requires st.callback == Draining(None) && Distinct(buffers) && i < |buffers|
    requires forall b :: b in buffers ==> b !in st.outstanding
    ensures Enabled(Drained(st, buffers[..i]), Dequeue(buffers[i]))
    ensures Next(Drained(st, buffers[..i]), Dequeue(buffers[i])) == Drained(st, buffers[..i + 1])
    ensures buffers[..i + 1] == buffers[..i] + [buffers[i]]
    ensures Newest(buffers[..i + 1]) == Some(buffers[i])
    ensures Older(buffers[..i + 1]) == Older(buffers[..i]) + if i == 0 then [] else [buffers[i - 1]]
  {
    assert buffers[i] in buffers;
    if i > 0 {
      assert buffers[i - 1] in buffers && buffers[i - 1] != buffers[i];
      assert buffers[..i][i - 1] == buffers[i - 1];
      assert Exchanged(st.outstanding + {buffers[i - 1]}, Some(buffers[i - 1]), buffers[i]) == st.outstanding
          + {buffers[i]};
    }
  }

  lemma StartIsReachable(n: nat, dma: bool, frugal: bool)
    ensures Reachable(Start(n, dma, frugal), n, dma, frugal)
  {
    assert Run(Start(n, dma, frugal), []) == Some(Start(n, dma, frugal));
  }

  lemma NextIsReachable(st: State, n: nat, dma: bool, frugal: bool, step: Step)
    requires Reachable(st, n, dma, frugal) && Enabled(st, step)
    ensures Reachable(Next(st, step), n, dma, frugal)
  {
    hide Run, Next, Enabled;
    var schedule :| Run(Start(n, dma, frugal), schedule) == Some(st);
    RunSnoc(Start(n, dma, frugal), schedule, step);
    assert Run(Start(n, dma, frugal), schedule + [step]) == Some(Next(st, step));
  }

  lemma {:induction false} RunSnoc(st: State, schedule: seq<Step>, step: Step)
    requires Run(st, schedule).Some? && Enabled(Run(st, schedule).value, step)
    ensures Run(st, schedule + [step]) == Some(Next(Run(st, schedule).value, step))
    decreases schedule
  {
    hide Next, Enabled;
    if schedule == [] {
      assert schedule + [step] == [step] && [step][1..] == [];
    } else {
      assert (schedule + [step])[1..] == schedule[1..] + [step];
      RunSnoc(Next(st, schedule[0]), schedule[1..], step);
    }
  }

  /** Between callbacks of a session that goes on, no buffer is out. */
  lemma NothingOut(st: State, n: nat, dma: bool, frugal: bool)
    requires Reachable(st, n, dma, frugal) && st.callback == NoCallback && !st.stopping
    ensures st.outstanding == {}
  {
    BuffersAreGivenBack(st, n, dma, frugal);
  }

  lemma ReachableShape(st: State, n: nat, dma: bool, frugal: bool)
    requires Reachable(st, n, dma, frugal)
    ensures |st.refs| == |st.hwRefs| == |st.contents| == |st.stamped| == n && st.dma == dma && st.frugal == frugal
  {
    ReachableOk(st, n, dma, frugal);
  }

  lemma WritingInPool(st: State, n: nat, dma: bool, frugal: bool)
    requires Reachable(st, n, dma, frugal) && st.callback.Writing?
    ensures st.callback.f < n
  {
    ReachableOk(st, n, dma, frugal);
    HeldIsInPool(st.refs, st.hwRefs, Held(st), Own(st.callback), st.callback.f);
  }

  lemma ConsumerHasNothing(st: State, n: nat, dma: bool, frugal: bool)
    requires Reachable(st, n, dma, frugal) && st.consumer == Outside
    ensures st.sample == None
  {
    ReachableOk(st, n, dma, frugal);
  }

  lemma FrugalFindsFrame(st: State, n: nat, dma: bool)
    requires Reachable(st, n, dma, true) && st.callback.Consuming? && n >= POOL_SIZE
    ensures FirstFree(st.refs, st.hwRefs, 0).Some?
  {
    FrugalEncoderKeepsNone(st, n, dma);
    ScanFindsFrame(st, n, dma, true, []);
  }

  lemma {:induction false} DrainRuns(st: State, n: nat, dma: bool, frugal: bool, buffers: seq<Buffer>)
    requires Reachable(st, n, dma, frugal) && st.callback == Draining(None) && Distinct(buffers)
    requires forall b :: b in buffers ==> b !in st.outstanding
    ensures Reachable(Drained(st, buffers), n, dma, frugal)
    decreases |buffers|
  {
    hide Reachable, Next, Enabled, Drained;
    var last := |buffers| - 1;
    if last >= 0 {
      DrainRuns(st, n, dma, frugal, buffers[..last]);
      DrainOne(st, buffers, last);
      NextIsReachable(Drained(st, buffers[..last]), n, dma, frugal, Dequeue(buffers[last]));
      assert buffers[..last + 1] == buffers;
    } else {
      NothingDrained(st);
    }
  }

  lemma NothingDrained(st: State)
    ensures Drained(st, []) == st
  {
  }

  // Steps of the machine from a reachable state

  lemma BeginStep(st: State, n: nat, dma: bool, frugal: bool)
    requires Reachable(st, n, dma, frugal) && st.callback == NoCallback && !st.stopping
    ensures Reachable(st.(callback := Draining(None)), n, dma, frugal) && st.outstanding == {}
  {
    hide Reachable;
    NothingOut(st, n, dma, frugal);
    NextIsReachable(st, n, dma, frugal, BeginCallback);
  }

  lemma EndDrainStep(st: State, n: nat, dma: bool, frugal: bool)
    requires Reachable(st, n, dma, frugal) && st.callback.Draining?
    ensures var latest := st.callback.latest;
      Reachable(st.(callback := if latest.Some? then Consuming(latest.value) else NoCallback), n, dma, frugal)
  {
    hide Reachable;
    NextIsReachable(st, n, dma, frugal, EndDrain);
  }

  lemma DiscardStep(st: State, n: nat, dma: bool, frugal: bool)
    requires Reachable(st, n, dma, frugal) && st.callback.Consuming?
    ensures Reachable(st.(drops := st.drops + 1, callback := Returning(st.callback.b)), n, dma, frugal)
  {
    hide Reachable;
    NextIsReachable(st, n, dma, frugal, Discard);
  }

  lemma ThrowStep(st: State, n: nat, dma: bool, frugal: bool)
    requires Reachable(st, n, dma, frugal) && st.callback.Consuming?
    ensures Reachable(st.(callback := Failing(st.callback.b)), n, dma, frugal)
  {
    hide Reachable;
    NextIsReachable(st, n, dma, frugal, Throw);
  }

  lemma TooSmallStep(st: State, n: nat, dma: bool, frugal: bool)
    requires Reachable(st, n, dma, frugal) && st.callback.Consuming? && !dma
    ensures Reachable(st.(error := true, failed := st.failed + 1, callback := Returning(st.callback.b)), n, dma, frugal)
  {
    hide Reachable;
    ReachableShape(st, n, dma, frugal);
    NextIsReachable(st, n, dma, frugal, TooSmall);
  }

  /** The scan finds a frame for a usable image if the encoder keeps none and the pool has five. */
  lemma ScanStep(st: State, n: nat, dma: bool, frugal: bool)
    requires Reachable(st, n, dma, frugal) && st.callback.Consuming?
    ensures Reachable(Scanned(st, st.callback.b, FirstFree(st.refs, st.hwRefs, 0)), n, dma, frugal)
    ensures |st.refs| == |st.hwRefs| && (frugal && n >= POOL_SIZE ==> FirstFree(st.refs, st.hwRefs, 0).Some?)
  {
    hide Reachable, FirstFree, Acquire;
    ReachableShape(st, n, dma, frugal);
    if frugal && n >= POOL_SIZE {
      FrugalFindsFrame(st, n, dma);
    }
    NextIsReachable(st, n, dma, frugal, BeginScan);
    TestSteps(st.(callback := Scanning(st.callback.b, 0)), n, dma, frugal);
  }

  /** Test by test, the machine comes to where the loop ends. */
  lemma {:induction false} TestSteps(st: State, n: nat, dma: bool, frugal: bool)
    requires Reachable(st, n, dma, frugal) && st.callback.Scanning? && st.callback.i <= |st.refs|
    ensures Reachable(Scanned(st, st.callback.b, FirstFree(st.refs, st.hwRefs, st.callback.i)), n, dma, frugal)
    decreases |st.refs| - st.callback.i
  {
    hide Reachable, Acquire, IsFree;
    var c := st.callback;
    if c.i == |st.refs| {
      NextIsReachable(st, n, dma, frugal, GiveUp);
    } else {
      NextIsReachable(st, n, dma, frugal, Test);
      if !IsFree(st.refs, st.hwRefs, c.i) {
        TestSteps(st.(callback := Scanning(c.b, c.i + 1)), n, dma, frugal);
      }
    }
  }

  /** The state after an import, or a conversion the GPU may still be busy with, has failed. */
  function Failed(st: State, converting: bool): (next: State)
    requires st.callback.Writing?
  {
    var c := st.callback;
    var released := st.(refs := ReleaseOne(st.refs, Some(c.f)), callback := Failing(c.b));
    if converting then released.(pending := Some(c.f), reading := Some((c.b, c.f))) else released
  }

  lemma FailSteps(st: State, n: nat, dma: bool, frugal: bool, converting: bool)
    requires Reachable(st, n, dma, frugal) && st.callback.Writing? && dma
    ensures Reachable(Failed(st, converting), n, dma, frugal) && st.callback.f < |st.refs|
  {
    hide Reachable, ReleaseOne;
    ReachableShape(st, n, dma, frugal);
    WritingInPool(st, n, dma, frugal);
    if converting {
      NextIsReachable(st, n, dma, frugal, StartConvert);
      NextIsReachable(Next(st, StartConvert), n, dma, frugal, FailConvert);
    } else {
      NextIsReachable(st, n, dma, frugal, Throw);
    }
  }

  /** The state after the callback's frame got its image and joined the queue. */
  function PublishedImage(st: State, image: Image): (next: State)
    requires st.callback.Writing? && st.callback.f < |st.contents| && st.callback.f < |st.stamped|
  {
    var f := st.callback.f;
    var lost := Oldest(st.queue);
    st.(contents := st.contents[f := image], stamped := st.stamped[f := image], callback := Returning(st.callback.b),
        queue := Queued(st.queue, f), drops := st.drops + (if lost.Some? then 1 else 0),
            refs := ReleaseOne(st.refs, lost))
  }

  lemma PublishSteps(st: State, n: nat, dma: bool, frugal: bool, image: Image)
    requires Reachable(st, n, dma, frugal) && st.callback.Writing?
    ensures st.callback.f < |st.contents| && st.callback.f < |st.stamped|
    ensures Reachable(PublishedImage(st, image), n, dma, frugal)
  {
    hide Reachable, Queued, Oldest, ReleaseOne;
    ReachableShape(st, n, dma, frugal);
    WritingInPool(st, n, dma, frugal);
    var f := st.callback.f;
    var full := st.(contents := st.contents[f := image], stamped := st.stamped[f := image],
        callback := Pushing(st.callback.b, f));
    WrittenSteps(st, n, dma, frugal, image, full);
    NextIsReachable(full, n, dma, frugal, Step.Push);
  }

  lemma WrittenSteps(st: State, n: nat, dma: bool, frugal: bool, image: Image, full: State)
    requires Reachable(st, n, dma, frugal) && st.callback.Writing?
    requires st.dma == dma && st.callback.f < |st.contents| && st.callback.f < |st.stamped|
    requires var f := st.callback.f;
      full == st.(contents := st.contents[f := image], stamped := st.stamped[f := image],
          callback := Pushing(st.callback.b, f))
    ensures Reachable(full, n, dma, frugal)
  {
    hide Reachable;
    if dma {
      NothingPending(st, n, dma, frugal);
      NextIsReachable(st, n, dma, frugal, StartConvert);
      NextIsReachable(Next(st, StartConvert), n, dma, frugal, FinishConvert(image));
    } else {
      NextIsReachable(st, n, dma, frugal, FinishCopy(image));
    }
  }

  lemma NothingPending(st: State, n: nat, dma: bool, frugal: bool)
    requires Reachable(st, n, dma, frugal) && st.callback.Writing? && st.dma
    ensures st.pending == None && st.reading == None
  {
    ConversionsNeverOverlap(st, n, dma, frugal);
  }

  lemma CatchStep(st: State, n: nat, dma: bool, frugal: bool)
    requires Reachable(st, n, dma, frugal) && st.callback.Failing?
    ensures Reachable(Caught(st, st.callback.b), n, dma, frugal) && st.dma == dma
  {
    hide Reachable;
    ReachableShape(st, n, dma, frugal);
    NextIsReachable(st, n, dma, frugal, Catch);
  }

  lemma ReturnStep(st: State, n: nat, dma: bool, frugal: bool)
    requires Reachable(st, n, dma, frugal) && st.callback.Returning? && st.outstanding == {st.callback.b}
    ensures Reachable(st.(outstanding := {}, returned := st.returned + 1, callback := NoCallback), n, dma, frugal)
  {
    hide Reachable;
    NextIsReachable(st, n, dma, frugal, Return);
    assert Without({st.callback.b}, st.callback.b) == {};
  }

  lemma NextSampleStep(st: State, n: nat, dma: bool, frugal: bool) returns (next: State)
    requires Reachable(st, n, dma, frugal) && st.consumer == Outside
    ensures Reachable(next, n, dma, frugal) && next.consumer == Ready && next.callback == st.callback
    ensures next.hwRefs == st.hwRefs && next.arrivals == st.arrivals && next.stopping == st.stopping
        && next.error == st.error
    ensures next.queue == [] && next.sample == Newest(st.queue)
    ensures next.drops == st.drops + |Older(st.queue)| && next.refs == Release(st.refs, Older(st.queue))
  {
    hide Reachable, Release;
    ConsumerHasNothing(st, n, dma, frugal);
    if st.queue == [] {
      NextIsReachable(st, n, dma, frugal, NextEmpty);
      next := Next(st, NextEmpty);
      NothingReleased(st.refs);
    } else {
      NextIsReachable(st, n, dma, frugal, NextTakes);
      next := Next(st, NextTakes);
    }
  }
}
