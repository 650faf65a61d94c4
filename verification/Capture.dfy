/**
 * The capture session of host/capture/capture.cpp with its consumer, the worker loop of
 * host/stream_main.cpp, as one state machine: the PipeWire callback and the consumer interleave step by
 * step. Frames are reference counted as std::shared_ptr does; producer buffers must go back to PipeWire;
 * a GPU conversion may time out while it still reads its buffer.
 */
module Capture {
  import opened Bytes

  const POOL_SIZE: nat := 5
  const QUEUE_LIMIT: nat := 2

  type Image = int
  type Buffer = int

  /** Where the callback stands. `f` is the callback's own reference to a pool frame. */
  datatype Callback =
    | NoCallback
    | Draining(latest: Option<Buffer>)
    | Consuming(b: Buffer)
    | Scanning(b: Buffer, i: nat)  // about to test frame i of the pool
    | Writing(b: Buffer, f: nat)
    | Converting(b: Buffer, f: nat)
    | Pushing(b: Buffer, f: nat)
    | Failing(b: Buffer)  // an exception is on its way to the handler
    | Returning(b: Buffer)
    // the destructor, holding the processing lock
    | Settling
    | Destroyed

  /** Where the consumer stands: outside next(), with the result of next(), inside encode(). */
  datatype Consumer = Outside | Ready | Encoding

  /**
   * refs is use_count, hwRefs the references an encoder holds on a frame's GPU surface. History: stamped is
   * the image a frame was published with, handed the samples next() returned, failed the arrivals that
   * ended in a reported error, dequeued and returned the buffers taken from and given back to PipeWire.
   */
  datatype State = State(
    dma: bool, frugal: bool,
    refs: seq<int>, hwRefs: seq<int>, contents: seq<Image>, stamped: seq<Image>,
    queue: seq<nat>, callback: Callback, stopping: bool, error: bool,
    arrivals: nat, drops: nat, handed: nat, failed: nat,
    consumer: Consumer, sample: Option<nat>, mapped: Option<nat>, last: Option<nat>, consumed: nat, repeated: nat,
    encoder: seq<nat>, encoderHw: seq<nat>,
    outstanding: set<Buffer>, quarantined: set<Buffer>, dequeued: nat, returned: nat,
    pending: Option<nat>, reading: Option<(Buffer, nat)>)

  function Fill<T>(n: nat, v: T): (s: seq<T>) {
    seq(n, i => v)
  }

  /** A new session; a frugal encoder keeps no frame once encode() has returned. */
  function Start(n: nat, dma: bool, frugal: bool): (st: State) {
    State(dma, frugal, Fill(n, 1), Fill(n, 0), Fill(n, 0), Fill(n, 0), [], NoCallback, false, false,
          0, 0, 0, 0, Outside, None, None, None, 0, 0, [], [], {}, {}, 0, 0, None, None)
  }

  // ---------------------------------------------------------------------------------------------
  // Operations
  // ---------------------------------------------------------------------------------------------

  function Acquire(refs: seq<int>, f: nat): (r: seq<int>)
    requires f < |refs|
    ensures |r| == |refs|
  {
    refs[f := refs[f] + 1]
  }

  /** How often f occurs. */
  function Count(fs: seq<nat>, f: nat): (n: nat) {
    if fs == [] then 0 else Count(fs[..|fs| - 1], f) + (if fs[|fs| - 1] == f then 1 else 0)
  }

  /** One reference fewer for every entry of fs. */
  function Release(refs: seq<int>, fs: seq<nat>): (r: seq<int>)
    ensures |r| == |refs|
  {
    seq(|refs|, f requires 0 <= f < |refs| => refs[f] - Count(fs, f))
  }

  function ReleaseOne(refs: seq<int>, o: Option<nat>): (r: seq<int>)
    ensures |r| == |refs|
  {
    if o.Some? && o.value < |refs| then refs[o.value := refs[o.value] - 1] else refs
  }

  /** The callback's own reference. */
  function Own(c: Callback): (o: Option<nat>) {
    if c.Writing? || c.Converting? || c.Pushing? then Some(c.f) else None
  }

  /** The test of the pool scan: the pool holds the only reference, and no encoder holds the surface. */
  predicate IsFree(refs: seq<int>, hwRefs: seq<int>, f: nat) {
    f < |refs| && f < |hwRefs| && refs[f] == 1 && hwRefs[f] == 0
  }

  /** What a scan from i on finds when nobody else moves. */
  function FirstFree(refs: seq<int>, hwRefs: seq<int>, i: nat): (r: Option<nat>)
    ensures r.Some? ==> IsFree(refs, hwRefs, r.value)
    ensures r == None ==> forall f :: i <= f < |refs| ==> !IsFree(refs, hwRefs, f)
    decreases |refs| - i
  {
    if i >= |refs| then None else if IsFree(refs, hwRefs, i) then Some(i) else FirstFree(refs, hwRefs, i + 1)
  }

  /** takeLatest on a queue that is not empty: the newest is kept, the others are dropped. */
  function TakeLatest(st: State): (next: State)
    requires st.queue != []
  {
    var n := |st.queue| - 1;
    st.(sample := Some(st.queue[n]), queue := [], drops := st.drops + n, refs := Release(st.refs, st.queue[..n]),
        handed := st.handed + 1)
  }

  /** The end of consume: a full queue loses its oldest entry first. */
  function Queued(queue: seq<nat>, f: nat): (next: seq<nat>) {
    if |queue| == QUEUE_LIMIT then queue[1..] + [f] else queue + [f]
  }

  function Oldest(queue: seq<nat>): (o: Option<nat>) {
    if |queue| == QUEUE_LIMIT then Some(queue[0]) else None
  }

  function Pushed(st: State, f: nat): (next: State) {
    var lost := Oldest(st.queue);
    st.(queue := Queued(st.queue, f), drops := st.drops + (if lost.Some? then 1 else 0),
        refs := ReleaseOne(st.refs, lost))
  }

  /** The handler of onProcess: the session stops, and a DMA buffer is not given back. */
  function Caught(st: State, b: Buffer): (next: State) {
    var stopped := st.(stopping := true, error := true, failed := st.failed + 1);
    if st.dma then stopped.(quarantined := st.quarantined + {b}, callback := NoCallback)
    else stopped.(callback := Returning(b))
  }

  function Without(outstanding: set<Buffer>, b: Buffer): (next: set<Buffer>) {
    outstanding - {b}
  }

  /** The drain loop holds one buffer: the older one goes back when b is taken. */
  function Exchanged(outstanding: set<Buffer>, older: Option<Buffer>, b: Buffer): (next: set<Buffer>) {
    (if older.Some? then Without(outstanding, older.value) else outstanding) + {b}
  }

  // ---------------------------------------------------------------------------------------------
  // Steps
  // ---------------------------------------------------------------------------------------------

  datatype Step =
    // onProcess
    | BeginCallback
    | Dequeue(b: Buffer)
    | EndDrain
    | Discard
    | TooSmall
    | Throw
    | BeginScan
    | Test
    | GiveUp
    | CopyRow(partial: Image)
    | FinishCopy(image: Image)
    | StartConvert
    | FinishConvert(image: Image)
    | FailConvert
    | Catch
    | Push
    | Return
    // the GPU, PipeWire's control loop, the destructor
    | GpuWrite(partial: Image)
    | GpuDone
    | RemoveBuffer
    | StreamError
    | RequestStop
    | BeginDestroy
    | Settle
    // the consumer and its encoder
    | NextTakes
    | NextEmpty
    | BeginEncode
    | SkipEncode
    | Retain
    | RetainSurface
    | ReleaseFrame(i: nat)
    | ReleaseSurface(i: nat)
    | EndEncode

  predicate CallbackStep(step: Step) {
    step.BeginCallback? || step.Dequeue? || step.EndDrain? || step.Discard? || step.TooSmall? || step.Throw?
    || step.BeginScan? || step.Test? || step.GiveUp? || step.CopyRow? || step.FinishCopy? || step.StartConvert?
    || step.FinishConvert? || step.FailConvert? || step.Catch? || step.Push?
    || step.Return?
  }

  predicate ConsumerStep(step: Step) {
    step.NextTakes? || step.NextEmpty? || step.BeginEncode? || step.SkipEncode? || step.Retain? || step.RetainSurface?
    || step.ReleaseFrame? || step.ReleaseSurface? || step.EndEncode?
  }

  predicate CallbackEnabled(st: State, step: Step)
    requires CallbackStep(step)
  {
    var c := st.callback;
    match step
    case BeginCallback => c == NoCallback && !st.stopping
    case Dequeue(b) => c.Draining? && b !in st.outstanding
    case EndDrain => c.Draining?
    case Discard => c.Consuming?
    case TooSmall => c.Consuming? && !st.dma
    // wrong memory type, failed import, or a failure before the conversion is submitted
    case Throw => c.Consuming? || (c.Writing? && st.dma)
    case BeginScan => c.Consuming?
    case Test => c.Scanning? && c.i < |st.refs|
    case GiveUp => c.Scanning? && c.i >= |st.refs|
    case CopyRow(_) => c.Writing? && !st.dma && c.f < |st.contents|
    case FinishCopy(_) => c.Writing? && !st.dma && c.f < |st.contents| && c.f < |st.stamped|
    case StartConvert => c.Writing? && st.dma
    case FinishConvert(_) => c.Converting? && c.f < |st.contents| && c.f < |st.stamped|
    // the conversion fails or times out: the GPU may still be reading the buffer
    case FailConvert => c.Converting?
    case Catch => c.Failing?
    case Push => c.Pushing?
    case Return => c.Returning?
  }

  function CallbackNext(st: State, step: Step): (next: State)
    requires CallbackStep(step) && CallbackEnabled(st, step)
  {
    var c := st.callback;
    match step
    case BeginCallback => st.(callback := Draining(None))
    case Dequeue(b) =>
      var older := if c.latest.Some? then 1 else 0;
      st.(arrivals := st.arrivals + 1, drops := st.drops + older, callback := Draining(Some(b)),
          dequeued := st.dequeued + 1, returned := st.returned + older,
          outstanding := Exchanged(st.outstanding, c.latest, b))
    case EndDrain => st.(callback := if c.latest.Some? then Consuming(c.latest.value) else NoCallback)
    case Discard => st.(drops := st.drops + 1, callback := Returning(c.b))
    case TooSmall => st.(error := true, failed := st.failed + 1, callback := Returning(c.b))
    case Throw => st.(refs := ReleaseOne(st.refs, Own(c)), callback := Failing(c.b))
    case BeginScan => st.(callback := Scanning(c.b, 0))
    case Test =>
      if IsFree(st.refs, st.hwRefs, c.i) then st.(refs := Acquire(st.refs, c.i), callback := Writing(c.b, c.i))
      else st.(callback := Scanning(c.b, c.i + 1))
    case GiveUp => st.(drops := st.drops + 1, callback := Returning(c.b))
    case CopyRow(partial) => st.(contents := st.contents[c.f := partial])
    case FinishCopy(image) =>
      st.(contents := st.contents[c.f := image], stamped := st.stamped[c.f := image], callback := Pushing(c.b, c.f))
    case StartConvert => st.(pending := Some(c.f), reading := Some((c.b, c.f)), callback := Converting(c.b, c.f))
    case FinishConvert(image) =>
      st.(contents := st.contents[c.f := image], stamped := st.stamped[c.f := image], pending := None, reading := None,
          callback := Pushing(c.b, c.f))
    case FailConvert => st.(refs := ReleaseOne(st.refs, Own(c)), callback := Failing(c.b))
    case Catch => Caught(st, c.b)
    case Push => Pushed(st, c.f).(callback := Returning(c.b))
    case Return => st.(outstanding := Without(st.outstanding, c.b), returned := st.returned + 1, callback := NoCallback)
  }

  predicate ConsumerEnabled(st: State, step: Step)
    requires ConsumerStep(step)
  {
    match step
    case NextTakes => st.consumer == Outside && st.queue != []
    case NextEmpty => st.consumer == Outside && st.queue == []
    case BeginEncode => st.consumer == Ready && (st.sample.Some? || st.last.Some?)
    case SkipEncode => st.consumer == Ready && st.sample == None
    case Retain => st.consumer == Encoding && st.mapped.Some? && st.mapped.value < |st.refs|
    case RetainSurface => st.consumer == Encoding && st.mapped.Some? && st.mapped.value < |st.hwRefs|
    case ReleaseFrame(i) => i < |st.encoder|
    case ReleaseSurface(i) => i < |st.encoderHw|
    case EndEncode =>
      && st.consumer == Encoding && st.mapped.Some?
      && (st.frugal ==> st.encoder == [] && st.encoderHw == [])
  }

  function ConsumerNext(st: State, step: Step): (next: State)
    requires ConsumerStep(step) && ConsumerEnabled(st, step)
  {
    match step
    case NextTakes => TakeLatest(st).(consumer := Ready)
    case NextEmpty => st.(consumer := Ready)
    case BeginEncode =>
      var frame := if st.sample.Some? then st.sample.value else st.last.value;
      st.(consumer := Encoding, mapped := Some(frame), refs := if frame < |st.refs| then Acquire(st.refs, frame)
          else st.refs)
    case SkipEncode => st.(consumer := Outside)
    case Retain => st.(encoder := st.encoder + [st.mapped.value], refs := Acquire(st.refs, st.mapped.value))
    case RetainSurface => st.(encoderHw := st.encoderHw + [st.mapped.value],
        hwRefs := Acquire(st.hwRefs, st.mapped.value))
    case ReleaseFrame(i) =>
      st.(encoder := st.encoder[..i] + st.encoder[i + 1..], refs := ReleaseOne(st.refs, Some(st.encoder[i])))
    case ReleaseSurface(i) =>
      st.(encoderHw := st.encoderHw[..i] + st.encoderHw[i + 1..],
          hwRefs := ReleaseOne(st.hwRefs, Some(st.encoderHw[i])))
    case EndEncode =>
      var done := st.(consumer := Outside, mapped := None, refs := ReleaseOne(st.refs, st.mapped));
      if st.sample.Some? then
        done.(last := st.sample, sample := None, refs := ReleaseOne(done.refs, st.last), consumed := st.consumed + 1)
      else done.(repeated := st.repeated + 1)
  }

  predicate OtherEnabled(st: State, step: Step) {
    match step
    // a conversion in progress, or one that timed out, writes its frame until it is done
    case GpuWrite(_) => st.reading.Some? && st.reading.value.1 < |st.contents|
    case GpuDone => st.reading.Some? && !st.callback.Converting?
    case RemoveBuffer => !st.stopping && !st.callback.Converting?
    case StreamError => true
    // a changed format, or the first statement of the destructor
    case RequestStop => true
    case BeginDestroy => st.callback == NoCallback
    case Settle => st.callback == Settling
    case _ => false
  }

  function OtherNext(st: State, step: Step): (next: State)
    requires OtherEnabled(st, step)
  {
    match step
    case GpuWrite(partial) => st.(contents := st.contents[st.reading.value.1 := partial])
    case GpuDone => st.(reading := None)
    case RemoveBuffer => if st.pending.Some? then SyncPending(st) else st
    case StreamError => st.(error := true)
    case RequestStop => st.(stopping := true)
    case BeginDestroy => st.(stopping := true, callback := Settling)
    case Settle => (if st.pending.Some? then SyncPending(st) else st).(callback := Destroyed)
    case _ => st
  }

  /** vaSyncSurface on the pending surface waits for the conversion that writes it, and for no other. */
  function SyncPending(st: State): (next: State)
    requires st.pending.Some?
  {
    st.(pending := None, reading := if st.reading.Some? && st.reading.value.1 == st.pending.value then None
        else st.reading)
  }

  predicate Enabled(st: State, step: Step) {
    if CallbackStep(step) then CallbackEnabled(st, step)
    else if ConsumerStep(step) then ConsumerEnabled(st, step)
    else OtherEnabled(st, step)
  }

  function Next(st: State, step: Step): (next: State)
    requires Enabled(st, step)
  {
    if CallbackStep(step) then CallbackNext(st, step)
    else if ConsumerStep(step) then ConsumerNext(st, step)
    else OtherNext(st, step)
  }

  /** Where a schedule leads from st, if all its steps are enabled in turn. */
  function Run(st: State, schedule: seq<Step>): (r: Option<State>)
    decreases schedule
  {
    if schedule == [] then Some(st)
    else if Enabled(st, schedule[0]) then Run(Next(st, schedule[0]), schedule[1..])
    else None
  }

  // ---------------------------------------------------------------------------------------------
  // Invariants
  // ---------------------------------------------------------------------------------------------

  /** Everything outside the pool and the callback that holds a frame, or its GPU surface. */
  datatype Holdings = Holdings(
    queue: seq<nat>, sample: Option<nat>, mapped: Option<nat>, last: Option<nat>, encoder: seq<nat>, surfaces: seq<nat>)

  function Held(st: State): (h: Holdings) {
    Holdings(st.queue, st.sample, st.mapped, st.last, st.encoder, st.encoderHw)
  }

  function One(o: Option<nat>, f: nat): (n: nat) {
    if o == Some(f) then 1 else 0
  }

  /** How many references to frame f there are. */
  function Uses(h: Holdings, f: nat): (n: nat) {
    Count(h.queue, f) + One(h.sample, f) + One(h.mapped, f) + One(h.last, f) + Count(h.encoder, f)
  }

  predicate IsHeld(h: Holdings, f: nat) {
    Uses(h, f) > 0 || Count(h.surfaces, f) > 0
  }

  /** use_count is exact: one for the pool, one for each holder, one for the callback. */
  ghost predicate RefsOk(refs: seq<int>, hwRefs: seq<int>, h: Holdings, own: Option<nat>) {
    && |refs| == |hwRefs|
    && (forall f: nat :: f < |refs| ==> refs[f] == 1 + Uses(h, f) + One(own, f) && hwRefs[f] == Count(h.surfaces, f))
    && (forall f: nat :: f >= |refs| ==> Uses(h, f) == 0 && One(own, f) == 0 && Count(h.surfaces, f) == 0)
  }

  /** The callback's frame once it is complete. */
  function Complete(c: Callback): (o: Option<nat>) {
    if c.Pushing? then Some(c.f) else None
  }

  /** The frame that is being written: the callback's, or that of a conversion that timed out. */
  function Written(c: Callback, reading: Option<(Buffer, nat)>): (o: Option<nat>) {
    if Own(c).Some? || reading == None then Own(c) else Some(reading.value.1)
  }

  /** The frame being written is held by nobody else, and every held frame shows what it was published with. */
  ghost predicate ContentOk(contents: seq<Image>, stamped: seq<Image>, h: Holdings, written: Option<nat>,
      complete: Option<nat>) {
    && |contents| == |stamped|
    && (written.Some? ==> !IsHeld(h, written.value))
    && (forall f: nat :: f < |contents| && (IsHeld(h, f) || complete == Some(f)) ==> contents[f] == stamped[f])
  }

  predicate ConsumerOk(consumer: Consumer, sample: Option<nat>, mapped: Option<nat>, last: Option<nat>) {
    && (consumer == Outside ==> sample == None)
    && (mapped.Some? <==> consumer == Encoding)
    && (mapped.Some? ==> mapped == if sample.Some? then sample else last)
  }

  /** A frugal encoder holds at most the frame it is encoding. */
  ghost predicate EncoderOk(frugal: bool, mapped: Option<nat>, encoder: seq<nat>, surfaces: seq<nat>) {
    frugal ==> forall f: nat :: Count(encoder, f) > 0 || Count(surfaces, f) > 0 ==> mapped == Some(f)
  }

  /** While the scan goes on, a frame it has not tested yet is free, if the encoder keeps none and there are five. */
  ghost predicate ScanOk(c: Callback, frugal: bool, n: nat, h: Holdings) {
    c.Scanning? && frugal && n >= POOL_SIZE ==> exists f: nat :: c.i <= f < n && !IsHeld(h, f)
  }

  /** Arrivals the callback has taken and not yet accounted for. */
  function InHand(c: Callback): (n: nat) {
    if (c.Draining? && c.latest.Some?) || c.Consuming? || c.Scanning?
       || c.Writing? || c.Converting? || c.Pushing? || c.Failing? then 1 else 0
  }

  predicate CountsOk(arrivals: nat, drops: nat, handed: nat, queued: nat, failed: nat, inHand: nat) {
    arrivals == drops + handed + queued + failed + inHand
  }

  /** The buffer the callback holds. */
  function Carried(c: Callback): (bs: set<Buffer>) {
    if c.Draining? && c.latest.Some? then {c.latest.value}
    else if c.Consuming? || c.Scanning? || c.Writing? || c.Converting? || c.Pushing? || c.Failing? || c.Returning?
        then {c.b}
    else {}
  }

  /** Buffers taken and not given back: the callback's, and at most one in quarantine. */
  ghost predicate BuffersOk(outstanding: set<Buffer>, quarantined: set<Buffer>, carried: set<Buffer>, dequeued: nat,
      returned: nat) {
    && outstanding == carried + quarantined
    && carried !! quarantined
    && |quarantined| <= 1
    && dequeued == returned + |outstanding|
  }

  predicate Running(c: Callback) {
    c != NoCallback && c != Settling && c != Destroyed
  }

  /** After a quarantine the session has stopped for good. */
  predicate QuarantineOk(quarantined: set<Buffer>, stopping: bool, running: bool) {
    quarantined != {} ==> stopping && !running
  }

  /**
   * An unsettled conversion is always the pending one, and its buffer is still in the callback's hands or in
   * quarantine. Once the stream is destroyed no conversion is unsettled.
   */
  predicate GpuOk(c: Callback, dma: bool, pending: Option<nat>, reading: Option<(Buffer, nat)>, stopping: bool,
      quarantined: set<Buffer>) {
    && (c.Converting? ==> dma && pending == Some(c.f) && reading == Some((c.b, c.f)))
    && (reading.Some? ==> pending == Some(reading.value.1))
    && (c.Writing? || c.Pushing? ==> reading == None)
    && (pending.Some? ==> dma && (c.Converting? || c.Failing? || (stopping && quarantined != {})))
    && (reading.Some? ==> reading.value.0 in quarantined || ((c.Converting? || c.Failing?) && c.b == reading.value.0))
    && (c == Destroyed ==> pending == None)
    && (c == Settling || c == Destroyed ==> stopping)
  }

  ghost predicate Inv(st: State) {
    && RefsOk(st.refs, st.hwRefs, Held(st), Own(st.callback))
    && ContentOk(st.contents, st.stamped, Held(st), Written(st.callback, st.reading), Complete(st.callback))
    && |st.contents| == |st.refs|
    && |st.queue| <= QUEUE_LIMIT
    && ConsumerOk(st.consumer, st.sample, st.mapped, st.last)
    && EncoderOk(st.frugal, st.mapped, st.encoder, st.encoderHw)
    && ScanOk(st.callback, st.frugal, |st.refs|, Held(st))
    && CountsOk(st.arrivals, st.drops, st.handed, |st.queue|, st.failed, InHand(st.callback))
    && st.handed == st.consumed + (if st.sample.Some? then 1 else 0)
    && BuffersOk(st.outstanding, st.quarantined, Carried(st.callback), st.dequeued, st.returned)
    && QuarantineOk(st.quarantined, st.stopping, Running(st.callback))
    && GpuOk(st.callback, st.dma, st.pending, st.reading, st.stopping, st.quarantined)
  }
}
