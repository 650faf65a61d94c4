/**
 * The streaming host as one state machine: two encoder workers (host/stream_main.cpp), their encoders, and
 * the transport server with its run loop, interleaved step by step with a client that connects, reads in
 * pieces, stalls, disconnects and reconnects. Every property here is proved of every reachable state.
 */
module Pipeline {
  import opened Bytes
  import opened Qstv
  import opened Receiver
  import E = Encoder
  import T = Transport

  // ---------------------------------------------------------------------------------------------
  // States
  // ---------------------------------------------------------------------------------------------

  /** Where a worker stands: between loop iterations, inside encode() or flush(), or inside publish(). */
  datatype Phase =
    | Idle
    | Encoding
    | Publishing(p: Packet)  // before the first critical section
    | Framing(p: Packet)     // between the two critical sections
    | Halted

  /**
   * keyDone: a keyframe of this encode() call has been through publish(). History: every packet handed to
   * publish(), and where in it the current connection's own packets of this stream begin.
   */
  datatype Worker = Worker(
    enc: E.State, phase: Phase, flushing: bool, forcePending: bool, keyDone: bool, published: seq<Packet>, first: nat)

  /** run(): between steps, inside closeClient before its lock, or holding the lock of an accept. */
  datatype RunPhase = Looping | Closing | Accepting(raised: nat)

  /** History of the current connection: packets accepted in order, how many run() took, bytes sent. */
  datatype System = System(
    link: T.Link, run: RunPhase, workers: seq<Worker>, admitted: seq<ValidPacket>, taken: nat, sent: seq<byte>)

  const NEW_WORKER: Worker := Worker(E.INITIAL, Idle, false, false, false, [], 0)
  const START: System := System(T.INITIAL, Looping, [NEW_WORKER, NEW_WORKER], [], 0, [])

  // ---------------------------------------------------------------------------------------------
  // Steps
  // ---------------------------------------------------------------------------------------------

  datatype Step =
    // workers
    | TakeRequest(s: nat)
    | RetryCapture(s: nat)
    | Submit(s: nat, presentationUs: int, sourcePtsUs: int)
    | Receive(s: nat, raw: seq<byte>)
    | Admit(s: nat)
    | Enqueue(s: nat)
    | Return(s: nat)
    | Flush(s: nat)
    | Fail(s: nat)
    // run loop
    | TakeFrame
    | SendBytes(n: nat)
    | CloseSocket(stalled: bool)
    | CloseShared
    | AcceptClient
    | RaiseRequest
    | AnnounceClient

  predicate WorkerStep(step: Step) {
    !(step.TakeFrame? || step.SendBytes? || step.CloseSocket? || step.CloseShared?
      || step.AcceptClient? || step.RaiseRequest? || step.AnnounceClient?)
  }

  predicate InPublish(w: Worker) {
    w.phase.Publishing? || w.phase.Framing?
  }

  /** The mutex is free for a publisher; the other locked sections are single steps. */
  predicate Unlocked(sys: System) {
    !sys.run.Accepting?
  }

  predicate WorkerEnabled(sys: System, step: Step)
    requires WorkerStep(step)
  {
    && step.s < |sys.workers| && step.s < |sys.link.waiting| && step.s < |sys.link.force|
    && var w := sys.workers[step.s];
    match step
    case TakeRequest(_) => w.phase == Idle
    case RetryCapture(_) => w.phase == Idle
    case Submit(_, _, _) => w.phase == Idle
    case Receive(_, _) => w.phase == Encoding && w.enc.inFlight != []
    case Admit(_) => w.phase.Publishing? && Unlocked(sys)
    case Enqueue(_) => w.phase.Framing? && w.published != [] && Unlocked(sys)
    // the codec yields an IDR within the encode() call of a forced frame
    case Return(_) => w.phase == Encoding && (w.flushing || (w.forcePending ==> w.keyDone))
    case Flush(_) => w.phase == Idle
    // an exception: capture, codec, or the output file
    case Fail(_) => w.phase != Halted
  }

  predicate RunEnabled(sys: System, step: Step)
    requires !WorkerStep(step)
  {
    var l := sys.link;
    match step
    case TakeFrame => sys.run == Looping && !l.disconnect && l.pending == [] && l.queue != []
        && l.queuedBytes >= |l.queue[0]|
    case SendBytes(n) => sys.run == Looping && l.client && l.pending != [] && l.offset <= |l.pending|
        && 1 <= n <= |l.pending| - l.offset
    // disconnect requested, hang-up, client data, send error, two-second stall, or shutdown
    case CloseSocket(stalled) => sys.run == Looping && (stalled ==> l.pending != [])
    case CloseShared => sys.run == Closing
    case AcceptClient => sys.run == Looping && !l.client
    case RaiseRequest => sys.run.Accepting? && sys.run.raised < |l.force|
    case AnnounceClient => sys.run.Accepting? && sys.run.raised == |l.force|
  }

  predicate Enabled(sys: System, step: Step) {
    if WorkerStep(step) then WorkerEnabled(sys, step) else RunEnabled(sys, step)
  }

  /** publish() returns to the drain loop; a keyframe of this call has then been offered to the transport. */
  function Published(w: Worker, p: Packet): (after: Worker) {
    w.(phase := Encoding, keyDone := w.keyDone || p.keyframe)
  }

  function AfterReceive(w: Worker, s: nat, raw: seq<byte>): (after: Worker)
    requires w.enc.inFlight != []
  {
    var r := E.Emitted(w.enc, s, raw);
    if r.1.Failure? then w.(enc := r.0, phase := Halted)
    else w.(enc := r.0, phase := Publishing(r.1.value), published := w.published + [r.1.value])
  }

  function AfterEnqueue(sys: System, s: nat): (next: System)
    requires s < |sys.workers| && s < |sys.link.waiting| && sys.workers[s].phase.Framing?
        && sys.workers[s].published != []
  {
    var w := sys.workers[s];
    var p := w.phase.p;
    if !Sendable(p) then sys.(workers := sys.workers[s := w.(phase := Halted)])
    else
      var r := T.Enqueue(sys.link, s, p.keyframe, Frame(p));
      var after := Published(w, p);
      if r.1.Queued? then
        var first := if Of(sys.admitted, s) == [] then |w.published| - 1 else w.first;
        sys.(link := r.0, admitted := sys.admitted + [p], workers := sys.workers[s := after.(first := first)])
      else sys.(link := r.0, workers := sys.workers[s := after])
  }

  function WorkerNext(sys: System, step: Step): (next: System)
    requires WorkerStep(step) && WorkerEnabled(sys, step)
  {
    var s := step.s;
    var w := sys.workers[s];
    match step
    case TakeRequest(_) =>
      var r := T.TakeRequest(sys.link, s);
      sys.(link := r.0, workers := sys.workers[s := w.(forcePending := w.forcePending || r.1)])
    case RetryCapture(_) => sys.(workers := sys.workers[s := w.(forcePending := true)])
    case Submit(_, presentationUs, sourcePtsUs) =>
      sys.(workers := sys.workers[s := w.(enc := E.Submitted(w.enc, presentationUs, sourcePtsUs), phase := Encoding,
          keyDone := false)])
    case Receive(_, raw) => sys.(workers := sys.workers[s := AfterReceive(w, s, raw)])
    case Admit(_) =>
      var r := T.Admit(sys.link, s, w.phase.p.keyframe);
      sys.(link := r.0, workers := sys.workers[s := if r.1.Proceed? then w.(phase := Framing(w.phase.p))
          else Published(w, w.phase.p)])
    case Enqueue(_) => AfterEnqueue(sys, s)
    case Return(_) =>
      sys.(workers := sys.workers[s := if w.flushing then w.(phase := Halted)
          else w.(phase := Idle, forcePending := false)])
    case Flush(_) => sys.(workers := sys.workers[s := w.(phase := Encoding, flushing := true, keyDone := false)])
    case Fail(_) => sys.(workers := sys.workers[s := w.(phase := Halted)])
  }

  function RunNext(sys: System, step: Step): (next: System)
    requires !WorkerStep(step) && RunEnabled(sys, step)
  {
    match step
    case TakeFrame => sys.(link := T.Take(sys.link), taken := sys.taken + 1)
    case SendBytes(n) =>
      sys.(link := T.Advance(sys.link, n), sent := sys.sent + sys.link.pending[sys.link.offset..sys.link.offset + n])
    case CloseSocket(stalled) => sys.(link := T.CloseSocket(sys.link, stalled), run := Closing)
    case CloseShared => sys.(link := T.Reset(sys.link), run := Looping)
    case AcceptClient => sys.(link := T.Accept(sys.link), run := Accepting(0), admitted := [], taken := 0, sent := [])
    case RaiseRequest => sys.(link := T.Raise(sys.link, sys.run.raised), run := Accepting(sys.run.raised + 1))
    case AnnounceClient => sys.(link := T.Announce(sys.link), run := Looping)
  }

  function Next(sys: System, step: Step): (next: System)
    requires Enabled(sys, step)
  {
    if WorkerStep(step) then WorkerNext(sys, step) else RunNext(sys, step)
  }

  datatype Outcome = Stuck | Reached(sys: System)

  /** Where a schedule leads from the start; Stuck when one of its steps is not enabled. */
  function Run(schedule: seq<Step>): (r: Outcome) {
    if schedule == [] then Reached(START)
    else
      var n := |schedule| - 1;
      match Run(schedule[..n])
      case Stuck => Stuck
      case Reached(sys) => if Enabled(sys, schedule[n]) then Reached(Next(sys, schedule[n])) else Stuck
  }

  // ---------------------------------------------------------------------------------------------
  // Invariants
  // ---------------------------------------------------------------------------------------------

  /** Memory bounds, and what the position of run() says about the connection. */
  ghost predicate LinkOk(l: T.Link, run: RunPhase) {
    && T.Bounded(l) && T.Shaped(l)
    && match run
       case Looping => l.client == l.connected
       case Closing => !l.client
       case Accepting(raised) =>
         l.client && l.connected && !l.disconnect && raised <= MONITOR_COUNT && l.waiting == T.ALL && l.queue == []
             && l.pending == []
  }

  /** The bytes of the connection are those of its accepted packets, in order, and nothing else. */
  ghost predicate WireOk(l: T.Link, admitted: seq<ValidPacket>, taken: nat, sent: seq<byte>) {
    && taken <= |admitted|
    && (l.connected && !l.disconnect ==> l.queue == Frames(admitted[taken..]))
    && l.offset <= |l.pending|
    && sent <= Flatten(Frames(admitted[..taken]))
    && (l.client ==> sent + l.pending[l.offset..] == Flatten(Frames(admitted[..taken])))
  }

  /** How many packets of a worker have been through publish(). */
  function Settled(w: Worker): (n: int) {
    if InPublish(w) then |w.published| - 1 else |w.published|
  }

  /** The packets of stream s accepted on the connection are a contiguous run of what s published. */
  ghost predicate StreamOk(l: T.Link, w: Worker, own: seq<Packet>, s: nat) {
    && s < |l.waiting|
    && E.Orderly(w.enc, s, w.published)
    && (InPublish(w) ==> w.published != [] && w.published[|w.published| - 1] == w.phase.p)
    && w.first + |own| <= Settled(w)
    && own == w.published[w.first..w.first + |own|]
    && (own != [] ==> own[0].keyframe)
    && (l.connected && l.waiting[s] ==> own == [])
    && (l.connected && !l.disconnect && !l.waiting[s] ==>
          own != [] && (w.phase != Halted ==> w.first + |own| == Settled(w)))
  }

  /** The worker owes the transport a keyframe: it will force one, or is encoding one not yet offered. */
  predicate Owed(w: Worker) {
    w.forcePending && !(w.phase != Idle && w.keyDone)
  }

  predicate Wanted(l: T.Link, run: RunPhase, s: nat)
    requires s < |l.waiting|
  {
    if run.Accepting? then s < run.raised else l.connected && !l.disconnect && l.waiting[s]
  }

  ghost predicate KeyOk(l: T.Link, run: RunPhase, w: Worker, s: nat) {
    && s < |l.waiting| && s < |l.force|
    && (Wanted(l, run, s) ==> l.force[s] || w.forcePending)
    && (Wanted(l, run, s) && w.phase != Halted && !w.flushing ==> l.force[s] || Owed(w))
  }

  ghost predicate Inv(sys: System) {
    && |sys.workers| == MONITOR_COUNT
    && LinkOk(sys.link, sys.run)
    && WireOk(sys.link, sys.admitted, sys.taken, sys.sent)
    && Playable(sys.admitted)
    && (forall s :: 0 <= s < |sys.workers| ==>
          StreamOk(sys.link, sys.workers[s], Of(sys.admitted, s), s) && KeyOk(sys.link, sys.run, sys.workers[s], s))
  }
}
