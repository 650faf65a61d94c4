/** Every step of the pipeline keeps its invariant. */
module PipelineInvariant {
  import opened Bytes
  import opened Qstv
  import opened Receiver
  import opened Pipeline
  import E = Encoder
  import T = Transport

  // ---------------------------------------------------------------------------------------------
  // One worker's step, seen from the others
  // ---------------------------------------------------------------------------------------------

  /** A link change that stream t cannot tell apart, except for a disconnect that was requested. */
  predicate SameFor(l: T.Link, m: T.Link, t: nat)
    requires t < |l.waiting| && t < |l.force|
  {
    && t < |m.waiting| && t < |m.force|
    && m.connected == l.connected && (l.disconnect ==> m.disconnect)
    && m.waiting[t] == l.waiting[t] && m.force[t] == l.force[t]
  }

  lemma OtherStreamKeeps(l: T.Link, m: T.Link, run: RunPhase, w: Worker, own: seq<Packet>, t: nat)
    requires StreamOk(l, w, own, t) && KeyOk(l, run, w, t) && SameFor(l, m, t)
    ensures StreamOk(m, w, own, t) && KeyOk(m, run, w, t)
  {
  }

  lemma OneWorkerKeeps(sys: System, next: System, s: nat)
    requires Inv(sys) && s < MONITOR_COUNT
    requires next.run == sys.run && |next.workers| == MONITOR_COUNT
    requires LinkOk(next.link, next.run) && WireOk(next.link, next.admitted, next.taken, next.sent)
        && Playable(next.admitted)
    requires StreamOk(next.link, next.workers[s], Of(next.admitted, s), s)
    requires KeyOk(next.link, next.run, next.workers[s], s)
    requires var t := 1 - s; next.workers[t] == sys.workers[t] && Of(next.admitted, t) == Of(sys.admitted, t)
    requires var t := 1 - s; t < |sys.link.waiting| && t < |sys.link.force| && SameFor(sys.link, next.link, t)
    ensures Inv(next)
  {
    hide StreamOk, KeyOk, SameFor, LinkOk, WireOk, Playable, Of;
    var t := 1 - s;
    OtherStreamKeeps(sys.link, next.link, sys.run, sys.workers[t], Of(sys.admitted, t), t);
  }

  lemma LinkShape(l: T.Link, run: RunPhase)
    requires LinkOk(l, run)
    ensures |l.waiting| == |l.force| == MONITOR_COUNT
  {
  }

  /** Flags and counters carry no bytes. */
  lemma UnqueuedKeeps(l: T.Link, m: T.Link, run: RunPhase, admitted: seq<ValidPacket>, taken: nat, sent: seq<byte>)
    requires LinkOk(l, run) && WireOk(l, admitted, taken, sent)
    requires m == l.(force := m.force, dropped := m.dropped, accepted := m.accepted) && |m.force| == |l.force|
    ensures LinkOk(m, run) && WireOk(m, admitted, taken, sent)
  {
    hide T.Total, Frames, Flatten;
  }

  // ---------------------------------------------------------------------------------------------
  // Worker steps
  // ---------------------------------------------------------------------------------------------

  lemma TakeRequestKeeps(sys: System, s: nat)
    requires Inv(sys) && WorkerEnabled(sys, TakeRequest(s))
    ensures Inv(WorkerNext(sys, TakeRequest(s)))
  {
    hide E.Orderly, Of, Playable, LinkOk, WireOk;
    var next := WorkerNext(sys, TakeRequest(s));
    UnqueuedKeeps(sys.link, next.link, sys.run, sys.admitted, sys.taken, sys.sent);
    OneWorkerKeeps(sys, next, s);
  }

  lemma RetryCaptureKeeps(sys: System, s: nat)
    requires Inv(sys) && WorkerEnabled(sys, RetryCapture(s))
    ensures Inv(WorkerNext(sys, RetryCapture(s)))
  {
    hide E.Orderly, Of, Playable, LinkOk, WireOk;
    OneWorkerKeeps(sys, WorkerNext(sys, RetryCapture(s)), s);
  }

  lemma SubmitKeeps(sys: System, s: nat, presentationUs: int, sourcePtsUs: int)
    requires Inv(sys) && WorkerEnabled(sys, Submit(s, presentationUs, sourcePtsUs))
    ensures Inv(WorkerNext(sys, Submit(s, presentationUs, sourcePtsUs)))
  {
    hide E.Orderly, E.Submitted, Of, Playable, LinkOk, WireOk;
    E.SubmittedStaysOrderly(sys.workers[s].enc, s, sys.workers[s].published, presentationUs, sourcePtsUs);
    OneWorkerKeeps(sys, WorkerNext(sys, Submit(s, presentationUs, sourcePtsUs)), s);
  }

  lemma ReceiveKeeps(sys: System, s: nat, raw: seq<byte>)
    requires Inv(sys) && WorkerEnabled(sys, Receive(s, raw))
    ensures Inv(WorkerNext(sys, Receive(s, raw)))
  {
    hide E.Orderly, E.Emitted, Of, Playable, LinkOk, WireOk;
    var w := sys.workers[s];
    E.EmittedStaysOrderly(w.enc, s, w.published, raw);
    var after := AfterReceive(w, s, raw);
    var own := Of(sys.admitted, s);
    assert after.published[w.first..w.first + |own|] == w.published[w.first..w.first + |own|];
    OneWorkerKeeps(sys, WorkerNext(sys, Receive(s, raw)), s);
  }

  lemma AdmitKeeps(sys: System, s: nat)
    requires Inv(sys) && WorkerEnabled(sys, Admit(s))
    ensures Inv(WorkerNext(sys, Admit(s)))
  {
    hide E.Orderly, Of, Playable, LinkOk, WireOk;
    var next := WorkerNext(sys, Admit(s));
    UnqueuedKeeps(sys.link, next.link, sys.run, sys.admitted, sys.taken, sys.sent);
    OneWorkerKeeps(sys, next, s);
  }

  lemma ReturnKeeps(sys: System, s: nat)
    requires Inv(sys) && WorkerEnabled(sys, Return(s))
    ensures Inv(WorkerNext(sys, Return(s)))
  {
    hide E.Orderly, Of, Playable, LinkOk, WireOk;
    OneWorkerKeeps(sys, WorkerNext(sys, Return(s)), s);
  }

  lemma FlushKeeps(sys: System, s: nat)
    requires Inv(sys) && WorkerEnabled(sys, Flush(s))
    ensures Inv(WorkerNext(sys, Flush(s)))
  {
    hide E.Orderly, Of, Playable, LinkOk, WireOk;
    OneWorkerKeeps(sys, WorkerNext(sys, Flush(s)), s);
  }

  // The second critical section of publish()

  lemma EnqueueKeepsWire(l: T.Link, admitted: seq<ValidPacket>, taken: nat, sent: seq<byte>, s: nat, p: ValidPacket)
    requires WireOk(l, admitted, taken, sent) && s < |l.waiting|
    ensures var r := T.Enqueue(l, s, p.keyframe, Frame(p));
      WireOk(r.0, if r.1.Queued? then admitted + [p] else admitted, taken, sent)
  {
    hide Frame, Flatten, Frames;
    assert (admitted + [p])[..taken] == admitted[..taken];
    assert (admitted + [p])[taken..] == admitted[taken..] + [p];
    FramesAppend(admitted[taken..], [p]);
    FramesOfOne(p);
  }

  lemma FramesOfOne(p: ValidPacket)
    ensures Frames([p]) == [Frame(p)]
  {
    assert Frames([p]) == [Frame(p)] + Frames([]);
  }

  /** The packet entering the queue follows the stream's own packets of this connection. */
  lemma EnqueuedMayFollow(l: T.Link, w: Worker, own: seq<Packet>, s: nat)
    requires StreamOk(l, w, own, s) && w.phase.Framing? && l.connected && !l.disconnect
    requires l.waiting[s] ==> w.phase.p.keyframe
    ensures w.phase.p.monitorId == s && MayFollow(own, w.phase.p)
  {
    var p := w.phase.p;
    var n := |w.published|;
    assert p in w.published;
    if own != [] {
      var pts := E.PtsOf(w.published) + w.enc.inFlight;
      assert pts[n - 2] < pts[n - 1];
      assert own[|own| - 1] == w.published[n - 2];
    }
  }

  lemma EnqueueKeepsStream(l: T.Link, w: Worker, own: seq<Packet>, s: nat, after: Worker, p: ValidPacket)
    requires StreamOk(l, w, own, s) && w.phase.Framing? && w.phase.p == p
    requires after.enc == w.enc && after.published == w.published && after.phase == Encoding
    requires var r := T.Enqueue(l, s, p.keyframe, Frame(p)).1;
      after.first == if r.Queued? && own == [] then |w.published| - 1 else w.first
    ensures var r := T.Enqueue(l, s, p.keyframe, Frame(p));
      StreamOk(r.0, after, if r.1.Queued? then own + [p] else own, s)
  {
    hide Frame, E.Orderly;
  }

  lemma EnqueueKeeps(sys: System, s: nat)
    requires Inv(sys) && WorkerEnabled(sys, Enqueue(s))
    ensures Inv(WorkerNext(sys, Enqueue(s)))
  {
    hide E.Orderly, StreamOk, KeyOk, LinkOk, WireOk, Playable, Of, Frame;
    var w := sys.workers[s];
    LinkShape(sys.link, sys.run);
    if !Sendable(w.phase.p) {
      HaltedStreamOk(sys.link, sys.run, w, Of(sys.admitted, s), s);
      OneWorkerKeeps(sys, WorkerNext(sys, Enqueue(s)), s);
    } else {
      EnqueueSendableKeeps(sys, s, w.phase.p);
    }
  }

  lemma EnqueueSendableKeeps(sys: System, s: nat, p: ValidPacket)
    requires Inv(sys) && WorkerEnabled(sys, Enqueue(s)) && sys.workers[s].phase.p == p
    ensures Inv(WorkerNext(sys, Enqueue(s)))
  {
    hide E.Orderly, StreamOk, KeyOk, LinkOk, WireOk, Playable, Of, Frame;
    var w := sys.workers[s];
    LinkShape(sys.link, sys.run);
    var own := Of(sys.admitted, s);
    var r := T.Enqueue(sys.link, s, p.keyframe, Frame(p));
    var next := WorkerNext(sys, Enqueue(s));
    EnqueueKeepsLink(sys.link, sys.run, s, p);
    EnqueueKeepsWire(sys.link, sys.admitted, sys.taken, sys.sent, s, p);
    EnqueueKeepsStream(sys.link, w, own, s, next.workers[s], p);
    EnqueueKeepsKey(sys.link, sys.run, w, s, p, next.workers[s]);
    if r.1.Queued? {
      EnqueuedMayFollow(sys.link, w, own, s);
      OfAppend(sys.admitted, p, s);
      OfAppend(sys.admitted, p, 1 - s);
      AdmittedStaysPlayable(sys.admitted, p);
    }
    OneWorkerKeeps(sys, next, s);
  }

  lemma EnqueueKeepsKey(l: T.Link, run: RunPhase, w: Worker, s: nat, p: ValidPacket, after: Worker)
    requires KeyOk(l, run, w, s) && s < MONITOR_COUNT && |l.force| == MONITOR_COUNT && !run.Accepting?
    requires w.phase == Framing(p) && after == Published(w, p).(first := after.first)
    ensures KeyOk(T.Enqueue(l, s, p.keyframe, Frame(p)).0, run, after, s)
    ensures 1 - s < |l.waiting| ==> SameFor(l, T.Enqueue(l, s, p.keyframe, Frame(p)).0, 1 - s)
  {
    hide Frame;
  }

  lemma AdmittedStaysPlayable(admitted: seq<ValidPacket>, p: ValidPacket)
    requires Playable(admitted) && MayFollow(Of(admitted, p.monitorId), p)
    ensures Playable(admitted + [p])
  {
    PlayableAppend([], admitted, p);
    assert [] + admitted == admitted;
  }

  lemma EnqueueKeepsLink(l: T.Link, run: RunPhase, s: nat, p: ValidPacket)
    requires LinkOk(l, run) && !run.Accepting? && s < MONITOR_COUNT
    ensures LinkOk(T.Enqueue(l, s, p.keyframe, Frame(p)).0, run)
  {
    hide T.Bounded, Frame;
    assert 0 < |Frame(p)| <= T.FRAME_LIMIT;
    T.EnqueueKeeps(l, s, p.keyframe, Frame(p));
  }

  lemma HaltedStreamOk(l: T.Link, run: RunPhase, w: Worker, own: seq<Packet>, s: nat)
    requires StreamOk(l, w, own, s) && KeyOk(l, run, w, s)
    ensures StreamOk(l, w.(phase := Halted), own, s) && KeyOk(l, run, w.(phase := Halted), s)
  {
  }

  lemma FailKeeps(sys: System, s: nat)
    requires Inv(sys) && WorkerEnabled(sys, Fail(s))
    ensures Inv(WorkerNext(sys, Fail(s)))
  {
    hide Of, Playable, LinkOk, WireOk, StreamOk, KeyOk;
    LinkShape(sys.link, sys.run);
    HaltedStreamOk(sys.link, sys.run, sys.workers[s], Of(sys.admitted, s), s);
    OneWorkerKeeps(sys, WorkerNext(sys, Fail(s)), s);
  }

  lemma WorkerStepKeeps(sys: System, step: Step)
    requires Inv(sys) && WorkerStep(step) && WorkerEnabled(sys, step)
    ensures Inv(WorkerNext(sys, step))
  {
    hide Inv, WorkerNext, WorkerEnabled;
    match step
    case TakeRequest(s) => TakeRequestKeeps(sys, s);
    case RetryCapture(s) => RetryCaptureKeeps(sys, s);
    case Submit(s, presentationUs, sourcePtsUs) => SubmitKeeps(sys, s, presentationUs, sourcePtsUs);
    case Receive(s, raw) => ReceiveKeeps(sys, s, raw);
    case Admit(s) => AdmitKeeps(sys, s);
    case Enqueue(s) => EnqueueKeeps(sys, s);
    case Return(s) => ReturnKeeps(sys, s);
    case Flush(s) => FlushKeeps(sys, s);
    case Fail(s) => FailKeeps(sys, s);
    case _ =>
  }

  // ---------------------------------------------------------------------------------------------
  // Steps of the run loop
  // ---------------------------------------------------------------------------------------------

  /** A run step that leaves the connection, its flags and its history as they were. */
  lemma SameConnectionKeeps(sys: System, next: System)
    requires Inv(sys) && next.workers == sys.workers && next.admitted == sys.admitted
    requires LinkOk(next.link, next.run) && WireOk(next.link, next.admitted, next.taken, next.sent)
    requires var l, m := sys.link, next.link;
      m.connected == l.connected && m.disconnect == l.disconnect && m.waiting == l.waiting && m.force == l.force
    requires !sys.run.Accepting? && !next.run.Accepting?
    ensures Inv(next)
  {
    hide E.Orderly, Of, Playable, LinkOk, WireOk;
  }

  lemma TakeFrameKeeps(sys: System)
    requires Inv(sys) && RunEnabled(sys, TakeFrame)
    ensures Inv(RunNext(sys, TakeFrame))
  {
    hide E.Orderly, Of, Playable, StreamOk, KeyOk, Frame;
    T.TakeKeeps(sys.link);
    TakeKeepsWire(sys.link, sys.admitted, sys.taken, sys.sent);
    SameConnectionKeeps(sys, RunNext(sys, TakeFrame));
  }

  lemma TakeKeepsWire(l: T.Link, admitted: seq<ValidPacket>, taken: nat, sent: seq<byte>)
    requires WireOk(l, admitted, taken, sent) && l.connected && !l.disconnect && l.client
    requires l.pending == [] && l.queue != [] && l.queuedBytes >= |l.queue[0]|
    ensures WireOk(T.Take(l), admitted, taken + 1, sent)
  {
    hide Frame, Flatten;
    var rest := admitted[taken..];
    assert Frames(rest) == [Frame(rest[0])] + Frames(rest[1..]);
    assert rest[1..] == admitted[taken + 1..];
    assert admitted[..taken + 1] == admitted[..taken] + [rest[0]];
    FramesAppend(admitted[..taken], [rest[0]]);
    FramesOfOne(rest[0]);
    FlattenSnoc(Frames(admitted[..taken]), Frame(rest[0]));
    assert sent + l.pending[l.offset..] == sent;
  }

  lemma SendBytesKeeps(sys: System, n: nat)
    requires Inv(sys) && RunEnabled(sys, SendBytes(n))
    ensures Inv(RunNext(sys, SendBytes(n)))
  {
    hide E.Orderly, Of, Playable, StreamOk, KeyOk, Frames, Flatten, T.Total;
    var l := sys.link;
    assert l.pending[l.offset..] == l.pending[l.offset..l.offset + n] + l.pending[l.offset + n..];
    assert sys.sent + l.pending[l.offset..] == sys.sent + l.pending[l.offset..l.offset + n] + l.pending[l.offset + n..];
    assert l.offset + n == |l.pending| ==> l.pending[l.offset + n..] == [];
    SameConnectionKeeps(sys, RunNext(sys, SendBytes(n)));
  }

  lemma CloseSocketKeeps(sys: System, stalled: bool)
    requires Inv(sys) && RunEnabled(sys, CloseSocket(stalled))
    ensures Inv(RunNext(sys, CloseSocket(stalled)))
  {
    hide E.Orderly, Of, Playable, StreamOk, KeyOk, Frames, Flatten, T.Total;
    SameConnectionKeeps(sys, RunNext(sys, CloseSocket(stalled)));
  }

  lemma CloseSharedKeeps(sys: System)
    requires Inv(sys) && RunEnabled(sys, CloseShared)
    ensures Inv(RunNext(sys, CloseShared))
  {
    hide E.Orderly, Of, Playable, Frames, Flatten;
    var next := RunNext(sys, CloseShared);
    forall s | 0 <= s < |next.workers|
      ensures StreamOk(next.link, next.workers[s], Of(next.admitted, s), s)
          && KeyOk(next.link, next.run, next.workers[s], s)
    {
      assert StreamOk(sys.link, sys.workers[s], Of(sys.admitted, s), s);
    }
  }

  lemma AcceptClientKeeps(sys: System)
    requires Inv(sys) && RunEnabled(sys, AcceptClient)
    ensures Inv(RunNext(sys, AcceptClient))
  {
    hide StreamOk, KeyOk, LinkOk, WireOk, Frames, Flatten;
    var next := RunNext(sys, AcceptClient);
    AcceptKeepsLink(sys.link);
    AcceptKeepsWire(sys.link);
    forall s | 0 <= s < |next.workers|
      ensures StreamOk(next.link, next.workers[s], Of(next.admitted, s), s)
          && KeyOk(next.link, next.run, next.workers[s], s)
    {
      AcceptKeepsStream(sys.link, sys.run, sys.workers[s], Of(sys.admitted, s), s);
    }
  }

  lemma AcceptKeepsLink(l: T.Link)
    requires LinkOk(l, Looping) && !l.client
    ensures LinkOk(T.Accept(l), Accepting(0))
  {
  }

  lemma AcceptKeepsWire(l: T.Link)
    requires LinkOk(l, Looping) && !l.client
    ensures WireOk(T.Accept(l), [], 0, [])
  {
    assert Frames([]) == [];
  }

  /** A new connection starts with no packets of its own, wherever the workers are. */
  lemma AcceptKeepsStream(l: T.Link, run: RunPhase, w: Worker, own: seq<Packet>, s: nat)
    requires StreamOk(l, w, own, s) && KeyOk(l, run, w, s) && s < MONITOR_COUNT
    ensures StreamOk(T.Accept(l), w, [], s) && KeyOk(T.Accept(l), Accepting(0), w, s)
  {
    hide E.Orderly;
  }

  lemma RaiseRequestKeeps(sys: System)
    requires Inv(sys) && RunEnabled(sys, RaiseRequest)
    ensures Inv(RunNext(sys, RaiseRequest))
  {
    hide E.Orderly, Of, Playable;
    var next := RunNext(sys, RaiseRequest);
    UnqueuedKeeps(sys.link, next.link, sys.run, sys.admitted, sys.taken, sys.sent);
    forall s | 0 <= s < |next.workers|
      ensures StreamOk(next.link, next.workers[s], Of(next.admitted, s), s)
          && KeyOk(next.link, next.run, next.workers[s], s)
    {
      assert StreamOk(sys.link, sys.workers[s], Of(sys.admitted, s), s);
      assert KeyOk(sys.link, sys.run, sys.workers[s], s);
    }
  }

  lemma AnnounceClientKeeps(sys: System)
    requires Inv(sys) && RunEnabled(sys, AnnounceClient)
    ensures Inv(RunNext(sys, AnnounceClient))
  {
    hide E.Orderly, Of, Playable;
    var next := RunNext(sys, AnnounceClient);
    UnqueuedKeeps(sys.link, next.link, sys.run, sys.admitted, sys.taken, sys.sent);
    forall s | 0 <= s < |next.workers|
      ensures StreamOk(next.link, next.workers[s], Of(next.admitted, s), s)
          && KeyOk(next.link, next.run, next.workers[s], s)
    {
      assert StreamOk(sys.link, sys.workers[s], Of(sys.admitted, s), s);
      assert KeyOk(sys.link, sys.run, sys.workers[s], s);
    }
  }

  lemma StepKeeps(sys: System, step: Step)
    requires Inv(sys) && Enabled(sys, step)
    ensures Inv(Next(sys, step))
  {
    hide Inv, WorkerNext, WorkerEnabled, RunNext, RunEnabled;
    if WorkerStep(step) {
      WorkerStepKeeps(sys, step);
    } else {
      match step
      case TakeFrame => TakeFrameKeeps(sys);
      case SendBytes(n) => SendBytesKeeps(sys, n);
      case CloseSocket(stalled) => CloseSocketKeeps(sys, stalled);
      case CloseShared => CloseSharedKeeps(sys);
      case AcceptClient => AcceptClientKeeps(sys);
      case RaiseRequest => RaiseRequestKeeps(sys);
      case AnnounceClient => AnnounceClientKeeps(sys);
      case _ =>
    }
  }

  lemma StartOk()
    ensures Inv(START)
  {
    E.InitiallyOrderly(0);
    E.InitiallyOrderly(1);
    assert Frames([]) == [];
  }

  /** Every state of every schedule satisfies the invariant. */
  lemma {:induction false} ReachedOk(schedule: seq<Step>)
    ensures Run(schedule).Reached? ==> Inv(Run(schedule).sys)
  {
    hide Inv, Next, Enabled;
    if schedule == [] {
      StartOk();
    } else {
      var n := |schedule| - 1;
      ReachedOk(schedule[..n]);
      if Run(schedule[..n]).Reached? && Enabled(Run(schedule[..n]).sys, schedule[n]) {
        StepKeeps(Run(schedule[..n]).sys, schedule[n]);
      }
    }
  }
}
