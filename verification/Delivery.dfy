/**
 * What the streaming host promises, for every reachable state of the pipeline: whatever the interleaving of
 * the workers, the run loop, partial sends, stalls, overflows, disconnects and reconnects.
 */
module Delivery {
  import opened Bytes
  import opened Qstv
  import opened Receiver
  import opened Pipeline
  import opened PipelineInvariant
  import A = AnnexB
  import O = AnnexBOutcome
  import E = Encoder
  import S = AnnexBSeam
  import T = Transport

  ghost predicate Reachable(sys: System) {
    exists schedule :: Run(schedule) == Reached(sys)
  }

  lemma ReachableOk(sys: System)
    requires Reachable(sys)
    ensures Inv(sys)
  {
    var schedule :| Run(schedule) == Reached(sys);
    ReachedOk(schedule);
  }

  /**
   * End to end: the receiver, reading any prefix of what one connection carried, cut anywhere by TCP, never
   * fails a check. It runs out of time or data, holding exactly the packets whose frames arrived whole.
   */
  lemma ReceiverNeverRejects(sys: System, data: seq<byte>, rounds: nat)
    requires Reachable(sys) && data <= sys.sent
    ensures var r := Received(data, NO_SESSION, rounds);
      var n := RoundsOn(sys.admitted, |data|, rounds);
      && (if n == rounds then r.1.TimeUp? else r.1.EndOfData?)
      && Describes(r.0, sys.admitted[..n])
  {
    hide Received, RoundsOn, Describes, Playable, Flatten, Frames;
    ReachableOk(sys);
    WireIsPrefix(sys);
    assert data <= Flatten(Frames(sys.admitted));
    PlayablePrefixIsReceived(sys.admitted, data, rounds);
  }

  /**
   * The packets read from any prefix of what one connection carried are the first ones accepted on it, each
   * with its stream, timestamp, key flag and payload, in order.
   */
  lemma AcceptedPacketsAreDecoded(sys: System, data: seq<byte>)
    requires Reachable(sys) && data <= sys.sent
    ensures Decoded(data).0 == sys.admitted[..WholeBlocks(Frames(sys.admitted), |data|)]
    ensures Decoded(data).1.EndOfData?
  {
    hide Decoded, Playable, Flatten, Frames, WholeBlocks;
    WireIsPrefix(sys);
    assert data <= Flatten(Frames(sys.admitted));
    CutFramesRoundTrip(sys.admitted, data);
  }

  /** The bytes sent on a connection are a prefix of the frames accepted on it, in acceptance order. */
  lemma WireIsPrefix(sys: System)
    requires Reachable(sys)
    ensures sys.sent <= Flatten(Frames(sys.admitted))
  {
    hide Frames, Flatten, Playable, StreamOk, KeyOk, LinkOk;
    ReachableOk(sys);
    WireSplits(sys.admitted, sys.taken, |sys.admitted|);
    assert sys.admitted[..|sys.admitted|] == sys.admitted;
  }

  /**
   * While a client is connected nothing of the connection is lost between acceptance and the socket: what
   * was sent, what is pending and what is queued is exactly what was accepted.
   */
  lemma NothingIsLostBeforeTheSocket(sys: System)
    requires Reachable(sys) && sys.link.client && sys.link.connected && !sys.link.disconnect
    ensures sys.link.offset <= |sys.link.pending|
    ensures sys.sent + sys.link.pending[sys.link.offset..] + Flatten(sys.link.queue) == Flatten(Frames(sys.admitted))
  {
    hide Frames, Flatten, Playable, StreamOk, KeyOk, LinkOk;
    ReachableOk(sys);
    WireSplits(sys.admitted, sys.taken, |sys.admitted|);
    assert sys.admitted[..|sys.admitted|] == sys.admitted;
    assert sys.admitted[sys.taken..|sys.admitted|] == sys.admitted[sys.taken..];
  }

  /**
   * No predictive frame is dropped in the middle of a connection: the packets of a stream accepted during
   * one connection are a contiguous run of those it published, starting with a keyframe; and while the
   * stream is live the run reaches to the last packet that has been through publish().
   */
  lemma AcceptedRunIsContiguous(sys: System, s: nat)
    requires Reachable(sys) && s < MONITOR_COUNT
    ensures |sys.workers| == MONITOR_COUNT && |sys.link.waiting| == MONITOR_COUNT
    ensures var w := sys.workers[s];
      var own := Of(sys.admitted, s);
      && w.first + |own| <= |w.published| && own == w.published[w.first..w.first + |own|]
      && (own != [] ==> own[0].keyframe)
      && (sys.link.connected && !sys.link.disconnect && !sys.link.waiting[s] && w.phase != Halted ==>
            own != [] && w.first + |own| == |w.published| - (if InPublish(w) then 1 else 0))
  {
    hide Of, Playable, E.Orderly, LinkOk, WireOk;
    ReachableOk(sys);
    LinkShape(sys.link, sys.run);
    assert StreamOk(sys.link, sys.workers[s], Of(sys.admitted, s), s);
  }

  /** What each stream publishes is well made and strictly increasing in time. */
  lemma PublishedIsOrderly(sys: System, s: nat, i: nat, j: nat)
    requires Reachable(sys) && s < MONITOR_COUNT
    requires |sys.workers| == MONITOR_COUNT && i < j < |sys.workers[s].published|
    ensures var published := sys.workers[s].published;
      && published[i].ptsUs < published[j].ptsUs
      && E.WellMade(published[i], s) && E.WellMade(published[j], s)
  {
    ReachableOk(sys);
    var w := sys.workers[s];
    assert StreamOk(sys.link, w, Of(sys.admitted, s), s);
    var pts := E.PtsOf(w.published) + w.enc.inFlight;
    assert pts[i] < pts[j];
    assert w.published[i] in w.published && w.published[j] in w.published;
  }

  /**
   * No keyframe request is lost: whenever the lock is free, a client is connected and a stream still waits
   * for a keyframe, its request flag is set or its worker still has to force one, whatever the worker is
   * doing. While the worker runs, more is known: a keyframe that is to be forced is still to come, or the
   * forced frame is inside encode() and its keyframe has not been through publish() yet.
   */
  lemma NoKeyframeRequestIsLost(sys: System, s: nat)
    requires Reachable(sys) && s < MONITOR_COUNT && !sys.run.Accepting?
    ensures |sys.workers| == |sys.link.waiting| == |sys.link.force| == MONITOR_COUNT
    ensures sys.link.connected && !sys.link.disconnect && sys.link.waiting[s]
            ==> sys.link.force[s] || sys.workers[s].forcePending
    ensures sys.link.connected && !sys.link.disconnect && sys.link.waiting[s]
            && sys.workers[s].phase != Halted && !sys.workers[s].flushing
            ==> sys.link.force[s] || Owed(sys.workers[s])
  {
    ReachableOk(sys);
    assert KeyOk(sys.link, sys.run, sys.workers[s], s);
  }

  /** Bounded transport memory, and an empty queue whenever no connection can use it. */
  lemma MemoryIsBounded(sys: System)
    requires Reachable(sys)
    ensures var l := sys.link;
      && l.queuedBytes == T.Total(l.queue)
      && |l.queue| <= 12 && l.queuedBytes <= 16 * 1024 * 1024
      && l.queuedBytes + |l.pending| <= 24 * 1024 * 1024 + 32
      && (!l.connected || l.disconnect ==> l.queue == [])
      && (!l.client ==> l.pending == [])
  {
    ReachableOk(sys);
  }

  // ---------------------------------------------------------------------------------------------
  // Every access unit and every packet, step by step
  // ---------------------------------------------------------------------------------------------

  /**
   * What becomes of an access unit the codec gives back: a predictive picture reaches publish() with its own
   * bytes, an IDR picture behind the cached sets it lacks, and only what is refused ends the worker.
   */
  lemma AccessUnitReachesPublish(sys: System, s: nat, raw: seq<byte>)
    requires Enabled(sys, Receive(s, raw))
    ensures var e := sys.workers[s].enc;
      var after := Next(sys, Receive(s, raw)).workers[s];
      var sets := (e.sps != [] || A.HasType(raw, 7)) && (e.pps != [] || A.HasType(raw, 8));
      var prefix := (if A.HasType(raw, 7) then [] else e.sps) + (if A.HasType(raw, 8) then [] else e.pps);
      var predictive := S.Scans(raw) && A.HasType(raw, 1) && !A.HasType(raw, 5);
      var idr := S.Scans(raw) && A.HasType(raw, 5) && sets;
      && (predictive ==> after.phase == Publishing(Packet(s, e.inFlight[0], false, raw)))
      && (idr ==> after.phase == Publishing(Packet(s, e.inFlight[0], true, prefix + raw)))
      && (after.phase == Halted <==> !predictive && !idr)
      && after.published == sys.workers[s].published + if predictive || idr then [after.phase.p] else []
  {
    hide A.Prepared, A.HasType, A.EndsInLongStartCode, A.StartsWithNal;
    var e := sys.workers[s].enc;
    O.OutcomeExactly(raw, e.sps, e.pps);
    O.BytesExactly(raw, e.sps, e.pps);
  }

  /** The first section of publish() refuses only a predictive frame, and counts it. */
  lemma AdmitOutcome(sys: System, s: nat)
    requires Enabled(sys, Admit(s))
    ensures var l, p := sys.link, sys.workers[s].phase.p;
      var next := Next(sys, Admit(s));
      var usable := l.connected && !l.disconnect;
      && next.admitted == sys.admitted
      && next.workers[s].phase == (if usable && (p.keyframe || !l.waiting[s]) then Framing(p) else Encoding)
      && next.link == l.(dropped := l.dropped + if usable && l.waiting[s] && !p.keyframe then 1 else 0)
  {
  }

  /**
   * The second section of publish(), in every reachable state. A packet that may pass ends the connection if
   * and only if twelve frames are queued, or the queued frames and its own exceed 16 MiB. Otherwise the queue
   * is as before with the frame behind it, and the packet is accepted.
   */
  lemma EnqueueOutcome(sys: System, s: nat)
    requires Reachable(sys) && Enabled(sys, Enqueue(s)) && Sendable(sys.workers[s].phase.p)
    ensures var l, p := sys.link, sys.workers[s].phase.p;
      var next := Next(sys, Enqueue(s));
      var usable := l.connected && !l.disconnect;
      var may := usable && (p.keyframe || !l.waiting[s]);
      var full := |l.queue| >= 12 || T.Total(l.queue) + 32 + |p.bytes| > 16 * 1024 * 1024;
      && next.workers[s].phase == Encoding && next.sent == sys.sent
      && (may && !full ==>
            && next.link.queue == l.queue + [Frame(p)] && next.admitted == sys.admitted + [p]
            && next.link.connected && !next.link.disconnect && !next.link.waiting[s]
            && next.link.dropped == l.dropped && next.link.slow == l.slow)
      && (may && full ==>
            && next.link.queue == [] && next.admitted == sys.admitted && next.link.disconnect
            && next.link.dropped == l.dropped + |l.queue| + 1 && next.link.slow == l.slow + 1)
      && (!may ==> next.admitted == sys.admitted && next.link == l.(dropped := l.dropped + if usable then 1 else 0))
  {
    hide Frame, T.Enqueue, Inv, Reachable, T.Total;
    MemoryIsBounded(sys);
    var p := sys.workers[s].phase.p;
    T.EnqueueExactly(sys.link, s, p.keyframe, Frame(p));
  }

  /**
   * A predictive picture on a live stream goes from the codec to the queue as it is: whatever the caches
   * hold, while there is room its packet is accepted behind all others.
   */
  lemma PredictiveIsQueued(sys: System, s: nat, raw: seq<byte>)
    requires Reachable(sys) && Enabled(sys, Receive(s, raw)) && !sys.run.Accepting?
    requires sys.link.connected && !sys.link.disconnect && !sys.link.waiting[s]
    requires S.Scans(raw) && A.HasType(raw, 1) && !A.HasType(raw, 5) && |raw| <= 8 * 1024 * 1024
    requires sys.workers[s].enc.inFlight[0] < 0x8000_0000_0000_0000
    requires |sys.link.queue| < 12 && T.Total(sys.link.queue) + 32 + |raw| <= 16 * 1024 * 1024
    ensures var p := Packet(s, sys.workers[s].enc.inFlight[0], false, raw);
      var r := AfterSteps(sys, [Receive(s, raw), Admit(s), Enqueue(s)]);
      && Sendable(p) && r.Reached?
      && r.sys.admitted == sys.admitted + [p] && r.sys.link.queue == sys.link.queue + [Frame(p)]
      && r.sys.link.connected && !r.sys.link.disconnect
  {
    hide Frame, T.Enqueue, T.Admit, A.HasType, A.EndsInLongStartCode, A.StartsWithNal, AfterSteps, Reachable,
      AfterReceive, AfterEnqueue, Inv;
    var p := Packet(s, sys.workers[s].enc.inFlight[0], false, raw);
    OutstandingTimes(sys, s);
    assert raw != [] by { HasBytes(raw); }
    AccessUnitReachesPublish(sys, s, raw);
    var received := Next(sys, Receive(s, raw));
    ReachableNext(sys, Receive(s, raw));
    AdmitOutcome(received, s);
    var framing := Next(received, Admit(s));
    ReachableNext(received, Admit(s));
    EnqueueOutcome(framing, s);
    ThreeSteps(sys, Receive(s, raw), Admit(s), Enqueue(s));
  }

  lemma ThreeSteps(sys: System, first: Step, second: Step, third: Step)
    requires Enabled(sys, first) && Enabled(Next(sys, first), second)
    requires Enabled(Next(Next(sys, first), second), third)
    ensures AfterSteps(sys, [first, second, third]) == Reached(Next(Next(Next(sys, first), second), third))
  {
    hide Next, Enabled, AfterSteps;
    Unfold(sys, first, [second, third]);
    Unfold(Next(sys, first), second, [third]);
    Unfold(Next(Next(sys, first), second), third, []);
    assert [first] + [second, third] == [first, second, third];
    assert [second] + [third] == [second, third];
    assert [third] + [] == [third];
    NoSteps(Next(Next(Next(sys, first), second), third));
  }

  lemma HasBytes(raw: seq<byte>)
    requires S.Scans(raw)
    ensures raw != []
  {
  }

  lemma NoSteps(sys: System)
    ensures AfterSteps(sys, []) == Reached(sys)
  {
  }

  lemma ReachableNext(sys: System, step: Step)
    requires Reachable(sys) && Enabled(sys, step)
    ensures Reachable(Next(sys, step))
  {
    var schedule :| Run(schedule) == Reached(sys);
    assert (schedule + [step])[..|schedule|] == schedule;
    assert Run(schedule + [step]) == Reached(Next(sys, step));
  }

  lemma OutstandingTimes(sys: System, s: nat)
    requires Reachable(sys) && s < |sys.workers| && sys.workers[s].enc.inFlight != []
    ensures s < MONITOR_COUNT && sys.workers[s].enc.inFlight[0] >= 0
  {
    ReachableOk(sys);
    assert StreamOk(sys.link, sys.workers[s], Of(sys.admitted, s), s);
    assert sys.workers[s].enc.inFlight[0] in sys.workers[s].enc.inFlight;
  }

  /** The client goes away and another is accepted: the run loop's own steps, the lock held for the last four. */
  const RECONNECT: seq<Step> := [CloseSocket(false), CloseShared, AcceptClient, RaiseRequest, RaiseRequest,
      AnnounceClient]

  function AfterSteps(sys: System, steps: seq<Step>): (r: Outcome)
    decreases steps
  {
    if steps == [] then Reached(sys)
    else if Enabled(sys, steps[0]) then AfterSteps(Next(sys, steps[0]), steps[1..])
    else Stuck
  }

  /**
   * A whole reconnect between the two critical sections of one publish(): a keyframe becomes the first and
   * only packet of the new connection, a predictive frame is refused, and nothing of the old one remains.
   */
  lemma PublishAcrossReconnect(sys: System, s: nat)
    requires Reachable(sys) && s < |sys.workers| && sys.run == Looping && sys.workers[s].phase.Framing?
    requires Sendable(sys.workers[s].phase.p)
    ensures var p := sys.workers[s].phase.p;
      var r := AfterSteps(sys, RECONNECT + [Enqueue(s)]);
      && r.Reached?
      && r.sys.admitted == (if p.keyframe then [p] else [])
      && r.sys.link.queue == (if p.keyframe then [Frame(p)] else [])
      && r.sys.sent == [] && r.sys.link.force == T.ALL
  {
    hide Frame, E.Orderly, Of, Playable;
    ReachableOk(sys);
    assert StreamOk(sys.link, sys.workers[s], Of(sys.admitted, s), s);
    var renewed := Reconnected(sys);
    ReconnectSteps(sys, [Enqueue(s)]);
    var next := Next(renewed, Enqueue(s));
    assert AfterSteps(renewed, [Enqueue(s)]) == AfterSteps(next, []);
    assert |Frame(sys.workers[s].phase.p)| <= T.FRAME_LIMIT;
  }

  function Reconnected(sys: System): (renewed: System) {
    var l := sys.link;
    sys.(link := T.Link(true, false, T.ALL, [], 0, T.ALL, l.accepted + 1, l.dropped, l.slow, true, [], 0),
         run := Looping, admitted := [], taken := 0, sent := [])
  }

  lemma ReconnectSteps(sys: System, steps: seq<Step>)
    requires sys.run == Looping && |sys.link.force| == MONITOR_COUNT
    ensures AfterSteps(sys, RECONNECT + steps) == AfterSteps(Reconnected(sys), steps)
  {
    hide AfterSteps;
    var a := Next(sys, CloseSocket(false));
    var b := Next(a, CloseShared);
    var c := Next(b, AcceptClient);
    var d := Next(c, RaiseRequest);
    var e := Next(d, RaiseRequest);
    var f := Next(e, AnnounceClient);
    assert RECONNECT + steps == [CloseSocket(false)]
        + ([CloseShared, AcceptClient, RaiseRequest, RaiseRequest, AnnounceClient] + steps);
    assert [CloseShared, AcceptClient, RaiseRequest, RaiseRequest, AnnounceClient] + steps ==
           [CloseShared] + ([AcceptClient, RaiseRequest, RaiseRequest, AnnounceClient] + steps);
    assert [AcceptClient, RaiseRequest, RaiseRequest, AnnounceClient] + steps ==
           [AcceptClient] + ([RaiseRequest, RaiseRequest, AnnounceClient] + steps);
    assert [RaiseRequest, RaiseRequest, AnnounceClient] + steps == [RaiseRequest]
        + ([RaiseRequest, AnnounceClient] + steps);
    assert [RaiseRequest, AnnounceClient] + steps == [RaiseRequest] + ([AnnounceClient] + steps);
    Unfold(sys, CloseSocket(false), [CloseShared, AcceptClient, RaiseRequest, RaiseRequest, AnnounceClient] + steps);
    Unfold(a, CloseShared, [AcceptClient, RaiseRequest, RaiseRequest, AnnounceClient] + steps);
    Unfold(b, AcceptClient, [RaiseRequest, RaiseRequest, AnnounceClient] + steps);
    Unfold(c, RaiseRequest, [RaiseRequest, AnnounceClient] + steps);
    Unfold(d, RaiseRequest, [AnnounceClient] + steps);
    Unfold(e, AnnounceClient, steps);
    assert e.link.force == T.ALL;
    assert f == Reconnected(sys);
  }

  lemma Unfold(sys: System, step: Step, steps: seq<Step>)
    requires Enabled(sys, step)
    ensures AfterSteps(sys, [step] + steps) == AfterSteps(Next(sys, step), steps)
  {
    assert ([step] + steps)[1..] == steps;
  }
}
