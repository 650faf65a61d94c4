/**
 * What the counters and the request flags of the streaming host say about a whole schedule: every packet
 * offered to a client is accounted for once, and no keyframe is forced that nobody asked for.
 */
module Accounting {
  import opened Bytes
  import opened Qstv
  import opened Pipeline
  import E = Encoder
  import T = Transport

  /** The sum of a figure over the steps of a schedule, each taken with the state it starts in. */
  function Sum(schedule: seq<Step>, figure: (System, Step) -> nat): (total: nat) {
    if schedule == [] then 0
    else
      var n := |schedule| - 1;
      Sum(schedule[..n], figure)
          + match Run(schedule[..n])
            case Stuck => 0
            case Reached(sys) => figure(sys, schedule[n])
  }

  lemma SumStep(schedule: seq<Step>, figure: (System, Step) -> nat)
    requires Run(schedule).Reached? && schedule != []
    ensures var n := |schedule| - 1;
      && Run(schedule[..n]).Reached?
      && Enabled(Run(schedule[..n]).sys, schedule[n])
      && Run(schedule).sys == Next(Run(schedule[..n]).sys, schedule[n])
      && Sum(schedule, figure) == Sum(schedule[..n], figure) + figure(Run(schedule[..n]).sys, schedule[n])
  {
    hide Enabled, Next;
  }

  // ---------------------------------------------------------------------------------------------
  // Packets offered to a client
  // ---------------------------------------------------------------------------------------------

  /** publish() ends here, with a client that can be served: refused in the first section, or in the second. */
  function Offers(sys: System, step: Step): (n: nat) {
    if sys.link.connected && !sys.link.disconnect && (step.Admit? || step.Enqueue?)
       && step.s < |sys.workers| && step.s < |sys.link.waiting|
    then
      var w := sys.workers[step.s];
      if step.Admit? then if w.phase.Publishing? && sys.link.waiting[step.s] && !w.phase.p.keyframe then 1 else 0
      else if w.phase.Framing? && Sendable(w.phase.p) then 1 else 0
    else 0
  }

  /** run() takes a frame for the socket. */
  function Takes(sys: System, step: Step): (n: nat) {
    if step.TakeFrame? then 1 else 0
  }

  /** A connection ends with frames still queued. */
  function Discards(sys: System, step: Step): (n: nat) {
    if step.CloseShared? then |sys.link.queue| else 0
  }

  /** A packet meets a full queue and ends the connection. */
  function Overflows(sys: System, step: Step): (n: nat) {
    if step.Enqueue? && step.s < |sys.workers| && step.s < |sys.link.waiting| && sys.workers[step.s].phase.Framing?
    then
      var l, p := sys.link, sys.workers[step.s].phase.p;
      if l.connected && !l.disconnect && Sendable(p) && (p.keyframe || !l.waiting[step.s])
         && (|l.queue| >= 12 || l.queuedBytes + 32 + |p.bytes| > 16 * 1024 * 1024) then 1 else 0
    else 0
  }

  /** A client has taken no byte for two seconds. */
  function Stalls(sys: System, step: Step): (n: nat) {
    if step == CloseSocket(true) then 1 else 0
  }

  function Clients(sys: System, step: Step): (n: nat) {
    if step.AcceptClient? then 1 else 0
  }

  /**
   * Conservation: after any schedule, every packet that was offered to a client is counted as dropped, was
   * taken for the socket, went with the queue of a connection that ended, or is queued.
   */
  lemma {:induction false} EveryOfferIsAccounted(schedule: seq<Step>)
    requires Run(schedule).Reached?
    ensures var l := Run(schedule).sys.link;
      Sum(schedule, Offers) == l.dropped + Sum(schedule, Takes) + Sum(schedule, Discards) + |l.queue|
  {
    hide Sum, Run, Next, Enabled, Offers, Takes, Discards;
    if schedule == [] {
      NothingYet(Offers);
      NothingYet(Takes);
      NothingYet(Discards);
    } else {
      SumStep(schedule, Offers);
      SumStep(schedule, Takes);
      SumStep(schedule, Discards);
      var n := |schedule| - 1;
      EveryOfferIsAccounted(schedule[..n]);
      OfferStep(Run(schedule[..n]).sys, schedule[n]);
    }
  }

  lemma NothingYet(figure: (System, Step) -> nat)
    ensures Sum([], figure) == 0 && Run([]) == Reached(START)
  {
  }

  lemma OfferStep(sys: System, step: Step)
    requires Enabled(sys, step)
    ensures var l, m := sys.link, Next(sys, step).link;
      Offers(sys, step) + l.dropped + |l.queue|
      == m.dropped + Takes(sys, step) + Discards(sys, step) + |m.queue|
  {
    hide Frame, AfterReceive;
  }

  /** The slow-client counter is the number of stalls and overflows, and the connection counter that of clients. */
  lemma {:induction false} SlowCountsStallsAndOverflows(schedule: seq<Step>)
    requires Run(schedule).Reached?
    ensures var sys := Run(schedule).sys;
      && sys.link.slow == Sum(schedule, Stalls) + Sum(schedule, Overflows)
      && sys.link.accepted + (if sys.run.Accepting? then 1 else 0) == Sum(schedule, Clients)
  {
    hide Sum, Run, Next, Enabled, Stalls, Overflows, Clients;
    if schedule == [] {
      NothingYet(Stalls);
      NothingYet(Overflows);
      NothingYet(Clients);
    } else {
      SumStep(schedule, Stalls);
      SumStep(schedule, Overflows);
      SumStep(schedule, Clients);
      var n := |schedule| - 1;
      SlowCountsStallsAndOverflows(schedule[..n]);
      SlowStep(Run(schedule[..n]).sys, schedule[n]);
    }
  }

  lemma SlowStep(sys: System, step: Step)
    requires Enabled(sys, step)
    ensures var next := Next(sys, step);
      && next.link.slow == sys.link.slow + Stalls(sys, step) + Overflows(sys, step)
      && next.link.accepted + (if next.run.Accepting? then 1 else 0)
         == sys.link.accepted + (if sys.run.Accepting? then 1 else 0) + Clients(sys, step)
  {
    hide AfterReceive, E.Submitted;
    if step.Enqueue? {
      SlowEnqueue(sys, step.s);
    }
  }

  lemma SlowEnqueue(sys: System, s: nat)
    requires Enabled(sys, Enqueue(s))
    ensures var next := Next(sys, Enqueue(s));
      && next.link.slow == sys.link.slow + Overflows(sys, Enqueue(s))
      && next.link.accepted == sys.link.accepted && next.run == sys.run
  {
    hide T.Enqueue;
    var p := sys.workers[s].phase.p;
    if Sendable(p) {
      T.EnqueueExactly(sys.link, s, p.keyframe, Frame(p));
    }
  }

  // ---------------------------------------------------------------------------------------------
  // Forced keyframes
  // ---------------------------------------------------------------------------------------------

  /** Stream s submits a frame that is to become a keyframe. */
  function Forces(s: nat): (figure: (System, Step) -> nat) {
    (sys: System, step: Step) =>
      if step.Submit? && step.s == s && s < |sys.workers| && sys.workers[s].forcePending then 1 else 0
  }

  /** The capture of stream s is started again. */
  function Retries(s: nat): (figure: (System, Step) -> nat) {
    (sys: System, step: Step) => if step == RetryCapture(s) then 1 else 0
  }

  /** A keyframe of stream s has been asked for and not been forced yet. */
  function Outstanding(sys: System, s: nat): (n: nat)
    requires s < |sys.workers| && s < |sys.link.force|
  {
    (if sys.workers[s].phase == Idle && sys.workers[s].forcePending then 1 else 0)
    + if sys.link.force[s] then 1 else 0
  }

  /** The flag of stream s has not been raised yet for the client being accepted. */
  function Unraised(sys: System, s: nat): (n: nat) {
    if sys.run.Accepting? && sys.run.raised <= s then 1 else 0
  }

  /** The flag of stream s is raised for the client being accepted. */
  function Raised(sys: System, step: Step, s: nat): (n: nat) {
    if step.RaiseRequest? && sys.run == Accepting(s) then 1 else 0
  }

  /**
   * No keyframe is forced unasked: after any schedule, those forced on a stream and those still to be forced
   * are at most one for each client and one for each time its capture was started again.
   */
  lemma {:induction false} NoKeyframeIsForcedUnasked(schedule: seq<Step>, s: nat)
    requires Run(schedule).Reached? && s < MONITOR_COUNT
    ensures var sys := Run(schedule).sys;
      && |sys.workers| == |sys.link.force| == MONITOR_COUNT
      && Sum(schedule, Forces(s)) + Outstanding(sys, s) + Unraised(sys, s)
         <= Sum(schedule, Clients) + Sum(schedule, Retries(s))
  {
    hide Sum, Run, Next, Enabled, Forces, Retries, Clients, Outstanding, Unraised;
    if schedule == [] {
      NothingYet(Forces(s));
      NothingYet(Retries(s));
      NothingYet(Clients);
      NothingOutstanding(s);
    } else {
      SumStep(schedule, Forces(s));
      SumStep(schedule, Retries(s));
      SumStep(schedule, Clients);
      var n := |schedule| - 1;
      NoKeyframeIsForcedUnasked(schedule[..n], s);
      ForceStep(Run(schedule[..n]).sys, schedule[n], s);
    }
  }

  lemma NothingOutstanding(s: nat)
    requires s < MONITOR_COUNT
    ensures |START.workers| == |START.link.force| == MONITOR_COUNT
    ensures Outstanding(START, s) == Unraised(START, s) == 0
  {
  }

  lemma ForceStep(sys: System, step: Step, s: nat)
    requires Enabled(sys, step) && s < MONITOR_COUNT && |sys.workers| == |sys.link.force| == MONITOR_COUNT
    ensures var next := Next(sys, step);
      && |next.workers| == |next.link.force| == MONITOR_COUNT
      && Forces(s)(sys, step) + Outstanding(next, s) + Unraised(next, s)
         <= Outstanding(sys, s) + Unraised(sys, s) + Clients(sys, step) + Retries(s)(sys, step)
  {
    hide Forces, Outstanding, Clients, Retries;
    if WorkerStep(step) {
      ForceWorkerStep(sys, step, s);
    } else {
      ForceRunStep(sys, step, s);
    }
  }

  lemma ForceWorkerStep(sys: System, step: Step, s: nat)
    requires WorkerStep(step) && WorkerEnabled(sys, step)
    requires s < MONITOR_COUNT && |sys.workers| == |sys.link.force| == MONITOR_COUNT
    ensures var next := WorkerNext(sys, step);
      && |next.workers| == |next.link.force| == MONITOR_COUNT && next.run == sys.run
      && Forces(s)(sys, step) + Outstanding(next, s) <= Outstanding(sys, s) + Retries(s)(sys, step)
  {
    hide Frame, E.Submitted, E.Emitted;
    if step.Enqueue? {
      EnqueueForcesNothing(sys, step.s);
    }
  }

  lemma EnqueueForcesNothing(sys: System, t: nat)
    requires WorkerEnabled(sys, Enqueue(t))
    ensures var next := AfterEnqueue(sys, t);
      && next.link.force == sys.link.force && next.run == sys.run && |next.workers| == |sys.workers|
      && next.workers[t].phase != Idle && sys.workers[t].phase != Idle
      && forall s :: 0 <= s < |sys.workers| && s != t ==> next.workers[s] == sys.workers[s]
  {
    hide T.Enqueue;
    var p := sys.workers[t].phase.p;
    if Sendable(p) {
      T.EnqueueExactly(sys.link, t, p.keyframe, Frame(p));
    }
  }

  lemma ForceRunStep(sys: System, step: Step, s: nat)
    requires !WorkerStep(step) && RunEnabled(sys, step)
    requires s < MONITOR_COUNT && |sys.workers| == |sys.link.force| == MONITOR_COUNT
    ensures var next := RunNext(sys, step);
      && |next.link.force| == MONITOR_COUNT && next.workers == sys.workers
      && Forces(s)(sys, step) == Retries(s)(sys, step) == 0
      && Outstanding(next, s) + Unraised(next, s) <= Outstanding(sys, s) + Unraised(sys, s) + Clients(sys, step)
  {
    hide Outstanding;
    assert Outstanding(RunNext(sys, step), s) <= Outstanding(sys, s) + Raised(sys, step, s) by {
      OutstandingRunStep(sys, step, s);
    }
  }

  lemma OutstandingRunStep(sys: System, step: Step, s: nat)
    requires !WorkerStep(step) && RunEnabled(sys, step)
    requires s < MONITOR_COUNT && |sys.workers| == |sys.link.force| == MONITOR_COUNT
    ensures var next := RunNext(sys, step);
      && |next.link.force| == MONITOR_COUNT && next.workers == sys.workers
      && Outstanding(next, s) <= Outstanding(sys, s) + Raised(sys, step, s)
  {
    hide T.Total, T.Accept, T.CloseSocket, T.Advance, T.Reset;
    var l := sys.link;
    assert T.Accept(l).force == l.force && T.Reset(l).force == l.force by { ForceKept(l, 0, false); }
    match step
    case SendBytes(n) => ForceKept(l, n, false);
    case CloseSocket(stalled) => ForceKept(l, 0, stalled);
    case _ =>
  }

  lemma ForceKept(l: T.Link, n: nat, stalled: bool)
    ensures T.Accept(l).force == T.Reset(l).force == T.Advance(l, n).force == T.CloseSocket(l, stalled).force == l.force
  {
  }
}
