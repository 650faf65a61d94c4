/** The worker loop of host/stream_main.cpp: which frames are encoded, and which of them are forced. */
module WorkerLoop {
  import opened Bytes
  import opened Clocks

  const REPEAT_AFTER: real := 1.0
  const FIRST_FRAME_WITHIN: real := 10.0

  type Sample = int

  /**
   * One pass of the loop: what next() returned, whether a keyframe was requested, when it looked at the clock.
   * Or next() failed, and the loop goes on with a new session that captures to the CPU.
   */
  datatype Pass = Pass(sample: Option<Sample>, requested: bool, checked: real) | Retry

  /** One call of encode(): the frame, in which pass, and when it was done. */
  datatype Submission = Submission(frame: Sample, forced: bool, repeat: bool, pass: nat, done: real)

  function Samples(passes: seq<Pass>): (s: seq<Sample>) {
    if passes == [] then []
    else
      var last := passes[|passes| - 1];
      Samples(passes[..|passes| - 1]) + if last.Pass? && last.sample.Some? then [last.sample.value] else []
  }

  /** How many samples the current session has given. */
  function Fresh(passes: seq<Pass>): (n: nat) {
    if passes == [] || passes[|passes| - 1].Retry? then 0
    else Fresh(passes[..|passes| - 1]) + if passes[|passes| - 1].sample.Some? then 1 else 0
  }

  /** The first pass of the current session. */
  function SessionStart(passes: seq<Pass>): (pass: nat)
    ensures pass <= |passes|
  {
    if passes == [] then 0
    else if passes[|passes| - 1].Retry? then |passes|
    else SessionStart(passes[..|passes| - 1])
  }

  /** The frames submitted for the first time. */
  function FirstTimes(submitted: seq<Submission>): (s: seq<Sample>) {
    if submitted == [] then []
    else
      var last := submitted[|submitted| - 1];
      FirstTimes(submitted[..|submitted| - 1]) + if last.repeat then [] else [last.frame]
  }

  /** The first pass after submission s - 1. */
  function After(submitted: seq<Submission>, s: nat): (pass: nat)
    requires s <= |submitted|
  {
    if s == 0 then 0 else submitted[s - 1].pass + 1
  }

  /** The pass asks for a keyframe. */
  predicate Asks(pass: Pass) {
    pass.Retry? || pass.requested
  }

  ghost predicate Requested(passes: seq<Pass>, from: nat, to: nat) {
    exists p :: from <= p < to && p < |passes| && Asks(passes[p])
  }

  /** A submission is forced exactly when a keyframe was requested, or the session changed, since the one before. */
  ghost predicate ForcedOnRequest(passes: seq<Pass>, submitted: seq<Submission>) {
    forall s :: 0 <= s < |submitted|
        ==> (submitted[s].forced <==> Requested(passes, After(submitted, s), submitted[s].pass + 1))
  }

  /** A repeat shows the session's last frame again: on request, or when nothing was submitted for a second. */
  ghost predicate RepeatsAreDue(passes: seq<Pass>, submitted: seq<Submission>) {
    forall s :: 0 <= s < |submitted| && submitted[s].repeat ==> IsDue(passes, submitted, s)
  }

  ghost predicate IsDue(passes: seq<Pass>, submitted: seq<Submission>, s: nat)
    requires s < |submitted|
  {
    var own := submitted[s];
    && s > 0 && own.frame == submitted[s - 1].frame
    && own.pass < |passes| && passes[own.pass].Pass? && SessionStart(passes[..own.pass]) <= submitted[s - 1].pass
    && (own.forced || passes[own.pass].checked - submitted[s - 1].done >= 1.0)
  }

  ghost predicate InPassOrder(passes: seq<Pass>, submitted: seq<Submission>) {
    && (forall s :: 0 <= s < |submitted| ==> submitted[s].pass < |passes|)
    && (forall s :: 0 < s < |submitted| ==> submitted[s - 1].pass < submitted[s].pass)
  }

  /** The frame a repeat would show: the last one of this session. */
  function Repeatable(passes: seq<Pass>, submitted: seq<Submission>): (frame: Option<Sample>) {
    if submitted == [] || submitted[|submitted| - 1].pass < SessionStart(passes) then None
    else Some(submitted[|submitted| - 1].frame)
  }

  ghost predicate Consistent(passes: seq<Pass>, submitted: seq<Submission>) {
    && FirstTimes(submitted) == Samples(passes)
    && InPassOrder(passes, submitted)
    && ForcedOnRequest(passes, submitted)
    && RepeatsAreDue(passes, submitted)
  }

  class Loop {
    const clock: Clock
    const started: real
    var forcePending: bool
    var lastSample: Option<Sample>
    var lastSubmit: real
    var consumed: nat
    var repeated: nat
    ghost var passes: seq<Pass>
    ghost var submitted: seq<Submission>

    /**
     * Every sample is submitted once, in order; between them only due repeats, never of a frame of an earlier
     * session. A keyframe request is never lost: it forces the next submission, or is still pending.
     */
    ghost predicate Valid()
      reads this
    {
      && Consistent(passes, submitted)
      && consumed == Fresh(passes) && repeated == |submitted| - |FirstTimes(submitted)|
      && (forcePending <==> Requested(passes, After(submitted, |submitted|), |passes|))
      && lastSample == Repeatable(passes, submitted)
      && lastSubmit == (if submitted == [] then started else submitted[|submitted| - 1].done)
    }

    /** In the middle of a pass: its request has been taken. */
    ghost predicate During(pass: Pass)
      reads this
    {
      && Consistent(passes, submitted)
      && consumed == Fresh(passes) && repeated == |submitted| - |FirstTimes(submitted)|
      && (forcePending <==> Requested(passes, After(submitted, |submitted|), |passes|) || Asks(pass))
      && lastSample == Repeatable(passes, submitted)
      && lastSubmit == (if submitted == [] then started else submitted[|submitted| - 1].done)
    }

    constructor (clock: Clock)
      ensures Valid() && this.clock == clock && started == clock.time && passes == [] && submitted == []
    {
      this.clock, started := clock, clock.time;
      forcePending, lastSample, lastSubmit := false, None, clock.time;
      consumed, repeated, passes, submitted := 0, 0, [], [];
      new;
      hide Consistent, Requested;
      NothingYet();
    }

    /** next() failed on a DMA session: a new session captures to the CPU, and a keyframe is forced. */
    method Retry()
      requires Valid()
      modifies this
      ensures Valid() && passes == old(passes) + [Pass.Retry] && submitted == old(submitted)
      ensures forcePending && lastSample == None && consumed == 0
    {
      hide FirstTimes, Samples, Fresh, SessionStart, Consistent, Requested, After;
      PassAlone(passes, submitted, Pass.Retry);
      lastSample, forcePending, consumed := None, true, 0;
      passes := passes + [Pass.Retry];
    }

    /** One pass. A pass that submits nothing had no sample, and nothing to repeat or no repeat due. */
    method Iterate(sample: Option<Sample>, requested: bool) returns (ok: bool)
      requires Valid()
      modifies this, clock
      ensures Valid() && clock.time >= old(clock.time)
      ensures |passes| == |old(passes)| + 1 && old(passes) == passes[..|old(passes)|]
      ensures var pass := passes[|old(passes)|]; pass.Pass? && pass.sample == sample && pass.requested == requested
      ensures old(submitted) <= submitted && |submitted| <= |old(submitted)| + 1
      ensures submitted == old(submitted) ==>
                && sample == None
                && (lastSample == None || (!forcePending && passes[|old(passes)|].checked - lastSubmit < 1.0))
      ensures ok <==> Fresh(passes) > 0 || clock.time - started <= 10.0
    {
      hide FirstTimes, Samples, Fresh, SessionStart, Consistent, Requested, Repeatable, After;
      forcePending := forcePending || requested;
      var now := clock.Now();
      var repeat := sample == None && lastSample.Some? && (forcePending || now - lastSubmit >= REPEAT_AFTER);
      ghost var pass := Pass(sample, requested, now);
      if sample.Some? || repeat {
        Submit(sample, pass);
      } else {
        PassAlone(passes, submitted, pass);
        passes := passes + [pass];
      }
      now := clock.Now();
      return !(consumed == 0 && now - started > FIRST_FRAME_WITHIN);
    }

    /** The sample, or else the last frame again, is encoded. */
    method Submit(sample: Option<Sample>, ghost pass: Pass)
      requires pass.Pass? && pass.sample == sample && During(pass)
      requires sample == None ==> lastSample.Some? && (forcePending || pass.checked - lastSubmit >= 1.0)
      modifies this, clock
      ensures Valid() && clock.time >= old(clock.time)
      ensures passes == old(passes) + [pass]
      ensures |submitted| == |old(submitted)| + 1 && old(submitted) <= submitted
    {
      hide FirstTimes, Samples, Fresh, SessionStart, Consistent, Requested, After;
      var frame := if sample.Some? then sample.value else lastSample.value;
      var forced := forcePending;
      var done := clock.Now();
      ghost var s := Submission(frame, forced, sample == None, |passes|, done);
      PassSubmits(passes, submitted, pass, s);
      lastSubmit, forcePending := done, false;
      if sample.Some? {
        consumed := consumed + 1;
        lastSample := sample;
      } else {
        repeated := repeated + 1;
      }
      passes, submitted := passes + [pass], submitted + [s];
    }
  }

  /**
   * A worker that has run for ten seconds does not survive a retry whose first pass gives no sample: the
   * limit on the first frame counts from the start of the worker, not from that of the session.
   */
  method PassAfterRetry(loop: Loop, requested: bool) returns (ok: bool)
    requires loop.Valid()
    modifies loop, loop.clock
    ensures loop.Valid() && loop.clock.time >= old(loop.clock.time)
    ensures ok <==> loop.clock.time - loop.started <= 10.0
  {
    loop.Retry();
    ghost var before := loop.passes;
    ok := loop.Iterate(None, requested);
    assert loop.passes[..|loop.passes| - 1] == before;
  }

  /** A worker eleven seconds old retries, and its first call of next() times out. */
  method RetryEndsAnOldWorker() returns (ok: bool)
    ensures !ok
  {
    var clock := new Clock(0.0);
    var loop := new Loop(clock);
    clock.time := 11.0;
    ok := PassAfterRetry(loop, false);
  }

  lemma FirstTimesSnoc(submitted: seq<Submission>, s: Submission)
    ensures FirstTimes(submitted + [s]) == FirstTimes(submitted) + if s.repeat then [] else [s.frame]
  {
    assert (submitted + [s])[..|submitted|] == submitted;
  }

  lemma NothingYet()
    ensures Consistent([], []) && !Requested([], After([], 0), 0) && Repeatable([], []) == None
    ensures Fresh([]) == 0 && FirstTimes([]) == []
  {
  }

  /** A pass that submits nothing, because it has no sample. */
  lemma PassAlone(passes: seq<Pass>, submitted: seq<Submission>, pass: Pass)
    requires Consistent(passes, submitted) && (pass.Pass? ==> pass.sample == None)
    ensures var more := passes + [pass];
      && Consistent(more, submitted)
      && Fresh(more) == (if pass.Retry? then 0 else Fresh(passes))
      && (Requested(more, After(submitted, |submitted|), |more|)
          <==> Requested(passes, After(submitted, |submitted|), |passes|) || Asks(pass))
      && Repeatable(more, submitted) == (if pass.Retry? then None else Repeatable(passes, submitted))
  {
    hide FirstTimes, Samples, Fresh, SessionStart, InPassOrder, ForcedOnRequest, RepeatsAreDue, Requested, After;
    PassAdded(passes, submitted, pass);
    LastPass(passes, submitted);
    SessionStarted(passes, submitted);
    RequestAdded(passes, pass, After(submitted, |submitted|));
  }

  /** A pass that submits its sample, or repeats the last frame when that is due. */
  lemma PassSubmits(passes: seq<Pass>, submitted: seq<Submission>, pass: Pass, s: Submission)
    requires Consistent(passes, submitted) && pass.Pass? && s.pass == |passes| && s.repeat == (pass.sample == None)
    requires s.forced <==> Requested(passes, After(submitted, |submitted|), |passes|) || pass.requested
    requires pass.sample.Some? ==> s.frame == pass.sample.value
    requires s.repeat ==>
               && Repeatable(passes, submitted) == Some(s.frame)
               && (s.forced || pass.checked - submitted[|submitted| - 1].done >= 1.0)
    ensures var more, all := passes + [pass], submitted + [s];
      && Consistent(more, all)
      && Fresh(more) == Fresh(passes) + (if s.repeat then 0 else 1)
      && |FirstTimes(all)| == |FirstTimes(submitted)| + (if s.repeat then 0 else 1)
      && !Requested(more, After(all, |all|), |more|)
      && Repeatable(more, all) == Some(s.frame)
  {
    hide FirstTimes, Samples, Fresh, SessionStart, InPassOrder, ForcedOnRequest, RepeatsAreDue, Requested, After;
    PassAdded(passes, submitted, pass);
    LastPass(passes, submitted);
    SessionStarted(passes, submitted);
    RequestAdded(passes, pass, After(submitted, |submitted|));
    SubmissionAdded(passes, pass, submitted, s);
    FirstTimesSnoc(submitted, s);
  }

  lemma PassAdded(passes: seq<Pass>, submitted: seq<Submission>, pass: Pass)
    requires InPassOrder(passes, submitted) && ForcedOnRequest(passes, submitted) && RepeatsAreDue(passes, submitted)
    ensures var more := passes + [pass];
      && InPassOrder(more, submitted) && ForcedOnRequest(more, submitted) && RepeatsAreDue(more, submitted)
      && Samples(more) == Samples(passes) + (if pass.Pass? && pass.sample.Some? then [pass.sample.value] else [])
      && Fresh(more) == (if pass.Retry? then 0 else Fresh(passes) + if pass.sample.Some? then 1 else 0)
      && SessionStart(more) == (if pass.Retry? then |more| else SessionStart(passes))
  {
    var more := passes + [pass];
    assert more[..|passes|] == passes;
    hide Requested, SessionStart, Samples, Fresh;
    forall s: nat | s < |submitted| && submitted[s].repeat
      ensures IsDue(more, submitted, s)
    {
      assert IsDue(passes, submitted, s);
      assert more[..submitted[s].pass] == passes[..submitted[s].pass];
    }
    forall s | 0 <= s < |submitted|
      ensures Requested(more, After(submitted, s), submitted[s].pass + 1)
              <==> Requested(passes, After(submitted, s), submitted[s].pass + 1)
      ensures more[..submitted[s].pass] == passes[..submitted[s].pass]
    {
      SameRequests(passes, pass, After(submitted, s), submitted[s].pass + 1);
    }
    Recent(passes, pass);
  }

  lemma Recent(passes: seq<Pass>, pass: Pass)
    ensures var more := passes + [pass];
      && Samples(more) == Samples(passes) + (if pass.Pass? && pass.sample.Some? then [pass.sample.value] else [])
      && Fresh(more) == (if pass.Retry? then 0 else Fresh(passes) + if pass.sample.Some? then 1 else 0)
      && SessionStart(more) == (if pass.Retry? then |more| else SessionStart(passes))
  {
    assert (passes + [pass])[..|passes|] == passes;
  }

  lemma RequestAdded(passes: seq<Pass>, pass: Pass, from: nat)
    requires from <= |passes|
    ensures Requested(passes + [pass], from, |passes| + 1) <==> Requested(passes, from, |passes|) || Asks(pass)
  {
    hide Asks;
    var more := passes + [pass];
    if Asks(pass) {
      assert Asks(more[|passes|]);
    }
    if Requested(passes, from, |passes|) {
      var p :| from <= p < |passes| && Asks(passes[p]);
      assert Asks(more[p]);
    }
    if Requested(more, from, |more|) && !Asks(pass) {
      var p :| from <= p < |more| && Asks(more[p]);
      assert Asks(passes[p]);
    }
  }

  lemma SessionStarted(passes: seq<Pass>, submitted: seq<Submission>)
    requires InPassOrder(passes, submitted)
    ensures SessionStart(passes) <= |passes|
    ensures submitted != [] ==> submitted[|submitted| - 1].pass < |passes|
  {
  }

  lemma LastPass(passes: seq<Pass>, submitted: seq<Submission>)
    requires InPassOrder(passes, submitted)
    ensures After(submitted, |submitted|) <= |passes|
  {
  }

  lemma SameRequests(passes: seq<Pass>, pass: Pass, from: nat, to: nat)
    requires to <= |passes|
    ensures Requested(passes + [pass], from, to) <==> Requested(passes, from, to)
  {
    forall p | from <= p < to
      ensures (passes + [pass])[p] == passes[p]
    {
    }
  }

  /** A submission in the newest pass, forced as requested and repeated only if due. */
  lemma SubmissionAdded(passes: seq<Pass>, pass: Pass, submitted: seq<Submission>, s: Submission)
    requires InPassOrder(passes, submitted) && s.pass == |passes|
    requires var more := passes + [pass];
      && ForcedOnRequest(more, submitted) && RepeatsAreDue(more, submitted)
      && (s.forced <==> Requested(more, After(submitted, |submitted|), |more|))
    requires pass.Pass?
    requires s.repeat ==>
               && submitted != [] && s.frame == submitted[|submitted| - 1].frame
               && SessionStart(passes) <= submitted[|submitted| - 1].pass
               && (s.forced || pass.checked - submitted[|submitted| - 1].done >= 1.0)
    ensures var more := passes + [pass];
      && InPassOrder(more, submitted + [s]) && ForcedOnRequest(more, submitted + [s])
          && RepeatsAreDue(more, submitted + [s])
      && !Requested(more, After(submitted + [s], |submitted| + 1), |more|)
  {
    hide Requested, ForcedOnRequest, RepeatsAreDue;
    ForcedSnoc(passes + [pass], submitted, s);
    DueSnoc(passes, pass, submitted, s);
    NothingRequested(passes + [pass]);
  }

  lemma ForcedSnoc(passes: seq<Pass>, submitted: seq<Submission>, s: Submission)
    requires ForcedOnRequest(passes, submitted)
        && (s.forced <==> Requested(passes, After(submitted, |submitted|), s.pass + 1))
    ensures ForcedOnRequest(passes, submitted + [s])
  {
    hide Requested;
    forall k | 0 <= k <= |submitted|
      ensures After(submitted + [s], k) == After(submitted, k)
    {
    }
  }

  lemma DueSnoc(passes: seq<Pass>, pass: Pass, submitted: seq<Submission>, s: Submission)
    requires RepeatsAreDue(passes + [pass], submitted) && s.pass == |passes|
    requires pass.Pass?
    requires s.repeat ==>
               && submitted != [] && s.frame == submitted[|submitted| - 1].frame
               && SessionStart(passes) <= submitted[|submitted| - 1].pass
               && (s.forced || pass.checked - submitted[|submitted| - 1].done >= 1.0)
    ensures RepeatsAreDue(passes + [pass], submitted + [s])
  {
    hide SessionStart, IsDue;
    var more, all := passes + [pass], submitted + [s];
    forall k: nat | k < |all| && all[k].repeat
      ensures IsDue(more, all, k)
    {
      if k < |submitted| {
        assert IsDue(more, submitted, k);
        StaysDue(more, submitted, s, k);
      } else {
        NewIsDue(passes, pass, submitted, s);
      }
    }
  }

  lemma StaysDue(passes: seq<Pass>, submitted: seq<Submission>, s: Submission, k: nat)
    requires k < |submitted| && IsDue(passes, submitted, k)
    ensures IsDue(passes, submitted + [s], k)
  {
  }

  lemma NewIsDue(passes: seq<Pass>, pass: Pass, submitted: seq<Submission>, s: Submission)
    requires s.pass == |passes| && pass.Pass? && s.repeat
    requires submitted != [] && s.frame == submitted[|submitted| - 1].frame
    requires SessionStart(passes) <= submitted[|submitted| - 1].pass
    requires s.forced || pass.checked - submitted[|submitted| - 1].done >= 1.0
    ensures IsDue(passes + [pass], submitted + [s], |submitted|)
  {
    hide SessionStart;
    assert (passes + [pass])[..|passes|] == passes;
  }

  lemma NothingRequested(passes: seq<Pass>)
    ensures !Requested(passes, |passes|, |passes|)
  {
  }
}
