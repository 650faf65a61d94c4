/**
 * tools/headset-watch.py: device listings arrive in arbitrary pieces from adb; the monitors belong to a
 * headset from the listing that shows it until it has been missing for a while.
 */
module HeadsetWatch {
  import opened AdbListings
  import opened Bytes
  import opened Clocks
  import opened Text

  type Serial = string

  const UNPLUG_GRACE: real := 3.0

  // ---------------------------------------------------------------------------------------------
  // The watcher
  // ---------------------------------------------------------------------------------------------

  datatype Command = Reverse(serial: Serial) | Attach(serial: Serial) | Detach

  /** What the main loop does: a read with what it returned, or a look at the clock. */
  datatype Turn = Read(chunk: seq<byte>) | Ticked(at: real)

  datatype Observation = Observation(present: set<Serial>, at: real)

  /** Since when no listing has shown a Quest: the first of the empty ones at the end, or the start. */
  function MissingSince(start: real, seen: seq<Observation>): (since: Option<real>) {
    if seen == [] then Some(start)
    else
      var last := seen[|seen| - 1];
      if last.present != {} then None
      else
        var before := MissingSince(start, seen[..|seen| - 1]);
        if before.Some? then before else Some(last.at)
  }

  /** Whether the display service has last been started rather than stopped. */
  function RunningAfter(running: bool, commands: seq<Command>): (after: bool) {
    if commands == [] then running
    else
      match commands[|commands| - 1]
      case Attach(_) => true
      case Detach => false
      case Reverse(_) => RunningAfter(running, commands[..|commands| - 1])
  }

  lemma MissingAfter(start: real, seen: seq<Observation>, o: Observation)
    ensures MissingSince(start, seen + [o])
            == if o.present != {} then None else if MissingSince(start, seen).Some? then MissingSince(start, seen)
                else Some(o.at)
  {
    assert (seen + [o])[..|seen|] == seen;
  }

  lemma RunningSnoc(running: bool, commands: seq<Command>, c: Command)
    ensures RunningAfter(running, commands + [c]) == if c.Reverse? then RunningAfter(running, commands) else c.Attach?
  {
    assert (commands + [c])[..|commands|] == commands;
  }

  /** Every stop finds the service running. */
  ghost predicate OnlyRunningStops(running: bool, commands: seq<Command>) {
    forall k :: 0 <= k < |commands| && commands[k] == Detach ==> RunningAfter(running, commands[..k])
  }

  lemma OnlyRunningStopsSnoc(running: bool, commands: seq<Command>, c: Command)
    requires OnlyRunningStops(running, commands) && (c == Detach ==> RunningAfter(running, commands))
    ensures OnlyRunningStops(running, commands + [c])
  {
    forall k | 0 <= k < |commands + [c]| && (commands + [c])[k] == Detach
      ensures RunningAfter(running, (commands + [c])[..k])
    {
      assert (commands + [c])[..k] == commands[..k];
      if k == |commands| {
        assert commands[..k] == commands;
      }
    }
  }

  function Presents(seen: seq<Observation>): (p: seq<set<Serial>>)
    ensures |p| == |seen|
  {
    seq(|seen|, i requires 0 <= i < |seen| => seen[i].present)
  }

  function Serials(questSerials: seq<byte> -> set<Serial>, listings: seq<seq<byte>>): (p: seq<set<Serial>>)
    ensures |p| == |listings|
  {
    seq(|listings|, i requires 0 <= i < |listings| => questSerials(listings[i]))
  }

  lemma DropShortens(b: seq<byte>, i: int)
    ensures |PyDrop(b, i)| <= |b|
  {
  }

  lemma SliceSnoc<T>(a: seq<T>, x: T, n: nat)
    requires n <= |a|
    ensures (a + [x])[n..] == a[n..] + [x]
  {
  }

  lemma PresentsSnoc(seen: seq<Observation>, o: Observation)
    ensures Presents(seen + [o]) == Presents(seen) + [o.present]
  {
  }

  lemma PresentsAppend(a: seq<Observation>, b: seq<Observation>)
    ensures Presents(a + b) == Presents(a) + Presents(b)
  {
  }

  lemma SerialsSnoc(questSerials: seq<byte> -> set<Serial>, listings: seq<seq<byte>>, listing: seq<byte>)
    ensures Serials(questSerials, listings + [listing]) == Serials(questSerials, listings) + [questSerials(listing)]
  {
  }

  lemma SerialsAppend(questSerials: seq<byte> -> set<Serial>, a: seq<seq<byte>>, b: seq<seq<byte>>)
    ensures Serials(questSerials, a + b) == Serials(questSerials, a) + Serials(questSerials, b)
  {
  }

  /** Turn 2 i is the read of piece i, and the turn after it is a tick. */
  ghost predicate OneTickAfterEachRead(turns: seq<Turn>, chunks: seq<seq<byte>>) {
    && |turns| <= 2 * |chunks|
    && forall i :: 0 <= i < |turns| ==> if i % 2 == 0 then turns[i] == Read(chunks[i / 2]) else turns[i].Ticked?
  }

  class Watcher {
    const questSerials: seq<byte> -> set<Serial>
    const clock: Clock
    const start: real
    const wasRunning: bool
    var buffer: seq<byte>
    var attached: Option<Serial>
    var missingSince: Option<real>
    var running: bool
    var commands: seq<Command>
    ghost var seen: seq<Observation>
    ghost var turns: seq<Turn>

    ghost predicate Valid()
      reads this
    {
      && missingSince == MissingSince(start, seen)
      && (attached.Some? ==> running)
      && running == RunningAfter(wasRunning, commands)
      && OnlyRunningStops(wasRunning, commands)
    }

    constructor (questSerials: seq<byte> -> set<Serial>, clock: Clock, wasRunning: bool)
      ensures Valid() && seen == [] && commands == [] && buffer == [] && attached == None && running == wasRunning
      ensures turns == []
      ensures this.questSerials == questSerials && this.clock == clock && this.wasRunning == wasRunning
    {
      this.questSerials, this.clock, this.wasRunning := questSerials, clock, wasRunning;
      start := clock.time;
      buffer, attached, missingSince, running, commands, seen := [], None, Some(clock.time), wasRunning, [], [];
      turns := [];
    }

    /** A listing that shows a Quest ends its absence: the owner stays, or the first one shown takes over. */
    method Observe(present: set<Serial>)
      requires Valid()
      modifies this`attached, this`missingSince, this`running, this`commands, this`seen, clock
      ensures Valid() && clock.time >= old(clock.time)
      ensures seen == old(seen) + [Observation(present, clock.time)]
      ensures present == {} ==> attached == old(attached) && running == old(running) && commands == old(commands)
      ensures present != {} ==> attached.Some? && attached.value in present
      ensures old(attached).Some? && old(attached).value in present ==>
                attached == old(attached)
                && commands == old(commands) + if old(missingSince).Some? then [Reverse(attached.value)] else []
      ensures present != {} && !(old(attached).Some? && old(attached).value in present) ==>
                && commands == old(commands) + [Attach(attached.value)]
                && forall s :: s in present ==> s == attached.value || Before(attached.value, s)
    {
      hide MissingSince, RunningAfter, OnlyRunningStops, Before;
      var now := clock.Now();
      MissingAfter(start, seen, Observation(present, now));
      seen := seen + [Observation(present, now)];
      if attached.Some? && attached.value in present {
        if missingSince.Some? {
          RunningSnoc(wasRunning, commands, Reverse(attached.value));
          OnlyRunningStopsSnoc(wasRunning, commands, Reverse(attached.value));
          commands := commands + [Reverse(attached.value)];
        }
        missingSince := None;
      } else if present != {} {
        var first := First(present);
        attached, missingSince := Some(first), None;
        RunningSnoc(wasRunning, commands, Attach(first));
        OnlyRunningStopsSnoc(wasRunning, commands, Attach(first));
        commands := commands + [Attach(first)];
        running := true;
      } else if missingSince == None {
        missingSince := Some(now);
      }
    }

    /** One read from adb. The listings observed are those the parser finds in the buffer and the new piece. */
    method Feed(chunk: seq<byte>) returns (stop: Stop)
      requires Valid()
      modifies this, clock
      ensures Valid() && clock.time >= old(clock.time) && turns == old(turns) + [Read(chunk)]
      ensures var p := Parse(old(buffer) + chunk);
        && stop == p.stop && buffer == p.rest
        && old(seen) <= seen && Presents(seen[|old(seen)|..]) == Serials(questSerials, p.listings)
    {
      hide Parse, ParseInt, PyDrop, PySlice, MissingSince, RunningAfter, OnlyRunningStops, Before;
      buffer, turns := buffer + chunk, turns + [Read(chunk)];
      ghost var total, done := buffer, [];
      assert [] + Parse(buffer).listings == Parse(buffer).listings;
      while |buffer| >= 4
        invariant Valid() && clock.time >= old(clock.time) && turns == old(turns) + [Read(chunk)]
        invariant Parse(total) == Parsed(done + Parse(buffer).listings, Parse(buffer).rest, Parse(buffer).stop)
        invariant old(seen) <= seen && Presents(seen[|old(seen)|..]) == Serials(questSerials, done)
        decreases |buffer|
      {
        var size := ParseInt(buffer[..4]);
        if size == None {
          ParseStops(buffer);
          assert done + [] == done;
          return Unreadable;
        }
        if |buffer| < 4 + size.value {
          break;
        }
        var listing, rest := PySlice(buffer, 4, 4 + size.value), PyDrop(buffer, 4 + size.value);
        if |rest| >= |buffer| {
          DropShortens(buffer, 4 + size.value);
          ParseStops(buffer);
          assert done + [] == done;
          return Hangs;  // the source goes on with the same buffer for ever
        }
        ParseFirst(buffer, size.value);
        Associates(done, [listing], Parse(rest).listings);
        ghost var before := seen;
        Observe(questSerials(listing));
        PresentsSnoc(before[|old(seen)|..], seen[|seen| - 1]);
        SliceSnoc(before, seen[|seen| - 1], |old(seen)|);
        SerialsSnoc(questSerials, done, listing);
        buffer := rest;
        done := done + [listing];
      }
      ParseStops(buffer);
      assert done + [] == done;
      return NeedsMore;
    }

    /** The monitors are given up when, and only when, no Quest has been seen for the grace period. */
    method Tick() returns (detached: bool)
      requires Valid()
      modifies this`attached, this`running, this`commands, this`turns, clock
      ensures Valid() && clock.time >= old(clock.time) && turns == old(turns) + [Ticked(clock.time)]
      ensures detached <==>
              && old(running)
              && MissingSince(start, seen).Some? && clock.time - MissingSince(start, seen).value >= 3.0
      ensures detached ==> attached == None && !running && commands == old(commands) + [Detach]
      ensures !detached ==> attached == old(attached) && running == old(running) && commands == old(commands)
    {
      hide RunningAfter, OnlyRunningStops;
      var now := clock.Now();
      turns := turns + [Ticked(now)];
      if (attached.Some? || running) && missingSince.Some? && now - missingSince.value >= UNPLUG_GRACE {
        RunningSnoc(wasRunning, commands, Detach);
        OnlyRunningStopsSnoc(wasRunning, commands, Detach);
        attached, running := None, false;
        commands := commands + [Detach];
        return true;
      }
      return false;
    }

    /**
     * One adb process: pieces of its output, or nothing, each followed by one tick unless the watcher stops on
     * it. The listings observed are those the parser finds piece by piece; AdbListings says when these are the
     * listings of the whole output. When the pieces end, a Quest still served was seen less than 3 s before.
     */
    method Track(chunks: seq<seq<byte>>) returns (stop: Stop)
      requires Valid()
      modifies this, clock
      ensures Valid()
      ensures var p := Fed([], chunks);
        stop == p.stop && old(seen) <= seen && Presents(seen[|old(seen)|..]) == Serials(questSerials, p.listings)
      ensures old(turns) <= turns && OneTickAfterEachRead(turns[|old(turns)|..], chunks)
      ensures |turns| - |old(turns)| == 2 * |chunks| || (stop != NeedsMore && (|turns| - |old(turns)|) % 2 == 1)
      ensures stop == NeedsMore && chunks != [] && running && MissingSince(start, seen).Some? ==>
                clock.time - MissingSince(start, seen).value < 3.0
    {
      hide Parse, Presents, Serials, MissingSince, RunningAfter, OnlyRunningStops;
      buffer := [];
      ghost var done := [];
      var i := 0;
      NothingPresent(questSerials);
      assert chunks[0..] == chunks && [] + Fed([], chunks).listings == Fed([], chunks).listings;
      while i < |chunks|
        invariant i <= |chunks| && Valid()
        invariant var left := Fed(buffer, chunks[i..]);
          Fed([], chunks) == Parsed(done + left.listings, left.rest, left.stop)
        invariant old(seen) <= seen && Presents(seen[|old(seen)|..]) == Serials(questSerials, done)
        invariant old(turns) <= turns && |turns| == |old(turns)| + 2 * i
        invariant OneTickAfterEachRead(turns[|old(turns)|..], chunks)
        invariant i > 0 && running && MissingSince(start, seen).Some? ==>
                    clock.time - MissingSince(start, seen).value < 3.0
      {
        ghost var before, first := seen, Parse(buffer + chunks[i]);
        assert chunks[i..][1..] == chunks[i + 1..];
        stop := Feed(chunks[i]);
        assert seen[|old(seen)|..] == before[|old(seen)|..] + seen[|before|..];
        PresentsAppend(before[|old(seen)|..], seen[|before|..]);
        SerialsAppend(questSerials, done, first.listings);
        if stop != NeedsMore {
          return stop;
        }
        Associates(done, first.listings, Fed(buffer, chunks[i + 1..]).listings);
        done := done + first.listings;
        var _ := Tick();
        i := i + 1;
      }
      assert done + [] == done;
      return NeedsMore;
    }
  }

  lemma NothingPresent(questSerials: seq<byte> -> set<Serial>)
    ensures Presents([]) == [] && Serials(questSerials, []) == []
  {
  }

  /** From listing k on no Quest was shown, while the one before it, if any, showed one. */
  ghost predicate GoneFrom(seen: seq<Observation>, k: nat) {
    && k <= |seen| && (forall i :: k <= i < |seen| ==> seen[i].present == {})
    && (k > 0 ==> k < |seen| && seen[k - 1].present != {})
  }

  /** The absence is counted from the first listing of the last run that showed no Quest, or from the start. */
  lemma {:induction false} MissingMeansNotSeen(start: real, seen: seq<Observation>) returns (k: nat)
    ensures MissingSince(start, seen).Some? <==> seen == [] || seen[|seen| - 1].present == {}
    ensures MissingSince(start, seen).Some? ==>
              GoneFrom(seen, k) && MissingSince(start, seen) == Some(if k == 0 then start else seen[k].at)
  {
    k := 0;
    if seen != [] && seen[|seen| - 1].present == {} {
      var earlier := seen[..|seen| - 1];
      k := MissingMeansNotSeen(start, earlier);
      if MissingSince(start, earlier) == None {
        k := |seen| - 1;
        assert seen[k - 1] == earlier[|earlier| - 1];
      }
    }
  }

  /** The display service is never stopped twice without an attachment in between. */
  lemma {:induction false} StopsAlternate(running: bool, commands: seq<Command>, i: nat, j: nat)
    requires i < j < |commands| && commands[i] == Detach && commands[j] == Detach
    requires OnlyRunningStops(running, commands)
    ensures exists k :: i < k < j && commands[k].Attach?
  {
    SomethingStarted(running, commands, i, j);
  }

  lemma {:induction false} SomethingStarted(running: bool, commands: seq<Command>, i: nat, j: nat)
    requires i < j <= |commands| && commands[i] == Detach && RunningAfter(running, commands[..j])
    ensures exists k :: i < k < j && commands[k].Attach?
    decreases j
  {
    var last := commands[..j][j - 1];
    assert last == commands[j - 1];
    if !last.Attach? {
      assert commands[..j][..j - 1] == commands[..j - 1];
      SomethingStarted(running, commands, i, j - 1);
    }
  }
}
