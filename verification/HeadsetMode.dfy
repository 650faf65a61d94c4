/** Headset mode of host/stream_main.cpp: physical displays go off and on again with some hysteresis. */
module HeadsetMode {
  import opened Clocks

  const OFF_AFTER: real := 1.5
  const ON_AFTER: real := 4.0

  datatype Poll = Poll(connected: bool, at: real)

  /** Since when the polls agree with the last one; before the first poll the link counts as down. */
  function StableSince(start: real, polls: seq<Poll>): (since: real) {
    if polls == [] then start
    else
      var last, earlier := polls[|polls| - 1], polls[..|polls| - 1];
      if last.connected == Connected(earlier) then StableSince(start, earlier) else last.at
  }

  predicate Connected(polls: seq<Poll>) {
    polls != [] && polls[|polls| - 1].connected
  }

  /** The helper's calls: true for off. */
  ghost predicate Alternating(calls: seq<bool>) {
    forall i :: 0 <= i < |calls| ==> calls[i] == (i % 2 == 0)
  }

  class Mode {
    const clock: Clock
    const start: real
    var laptopOff: bool
    var lastConnected: bool
    var changed: real
    var calls: seq<bool>
    ghost var polls: seq<Poll>

    ghost predicate Valid()
      reads this, clock
    {
      && lastConnected == Connected(polls)
      && changed == StableSince(start, polls) <= clock.time
      && Alternating(calls) && laptopOff == (|calls| % 2 == 1)
    }

    constructor (clock: Clock)
      ensures Valid() && this.clock == clock && calls == [] && polls == []
    {
      this.clock, start, changed := clock, clock.time, clock.time;
      laptopOff, lastConnected, calls, polls := false, false, [], [];
    }

    method SetLaptop(off: bool)
      requires Valid() && off != laptopOff
      modifies this`calls, this`laptopOff
      ensures Valid() && calls == old(calls) + [off] && laptopOff == off
    {
      calls := calls + [off];
      laptopOff := off;
    }

    /** One poll: off after more than 1.5 s connected, on after more than 4 s disconnected, else nothing. */
    method Check(connected: bool)
      requires Valid()
      modifies this, clock
      ensures Valid() && clock.time >= old(clock.time)
      ensures |polls| == |old(polls)| + 1 && polls[..|old(polls)|] == old(polls)
      ensures polls[|old(polls)|].connected == connected && old(clock.time) <= polls[|old(polls)|].at <= clock.time
      ensures var stable := clock.time - StableSince(start, polls);
        calls == old(calls)
                 + (if connected && !old(laptopOff) && stable > 1.5 then [true]
                    else if !connected && old(laptopOff) && stable > 4.0 then [false]
                    else [])
    {
      ghost var at := clock.time;
      if connected != lastConnected {
        changed := clock.Now();
        lastConnected, at := connected, changed;
      }
      polls := polls + [Poll(connected, at)];
      assert polls[..|polls| - 1] == old(polls);
      var now := clock.Now();
      if connected && !laptopOff && now - changed > OFF_AFTER {
        SetLaptop(true);
      } else if !connected && laptopOff && now - changed > ON_AFTER {
        SetLaptop(false);
      }
    }

    /**
     * The whole loop polls the link once for each state it has: off and on alternate, and however it ends the
     * last call switches the displays on.
     */
    method Run(connections: seq<bool>)
      requires Valid() && !laptopOff
      modifies this, clock
      ensures Valid() && !laptopOff && |calls| % 2 == 0
      ensures |polls| == |old(polls)| + |connections| && polls[..|old(polls)|] == old(polls)
      ensures forall i :: 0 <= i < |connections| ==> polls[|old(polls)| + i].connected == connections[i]
    {
      var i := 0;
      while i < |connections|
        invariant i <= |connections| && Valid() && |polls| == |old(polls)| + i
        invariant polls[..|old(polls)|] == old(polls)
        invariant forall k :: 0 <= k < i ==> polls[|old(polls)| + k].connected == connections[k]
      {
        ghost var before := polls;
        Check(connections[i]);
        assert polls[..|before|] == before;
        i := i + 1;
      }
      if laptopOff {
        SetLaptop(false);
      }
    }
  }

  /** All polls from `since` on agree with the last one, and the one before them does not. */
  ghost predicate StableFrom(polls: seq<Poll>, k: nat) {
    && k <= |polls| && (forall i :: k <= i < |polls| ==> polls[i].connected == Connected(polls))
    && (k > 0 ==> k < |polls| && Connected(polls[..k]) != Connected(polls))
  }

  /** The link counts as unchanged since the first poll of the last run that agrees, or since the start. */
  lemma {:induction false} StableMeansUnchanged(start: real, polls: seq<Poll>) returns (k: nat)
    ensures StableFrom(polls, k)
    ensures StableSince(start, polls) == if k == 0 && !Connected(polls) then start else polls[k].at
  {
    k := 0;
    if polls != [] {
      var earlier := polls[..|polls| - 1];
      k := StableMeansUnchanged(start, earlier);
      if polls[|polls| - 1].connected != Connected(earlier) {
        k := |polls| - 1;
      } else {
        assert earlier[..k] == polls[..k];
      }
    }
  }
}
