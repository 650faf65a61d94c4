/**
 * TransportServer of host/transport/tcp_server.cpp. Every method is one uninterrupted step: a critical
 * section, an atomic exchange, or work on the locals of run(). publish() is two critical sections with
 * unlocked framing between them, so a connection can end and another begin inside one call.
 */
module Transport {
  import opened Bytes
  import opened Qstv

  const QUEUE_PACKETS: nat := 12
  const QUEUE_BYTES: nat := 16 * 1024 * 1024

  /** The fields under the mutex, the request flags and counters, and the locals of run(). */
  datatype Link = Link(
    connected: bool, disconnect: bool, waiting: seq<bool>, queue: seq<seq<byte>>, queuedBytes: nat,
    force: seq<bool>, accepted: nat, dropped: nat, slow: nat,
    client: bool, pending: seq<byte>, offset: nat)

  const ALL: seq<bool> := [true, true]
  const NONE: seq<bool> := [false, false]
  const INITIAL: Link := Link(false, false, NONE, [], 0, NONE, 0, 0, 0, false, [], 0)

  datatype Verdict = Ignored | Skipped | Proceed | Overflowed | Queued

  function Total(queue: seq<seq<byte>>): (bytes: nat) {
    if queue == [] then 0 else |queue[0]| + Total(queue[1..])
  }

  // ---------------------------------------------------------------------------------------------
  // The steps, as functions of the state
  // ---------------------------------------------------------------------------------------------

  /** First critical section of publish. */
  function Admit(l: Link, id: nat, key: bool): (r: (Link, Verdict))
    requires id < |l.waiting|
  {
    if !l.connected || l.disconnect then (l, Ignored)
    else if l.waiting[id] && !key then (l.(dropped := l.dropped + 1), Skipped)
    else (l, Proceed)
  }

  /** Second critical section of publish: the connection may be another one by now. */
  function Enqueue(l: Link, id: nat, key: bool, framed: seq<byte>): (r: (Link, Verdict))
    requires id < |l.waiting|
  {
    if !l.connected || l.disconnect then (l, Ignored)
    else if l.waiting[id] && !key then (l.(dropped := l.dropped + 1), Skipped)
    else
      var m := l.(waiting := l.waiting[id := false]);
      if |l.queue| >= QUEUE_PACKETS || l.queuedBytes + |framed| > QUEUE_BYTES then
        (m.(dropped := l.dropped + |l.queue| + 1, queue := [], queuedBytes := 0, disconnect := true,
            slow := l.slow + 1), Overflowed)
      else (m.(queuedBytes := l.queuedBytes + |framed|, queue := l.queue + [framed]), Queued)
  }

  /** run() moves the front of the queue to its own buffer. */
  function Take(l: Link): (m: Link)
    requires l.queue != [] && l.queuedBytes >= |l.queue[0]|
  {
    l.(pending := l.queue[0], queue := l.queue[1..], queuedBytes := l.queuedBytes - |l.queue[0]|, offset := 0)
  }

  /** send() took n more bytes of the pending frame. */
  function Advance(l: Link, n: nat): (m: Link) {
    if l.offset + n == |l.pending| then l.(pending := [], offset := 0) else l.(offset := l.offset + n)
  }

  /** closeClient before its lock: the socket and the locals of run(). A stalled client has been counted. */
  function CloseSocket(l: Link, stalled: bool): (m: Link) {
    l.(client := false, pending := [], offset := 0, slow := if stalled then l.slow + 1 else l.slow)
  }

  /** closeClient under its lock. */
  function Reset(l: Link): (m: Link) {
    l.(connected := false, disconnect := false, queue := [], queuedBytes := 0, waiting := ALL)
  }

  /** A client was accepted: under the lock, before the request flags are raised one by one. */
  function Accept(l: Link): (m: Link) {
    l.(client := true, connected := true, waiting := ALL)
  }

  function Raise(l: Link, id: nat): (m: Link)
    requires id < |l.force|
  {
    l.(force := l.force[id := true])
  }

  /** The last statement under the lock of an accept. */
  function Announce(l: Link): (m: Link) {
    l.(accepted := l.accepted + 1)
  }

  /** takeKeyframeRequest: exchange(false). */
  function TakeRequest(l: Link, id: nat): (r: (Link, bool))
    requires id < |l.force|
  {
    (l.(force := l.force[id := false]), l.force[id])
  }

  // ---------------------------------------------------------------------------------------------
  // Invariant of the state
  // ---------------------------------------------------------------------------------------------

  const FRAME_LIMIT: nat := HEADER_SIZE + MAX_PAYLOAD

  /** Bounded memory: exact byte accounting, 12 frames and 16 MiB queued, one frame of 8 MiB + 32 bytes pending. */
  ghost predicate Bounded(l: Link) {
    && l.queuedBytes == Total(l.queue)
    && |l.queue| <= QUEUE_PACKETS && l.queuedBytes <= QUEUE_BYTES
    && |l.pending| <= FRAME_LIMIT
    && (forall f :: f in l.queue ==> 0 < |f| <= FRAME_LIMIT)
    && (if l.pending == [] then l.offset == 0 else l.offset < |l.pending|)
  }

  ghost predicate Shaped(l: Link) {
    && |l.waiting| == MONITOR_COUNT && |l.force| == MONITOR_COUNT
    && (l.disconnect ==> l.connected)
    && (!l.connected || l.disconnect ==> l.queue == [])
    && (!l.client ==> l.pending == [])
  }

  lemma {:induction false} TotalAppend(a: seq<seq<byte>>, b: seq<seq<byte>>)
    ensures Total(a + b) == Total(a) + Total(b)
  {
    if a == [] {
      assert a + b == b;
    } else {
      assert (a + b)[0] == a[0] && (a + b)[1..] == a[1..] + b;
      TotalAppend(a[1..], b);
    }
  }

  lemma EnqueueKeeps(l: Link, id: nat, key: bool, framed: seq<byte>)
    requires Bounded(l) && Shaped(l) && id < MONITOR_COUNT && 0 < |framed| <= FRAME_LIMIT
    ensures Bounded(Enqueue(l, id, key, framed).0) && Shaped(Enqueue(l, id, key, framed).0)
  {
    TotalAppend(l.queue, [framed]);
    assert Total([framed]) == |framed| + Total([]);
  }

  /**
   * The second section, case by case. A packet is refused only while its stream waits for a keyframe; one
   * that may pass ends the connection if and only if twelve frames are queued or the queue would exceed
   * 16 MiB, and is queued behind the others otherwise. Each case says what is counted.
   */
  lemma EnqueueExactly(l: Link, id: nat, key: bool, framed: seq<byte>)
    requires id < |l.waiting|
    ensures var r := Enqueue(l, id, key, framed);
      var usable := l.connected && !l.disconnect;
      var full := |l.queue| >= 12 || l.queuedBytes + |framed| > 16 * 1024 * 1024;
      && (!usable ==> r == (l, Ignored))
      && (usable && l.waiting[id] && !key ==> r == (l.(dropped := l.dropped + 1), Skipped))
      && (usable && (key || !l.waiting[id]) ==>
            && r.0.waiting == l.waiting[id := false]
            && r.0.queue == (if full then [] else l.queue + [framed])
            && r.0.queuedBytes == (if full then 0 else l.queuedBytes + |framed|)
            && r.0.disconnect == full && r.0.slow == l.slow + (if full then 1 else 0)
            && r.0.dropped == l.dropped + (if full then |l.queue| + 1 else 0)
            && r.1 == (if full then Overflowed else Queued)
            && r.0 == l.(waiting := r.0.waiting, queue := r.0.queue, queuedBytes := r.0.queuedBytes,
                         disconnect := r.0.disconnect, slow := r.0.slow, dropped := r.0.dropped))
  {
  }

  lemma TakeKeeps(l: Link)
    requires Bounded(l) && Shaped(l) && l.client && l.queue != []
    ensures l.queuedBytes >= |l.queue[0]| && Bounded(Take(l)) && Shaped(Take(l))
  {
    assert forall f :: f in l.queue[1..] ==> f in l.queue;
    assert l.queue[0] in l.queue;
  }

  /** A packet that meets an empty queue never overflows it. */
  lemma EmptyQueueNeverOverflows(l: Link, id: nat, key: bool, framed: seq<byte>)
    requires Bounded(l) && id < |l.waiting| && l.queue == [] && |framed| <= FRAME_LIMIT
    ensures !Enqueue(l, id, key, framed).1.Overflowed?
  {
  }

  /** What clientConnected() returns. */
  predicate Usable(l: Link) {
    l.connected && !l.disconnect
  }

  /**
   * What clientConnected() is worth: while it is false, publish() changes nothing in either section; while
   * it is true, a keyframe passes the first section, and in the second it is queued, or its overflow ends
   * the connection and clientConnected() with it.
   */
  lemma UsableMeansServed(l: Link, id: nat, framed: seq<byte>)
    requires Shaped(l) && id < MONITOR_COUNT
    ensures Admit(l, id, true).1.Proceed? <==> Usable(l)
    ensures !Usable(l) ==>
              forall key :: Admit(l, id, key) == (l, Ignored) && Enqueue(l, id, key, framed) == (l, Ignored)
    ensures Usable(l) ==>
              var r := Enqueue(l, id, true, framed);
              && (r.1.Queued? <==> Usable(r.0))
              && (r.1.Queued? ==> r.0.queue == l.queue + [framed] && !r.0.waiting[id])
              && (!r.1.Queued? ==> r.1.Overflowed? && r.0.queue == [])
  {
  }

  // ---------------------------------------------------------------------------------------------
  // The object
  // ---------------------------------------------------------------------------------------------

  class TransportServer {
    var connected: bool
    var disconnect: bool
    const waitingForKeyframe: array<bool>
    var queue: seq<seq<byte>>
    var queuedBytes: nat
    const forceKeyframe: array<bool>
    var accepted: nat
    var dropped: nat
    var slow: nat
    // locals of run()
    var client: bool
    var pending: seq<byte>
    var offset: nat

    ghost function Abs(): (l: Link)
      reads this, waitingForKeyframe, forceKeyframe
    {
      Link(connected, disconnect, waitingForKeyframe[..], queue, queuedBytes,
           forceKeyframe[..], accepted, dropped, slow, client, pending, offset)
    }

    ghost predicate Valid()
      reads this, waitingForKeyframe, forceKeyframe
    {
      waitingForKeyframe != forceKeyframe && Bounded(Abs()) && Shaped(Abs())
    }

    constructor ()
      ensures Valid() && fresh(waitingForKeyframe) && fresh(forceKeyframe) && Abs() == INITIAL
    {
      connected, disconnect, client := false, false, false;
      waitingForKeyframe := new bool[2](_ => false);
      forceKeyframe := new bool[2](_ => false);
      queue, queuedBytes, pending, offset := [], 0, [], 0;
      accepted, dropped, slow := 0, 0, 0;
      new;
      assert waitingForKeyframe[..] == NONE && forceKeyframe[..] == NONE;
    }

    /** publish, up to the unlocked framing. An unknown stream throws, but only once a client is connected. */
    method PublishAdmit(monitorId: int, keyframe: bool) returns (r: Result<Verdict, ()>)
      requires Valid()
      modifies this`dropped
      ensures Valid()
      ensures r.Failure? <==> connected && !disconnect && !(0 <= monitorId < MONITOR_COUNT)
      ensures r.Failure? ==> Abs() == old(Abs())
      ensures r.Success? && 0 <= monitorId < MONITOR_COUNT
          ==> (Abs(), r.value) == Admit(old(Abs()), monitorId, keyframe)
      ensures r.Success? && !(0 <= monitorId < MONITOR_COUNT) ==> Abs() == old(Abs()) && r.value == Ignored
      ensures connected && !disconnect && 0 <= monitorId < 2 ==>
                var refused := waitingForKeyframe[monitorId] && !keyframe;
                r == Success(if refused then Skipped else Proceed)
                    && dropped == old(dropped) + if refused then 1 else 0
    {
      if !connected || disconnect {
        return Success(Ignored);
      }
      if monitorId < 0 || monitorId >= waitingForKeyframe.Length {
        return Failure(());
      }
      if waitingForKeyframe[monitorId] && !keyframe {
        dropped := dropped + 1;
        return Success(Skipped);
      }
      return Success(Proceed);
    }

    /**
     * publish, after the framing: the state is read afresh. A packet that may pass is queued, unless twelve
     * frames are queued already or it would take the queue beyond 16 MiB; then the connection is to end.
     */
    method PublishEnqueue(monitorId: nat, keyframe: bool, framed: seq<byte>) returns (v: Verdict)
      requires Valid() && monitorId < MONITOR_COUNT && 0 < |framed| <= FRAME_LIMIT
      modifies this`dropped, this`queue, this`queuedBytes, this`disconnect, this`slow, waitingForKeyframe
      ensures Valid()
      ensures (Abs(), v) == Enqueue(old(Abs()), monitorId, keyframe, framed)
      ensures var usable := old(connected) && !old(disconnect);
        var may := usable && (keyframe || !old(waitingForKeyframe[monitorId]));
        var full := |old(queue)| >= 12 || old(queuedBytes) + |framed| > 16 * 1024 * 1024;
        && (v == Queued <==> may && !full) && (v == Overflowed <==> may && full)
        && (v == Skipped <==> usable && !may) && (v == Ignored <==> !usable)
      ensures disconnect == (old(disconnect) || v == Overflowed)
      ensures queue == if v == Queued then old(queue) + [framed] else if v == Overflowed then [] else old(queue)
    {
      hide Bounded;
      ghost var before := Abs();
      EnqueueKeeps(before, monitorId, keyframe, framed);
      assert old(waitingForKeyframe[..])[monitorId] == old(waitingForKeyframe[monitorId]);
      if !connected || disconnect {
        return Ignored;
      }
      if waitingForKeyframe[monitorId] {
        if !keyframe {
          dropped := dropped + 1;
          return Skipped;
        }
        waitingForKeyframe[monitorId] := false;
      }
      assert waitingForKeyframe[..] == old(waitingForKeyframe[..])[monitorId := false];
      if |queue| >= QUEUE_PACKETS || queuedBytes + |framed| > QUEUE_BYTES {
        dropped, slow := dropped + |queue| + 1, slow + 1;
        queue, queuedBytes, disconnect := [], 0, true;
        return Overflowed;
      }
      queuedBytes := queuedBytes + |framed|;
      queue := queue + [framed];
      return Queued;
    }

    /** The locked top of the run loop: it reports a requested disconnect, or takes the next frame. */
    method RunTop() returns (closing: bool)
      requires Valid() && (client || !connected)
      modifies this`pending, this`queue, this`queuedBytes, this`offset
      ensures Valid() && closing == disconnect
      ensures !closing && old(pending) == [] && old(queue) != [] ==> [pending] + queue == old(queue) && offset == 0
      ensures Abs() == if !closing && old(pending) == [] && old(queue) != [] then Take(old(Abs())) else old(Abs())
    {
      if disconnect {
        return true;
      }
      if pending == [] && queue != [] {
        TakeKeeps(Abs());
        pending, queue := queue[0], queue[1..];
        queuedBytes := queuedBytes - |pending|;
        offset := 0;
      }
      return false;
    }

    /** closeClient, before it takes the lock. */
    method CloseClientSocket(stalled: bool)
      requires Valid()
      modifies this`client, this`pending, this`offset, this`slow
      ensures Valid() && Abs() == CloseSocket(old(Abs()), stalled)
      ensures !client && pending == [] && slow == old(slow) + if stalled then 1 else 0
    {
      if stalled {
        slow := slow + 1;
      }
      client := false;
      pending, offset := [], 0;
    }

    /** closeClient, under the lock. */
    method CloseClientShared()
      requires Valid()
      modifies this`connected, this`disconnect, this`queue, this`queuedBytes, waitingForKeyframe
      ensures Valid() && Abs() == Reset(old(Abs()))
      ensures !connected && !disconnect && queue == [] && waitingForKeyframe[..] == [true, true]
    {
      connected, disconnect := false, false;
      queue, queuedBytes := [], 0;
      forall i | 0 <= i < waitingForKeyframe.Length {
        waitingForKeyframe[i] := true;
      }
      assert waitingForKeyframe[..] == ALL;
    }

    /** accept4 succeeded with no client: the locked section up to the request flags. */
    method AcceptClient()
      requires Valid() && !client && !connected
      modifies this`client, this`connected, waitingForKeyframe
      ensures Valid() && Abs() == Accept(old(Abs()))
      ensures client && connected && waitingForKeyframe[..] == [true, true]
    {
      client := true;
      connected := true;
      forall i | 0 <= i < waitingForKeyframe.Length {
        waitingForKeyframe[i] := true;
      }
      assert waitingForKeyframe[..] == ALL;
    }

    /** One iteration of the loop that raises the request flags. */
    method RaiseRequest(id: nat)
      requires Valid() && id < MONITOR_COUNT
      modifies forceKeyframe
      ensures Valid() && Abs() == Raise(old(Abs()), id)
      ensures forceKeyframe[id] && forceKeyframe[1 - id] == old(forceKeyframe[1 - id])
    {
      forceKeyframe[id] := true;
    }

    method AnnounceClient()
      requires Valid()
      modifies this`accepted
      ensures Valid() && Abs() == Announce(old(Abs()))
      ensures accepted == old(accepted) + 1
    {
      accepted := accepted + 1;
    }

    /** send() accepted n bytes of the pending frame. */
    method SendSome(n: nat)
      requires Valid() && pending != [] && 1 <= n <= |pending| - offset
      modifies this`pending, this`offset
      ensures Valid() && Abs() == Advance(old(Abs()), n)
      ensures pending[offset..] == old(pending)[old(offset) + n..]
          && (pending == [] <==> old(offset) + n == |old(pending)|)
    {
      offset := offset + n;
      if offset == |pending| {
        pending, offset := [], 0;
      }
    }

    /** takeKeyframeRequest, for the stream ids the workers use. */
    method TakeKeyframeRequest(id: nat) returns (requested: bool)
      requires Valid() && id < MONITOR_COUNT
      modifies forceKeyframe
      ensures Valid() && (Abs(), requested) == TakeRequest(old(Abs()), id)
      ensures requested == old(forceKeyframe[id]) && !forceKeyframe[id]
      ensures forceKeyframe[1 - id] == old(forceKeyframe[1 - id])
    {
      requested := forceKeyframe[id];
      forceKeyframe[id] := false;
    }

    method ClientConnected() returns (r: bool)
      ensures r <==> Usable(Abs())
    {
      return connected && !disconnect;
    }
  }
}
