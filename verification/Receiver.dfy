/**
 * tools/receiver.py: read_exact over a byte stream cut anywhere, and the receive loop that demultiplexes
 * QSTV frames. The law at the end: on any prefix of a well-ordered list of frames the loop can only meet
 * the end of the data, and recovers exactly the complete packets.
 */
module Receiver {
  import opened Bytes
  import opened Qstv
  import opened AnnexBTypes

  // ---------------------------------------------------------------------------------------------
  // Reading
  // ---------------------------------------------------------------------------------------------

  /** A TCP connection whose peer has sent `remaining` and then closed; recv cuts it anywhere. */
  class Socket {
    var remaining: seq<byte>

    constructor (data: seq<byte>)
      ensures remaining == data
    {
      remaining := data;
    }

    method Recv(size: nat) returns (block: seq<byte>)
      requires size > 0
      modifies this
      ensures old(remaining) == block + remaining && |block| <= size
      ensures block == [] ==> old(remaining) == []
    {
      if remaining == [] {
        return [];
      }
      var n :| 1 <= n <= size && n <= |remaining|;
      block := remaining[..n];
      remaining := remaining[n..];
    }
  }

  datatype ReadError = Ended | EndedInsideFrame

  /** read_exact: what it returns and leaves depends on the bytes alone, not on how recv cut them. */
  method ReadExact(sock: Socket, size: nat) returns (r: Result<seq<byte>, ReadError>)
    modifies sock
    ensures r == Taken(old(sock.remaining), size)
    ensures r == if size <= |old(sock.remaining)| then Success(old(sock.remaining)[..size])
                 else Failure(if old(sock.remaining) == [] then Ended else EndedInsideFrame)
    ensures sock.remaining == if size <= |old(sock.remaining)| then old(sock.remaining)[size..] else []
  {
    var data: seq<byte> := [];
    while |data| < size
      invariant |data| <= size && data + sock.remaining == old(sock.remaining)
      decreases size - |data|
    {
      var block := sock.Recv(size - |data|);
      if block == [] {
        return Failure(if data != [] then EndedInsideFrame else Ended);
      }
      data := data + block;
    }
    return Success(data);
  }

  function Taken(data: seq<byte>, size: nat): (r: Result<seq<byte>, ReadError>) {
    if size <= |data| then Success(data[..size])
    else Failure(if data != [] then EndedInsideFrame else Ended)
  }

  // ---------------------------------------------------------------------------------------------
  // The receive loop
  // ---------------------------------------------------------------------------------------------

  datatype Stats = Stats(frames: nat, bytes: nat, firstPts: int, lastPts: int, keyframes: nat)

  /** The two dictionaries of main: statistics and file contents by stream. */
  datatype Session = Session(streams: map<int, Stats>, files: map<int, seq<byte>>)

  const NO_SESSION: Session := Session(map[], map[])

  datatype StopReason =
    | TimeUp
    | EndOfData(read: ReadError)
    | BadHeader(header: HeaderError)
    | NotStarted(stream: int)
    | NotIncreasing(stream: int)

  /** A stream check of the loop failed: a ValueError in the source. */
  predicate FailedCheck(stop: StopReason) {
    stop.NotStarted? || stop.NotIncreasing?
  }

  /** One frame of the loop, after both reads: the session it leaves, and the check it fails if any. */
  function Demultiplexed(session: Session, h: Header, payload: seq<byte>): (r: (Session, Result<(), StopReason>)) {
    if h.stream !in session.streams && !(h.key && {5, 7, 8} <= AnnexbTypes(payload))
        then (session, Failure(NotStarted(h.stream)))
    else
      var begun := if h.stream in session.streams then session
                    else Session(session.streams[h.stream := Stats(0, 0, h.ptsUs, -1, 0)],
                        session.files[h.stream := []]);
      var stats := begun.streams[h.stream];
      if h.ptsUs <= stats.lastPts then (begun, Failure(NotIncreasing(h.stream)))
      else
        var file := if h.stream in begun.files then begun.files[h.stream] else [];
        (Session(begun.streams[h.stream := stats.(frames := stats.frames + 1, bytes := stats.bytes + h.size,
                                                  lastPts := h.ptsUs, keyframes := stats.keyframes
                                                      + (if h.key then 1 else 0))],
                 begun.files[h.stream := file + payload]), Success(()))
  }

  /** The loop on the bytes still to come; the clock allows `rounds` more iterations. */
  function Received(data: seq<byte>, session: Session, rounds: nat): (r: (Session, StopReason)) {
    if rounds == 0 then (session, TimeUp)
    else if |data| < HEADER_SIZE then (session, EndOfData(Taken(data, HEADER_SIZE).error))
    else
      var header := ParseHeader(data[..HEADER_SIZE]);
      if header.Failure? then (session, BadHeader(header.error))
      else
        var rest := data[HEADER_SIZE..];
        var size := header.value.size;
        SizeIsPositive(data[..HEADER_SIZE]);
        if |rest| < size then (session, EndOfData(Taken(rest, size).error))
        else
          var next := Demultiplexed(session, header.value, rest[..size]);
          if next.1.Failure? then (next.0, next.1.error)
          else Received(rest[size..], next.0, rounds - 1)
  }

  lemma SizeIsPositive(data: seq<byte>)
    requires |data| == HEADER_SIZE && ParseHeader(data).Success?
    ensures 1 <= ParseHeader(data).value.size <= MAX_PAYLOAD
  {
  }

  /** The receive loop of main, on a socket; `rounds` is how many iterations start before time is up. */
  method Receive(sock: Socket, rounds: nat) returns (session: Session, stop: StopReason)
    modifies sock
    ensures (session, stop) == Received(old(sock.remaining), NO_SESSION, rounds)
  {
    session := NO_SESSION;
    var round := 0;
    while round < rounds
      invariant round <= rounds
      invariant Received(sock.remaining, session, rounds - round) == Received(old(sock.remaining), NO_SESSION, rounds)
    {
      ghost var data := sock.remaining;
      var head := ReadExact(sock, HEADER_SIZE);
      if head.Failure? {
        return session, EndOfData(head.error);
      }
      var header := ParseHeader(head.value);
      if header.Failure? {
        return session, BadHeader(header.error);
      }
      SizeIsPositive(head.value);
      var payload := ReadExact(sock, header.value.size);
      if payload.Failure? {
        return session, EndOfData(payload.error);
      }
      var next, checked := Demultiplex(session, header.value, payload.value);
      session := next;
      if checked.Failure? {
        return session, checked.error;
      }
      round := round + 1;
    }
    return session, TimeUp;
  }

  /** The body of the loop after the reads, statement by statement. */
  method Demultiplex(session: Session, h: Header, payload: seq<byte>)
      returns (next: Session, checked: Result<(), StopReason>)
    ensures (next, checked) == Demultiplexed(session, h, payload)
    ensures var known := h.stream in session.streams;
      && (checked == Failure(NotStarted(h.stream)) <==> !known && !(h.key && {5, 7, 8} <= AnnexbTypes(payload)))
      && (checked == Failure(NotIncreasing(h.stream)) <==>
            if known then h.ptsUs <= session.streams[h.stream].lastPts
            else h.key && {5, 7, 8} <= AnnexbTypes(payload) && h.ptsUs <= -1)
    ensures checked.Success? ==>
              var was := if h.stream in session.streams then session.streams[h.stream]
                         else Stats(0, 0, h.ptsUs, -1, 0);
              next.streams == session.streams[h.stream := Stats(was.frames + 1, was.bytes + h.size, was.firstPts,
                                                                h.ptsUs, was.keyframes + if h.key then 1 else 0)]
    ensures checked.Success? && h.stream !in session.streams ==> next.files == session.files[h.stream := payload]
    ensures checked.Success? && h.stream in session.streams && h.stream in session.files ==>
              next.files == session.files[h.stream := session.files[h.stream] + payload]
  {
    hide AnnexbTypes;
    var streams, files := session.streams, session.files;
    if h.stream !in streams {
      var types := AnnexbTypes(payload);
      if !h.key || !({5, 7, 8} <= types) {
        return session, Failure(NotStarted(h.stream));
      }
      files := files[h.stream := []];
      streams := streams[h.stream := Stats(0, 0, h.ptsUs, -1, 0)];
    }
    var stats := streams[h.stream];
    if h.ptsUs <= stats.lastPts {
      return Session(streams, files), Failure(NotIncreasing(h.stream));
    }
    files := files[h.stream := (if h.stream in files then files[h.stream] else []) + payload];
    stats := stats.(lastPts := h.ptsUs);
    stats := stats.(frames := stats.frames + 1);
    stats := stats.(bytes := stats.bytes + h.size);
    stats := stats.(keyframes := stats.keyframes + (if h.key then 1 else 0));
    assert [] + payload == payload;
    return Session(streams[h.stream := stats], files), Success(());
  }

  // ---------------------------------------------------------------------------------------------
  // The law of the receiver
  // ---------------------------------------------------------------------------------------------

  function Of(ps: seq<Packet>, stream: int): (own: seq<Packet>) {
    if ps == [] then []
    else
      var n := |ps| - 1;
      Of(ps[..n], stream) + (if ps[n].monitorId == stream then [ps[n]] else [])
  }

  function Payloads(ps: seq<Packet>): (payload: seq<byte>) {
    if ps == [] then [] else Payloads(ps[..|ps| - 1]) + ps[|ps| - 1].bytes
  }

  function KeyCount(ps: seq<Packet>): (n: nat) {
    if ps == [] then 0 else KeyCount(ps[..|ps| - 1]) + (if ps[|ps| - 1].keyframe then 1 else 0)
  }

  /** A packet that may follow `own`, the earlier packets of its stream on the connection. */
  predicate MayFollow(own: seq<Packet>, p: Packet) {
    if own == [] then p.keyframe && {5, 7, 8} <= AnnexbTypes(p.bytes)
    else p.ptsUs > own[|own| - 1].ptsUs
  }

  /** `todo` continues `done` as one connection should: every packet may follow those before it. */
  predicate PlayableAfter(done: seq<Packet>, todo: seq<ValidPacket>)
    decreases todo
  {
    todo == [] || (MayFollow(Of(done, todo[0].monitorId), todo[0]) && PlayableAfter(done + [todo[0]], todo[1..]))
  }

  /** A whole connection: each stream starts with IDR, SPS and PPS, and its timestamps increase. */
  predicate Playable(ps: seq<ValidPacket>) {
    PlayableAfter([], ps)
  }

  /** The session holds of one stream exactly what the packets say. */
  predicate DescribesStream(session: Session, ps: seq<Packet>, s: int) {
    var own := Of(ps, s);
    if own == [] then s !in session.streams && s !in session.files
    else
      && s in session.streams && s in session.files
      && session.streams[s] == Stats(|own|, |Payloads(own)|, own[0].ptsUs, own[|own| - 1].ptsUs, KeyCount(own))
      && session.files[s] == Payloads(own)
  }

  ghost predicate Describes(session: Session, ps: seq<Packet>) {
    forall s :: DescribesStream(session, ps, s)
  }

  lemma OfAppend(ps: seq<Packet>, p: Packet, stream: int)
    ensures Of(ps + [p], stream) == if p.monitorId == stream then Of(ps, stream) + [p] else Of(ps, stream)
  {
    assert (ps + [p])[..|ps|] == ps;
  }

  lemma TotalsAppend(own: seq<Packet>, p: Packet)
    ensures Payloads(own + [p]) == Payloads(own) + p.bytes
    ensures KeyCount(own + [p]) == KeyCount(own) + (if p.keyframe then 1 else 0)
  {
    assert (own + [p])[..|own|] == own;
  }

  lemma {:induction false} PlayableAppend(done: seq<Packet>, todo: seq<ValidPacket>, p: ValidPacket)
    ensures PlayableAfter(done, todo + [p]) <==> PlayableAfter(done, todo) && MayFollow(Of(done + todo, p.monitorId), p)
    decreases todo
  {
    if todo == [] {
      assert done + todo == done && todo + [p] == [p];
    } else {
      PlayableAppend(done + [todo[0]], todo[1..], p);
      assert (todo + [p])[1..] == todo[1..] + [p];
      assert done + [todo[0]] + todo[1..] == done + todo;
    }
  }

  /** The packets of one stream begin with a whole IDR, and their times rise. */
  predicate Plays(own: seq<Packet>) {
    && (own != [] ==> own[0].keyframe && {5, 7, 8} <= AnnexbTypes(own[0].bytes))
    && forall i :: 0 < i < |own| ==> own[i - 1].ptsUs < own[i].ptsUs
  }

  lemma PlaysSnoc(own: seq<Packet>, p: Packet)
    ensures Plays(own + [p]) <==> Plays(own) && MayFollow(own, p)
  {
    hide AnnexbTypes;
    var all := own + [p];
    assert forall i :: 0 <= i < |own| ==> all[i] == own[i];
    if Plays(all) {
      forall i | 0 < i < |own|
        ensures own[i - 1].ptsUs < own[i].ptsUs
      {
        assert all[i - 1].ptsUs < all[i].ptsUs;
      }
      assert own != [] ==> all[|own| - 1].ptsUs < all[|own|].ptsUs;
    }
  }

  ghost predicate EachPlays(ps: seq<Packet>) {
    forall s :: Plays(Of(ps, s))
  }

  /** A list is playable if and only if each of its streams begins with IDR, SPS and PPS, and its times rise. */
  lemma {:induction false} PlayableByStream(ps: seq<ValidPacket>)
    ensures Playable(ps) <==> EachPlays(ps)
  {
    hide Plays, MayFollow, PlayableAfter, EachPlays;
    if ps == [] {
      EmptyIsPlayable();
    } else {
      var before, p := ps[..|ps| - 1], ps[|ps| - 1];
      assert ps == before + [p] && [] + before == before;
      PlayableAppend([], before, p);
      PlayableByStream(before);
      EachPlaysSnoc(before, p);
    }
  }

  lemma EachPlaysSnoc(before: seq<Packet>, p: Packet)
    ensures EachPlays(before + [p]) <==> EachPlays(before) && MayFollow(Of(before, p.monitorId), p)
  {
    hide Plays, MayFollow, Of;
    var ps := before + [p];
    PlaysSnoc(Of(before, p.monitorId), p);
    forall s
      ensures Plays(Of(ps, s)) <==> Plays(Of(before, s)) && (s == p.monitorId ==> MayFollow(Of(before, s), p))
    {
      OfAppend(before, p, s);
    }
    if EachPlays(ps) {
      assert Plays(Of(ps, p.monitorId));
      forall s ensures Plays(Of(before, s)) { assert Plays(Of(ps, s)); }
    }
    if EachPlays(before) && MayFollow(Of(before, p.monitorId), p) {
      forall s ensures Plays(Of(ps, s)) { assert Plays(Of(before, s)); }
    }
  }

  lemma EmptyIsPlayable()
    ensures Playable([]) && EachPlays([])
  {
  }

  /** One well-ordered packet passes both checks and extends the session by itself, in its own stream only. */
  lemma DemultiplexedPacket(session: Session, before: seq<Packet>, p: Packet)
    requires Describes(session, before) && Sendable(p) && MayFollow(Of(before, p.monitorId), p)
    ensures var next := Demultiplexed(session, HeaderOf(p), p.bytes);
      next.1 == Success(()) && Describes(next.0, before + [p])
  {
    var next := Demultiplexed(session, HeaderOf(p), p.bytes);
    DemultiplexedOwn(session, before, p);
    forall s
      ensures DescribesStream(next.0, before + [p], s)
    {
      if s != p.monitorId {
        assert DescribesStream(session, before, s);
        OfAppend(before, p, s);
      }
    }
  }

  lemma DemultiplexedOwn(session: Session, before: seq<Packet>, p: Packet)
    requires DescribesStream(session, before, p.monitorId) && Sendable(p) && MayFollow(Of(before, p.monitorId), p)
    ensures var next := Demultiplexed(session, HeaderOf(p), p.bytes);
      && next.1 == Success(())
      && DescribesStream(next.0, before + [p], p.monitorId)
      && (forall s :: s != p.monitorId ==>
            && (s in next.0.streams <==> s in session.streams) && (s in next.0.files <==> s in session.files)
            && (s in session.streams ==> next.0.streams[s] == session.streams[s])
            && (s in session.files ==> next.0.files[s] == session.files[s]))
  {
    hide AnnexbTypes, Of, Payloads, KeyCount;
    var own := Of(before, p.monitorId);
    OfAppend(before, p, p.monitorId);
    TotalsAppend(own, p);
    NoTotals();
  }

  lemma NoTotals()
    ensures Payloads([]) == [] && KeyCount([]) == 0
  {
  }

  /** One round on data that begins with the whole frame of a valid packet. */
  lemma ReceivedWhole(p: ValidPacket, rest: seq<byte>, session: Session, rounds: nat)
    requires rounds > 0
    ensures var next := Demultiplexed(session, HeaderOf(p), p.bytes);
      Received(Frame(p) + rest, session, rounds) ==
        if next.1.Failure? then (next.0, next.1.error) else Received(rest, next.0, rounds - 1)
  {
    hide HeaderBytes, ParseHeader, Demultiplexed;
    var data := Frame(p) + rest;
    assert data[..HEADER_SIZE] == HeaderBytes(HeaderOf(p));
    HeaderRoundTrip(HeaderOf(p), data[..HEADER_SIZE]);
    assert data[HEADER_SIZE..] == p.bytes + rest;
    assert (p.bytes + rest)[..|p.bytes|] == p.bytes;
    assert (p.bytes + rest)[|p.bytes|..] == rest;
  }

  /** One round on a frame cut short, wherever the cut. */
  lemma ReceivedCut(p: ValidPacket, data: seq<byte>, session: Session, rounds: nat)
    requires rounds > 0 && data <= Frame(p) && |data| < |Frame(p)|
    ensures Received(data, session, rounds) ==
            (session, EndOfData(if |data| == 0 || |data| == HEADER_SIZE then Ended else EndedInsideFrame))
  {
    hide HeaderBytes, ParseHeader, Demultiplexed;
    if |data| >= HEADER_SIZE {
      assert data[..HEADER_SIZE] == Frame(p)[..HEADER_SIZE] == HeaderBytes(HeaderOf(p));
      HeaderRoundTrip(HeaderOf(p), data[..HEADER_SIZE]);
    }
  }

  /** The session after all the packets of a list. */
  function After(session: Session, ps: seq<ValidPacket>): (after: Session)
    decreases ps
  {
    if ps == [] then session
    else After(Demultiplexed(session, HeaderOf(ps[0]), ps[0].bytes).0, ps[1..])
  }

  lemma {:induction false} AfterDescribes(session: Session, done: seq<Packet>, todo: seq<ValidPacket>)
    requires PlayableAfter(done, todo) && Describes(session, done)
    ensures Describes(After(session, todo), done + todo)
    decreases todo
  {
    if todo == [] {
      assert done + todo == done;
    } else {
      DemultiplexedPacket(session, done, todo[0]);
      AfterDescribes(Demultiplexed(session, HeaderOf(todo[0]), todo[0].bytes).0, done + [todo[0]], todo[1..]);
      assert done + [todo[0]] + todo[1..] == done + todo;
    }
  }

  lemma {:induction false} PlayableTake(done: seq<Packet>, todo: seq<ValidPacket>, k: nat)
    requires PlayableAfter(done, todo) && k <= |todo|
    ensures PlayableAfter(done, todo[..k])
    decreases todo
  {
    if k > 0 {
      PlayableTake(done + [todo[0]], todo[1..], k - 1);
      assert todo[..k][1..] == todo[1..][..k - 1];
    }
  }

  /** The loop works through whole frames one round each, without failing a check. */
  lemma {:induction false} WholeRounds(done: seq<Packet>, todo: seq<ValidPacket>, tail: seq<byte>, session: Session,
      rounds: nat)
    requires PlayableAfter(done, todo) && Describes(session, done) && rounds >= |todo|
    ensures Received(Flatten(Frames(todo)) + tail, session, rounds)
        == Received(tail, After(session, todo), rounds - |todo|)
    decreases todo
  {
    hide Frame, Demultiplexed, Received;
    if todo == [] {
      assert Flatten(Frames(todo)) + tail == tail;
    } else {
      var p := todo[0];
      var rest := Flatten(Frames(todo[1..])) + tail;
      assert Flatten(Frames(todo)) + tail == Frame(p) + rest;
      DemultiplexedPacket(session, done, p);
      ReceivedWhole(p, rest, session, rounds);
      WholeRounds(done + [p], todo[1..], tail, Demultiplexed(session, HeaderOf(p), p.bytes).0, rounds - 1);
    }
  }

  lemma {:induction false} FramesTake(ps: seq<ValidPacket>, k: nat)
    requires k <= |ps|
    ensures Frames(ps)[..k] == Frames(ps[..k])
    ensures k < |ps| ==> Frames(ps)[k] == Frame(ps[k])
  {
    hide Frame;
    if k > 0 {
      FramesTake(ps[1..], k - 1);
      assert ps[..k][1..] == ps[1..][..k - 1];
    }
  }

  /** How many rounds the loop completes on a prefix of n bytes before time or data run out. */
  function RoundsOn(ps: seq<ValidPacket>, n: nat, rounds: nat): (done: nat)
    ensures done <= |ps| && done <= rounds
  {
    var k := WholeBlocks(Frames(ps), n);
    if rounds <= k then rounds else k
  }

  /**
   * On every prefix of the concatenated frames of a playable list, however TCP cuts it, the loop never
   * fails a check: it runs out of time or of data, and holds exactly the whole frames that arrived.
   */
  lemma PlayablePrefixIsReceived(ps: seq<ValidPacket>, data: seq<byte>, rounds: nat)
    requires Playable(ps) && data <= Flatten(Frames(ps))
    ensures var r := Received(data, NO_SESSION, rounds);
      var n := RoundsOn(ps, |data|, rounds);
      && (if n == rounds then r.1.TimeUp? else r.1.EndOfData?)
      && Describes(r.0, ps[..n])
  {
    hide Frame, Frames, Received, Demultiplexed, PlayableAfter, Describes;
    var n := RoundsOn(ps, |data|, rounds);
    var rest := CutAtRound(ps, data, rounds);
    PlayableTake([], ps, n);
    NoPackets();
    WholeRounds([], ps[..n], rest, NO_SESSION, rounds);
    AfterDescribes(NO_SESSION, [], ps[..n]);
    assert [] + ps[..n] == ps[..n];
    var session := After(NO_SESSION, ps[..n]);
    if n == rounds {
      ReceivedNoTime(rest, session);
    } else if n < |ps| {
      ReceivedCut(ps[n], rest, session, rounds - n);
    } else {
      ReceivedNothing(session, rounds - n);
    }
  }

  /** The bytes left when the loop stops: anything when time ran out, else less than one frame. */
  lemma CutAtRound(ps: seq<ValidPacket>, data: seq<byte>, rounds: nat) returns (rest: seq<byte>)
    requires data <= Flatten(Frames(ps))
    ensures var n := RoundsOn(ps, |data|, rounds);
      && data == Flatten(Frames(ps[..n])) + rest
      && (n < rounds ==> if n == |ps| then rest == [] else rest <= Frame(ps[n]) && |rest| < |Frame(ps[n])|)
  {
    hide Frame, Frames, Flatten, WholeBlocks;
    var k := WholeBlocks(Frames(ps), |data|);
    var n := RoundsOn(ps, |data|, rounds);
    var tail := PrefixSplits(Frames(ps), data);
    FramesTake(ps, k);
    WireSplits(ps, n, k);
    rest := Flatten(Frames(ps[n..k])) + tail;
    assert Flatten(Frames(ps[..n])) + Flatten(Frames(ps[n..k])) + tail == Flatten(Frames(ps[..n])) + rest;
  }

  lemma WireSplits(ps: seq<ValidPacket>, n: nat, k: nat)
    requires n <= k <= |ps|
    ensures Flatten(Frames(ps[..k])) == Flatten(Frames(ps[..n])) + Flatten(Frames(ps[n..k]))
    ensures n == k ==> Flatten(Frames(ps[n..k])) == []
  {
    hide Frame;
    assert ps[..k] == ps[..n] + ps[n..k];
    FramesAppend(ps[..n], ps[n..k]);
    FlattenAppend(Frames(ps[..n]), Frames(ps[n..k]));
  }

  lemma NoPackets()
    ensures Describes(NO_SESSION, [])
  {
  }

  lemma ReceivedNothing(session: Session, rounds: nat)
    requires rounds > 0
    ensures Received([], session, rounds) == (session, EndOfData(Ended))
  {
  }

  lemma ReceivedNoTime(data: seq<byte>, session: Session)
    ensures Received(data, session, 0) == (session, TimeUp)
  {
  }

  /** All the frames of a playable list, with time to spare, leave the statistics and files of its packets. */
  lemma AllFramesAreReceived(ps: seq<ValidPacket>, rounds: nat)
    requires Playable(ps) && rounds > |ps|
    ensures var r := Received(Flatten(Frames(ps)), NO_SESSION, rounds);
      r.1 == EndOfData(Ended) && Describes(r.0, ps)
  {
    hide Frame, Received, Demultiplexed, PlayableAfter;
    NoPackets();
    assert Flatten(Frames(ps)) + [] == Flatten(Frames(ps));
    WholeRounds([], ps, [], NO_SESSION, rounds);
    ReceivedNothing(After(NO_SESSION, ps), rounds - |ps|);
    AfterDescribes(NO_SESSION, [], ps);
    assert [] + ps == ps;
  }

  /** A packet that may not follow is refused by one of the two stream checks. */
  lemma DemultiplexedRefuses(session: Session, before: seq<Packet>, p: Packet)
    requires Describes(session, before) && Sendable(p) && !MayFollow(Of(before, p.monitorId), p)
    ensures var next := Demultiplexed(session, HeaderOf(p), p.bytes);
      next.1.Failure? && FailedCheck(next.1.error)
  {
    hide AnnexbTypes, Of, Payloads, KeyCount;
    assert DescribesStream(session, before, p.monitorId);
  }

  lemma {:induction false} UnplayableIsRefused(done: seq<Packet>, todo: seq<ValidPacket>, session: Session, rounds: nat)
    requires !PlayableAfter(done, todo) && Describes(session, done) && rounds >= |todo|
    ensures FailedCheck(Received(Flatten(Frames(todo)), session, rounds).1)
    decreases todo
  {
    hide Frame, Demultiplexed, Received, Describes, MayFollow;
    var p := todo[0];
    var rest := Flatten(Frames(todo[1..]));
    assert Flatten(Frames(todo)) == Frame(p) + rest;
    ReceivedWhole(p, rest, session, rounds);
    if MayFollow(Of(done, p.monitorId), p) {
      DemultiplexedPacket(session, done, p);
      UnplayableIsRefused(done + [p], todo[1..], Demultiplexed(session, HeaderOf(p), p.bytes).0, rounds - 1);
    } else {
      DemultiplexedRefuses(session, done, p);
    }
  }

  /** The receiver reads a list of frames to its end if and only if the list is playable. */
  lemma ReceiverAcceptsExactlyThePlayable(ps: seq<ValidPacket>, rounds: nat)
    requires rounds > |ps|
    ensures Received(Flatten(Frames(ps)), NO_SESSION, rounds).1 == EndOfData(Ended) <==> Playable(ps)
  {
    hide Frames, Received, PlayableAfter, Describes;
    NoPackets();
    if Playable(ps) {
      AllFramesAreReceived(ps, rounds);
    } else {
      UnplayableIsRefused([], ps, NO_SESSION, rounds);
    }
  }

  // ---------------------------------------------------------------------------------------------
  // The framing round trip
  // ---------------------------------------------------------------------------------------------

  function PacketOf(h: Header, payload: seq<byte>): (p: Packet) {
    Packet(h.stream, h.ptsUs, h.key, payload)
  }

  /** What the read and parse steps of the loop make of a byte stream: packet by packet, and why they stop. */
  function Decoded(data: seq<byte>): (r: (seq<Packet>, StopReason)) {
    if |data| < HEADER_SIZE then ([], EndOfData(Taken(data, HEADER_SIZE).error))
    else
      var header := ParseHeader(data[..HEADER_SIZE]);
      if header.Failure? then ([], BadHeader(header.error))
      else
        var rest := data[HEADER_SIZE..];
        var size := header.value.size;
        SizeIsPositive(data[..HEADER_SIZE]);
        if |rest| < size then ([], EndOfData(Taken(rest, size).error))
        else
          var later := Decoded(rest[size..]);
          ([PacketOf(header.value, rest[..size])] + later.0, later.1)
  }

  lemma DecodedFirst(p: ValidPacket, rest: seq<byte>)
    ensures Decoded(Frame(p) + rest) == ([p] + Decoded(rest).0, Decoded(rest).1)
  {
    hide HeaderBytes, ParseHeader;
    var data := Frame(p) + rest;
    assert data[..HEADER_SIZE] == HeaderBytes(HeaderOf(p));
    HeaderRoundTrip(HeaderOf(p), data[..HEADER_SIZE]);
    assert data[HEADER_SIZE..] == p.bytes + rest;
    assert (p.bytes + rest)[..|p.bytes|] == p.bytes;
    assert (p.bytes + rest)[|p.bytes|..] == rest;
  }

  /** The frames of any valid packets, and then anything, decode to those packets and then the rest. */
  lemma {:induction false} DecodedFrames(ps: seq<ValidPacket>, tail: seq<byte>)
    ensures Decoded(Flatten(Frames(ps)) + tail) == (ps + Decoded(tail).0, Decoded(tail).1)
  {
    hide Frame, Decoded;
    if ps == [] {
      assert Flatten(Frames(ps)) + tail == tail;
      assert ps + Decoded(tail).0 == Decoded(tail).0;
    } else {
      var rest := Flatten(Frames(ps[1..])) + tail;
      assert Flatten(Frames(ps)) + tail == Frame(ps[0]) + rest;
      DecodedFirst(ps[0], rest);
      DecodedFrames(ps[1..], tail);
      assert [ps[0]] + (ps[1..] + Decoded(tail).0) == ps + Decoded(tail).0;
    }
  }

  /**
   * Framing round trip, for every list of valid packets: their frames give back every packet, with its
   * stream, timestamp, key flag and payload, in order and across streams.
   */
  lemma FramingRoundTrip(ps: seq<ValidPacket>)
    ensures Decoded(Flatten(Frames(ps))) == (ps, EndOfData(Ended))
  {
    hide Frame, Frames;
    DecodedFrames(ps, []);
    assert Flatten(Frames(ps)) + [] == Flatten(Frames(ps));
    assert ps + [] == ps;
  }

  /** Cut anywhere, the frames give back exactly the packets that arrived whole. */
  lemma CutFramesRoundTrip(ps: seq<ValidPacket>, data: seq<byte>)
    requires data <= Flatten(Frames(ps))
    ensures var r := Decoded(data);
      r.0 == ps[..WholeBlocks(Frames(ps), |data|)] && r.1.EndOfData?
  {
    hide Frame, Frames, Decoded, WholeBlocks;
    var k := WholeBlocks(Frames(ps), |data|);
    var tail := PrefixSplits(Frames(ps), data);
    FramesTake(ps, k);
    DecodedFrames(ps[..k], tail);
    assert ps[..k] + [] == ps[..k];
    if k == |ps| {
      DecodedNothing();
    } else {
      DecodedCut(ps[k], tail);
    }
  }

  lemma DecodedNothing()
    ensures Decoded([]) == ([], EndOfData(Ended))
  {
  }

  lemma DecodedCut(p: ValidPacket, data: seq<byte>)
    requires data <= Frame(p) && |data| < |Frame(p)|
    ensures Decoded(data).0 == [] && Decoded(data).1.EndOfData?
  {
    hide HeaderBytes, ParseHeader;
    if |data| >= HEADER_SIZE {
      assert data[..HEADER_SIZE] == Frame(p)[..HEADER_SIZE] == HeaderBytes(HeaderOf(p));
      HeaderRoundTrip(HeaderOf(p), data[..HEADER_SIZE]);
    }
  }

  /** The read and parse steps on a socket: the packets depend on the bytes alone, not on how recv cut them. */
  method ReadPackets(sock: Socket) returns (packets: seq<Packet>, stop: StopReason)
    modifies sock
    ensures (packets, stop) == Decoded(old(sock.remaining))
  {
    hide ParseHeader;
    packets := [];
    assert [] + Decoded(sock.remaining).0 == Decoded(sock.remaining).0;
    while true
      invariant Decoded(old(sock.remaining)) == (packets + Decoded(sock.remaining).0, Decoded(sock.remaining).1)
      decreases |sock.remaining|
    {
      ghost var data := sock.remaining;
      var head := ReadExact(sock, HEADER_SIZE);
      if head.Failure? {
        assert packets + [] == packets;
        return packets, EndOfData(head.error);
      }
      var header := ParseHeader(head.value);
      if header.Failure? {
        assert packets + [] == packets;
        return packets, BadHeader(header.error);
      }
      SizeIsPositive(head.value);
      var payload := ReadExact(sock, header.value.size);
      if payload.Failure? {
        assert packets + [] == packets;
        return packets, EndOfData(payload.error);
      }
      var packet := PacketOf(header.value, payload.value);
      assert packets + ([packet] + Decoded(sock.remaining).0) == (packets + [packet]) + Decoded(sock.remaining).0;
      packets := packets + [packet];
    }
  }

  /** The receive loop is its read and parse steps followed by its checks, packet by packet. */
  function Replayed(session: Session, ps: seq<Packet>, stop: StopReason): (r: (Session, StopReason))
    decreases ps
  {
    if ps == [] then (session, stop)
    else
      var p := ps[0];
      var next := Demultiplexed(session, Header(p.monitorId, p.ptsUs, |p.bytes|, p.keyframe), p.bytes);
      if next.1.Failure? then (next.0, next.1.error) else Replayed(next.0, ps[1..], stop)
  }

  lemma {:induction false} ReceivedIsReplayed(data: seq<byte>, session: Session, rounds: nat)
    requires rounds > |Decoded(data).0|
    ensures Received(data, session, rounds) == Replayed(session, Decoded(data).0, Decoded(data).1)
    decreases |data|
  {
    hide ParseHeader, Demultiplexed;
    if |data| >= HEADER_SIZE && ParseHeader(data[..HEADER_SIZE]).Success? {
      var h := ParseHeader(data[..HEADER_SIZE]).value;
      var rest := data[HEADER_SIZE..];
      SizeIsPositive(data[..HEADER_SIZE]);
      if |rest| >= h.size {
        var p := PacketOf(h, rest[..h.size]);
        assert Header(p.monitorId, p.ptsUs, |p.bytes|, p.keyframe) == h;
        assert Decoded(data).0[1..] == Decoded(rest[h.size..]).0;
        ReceivedIsReplayed(rest[h.size..], Demultiplexed(session, h, p.bytes).0, rounds - 1);
      }
    }
  }
}
