/**
 * VideoEncoder::encode and drain of host/encoder/video_encoder.cpp: timestamp repair, and what reaches the
 * packet sink. The hardware codec is an oracle: it yields access units in submission order, with the
 * submitted timestamps (no B-frames), whenever and with whatever bytes it likes.
 */
module Encoder {
  import opened Bytes
  import opened AnnexB
  import opened AnnexBSeam
  import opened AnnexBTypes
  import opened Qstv

  datatype EncodeError = SendRefused | ReceiveFailed | Rejected(reason: Reason)

  /** inFlight: the timestamps the codec has accepted and not yet given back. */
  datatype State = State(
    lastPts: int, inFlight: seq<int>, sps: seq<byte>, pps: seq<byte>, frames: nat, bytes: nat, adjustments: nat)

  const INITIAL: State := State(-1, [], [], [], 0, 0, 0)

  /** The timestamp a frame is submitted with. */
  function FramePts(e: State, presentationUs: int, sourcePtsUs: int): (pts: int) {
    var wanted := if presentationUs >= 0 then presentationUs else sourcePtsUs;
    if wanted <= e.lastPts then e.lastPts + 1 else wanted
  }

  /** The state after a frame was handed to the codec. */
  function Submitted(e: State, presentationUs: int, sourcePtsUs: int): (next: State) {
    var wanted := if presentationUs >= 0 then presentationUs else sourcePtsUs;
    var pts := FramePts(e, presentationUs, sourcePtsUs);
    e.(lastPts := pts, inFlight := e.inFlight + [pts],
        adjustments := e.adjustments + (if wanted <= e.lastPts then 1 else 0))
  }

  /** One access unit back from the codec: the next state, and the packet for the sink unless it is rejected. */
  function Emitted(e: State, id: int, raw: seq<byte>): (r: (State, Result<Packet, Reason>))
    requires e.inFlight != []
  {
    var p := Prepared(raw, e.sps, e.pps);
    var rest := e.(inFlight := e.inFlight[1..], sps := p.sps, pps := p.pps, frames := e.frames + 1);
    match p.outcome
    case Failure(reason) => (rest, Failure(reason))
    case Success(idr) => (rest.(bytes := e.bytes + |p.au|), Success(Packet(id, e.inFlight[0], idr, p.au)))
  }

  /** A run of access units back from the codec, up to the first that is rejected. */
  function Drained(e: State, id: int, raws: seq<seq<byte>>): (r: (State, seq<Packet>, Result<(), EncodeError>))
    requires |raws| <= |e.inFlight|
    decreases raws
  {
    if raws == [] then (e, [], Success(()))
    else
      var first := Emitted(e, id, raws[0]);
      if first.1.Failure? then (first.0, [], Failure(Rejected(first.1.error)))
      else
        var rest := Drained(first.0, id, raws[1..]);
        (rest.0, [first.1.value] + rest.1, rest.2)
  }

  // ---------------------------------------------------------------------------------------------
  // The object
  // ---------------------------------------------------------------------------------------------

  /** A frame as sent to the codec: its timestamp, and whether it is to become a keyframe. */
  datatype CodecFrame = CodecFrame(ptsUs: int, forced: bool)

  /** drain() ends early when an access unit is rejected, and with an error when receiving fails. */
  function Ending(drained: Result<(), EncodeError>, broken: bool): (r: Result<(), EncodeError>) {
    if drained.Success? && broken then Failure(ReceiveFailed) else drained
  }

  class VideoEncoder {
    const id: int
    var lastPts: int
    var sps: ByteVector
    var pps: ByteVector
    var frames: nat
    var bytes: nat
    var timestampAdjustments: nat
    var codec: seq<int>  // the timestamps the codec has accepted and not yet given back
    var sent: seq<CodecFrame>  // every frame it has accepted

    ghost predicate Valid()
      reads this
    {
      sps != pps
    }

    ghost function Abs(): (e: State)
      reads this, sps, pps
    {
      State(lastPts, codec, sps.bytes, pps.bytes, frames, bytes, timestampAdjustments)
    }

    constructor (id: int)
      ensures Valid() && fresh(sps) && fresh(pps) && this.id == id && Abs() == INITIAL && sent == []
      ensures lastPts == -1 && sps.bytes == pps.bytes == [] && codec == []
    {
      this.id := id;
      lastPts := -1;
      sps := new ByteVector([]);
      pps := new ByteVector([]);
      frames, bytes, timestampAdjustments := 0, 0, 0;
      codec, sent := [], [];
    }

    /**
     * encode: repairs the timestamp, hands the frame to the codec and drains what comes back; `broken` is
     * whether receiving then fails. A refused frame leaves lastPts as it was, but the adjustment counts.
     */
    method Encode(presentationUs: int, sourcePtsUs: int, force: bool, accepted: bool, raws: seq<seq<byte>>,
        broken: bool)
      returns (delivered: seq<Packet>, r: Result<(), EncodeError>)
      requires Valid() && |raws| <= |codec| + 1
      modifies this, sps, pps
      ensures Valid() && sps == old(sps) && pps == old(pps)
      ensures var wanted := if presentationUs >= 0 then presentationUs else sourcePtsUs;
        && (accepted && wanted > old(lastPts) ==> lastPts == wanted)
        && (accepted && wanted <= old(lastPts) ==> lastPts == old(lastPts) + 1)
        && (!accepted ==> lastPts == old(lastPts))
        && timestampAdjustments == old(timestampAdjustments) + (if wanted <= old(lastPts) then 1 else 0)
      ensures sent == old(sent) + if accepted then [CodecFrame(lastPts, force)] else []
      ensures accepted ==>
                var drained := Drained(Submitted(old(Abs()), presentationUs, sourcePtsUs), id, raws);
                && (Abs(), delivered, r) == (drained.0, drained.1, Ending(drained.2, broken))
      ensures !accepted ==> delivered == [] && r == Failure(SendRefused)
      ensures !accepted ==>
                Abs() == old(Abs()).(adjustments := Submitted(old(Abs()), presentationUs, sourcePtsUs).adjustments)
    {
      hide Drained, Emitted, Prepared;
      var pts := if presentationUs >= 0 then presentationUs else sourcePtsUs;
      if pts <= lastPts {
        pts := lastPts + 1;
        timestampAdjustments := timestampAdjustments + 1;
      }
      if !accepted {
        return [], Failure(SendRefused);
      }
      codec, sent := codec + [pts], sent + [CodecFrame(pts, force)];
      lastPts := pts;
      delivered, r := Drain(raws, broken);
    }

    /** drain: every access unit the codec gives back is normalised and handed to the sink, in order. */
    method Drain(raws: seq<seq<byte>>, broken: bool) returns (delivered: seq<Packet>, r: Result<(), EncodeError>)
      requires Valid() && |raws| <= |codec|
      modifies this, sps, pps
      ensures Valid() && sps == old(sps) && pps == old(pps) && sent == old(sent)
      ensures lastPts == old(lastPts) && timestampAdjustments == old(timestampAdjustments)
      ensures |delivered| <= |raws| && (r.Success? <==> |delivered| == |raws| && !broken)
      ensures |delivered| == |raws| && broken ==> r == Failure(ReceiveFailed)
      ensures |delivered| < |raws| ==> r.Failure? && r.error.Rejected?
      ensures var drained := Drained(old(Abs()), id, raws);
        (Abs(), delivered, r) == (drained.0, drained.1, Ending(drained.2, broken))
    {
      hide Emitted, Prepared;
      delivered := [];
      var i := 0;
      assert raws[0..] == raws;
      assert [] + Drained(Abs(), id, raws).1 == Drained(Abs(), id, raws).1;
      while i < |raws|
        invariant i <= |raws| && Valid() && sps == old(sps) && pps == old(pps) && sent == old(sent)
        invariant lastPts == old(lastPts) && timestampAdjustments == old(timestampAdjustments)
        invariant |raws| - i <= |codec| && |delivered| == i
        invariant var rest := Drained(Abs(), id, raws[i..]);
          Drained(old(Abs()), id, raws) == (rest.0, delivered + rest.1, rest.2)
      {
        EmittedPops(Abs(), id, raws[i]);
        assert raws[i..][1..] == raws[i + 1..];
        ghost var before := Abs();
        var packet := ReceivePacket(raws[i]);
        if packet.Failure? {
          assert delivered + [] == delivered;
          return delivered, Failure(Rejected(packet.error));
        }
        ghost var rest := Drained(Abs(), id, raws[i + 1..]);
        assert Drained(before, id, raws[i..]) == (rest.0, [packet.value] + rest.1, rest.2);
        assert delivered + ([packet.value] + rest.1) == delivered + [packet.value] + rest.1;
        delivered := delivered + [packet.value];
        i := i + 1;
      }
      assert delivered + [] == delivered;
      return delivered, if broken then Failure(ReceiveFailed) else Success(());
    }

    /** The body of the drain loop, for one packet the codec gives back. */
    method ReceivePacket(raw: seq<byte>) returns (packet: Result<Packet, Reason>)
      requires Valid() && codec != []
      modifies this, sps, pps
      ensures Valid() && sps == old(sps) && pps == old(pps) && sent == old(sent)
      ensures lastPts == old(lastPts) && timestampAdjustments == old(timestampAdjustments)
      ensures (Abs(), packet) == Emitted(old(Abs()), id, raw)
    {
      hide Prepared;
      var pts := codec[0];
      codec := codec[1..];
      frames := frames + 1;
      var au := new ByteVector(raw);
      var prepared := PrepareAnnexB(au, sps, pps);
      if prepared.Failure? {
        return Failure(prepared.error);
      }
      bytes := bytes + |au.bytes|;
      return Success(Packet(id, pts, prepared.value, au.bytes));
    }
  }

  lemma EmittedPops(e: State, id: int, raw: seq<byte>)
    requires e.inFlight != []
    ensures Emitted(e, id, raw).0.inFlight == e.inFlight[1..]
  {
  }

  predicate Increasing(s: seq<int>) {
    forall i, j :: 0 <= i < j < |s| ==> s[i] < s[j]
  }

  // ---------------------------------------------------------------------------------------------
  // The submitted times
  // ---------------------------------------------------------------------------------------------

  /** A frame as offered to encode. */
  datatype Offer = Offer(presentationUs: int, sourcePtsUs: int)

  /** The presentation time the caller gives, or the frame's own time when that is negative. */
  function Wanted(o: Offer): (us: int)
    ensures o.presentationUs >= 0 ==> us == o.presentationUs
    ensures o.presentationUs < 0 ==> us == o.sourcePtsUs
  {
    if o.presentationUs >= 0 then o.presentationUs else o.sourcePtsUs
  }

  /** A run of accepted frames. What drain() does in between touches no field this depends on. */
  function SubmittedAll(e: State, offers: seq<Offer>): (after: State) {
    if offers == [] then e
    else
      var last := offers[|offers| - 1];
      Submitted(SubmittedAll(e, offers[..|offers| - 1]), last.presentationUs, last.sourcePtsUs)
  }

  /** How many frames were not submitted with the time they wanted. */
  function Moved(offers: seq<Offer>, times: seq<int>): (n: nat)
    requires |offers| == |times|
  {
    if offers == [] then 0
    else
      var k := |offers| - 1;
      Moved(offers[..k], times[..k]) + if times[k] == Wanted(offers[k]) then 0 else 1
  }

  /** Times a run of frames could be given: strictly increasing after `last`, and none before it is wanted. */
  ghost predicate Permitted(last: int, offers: seq<Offer>, times: seq<int>) {
    && |times| == |offers|
    && Increasing([last] + times)
    && forall i :: 0 <= i < |offers| ==> times[i] >= Wanted(offers[i])
  }

  /** The times the run of frames is given. */
  function Times(e: State, offers: seq<Offer>): (times: seq<int>)
    requires |SubmittedAll(e, offers).inFlight| >= |e.inFlight|
  {
    SubmittedAll(e, offers).inFlight[|e.inFlight|..]
  }

  /** One frame: exactly the times from the submitted one on are late enough and after all before. */
  lemma FramePtsIsLeast(e: State, o: Offer, t: int)
    ensures t >= Wanted(o) && t > e.lastPts <==> t >= FramePts(e, o.presentationUs, o.sourcePtsUs)
  {
  }

  lemma {:induction false} SubmittedAllShape(e: State, offers: seq<Offer>)
    ensures var after := SubmittedAll(e, offers);
      && after == e.(lastPts := after.lastPts, inFlight := after.inFlight, adjustments := after.adjustments)
      && |after.inFlight| == |e.inFlight| + |offers| && after.inFlight[..|e.inFlight|] == e.inFlight
      && after.lastPts == if offers == [] then e.lastPts else Times(e, offers)[|offers| - 1]
  {
    if offers != [] {
      SubmittedAllShape(e, offers[..|offers| - 1]);
    }
  }

  /**
   * The repaired times of a whole run are permitted, the counter is the number of frames that were moved,
   * and no other permitted times are earlier anywhere.
   */
  lemma {:induction false} RepairedTimesAreLeast(e: State, offers: seq<Offer>, other: seq<int>)
    requires Permitted(e.lastPts, offers, other)
    ensures var after := SubmittedAll(e, offers);
      && |after.inFlight| == |e.inFlight| + |offers|
      && Permitted(e.lastPts, offers, Times(e, offers))
      && after.adjustments == e.adjustments + Moved(offers, Times(e, offers))
      && forall i :: 0 <= i < |offers| ==> Times(e, offers)[i] <= other[i]
  {
    SubmittedAllShape(e, offers);
    if offers != [] {
      var k := |offers| - 1;
      var before := SubmittedAll(e, offers[..k]);
      SubmittedAllShape(e, offers[..k]);
      EarlierPermitted(e.lastPts, offers, other);
      RepairedTimesAreLeast(e, offers[..k], other[..k]);
      var times, pts := Times(e, offers[..k]), FramePts(before, offers[k].presentationUs, offers[k].sourcePtsUs);
      assert Times(e, offers) == times + [pts];
      assert (times + [pts])[..k] == times;
      LaterPermitted(e.lastPts, offers, times, pts);
      assert k > 0 ==> other[k - 1] < other[k] by {
        assert k > 0 ==> ([e.lastPts] + other)[k] < ([e.lastPts] + other)[k + 1];
      }
      assert ([e.lastPts] + other)[0] < ([e.lastPts] + other)[k + 1];
      FramePtsIsLeast(before, offers[k], other[k]);
    }
  }

  lemma EarlierPermitted(last: int, offers: seq<Offer>, times: seq<int>)
    requires offers != [] && Permitted(last, offers, times)
    ensures Permitted(last, offers[..|offers| - 1], times[..|offers| - 1])
  {
    var all, some := [last] + times, [last] + times[..|offers| - 1];
    forall i, j | 0 <= i < j < |some|
      ensures some[i] < some[j]
    {
      assert some[i] == all[i] && some[j] == all[j];
    }
  }

  lemma LaterPermitted(last: int, offers: seq<Offer>, times: seq<int>, t: int)
    requires offers != [] && Permitted(last, offers[..|offers| - 1], times)
    requires t >= Wanted(offers[|offers| - 1]) && t > ([last] + times)[|times|]
    ensures Permitted(last, offers, times + [t])
  {
    var all, some := [last] + (times + [t]), [last] + times;
    assert all == some + [t];
    forall i, j | 0 <= i < j < |all|
      ensures all[i] < all[j]
    {
      if j == |some| && i < |times| {
        assert some[i] < some[|times|];
      }
    }
    forall i | 0 <= i < |offers|
      ensures (times + [t])[i] >= Wanted(offers[i])
    {
      if i < |times| {
        assert times[i] >= Wanted(offers[..|offers| - 1][i]);
      }
    }
  }

  // ---------------------------------------------------------------------------------------------
  // What a drain delivers
  // ---------------------------------------------------------------------------------------------

  /** The two caches after a run of access units. */
  function CachesThrough(sps: seq<byte>, pps: seq<byte>, raws: seq<seq<byte>>): (caches: (seq<byte>, seq<byte>))
    decreases raws
  {
    if raws == [] then (sps, pps)
    else
      var p := Prepared(raws[0], sps, pps);
      CachesThrough(p.sps, p.pps, raws[1..])
  }

  /**
   * Packet i is access unit i as prepareAnnexB leaves it after the ones before it, with the i-th outstanding
   * time, this encoder's id and the answer as its key flag; the first refused access unit ends the drain.
   */
  lemma {:induction false} DrainedExactly(e: State, id: int, raws: seq<seq<byte>>, i: nat)
    requires |raws| <= |e.inFlight| && i <= |Drained(e, id, raws).1|
    ensures var d := Drained(e, id, raws);
      && |d.1| <= |raws|
      && (i == |raws| ==> d.2 == Success(()))
      && (i < |raws| ==>
            var caches := CachesThrough(e.sps, e.pps, raws[..i]);
            var p := Prepared(raws[i], caches.0, caches.1);
            && (p.outcome.Success? <==> i < |d.1|)
            && (p.outcome.Success? ==> d.1[i] == Packet(id, e.inFlight[i], p.outcome.value, p.au))
            && (p.outcome.Failure? ==> d.2 == Failure(Rejected(p.outcome.error))))
    decreases raws
  {
    hide Prepared;
    if raws != [] {
      var first := Emitted(e, id, raws[0]);
      if first.1.Success? && i > 0 {
        DrainedExactly(first.0, id, raws[1..], i - 1);
        assert i < |raws| ==> raws[..i][1..] == raws[1..][..i - 1];
      } else if first.1.Success? {
        DrainedExactly(first.0, id, raws[1..], 0);
      }
    }
  }

  function TotalBytes(ps: seq<Packet>): (n: nat) {
    if ps == [] then 0 else |ps[0].bytes| + TotalBytes(ps[1..])
  }

  /** Every access unit given back counts as a frame, the refused one too; only what is delivered counts in bytes. */
  lemma {:induction false} DrainedCounts(e: State, id: int, raws: seq<seq<byte>>)
    requires |raws| <= |e.inFlight|
    ensures var d := Drained(e, id, raws);
      var given := |d.1| + if d.2.Success? then 0 else 1;
      && given <= |raws|
      && d.0.frames == e.frames + given && d.0.bytes == e.bytes + TotalBytes(d.1)
      && d.0.inFlight == e.inFlight[given..]
      && d.0.lastPts == e.lastPts && d.0.adjustments == e.adjustments
      && (d.0.sps, d.0.pps) == CachesThrough(e.sps, e.pps, raws[..given])
    decreases raws
  {
    hide Prepared;
    if raws != [] {
      var first := Emitted(e, id, raws[0]);
      assert raws[..1] == [raws[0]];
      if first.1.Success? {
        DrainedCounts(first.0, id, raws[1..]);
        var rest := Drained(first.0, id, raws[1..]);
        var given := |rest.1| + if rest.2.Success? then 0 else 1;
        assert raws[..given + 1][1..] == raws[1..][..given];
        assert ([first.1.value] + rest.1)[1..] == rest.1;
      }
    }
  }

  // ---------------------------------------------------------------------------------------------
  // What reaches the sink
  // ---------------------------------------------------------------------------------------------

  function PtsOf(ps: seq<Packet>): (pts: seq<int>)
    ensures |pts| == |ps|
  {
    seq(|ps|, i requires 0 <= i < |ps| => ps[i].ptsUs)
  }

  /** The key flag is the presence of an IDR slice, and a key packet carries both parameter sets. */
  predicate WellMade(p: Packet, id: int) {
    && p.monitorId == id && p.ptsUs >= 0
    && (p.keyframe <==> 5 in AnnexbTypes(p.bytes))
    && (p.keyframe ==> {5, 7, 8} <= AnnexbTypes(p.bytes))
  }

  /** Delivered and outstanding timestamps form one strictly increasing sequence from 0 up to lastPts. */
  ghost predicate Orderly(e: State, id: int, delivered: seq<Packet>) {
    && Cached(e.sps, SPS) && Cached(e.pps, PPS)
    && e.lastPts >= -1
    && Increasing(PtsOf(delivered) + e.inFlight)
    && (forall t :: t in e.inFlight ==> 0 <= t <= e.lastPts)
    && (forall p :: p in delivered ==> WellMade(p, id) && p.ptsUs <= e.lastPts)
  }

  lemma InitiallyOrderly(id: int)
    ensures Orderly(INITIAL, id, [])
  {
  }

  lemma SubmittedStaysOrderly(e: State, id: int, delivered: seq<Packet>, presentationUs: int, sourcePtsUs: int)
    requires Orderly(e, id, delivered)
    ensures Orderly(Submitted(e, presentationUs, sourcePtsUs), id, delivered)
  {
    var pts := FramePts(e, presentationUs, sourcePtsUs);
    var before := PtsOf(delivered) + e.inFlight;
    assert PtsOf(delivered) + (e.inFlight + [pts]) == before + [pts];
    forall i | 0 <= i < |before|
      ensures before[i] < pts
    {
      if i < |delivered| {
        assert delivered[i] in delivered;
      } else {
        assert e.inFlight[i - |delivered|] in e.inFlight;
      }
    }
  }

  /** Each packet is well made and later than all before it; a rejected access unit only leaves a gap. */
  lemma EmittedStaysOrderly(e: State, id: int, delivered: seq<Packet>, raw: seq<byte>)
    requires Orderly(e, id, delivered) && e.inFlight != []
    ensures var r := Emitted(e, id, raw);
      Orderly(r.0, id, if r.1.Success? then delivered + [r.1.value] else delivered)
  {
    hide Prepared, WellMade, Cached, Increasing;
    PreparedKeepsCaches(raw, e.sps, e.pps);
    var r := Emitted(e, id, raw);
    var t := e.inFlight[0];
    assert t in e.inFlight;
    forall u | u in e.inFlight[1..]
      ensures 0 <= u <= e.lastPts
    {
      assert u in e.inFlight;
    }
    if r.1.Success? {
      PacketIsWellMade(e, id, raw);
      assert PtsOf(delivered + [r.1.value]) + e.inFlight[1..] == PtsOf(delivered) + e.inFlight;
    } else {
      DroppingKeepsIncreasing(PtsOf(delivered), e.inFlight);
    }
  }

  lemma DroppingKeepsIncreasing(a: seq<int>, b: seq<int>)
    requires b != [] && Increasing(a + b)
    ensures Increasing(a + b[1..])
  {
    var s, t := a + b, a + b[1..];
    forall i, j | 0 <= i < j < |t|
      ensures t[i] < t[j]
    {
      var i', j' := if i < |a| then i else i + 1, if j < |a| then j else j + 1;
      assert s[i'] == t[i] && s[j'] == t[j];
    }
  }

  lemma PacketIsWellMade(e: State, id: int, raw: seq<byte>)
    requires Cached(e.sps, SPS) && Cached(e.pps, PPS) && e.inFlight != [] && e.inFlight[0] >= 0
    requires Emitted(e, id, raw).1.Success?
    ensures WellMade(Emitted(e, id, raw).1.value, id)
  {
    hide AnnexbTypes, HasType, Cached;
    var p := Prepared(raw, e.sps, e.pps);
    TypesAgree(p.au, IDR);
    TypesAgree(p.au, SPS);
    TypesAgree(p.au, PPS);
    if p.outcome == Success(true) {
      AcceptedIdrIsSelfContained(raw, e.sps, e.pps);
    }
  }

  /**
   * Over any run of access units, whatever the codec puts in them: what reaches the sink stays well made,
   * strictly increasing in time, and later than everything delivered before.
   */
  lemma {:induction false} DrainedStaysOrderly(e: State, id: int, delivered: seq<Packet>, raws: seq<seq<byte>>)
    requires Orderly(e, id, delivered) && |raws| <= |e.inFlight|
    ensures var r := Drained(e, id, raws);
      Orderly(r.0, id, delivered + r.1)
    decreases raws
  {
    hide Orderly, Emitted;
    if raws == [] {
      assert delivered + [] == delivered;
    } else {
      EmittedPops(e, id, raws[0]);
      EmittedStaysOrderly(e, id, delivered, raws[0]);
      var first := Emitted(e, id, raws[0]);
      if first.1.Success? {
        DrainedStaysOrderly(first.0, id, delivered + [first.1.value], raws[1..]);
        var rest := Drained(first.0, id, raws[1..]).1;
        assert delivered + ([first.1.value] + rest) == delivered + [first.1.value] + rest;
      } else {
        assert delivered + [] == delivered;
      }
    }
  }
}
