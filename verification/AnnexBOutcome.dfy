/**
 * What prepareAnnexB answers to every access unit, in terms of its bytes and the caches before the call:
 * which access units are refused and why, which pass as they are, and what an IDR picture is sent as.
 */
module AnnexBOutcome {
  import opened Bytes
  import opened AnnexB
  import opened AnnexBSeam

  /** A NAL type occurs when some byte that follows 00 00 01 carries it in its low five bits. */
  lemma TypeInBytes(au: seq<byte>, nalType: int)
    ensures HasType(au, nalType) <==>
            exists h: nat :: 3 <= h < |au| && au[h - 3..h] == [0, 0, 1] && au[h] % 32 == nalType
  {
    if HasType(au, nalType) {
      var h: nat :| h < |au| && IsHeaderOf(au, h, nalType);
      ThreeAt(au, h - 3, 0, 0, 1);
    }
    if h: nat :| 3 <= h < |au| && au[h - 3..h] == [0, 0, 1] && au[h] % 32 == nalType {
      ThreeAt(au, h - 3, 0, 0, 1);
      assert IsHeaderOf(au, h, nalType);
    }
  }

  /** A slice of four or three bytes, read byte by byte. */
  lemma FourAt(b: seq<byte>, i: nat, w: byte, x: byte, y: byte, z: byte)
    requires i + 4 <= |b|
    ensures b[i..i + 4] == [w, x, y, z] <==> b[i] == w && b[i + 1] == x && b[i + 2] == y && b[i + 3] == z
  {
    var four := b[i..i + 4];
    assert four[0] == b[i] && four[1] == b[i + 1] && four[2] == b[i + 2] && four[3] == b[i + 3];
  }

  lemma ThreeAt(b: seq<byte>, i: nat, x: byte, y: byte, z: byte)
    requires i + 3 <= |b|
    ensures b[i..i + 3] == [x, y, z] <==> b[i] == x && b[i + 1] == y && b[i + 2] == z
  {
    var three := b[i..i + 3];
    assert three[0] == b[i] && three[1] == b[i + 1] && three[2] == b[i + 2];
  }

  /** The access unit ends in 00 00 00 01, or begins with a start code and a header byte. */
  lemma ScansInBytes(au: seq<byte>)
    ensures EndsInLongStartCode(au) <==> |au| >= 4 && au[|au| - 4..|au|] == [0, 0, 0, 1]
    ensures StartsWithNal(au) <==> (|au| >= 4 && au[0..3] == [0, 0, 1]) || (|au| >= 5 && au[0..4] == [0, 0, 0, 1])
  {
    if |au| >= 4 {
      FourAt(au, |au| - 4, 0, 0, 0, 1);
      FourAt(au, 0, 0, 0, 0, 1);
      ThreeAt(au, 0, 0, 0, 1);
    }
  }

  /**
   * The answer to every access unit, whatever the caches: the five outcomes exclude each other, and a picture
   * that is no IDR is never refused for want of parameter sets.
   */
  lemma OutcomeExactly(au: seq<byte>, sps: seq<byte>, pps: seq<byte>)
    ensures var answer := Prepared(au, sps, pps).outcome;
      var scans := !EndsInLongStartCode(au) && StartsWithNal(au);
      var sets := (sps != [] || HasType(au, 7)) && (pps != [] || HasType(au, 8));
      && (answer == Failure(EmptyNal) <==> EndsInLongStartCode(au))
      && (answer == Failure(NotAnnexB) <==> !EndsInLongStartCode(au) && !StartsWithNal(au))
      && (answer == Failure(NoPicture) <==> scans && !HasType(au, 1) && !HasType(au, 5))
      && (answer == Failure(MissingParameterSets) <==> scans && HasType(au, 5) && !sets)
      && (answer == Success(false) <==> scans && HasType(au, 1) && !HasType(au, 5))
      && (answer == Success(true) <==> scans && HasType(au, 5) && sets)
  {
    hide EndsInLongStartCode, StartsWithNal, HasType, CachedAfter;
    if !EndsInLongStartCode(au) {
      SetAvailable(au, sps, SPS);
      SetAvailable(au, pps, PPS);
    }
  }

  lemma SetAvailable(au: seq<byte>, cache: seq<byte>, nalType: int)
    requires !EndsInLongStartCode(au) && nalType != 0
    ensures CachedAfter(au, cache, nalType) != [] <==> cache != [] || HasType(au, nalType)
    ensures !HasType(au, nalType) ==> CachedAfter(au, cache, nalType) == cache
  {
    hide EndsInLongStartCode;
    if HasType(au, nalType) {
      PresentSetIsCached(au, nalType);
    } else {
      NothingCached(au, cache, nalType);
    }
  }

  /**
   * The bytes that leave: an accepted IDR behind the cached sets it lacks, SPS first, and anything else as
   * it came. A set the access unit does not carry is cached as before.
   */
  lemma BytesExactly(au: seq<byte>, sps: seq<byte>, pps: seq<byte>)
    ensures var e := Prepared(au, sps, pps);
      && (e.outcome != Success(true) ==> e.au == au)
      && (e.outcome == Success(true) ==>
            e.au == (if HasType(au, 7) then [] else sps) + (if HasType(au, 8) then [] else pps) + au)
      && (!HasType(au, 7) ==> e.sps == sps) && (!HasType(au, 8) ==> e.pps == pps)
  {
    hide EndsInLongStartCode, StartsWithNal, HasType, CachedAfter;
    if !EndsInLongStartCode(au) {
      SetAvailable(au, sps, SPS);
      SetAvailable(au, pps, PPS);
    }
  }

  /**
   * A predictive picture is passed on as it is: whatever the caches, an access unit that scans and has a
   * header of type 1 and none of type 5 is answered with false, and no byte of it changes.
   */
  lemma PredictiveIsPassedOn(au: seq<byte>, sps: seq<byte>, pps: seq<byte>)
    requires Scans(au) && HasType(au, 1) && !HasType(au, 5)
    ensures Prepared(au, sps, pps).outcome == Success(false) && Prepared(au, sps, pps).au == au
  {
    hide Prepared, EndsInLongStartCode, StartsWithNal, HasType;
    OutcomeExactly(au, sps, pps);
    BytesExactly(au, sps, pps);
  }

  // ---------------------------------------------------------------------------------------------
  // The access units of the encoder test
  // ---------------------------------------------------------------------------------------------

  const FIRST: seq<byte> := [0, 0, 0, 1, 0x67, 42, 0, 0, 1, 0x68, 42, 0, 0, 1, 0x65, 42]
  const RECONNECT: seq<byte> := [0, 0, 1, 0x65, 43]
  const PREDICTIVE: seq<byte> := [0, 0, 1, 0x41, 42]

  lemma FirstHeaders(h: int)
    ensures IsHeader(FIRST, h) <==> h == 4 || h == 9 || h == 14
  {
    if 3 <= h < |FIRST| && h != 4 && h != 9 && h != 14 {
      assert FIRST[h - 1] != 1;
    }
  }

  lemma FirstCaches()
    ensures CachedAfter(FIRST, [], SPS) == [0, 0, 0, 1, 0x67, 42] && CachedAfter(FIRST, [], PPS) == [0, 0, 1, 0x68, 42]
    ensures Scans(FIRST) && HasType(FIRST, 5) && HasType(FIRST, 7) && HasType(FIRST, 8)
  {
    forall h ensures IsHeader(FIRST, h) <==> h == 4 || h == 9 || h == 14 { FirstHeaders(h); }
    assert IsHeaderOf(FIRST, 4, 7) && IsHeaderOf(FIRST, 9, 8) && IsHeaderOf(FIRST, 14, 5);
    LastHeaderIs(FIRST, SPS, |FIRST|, 4);
    LastHeaderIs(FIRST, PPS, |FIRST|, 9);
    NextHeaderIs(FIRST, 5, 9);
    NextHeaderIs(FIRST, 10, 14);
    assert FIRST[..6] == [0, 0, 0, 1, 0x67, 42] && FIRST[6..11] == [0, 0, 1, 0x68, 42];
  }

  /** The first access unit carries its sets, the second is an IDR without them, the third is predictive. */
  lemma EncoderTestSequence()
    ensures var first := Prepared(FIRST, [], []);
      && first.outcome == Success(true) && first.au == FIRST
      && first.sps == [0, 0, 0, 1, 0x67, 42] && first.pps == [0, 0, 1, 0x68, 42]
      && Prepared(RECONNECT, first.sps, first.pps)
         == Effect(Success(true), first.sps + first.pps + RECONNECT, first.sps, first.pps)
      && Prepared(PREDICTIVE, first.sps, first.pps)
         == Effect(Success(false), PREDICTIVE, first.sps, first.pps)
      && Prepared(PREDICTIVE, [], []) == Effect(Success(false), PREDICTIVE, [], [])
      && Prepared(RECONNECT, [], []).outcome == Failure(MissingParameterSets)
  {
    hide CachedAfter, Prepared, EndsInLongStartCode, StartsWithNal, HasType;
    FirstCaches();
    PreparedCaches(FIRST, [], []);
    Answered(FIRST, [], []);
    var sps: seq<byte>, pps: seq<byte> := [0, 0, 0, 1, 0x67, 42], [0, 0, 1, 0x68, 42];
    ShortNal(RECONNECT, 5);
    ShortNal(PREDICTIVE, 1);
    Answered(RECONNECT, sps, pps);
    Answered(PREDICTIVE, sps, pps);
    Answered(PREDICTIVE, [], []);
    Answered(RECONNECT, [], []);
    assert [] + [] + FIRST == FIRST;
  }

  lemma Answered(au: seq<byte>, sps: seq<byte>, pps: seq<byte>)
    requires Scans(au)
    ensures var e := Prepared(au, sps, pps);
      var sets := (sps != [] || HasType(au, 7)) && (pps != [] || HasType(au, 8));
      && (HasType(au, 5) && sets ==> e.outcome == Success(true))
      && (HasType(au, 5) && !sets ==> e.outcome == Failure(MissingParameterSets))
      && (HasType(au, 1) && !HasType(au, 5) ==> e.outcome == Success(false))
      && (e.outcome != Success(true) ==> e.au == au)
      && (e.outcome == Success(true) ==>
            e.au == (if HasType(au, 7) then [] else sps) + (if HasType(au, 8) then [] else pps) + au)
      && (!HasType(au, 7) ==> e.sps == sps) && (!HasType(au, 8) ==> e.pps == pps)
  {
    hide Prepared, EndsInLongStartCode, StartsWithNal, HasType;
    OutcomeExactly(au, sps, pps);
    BytesExactly(au, sps, pps);
  }

  lemma ShortNal(au: seq<byte>, nalType: int)
    requires |au| == 5 && au[..3] == [0, 0, 1] && au[3] % 32 == nalType && au[3] > 1 && au[4] > 1
    ensures Scans(au) && forall t :: HasType(au, t) <==> t == nalType
  {
    assert au[0] == 0 && au[1] == 0 && au[2] == 1 by {
      assert au[..3][0] == 0 && au[..3][1] == 0 && au[..3][2] == 1;
    }
    assert IsHeaderOf(au, 3, nalType);
  }
}
