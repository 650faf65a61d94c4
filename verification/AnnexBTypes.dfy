/**
 * annexb_types of tools/receiver.py: the regular expression 00 00 (00)? 01 applied from left to right.
 * Its NAL types are those of the encoder's own scanner, on every byte string.
 */
module AnnexBTypes {
  import opened Bytes
  import opened AnnexB
  import opened AnnexBSeam

  /** Length of the match at position i, 0 when there is none; the optional zero is tried first. */
  function MatchAt(b: seq<byte>, i: nat): (length: nat)
    ensures i + length <= |b| || length == 0
  {
    if i + 3 < |b| && b[i] == 0 && b[i + 1] == 0 && b[i + 2] == 0 && b[i + 3] == 1 then 4
    else if i + 2 < |b| && b[i] == 0 && b[i + 1] == 0 && b[i + 2] == 1 then 3
    else 0
  }

  /** The ends of the non-overlapping matches at or after i: re.finditer. */
  function MatchEnds(b: seq<byte>, i: nat): (ends: seq<nat>)
    decreases |b| - i
  {
    if i >= |b| then []
    else if MatchAt(b, i) > 0 then [i + MatchAt(b, i)] + MatchEnds(b, i + MatchAt(b, i))
    else MatchEnds(b, i + 1)
  }

  function AnnexbTypes(payload: seq<byte>): (types: set<int>) {
    set e | e in MatchEnds(payload, 0) && e < |payload| :: payload[e] % 32
  }

  /** A match that ends inside the buffer ends at a NAL header, and every header ends a match. */
  lemma {:induction false} MatchEndsAreHeaders(b: seq<byte>, i: nat, h: nat)
    requires h < |b|
    requires !IsHeader(b, i + 1) && !IsHeader(b, i + 2)
    ensures h in MatchEnds(b, i) <==> IsHeader(b, h) && h >= i + 3
    decreases |b| - i
  {
    if i < |b| {
      var n := MatchAt(b, i);
      if n == 0 {
        assert !IsHeader(b, i + 3);
        MatchEndsAreHeaders(b, i + 1, h);
      } else {
        assert b[i + n - 1] == 1;
        MatchEndsAreHeaders(b, i + n, h);
        assert i + n < |b| ==> IsHeader(b, i + n);
        assert n == 4 ==> !IsHeader(b, i + 3);
        assert h in MatchEnds(b, i) <==> h == i + n || h in MatchEnds(b, i + n);
      }
    }
  }

  /** The receiver's regular expression and the encoder's scanner agree on the set of NAL types. */
  lemma TypesAgree(payload: seq<byte>, nalType: int)
    ensures nalType in AnnexbTypes(payload) <==> HasType(payload, nalType)
  {
    if nalType in AnnexbTypes(payload) {
      var e :| e in MatchEnds(payload, 0) && e < |payload| && payload[e] % 32 == nalType;
      MatchEndsAreHeaders(payload, 0, e);
      assert IsHeaderOf(payload, e, nalType);
    }
    if HasType(payload, nalType) {
      var h :| 0 <= h < |payload| && IsHeaderOf(payload, h, nalType);
      MatchEndsAreHeaders(payload, 0, h);
      assert payload[h] % 32 in AnnexbTypes(payload);
    }
  }

  /**
   * Whatever access units came before, accepted or rejected: when prepareAnnexB returns true, the buffer it
   * leaves starts with a start code, and the receiver finds IDR, SPS and PPS in it.
   */
  lemma AcceptedIdrStartsAStream(earlier: seq<seq<byte>>, au: seq<byte>)
    requires Prepared(au, CachesAfterRun(earlier).0, CachesAfterRun(earlier).1).outcome == Success(true)
    ensures var e := Prepared(au, CachesAfterRun(earlier).0, CachesAfterRun(earlier).1);
      StartsWithNal(e.au) && {5, 7, 8} <= AnnexbTypes(e.au)
  {
    hide Prepared, CachesAfterRun, AnnexbTypes;
    var caches := CachesAfterRun(earlier);
    RunKeepsCaches(earlier);
    AcceptedIdrIsSelfContained(au, caches.0, caches.1);
    var e := Prepared(au, caches.0, caches.1);
    TypesAgree(e.au, IDR);
    TypesAgree(e.au, SPS);
    TypesAgree(e.au, PPS);
  }
}
