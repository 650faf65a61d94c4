/**
 * The Annex-B normaliser of host/encoder/annexb.h: a byte scanner for NAL units, two parameter-set
 * caches that survive across access units, and the insertion of cached sets before an IDR picture.
 *
 * The scanner is specified without scanning: a NAL header is any byte that follows 00 00 01, and
 * where its start code begins depends on one more byte only.
 */
module AnnexB {
  import opened Bytes

  const IDR: int := 5
  const NON_IDR: int := 1
  const SPS: int := 7
  const PPS: int := 8

  /** A std::vector<uint8_t> passed by reference. */
  class ByteVector {
    var bytes: seq<byte>

    constructor (bytes: seq<byte>)
      ensures this.bytes == bytes
    {
      this.bytes := bytes;
    }
  }

  datatype Nal = Nal(start: nat, header: nat)

  datatype Reason = EmptyNal | NotAnnexB | NoPicture | MissingParameterSets

  // ---------------------------------------------------------------------------------------------
  // Reference definitions
  // ---------------------------------------------------------------------------------------------

  /** Byte h is a NAL header: the three bytes before it are a start code. */
  predicate IsHeader(b: seq<byte>, h: int) {
    3 <= h < |b| && b[h - 3] == 0 && b[h - 2] == 0 && b[h - 1] == 1
  }

  /** Where the start code of header h begins: a zero just before 00 00 01 belongs to it. */
  function StartOf(b: seq<byte>, h: int): (start: nat)
    requires IsHeader(b, h)
  {
    if h >= 4 && b[h - 4] == 0 then h - 4 else h - 3
  }

  predicate IsHeaderOf(b: seq<byte>, h: int, nalType: int) {
    IsHeader(b, h) && b[h] % 32 == nalType
  }

  predicate HasType(b: seq<byte>, nalType: int) {
    exists h :: 0 <= h < |b| && IsHeaderOf(b, h, nalType)
  }

  predicate EndsInLongStartCode(b: seq<byte>) {
    |b| >= 4 && b[|b| - 4] == 0 && b[|b| - 3] == 0 && b[|b| - 2] == 0 && b[|b| - 1] == 1
  }

  predicate EndsInShortStartCode(b: seq<byte>) {
    |b| >= 3 && b[|b| - 3] == 0 && b[|b| - 2] == 0 && b[|b| - 1] == 1
  }

  predicate StartsWithNal(b: seq<byte>) {
    IsHeader(b, 3) || (IsHeader(b, 4) && b[0] == 0)
  }

  /** All headers below position k, in order. */
  function HeadersBelow(b: seq<byte>, k: nat): (headers: seq<nat>) {
    if k == 0 then []
    else if IsHeader(b, k - 1) then HeadersBelow(b, k - 1) + [k - 1]
    else HeadersBelow(b, k - 1)
  }

  /** The greatest header of the given type below k, or -1. */
  function LastHeaderBelow(b: seq<byte>, nalType: int, k: nat): (h: int)
    ensures h != -1 ==> 0 <= h < k && IsHeaderOf(b, h, nalType)
  {
    if k == 0 then -1
    else if IsHeaderOf(b, k - 1, nalType) then k - 1
    else LastHeaderBelow(b, nalType, k - 1)
  }

  lemma {:induction false} LastHeaderMeaning(b: seq<byte>, nalType: int, k: nat, j: int)
    requires LastHeaderBelow(b, nalType, k) < j < k
    ensures !IsHeaderOf(b, j, nalType)
  {
    if j < k - 1 {
      LastHeaderMeaning(b, nalType, k - 1, j);
    }
  }

  /** The exact reading of LastHeaderBelow: a header of the type with none of that type after it. */
  lemma LastHeaderIs(b: seq<byte>, nalType: int, k: nat, h: int)
    requires -1 <= h < k
    requires h == -1 || IsHeaderOf(b, h, nalType)
    requires forall j :: h < j < k ==> !IsHeaderOf(b, j, nalType)
    ensures LastHeaderBelow(b, nalType, k) == h
  {
    var l := LastHeaderBelow(b, nalType, k);
    if l < h {
      LastHeaderMeaning(b, nalType, k, h);
    }
  }

  lemma HasTypeIffLast(b: seq<byte>, nalType: int)
    ensures HasType(b, nalType) <==> LastHeaderBelow(b, nalType, |b|) != -1
  {
    if LastHeaderBelow(b, nalType, |b|) == -1 && HasType(b, nalType) {
      var h :| 0 <= h < |b| && IsHeaderOf(b, h, nalType);
      LastHeaderMeaning(b, nalType, |b|, h);
    }
  }

  /** The first header at or after k, or |b|. */
  function NextHeader(b: seq<byte>, k: nat): (h: nat)
    requires k <= |b|
    ensures k <= h <= |b|
    ensures h < |b| ==> IsHeader(b, h)
    decreases |b| - k
  {
    if k == |b| || IsHeader(b, k) then k else NextHeader(b, k + 1)
  }

  lemma {:induction false} NextHeaderMeaning(b: seq<byte>, k: nat, j: nat)
    requires k <= j < |b| && j < NextHeader(b, k)
    ensures !IsHeader(b, j)
    decreases |b| - k
  {
    if k < j {
      NextHeaderMeaning(b, k + 1, j);
    }
  }

  /** The exact reading of NextHeader: a header, or the end, with no header before it from k on. */
  lemma {:induction false} NextHeaderIs(b: seq<byte>, k: nat, h: nat)
    requires k <= h <= |b| && (h == |b| || IsHeader(b, h))
    requires forall j :: k <= j < h ==> !IsHeader(b, j)
    ensures NextHeader(b, k) == h
    decreases h - k
  {
    if k < h {
      NextHeaderIs(b, k + 1, h);
    }
  }

  /** The position just after the NAL unit with header h. */
  function NalEnd(b: seq<byte>, h: nat): (end: nat)
    requires IsHeader(b, h)
  {
    var next := NextHeader(b, h + 1);
    if next == |b| then |b| else StartOf(b, next)
  }

  /** The NAL unit with header h, start code included. */
  function NalBytes(b: seq<byte>, h: nat): (nal: seq<byte>)
    requires IsHeader(b, h)
  {
    NalShape(b, h);
    b[StartOf(b, h)..NalEnd(b, h)]
  }

  lemma NalShape(b: seq<byte>, h: nat)
    requires IsHeader(b, h)
    ensures StartOf(b, h) < h <= NalEnd(b, h) <= |b|
    ensures b[h] != 0 ==> h < NalEnd(b, h)
  {
    var next := NextHeader(b, h + 1);
    if next < |b| {
      assert b[next - 3] == 0 && b[next - 2] == 0;
    }
  }

  /** A cache after the headers below k: the last set of its type, else the old cache. */
  function CachedBelow(b: seq<byte>, cache: seq<byte>, nalType: int, k: nat): (after: seq<byte>) {
    var h := LastHeaderBelow(b, nalType, k);
    if h == -1 then cache else NalBytes(b, h)
  }

  /** A parameter-set cache after a whole access unit. */
  function CachedAfter(b: seq<byte>, cache: seq<byte>, nalType: int): (after: seq<byte>) {
    CachedBelow(b, cache, nalType, |b|)
  }

  datatype Effect = Effect(outcome: Result<bool, Reason>, au: seq<byte>, sps: seq<byte>, pps: seq<byte>)

  /** What prepareAnnexB does to an access unit and to the caches, in terms of headers and types only. */
  function Prepared(au: seq<byte>, sps: seq<byte>, pps: seq<byte>): (e: Effect) {
    if EndsInLongStartCode(au) then Effect(Failure(EmptyNal), au, sps, pps)
    else if !StartsWithNal(au) then Effect(Failure(NotAnnexB), au, sps, pps)
    else
      var sps' := CachedAfter(au, sps, SPS);
      var pps' := CachedAfter(au, pps, PPS);
      if !HasType(au, NON_IDR) && !HasType(au, IDR) then Effect(Failure(NoPicture), au, sps', pps')
      else if !HasType(au, IDR) then Effect(Success(false), au, sps', pps')
      else if sps' == [] || pps' == [] then Effect(Failure(MissingParameterSets), au, sps', pps')
      else
        var prefix := (if HasType(au, SPS) then [] else sps') + (if HasType(au, PPS) then [] else pps');
        Effect(Success(true), prefix + au, sps', pps')
  }

  // ---------------------------------------------------------------------------------------------
  // The scanner and the normaliser
  // ---------------------------------------------------------------------------------------------

  /** The NAL list a successful scan returns. */
  function NalsBelow(b: seq<byte>, k: nat): (nals: seq<Nal>) {
    if k == 0 then []
    else if IsHeader(b, k - 1) then NalsBelow(b, k - 1) + [Nal(StartOf(b, k - 1), k - 1)]
    else NalsBelow(b, k - 1)
  }

  /** The scan loop: it fails exactly on a trailing 00 00 00 01, and otherwise finds every header. */
  method ScanNals(au: seq<byte>) returns (r: Result<seq<Nal>, Reason>)
    ensures r == if EndsInLongStartCode(au) then Failure(EmptyNal) else Success(NalsBelow(au, |au|))
  {
    var nals: seq<Nal> := [];
    var i := 0;
    assert NalsBelow(au, 1) == [];
    assert NalsBelow(au, 2) == [];
    while i + 3 < |au|
      invariant 0 <= i <= |au|
      invariant nals == NalsBelow(au, i + 3)
      invariant i > 0 && i + 2 < |au| && au[i - 1] == 0 ==> !(au[i] == 0 && au[i + 1] == 0 && au[i + 2] == 1)
      invariant EndsInLongStartCode(au) ==> i <= |au| - 4
      decreases |au| - i
    {
      var length := 0;
      if au[i] == 0 && au[i + 1] == 0 && au[i + 2] == 1 {
        length := 3;
      } else if au[i] == 0 && au[i + 1] == 0 && au[i + 2] == 0 && au[i + 3] == 1 {
        length := 4;
      }
      if length != 0 {
        if i + length >= |au| {
          return Failure(EmptyNal);
        }
        nals := nals + [Nal(i, i + length)];
        if length == 3 {
          assert NalsBelow(au, i + 4) == NalsBelow(au, i + 3) + [Nal(i, i + 3)];
          assert NalsBelow(au, i + 5) == NalsBelow(au, i + 4);
        } else {
          assert NalsBelow(au, i + 4) == NalsBelow(au, i + 3);
          assert NalsBelow(au, i + 5) == NalsBelow(au, i + 4) + [Nal(i, i + 4)];
          assert NalsBelow(au, i + 6) == NalsBelow(au, i + 5);
        }
        i := i + length;
      } else {
        i := i + 1;
      }
    }
    NalsBelowEnd(au, i + 3);
    return Success(nals);
  }

  lemma {:induction false} NalsBelowEnd(b: seq<byte>, k: nat)
    requires k >= |b|
    ensures NalsBelow(b, k) == NalsBelow(b, |b|)
  {
    if k > |b| {
      NalsBelowEnd(b, k - 1);
    }
  }

  lemma {:induction false} NalsBelowEntry(b: seq<byte>, k: nat, j: nat)
    requires j < |NalsBelow(b, k)|
    ensures var nal := NalsBelow(b, k)[j];
      nal.header < k && IsHeader(b, nal.header) && nal.start == StartOf(b, nal.header)
  {
    if j < |NalsBelow(b, k - 1)| {
      NalsBelowEntry(b, k - 1, j);
    }
  }

  /** Entries follow each other with no header between: each is the next header after the one before. */
  lemma {:induction false} NalsBelowNext(b: seq<byte>, k: nat, j: nat)
    requires j < |NalsBelow(b, k)| && k <= |b|
    ensures var nals := NalsBelow(b, k);
      && nals[j].header < k
      && NextHeader(b, nals[j].header + 1) == if j + 1 < |nals| then nals[j + 1].header else NextHeader(b, k)
  {
    if j < |NalsBelow(b, k - 1)| {
      NalsBelowNext(b, k - 1, j);
    }
  }

  lemma {:induction false} NalsBelowFirst(b: seq<byte>, k: nat)
    requires k <= |b|
    ensures var nals := NalsBelow(b, k);
      NextHeader(b, 0) == if nals == [] then NextHeader(b, k) else nals[0].header
  {
    if k > 0 {
      NalsBelowFirst(b, k - 1);
    }
  }

  /** The end the loop computes from the next entry is the end of the NAL unit. */
  lemma NalEntry(b: seq<byte>, j: nat)
    requires j < |NalsBelow(b, |b|)|
    ensures var nals := NalsBelow(b, |b|);
      var h := nals[j].header;
      var end := if j + 1 < |nals| then nals[j + 1].start else |b|;
      && IsHeader(b, h)
      && nals[j].start <= end <= |b|
      && NalBytes(b, h) == b[nals[j].start..end]
  {
    var nals := NalsBelow(b, |b|);
    NalsBelowEntry(b, |b|, j);
    NalsBelowNext(b, |b|, j);
    if j + 1 < |nals| {
      NalsBelowEntry(b, |b|, j + 1);
    }
    NalShape(b, nals[j].header);
  }

  /** The position up to which the first i entries of the list account for every header. */
  function Frontier(b: seq<byte>, i: nat): (k: nat) {
    var nals := NalsBelow(b, |b|);
    if i < |nals| then nals[i].header else |b|
  }

  lemma {:induction false} LastHeaderBelowNext(b: seq<byte>, nalType: int, k: nat)
    requires k <= |b|
    ensures LastHeaderBelow(b, nalType, NextHeader(b, k)) == LastHeaderBelow(b, nalType, k)
    decreases |b| - k
  {
    if k < |b| && !IsHeader(b, k) {
      LastHeaderBelowNext(b, nalType, k + 1);
    }
  }

  lemma FrontierStart(b: seq<byte>, nalType: int)
    ensures LastHeaderBelow(b, nalType, Frontier(b, 0)) == -1
  {
    NalsBelowFirst(b, |b|);
    LastHeaderBelowNext(b, nalType, 0);
  }

  /** One more entry of the list moves the frontier past exactly that header. */
  lemma FrontierStep(b: seq<byte>, i: nat, nalType: int)
    requires i < |NalsBelow(b, |b|)|
    ensures var h := NalsBelow(b, |b|)[i].header;
      && IsHeader(b, h)
      && LastHeaderBelow(b, nalType, Frontier(b, i + 1)) ==
         if b[h] % 32 == nalType then h else LastHeaderBelow(b, nalType, Frontier(b, i))
  {
    var h := NalsBelow(b, |b|)[i].header;
    NalsBelowEntry(b, |b|, i);
    NalsBelowNext(b, |b|, i);
    LastHeaderBelowNext(b, nalType, h + 1);
  }

  /** Whether a NAL unit begins at byte 0. */
  lemma FirstNal(b: seq<byte>)
    ensures var nals := NalsBelow(b, |b|); StartsWithNal(b) <==> nals != [] && nals[0].start == 0
  {
    var nals := NalsBelow(b, |b|);
    NalsBelowFirst(b, |b|);
    if nals != [] {
      NalsBelowEntry(b, |b|, 0);
    }
    if StartsWithNal(b) {
      NextHeaderIs(b, 0, if IsHeader(b, 3) then 3 else 4);
    }
  }

  /** The second loop: records each parameter set as it is met, and notes which types occur. */
  method RecordSets(b: seq<byte>, nals: seq<Nal>, sps: ByteVector, pps: ByteVector)
    returns (idr: bool, hasSps: bool, hasPps: bool, vcl: bool)
    requires sps != pps && nals == NalsBelow(b, |b|)
    modifies sps, pps
    ensures sps.bytes == CachedAfter(b, old(sps.bytes), SPS)
    ensures pps.bytes == CachedAfter(b, old(pps.bytes), PPS)
    ensures hasSps == HasType(b, SPS) && hasPps == HasType(b, PPS)
    ensures idr == HasType(b, IDR) && vcl == (HasType(b, IDR) || HasType(b, NON_IDR))
  {
    idr, hasSps, hasPps, vcl := false, false, false, false;
    FrontierStart(b, SPS);
    FrontierStart(b, PPS);
    FrontierStart(b, IDR);
    FrontierStart(b, NON_IDR);
    var i := 0;
    while i < |nals|
      invariant 0 <= i <= |nals|
      invariant sps.bytes == CachedBelow(b, old(sps.bytes), SPS, Frontier(b, i))
      invariant pps.bytes == CachedBelow(b, old(pps.bytes), PPS, Frontier(b, i))
      invariant hasSps <==> LastHeaderBelow(b, SPS, Frontier(b, i)) != -1
      invariant hasPps <==> LastHeaderBelow(b, PPS, Frontier(b, i)) != -1
      invariant idr <==> LastHeaderBelow(b, IDR, Frontier(b, i)) != -1
      invariant vcl <==> idr || LastHeaderBelow(b, NON_IDR, Frontier(b, i)) != -1
    {
      NalEntry(b, i);
      FrontierStep(b, i, SPS);
      FrontierStep(b, i, PPS);
      FrontierStep(b, i, IDR);
      FrontierStep(b, i, NON_IDR);
      var nalType := b[nals[i].header] % 32;
      var end := if i + 1 < |nals| then nals[i + 1].start else |b|;
      if nalType == SPS {
        sps.bytes := b[nals[i].start..end];
        hasSps := true;
      } else if nalType == PPS {
        pps.bytes := b[nals[i].start..end];
        hasPps := true;
      }
      idr := idr || nalType == IDR;
      vcl := vcl || nalType == NON_IDR || nalType == IDR;
      i := i + 1;
    }
    HasTypeIffLast(b, SPS);
    HasTypeIffLast(b, PPS);
    HasTypeIffLast(b, IDR);
    HasTypeIffLast(b, NON_IDR);
  }

  /**
   * prepareAnnexB: normalises au in place and updates the caches. Every exit of the source is covered:
   * the caches keep what was recorded before a late rejection, and a rejected access unit is unchanged.
   */
  method PrepareAnnexB(au: ByteVector, sps: ByteVector, pps: ByteVector) returns (r: Result<bool, Reason>)
    requires au != sps && au != pps && sps != pps
    modifies au, sps, pps
    ensures Effect(r, au.bytes, sps.bytes, pps.bytes) == Prepared(old(au.bytes), old(sps.bytes), old(pps.bytes))
  {
    var scan := ScanNals(au.bytes);
    if scan.Failure? {
      return Failure(scan.error);
    }
    var nals := scan.value;
    if nals == [] || nals[0].start != 0 {
      FirstNal(au.bytes);
      return Failure(NotAnnexB);
    }
    FirstNal(au.bytes);
    var idr, hasSps, hasPps, vcl := RecordSets(au.bytes, nals, sps, pps);
    if !vcl {
      return Failure(NoPicture);
    }
    if idr {
      if sps.bytes == [] || pps.bytes == [] {
        return Failure(MissingParameterSets);
      }
      if !hasSps || !hasPps {
        var prefix := [];
        if !hasSps {
          prefix := prefix + sps.bytes;
        }
        if !hasPps {
          prefix := prefix + pps.bytes;
        }
        au.bytes := prefix + au.bytes;
      }
    }
    return Success(idr);
  }
}
