/**
 * What the scan of a ++ b sees at the seam, and what follows for prepareAnnexB: an accepted IDR is
 * self-contained, normalising it again changes nothing, and exactly when fresh caches equal the old ones.
 */
module AnnexBSeam {
  import opened Bytes
  import opened AnnexB

  // ---------------------------------------------------------------------------------------------
  // The seam of a ++ b
  // ---------------------------------------------------------------------------------------------

  /** The headers of a ++ b are those of a, those of b, and b's first byte when a ends in 00 00 01. */
  lemma SeamHeaders(a: seq<byte>, b: seq<byte>, h: nat)
    requires StartsWithNal(b)
    ensures IsHeader(a + b, h) <==>
            IsHeader(a, h) || IsHeader(b, h - |a|) || (h == |a| && EndsInShortStartCode(a))
  {
    var s := a + b;
    if 3 <= h < |s| {
      assert h < |a| ==> s[h - 3..h] == a[h - 3..h];
      assert h >= |a| + 3 ==> s[h - 3] == b[h - 3 - |a|] && s[h - 2] == b[h - 2 - |a|] && s[h - 1] == b[h - 1 - |a|];
    }
  }

  /** The seam adds and loses no NAL type except type 0: every type of a and of b is found, and no other. */
  lemma SeamTypes(a: seq<byte>, b: seq<byte>, nalType: int)
    requires StartsWithNal(b) && nalType != 0
    ensures HasType(a + b, nalType) <==> HasType(a, nalType) || HasType(b, nalType)
  {
    var s := a + b;
    if HasType(s, nalType) {
      var h :| 0 <= h < |s| && IsHeaderOf(s, h, nalType);
      SeamHeaders(a, b, h);
      if h < |a| {
        assert IsHeaderOf(a, h, nalType);
      } else {
        assert IsHeaderOf(b, h - |a|, nalType);
      }
    }
    if HasType(a, nalType) {
      var h :| 0 <= h < |a| && IsHeaderOf(a, h, nalType);
      SeamHeaders(a, b, h);
      assert IsHeaderOf(s, h, nalType);
    }
    if HasType(b, nalType) {
      var h :| 0 <= h < |b| && IsHeaderOf(b, h, nalType);
      SeamHeaders(a, b, |a| + h);
      assert IsHeaderOf(s, |a| + h, nalType);
    }
  }

  lemma SeamStart(a: seq<byte>, b: seq<byte>)
    requires StartsWithNal(b) && (a == [] || StartsWithNal(a))
    ensures StartsWithNal(a + b)
    ensures !EndsInLongStartCode(b) ==> !EndsInLongStartCode(a + b)
  {
    assert a == [] ==> a + b == b;
  }

  /** Neither a trailing zero of a nor a trailing 00 00 01 runs into the first start code of b. */
  predicate CleanSeam(a: seq<byte>, b: seq<byte>)
    requires |b| >= 3
  {
    !EndsInShortStartCode(a) && !(a != [] && a[|a| - 1] == 0 && b[2] == 1)
  }

  lemma BehindSeam(a: seq<byte>, b: seq<byte>, h: nat)
    requires StartsWithNal(b) && h > 0
    ensures IsHeader(a + b, |a| + h) <==> IsHeader(b, h)
  {
    SeamHeaders(a, b, |a| + h);
  }

  lemma {:induction false} NextBehindSeam(a: seq<byte>, b: seq<byte>, k: nat)
    requires StartsWithNal(b) && 0 < k <= |b|
    ensures NextHeader(a + b, |a| + k) == |a| + NextHeader(b, k)
    decreases |b| - k
  {
    BehindSeam(a, b, k);
    if k < |b| && !IsHeader(b, k) {
      NextBehindSeam(a, b, k + 1);
    }
  }

  /** Behind a clean seam every NAL unit of b keeps its bytes. */
  lemma NalBehindCleanSeam(a: seq<byte>, b: seq<byte>, h: nat)
    requires StartsWithNal(b) && IsHeader(b, h) && CleanSeam(a, b)
    ensures IsHeader(a + b, |a| + h) && NalBytes(a + b, |a| + h) == NalBytes(b, h)
  {
    StartBehindCleanSeam(a, b, h);
    EndBehindCleanSeam(a, b, h);
    NalShape(a + b, |a| + h);
    NalShape(b, h);
    SliceBehind(a, b, StartOf(b, h), NalEnd(b, h));
  }

  lemma SliceBehind(a: seq<byte>, b: seq<byte>, from: nat, to: nat)
    requires from <= to <= |b|
    ensures (a + b)[|a| + from..|a| + to] == b[from..to]
  {
  }

  lemma EndBehindCleanSeam(a: seq<byte>, b: seq<byte>, h: nat)
    requires StartsWithNal(b) && IsHeader(b, h) && CleanSeam(a, b)
    ensures IsHeader(a + b, |a| + h) && NalEnd(a + b, |a| + h) == |a| + NalEnd(b, h)
  {
    BehindSeam(a, b, h);
    NextBehindSeam(a, b, h + 1);
    var next := NextHeader(b, h + 1);
    if next < |b| {
      StartBehindCleanSeam(a, b, next);
    }
  }

  lemma StartBehindCleanSeam(a: seq<byte>, b: seq<byte>, h: nat)
    requires StartsWithNal(b) && IsHeader(b, h) && CleanSeam(a, b)
    ensures IsHeader(a + b, |a| + h) && StartOf(a + b, |a| + h) == |a| + StartOf(b, h)
  {
    SeamHeaders(a, b, |a| + h);
    if h >= 4 {
      assert (a + b)[|a| + h - 4] == b[h - 4];
    } else {
      assert a != [] ==> (a + b)[|a| - 1] == a[|a| - 1];
    }
  }

  // ---------------------------------------------------------------------------------------------
  // Parameter sets as cached
  // ---------------------------------------------------------------------------------------------

  /** Scanning s alone succeeds and gives exactly one NAL unit, of the given type. */
  predicate ParameterSet(s: seq<byte>, nalType: int) {
    && !EndsInLongStartCode(s)
    && |NalsBelow(s, |s|)| == 1
    && NalsBelow(s, |s|)[0].start == 0
    && s[OnlyHeader(s)] % 32 == nalType
  }

  function OnlyHeader(s: seq<byte>): (h: nat)
    requires |NalsBelow(s, |s|)| == 1
    ensures IsHeader(s, h)
  {
    NalsBelowEntry(s, |s|, 0);
    NalsBelow(s, |s|)[0].header
  }

  predicate Cached(cache: seq<byte>, nalType: int) {
    cache == [] || ParameterSet(cache, nalType)
  }

  lemma ParameterSetShape(s: seq<byte>, nalType: int)
    requires ParameterSet(s, nalType)
    ensures StartsWithNal(s) && HasType(s, nalType)
    ensures forall h :: IsHeader(s, h) ==> h == OnlyHeader(s)
    ensures StartOf(s, OnlyHeader(s)) == 0 && NalEnd(s, OnlyHeader(s)) == |s|
  {
    var only := OnlyHeader(s);
    FirstNal(s);
    NalsBelowEntry(s, |s|, 0);
    NalsBelowFirst(s, |s|);
    NalsBelowNext(s, |s|, 0);
    assert IsHeaderOf(s, only, nalType);
    forall h | IsHeader(s, h)
      ensures h == only
    {
      if h < only {
        NextHeaderMeaning(s, 0, h);
      } else if h > only {
        NextHeaderMeaning(s, only + 1, h);
      }
    }
  }

  lemma {:induction false} SingleHeader(s: seq<byte>, h: nat, k: nat)
    requires IsHeader(s, h) && forall j :: IsHeader(s, j) ==> j == h
    ensures NalsBelow(s, k) == if k <= h then [] else [Nal(StartOf(s, h), h)]
  {
    if k > 0 {
      SingleHeader(s, h, k - 1);
    }
  }

  /** A header inside the bytes of one NAL unit is that unit's own header. */
  lemma SliceHeaders(b: seq<byte>, h: nat, j: int)
    requires IsHeader(b, h) && b[h] != 0
    ensures StartOf(b, h) <= h < NalEnd(b, h) <= |b|
    ensures IsHeader(NalBytes(b, h), j) <==> j == h - StartOf(b, h)
  {
    NalShape(b, h);
    var s := NalBytes(b, h);
    var start := StartOf(b, h);
    if 3 <= j < |s| {
      assert s[j - 3] == b[start + j - 3] && s[j - 2] == b[start + j - 2] && s[j - 1] == b[start + j - 1];
      assert IsHeader(s, j) <==> IsHeader(b, start + j);
      if j > h - start {
        NextHeaderMeaning(b, h + 1, start + j);
      }
    }
  }

  /** Every slice the normaliser caches is a parameter set, wherever it lay in the access unit. */
  lemma SliceIsParameterSet(b: seq<byte>, h: nat, nalType: int)
    requires IsHeaderOf(b, h, nalType) && b[h] != 0 && !EndsInLongStartCode(b)
    ensures ParameterSet(NalBytes(b, h), nalType)
  {
    var s := NalBytes(b, h);
    var own := h - StartOf(b, h);
    forall j ensures IsHeader(s, j) <==> j == own { SliceHeaders(b, h, j); }
    NalShape(b, h);
    SingleHeader(s, own, |s|);
    assert StartOf(s, own) == 0;
    if EndsInLongStartCode(s) {
      var end := NalEnd(b, h);
      assert b[end - 3] == 0 && b[end - 2] == 0 && b[end - 1] == 1 && b[end - 4] == 0 by {
        assert s[|s| - 4] == b[end - 4] && s[|s| - 3] == b[end - 3] && s[|s| - 2] == b[end - 2]
            && s[|s| - 1] == b[end - 1];
      }
      if end < |b| {
        assert IsHeader(b, end);
        NextHeaderMeaning(b, h + 1, end);
      }
    }
  }

  /** The access unit reaches the recording loop: it scans, and begins with a NAL unit. */
  predicate Scans(au: seq<byte>) {
    !EndsInLongStartCode(au) && StartsWithNal(au)
  }

  /** The caches depend on scanning only, not on whether the access unit is accepted later. */
  lemma PreparedCaches(au: seq<byte>, sps: seq<byte>, pps: seq<byte>)
    ensures var e := Prepared(au, sps, pps);
      && e.sps == (if Scans(au) then CachedAfter(au, sps, SPS) else sps)
      && e.pps == (if Scans(au) then CachedAfter(au, pps, PPS) else pps)
  {
  }

  lemma PreparedKeepsCaches(au: seq<byte>, sps: seq<byte>, pps: seq<byte>)
    requires Cached(sps, SPS) && Cached(pps, PPS)
    ensures Cached(Prepared(au, sps, pps).sps, SPS) && Cached(Prepared(au, sps, pps).pps, PPS)
  {
    PreparedCaches(au, sps, pps);
    if Scans(au) {
      CachedAfterIsCached(au, sps, SPS);
      CachedAfterIsCached(au, pps, PPS);
    }
  }

  lemma CachedAfterIsCached(au: seq<byte>, cache: seq<byte>, nalType: int)
    requires Cached(cache, nalType) && !EndsInLongStartCode(au) && nalType != 0
    ensures Cached(CachedAfter(au, cache, nalType), nalType)
  {
    var h := LastHeaderBelow(au, nalType, |au|);
    if h != -1 {
      SliceIsParameterSet(au, h, nalType);
    }
  }

  // ---------------------------------------------------------------------------------------------
  // Runs of access units
  // ---------------------------------------------------------------------------------------------

  /** The caches after normalising a run of access units, accepted or rejected, from empty caches. */
  function CachesAfterRun(aus: seq<seq<byte>>): (caches: (seq<byte>, seq<byte>)) {
    if aus == [] then ([], [])
    else
      var before := CachesAfterRun(aus[..|aus| - 1]);
      var e := Prepared(aus[|aus| - 1], before.0, before.1);
      (e.sps, e.pps)
  }

  function Cache(caches: (seq<byte>, seq<byte>), nalType: int): (cache: seq<byte>) {
    if nalType == SPS then caches.0 else caches.1
  }

  lemma RunStep(aus: seq<seq<byte>>, nalType: int)
    requires aus != [] && (nalType == SPS || nalType == PPS)
    ensures var au := aus[|aus| - 1];
      var before := Cache(CachesAfterRun(aus[..|aus| - 1]), nalType);
      Cache(CachesAfterRun(aus), nalType) == if Scans(au) then CachedAfter(au, before, nalType) else before
  {
    var before := CachesAfterRun(aus[..|aus| - 1]);
    PreparedCaches(aus[|aus| - 1], before.0, before.1);
  }

  /**
   * Cache invariant over any run, rejected access units included: a cache is empty when no scanned access
   * unit carried its type, and otherwise is byte for byte the last NAL unit of that type in the latest
   * access unit that did.
   */
  lemma {:induction false} CacheIsMostRecentSet(aus: seq<seq<byte>>, nalType: int, latest: int)
    requires nalType == SPS || nalType == PPS
    requires -1 <= latest < |aus|
    requires latest >= 0 ==> Scans(aus[latest]) && HasType(aus[latest], nalType)
    requires forall i :: latest < i < |aus| ==> !(Scans(aus[i]) && HasType(aus[i], nalType))
    ensures var cache := Cache(CachesAfterRun(aus), nalType);
      && (latest == -1 ==> cache == [])
      && (latest >= 0 ==>
            var h := LastHeaderBelow(aus[latest], nalType, |aus[latest]|);
            h != -1 && cache == NalBytes(aus[latest], h))
  {
    if aus != [] {
      RunStep(aus, nalType);
      HasTypeIffLast(aus[|aus| - 1], nalType);
      if latest < |aus| - 1 {
        CacheIsMostRecentSet(aus[..|aus| - 1], nalType, latest);
      }
    }
  }

  /** After any run each cache is empty or scans alone as exactly one NAL unit of its type. */
  lemma {:induction false} RunKeepsCaches(aus: seq<seq<byte>>)
    ensures Cached(CachesAfterRun(aus).0, SPS) && Cached(CachesAfterRun(aus).1, PPS)
  {
    if aus != [] {
      var n := |aus| - 1;
      RunKeepsCaches(aus[..n]);
      PreparedKeepsCaches(aus[n], CachesAfterRun(aus[..n]).0, CachesAfterRun(aus[..n]).1);
    }
  }

  // ---------------------------------------------------------------------------------------------
  // Self-contained IDR pictures
  // ---------------------------------------------------------------------------------------------

  /** What prepareAnnexB put in front of the access unit. */
  function Inserted(au: seq<byte>, e: Effect): (prefix: seq<byte>) {
    (if HasType(au, SPS) then [] else e.sps) + (if HasType(au, PPS) then [] else e.pps)
  }

  lemma AcceptedShape(au: seq<byte>, sps: seq<byte>, pps: seq<byte>)
    requires Cached(sps, SPS) && Cached(pps, PPS)
    requires Prepared(au, sps, pps).outcome == Success(true)
    ensures var e := Prepared(au, sps, pps);
      && Scans(au) && HasType(au, IDR)
      && ParameterSet(e.sps, SPS) && ParameterSet(e.pps, PPS)
      && e.sps == CachedAfter(au, sps, SPS) && e.pps == CachedAfter(au, pps, PPS)
      && e.au == Inserted(au, e) + au
  {
    PreparedKeepsCaches(au, sps, pps);
  }

  /** Conversely, these conditions are all that acceptance as an IDR needs. */
  lemma AcceptedIf(au: seq<byte>, sps: seq<byte>, pps: seq<byte>)
    requires Scans(au) && HasType(au, IDR)
    requires CachedAfter(au, sps, SPS) != [] && CachedAfter(au, pps, PPS) != []
    ensures Prepared(au, sps, pps).outcome == Success(true)
    ensures HasType(au, SPS) && HasType(au, PPS) ==> Prepared(au, sps, pps).au == au
  {
  }

  lemma InsertedTypes(first: seq<byte>, second: seq<byte>, au: seq<byte>, nalType: int)
    requires StartsWithNal(au) && (second == [] || StartsWithNal(second)) && nalType != 0
    ensures HasType(first + (second + au), nalType) <==>
            HasType(first, nalType) || HasType(second, nalType) || HasType(au, nalType)
  {
    SeamStart(second, au);
    SeamTypes(second, au, nalType);
    SeamTypes(first, second + au, nalType);
  }

  /**
   * An accepted IDR starts with a start code and carries SPS, PPS and the IDR slice, whatever its NAL
   * units look like and wherever the caches came from.
   */
  lemma AcceptedIdrIsSelfContained(au: seq<byte>, sps: seq<byte>, pps: seq<byte>)
    requires Cached(sps, SPS) && Cached(pps, PPS)
    requires Prepared(au, sps, pps).outcome == Success(true)
    ensures var e := Prepared(au, sps, pps);
      Scans(e.au) && HasType(e.au, IDR) && HasType(e.au, SPS) && HasType(e.au, PPS)
  {
    AcceptedShape(au, sps, pps);
    PrefixedIsSelfContained(au, Prepared(au, sps, pps));
  }

  lemma PrefixedIsSelfContained(au: seq<byte>, e: Effect)
    requires Scans(au) && HasType(au, IDR) && ParameterSet(e.sps, SPS) && ParameterSet(e.pps, PPS)
    requires e.au == Inserted(au, e) + au
    ensures Scans(e.au) && HasType(e.au, IDR) && HasType(e.au, SPS) && HasType(e.au, PPS)
  {
    var first := if HasType(au, SPS) then [] else e.sps;
    var second := if HasType(au, PPS) then [] else e.pps;
    assert e.au == first + (second + au);
    SetTypes(e.sps, SPS);
    SetTypes(e.pps, PPS);
    SeamStart(second, au);
    SeamStart(first, second + au);
    InsertedTypes(first, second, au, IDR);
    InsertedTypes(first, second, au, SPS);
    InsertedTypes(first, second, au, PPS);
  }

  lemma SetTypes(s: seq<byte>, nalType: int)
    requires ParameterSet(s, nalType)
    ensures StartsWithNal(s) && HasType(s, nalType)
  {
    ParameterSetShape(s, nalType);
  }

  /** Normalising an accepted IDR again, with empty caches, accepts it as an IDR and changes no byte. */
  lemma NormalisedIdrIsFixed(au: seq<byte>, sps: seq<byte>, pps: seq<byte>)
    requires Cached(sps, SPS) && Cached(pps, PPS)
    requires Prepared(au, sps, pps).outcome == Success(true)
    ensures var e := Prepared(au, sps, pps);
      var again := Prepared(e.au, [], []);
      again.outcome == Success(true) && again.au == e.au
  {
    AcceptedIdrIsSelfContained(au, sps, pps);
    var b := Prepared(au, sps, pps).au;
    PresentSetIsCached(b, SPS);
    PresentSetIsCached(b, PPS);
    AcceptedIf(b, [], []);
  }

  lemma PresentSetIsCached(b: seq<byte>, nalType: int)
    requires HasType(b, nalType) && nalType != 0 && !EndsInLongStartCode(b)
    ensures forall cache :: CachedAfter(b, cache, nalType) == CachedAfter(b, [], nalType) != []
  {
    HasTypeIffLast(b, nalType);
    NalShape(b, LastHeaderBelow(b, nalType, |b|));
  }

  /** No inserted parameter set runs into the start code that follows it. */
  predicate CleanInsertion(au: seq<byte>, e: Effect)
    requires |au| >= 3 && |e.pps| >= 3
  {
    && (!HasType(au, SPS) ==> CleanSeam(e.sps, if HasType(au, PPS) then au else e.pps))
    && (!HasType(au, PPS) ==> CleanSeam(e.pps, au))
  }

  /** A parameter set standing in front of b is read back whole exactly when the seam is clean. */
  lemma SetInFront(s: seq<byte>, b: seq<byte>, nalType: int)
    requires ParameterSet(s, nalType) && nalType != 0 && StartsWithNal(b) && !HasType(b, nalType)
    ensures CachedAfter(s + b, [], nalType) == s <==> CleanSeam(s, b)
  {
    var all := s + b;
    var h := OnlyHeader(s);
    ParameterSetShape(s, nalType);
    SeamHeaders(s, b, h);
    LastHeaderInFront(s, b, nalType);
    var next := if EndsInShortStartCode(s) then |s| else if b[2] == 1 then |s| + 3 else |s| + 4;
    forall j | h + 1 <= j <= next
      ensures IsHeader(all, j) <==> j == next
    {
      SeamHeaders(s, b, j);
    }
    NextHeaderIs(all, h + 1, next);
    NalShape(all, h);
    assert StartOf(all, h) == 0 by {
      assert h >= 4 ==> all[h - 4] == s[h - 4];
    }
    assert all[..|s|] == s;
    assert |all[0..NalEnd(all, h)]| == NalEnd(all, h);
  }

  lemma LastHeaderInFront(s: seq<byte>, b: seq<byte>, nalType: int)
    requires ParameterSet(s, nalType) && nalType != 0 && StartsWithNal(b) && !HasType(b, nalType)
    ensures LastHeaderBelow(s + b, nalType, |s + b|) == OnlyHeader(s)
  {
    var all := s + b;
    var h := OnlyHeader(s);
    ParameterSetShape(s, nalType);
    SeamHeaders(s, b, h);
    forall j | h < j < |all|
      ensures !IsHeaderOf(all, j, nalType)
    {
      SeamHeaders(s, b, j);
      if IsHeaderOf(all, j, nalType) && IsHeader(b, j - |s|) {
        assert IsHeaderOf(b, j - |s|, nalType);
      }
    }
    LastHeaderIs(all, nalType, |all|, h);
  }

  lemma {:induction false} LastBehindSeam(a: seq<byte>, b: seq<byte>, nalType: int, k: nat)
    requires StartsWithNal(b) && k <= |b| && LastHeaderBelow(b, nalType, k) != -1
    ensures LastHeaderBelow(a + b, nalType, |a| + k) == |a| + LastHeaderBelow(b, nalType, k)
  {
    if k > 1 {
      BehindSeam(a, b, k - 1);
      if !IsHeaderOf(b, k - 1, nalType) {
        LastBehindSeam(a, b, nalType, k - 1);
      }
    }
  }

  /** Behind a clean seam the last set of b is read back as from b alone. */
  lemma SetBehind(a: seq<byte>, b: seq<byte>, nalType: int)
    requires StartsWithNal(b) && HasType(b, nalType) && CleanSeam(a, b)
    ensures CachedAfter(a + b, [], nalType) == CachedAfter(b, [], nalType)
  {
    hide NalBytes, LastHeaderBelow, CleanSeam, StartsWithNal, HasType;
    HasTypeIffLast(b, nalType);
    var h := LastHeaderBelow(b, nalType, |b|);
    LastBehindSeam(a, b, nalType, |b|);
    NalBehindCleanSeam(a, b, h);
    CachedIs(a + b, nalType, |a| + h);
    CachedIs(b, nalType, h);
  }

  lemma CachedIs(b: seq<byte>, nalType: int, h: nat)
    requires LastHeaderBelow(b, nalType, |b|) == h
    ensures IsHeader(b, h) && CachedAfter(b, [], nalType) == NalBytes(b, h)
  {
  }

  /**
   * A decoder that starts at an accepted IDR with empty caches reads the very parameter sets the encoder
   * had cached exactly when no inserted set runs into the start code after it.
   */
  lemma FreshCachesEqualOldExactlyWhenClean(au: seq<byte>, sps: seq<byte>, pps: seq<byte>)
    requires Cached(sps, SPS) && Cached(pps, PPS)
    requires Prepared(au, sps, pps).outcome == Success(true)
    ensures var e := Prepared(au, sps, pps);
      var again := Prepared(e.au, [], []);
      && |au| >= 3 && |e.pps| >= 3
      && ((again.sps == e.sps && again.pps == e.pps) <==> CleanInsertion(au, e))
  {
    AcceptedShape(au, sps, pps);
    AcceptedIdrIsSelfContained(au, sps, pps);
    var e := Prepared(au, sps, pps);
    PreparedCaches(e.au, [], []);
    ReadBack(au, sps, pps, e);
  }

  lemma ReadBack(au: seq<byte>, sps: seq<byte>, pps: seq<byte>, e: Effect)
    requires Scans(au) && ParameterSet(e.sps, SPS) && ParameterSet(e.pps, PPS)
    requires e.sps == CachedAfter(au, sps, SPS) && e.pps == CachedAfter(au, pps, PPS)
    requires e.au == Inserted(au, e) + au
    ensures |au| >= 3 && |e.pps| >= 3
    ensures (CachedAfter(e.au, [], SPS) == e.sps && CachedAfter(e.au, [], PPS) == e.pps) <==> CleanInsertion(au, e)
  {
    ParameterSetShape(e.pps, PPS);
    if HasType(au, SPS) && HasType(au, PPS) {
      PresentSetIsCached(au, SPS);
      PresentSetIsCached(au, PPS);
      assert e.au == au;
    } else if HasType(au, PPS) {
      assert e.au == e.sps + au;
      PresentSetIsCached(au, PPS);
      OneInserted(e.sps, SPS, au, PPS);
    } else if HasType(au, SPS) {
      assert e.au == e.pps + au;
      PresentSetIsCached(au, SPS);
      OneInserted(e.pps, PPS, au, SPS);
    } else {
      BothInserted(au, e.sps, e.pps);
      assert e.au == e.sps + (e.pps + au);
    }
  }

  lemma OneInserted(s: seq<byte>, nalType: int, au: seq<byte>, other: int)
    requires ParameterSet(s, nalType) && nalType != 0 && StartsWithNal(au)
    requires !HasType(au, nalType) && HasType(au, other)
    ensures (CachedAfter(s + au, [], nalType) == s && CachedAfter(s + au, [], other) == CachedAfter(au, [], other))
            <==> CleanSeam(s, au)
  {
    SetInFront(s, au, nalType);
    if CleanSeam(s, au) {
      SetBehind(s, au, other);
    }
  }

  lemma OtherType(s: seq<byte>, nalType: int, other: int)
    requires ParameterSet(s, nalType) && nalType != other
    ensures !HasType(s, other)
  {
    ParameterSetShape(s, nalType);
  }

  lemma BothInserted(au: seq<byte>, sps: seq<byte>, pps: seq<byte>)
    requires ParameterSet(sps, SPS) && ParameterSet(pps, PPS)
    requires StartsWithNal(au) && !HasType(au, SPS) && !HasType(au, PPS)
    ensures |pps| >= 3
    ensures var all := sps + (pps + au);
      (CachedAfter(all, [], SPS) == sps && CachedAfter(all, [], PPS) == pps)
          <==> (CleanSeam(sps, pps) && CleanSeam(pps, au))
  {
    ParameterSetShape(sps, SPS);
    ParameterSetShape(pps, PPS);
    OtherType(pps, PPS, SPS);
    var tail := pps + au;
    SeamStart(pps, au);
    SeamTypes(pps, au, SPS);
    SeamTypes(pps, au, PPS);
    SetInFront(sps, tail, SPS);
    SetInFront(pps, au, PPS);
    assert CleanSeam(sps, tail) <==> CleanSeam(sps, pps);
    if CleanSeam(sps, tail) {
      SetBehind(sps, tail, PPS);
    }
  }

  // ---------------------------------------------------------------------------------------------
  // The NAL units of an access unit
  // ---------------------------------------------------------------------------------------------

  /** The bytes of the first i NAL units, in order. */
  function NalUnits(b: seq<byte>, i: nat): (units: seq<seq<byte>>)
    requires i <= |NalsBelow(b, |b|)|
  {
    if i == 0 then []
    else
      NalEntry(b, i - 1);
      NalUnits(b, i - 1) + [NalBytes(b, NalsBelow(b, |b|)[i - 1].header)]
  }

  /** On success the NAL units partition the access unit: joined, they are its bytes. */
  lemma NalUnitsPartition(b: seq<byte>)
    requires Scans(b)
    ensures Flatten(NalUnits(b, |NalsBelow(b, |b|)|)) == b
  {
    FirstNal(b);
    NalUnitsCover(b, |NalsBelow(b, |b|)|);
  }

  lemma {:induction false} NalUnitsCover(b: seq<byte>, i: nat)
    requires StartsWithNal(b) && i <= |NalsBelow(b, |b|)|
    ensures var nals := NalsBelow(b, |b|);
      var end := if i < |nals| then nals[i].start else |b|;
      end <= |b| && Flatten(NalUnits(b, i)) == b[..end]
  {
    hide NalBytes, NalsBelow, StartsWithNal;
    FirstNal(b);
    var nals := NalsBelow(b, |b|);
    if i == 0 {
    } else {
      NalUnitsCover(b, i - 1);
      NalEntry(b, i - 1);
      FlattenSnoc(NalUnits(b, i - 1), NalBytes(b, nals[i - 1].header));
      var end := if i < |nals| then nals[i].start else |b|;
      assert b[..nals[i - 1].start] + b[nals[i - 1].start..end] == b[..end];
    }
  }

  /**
   * No start code hides in the body of a NAL unit, from its header to the next start: the only one the scan
   * does not see is a bare 00 00 01 in the last three bytes of the buffer.
   */
  lemma BodyHidesNoStartCode(b: seq<byte>, j: nat, i: nat)
    requires Scans(b) && j < |NalsBelow(b, |b|)|
    requires var nals := NalsBelow(b, |b|);
      nals[j].header <= i < (if j + 1 < |nals| then nals[j + 1].start else |b|)
    requires i + 3 <= |b| && b[i] == 0 && b[i + 1] == 0 && b[i + 2] == 1
    ensures i == |b| - 3 && j == |NalsBelow(b, |b|)| - 1
  {
    var nals := NalsBelow(b, |b|);
    NalsBelowEntry(b, |b|, j);
    NalsBelowNext(b, |b|, j);
    if j + 1 < |nals| {
      NalsBelowEntry(b, |b|, j + 1);
    }
    if i + 3 < |b| {
      assert IsHeader(b, i + 3);
      NextHeaderMeaning(b, nals[j].header + 1, i + 3);
    }
  }

  lemma OneShortNal(s: seq<byte>, nalType: int)
    requires 4 <= |s| <= 5 && s[0] == 0 && s[1] == 0 && s[2] == 1 && s[3] % 32 == nalType && s[3] > 1
    ensures ParameterSet(s, nalType)
  {
    assert IsHeader(s, 3);
    forall j ensures IsHeader(s, j) ==> j == 3 {}
    SingleHeader(s, 3, |s|);
  }

  lemma NothingCached(au: seq<byte>, cache: seq<byte>, nalType: int)
    requires !HasType(au, nalType)
    ensures CachedAfter(au, cache, nalType) == cache
  {
    HasTypeIffLast(au, nalType);
  }

  /**
   * Fresh caches can differ from the old ones: a cached SPS that ends in a zero byte, which H.264 forbids,
   * lends that zero to the start code of the PPS inserted behind it.
   */
  lemma FreshCachesCanDiffer()
    ensures var au, sps, pps := [0, 0, 1, 5], [0, 0, 1, 7, 0], [0, 0, 1, 8];
      var e := Prepared(au, sps, pps);
      var again := Prepared(e.au, [], []);
      && Cached(sps, SPS) && Cached(pps, PPS) && e.outcome == Success(true)
      && !(again.sps == e.sps && again.pps == e.pps)
  {
    hide ParameterSet, NalsBelow, HasType, CachedAfter;
    var au: seq<byte>, sps: seq<byte>, pps: seq<byte> := [0, 0, 1, 5], [0, 0, 1, 7, 0], [0, 0, 1, 8];
    OneShortNal(sps, SPS);
    OneShortNal(pps, PPS);
    OneShortNal(au, IDR);
    SetTypes(au, IDR);
    OtherType(au, IDR, SPS);
    OtherType(au, IDR, PPS);
    NothingCached(au, sps, SPS);
    NothingCached(au, pps, PPS);
    var e := Prepared(au, sps, pps);
    assert e.outcome == Success(true) && e.sps == sps && e.pps == pps;
    FreshCachesEqualOldExactlyWhenClean(au, sps, pps);
    assert !CleanSeam(e.sps, e.pps);
  }
}
