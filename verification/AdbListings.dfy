/** What tools/headset-watch.py reads from `adb track-devices`: listings behind a length, cut anywhere. */
module AdbListings {
  import opened Bytes

  // ---------------------------------------------------------------------------------------------
  // The length field
  // ---------------------------------------------------------------------------------------------

  function Digit(c: byte): (d: Option<nat>) {
    if 48 <= c <= 57 then Some(c - 48)
    else if 97 <= c <= 102 then Some(c - 87)
    else if 65 <= c <= 70 then Some(c - 55)
    else None
  }

  predicate Space(c: byte) {
    9 <= c <= 13 || c == 32
  }

  function Strip(b: seq<byte>): (s: seq<byte>) {
    if b == [] then []
    else if Space(b[0]) then Strip(b[1..])
    else if Space(b[|b| - 1]) then Strip(b[..|b| - 1])
    else b
  }

  /** Hexadecimal digits with single underscores between them. */
  function Digits(b: seq<byte>, value: nat, afterDigit: bool): (n: Option<nat>)
    decreases b
  {
    if b == [] then (if afterDigit then Some(value) else None)
    else if b[0] == 95 then (if afterDigit then Digits(b[1..], value, false) else None)
    else
      match Digit(b[0])
      case Some(d) => Digits(b[1..], 16 * value + d, true)
      case None => None
  }

  function WithoutPrefix(b: seq<byte>): (s: seq<byte>) {
    if |b| >= 2 && b[0] == 48 && (b[1] == 120 || b[1] == 88) then (if |b| > 2 && b[2] == 95 then b[3..] else b[2..])
        else b
  }

  /** int(b, 16) as Python reads it; None is a ValueError. */
  function ParseInt(b: seq<byte>): (n: Option<int>) {
    var s := Strip(b);
    if s == [] then None
    else
      var signed := s[0] == 43 || s[0] == 45;
      match Digits(WithoutPrefix(if signed then s[1..] else s), 0, false)
      case Some(value) => Some((if s[0] == 45 then -1 else 1) * value)
      case None => None
  }

  /** The four lower-case digits adb writes. */
  function HexDigit(n: nat): (c: byte)
    requires n < 16
  {
    if n < 10 then 48 + n else 87 + n
  }

  function Hex4(n: nat): (b: seq<byte>)
    requires n < 0x10000
  {
    [HexDigit(n / 4096), HexDigit(n / 256 % 16), HexDigit(n / 16 % 16), HexDigit(n % 16)]
  }

  lemma DigitReads(n: nat, rest: seq<byte>, value: nat, afterDigit: bool)
    requires n < 16
    ensures Digits([HexDigit(n)] + rest, value, afterDigit) == Digits(rest, 16 * value + n, true)
  {
    assert ([HexDigit(n)] + rest)[1..] == rest;
  }

  lemma DigitIsPlain(n: nat)
    requires n < 16
    ensures !Space(HexDigit(n)) && HexDigit(n) !in {43, 45, 88, 95, 120}
  {
  }

  lemma FourDigitsRead(d3: nat, d2: nat, d1: nat, d0: nat)
    requires d3 < 16 && d2 < 16 && d1 < 16 && d0 < 16
    ensures ParseInt([HexDigit(d3), HexDigit(d2), HexDigit(d1), HexDigit(d0)])
        == Some(16 * (16 * (16 * d3 + d2) + d1) + d0)
  {
    hide Digits, HexDigit, ParseInt;
    DigitIsPlain(d3);
    DigitIsPlain(d2);
    DigitIsPlain(d0);
    DigitReads(d3, [HexDigit(d2), HexDigit(d1), HexDigit(d0)], 0, false);
    DigitReads(d2, [HexDigit(d1), HexDigit(d0)], d3, true);
    DigitReads(d1, [HexDigit(d0)], 16 * d3 + d2, true);
    DigitReads(d0, [], 16 * (16 * d3 + d2) + d1, true);
    NoDigitsLeft(16 * (16 * (16 * d3 + d2) + d1) + d0);
    var digits := [HexDigit(d3), HexDigit(d2), HexDigit(d1), HexDigit(d0)];
    assert digits == [HexDigit(d3)] + [HexDigit(d2), HexDigit(d1), HexDigit(d0)];
    assert [HexDigit(d2), HexDigit(d1), HexDigit(d0)] == [HexDigit(d2)] + [HexDigit(d1), HexDigit(d0)];
    assert [HexDigit(d1), HexDigit(d0)] == [HexDigit(d1)] + [HexDigit(d0)];
    assert [HexDigit(d0)] == [HexDigit(d0)] + [];
    PlainNumber(digits, 16 * (16 * (16 * d3 + d2) + d1) + d0);
  }

  /** What adb writes is read as the same number. */
  lemma LengthReads(n: nat)
    requires n < 0x10000
    ensures ParseInt(Hex4(n)) == Some(n)
  {
    hide ParseInt, HexDigit;
    FourDigitsRead(n / 4096, n / 256 % 16, n / 16 % 16, n % 16);
    FourDigitsAddUp(n);
  }

  lemma FourDigitsAddUp(n: nat)
    requires n < 0x10000
    ensures 16 * (16 * (16 * (n / 4096) + n / 256 % 16) + n / 16 % 16) + n % 16 == n
  {
    assert n / 256 == 16 * (n / 4096) + n / 256 % 16;
    assert n / 16 == 16 * (n / 256) + n / 16 % 16;
  }

  lemma NoDigitsLeft(n: nat)
    ensures Digits([], n, true) == Some(n)
  {
  }

  lemma PlainNumber(b: seq<byte>, n: nat)
    requires |b| >= 2 && Digits(b, 0, false) == Some(n)
    requires !Space(b[0]) && !Space(b[|b| - 1]) && b[0] !in {43, 45} && b[1] !in {88, 120}
    ensures ParseInt(b) == Some(n)
  {
    hide Digits;
    assert Strip(b) == b;
  }

  // ---------------------------------------------------------------------------------------------
  // The listing parser
  // ---------------------------------------------------------------------------------------------

  /** b[from:to] and b[from:], where a negative position counts from the end. */
  function PySlice(b: seq<byte>, from: nat, to: int): (s: seq<byte>) {
    var stop := PyPosition(b, to);
    if from <= stop then b[from..stop] else []
  }

  function PyDrop(b: seq<byte>, from: int): (s: seq<byte>) {
    b[PyPosition(b, from)..]
  }

  function PyPosition(b: seq<byte>, i: int): (p: nat)
    ensures p <= |b|
  {
    if i > |b| then |b| else if i >= 0 then i else if |b| + i >= 0 then |b| + i else 0
  }

  /** Why the inner loop ends: for want of bytes, with a ValueError, or never. */
  datatype Stop = NeedsMore | Unreadable | Hangs

  /** The listings found, the bytes left over, and how the loop ends. */
  datatype Parsed = Parsed(listings: seq<seq<byte>>, rest: seq<byte>, stop: Stop)

  function Parse(b: seq<byte>): (p: Parsed) {
    if |b| < 4 then Parsed([], b, NeedsMore)
    else
      match ParseInt(b[..4])
      case None => Parsed([], b, Unreadable)
      case Some(size) =>
        if |b| < 4 + size then Parsed([], b, NeedsMore)
        else
          var rest := PyDrop(b, 4 + size);
          if |rest| == |b| then Parsed([], b, Hangs)
          else
            var later := Parse(rest);
            Parsed([PySlice(b, 4, 4 + size)] + later.listings, later.rest, later.stop)
  }

  /** No length that is read makes a position count from the end of the buffer. adb writes no signs at all. */
  predicate Steady(b: seq<byte>) {
    |b| < 4 ||
    match ParseInt(b[..4])
    case None => true
    case Some(size) =>
      size >= -4 && (|b| < 4 + size || var rest := PyDrop(b, 4 + size); |rest| == |b| || Steady(rest))
  }

  lemma ParseFirst(b: seq<byte>, size: int)
    requires |b| >= 4 && ParseInt(b[..4]) == Some(size) && |b| >= 4 + size && |PyDrop(b, 4 + size)| < |b|
    ensures var later := Parse(PyDrop(b, 4 + size));
      Parse(b) == Parsed([PySlice(b, 4, 4 + size)] + later.listings, later.rest, later.stop)
    ensures Steady(b) <==> size >= -4 && Steady(PyDrop(b, 4 + size))
  {
  }

  lemma ParseStops(b: seq<byte>)
    requires |b| >= 4 && ParseInt(b[..4]).Some? && |b| >= 4 + ParseInt(b[..4]).value ==>
               |PyDrop(b, 4 + ParseInt(b[..4]).value)| == |b|
    ensures Parse(b) ==
            Parsed([], b, if |b| < 4 then NeedsMore
                          else if ParseInt(b[..4]) == None then Unreadable
                          else if |b| < 4 + ParseInt(b[..4]).value then NeedsMore
                          else Hangs)
  {
  }

  /** From a fixed position the buffer is cut the same, whatever comes behind it. */
  lemma CutsAlike(a: seq<byte>, b: seq<byte>, i: int)
    requires 0 <= i <= |a|
    ensures PyDrop(a + b, i) == PyDrop(a, i) + b && PySlice(a + b, 4, i) == PySlice(a, 4, i)
  {
  }

  /**
   * Parsing can stop at any byte and go on with what was left over: the listings are the same, and a buffer
   * that is steady as a whole is steady on both sides.
   */
  lemma {:induction false} ParseResumes(a: seq<byte>, b: seq<byte>)
    requires Steady(a + b)
    ensures var first := Parse(a);
      if first.stop != NeedsMore then Parse(a + b).stop == first.stop && Parse(a + b).listings == first.listings
      else
        var second := Parse(first.rest + b);
        && Steady(first.rest + b)
        && Parse(a + b) == Parsed(first.listings + second.listings, second.rest, second.stop)
    decreases |a|
  {
    hide Parse, ParseInt, PyDrop, PySlice, Steady;
    if |a| < 4 {
      ParseStops(a);
      assert [] + Parse(a + b).listings == Parse(a + b).listings;
    } else {
      assert (a + b)[..4] == a[..4];
      match ParseInt(a[..4])
      case None =>
        ParseStops(a);
        ParseStops(a + b);
      case Some(size) =>
        SteadySize(a + b, size);
        if |a| < 4 + size {
          ParseStops(a);
          assert [] + Parse(a + b).listings == Parse(a + b).listings;
        } else {
          CutsAlike(a, b, 4 + size);
          DropLength(a, 4 + size);
          if size == -4 {
            ParseStops(a);
            ParseStops(a + b);
          } else {
            ResumeBehind(a, b, size);
          }
        }
    }
  }

  lemma ResumeBehind(a: seq<byte>, b: seq<byte>, size: int)
    requires Steady(a + b) && |a| >= 4 && ParseInt(a[..4]) == Some(size) && -4 < size && 4 + size <= |a|
    ensures var first := Parse(a);
      if first.stop != NeedsMore then Parse(a + b).stop == first.stop && Parse(a + b).listings == first.listings
      else
        var second := Parse(first.rest + b);
        && Steady(first.rest + b)
        && Parse(a + b) == Parsed(first.listings + second.listings, second.rest, second.stop)
    decreases |a|, 0
  {
    hide Parse, ParseInt, PyDrop, PySlice, Steady;
    assert (a + b)[..4] == a[..4];
    CutsAlike(a, b, 4 + size);
    DropLength(a, 4 + size);
    DropLength(a + b, 4 + size);
    var rest := PyDrop(a, 4 + size);
    ParseFirst(a, size);
    ParseFirst(a + b, size);
    ParseResumes(rest, b);
    Associates([PySlice(a, 4, 4 + size)], Parse(rest).listings, Parse(Parse(rest).rest + b).listings);
  }

  lemma SteadySize(b: seq<byte>, size: int)
    requires Steady(b) && |b| >= 4 && ParseInt(b[..4]) == Some(size)
    ensures size >= -4
  {
  }

  lemma DropLength(b: seq<byte>, i: int)
    requires 0 <= i <= |b|
    ensures |PyDrop(b, i)| == |b| - i
  {
  }

  lemma Associates<T>(a: seq<T>, b: seq<T>, c: seq<T>)
    ensures a + b + c == a + (b + c)
  {
  }

  // ---------------------------------------------------------------------------------------------
  // The buffer between reads
  // ---------------------------------------------------------------------------------------------

  /** What the loop makes of pieces that arrive one after the other, up to one that ends it. */
  function Fed(buffer: seq<byte>, chunks: seq<seq<byte>>): (p: Parsed)
    decreases chunks
  {
    if chunks == [] then Parsed([], buffer, NeedsMore)
    else
      var first := Parse(buffer + chunks[0]);
      if first.stop != NeedsMore then first
      else
        var later := Fed(first.rest, chunks[1..]);
        Parsed(first.listings + later.listings, later.rest, later.stop)
  }

  /** The buffer has been parsed as far as it goes. */
  predicate Drained(buffer: seq<byte>) {
    Parse(buffer) == Parsed([], buffer, NeedsMore)
  }

  /** What is left over is drained. */
  lemma {:induction false} RestIsDrained(b: seq<byte>)
    requires Parse(b).stop == NeedsMore
    ensures Drained(Parse(b).rest)
    decreases |b|
  {
    hide ParseInt, PySlice;
    if |b| >= 4 && ParseInt(b[..4]).Some? && |b| >= 4 + ParseInt(b[..4]).value {
      var rest := PyDrop(b, 4 + ParseInt(b[..4]).value);
      if |rest| < |b| {
        RestIsDrained(rest);
      }
    }
  }

  /** However steady output is cut, the listings and the end are those of the whole output. */
  lemma {:induction false} EveryCutReadsTheSame(buffer: seq<byte>, chunks: seq<seq<byte>>)
    requires Drained(buffer) && Steady(buffer + Flatten(chunks))
    ensures var whole := Parse(buffer + Flatten(chunks));
      Fed(buffer, chunks).listings == whole.listings && Fed(buffer, chunks).stop == whole.stop
    decreases chunks
  {
    hide Parse, Steady;
    if chunks == [] {
      assert buffer + Flatten(chunks) == buffer;
    } else {
      var all := buffer + chunks[0];
      assert buffer + Flatten(chunks) == all + Flatten(chunks[1..]);
      ParseResumes(all, Flatten(chunks[1..]));
      if Parse(all).stop == NeedsMore {
        RestIsDrained(all);
        EveryCutReadsTheSame(Parse(all).rest, chunks[1..]);
      }
    }
  }

  /**
   * The listings of b, cut behind its first k bytes, and of b with x behind it part at position n: there the
   * whole gives a listing that is not empty, where the piece gives an empty one or hangs.
   */
  ghost predicate PartAt(b: seq<byte>, k: nat, x: seq<byte>, n: nat) {
    && 4 <= k <= |b|
    && var piece, whole := Parse(b[..k]), Parse(b + x);
    && n < |whole.listings| && whole.listings[n] != []
    && if piece.stop == Hangs then |piece.listings| == n
       else piece.stop == NeedsMore && n < |piece.listings| && piece.listings[n] == []
  }

  /** A length below -4 at the front: cut behind it, and let enough follow for a listing. */
  lemma SignedFrontParts(b: seq<byte>, size: int) returns (x: seq<byte>)
    requires |b| >= 4 && ParseInt(b[..4]) == Some(size) && size < -4
    ensures PartAt(b, 4, x, 0)
  {
    hide ParseInt;
    x := seq(1 - size, _ => 0);
    var piece, whole := b[..4], b + x;
    assert piece[..4] == b[..4] && whole[..4] == b[..4];
    assert PySlice(piece, 4, 4 + size) == [];
    assert |PySlice(whole, 4, 4 + size)| == |whole| + size > 0;
    ParseFirst(whole, size);
    if |PyDrop(piece, 4 + size)| == 4 {
      ParseStops(piece);
    } else {
      ParseFirst(piece, size);
      ParseStops(PyDrop(piece, 4 + size));
    }
  }

  /** Behind a length that cuts from the front, the parting moves on by one listing. */
  lemma PartsBehind(b: seq<byte>, size: int, k: nat, x: seq<byte>, n: nat)
    requires |b| >= 4 && ParseInt(b[..4]) == Some(size) && -4 < size && 4 + size <= |b|
    requires PartAt(PyDrop(b, 4 + size), k, x, n)
    ensures PartAt(b, 4 + size + k, x, n + 1)
  {
    hide Parse, ParseInt;
    var rest := PyDrop(b, 4 + size);
    var piece, whole := b[..4 + size + k], b + x;
    assert piece[..4] == b[..4] && whole[..4] == b[..4];
    assert PyDrop(piece, 4 + size) == rest[..k] && PyDrop(whole, 4 + size) == rest + x;
    ParseFirst(piece, size);
    ParseFirst(whole, size);
  }

  lemma {:induction false} UnsteadyParts(b: seq<byte>) returns (k: nat, x: seq<byte>, n: nat)
    requires !Steady(b)
    ensures PartAt(b, k, x, n)
    decreases |b|
  {
    hide ParseInt, PartAt, Parse;
    var size := ParseInt(b[..4]).value;
    if size < -4 {
      k, n := 4, 0;
      x := SignedFrontParts(b, size);
    } else {
      k, x, n := UnsteadyParts(PyDrop(b, 4 + size));
      PartsBehind(b, size, k, x, n);
      k, n := 4 + size + k, n + 1;
    }
  }

  /**
   * The condition cannot be dropped: output that is not steady has a continuation, and a place to cut it,
   * with which the listings are not those of the whole.
   */
  lemma UnsteadyOutputDependsOnTheCut(b: seq<byte>) returns (k: nat, x: seq<byte>)
    requires !Steady(b)
    ensures 4 <= k <= |b| && Fed([], [b[..k], b[k..] + x]).listings != Parse(b + x).listings
    ensures b[..k] + (b[k..] + x) == b + x
  {
    hide Parse;
    var n;
    k, x, n := UnsteadyParts(b);
    assert [] + b[..k] == b[..k];
    var piece := Parse(b[..k]);
    var cut := Fed([], [b[..k], b[k..] + x]);
    if piece.stop == Hangs {
      assert cut == piece;
    } else {
      assert cut.listings[n] == piece.listings[n];
    }
  }

  /** A length with a sign can make the listings depend on the cut: "-005" takes its end from what has arrived. */
  lemma SignedLengthDependsOnTheCut()
    ensures var signed: seq<byte>, x: seq<byte> := [45, 48, 48, 53], [97, 98];
      !Steady(signed + x) && Fed([], [signed, x]).listings != Fed([], [signed + x]).listings
  {
    var signed: seq<byte>, x: seq<byte> := [45, 48, 48, 53], [97, 98];
    SignedLength(signed);
    var whole := signed + x;
    assert whole[..4] == signed && signed[..4] == signed;
    assert PyDrop(whole, -1) == [98] && PySlice(whole, 4, -1) == [97];
    assert Parse([98]) == Parsed([], [98], NeedsMore);
    assert Parse(whole) == Parsed([[97]], [98], NeedsMore);
    assert PyDrop(signed, -1) == [53] && PySlice(signed, 4, -1) == [];
    assert Parse([53]) == Parsed([], [53], NeedsMore);
    assert Parse(signed) == Parsed([[]], [53], NeedsMore);
    assert [] + signed == signed && [] + whole == whole;
    assert Fed([], [whole]).listings[0] == [97];
    assert Fed([], [signed, x]).listings[0] == [];
  }

  lemma SignedLength(b: seq<byte>)
    requires b == [45, 48, 48, 53]
    ensures ParseInt(b) == Some(-5)
  {
    assert Strip(b) == b && b[1..] == [48, 48, 53] && WithoutPrefix(b[1..]) == b[1..];
    assert b[1..][1..] == [48, 53] && b[1..][1..][1..] == [53] && b[1..][1..][1..][1..] == [];
    assert Digits([], 5, true) == Some(5);
    assert Digits([53], 0, true) == Some(5);
    assert Digits([48, 53], 0, true) == Some(5);
    assert Digits([48, 48, 53], 0, false) == Some(5);
  }

  function Encode(listing: seq<byte>): (b: seq<byte>)
    requires |listing| < 0x10000
  {
    Hex4(|listing|) + listing
  }

  function EncodeAll(listings: seq<seq<byte>>): (b: seq<byte>)
    requires forall l :: l in listings ==> |l| < 0x10000
  {
    if listings == [] then [] else Encode(listings[0]) + EncodeAll(listings[1..])
  }

  lemma FourDigits(n: nat)
    requires n < 0x10000
    ensures |Hex4(n)| == 4
  {
  }

  /** What adb sends is read back listing by listing, and is steady. */
  lemma {:induction false} ListingsRoundTrip(listings: seq<seq<byte>>)
    requires forall l :: l in listings ==> |l| < 0x10000
    ensures Parse(EncodeAll(listings)) == Parsed(listings, [], NeedsMore) && Steady(EncodeAll(listings))
  {
    hide ParseInt, Hex4;
    if listings != [] {
      hide Parse, Steady;
      var first, others := listings[0], EncodeAll(listings[1..]);
      ListingsRoundTrip(listings[1..]);
      var b := Hex4(|first|) + first + others;
      LengthReads(|first|);
      FourDigits(|first|);
      assert b[..4] == Hex4(|first|) && b[4..4 + |first|] == first && b[4 + |first|..] == others;
      assert PySlice(b, 4, 4 + |first|) == first && PyDrop(b, 4 + |first|) == others;
      ParseFirst(b, |first|);
      assert [first] + listings[1..] == listings;
    }
  }

  /** However what adb sends is cut, every listing is read, in order. */
  lemma EveryListingIsRead(listings: seq<seq<byte>>, chunks: seq<seq<byte>>)
    requires (forall l :: l in listings ==> |l| < 0x10000) && Flatten(chunks) == EncodeAll(listings)
    ensures Fed([], chunks).listings == listings && Fed([], chunks).stop == NeedsMore
  {
    hide Parse, Steady, Fed;
    ListingsRoundTrip(listings);
    assert [] + Flatten(chunks) == Flatten(chunks);
    assert Drained([]) by { NothingParsed(); }
    EveryCutReadsTheSame([], chunks);
  }

  lemma NothingParsed()
    ensures Parse([]) == Parsed([], [], NeedsMore)
  {
  }
}
