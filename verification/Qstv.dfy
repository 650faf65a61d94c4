/**
 * QSTV v1 framing: framePacket of host/transport/tcp_server.cpp and parse_header of tools/receiver.py,
 * and the law that ties the printer to the parser.
 */
module Qstv {
  import opened Bytes

  const MONITOR_COUNT: nat := 2
  const MAX_PAYLOAD: nat := 8 * 1024 * 1024
  const HEADER_SIZE: nat := 32

  datatype Packet = Packet(monitorId: int, ptsUs: int, keyframe: bool, bytes: seq<byte>)

  /** The packets framePacket accepts; the upper bound on ptsUs is that of int64_t. */
  predicate Sendable(p: Packet) {
    && 0 <= p.monitorId < MONITOR_COUNT
    && 0 <= p.ptsUs < 0x8000_0000_0000_0000
    && 1 <= |p.bytes| <= MAX_PAYLOAD
  }

  type ValidPacket = p: Packet | Sendable(p) witness Packet(0, 0, true, [0])

  // ---------------------------------------------------------------------------------------------
  // Big-endian fields
  // ---------------------------------------------------------------------------------------------

  function Pow256(n: nat): (p: nat)
    ensures p > 0
  {
    if n == 0 then 1 else 256 * Pow256(n - 1)
  }

  function BigEndian(value: nat, n: nat): (field: seq<byte>)
    ensures |field| == n
  {
    if n == 0 then [] else BigEndian(value / 256, n - 1) + [value % 256]
  }

  function FromBigEndian(field: seq<byte>): (value: nat) {
    if field == [] then 0
    else 256 * FromBigEndian(field[..|field| - 1]) + field[|field| - 1]
  }

  lemma {:induction false} FieldRoundTrip(value: nat, n: nat)
    requires value < Pow256(n)
    ensures FromBigEndian(BigEndian(value, n)) == value
  {
    if n > 0 {
      FieldRoundTrip(value / 256, n - 1);
      assert BigEndian(value, n)[..n - 1] == BigEndian(value / 256, n - 1);
    }
  }

  lemma {:induction false} FieldIsPrinted(field: seq<byte>)
    ensures FromBigEndian(field) < Pow256(|field|)
    ensures BigEndian(FromBigEndian(field), |field|) == field
  {
    if field != [] {
      FieldIsPrinted(field[..|field| - 1]);
      assert field == field[..|field| - 1] + [field[|field| - 1]];
    }
  }

  lemma FieldBounds()
    ensures Pow256(2) == 0x1_0000 && Pow256(4) == 0x1_0000_0000 && Pow256(8) == 0x1_0000_0000_0000_0000
  {
    assert Pow256(1) == 256;
    assert Pow256(3) == 0x100_0000;
    assert Pow256(4) == 0x1_0000_0000;
    assert Pow256(6) == 0x1_0000_0000_0000;
  }

  /** value >> 8*i */
  function Shifted(value: nat, i: nat): (shifted: nat) {
    if i == 0 then value else Shifted(value, i - 1) / 256
  }

  // ---------------------------------------------------------------------------------------------
  // Printer
  // ---------------------------------------------------------------------------------------------

  const PREFIX: seq<byte> := ['Q' as int, 'S' as int, 'T' as int, 'V' as int, 1, 1]
  const FORMAT: seq<byte> := BigEndian(2560, 2) + BigEndian(1440, 2) + BigEndian(60, 2) + BigEndian(1, 2)

  datatype Header = Header(stream: int, ptsUs: int, size: nat, key: bool)

  /** Every header field in range for its width on the wire. */
  predicate Printable(h: Header) {
    0 <= h.stream < MONITOR_COUNT && 0 <= h.ptsUs < 0x1_0000_0000_0000_0000 && 1 <= h.size <= MAX_PAYLOAD
  }

  function HeaderBytes(h: Header): (bytes: seq<byte>)
    requires Printable(h)
    ensures |bytes| == HEADER_SIZE
  {
    PREFIX + [h.stream, 1] + FORMAT + BigEndian(h.ptsUs, 8) + BigEndian(h.size, 4)
        + BigEndian(if h.key then 1 else 0, 4)
  }

  function HeaderOf(p: Packet): (h: Header)
    requires Sendable(p)
    ensures Printable(h)
  {
    Header(p.monitorId, p.ptsUs, |p.bytes|, p.keyframe)
  }

  /** The frame of a packet as sent on the wire. */
  function Frame(p: Packet): (frame: seq<byte>)
    requires Sendable(p)
    ensures |frame| == HEADER_SIZE + |p.bytes|
  {
    HeaderBytes(HeaderOf(p)) + p.bytes
  }

  function Frames(ps: seq<ValidPacket>): (frames: seq<seq<byte>>)
    ensures |frames| == |ps|
  {
    if ps == [] then [] else [Frame(ps[0])] + Frames(ps[1..])
  }

  lemma {:induction false} FramesAppend(a: seq<ValidPacket>, b: seq<ValidPacket>)
    ensures Frames(a + b) == Frames(a) + Frames(b)
  {
    if a == [] {
      assert a + b == b;
    } else {
      assert (a + b)[1..] == a[1..] + b;
      FramesAppend(a[1..], b);
    }
  }

  /** The lambda put: writes the low bytes of value, most significant first, at a moving position. */
  method Put(result: array<byte>, start: nat, value: nat, bytes: nat) returns (position: nat)
    requires start + bytes <= result.Length
    modifies result
    ensures position == start + bytes
    ensures result[..] == old(result[..start]) + BigEndian(value, bytes) + old(result[start + bytes..])
  {
    position := start;
    var i := bytes;
    while i > 0
      invariant 0 <= i <= bytes && position == start + bytes - i
      invariant result[..start] == old(result[..start])
      invariant result[start..position] == BigEndian(Shifted(value, i), bytes - i)
      invariant result[start + bytes..] == old(result[start + bytes..])
    {
      i := i - 1;
      ghost var before := result[start..position];
      result[position] := Shifted(value, i) % 256;
      position := position + 1;
      assert result[start..position] == before + [Shifted(value, i) % 256];
    }
    assert result[..] == result[..start] + result[start..position] + result[start + bytes..];
  }

  /** framePacket: fills a fresh vector field by field, or refuses an invalid packet. */
  method FramePacket(p: Packet) returns (framed: Result<array<byte>, ()>)
    ensures framed.Success? <==>
            0 <= p.monitorId < 2 && 0 <= p.ptsUs < 0x8000_0000_0000_0000 && 1 <= |p.bytes| <= 8388608
    ensures framed.Success? ==> fresh(framed.value) && framed.value[..] == Frame(p) && framed.value[32..] == p.bytes
  {
    if p.monitorId < 0 || p.monitorId >= MONITOR_COUNT || p.ptsUs < 0 || p.ptsUs >= 0x8000_0000_0000_0000
       || p.bytes == [] || |p.bytes| > MAX_PAYLOAD {
      return Failure(());
    }
    var n := |p.bytes|;
    var result := new byte[32 + n](_ => 0);
    WriteHeader(result, HeaderOf(p));
    forall j | 0 <= j < n {
      result[32 + j] := p.bytes[j];
    }
    assert result[..] == result[..32] + result[32..];
    assert result[32..] == p.bytes;
    return Success(result);
  }

  method WriteHeader(result: array<byte>, h: Header)
    requires Printable(h) && result.Length >= HEADER_SIZE
    modifies result
    ensures result[..HEADER_SIZE] == HeaderBytes(h)
  {
    var prefix := PREFIX + [h.stream, 1];
    forall j | 0 <= j < 8 {
      result[j] := prefix[j];
    }
    var position := 8;
    position := PutAfter(result, position, 2560, 2, prefix);
    position := PutAfter(result, position, 1440, 2, result[..position]);
    position := PutAfter(result, position, 60, 2, result[..position]);
    position := PutAfter(result, position, 1, 2, result[..position]);
    assert result[..position] == prefix + FORMAT;
    position := PutAfter(result, position, h.ptsUs, 8, result[..position]);
    position := PutAfter(result, position, h.size, 4, result[..position]);
    position := PutAfter(result, position, if h.key then 1 else 0, 4, result[..position]);
  }

  /** Put, seen from the part of the vector already written. */
  method PutAfter(result: array<byte>, start: nat, value: nat, bytes: nat, ghost written: seq<byte>)
      returns (position: nat)
    requires start + bytes <= result.Length && result[..start] == written
    modifies result
    ensures position == start + bytes
    ensures result[..position] == written + BigEndian(value, bytes)
  {
    position := Put(result, start, value, bytes);
    assert result[..position] == result[..][..position];
  }

  /** Byte i of a field is the i-th most significant one of the value. */
  lemma {:induction false} FieldByte(value: nat, n: nat, i: nat)
    requires i < n
    ensures BigEndian(value, n)[i] == Shifted(value, n - 1 - i) % 256
  {
    if i < n - 1 {
      FieldByte(value / 256, n - 1, i);
      ShiftedTwice(value, n - 2 - i);
    }
  }

  lemma {:induction false} ShiftedTwice(value: nat, i: nat)
    ensures Shifted(value / 256, i) == Shifted(value, i + 1)
  {
    if i > 0 {
      ShiftedTwice(value, i - 1);
    }
  }

  /** The bytes of a header: 16 fixed ones but for the stream, then time and size, and the key flag as 0 or 1. */
  lemma HeaderLayout(h: Header)
    requires Printable(h)
    ensures HeaderBytes(h)[..16] == [0x51, 0x53, 0x54, 0x56, 1, 1, h.stream, 1]
                                    + [0x0A, 0x00, 0x05, 0xA0, 0x00, 0x3C, 0x00, 0x01]
    ensures HeaderBytes(h)[16..24] == BigEndian(h.ptsUs, 8) && HeaderBytes(h)[24..28] == BigEndian(h.size, 4)
    ensures HeaderBytes(h)[28..32] == [0, 0, 0, if h.key then 1 else 0]
  {
    HeaderFields(h);
    FormatBytes();
    var data := HeaderBytes(h);
    assert data[..16] == data[..8] + data[8..16];
    assert BigEndian(if h.key then 1 else 0, 4) == [0, 0, 0, if h.key then 1 else 0] by {
      FourBytes(if h.key then 1 else 0);
    }
  }

  lemma TwoBytes(value: nat)
    requires value < 0x1_0000
    ensures BigEndian(value, 2) == [value / 256, value % 256]
  {
    assert BigEndian(value / 256 / 256, 0) == [];
    assert BigEndian(value / 256, 1) == [value / 256];
  }

  lemma FourBytes(value: nat)
    requires value < 0x1_0000
    ensures BigEndian(value, 4) == [0, 0, value / 256, value % 256]
  {
    assert value / 256 / 256 == 0;
    TwoBytes(0);
    assert BigEndian(0, 2) == [0, 0];
    assert BigEndian(value / 256, 3) == [0, 0] + [value / 256];
  }

  lemma FormatBytes()
    ensures FORMAT == [0x0A, 0x00, 0x05, 0xA0, 0x00, 0x3C, 0x00, 0x01]
  {
    TwoBytes(2560);
    TwoBytes(1440);
    TwoBytes(60);
    TwoBytes(1);
  }

  /** The header of the receiver's test: stream 1, 123456 microseconds, four bytes, a keyframe. */
  lemma TestHeader()
    ensures HeaderBytes(Header(1, 123456, 4, true)) ==
            [0x51, 0x53, 0x54, 0x56, 1, 1, 1, 1, 0x0A, 0x00, 0x05, 0xA0, 0x00, 0x3C, 0x00, 0x01]
            + [0, 0, 0, 0, 0x00, 0x01, 0xE2, 0x40] + [0, 0, 0, 4] + [0, 0, 0, 1]
  {
    hide BigEndian, HeaderBytes;
    var h := Header(1, 123456, 4, true);
    HeaderLayout(h);
    HeaderSplit(HeaderBytes(h));
    FourBytes(4);
    TimeBytes();
    var data := HeaderBytes(h);
    assert data[..16] == data[..8] + data[8..16];
  }

  lemma TimeBytes()
    ensures BigEndian(123456, 8) == [0, 0, 0, 0, 0x00, 0x01, 0xE2, 0x40]
  {
    assert BigEndian(0, 4) == [0, 0, 0, 0] by { FourBytes(0); }
    assert BigEndian(0, 5) == [0, 0, 0, 0, 0];
    assert BigEndian(1, 6) == [0, 0, 0, 0, 0, 1];
    assert BigEndian(482, 7) == [0, 0, 0, 0, 0, 1, 0xE2];
  }

  // ---------------------------------------------------------------------------------------------
  // Parser
  // ---------------------------------------------------------------------------------------------

  datatype HeaderError = UnsupportedProtocol | InvalidStream | InvalidLengthOrFlags

  /** parse_header of tools/receiver.py, on the 32 bytes struct.unpack takes. */
  function ParseHeader(data: seq<byte>): (r: Result<Header, HeaderError>)
    requires |data| == HEADER_SIZE
  {
    var stream := data[6];
    var pts := FromBigEndian(data[16..24]);
    var size := FromBigEndian(data[24..28]);
    var flags := FromBigEndian(data[28..32]);
    if data[..4] != PREFIX[..4] || data[4] != 1 || data[5] != 1 || data[7] != 1 then Failure(UnsupportedProtocol)
    else if !(stream == 0 || stream == 1)
         || (FromBigEndian(data[8..10]), FromBigEndian(data[10..12])) != (2560, 1440)
         || (FromBigEndian(data[12..14]), FromBigEndian(data[14..16])) != (60, 1) then Failure(InvalidStream)
    else if size < 1 || size > MAX_PAYLOAD || flags > 1 then Failure(InvalidLengthOrFlags)
    else Success(Header(stream, pts, size, flags % 2 == 1))
  }

  /** The parser is the inverse of the printer: it accepts a header exactly when it prints to those bytes. */
  lemma HeaderRoundTrip(h: Header, data: seq<byte>)
    requires |data| == HEADER_SIZE
    ensures ParseHeader(data) == Success(h) <==> Printable(h) && HeaderBytes(h) == data
  {
    FieldBounds();
    if Printable(h) && HeaderBytes(h) == data {
      PrintedParses(h);
    }
    if ParseHeader(data) == Success(h) {
      ParsedPrints(h, data);
    }
  }

  /** Which complaint a header meets: the fixed bytes first, then stream and format, then size and flags. */
  lemma ComplaintExactly(data: seq<byte>)
    requires |data| == HEADER_SIZE
    ensures var r := ParseHeader(data);
      var ours := data[..6] == [0x51, 0x53, 0x54, 0x56, 1, 1] && data[7] == 1;
      var shown := data[6] < 2 && data[8..16] == [0x0A, 0x00, 0x05, 0xA0, 0x00, 0x3C, 0x00, 0x01];
      var size, flags := FromBigEndian(data[24..28]), FromBigEndian(data[28..32]);
      && (r == Failure(UnsupportedProtocol) <==> !ours)
      && (r == Failure(InvalidStream) <==> ours && !shown)
      && (r == Failure(InvalidLengthOrFlags) <==> ours && shown && !(1 <= size <= 8388608 && flags <= 1))
      && (r.Success? <==> ours && shown && 1 <= size <= 8388608 && flags <= 1)
      && (r.Success? ==> r.value == Header(data[6], FromBigEndian(data[16..24]), size, flags == 1))
  {
    FormatBytes();
    FormatSlices(data);
    FormatFields(data[8..16]);
    var six := data[..6];
    assert six == data[..4] + [data[4], data[5]];
    assert six[..4] == data[..4];
    assert PREFIX == [0x51, 0x53, 0x54, 0x56, 1, 1];
    assert PREFIX[..4] == [0x51, 0x53, 0x54, 0x56];
    assert [0x51, 0x53, 0x54, 0x56, 1, 1][..4] == [0x51, 0x53, 0x54, 0x56];
  }

  lemma HeaderFields(h: Header)
    requires Printable(h)
    ensures var data := HeaderBytes(h);
      && data[..8] == PREFIX + [h.stream, 1]
      && data[8..16] == FORMAT
      && data[16..24] == BigEndian(h.ptsUs, 8)
      && data[24..28] == BigEndian(h.size, 4)
      && data[28..32] == BigEndian(if h.key then 1 else 0, 4)
  {
    var a, b, c, d, e := PREFIX + [h.stream, 1], FORMAT, BigEndian(h.ptsUs, 8), BigEndian(h.size, 4),
        BigEndian(if h.key then 1 else 0, 4);
    Joined(a, b, c, d, e);
    assert HeaderBytes(h) == a + b + c + d + e;
  }

  lemma Joined(a: seq<byte>, b: seq<byte>, c: seq<byte>, d: seq<byte>, e: seq<byte>)
    requires |a| == |b| == |c| == 8 && |d| == |e| == 4
    ensures var s := a + b + c + d + e;
      s[..8] == a && s[8..16] == b && s[16..24] == c && s[24..28] == d && s[28..32] == e
  {
  }

  /** The four format fields read back as 2560, 1440, 60 and 1 exactly when they are the printed ones. */
  lemma FormatFields(f: seq<byte>)
    requires |f| == 8
    ensures f == FORMAT <==>
            FromBigEndian(f[0..2]) == 2560 && FromBigEndian(f[2..4]) == 1440 &&
            FromBigEndian(f[4..6]) == 60 && FromBigEndian(f[6..8]) == 1
  {
    FieldBounds();
    FieldIsExactly(f[0..2], 2560);
    FieldIsExactly(f[2..4], 1440);
    FieldIsExactly(f[4..6], 60);
    FieldIsExactly(f[6..8], 1);
    FourFields(f, BigEndian(2560, 2), BigEndian(1440, 2), BigEndian(60, 2), BigEndian(1, 2));
  }

  lemma FieldIsExactly(field: seq<byte>, value: nat)
    requires value < Pow256(|field|)
    ensures FromBigEndian(field) == value <==> field == BigEndian(value, |field|)
  {
    FieldIsPrinted(field);
    FieldRoundTrip(value, |field|);
  }

  lemma FourFields(f: seq<byte>, a: seq<byte>, b: seq<byte>, c: seq<byte>, d: seq<byte>)
    requires |f| == 8 && |a| == |b| == |c| == |d| == 2
    ensures f == a + b + c + d <==> f[0..2] == a && f[2..4] == b && f[4..6] == c && f[6..8] == d
  {
    assert f == f[0..2] + f[2..4] + f[4..6] + f[6..8];
    var g := a + b + c + d;
    assert g[0..2] == a && g[2..4] == b && g[4..6] == c && g[6..8] == d;
  }

  lemma FormatSlices(data: seq<byte>)
    requires |data| == HEADER_SIZE
    ensures var f := data[8..16];
      f[0..2] == data[8..10] && f[2..4] == data[10..12] && f[4..6] == data[12..14] && f[6..8] == data[14..16]
  {
    SliceOfSlice(data, 0);
    SliceOfSlice(data, 2);
    SliceOfSlice(data, 4);
    SliceOfSlice(data, 6);
  }

  lemma SliceOfSlice(data: seq<byte>, i: nat)
    requires |data| == HEADER_SIZE && i <= 6
    ensures data[8..16][i..i + 2] == data[8 + i..10 + i]
  {
  }

  lemma PrintedParses(h: Header)
    requires Printable(h)
    ensures ParseHeader(HeaderBytes(h)) == Success(h)
  {
    hide BigEndian, FromBigEndian, HeaderBytes, Pow256;
    FieldBounds();
    var data := HeaderBytes(h);
    HeaderFields(h);
    FormatSlices(data);
    FormatFields(data[8..16]);
    FieldRoundTrip(h.ptsUs, 8);
    FieldRoundTrip(h.size, 4);
    FieldRoundTrip(if h.key then 1 else 0, 4);
    assert data[..4] == data[..8][..4] == PREFIX[..4];
    assert data[4] == data[..8][4] && data[5] == data[..8][5] && data[6] == data[..8][6] && data[7] == data[..8][7];
  }

  lemma ParsedPrints(h: Header, data: seq<byte>)
    requires |data| == HEADER_SIZE && ParseHeader(data) == Success(h)
    ensures Printable(h) && HeaderBytes(h) == data
  {
    ParsedFields(h, data);
    HeaderSplit(data);
  }

  lemma ParsedFields(h: Header, data: seq<byte>)
    requires |data| == HEADER_SIZE && ParseHeader(data) == Success(h)
    ensures Printable(h)
    ensures data[..8] == PREFIX + [h.stream, 1] && data[8..16] == FORMAT
    ensures data[16..24] == BigEndian(h.ptsUs, 8)
    ensures data[24..28] == BigEndian(h.size, 4)
    ensures data[28..32] == BigEndian(if h.key then 1 else 0, 4)
  {
    FieldBounds();
    FieldIsPrinted(data[16..24]);
    FieldIsPrinted(data[24..28]);
    FieldIsPrinted(data[28..32]);
    assert data[8..16] == FORMAT by {
      FormatSlices(data);
      FormatFields(data[8..16]);
    }
    assert data[..8] == PREFIX + [h.stream, 1] by {
      assert data[..8][..4] == data[..4];
      PrefixIs(data[..8], h.stream);
    }
  }

  lemma PrefixIs(p: seq<byte>, stream: byte)
    requires |p| == 8 && p[..4] == PREFIX[..4] && p[4] == p[5] == p[7] == 1 && p[6] == stream
    ensures p == PREFIX + [stream, 1]
  {
    assert p[0] == p[..4][0] && p[1] == p[..4][1] && p[2] == p[..4][2] && p[3] == p[..4][3];
  }

  lemma HeaderSplit(data: seq<byte>)
    requires |data| == HEADER_SIZE
    ensures data == data[..8] + data[8..16] + data[16..24] + data[24..28] + data[28..32]
  {
  }
}
