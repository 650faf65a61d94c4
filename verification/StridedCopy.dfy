/** The CPU copy of host/capture/capture.cpp: a strided producer image becomes a packed frame. */
module StridedCopy {
  import opened Bytes

  const WIDTH: nat := 2560
  const HEIGHT: nat := 1440
  const ROW: nat := WIDTH * 4
  const TWO_32: nat := 0x1_0000_0000

  newtype Int32 = x: int | -0x8000_0000 <= x < 0x8000_0000
  newtype Word32 = x: int | 0 <= x < 0x1_0000_0000

  /** The row distance: the chunk's own if it is positive, else that of a packed image. */
  function Stride(chunkStride: Int32): (stride: nat)
    ensures stride < TWO_32
  {
    if chunkStride > 0 then chunkStride as nat else ROW
  }

  /** The size guard. All its terms are widened to 64 bits before they are added. */
  predicate Fits(offset: Word32, stride: nat, maxsize: Word32) {
    !(stride < ROW || offset as nat + stride * (HEIGHT - 1) + ROW > maxsize as nat)
  }

  lemma {:induction false} NoRowIsAfterTheLast(y: nat, last: nat, stride: nat)
    requires y <= last
    ensures 0 <= y * stride <= last * stride
    decreases last - y
  {
    if y < last {
      assert (y + 1) * stride == y * stride + stride;
      NoRowIsAfterTheLast(y + 1, last, stride);
    } else {
      assert y * stride >= 0;
    }
  }

  /** The widened sum is exact: no term and no partial sum reaches 2^64. */
  lemma GuardDoesNotWrap(offset: Word32, chunkStride: Int32)
    ensures offset as nat + Stride(chunkStride) * (HEIGHT - 1) + ROW < TWO_32 * TWO_32
  {
  }

  /** Where byte x of row y lies behind the offset. */
  function At(y: nat, stride: nat, x: nat): (position: nat) {
    y * stride + x
  }

  /**
   * The guard is exact. It holds if and only if rows do not overlap and every byte the loop reads lies in
   * the buffer; and then the 32-bit product of row number and stride does not wrap.
   */
  lemma GuardIsExact(offset: Word32, stride: nat, maxsize: Word32)
    ensures Fits(offset, stride, maxsize) <==>
            && stride >= 10240
            && forall y: nat, x: nat :: y < 1440 && x < 10240 ==> offset as nat + At(y, stride, x) < maxsize as nat
    ensures Fits(offset, stride, maxsize) ==> forall y: nat :: y < 1440 ==> At(y, stride, 0) < 0x1_0000_0000
  {
    if Fits(offset, stride, maxsize) {
      forall y: nat, x: nat | y < HEIGHT && x < ROW
        ensures offset as nat + At(y, stride, x) < maxsize as nat
      {
        NoRowIsAfterTheLast(y, HEIGHT - 1, stride);
      }
    } else if stride >= ROW {
      assert offset as nat + At(HEIGHT - 1, stride, ROW - 1) >= maxsize as nat;
    }
  }

  /** Row y of the frame is row y of the source image, without the padding behind it. */
  ghost predicate RowCopied(pixels: seq<byte>, data: seq<byte>, offset: nat, stride: nat, y: nat) {
    var from, to := offset + At(y, stride, 0), y * ROW;
    from + ROW <= |data| && to + ROW <= |pixels| && pixels[to..to + ROW] == data[from..from + ROW]
  }

  /** Byte x of row y stands at 10240 y + x in the frame, and at offset + y stride + x in the buffer. */
  lemma CopiedByte(pixels: seq<byte>, data: seq<byte>, offset: nat, stride: nat, y: nat, x: nat)
    requires RowCopied(pixels, data, offset, stride, y) && x < 10240
    ensures y * 10240 + x < |pixels| && offset + y * stride + x < |data|
    ensures pixels[y * 10240 + x] == data[offset + y * stride + x]
  {
    var from, to := offset + At(y, stride, 0), y * ROW;
    assert pixels[to..to + ROW][x] == data[from..from + ROW][x];
  }

  ghost predicate RowsCopied(pixels: seq<byte>, data: seq<byte>, offset: nat, stride: nat, n: nat) {
    forall y: nat :: y < n ==> RowCopied(pixels, data, offset, stride, y)
  }

  /** The copied rows determine the frame: there is only one result. */
  lemma RowsDetermineFrame(pixels: seq<byte>, other: seq<byte>, data: seq<byte>, offset: nat, stride: nat)
    requires |pixels| == |other| == HEIGHT * ROW
    requires RowsCopied(pixels, data, offset, stride, HEIGHT) && RowsCopied(other, data, offset, stride, HEIGHT)
    ensures pixels == other
  {
    forall i | 0 <= i < |pixels|
      ensures pixels[i] == other[i]
    {
      var y: nat, x: nat := i / ROW, i % ROW;
      assert RowCopied(pixels, data, offset, stride, y) && RowCopied(other, data, offset, stride, y);
      assert pixels[y * ROW..y * ROW + ROW][x] == other[y * ROW..y * ROW + ROW][x];
    }
  }

  /** One memcpy. */
  method CopyBytes(data: array<byte>, from: nat, pixels: array<byte>, to: nat)
    requires from + ROW <= data.Length && to + ROW <= pixels.Length && data != pixels
    modifies pixels
    ensures pixels[..to] == old(pixels[..to]) && pixels[to..to + ROW] == data[from..from + ROW]
    ensures pixels[to + ROW..] == old(pixels[to + ROW..])
  {
    var x := 0;
    while x < ROW
      invariant x <= ROW
      invariant pixels[..to] == old(pixels[..to]) && pixels[to + ROW..] == old(pixels[to + ROW..])
      invariant pixels[to..to + x] == data[from..from + x]
    {
      ghost var row := pixels[to..to + x];
      pixels[to + x] := data[from + x];
      assert pixels[to..to + x + 1] == row + [data[from + x]];
      assert data[from..from + x + 1] == data[from..from + x] + [data[from + x]];
      x := x + 1;
    }
  }

  /**
   * The checked copy. The row distance is the chunk's own if it is positive, and 2560 * 4 otherwise. A buffer
   * that is too small for it is reported and the frame is left alone; otherwise all 1440 rows arrive, read at
   * that distance. Row positions are computed in 32 bits, as in the source.
   */
  method CopyFrame(data: array<byte>, offset: Word32, chunkStride: Int32, pixels: array<byte>) returns (ok: bool)
    requires data.Length < TWO_32 && pixels.Length == 1440 * 10240 && data != pixels
    modifies pixels
    ensures var stride := if chunkStride > 0 then chunkStride as nat else 2560 * 4;
      && (ok <==> stride >= 10240 && offset as nat + 1439 * stride + 10240 <= data.Length)
      && (ok ==> RowsCopied(pixels[..], data[..], offset as nat, stride, 1440))
    ensures !ok ==> pixels[..] == old(pixels[..])
  {
    var stride := Stride(chunkStride);
    if !Fits(offset, stride, data.Length as Word32) {
      return false;
    }
    var y := 0;
    while y < HEIGHT
      invariant y <= HEIGHT
      invariant RowsCopied(pixels[..], data[..], offset as nat, stride, y)
    {
      RowInside(offset, stride, data.Length as Word32, y);
      ghost var before := pixels[..];
      CopyBytes(data, offset as nat + (y * stride) % TWO_32, pixels, y * ROW);
      EarlierRowsStay(before, pixels[..], data[..], offset as nat, stride, y);
      y := y + 1;
    }
    return true;
  }

  lemma RowInside(offset: Word32, stride: nat, maxsize: Word32, y: nat)
    requires Fits(offset, stride, maxsize) && y < HEIGHT
    ensures offset as nat + At(y, stride, 0) + ROW <= maxsize as nat
    ensures (y * stride) % TWO_32 == At(y, stride, 0)
  {
    NoRowIsAfterTheLast(y, HEIGHT - 1, stride);
  }

  lemma EarlierRowsStay(before: seq<byte>, after: seq<byte>, data: seq<byte>, offset: nat, stride: nat, y: nat)
    requires y * ROW <= |before| == |after| && after[..y * ROW] == before[..y * ROW]
    requires RowsCopied(before, data, offset, stride, y)
    requires RowCopied(after, data, offset, stride, y)
    ensures RowsCopied(after, data, offset, stride, y + 1)
  {
    forall k: nat | k < y
      ensures RowCopied(after, data, offset, stride, k)
    {
      assert RowCopied(before, data, offset, stride, k);
      var to := k * ROW;
      assert to + ROW <= y * ROW;
      SamePart(before, after, y * ROW, to, to + ROW);
    }
  }

  lemma SamePart(before: seq<byte>, after: seq<byte>, n: nat, from: nat, to: nat)
    requires from <= to <= n <= |before| == |after| && before[..n] == after[..n]
    ensures before[from..to] == after[from..to]
  {
    assert before[..n][from..to] == before[from..to];
    assert after[..n][from..to] == after[from..to];
  }
}
