/** The one-bit copy of XineramaGetImageData (Xext/panoramiX.c): a rectangle of bits at any offset. */
module Blit {
  import opened Bits

  /** Bit p of a row of bytes */
  predicate BitAt(s: seq<bv8>, p: nat)
    requires p < 8 * |s|
  {
    Bit(s[p / 8], p % 8)
  }

  /** t' is t with the n bits of `from` at `sp` or-ed in at `dp`. */
  ghost predicate Ored(t: seq<bv8>, t': seq<bv8>, dp: nat, from: seq<bv8>, sp: nat, n: nat)
    requires sp + n <= 8 * |from|
  {
    |t'| == |t| &&
    forall p :: 0 <= p < 8 * |t| ==> BitAt(t', p) == (BitAt(t, p) || (dp <= p < dp + n && BitAt(from, sp + p - dp)))
  }

  /** The n bits at p are zero. */
  ghost predicate Clear(t: seq<bv8>, p: nat, n: nat)
    requires p + n <= 8 * |t|
  {
    forall q :: p <= q < p + n ==> !BitAt(t, q)
  }

  lemma OredNone(t: seq<bv8>, dp: nat, from: seq<bv8>, sp: nat)
    requires sp <= 8 * |from|
    ensures Ored(t, t, dp, from, sp, 0)
  {
  }

  lemma OredMore(t: seq<bv8>, t1: seq<bv8>, t2: seq<bv8>, dp: nat, from: seq<bv8>, sp: nat, n: nat, m: nat)
    requires sp + n + m <= 8 * |from|
    requires Ored(t, t1, dp, from, sp, n) && Ored(t1, t2, dp + n, from, sp + n, m)
    ensures Ored(t, t2, dp, from, sp, n + m)
  {
    forall p | 0 <= p < 8 * |t|
      ensures BitAt(t2, p) == (BitAt(t, p) || (dp <= p < dp + n + m && BitAt(from, sp + p - dp)))
    {
      assert BitAt(t1, p) == (BitAt(t, p) || (dp <= p < dp + n && BitAt(from, sp + p - dp)));
    }
  }

  ghost predicate HighBitsClear(b: bv8, n: nat) {
    forall k :: n <= k < 8 ==> !Bit(b, k)
  }

  /** t' is t with byte `edge` or-ed in `shift` bits to the right of byte d, its spill in byte d + 1 if it has one. */
  ghost predicate ByteOred(t: seq<bv8>, t': seq<bv8>, d: nat, shift: nat, edge: bv8, spills: bool)
    requires shift < 8 && d < |t| && (spills ==> d + 1 < |t|)
  {
    |t'| == |t| &&
    t'[d] == t[d] | ShiftL(edge, shift) &&
    (spills ==> t'[d + 1] == t[d + 1] | ShiftR(edge, 8 - shift)) &&
    forall i :: 0 <= i < |t| && i != d && !(spills && i == d + 1) ==> t'[i] == t[i]
  }

  /** The first n bits of byte s, or-ed in at an offset of `shift` bits: they may spill into the next byte. */
  lemma OrByte(t: seq<bv8>, t': seq<bv8>, d: nat, shift: nat, from: seq<bv8>, s: nat, n: nat, spills: bool)
    requires shift < 8 && n <= 8 && s < |from| && d < |t|
    requires HighBitsClear(from[s], n)
    requires spills ==> d + 1 < |t|
    requires shift + n > 8 ==> spills
    requires ByteOred(t, t', d, shift, from[s], spills)
    ensures Ored(t, t', 8 * d + shift, from, 8 * s, n)
  {
    hide Bit, ShiftL, ShiftR;
    forall p | 0 <= p < 8 * |t|
      ensures BitAt(t', p)
           == (BitAt(t, p) || (8 * d + shift <= p < 8 * d + shift + n && BitAt(from, 8 * s + p - (8 * d + shift))))
    {
      OrByteBit(t, t', d, shift, from, s, n, spills, p / 8, p % 8);
    }
  }

  lemma OrByteBit(t: seq<bv8>, t': seq<bv8>, d: nat, shift: nat, from: seq<bv8>, s: nat, n: nat, spills: bool,
                  i: nat, k: nat)
    requires shift < 8 && n <= 8 && s < |from| && d < |t| && i < |t| && k < 8
    requires HighBitsClear(from[s], n)
    requires spills ==> d + 1 < |t|
    requires shift + n > 8 ==> spills
    requires ByteOred(t, t', d, shift, from[s], spills)
    ensures Bit(t'[i], k)
         == (Bit(t[i], k)
             || (8 * d + shift <= 8 * i + k < 8 * d + shift + n && BitAt(from, 8 * s + 8 * i + k - (8 * d + shift))))
  {
    hide Bit, ShiftL, ShiftR;
    if i == d {
      ShiftLBit(from[s], shift, k);
      OrBit(t[d], ShiftL(from[s], shift), k);
      if k >= shift {
        SourceBit(from, s, k - shift);
      }
    } else if i == d + 1 {
      if spills {
        ShiftRBit(from[s], 8 - shift, k);
        OrBit(t[i], ShiftR(from[s], 8 - shift), k);
      }
      if k + 8 - shift < 8 {
        SourceBit(from, s, k + 8 - shift);
      }
    }
  }

  lemma SourceBit(from: seq<bv8>, s: nat, k: nat)
    requires s < |from| && k < 8
    ensures BitAt(from, 8 * s + k) == Bit(from[s], k)
  {
  }

  /** CopyBits: `bytes` bytes, or-ed in `shiftL` bits to the right. */
  method CopyBits(dst: array<bv8>, d: nat, shiftL: nat, src: array<bv8>, s: nat, bytes: nat)
    requires 0 < shiftL < 8 && dst != src && s + bytes <= src.Length
    requires bytes > 0 ==> d + bytes < dst.Length
    modifies dst
    ensures Ored(old(dst[..]), dst[..], 8 * d + shiftL, src[..], 8 * s, 8 * bytes)
  {
    hide Bit, ShiftL, ShiftR, Ored;
    var shiftR := 8 - shiftL;
    OredNone(dst[..], 8 * d + shiftL, src[..], 8 * s);
    for i := 0 to bytes
      invariant Ored(old(dst[..]), dst[..], 8 * d + shiftL, src[..], 8 * s, 8 * i)
      invariant src[..] == old(src[..])
    {
      ghost var t := dst[..];
      dst[d + i] := dst[d + i] | ShiftL(src[s + i], shiftL);
      dst[d + i + 1] := dst[d + i + 1] | ShiftR(src[s + i], shiftR);
      OrByte(t, dst[..], d + i, shiftL, src[..], s + i, 8, true);
      OredMore(old(dst[..]), t, dst[..], 8 * d + shiftL, src[..], 8 * s, 8 * i, 8);
    }
  }

  /** memcpy into cleared bytes */
  method CopyBytes(dst: array<bv8>, d: nat, src: array<bv8>, s: nat, bytes: nat)
    requires dst != src && s + bytes <= src.Length && d + bytes <= dst.Length
    requires Clear(dst[..], 8 * d, 8 * bytes)
    modifies dst
    ensures Ored(old(dst[..]), dst[..], 8 * d, src[..], 8 * s, 8 * bytes)
  {
    for i := 0 to bytes
      invariant forall k :: 0 <= k < dst.Length ==> dst[k] == if d <= k < d + i then src[s + k - d] else old(dst[k])
      invariant src[..] == old(src[..])
    {
      dst[d + i] := src[s + i];
    }
    forall p | 0 <= p < 8 * dst.Length
      ensures BitAt(dst[..], p)
           == (BitAt(old(dst[..]), p) || (8 * d <= p < 8 * d + 8 * bytes && BitAt(src[..], 8 * s + p - 8 * d)))
    {
      if 8 * d <= p < 8 * d + 8 * bytes {
        assert (8 * s + p - 8 * d) / 8 == s + p / 8 - d && (8 * s + p - 8 * d) % 8 == p % 8;
      }
    }
  }

  /** The bits of the last, partial byte of a row */
  method BlitEdge(data: array<bv8>, d: nat, shift: nat, edge: bv8, leftover: nat, ghost from: seq<bv8>, ghost s: nat)
    requires shift < 8 && 0 < leftover < 8 && 8 * d + shift + leftover <= 8 * data.Length
    requires s < |from| && from[s] == edge && HighBitsClear(edge, leftover)
    modifies data
    ensures Ored(old(data[..]), data[..], 8 * d + shift, from, 8 * s, leftover)
  {
    hide Bit, BitAt, ShiftL, ShiftR, Ored, HighBitsClear;
    data[d] := data[d] | ShiftL(edge, shift);
    if shift + leftover > 8 {
      data[d + 1] := data[d + 1] | ShiftR(edge, 8 - shift);
    }
    OrByte(old(data[..]), data[..], d, shift, from, s, leftover, shift + leftover > 8);
  }

  /** One row of the rectangle: `bytes` whole bytes and `leftover` bits, at bit `shift` of byte `index`. */
  method BlitRow(data: array<bv8>, index: nat, shift: nat, scratch: array<bv8>, index2: nat, bytes: nat, leftover: nat)
    requires data != scratch && shift < 8 && leftover < 8
    requires 8 * index + shift + 8 * bytes + leftover <= 8 * data.Length
    requires 8 * index2 + 8 * bytes + leftover <= 8 * scratch.Length
    // the edge of the scratch row has been cleaned up, and the target is clear
    requires leftover > 0 ==> HighBitsClear(scratch[index2 + bytes], leftover)
    requires Clear(data[..], 8 * index + shift, 8 * bytes + leftover)
    modifies data
    ensures Ored(old(data[..]), data[..], 8 * index + shift, scratch[..], 8 * index2, 8 * bytes + leftover)
  {
    hide Ored, HighBitsClear, BitAt;
    OredNone(data[..], 8 * index + shift, scratch[..], 8 * index2);
    if bytes > 0 {
      if shift == 0 {
        CopyBytes(data, index, scratch, index2, bytes);
      } else {
        CopyBits(data, index, shift, scratch, index2, bytes);
      }
    }
    if leftover > 0 {
      ghost var t := data[..];
      BlitEdge(data, index + bytes, shift, scratch[index2 + bytes], leftover, scratch[..], index2 + bytes);
      OredMore(old(data[..]), t, data[..], 8 * index + shift, scratch[..], 8 * index2, 8 * bytes, leftover);
    }
  }

  // Images: rows of `pitch` bytes, seen as bits.

  /** Bit c of row r */
  predicate At(s: seq<bv8>, pitch: nat, r: nat, c: nat) {
    var p := 8 * (pitch * r) + c;
    p < 8 * |s| && BitAt(s, p)
  }

  /** t' is t with the w x h rectangle of bits at (x, y) taken from the top left corner of `from`: no other bit differs. */
  ghost predicate Pasted(t: seq<bv8>, t': seq<bv8>, pitch: nat, x: nat, y: nat, w: nat, h: nat,
                         from: seq<bv8>, fromPitch: nat)
  {
    |t'| == |t| &&
    forall r: nat, c: nat | c < 8 * pitch ::
      At(t', pitch, r, c)
      == if y <= r < y + h && x <= c < x + w then At(from, fromPitch, r - y, c - x) else At(t, pitch, r, c)
  }

  lemma NextRow(pitch: nat, r: nat)
    ensures pitch * (r + 1) == pitch * r + pitch
  {
  }

  lemma {:induction false} RowsApart(pitch: nat, r: nat, r': nat)
    requires r < r'
    ensures pitch * r + pitch <= pitch * r'
  {
    NextRow(pitch, r' - 1);
    if r < r' - 1 {
      RowsApart(pitch, r, r' - 1);
    }
  }

  lemma PastedNone(t: seq<bv8>, pitch: nat, x: nat, y: nat, w: nat, from: seq<bv8>, fromPitch: nat)
    ensures Pasted(t, t, pitch, x, y, w, 0, from, fromPitch)
  {
  }

  /** What or-ing one row in means for every bit of the image */
  lemma RowOred(t: seq<bv8>, t': seq<bv8>, pitch: nat, x: nat, row: nat, w: nat, from: seq<bv8>, fromPitch: nat, j: nat,
                r: nat, c: nat)
    requires c < 8 * pitch && x + w <= 8 * pitch && 8 * (fromPitch * j) + w <= 8 * |from|
    requires Ored(t, t', 8 * (pitch * row) + x, from, 8 * (fromPitch * j), w)
    ensures At(t', pitch, r, c)
         == (At(t, pitch, r, c) || (r == row && x <= c < x + w && At(from, fromPitch, j, c - x)
                                    && 8 * (pitch * r) + c < 8 * |t|))
  {
    hide Bit, BitAt;
    if r < row {
      RowsApart(pitch, r, row);
    } else if row < r {
      RowsApart(pitch, row, r);
    }
    var p := 8 * (pitch * r) + c;
    if p < 8 * |t| {
      assert BitAt(t', p) == (BitAt(t, p) || (8 * (pitch * row) + x <= p < 8 * (pitch * row) + x + w
                                              && BitAt(from, 8 * (fromPitch * j) + p - (8 * (pitch * row) + x))));
    }
  }

  /** The bits of a rectangle are zero. */
  ghost predicate ClearRect(t: seq<bv8>, pitch: nat, x: nat, y: nat, w: nat, h: nat) {
    forall r: nat, c: nat | y <= r < y + h && x <= c < x + w :: !At(t, pitch, r, c)
  }

  lemma PastedRow(t: seq<bv8>, t1: seq<bv8>, t2: seq<bv8>, pitch: nat, x: nat, y: nat, w: nat, j: nat, h: nat,
                  from: seq<bv8>, fromPitch: nat)
    requires x + w <= 8 * pitch && 8 * (fromPitch * j) + w <= 8 * |from| && j < h && pitch * (y + j) + pitch <= |t|
    requires ClearRect(t, pitch, x, y, w, h)
    requires Pasted(t, t1, pitch, x, y, w, j, from, fromPitch)
    requires Ored(t1, t2, 8 * (pitch * (y + j)) + x, from, 8 * (fromPitch * j), w)
    ensures Pasted(t, t2, pitch, x, y, w, j + 1, from, fromPitch)
  {
    forall r: nat, c: nat | c < 8 * pitch
      ensures At(t2, pitch, r, c)
           == if y <= r < y + (j + 1) && x <= c < x + w then At(from, fromPitch, r - y, c - x) else At(t, pitch, r, c)
    {
      hide At, Ored;
      RowOred(t1, t2, pitch, x, y + j, w, from, fromPitch, j, r, c);
      if r == y + j && x <= c < x + w {
        assert !At(t, pitch, r, c);
      }
    }
  }

  /** Byte b of row r holds nothing beyond its first n bits. */
  ghost predicate Cleaned(s: seq<bv8>, pitch: nat, r: nat, b: nat, n: nat) {
    pitch * r + b < |s| && HighBitsClear(s[pitch * r + b], n)
  }

  ghost predicate SameLeft(t: seq<bv8>, t': seq<bv8>, pitch: nat, w: nat) {
    |t'| == |t| && forall r: nat, c: nat | c < w :: At(t', pitch, r, c) == At(t, pitch, r, c)
  }

  lemma CleanByte(t: seq<bv8>, t': seq<bv8>, pitch: nat, j: nat, b: nat, n: nat)
    requires 0 < n < 8 && b < pitch && pitch * j + b < |t|
    requires t' == t[pitch * j + b := t[pitch * j + b] & LowMask(n)]
    ensures SameLeft(t, t', pitch, 8 * b + n)
    ensures forall r | 0 <= r < j && Cleaned(t, pitch, r, b, n) :: Cleaned(t', pitch, r, b, n)
    ensures Cleaned(t', pitch, j, b, n)
  {
    hide Bit, LowMask;
    KeepLowBits(t[pitch * j + b], n);
    forall r: nat, c: nat | c < 8 * b + n
      ensures At(t', pitch, r, c) == At(t, pitch, r, c)
    {
      CleanBit(t, t[pitch * j + b] & LowMask(n), pitch, j, b, n, r, c);
    }
    forall r | 0 <= r < j && Cleaned(t, pitch, r, b, n)
      ensures Cleaned(t', pitch, r, b, n)
    {
      RowsApart(pitch, r, j);
    }
  }

  ghost predicate SameLowBits(a: bv8, b: bv8, n: nat)
    requires n <= 8
  {
    forall k | 0 <= k < n :: Bit(a, k) == Bit(b, k)
  }

  lemma KeepLowBits(b: bv8, n: nat)
    requires n < 8
    ensures SameLowBits(b & LowMask(n), b, n) && HighBitsClear(b & LowMask(n), n)
  {
    hide Bit, LowMask;
    var edge := b & LowMask(n);
    forall k | 0 <= k < n
      ensures Bit(edge, k) == Bit(b, k)
    {
      LowMaskBit(b, n, k);
    }
    forall k | n <= k < 8
      ensures !Bit(edge, k)
    {
      LowMaskBit(b, n, k);
    }
  }

  lemma CleanBit(t: seq<bv8>, edge: bv8, pitch: nat, j: nat, b: nat, n: nat, r: nat, c: nat)
    requires 0 < n < 8 && b < pitch && pitch * j + b < |t| && c < 8 * b + n
    requires SameLowBits(edge, t[pitch * j + b], n)
    ensures At(t[pitch * j + b := edge], pitch, r, c) == At(t, pitch, r, c)
  {
    hide Bit;
    if r < j {
      RowsApart(pitch, r, j);
    } else if j < r {
      RowsApart(pitch, j, r);
    }
    assert (8 * (pitch * r) + c) / 8 == pitch * r + c / 8;
  }

  lemma SameLeftTrans(t: seq<bv8>, t1: seq<bv8>, t2: seq<bv8>, pitch: nat, w: nat)
    requires SameLeft(t, t1, pitch, w) && SameLeft(t1, t2, pitch, w)
    ensures SameLeft(t, t2, pitch, w)
  {
    hide At;
  }

  /** "clean up the edge": clears the bits beyond the width in the last byte of each row. */
  method CleanEdge(scratch: array<bv8>, pitch: nat, h: nat, bytes: nat, leftover: nat)
    requires 0 < leftover < 8 && bytes < pitch && pitch * h <= scratch.Length
    modifies scratch
    ensures SameLeft(old(scratch[..]), scratch[..], pitch, 8 * bytes + leftover)
    ensures forall r | 0 <= r < h :: Cleaned(scratch[..], pitch, r, bytes, leftover)
  {
    hide SameLeft, Cleaned, LowMask;
    var j, k := h, bytes;
    SameLeftSame(scratch[..], pitch, 8 * bytes + leftover);
    while j != 0
      invariant 0 <= j <= h && k == pitch * (h - j) + bytes
      invariant SameLeft(old(scratch[..]), scratch[..], pitch, 8 * bytes + leftover)
      invariant forall r | 0 <= r < h - j :: Cleaned(scratch[..], pitch, r, bytes, leftover)
    {
      ghost var t := scratch[..];
      RowsApart(pitch, h - j, h);
      NextRow(pitch, h - j);
      j := j - 1;
      scratch[k] := scratch[k] & LowMask(leftover);
      CleanByte(t, scratch[..], pitch, h - j - 1, bytes, leftover);
      SameLeftTrans(old(scratch[..]), t, scratch[..], pitch, 8 * bytes + leftover);
      k := k + pitch;
    }
  }

  lemma SameLeftSame(t: seq<bv8>, pitch: nat, w: nat)
    ensures SameLeft(t, t, pitch, w)
  {
  }

  /** Row j of the rectangle, after the rows before it */
  method BlitRowAt(data: array<bv8>, pitch: nat, x: nat, y: nat, w: nat, j: nat, h: nat, scratch: array<bv8>,
                   scratchPitch: nat, index: nat, index2: nat, ghost t: seq<bv8>)
    requires data != scratch && j < h && x + w <= 8 * pitch && w <= 8 * scratchPitch
    requires pitch * (y + h) <= data.Length && scratchPitch * h <= scratch.Length
    requires index == pitch * (y + j) + x / 8 && index2 == scratchPitch * j
    requires ClearRect(t, pitch, x, y, w, h)
    requires w % 8 != 0 ==> Cleaned(scratch[..], scratchPitch, j, w / 8, w % 8)
    requires Pasted(t, data[..], pitch, x, y, w, j, scratch[..], scratchPitch)
    modifies data
    ensures Pasted(t, data[..], pitch, x, y, w, j + 1, scratch[..], scratchPitch)
  {
    hide *;
    ghost var t1 := data[..];
    PastedLength(t, t1, pitch, x, y, w, j, scratch[..], scratchPitch);
    RowClear(t, t1, pitch, x, y, w, j, h, scratch[..], scratchPitch);
    RowsApart(scratchPitch, j, h);
    RowsApart(pitch, y + j, y + h);
    CleanedEdge(scratch[..], scratchPitch, j, w / 8, w % 8);
    BlitRow(data, index, x % 8, scratch, index2, w / 8, w % 8);
    PastedRow(t, t1, data[..], pitch, x, y, w, j, h, scratch[..], scratchPitch);
  }

  /** The depth 1 branch: a w x h rectangle of bits, with its left edge at any bit x of a cleared area. */
  method BlitRect(data: array<bv8>, pitch: nat, x: nat, y: nat, w: nat, h: nat, scratch: array<bv8>, scratchPitch: nat)
    requires data != scratch && x + w <= 8 * pitch && w <= 8 * scratchPitch
    requires pitch * (y + h) <= data.Length && scratchPitch * h <= scratch.Length
    requires ClearRect(data[..], pitch, x, y, w, h)
    modifies data, scratch
    ensures Pasted(old(data[..]), data[..], pitch, x, y, w, h, old(scratch[..]), scratchPitch)
  {
    hide *;
    var leftover, bytes := w % 8, w / 8;
    SameLeftSame(scratch[..], scratchPitch, w);
    if leftover != 0 {
      CleanEdge(scratch, scratchPitch, h, bytes, leftover);
    }
    ghost var clean := scratch[..];
    PastedNone(data[..], pitch, x, y, w, clean, scratchPitch);
    var index, index2 := pitch * y + x / 8, 0;
    for j := 0 to h
      invariant index == pitch * (y + j) + x / 8 && index2 == scratchPitch * j && scratch[..] == clean
      invariant Pasted(old(data[..]), data[..], pitch, x, y, w, j, clean, scratchPitch)
    {
      BlitRowAt(data, pitch, x, y, w, j, h, scratch, scratchPitch, index, index2, old(data[..]));
      NextRow(pitch, y + j);
      NextRow(scratchPitch, j);
      index := index + pitch;
      index2 := index2 + scratchPitch;
    }
    PastedSame(old(data[..]), data[..], pitch, x, y, w, h, old(scratch[..]), clean, scratchPitch);
  }

  lemma CleanedEdge(s: seq<bv8>, pitch: nat, r: nat, b: nat, n: nat)
    requires n != 0 ==> Cleaned(s, pitch, r, b, n)
    ensures n != 0 ==> pitch * r + b < |s| && HighBitsClear(s[pitch * r + b], n)
  {
  }

  lemma PastedSame(t: seq<bv8>, t': seq<bv8>, pitch: nat, x: nat, y: nat, w: nat, h: nat, from: seq<bv8>,
                   clean: seq<bv8>, fromPitch: nat)
    requires Pasted(t, t', pitch, x, y, w, h, clean, fromPitch) && SameLeft(from, clean, fromPitch, w)
    ensures Pasted(t, t', pitch, x, y, w, h, from, fromPitch)
  {
    hide At;
  }

  /** The rows not yet written are still clear. */
  lemma RowClear(t: seq<bv8>, t1: seq<bv8>, pitch: nat, x: nat, y: nat, w: nat, j: nat, h: nat, from: seq<bv8>,
                 fromPitch: nat)
    requires j < h && x + w <= 8 * pitch && pitch * (y + h) <= |t|
    requires ClearRect(t, pitch, x, y, w, h) && Pasted(t, t1, pitch, x, y, w, j, from, fromPitch)
    ensures 8 * (pitch * (y + j)) + x + w <= 8 * |t1|
    ensures Clear(t1, 8 * (pitch * (y + j)) + x, w)
  {
    hide BitAt;
    RowsApart(pitch, y + j, y + h);
    forall q | 8 * (pitch * (y + j)) + x <= q < 8 * (pitch * (y + j)) + x + w
      ensures !BitAt(t1, q)
    {
      assert !At(t, pitch, y + j, q - 8 * (pitch * (y + j)));
      assert !At(t1, pitch, y + j, q - 8 * (pitch * (y + j)));
    }
  }

  /** t' is t with n bytes at d copied from `from` at s. */
  ghost predicate Copied(t: seq<bv8>, t': seq<bv8>, d: nat, from: seq<bv8>, s: nat, n: nat)
    requires s + n <= |from|
  {
    |t'| == |t| && forall k :: 0 <= k < |t| ==> t'[k] == if d <= k < d + n then from[s + k - d] else t[k]
  }

  method MemCopy(dst: array<bv8>, d: nat, src: array<bv8>, s: nat, n: nat)
    requires dst != src && d + n <= dst.Length && s + n <= src.Length
    modifies dst
    ensures Copied(old(dst[..]), dst[..], d, src[..], s, n)
  {
    for i := 0 to n
      invariant src[..] == old(src[..])
      invariant Copied(old(dst[..]), dst[..], d, src[..], s, i)
    {
      dst[d + i] := src[s + i];
    }
  }

  lemma AtByte(s: seq<bv8>, pitch: nat, r: nat, c: nat)
    ensures At(s, pitch, r, c) == (pitch * r + c / 8 < |s| && Bit(s[pitch * r + c / 8], c % 8))
  {
    hide Bit;
    var first: nat := pitch * r;
    assert (8 * first + c) / 8 == first + c / 8 && (8 * first + c) % 8 == c % 8;
  }

  lemma RowCopied(t: seq<bv8>, t': seq<bv8>, pitch: nat, x: nat, row: nat, w: nat, from: seq<bv8>, fromPitch: nat,
                  j: nat, r: nat, c: nat)
    requires c < 8 * pitch && x + w <= pitch && fromPitch * j + w <= |from| && pitch * row + pitch <= |t|
    requires Copied(t, t', pitch * row + x, from, fromPitch * j, w)
    ensures At(t', pitch, r, c)
         == if r == row && 8 * x <= c < 8 * (x + w) then At(from, fromPitch, j, c - 8 * x) else At(t, pitch, r, c)
  {
    hide Bit, At;
    if r < row {
      RowsApart(pitch, r, row);
    } else if row < r {
      RowsApart(pitch, row, r);
    }
    AtByte(t, pitch, r, c);
    AtByte(t', pitch, r, c);
    if r == row && 8 * x <= c < 8 * (x + w) {
      AtByte(from, fromPitch, j, c - 8 * x);
    }
  }

  lemma PastedBytes(t: seq<bv8>, t1: seq<bv8>, t2: seq<bv8>, pitch: nat, x: nat, y: nat, w: nat, j: nat,
                    from: seq<bv8>, fromPitch: nat)
    requires x + w <= pitch && fromPitch * j + w <= |from| && pitch * (y + j) + pitch <= |t|
    requires Pasted(t, t1, pitch, 8 * x, y, 8 * w, j, from, fromPitch)
    requires Copied(t1, t2, pitch * (y + j) + x, from, fromPitch * j, w)
    ensures Pasted(t, t2, pitch, 8 * x, y, 8 * w, j + 1, from, fromPitch)
  {
    hide At;
    forall r: nat, c: nat | c < 8 * pitch
      ensures At(t2, pitch, r, c)
           == if y <= r < y + (j + 1) && 8 * x <= c < 8 * x + 8 * w then At(from, fromPitch, r - y, c - 8 * x)
              else At(t, pitch, r, c)
    {
      RowCopied(t1, t2, pitch, x, y + j, w, from, fromPitch, j, r, c);
    }
  }

  /** The other branch: a rectangle of whole bytes, copied row by row. */
  method CopyRect(data: array<bv8>, pitch: nat, x: nat, y: nat, w: nat, h: nat, scratch: array<bv8>, scratchPitch: nat)
    requires data != scratch && x + w <= pitch && w <= scratchPitch
    requires pitch * (y + h) <= data.Length && scratchPitch * h <= scratch.Length
    modifies data
    ensures Pasted(old(data[..]), data[..], pitch, 8 * x, y, 8 * w, h, scratch[..], scratchPitch)
  {
    hide *;
    PastedNone(data[..], pitch, 8 * x, y, 8 * w, scratch[..], scratchPitch);
    for j := 0 to h
      invariant scratch[..] == old(scratch[..])
      invariant Pasted(old(data[..]), data[..], pitch, 8 * x, y, 8 * w, j, scratch[..], scratchPitch)
    {
      ghost var t := data[..];
      RowsApart(scratchPitch, j, h);
      RowsApart(pitch, y + j, y + h);
      MemCopy(data, pitch * (y + j) + x, scratch, scratchPitch * j, w);
      PastedLength(old(data[..]), t, pitch, 8 * x, y, 8 * w, j, scratch[..], scratchPitch);
      PastedBytes(old(data[..]), t, data[..], pitch, x, y, w, j, scratch[..], scratchPitch);
    }
  }

  lemma PastedLength(t: seq<bv8>, t': seq<bv8>, pitch: nat, x: nat, y: nat, w: nat, h: nat, from: seq<bv8>,
                     fromPitch: nat)
    requires Pasted(t, t', pitch, x, y, w, h, from, fromPitch)
    ensures |t'| == |t|
  {
  }
}
