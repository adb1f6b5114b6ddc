/** Bytes as eight bits, lowest first, and the bit copy of CopyBits in Xext/panoramiX.c. */
module Bits {

  /** 1 << k */
  function Mask(k: nat): bv8
    requires k < 8
  {
    if k == 0 then 1 else if k == 1 then 2 else if k == 2 then 4 else if k == 3 then 8
    else if k == 4 then 16 else if k == 5 then 32 else if k == 6 then 64 else 128
  }

  predicate Bit(b: bv8, k: nat)
    requires k < 8
  {
    b & Mask(k) != 0
  }

  /** SHIFT_L on a little-endian server */
  function ShiftL(b: bv8, s: nat): bv8
    requires s < 8
  {
    if s == 0 then b else if s == 1 then b << 1 else if s == 2 then b << 2 else if s == 3 then b << 3
    else if s == 4 then b << 4 else if s == 5 then b << 5 else if s == 6 then b << 6 else b << 7
  }

  /** SHIFT_R on a little-endian server */
  function ShiftR(b: bv8, s: nat): bv8
    requires s <= 8
  {
    if s == 0 then b else if s == 1 then b >> 1 else if s == 2 then b >> 2 else if s == 3 then b >> 3
    else if s == 4 then b >> 4 else if s == 5 then b >> 5 else if s == 6 then b >> 6
    else if s == 7 then b >> 7 else 0
  }

  /** (1 << n) - 1 */
  function LowMask(n: nat): bv8
    requires n < 8
  {
    if n == 0 then 0 else if n == 1 then 1 else if n == 2 then 3 else if n == 3 then 7
    else if n == 4 then 15 else if n == 5 then 31 else if n == 6 then 63 else 127
  }

  lemma ShiftLBit(b: bv8, s: nat, k: nat)
    requires s < 8 && k < 8
    ensures Bit(ShiftL(b, s), k) == (k >= s && Bit(b, k - s))
  {
  }

  lemma ShiftRBit(b: bv8, s: nat, k: nat)
    requires s <= 8 && k < 8
    ensures Bit(ShiftR(b, s), k) == (k + s < 8 && Bit(b, k + s))
  {
  }

  lemma OrBit(a: bv8, b: bv8, k: nat)
    requires k < 8
    ensures Bit(a | b, k) == (Bit(a, k) || Bit(b, k))
  {
  }

  lemma LowMaskBit(a: bv8, n: nat, k: nat)
    requires n < 8 && k < 8
    ensures Bit(a & LowMask(n), k) == (k < n && Bit(a, k))
  {
  }
}
