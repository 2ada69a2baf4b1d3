/**
 * Bits of 32-bit words and bitsets stored as a sequence of words, least
 * significant bit first: id `k` of a bitset is bit `k % 32` of word `k / 32`.
 * This is how the driver keeps its two sets of interrupt ids, one word per
 * set-enable register.
 */
module Bits {

  datatype Option<T> = None | Some(value: T)

  /** The word with only bit `j` set. */
  function Bit(j: nat): bv32
    requires j < 32
  {
    if j == 0 then 1 else Bit(j - 1) << 1
  }

  /** Bit `j` of word `w`. */
  predicate BitAt(w: bv32, j: nat)
    requires j < 32
  {
    w & Bit(j) != 0
  }

  /** Whether `id` is in the bitset `words`; false for every id past its last word. */
  predicate InBitSet(words: seq<bv32>, id: nat)
  {
    id / 32 < |words| && BitAt(words[id / 32], id % 32)
  }

  /** No bit of `w` from `lo` up to, not including, `hi` is set. */
  predicate NoBitIn(w: bv32, lo: nat, hi: nat)
    requires hi <= 32
  {
    forall j :: lo <= j < hi ==> !BitAt(w, j)
  }

  /** Ids below 32 live in word 0 at their own bit position. */
  lemma LowIdBit(words: seq<bv32>, id: nat)
    requires id < 32 && |words| > 0
    ensures InBitSet(words, id) == BitAt(words[0], id)
  {
  }

  /** No id below `n` is in the bitset `words`. */
  predicate NoIdBelow(words: seq<bv32>, n: nat)
  {
    forall id: nat :: id < n ==> !InBitSet(words, id)
  }

  /** For n up to 32, the ids below n are the bits below n of word 0. */
  lemma LowIdsBelow(words: seq<bv32>, n: nat)
    requires n <= 32 && |words| > 0
    ensures NoIdBelow(words, n) <==> NoBitIn(words[0], 0, n)
  {
    forall id: nat | id < n ensures InBitSet(words, id) == BitAt(words[0], id) {
      LowIdBit(words, id);
    }
  }

  /** The single-bit words at the top of the low half and of the third byte. */
  lemma Bit15()
    ensures Bit(15) == 0x8000
  {
    assert Bit(4) == 0x10 && Bit(8) == 0x100 && Bit(12) == 0x1000;
  }

  lemma Bit23()
    ensures Bit(23) == 0x80_0000
  {
    Bit15();
    assert Bit(19) == 0x8_0000;
  }

  /** A byte of `w` with none of its eight bits set is zero. */
  lemma NoBitByte0(w: bv32)
    requires NoBitIn(w, 0, 8)
    ensures w & 0xFF == 0
  {
    assert !BitAt(w, 0) && !BitAt(w, 1) && !BitAt(w, 2) && !BitAt(w, 3);
    assert !BitAt(w, 4) && !BitAt(w, 5) && !BitAt(w, 6) && !BitAt(w, 7);
  }

  lemma NoBitByte1(w: bv32)
    requires NoBitIn(w, 8, 16)
    ensures w & 0xFF00 == 0
  {
    assert !BitAt(w, 8) && !BitAt(w, 9) && !BitAt(w, 10) && !BitAt(w, 11);
    assert !BitAt(w, 12) && !BitAt(w, 13) && !BitAt(w, 14) && !BitAt(w, 15);
  }

  lemma NoBitByte2(w: bv32)
    requires NoBitIn(w, 16, 24)
    ensures w & 0xFF_0000 == 0
  {
    Bit15();
    assert !BitAt(w, 16) && !BitAt(w, 17) && !BitAt(w, 18) && !BitAt(w, 19);
    assert !BitAt(w, 20) && !BitAt(w, 21) && !BitAt(w, 22) && !BitAt(w, 23);
  }

  lemma NoBitByte3(w: bv32)
    requires NoBitIn(w, 24, 32)
    ensures w & 0xFF00_0000 == 0
  {
    Bit23();
    assert !BitAt(w, 24) && !BitAt(w, 25) && !BitAt(w, 26) && !BitAt(w, 27);
    assert !BitAt(w, 28) && !BitAt(w, 29) && !BitAt(w, 30) && !BitAt(w, 31);
  }

  /** A word is zero exactly when none of its 32 bits is set. */
  lemma ZeroWord(w: bv32)
    ensures w == 0 <==> NoBitIn(w, 0, 32)
  {
    if NoBitIn(w, 0, 32) {
      NoBitByte0(w); NoBitByte1(w); NoBitByte2(w); NoBitByte3(w);
    }
  }

  /** The index of the lowest bit at or above `from` set in `w`, or 32 when there is none. */
  function TrailingZerosFrom(w: bv32, from: nat): (r: nat)
    requires from <= 32
    ensures from <= r <= 32
    ensures NoBitIn(w, from, r)
    ensures r < 32 ==> BitAt(w, r)
    ensures r == 32 <==> NoBitIn(w, from, 32)
    decreases 32 - from
  {
    if from == 32 then 32
    else if BitAt(w, from) then from
    else TrailingZerosFrom(w, from + 1)
  }

  /** The number of trailing zero bits of `w`: the index of its lowest set bit, 32 for the zero word. */
  function TrailingZeros(w: bv32): (r: nat)
    ensures r <= 32
    ensures r == 32 <==> w == 0
    ensures r < 32 ==> BitAt(w, r) && NoBitIn(w, 0, r)
  {
    ZeroWord(w);
    TrailingZerosFrom(w, 0)
  }

  /** Bits 4 and above lie outside 0xF. */
  lemma BitAbove4(j: nat)
    requires 4 <= j < 32
    ensures Bit(j) & 0xF == 0
    decreases j
  {
    if j > 4 { BitAbove4(j - 1); }
  }

  /** Bits 16 and above lie outside 0xFFFF. */
  lemma BitAbove16(j: nat)
    requires 16 <= j < 32
    ensures Bit(j) & 0xFFFF == 0
    decreases j
  {
    if j > 16 { BitAbove16(j - 1); } else { Bit15(); }
  }

  /** Bits 0-15 lie inside 0xFFFF, and bits 0-3 inside 0xF. */
  lemma BitBelow16(j: nat)
    requires j < 16
    ensures Bit(j) & 0xF == (if j < 4 then Bit(j) else 0)
    ensures Bit(j) & 0xFFFF == Bit(j)
  {
    // One case per literal j: the recursive `Bit(j)` unfolds to a constant only then.
    if j == 0 {} else if j == 1 {} else if j == 2 {} else if j == 3 {}
    else if j == 4 {} else if j == 5 {} else if j == 6 {} else if j == 7 {}
    else if j == 8 {} else if j == 9 {} else if j == 10 {} else if j == 11 {}
    else if j == 12 {} else if j == 13 {} else if j == 14 {} else {}
  }

  lemma AndKeeps(w: bv32, b: bv32, m: bv32)
    requires b & m == b
    ensures ((w & m) & b != 0) == (w & b != 0)
  {
    assert (w & m) & b == w & b;
  }

  lemma AndDrops(w: bv32, b: bv32, m: bv32)
    requires b & m == 0
    ensures (w & m) & b == 0
  {
  }

  /** Masking with 0xF keeps bits 0-3 and clears the rest. */
  lemma MaskedBit4(w: bv32, j: nat)
    requires j < 32
    ensures BitAt(w & 0xF, j) <==> j < 4 && BitAt(w, j)
  {
    if j >= 4 {
      BitAbove4(j);
      AndDrops(w, Bit(j), 0xF);
    } else {
      BitBelow16(j);
      AndKeeps(w, Bit(j), 0xF);
    }
  }

  /** Masking with 0xFFFF keeps bits 0-15 and clears the rest. */
  lemma MaskedBit16(w: bv32, j: nat)
    requires j < 32
    ensures BitAt(w & 0xFFFF, j) <==> j < 16 && BitAt(w, j)
  {
    if j >= 16 {
      BitAbove16(j);
      AndDrops(w, Bit(j), 0xFFFF);
    } else {
      BitBelow16(j);
      AndKeeps(w, Bit(j), 0xFFFF);
    }
  }

  /** `w` masked to its `width` lowest bits, for the two widths the driver uses. */
  function LowBits(w: bv32, width: nat): bv32
    requires width == 4 || width == 16
  {
    if width == 4 then w & 0xF else w & 0xFFFF
  }

  /** Bit `j` of `LowBits(w, width)` is bit `j` of `w` when `j` is below `width`, and clear otherwise. */
  lemma LowBitsBit(w: bv32, width: nat, j: nat)
    requires width == 4 || width == 16
    requires j < 32
    ensures BitAt(LowBits(w, width), j) <==> j < width && BitAt(w, j)
  {
    if width == 4 {
      MaskedBit4(w, j);
    } else {
      MaskedBit16(w, j);
    }
  }

  /** The bits of `LowBits(w, width)` are the bits of `w` below `width`. */
  lemma LowBitsAt(w: bv32, width: nat)
    requires width == 4 || width == 16
    ensures forall j :: 0 <= j < 32 ==> (BitAt(LowBits(w, width), j) <==> j < width && BitAt(w, j))
  {
    forall j | 0 <= j < 32 ensures BitAt(LowBits(w, width), j) <==> j < width && BitAt(w, j) {
      LowBitsBit(w, width, j);
    }
  }

  /** `LowBits(w, width)` is zero exactly when no bit of `w` below `width` is set. */
  lemma LowBitsZero(w: bv32, width: nat)
    requires width == 4 || width == 16
    ensures LowBits(w, width) == 0 <==> NoBitIn(w, 0, width)
  {
    ZeroWord(LowBits(w, width));
    LowBitsAt(w, width);
  }

  /** Below `k <= width` the bits of `LowBits(w, width)` and of `w` are clear together. */
  lemma LowBitsBelow(w: bv32, width: nat, k: nat)
    requires width == 4 || width == 16
    requires k <= width
    ensures NoBitIn(LowBits(w, width), 0, k) <==> NoBitIn(w, 0, k)
  {
    LowBitsAt(w, width);
  }

  /**
   * The lowest set bit of `w` below bit `width`, found by masking, testing
   * for zero and counting trailing zeros; None when those bits are all clear.
   */
  function LowestSetBit(w: bv32, width: nat): (r: Option<nat>)
    requires width == 4 || width == 16
    ensures r.None? <==> NoBitIn(w, 0, width)
    ensures r.Some? ==> r.value < width && BitAt(w, r.value)
    ensures r.Some? ==> NoBitIn(w, 0, r.value)
  {
    var mask := LowBits(w, width);
    LowBitsZero(w, width);
    if mask == 0 then None
    else
      var k := TrailingZeros(mask);
      LowBitsBit(w, width, k);
      LowBitsBelow(w, width, k);
      Some(k)
  }
}
