/**
 * EGA plane de-interleaving. A VRAM word holds one byte of each of the four
 * bit planes (plane 0 in the low byte); pixel b of the word, counted from
 * bit 7 of each byte down to bit 0, has as colour index the four plane bits
 * at position b. The HDMI driver gathers those with a constant-mask trick
 * that turns the word into eight 4-bit nibbles, nibble b holding pixel b.
 */
module Planes {

  /** Bit i of a word, as 0 or 1. */
  function BitOf(w: bv32, i: bv32): bv32
    requires i < 32
  {
    (w >> i) & 1
  }

  /**
   * Moves bit i of a byte to bit 4i by three mask steps: nibbles to the two
   * halves, pairs to the four bytes, single bits to the nibbles.
   */
  function Spread8(plane: bv32): (spread: bv32)
    ensures spread & 0xEEEE_EEEE == 0
    ensures plane <= 0xFF ==>
      (spread == BitOf(plane, 0) | (BitOf(plane, 1) << 4) | (BitOf(plane, 2) << 8) | (BitOf(plane, 3) << 12)
                 | (BitOf(plane, 4) << 16) | (BitOf(plane, 5) << 20) | (BitOf(plane, 6) << 24) | (BitOf(plane, 7) << 28))
  {
    var s1 := (plane | (plane << 12)) & 0x000F_000F;
    var s2 := (s1 | (s1 << 6)) & 0x0303_0303;
    (s2 | (s2 << 3)) & 0x1111_1111
  }

  /** Spreading moves bit i of the byte to bit 4i and leaves every other bit clear. */
  lemma Spread8Spreads(plane: bv32, i: bv32)
    requires plane <= 0xFF && i < 8
    ensures Spread8(plane) & 0xEEEE_EEEE == 0
    ensures BitOf(Spread8(plane), 4 * i) == BitOf(plane, i)
  {
  }

  /** Byte k of a VRAM word: plane k. */
  function Plane(w: bv32, k: nat): bv32
    requires k < 4
  {
    match k
    case 0 => w & 0xFF
    case 1 => (w >> 8) & 0xFF
    case 2 => (w >> 16) & 0xFF
    case _ => (w >> 24) & 0xFF
  }

  /** The eight colour nibbles of a word of four planes, as the driver packs them: nibble b holds the colour index gathered at plane bit b. */
  function Pack8(w: bv32): (packed: bv32)
    ensures packed == GatherPixel(w, 0) | (GatherPixel(w, 1) << 4) | (GatherPixel(w, 2) << 8) | (GatherPixel(w, 3) << 12)
      | (GatherPixel(w, 4) << 16) | (GatherPixel(w, 5) << 20) | (GatherPixel(w, 6) << 24) | (GatherPixel(w, 7) << 28)
  {
    var p0, p1, p2, p3 := w & 0xFF, (w >> 8) & 0xFF, (w >> 16) & 0xFF, w >> 24;
    MergeSpread(p0, p1, p2, p3, Spread8(p0), Spread8(p1), Spread8(p2), Spread8(p3));
    Spread8(p0) | (Spread8(p1) << 1) | (Spread8(p2) << 2) | (Spread8(p3) << 3)
  }

  /** Bits i of four spread bytes, merged at nibble i: bit i of byte k lands at bit 4i + k. */
  lemma MergeSpread(p0: bv32, p1: bv32, p2: bv32, p3: bv32, s0: bv32, s1: bv32, s2: bv32, s3: bv32)
    requires p0 <= 0xFF && p1 <= 0xFF && p2 <= 0xFF && p3 <= 0xFF
    requires s0 == Spread8(p0) && s1 == Spread8(p1) && s2 == Spread8(p2) && s3 == Spread8(p3)
    ensures s0 | (s1 << 1) | (s2 << 2) | (s3 << 3)
      == Merged(p0, p1, p2, p3, 0) | (Merged(p0, p1, p2, p3, 1) << 4) | (Merged(p0, p1, p2, p3, 2) << 8) | (Merged(p0, p1, p2, p3, 3) << 12)
       | (Merged(p0, p1, p2, p3, 4) << 16) | (Merged(p0, p1, p2, p3, 5) << 20) | (Merged(p0, p1, p2, p3, 6) << 24) | (Merged(p0, p1, p2, p3, 7) << 28)
  {
  }

  /** Bit b of four bytes as a 4-bit value, byte k as bit k. */
  function Merged(p0: bv32, p1: bv32, p2: bv32, p3: bv32, b: bv32): bv32
    requires b < 8
  {
    BitOf(p0, b) | (BitOf(p1, b) << 1) | (BitOf(p2, b) << 2) | (BitOf(p3, b) << 3)
  }

  /** Nibble b of a packed word. */
  function Nibble(p: bv32, b: bv32): bv32
    requires b < 8
  {
    (p >> (4 * b)) & 0xF
  }

  /**
   * The reference gather, one pixel at a time: bit b of plane 0 is bit 0 of
   * the colour index, bit b of plane 3 is bit 3.
   */
  function GatherPixel(w: bv32, b: bv32): bv32
    requires b < 8
  {
    BitOf(Plane(w, 0), b) | (BitOf(Plane(w, 1), b) << 1) | (BitOf(Plane(w, 2), b) << 2) | (BitOf(Plane(w, 3), b) << 3)
  }

  /** Pixels are numbered from the left: pixel p of a word sits at bit 7 - p of each plane. */
  function PixelBit(p: nat): (b: bv32)
    requires p < 8
    ensures b < 8
  {
    match p
    case 0 => 7
    case 1 => 6
    case 2 => 5
    case 3 => 4
    case 4 => 3
    case 5 => 2
    case 6 => 1
    case _ => 0
  }

  /** Nibble b of the packed word is the gathered colour index of pixel b. */
  lemma Pack8Nibble(w: bv32, b: bv32)
    requires b < 8
    ensures Nibble(Pack8(w), b) == GatherPixel(w, b)
  {
    if b == 0 {
    } else if b == 1 {
    } else if b == 2 {
    } else if b == 3 {
    } else if b == 4 {
    } else if b == 5 {
    } else if b == 6 {
    } else {
    }
  }

  /** Every gathered colour index is a 16-colour index. */
  lemma GatherPixelBound(w: bv32, b: bv32)
    requires b < 8
    ensures GatherPixel(w, b) <= 15
  {
  }
}
