/**
 * The differential serializer of the HDMI driver: three 10-bit TMDS symbols
 * become one 64-bit word that the output state machine shifts out 6 pins at
 * a time, in two 30-bit halves. Each of the ten 6-bit units carries one bit
 * of every channel as a differential pair (bit, not bit).
 *
 * The channel order on the pins and the polarity of the pairs are board
 * build options; they are the parameters rgbOrder and invertPairs.
 */
module Serializer {

  /** The 60 data bits: two 30-bit halves, bits 30-31 and 62-63 unused. */
  const DataMask: bv64 := 0x3FFF_FFFF_3FFF_FFFF

  /** The low bit of every 2-bit lane. */
  const LaneLowBits: bv64 := 0x1555_5555_1555_5555

  /** Number of units (bits per symbol). */
  const Units: nat := 10

  /** 2 to the power j, for the ten bit positions of a symbol. */
  function SymbolBitValue(j: nat): bv16
    requires j < 10
  {
    match j
    case 0 => 0x001 case 1 => 0x002 case 2 => 0x004 case 3 => 0x008 case 4 => 0x010
    case 5 => 0x020 case 6 => 0x040 case 7 => 0x080 case 8 => 0x100 case _ => 0x200
  }

  /** Bit j of a TMDS symbol. */
  predicate SymbolBit(s: bv16, j: nat)
    requires j < 10
  {
    s & SymbolBitValue(j) != 0
  }

  /**
   * One channel's 2-bit lane: the bit in the low position and its
   * complement above it, both swapped when the pairs are inverted.
   */
  function Lane(bit: bool, invertPairs: bool): (l: bv8)
    ensures l == 1 || l == 2
    ensures (l & 1 == 1) == (bit != invertPairs)
  {
    if bit != invertPairs then 1 else 2
  }

  /** Unit i carries bit 9 - i of each symbol, red in the top lane when rgbOrder holds, blue otherwise. */
  function Unit(red: bv16, green: bv16, blue: bv16, rgbOrder: bool, invertPairs: bool, i: nat): bv64
    requires i < 10
  {
    Pack(Lane(SymbolBit(red, 9 - i), invertPairs), Lane(SymbolBit(green, 9 - i), invertPairs),
      Lane(SymbolBit(blue, 9 - i), invertPairs), rgbOrder)
  }

  /** Three 2-bit lanes side by side, red in the top lane when rgbOrder holds, blue otherwise. */
  function Pack(r: bv8, g: bv8, b: bv8, rgbOrder: bool): bv64
  {
    if rgbOrder then ((r as bv64) << 4) | ((g as bv64) << 2) | (b as bv64)
    else ((b as bv64) << 4) | ((g as bv64) << 2) | (r as bv64)
  }

  /** The ten units of one pixel, unit 0 first. */
  function UnitSeq(red: bv16, green: bv16, blue: bv16, rgbOrder: bool, invertPairs: bool): (us: seq<bv64>)
    ensures |us| == Units
    ensures forall i :: 0 <= i < Units ==> us[i] == Unit(red, green, blue, rgbOrder, invertPairs, i)
  {
    seq(Units, i requires 0 <= i < Units => Unit(red, green, blue, rgbOrder, invertPairs, i))
  }

  /** The word layout: unit 0 highest, six bits per unit, with a 2-bit gap between units 4 and 5 (units 0-4 in the high half, 5-9 in the low half). */
  function Placed(us: seq<bv64>): bv64
    requires |us| == 10
  {
    (us[0] << 56) | (us[1] << 50) | (us[2] << 44) | (us[3] << 38) | (us[4] << 32)
    | (us[5] << 24) | (us[6] << 18) | (us[7] << 12) | (us[8] << 6) | us[9]
  }

  /** The serialized word of one pixel. */
  function DifferentialWord(red: bv16, green: bv16, blue: bv16, rgbOrder: bool, invertPairs: bool): bv64
  {
    Placed(UnitSeq(red, green, blue, rgbOrder, invertPairs))
  }

  /** Making room for unit i: 6 bits, and 2 more in front of unit 5. */
  function Advance(w: bv64, i: nat): bv64
  {
    if i == 5 then (w << 6) << 2 else w << 6
  }

  /** The word the serializer's loop holds after its first k steps. */
  function Fold(us: seq<bv64>, k: nat): bv64
    requires k <= |us|
  {
    if k == 0 then 0 else Advance(Fold(us, k - 1), k - 1) | us[k - 1]
  }

  /** The serializer of drivers/hdmi/hdmi.c, one unit per loop step. */
  method GenerateDifferentialData(red: bv16, green: bv16, blue: bv16, rgbOrder: bool, invertPairs: bool)
    returns (w: bv64)
    ensures w == DifferentialWord(red, green, blue, rgbOrder, invertPairs)
  {
    ghost var us := UnitSeq(red, green, blue, rgbOrder, invertPairs);
    w := 0;
    var k := 0;
    while k < Units
      invariant 0 <= k <= Units
      invariant w == Fold(us, k)
    {
      ghost var before := w;
      w := w << 6;
      if k == 5 {
        w := w << 2;
      }
      ghost var shifted := w;
      assert shifted == Advance(before, k);
      var unit := PackUnit(red, green, blue, rgbOrder, invertPairs, k);
      w := w | unit;
      FoldLoopStep(us, k, before, shifted, unit, w);
      k := k + 1;
    }
    FoldAfter10(us);
  }

  /** The body of the serializer's loop for bit 9 - k: three lanes packed in pin order. */
  method PackUnit(red: bv16, green: bv16, blue: bv16, rgbOrder: bool, invertPairs: bool, k: nat)
    returns (unit: bv64)
    requires k < Units
    ensures unit == Unit(red, green, blue, rgbOrder, invertPairs, k)
  {
    var r := ((red >> (9 - k)) & 1) as bv8;
    var g := ((green >> (9 - k)) & 1) as bv8;
    var b := ((blue >> (9 - k)) & 1) as bv8;
    r := r | ((r ^ 1) << 1);
    g := g | ((g ^ 1) << 1);
    b := b | ((b ^ 1) << 1);
    if invertPairs {
      r := r ^ 3;
      g := g ^ 3;
      b := b ^ 3;
    }
    if rgbOrder {
      unit := ((r as bv64) << 4) | ((g as bv64) << 2) | (b as bv64);
    } else {
      unit := ((b as bv64) << 4) | ((g as bv64) << 2) | (r as bv64);
    }
    LaneStep(red, 9 - k, invertPairs, r);
    LaneStep(green, 9 - k, invertPairs, g);
    LaneStep(blue, 9 - k, invertPairs, b);
    UnitStep(red, green, blue, rgbOrder, invertPairs, k, r, g, b);
  }

  /** The lane the loop builds from bit j of a symbol is Lane. */
  lemma LaneStep(s: bv16, j: nat, invertPairs: bool, lane: bv8)
    requires j < 10
    requires lane == ((((s >> j) & 1) as bv8) | (((((s >> j) & 1) as bv8) ^ 1) << 1)) ^ (if invertPairs then 3 else 0)
    ensures lane == Lane(SymbolBit(s, j), invertPairs)
  {
    ShiftedSymbolBit(s, j);
  }

  /** The shift-and-mask reading of bit j used by the serializer is SymbolBit. */
  lemma ShiftedSymbolBit(s: bv16, j: nat)
    requires j < 10
    ensures ((s >> j) & 1 == 1) == SymbolBit(s, j)
  {
    assert (1 as bv16) << j == SymbolBitValue(j) by {
      match j
      case 0 => case 1 => case 2 => case 3 => case 4 => case 5 => case 6 => case 7 => case 8 => case 9 =>
    }
  }

  /** The three lanes of step k, packed in pin order, are unit k. */
  lemma UnitStep(red: bv16, green: bv16, blue: bv16, rgbOrder: bool, invertPairs: bool, k: nat, r: bv8, g: bv8, b: bv8)
    requires k < 10
    requires r == Lane(SymbolBit(red, 9 - k), invertPairs)
    requires g == Lane(SymbolBit(green, 9 - k), invertPairs)
    requires b == Lane(SymbolBit(blue, 9 - k), invertPairs)
    ensures Unit(red, green, blue, rgbOrder, invertPairs, k) == Pack(r, g, b, rgbOrder)
  {
  }

  /** One loop step: make room, then add the next unit. */
  lemma FoldStep(us: seq<bv64>, k: nat)
    requires k < |us|
    ensures Fold(us, k + 1) == Advance(Fold(us, k), k) | us[k]
  {
  }

  /** The loop's step in the serializer's own variables. */
  lemma FoldLoopStep(us: seq<bv64>, k: nat, before: bv64, shifted: bv64, unit: bv64, after: bv64)
    requires k < |us|
    requires before == Fold(us, k) && shifted == Advance(before, k)
    requires unit == us[k] && after == shifted | unit
    ensures after == Fold(us, k + 1)
  {
  }

  lemma FoldAfter1(us: seq<bv64>)
    requires |us| == 10
    ensures Fold(us, 1) == us[0]
  {
    FoldStep(us, 0);
  }

  lemma FoldAfter2(us: seq<bv64>)
    requires |us| == 10
    ensures Fold(us, 2) == (us[0] << 6) | us[1]
  {
    FoldAfter1(us); FoldStep(us, 1);
  }

  lemma FoldAfter3(us: seq<bv64>)
    requires |us| == 10
    ensures Fold(us, 3) == (us[0] << 12) | (us[1] << 6) | us[2]
  {
    FoldAfter2(us); FoldStep(us, 2);
  }

  lemma FoldAfter4(us: seq<bv64>)
    requires |us| == 10
    ensures Fold(us, 4) == (us[0] << 18) | (us[1] << 12) | (us[2] << 6) | us[3]
  {
    FoldAfter3(us); FoldStep(us, 3);
  }

  lemma FoldAfter5(us: seq<bv64>)
    requires |us| == 10
    ensures Fold(us, 5) == (us[0] << 24) | (us[1] << 18) | (us[2] << 12) | (us[3] << 6) | us[4]
  {
    FoldAfter4(us); FoldStep(us, 4);
  }

  lemma FoldAfter6(us: seq<bv64>)
    requires |us| == 10
    ensures Fold(us, 6) == (us[0] << 32) | (us[1] << 26) | (us[2] << 20) | (us[3] << 14) | (us[4] << 8) | us[5]
  {
    FoldAfter5(us); FoldStep(us, 5);
  }

  lemma FoldAfter7(us: seq<bv64>)
    requires |us| == 10
    ensures Fold(us, 7) == (us[0] << 38) | (us[1] << 32) | (us[2] << 26) | (us[3] << 20) | (us[4] << 14) | (us[5] << 6) | us[6]
  {
    FoldAfter6(us); FoldStep(us, 6);
  }

  lemma FoldAfter8(us: seq<bv64>)
    requires |us| == 10
    ensures Fold(us, 8) == (us[0] << 44) | (us[1] << 38) | (us[2] << 32) | (us[3] << 26) | (us[4] << 20) | (us[5] << 12) | (us[6] << 6) | us[7]
  {
    FoldAfter7(us); FoldStep(us, 7);
  }

  lemma FoldAfter9(us: seq<bv64>)
    requires |us| == 10
    ensures Fold(us, 9) == (us[0] << 50) | (us[1] << 44) | (us[2] << 38) | (us[3] << 32) | (us[4] << 26) | (us[5] << 18) | (us[6] << 12) | (us[7] << 6) | us[8]
  {
    FoldAfter8(us); FoldStep(us, 8);
  }

  lemma FoldAfter10(us: seq<bv64>)
    requires |us| == 10
    ensures Fold(us, 10) == Placed(us)
  {
    FoldAfter9(us); FoldStep(us, 9);
  }

  // Shape of a unit and of a word

  /** Six bits, each 2-bit lane holding a bit and its complement. */
  predicate UnitShape(u: bv64)
  {
    u < 64 && (u ^ (u >> 1)) & 0x15 == 0x15
  }

  /** Every unit the serializer builds is well shaped. */
  lemma UnitShaped(red: bv16, green: bv16, blue: bv16, rgbOrder: bool, invertPairs: bool, i: nat)
    requires i < 10
    ensures UnitShape(Unit(red, green, blue, rgbOrder, invertPairs, i))
  {
  }

  lemma UnitSeqShaped(red: bv16, green: bv16, blue: bv16, rgbOrder: bool, invertPairs: bool)
    ensures forall i :: 0 <= i < Units ==> UnitShape(UnitSeq(red, green, blue, rgbOrder, invertPairs)[i])
  {
    forall i | 0 <= i < Units
      ensures UnitShape(UnitSeq(red, green, blue, rgbOrder, invertPairs)[i])
    {
      UnitShaped(red, green, blue, rgbOrder, invertPairs, i);
    }
  }

  /** The unit at position i of a word, read back with the layout's fixed shifts. */
  function UnitAt(w: bv64, i: nat): bv64
    requires i < 10
  {
    match i
    case 0 => (w >> 56) & 0x3F case 1 => (w >> 50) & 0x3F case 2 => (w >> 44) & 0x3F
    case 3 => (w >> 38) & 0x3F case 4 => (w >> 32) & 0x3F case 5 => (w >> 24) & 0x3F
    case 6 => (w >> 18) & 0x3F case 7 => (w >> 12) & 0x3F case 8 => (w >> 6) & 0x3F
    case _ => w & 0x3F
  }

  lemma PlacedUnits(us: seq<bv64>)
    requires |us| == 10
    requires forall i :: 0 <= i < 10 ==> us[i] < 64
    ensures UnitAt(Placed(us), 0) == us[0]
    ensures UnitAt(Placed(us), 1) == us[1]
    ensures UnitAt(Placed(us), 2) == us[2]
    ensures UnitAt(Placed(us), 3) == us[3]
    ensures UnitAt(Placed(us), 4) == us[4]
    ensures UnitAt(Placed(us), 5) == us[5]
    ensures UnitAt(Placed(us), 6) == us[6]
    ensures UnitAt(Placed(us), 7) == us[7]
    ensures UnitAt(Placed(us), 8) == us[8]
    ensures UnitAt(Placed(us), 9) == us[9]
  {
  }

  /** Units below 64 are placed without overlap: each one can be read back. */
  lemma PlacedUnitAt(us: seq<bv64>, i: nat)
    requires |us| == 10 && i < 10
    requires forall j :: 0 <= j < 10 ==> us[j] < 64
    ensures UnitAt(Placed(us), i) == us[i]
  {
    PlacedUnits(us);
  }

  lemma PlacedInMask(us: seq<bv64>, w: bv64)
    requires |us| == 10 && w == Placed(us)
    requires forall i :: 0 <= i < 10 ==> us[i] < 64
    ensures w & DataMask == w
  {
  }

  lemma PlacedLanes(us: seq<bv64>, w: bv64)
    requires |us| == 10 && w == Placed(us)
    requires forall i :: 0 <= i < 10 ==> UnitShape(us[i])
    ensures (w ^ (w >> 1)) & LaneLowBits == LaneLowBits
  {
  }

  /** Complementing every unit complements exactly the data bits. */
  lemma PlacedComplement(us: seq<bv64>, vs: seq<bv64>, w: bv64, v: bv64)
    requires |us| == 10 && |vs| == 10
    requires forall i :: 0 <= i < 10 ==> us[i] < 64 && vs[i] == us[i] ^ 0x3F
    requires w == Placed(us) && v == Placed(vs)
    ensures v == w ^ DataMask
  {
  }

  // Properties of the serialized word

  /** Unit i of the word carries bit 9 - i of each channel. */
  lemma DifferentialUnitAt(red: bv16, green: bv16, blue: bv16, rgbOrder: bool, invertPairs: bool, i: nat)
    requires i < 10
    ensures UnitAt(DifferentialWord(red, green, blue, rgbOrder, invertPairs), i) == Unit(red, green, blue, rgbOrder, invertPairs, i)
  {
    var us := UnitSeq(red, green, blue, rgbOrder, invertPairs);
    UnitSeqShaped(red, green, blue, rgbOrder, invertPairs);
    PlacedUnitAt(us, i);
    assert DifferentialWord(red, green, blue, rgbOrder, invertPairs) == Placed(us);
  }

  /** Bits 30-31 and 62-63 are never set. */
  lemma DifferentialInMask(red: bv16, green: bv16, blue: bv16, rgbOrder: bool, invertPairs: bool)
    ensures DifferentialWord(red, green, blue, rgbOrder, invertPairs) & DataMask == DifferentialWord(red, green, blue, rgbOrder, invertPairs)
  {
    UnitSeqShaped(red, green, blue, rgbOrder, invertPairs);
    PlacedInMask(UnitSeq(red, green, blue, rgbOrder, invertPairs), DifferentialWord(red, green, blue, rgbOrder, invertPairs));
  }

  /** The two bits of every lane differ: every pair is driven differentially. */
  lemma DifferentialLanes(red: bv16, green: bv16, blue: bv16, rgbOrder: bool, invertPairs: bool)
    ensures var w := DifferentialWord(red, green, blue, rgbOrder, invertPairs);
            (w ^ (w >> 1)) & LaneLowBits == LaneLowBits
  {
    UnitSeqShaped(red, green, blue, rgbOrder, invertPairs);
    PlacedLanes(UnitSeq(red, green, blue, rgbOrder, invertPairs), DifferentialWord(red, green, blue, rgbOrder, invertPairs));
  }

  // The inversion option

  /** Swapping the polarity of a pair swaps the two bits of its lane. */
  lemma LaneInverted(bit: bool, invertPairs: bool)
    ensures Lane(bit, !invertPairs) == Lane(bit, invertPairs) ^ 3
  {
  }

  lemma PackComplement(r: bv8, g: bv8, b: bv8, rgbOrder: bool)
    requires r < 4 && g < 4 && b < 4
    ensures Pack(r ^ 3, g ^ 3, b ^ 3, rgbOrder) == Pack(r, g, b, rgbOrder) ^ 0x3F
  {
  }

  /** With the pairs inverted, every bit of a unit is complemented. */
  lemma UnitInverted(red: bv16, green: bv16, blue: bv16, rgbOrder: bool, invertPairs: bool, i: nat)
    requires i < 10
    ensures Unit(red, green, blue, rgbOrder, !invertPairs, i) == Unit(red, green, blue, rgbOrder, invertPairs, i) ^ 0x3F
  {
    LaneInverted(SymbolBit(red, 9 - i), invertPairs);
    LaneInverted(SymbolBit(green, 9 - i), invertPairs);
    LaneInverted(SymbolBit(blue, 9 - i), invertPairs);
    PackComplement(Lane(SymbolBit(red, 9 - i), invertPairs), Lane(SymbolBit(green, 9 - i), invertPairs),
      Lane(SymbolBit(blue, 9 - i), invertPairs), rgbOrder);
  }

  lemma UnitSeqInverted(red: bv16, green: bv16, blue: bv16, rgbOrder: bool, invertPairs: bool)
    ensures forall i :: 0 <= i < Units ==>
      UnitSeq(red, green, blue, rgbOrder, !invertPairs)[i] == UnitSeq(red, green, blue, rgbOrder, invertPairs)[i] ^ 0x3F
  {
    forall i | 0 <= i < Units
      ensures UnitSeq(red, green, blue, rgbOrder, !invertPairs)[i] == UnitSeq(red, green, blue, rgbOrder, invertPairs)[i] ^ 0x3F
    {
      UnitInverted(red, green, blue, rgbOrder, invertPairs, i);
    }
  }

  /** The inversion option complements exactly the 60 data bits of the word. */
  lemma DifferentialInverted(red: bv16, green: bv16, blue: bv16, rgbOrder: bool, invertPairs: bool)
    ensures DifferentialWord(red, green, blue, rgbOrder, !invertPairs)
      == DifferentialWord(red, green, blue, rgbOrder, invertPairs) ^ DataMask
  {
    var us := UnitSeq(red, green, blue, rgbOrder, invertPairs);
    var vs := UnitSeq(red, green, blue, rgbOrder, !invertPairs);
    UnitSeqShaped(red, green, blue, rgbOrder, invertPairs);
    UnitSeqInverted(red, green, blue, rgbOrder, invertPairs);
    PlacedComplement(us, vs, DifferentialWord(red, green, blue, rgbOrder, invertPairs),
      DifferentialWord(red, green, blue, rgbOrder, !invertPairs));
  }

  // Reading the symbols back

  /** Lane positions within a unit: 0 lowest, 2 highest. */
  function RedLane(rgbOrder: bool): nat { if rgbOrder then 2 else 0 }
  function BlueLane(rgbOrder: bool): nat { if rgbOrder then 0 else 2 }
  const GreenLane: nat := 1

  /** The symbol bit a receiver reads from one lane of a unit: the lane's low bit, undone for inverted pairs. */
  predicate LaneBit(u: bv64, lane: nat, invertPairs: bool)
    requires lane < 3
  {
    (match lane
     case 0 => u & 0x01 != 0
     case 1 => u & 0x04 != 0
     case _ => u & 0x10 != 0) != invertPairs
  }

  /** The 10-bit symbol carried by one lane of a word, unit 0 giving bit 9. */
  function ReadSymbol(w: bv64, lane: nat, invertPairs: bool): bv16
    requires lane < 3
  {
    (if LaneBit(UnitAt(w, 0), lane, invertPairs) then 0x200 else 0) |
    (if LaneBit(UnitAt(w, 1), lane, invertPairs) then 0x100 else 0) |
    (if LaneBit(UnitAt(w, 2), lane, invertPairs) then 0x080 else 0) |
    (if LaneBit(UnitAt(w, 3), lane, invertPairs) then 0x040 else 0) |
    (if LaneBit(UnitAt(w, 4), lane, invertPairs) then 0x020 else 0) |
    (if LaneBit(UnitAt(w, 5), lane, invertPairs) then 0x010 else 0) |
    (if LaneBit(UnitAt(w, 6), lane, invertPairs) then 0x008 else 0) |
    (if LaneBit(UnitAt(w, 7), lane, invertPairs) then 0x004 else 0) |
    (if LaneBit(UnitAt(w, 8), lane, invertPairs) then 0x002 else 0) |
    (if LaneBit(UnitAt(w, 9), lane, invertPairs) then 0x001 else 0)
  }

  /** The three symbols a receiver reads back from a word. */
  function ReadBack(w: bv64, rgbOrder: bool, invertPairs: bool): (bv16, bv16, bv16)
  {
    (ReadSymbol(w, RedLane(rgbOrder), invertPairs), ReadSymbol(w, GreenLane, invertPairs), ReadSymbol(w, BlueLane(rgbOrder), invertPairs))
  }

  lemma PackLaneBits(rb: bool, gb: bool, bb: bool, rgbOrder: bool, invertPairs: bool)
    ensures var u := Pack(Lane(rb, invertPairs), Lane(gb, invertPairs), Lane(bb, invertPairs), rgbOrder);
      LaneBit(u, RedLane(rgbOrder), invertPairs) == rb && LaneBit(u, GreenLane, invertPairs) == gb
      && LaneBit(u, BlueLane(rgbOrder), invertPairs) == bb
  {
  }

  /** Each lane of unit i carries bit 9 - i of its channel. */
  lemma UnitLaneBits(red: bv16, green: bv16, blue: bv16, rgbOrder: bool, invertPairs: bool, i: nat)
    requires i < 10
    ensures LaneBit(Unit(red, green, blue, rgbOrder, invertPairs, i), RedLane(rgbOrder), invertPairs) == SymbolBit(red, 9 - i)
    ensures LaneBit(Unit(red, green, blue, rgbOrder, invertPairs, i), GreenLane, invertPairs) == SymbolBit(green, 9 - i)
    ensures LaneBit(Unit(red, green, blue, rgbOrder, invertPairs, i), BlueLane(rgbOrder), invertPairs) == SymbolBit(blue, 9 - i)
  {
    PackLaneBits(SymbolBit(red, 9 - i), SymbolBit(green, 9 - i), SymbolBit(blue, 9 - i), rgbOrder, invertPairs);
  }

  /** A lane whose ten bits are those of s reads back as the low ten bits of s. */
  lemma ReadSymbolOf(w: bv64, lane: nat, invertPairs: bool, s: bv16)
    requires lane < 3
    requires forall i :: 0 <= i < 10 ==> LaneBit(UnitAt(w, i), lane, invertPairs) == SymbolBit(s, 9 - i)
    ensures ReadSymbol(w, lane, invertPairs) == s & 0x3FF
  {
  }

  lemma DifferentialLaneBits(red: bv16, green: bv16, blue: bv16, rgbOrder: bool, invertPairs: bool, w: bv64)
    requires w == DifferentialWord(red, green, blue, rgbOrder, invertPairs)
    ensures forall i :: 0 <= i < 10 ==> LaneBit(UnitAt(w, i), RedLane(rgbOrder), invertPairs) == SymbolBit(red, 9 - i)
    ensures forall i :: 0 <= i < 10 ==> LaneBit(UnitAt(w, i), GreenLane, invertPairs) == SymbolBit(green, 9 - i)
    ensures forall i :: 0 <= i < 10 ==> LaneBit(UnitAt(w, i), BlueLane(rgbOrder), invertPairs) == SymbolBit(blue, 9 - i)
  {
    forall i | 0 <= i < 10
      ensures LaneBit(UnitAt(w, i), RedLane(rgbOrder), invertPairs) == SymbolBit(red, 9 - i)
      ensures LaneBit(UnitAt(w, i), GreenLane, invertPairs) == SymbolBit(green, 9 - i)
      ensures LaneBit(UnitAt(w, i), BlueLane(rgbOrder), invertPairs) == SymbolBit(blue, 9 - i)
    {
      DifferentialUnitAt(red, green, blue, rgbOrder, invertPairs, i);
      UnitLaneBits(red, green, blue, rgbOrder, invertPairs, i);
    }
  }

  /** The receiver reads back the three 10-bit symbols. */
  lemma DifferentialReadBack(red: bv16, green: bv16, blue: bv16, rgbOrder: bool, invertPairs: bool)
    ensures ReadBack(DifferentialWord(red, green, blue, rgbOrder, invertPairs), rgbOrder, invertPairs)
      == (red & 0x3FF, green & 0x3FF, blue & 0x3FF)
  {
    var w := DifferentialWord(red, green, blue, rgbOrder, invertPairs);
    DifferentialLaneBits(red, green, blue, rgbOrder, invertPairs, w);
    ReadSymbolOf(w, RedLane(rgbOrder), invertPairs, red);
    ReadSymbolOf(w, GreenLane, invertPairs, green);
    ReadSymbolOf(w, BlueLane(rgbOrder), invertPairs, blue);
  }

  /** Distinct 10-bit symbol triples give distinct words. */
  lemma DifferentialInjective(red: bv16, green: bv16, blue: bv16, red': bv16, green': bv16, blue': bv16, rgbOrder: bool, invertPairs: bool)
    requires DifferentialWord(red, green, blue, rgbOrder, invertPairs) == DifferentialWord(red', green', blue', rgbOrder, invertPairs)
    ensures red & 0x3FF == red' & 0x3FF && green & 0x3FF == green' & 0x3FF && blue & 0x3FF == blue' & 0x3FF
  {
    var t := ReadBack(DifferentialWord(red, green, blue, rgbOrder, invertPairs), rgbOrder, invertPairs);
    assert t == (red & 0x3FF, green & 0x3FF, blue & 0x3FF) by {
      DifferentialReadBack(red, green, blue, rgbOrder, invertPairs);
    }
    assert t == (red' & 0x3FF, green' & 0x3FF, blue' & 0x3FF) by {
      DifferentialReadBack(red', green', blue', rgbOrder, invertPairs);
    }
  }

  /** Reading a lane with the opposite polarity gives the complemented symbol. */
  lemma ReadSymbolOtherPolarity(w: bv64, lane: nat, invertPairs: bool)
    requires lane < 3
    ensures ReadSymbol(w, lane, !invertPairs) == ReadSymbol(w, lane, invertPairs) ^ 0x3FF
  {
  }

  /**
   * A word XOR the data mask, as the palette stores next to each colour,
   * carries the complements of the three symbols.
   */
  lemma ComplementReadBack(red: bv16, green: bv16, blue: bv16, rgbOrder: bool, invertPairs: bool)
    ensures ReadBack(DifferentialWord(red, green, blue, rgbOrder, invertPairs) ^ DataMask, rgbOrder, invertPairs)
      == ((red & 0x3FF) ^ 0x3FF, (green & 0x3FF) ^ 0x3FF, (blue & 0x3FF) ^ 0x3FF)
  {
    DifferentialInverted(red, green, blue, rgbOrder, invertPairs);
    var w := DifferentialWord(red, green, blue, rgbOrder, !invertPairs);
    var t := ReadBack(w, rgbOrder, !invertPairs);
    assert t == (red & 0x3FF, green & 0x3FF, blue & 0x3FF) by {
      DifferentialReadBack(red, green, blue, rgbOrder, !invertPairs);
    }
    ReadBackOtherPolarity(w, rgbOrder, invertPairs, t);
  }

  lemma ReadBackOtherPolarity(w: bv64, rgbOrder: bool, invertPairs: bool, t: (bv16, bv16, bv16))
    requires t == ReadBack(w, rgbOrder, !invertPairs)
    ensures ReadBack(w, rgbOrder, invertPairs) == (t.0 ^ 0x3FF, t.1 ^ 0x3FF, t.2 ^ 0x3FF)
  {
    ReadSymbolOtherPolarity(w, RedLane(rgbOrder), invertPairs);
    ReadSymbolOtherPolarity(w, GreenLane, invertPairs);
    ReadSymbolOtherPolarity(w, BlueLane(rgbOrder), invertPairs);
  }
}
