/**
 * The TMDS palette cache of the HDMI driver: 256 entries of two 64-bit
 * serializer words each, of which the palette DMA streams only the first.
 * Entries 0-250 hold colours, entries 251-254 hold the four DVI
 * control-period characters the scanline buffers use for blanking and sync,
 * and entry 255 is never written.
 */
module Palette {
  import opened Tmds
  import opened Serializer

  /** First palette index reserved for control characters. */
  const CtrlBaseIndex: nat := 251
  const Entries: nat := 256

  /** The four control-period symbols of DVI 1.0, section 3.3.2, for (HSYNC, VSYNC) = (0,0), (1,0), (0,1), (1,1). */
  const CtrlSymbol0: bv16 := 0x354
  const CtrlSymbol1: bv16 := 0x0AB
  const CtrlSymbol2: bv16 := 0x154
  const CtrlSymbol3: bv16 := 0x2AB

  /**
   * The blue-channel control symbol stored at a reserved index; red and green
   * always carry symbol 0. 251: H active, V inactive; 252: neither; 253: both;
   * 254: V active only.
   */
  function ControlSymbol(index: nat): bv16
    requires CtrlBaseIndex <= index < CtrlBaseIndex + 4
  {
    match index - CtrlBaseIndex
    case 0 => CtrlSymbol2
    case 1 => CtrlSymbol3
    case 2 => CtrlSymbol0
    case _ => CtrlSymbol1
  }

  /** The control symbol DVI 1.0 assigns to the blue channel's two control bits, C0 = HSYNC and C1 = VSYNC. */
  function DviControlSymbol(hsync: bool, vsync: bool): bv16
  {
    if !vsync && !hsync then 0x354
    else if !vsync then 0x0AB
    else if !hsync then 0x154
    else 0x2AB
  }

  /** The sync levels each reserved index stands for (0 is the active level of the negative sync pulses). */
  function HSyncLevel(index: nat): bool { index == CtrlBaseIndex + 1 || index == CtrlBaseIndex + 3 }
  function VSyncLevel(index: nat): bool { index == CtrlBaseIndex || index == CtrlBaseIndex + 1 }

  /** The serializer word stored (twice) at a reserved index. */
  function ControlWord(index: nat, rgbOrder: bool, invertPairs: bool): bv64
    requires CtrlBaseIndex <= index < CtrlBaseIndex + 4
  {
    DifferentialWord(CtrlSymbol0, CtrlSymbol0, ControlSymbol(index), rgbOrder, invertPairs)
  }

  /** The 8-bit components of a 0xRRGGBB colour. */
  function Red(color: bv32): bv8 { ((color >> 16) & 0xFF) as bv8 }
  function Green(color: bv32): bv8 { ((color >> 8) & 0xFF) as bv8 }
  function Blue(color: bv32): bv8 { (color & 0xFF) as bv8 }

  /** The first word of a colour entry: the three channel symbols, serialized. */
  function ColorWord(color: bv32, rgbOrder: bool, invertPairs: bool): bv64
  {
    DifferentialWord(TmdsCode(Red(color)), TmdsCode(Green(color)), TmdsCode(Blue(color)), rgbOrder, invertPairs)
  }

  /** The second word of a colour entry as the driver stores it: the first with all 60 data bits flipped. The palette DMA skips it. */
  function SecondWord(color: bv32, rgbOrder: bool, invertPairs: bool): bv64
  {
    Complemented(ColorWord(color, rgbOrder, invertPairs))
  }

  /** All 60 data bits of a word flipped, the two gaps left clear. */
  function Complemented(w: bv64): bv64
  {
    w ^ DataMask
  }

  /** The palette memory, as 64-bit words; the pin-order flags are fixed when the firmware is built. */
  class PaletteCache {
    var words: array<bv64>
    const rgbOrder: bool
    const invertPairs: bool

    ghost predicate Valid()
      reads this
    {
      words.Length == 2 * Entries
    }

    /** The buffer is a zero-initialised static. */
    constructor (rgbOrder: bool, invertPairs: bool)
      ensures Valid() && fresh(words)
      ensures this.rgbOrder == rgbOrder && this.invertPairs == invertPairs
      ensures forall k :: 0 <= k < words.Length ==> words[k] == 0
    {
      this.rgbOrder := rgbOrder;
      this.invertPairs := invertPairs;
      words := new bv64[2 * Entries](_ => 0);
    }

    /**
     * The control-character part of the output set-up: both words of each of
     * entries 251-254 get that entry's control word; nothing else changes.
     */
    method FillControlSymbols()
      requires Valid()
      modifies words
      ensures Valid()
      ensures forall k :: 0 <= k < 2 * CtrlBaseIndex ==> words[k] == old(words[k])
      ensures forall k :: 2 * CtrlBaseIndex <= k < 2 * (CtrlBaseIndex + 4) ==> words[k] == ControlWord(k / 2, rgbOrder, invertPairs)
      ensures words[2 * Entries - 2] == old(words[2 * Entries - 2]) && words[2 * Entries - 1] == old(words[2 * Entries - 1])
    {
      forall k | 2 * CtrlBaseIndex <= k < 2 * (CtrlBaseIndex + 4) {
        words[k] := ControlWord(k / 2, rgbOrder, invertPairs);
      }
    }

    /**
     * Caches a 0xRRGGBB colour at an index below 251; reserved indices are
     * left alone. Only the entry's two words change.
     */
    method SetPalette(index: bv8, color: bv32)
      requires Valid()
      modifies words
      ensures Valid()
      ensures index as nat >= CtrlBaseIndex ==> words[..] == old(words[..])
      ensures index as nat < CtrlBaseIndex ==>
        words[..] == old(words[..])[2 * index as nat := ColorWord(color, rgbOrder, invertPairs)]
                                   [2 * index as nat + 1 := SecondWord(color, rgbOrder, invertPairs)]
    {
      if index as nat >= CtrlBaseIndex {
        return;
      }
      var rc := TmdsEncode(Red(color));
      var gc := TmdsEncode(Green(color));
      var bc := TmdsEncode(Blue(color));
      var first := GenerateDifferentialData(rc, gc, bc, rgbOrder, invertPairs);
      var second := Complemented(first);
      assert first == ColorWord(color, rgbOrder, invertPairs);
      words[2 * index as nat] := first;
      words[2 * index as nat + 1] := second;
    }

    /** The background colour goes to index 255, which SetPalette refuses: nothing changes. */
    method SetBgColor(color: bv32)
      requires Valid()
      modifies words
      ensures Valid()
      ensures words[..] == old(words[..])
    {
      SetPalette(255, color);
    }
  }

  // Properties of the stored words

  /** Each reserved index holds the DVI control symbol for its sync levels, and red and green hold (0, 0). */
  lemma ControlSymbolLevels(index: nat)
    requires CtrlBaseIndex <= index < CtrlBaseIndex + 4
    ensures ControlSymbol(index) == DviControlSymbol(HSyncLevel(index), VSyncLevel(index))
    ensures CtrlSymbol0 == DviControlSymbol(false, false)
  {
  }

  /** A receiver reads the three control symbols back from a control word. */
  lemma ControlWordReadBack(index: nat, rgbOrder: bool, invertPairs: bool)
    requires CtrlBaseIndex <= index < CtrlBaseIndex + 4
    ensures ReadBack(ControlWord(index, rgbOrder, invertPairs), rgbOrder, invertPairs)
      == (CtrlSymbol0, CtrlSymbol0, ControlSymbol(index))
  {
    DifferentialReadBack(CtrlSymbol0, CtrlSymbol0, ControlSymbol(index), rgbOrder, invertPairs);
  }

  /** A receiver decodes the first word of an entry to the colour's three components. */
  lemma ColorWordDecodes(color: bv32, rgbOrder: bool, invertPairs: bool)
    ensures var t := ReadBack(ColorWord(color, rgbOrder, invertPairs), rgbOrder, invertPairs);
      TmdsDecode(t.0) == Red(color) && TmdsDecode(t.1) == Green(color) && TmdsDecode(t.2) == Blue(color)
  {
    CodeDecodes(Red(color));
    CodeDecodes(Green(color));
    CodeDecodes(Blue(color));
    WordDecodes(TmdsCode(Red(color)), TmdsCode(Green(color)), TmdsCode(Blue(color)), Red(color), Green(color), Blue(color), rgbOrder, invertPairs);
  }

  /** A word built from three symbols decodes as the symbols do. */
  lemma WordDecodes(rs: bv16, gs: bv16, bs: bv16, r: bv8, g: bv8, b: bv8, rgbOrder: bool, invertPairs: bool)
    requires TmdsDecode(rs & 0x3FF) == r && TmdsDecode(gs & 0x3FF) == g && TmdsDecode(bs & 0x3FF) == b
    ensures var t := ReadBack(DifferentialWord(rs, gs, bs, rgbOrder, invertPairs), rgbOrder, invertPairs);
      TmdsDecode(t.0) == r && TmdsDecode(t.1) == g && TmdsDecode(t.2) == b
  {
    DifferentialReadBack(rs, gs, bs, rgbOrder, invertPairs);
  }

  /** Two colours share a first word only if their 24 colour bits agree. */
  lemma ColorWordInjective(c1: bv32, c2: bv32, rgbOrder: bool, invertPairs: bool)
    requires ColorWord(c1, rgbOrder, invertPairs) == ColorWord(c2, rgbOrder, invertPairs)
    ensures c1 & 0xFF_FFFF == c2 & 0xFF_FFFF
  {
    ColorWordDecodes(c1, rgbOrder, invertPairs);
    ColorWordDecodes(c2, rgbOrder, invertPairs);
    ComponentsDetermineColor(c1, c2);
  }

  lemma ComponentsDetermineColor(c1: bv32, c2: bv32)
    requires Red(c1) == Red(c2) && Green(c1) == Green(c2) && Blue(c1) == Blue(c2)
    ensures c1 & 0xFF_FFFF == c2 & 0xFF_FFFF
  {
  }

  /** No data symbol has both bit 8 and bit 9 set, which control symbol 0 has. */
  lemma DataSymbolNotCtrl0(c: bv8)
    ensures TmdsCode(c) & 0x3FF != CtrlSymbol0
  {
    TmdsCodeLayout(c);
  }

  /** The four control words differ from each other and from the first word of every colour. */
  lemma ControlWordsDistinct(rgbOrder: bool, invertPairs: bool, i: nat, j: nat, color: bv32)
    requires CtrlBaseIndex <= i < CtrlBaseIndex + 4 && CtrlBaseIndex <= j < CtrlBaseIndex + 4
    ensures i != j ==> ControlWord(i, rgbOrder, invertPairs) != ControlWord(j, rgbOrder, invertPairs)
    ensures ControlWord(i, rgbOrder, invertPairs) != ColorWord(color, rgbOrder, invertPairs)
  {
    if i != j && ControlWord(i, rgbOrder, invertPairs) == ControlWord(j, rgbOrder, invertPairs) {
      DifferentialInjective(CtrlSymbol0, CtrlSymbol0, ControlSymbol(i), CtrlSymbol0, CtrlSymbol0, ControlSymbol(j), rgbOrder, invertPairs);
      assert false;
    }
    if ControlWord(i, rgbOrder, invertPairs) == ColorWord(color, rgbOrder, invertPairs) {
      DifferentialInjective(CtrlSymbol0, CtrlSymbol0, ControlSymbol(i),
        TmdsCode(Red(color)), TmdsCode(Green(color)), TmdsCode(Blue(color)), rgbOrder, invertPairs);
      DataSymbolNotCtrl0(Red(color));
      assert false;
    }
  }

  /**
   * The second word of an entry, which is stored but never streamed, would
   * decode to every component with bits 1-7 flipped: flipping bit 8 of a
   * symbol switches the decoder from the XOR chain to the XNOR chain.
   */
  lemma SecondWordDecodes(color: bv32, rgbOrder: bool, invertPairs: bool)
    ensures var t := ReadBack(SecondWord(color, rgbOrder, invertPairs), rgbOrder, invertPairs);
      TmdsDecode(t.0) == Red(color) ^ 0xFE && TmdsDecode(t.1) == Green(color) ^ 0xFE && TmdsDecode(t.2) == Blue(color) ^ 0xFE
  {
    CodeDecodes(Red(color));
    CodeDecodes(Green(color));
    CodeDecodes(Blue(color));
    ComplementedWordDecodes(TmdsCode(Red(color)), TmdsCode(Green(color)), TmdsCode(Blue(color)),
      Red(color) ^ 0xFE, Green(color) ^ 0xFE, Blue(color) ^ 0xFE, rgbOrder, invertPairs);
  }

  /** The complement of a word built from three symbols decodes as the complemented symbols do. */
  lemma ComplementedWordDecodes(rs: bv16, gs: bv16, bs: bv16, r: bv8, g: bv8, b: bv8, rgbOrder: bool, invertPairs: bool)
    requires TmdsDecode((rs & 0x3FF) ^ 0x3FF) == r && TmdsDecode((gs & 0x3FF) ^ 0x3FF) == g && TmdsDecode((bs & 0x3FF) ^ 0x3FF) == b
    ensures var t := ReadBack(Complemented(DifferentialWord(rs, gs, bs, rgbOrder, invertPairs)), rgbOrder, invertPairs);
      TmdsDecode(t.0) == r && TmdsDecode(t.1) == g && TmdsDecode(t.2) == b
  {
    ComplementReadBack(rs, gs, bs, rgbOrder, invertPairs);
  }
}
