/**
 * The host (Linux) renderer's pixel rules for the 80x25 text modes 0x02/0x03
 * and the planar modes 0x0D, 0x0E, 0x10 and 0x12. The renderer draws 400
 * emulated lines into a 640x480 screen (the last 80 lines show the debug
 * console) and looks every colour index up in an RGB palette; the screen is
 * modelled as the array of those colour indices, one per screen pixel.
 * These rules are the readable reference the HDMI decoder is compared with.
 */
module HostRenderer {
  import opened Planes
  import opened ScanlineLayout

  const ScreenWidth: nat := 640
  const ScreenHeight: nat := 480
  const EmulatedLines: nat := 400

  // Text modes 0x02/0x03

  /** Video memory index of the character of column c on line y; the page offset is taken modulo 2^16. */
  function HostTextIndex(inp: VideoInputs, y: nat, c: nat): nat
  {
    0x8000 + 2 * (inp.vramOffset % 0x1_0000) + (y / 16) * 160 + 2 * c
  }

  /**
   * Whether glyph line g is a cursor line: lines 2 cursorStart to 2 cursorEnd,
   * or every line outside 2 cursorEnd to 2 cursorStart when the start lies
   * below the end.
   */
  predicate HostCursorLine(cursorStart: nat, cursorEnd: nat, g: nat)
  {
    if cursorStart > cursorEnd then !(g >= 2 * cursorEnd && g <= 2 * cursorStart)
    else g >= 2 * cursorStart && g <= 2 * cursorEnd
  }

  /** Pixel t of a cell with attribute color and glyph row glyph; the glyph is never blanked. */
  function HostCellPixel(inp: VideoInputs, color: bv8, glyph: bv8, cursor: bool, t: nat): (px: bv8)
    ensures px <= 15
  {
    if cursor then Foreground(color)
    else if inp.cgaBlinking && (color >> 7) & 1 == 1 then
      (if inp.cursorBlink then BlinkBackground(color)
       else if GlyphBit(glyph, t) then Foreground(color) else BlinkBackground(color))
    else if GlyphBit(glyph, t) then Foreground(color) else Background(color)
  }

  function HostCursorAt(inp: VideoInputs, cursorStart: nat, cursorEnd: nat, y: nat, c: nat): bool
  {
    inp.cursorBlink && y / 16 == inp.cursorY && c == inp.cursorX && HostCursorLine(cursorStart, cursorEnd, y % 16)
  }

  /** The colour index of pixel t of column c on line y. */
  function HostTextPixel(inp: VideoInputs, cursorStart: nat, cursorEnd: nat, y: nat, c: nat, t: nat): bv8
  {
    var ch := LowByte(Word(inp, HostTextIndex(inp, y, c)));
    var color := LowByte(Word(inp, HostTextIndex(inp, y, c) + 1));
    var glyph := FontRow(inp, (ch as nat) * 16 + y % 16);
    HostCellPixel(inp, color, glyph, HostCursorAt(inp, cursorStart, cursorEnd, y, c), t)
  }

  /** The eight pixels of one cell, glyph bits least significant first. */
  method PutHostCell(screen: array<bv8>, out: nat, inp: VideoInputs, color: bv8, glyphRow: bv8, cursorActive: bool)
    requires out + 8 <= screen.Length
    modifies screen
    ensures forall t :: 0 <= t < 8 ==> screen[out + t] == HostCellPixel(inp, color, glyphRow, cursorActive, t)
    ensures forall j :: 0 <= j < screen.Length && !(out <= j < out + 8) ==> screen[j] == old(screen[j])
  {
    var bit := 0;
    while bit < 8
      invariant 0 <= bit <= 8
      invariant forall t :: 0 <= t < bit ==> screen[out + t] == HostCellPixel(inp, color, glyphRow, cursorActive, t)
      invariant forall j :: 0 <= j < screen.Length && !(out <= j < out + bit) ==> screen[j] == old(screen[j])
    {
      GlyphBitOrder(glyphRow, bit);
      var pixelColor: bv8;
      if cursorActive {
        pixelColor := color & 0x0F;
      } else if inp.cgaBlinking && (color >> 7) & 1 == 1 {
        if inp.cursorBlink {
          pixelColor := (color >> 4) & 0x7;
        } else {
          pixelColor := if (glyphRow >> (bit as bv8)) & 1 == 1 then color & 0x0F else (color >> 4) & 0x7;
        }
      } else {
        pixelColor := if (glyphRow >> (bit as bv8)) & 1 == 1 then color & 0x0F else color >> 4;
      }
      screen[out + bit] := pixelColor;
      bit := bit + 1;
    }
  }

  /** One screen row of a text mode: 80 cells of 8 pixels. */
  method RenderTextRow(screen: array<bv8>, inp: VideoInputs, cursorStart: nat, cursorEnd: nat, y: nat)
    requires screen.Length == ScreenWidth * ScreenHeight && y < EmulatedLines
    modifies screen
    ensures forall c, t :: 0 <= c < 80 && 0 <= t < 8 ==>
      screen[ScreenWidth * y + 8 * c + t] == HostTextPixel(inp, cursorStart, cursorEnd, y, c, t)
    ensures forall j :: 0 <= j < screen.Length && !(ScreenWidth * y <= j < ScreenWidth * y + ScreenWidth) ==> screen[j] == old(screen[j])
  {
    var yDiv16 := y / 16;
    var glyphLine := y % 16;
    var textRow := 0x8000 + 2 * (inp.vramOffset % 0x1_0000) + yDiv16 * 160;
    var pixels := ScreenWidth * y;
    var column := 0;
    while column < 80
      invariant 0 <= column <= 80 && pixels == ScreenWidth * y + 8 * column
      invariant forall c, t :: 0 <= c < column && 0 <= t < 8 ==>
        screen[ScreenWidth * y + 8 * c + t] == HostTextPixel(inp, cursorStart, cursorEnd, y, c, t)
      invariant forall j :: 0 <= j < screen.Length && !(ScreenWidth * y <= j < pixels) ==> screen[j] == old(screen[j])
    {
      var charVal := Word(inp, textRow + column * 2);
      var glyphRow := FontRow(inp, (LowByte(charVal) as nat) * 16 + glyphLine);
      var attrVal := Word(inp, textRow + column * 2 + 1);
      var color := LowByte(attrVal);
      var cursorActive := inp.cursorBlink && yDiv16 == inp.cursorY && column == inp.cursorX &&
        (if cursorStart > cursorEnd then !(glyphLine >= 2 * cursorEnd && glyphLine <= 2 * cursorStart)
         else glyphLine >= 2 * cursorStart && glyphLine <= 2 * cursorEnd);
      assert cursorActive == HostCursorAt(inp, cursorStart, cursorEnd, y, column);
      PutHostCell(screen, pixels, inp, color, glyphRow, cursorActive);
      pixels := pixels + 8;
      column := column + 1;
    }
  }

  // Planar modes 0x0D, 0x0E, 0x10, 0x12

  datatype PlanarMode =
    | Ega320x200   // mode 0x0D: 40 words a line, pixels doubled, line y shows source line y / 2
    | Ega640x200   // mode 0x0E: 80 words a line, line y shows source line y / 2
    | Ega640x350   // mode 0x10: 80 words a line, lines 0-349
    | Vga640x480   // mode 0x12: 80 words a line

  /** Lines from this one on are left as they were. */
  function RowLimit(mode: PlanarMode): nat
  {
    match mode
    case Ega320x200 => 400
    case Ega640x200 => 400
    case Ega640x350 => 350
    case Vga640x480 => 480
  }

  /** The first video memory word of line y. */
  function PlanarRow(mode: PlanarMode, y: nat): nat
  {
    match mode
    case Ega320x200 => (y / 2) * 40
    case Ega640x200 => (y / 2) * 80
    case _ => y * 80
  }

  /** The colour index of screen pixel x of line y: pixel p of a word is at plane bit 7 - p. */
  function HostPlanarPixel(mode: PlanarMode, inp: VideoInputs, y: nat, x: nat): bv8
  {
    if mode.Ega320x200? then PlanarColor(Word(inp, PlanarRow(mode, y) + x / 16), (x % 16) / 2)
    else PlanarColor(Word(inp, PlanarRow(mode, y) + x / 8), x % 8)
  }

  /**
   * The colour index of pixel p (from the left) of a word of four planes:
   * bit 7 - p of plane k, which is bit 8k + 7 - p of the word, becomes bit k.
   */
  function PlanarColor(w: bv32, p: nat): (px: bv8)
    requires p < 8
    ensures px <= 15
  {
    match p
    case 0 => (((w >> 7) & 1) | (((w >> 15) & 1) << 1) | (((w >> 23) & 1) << 2) | (((w >> 31) & 1) << 3)) as bv8
    case 1 => (((w >> 6) & 1) | (((w >> 14) & 1) << 1) | (((w >> 22) & 1) << 2) | (((w >> 30) & 1) << 3)) as bv8
    case 2 => (((w >> 5) & 1) | (((w >> 13) & 1) << 1) | (((w >> 21) & 1) << 2) | (((w >> 29) & 1) << 3)) as bv8
    case 3 => (((w >> 4) & 1) | (((w >> 12) & 1) << 1) | (((w >> 20) & 1) << 2) | (((w >> 28) & 1) << 3)) as bv8
    case 4 => (((w >> 3) & 1) | (((w >> 11) & 1) << 1) | (((w >> 19) & 1) << 2) | (((w >> 27) & 1) << 3)) as bv8
    case 5 => (((w >> 2) & 1) | (((w >> 10) & 1) << 1) | (((w >> 18) & 1) << 2) | (((w >> 26) & 1) << 3)) as bv8
    case 6 => (((w >> 1) & 1) | (((w >> 9) & 1) << 1) | (((w >> 17) & 1) << 2) | (((w >> 25) & 1) << 3)) as bv8
    case _ => (((w >> 0) & 1) | (((w >> 8) & 1) << 1) | (((w >> 16) & 1) << 2) | (((w >> 24) & 1) << 3)) as bv8
  }

  /** The colour index of pixel p is the reference gather at plane bit 7 - p. */
  lemma PlanarColorGathers(eightPixels: bv32, p: nat)
    requires p < 8
    ensures PlanarColor(eightPixels, p) == GatherPixel(eightPixels, PixelBit(p)) as bv8
  {
    if p == 0 {
    } else if p == 1 {
    } else if p == 2 {
    } else if p == 3 {
    } else if p == 4 {
    } else if p == 5 {
    } else if p == 6 {
    } else {
    }
  }

  /**
   * The colour index of pixel k, computed as the host does from the word's
   * four plane bytes at plane bit 7 - k.
   */
  method ColorIndex(eightPixels: bv32, plane0: bv32, plane1: bv32, plane2: bv32, plane3: bv32, k: nat) returns (colorIndex: bv8)
    requires k < 8
    requires plane0 == eightPixels & 0xFF && plane1 == (eightPixels >> 8) & 0xFF
    requires plane2 == (eightPixels >> 16) & 0xFF && plane3 == (eightPixels >> 24) & 0xFF
    ensures colorIndex == PlanarColor(eightPixels, k)
  {
    var bit := PixelBit(k);
    colorIndex := (((plane0 >> bit) & 1) | (((plane1 >> bit) & 1) << 1)
      | (((plane2 >> bit) & 1) << 2) | (((plane3 >> bit) & 1) << 3)) as bv8;
    if k == 0 {
      assert bit == 7;
    } else if k == 1 {
      assert bit == 6;
    } else if k == 2 {
      assert bit == 5;
    } else if k == 3 {
      assert bit == 4;
    } else if k == 4 {
      assert bit == 3;
    } else if k == 5 {
      assert bit == 2;
    } else if k == 6 {
      assert bit == 1;
    } else {
      assert bit == 0;
    }
  }

  /** The eight pixels of one word of four planes, from plane bit 7 down to bit 0. */
  method PutPlanarWord(screen: array<bv8>, out: nat, eightPixels: bv32)
    requires out + 8 <= screen.Length
    modifies screen
    ensures forall j :: out <= j < out + 8 ==> screen[j] == PlanarColor(eightPixels, j - out)
    ensures forall j :: 0 <= j < screen.Length && !(out <= j < out + 8) ==> screen[j] == old(screen[j])
  {
    var plane0 := eightPixels & 0xFF;
    var plane1 := (eightPixels >> 8) & 0xFF;
    var plane2 := (eightPixels >> 16) & 0xFF;
    var plane3 := (eightPixels >> 24) & 0xFF;
    var k := 0;
    while k < 8
      invariant 0 <= k <= 8
      invariant forall j :: out <= j < out + k ==> screen[j] == PlanarColor(eightPixels, j - out)
      invariant forall j :: 0 <= j < screen.Length && !(out <= j < out + k) ==> screen[j] == old(screen[j])
    {
      var colorIndex := ColorIndex(eightPixels, plane0, plane1, plane2, plane3, k);
      screen[out + k] := colorIndex;
      k := k + 1;
    }
  }

  /** The same, each pixel twice (mode 0x0D). */
  method PutPlanarWordDoubled(screen: array<bv8>, out: nat, eightPixels: bv32)
    requires out + 16 <= screen.Length
    modifies screen
    ensures forall j :: out <= j < out + 16 ==> screen[j] == PlanarColor(eightPixels, (j - out) / 2)
    ensures forall j :: 0 <= j < screen.Length && !(out <= j < out + 16) ==> screen[j] == old(screen[j])
  {
    var plane0 := eightPixels & 0xFF;
    var plane1 := (eightPixels >> 8) & 0xFF;
    var plane2 := (eightPixels >> 16) & 0xFF;
    var plane3 := (eightPixels >> 24) & 0xFF;
    var k := 0;
    while k < 8
      invariant 0 <= k <= 8
      invariant forall t :: 0 <= t < k ==> screen[out + 2 * t] == PlanarColor(eightPixels, t) && screen[out + 2 * t + 1] == PlanarColor(eightPixels, t)
      invariant forall j :: 0 <= j < screen.Length && !(out <= j < out + 2 * k) ==> screen[j] == old(screen[j])
    {
      var colorIndex := ColorIndex(eightPixels, plane0, plane1, plane2, plane3, k);
      screen[out + 2 * k] := colorIndex;
      screen[out + 2 * k + 1] := colorIndex;
      k := k + 1;
    }
    forall j | out <= j < out + 16
      ensures screen[j] == PlanarColor(eightPixels, (j - out) / 2)
    {
      var t := (j - out) / 2;
      assert j == out + 2 * t || j == out + 2 * t + 1;
    }
  }

  /**
   * One screen row of a planar mode: 40 words of 16 pixels in mode 0x0D, 80
   * words of 8 pixels otherwise; rows from the mode's limit on are left as
   * they were.
   */
  method RenderPlanarRow(screen: array<bv8>, mode: PlanarMode, inp: VideoInputs, y: nat)
    requires screen.Length == ScreenWidth * ScreenHeight && y < EmulatedLines
    modifies screen
    ensures y >= RowLimit(mode) ==> screen[..] == old(screen[..])
    ensures y < RowLimit(mode) ==>
      forall j :: ScreenWidth * y <= j < ScreenWidth * y + ScreenWidth ==> screen[j] == HostPlanarPixel(mode, inp, y, j - ScreenWidth * y)
    ensures forall j :: 0 <= j < screen.Length && !(ScreenWidth * y <= j < ScreenWidth * y + ScreenWidth) ==> screen[j] == old(screen[j])
  {
    if y >= RowLimit(mode) {
      return;
    }
    var doubled := mode.Ega320x200?;
    var words := if doubled then 40 else 80;
    var unit := if doubled then 16 else 8;
    var vramRow := PlanarRow(mode, y);
    var rowStart := ScreenWidth * y;
    var pixels := rowStart;
    var i := 0;
    while i < words
      invariant 0 <= i <= words && pixels == rowStart + unit * i
      invariant forall j :: rowStart <= j < pixels ==> screen[j] == HostPlanarPixel(mode, inp, y, j - rowStart)
      invariant forall j :: 0 <= j < screen.Length && !(rowStart <= j < pixels) ==> screen[j] == old(screen[j])
    {
      if doubled {
        PutPlanarWordDoubled(screen, pixels, Word(inp, vramRow + i));
        forall j | pixels <= j < pixels + 16
          ensures screen[j] == HostPlanarPixel(mode, inp, y, j - rowStart)
        {
          assert (j - rowStart) / 16 == i && (j - rowStart) % 16 == j - pixels;
        }
      } else {
        PutPlanarWord(screen, pixels, Word(inp, vramRow + i));
        forall j | pixels <= j < pixels + 8
          ensures screen[j] == HostPlanarPixel(mode, inp, y, j - rowStart)
        {
          assert (j - rowStart) / 8 == i && (j - rowStart) % 8 == j - pixels;
        }
      }
      pixels := pixels + unit;
      i := i + 1;
    }
  }

  // Agreement with the HDMI decoder

  /**
   * In EGA mode 0x0D, HDMI line 40 + y shows host screen row y: active byte x
   * of the HDMI line is the host's colour index of pixel x.
   */
  lemma EgaMatchesHost(inp: VideoInputs, y: nat, x: nat, before: bv8)
    requires y < EmulatedLines && x < ScreenWidth
    ensures LineByte(Ega320x200x16x4, true, inp, TextTop + y, ActiveStart + x, before) == HostPlanarPixel(Ega320x200, inp, y, x)
  {
    var w := Word(inp, (y / 2) * 40 + x / 16);
    assert SourceLine(Ega320x200x16x4, TextTop + y) == y / 2;
    EgaPixelGather(w, (x % 16) / 2);
    PlanarColorGathers(w, (x % 16) / 2);
  }

  /**
   * In the 80x25 text modes, HDMI line 40 + y shows host screen row y when
   * the host's cursor covers glyph lines 14 and 15 only (start 7, end 8 or
   * more), the page offset is below 2^16, and no blinking cell is blanked by
   * the driver while the host still draws its glyph (blink attribute enabled,
   * or blink phase off).
   */
  lemma TextMatchesHost(mode: GraphicsMode, inp: VideoInputs, cursorEnd: nat, y: nat, x: nat, before: bv8)
    requires Is640x400(mode)
    requires y < EmulatedLines && x < ScreenWidth
    requires cursorEnd >= 8 && inp.vramOffset < 0x1_0000
    requires inp.cgaBlinking || !inp.cursorBlink
    ensures LineByte(mode, true, inp, TextTop + y, ActiveStart + x, before) == HostTextPixel(inp, 7, cursorEnd, y, x / 8, x % 8)
  {
    assert SourceLine(mode, TextTop + y) == y;
    assert LineByte(mode, true, inp, TextTop + y, ActiveStart + x, before) == TextByte(inp, y, x / 8, x % 8);
    CellMatchesHost(inp, cursorEnd, y, x / 8, x % 8);
  }

  lemma CellMatchesHost(inp: VideoInputs, cursorEnd: nat, y: nat, c: nat, t: nat)
    requires cursorEnd >= 8 && inp.vramOffset < 0x1_0000
    requires inp.cgaBlinking || !inp.cursorBlink
    ensures TextByte(inp, y, c, t) == HostTextPixel(inp, 7, cursorEnd, y, c, t)
  {
    assert HostTextIndex(inp, y, c) == TextIndex(inp, y, c);
    assert HostCursorLine(7, cursorEnd, y % 16) == (y % 16 >= 14);
    var cell := CellAt(inp, y, c);
    assert (cell.attr >> 7) & 1 == 1 <==> cell.attr & 0x80 != 0;
  }

  /** With the blink attribute disabled and blink on, the host draws the glyph of a blinking cell that the HDMI driver blanks. */
  lemma TextBlankingDiffers(inp: VideoInputs, y: nat, x: nat, before: bv8)
    requires y < EmulatedLines && x < ScreenWidth
    requires inp.vramOffset < 0x1_0000 && inp.cursorBlink && !inp.cgaBlinking
    requires !(y / 16 == inp.cursorY && x / 8 == inp.cursorX)
    requires LowByte(Word(inp, TextIndex(inp, y, x / 8) + 1)) & 0x80 != 0
    ensures LineByte(TextMode80x25Color, true, inp, TextTop + y, ActiveStart + x, before) == Background(LowByte(Word(inp, TextIndex(inp, y, x / 8) + 1)))
    ensures HostTextPixel(inp, 7, 8, y, x / 8, x % 8) == if GlyphBit(FontRow(inp, (LowByte(Word(inp, TextIndex(inp, y, x / 8))) as nat) * 16 + y % 16), x % 8)
      then Foreground(LowByte(Word(inp, TextIndex(inp, y, x / 8) + 1)))
      else Background(LowByte(Word(inp, TextIndex(inp, y, x / 8) + 1)))
  {
    assert SourceLine(TextMode80x25Color, TextTop + y) == y;
    assert HostTextIndex(inp, y, x / 8) == TextIndex(inp, y, x / 8);
    ShiftedZero(x % 8);
  }
}
