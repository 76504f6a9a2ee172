/**
 * What one regenerated scanline buffer holds. A line is 800 palette indices
 * for the 640x480 timing: 16 front porch, 96 horizontal sync, 48 back porch
 * and 640 active pixels. The active part is decoded from the emulator's
 * video memory according to the graphics mode; the 400 source lines of the
 * 80x25 text modes and the 200 doubled lines of the 320x200 modes sit at
 * lines 40-439 and lines outside that band are black.
 */
module ScanlineLayout {
  import opened Planes
  import Palette

  const FrontPorch: nat := 16
  const SyncPulse: nat := 96
  const BackPorch: nat := 48
  const ActiveStart: nat := 160
  const ActiveWidth: nat := 640
  const LineLength: nat := 800
  const TotalLines: nat := 525
  const VisibleLines: nat := 480
  const VsyncStart: nat := 490
  const VsyncEnd: nat := 492
  const TextTop: nat := 40
  const TextBottom: nat := 440
  const TextColumns: nat := 80

  /** Palette indices of the four control characters (see Palette.ControlSymbol). */
  const HActiveVInactive: bv8 := 251
  const HInactiveVInactive: bv8 := 252
  const HActiveVActive: bv8 := 253
  const HInactiveVActive: bv8 := 254

  datatype GraphicsMode =
    | TextMode80x25Color
    | TextMode80x25Bw
    | Cga320x200x4
    | Cga320x200x4Bw
    | Composite160x200x16Force
    | Composite160x200x16
    | Tga160x200x16
    | Tga320x200x16
    | Ega320x200x16x4
    | Vga320x200x256x4
    | Vga320x200x256
    | OtherMode   // any mode the handler has no case for: decoded as Vga320x200x256

  /** The two 80x25 text modes have 400 source lines and are not line-doubled. */
  predicate Is640x400(mode: GraphicsMode)
  {
    mode.TextMode80x25Color? || mode.TextMode80x25Bw?
  }

  /**
   * The state outside the driver that a scanline is decoded from: a snapshot
   * of video memory (32-bit words, one byte of data each in most modes), the
   * text and CGA page offset, the Tandy page offset, the cursor, and the blink
   * flags. The font is the 256 x 16 glyph table.
   */
  datatype VideoInputs = VideoInputs(
    vram: seq<bv32>,
    vramOffset: nat,
    tgaOffset: nat,
    cursorX: int,
    cursorY: int,
    cursorBlink: bool,
    cgaBlinking: bool,
    font: seq<bv8>)

  /** A word of video memory; the snapshot reads as 0 past its end. */
  function Word(inp: VideoInputs, i: nat): bv32
  {
    if i < |inp.vram| then inp.vram[i] else 0
  }

  function LowByte(w: bv32): bv8
  {
    (w & 0xFF) as bv8
  }

  function FontRow(inp: VideoInputs, i: nat): bv8
  {
    if i < |inp.font| then inp.font[i] else 0
  }

  // Scanline counter and status port

  /** The line the handler prepares after line cs. */
  function NextScanline(cs: nat): (next: nat)
    ensures cs < TotalLines ==> next == (cs + 1) % TotalLines
  {
    if cs >= TotalLines - 1 then 0 else cs + 1
  }

  /** The CGA status register value for a line: bit 3 in vertical retrace, bit 0 on odd lines. */
  function Port3DA(line: nat): (p: bv8)
    ensures (p & 8 != 0) == (line >= VsyncStart)
    ensures (p & 1 != 0) == (line % 2 == 1)
    ensures p & 0xF6 == 0
  {
    (if line >= VsyncStart then 8 else 0) | (if line % 2 == 1 then 1 else 0)
  }

  /** Whether a line gets a new buffer: every line in the 80x25 text modes, even lines otherwise. */
  predicate Regenerates(mode: GraphicsMode, line: nat)
  {
    Is640x400(mode) || line % 2 == 0
  }

  // Line coordinates

  predicate InTextArea(line: nat)
  {
    TextTop <= line < TextBottom
  }

  /** The source line shown on a display line. */
  function SourceLine(mode: GraphicsMode, line: nat): (y: nat)
    ensures InTextArea(line) && Is640x400(mode) ==> y == line - TextTop && y < 400
    ensures InTextArea(line) && !Is640x400(mode) ==> y == (line - TextTop) / 2 && y < 200
  {
    var yRaw := if InTextArea(line) then line - TextTop else 0;
    if Is640x400(mode) then yRaw else yRaw / 2
  }

  // Text modes

  /** One character cell as the text decoder sees it, for glyph line y % 16. */
  datatype TextCell = TextCell(attr: bv8, glyph: bv8, cursor: bool)

  /** Video memory index of the character of column c on source line y; the attribute follows it. */
  function TextIndex(inp: VideoInputs, y: nat, c: nat): nat
  {
    0x8000 + 2 * inp.vramOffset + (y / 16) * 160 + 2 * c
  }

  function CellAt(inp: VideoInputs, y: nat, c: nat): (cell: TextCell)
    ensures cell.cursor ==> y % 16 >= 14 && inp.cursorBlink
    ensures cell.attr & 0x80 != 0 && inp.cursorBlink ==> cell.glyph == 0
  {
    var ch := LowByte(Word(inp, TextIndex(inp, y, c)));
    var attr := LowByte(Word(inp, TextIndex(inp, y, c) + 1));
    var row := FontRow(inp, (ch as nat) * 16 + y % 16);
    var glyph := if attr & 0x80 != 0 && inp.cursorBlink then 0 else row;
    var cursor := inp.cursorBlink && y / 16 == inp.cursorY && c == inp.cursorX && y % 16 >= 14;
    TextCell(attr, glyph, cursor)
  }

  /** The glyph shifted right t times, as the decoder consumes it, least significant bit first. */
  function Shifted(glyph: bv8, t: nat): bv8
  {
    if t == 0 then glyph else Shifted(glyph, t - 1) >> 1
  }

  predicate GlyphBit(glyph: bv8, t: nat)
  {
    Shifted(glyph, t) & 1 == 1
  }

  function Foreground(attr: bv8): bv8 { attr & 0xF }
  function Background(attr: bv8): bv8 { attr >> 4 }
  function BlinkBackground(attr: bv8): bv8 { (attr >> 4) & 7 }

  /** Pixel t of a cell: the cursor block, a blinking cell, or the glyph in the attribute's colours. */
  function CellPixel(inp: VideoInputs, cell: TextCell, t: nat): (px: bv8)
    ensures px <= 15
  {
    if cell.cursor then Foreground(cell.attr)
    else if inp.cgaBlinking && cell.attr & 0x80 != 0 then
      (if inp.cursorBlink then BlinkBackground(cell.attr)
       else if GlyphBit(cell.glyph, t) then Foreground(cell.attr) else BlinkBackground(cell.attr))
    else if GlyphBit(cell.glyph, t) then Foreground(cell.attr) else Background(cell.attr)
  }

  /** Active byte 8c + t of a text line. */
  function TextByte(inp: VideoInputs, y: nat, c: nat, t: nat): bv8
  {
    CellPixel(inp, CellAt(inp, y, c), t)
  }

  // Graphics modes; each VRAM word supplies a fixed number of output bytes (a unit)

  /** CGA 320x200x4: two interleaved banks, one byte of four 2-bit pixels per word, each pixel twice. */
  function CgaIndex(inp: VideoInputs, y: nat, u: nat): nat
  {
    0x8000 + 2 * inp.vramOffset + (y / 2) * 80 + (y % 2) * 8192 + u
  }

  function CgaPixel(v: bv8, p: nat): (px: bv8)
    requires p < 4
    ensures px <= 3
  {
    match p
    case 0 => v >> 6
    case 1 => (v >> 4) & 3
    case 2 => (v >> 2) & 3
    case _ => v & 3
  }

  function CgaByte(inp: VideoInputs, y: nat, u: nat, t: nat): bv8
    requires t < 8
  {
    CgaPixel(LowByte(Word(inp, CgaIndex(inp, y, u))), t / 2)
  }

  /** Tandy 160x200x16 and composite: two interleaved banks, one byte of two 4-bit pixels per word. */
  function Tga160Index(inp: VideoInputs, y: nat, u: nat): nat
  {
    inp.tgaOffset + (y / 2) * 80 + (y % 2) * 8192 + u
  }

  /** Tandy 320x200x16: four interleaved banks of 160 bytes a line. */
  function Tga320Index(inp: VideoInputs, y: nat, u: nat): nat
  {
    inp.tgaOffset + (y % 4) * 8192 + (y / 4) * 160 + u
  }

  /** The two 4-bit pixels of a byte, high nibble first, each twice. */
  function NibblePixel(v: bv8, t: nat): (px: bv8)
    requires t < 4
    ensures px <= 15
  {
    if t < 2 then v >> 4 else v & 15
  }

  function Tga160Byte(inp: VideoInputs, y: nat, u: nat, t: nat): bv8
    requires t < 4
  {
    NibblePixel(LowByte(Word(inp, Tga160Index(inp, y, u))), t)
  }

  function Tga320Byte(inp: VideoInputs, y: nat, u: nat, t: nat): bv8
    requires t < 4
  {
    NibblePixel(LowByte(Word(inp, Tga320Index(inp, y, u))), t)
  }

  /** EGA 320x200x16: 40 words of four planes a line, pixel p of a word as nibble 7 - p of the packed word. */
  function EgaPixel(packed: bv32, p: nat): (px: bv8)
    requires p < 8
    ensures px <= 15
  {
    match p
    case 0 => (packed >> 28) as bv8
    case 1 => ((packed >> 24) & 0xF) as bv8
    case 2 => ((packed >> 20) & 0xF) as bv8
    case 3 => ((packed >> 16) & 0xF) as bv8
    case 4 => ((packed >> 12) & 0xF) as bv8
    case 5 => ((packed >> 8) & 0xF) as bv8
    case 6 => ((packed >> 4) & 0xF) as bv8
    case _ => (packed & 0xF) as bv8
  }

  function EgaByte(inp: VideoInputs, y: nat, u: nat, t: nat): bv8
    requires t < 16
  {
    EgaPixel(Pack8(Word(inp, y * 40 + u)), t / 2)
  }

  /** VGA 320x200x256 unchained: the four bytes of a word, low byte first, each twice, not clamped. */
  function VgaX4Byte(inp: VideoInputs, y: nat, u: nat, t: nat): bv8
    requires t < 8
  {
    Plane(Word(inp, y * 80 + u), t / 2) as bv8
  }

  /** VGA 320x200x256: one byte a word, twice; indices from 251 on would be control characters and show as 0. */
  function VgaPixel(v: bv8): (px: bv8)
    ensures px < HActiveVInactive
    ensures v < HActiveVInactive ==> px == v
  {
    if v >= HActiveVInactive then 0 else v
  }

  function VgaByte(inp: VideoInputs, y: nat, u: nat): bv8
  {
    VgaPixel(LowByte(Word(inp, y * 320 + u)))
  }

  // The whole line

  /** Output bytes per video memory word, for each mode. */
  function UnitWidth(mode: GraphicsMode): nat
  {
    match mode
    case TextMode80x25Color => 8
    case TextMode80x25Bw => 8
    case Cga320x200x4 => 8
    case Cga320x200x4Bw => 8
    case Composite160x200x16Force => 4
    case Composite160x200x16 => 4
    case Tga160x200x16 => 4
    case Tga320x200x16 => 4
    case Ega320x200x16x4 => 16
    case Vga320x200x256x4 => 8
    case _ => 2
  }

  /** How many of the 640 active bytes a mode writes inside the text area. */
  function ActiveWritten(mode: GraphicsMode): nat
  {
    if mode.Composite160x200x16Force? || mode.Composite160x200x16? || mode.Tga160x200x16? then 320 else ActiveWidth
  }

  /** Active byte k of a line inside the text area, as unit k / w, offset k % w. */
  function ModeByte(mode: GraphicsMode, inp: VideoInputs, y: nat, k: nat): (b: bv8)
    ensures mode.Cga320x200x4? || mode.Cga320x200x4Bw? ==> b <= 3
    ensures !mode.Vga320x200x256x4? && !mode.Vga320x200x256? && !mode.OtherMode? ==> b <= 15
    ensures mode.Vga320x200x256? || mode.OtherMode? ==> b < HActiveVInactive
  {
    var w := UnitWidth(mode);
    match mode
    case TextMode80x25Color => TextByte(inp, y, k / w, k % w)
    case TextMode80x25Bw => TextByte(inp, y, k / w, k % w)
    case Cga320x200x4 => CgaByte(inp, y, k / w, k % w)
    case Cga320x200x4Bw => CgaByte(inp, y, k / w, k % w)
    case Composite160x200x16Force => Tga160Byte(inp, y, k / w, k % w)
    case Composite160x200x16 => Tga160Byte(inp, y, k / w, k % w)
    case Tga160x200x16 => Tga160Byte(inp, y, k / w, k % w)
    case Tga320x200x16 => Tga320Byte(inp, y, k / w, k % w)
    case Ega320x200x16x4 => EgaByte(inp, y, k / w, k % w)
    case Vga320x200x256x4 => VgaX4Byte(inp, y, k / w, k % w)
    case _ => VgaByte(inp, y, k / w)
  }

  /** Active byte k (below 640) of a visible line, given the byte the buffer held before. */
  function ActiveByte(mode: GraphicsMode, inp: VideoInputs, line: nat, k: nat, before: bv8): bv8
  {
    if !InTextArea(line) then 0
    else if k < ActiveWritten(mode) then ModeByte(mode, inp, SourceLine(mode, line), k)
    else before
  }

  /** Bytes 0-159 of a line: front porch, sync pulse, back porch, with vertical sync as given. */
  function PorchByte(vsync: bool, j: nat): bv8
  {
    if FrontPorch <= j < FrontPorch + SyncPulse then (if vsync then HActiveVActive else HActiveVInactive)
    else (if vsync then HInactiveVActive else HInactiveVInactive)
  }

  predicate VsyncLine(line: nat)
  {
    VsyncStart <= line < VsyncEnd
  }

  /** Byte j (below 800) of a regenerated buffer for a line, given the byte it held before. */
  function LineByte(mode: GraphicsMode, framebuffer: bool, inp: VideoInputs, line: nat, j: nat, before: bv8): bv8
  {
    if framebuffer && line < VisibleLines then
      (if j < ActiveStart then PorchByte(false, j) else ActiveByte(mode, inp, line, j - ActiveStart, before))
    else if j < ActiveStart then PorchByte(VsyncLine(line), j)
    else if VsyncLine(line) then HInactiveVActive
    else HInactiveVInactive
  }

  // Properties of the layout

  /**
   * Every porch byte is a control character; horizontal sync is at its active
   * (low) level exactly on bytes 16-111, vertical sync exactly when asked for.
   */
  lemma PorchSyncLevels(vsync: bool, j: nat)
    requires j < ActiveStart
    ensures Palette.CtrlBaseIndex <= PorchByte(vsync, j) as nat < Palette.CtrlBaseIndex + 4
    ensures Palette.HSyncLevel(PorchByte(vsync, j) as nat) == !(FrontPorch <= j < FrontPorch + SyncPulse)
    ensures Palette.VSyncLevel(PorchByte(vsync, j) as nat) == !vsync
  {
  }

  /**
   * A regenerated line carries horizontal sync on bytes 16-111 only, and
   * vertical sync on lines 490 and 491 only; without a framebuffer or below
   * line 480 bytes 160-799 are control characters with horizontal sync off.
   */
  lemma {:induction false} LineSyncLevels(mode: GraphicsMode, framebuffer: bool, inp: VideoInputs, line: nat, j: nat, before: bv8)
    requires j < LineLength
    requires j < ActiveStart || !(framebuffer && line < VisibleLines)
    ensures var b := LineByte(mode, framebuffer, inp, line, j, before);
      Palette.CtrlBaseIndex <= b as nat < Palette.CtrlBaseIndex + 4
      && Palette.HSyncLevel(b as nat) == !(FrontPorch <= j < FrontPorch + SyncPulse)
      && Palette.VSyncLevel(b as nat) == !(VsyncLine(line) && !(framebuffer && line < VisibleLines))
  {
    if j < ActiveStart {
      PorchSyncLevels(VsyncLine(line) && !(framebuffer && line < VisibleLines), j);
    }
  }

  /** Visible lines outside lines 40-439 are black in every mode. */
  lemma BorderLinesBlack(mode: GraphicsMode, inp: VideoInputs, line: nat, j: nat, before: bv8)
    requires line < VisibleLines && !InTextArea(line)
    requires ActiveStart <= j < LineLength
    ensures LineByte(mode, true, inp, line, j, before) == 0
  {
  }

  /**
   * Only the 640x480 unchained VGA mode can put a control character into the
   * active region; every other mode writes colour indices below 251 (a byte
   * left in place by the 160-pixel modes keeps its value).
   */
  lemma ActiveRegionNoControl(mode: GraphicsMode, inp: VideoInputs, line: nat, j: nat, before: bv8)
    requires !mode.Vga320x200x256x4?
    requires line < VisibleLines && ActiveStart <= j < LineLength
    ensures var b := LineByte(mode, true, inp, line, j, before);
      b < HActiveVInactive || (b == before && ActiveWritten(mode) <= j - ActiveStart)
  {
  }

  /** The 160-pixel Tandy and composite modes write bytes 160-479 of a text-area line and leave 480-799 as they were. */
  lemma Tga160HalfLine(mode: GraphicsMode, inp: VideoInputs, line: nat, j: nat, before: bv8)
    requires mode.Composite160x200x16Force? || mode.Composite160x200x16? || mode.Tga160x200x16?
    requires InTextArea(line) && ActiveStart + 320 <= j < LineLength
    ensures LineByte(mode, true, inp, line, j, before) == before
  {
  }

  /** The unchained VGA mode does emit a control character for a pixel byte of 251. */
  lemma VgaX4EmitsControl(inp: VideoInputs, line: nat)
    requires line == TextTop && |inp.vram| > 0 && inp.vram[0] == 0xFB
    ensures LineByte(Vga320x200x256x4, true, inp, line, ActiveStart, 0) == HActiveVInactive
  {
    assert SourceLine(Vga320x200x256x4, line) == 0;
    assert Plane(0xFB, 0) == 0xFB;
  }

  /**
   * The unchained VGA rule with the clamp of the chained mode: a pixel byte
   * that would be a control character shows as colour 0.
   */
  function VgaX4ClampedByte(inp: VideoInputs, y: nat, u: nat, t: nat): (b: bv8)
    requires t < 8
    ensures b < HActiveVInactive
  {
    VgaPixel(VgaX4Byte(inp, y, u, t))
  }

  /** The clamp changes only the pixel bytes that would have been control characters. */
  lemma VgaX4ClampAgrees(inp: VideoInputs, y: nat, u: nat, t: nat)
    requires t < 8
    ensures VgaX4Byte(inp, y, u, t) < HActiveVInactive ==> VgaX4ClampedByte(inp, y, u, t) == VgaX4Byte(inp, y, u, t)
    ensures VgaX4Byte(inp, y, u, t) >= HActiveVInactive ==> VgaX4ClampedByte(inp, y, u, t) == 0
  {
  }

  /** In the line-doubled modes an odd line shows the same source line, hence the same bytes, as the even line before it. */
  lemma {:induction false} ReuseIsExact(mode: GraphicsMode, framebuffer: bool, inp: VideoInputs, line: nat, j: nat, before: bv8)
    requires !Is640x400(mode) && line % 2 == 0 && line + 1 < TotalLines
    ensures LineByte(mode, framebuffer, inp, line, j, before) == LineByte(mode, framebuffer, inp, line + 1, j, before)
  {
    assert InTextArea(line) == InTextArea(line + 1);
    if InTextArea(line) {
      assert (line - TextTop) / 2 == (line + 1 - TextTop) / 2;
    }
  }

  /** A cell pixel under the cursor, and a blinking cell while blink is on, show no glyph. */
  lemma TextCellRules(inp: VideoInputs, y: nat, c: nat, t: nat)
    ensures var cell := CellAt(inp, y, c);
      var attr := LowByte(Word(inp, TextIndex(inp, y, c) + 1));
      && (inp.cursorBlink && y / 16 == inp.cursorY && c == inp.cursorX && y % 16 >= 14 ==> TextByte(inp, y, c, t) == attr & 0xF)
      && (!cell.cursor && inp.cgaBlinking && attr & 0x80 != 0 && inp.cursorBlink ==> TextByte(inp, y, c, t) == (attr >> 4) & 7)
      && (attr & 0x80 != 0 && inp.cursorBlink && !cell.cursor && !inp.cgaBlinking ==> TextByte(inp, y, c, t) == attr >> 4)
  {
    ShiftedZero(t);
  }

  lemma {:induction false} ShiftedZero(t: nat)
    ensures Shifted(0, t) == 0
  {
    if t > 0 {
      ShiftedZero(t - 1);
    }
  }

  /** The glyph's bits are taken least significant first. */
  lemma GlyphBitOrder(glyph: bv8, t: nat)
    requires t < 8
    ensures GlyphBit(glyph, t) == ((glyph >> (t as bv8)) & 1 == 1)
  {
    ShiftedIsShift(glyph, t);
  }

  lemma {:induction false} ShiftedIsShift(glyph: bv8, t: nat)
    requires t < 8
    ensures Shifted(glyph, t) == glyph >> (t as bv8)
  {
    if t > 0 {
      ShiftedIsShift(glyph, t - 1);
      ShiftOnce(glyph, (t - 1) as bv8);
    }
  }

  lemma ShiftOnce(glyph: bv8, n: bv8)
    requires n < 7
    ensures (glyph >> n) >> 1 == glyph >> (n + 1)
  {
  }

  /** The EGA pixel order: output pixel p of a word is the gathered colour index at bit 7 - p of the planes. */
  lemma EgaPixelGather(w: bv32, p: nat)
    requires p < 8
    ensures EgaPixel(Pack8(w), p) == GatherPixel(w, PixelBit(p)) as bv8
  {
    EgaPixelNibble(Pack8(w), p);
    Pack8Nibble(w, PixelBit(p));
  }

  lemma EgaPixelNibble(packed: bv32, p: nat)
    requires p < 8
    ensures EgaPixel(packed, p) == Nibble(packed, PixelBit(p)) as bv8
  {
  }
}
