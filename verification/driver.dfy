/**
 * The scanline interrupt handler of the HDMI driver and the state it keeps
 * between calls. The two 800-byte scanline buffers lie back to back in the
 * palette memory, buffer b at byte 800b of `lines`; each byte is a palette
 * index that the DMA engine turns into serializer words.
 */
module HdmiDriver {
  import opened Planes
  import opened ScanlineLayout

  // Buffer fills (memset)

  /** Sets count bytes from position from to value. */
  method Fill(buf: array<bv8>, from: nat, count: nat, value: bv8)
    requires from + count <= buf.Length
    modifies buf
    ensures forall j :: from <= j < from + count ==> buf[j] == value
    ensures forall j :: 0 <= j < buf.Length && !(from <= j < from + count) ==> buf[j] == old(buf[j])
  {
    forall j | from <= j < from + count {
      buf[j] := value;
    }
  }

  // Text modes

  /** The eight pixels of one character cell, starting at out. */
  method RenderCell(buf: array<bv8>, out: nat, inp: VideoInputs, cell: TextCell)
    requires out + 8 <= buf.Length
    modifies buf
    ensures forall t :: 0 <= t < 8 ==> buf[out + t] == CellPixel(inp, cell, t)
    ensures forall j :: 0 <= j < buf.Length && !(out <= j < out + 8) ==> buf[j] == old(buf[j])
  {
    if cell.cursor {
      var i := 0;
      while i < 8
        invariant 0 <= i <= 8
        invariant forall t :: 0 <= t < i ==> buf[out + t] == CellPixel(inp, cell, t)
        invariant forall j :: 0 <= j < buf.Length && !(out <= j < out + i) ==> buf[j] == old(buf[j])
      {
        buf[out + i] := Foreground(cell.attr);
        i := i + 1;
      }
    } else if inp.cgaBlinking && cell.attr & 0x80 != 0 {
      var fg := Foreground(cell.attr);
      var bg := BlinkBackground(cell.attr);
      var glyphPixels := cell.glyph;
      var bit := 0;
      while bit < 8
        invariant 0 <= bit <= 8
        invariant glyphPixels == Shifted(cell.glyph, bit)
        invariant forall t :: 0 <= t < bit ==> buf[out + t] == CellPixel(inp, cell, t)
        invariant forall j :: 0 <= j < buf.Length && !(out <= j < out + bit) ==> buf[j] == old(buf[j])
      {
        buf[out + bit] := if inp.cursorBlink then bg else if glyphPixels & 1 == 1 then fg else bg;
        glyphPixels := glyphPixels >> 1;
        bit := bit + 1;
      }
    } else {
      var fg := Foreground(cell.attr);
      var bg := Background(cell.attr);
      var glyphPixels := cell.glyph;
      var bit := 0;
      while bit < 8
        invariant 0 <= bit <= 8
        invariant glyphPixels == Shifted(cell.glyph, bit)
        invariant forall t :: 0 <= t < bit ==> buf[out + t] == CellPixel(inp, cell, t)
        invariant forall j :: 0 <= j < buf.Length && !(out <= j < out + bit) ==> buf[j] == old(buf[j])
      {
        buf[out + bit] := if glyphPixels & 1 == 1 then fg else bg;
        glyphPixels := glyphPixels >> 1;
        bit := bit + 1;
      }
    }
  }

  /** One text line: 80 cells of 8 pixels from the character/attribute pairs of source row y / 16. */
  method RenderText(buf: array<bv8>, start: nat, inp: VideoInputs, y: nat)
    requires start + ActiveWidth <= buf.Length
    modifies buf
    ensures forall j :: start <= j < start + ActiveWidth ==> buf[j] == TextByte(inp, y, (j - start) / 8, (j - start) % 8)
    ensures forall j :: 0 <= j < buf.Length && !(start <= j < start + ActiveWidth) ==> buf[j] == old(buf[j])
  {
    var rowDiv16 := y / 16;
    var glyphLine := y % 16;
    var textLine := TextIndex(inp, y, 0);
    var column := 0;
    while column < TextColumns
      invariant 0 <= column <= TextColumns
      invariant textLine == TextIndex(inp, y, column)
      invariant forall c, t :: 0 <= c < column && 0 <= t < 8 ==> buf[start + 8 * c + t] == TextByte(inp, y, c, t)
      invariant forall j :: 0 <= j < buf.Length && !(start <= j < start + 8 * column) ==> buf[j] == old(buf[j])
    {
      var ch := LowByte(Word(inp, textLine));
      var glyphPixels := FontRow(inp, (ch as nat) * 16 + glyphLine);
      var color := LowByte(Word(inp, textLine + 1));
      textLine := textLine + 2;
      if color & 0x80 != 0 && inp.cursorBlink {
        glyphPixels := 0;
      }
      var cursorActive := inp.cursorBlink && rowDiv16 == inp.cursorY && column == inp.cursorX && glyphLine >= 14;
      var cell := TextCell(color, glyphPixels, cursorActive);
      assert cell == CellAt(inp, y, column);
      RenderCell(buf, start + 8 * column, inp, cell);
      column := column + 1;
    }
    TextColumnsCover(buf, start, inp, y);
  }

  /** Cell c, pixel t for every c and t is active byte 8c + t for every byte. */
  lemma TextColumnsCover(buf: array<bv8>, start: nat, inp: VideoInputs, y: nat)
    requires start + ActiveWidth <= buf.Length
    requires forall c, t :: 0 <= c < TextColumns && 0 <= t < 8 ==> buf[start + 8 * c + t] == TextByte(inp, y, c, t)
    ensures forall j :: start <= j < start + ActiveWidth ==> buf[j] == TextByte(inp, y, (j - start) / 8, (j - start) % 8)
  {
    forall j | start <= j < start + ActiveWidth
      ensures buf[j] == TextByte(inp, y, (j - start) / 8, (j - start) % 8)
    {
      assert j == start + 8 * ((j - start) / 8) + (j - start) % 8;
    }
  }

  // Graphics modes: each loop step turns one video memory word into one unit of output bytes

  /** The four 2-bit pixels of a CGA byte, most significant first, each twice. */
  method PutCgaByte(buf: array<bv8>, out: nat, cgaByte: bv8)
    requires out + 8 <= buf.Length
    modifies buf
    ensures forall j :: out <= j < out + 8 ==> buf[j] == CgaPixel(cgaByte, (j - out) / 2)
    ensures forall j :: 0 <= j < buf.Length && !(out <= j < out + 8) ==> buf[j] == old(buf[j])
  {
    forall j | out <= j < out + 8 {
      buf[j] := CgaPixel(cgaByte, (j - out) / 2);
    }
  }

  /** CGA 320x200x4: 80 bytes from the bank of the line's parity. */
  method RenderCga(buf: array<bv8>, start: nat, inp: VideoInputs, y: nat)
    requires start + ActiveWidth <= buf.Length
    modifies buf
    ensures forall j :: start <= j < start + ActiveWidth ==> buf[j] == CgaByte(inp, y, (j - start) / 8, (j - start) % 8)
    ensures forall j :: 0 <= j < buf.Length && !(start <= j < start + ActiveWidth) ==> buf[j] == old(buf[j])
  {
    var cgaRow := CgaIndex(inp, y, 0);
    var out := start;
    var x := 0;
    while x < 80
      invariant 0 <= x <= 80 && out == start + 8 * x && cgaRow == CgaIndex(inp, y, x)
      invariant forall u, t :: 0 <= u < x && 0 <= t < 8 ==> buf[start + 8 * u + t] == CgaByte(inp, y, u, t)
      invariant forall j :: 0 <= j < buf.Length && !(start <= j < out) ==> buf[j] == old(buf[j])
    {
      var cgaByte := LowByte(Word(inp, cgaRow));
      cgaRow := cgaRow + 1;
      PutCgaByte(buf, out, cgaByte);
      out := out + 8;
      x := x + 1;
    }
    forall j | start <= j < start + ActiveWidth
      ensures buf[j] == CgaByte(inp, y, (j - start) / 8, (j - start) % 8)
    {
      assert j == start + 8 * ((j - start) / 8) + (j - start) % 8;
    }
  }

  /**
   * The two 4-bit pixels of a byte, high nibble first, each twice; the driver
   * stores these four bytes as one little-endian 32-bit word.
   */
  method PutNibblePair(buf: array<bv8>, out: nat, twoPixels: bv8)
    requires out + 4 <= buf.Length
    modifies buf
    ensures forall j :: out <= j < out + 4 ==> buf[j] == NibblePixel(twoPixels, j - out)
    ensures forall j :: 0 <= j < buf.Length && !(out <= j < out + 4) ==> buf[j] == old(buf[j])
  {
    var pixel1 := twoPixels >> 4;
    var pixel2 := twoPixels & 15;
    buf[out] := pixel1;
    buf[out + 1] := pixel1;
    buf[out + 2] := pixel2;
    buf[out + 3] := pixel2;
  }

  /** Tandy 160x200x16 and the composite modes: 80 bytes, so only the left 320 active bytes. */
  method RenderTga160(buf: array<bv8>, start: nat, inp: VideoInputs, y: nat)
    requires start + ActiveWidth <= buf.Length
    modifies buf
    ensures forall j :: start <= j < start + 320 ==> buf[j] == Tga160Byte(inp, y, (j - start) / 4, (j - start) % 4)
    ensures forall j :: 0 <= j < buf.Length && !(start <= j < start + 320) ==> buf[j] == old(buf[j])
  {
    var tgaRow := Tga160Index(inp, y, 0);
    var out := start;
    var x := 0;
    while x < 80
      invariant 0 <= x <= 80 && out == start + 4 * x && tgaRow == Tga160Index(inp, y, x)
      invariant forall u, t :: 0 <= u < x && 0 <= t < 4 ==> buf[start + 4 * u + t] == Tga160Byte(inp, y, u, t)
      invariant forall j :: 0 <= j < buf.Length && !(start <= j < out) ==> buf[j] == old(buf[j])
    {
      var twoPixels := LowByte(Word(inp, tgaRow));
      tgaRow := tgaRow + 1;
      PutNibblePair(buf, out, twoPixels);
      out := out + 4;
      x := x + 1;
    }
    forall j | start <= j < start + 320
      ensures buf[j] == Tga160Byte(inp, y, (j - start) / 4, (j - start) % 4)
    {
      assert j == start + 4 * ((j - start) / 4) + (j - start) % 4;
    }
  }

  /** Tandy 320x200x16: 160 bytes from the bank of the line's remainder modulo 4. */
  method RenderTga320(buf: array<bv8>, start: nat, inp: VideoInputs, y: nat)
    requires start + ActiveWidth <= buf.Length
    modifies buf
    ensures forall j :: start <= j < start + ActiveWidth ==> buf[j] == Tga320Byte(inp, y, (j - start) / 4, (j - start) % 4)
    ensures forall j :: 0 <= j < buf.Length && !(start <= j < start + ActiveWidth) ==> buf[j] == old(buf[j])
  {
    var tgaRow := Tga320Index(inp, y, 0);
    var out := start;
    var x := 0;
    while x < 160
      invariant 0 <= x <= 160 && out == start + 4 * x && tgaRow == Tga320Index(inp, y, x)
      invariant forall u, t :: 0 <= u < x && 0 <= t < 4 ==> buf[start + 4 * u + t] == Tga320Byte(inp, y, u, t)
      invariant forall j :: 0 <= j < buf.Length && !(start <= j < out) ==> buf[j] == old(buf[j])
    {
      var twoPixels := LowByte(Word(inp, tgaRow));
      tgaRow := tgaRow + 1;
      PutNibblePair(buf, out, twoPixels);
      out := out + 4;
      x := x + 1;
    }
    forall j | start <= j < start + ActiveWidth
      ensures buf[j] == Tga320Byte(inp, y, (j - start) / 4, (j - start) % 4)
    {
      assert j == start + 4 * ((j - start) / 4) + (j - start) % 4;
    }
  }

  /** The eight nibbles of a packed EGA word, most significant first, each twice. */
  method PutEgaWord(buf: array<bv8>, out: nat, eightPixels: bv32)
    requires out + 16 <= buf.Length
    modifies buf
    ensures forall j :: out <= j < out + 16 ==> buf[j] == EgaPixel(eightPixels, (j - out) / 2)
    ensures forall j :: 0 <= j < buf.Length && !(out <= j < out + 16) ==> buf[j] == old(buf[j])
  {
    forall j | out <= j < out + 16 {
      buf[j] := EgaPixel(eightPixels, (j - out) / 2);
    }
  }

  /** EGA 320x200x16: 40 words of four planes, each packed into eight colour nibbles. */
  method RenderEga(buf: array<bv8>, start: nat, inp: VideoInputs, y: nat)
    requires start + ActiveWidth <= buf.Length
    modifies buf
    ensures forall j :: start <= j < start + ActiveWidth ==> buf[j] == EgaByte(inp, y, (j - start) / 16, (j - start) % 16)
    ensures forall j :: 0 <= j < buf.Length && !(start <= j < start + ActiveWidth) ==> buf[j] == old(buf[j])
  {
    var egaRow := y * 40;
    var out := start;
    var x := 0;
    while x < 40
      invariant 0 <= x <= 40 && out == start + 16 * x && egaRow == y * 40 + x
      invariant forall u, t :: 0 <= u < x && 0 <= t < 16 ==> buf[start + 16 * u + t] == EgaByte(inp, y, u, t)
      invariant forall j :: 0 <= j < buf.Length && !(start <= j < out) ==> buf[j] == old(buf[j])
    {
      var egaPlanes := Word(inp, egaRow);
      egaRow := egaRow + 1;
      var eightPixels := Pack8(egaPlanes);
      PutEgaWord(buf, out, eightPixels);
      out := out + 16;
      x := x + 1;
    }
    forall j | start <= j < start + ActiveWidth
      ensures buf[j] == EgaByte(inp, y, (j - start) / 16, (j - start) % 16)
    {
      assert j == start + 16 * ((j - start) / 16) + (j - start) % 16;
    }
  }

  /** The four bytes of a word, low byte first, each twice. */
  method PutFourPixels(buf: array<bv8>, out: nat, fourPixels: bv32)
    requires out + 8 <= buf.Length
    modifies buf
    ensures forall j :: out <= j < out + 8 ==> buf[j] == Plane(fourPixels, (j - out) / 2) as bv8
    ensures forall j :: 0 <= j < buf.Length && !(out <= j < out + 8) ==> buf[j] == old(buf[j])
  {
    forall j | out <= j < out + 8 {
      buf[j] := Plane(fourPixels, (j - out) / 2) as bv8;
    }
  }

  /** VGA 320x200x256 unchained: 80 words of four pixels; no clamping of control indices. */
  method RenderVgaX4(buf: array<bv8>, start: nat, inp: VideoInputs, y: nat)
    requires start + ActiveWidth <= buf.Length
    modifies buf
    ensures forall j :: start <= j < start + ActiveWidth ==> buf[j] == VgaX4Byte(inp, y, (j - start) / 8, (j - start) % 8)
    ensures forall j :: 0 <= j < buf.Length && !(start <= j < start + ActiveWidth) ==> buf[j] == old(buf[j])
  {
    var vgaRow := y * 80;
    var out := start;
    var x := 0;
    while x < 80
      invariant 0 <= x <= 80 && out == start + 8 * x && vgaRow == y * 80 + x
      invariant forall u, t :: 0 <= u < x && 0 <= t < 8 ==> buf[start + 8 * u + t] == VgaX4Byte(inp, y, u, t)
      invariant forall j :: 0 <= j < buf.Length && !(start <= j < out) ==> buf[j] == old(buf[j])
    {
      var fourPixels := Word(inp, vgaRow);
      vgaRow := vgaRow + 1;
      PutFourPixels(buf, out, fourPixels);
      out := out + 8;
      x := x + 1;
    }
    forall j | start <= j < start + ActiveWidth
      ensures buf[j] == VgaX4Byte(inp, y, (j - start) / 8, (j - start) % 8)
    {
      assert j == start + 8 * ((j - start) / 8) + (j - start) % 8;
    }
  }

  /** VGA 320x200x256 and every other mode: 320 words, low byte each, control indices shown as 0. */
  method RenderVga(buf: array<bv8>, start: nat, inp: VideoInputs, y: nat)
    requires start + ActiveWidth <= buf.Length
    modifies buf
    ensures forall j :: start <= j < start + ActiveWidth ==> buf[j] == VgaByte(inp, y, (j - start) / 2)
    ensures forall j :: 0 <= j < buf.Length && !(start <= j < start + ActiveWidth) ==> buf[j] == old(buf[j])
  {
    var vgaRow := y * 320;
    var out := start;
    var x := 0;
    while x < 320
      invariant 0 <= x <= 320 && out == start + 2 * x && vgaRow == y * 320 + x
      invariant forall u :: 0 <= u < x ==> buf[start + 2 * u] == VgaByte(inp, y, u) && buf[start + 2 * u + 1] == VgaByte(inp, y, u)
      invariant forall j :: 0 <= j < buf.Length && !(start <= j < out) ==> buf[j] == old(buf[j])
    {
      var color := LowByte(Word(inp, vgaRow));
      vgaRow := vgaRow + 1;
      var pixel := if color >= HActiveVInactive then 0 else color;
      buf[out] := pixel;
      buf[out + 1] := pixel;
      out := out + 2;
      x := x + 1;
    }
    forall j | start <= j < start + ActiveWidth
      ensures buf[j] == VgaByte(inp, y, (j - start) / 2)
    {
      assert j == start + 2 * ((j - start) / 2) + (j - start) % 2;
    }
  }

  // The mode switch

  /** The bytes a mode writes inside the text area, decoded from source line y. */
  method RenderMode(buf: array<bv8>, start: nat, mode: GraphicsMode, inp: VideoInputs, y: nat)
    requires start + ActiveWidth <= buf.Length
    modifies buf
    ensures forall j :: start <= j < start + ActiveWritten(mode) ==> buf[j] == ModeByte(mode, inp, y, j - start)
    ensures forall j :: 0 <= j < buf.Length && !(start <= j < start + ActiveWritten(mode)) ==> buf[j] == old(buf[j])
  {
    match mode {
      case TextMode80x25Color => RenderText(buf, start, inp, y);
      case TextMode80x25Bw => RenderText(buf, start, inp, y);
      case Cga320x200x4 => RenderCga(buf, start, inp, y);
      case Cga320x200x4Bw => RenderCga(buf, start, inp, y);
      case Composite160x200x16Force => RenderTga160(buf, start, inp, y);
      case Composite160x200x16 => RenderTga160(buf, start, inp, y);
      case Tga160x200x16 => RenderTga160(buf, start, inp, y);
      case Tga320x200x16 => RenderTga320(buf, start, inp, y);
      case Ega320x200x16x4 => RenderEga(buf, start, inp, y);
      case Vga320x200x256x4 => RenderVgaX4(buf, start, inp, y);
      case _ => RenderVga(buf, start, inp, y);
    }
  }

  /**
   * The 640 active bytes of a visible line: black outside lines 40-439,
   * otherwise the source line decoded in the current mode.
   */
  method RenderActive(buf: array<bv8>, start: nat, mode: GraphicsMode, inp: VideoInputs, line: nat)
    requires start + ActiveWidth <= buf.Length
    modifies buf
    ensures forall j :: start <= j < start + ActiveWidth ==> buf[j] == ActiveByte(mode, inp, line, j - start, old(buf[j]))
    ensures forall j :: 0 <= j < buf.Length && !(start <= j < start + ActiveWidth) ==> buf[j] == old(buf[j])
  {
    if !InTextArea(line) {
      Fill(buf, start, ActiveWidth, 0);
    } else {
      RenderMode(buf, start, mode, inp, SourceLine(mode, line));
    }
  }

  // The driver state and the scanline interrupt

  const BufferBytes: nat := 2 * LineLength

  /**
   * The driver's statics: the mode, the framebuffer and text buffer set by the
   * emulator (a pointer is an address, 0 standing for NULL), the handler's
   * scanline counter and buffer index, the hang-detection counter, the
   * emulated status port 0x3DA, and the two scanline buffers.
   */
  class ScanlineDriver {
    var mode: GraphicsMode
    var framebuffer: nat
    var framebufferWidth: int
    var framebufferHeight: int
    var offsetX: int
    var offsetY: int
    var textBuffer: nat
    var currentScanline: nat
    var bufferIndex: nat
    var interruptCounter: bv32
    var port3DA: bv8
    const lines: array<bv8>

    predicate Valid()
      reads this
    {
      lines.Length == BufferBytes && currentScanline < TotalLines && bufferIndex < 2
    }

    /** The statics at start-up: 80x25 colour text, no framebuffer, scanline 0, buffer 0, and zeroed scanline buffers (they live in a zero-initialised static array). */
    constructor ()
      ensures Valid() && fresh(lines)
      ensures mode == TextMode80x25Color && framebuffer == 0 && textBuffer == 0
      ensures framebufferWidth == 0 && framebufferHeight == 0 && offsetX == 0 && offsetY == 0
      ensures currentScanline == 0 && bufferIndex == 0 && interruptCounter == 0 && port3DA == 0
      ensures lines[..] == seq(BufferBytes, _ => 0)
    {
      mode := TextMode80x25Color;
      framebuffer := 0;
      framebufferWidth := 0;
      framebufferHeight := 0;
      offsetX := 0;
      offsetY := 0;
      textBuffer := 0;
      currentScanline := 0;
      bufferIndex := 0;
      interruptCounter := 0;
      port3DA := 0;
      lines := new bv8[BufferBytes](_ => 0);
    }

    method SetMode(m: GraphicsMode)
      modifies this
      ensures mode == m
      ensures framebuffer == old(framebuffer) && textBuffer == old(textBuffer)
      ensures framebufferWidth == old(framebufferWidth) && framebufferHeight == old(framebufferHeight)
      ensures offsetX == old(offsetX) && offsetY == old(offsetY)
      ensures currentScanline == old(currentScanline) && bufferIndex == old(bufferIndex)
      ensures interruptCounter == old(interruptCounter) && port3DA == old(port3DA)
    {
      mode := m;
    }

    /** The framebuffer and its size; width and height arrive as 16-bit values. */
    method SetBuffer(buffer: nat, width: bv16, height: bv16)
      modifies this
      ensures framebuffer == buffer && framebufferWidth == width as int && framebufferHeight == height as int
      ensures mode == old(mode) && textBuffer == old(textBuffer)
      ensures offsetX == old(offsetX) && offsetY == old(offsetY)
      ensures currentScanline == old(currentScanline) && bufferIndex == old(bufferIndex)
      ensures interruptCounter == old(interruptCounter) && port3DA == old(port3DA)
    {
      framebuffer := buffer;
      framebufferWidth := width as int;
      framebufferHeight := height as int;
    }

    method SetOffset(x: int, y: int)
      modifies this
      ensures offsetX == x && offsetY == y
      ensures mode == old(mode) && framebuffer == old(framebuffer) && textBuffer == old(textBuffer)
      ensures framebufferWidth == old(framebufferWidth) && framebufferHeight == old(framebufferHeight)
      ensures currentScanline == old(currentScanline) && bufferIndex == old(bufferIndex)
      ensures interruptCounter == old(interruptCounter) && port3DA == old(port3DA)
    {
      offsetX := x;
      offsetY := y;
    }

    method SetTextBuffer(buffer: nat)
      modifies this
      ensures textBuffer == buffer
      ensures mode == old(mode) && framebuffer == old(framebuffer)
      ensures framebufferWidth == old(framebufferWidth) && framebufferHeight == old(framebufferHeight)
      ensures offsetX == old(offsetX) && offsetY == old(offsetY)
      ensures currentScanline == old(currentScanline) && bufferIndex == old(bufferIndex)
      ensures interruptCounter == old(interruptCounter) && port3DA == old(port3DA)
    {
      textBuffer := buffer;
    }

    /**
     * The end-of-line interrupt. It advances the scanline counter, publishes
     * vertical retrace and line parity on port 0x3DA, and then either leaves
     * the DMA engine on the current buffer (odd lines of the line-doubled
     * modes) or switches to the other buffer and fills it with the layout
     * the line calls for.
     */
    method ScanlineInterrupt(inp: VideoInputs)
      requires Valid()
      modifies this, lines
      ensures Valid()
      ensures interruptCounter == old(interruptCounter) + 1
      ensures currentScanline == NextScanline(old(currentScanline))
      ensures port3DA == Port3DA(currentScanline)
      ensures mode == old(mode) && framebuffer == old(framebuffer) && textBuffer == old(textBuffer)
      ensures framebufferWidth == old(framebufferWidth) && framebufferHeight == old(framebufferHeight)
      ensures offsetX == old(offsetX) && offsetY == old(offsetY)
      ensures !Regenerates(mode, currentScanline) ==> bufferIndex == old(bufferIndex) && lines[..] == old(lines[..])
      ensures Regenerates(mode, currentScanline) ==> bufferIndex == 1 - old(bufferIndex)
      ensures Regenerates(mode, currentScanline) ==>
        forall j :: LineLength * bufferIndex <= j < LineLength * bufferIndex + LineLength ==>
          lines[j] == LineByte(mode, framebuffer != 0, inp, currentScanline, j - LineLength * bufferIndex, old(lines[j]))
      ensures Regenerates(mode, currentScanline) ==>
        forall j :: 0 <= j < BufferBytes && !(LineLength * bufferIndex <= j < LineLength * bufferIndex + LineLength) ==>
          lines[j] == old(lines[j])
    {
      interruptCounter := interruptCounter + 1;
      currentScanline := if currentScanline >= TotalLines - 1 then 0 else currentScanline + 1;
      var oddScanline := currentScanline % 2 == 1;
      port3DA := Port3DA(currentScanline);
      var is640x400 := mode == TextMode80x25Color || mode == TextMode80x25Bw;
      var generateNewLine := is640x400 || !oddScanline;
      if !generateNewLine {
        return;
      }
      bufferIndex := 1 - bufferIndex;
      FillLine(lines, LineLength * bufferIndex, mode, framebuffer != 0, inp, currentScanline);
    }
  }

  /** Writes the 800 bytes of a line's buffer at base: sync porches, then the active part. */
  method FillLine(buf: array<bv8>, base: nat, mode: GraphicsMode, framebuffer: bool, inp: VideoInputs, line: nat)
    requires base + LineLength <= buf.Length
    modifies buf
    ensures forall j :: base <= j < base + LineLength ==> buf[j] == LineByte(mode, framebuffer, inp, line, j - base, old(buf[j]))
    ensures forall j :: 0 <= j < buf.Length && !(base <= j < base + LineLength) ==> buf[j] == old(buf[j])
  {
    if framebuffer && line < VisibleLines {
      RenderActive(buf, base + ActiveStart, mode, inp, line);
      Fill(buf, base, FrontPorch, HInactiveVInactive);
      Fill(buf, base + FrontPorch, SyncPulse, HActiveVInactive);
      Fill(buf, base + FrontPorch + SyncPulse, BackPorch, HInactiveVInactive);
    } else if VsyncStart <= line < VsyncEnd {
      Fill(buf, base, FrontPorch, HInactiveVActive);
      Fill(buf, base + FrontPorch, SyncPulse, HActiveVActive);
      Fill(buf, base + FrontPorch + SyncPulse, BackPorch, HInactiveVActive);
      Fill(buf, base + ActiveStart, ActiveWidth, HInactiveVActive);
    } else {
      Fill(buf, base, FrontPorch, HInactiveVInactive);
      Fill(buf, base + FrontPorch, SyncPulse, HActiveVInactive);
      Fill(buf, base + FrontPorch + SyncPulse, BackPorch, HInactiveVInactive);
      Fill(buf, base + ActiveStart, ActiveWidth, HInactiveVInactive);
    }
  }
}
