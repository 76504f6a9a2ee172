# HDMI scanline driver of the pico-286 emulator, modelled in Dafny

The HDMI driver of the emulator feeds a 640x480 DVI signal from an RP2040/RP2350 PIO state machine.
The driver keeps a palette of 256 entries of two 64-bit words each. The first word carries the three TMDS symbols of a colour, one per channel, serialized for the output pins; it is the only word the palette DMA streams. The second word is the first with its 60 data bits flipped, stored but skipped by the DMA.
The top entries 251-254 hold the four DVI control characters, which encode the sync levels.
At the end of every scanline an interrupt handler fills one of two 800-byte scanline buffers with palette indices for the next line:
- 160 bytes of front porch, horizontal sync and back porch;
- 640 active bytes decoded from the emulated video memory in the current graphics mode, or blanking.

The model covers:

- `tmds.dfy` (module `Tmds`): the 8b/10b encoder (DVI 1.0, section 3.3.3), proved against a per-bit definition of the DVI chain, with the DVI decoder as its inverse.
- `serializer.dfy` (module `Serializer`): how three 10-bit symbols are serialized into a 64-bit word of differential lanes, and a receiver-side read-back that inverts it.
- `palette.dfy` (module `Palette`): the control symbols, colour entries, `graphics_set_palette`, `graphics_set_bgcolor` and the control-symbol set-up. These are kept in a class over an array of 512 64-bit words.
- `planes.dfy` (module `Planes`): `spread8` and `ega_pack8_from_planes` against a pixel-by-pixel gather of the four EGA planes.
- `scanline.dfy` (module `ScanlineLayout`): the line layout. It defines, as functions of the video inputs, what every byte of a regenerated buffer must hold in each graphics mode.
- `driver.dfy` (module `HdmiDriver`): the handler and the setters, as a class over the driver's statics. Each mode's loop is proved against the layout functions.
- `renderer.dfy` (module `HostRenderer`): the Linux host renderer's pixel rules for text modes 0x02/0x03 and the planar modes 0x0D/0x0E/0x10/0x12. Lemmas state where the HDMI decoder agrees with it and where it does not.
- `console.dfy` (module `DebugConsole`): the host debug console `_putchar`.
- `keyboard.dfy` (module `Keyboard`): the host `HandleInput` key mapper and its port effects.

Design differences between the HDMI decoder and the host renderer are captured by the preconditions of `HostRenderer.TextMatchesHost` (offset mask, cursor lines) and `HostRenderer.RenderPlanarRow` (row limit), and by the lemma `HostRenderer.TextBlankingDiffers` (blanking). They are not claimed as defects:
- the host masks the page offset to 16 bits;
- the host draws the cursor on glyph lines 2·start to 2·end, while the driver always uses lines 14-15;
- with blink on and the blink attribute disabled, the driver blanks a blinking cell's glyph and the host does not;
- the host's mode 0x12 draws only rows below 400, because the whole mode switch sits under `y < 400`.

## Model

| member | source | states |
|---|---|---|
| Tmds.TmdsEncode | drivers/hdmi/hdmi.c:145-176 | the encoder's loop yields TmdsCode(input): the DVI stage-one chain q_m[0..7] (XNOR when more than four ones, or four with bit 0 clear), inverted with bit 9 set in the XNOR case, bit 8 set otherwise |
| Tmds.Popcount | drivers/hdmi/hdmi.c:147 | the number of ones among the first n bits is at most n |
| Tmds.QmChainClosed | drivers/hdmi/hdmi.c:153-160 | the per-bit DVI chain equals the prefix XOR of the byte, with the odd positions flipped in the XNOR case |
| Tmds.TmdsCodeLayout | drivers/hdmi/hdmi.c:162-176 | every symbol is below 1024, has exactly one of bits 8 and 9 set, has bit 9 set exactly in the XNOR case, and carries the chain in bits 0-7 |
| Tmds.TmdsRoundTrip | drivers/hdmi/hdmi.c:145-176 | the DVI decoder returns the encoded byte |
| Tmds.TmdsInjective | drivers/hdmi/hdmi.c:145-176 | distinct bytes give distinct symbols |
| Tmds.ComplementedSymbolDecode | drivers/hdmi/hdmi.c:806-808 | a symbol with all ten bits complemented decodes to the byte with bits 1-7 flipped |
| Tmds.DviInvertedSymbolDecode | drivers/hdmi/hdmi.c:162-176 | the DVI inversion (data bits flipped, bit 9 toggled, bit 8 kept) decodes to the same byte |
| Tmds.CodeDecodes | drivers/hdmi/hdmi.c:145-176 | the three decoder facts above, on the ten bits a receiver reads |
| Serializer.GenerateDifferentialData | drivers/hdmi/hdmi.c:102-136 | the loop yields DifferentialWord: bit 9-i of each symbol in 6-bit unit i, unit 0 highest, a 2-bit gap before unit 5, lanes in pin order |
| Serializer.PackUnit | drivers/hdmi/hdmi.c:112-134 | one loop step builds unit k: per channel the bit and its complement, both swapped when the pairs are inverted |
| Serializer.Lane | drivers/hdmi/hdmi.c:117-127 | a lane is 1 or 2, and its low bit is the symbol bit XOR the pair inversion |
| Serializer.DifferentialUnitAt | drivers/hdmi/hdmi.c:108-135 | the 6-bit field of unit i, read at its fixed position (56, 50, 44, 38, 32, 24, 18, 12, 6, 0), is the unit the loop built in step i |
| Serializer.FoldAfter10 | drivers/hdmi/hdmi.c:108-111 | the ten shift-and-or steps place unit i at its fixed position |
| Serializer.DifferentialInMask | drivers/hdmi/hdmi.c:102-136 | every word lies within the data mask 0x3FFFFFFF3FFFFFFF: bits 30-31 and 62-63 are 0 |
| Serializer.DifferentialLanes | drivers/hdmi/hdmi.c:117-127 | every lane of every unit holds a bit and its complement |
| Serializer.DifferentialInverted | drivers/hdmi/hdmi.c:121-127 | inverting the pairs complements every data bit of the word |
| Serializer.DifferentialReadBack | drivers/hdmi/hdmi.c:102-136 | a receiver reads the three 10-bit symbols back from the word |
| Serializer.DifferentialInjective | drivers/hdmi/hdmi.c:102-136 | distinct symbol triples give distinct words |
| Serializer.ComplementReadBack | drivers/hdmi/hdmi.c:806-808 | the word XOR the data mask reads back as the three complemented symbols |
| Serializer.ReadSymbolOtherPolarity | drivers/hdmi/hdmi.c:121-127 | reading a lane with the opposite polarity gives the complemented symbol |
| Palette.PaletteCache.FillControlSymbols | drivers/hdmi/hdmi.c:603-626 | both words of entries 251-254 get the serialized control word (symbol 0 on red and green, the entry's control symbol on blue); nothing else changes |
| Palette.PaletteCache.SetPalette | drivers/hdmi/hdmi.c:798-809 | an index of 251 or more changes nothing; otherwise exactly words 2·index and 2·index+1 change, to the colour word and to that word XOR the data mask |
| Palette.PaletteCache.SetBgColor | drivers/hdmi/hdmi.c:830-833 | index 255 is refused, so the palette is unchanged |
| Palette.ControlSymbolLevels | drivers/hdmi/hdmi.c:605-626 | entry 251+k carries the DVI control symbol of its sync levels (251: H active, V inactive; 252: neither; 253: both; 254: V only), and the symbol on red and green is the one for no sync |
| Palette.ControlWordReadBack | drivers/hdmi/hdmi.c:612-624 | a receiver reads the three control symbols back from each control word |
| Palette.ColorWordDecodes | drivers/hdmi/hdmi.c:801-805 | the first word of an entry decodes to the colour's red, green and blue bytes |
| Palette.ColorWordInjective | drivers/hdmi/hdmi.c:801-805 | two colours share a first word only if their 24 colour bits agree |
| Palette.DataSymbolNotCtrl0 | drivers/hdmi/hdmi.c:162-176 | no data symbol equals control symbol 0 |
| Palette.ControlWordsDistinct | drivers/hdmi/hdmi.c:603-626 | the four control words differ from each other and from every colour word |
| Palette.SecondWordDecodes | drivers/hdmi/hdmi.c:806-808 | the stored second word, read as symbols, would decode to each component with bits 1-7 flipped; it is never streamed |
| Planes.Spread8 | drivers/hdmi/hdmi.c:193-198 | the result has only bits at multiples of 4, and for a byte it places bit i at bit 4i |
| Planes.Pack8 | drivers/hdmi/hdmi.c:201-208 | the packed word holds, in nibble b, the colour index gathered from bit b of the four planes |
| Planes.Spread8Spreads | drivers/hdmi/hdmi.c:193-198 | spread8 moves bit i of the byte to bit 4i and clears every other bit |
| Planes.Pack8Nibble | drivers/hdmi/hdmi.c:201-208 | nibble b of the packed word is plane bit b gathered over the four planes (plane k as bit k) |
| Planes.GatherPixelBound | drivers/hdmi/hdmi.c:201-208 | every gathered colour index is below 16 |
| ScanlineLayout.NextScanline | drivers/hdmi/hdmi.c:219 | the counter advances modulo 525 |
| ScanlineLayout.Port3DA | drivers/hdmi/hdmi.c:221-224 | bit 3 is set exactly from line 490 on, bit 0 exactly on odd lines, and the other bits are clear |
| ScanlineLayout.SourceLine | drivers/hdmi/hdmi.c:265-270 | inside lines 40-439, text modes show source line line-40 (below 400) and the other modes show (line-40)/2 (below 200) |
| ScanlineLayout.CellAt | drivers/hdmi/hdmi.c:338-347 | the cursor only covers glyph lines 14-15 while blink is on, and a cell with bit 7 of its attribute has no glyph while blink is on |
| ScanlineLayout.CellPixel | drivers/hdmi/hdmi.c:349-372 | every text pixel is a 16-colour index |
| ScanlineLayout.CgaPixel | drivers/hdmi/hdmi.c:387-398 | CGA pixels are 2-bit values, most significant pair first |
| ScanlineLayout.NibblePixel | drivers/hdmi/hdmi.c:412-415 | Tandy pixels are 4-bit values, high nibble first |
| ScanlineLayout.EgaPixel | drivers/hdmi/hdmi.c:453-476 | EGA pixels are 4-bit values |
| ScanlineLayout.VgaPixel | drivers/hdmi/hdmi.c:515-517 | the chained VGA clamp maps indices of 251 and above to 0 and keeps the others |
| ScanlineLayout.ModeByte | drivers/hdmi/hdmi.c:274-520 | CGA bytes are below 4; text, Tandy and EGA bytes are below 16; chained VGA bytes are below 251 |
| ScanlineLayout.PorchSyncLevels | drivers/hdmi/hdmi.c:523-547 | porch bytes are control characters, with horizontal sync active exactly on bytes 16-111 and vertical sync as the line asks |
| ScanlineLayout.LineSyncLevels | drivers/hdmi/hdmi.c:521-547 | a regenerated line carries horizontal sync on bytes 16-111 only and vertical sync on lines 490-491 only; blanking bytes are control characters |
| ScanlineLayout.BorderLinesBlack | drivers/hdmi/hdmi.c:267-278 | visible lines outside 40-439 are black in every mode |
| ScanlineLayout.ActiveRegionNoControl | drivers/hdmi/hdmi.c:274-520 | every mode except unchained VGA writes only indices below 251 into the active region; the 160-pixel modes leave the rest as it was |
| ScanlineLayout.Tga160HalfLine | drivers/hdmi/hdmi.c:402-418 | the 160-pixel Tandy and composite modes write only the first 320 active bytes |
| ScanlineLayout.VgaX4EmitsControl | drivers/hdmi/hdmi.c:480-504 | a pixel byte of 251 in unchained VGA reaches the line as control index 251 |
| ScanlineLayout.VgaX4ClampedByte | drivers/hdmi/hdmi.c:480-504 | the corrected unchained VGA rule never yields a control index |
| ScanlineLayout.VgaX4ClampAgrees | drivers/hdmi/hdmi.c:480-504 | the clamp changes only the bytes that would be control indices, and those become 0 |
| ScanlineLayout.ReuseIsExact | drivers/hdmi/hdmi.c:226-251 | in the line-doubled modes an odd line needs the same bytes as the even line before it, so reusing the buffer is exact |
| ScanlineLayout.TextCellRules | drivers/hdmi/hdmi.c:338-372 | while blink is on: the cursor cell shows its foreground on glyph lines 14-15; another cell with bit 7 set shows only its 3-bit background when blinking is enabled, and only its 4-bit background when it is not |
| ScanlineLayout.GlyphBitOrder | drivers/hdmi/hdmi.c:359-371 | pixel t of a cell shows glyph bit t: bits are consumed least significant first |
| ScanlineLayout.EgaPixelGather | drivers/hdmi/hdmi.c:450-476 | EGA output pixel p of a word is the gathered colour index at plane bit 7-p |
| HdmiDriver.Fill | drivers/hdmi/hdmi.c:526-546 | memset sets exactly the given range |
| HdmiDriver.RenderCell | drivers/hdmi/hdmi.c:349-372 | the eight pixels of a cell are CellPixel 0..7, and nothing else changes |
| HdmiDriver.RenderText | drivers/hdmi/hdmi.c:274-375 | active byte j of a text line is pixel j%8 of column j/8 of the line's text row |
| HdmiDriver.RenderCga | drivers/hdmi/hdmi.c:376-401 | 80 bytes from the bank of the line's parity, four 2-bit pixels each, each pixel twice |
| HdmiDriver.RenderTga160 | drivers/hdmi/hdmi.c:402-418 | 80 bytes become the first 320 active bytes, high nibble first, each twice; the rest is untouched |
| HdmiDriver.RenderTga320 | drivers/hdmi/hdmi.c:420-437 | 160 bytes from bank y%4, two 4-bit pixels each, each twice |
| HdmiDriver.RenderEga | drivers/hdmi/hdmi.c:438-479 | 40 words, each packed and emitted as 8 nibbles from the top, each twice |
| HdmiDriver.RenderVgaX4 | drivers/hdmi/hdmi.c:480-504 | 80 words, four bytes each, low byte first, each twice, unclamped |
| HdmiDriver.RenderVga | drivers/hdmi/hdmi.c:505-520 | 320 words, the low byte of each clamped and emitted twice |
| HdmiDriver.RenderMode | drivers/hdmi/hdmi.c:271-520 | the bytes a mode writes are ModeByte for that mode; the rest of the buffer is unchanged |
| HdmiDriver.RenderActive | drivers/hdmi/hdmi.c:258-520 | the 640 active bytes are black outside lines 40-439, otherwise the mode's decoding of the source line |
| HdmiDriver.FillLine | drivers/hdmi/hdmi.c:258-547 | the buffer holds LineByte for every byte: porches and active on visible lines with a framebuffer, otherwise the blanking or vertical sync pattern |
| HdmiDriver.ScanlineDriver.constructor | drivers/hdmi/hdmi.c:19-47 | the statics start at 80x25 colour text, no framebuffer or text buffer, zero sizes and offsets, scanline 0, buffer 0, counter 0, port 0x3DA clear, and zeroed scanline buffers |
| HdmiDriver.ScanlineDriver.SetMode | drivers/hdmi/hdmi.c:794-796 | only the mode changes |
| HdmiDriver.ScanlineDriver.SetBuffer | drivers/hdmi/hdmi.c:811-815 | only the framebuffer and its 16-bit width and height change |
| HdmiDriver.ScanlineDriver.SetOffset | drivers/hdmi/hdmi.c:835-838 | only the offsets change |
| HdmiDriver.ScanlineDriver.SetTextBuffer | drivers/hdmi/hdmi.c:840-842 | only the text buffer changes |
| HdmiDriver.ScanlineDriver.ScanlineInterrupt | drivers/hdmi/hdmi.c:210-549 | the counter increments; the scanline advances modulo 525; port 0x3DA shows retrace and parity; a line that is not regenerated leaves the buffers and the index alone; otherwise the index flips, the new buffer holds LineByte for the line, and the other buffer is untouched |
| HostRenderer.HostCellPixel | src/linux-main.cpp:166-179 | every host text pixel is a 16-colour index |
| HostRenderer.PutHostCell | src/linux-main.cpp:166-181 | the eight pixels of a host cell follow the cursor, blink and glyph rules, glyph bits least significant first |
| HostRenderer.RenderTextRow | src/linux-main.cpp:138-185 | pixel t of column c on row y is HostTextPixel: the cell at 0x8000 + 2·(offset mod 2^16) + 160·(y/16) + 2c, with the cursor on glyph lines 2·start..2·end or their complement |
| HostRenderer.PlanarColor | src/linux-main.cpp:336-340 | a planar colour index is below 16 |
| HostRenderer.PlanarColorGathers | src/linux-main.cpp:336-340 | the host's colour index of pixel p is the plane gather at bit 7-p |
| HostRenderer.ColorIndex | src/linux-main.cpp:331-340 | the host's expression on the four plane bytes gives the colour index of pixel k |
| HostRenderer.PutPlanarWord | src/linux-main.cpp:358-364 | a word gives eight pixels from plane bit 7 down to 0 |
| HostRenderer.PutPlanarWordDoubled | src/linux-main.cpp:336-344 | in mode 0x0D each of the eight pixels is written twice |
| HostRenderer.RenderPlanarRow | src/linux-main.cpp:326-425 | rows from the mode's limit (350 for 0x10) on are left alone; otherwise screen pixel x of row y is the plane gather of the mode's word and bit, and no other row changes |
| HostRenderer.EgaMatchesHost | src/linux-main.cpp:326-347 | HDMI line 40+y in EGA 320x200 holds the host's colour index of row y, pixel by pixel |
| HostRenderer.TextMatchesHost | src/linux-main.cpp:138-185 | in the text modes HDMI line 40+y equals host row y, pixel by pixel, when the host cursor starts at line 14 and ends at 16 or later, the offset is below 2^16, and blinking is enabled or blink is off |
| HostRenderer.CellMatchesHost | src/linux-main.cpp:158-179 | the same, cell by cell |
| HostRenderer.TextBlankingDiffers | src/linux-main.cpp:170-176 | with blink on and the blink attribute disabled, the driver shows background where the host shows the glyph |
| DebugConsole.StoredCode | src/linux-main.cpp:39-41 | the stored glyph code is below 64 |
| DebugConsole.StoredCodeRoundTrip | src/linux-main.cpp:39-41 | for chars 32-95 the stored code plus 32 is the char |
| DebugConsole.StoredCodeFoldsCase | src/linux-main.cpp:40 | chars 96-127 store the code of the char 32 below (lower case shows as upper case) |
| DebugConsole.Stored | src/linux-main.cpp:39-55 | a byte is stored exactly for printable chars and for a backspace with x > 0 |
| DebugConsole.AfterPut | src/linux-main.cpp:32-55 | the buffer after one call keeps its 800 cells |
| DebugConsole.ScrolledRows | src/linux-main.cpp:32-36 | the scroll moves rows 1-9 up one row and clears row 9 |
| DebugConsole.PrintableRun | src/linux-main.cpp:39-46 | printable chars move the cursor right one column each while the row has room |
| DebugConsole.NewlineRun | src/linux-main.cpp:47-49 | newlines move the cursor down one row each, to column 0 |
| DebugConsole.AsWrittenOverruns | src/linux-main.cpp:37-49 | nine newlines and eighty letters reach column 80 of row 9, and the next letter is stored at index 800, past the buffer |
| DebugConsole.IntendedStaysInside | src/linux-main.cpp:37-55 | with rows wrapping after column 79, the cursor stays in range and no store leaves the buffer |
| DebugConsole.IntendedStringStaysInside | src/linux-main.cpp:28-56 | the same for any string |
| DebugConsole.Console.ScrollUp | src/linux-main.cpp:32-36 | y becomes 9 and the buffer is scrolled |
| DebugConsole.Console.PutChar | src/linux-main.cpp:28-56 | the cursor moves as Advance with wrap column 80, the buffer becomes AfterPut, and the result reports exactly the stores past the buffer |
| DebugConsole.Console.PutCharWrapped | src/linux-main.cpp:28-56 | the corrected console keeps x below 80, so every store lands inside the buffer |
| Keyboard.ScanCode | src/linux-main.cpp:547-708 | every code fits in seven bits, so bit 7 is free for the release flag, and the code is nonzero exactly for the labelled keys (Mapped), which as compiled excludes '\|' (124) |
| Keyboard.DigitCode | src/linux-main.cpp:552-571 | the digit keys get nonzero seven-bit codes |
| Keyboard.LetterCode | src/linux-main.cpp:572-623 | keys 65-90 get the letters' nonzero set-1 make codes |
| Keyboard.ExtendedCode | src/linux-main.cpp:632-663 | the arrow and function keys get nonzero seven-bit codes |
| Keyboard.DataByte | src/linux-main.cpp:710-712 | unmapped keys give 0 with no release bit; mapped keys give their code in bits 0-6, with bit 7 set exactly on release |
| Keyboard.ScanCodeKeyOf | src/linux-main.cpp:549-704 | every mapped key's code leads back, through KeyOf, to a key with the same code |
| Keyboard.DigitKeyOf | src/linux-main.cpp:552-571 | KeyOf inverts the digit codes |
| Keyboard.LetterKeyOf | src/linux-main.cpp:572-623 | KeyOf inverts the letter codes |
| Keyboard.ExtendedKeyOf | src/linux-main.cpp:632-663 | KeyOf inverts the arrow and function key codes |
| Keyboard.OtherKeyOf | src/linux-main.cpp:624-704 | a shifted punctuation key leads back to its unshifted key with the same code |
| Keyboard.KeyOfScanCode | src/linux-main.cpp:549-704 | every code KeyOf knows is produced by the key it names |
| Keyboard.ShiftedPunctuationShares | src/linux-main.cpp:671-704 | as compiled, each unshifted punctuation key has a nonzero code, and its shifted partner shares it exactly when the partner is not '\|', which gets 0 |
| Keyboard.IntendedScanCode | src/linux-main.cpp:699-701 | with the '\|' label in force, the code is nonzero exactly for the labelled keys and 124, and agrees with ScanCode on every other key |
| Keyboard.IntendedShiftedPunctuationShares | src/linux-main.cpp:671-704 | with the '\|' label in force, every shifted and unshifted punctuation pair shares a nonzero code |
| Keyboard.IntendedScanCodeKeyOf | src/linux-main.cpp:549-704 | with the '\|' label in force, every mapped key's code still leads back through KeyOf to a key with that code |
| Keyboard.KeyboardPorts.HandleInput | src/linux-main.cpp:545-717 | port 0x60 receives DataByte of the key's code, which is 0 exactly for an unlabelled key (including '\|'), port 0x64 gets bit 1 set, and one IRQ 1 is raised |

## Left out

- The PIO programs, DMA set-up and chaining, clocks, and the DMA read-address writes of the handler are hardware configuration with no data logic. Only the choice of buffer index is modelled.
- `pio_set_x_register`, `initialize_hdmi_output` (apart from its control-symbol fill) and `graphics_init` are left out for the same reason.
- Video memory, the font, the page offsets, the cursor and the blink flags are inputs (`VideoInputs`). A read past the end of the memory snapshot yields 0; the source performs no bounds check.
- `textmode_palette` maps every index to itself in the driver's header, so the model uses the attribute nibbles directly. drivers/hdmi/hdmi.h is not part of this model.
- The Tandy 160-pixel store of one 32-bit word is modelled as four bytes in little-endian order.
- The scanline buffers are one 1600-byte array and the palette is a separate array of 512 words. In the source both live in one static region that does not overlap.
- The host renderer's screen holds colour indices. The RGB lookup through `cga_palette`/`vga_palette` is left out.
- The host renderer's other modes and its debug-console drawing (src/linux-main.cpp:523-541) are left out. The threads, audio, mouse and window code of src/linux-main.cpp are not part of this model.
- `_putchar`'s `putchar` to stdout is left out.
- The emulated CPU's `doirq(1)` is a counter of raised IRQ 1 requests.
- DebugConsole.Console.PutChar: the byte the source writes one past `DEBUG_VRAM` (undefined behaviour) is not stored anywhere. The method reports it through its result instead.
- The DMA interrupt acknowledge (drivers/hdmi/hdmi.c:217) is left out. `interrupt_counter` is kept as a 32-bit counter that wraps.
- The handler models the unchained VGA mode as written, without the clamp. `ScanlineLayout.VgaX4ClampedByte` is the corrected rule.
- The palette DMA and the PIO address converter are left out, so the model does not show that only the first word of an entry is streamed. The model still stores the second word as written.
- `Keyboard.KeyboardPorts.HandleInput` models the key table as compiled, where '|' (124) has no label. `Keyboard.IntendedScanCode` is the corrected table.

## Findings

| source | as written | input that shows it | evidently intended | confidence | as-written member | corrected member |
|---|---|---|---|---|---|---|
| src/linux-main.cpp:42-46 | x wraps to 0 only after reaching 80, so a store at column 80 lands at y·80+80 | nine '\n' then 81 'A': the 81st letter is stored at DEBUG_VRAM[800], one past the 800-byte buffer | wrap after column 79, so each row holds 80 characters | high, not executed | DebugConsole.AsWrittenOverruns | DebugConsole.IntendedStaysInside |
| drivers/hdmi/hdmi.c:480-504 | unchained VGA copies pixel bytes unclamped, while chained VGA maps 251-255 to 0 (505-520) | a pixel byte 0xFB on line 40 becomes control index 251, a horizontal sync pulse in the active region | clamp control indices to 0 as in the chained mode | medium, not executed | ScanlineLayout.VgaX4EmitsControl | ScanlineLayout.VgaX4ClampAgrees |
| src/linux-main.cpp:699-701 | the comment on the `case 92` line ends in a backslash, so line splicing joins `case 124: // \|` to that comment and 124 has no label | key code 124 ('\|'), pressed or released: port 0x60 receives 0 where backslash gives 0x2B/0xAB | '\|' shares the backslash key's code 0x2B | high, not executed | Keyboard.ShiftedPunctuationShares | Keyboard.IntendedShiftedPunctuationShares |
