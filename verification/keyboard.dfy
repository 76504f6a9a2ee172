/**
 * The host's keyboard input: `HandleInput` turns the window system's key
 * code into a PC scan code of set 1, puts it in the keyboard controller's
 * data port (bit 7 set on a release), marks the controller's output buffer
 * full and raises IRQ 1.
 */
module Keyboard {

  /** Bit 7 of a set-1 scan code marks a key release. */
  const ReleaseBit: nat := 0x80
  /** Bit 1 of port 0x64 as the handler sets it. */
  const StatusBit: bv8 := 0x02

  /**
   * The host key codes the switch gives a label: the digits, the letters,
   * the arrow and function keys, and the keys of `OtherCode`. The '|' key
   * (124) is not among them: the comment on the line of `case 92` ends in a
   * backslash, which splices the following `case 124` line into it.
   */
  predicate Mapped(keycode: nat)
  {
    || 48 <= keycode <= 57
    || 65 <= keycode <= 90
    || 1000 <= keycode <= 1015
    || keycode in {27, 32, 13, 8, 9, 16, 17, 18, 59, 58, 39, 34, 44, 60, 46, 62,
                   47, 63, 91, 123, 93, 125, 45, 95, 61, 43, 92, 96, 126}
  }

  /**
   * The set-1 make code of a host key code, or 0 for a key the switch does
   * not label. Shifted and unshifted punctuation share their key's code,
   * except '|', which as compiled is unlabelled.
   */
  function ScanCode(keycode: nat): (code: nat)
    ensures code < ReleaseBit
    ensures code != 0 <==> Mapped(keycode)
  {
    if 48 <= keycode <= 57 then DigitCode(keycode)
    else if 65 <= keycode <= 90 then LetterCode(keycode)
    else if 1000 <= keycode <= 1015 then ExtendedCode(keycode)
    else OtherCode(keycode)
  }

  /** The digit row, 1 to 9 and then 0. */
  function DigitCode(keycode: nat): (code: nat)
    requires 48 <= keycode <= 57
    ensures 0 < code < ReleaseBit
  {
    match keycode
    case 49 => 0x02
    case 50 => 0x03
    case 51 => 0x04
    case 52 => 0x05
    case 53 => 0x06
    case 54 => 0x07
    case 55 => 0x08
    case 56 => 0x09
    case 57 => 0x0A
    case _ => 0x0B   // 48, the 0 key
  }

  /** The letters, A to Z by their upper-case key codes. */
  function LetterCode(keycode: nat): (code: nat)
    requires 65 <= keycode <= 90
    ensures 0 < code < ReleaseBit
  {
    match keycode
    case 65 => 0x1E  // A
    case 66 => 0x30
    case 67 => 0x2E
    case 68 => 0x20
    case 69 => 0x12
    case 70 => 0x21
    case 71 => 0x22
    case 72 => 0x23
    case 73 => 0x17
    case 74 => 0x24
    case 75 => 0x25
    case 76 => 0x26
    case 77 => 0x32
    case 78 => 0x31
    case 79 => 0x18
    case 80 => 0x19
    case 81 => 0x10
    case 82 => 0x13
    case 83 => 0x1F
    case 84 => 0x14
    case 85 => 0x16
    case 86 => 0x2F
    case 87 => 0x11
    case 88 => 0x2D
    case 89 => 0x15
    case _ => 0x2C  // 90, Z
  }

  /** The arrow keys and F1 to F12. */
  function ExtendedCode(keycode: nat): (code: nat)
    requires 1000 <= keycode <= 1015
    ensures 0 < code < ReleaseBit
  {
    match keycode
    case 1000 => 0x4B  // Left
    case 1001 => 0x48  // Up
    case 1002 => 0x4D  // Right
    case 1003 => 0x50  // Down
    case 1004 => 0x3B  // F1
    case 1005 => 0x3C
    case 1006 => 0x3D
    case 1007 => 0x3E
    case 1008 => 0x3F
    case 1009 => 0x40
    case 1010 => 0x41
    case 1011 => 0x42
    case 1012 => 0x43
    case 1013 => 0x44  // F10
    case 1014 => 0x57  // F11
    case _ => 0x58  // 1015, F12
  }

  /**
   * Escape, the editing and modifier keys and the punctuation; 0 for any
   * other key, including '|' (124), whose label is swallowed by the comment
   * before it.
   */
  function OtherCode(keycode: nat): (code: nat)
    ensures code < ReleaseBit
    ensures code != 0 <==> keycode in {27, 32, 13, 8, 9, 16, 17, 18, 59, 58, 39, 34, 44, 60, 46, 62,
                                       47, 63, 91, 123, 93, 125, 45, 95, 61, 43, 92, 96, 126}
  {
    match keycode
    case 27 => 0x01  // Escape
    case 32 => 0x39  // Space
    case 13 => 0x1C  // Enter
    case 8 => 0x0E   // Backspace
    case 9 => 0x0F   // Tab
    case 16 => 0x2A  // Shift
    case 17 => 0x1D  // Ctrl
    case 18 => 0x38  // Alt
    case 59 => 0x27  // ;
    case 58 => 0x27  // :
    case 39 => 0x28  // '
    case 34 => 0x28  // "
    case 44 => 0x33  // ,
    case 60 => 0x33  // <
    case 46 => 0x34  // .
    case 62 => 0x34  // >
    case 47 => 0x35  // /
    case 63 => 0x35  // ?
    case 91 => 0x1A  // [
    case 123 => 0x1A // {
    case 93 => 0x1B  // ]
    case 125 => 0x1B // }
    case 45 => 0x0C  // -
    case 95 => 0x0C  // _
    case 61 => 0x0D  // =
    case 43 => 0x0D  // +
    case 92 => 0x2B  // backslash
    case 96 => 0x29  // `
    case 126 => 0x29 // ~
    case _ => 0
  }

  /**
   * The key a scan code belongs to, as the host key code of its unshifted
   * key; 0 for a code no key produces.
   */
  function KeyOf(code: nat): (keycode: nat)
  {
    if code == 0 || code >= 0x80 then 0
    else if code < 0x10 then KeyOfDigitRow(code)
    else if code < 0x20 then KeyOfUpperRow(code)
    else if code < 0x30 then KeyOfHomeRow(code)
    else if code < 0x40 then KeyOfLowerRow(code)
    else KeyOfExtended(code)
  }

  /** Codes 0x01 to 0x0F: Escape, the digit row, Backspace and Tab. */
  function KeyOfDigitRow(code: nat): nat
  {
    match code
    case 0x01 => 27
    case 0x02 => 49
    case 0x03 => 50
    case 0x04 => 51
    case 0x05 => 52
    case 0x06 => 53
    case 0x07 => 54
    case 0x08 => 55
    case 0x09 => 56
    case 0x0A => 57
    case 0x0B => 48
    case 0x0C => 45
    case 0x0D => 61
    case 0x0E => 8
    case 0x0F => 9
    case _ => 0
  }

  /** Codes 0x10 to 0x1F: Q to the brackets, Enter, Ctrl, A and S. */
  function KeyOfUpperRow(code: nat): nat
  {
    match code
    case 0x10 => 81
    case 0x11 => 87
    case 0x12 => 69
    case 0x13 => 82
    case 0x14 => 84
    case 0x15 => 89
    case 0x16 => 85
    case 0x17 => 73
    case 0x18 => 79
    case 0x19 => 80
    case 0x1A => 91
    case 0x1B => 93
    case 0x1C => 13
    case 0x1D => 17
    case 0x1E => 65
    case 0x1F => 83
    case _ => 0
  }

  /** Codes 0x20 to 0x2F: D to the back quote, Shift, backslash and Z to V. */
  function KeyOfHomeRow(code: nat): nat
  {
    match code
    case 0x20 => 68
    case 0x21 => 70
    case 0x22 => 71
    case 0x23 => 72
    case 0x24 => 74
    case 0x25 => 75
    case 0x26 => 76
    case 0x27 => 59
    case 0x28 => 39
    case 0x29 => 96
    case 0x2A => 16
    case 0x2B => 92
    case 0x2C => 90
    case 0x2D => 88
    case 0x2E => 67
    case 0x2F => 86
    case _ => 0
  }

  /** Codes 0x30 to 0x3F: B to the slash, Alt, Space and F1 to F5. */
  function KeyOfLowerRow(code: nat): nat
  {
    match code
    case 0x30 => 66
    case 0x31 => 78
    case 0x32 => 77
    case 0x33 => 44
    case 0x34 => 46
    case 0x35 => 47
    case 0x38 => 18
    case 0x39 => 32
    case 0x3B => 1004
    case 0x3C => 1005
    case 0x3D => 1006
    case 0x3E => 1007
    case 0x3F => 1008
    case _ => 0
  }

  /** Codes 0x40 to 0x7F: F6 to F12 and the arrow keys. */
  function KeyOfExtended(code: nat): nat
  {
    match code
    case 0x40 => 1009
    case 0x41 => 1010
    case 0x42 => 1011
    case 0x43 => 1012
    case 0x44 => 1013
    case 0x48 => 1001
    case 0x4B => 1000
    case 0x4D => 1002
    case 0x50 => 1003
    case 0x57 => 1014
    case 0x58 => 1015
    case _ => 0
  }

  /** The byte the data port receives for a make code: bit 7 set on a release of a known key. */
  function DataByte(code: nat, isKeyDown: bool): (b: nat)
    requires code < ReleaseBit
    ensures b < 0x100
    ensures code == 0 ==> b == 0
    ensures code != 0 ==> b % ReleaseBit == code && (b >= ReleaseBit <==> !isKeyDown)
  {
    // the make code is below 0x80, so setting bit 7 adds 0x80
    if !isKeyDown && code != 0 then code + ReleaseBit else code
  }

  /** Every known key's code leads back to a key with that code. */
  lemma ScanCodeKeyOf(keycode: nat)
    requires ScanCode(keycode) != 0
    ensures KeyOf(ScanCode(keycode)) != 0
    ensures ScanCode(KeyOf(ScanCode(keycode))) == ScanCode(keycode)
  {
    if 48 <= keycode <= 57 {
      DigitKeyOf(keycode);
    } else if 65 <= keycode <= 90 {
      LetterKeyOf(keycode);
    } else if 1000 <= keycode <= 1015 {
      ExtendedKeyOf(keycode);
    } else {
      OtherKeyOf(keycode);
    }
  }

  /** The digit keys are their own canonical keys. */
  lemma DigitKeyOf(keycode: nat)
    requires 48 <= keycode <= 57
    ensures KeyOf(DigitCode(keycode)) == keycode
  {
  }

  /** The letter keys are their own canonical keys. */
  lemma LetterKeyOf(keycode: nat)
    requires 65 <= keycode <= 90
    ensures KeyOf(LetterCode(keycode)) == keycode
  {
  }

  /** The arrow and function keys are their own canonical keys. */
  lemma ExtendedKeyOf(keycode: nat)
    requires 1000 <= keycode <= 1015
    ensures KeyOf(ExtendedCode(keycode)) == keycode
  {
  }

  /** A shifted punctuation key leads back to its unshifted key, which has the same code. */
  lemma OtherKeyOf(keycode: nat)
    requires OtherCode(keycode) != 0
    ensures KeyOf(OtherCode(keycode)) != 0
    ensures ScanCode(KeyOf(OtherCode(keycode))) == OtherCode(keycode)
  {
  }

  /** Every code of the table is produced by the key KeyOf names. */
  lemma KeyOfScanCode(code: nat)
    requires KeyOf(code) != 0
    ensures ScanCode(KeyOf(code)) == code
  {
  }

  /** The punctuation keys as (unshifted, shifted) key code pairs. */
  const ShiftPairs: seq<(nat, nat)> := [(59, 58), (39, 34), (44, 60), (46, 62), (47, 63),
    (91, 123), (93, 125), (45, 95), (61, 43), (92, 124), (96, 126)]

  /**
   * As compiled, every punctuation key reports the same code with Shift or
   * without, except '|', which reports 0 while backslash reports 0x2B.
   */
  lemma ShiftedPunctuationShares(unshifted: nat, shifted: nat)
    requires (unshifted, shifted) in ShiftPairs
    ensures ScanCode(unshifted) != 0
    ensures ScanCode(unshifted) == ScanCode(shifted) <==> shifted != 124
    ensures shifted == 124 ==> ScanCode(shifted) == 0
  {
  }

  /** The table with the '|' label in force, as the `case 124` line means it. */
  function IntendedScanCode(keycode: nat): (code: nat)
    ensures code < ReleaseBit
    ensures code != 0 <==> Mapped(keycode) || keycode == 124
    ensures keycode != 124 ==> code == ScanCode(keycode)
  {
    if keycode == 124 then 0x2B else ScanCode(keycode)
  }

  /** With the '|' label in force, every punctuation pair shares a nonzero code. */
  lemma IntendedShiftedPunctuationShares(unshifted: nat, shifted: nat)
    requires (unshifted, shifted) in ShiftPairs
    ensures IntendedScanCode(unshifted) == IntendedScanCode(shifted) != 0
  {
  }

  /** With the '|' label in force, every mapped key's code still leads back to a key with that code. */
  lemma IntendedScanCodeKeyOf(keycode: nat)
    requires IntendedScanCode(keycode) != 0
    ensures IntendedScanCode(KeyOf(IntendedScanCode(keycode))) == IntendedScanCode(keycode)
  {
    if keycode != 124 {
      ScanCodeKeyOf(keycode);
    }
  }

  /** The keyboard controller's registers as the input handler changes them. */
  class KeyboardPorts {
    /** Port 0x60, the data port. */
    var port60: nat
    /** Port 0x64, the status port. */
    var port64: bv8
    /** The IRQ 1 requests raised so far. */
    var irq1Raised: nat

    constructor ()
      ensures port60 == 0 && port64 == 0 && irq1Raised == 0
    {
      port60, port64, irq1Raised := 0, 0, 0;
    }

    /** One key event of the host window. */
    method HandleInput(keycode: nat, isKeyDown: bool)
      modifies this
      ensures port60 == DataByte(ScanCode(keycode), isKeyDown)
      ensures port60 == 0 <==> !Mapped(keycode)
      ensures port64 == old(port64) | StatusBit
      ensures irq1Raised == old(irq1Raised) + 1
    {
      var scancode := ScanCode(keycode);
      if !isKeyDown && scancode != 0 {
        scancode := scancode + ReleaseBit;
      }
      port60 := scancode;
      port64 := port64 | StatusBit;
      irq1Raised := irq1Raised + 1;
    }
  }
}
