/**
 * The host's debug console: `_putchar` writes every character the emulator
 * logs into a ten-row, eighty-column buffer of 6-bit glyph codes, moving a
 * cursor (x, y) and scrolling one row up once the cursor has left the last
 * row. The character is a signed C `char`, here an int in -128..127.
 */
module DebugConsole {

  const Columns: nat := 80
  const Rows: nat := 10
  const Cells: nat := Columns * Rows

  /** The column at which the written code moves to the next row. */
  const AsWrittenLastColumn: nat := 80
  /** The column at which a row is full: the last of its eighty cells. */
  const IntendedLastColumn: nat := 79

  datatype Cursor = Cursor(x: nat, y: nat)

  /** The cast to unsigned makes negative chars printable as well as 32..127. */
  predicate Printable(c: int)
  {
    c < 0 || c >= 32
  }

  /**
   * The glyph code stored for a printable char: lower case folds onto upper
   * case, and the code is the char minus 32 in six bits.
   */
  function StoredCode(c: int): (code: nat)
    requires -128 <= c < 128
    ensures code < 64
  {
    var folded := if c >= 96 then c - 32 else c;
    (folded - 32) % 64
  }

  /** Entering with the cursor below the last row scrolls first. */
  function Scroll(cur: Cursor): (s: Cursor)
    ensures s.x == cur.x
    ensures cur.y == Rows ==> s.y == Rows - 1
    ensures cur.y != Rows ==> s == cur
  {
    if cur.y == Rows then Cursor(cur.x, Rows - 1) else cur
  }

  /** Where the character lands: the cursor's cell after the scroll. */
  function WriteIndex(cur: Cursor): nat
  {
    Scroll(cur).y * Columns + Scroll(cur).x
  }

  /** The byte the call stores at the cursor's cell, if it stores one. */
  function Stored(cur: Cursor, c: int): (v: Option<bv8>)
    requires -128 <= c < 128
    ensures v.Some? <==> Printable(c) || (c == 8 && Scroll(cur).x > 0)
  {
    if Printable(c) then Some(StoredCode(c) as bv8)
    else if c == 8 && Scroll(cur).x > 0 then Some(0)
    else None
  }

  /** The cursor after one character, wrapping to the next row after `lastColumn`. */
  function Advance(cur: Cursor, c: int, lastColumn: nat): Cursor
  {
    var s := Scroll(cur);
    if Printable(c) then
      if s.x == lastColumn then Cursor(0, s.y + 1) else Cursor(s.x + 1, s.y)
    else if c == 10 then Cursor(0, s.y + 1)
    else if c == 13 then Cursor(0, s.y)
    else if c == 8 && s.x > 0 then Cursor(s.x - 1, s.y)
    else s
  }

  /** The cursor after a whole string. */
  function AdvanceAll(cur: Cursor, s: seq<int>, lastColumn: nat): Cursor
    decreases |s|
  {
    if s == [] then cur else AdvanceAll(Advance(cur, s[0], lastColumn), s[1..], lastColumn)
  }

  /** The buffer after the scroll: rows 1..9 move up and the last row is cleared. */
  function Scrolled(cells: seq<bv8>, cur: Cursor): seq<bv8>
    requires |cells| == Cells
  {
    if cur.y == Rows then cells[Columns..] + seq(Columns, _ => 0) else cells
  }

  /** The call stores a byte outside the buffer. */
  predicate Overruns(cur: Cursor, c: int)
    requires -128 <= c < 128
  {
    Stored(cur, c).Some? && WriteIndex(cur) >= Cells
  }

  /** The buffer after one character; a store outside the buffer changes none of its cells. */
  function AfterPut(cells: seq<bv8>, cur: Cursor, c: int): (r: seq<bv8>)
    requires |cells| == Cells && -128 <= c < 128
    ensures |r| == Cells
  {
    var scrolled := Scrolled(cells, cur);
    var i := WriteIndex(cur);
    if Stored(cur, c).Some? && i < Cells then scrolled[i := Stored(cur, c).value] else scrolled
  }

  /** Printable ASCII below the lower-case letters round-trips through the stored code. */
  lemma StoredCodeRoundTrip(c: int)
    requires 32 <= c < 96
    ensures StoredCode(c) + 32 == c
  {
  }

  /** Lower-case letters (and the four chars after them) share the glyph of their upper-case partner. */
  lemma StoredCodeFoldsCase(c: int)
    requires 96 <= c < 128
    ensures StoredCode(c) == StoredCode(c - 32)
  {
  }

  /** Scrolling moves every row up by one and leaves the last row blank. */
  lemma ScrolledRows(cells: seq<bv8>, i: nat)
    requires |cells| == Cells && i < Cells
    ensures i < Cells - Columns ==> Scrolled(cells, Cursor(0, Rows))[i] == cells[i + Columns]
    ensures i >= Cells - Columns ==> Scrolled(cells, Cursor(0, Rows))[i] == 0
  {
  }

  /** A run of printable chars moves the cursor right by one per char while the row has room. */
  lemma {:induction false} PrintableRun(cur: Cursor, s: seq<int>, lastColumn: nat)
    requires cur.y < Rows && cur.x + |s| <= lastColumn
    requires forall i :: 0 <= i < |s| ==> Printable(s[i])
    ensures AdvanceAll(cur, s, lastColumn) == Cursor(cur.x + |s|, cur.y)
    decreases |s|
  {
    if s != [] {
      PrintableRun(Cursor(cur.x + 1, cur.y), s[1..], lastColumn);
    }
  }

  /** A run of newlines moves the cursor down one row per newline, to column 0. */
  lemma {:induction false} NewlineRun(cur: Cursor, n: nat, lastColumn: nat)
    requires cur.y + n < Rows && n > 0
    ensures AdvanceAll(cur, seq(n, _ => 10), lastColumn) == Cursor(0, cur.y + n)
    decreases n
  {
    var s: seq<int> := seq(n, _ => 10);
    if n > 1 {
      assert s[1..] == seq(n - 1, _ => 10);
      NewlineRun(Cursor(0, cur.y + 1), n - 1, lastColumn);
    }
  }

  /**
   * As written, nine newlines and eighty letters put the cursor on column 80
   * of the last row, and the next letter is stored at index 800, one past
   * the end of the buffer.
   */
  lemma AsWrittenOverruns()
    ensures AdvanceAll(Cursor(0, 0), seq(9, _ => 10) + seq(80, _ => 65), AsWrittenLastColumn) == Cursor(80, 9)
    ensures Overruns(Cursor(80, 9), 65) && WriteIndex(Cursor(80, 9)) == Cells
  {
    var newlines: seq<int> := seq(9, _ => 10);
    var letters: seq<int> := seq(80, _ => 65);
    NewlineRun(Cursor(0, 0), 9, AsWrittenLastColumn);
    PrintableRun(Cursor(0, 9), letters, AsWrittenLastColumn);
    AdvanceAllAppend(Cursor(0, 0), newlines, letters, AsWrittenLastColumn);
  }

  lemma {:induction false} AdvanceAllAppend(cur: Cursor, s: seq<int>, t: seq<int>, lastColumn: nat)
    ensures AdvanceAll(cur, s + t, lastColumn) == AdvanceAll(AdvanceAll(cur, s, lastColumn), t, lastColumn)
    decreases |s|
  {
    if s == [] {
      assert s + t == t;
    } else {
      assert (s + t)[1..] == s[1..] + t;
      AdvanceAllAppend(Advance(cur, s[0], lastColumn), s[1..], t, lastColumn);
    }
  }

  /** A cursor inside the buffer (or just below it, about to scroll). */
  predicate InRange(cur: Cursor)
  {
    cur.x < Columns && cur.y <= Rows
  }

  /**
   * Wrapping after the eightieth column keeps the cursor in range, so no
   * character is ever stored outside the buffer.
   */
  lemma IntendedStaysInside(cur: Cursor, c: int)
    requires InRange(cur) && -128 <= c < 128
    ensures InRange(Advance(cur, c, IntendedLastColumn))
    ensures !Overruns(cur, c)
  {
  }

  /** The whole string keeps the cursor in range when rows wrap after the eightieth column. */
  lemma {:induction false} IntendedStringStaysInside(cur: Cursor, s: seq<int>)
    requires InRange(cur)
    requires forall i :: 0 <= i < |s| ==> -128 <= s[i] < 128
    ensures InRange(AdvanceAll(cur, s, IntendedLastColumn))
    decreases |s|
  {
    if s != [] {
      IntendedStaysInside(cur, s[0]);
      IntendedStringStaysInside(Advance(cur, s[0], IntendedLastColumn), s[1..]);
    }
  }

  datatype Option<T> = None | Some(value: T)

  /** The console's buffer and cursor (the static locals of `_putchar` and DEBUG_VRAM). */
  class Console {
    var x: nat
    var y: nat
    const vram: array<bv8>

    predicate Valid()
      reads this
    {
      vram.Length == Cells && x <= Columns && y <= Rows
    }

    constructor ()
      ensures Valid() && fresh(vram)
      ensures x == 0 && y == 0 && vram[..] == seq(Cells, _ => 0)
    {
      x, y := 0, 0;
      vram := new bv8[Cells](_ => 0);
    }

    /** Scrolls one row up: the memmove of rows 1..9 and the clearing of row 9. */
    method ScrollUp()
      requires Valid() && y == Rows
      modifies this, vram
      ensures Valid() && x == old(x) && y == Rows - 1
      ensures vram[..] == Scrolled(old(vram[..]), Cursor(old(x), old(y)))
    {
      y := Rows - 1;
      forall i | 0 <= i < Cells {
        vram[i] := if i < Cells - Columns then vram[i + Columns] else 0;
      }
    }

    /**
     * `_putchar` as written: the row wraps only once x has reached 80, so a
     * store at column 80 of the last row falls one past the buffer. The
     * model keeps the buffer unchanged there and reports the overrun.
     */
    method PutChar(c: int) returns (overrun: bool)
      requires Valid() && -128 <= c < 128
      modifies this, vram
      ensures Valid()
      ensures Cursor(x, y) == Advance(Cursor(old(x), old(y)), c, AsWrittenLastColumn)
      ensures vram[..] == AfterPut(old(vram[..]), Cursor(old(x), old(y)), c)
      ensures overrun == Overruns(Cursor(old(x), old(y)), c)
    {
      if y == Rows {
        ScrollUp();
      }
      var cell := y * Columns + x;
      overrun := false;
      if Printable(c) {
        if cell < Cells {
          vram[cell] := StoredCode(c) as bv8;
        } else {
          overrun := true;
        }
        if x == AsWrittenLastColumn {
          x, y := 0, y + 1;
        } else {
          x := x + 1;
        }
      } else if c == 10 {
        x, y := 0, y + 1;
      } else if c == 13 {
        x := 0;
      } else if c == 8 && x > 0 {
        x := x - 1;
        if cell < Cells {
          vram[cell] := 0;
        } else {
          overrun := true;
        }
      }
    }

    /** `_putchar` with the row wrapping after its eightieth column: every store lands inside the buffer. */
    method PutCharWrapped(c: int)
      requires Valid() && x < Columns && -128 <= c < 128
      modifies this, vram
      ensures Valid() && x < Columns
      ensures Cursor(x, y) == Advance(Cursor(old(x), old(y)), c, IntendedLastColumn)
      ensures vram[..] == AfterPut(old(vram[..]), Cursor(old(x), old(y)), c)
    {
      IntendedStaysInside(Cursor(x, y), c);
      if y == Rows {
        ScrollUp();
      }
      var cell := y * Columns + x;
      if Printable(c) {
        vram[cell] := StoredCode(c) as bv8;
        if x == IntendedLastColumn {
          x, y := 0, y + 1;
        } else {
          x := x + 1;
        }
      } else if c == 10 {
        x, y := 0, y + 1;
      } else if c == 13 {
        x := 0;
      } else if c == 8 && x > 0 {
        x := x - 1;
        vram[cell] := 0;
      }
    }
  }
}
