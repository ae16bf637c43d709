// The VGA text-mode console: an 80 x 25 grid of two-byte cells (character,
// attribute) at physical address 0xB8000, a software cursor that wraps to the
// next row at the right edge and back to the top row after the last one (no
// scrolling), and the CRT controller's cursor-location registers.
module Framebuffer {
  import opened Machine

  const ROWS := 25
  const COLS := 80
  const CELLS := ROWS * COLS
  /** Bytes of the cell array: character and attribute for every cell. */
  const BYTES := 2 * CELLS

  const COMMAND_PORT: uint16 := 0x3D4
  const DATA_PORT: uint16 := 0x3D5
  /** CRTC registers 14 and 15: high and low byte of the cursor location. */
  const CURSOR_HIGH: uint8 := 14
  const CURSOR_LOW: uint8 := 15

  /** Light grey on black. */
  const ATTRIBUTE: int8 := 0x07
  const SPACE: int8 := 0x20

  /** The console: the cell bytes and the cursor. */
  datatype Screen = Screen(cells: seq<int8>, row: int, col: int)

  predicate ValidScreen(s: Screen)
  {
    |s.cells| == BYTES && 0 <= s.row < ROWS && 0 <= s.col < COLS
  }

  /** Index of the cell at (row, col), counted row by row. */
  function Pos(row: int, col: int): int
  {
    row * COLS + col
  }

  function CursorPos(s: Screen): int
  {
    Pos(s.row, s.col)
  }

  /** The cursor of a valid console names one of its cells. */
  lemma CursorInGrid(s: Screen)
    requires ValidScreen(s)
    ensures 0 <= CursorPos(s) < CELLS
  {
  }

  /** Offset of the character byte of cell `pos`. */
  function CharByteAt(pos: int): int
  {
    2 * pos
  }

  /** Offset of the attribute byte of cell `pos`. */
  function AttrByteAt(pos: int): int
  {
    2 * pos + 1
  }

  /** Whether `fb_write_char` ends the cursor's row: on a newline, or when
      the cursor steps past the right edge. */
  predicate EndsRow(col: int, newline: bool)
  {
    newline || col + 1 >= COLS
  }

  /** The cursor column after `fb_write_char`. */
  function NextCol(col: int, newline: bool): (c: int)
    requires 0 <= col < COLS
    ensures 0 <= c < COLS
  {
    if EndsRow(col, newline) then 0 else col + 1
  }

  /** The cursor row after `fb_write_char`: the next row when the row ends,
      back to the top below the last one (there is no scrolling). */
  function NextRow(row: int, col: int, newline: bool): (r: int)
    requires 0 <= row < ROWS
    ensures 0 <= r < ROWS
  {
    var r := if EndsRow(col, newline) then row + 1 else row;
    if r >= ROWS then 0 else r
  }

  /** A newline moves the cursor to the start of the next row, the top row
      after the last; any other character moves it to the next cell in
      reading order, the first cell after the last. */
  lemma NextCursorAdvances(row: int, col: int, newline: bool)
    requires 0 <= row < ROWS && 0 <= col < COLS
    ensures newline ==> NextRow(row, col, newline) == (row + 1) % ROWS && NextCol(col, newline) == 0
    ensures !newline ==> Pos(NextRow(row, col, newline), NextCol(col, newline)) == (Pos(row, col) + 1) % CELLS
  {
  }

  /** The console after `fb_write_char(c)`. */
  function AfterChar(s: Screen, c: int8): (r: Screen)
    requires ValidScreen(s)
    ensures ValidScreen(r)
  {
    var pos := CursorPos(s);
    var cells := if c == NEWLINE then s.cells else s.cells[CharByteAt(pos) := c][AttrByteAt(pos) := ATTRIBUTE];
    Screen(cells, NextRow(s.row, s.col, c == NEWLINE), NextCol(s.col, c == NEWLINE))
  }

  /** What `fb_write_char(c)` does to the cells: a newline writes none; any
      other character fills the cursor's cell, character and attribute, and
      that cell only. */
  lemma AfterCharCells(s: Screen, c: int8)
    requires ValidScreen(s)
    ensures c == NEWLINE ==> AfterChar(s, c).cells == s.cells
    ensures c != NEWLINE ==>
      AfterChar(s, c).cells[CharByteAt(CursorPos(s))] == c &&
      AfterChar(s, c).cells[AttrByteAt(CursorPos(s))] == ATTRIBUTE &&
      forall i {:trigger AfterChar(s, c).cells[i]} ::
        0 <= i < BYTES && i != CharByteAt(CursorPos(s)) && i != AttrByteAt(CursorPos(s)) ==>
        AfterChar(s, c).cells[i] == s.cells[i]
  {
  }

  /** The blank cell array `fb_clear` leaves: spaces, light grey on black. */
  function BlankCells(): (b: seq<int8>)
    ensures |b| == BYTES
    ensures forall i :: 0 <= i < BYTES ==> b[i] == if i % 2 == 0 then SPACE else ATTRIBUTE
  {
    seq(BYTES, i => if i % 2 == 0 then SPACE else ATTRIBUTE)
  }

  /** The port writes of `fb_move_cursor` for cursor location `pos`. */
  function CursorWrites(pos: int): (w: seq<Event>)
    requires 0 <= pos < CELLS
    ensures |w| == 4
    ensures w[0] == PortWrite(COMMAND_PORT, CURSOR_HIGH) && w[2] == PortWrite(COMMAND_PORT, CURSOR_LOW)
    ensures w[1].PortWrite? && w[1].port == DATA_PORT && w[3].PortWrite? && w[3].port == DATA_PORT
    // the two data bytes are the location's high and low byte
    ensures w[1].value * 0x100 + w[3].value == pos
  {
    [ PortWrite(COMMAND_PORT, CURSOR_HIGH), PortWrite(DATA_PORT, HighByte(pos)),
      PortWrite(COMMAND_PORT, CURSOR_LOW), PortWrite(DATA_PORT, LowByte(pos)) ]
  }

  /** `(pos >> 8) & 0xFF` of a non-negative `int`. */
  function HighByte(pos: nat): uint8
  {
    (pos / 0x100) % 0x100
  }

  /** `pos & 0xFF` of a non-negative `int`. */
  function LowByte(pos: nat): uint8
  {
    pos % 0x100
  }

  /** The console state of fb.c: the cell memory and `cursor_row`/`cursor_col`. */
  class Console {
    /** The VGA memory at 0xB8000, seen as a plain byte array. */
    var fb: array<int8>
    var cursorRow: int
    var cursorCol: int

    ghost predicate Valid()
      reads this
    {
      fb.Length == BYTES && 0 <= cursorRow < ROWS && 0 <= cursorCol < COLS
    }

    ghost function State(): (s: Screen)
      reads this, fb
      requires Valid()
      ensures ValidScreen(s)
    {
      Screen(fb[..], cursorRow, cursorCol)
    }

    /** The console at boot: cursor at (0, 0); the cells hold whatever the
        display shows then. */
    constructor ()
      ensures Valid() && fresh(fb) && cursorRow == 0 && cursorCol == 0
    {
      fb := new int8[BYTES];
      cursorRow, cursorCol := 0, 0;
    }

    /** `fb_move_cursor`: point the hardware cursor at the software one. */
    method MoveCursor(io: IoPorts)
      requires Valid()
      modifies io
      ensures io.log == old(io.log) + CursorWrites(Pos(cursorRow, cursorCol))
    {
      var pos := cursorRow * COLS + cursorCol;

      io.Outb(COMMAND_PORT, CURSOR_HIGH);
      io.Outb(DATA_PORT, HighByte(pos));
      io.Outb(COMMAND_PORT, CURSOR_LOW);
      io.Outb(DATA_PORT, LowByte(pos));
    }

    /** `fb_clear`. */
    method Clear(io: IoPorts)
      requires Valid()
      modifies this, fb, io
      ensures Valid() && fb == old(fb)
      ensures State() == Screen(BlankCells(), 0, 0)
      ensures io.log == old(io.log) + CursorWrites(0)
    {
      for i := 0 to CELLS
        invariant Valid() && fb == old(fb) && io.log == old(io.log)
        invariant forall j :: 0 <= j < 2 * i ==> fb[j] == BlankCells()[j]
      {
        fb[i * 2] := SPACE;
        fb[i * 2 + 1] := ATTRIBUTE;
      }
      cursorRow := 0;
      cursorCol := 0;
      MoveCursor(io);
    }

    /** `fb_write_char(c)`. */
    method WriteChar(c: int8, io: IoPorts)
      requires Valid()
      modifies this, fb, io
      ensures Valid() && fb == old(fb)
      ensures State() == AfterChar(old(State()), c)
      ensures io.log == old(io.log) + CursorWrites(CursorPos(State()))
    {
      if c == NEWLINE {
        cursorRow := cursorRow + 1;
        cursorCol := 0;
      } else {
        var pos := cursorRow * COLS + cursorCol;
        fb[pos * 2] := c;
        fb[pos * 2 + 1] := ATTRIBUTE;
        cursorCol := cursorCol + 1;
      }

      if cursorCol >= COLS {
        cursorCol := 0;
        cursorRow := cursorRow + 1;
      }

      if cursorRow >= ROWS {
        cursorRow := 0;
      }

      MoveCursor(io);
    }
  }
}
