// The PS/2 keyboard: scan code set 1 decoded through a table indexed by the
// make code, and the interrupt service routine that echoes every decoded key
// to the terminal.
module Keyboard {
  import opened Machine
  import opened Framebuffer
  import Terminal

  /** The data port of the keyboard controller. */
  const DATA_PORT: uint16 := 0x60

  const ESC: int8 := 27
  const BACKSPACE: int8 := 8
  const TAB: int8 := 9

  /** `sc_ascii`: the character of each make code of the main block, 0 where
      the key has none (Ctrl, the two Shifts, Alt); 27 is Esc and 8 is
      backspace. Written as its four source lines of 15, 15, 15 and 13
      entries. */
  const SC_ASCII: seq<int8> := SC_ROW_0 + SC_ROW_1 + SC_ROW_2 + SC_ROW_3

  const SC_ROW_0: seq<int8> := [
    0, 27, '1' as int8, '2' as int8, '3' as int8, '4' as int8, '5' as int8, '6' as int8,
    '7' as int8, '8' as int8, '9' as int8, '0' as int8, '-' as int8, '=' as int8, 8]
  const SC_ROW_1: seq<int8> := [
    '\t' as int8, 'q' as int8, 'w' as int8, 'e' as int8, 'r' as int8, 't' as int8, 'y' as int8,
    'u' as int8, 'i' as int8, 'o' as int8, 'p' as int8, '[' as int8, ']' as int8, '\n' as int8, 0]
  const SC_ROW_2: seq<int8> := [
    'a' as int8, 's' as int8, 'd' as int8, 'f' as int8, 'g' as int8, 'h' as int8, 'j' as int8,
    'k' as int8, 'l' as int8, ';' as int8, '\'' as int8, '`' as int8, 0, '\\' as int8, 'z' as int8]
  const SC_ROW_3: seq<int8> := [
    'x' as int8, 'c' as int8, 'v' as int8, 'b' as int8, 'n' as int8, 'm' as int8, ',' as int8,
    '.' as int8, '/' as int8, 0, '*' as int8, 0, ' ' as int8]

  /** Bit 7 of a scan code marks the release of a key (a break code). */
  predicate IsRelease(sc: uint8)
  {
    (sc as bv8) & 0x80 != 0
  }

  /** The break codes are exactly the upper half of the byte range. */
  lemma ReleaseIsUpperHalf(sc: uint8)
    ensures IsRelease(sc) <==> sc >= 0x80
  {
    assert (sc as bv8) & 0x80 == if sc >= 0x80 then 0x80 else 0;
  }

  /** The outcome of the table lookup as `keyboard_isr` performs it. */
  datatype Lookup =
    | NoOutput
    | Output(c: int8)
      // `sc_ascii[sc]` past the end of the table: the C program reads
      // whatever follows the table in memory
    | OutOfBounds

  /** `keyboard_isr`'s decode as written: every make code indexes the table. */
  function DecodeAsWritten(sc: uint8): (r: Lookup)
    // every character the table yields is a 7-bit character other than NUL
    ensures r.Output? ==> 0 < r.c < 0x80
  {
    TableIsAscii();
    if IsRelease(sc) then NoOutput
    else if sc >= |SC_ASCII| then OutOfBounds
    else if SC_ASCII[sc] == 0 then NoOutput
    else Output(SC_ASCII[sc])
  }

  /** The Caps Lock make code 0x3A is a make code the table does not cover. */
  lemma CapsLockReadsPastTable()
    ensures !IsRelease(0x3A) && DecodeAsWritten(0x3A) == OutOfBounds
  {
    ReleaseIsUpperHalf(0x3A);
  }

  /** The decode with the table bound checked: the character a scan code
      produces, if any. */
  function Decode(sc: uint8): (r: Option<int8>)
    // releases and keys without a character produce nothing
    ensures IsRelease(sc) ==> r == None
    // press codes past the table produce nothing
    ensures sc >= |SC_ASCII| ==> r == None
    // whatever is produced is a 7-bit character other than NUL
    ensures r.Some? ==> 0 < r.value < 0x80
  {
    TableIsAscii();
    if IsRelease(sc) || sc >= |SC_ASCII| || SC_ASCII[sc] == 0 then None
    else Some(SC_ASCII[sc])
  }

  /** Every entry of the table is a 7-bit character. */
  lemma TableIsAscii()
    ensures |SC_ASCII| == 58
    ensures forall i :: 0 <= i < |SC_ASCII| ==> 0 <= SC_ASCII[i] < 0x80
  {
    assert forall i :: 0 <= i < |SC_ROW_0| ==> 0 <= SC_ROW_0[i] < 0x80;
    assert forall i :: 0 <= i < |SC_ROW_1| ==> 0 <= SC_ROW_1[i] < 0x80;
    assert forall i :: 0 <= i < |SC_ROW_2| ==> 0 <= SC_ROW_2[i] < 0x80;
    assert forall i :: 0 <= i < |SC_ROW_3| ==> 0 <= SC_ROW_3[i] < 0x80;
  }

  /** Wherever the lookup as written stays inside the table, the checked
      decode agrees with it. */
  lemma DecodeAgreesInBounds(sc: uint8)
    requires DecodeAsWritten(sc) != OutOfBounds
    ensures DecodeAsWritten(sc) == NoOutput <==> Decode(sc) == None
    ensures forall c: int8 :: DecodeAsWritten(sc) == Output(c) <==> Decode(sc) == Some(c)
  {
  }

  /** The lookup as written leaves the table for exactly the make codes past
      its 58 entries. */
  lemma OutOfBoundsCodes(sc: uint8)
    ensures DecodeAsWritten(sc) == OutOfBounds <==> |SC_ASCII| <= sc < 0x80
  {
    ReleaseIsUpperHalf(sc);
  }

  /** Within the table, the make codes without a character are those of Ctrl
      (0x1D), left Shift (0x2A), right Shift (0x36), Alt (0x38) and the
      unused code 0. */
  lemma SilentKeys(sc: uint8)
    requires sc < |SC_ASCII|
    ensures Decode(sc) == None <==> sc in {0, 0x1D, 0x2A, 0x36, 0x38}
  {
    ReleaseIsUpperHalf(sc);
    if sc < 15 {
      assert forall i :: 0 <= i < 15 ==> (SC_ROW_0[i] == 0 <==> i == 0);
    } else if sc < 30 {
      assert forall i :: 0 <= i < 15 ==> (SC_ROW_1[i] == 0 <==> i == 14);
    } else if sc < 45 {
      assert forall i :: 0 <= i < 15 ==> (SC_ROW_2[i] == 0 <==> i == 12);
    } else {
      assert forall i :: 0 <= i < 13 ==> (SC_ROW_3[i] == 0 <==> i == 9 || i == 11);
    }
  }

  /** Some keys of the US layout. */
  lemma SampleKeys()
    ensures Decode(0x1E) == Some('a' as int)
    ensures Decode(0x1C) == Some(NEWLINE)
    ensures Decode(0x0E) == Some(BACKSPACE)
    ensures Decode(0x01) == Some(ESC)
    ensures Decode(0x39) == Some(' ' as int)
  {
    ReleaseIsUpperHalf(0x1E);
    ReleaseIsUpperHalf(0x1C);
    ReleaseIsUpperHalf(0x0E);
    ReleaseIsUpperHalf(0x01);
    ReleaseIsUpperHalf(0x39);
  }

  /** The console after the service routine handled scan code `sc`. */
  function IsrScreen(s: Screen, sc: uint8): (r: Screen)
    requires ValidScreen(s)
    ensures ValidScreen(r)
  {
    match Decode(sc)
    case None => s
    case Some(c) => AfterChar(s, c)
  }

  /** The cursor-register writes of the service routine. */
  function IsrWrites(s: Screen, sc: uint8): seq<Event>
    requires ValidScreen(s)
  {
    match Decode(sc)
    case None => []
    case Some(c) => CursorWrites(CursorPos(AfterChar(s, c)))
  }

  /** A key release, or a key without a character, leaves the screen and the
      ports alone; any other key puts its character on the screen once. */
  lemma IsrEffect(s: Screen, sc: uint8)
    requires ValidScreen(s)
    ensures IsRelease(sc) ==> IsrScreen(s, sc) == s && IsrWrites(s, sc) == []
    ensures Decode(sc) == None <==> IsrScreen(s, sc) == s && IsrWrites(s, sc) == []
    ensures Decode(sc).Some? ==>
      IsrScreen(s, sc) == Terminal.AfterText(s, [Decode(sc).value]) &&
      IsrWrites(s, sc) == Terminal.TextTrace(s, [Decode(sc).value])
  {
    if Decode(sc).Some? {
      assert [Decode(sc).value][..0] == [];
    }
  }

  /** `keyboard_isr`, with `sc` the byte `inb(0x60)` reads. */
  method Isr(sc: uint8, con: Console, io: IoPorts)
    requires con.Valid()
    modifies con, con.fb, io
    ensures con.Valid() && con.fb == old(con.fb)
    ensures con.State() == IsrScreen(old(con.State()), sc)
    ensures io.log == old(io.log) + IsrWrites(old(con.State()), sc)
  {
    if (sc as bv8) & 0x80 == 0 {
      if sc < |SC_ASCII| {
        var c := SC_ASCII[sc];
        if c != 0 {
          Terminal.Put(con, io, c);
        }
      }
    }
  }
}
