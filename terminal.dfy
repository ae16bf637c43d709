// The terminal: NUL-terminated strings written character by character to the
// console, the boot banner, and the command loop that reads a line from the
// input queue and echoes it.
module Terminal {
  import opened Machine
  import opened Framebuffer
  import Input

  /** The bytes of an ASCII string literal, without its terminating NUL. */
  function Bytes(t: string): (b: seq<int8>)
    ensures |b| == |t| && forall i :: 0 <= i < |t| ==> b[i] == CharByte(t[i])
  {
    seq(|t|, i requires 0 <= i < |t| => CharByte(t[i]))
  }

  /** A string literal as the compiler lays it out: its bytes and a NUL. */
  function CString(t: string): seq<int8>
  {
    Bytes(t) + [0]
  }

  /** `strlen`: the position of the first NUL. */
  function StrLen(s: seq<int8>): (n: nat)
    requires 0 in s
    ensures n < |s| && s[n] == 0 && 0 !in s[..n]
    decreases |s|
  {
    if s[0] == 0 then 0
    else
      var n := StrLen(s[1..]);
      assert s[..n + 1] == [s[0]] + s[1..][..n];
      n + 1
  }

  /** The characters of a C string: everything before its first NUL. */
  function Text(s: seq<int8>): seq<int8>
    requires 0 in s
  {
    s[..StrLen(s)]
  }

  /** A string literal without NUL characters reads back as its own bytes. */
  lemma {:induction false} TextOfCString(t: string)
    requires forall i :: 0 <= i < |t| ==> CharByte(t[i]) != 0
    ensures 0 in CString(t) && Text(CString(t)) == Bytes(t)
  {
    var s := CString(t);
    assert s[|t|] == 0;
    assert s[..|t|] == Bytes(t);
  }

  /** `strlen` finds the first NUL: any NUL with none before it is that one. */
  lemma StrLenUnique(s: seq<int8>, m: nat)
    requires m < |s| && s[m] == 0 && 0 !in s[..m]
    ensures StrLen(s) == m
  {
  }

  /** What follows the first NUL of a C string does not matter. */
  lemma TextOfPrefix(s: seq<int8>, n: nat)
    requires n <= |s| && 0 in s[..n]
    ensures 0 in s && Text(s) == Text(s[..n])
  {
    var m := StrLen(s[..n]);
    assert s[m] == 0;
    assert s[..m] == s[..n][..m];
    StrLenUnique(s, m);
  }

  /** A byte string without NUL, once terminated, reads back as itself. */
  lemma TextOfTerminated(b: seq<int8>)
    requires 0 !in b
    ensures 0 in b + [0] && Text(b + [0]) == b
  {
    assert (b + [0])[..|b|] == b;
    StrLenUnique(b + [0], |b|);
  }

  /** The console after `fb_write_char` of every byte of `t`, in order. */
  function AfterText(s: Screen, t: seq<int8>): (r: Screen)
    requires ValidScreen(s)
    ensures ValidScreen(r)
    decreases |t|
  {
    if t == [] then s else AfterChar(AfterText(s, t[..|t| - 1]), t[|t| - 1])
  }

  /** The cursor-register writes those `fb_write_char` calls make. */
  function TextTrace(s: Screen, t: seq<int8>): seq<Event>
    requires ValidScreen(s)
    decreases |t|
  {
    if t == [] then [] else TextTrace(s, t[..|t| - 1]) + CursorWrites(CursorPos(AfterText(s, t)))
  }

  /** Writing the prefix of `s` one character longer. */
  lemma WriteStep(s0: Screen, s: seq<int8>, i: nat)
    requires ValidScreen(s0) && i < |s|
    ensures AfterText(s0, s[..i + 1]) == AfterChar(AfterText(s0, s[..i]), s[i])
    ensures TextTrace(s0, s[..i + 1]) == TextTrace(s0, s[..i]) + CursorWrites(CursorPos(AfterText(s0, s[..i + 1])))
  {
    assert s[..i + 1][..i] == s[..i];
  }

  /** Writing two texts one after the other is writing their concatenation. */
  lemma {:induction false} AfterTextAppend(s: Screen, a: seq<int8>, b: seq<int8>)
    requires ValidScreen(s)
    ensures AfterText(s, a + b) == AfterText(AfterText(s, a), b)
    ensures TextTrace(s, a + b) == TextTrace(s, a) + TextTrace(AfterText(s, a), b)
    decreases |b|
  {
    if b == [] {
      assert a + b == a;
    } else {
      var b' := b[..|b| - 1];
      AfterTextAppend(s, a, b');
      assert (a + b)[..|a + b| - 1] == a + b';
    }
  }

  /** A text without newline that fits on the cursor's row leaves the cursor
      on that row, one column further per character. */
  lemma {:induction false} AfterTextOnRow(s: Screen, t: seq<int8>)
    requires ValidScreen(s) && NEWLINE !in t && s.col + |t| < COLS
    ensures AfterText(s, t).row == s.row && AfterText(s, t).col == s.col + |t|
    decreases |t|
  {
    if t != [] {
      var t', c := t[..|t| - 1], t[|t| - 1];
      assert c != NEWLINE by {
        assert t[|t| - 1] in t;
      }
      AfterTextOnRow(s, t');
    }
  }

  /** Cells `p`, `p + 1`, ... of `cells` hold the characters of `t`, each
      with the console attribute. */
  predicate Shows(cells: seq<int8>, p: int, t: seq<int8>)
  {
    |cells| == BYTES && 0 <= p && p + |t| <= CELLS &&
    forall k :: 0 <= k < |t| ==> cells[CharByteAt(p + k)] == t[k] && cells[AttrByteAt(p + k)] == ATTRIBUTE
  }

  /** One more character on the row: the cells already written keep their
      text, and the last character of `t` lands in the cursor's cell. */
  lemma WriteOnRowStep(before: Screen, p: int, t: seq<int8>)
    requires ValidScreen(before) && t != [] && t[|t| - 1] != NEWLINE
    requires CursorPos(before) == p + |t| - 1 && Shows(before.cells, p, t[..|t| - 1])
    ensures Shows(AfterChar(before, t[|t| - 1]).cells, p, t)
  {
    var c := t[|t| - 1];
    AfterCharCells(before, c);
    CursorInGrid(before);
    forall k | 0 <= k < |t|
      ensures AfterChar(before, c).cells[CharByteAt(p + k)] == t[k]
      ensures AfterChar(before, c).cells[AttrByteAt(p + k)] == ATTRIBUTE
    {
      if k < |t| - 1 {
        assert t[..|t| - 1][k] == t[k];
        assert AttrByteAt(p + k) < CharByteAt(CursorPos(before));
      } else {
        assert p + k == CursorPos(before);
      }
    }
    assert |AfterChar(before, c).cells| == BYTES;
    assert 0 <= p;
    assert p + |t| <= CELLS;
  }

  /** ... and lands there, one cell per character, character and attribute. */
  lemma {:induction false} AfterTextOnRowWrites(s: Screen, t: seq<int8>)
    requires ValidScreen(s) && NEWLINE !in t && s.col + |t| < COLS
    ensures Shows(AfterText(s, t).cells, CursorPos(s), t)
    decreases |t|
  {
    CursorInGrid(s);
    if t != [] {
      var t' := t[..|t| - 1];
      assert t[|t| - 1] != NEWLINE by {
        assert t[|t| - 1] in t;
      }
      AfterTextOnRow(s, t');
      AfterTextOnRowWrites(s, t');
      WriteOnRowStep(AfterText(s, t'), CursorPos(s), t);
    }
  }

  /** ... and changes no other cell. */
  lemma {:induction false} AfterTextOnRowKeeps(s: Screen, t: seq<int8>)
    requires ValidScreen(s) && NEWLINE !in t && s.col + |t| < COLS
    ensures forall i {:trigger AfterText(s, t).cells[i]} ::
      0 <= i < BYTES && !(CharByteAt(CursorPos(s)) <= i < CharByteAt(CursorPos(s) + |t|)) ==>
      AfterText(s, t).cells[i] == s.cells[i]
    decreases |t|
  {
    if t != [] {
      var t', c := t[..|t| - 1], t[|t| - 1];
      assert c != NEWLINE by {
        assert t[|t| - 1] in t;
      }
      AfterTextOnRow(s, t');
      AfterTextOnRowKeeps(s, t');
      AfterCharCells(AfterText(s, t'), c);
    }
  }

  /** `terminal_write(s)`: every character before the first NUL, in order. */
  method Write(con: Console, io: IoPorts, s: seq<int8>)
    requires con.Valid() && 0 in s
    modifies con, con.fb, io
    ensures con.Valid() && con.fb == old(con.fb)
    ensures con.State() == AfterText(old(con.State()), Text(s))
    ensures io.log == old(io.log) + TextTrace(old(con.State()), Text(s))
  {
    ghost var s0 := con.State();
    ghost var n := StrLen(s);
    var i := 0;
    while s[i] != 0
      invariant 0 <= i <= n
      invariant con.Valid() && con.fb == old(con.fb)
      invariant con.State() == AfterText(s0, s[..i])
      invariant io.log == old(io.log) + TextTrace(s0, s[..i])
      decreases n - i
    {
      WriteStep(s0, s, i);
      con.WriteChar(s[i], io);
      AppendAssoc(old(io.log), TextTrace(s0, s[..i]), CursorWrites(CursorPos(con.State())));
      i := i + 1;
    }
  }

  /** `terminal_write` of the empty string writes nothing and leaves the
      cursor where it was. */
  lemma WriteEmptyString(st: Screen, s: seq<int8>)
    requires ValidScreen(st) && s != [] && s[0] == 0
    ensures 0 in s && Text(s) == [] && AfterText(st, Text(s)) == st && TextTrace(st, Text(s)) == []
  {
    StrLenUnique(s, 0);
  }

  /** `terminal_put(c)`. */
  method Put(con: Console, io: IoPorts, c: int8)
    requires con.Valid()
    modifies con, con.fb, io
    ensures con.Valid() && con.fb == old(con.fb)
    ensures con.State() == AfterChar(old(con.State()), c)
    ensures io.log == old(io.log) + CursorWrites(CursorPos(con.State()))
  {
    con.WriteChar(c, io);
  }

  const WELCOME := "Welcome to my OS!\n"
  /** Length of the banner's first line, without the newline. */
  const WELCOME_WIDTH := |WELCOME| - 1

  /** The banner is one line of printable text and a newline. */
  lemma WelcomeLine()
    ensures |Bytes(WELCOME)| == WELCOME_WIDTH + 1 && WELCOME_WIDTH < COLS
    ensures Bytes(WELCOME) == Bytes(WELCOME)[..WELCOME_WIDTH] + [NEWLINE]
    ensures NEWLINE !in Bytes(WELCOME)[..WELCOME_WIDTH]
    ensures forall i :: 0 <= i < |WELCOME| ==> CharByte(WELCOME[i]) != 0
  {
    assert forall i :: 0 <= i < |WELCOME| ==> WELCOME[i] as int < 0x80;
  }

  /** A line that fits on the cursor's row, then a newline, moves the cursor
      to the start of the next row ... */
  lemma LineThenNewline(s: Screen, line: seq<int8>)
    requires ValidScreen(s) && NEWLINE !in line && s.col + |line| < COLS
    ensures AfterText(s, line + [NEWLINE]).row == if s.row == ROWS - 1 then 0 else s.row + 1
    ensures AfterText(s, line + [NEWLINE]).col == 0
  {
    AfterTextOnRow(s, line);
    assert (line + [NEWLINE])[..|line|] == line;
  }

  /** ... and the newline itself writes no cell. */
  lemma NewlineWritesNothing(s: Screen, line: seq<int8>)
    requires ValidScreen(s)
    ensures AfterText(s, line + [NEWLINE]).cells == AfterText(s, line).cells
  {
    assert (line + [NEWLINE])[..|line|] == line;
  }

  /** The console `terminal_init` leaves: the banner printed on a blank screen. */
  function WelcomeScreen(): (r: Screen)
    ensures ValidScreen(r)
  {
    AfterText(Screen(BlankCells(), 0, 0), Bytes(WELCOME))
  }

  /** A line and a newline printed on a blank screen: the line fills the start
      of row 0, every other cell stays blank, the cursor waits at (1, 0). */
  lemma LineOnBlankScreen(line: seq<int8>)
    requires NEWLINE !in line && |line| < COLS
    ensures AfterText(Screen(BlankCells(), 0, 0), line + [NEWLINE]).row == 1
    ensures AfterText(Screen(BlankCells(), 0, 0), line + [NEWLINE]).col == 0
    ensures Shows(AfterText(Screen(BlankCells(), 0, 0), line + [NEWLINE]).cells, 0, line)
    ensures forall i {:trigger AfterText(Screen(BlankCells(), 0, 0), line + [NEWLINE]).cells[i]} ::
      CharByteAt(|line|) <= i < BYTES ==>
      AfterText(Screen(BlankCells(), 0, 0), line + [NEWLINE]).cells[i] == BlankCells()[i]
  {
    var blank := Screen(BlankCells(), 0, 0);
    assert CursorPos(blank) == 0;
    LineThenNewline(blank, line);
    NewlineWritesNothing(blank, line);
    AfterTextOnRowWrites(blank, line);
    AfterTextOnRowKeeps(blank, line);
  }

  /** The banner fills the start of row 0, every other cell is blank, and the
      cursor waits at (1, 0). */
  lemma WelcomeBanner()
    ensures WelcomeScreen().row == 1 && WelcomeScreen().col == 0
    ensures forall k :: 0 <= k < WELCOME_WIDTH ==>
      WelcomeScreen().cells[CharByteAt(k)] == CharByte(WELCOME[k]) &&
      WelcomeScreen().cells[AttrByteAt(k)] == ATTRIBUTE
    ensures forall i {:trigger WelcomeScreen().cells[i]} ::
      CharByteAt(WELCOME_WIDTH) <= i < BYTES ==> WelcomeScreen().cells[i] == BlankCells()[i]
  {
    WelcomeLine();
    var line := Bytes(WELCOME)[..WELCOME_WIDTH];
    LineOnBlankScreen(line);
    var cells := WelcomeScreen().cells;
    forall k | 0 <= k < WELCOME_WIDTH
      ensures cells[CharByteAt(k)] == CharByte(WELCOME[k]) && cells[AttrByteAt(k)] == ATTRIBUTE
    {
      assert line[k] == CharByte(WELCOME[k]);
      assert cells[CharByteAt(0 + k)] == line[k];
    }
  }

  /** `terminal_init`: clear the screen and print the banner. */
  method Init(con: Console, io: IoPorts)
    requires con.Valid()
    modifies con, con.fb, io
    ensures con.Valid() && con.fb == old(con.fb)
    ensures con.State() == WelcomeScreen()
    // the hardware cursor goes to 0, then follows every banner character
    ensures io.log == old(io.log) + CursorWrites(0) + TextTrace(Screen(BlankCells(), 0, 0), Bytes(WELCOME))
  {
    con.Clear(io);
    WelcomeLine();
    TextOfCString(WELCOME);
    Write(con, io, CString(WELCOME));
  }

  /** The prompt `terminal_run` prints first, and the text around each echo. */
  const PROMPT := "> "
  /** The size of `terminal_run`'s local line buffer, passed to `readline` as `max`. */
  const LINE_SIZE := 256
  const YOU_TYPED := "\nYou typed: "
  const NEXT_PROMPT := "\n> "

  /** The text an iteration of the `terminal_run` loop prints for a line: the
      label, the line as `readline` stored it up to its first NUL, and the
      next prompt. */
  function EchoText(stored: seq<int8>): seq<int8>
    requires 0 in stored
  {
    Bytes(YOU_TYPED) + Text(stored) + Bytes(NEXT_PROMPT)
  }

  /** A line free of NUL bytes is echoed in full. */
  lemma EchoOfPlainLine(line: seq<int8>)
    requires 0 !in line
    ensures 0 in line + [0] && EchoText(line + [0]) == Bytes(YOU_TYPED) + line + Bytes(NEXT_PROMPT)
  {
    TextOfTerminated(line);
  }

  /** The three `terminal_write` calls of a loop iteration, in order. */
  lemma EchoWrites(st: Screen, stored: seq<int8>)
    requires ValidScreen(st) && 0 in stored
    ensures
      var s1 := AfterText(st, Bytes(YOU_TYPED));
      var s2 := AfterText(s1, Text(stored));
      AfterText(st, EchoText(stored)) == AfterText(s2, Bytes(NEXT_PROMPT)) &&
      TextTrace(st, EchoText(stored)) ==
        TextTrace(st, Bytes(YOU_TYPED)) + TextTrace(s1, Text(stored)) + TextTrace(s2, Bytes(NEXT_PROMPT))
  {
    AfterTextAppend(st, Bytes(YOU_TYPED), Text(stored));
    AfterTextAppend(st, Bytes(YOU_TYPED) + Text(stored), Bytes(NEXT_PROMPT));
  }

  /** The printing half of a `terminal_run` loop iteration. */
  method Echo(con: Console, io: IoPorts, stored: seq<int8>)
    requires con.Valid() && 0 in stored
    modifies con, con.fb, io
    ensures con.Valid() && con.fb == old(con.fb)
    ensures con.State() == AfterText(old(con.State()), EchoText(stored))
    ensures io.log == old(io.log) + TextTrace(old(con.State()), EchoText(stored))
  {
    ghost var s0 := con.State();
    TextOfCString(YOU_TYPED);
    Write(con, io, CString(YOU_TYPED));
    ghost var s1 := con.State();
    Write(con, io, stored);
    ghost var s2 := con.State();
    TextOfCString(NEXT_PROMPT);
    Write(con, io, CString(NEXT_PROMPT));
    ghost var t1, t2, t3 := TextTrace(s0, Bytes(YOU_TYPED)), TextTrace(s1, Text(stored)), TextTrace(s2, Bytes(NEXT_PROMPT));
    assert io.log == old(io.log) + t1 + t2 + t3;
    AppendAssoc(old(io.log) + t1, t2, t3);
    AppendAssoc(old(io.log), t1, t2 + t3);
    AppendAssoc(t1, t2, t3);
    EchoWrites(s0, stored);
  }

  /** One iteration of the `terminal_run` loop, once a newline is queued:
      `readline(buffer, 256)` into the 256-byte local buffer, then the echo. */
  method EchoLine(con: Console, io: IoPorts, ib: Input.InputBuffer) returns (len: int)
    requires con.Valid() && ib.Valid() && NEWLINE in ib.Contents
    modifies con, con.fb, io, ib
    ensures con.Valid() && con.fb == old(con.fb) && ib.Valid()
    // the queue gives up everything up to and including the first newline
    ensures ib.Contents == old(ib.Contents)[Input.NewlineIndex(old(ib.Contents)) + 1..]
    // at most 255 bytes of the line are kept
    ensures len == Input.Min(|Input.Line(old(ib.Contents))|, LINE_SIZE - 1)
    // a line already in the 255-byte queue is never that long: all of it is kept
    ensures len == |Input.Line(old(ib.Contents))| < LINE_SIZE - 1
    // the screen and the cursor registers show the echo of those bytes
    ensures 0 in Input.Line(old(ib.Contents))[..len] + [0]
    ensures con.State() == AfterText(old(con.State()), EchoText(Input.Line(old(ib.Contents))[..len] + [0]))
    ensures io.log == old(io.log) + TextTrace(old(con.State()), EchoText(Input.Line(old(ib.Contents))[..len] + [0]))
  {
    var buffer := new int8[LINE_SIZE];
    len := ib.Readline(buffer, LINE_SIZE);
    assert buffer[..len + 1] == Input.Line(old(ib.Contents))[..len] + [0];
    TextOfPrefix(buffer[..], len + 1);
    Echo(con, io, buffer[..]);
  }

  /** `terminal_run` up to the end of its first loop iteration: the prompt,
      then one line read and echoed. */
  method Run(con: Console, io: IoPorts, ib: Input.InputBuffer) returns (len: int)
    requires con.Valid() && ib.Valid() && NEWLINE in ib.Contents
    modifies con, con.fb, io, ib
    ensures con.Valid() && con.fb == old(con.fb) && ib.Valid()
    ensures ib.Contents == old(ib.Contents)[Input.NewlineIndex(old(ib.Contents)) + 1..]
    ensures len == Input.Min(|Input.Line(old(ib.Contents))|, LINE_SIZE - 1)
    ensures 0 in Input.Line(old(ib.Contents))[..len] + [0]
    ensures
      var prompted := AfterText(old(con.State()), Bytes(PROMPT));
      con.State() == AfterText(prompted, EchoText(Input.Line(old(ib.Contents))[..len] + [0])) &&
      io.log == old(io.log) + TextTrace(old(con.State()), Bytes(PROMPT)) +
        TextTrace(prompted, EchoText(Input.Line(old(ib.Contents))[..len] + [0]))
  {
    TextOfCString(PROMPT);
    Write(con, io, CString(PROMPT));
    len := EchoLine(con, io, ib);
  }
}
