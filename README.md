# Keyboard-to-screen path of a small x86 kernel, in Dafny

This project models the part of a bare-metal 32-bit x86 kernel that takes a
key press to the screen, and proves properties of that model:

- **Input queue** (`Input`, kernel/input_buffer.c). A 256-slot ring of signed
  bytes with a `head` (write) and a `tail` (read) cursor. One slot is always
  left empty, so the queue holds at most 255 bytes and drops new bytes when it
  is full. `getc_nonblock` answers -1 when the queue is empty. `readline`
  drains the queue up to the first newline, keeps at most `max - 1` bytes and
  NUL-terminates them. `InputBuffer` is a class over an `array<int8>`, with a
  ghost `Contents` holding the queued bytes, oldest first.
- **Scan-code decoder and keyboard interrupt routine** (`Keyboard`,
  kernel/keyboard.c). A code with bit 7 set is a key release and produces
  nothing. A press code indexes the 58-entry `sc_ascii` table, and an entry
  of 0 produces nothing. Any other entry is echoed to the terminal. The C
  code also indexes the table with the press codes 58..127, which lie past
  its end. The interrupt routine modelled here lets those codes produce
  nothing instead (see "Findings"); `Keyboard.DecodeAsWritten` keeps the
  lookup as written.
- **Interrupt descriptor table** (`Interrupts`, kernel/interrupts.c). This
  covers:
  - the gate `set_idt` builds: two 16-bit halves of the handler address,
    selector 0x08, attribute byte 0x8E;
  - the installation at boot: the keyboard gate, `lidt`, then remapping both
    8259A controllers to vectors 32..47;
  - the dispatcher, which serves only vector 33.
- **8259A interrupt controllers** (`Pic`, kernel/pic.c). The remap and
  end-of-interrupt sequences are modelled as the exact port writes they make.
- **VGA text console** (`Framebuffer`, kernel/fb.c). The 80 x 25 grid of
  two-byte cells is the array `fb` of class `Console`. It has a software
  cursor (`cursorRow`, `cursorCol`) that moves to the next row at the right
  edge and back to row 0 after row 24; nothing scrolls. The hardware cursor is
  set through CRTC registers 14 and 15.
- **Terminal** (`Terminal`, kernel/terminal.c). This covers:
  - `terminal_write` of a NUL-terminated string;
  - `terminal_put`;
  - `terminal_init`, which clears the screen and prints the banner;
  - one iteration of the `terminal_run` loop: read a line, then echo it
    between "You typed: " and the next prompt.

`Machine` holds the integer types, the packed descriptor layouts of
include/interrupts.h, and the port primitives. `outb` and `load_idt` append
an event to the ghost log of an `IoPorts` object. Properties of the drivers'
port I/O are stated as properties of that log.

Each imperative function of the C code is a method that changes the objects
its `modifies` clause names. The method is proved against a pure function
that specifies it:

| method | specifying functions |
|---|---|
| `WriteChar` | `AfterChar`, `CursorWrites` |
| `Write` | `AfterText`, `TextTrace` |
| `Remap` | `RemapWrites` |
| `Readline` | `Line`, `NewlineIndex` |
| `Isr` | `IsrScreen`, `IsrWrites` |

The lemmas then state what those functions mean.

C `char` is the signed byte `int8` of the i386 target. `int` values reach
`outb` as `u8int`, that is modulo 256.

## Model

| member | source | states |
|---|---|---|
| Machine.IoPorts.Outb | include/io.h:6-8 | one `outb` appends exactly one port write, with its port and byte, to the log |
| Machine.IoPorts.LoadIdt | kernel/interrupts.c:5 | `load_idt` is recorded with the descriptor it is handed and the table contents at that moment |
| Pic.ToByte | kernel/pic.c:16-17 | an `int` offset reaches the port as a byte congruent to it modulo 256 |
| Pic.RemapWrites | kernel/pic.c:12-27 | the remap is exactly ten writes: ICW1 0x11 to both command ports, then ICW2 (the offsets as bytes), ICW3 (4, 2), ICW4 (1, 1) and masks (0, 0), alternating primary and secondary data ports |
| Pic.Remap | kernel/pic.c:12-27 | `pic_remap` appends exactly `RemapWrites(offset1, offset2)` to the port log |
| Pic.AckWrites | kernel/pic.c:29-33 | EOI 0x20 goes to the primary command port exactly once, as the last write; the secondary also gets one, first, if and only if the vector is 40 or above |
| Pic.Acknowledge | kernel/pic.c:29-33 | `pic_acknowledge` appends exactly `AckWrites(vector)` to the port log |
| Input.Enqueue | kernel/input_buffer.c:8-14 | `input_put` keeps everything already queued, in order, and never grows the queue past 255 bytes; the new byte is appended exactly when fewer than 255 bytes are queued |
| Input.EnqueueAllKeepsPrefix | kernel/input_buffer.c:8-14 | bytes put into the queue are kept in arrival order up to the 255-byte capacity, and every later byte is dropped |
| Input.OverflowDropsNewest | kernel/input_buffer.c:8-14 | 256 bytes put into an empty queue leave exactly the first 255 of them |
| Input.KeptDropsOnlyEmpty | kernel/input_buffer.c:29-31 | `readline` keeps every dequeued value except -1 and drops nothing else: each other value is kept exactly as many times as it was dequeued, and the kept values are never more than the dequeued ones |
| Input.KeptWithoutEmpty | kernel/input_buffer.c:29-31 | values that contain no -1 are all kept, in order |
| Input.NewlineIndex | kernel/input_buffer.c:33-36 | the line ends at the first newline of the queue: a newline sits there and none before it |
| Input.Line | kernel/input_buffer.c:28-41 | the line is no longer than what precedes the first newline, and a value is in it exactly when it precedes the first newline and is not -1 |
| Input.LineKeepsEachByte | kernel/input_buffer.c:28-41 | each value other than -1 in front of the first newline appears in the line exactly as often as it was queued |
| Input.LineOfTerminated | kernel/input_buffer.c:33-36 | bytes followed by a single newline make up the line, less their -1 values |
| Input.LineExcludesTerminators | kernel/input_buffer.c:28-41 | the line never contains the newline that ends it or a -1, and is no longer than what precedes the newline |
| Input.LineIgnoresLater | kernel/input_buffer.c:33-36 | bytes queued after the first newline do not change the line |
| Input.CursorArithmetic | kernel/input_buffer.c:9-21 | the queue's fill count `(head - tail) mod 256` never exceeds 255, and the `+ 1 % 256` cursor steps wrap to slot 0 |
| Input.InputBuffer.constructor | kernel/input_buffer.c:4-6 | the statically initialised queue is empty, with both cursors at 0 |
| Input.InputBuffer.Put | kernel/input_buffer.c:8-14 | the queue is full exactly when `head + 1` meets `tail`; then nothing changes; otherwise `c` is stored at `head`, `head` advances and `c` is appended to the contents; no other slot changes |
| Input.InputBuffer.GetcNonblock | kernel/input_buffer.c:16-23 | on an empty queue it returns -1 and changes nothing; otherwise it returns the oldest byte (stored at `tail`) and removes it, advancing `tail` |
| Input.InputBuffer.Readline | kernel/input_buffer.c:25-42 | the queue loses everything up to and including its first newline; `out` holds the first `min(line length, max - 1)` bytes of the line followed by a NUL; nothing past the NUL is written; the count is returned |
| Input.ByteFFIsLost | kernel/input_buffer.c:20-31 | putting "h", byte 0xFF, "i" and a newline into the queue yields the line "hi": 0xFF reads back as -1 and is skipped |
| Input.TruncatedLine | kernel/input_buffer.c:38-40 | with `max == 3`, "abcd" and a newline in the queue yield "ab" and a NUL, and the whole line is still consumed |
| Framebuffer.NextCol | kernel/fb.c:36-49 | the cursor column stays within 0..79 |
| Framebuffer.NextRow | kernel/fb.c:36-53 | the cursor row stays within 0..24 |
| Framebuffer.NextCursorAdvances | kernel/fb.c:35-53 | a newline moves the cursor to column 0 of the next row, row 0 after the last; any other character moves it to the next cell in reading order, cell 0 after the last |
| Framebuffer.AfterChar | kernel/fb.c:35-53 | writing a character leaves a valid console: 4000 cell bytes and the cursor on the grid |
| Framebuffer.AfterCharCells | kernel/fb.c:36-44 | a newline writes no cell; any other character writes itself and attribute 0x07 into the cursor's cell and changes no other byte |
| Framebuffer.BlankCells | kernel/fb.c:25-29 | the cleared screen has a space in every character byte and 0x07 in every attribute byte |
| Framebuffer.CursorWrites | kernel/fb.c:16-23 | moving the cursor writes register 14 then register 15 to port 0x3D4, each followed by a data byte on 0x3D5; the high byte times 256 plus the low byte is the cursor location |
| Framebuffer.Console.constructor | kernel/fb.c:10-14 | the console starts with the cursor at (0, 0) |
| Framebuffer.Console.MoveCursor | kernel/fb.c:16-23 | `fb_move_cursor` appends `CursorWrites(row * 80 + col)` to the port log |
| Framebuffer.Console.Clear | kernel/fb.c:25-33 | after `fb_clear` every cell is blank, the cursor is at (0, 0) and the hardware cursor is set to 0 |
| Framebuffer.Console.WriteChar | kernel/fb.c:35-56 | `fb_write_char` leaves exactly the console `AfterChar` describes and then sets the hardware cursor to the new position |
| Terminal.StrLen | kernel/terminal.c:11 | the loop stops at the first NUL: a NUL sits there and none before it |
| Terminal.TextOfCString | kernel/terminal.c:7 | a string literal without NUL characters is written in full |
| Terminal.TextOfPrefix | kernel/terminal.c:25-27 | what `readline` left after the NUL in the 256-byte buffer is never written |
| Terminal.TextOfTerminated | kernel/terminal.c:27 | a NUL-free byte string followed by a NUL is written in full |
| Terminal.AfterText | kernel/terminal.c:10-14 | any text written leaves a valid console |
| Terminal.AfterTextAppend | kernel/terminal.c:10-14 | writing two texts one after the other equals writing their concatenation, both on the screen and in the port log |
| Terminal.AfterTextOnRow | kernel/fb.c:40-43 | a newline-free text that fits on the cursor's row leaves the cursor on that row, `|t|` columns further |
| Terminal.AfterTextOnRowWrites | kernel/fb.c:40-43 | such a text fills consecutive cells from the cursor on, each with its character and attribute 0x07 |
| Terminal.AfterTextOnRowKeeps | kernel/fb.c:40-43 | such a text changes no byte outside those cells |
| Terminal.Write | kernel/terminal.c:10-14 | `terminal_write(s)` writes the characters before the first NUL of `s`, in order, each via `fb_write_char` (screen and cursor writes) |
| Terminal.WriteEmptyString | kernel/terminal.c:11 | writing an empty string changes neither the screen nor the ports |
| Terminal.Put | kernel/terminal.c:16-18 | `terminal_put(c)` is exactly one `fb_write_char(c)` |
| Terminal.WelcomeLine | kernel/terminal.c:7 | the banner is one NUL-free line of 17 characters, shorter than a row, then a newline |
| Terminal.LineThenNewline | kernel/fb.c:36-53 | a line that fits on the row, then a newline, puts the cursor at column 0 of the next row (row 0 after the last) |
| Terminal.NewlineWritesNothing | kernel/fb.c:36-38 | the newline after a line writes no cell |
| Terminal.LineOnBlankScreen | kernel/terminal.c:5-8 | a line and a newline on a cleared screen fill the start of row 0, leave every later byte blank, and put the cursor at (1, 0) |
| Terminal.WelcomeBanner | kernel/terminal.c:5-8 | after `terminal_init` row 0 starts with "Welcome to my OS!" in attribute 0x07, every other cell is blank and the cursor is at (1, 0) |
| Terminal.Init | kernel/terminal.c:5-8 | `terminal_init` leaves exactly `WelcomeScreen()`; its port writes are the hardware cursor set to 0 by the clear, then the cursor writes after each banner character |
| Terminal.EchoOfPlainLine | kernel/terminal.c:26-28 | a NUL-free line is echoed in full, between "\nYou typed: " and "\n> " |
| Terminal.EchoWrites | kernel/terminal.c:26-28 | the three `terminal_write` calls together write the label, the stored line and the prompt, in that order |
| Terminal.Echo | kernel/terminal.c:26-28 | the three writes of a loop iteration leave the screen and the port log of writing `EchoText(buffer)` |
| Terminal.EchoLine | kernel/terminal.c:25-28 | one loop iteration consumes the queue up to the first newline and echoes the stored line up to its first NUL (at most 255 bytes); the stored line is `min(line length, 255)` bytes long, and since a queued line holds at most 254 bytes it is the whole line |
| Terminal.Run | kernel/terminal.c:20-30 | `terminal_run` prints "> " and then, for the first line queued, the echo of `EchoLine` |
| Keyboard.ReleaseIsUpperHalf | kernel/keyboard.c:16 | `sc & 0x80` is set exactly for the codes 0x80..0xFF |
| Keyboard.DecodeAsWritten | kernel/keyboard.c:16-18 | the lookup as written: whenever it yields a character from the table, that character is a 7-bit character other than NUL |
| Keyboard.CapsLockReadsPastTable | kernel/keyboard.c:5-17 | the Caps Lock press 0x3A passes the release test and indexes past the table |
| Keyboard.OutOfBoundsCodes | kernel/keyboard.c:5-17 | the lookup as written leaves the table exactly for the press codes 58..127 |
| Keyboard.Decode | kernel/keyboard.c:16-18 | a release, and a press code past the table, produces nothing; whatever is produced is a 7-bit character other than NUL |
| Keyboard.TableIsAscii | kernel/keyboard.c:5-10 | the table has 58 entries, all between 0 and 127 |
| Keyboard.DecodeAgreesInBounds | kernel/keyboard.c:16-18 | wherever the lookup as written stays in the table, the bounded decode gives the same result |
| Keyboard.SilentKeys | kernel/keyboard.c:5-18 | within the table, the press codes that produce nothing are exactly 0, 0x1D, 0x2A, 0x36 and 0x38 |
| Keyboard.SampleKeys | kernel/keyboard.c:6-9 | 0x1E gives 'a', 0x1C newline, 0x0E backspace (8), 0x01 Esc (27), 0x39 space |
| Keyboard.IsrEffect | kernel/keyboard.c:14-21 | a release or a silent key changes neither the screen nor the ports; any other key writes its character once, as `terminal_write` of that one character would |
| Keyboard.Isr | kernel/keyboard.c:14-21 | `keyboard_isr` leaves the screen `IsrScreen` describes and appends `IsrWrites` to the port log |
| Interrupts.Gate | kernel/interrupts.c:11-17 | the gate's high half times 65536 plus its low half is the handler address; selector 0x08, zero byte 0, attributes 0x8E |
| Interrupts.GateUnique | kernel/interrupts.c:12-16 | among entries with those fixed fields, the gate of `base` is the one whose halves reassemble `base` |
| Interrupts.AttributeFields | kernel/interrupts.c:15 | P, DPL, the storage-segment bit and the gate type reassemble the attribute byte |
| Interrupts.GateIsKernelInterruptGate | kernel/interrupts.c:13-15 | every gate written is present, DPL 0, storage-segment bit 0, type 0xE (32-bit interrupt gate) |
| Interrupts.InterruptTable.constructor | kernel/interrupts.c:8-9 | the statically initialised table has 256 all-zero gates and a zero descriptor |
| Interrupts.InterruptTable.SetIdt | kernel/interrupts.c:11-17 | `set_idt(num, base)` replaces gate `num` by `Gate(base)` and changes no other gate |
| Interrupts.InterruptTable.InstallIdt | kernel/interrupts.c:19-28 | gate 33 becomes the handler's gate; the descriptor is limit 2047 and the table's address; the log gets `lidt` of that table and then exactly the remap to 32 and 40 |
| Interrupts.InterruptHandler | kernel/interrupts.c:30-35 | vector 33 runs the keyboard routine and then acknowledges vector 33 on the primary controller; any other vector changes nothing and writes no port |
| Interrupts.BootTable | kernel/interrupts.c:8-28 | after boot the CPU's table has the keyboard gate at 33, all 255 other gates unused, and a descriptor covering 256 gates of 8 bytes |

## Left out

- `inb(0x60)` is not modelled. The scan code the keyboard controller holds is a parameter of `Keyboard.Isr` and `Interrupts.InterruptHandler`.
- The assembly of `load_idt` and of the `interrupt_handler_33` stub is left out. `load_idt` is an event in the port log, and the handler's address is a parameter, as is the table's own address.
- `readline` busy-waits until a newline arrives. `Input.InputBuffer.Readline` instead requires a newline to be queued already. With none, the C call never returns. Nothing in this code fills the queue, so as written the command loop waits forever after its prompt. Because the 255-byte queue must already hold the newline, a modelled line has at most 254 bytes. The cut that `readline(buffer, 256)` makes at `max - 1 == 255` bytes applies only to lines whose bytes arrive while the C call busy-waits, and those lines are outside the model. Truncation itself is covered by `Input.InputBuffer.Readline` for any `max`, shown with `max == 3` in `Input.TruncatedLine`.
- `terminal_run` loops forever. `Terminal.Run` models the prompt and the first iteration. Every later iteration is another `Terminal.EchoLine`.
- Concurrency is not modelled. An interrupt arriving during `readline` or `terminal_write` interleaves with them; each modelled call runs without interruption.
- The VGA memory at 0xB8000 is `volatile`, and the display hardware reads it. Here it is a plain byte array.
- `Input.InputBuffer.Readline` requires `1 <= max <= out.Length`. The C writes `out[count]` with `count <= max - 1`, so callers must provide `max` bytes.
- `Interrupts.InterruptTable.SetIdt` requires `num < 256`. The C indexes `idt[num]` unchecked; its only call uses 33.
- `Keyboard.DecodeAsWritten` returns `OutOfBounds` for codes 58..127 rather than a value. What the C reads there is whatever memory follows the table.
- Keyboard.Isr: models the corrected, bounded decode (`Keyboard.Decode`), not the lookup as written. A press code 58..127 produces nothing here; the C reads past the end of `sc_ascii` for those codes (see "Findings"). Because `Interrupts.InterruptHandler` runs `Keyboard.Isr`, the same holds for vector 33. `Keyboard.DecodeAgreesInBounds` shows that both decodes agree on codes 0..57 and on every release code.
- `keyboard_init` has an empty body. kernel/kernel.c, the boot sequence, is not part of this model.

Behaviour of the code that the model follows as written:

- `keyboard_isr` passes each decoded character to `terminal_put`. It never calls `input_put`, so typed keys never reach the input queue.
- `getc_nonblock` returns a signed `char`. A queued byte 0xFF therefore comes back as -1, and `readline` skips it as if the queue were empty. `Input.ByteFFIsLost` shows this.
- `interrupt_handler` acknowledges vector 33 only. Any other vector gets no end-of-interrupt.
- The table starts all zero through static initialisation. No code clears it.

## Findings

| source | as written | input that shows it | evidently intended | confidence | as-written member | corrected member |
|---|---|---|---|---|---|---|
| kernel/keyboard.c:17 | `sc_ascii[sc]` for every press code, but the table has only 58 entries (indices 0..57) | press code 0x3A (Caps Lock) passes the release test and reads `sc_ascii[58]`, past the end of the table (likewise 0x3B..0x7F: F1..F10, the keypad) | press codes past the table produce nothing | high; not executed | Keyboard.CapsLockReadsPastTable | Keyboard.Decode |
