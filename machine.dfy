// Fixed-width integer types, the packed descriptor layouts of the interrupt
// table, and the port-I/O primitives of the kernel. The `outb` instruction
// and the `lidt` routine are not executed here: each call appends one event to
// a ghost log, so that the drivers' properties become properties of the log.
module Machine {

  type uint8 = x: int | 0 <= x < 0x100
  type uint16 = x: int | 0 <= x < 0x1_0000
  type uint32 = x: int | 0 <= x < 0x1_0000_0000

  /** The C `char` of the i386 target: a signed byte. */
  type int8 = x: int | -0x80 <= x < 0x80

  /** `'\n'`: it ends a line in the input queue and moves the console's
      cursor to the next row. */
  const NEWLINE: int8 := 10

  datatype Option<T> = None | Some(value: T)

  /** The character code of a source character, as a C compiler stores a
      character constant in a `char` (only ASCII occurs in the kernel). */
  function CharByte(c: char): (b: int8)
    ensures c as int < 0x80 ==> b == c as int
  {
    var v := c as int % 0x100;
    if v < 0x80 then v else v - 0x100
  }

  /** One gate of the interrupt descriptor table (`struct IDTDescriptor`). */
  datatype IdtEntry = IdtEntry(
    offsetLow: uint16,
    selector: uint16,
    zero: uint8,
    typeAttr: uint8,
    offsetHigh: uint16)

  /** The all-zero gate of a statically initialised table. */
  const UNUSED_ENTRY := IdtEntry(0, 0, 0, 0, 0)

  /** Size in bytes of the packed `struct IDTDescriptor`: 2+2+1+1+2. */
  const IDT_ENTRY_BYTES := 2 + 2 + 1 + 1 + 2

  /** The operand of `lidt` (`struct IDT`): table size minus one, and address. */
  datatype IdtPointer = IdtPointer(limit: uint16, base: uint32)

  /** Observable side effects on the machine, in program order. */
  datatype Event =
    | PortWrite(port: uint16, value: uint8)
      // `load_idt`: the descriptor handed to the CPU and the table it points at
    | IdtLoaded(pointer: IdtPointer, table: seq<IdtEntry>)

  /** The processor's I/O space, seen only through the writes made to it. */
  class IoPorts {
    ghost var log: seq<Event>

    constructor ()
      ensures log == []
    {
      log := [];
    }

    /** `outb(port, value)`. */
    method Outb(port: uint16, value: uint8)
      modifies this
      ensures log == old(log) + [PortWrite(port, value)]
    {
      log := log + [PortWrite(port, value)];
    }

    /** `load_idt(&idt_ptr)`; `table` is the table's contents at that moment. */
    method LoadIdt(pointer: IdtPointer, ghost table: seq<IdtEntry>)
      modifies this
      ensures log == old(log) + [IdtLoaded(pointer, table)]
    {
      log := log + [IdtLoaded(pointer, table)];
    }
  }

  /** Concatenation regrouped, for logs built up piece by piece. */
  lemma AppendAssoc<T>(a: seq<T>, b: seq<T>, c: seq<T>)
    ensures a + b + c == a + (b + c)
  {
  }
}
