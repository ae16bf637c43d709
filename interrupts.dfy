// The interrupt descriptor table of the kernel: the gate that `set_idt` builds
// for a handler address, the table with its `lidt` descriptor, the boot-time
// installation (keyboard gate, `lidt`, controller remap) and the dispatcher
// that the assembly stubs call with the vector number.
module Interrupts {
  import opened Machine
  import Pic
  import opened Framebuffer
  import Keyboard

  /** Gates in the table: one per vector. */
  const ENTRIES := 256
  /** IRQ 1 of the primary controller once remapped to 32: the keyboard. */
  const KEYBOARD_VECTOR := 33
  const PRIMARY_BASE := 32

  /** The kernel code segment in the GDT set up by the boot loader. */
  const KERNEL_CODE_SELECTOR: uint16 := 0x08
  /** Present, descriptor privilege level 0, 32-bit interrupt gate. */
  const INTERRUPT_GATE: uint8 := 0x8E
  /** The gate type of a 32-bit interrupt gate (section 6.11 of volume 3A of
      the Intel 64 and IA-32 Architectures Software Developer's Manual). */
  const INTERRUPT_GATE_TYPE := 0xE

  /** `base & 0xFFFF` of a 32-bit address. */
  function LowHalf(base: uint32): uint16
  {
    base % 0x1_0000
  }

  /** `(base >> 16) & 0xFFFF` of a 32-bit address. */
  function HighHalf(base: uint32): uint16
  {
    (base / 0x1_0000) % 0x1_0000
  }

  /** The gate `set_idt(num, base)` writes. */
  function Gate(base: uint32): (e: IdtEntry)
    // the two halves put back together give the handler address
    ensures e.offsetHigh * 0x1_0000 + e.offsetLow == base
    ensures e.selector == KERNEL_CODE_SELECTOR && e.zero == 0 && e.typeAttr == INTERRUPT_GATE
  {
    IdtEntry(LowHalf(base), KERNEL_CODE_SELECTOR, 0, INTERRUPT_GATE, HighHalf(base))
  }

  /** The handler address a gate points at. */
  function Offset(e: IdtEntry): uint32
  {
    e.offsetHigh * 0x1_0000 + e.offsetLow
  }

  /** A gate is determined by its handler address and its three fixed fields:
      `Gate` is the only entry with those, and no two addresses share a gate. */
  lemma GateUnique(e: IdtEntry, base: uint32)
    requires e.selector == KERNEL_CODE_SELECTOR && e.zero == 0 && e.typeAttr == INTERRUPT_GATE
    ensures e == Gate(base) <==> Offset(e) == base
  {
    if Offset(e) == base {
      assert e.offsetLow == base % 0x1_0000 && e.offsetHigh == base / 0x1_0000 by {
        DivModUnique(base, e.offsetHigh, e.offsetLow);
      }
    }
  }

  lemma DivModUnique(base: nat, hi: nat, lo: nat)
    requires lo < 0x1_0000 && hi * 0x1_0000 + lo == base
    ensures hi == base / 0x1_0000 && lo == base % 0x1_0000
  {
  }

  /** The P flag (bit 7) of a gate's type-and-attributes byte. */
  predicate Present(typeAttr: uint8)
  {
    typeAttr / 0x80 == 1
  }

  /** The DPL field (bits 5 and 6): the least privileged ring allowed to
      raise the vector with `int`. */
  function PrivilegeLevel(typeAttr: uint8): int
  {
    (typeAttr / 0x20) % 4
  }

  /** Bit 4, 0 for every gate descriptor. */
  function StorageSegment(typeAttr: uint8): int
  {
    (typeAttr / 0x10) % 2
  }

  /** The gate type (bits 0 to 3). */
  function GateType(typeAttr: uint8): int
  {
    typeAttr % 0x10
  }

  /** The fields of a byte reassemble it. */
  lemma AttributeFields(typeAttr: uint8)
    ensures (if Present(typeAttr) then 0x80 else 0) + PrivilegeLevel(typeAttr) * 0x20 +
      StorageSegment(typeAttr) * 0x10 + GateType(typeAttr) == typeAttr
  {
  }

  /** Every gate `set_idt` writes is a present 32-bit interrupt gate that
      ring 0 alone may raise by software. */
  lemma GateIsKernelInterruptGate(base: uint32)
    ensures Present(Gate(base).typeAttr)
    ensures PrivilegeLevel(Gate(base).typeAttr) == 0
    ensures StorageSegment(Gate(base).typeAttr) == 0
    ensures GateType(Gate(base).typeAttr) == INTERRUPT_GATE_TYPE
  {
  }

  /** The table `idt` with its descriptor `idt_ptr`. */
  class InterruptTable {
    var entries: array<IdtEntry>
    var pointer: IdtPointer
    /** `(u32int)&idt`: where the table lies in memory. */
    const address: uint32

    ghost predicate Valid()
      reads this
    {
      entries.Length == ENTRIES
    }

    /** The statically initialised globals: every gate and the descriptor
        zero. */
    constructor (address: uint32)
      ensures Valid() && fresh(entries) && this.address == address
      ensures forall i :: 0 <= i < ENTRIES ==> entries[i] == UNUSED_ENTRY
      ensures pointer == IdtPointer(0, 0)
    {
      entries := new IdtEntry[ENTRIES](_ => UNUSED_ENTRY);
      pointer := IdtPointer(0, 0);
      this.address := address;
    }

    /** `set_idt(num, base)`, field by field. */
    method SetIdt(num: int, base: uint32)
      requires Valid() && 0 <= num < ENTRIES
      modifies entries
      ensures entries[..] == old(entries[..])[num := Gate(base)]
    {
      entries[num] := entries[num].(offsetLow := LowHalf(base));
      entries[num] := entries[num].(selector := KERNEL_CODE_SELECTOR);
      entries[num] := entries[num].(zero := 0);
      entries[num] := entries[num].(typeAttr := INTERRUPT_GATE);
      entries[num] := entries[num].(offsetHigh := HighHalf(base));
    }

    /** `interrupts_install_idt`, with `handler` the address of
        `interrupt_handler_33`. */
    method InstallIdt(io: IoPorts, handler: uint32)
      requires Valid()
      modifies this, entries, io
      ensures Valid() && entries == old(entries)
      ensures entries[..] == old(entries[..])[KEYBOARD_VECTOR := Gate(handler)]
      // the descriptor covers all 256 gates of eight bytes each
      ensures pointer == IdtPointer(ENTRIES * IDT_ENTRY_BYTES - 1, address)
      // the CPU is handed the table before the controllers start delivering
      // vectors 32 to 47
      ensures io.log == old(io.log) + [IdtLoaded(pointer, entries[..])] +
        Pic.RemapWrites(PRIMARY_BASE, Pic.SECONDARY_BASE)
    {
      SetIdt(KEYBOARD_VECTOR, handler);

      pointer := pointer.(base := address);
      pointer := pointer.(limit := ENTRIES * IDT_ENTRY_BYTES - 1);

      io.LoadIdt(pointer, entries[..]);

      Pic.Remap(io, PRIMARY_BASE, Pic.SECONDARY_BASE);
    }
  }

  /** `interrupt_handler(interrupt)`, with `sc` the byte the keyboard
      controller holds. */
  method InterruptHandler(interrupt: uint32, sc: uint8, con: Console, io: IoPorts)
    requires con.Valid()
    modifies con, con.fb, io
    ensures con.Valid() && con.fb == old(con.fb)
    // the keyboard vector runs the service routine, then acknowledges the
    // primary controller
    ensures interrupt == KEYBOARD_VECTOR ==>
      con.State() == Keyboard.IsrScreen(old(con.State()), sc) &&
      io.log == old(io.log) + Keyboard.IsrWrites(old(con.State()), sc) + Pic.AckWrites(KEYBOARD_VECTOR)
    // any other vector is neither served nor acknowledged
    ensures interrupt != KEYBOARD_VECTOR ==> con.State() == old(con.State()) && io.log == old(io.log)
  {
    if interrupt == KEYBOARD_VECTOR {
      Keyboard.Isr(sc, con, io);
      Pic.Acknowledge(io, interrupt);
    }
  }

  /** The table as the CPU finds it after the installation at boot: the
      keyboard gate, every other gate unused, and a descriptor naming the
      whole table. */
  method BootTable(address: uint32, handler: uint32) returns (table: seq<IdtEntry>, pointer: IdtPointer)
    ensures |table| == ENTRIES && table[KEYBOARD_VECTOR] == Gate(handler)
    ensures forall i :: 0 <= i < ENTRIES && i != KEYBOARD_VECTOR ==> table[i] == UNUSED_ENTRY
    ensures pointer.base == address && pointer.limit + 1 == |table| * IDT_ENTRY_BYTES
  {
    var io := new IoPorts();
    var idt := new InterruptTable(address);
    idt.InstallIdt(io, handler);
    table, pointer := idt.entries[..], idt.pointer;
  }
}
