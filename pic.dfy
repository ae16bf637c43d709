// The driver of the two cascaded Intel 8259A programmable interrupt
// controllers: the ICW1..ICW4 initialisation sequence that moves their
// vectors, and the OCW2 non-specific end-of-interrupt command.
module Pic {
  import opened Machine

  const PIC1_COMMAND: uint16 := 0x20
  const PIC2_COMMAND: uint16 := 0xA0
  const PIC1_DATA: uint16 := PIC1_COMMAND + 1
  const PIC2_DATA: uint16 := PIC2_COMMAND + 1

  /** ICW1: edge triggered, cascade mode, ICW4 follows. */
  const ICW1_INIT: uint8 := 0x11
  /** OCW2: non-specific end of interrupt. */
  const EOI: uint8 := 0x20

  /** First vector served by the secondary controller once remapped. */
  const SECONDARY_BASE := 40

  /** `outb` takes a `u8int`: an `int` argument arrives modulo 256. */
  function ToByte(x: int): (b: uint8)
    ensures (b - x) % 0x100 == 0
  {
    x % 0x100
  }

  /** The port writes `pic_remap(offset1, offset2)` makes, in order. */
  function RemapWrites(offset1: int, offset2: int): (w: seq<Event>)
    // ICW1 to both command ports opens the sequence
    ensures |w| == 10 && w[0] == PortWrite(PIC1_COMMAND, ICW1_INIT) && w[1] == PortWrite(PIC2_COMMAND, ICW1_INIT)
    // every later word goes to a data port, primary and secondary alternating
    ensures forall i :: 2 <= i < |w| ==> w[i].PortWrite? && w[i].port == (if i % 2 == 0 then PIC1_DATA else PIC2_DATA)
    // ICW2: the vector bases, as bytes
    ensures w[2].value == ToByte(offset1) && w[3].value == ToByte(offset2)
    // ICW3: the secondary hangs on line 2 of the primary (bit 2), and knows it is number 2
    ensures w[4].value == 4 && w[5].value == 2
    // ICW4: 8086 mode
    ensures w[6].value == 1 && w[7].value == 1
    // the interrupt masks written last clear every mask bit
    ensures w[8] == PortWrite(PIC1_DATA, 0) && w[9] == PortWrite(PIC2_DATA, 0)
  {
    [ PortWrite(PIC1_COMMAND, ICW1_INIT), PortWrite(PIC2_COMMAND, ICW1_INIT),
      PortWrite(PIC1_DATA, ToByte(offset1)), PortWrite(PIC2_DATA, ToByte(offset2)),
      PortWrite(PIC1_DATA, 4), PortWrite(PIC2_DATA, 2),
      PortWrite(PIC1_DATA, 0x01), PortWrite(PIC2_DATA, 0x01),
      PortWrite(PIC1_DATA, 0), PortWrite(PIC2_DATA, 0) ]
  }

  /** The port writes `pic_acknowledge(vector)` makes, in order. */
  function AckWrites(vector: int): (w: seq<Event>)
    // the primary receives EOI exactly once, as the last write
    ensures |w| >= 1 && w[|w| - 1] == PortWrite(PIC1_COMMAND, EOI)
    ensures forall i :: 0 <= i < |w| - 1 ==> w[i] != PortWrite(PIC1_COMMAND, EOI)
    // the secondary is acknowledged, first, exactly when the vector is one of its own
    ensures |w| == 2 <==> vector >= SECONDARY_BASE
    ensures |w| == 2 ==> w[0] == PortWrite(PIC2_COMMAND, EOI)
    ensures |w| <= 2
  {
    (if vector >= SECONDARY_BASE then [PortWrite(PIC2_COMMAND, EOI)] else [])
    + [PortWrite(PIC1_COMMAND, EOI)]
  }

  /** `pic_remap`: the four initialisation words, sent to each controller. */
  method Remap(io: IoPorts, offset1: int, offset2: int)
    modifies io
    ensures io.log == old(io.log) + RemapWrites(offset1, offset2)
  {
    io.Outb(PIC1_COMMAND, ICW1_INIT);
    io.Outb(PIC2_COMMAND, ICW1_INIT);

    io.Outb(PIC1_DATA, ToByte(offset1));
    io.Outb(PIC2_DATA, ToByte(offset2));

    io.Outb(PIC1_DATA, 4);
    io.Outb(PIC2_DATA, 2);

    io.Outb(PIC1_DATA, 0x01);
    io.Outb(PIC2_DATA, 0x01);

    io.Outb(PIC1_DATA, 0);
    io.Outb(PIC2_DATA, 0);
  }

  /** `pic_acknowledge`: end of interrupt to the controller(s) that raised it. */
  method Acknowledge(io: IoPorts, vector: int)
    modifies io
    ensures io.log == old(io.log) + AckWrites(vector)
  {
    if vector >= SECONDARY_BASE {
      io.Outb(PIC2_COMMAND, EOI);
    }
    io.Outb(PIC1_COMMAND, EOI);
  }
}
