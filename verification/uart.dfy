/**
 * One TM4C123 UART: a flat block of 30 registers that all store what is
 * written, plus the receive path the character backend drives.
 *
 * The block has no clock-gate check, so neither reads nor writes consult
 * SYSCTL. Receive is gated on the enable and receive-enable bits of CTL,
 * and it clears bit 4 of CTL, the bit position that FR uses for "receive
 * FIFO empty"; FR itself never changes.
 */
module Usart {
  import opened Bits
  import opened Mmio

  // Register offsets.
  const DR: nat := 0x000
  const RSR: nat := 0x004
  const FR: nat := 0x018
  const ILPR: nat := 0x020
  const IBRD: nat := 0x024
  const FBRD: nat := 0x028
  const LCRH: nat := 0x02C
  const CTL: nat := 0x030
  const IFLS: nat := 0x034
  const IM: nat := 0x038
  const RIS: nat := 0x03C
  const MIS: nat := 0x040
  const ICR: nat := 0x044
  const DMA_CTL: nat := 0x048
  const NINE_BIT_ADDR: nat := 0x0A4
  const NINE_BIT_MASK: nat := 0x0A8
  const PP: nat := 0xFC0
  const CC: nat := 0xFC8

  // Bit positions.
  const RXFF: BitIndex := 6   // FR: receive FIFO full
  const RXFE: BitIndex := 4   // FR: receive FIFO empty
  const EN: BitIndex := 0     // CTL: UART enable
  const RXE: BitIndex := 9    // CTL: receive enable
  const RXIM: BitIndex := 4   // IM: receive interrupt mask

  /** A received character. */
  type Byte = x: nat | x < 0x100

  /** Every register the block maps, with its reset value. */
  const ResetValues: map<nat, Word> := map[
    DR := 0, RSR := 0, FR := 0x90, ILPR := 0, IBRD := 0, FBRD := 0, LCRH := 0,
    CTL := 0x300, IFLS := 0x12, IM := 0, RIS := 0, MIS := 0, ICR := 0, DMA_CTL := 0,
    NINE_BIT_ADDR := 0, NINE_BIT_MASK := 0xFF, PP := 0x3, CC := 0,
    0xFD0 := 0, 0xFD4 := 0, 0xFD8 := 0, 0xFDC := 0,
    0xFE0 := 0x60, 0xFE4 := 0, 0xFE8 := 0x18, 0xFEC := 0x01,
    0xFF0 := 0x0D, 0xFF4 := 0xF0, 0xFF8 := 0x05, 0xFFC := 0xB1]

  /** The register file, indexed by offset. */
  datatype Usart = Usart(regs: map<nat, Word>)

  /** Exactly the mapped registers have a value. */
  ghost predicate Valid(s: Usart)
  {
    s.regs.Keys == ResetValues.Keys
  }

  /** `tm4c123_usart_reset`: every register takes its reset value and the
      interrupt line is driven low. */
  function Reset(): (r: (Usart, seq<Effect>))
    ensures Valid(r.0)
    ensures forall off | off in ResetValues :: r.0.regs[off] == ResetValues[off]
    ensures r.1 == [IrqLevel(DeviceIrq, false)]
  {
    (Usart(ResetValues), [IrqLevel(DeviceIrq, false)])
  }

  /** `tm4c123_usart_can_receive`: room for a character exactly while the
      receive-FIFO-full flag is clear. */
  predicate CanReceive(s: Usart)
    requires Valid(s)
  {
    !BitSet(s.regs[FR], RXFF)
  }

  /** Whether the receive path is switched on: both EN and RXE set in CTL. */
  predicate Receiving(s: Usart)
    requires Valid(s)
  {
    BitSet(s.regs[CTL], EN) && BitSet(s.regs[CTL], RXE)
  }

  /** `tm4c123_usart_receive`: with the receiver off nothing happens;
      otherwise the first character lands in DR, bit 4 of CTL is cleared and,
      when the receive interrupt is unmasked, the line is raised and left
      high. Only DR and CTL change. */
  function Receive(s: Usart, buf: seq<Byte>): (r: (Usart, seq<Effect>))
    requires Valid(s) && |buf| >= 1
    ensures Valid(r.0)
    ensures !Receiving(s) ==> r == (s, [])
    ensures Receiving(s) ==> r.0.regs == s.regs[DR := buf[0]][CTL := r.0.regs[CTL]]
    ensures Receiving(s) ==>
              forall k: BitIndex :: BitSet(r.0.regs[CTL], k) <==> BitSet(s.regs[CTL], k) && k != RXFE
    ensures Receiving(s) ==> (r.1 == if BitSet(s.regs[IM], RXIM) then [IrqLevel(DeviceIrq, true)] else [])
  {
    if !Receiving(s) then (s, [])
    else
      assert 0x10 == Pow2(4);
      forall k: BitIndex ensures BitSet(0x10, k) <==> k == 4 { PowerBit(4, k); }
      var regs := s.regs[DR := buf[0]][CTL := And(s.regs[CTL], Not(0x10))];
      (Usart(regs), if BitSet(s.regs[IM], RXIM) then [IrqLevel(DeviceIrq, true)] else [])
  }

  /** `tm4c123_usart_write`: a mapped register takes the value, an unmapped
      offset is ignored. */
  function Write(s: Usart, off: nat, v: Word): (r: Usart)
    requires Valid(s)
    ensures Valid(r)
    ensures off in ResetValues ==> r.regs == s.regs[off := v]
    ensures off !in ResetValues ==> r == s
  {
    if off in s.regs then Usart(s.regs[off := v]) else s
  }

  /** `tm4c123_usart_read`: a mapped register's value, 0 elsewhere. */
  function Read(s: Usart, off: nat): (v: Word)
    requires Valid(s)
    ensures off !in ResetValues ==> v == 0
  {
    if off in s.regs then s.regs[off] else 0
  }

  /** The registers the receive path touches are mapped. */
  lemma ReceiveRegsMapped()
    ensures DR in ResetValues && FR in ResetValues && CTL in ResetValues && IM in ResetValues
  {
  }

  /** Every mapped offset, identification registers included, reads back
      what was last written, and no other register changes. */
  lemma WriteReadBack(s: Usart, off: nat, v: Word, other: nat)
    requires Valid(s) && off in ResetValues && other != off
    ensures Read(Write(s, off, v), off) == v
    ensures Read(Write(s, off, v), other) == Read(s, other)
  {
  }

  /** Unmapped offsets: a write changes nothing and a read gives 0. */
  lemma UnknownOffset(s: Usart, off: nat, v: Word)
    requires Valid(s) && off !in ResetValues
    ensures Write(s, off, v) == s && Read(s, off) == 0
  {
  }

  /** Straight after reset the UART can take a character but ignores it:
      CTL is 0x300, which sets RXE but not EN. */
  lemma ResetIgnoresReceive(buf: seq<Byte>)
    requires |buf| >= 1
    ensures CanReceive(Reset().0)
    ensures !Receiving(Reset().0)
    ensures Receive(Reset().0, buf) == (Reset().0, [])
  {
    assert !BitSet(0x90, 6) by {
      assert 0x90 / 2 / 2 / 2 / 2 / 2 / 2 == 2;
    }
    assert !BitSet(0x300, 0);
  }

  /** An enabled receive stores a byte: DR is below 256 afterwards, and the
      character is what DR reads. */
  lemma ReceivedByteInDr(s: Usart, buf: seq<Byte>)
    requires Valid(s) && |buf| >= 1 && Receiving(s)
    ensures Read(Receive(s, buf).0, DR) == buf[0] < 0x100
  {
  }

  /** Receiving never changes FR, so it never changes whether the UART can
      take the next character: the receive-FIFO-full flag is never set by
      the device itself. */
  lemma ReceiveKeepsFlags(s: Usart, buf: seq<Byte>)
    requires Valid(s) && |buf| >= 1
    ensures Read(Receive(s, buf).0, FR) == Read(s, FR)
    ensures CanReceive(Receive(s, buf).0) == CanReceive(s)
  {
    ReceiveRegsMapped();
  }

  /** Once a character has been received, the next one is dropped only if
      software turned the receiver off: clearing CTL bit 4 leaves EN and RXE
      alone. */
  lemma ReceiveStaysEnabled(s: Usart, buf: seq<Byte>)
    requires Valid(s) && |buf| >= 1 && Receiving(s)
    ensures Receiving(Receive(s, buf).0)
  {
  }
}
