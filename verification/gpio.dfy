/**
 * One TM4C123 GPIO port (ports A..F): an interrupt detector driven by writes
 * to the DATA register, behind the SYSCTL run-mode clock gate.
 *
 * The detector is modelled as the source computes it, term by term. Two of
 * its behaviours differ from the data sheet, and lemmas below pin both down:
 * a single-edge pin whose event bit (IEV) is 0 asserts on every DATA write,
 * whether or not the pin changed, and a single-edge pin whose IEV bit is 1
 * never asserts. The interrupt-clear register toggles status bits rather
 * than clearing them.
 */
module Gpio {
  import opened Bits
  import opened Mmio
  import SysCtl

  // Register offsets.
  const DATA: nat := 0x3FC
  const DIR: nat := 0x400
  const IS: nat := 0x404
  const IBE: nat := 0x408
  const IEV: nat := 0x40C
  const IM: nat := 0x410
  const RIS: nat := 0x414
  const MIS: nat := 0x418
  const ICR: nat := 0x41C
  const DR2R: nat := 0x500
  const LOCK: nat := 0x520

  /** Plain storage registers (DIR, AFSEL, DR2R..DMACTL) with their reset values. */
  const StorageResets: map<nat, Word> := map[
    DIR := 0, 0x420 := 0, DR2R := 0xFF, 0x504 := 0, 0x508 := 0, 0x50C := 0,
    0x510 := 0, 0x514 := 0, 0x518 := 0, 0x51C := 0, LOCK := 1, 0x524 := 0,
    0x528 := 0, 0x52C := 0, 0x530 := 0, 0x534 := 0]

  /** Read-only identification registers (PER_ID4..7, PER_ID0..3,
      PCELL_ID0..3), which all sit in the last words of the page. */
  function IdValue(off: nat): (r: Option<Word>)
    ensures r.Some? ==> 0xFD0 <= off
  {
    match off
    case 0xFD0 => Some(0)
    case 0xFD4 => Some(0)
    case 0xFD8 => Some(0)
    case 0xFDC => Some(0)
    case 0xFE0 => Some(0x61)
    case 0xFE4 => Some(0)
    case 0xFE8 => Some(0x18)
    case 0xFEC => Some(0x01)
    case 0xFF0 => Some(0x0D)
    case 0xFF4 => Some(0xF0)
    case 0xFF8 => Some(0x05)
    case 0xFFC => Some(0xB1)
    case _ => None
  }

  /** The registers that decide which pins a DATA write asserts. */
  datatype Detector = Detector(
    sense: Word,      // IS: 1 = level-sensitive, 0 = edge
    bothEdges: Word,  // IBE
    event: Word,      // IEV: which level or edge
    im: Word)         // interrupt mask

  /** The register state of one port. `base` is where the port is mapped. */
  datatype Bank = Bank(
    base: nat,
    data: Word,
    detector: Detector,
    ris: Word,     // raw interrupt status
    mis: Word,     // masked interrupt status
    icr: Word,     // last value written to the interrupt-clear register
    storage: map<nat, Word>)  // the plain storage registers

  /** The storage map holds exactly the plain storage registers. The
      identification registers never change, so they are constants rather
      than part of the state. */
  ghost predicate Valid(b: Bank)
  {
    b.storage.Keys == StorageResets.Keys
  }

  /** Index 0..5 of the port mapped at `base` (ports A..F), as the SoC maps them. */
  function PortIndex(base: nat): Option<BitIndex>
  {
    match base
    case 0x4000_4000 => Some(0)
    case 0x4000_5000 => Some(1)
    case 0x4000_6000 => Some(2)
    case 0x4000_7000 => Some(3)
    case 0x4002_4000 => Some(4)
    case 0x4002_5000 => Some(5)
    case _ => None
  }

  /** The port's bit of RCGCGPIO; false for a port at an unknown base. */
  predicate ClockEnabled(sc: SysCtl.SysCtl, base: nat)
    requires SysCtl.Valid(sc)
  {
    match PortIndex(base)
    case None => false
    case Some(k) => BitSet(SysCtl.RunGate(sc, SysCtl.Gpio), k)
  }

  /** The state after reset of the port mapped at `base`. */
  function Reset(base: nat): (b: Bank)
    ensures Valid(b)
    ensures b.base == base && b.ris == 0 && b.mis == 0 && b.detector.im == 0
    ensures forall off :: off in StorageResets ==> b.storage[off] == StorageResets[off]
  {
    Bank(base, 0, Detector(0, 0, 0, 0), 0, 0, 0, StorageResets)
  }

  /** The masked status computed on a DATA write of `v` over the previous
      value `data`, term by term as the source combines them: level
      detection, both edges, rising edge, and a "falling edge" term that in
      fact covers every single-edge pin with IEV clear that did not rise.
      Per pin this is the reference predicate `PinAsserts`. */
  function MaskedStatus(d: Detector, data: Word, v: Word): (m: Word)
    ensures forall k: BitIndex :: BitSet(m, k) <==> PinAsserts(d, v, k)
  {
    var rising := And(Xor(v, data), v);
    var level := And(Or(And(And(d.sense, d.event), v), And(d.sense, Not(Or(d.event, v)))), d.im);
    var both := And(Or(d.sense, d.bothEdges), Not(d.sense));
    var risingEdge := And(Not(Or(Or(d.sense, d.bothEdges), d.event)), rising);
    var fallingEdge := Not(Or(Or(Or(d.sense, d.bothEdges), d.event), rising));
    And(Or(Or(Or(level, both), risingEdge), fallingEdge), d.im)
  }

  /** Reference definition, one pin at a time: pin `k` asserts when it is
      masked in and it is level-sensitive and at its IEV level, or it is
      a both-edges pin, or it is a single-edge pin with IEV clear. */
  predicate PinAsserts(d: Detector, v: Word, k: BitIndex)
  {
    var level := BitSet(d.sense, k);
    var both := BitSet(d.bothEdges, k);
    var iev := BitSet(d.event, k);
    BitSet(d.im, k) &&
      ((level && iev == BitSet(v, k)) || (!level && both) || (!level && !both && !iev))
  }

  /** A DATA write of `v`: the data register takes `v`, the masked status is
      recomputed, and pins that assert while driven high latch into the raw
      status, which never loses a bit. */
  function DataWrite(b: Bank, v: Word): (r: Bank)
    ensures r.base == b.base && r.detector == b.detector && r.icr == b.icr
    ensures r.storage == b.storage && r.data == v
    ensures forall k: BitIndex :: BitSet(r.mis, k) <==> PinAsserts(b.detector, v, k)
    ensures forall k: BitIndex ::
      BitSet(r.ris, k) <==> BitSet(b.ris, k) || (PinAsserts(b.detector, v, k) && BitSet(v, k))
  {
    var m := MaskedStatus(b.detector, b.data, v);
    b.(ris := Or(b.ris, And(m, v)), mis := m, data := v)
  }

  /** The interrupt pulse of a DATA write: exactly one when any pin is
      masked in, whatever the computed status. */
  function DataPulse(b: Bank): (e: seq<Effect>)
    ensures |e| <= 1 && forall x | x in e :: x == IrqPulse(DeviceIrq)
    ensures e != [] <==> b.detector.im != 0
  {
    if b.detector.im != 0 then [IrqPulse(DeviceIrq)] else []
  }

  /** An interrupt-clear write of `v`: every bit set in `v` flips in both
      status registers, and the value is kept for read-back. */
  function ClearWrite(b: Bank, v: Word): (r: Bank)
    ensures r.base == b.base && r.data == b.data && r.detector == b.detector
    ensures r.storage == b.storage && r.icr == v
    ensures forall k: BitIndex :: BitSet(r.ris, k) <==> BitSet(b.ris, k) != BitSet(v, k)
    ensures forall k: BitIndex :: BitSet(r.mis, k) <==> BitSet(b.mis, k) != BitSet(v, k)
  {
    b.(mis := Xor(b.mis, v), ris := Xor(b.ris, v), icr := v)
  }

  /** Writes that simply store the value; MIS and the ID registers ignore
      writes, as do unknown offsets. */
  function StoreWrite(b: Bank, off: nat, v: Word): (r: Bank)
    ensures off == IS ==> r == b.(detector := b.detector.(sense := v))
    ensures off == IBE ==> r == b.(detector := b.detector.(bothEdges := v))
    ensures off == IEV ==> r == b.(detector := b.detector.(event := v))
    ensures off == IM ==> r == b.(detector := b.detector.(im := v))
    ensures off == RIS ==> r == b.(ris := v)
    ensures off in StorageResets ==> r == b.(storage := b.storage[off := v])
    ensures IdValue(off).Some? || off == MIS ==> r == b
  {
    if off == IS then b.(detector := b.detector.(sense := v))
    else if off == IBE then b.(detector := b.detector.(bothEdges := v))
    else if off == IEV then b.(detector := b.detector.(event := v))
    else if off == IM then b.(detector := b.detector.(im := v))
    else if off == RIS then b.(ris := v)
    else if off in StorageResets then b.(storage := b.storage[off := v])
    else b
  }

  /** A register write. With the port's clock gated off the emulator halts. */
  function Write(b: Bank, sc: SysCtl.SysCtl, off: nat, v: Word): (r: Outcome<Bank>)
    requires SysCtl.Valid(sc)
    ensures r.Fatal? <==> !ClockEnabled(sc, b.base)
    ensures r.Next? ==> r.state.base == b.base
    ensures r.Next? && off != DATA ==> r.effects == []
    ensures r.Next? && off == DATA ==> r.state == DataWrite(b, v) && r.effects == DataPulse(b)
    ensures r.Next? && off == ICR ==> r.state == ClearWrite(b, v)
    ensures r.Next? && off != DATA && off != ICR ==> r.state == StoreWrite(b, off, v)
    ensures Valid(b) && r.Next? ==> Valid(r.state)
  {
    if !ClockEnabled(sc, b.base) then Fatal("GPIO module clock is not enabled")
    else if off == DATA then Next(DataWrite(b, v), DataPulse(b))
    else if off == ICR then Next(ClearWrite(b, v), [])
    else Next(StoreWrite(b, off, v), [])
  }

  /** A register read. With the port's clock gated off the emulator halts;
      unknown offsets read as zero. */
  function Read(b: Bank, sc: SysCtl.SysCtl, off: nat): (r: Reply)
    requires SysCtl.Valid(sc)
    ensures r.Fault? <==> !ClockEnabled(sc, b.base)
    ensures !r.Fault? ==> r.Value?
    ensures Valid(b) && r.Value? && IdValue(off).Some? ==> r.v == IdValue(off).value
  {
    if !ClockEnabled(sc, b.base) then Fault("GPIO module clock is not enabled")
    else if off == DATA then Value(b.data)
    else if off == IS then Value(b.detector.sense)
    else if off == IBE then Value(b.detector.bothEdges)
    else if off == IEV then Value(b.detector.event)
    else if off == IM then Value(b.detector.im)
    else if off == RIS then Value(b.ris)
    else if off == MIS then Value(b.mis)
    else if off == ICR then Value(b.icr)
    else if off in b.storage then Value(b.storage[off])
    else if IdValue(off).Some? then Value(IdValue(off).value)
    else Value(0)
  }

  /** The offsets the read and write handlers list. */
  predicate Mapped(off: nat)
  {
    || off in {DATA, IS, IBE, IEV, IM, RIS, MIS, ICR}
    || off in StorageResets
    || IdValue(off).Some?
  }

  /** The detector keeps no pin history: the status a DATA write computes is
      the same whatever value the port held before. */
  lemma HistoryIgnored(d: Detector, data1: Word, data2: Word, v: Word)
    ensures MaskedStatus(d, data1, v) == MaskedStatus(d, data2, v)
  {
    SameBits(MaskedStatus(d, data1, v), MaskedStatus(d, data2, v));
  }

  /** After a DATA write the masked status lies within IM, no raw status bit
      is lost, and every newly raised bit is a pin written high. */
  lemma DataWriteBounds(b: Bank, v: Word, k: BitIndex)
    ensures BitSet(DataWrite(b, v).mis, k) ==> BitSet(b.detector.im, k)
    ensures BitSet(b.ris, k) ==> BitSet(DataWrite(b, v).ris, k)
    ensures BitSet(DataWrite(b, v).ris, k) && !BitSet(b.ris, k) ==> BitSet(v, k)
  {
  }

  /** A single-edge pin with IEV clear asserts on every DATA write, also when
      it did not change, and latches whenever it is written high. */
  lemma UnchangedPinAsserts(b: Bank, v: Word, k: BitIndex)
    requires BitSet(b.detector.im, k)
    requires !BitSet(b.detector.sense, k) && !BitSet(b.detector.bothEdges, k)
    requires !BitSet(b.detector.event, k)
    ensures BitSet(DataWrite(b, v).mis, k)
    ensures BitSet(DataWrite(b, v).ris, k) <==> BitSet(b.ris, k) || BitSet(v, k)
  {
  }

  /** A single-edge pin with IEV set (rising edge, on the data sheet) never
      asserts, and its raw status bit is left as it was. */
  lemma EventEdgeNeverAsserts(b: Bank, v: Word, k: BitIndex)
    requires !BitSet(b.detector.sense, k) && !BitSet(b.detector.bothEdges, k)
    requires BitSet(b.detector.event, k)
    ensures !BitSet(DataWrite(b, v).mis, k)
    ensures BitSet(DataWrite(b, v).ris, k) <==> BitSet(b.ris, k)
  {
  }

  /** A masked-in both-edges pin asserts on every DATA write. */
  lemma BothEdgesAlwaysAsserts(b: Bank, v: Word, k: BitIndex)
    requires BitSet(b.detector.im, k)
    requires !BitSet(b.detector.sense, k) && BitSet(b.detector.bothEdges, k)
    ensures BitSet(DataWrite(b, v).mis, k)
  {
  }

  /** A masked-out pin never asserts and its raw status bit is kept. */
  lemma MaskedOutQuiet(b: Bank, v: Word, k: BitIndex)
    requires !BitSet(b.detector.im, k)
    ensures !BitSet(DataWrite(b, v).mis, k)
    ensures BitSet(DataWrite(b, v).ris, k) <==> BitSet(b.ris, k)
  {
  }

  /** The DATA write pulses the line even when no pin asserts: with only pin
      0 masked in and configured for a rising edge, no status bit is ever set
      but every DATA write pulses. */
  lemma SpuriousPulse(b: Bank, v: Word)
    requires b.detector == Detector(0, 0, 1, 1)
    ensures DataWrite(b, v).mis == 0
    ensures DataWrite(b, v).ris == b.ris
    ensures DataPulse(b) == [IrqPulse(DeviceIrq)]
  {
    var r := DataWrite(b, v);
    forall k: BitIndex
      ensures !BitSet(r.mis, k) && (BitSet(r.ris, k) <==> BitSet(b.ris, k))
    {
      PowerBit(0, k);
      ZeroBit(k);
    }
    forall k: BitIndex
      ensures BitSet(r.mis, k) <==> BitSet(0, k)
    {
      ZeroBit(k);
    }
    SameBits(r.mis, 0);
    SameBits(r.ris, b.ris);
  }

  /** Writing the same value to ICR twice restores both status registers:
      the clear is a toggle, not an acknowledge. */
  lemma ClearTwiceRestores(b: Bank, v: Word)
    ensures ClearWrite(ClearWrite(b, v), v) == b.(icr := v)
  {
    var r := ClearWrite(ClearWrite(b, v), v);
    SameBits(r.mis, b.mis);
    SameBits(r.ris, b.ris);
  }

  /** Every register that stores what is written reads it back. */
  lemma WriteReadBack(b: Bank, sc: SysCtl.SysCtl, off: nat, v: Word)
    requires SysCtl.Valid(sc) && Valid(b) && ClockEnabled(sc, b.base)
    requires off in {DATA, IS, IBE, IEV, IM, RIS, ICR} || off in StorageResets
    ensures Write(b, sc, off, v).Next?
    ensures Read(Write(b, sc, off, v).state, sc, off) == Value(v)
  {
  }

  /** Writes to MIS, to the identification registers and to unlisted
      offsets change nothing; unlisted offsets read as zero. */
  lemma IgnoredWrites(b: Bank, sc: SysCtl.SysCtl, off: nat, v: Word)
    requires SysCtl.Valid(sc) && Valid(b) && ClockEnabled(sc, b.base)
    requires off == MIS || IdValue(off).Some? || !Mapped(off)
    ensures Write(b, sc, off, v) == Next(b, [])
    ensures !Mapped(off) ==> Read(b, sc, off) == Value(0)
  {
  }

  /** After software writes `g` to RCGCGPIO, port `k` is accessible exactly
      when bit `k` of `g` is set. */
  lemma GateFollowsRcgc(sc: SysCtl.SysCtl, base: nat, g: Word)
    requires SysCtl.Valid(sc) && PortIndex(base).Some?
    ensures var sc' := SysCtl.Write(sc, SysCtl.Offset(SysCtl.Gate(SysCtl.Rcgc, SysCtl.Gpio)), g);
            ClockEnabled(sc', base) <==> BitSet(g, PortIndex(base).value)
  {
    SysCtl.GateWrite(sc, SysCtl.Rcgc, SysCtl.Gpio, g);
  }

  /** A bank mapped anywhere but the six port addresses halts on every access. */
  lemma UnknownBaseHalts(b: Bank, sc: SysCtl.SysCtl, off: nat, v: Word)
    requires SysCtl.Valid(sc) && PortIndex(b.base).None?
    ensures Write(b, sc, off, v).Fatal? && Read(b, sc, off).Fault?
  {
  }
}
