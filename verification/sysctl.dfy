/**
 * The TM4C123 system-control block (SYSCTL) as far as the peripheral models
 * need it: a file of 32-bit registers, of which the run/sleep/deep-sleep
 * clock-gate columns decide whether the other peripherals may be touched.
 *
 * The source dispatches every offset through one large `switch`. Here the
 * offsets decode to a `Reg`: 25 stand-alone system registers plus a grid of
 * six register families (PP, SR, RCGC, SCGC, DCGC, PR) by sixteen peripheral
 * classes, each family occupying one 0x100 page and each class one slot.
 */
module SysCtl {
  import opened Bits
  import opened Mmio

  /** The peripheral classes that own a column of gate registers. */
  datatype Class =
    | Wd | Timer | Gpio | Dma | Hib | Uart | Ssi | I2c
    | Usb | Can | Adc | Acmp | Pwm | Qei | Eeprom | WTimer

  /** Register families: peripheral present, software reset, run-mode gate,
      sleep-mode gate, deep-sleep-mode gate, peripheral ready. */
  datatype Family = Pp | Sr | Rcgc | Scgc | Dcgc | Pr

  /** Every register the block implements. */
  datatype Reg =
    | Did0 | Did1 | PborCtl | Ris | Imc | Misc | Resc | Rcc | GpioHbCtl | Rcc2
    | MoscCtl | DslpClkCfg | SysProp | PioscCal | PioscStat | PllFreq0 | PllFreq1
    | PllStat | SlpPwrCfg | DslpPwrCfg | LdoSpCtl | LdoSpCal | LdoDpCtl | LdoDpCal
    | SdpMst
    | Gate(family: Family, peripheral: Class)

  // Bit masks of the header.
  const RCC_PWRDN: Word := 0x2000         // RCC bit 13
  const RCC2_PWRDN2: Word := 0x2000       // RCC2 bit 13
  const RCC2_USERCC2: Word := 0x8000_0000 // RCC2 bit 31
  const RIS_PLLRIS: Word := 0x40          // RIS bit 6

  /** First offset of a family's page. */
  function FamilyBase(f: Family): nat
  {
    match f
    case Pp => 0x300
    case Sr => 0x500
    case Rcgc => 0x600
    case Scgc => 0x700
    case Dcgc => 0x800
    case Pr => 0xA00
  }

  /** Offset of a class's register within a family page. */
  function ClassSlot(c: Class): (slot: nat)
    ensures slot < 0x100
  {
    match c
    case Wd => 0x00
    case Timer => 0x04
    case Gpio => 0x08
    case Dma => 0x0C
    case Hib => 0x14
    case Uart => 0x18
    case Ssi => 0x1C
    case I2c => 0x20
    case Usb => 0x28
    case Can => 0x34
    case Adc => 0x38
    case Acmp => 0x3C
    case Pwm => 0x40
    case Qei => 0x44
    case Eeprom => 0x58
    case WTimer => 0x5C
  }

  /** The register's offset in the block's address window. */
  function Offset(r: Reg): nat
  {
    match r
    case Did0 => 0x000
    case Did1 => 0x004
    case PborCtl => 0x030
    case Ris => 0x050
    case Imc => 0x054
    case Misc => 0x058
    case Resc => 0x05C
    case Rcc => 0x060
    case GpioHbCtl => 0x06C
    case Rcc2 => 0x070
    case MoscCtl => 0x07C
    case DslpClkCfg => 0x144
    case SysProp => 0x14C
    case PioscCal => 0x150
    case PioscStat => 0x154
    case PllFreq0 => 0x160
    case PllFreq1 => 0x164
    case PllStat => 0x168
    case SlpPwrCfg => 0x188
    case DslpPwrCfg => 0x18C
    case LdoSpCtl => 0x1B4
    case LdoSpCal => 0x1B8
    case LdoDpCtl => 0x1BC
    case LdoDpCal => 0x1C0
    case SdpMst => 0x1CC
    case Gate(f, c) => FamilyBase(f) + ClassSlot(c)
  }

  function DecodeSystem(off: nat): Option<Reg>
  {
    match off
    case 0x000 => Some(Did0)
    case 0x004 => Some(Did1)
    case 0x030 => Some(PborCtl)
    case 0x050 => Some(Ris)
    case 0x054 => Some(Imc)
    case 0x058 => Some(Misc)
    case 0x05C => Some(Resc)
    case 0x060 => Some(Rcc)
    case 0x06C => Some(GpioHbCtl)
    case 0x070 => Some(Rcc2)
    case 0x07C => Some(MoscCtl)
    case 0x144 => Some(DslpClkCfg)
    case 0x14C => Some(SysProp)
    case 0x150 => Some(PioscCal)
    case 0x154 => Some(PioscStat)
    case 0x160 => Some(PllFreq0)
    case 0x164 => Some(PllFreq1)
    case 0x168 => Some(PllStat)
    case 0x188 => Some(SlpPwrCfg)
    case 0x18C => Some(DslpPwrCfg)
    case 0x1B4 => Some(LdoSpCtl)
    case 0x1B8 => Some(LdoSpCal)
    case 0x1BC => Some(LdoDpCtl)
    case 0x1C0 => Some(LdoDpCal)
    case 0x1CC => Some(SdpMst)
    case _ => None
  }

  function FamilyAt(page: nat): Option<Family>
  {
    match page
    case 0x3 => Some(Pp)
    case 0x5 => Some(Sr)
    case 0x6 => Some(Rcgc)
    case 0x7 => Some(Scgc)
    case 0x8 => Some(Dcgc)
    case 0xA => Some(Pr)
    case _ => None
  }

  function ClassAt(slot: nat): Option<Class>
  {
    match slot
    case 0x00 => Some(Wd)
    case 0x04 => Some(Timer)
    case 0x08 => Some(Gpio)
    case 0x0C => Some(Dma)
    case 0x14 => Some(Hib)
    case 0x18 => Some(Uart)
    case 0x1C => Some(Ssi)
    case 0x20 => Some(I2c)
    case 0x28 => Some(Usb)
    case 0x34 => Some(Can)
    case 0x38 => Some(Adc)
    case 0x3C => Some(Acmp)
    case 0x40 => Some(Pwm)
    case 0x44 => Some(Qei)
    case 0x58 => Some(Eeprom)
    case 0x5C => Some(WTimer)
    case _ => None
  }

  /** The register an offset selects, or None for an offset the switch does
      not list. */
  function Decode(off: nat): Option<Reg>
  {
    if off < 0x300 then DecodeSystem(off)
    else
      match (FamilyAt(off / 0x100), ClassAt(off % 0x100))
      case (Some(f), Some(c)) => Some(Gate(f, c))
      case _ => None
  }

  lemma PageSplit(page: nat, slot: nat)
    requires slot < 0x100
    ensures (0x100 * page + slot) / 0x100 == page
    ensures (0x100 * page + slot) % 0x100 == slot
  {
  }

  lemma SystemRoundTrip(r: Reg)
    requires !r.Gate?
    ensures Offset(r) < 0x300 && DecodeSystem(Offset(r)) == Some(r)
  {
  }

  lemma GateRoundTrip(f: Family, c: Class)
    ensures Offset(Gate(f, c)) >= 0x300
    ensures FamilyAt(Offset(Gate(f, c)) / 0x100) == Some(f)
    ensures ClassAt(Offset(Gate(f, c)) % 0x100) == Some(c)
  {
    var page, slot := FamilyBase(f) / 0x100, ClassSlot(c);
    FamilyRoundTrip(f);
    ClassRoundTrip(c);
    PageSplit(page, slot);
    assert Offset(Gate(f, c)) == 0x100 * page + slot;
  }

  lemma FamilyRoundTrip(f: Family)
    ensures FamilyBase(f) >= 0x300
    ensures FamilyBase(f) == 0x100 * (FamilyBase(f) / 0x100)
    ensures FamilyAt(FamilyBase(f) / 0x100) == Some(f)
  {
  }

  lemma ClassRoundTrip(c: Class)
    ensures ClassAt(ClassSlot(c)) == Some(c)
  {
  }

  /** Decoding a register's offset gives the register back. */
  lemma DecodeOffset(r: Reg)
    ensures Decode(Offset(r)) == Some(r)
  {
    if r.Gate? {
      GateRoundTrip(r.family, r.peripheral);
    } else {
      SystemRoundTrip(r);
    }
  }

  lemma SystemDecodeRoundTrip(off: nat)
    requires off < 0x300 && DecodeSystem(off).Some?
    ensures Offset(DecodeSystem(off).value) == off
  {
  }

  lemma FamilyPage(page: nat)
    requires FamilyAt(page).Some?
    ensures FamilyBase(FamilyAt(page).value) == 0x100 * page
  {
  }

  lemma ClassPage(slot: nat)
    requires ClassAt(slot).Some?
    ensures ClassSlot(ClassAt(slot).value) == slot
  {
  }

  /** Every offset the block decodes is the offset of the register it names. */
  lemma OffsetDecode(off: nat)
    requires Decode(off).Some?
    ensures Offset(Decode(off).value) == off
  {
    if off < 0x300 {
      SystemDecodeRoundTrip(off);
    } else {
      FamilyPage(off / 0x100);
      ClassPage(off % 0x100);
      assert off == 0x100 * (off / 0x100) + off % 0x100;
    }
  }

  /** Registers the write handler only logs about. */
  predicate ReadOnly(r: Reg)
  {
    match r
    case Did0 | Did1 | Ris | SysProp | PioscStat | PllFreq0 | PllFreq1 | PllStat
      | LdoSpCal | LdoDpCal => true
    case Gate(f, _) => f == Pp || f == Pr
    case _ => false
  }

  /** Classes whose run-mode gate write is copied into the ready register.
      The watchdog and 16/32-bit timer gates are not copied. */
  predicate Mirrors(c: Class)
  {
    c != Wd && c != Timer
  }

  const SystemRegs: set<Reg> :=
    {Did0, Did1, PborCtl, Ris, Imc, Misc, Resc, Rcc, GpioHbCtl, Rcc2, MoscCtl,
     DslpClkCfg, SysProp, PioscCal, PioscStat, PllFreq0, PllFreq1, PllStat,
     SlpPwrCfg, DslpPwrCfg, LdoSpCtl, LdoSpCal, LdoDpCtl, LdoDpCal, SdpMst}
  const Families: set<Family> := {Pp, Sr, Rcgc, Scgc, Dcgc, Pr}
  const Classes: set<Class> :=
    {Wd, Timer, Gpio, Dma, Hib, Uart, Ssi, I2c, Usb, Can, Adc, Acmp, Pwm, Qei, Eeprom, WTimer}
  const AllRegs: set<Reg> :=
    SystemRegs + set f, c | f in Families && c in Classes :: Gate(f, c)

  lemma AllRegsComplete(r: Reg)
    ensures r in AllRegs
  {
    match r
    case Gate(f, c) =>
      assert f in Families by {
        match f
        case Pp => case Sr => case Rcgc => case Scgc => case Dcgc => case Pr =>
      }
      assert c in Classes by {
        match c
        case Wd => case Timer => case Gpio => case Dma => case Hib => case Uart =>
        case Ssi => case I2c => case Usb => case Can => case Adc => case Acmp =>
        case Pwm => case Qei => case Eeprom => case WTimer =>
      }
    case _ =>
  }

  /** The register file: one 32-bit value per register. */
  datatype SysCtl = SysCtl(regs: map<Reg, Word>)

  /** Every register has a value, as every field of the C struct does. */
  ghost predicate Valid(s: SysCtl)
  {
    forall r: Reg :: r in s.regs
  }

  /** Power-on value of every register. */
  function ResetValue(r: Reg): Word
  {
    match r
    case Did1 => 0x10A1_606E
    case Rcc => 0x078E_3AD1
    case GpioHbCtl => 0x0000_7E00
    case Rcc2 => 0x07C0_6810
    case DslpClkCfg => 0x0780_0000
    case SysProp => 0x0000_1D31
    case PioscStat => 0x0000_0040
    case PllFreq0 => 0x0000_0032
    case PllFreq1 => 0x0000_0001
    case LdoSpCtl => 0x0000_0018
    case LdoSpCal => 0x0000_1818
    case LdoDpCtl => 0x0000_0012
    case LdoDpCal => 0x0000_1212
    case Gate(Pp, c) => PresentValue(c)
    case Gate(Sr, _) => 0
    case Gate(_, c) => if c == Hib then 1 else 0
    case _ => 0
  }

  /** Reset value of the PP ("peripheral present") register of each class. */
  function PresentValue(c: Class): Word
  {
    match c
    case Wd => 0x03
    case Timer => 0x3F
    case Gpio => 0x3F
    case Dma => 0x01
    case Hib => 0x01
    case Uart => 0xFF
    case Ssi => 0x0F
    case I2c => 0x0F
    case Usb => 0x01
    case Can => 0x03
    case Adc => 0x03
    case Acmp => 0x01
    case Pwm => 0x03
    case Qei => 0x03
    case Eeprom => 0x01
    case WTimer => 0x3F
  }

  /** `tm4c123_sysctl_reset`. Only the hibernation module is clocked and
      ready after reset. */
  function Reset(): (s: SysCtl)
    ensures Valid(s)
    ensures forall c: Class :: s.regs[Gate(Rcgc, c)] == (if c == Hib then 1 else 0)
    ensures forall c: Class :: s.regs[Gate(Scgc, c)] == (if c == Hib then 1 else 0)
    ensures forall c: Class :: s.regs[Gate(Dcgc, c)] == (if c == Hib then 1 else 0)
    ensures forall c: Class :: s.regs[Gate(Pr, c)] == (if c == Hib then 1 else 0)
    ensures s.regs[Ris] == 0
  {
    forall r: Reg ensures r in AllRegs { AllRegsComplete(r); }
    forall f: Family, c: Class | f != Pp && f != Sr
      ensures ResetValue(Gate(f, c)) == if c == Hib then 1 else 0
    {
      GateReset(f, c);
    }
    SysCtl(map r | r in AllRegs :: ResetValue(r))
  }

  lemma GateReset(f: Family, c: Class)
    requires f != Pp && f != Sr
    ensures ResetValue(Gate(f, c)) == if c == Hib then 1 else 0
  {
  }

  /** The registers a write to `reg` may change. */
  function Footprint(reg: Reg): set<Reg>
  {
    if ReadOnly(reg) then {}
    else
      match reg
      case Imc => {Imc, Misc}
      case Rcc => {Rcc, Ris}
      case Rcc2 => {Rcc2, Ris}
      case Gate(Rcgc, c) => if Mirrors(c) then {reg, Gate(Pr, c)} else {reg}
      case _ => {reg}
  }

  /** Whether a write of `v` to register `reg` raises the PLL-lock status. */
  predicate RaisesPllRis(s: SysCtl, reg: Reg, v: Word)
    requires Valid(s)
  {
    || (reg == Rcc && And(v, RCC_PWRDN) != 0 && And(s.regs[Rcc2], RCC2_USERCC2) == 0)
    || (reg == Rcc2 && And(v, RCC2_USERCC2) != 0 && And(v, RCC2_PWRDN2) == 0)
  }

  function WriteReg(s: SysCtl, reg: Reg, v: Word): (r: SysCtl)
    requires Valid(s)
    ensures Valid(r)
  {
    if ReadOnly(reg) then s
    else
      var stored := s.regs[reg := v];
      if reg == Imc then SysCtl(stored[Misc := v])
      else if reg == Rcc || reg == Rcc2 then
        if RaisesPllRis(s, reg, v) then SysCtl(stored[Ris := Or(s.regs[Ris], RIS_PLLRIS)])
        else SysCtl(stored)
      else if reg.Gate? && reg.family == Rcgc && Mirrors(reg.peripheral) then
        SysCtl(stored[Gate(Pr, reg.peripheral) := v])
      else SysCtl(stored)
  }

  /** `tm4c123_sysctl_write`: a write of `v` at offset `off`. */
  function Write(s: SysCtl, off: nat, v: Word): (r: SysCtl)
    requires Valid(s)
    ensures Valid(r)
    ensures Decode(off).None? ==> r == s
    ensures Decode(off).Some? && ReadOnly(Decode(off).value) ==> r == s
    ensures Decode(off).Some? && !ReadOnly(Decode(off).value) ==> r.regs[Decode(off).value] == v
    ensures Decode(off).Some? ==>
              forall q :: q !in Footprint(Decode(off).value) ==> r.regs[q] == s.regs[q]
  {
    match Decode(off)
    case None => s
    case Some(reg) => WriteReg(s, reg, v)
  }

  /** `tm4c123_sysctl_read`: the register at `off`, or 0 for an unknown offset. */
  function Read(s: SysCtl, off: nat): (v: Word)
    requires Valid(s)
    ensures Decode(off).None? ==> v == 0
  {
    match Decode(off)
    case None => 0
    case Some(reg) => s.regs[reg]
  }

  /** The run-mode gate of class `c`, which the other peripherals consult. */
  function RunGate(s: SysCtl, c: Class): Word
    requires Valid(s)
  {
    s.regs[Gate(Rcgc, c)]
  }

  /** A gate write of any mode stores the value; a run-mode write is copied
      into the ready register exactly for the mirrored classes, and nothing
      else changes. */
  lemma GateWrite(s: SysCtl, f: Family, c: Class, v: Word)
    requires Valid(s)
    requires f == Rcgc || f == Scgc || f == Dcgc
    ensures Write(s, Offset(Gate(f, c)), v).regs ==
              if f == Rcgc && Mirrors(c) then s.regs[Gate(f, c) := v][Gate(Pr, c) := v]
              else s.regs[Gate(f, c) := v]
  {
    DecodeOffset(Gate(f, c));
  }

  /** A write of IMC is also stored into MISC. */
  lemma ImcWriteSetsMisc(s: SysCtl, v: Word)
    requires Valid(s)
    ensures Read(Write(s, Offset(Imc), v), Offset(Imc)) == v
    ensures Read(Write(s, Offset(Imc), v), Offset(Misc)) == v
  {
  }

  /** The power-down masks are bit 13 and the user-RCC2 mask is bit 31. */
  lemma MaskPositions()
    ensures RCC_PWRDN == Pow2(13) && RCC2_PWRDN2 == Pow2(13)
    ensures RCC2_USERCC2 == Pow2(31)
  {
    Pow2Add(8, 5);
    Pow2Word();
  }

  /** The PLL-lock condition of an RCC write in terms of bits: RCC bit 13 is
      written set while RCC2 bit 31 is clear. */
  lemma PllRisRcc(s: SysCtl, v: Word)
    requires Valid(s)
    ensures RaisesPllRis(s, Rcc, v) <==> BitSet(v, 13) && !BitSet(s.regs[Rcc2], 31)
  {
    MaskPositions();
    MaskBit(v, RCC_PWRDN, 13);
    MaskBit(s.regs[Rcc2], RCC2_USERCC2, 31);
  }

  /** The PLL-lock condition of an RCC2 write in terms of bits: bit 31 is
      written set and bit 13 clear. */
  lemma PllRisRcc2(s: SysCtl, v: Word)
    requires Valid(s)
    ensures RaisesPllRis(s, Rcc2, v) <==> BitSet(v, 31) && !BitSet(v, 13)
  {
    MaskPositions();
    MaskBit(v, RCC2_USERCC2, 31);
    MaskBit(v, RCC2_PWRDN2, 13);
  }

  /** A write never clears a RIS bit and can only add the PLL-lock bit, and it
      adds it exactly when RCC/RCC2 is written with the PLL powered up. */
  lemma WriteRisPll(s: SysCtl, off: nat, v: Word)
    requires Valid(s)
    ensures var r := Write(s, off, v);
            r.regs[Ris] == (if Decode(off).Some? && !ReadOnly(Decode(off).value)
                               && RaisesPllRis(s, Decode(off).value, v)
                            then Or(s.regs[Ris], RIS_PLLRIS) else s.regs[Ris])
  {
    match Decode(off)
    case None =>
    case Some(reg) =>
      var r := WriteReg(s, reg, v);
      if ReadOnly(reg) {
        assert r == s;
      } else if reg == Rcc || reg == Rcc2 {
        var stored := s.regs[reg := v];
        if RaisesPllRis(s, reg, v) {
          assert r == SysCtl(stored[Ris := Or(s.regs[Ris], RIS_PLLRIS)]);
        } else {
          assert r == SysCtl(stored);
        }
      } else {
        assert !RaisesPllRis(s, reg, v);
        assert Ris !in Footprint(reg);
      }
  }

  /** A write to any register that is not read-only reads back. */
  lemma WriteReadRoundTrip(s: SysCtl, off: nat, v: Word)
    requires Valid(s)
    requires Decode(off).Some? && !ReadOnly(Decode(off).value)
    ensures Read(Write(s, off, v), off) == v
  {
  }

  /** Offsets outside the register map: writes are dropped, reads give 0. */
  lemma UnknownOffset(s: SysCtl, off: nat, v: Word)
    requires Valid(s)
    requires Decode(off).None?
    ensures Write(s, off, v) == s
    ensures Read(s, off) == 0
  {
  }

  /** A sequence of register writes, applied in order. */
  function WriteAll(s: SysCtl, writes: seq<(nat, Word)>): (r: SysCtl)
    requires Valid(s)
    ensures Valid(r)
    decreases |writes|
  {
    if writes == [] then s
    else WriteAll(Write(s, writes[0].0, writes[0].1), writes[1..])
  }

  /** RIS value `after` is `before`, possibly with the PLL-lock bit added:
      every bit of `before` is kept and no other bit appears. */
  predicate RisGrowth(before: Word, after: Word)
  {
    after == before || after == Or(before, RIS_PLLRIS)
  }

  lemma RisGrowthTransitive(a: Word, b: Word, c: Word)
    requires RisGrowth(a, b) && RisGrowth(b, c)
    ensures RisGrowth(a, c)
  {
    if b != a && c != b {
      SameBits(Or(Or(a, RIS_PLLRIS), RIS_PLLRIS), Or(a, RIS_PLLRIS));
    }
  }

  /** Under any sequence of writes RIS keeps every bit it had and gains at
      most the PLL-lock bit. */
  lemma {:induction false} RisOnlyGainsPll(s: SysCtl, writes: seq<(nat, Word)>)
    requires Valid(s)
    ensures RisGrowth(s.regs[Ris], WriteAll(s, writes).regs[Ris])
    decreases |writes|
  {
    if writes != [] {
      var s1 := Write(s, writes[0].0, writes[0].1);
      WriteRisPll(s, writes[0].0, writes[0].1);
      RisOnlyGainsPll(s1, writes[1..]);
      RisGrowthTransitive(s.regs[Ris], s1.regs[Ris], WriteAll(s, writes).regs[Ris]);
    }
  }

  /** The same growth, bit by bit: no RIS bit is ever lost, and the only bit
      that can appear is the PLL-lock bit (bit 6). */
  lemma RisGrowthBits(before: Word, after: Word, k: BitIndex)
    requires RisGrowth(before, after)
    ensures BitSet(before, k) ==> BitSet(after, k)
    ensures BitSet(after, k) && !BitSet(before, k) ==> k == 6
  {
    assert RIS_PLLRIS == Pow2(6);
    PowerBit(6, k);
  }
}
