/**
 * One TM4C123 general-purpose timer unit (GPTM): a register block behind the
 * SYSCTL clock gates, two sub-timers A and B whose deadlines are handed to
 * the host clock, and the expiry handlers that latch status and may re-arm.
 *
 * The unit's width (16/32-bit or 32/64-bit) is decided by where it is mapped.
 * Arming is decided by CTL and CFG and is expressed as a `Schedule` effect
 * carrying the interval in ticks, the prescaler and the clock domain; the
 * conversion of ticks into nanoseconds is not part of the model.
 */
module Gptm {
  import opened Bits
  import opened Mmio
  import SysCtl

  // Register offsets.
  const CFG: nat := 0x000
  const AMR: nat := 0x004
  const BMR: nat := 0x008
  const CTL: nat := 0x00C
  const SYNC: nat := 0x010
  const IMR: nat := 0x018
  const RIS: nat := 0x01C
  const MIS: nat := 0x020
  const ICR: nat := 0x024
  const TALIR: nat := 0x028
  const TBLIR: nat := 0x02C
  const TAMATCHR: nat := 0x030
  const TBMATCHR: nat := 0x034
  const TAPR: nat := 0x038
  const TBPR: nat := 0x03C
  const TAPMR: nat := 0x040
  const TBPMR: nat := 0x044
  const TAR: nat := 0x048
  const TBR: nat := 0x04C
  const TAV: nat := 0x050
  const TBV: nat := 0x054
  const RTCPD: nat := 0x058
  const TAPS: nat := 0x05C
  const TBPS: nat := 0x060
  const TAPV: nat := 0x064
  const TBPV: nat := 0x068
  const PP: nat := 0xFC0

  // Bit positions.
  const TAEN: BitIndex := 0    // CTL: timer A enable
  const TBEN: BitIndex := 8    // CTL: timer B enable
  const TATO: BitIndex := 0    // IMR/RIS/MIS: timer A time-out
  const TBTO: BitIndex := 8    // IMR/RIS/MIS: timer B time-out

  /** The value of the low 16 bits of `x`, `extract32(x, 0, 16)`. */
  function Low16(x: Word): nat { x % 0x10000 }

  /** The value of the high 16 bits of `x`, `extract32(x, 16, 16)`. */
  function High16(x: Word): nat { x / 0x10000 }

  /** The register file of one unit. `base` is where the unit is mapped. */
  datatype Gptm = Gptm(
    base: nat,
    cfg: Word, amr: Word, bmr: Word, ctl: Word, sync: Word,
    imr: Word, ris: Word, mis: Word, icr: Word,
    talir: Word, tblir: Word, tamatchr: Word, tbmatchr: Word,
    tapr: Word, tbpr: Word, tapmr: Word, tbpmr: Word,
    tar: Word, tbr: Word, tav: Word, tbv: Word,
    rtcpd: Word, taps: Word, tbps: Word, tapv: Word, tbpv: Word, pp: Word)

  /** The two unit kinds, and a unit mapped outside both address ranges. */
  datatype Width = Narrow | Wide | NoWidth

  /** `get_timer_width`: units mapped from 0x40030000 to 0x40035000 are
      16/32-bit, those from 0x40036000 to 0x4003F000 are 32/64-bit, both
      ranges inclusive. */
  function WidthOf(base: nat): Width
  {
    if 0x4003_0000 <= base <= 0x4003_5000 then Narrow
    else if 0x4003_6000 <= base <= 0x4003_F000 then Wide
    else NoWidth
  }

  /** The addresses at which the SoC maps its twelve units. The ninth is
      0x4003C800, not the header's 0x4003C000. */
  const SocBases: seq<nat> := [
    0x4003_0000, 0x4003_1000, 0x4003_2000, 0x4003_3000, 0x4003_4000, 0x4003_5000,
    0x4003_6000, 0x4003_7000, 0x4003_C800, 0x4003_D000, 0x4003_E000, 0x4003_F000]

  /** The gate register and bit that `gptm_clock_enabled` tests for a unit at
      `base`: exact header addresses only. */
  function GateOf(base: nat): Option<(SysCtl.Class, BitIndex)>
  {
    match base
    case 0x4003_0000 => Some((SysCtl.Timer, 0))
    case 0x4003_1000 => Some((SysCtl.Timer, 1))
    case 0x4003_2000 => Some((SysCtl.Timer, 2))
    case 0x4003_3000 => Some((SysCtl.Timer, 3))
    case 0x4003_4000 => Some((SysCtl.Timer, 4))
    case 0x4003_5000 => Some((SysCtl.Timer, 5))
    case 0x4003_6000 => Some((SysCtl.WTimer, 0))
    case 0x4003_7000 => Some((SysCtl.WTimer, 1))
    case 0x4003_C000 => Some((SysCtl.WTimer, 2))
    case 0x4003_D000 => Some((SysCtl.WTimer, 3))
    case 0x4003_E000 => Some((SysCtl.WTimer, 4))
    case 0x4003_F000 => Some((SysCtl.WTimer, 5))
    case _ => None
  }

  predicate ClockEnabled(sc: SysCtl.SysCtl, base: nat)
    requires SysCtl.Valid(sc)
  {
    match GateOf(base)
    case None => false
    case Some(g) => BitSet(SysCtl.RunGate(sc, g.0), g.1)
  }

  /** `tm4c123_gptm_reset`. */
  function Reset(base: nat): (s: Gptm)
    ensures s.base == base && s.ctl == 0 && s.imr == 0 && s.ris == 0 && s.mis == 0
    ensures s.talir == 0xFFFF_FFFF && s.tblir == 0 && s.tapr == 0 && s.tbpr == 0
    ensures s.icr == 0 && s.rtcpd == 0x7FFF
  {
    Gptm(base, 0, 0, 0, 0, 0, 0, 0, 0, 0,
         0xFFFF_FFFF, 0, 0xFFFF_FFFF, 0, 0, 0, 0, 0,
         0xFFFF_FFFF, 0, 0xFFFF_FFFF, 0, 0x7FFF, 0, 0, 0, 0, 0)
  }

  /** `build_interval_value`: the interval assembled from the two load
      registers. A 16/32-bit unit puts the low half of TBILR above the high
      half of TAILR; a 32/64-bit unit puts TAILR above TBILR. Each half can
      be read back from the result. */
  function Interval(s: Gptm): (n: nat)
    ensures WidthOf(s.base) == Narrow ==>
              n < WORD && n / 0x10000 == Low16(s.tblir) && n % 0x10000 == High16(s.talir)
    ensures WidthOf(s.base) == Wide ==> n / WORD == s.talir && n % WORD == s.tblir
    ensures WidthOf(s.base) == NoWidth ==> n == 0
  {
    match WidthOf(s.base)
    case Narrow => Low16(s.tblir) * 0x10000 + High16(s.talir)
    case Wide => s.talir * WORD + s.tblir
    case NoWidth => 0
  }

  /** Load and prescale registers of a sub-timer. */
  function Load(s: Gptm, t: SubTimer): Word
  {
    if t == TimerA then s.talir else s.tblir
  }

  function Prescale(s: Gptm, t: SubTimer): Word
  {
    if t == TimerA then s.tapr else s.tbpr
  }

  /** The deadline one branch of `set_timers` gives sub-timer `t`, by width and
      CFG; CFG values other than 0, 1 and 4 arm nothing. */
  function Arm(s: Gptm, t: SubTimer): (e: seq<Effect>)
    ensures |e| <= 1
    ensures forall x | x in e :: x.Schedule? && x.timer == t && x.prescale == Prescale(s, t)
    ensures e != [] <==> WidthOf(s.base) != NoWidth && s.cfg in {0, 1, 4}
    ensures e != [] && s.cfg == 0 ==> e[0].interval == Interval(s) && e[0].domain == VirtualClock
    ensures e != [] && s.cfg == 1 ==> e[0].interval == Interval(s) && e[0].domain == RealtimeClock
    ensures e != [] && s.cfg == 4 && WidthOf(s.base) == Narrow ==>
              e[0].interval == Low16(Load(s, t)) && e[0].interval < 0x10000 && e[0].domain == VirtualClock
    ensures e != [] && s.cfg == 4 && WidthOf(s.base) == Wide ==>
              e[0].interval == Load(s, t) && e[0].domain == RealtimeClock
  {
    var pr := Prescale(s, t);
    match WidthOf(s.base)
    case Narrow =>
      if s.cfg == 4 then [Schedule(t, Low16(Load(s, t)), pr, VirtualClock)]
      else if s.cfg == 1 then [Schedule(t, Interval(s), pr, RealtimeClock)]
      else if s.cfg == 0 then [Schedule(t, Interval(s), pr, VirtualClock)]
      else []
    case Wide =>
      if s.cfg == 0 then [Schedule(t, Interval(s), pr, VirtualClock)]
      else if s.cfg == 1 then [Schedule(t, Interval(s), pr, RealtimeClock)]
      else if s.cfg == 4 then [Schedule(t, Load(s, t), pr, RealtimeClock)]
      else []
    case NoWidth => []
  }

  /** `set_timers`: timer A is armed when its enable bit is set, and timer B
      only when A's is clear and B's is set. At most one deadline results. */
  function SetTimers(s: Gptm): (e: seq<Effect>)
    ensures |e| <= 1
    ensures forall x | x in e :: x.Schedule? && x.timer == (if BitSet(s.ctl, TAEN) then TimerA else TimerB)
    ensures e != [] <==> (BitSet(s.ctl, TAEN) || BitSet(s.ctl, TBEN))
                           && WidthOf(s.base) != NoWidth && s.cfg in {0, 1, 4}
    ensures e != [] ==> e == Arm(s, e[0].timer)
  {
    if BitSet(s.ctl, TAEN) then Arm(s, TimerA)
    else if BitSet(s.ctl, TBEN) then Arm(s, TimerB)
    else []
  }

  /** An interrupt-clear write: the bits set in `v` are cleared from both
      status registers, and ICR itself is not stored. */
  function ClearWrite(s: Gptm, v: Word): (r: Gptm)
    ensures r == s.(ris := r.ris, mis := r.mis)
    ensures forall k: BitIndex :: BitSet(r.ris, k) <==> BitSet(s.ris, k) && !BitSet(v, k)
    ensures forall k: BitIndex :: BitSet(r.mis, k) <==> BitSet(s.mis, k) && !BitSet(v, k)
  {
    s.(ris := And(s.ris, Not(v)), mis := And(s.mis, Not(v)))
  }

  /** The registers a write simply stores into. RIS and the read-only
      registers are not among them, nor is ICR. */
  const Stored: set<nat> :=
    {CFG, AMR, BMR, CTL, SYNC, IMR, MIS, TALIR, TBLIR, TAMATCHR, TBMATCHR,
     TAPR, TBPR, TAPMR, TBPMR, TAV, TBV}

  /** Writes that only store the value; read-only and unknown offsets are
      ignored. */
  function StoreWrite(s: Gptm, off: nat, v: Word): (r: Gptm)
    ensures r.base == s.base
    ensures off !in Stored ==> r == s
    ensures off == CFG ==> r == s.(cfg := v)
    ensures off == AMR ==> r == s.(amr := v)
    ensures off == BMR ==> r == s.(bmr := v)
    ensures off == CTL ==> r == s.(ctl := v)
    ensures off == SYNC ==> r == s.(sync := v)
    ensures off == IMR ==> r == s.(imr := v)
    ensures off == MIS ==> r == s.(mis := v)
    ensures off == TALIR ==> r == s.(talir := v)
    ensures off == TBLIR ==> r == s.(tblir := v)
    ensures off == TAMATCHR ==> r == s.(tamatchr := v)
    ensures off == TBMATCHR ==> r == s.(tbmatchr := v)
    ensures off == TAPR ==> r == s.(tapr := v)
    ensures off == TBPR ==> r == s.(tbpr := v)
    ensures off == TAPMR ==> r == s.(tapmr := v)
    ensures off == TBPMR ==> r == s.(tbpmr := v)
    ensures off == TAV ==> r == s.(tav := v)
    ensures off == TBV ==> r == s.(tbv := v)
  {
    if off == CFG then s.(cfg := v)
    else if off == AMR then s.(amr := v)
    else if off == BMR then s.(bmr := v)
    else if off == CTL then s.(ctl := v)
    else if off == SYNC then s.(sync := v)
    else if off == IMR then s.(imr := v)
    else if off == MIS then s.(mis := v)
    else if off == TALIR then s.(talir := v)
    else if off == TBLIR then s.(tblir := v)
    else if off == TAMATCHR then s.(tamatchr := v)
    else if off == TBMATCHR then s.(tbmatchr := v)
    else if off == TAPR then s.(tapr := v)
    else if off == TBPR then s.(tbpr := v)
    else if off == TAPMR then s.(tapmr := v)
    else if off == TBPMR then s.(tbpmr := v)
    else if off == TAV then s.(tav := v)
    else if off == TBV then s.(tbv := v)
    else s
  }

  /** `tm4c123_gptm_write`. Only a CTL write arms anything. */
  function Write(s: Gptm, sc: SysCtl.SysCtl, off: nat, v: Word): (r: Outcome<Gptm>)
    requires SysCtl.Valid(sc)
    ensures r.Fatal? <==> !ClockEnabled(sc, s.base)
    ensures r.Next? ==> r.state.base == s.base
    ensures r.Next? && off != CTL ==> r.effects == []
    ensures r.Next? && off == CTL ==> r.state == s.(ctl := v) && r.effects == SetTimers(r.state)
    ensures r.Next? && off == ICR ==> r.state == ClearWrite(s, v)
    ensures r.Next? && off != ICR && off !in Stored ==> r.state == s
    ensures r.Next? && off in Stored && off != CTL ==> r.state == StoreWrite(s, off, v)
  {
    if !ClockEnabled(sc, s.base) then Fatal("GPTM module clock is not enabled")
    else if off == CTL then
      var s' := s.(ctl := v);
      Next(s', SetTimers(s'))
    else if off == ICR then Next(ClearWrite(s, v), [])
    else Next(StoreWrite(s, off, v), [])
  }

  /** A TBV read of a 32/64-bit unit in CFG 0 takes bits 32 onwards of timer
      A's count with a field length of 64, which QEMU's `extract64` rejects
      by assertion, so the emulator aborts. */
  predicate TbvAborts(s: Gptm, off: nat)
  {
    off == TBV && WidthOf(s.base) == Wide && s.cfg == 0
  }

  /** `tm4c123_gptm_read`. The live count registers read the sub-timer's
      remaining time; TAV always reads timer A and TBV timer B, except for
      the 64-bit TBV read, which aborts. */
  function Read(s: Gptm, sc: SysCtl.SysCtl, off: nat): (r: Reply)
    requires SysCtl.Valid(sc)
    ensures r.Fault? <==> !ClockEnabled(sc, s.base) || TbvAborts(s, off)
    ensures r.LiveCount? <==> !r.Fault? && off in {TAV, TBV}
    ensures r.LiveCount? ==> (r.timer == TimerA <==> off == TAV)
  {
    if !ClockEnabled(sc, s.base) then Fault("GPTM module clock is not enabled")
    else if off == CFG then Value(s.cfg)
    else if off == AMR then Value(s.amr)
    else if off == BMR then Value(s.bmr)
    else if off == CTL then Value(s.ctl)
    else if off == SYNC then Value(s.sync)
    else if off == IMR then Value(s.imr)
    else if off == RIS then Value(s.ris)
    else if off == MIS then Value(s.mis)
    else if off == ICR then Value(s.icr)
    else if off == TALIR then Value(s.talir)
    else if off == TBLIR then Value(s.tblir)
    else if off == TAMATCHR then Value(s.tamatchr)
    else if off == TBMATCHR then Value(s.tbmatchr)
    else if off == TAPR then Value(s.tapr)
    else if off == TBPR then Value(s.tbpr)
    else if off == TAPMR then Value(s.tapmr)
    else if off == TBPMR then Value(s.tbpmr)
    else if off == TAR then Value(s.tar)
    else if off == TBR then Value(s.tbr)
    else if off == TAV then LiveCount(TimerA)
    else if off == TBV then
      if WidthOf(s.base) == Wide && s.cfg == 0 then Fault("extract64: field exceeds 64 bits")
      else LiveCount(TimerB)
    else if off == RTCPD then Value(s.rtcpd)
    else if off == TAPS then Value(s.taps)
    else if off == TBPS then Value(s.tbps)
    else if off == TAPV then Value(s.tapv)
    else if off == TBPV then Value(s.tbpv)
    else if off == PP then Value(s.pp)
    else Value(0)
  }

  /** The expiry handler of sub-timer `t`: its time-out bit is latched in
      RIS, and also in MIS with a pulse on its line when the bit is
      unmasked; in periodic mode (mode field 2) `set_timers` runs again. */
  function Expire(s: Gptm, t: SubTimer): (r: (Gptm, seq<Effect>))
    ensures var bit := if t == TimerA then TATO else TBTO;
            && r.0 == s.(ris := r.0.ris, mis := r.0.mis)
            && (forall k: BitIndex :: BitSet(r.0.ris, k) <==> BitSet(s.ris, k) || k == bit)
            && (forall k: BitIndex ::
                  BitSet(r.0.mis, k) <==> BitSet(s.mis, k) || (k == bit && BitSet(s.imr, bit)))
  {
    var bit := if t == TimerA then TATO else TBTO;
    var line := if t == TimerA then TimerAIrq else TimerBIrq;
    var mode := if t == TimerA then s.amr else s.bmr;
    var unmasked := BitSet(s.imr, bit);
    var flag: Word := if t == TimerA then 0x1 else 0x100;
    assert flag == Pow2(bit);
    forall k: BitIndex ensures BitSet(flag, k) <==> k == bit { PowerBit(bit, k); }
    var s' := s.(mis := if unmasked then Or(s.mis, flag) else s.mis, ris := Or(s.ris, flag));
    var pulse := if unmasked then [IrqPulse(line)] else [];
    (s', pulse + if mode % 16 == 2 then SetTimers(s') else [])
  }

  /** What `set_timers` decides depends only on the unit's placement, CTL,
      CFG and the load and prescale registers, not on the status registers. */
  lemma SetTimersIgnoresStatus(s: Gptm, ris: Word, mis: Word)
    ensures SetTimers(s.(ris := ris, mis := mis)) == SetTimers(s)
  {
  }

  /** The SoC's first six units are 16/32-bit and the other six 32/64-bit. */
  lemma SocWidths(i: nat)
    requires i < |SocBases|
    ensures WidthOf(SocBases[i]) == if i < 6 then Narrow else Wide
  {
  }

  /** Every unit the SoC maps has a gate bit except the third wide timer,
      mapped at 0x4003C800: the gate check knows it only at 0x4003C000, so
      every access to it halts whatever SYSCTL holds. */
  lemma SocGates(sc: SysCtl.SysCtl, i: nat)
    requires SysCtl.Valid(sc) && i < |SocBases|
    ensures GateOf(SocBases[i]).None? <==> i == 8
    ensures i == 8 ==> !ClockEnabled(sc, SocBases[i])
  {
  }

  /** After software writes `g` to the unit's run-mode gate register
      (RCGCTIMER or RCGCWTIMER), the unit is accessible exactly when its bit
      of `g` is set. */
  lemma GateFollowsRcgc(sc: SysCtl.SysCtl, base: nat, g: Word)
    requires SysCtl.Valid(sc) && GateOf(base).Some?
    ensures var gate := GateOf(base).value;
            var sc' := SysCtl.Write(sc, SysCtl.Offset(SysCtl.Gate(SysCtl.Rcgc, gate.0)), g);
            ClockEnabled(sc', base) <==> BitSet(g, gate.1)
  {
    SysCtl.GateWrite(sc, SysCtl.Rcgc, GateOf(base).value.0, g);
  }

  /** Clearing is idempotent: a second identical ICR write changes nothing. */
  lemma ClearIdempotent(s: Gptm, v: Word)
    ensures ClearWrite(ClearWrite(s, v), v) == ClearWrite(s, v)
  {
    var once, twice := ClearWrite(s, v), ClearWrite(ClearWrite(s, v), v);
    SameBits(twice.ris, once.ris);
    SameBits(twice.mis, once.mis);
  }

  /** The plain registers read back what was written. */
  lemma WriteReadBack(s: Gptm, sc: SysCtl.SysCtl, off: nat, v: Word)
    requires SysCtl.Valid(sc) && ClockEnabled(sc, s.base)
    requires off in Stored && off !in {TAV, TBV}
    ensures Write(s, sc, off, v).Next?
    ensures Read(Write(s, sc, off, v).state, sc, off) == Value(v)
  {
  }

  /** TAV and TBV store what is written, but a read never shows it: it
      reports the live count instead, or for TBV of a 32/64-bit unit in
      CFG 0 aborts. ICR is never stored, so it reads as whatever it held
      before. */
  lemma UnreadableWrites(s: Gptm, sc: SysCtl.SysCtl, v: Word)
    requires SysCtl.Valid(sc) && ClockEnabled(sc, s.base)
    ensures Write(s, sc, TAV, v).state.tav == v
    ensures Read(Write(s, sc, TAV, v).state, sc, TAV).LiveCount?
    ensures !(WidthOf(s.base) == Wide && s.cfg == 0) ==>
              Read(Write(s, sc, TBV, v).state, sc, TBV).LiveCount?
    ensures WidthOf(s.base) == Wide && s.cfg == 0 ==>
              Read(Write(s, sc, TBV, v).state, sc, TBV).Fault?
    ensures Read(Write(s, sc, ICR, v).state, sc, ICR) == Value(s.icr)
  {
  }

  /** The time-out bit and line of a sub-timer. */
  function TimeoutBit(t: SubTimer): BitIndex
  {
    if t == TimerA then TATO else TBTO
  }

  function TimeoutLine(t: SubTimer): Line
  {
    if t == TimerA then TimerAIrq else TimerBIrq
  }

  function Mode(s: Gptm, t: SubTimer): Word
  {
    if t == TimerA then s.amr else s.bmr
  }

  /** The effects of an expiry: a pulse on the sub-timer's line exactly when
      its time-out bit is unmasked, then re-arming exactly in periodic mode,
      which re-runs the whole arming decision. */
  lemma ExpireEffects(s: Gptm, t: SubTimer)
    ensures Expire(s, t).1 ==
              (if BitSet(s.imr, TimeoutBit(t)) then [IrqPulse(TimeoutLine(t))] else [])
              + (if Mode(s, t) % 16 == 2 then SetTimers(s) else [])
  {
    var r := Expire(s, t);
    SetTimersIgnoresStatus(s, r.0.ris, r.0.mis);
    assert r.0 == s.(ris := r.0.ris, mis := r.0.mis);
  }

  /** Re-arming after a timer B expiry follows the A-before-B rule: if timer
      A is enabled, it is timer A's deadline that is renewed. */
  lemma ExpireBRenewsA(s: Gptm)
    requires BitSet(s.ctl, TAEN) && s.bmr % 16 == 2
    requires WidthOf(s.base) != NoWidth && s.cfg in {0, 1, 4}
    ensures exists x | x in Expire(s, TimerB).1 :: x.Schedule? && x.timer == TimerA
    ensures forall x | x in Expire(s, TimerB).1 :: !(x.Schedule? && x.timer == TimerB)
  {
    var r := Expire(s, TimerB);
    SetTimersIgnoresStatus(s, r.0.ris, r.0.mis);
    assert r.0 == s.(ris := r.0.ris, mis := r.0.mis);
    assert SetTimers(s)[0] in r.1;
  }

  /** Something that happens to a unit: a register write or a sub-timer
      expiry. */
  datatype Event = Access(off: nat, v: Word) | Timeout(t: SubTimer)

  function Step(s: Gptm, sc: SysCtl.SysCtl, e: Event): Outcome<Gptm>
    requires SysCtl.Valid(sc)
  {
    match e
    case Access(off, v) => Write(s, sc, off, v)
    case Timeout(t) => Next(Expire(s, t).0, Expire(s, t).1)
  }

  /** The unit's state after a sequence of events, stopping at a halt. */
  function Run(s: Gptm, sc: SysCtl.SysCtl, es: seq<Event>): (r: Outcome<Gptm>)
    requires SysCtl.Valid(sc)
    decreases |es|
  {
    if es == [] then Next(s, [])
    else
      match Step(s, sc, es[0])
      case Fatal(why) => Fatal(why)
      case Next(s', e1) =>
        match Run(s', sc, es[1..])
        case Fatal(why) => Fatal(why)
        case Next(s'', e2) => Next(s'', e1 + e2)
  }

  /** RIS only ever holds the two time-out bits, and ICR, never being
      stored, keeps its reset value 0. */
  ghost predicate StatusInvariant(s: Gptm)
  {
    && s.icr == 0
    && forall k: BitIndex :: BitSet(s.ris, k) ==> k == TATO || k == TBTO
  }

  lemma ResetInvariant(base: nat)
    ensures StatusInvariant(Reset(base))
  {
    forall k: BitIndex ensures !BitSet(0, k) { ZeroBit(k); }
  }

  lemma StepInvariant(s: Gptm, sc: SysCtl.SysCtl, e: Event)
    requires SysCtl.Valid(sc) && StatusInvariant(s)
    ensures Step(s, sc, e).Next? ==> StatusInvariant(Step(s, sc, e).state)
  {
  }

  lemma {:induction false} RunInvariant(s: Gptm, sc: SysCtl.SysCtl, es: seq<Event>)
    requires SysCtl.Valid(sc) && StatusInvariant(s)
    ensures Run(s, sc, es).Next? ==> StatusInvariant(Run(s, sc, es).state)
    decreases |es|
  {
    if es != [] {
      StepInvariant(s, sc, es[0]);
      if Step(s, sc, es[0]).Next? {
        RunInvariant(Step(s, sc, es[0]).state, sc, es[1..]);
      }
    }
  }

  /** From reset, whatever is written and whenever the sub-timers expire,
      RIS holds only the time-out bits and ICR reads 0. */
  lemma StatusAfterReset(base: nat, sc: SysCtl.SysCtl, es: seq<Event>)
    requires SysCtl.Valid(sc)
    ensures var r := Run(Reset(base), sc, es);
            r.Next? ==> r.state.icr == 0 &&
                        forall k: BitIndex :: BitSet(r.state.ris, k) ==> k == TATO || k == TBTO
  {
    ResetInvariant(base);
    RunInvariant(Reset(base), sc, es);
  }
}
