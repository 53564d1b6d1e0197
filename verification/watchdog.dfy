/**
 * One TM4C123 watchdog timer: a down-counter that warns on its first
 * time-out (interrupt plus NMI) and, if the warning is not acknowledged,
 * either resets the system or warns again on the next.
 *
 * The host's periodic down-counter is abstracted to its count, its reload
 * limit and whether it runs; its expiry is the event `Expire`.
 */
module Watchdog {
  import opened Bits
  import opened Mmio
  import SysCtl

  const WDT0: nat := 0x4000_0000
  const WDT1: nat := 0x4000_1000

  // Register offsets.
  const LOAD: nat := 0x000
  const VALUE: nat := 0x004
  const CTL: nat := 0x008
  const ICR: nat := 0x00C
  const RIS: nat := 0x010
  const MIS: nat := 0x014
  const TEST: nat := 0x418
  const LOCK: nat := 0xC00

  /** The key that a LOCK write must carry to take effect. */
  const UNLOCK_VALUE: Word := 0x1ACC_E551

  // Bit positions.
  const INTEN: BitIndex := 0     // CTL: interrupt (and counter) enable
  const RESEN: BitIndex := 1     // CTL: the bit the second time-out tests
  const TIMEOUT: BitIndex := 0   // RIS/MIS: time-out status

  /** The host down-counter behind the watchdog. */
  datatype Countdown = Countdown(count: Word, limit: Word, running: bool)

  /** The counter as the device creates it: stopped, with the full limit. */
  const Created: Countdown := Countdown(0, 0xFFFF_FFFF, false)

  datatype Watchdog = Watchdog(
    base: nat,
    load: Word, ctl: Word, icr: Word, ris: Word, mis: Word, test: Word, lock: Word,
    counter: Countdown)

  /** Read-only identification registers (PER_ID4..7, PER_ID0..3,
      PCELL_ID0..3), all in the last words of the page. */
  function IdValue(off: nat): (r: Option<Word>)
    ensures r.Some? ==> 0xFD0 <= off
  {
    match off
    case 0xFD0 => Some(0)
    case 0xFD4 => Some(0)
    case 0xFD8 => Some(0)
    case 0xFDC => Some(0)
    case 0xFE0 => Some(0x05)
    case 0xFE4 => Some(0x18)
    case 0xFE8 => Some(0x18)
    case 0xFEC => Some(0x01)
    case 0xFF0 => Some(0x0D)
    case 0xFF4 => Some(0xF0)
    case 0xFF8 => Some(0x06)
    case 0xFFC => Some(0xB1)
    case _ => None
  }

  /** `wdt_clock_enabled`: watchdog 0 needs bit 0 of RCGCWD, watchdog 1 bit 1. */
  predicate ClockEnabled(sc: SysCtl.SysCtl, base: nat)
    requires SysCtl.Valid(sc)
  {
    if base == WDT0 then BitSet(SysCtl.RunGate(sc, SysCtl.Wd), 0)
    else if base == WDT1 then BitSet(SysCtl.RunGate(sc, SysCtl.Wd), 1)
    else false
  }

  /** `tm4c123_wdt_reset`. The counter is not touched. Watchdog 1 comes out
      of reset with CTL bit 31 set. */
  function Reset(base: nat, counter: Countdown): (s: Watchdog)
    ensures s.base == base && s.counter == counter
    ensures s.load == 0xFFFF_FFFF && s.ris == 0 && s.mis == 0 && s.lock == 0 && s.icr == 0
    ensures s.test == 0
    ensures base == WDT0 ==> s.ctl == 0
    ensures base != WDT0 ==> forall k: BitIndex :: BitSet(s.ctl, k) <==> k == 31
  {
    assert 0x8000_0000 == Pow2(31) by { Pow2Word(); }
    forall k: BitIndex ensures BitSet(0x8000_0000, k) <==> k == 31 { PowerBit(31, k); }
    Watchdog(base, 0xFFFF_FFFF, if base == WDT0 then 0 else 0x8000_0000, 0, 0, 0, 0, 0, counter)
  }

  /** `tm4c123_wdt_expired`. The first time-out (MIS bit 0 clear) sets MIS
      bit 0 and warns with an NMI and an interrupt pulse; a time-out while
      MIS bit 0 is still set requests a system reset if CTL bit 1 is set and
      otherwise warns again. The counter reloads from its limit. */
  function Expire(s: Watchdog): (r: (Watchdog, seq<Effect>))
    ensures r.0 == s.(mis := r.0.mis, counter := s.counter.(count := s.counter.limit))
    ensures forall k: BitIndex :: BitSet(r.0.mis, k) <==> BitSet(s.mis, k) || k == TIMEOUT
    ensures !BitSet(s.mis, TIMEOUT) ==> r.1 == [Nmi, IrqPulse(DeviceIrq)]
    ensures BitSet(s.mis, TIMEOUT) ==>
              r.1 == if BitSet(s.ctl, RESEN) then [ResetRequest] else [Nmi, IrqPulse(DeviceIrq)]
    ensures ResetRequest in r.1 ==> BitSet(s.mis, TIMEOUT)
  {
    var reloaded := s.counter.(count := s.counter.limit);
    assert 1 == Pow2(0);
    forall k: BitIndex ensures BitSet(1, k) <==> k == 0 { PowerBit(0, k); }
    if !BitSet(s.mis, TIMEOUT) then
      (s.(mis := Or(s.mis, 1), counter := reloaded), [Nmi, IrqPulse(DeviceIrq)])
    else
      (s.(mis := Or(s.mis, 1), counter := reloaded),
       if BitSet(s.ctl, RESEN) then [ResetRequest] else [Nmi, IrqPulse(DeviceIrq)])
  }

  /** A LOAD write: LOAD takes `v`, the interrupt is enabled, and the counter
      restarts from `v` in periodic mode. The lock is not consulted. */
  function LoadWrite(s: Watchdog, v: Word): (r: Watchdog)
    ensures r == s.(load := v, ctl := r.ctl, counter := Countdown(v, v, true))
    ensures forall k: BitIndex :: BitSet(r.ctl, k) <==> BitSet(s.ctl, k) || k == INTEN
  {
    assert 1 == Pow2(0);
    forall k: BitIndex ensures BitSet(1, k) <==> k == 0 { PowerBit(0, k); }
    s.(load := v, ctl := Or(s.ctl, 1), counter := Countdown(v, v, true))
  }

  /** An interrupt-clear write: the counter reloads from LOAD, bit 0 of RIS
      and MIS is cleared and the value is kept in ICR. */
  function ClearWrite(s: Watchdog, v: Word): (r: Watchdog)
    ensures r == s.(ris := r.ris, mis := r.mis, icr := v,
                    counter := s.counter.(count := s.load, limit := s.load))
    ensures forall k: BitIndex :: BitSet(r.ris, k) <==> BitSet(s.ris, k) && k != TIMEOUT
    ensures forall k: BitIndex :: BitSet(r.mis, k) <==> BitSet(s.mis, k) && k != TIMEOUT
  {
    assert 1 == Pow2(0);
    forall k: BitIndex ensures BitSet(1, k) <==> k == 0 { PowerBit(0, k); }
    s.(ris := And(s.ris, Not(1)), mis := And(s.mis, Not(1)), icr := v,
       counter := s.counter.(count := s.load, limit := s.load))
  }

  /** A LOCK write: only the unlock key has an effect, and it clears LOCK.
      Nothing ever sets LOCK, whatever is written. */
  function LockWrite(s: Watchdog, v: Word): (r: Watchdog)
    ensures r == s.(lock := r.lock)
    ensures r.lock == 0 || r.lock == s.lock
    ensures r.lock != s.lock ==> v == UNLOCK_VALUE
    ensures v == UNLOCK_VALUE ==> r.lock == 0
  {
    if v == UNLOCK_VALUE then s.(lock := 0) else s
  }

  /** `tm4c123_wdt_write`. No write has an outside effect. */
  function Write(s: Watchdog, sc: SysCtl.SysCtl, off: nat, v: Word): (r: Outcome<Watchdog>)
    requires SysCtl.Valid(sc)
    ensures r.Fatal? <==> !ClockEnabled(sc, s.base)
    ensures r.Next? ==> r.effects == [] && r.state.base == s.base
    ensures r.Next? && off == LOAD ==> r.state == LoadWrite(s, v)
    ensures r.Next? && off == CTL ==> r.state == s.(ctl := v)
    ensures r.Next? && off == ICR ==> r.state == ClearWrite(s, v)
    ensures r.Next? && off == TEST ==> r.state == s.(test := v)
    ensures r.Next? && off == LOCK ==> r.state == LockWrite(s, v)
    ensures r.Next? && off !in {LOAD, CTL, ICR, TEST, LOCK} ==> r.state == s
  {
    if !ClockEnabled(sc, s.base) then Fatal("Watchdog module clock is not enabled")
    else if off == LOAD then Next(LoadWrite(s, v), [])
    else if off == CTL then Next(s.(ctl := v), [])
    else if off == ICR then Next(ClearWrite(s, v), [])
    else if off == TEST then Next(s.(test := v), [])
    else if off == LOCK then Next(LockWrite(s, v), [])
    else Next(s, [])
  }

  /** `tm4c123_wdt_read`. VALUE reads the counter's count as of its last
      reload; the model has no time passing between time-outs. */
  function Read(s: Watchdog, sc: SysCtl.SysCtl, off: nat): (r: Reply)
    requires SysCtl.Valid(sc)
    ensures r.Fault? <==> !ClockEnabled(sc, s.base)
    ensures r.Fault? || r.Value?
    ensures r.Value? && IdValue(off).Some? ==> r.v == IdValue(off).value
    ensures r.Value? && off == VALUE ==> r.v == s.counter.count
  {
    if !ClockEnabled(sc, s.base) then Fault("Watchdog timer module clock is not enabled")
    else if off == LOAD then Value(s.load)
    else if off == VALUE then Value(s.counter.count)
    else if off == CTL then Value(s.ctl)
    else if off == ICR then Value(s.icr)
    else if off == RIS then Value(s.ris)
    else if off == MIS then Value(s.mis)
    else if off == TEST then Value(s.test)
    else if off == LOCK then Value(s.lock)
    else if IdValue(off).Some? then Value(IdValue(off).value)
    else Value(0)
  }

  /** Two time-outs with no acknowledgement in between: with CTL bit 1 set
      the second one resets the system, otherwise it warns again. */
  lemma Escalation(s: Watchdog)
    requires !BitSet(s.mis, TIMEOUT)
    ensures Expire(s).1 == [Nmi, IrqPulse(DeviceIrq)]
    ensures Expire(Expire(s).0).1 ==
              if BitSet(s.ctl, RESEN) then [ResetRequest] else [Nmi, IrqPulse(DeviceIrq)]
  {
    var s1 := Expire(s).0;
    assert BitSet(s1.mis, TIMEOUT);
    assert s1.ctl == s.ctl;
  }

  /** The escalation tests CTL bit 1, not the interrupt-type bit (bit 2):
      with only bit 2 set, an unacknowledged time-out warns again instead of
      resetting, and with only bit 1 set it resets. */
  lemma EscalationBit(s: Watchdog)
    requires BitSet(s.mis, TIMEOUT)
    ensures s.ctl == 0x4 ==> Expire(s).1 == [Nmi, IrqPulse(DeviceIrq)]
    ensures s.ctl == 0x2 ==> Expire(s).1 == [ResetRequest]
  {
    assert !BitSet(0x4, RESEN) && BitSet(0x2, RESEN);
  }

  /** Acknowledging through ICR makes the next time-out a first warning
      again, whatever CTL holds. */
  lemma ClearRestartsWarning(s: Watchdog, sc: SysCtl.SysCtl, v: Word)
    requires SysCtl.Valid(sc) && ClockEnabled(sc, s.base)
    ensures Write(s, sc, ICR, v).Next?
    ensures Expire(Write(s, sc, ICR, v).state).1 == [Nmi, IrqPulse(DeviceIrq)]
    ensures Write(s, sc, ICR, v).state.counter.count == s.load
  {
    assert !BitSet(ClearWrite(s, v).mis, TIMEOUT);
  }

  /** A LOAD write arms the watchdog whatever the lock holds, and LOAD reads
      back the written value. */
  lemma LoadArms(s: Watchdog, sc: SysCtl.SysCtl, v: Word)
    requires SysCtl.Valid(sc) && ClockEnabled(sc, s.base)
    ensures var r := Write(s, sc, LOAD, v);
            && r.Next?
            && r.state.counter == Countdown(v, v, true)
            && BitSet(r.state.ctl, INTEN)
            && Read(r.state, sc, LOAD) == Value(v)
  {
  }

  /** CTL and TEST read back what was written. */
  lemma WriteReadBack(s: Watchdog, sc: SysCtl.SysCtl, off: nat, v: Word)
    requires SysCtl.Valid(sc) && ClockEnabled(sc, s.base)
    requires off == CTL || off == TEST
    ensures Write(s, sc, off, v).Next?
    ensures Read(Write(s, sc, off, v).state, sc, off) == Value(v)
  {
  }

  /** After software writes `g` to RCGCWD, watchdog `i` is accessible exactly
      when bit `i` of `g` is set. */
  lemma GateFollowsRcgc(sc: SysCtl.SysCtl, base: nat, g: Word)
    requires SysCtl.Valid(sc) && (base == WDT0 || base == WDT1)
    ensures var sc' := SysCtl.Write(sc, SysCtl.Offset(SysCtl.Gate(SysCtl.Rcgc, SysCtl.Wd)), g);
            ClockEnabled(sc', base) <==> BitSet(g, if base == WDT0 then 0 else 1)
  {
    SysCtl.GateWrite(sc, SysCtl.Rcgc, SysCtl.Wd, g);
  }

  /** Something that happens to a watchdog: a register write or a time-out. */
  datatype Event = Access(off: nat, v: Word) | Timeout

  /** One event. The counter only expires while it runs, that is after a
      LOAD write has started it. */
  function Step(s: Watchdog, sc: SysCtl.SysCtl, e: Event): Outcome<Watchdog>
    requires SysCtl.Valid(sc)
  {
    match e
    case Access(off, v) => Write(s, sc, off, v)
    case Timeout => if s.counter.running then Next(Expire(s).0, Expire(s).1) else Next(s, [])
  }

  /** The state after a sequence of events, stopping at a halt. */
  function Run(s: Watchdog, sc: SysCtl.SysCtl, es: seq<Event>): Outcome<Watchdog>
    requires SysCtl.Valid(sc)
    decreases |es|
  {
    if es == [] then Next(s, [])
    else
      match Step(s, sc, es[0])
      case Fatal(why) => Fatal(why)
      case Next(s', e1) =>
        match Run(s', sc, es[1..])
        case Fatal(why) => Fatal(why)
        case Next(s'', e2) => Next(s'', e1 + e2)
  }

  /** After power-on (a counter in its created state) the counter is stopped,
      so no time-out can warn or reset until software writes LOAD, and LOAD
      always starts it. A system reset leaves a running counter running. */
  lemma StoppedUntilLoad(base: nat, sc: SysCtl.SysCtl, v: Word)
    requires SysCtl.Valid(sc) && ClockEnabled(sc, base)
    ensures Step(Reset(base, Created), sc, Timeout) == Next(Reset(base, Created), [])
    ensures var loaded := Write(Reset(base, Created), sc, LOAD, v).state;
            Step(loaded, sc, Timeout) == Next(Expire(loaded).0, [Nmi, IrqPulse(DeviceIrq)])
  {
    var loaded := Write(Reset(base, Created), sc, LOAD, v).state;
    assert !BitSet(loaded.mis, TIMEOUT) by { ZeroBit(TIMEOUT); }
  }

  /** RIS is never set by anything and LOCK is only ever cleared, so both
      stay 0. */
  ghost predicate QuietInvariant(s: Watchdog)
  {
    s.ris == 0 && s.lock == 0
  }

  lemma StepInvariant(s: Watchdog, sc: SysCtl.SysCtl, e: Event)
    requires SysCtl.Valid(sc) && QuietInvariant(s)
    ensures Step(s, sc, e).Next? ==> QuietInvariant(Step(s, sc, e).state)
  {
    if e.Access? && e.off == ICR && ClockEnabled(sc, s.base) {
      var r := ClearWrite(s, e.v);
      forall k: BitIndex ensures BitSet(r.ris, k) <==> BitSet(0, k) {
        ZeroBit(k);
      }
      SameBits(r.ris, 0);
    }
  }

  lemma {:induction false} RunInvariant(s: Watchdog, sc: SysCtl.SysCtl, es: seq<Event>)
    requires SysCtl.Valid(sc) && QuietInvariant(s)
    ensures Run(s, sc, es).Next? ==> QuietInvariant(Run(s, sc, es).state)
    decreases |es|
  {
    if es != [] {
      StepInvariant(s, sc, es[0]);
      if Step(s, sc, es[0]).Next? {
        RunInvariant(Step(s, sc, es[0]).state, sc, es[1..]);
      }
    }
  }

  /** From reset, whatever is written and however often the counter
      expires, RIS and LOCK both read 0. */
  lemma RisAndLockStayZero(base: nat, counter: Countdown, sc: SysCtl.SysCtl, es: seq<Event>)
    requires SysCtl.Valid(sc) && ClockEnabled(sc, base)
    ensures var r := Run(Reset(base, counter), sc, es);
            r.Next? ==> Read(r.state, sc, RIS) == Value(0) && Read(r.state, sc, LOCK) == Value(0)
  {
    RunInvariant(Reset(base, counter), sc, es);
    var r := Run(Reset(base, counter), sc, es);
    if r.Next? {
      RunBase(Reset(base, counter), sc, es);
    }
  }

  /** A run never moves the device. */
  lemma {:induction false} RunBase(s: Watchdog, sc: SysCtl.SysCtl, es: seq<Event>)
    requires SysCtl.Valid(sc)
    ensures Run(s, sc, es).Next? ==> Run(s, sc, es).state.base == s.base
    decreases |es|
  {
    if es != [] && Step(s, sc, es[0]).Next? {
      RunBase(Step(s, sc, es[0]).state, sc, es[1..]);
    }
  }
}
