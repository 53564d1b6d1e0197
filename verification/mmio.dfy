/**
 * Shared vocabulary of the TM4C123 peripheral models: what a register
 * access or a timer expiry can do to the world outside the peripheral.
 *
 * Every peripheral is a pure state machine over 32-bit registers. A write or
 * an expiry returns the next state together with the effects the original
 * device would have caused (an interrupt pulse, a deadline handed to the
 * virtual clock, a reset request, ...), or `Fatal` when the device would have
 * halted the emulator with `hw_error`.
 */
module Mmio {
  import opened Bits

  /** An optional value, for decodes that may fail. */
  datatype Option<+T> = None | Some(value: T)

  /** The interrupt outputs a peripheral drives (its sysbus IRQ indices). */
  datatype Line =
    | DeviceIrq   // the single line of GPIO, watchdog and UART
    | TimerAIrq   // GPTM irq_a
    | TimerBIrq   // GPTM irq_b

  /** The two sub-timers of a general-purpose timer unit. */
  datatype SubTimer = TimerA | TimerB

  /** The host clock read for the arming time; the deadline itself runs on
      the virtual clock. */
  datatype ClockDomain = VirtualClock | RealtimeClock

  /** What the peripheral asks of its collaborators. */
  datatype Effect =
    | IrqPulse(line: Line)
      // raise then immediately lower the line
    | IrqLevel(line: Line, high: bool)
      // drive the line to a level and leave it there
    | Schedule(timer: SubTimer, interval: nat, prescale: Word, domain: ClockDomain)
      // (re)arm the sub-timer's deadline `interval` ticks from now; the
      // conversion of ticks to nanoseconds depends on the prescaler and the
      // input clock and is not part of this model
    | Nmi
      // the watchdog's non-maskable diagnostic signal
    | ResetRequest
      // ask for a full system reset

  /** The result of a write or of an expiry callback. */
  datatype Outcome<S> =
    | Fatal(reason: string)
    | Next(state: S, effects: seq<Effect>)

  /** The result of a register read. */
  datatype Reply =
    | Fault(reason: string)
      // the access halted the emulator
    | Value(v: Word)
    | LiveCount(timer: SubTimer)
      // the value is the sub-timer's live down-count, which the original
      // derives from the host clock in floating point
}
