# TM4C123 peripheral models in Dafny

This project models the register-level behaviour of the five TM4C123GH6PM
peripherals that the QEMU board model emulates:
- the system-control block (SYSCTL);
- the GPIO ports;
- the general-purpose timers (GPTM);
- the two watchdog timers;
- the UARTs.

In the emulator each peripheral is a set of 32-bit registers behind a
memory-mapped read and write handler. Every peripheral except the UART first
checks its run-mode clock-gate bit in SYSCTL and halts the emulator when that
bit is clear. The peripherals then store values, compute interrupt status,
pulse interrupt lines, arm host timers, or request a system reset.

Each peripheral is a pure state machine here. A register is a `Bits.Word`, a
natural number below 2^32. The C bitwise operators are `Bits.And`, `Bits.Or`,
`Bits.Xor` and `Bits.Not`, each specified one bit at a time with `Bits.BitSet`.

A write returns an `Mmio.Outcome`. It is either `Fatal`, where the emulator
would call `hw_error`, or `Next` with the new state and a list of
`Mmio.Effect`s:
- an interrupt pulse or level;
- a host-timer deadline;
- an NMI;
- a system-reset request.

A read returns an `Mmio.Reply`: a fault, a value, or a marker for the
live-count registers of the GPTM. The gate checks read a `SysCtl.SysCtl`
state, which is how the GPIO, GPTM and watchdog modules depend on SYSCTL.

Files:
- `bits.dfy`: the `Bits` module, with 32-bit words, bit positions and the
  bitwise operators.
- `mmio.dfy`: the `Mmio` module, with effects, outcomes and replies shared by
  all peripherals.
- `sysctl.dfy`: the `SysCtl` module.
  - Register offsets decode to a `Reg`, either one of 25 system registers or a
    gate register `Gate(family, class)` in the PP/SR/RCGC/SCGC/DCGC/PR grid.
  - The module has the reset values, the write side effects (IMC into MISC,
    the PLL-lock status bit, RCGC into PR) and the read path.
- `gpio.dfy`: the `Gpio` module.
  - The interrupt detector that a DATA write drives.
  - The toggling interrupt clear, storage and identification registers, and
    the gate check.
- `gptm.dfy`: the `Gptm` module.
  - Timer width by address, the interval built from the two load registers,
    `set_timers`, interrupt clear and the expiry callbacks.
  - An invariant over arbitrary event sequences.
- `watchdog.dfy`: the `Watchdog` module.
  - The first-warning and second-time-out escalation, LOAD, ICR and LOCK, and
    an invariant over arbitrary event sequences.
- `uart.dfy`: the `Usart` module.
  - The flat register file, the receive path and the receive gating.

## Model

| member | source | states |
|---|---|---|
| Bits.And | hw/gpio/tm4c123_gpio.c:116-130 | bit k of `x & y` is set exactly when bit k is set in both operands |
| Bits.Or | hw/gpio/tm4c123_gpio.c:119-130 | bit k of `x \| y` is set exactly when it is set in either operand, and the result stays within 32 bits |
| Bits.Xor | hw/gpio/tm4c123_gpio.c:159-160 | bit k of `x ^ y` is set exactly when the operands differ at bit k, and the result stays within 32 bits |
| Bits.Not | hw/gpio/tm4c123_gpio.c:119-128 | `~x` on a 32-bit register flips each of the 32 bits |
| Bits.SameBits | hw/gpio/tm4c123_gpio.c:116-130 | two registers that agree on every bit are equal; this is how equalities between register values are proved |
| Bits.MaskBit | hw/misc/tm4c123_sysctl.c:199 | `x & (1 << k)` is nonzero exactly when bit k of x is set |
| SysCtl.DecodeOffset | include/hw/misc/tm4c123_sysctl.h:32-152 | decoding the offset of any register gives that register back, so no two registers share an offset |
| SysCtl.OffsetDecode | include/hw/misc/tm4c123_sysctl.h:32-152 | every offset that decodes names a register whose offset it is; with DecodeOffset, decoding and offsets are inverse |
| SysCtl.Reset | hw/misc/tm4c123_sysctl.c:34-159 | every register has a value; of the run, sleep, deep-sleep and ready gates only the hibernation module's is 1, all others are 0; RIS is 0 |
| SysCtl.Write | hw/misc/tm4c123_sysctl.c:161-566 | an unknown offset and a read-only register leave the state unchanged; any other register takes the written value; only the registers in the write's footprint can change |
| SysCtl.Read | hw/misc/tm4c123_sysctl.c:568-822 | an offset outside the register map reads 0 |
| SysCtl.WriteReadRoundTrip | hw/misc/tm4c123_sysctl.c:161-822 | any writable register reads back the value last written to it |
| SysCtl.UnknownOffset | hw/misc/tm4c123_sysctl.c:562-564 | at an unknown offset a write changes nothing and a read gives 0 |
| SysCtl.GateWrite | hw/misc/tm4c123_sysctl.c:356-513 | a run, sleep or deep-sleep gate write stores the value. A run-mode gate write is copied into the class's ready register, except for the watchdog and 16/32-bit timer classes. Nothing else changes |
| SysCtl.ImcWriteSetsMisc | hw/misc/tm4c123_sysctl.c:181-187 | an IMC write is stored in both IMC and MISC |
| SysCtl.MaskPositions | include/hw/misc/tm4c123_sysctl.h:155-157 | the PWRDN masks are bit 13 and the USERCC2 mask is bit 31 |
| SysCtl.PllRisRcc | hw/misc/tm4c123_sysctl.c:194-202 | an RCC write raises the PLL-lock status exactly when the written value has bit 13 set and RCC2 has bit 31 clear |
| SysCtl.PllRisRcc2 | hw/misc/tm4c123_sysctl.c:206-214 | an RCC2 write raises the PLL-lock status exactly when the written value has bit 31 set and bit 13 clear |
| SysCtl.WriteRisPll | hw/misc/tm4c123_sysctl.c:175-214 | after any write, RIS is the old RIS with the PLL-lock bit ORed in when the write raises it, and is unchanged otherwise |
| SysCtl.RisOnlyGainsPll | hw/misc/tm4c123_sysctl.c:175-214 | over any sequence of writes, RIS either stays as it was or gains the PLL-lock bit |
| SysCtl.RisGrowthBits | include/hw/misc/tm4c123_sysctl.h:158 | under that growth no RIS bit is lost, and bit 6 is the only bit that can appear |
| Gpio.Reset | hw/gpio/tm4c123_gpio.c:61-101 | the status and mask registers are 0, and every storage register takes its reset value (DR2R 0xFF, LOCK 1) |
| Gpio.MaskedStatus | hw/gpio/tm4c123_gpio.c:116-129 | for every pin, the computed masked status equals the per-pin reference `PinAsserts`. A pin asserts if it is unmasked and one of these holds: it is level-sensitive at its IEV level; it is set to both edges; it is single-edge with IEV clear |
| Gpio.DataWrite | hw/gpio/tm4c123_gpio.c:114-136 | DATA takes the value. MIS is exactly the asserting pins. RIS keeps its bits and gains exactly the asserting pins written high. Nothing else changes |
| Gpio.DataPulse | hw/gpio/tm4c123_gpio.c:133-134 | a DATA write pulses the port line at most once, and pulses exactly when IM is nonzero, whatever the computed status |
| Gpio.ClearWrite | hw/gpio/tm4c123_gpio.c:158-162 | an ICR write flips in RIS and MIS every bit set in the value, and ICR keeps the value |
| Gpio.StoreWrite | hw/gpio/tm4c123_gpio.c:137-246 | an IS, IBE, IEV, IM or RIS write stores the value in that register and nothing else changes. A storage register takes the value, with the rest of the port unchanged. MIS, the identification registers and unknown offsets ignore writes |
| Gpio.Write | hw/gpio/tm4c123_gpio.c:103-247 | the write halts exactly when the port's gate bit is clear. Only a DATA write has an effect, the pulse. DATA and ICR behave as DataWrite and ClearWrite, and every other offset as StoreWrite. The storage map keeps its shape |
| Gpio.Read | hw/gpio/tm4c123_gpio.c:249-336 | the read faults exactly when the port's gate bit is clear; otherwise it returns a value, and the identification registers read their fixed values |
| Gpio.HistoryIgnored | hw/gpio/tm4c123_gpio.c:116-129 | the masked status does not depend on the previous DATA value, so the edge computation carries no information |
| Gpio.DataWriteBounds | hw/gpio/tm4c123_gpio.c:116-130 | after a DATA write, MIS lies within IM, no RIS bit is lost, and a new RIS bit is a pin written high |
| Gpio.UnchangedPinAsserts | hw/gpio/tm4c123_gpio.c:126-130 | an unmasked single-edge pin with IEV clear asserts on every DATA write, even when unchanged, and latches in RIS when written high |
| Gpio.EventEdgeNeverAsserts | hw/gpio/tm4c123_gpio.c:126-130 | a single-edge pin with IEV set never asserts and its RIS bit is kept |
| Gpio.BothEdgesAlwaysAsserts | hw/gpio/tm4c123_gpio.c:124 | an unmasked both-edges pin asserts on every DATA write |
| Gpio.MaskedOutQuiet | hw/gpio/tm4c123_gpio.c:118-130 | a masked-out pin never asserts and its RIS bit is kept |
| Gpio.SpuriousPulse | hw/gpio/tm4c123_gpio.c:114-134 | with only pin 0 unmasked and set to a rising edge, a DATA write sets no status bit but still pulses the line |
| Gpio.ClearTwiceRestores | hw/gpio/tm4c123_gpio.c:158-162 | writing the same value to ICR twice restores RIS and MIS, because the clear is a toggle |
| Gpio.WriteReadBack | hw/gpio/tm4c123_gpio.c:103-336 | DATA, IS, IBE, IEV, IM, RIS, ICR and every storage register read back what was written |
| Gpio.IgnoredWrites | hw/gpio/tm4c123_gpio.c:155-157 | writes to MIS, to the identification registers and to unlisted offsets change nothing; unlisted offsets read 0 |
| Gpio.GateFollowsRcgc | hw/gpio/tm4c123_gpio.c:36-59 | after RCGCGPIO is written with g, port k is accessible exactly when bit k of g is set |
| Gpio.UnknownBaseHalts | hw/gpio/tm4c123_gpio.c:36-59 | a port mapped outside the six port addresses halts on every access |
| Gptm.Reset | hw/timer/tm4c123_gptm.c:231-262 | control, mask and status registers are 0; TAILR is all ones and TBILR 0; the prescalers are 0; RTCPD is 0x7FFF |
| Gptm.Interval | hw/timer/tm4c123_gptm.c:72-89 | a 16/32-bit unit's interval fits in 32 bits, with TBILR's low half above TAILR's high half. A 32/64-bit unit's interval has TAILR above TBILR. Otherwise the interval is 0 |
| Gptm.Arm | hw/timer/tm4c123_gptm.c:96-139 | at most one deadline, for the given sub-timer with its prescaler. There is one exactly when the unit has a width and CFG is 0, 1 or 4. The interval and clock domain are fixed per CFG and width |
| Gptm.SetTimers | hw/timer/tm4c123_gptm.c:91-186 | at most one deadline. It is for timer A when A's enable bit is set, otherwise for timer B. There is one exactly when an enable bit is set, the unit has a width and CFG is 0, 1 or 4. The deadline is the one Arm gives for that timer: its interval, prescaler and clock domain |
| Gptm.ClearWrite | hw/timer/tm4c123_gptm.c:387-390 | an ICR write clears from RIS and MIS the bits set in the value; ICR and everything else are unchanged |
| Gptm.StoreWrite | hw/timer/tm4c123_gptm.c:362-447 | each stored offset (CFG, AMR, BMR, CTL, SYNC, IMR, MIS, the load, match and prescale registers, TAV, TBV) stores the value in exactly that register, with the rest of the unit unchanged. Other offsets leave the unit unchanged: RIS, the read-only registers and unknown offsets |
| Gptm.Write | hw/timer/tm4c123_gptm.c:350-448 | the write halts exactly when the unit's gate bit is clear. Only a CTL write has effects, exactly `set_timers` on the new state. ICR behaves as ClearWrite. Any other stored offset only stores the value, as StoreWrite. Unstored offsets change nothing |
| Gptm.Read | hw/timer/tm4c123_gptm.c:264-348 | the read faults exactly when the gate bit is clear, or for a TBV read of a 32/64-bit unit in CFG 0, where the source's `extract64(…, 32, 64)` fails its assertion and the emulator aborts. Otherwise TAV gives timer A's live count and TBV timer B's |
| Gptm.Expire | hw/timer/tm4c123_gptm.c:456-485 | an expiry sets the sub-timer's time-out bit in RIS; it sets it in MIS too when that bit is unmasked; nothing else changes |
| Gptm.SetTimersIgnoresStatus | hw/timer/tm4c123_gptm.c:91-186 | the arming decision does not depend on RIS or MIS |
| Gptm.SocWidths | hw/arm/tm4c123gh6pm_soc.c:62-75 | the SoC's first six units are 16/32-bit and the other six 32/64-bit |
| Gptm.SocGates | hw/timer/tm4c123_gptm.c:188-229 | every unit the SoC maps has a gate bit except the one at 0x4003C800, which halts on every access |
| Gptm.GateFollowsRcgc | hw/timer/tm4c123_gptm.c:188-229 | after RCGCTIMER or RCGCWTIMER is written with g, a unit is accessible exactly when its bit of g is set |
| Gptm.ClearIdempotent | hw/timer/tm4c123_gptm.c:387-390 | a second identical ICR write changes nothing |
| Gptm.WriteReadBack | hw/timer/tm4c123_gptm.c:264-448 | every stored register other than TAV and TBV reads back what was written |
| Gptm.UnreadableWrites | hw/timer/tm4c123_gptm.c:313-330 | TAV and TBV store a write but read a live count, except that the TBV read of a 32/64-bit unit in CFG 0 aborts; ICR is not stored and reads its old value |
| Gptm.ExpireEffects | hw/timer/tm4c123_gptm.c:456-485 | the effects of an expiry are exactly a pulse on the sub-timer's line when its time-out bit is unmasked, then, when the mode field is 2, exactly the deadlines `set_timers` gives for the unit as it was before the expiry. The status bits the expiry sets do not influence arming |
| Gptm.ExpireBRenewsA | hw/timer/tm4c123_gptm.c:472-485 | re-arming after a timer B expiry renews timer A whenever A is enabled |
| Gptm.ResetInvariant | hw/timer/tm4c123_gptm.c:231-262 | the reset state satisfies the status invariant |
| Gptm.StepInvariant | hw/timer/tm4c123_gptm.c:350-485 | every write and expiry preserves the invariant: ICR is 0 and RIS holds only bits 0 and 8 |
| Gptm.RunInvariant | hw/timer/tm4c123_gptm.c:350-485 | any sequence of writes and expiries preserves that invariant |
| Gptm.StatusAfterReset | hw/timer/tm4c123_gptm.c:231-485 | from reset, whatever happens, ICR is 0 and RIS holds only the two time-out bits |
| Watchdog.Reset | hw/watchdog/tm4c123_watchdog.c:73-97 | LOAD is all ones and the status, ICR, TEST and LOCK registers are 0. CTL is 0 for watchdog 0; otherwise bit 31 is its only set bit. The counter is untouched |
| Watchdog.Expire | hw/watchdog/tm4c123_watchdog.c:41-58 | the first time-out sets MIS bit 0 and warns with an NMI and a pulse. A later unacknowledged time-out requests a reset if CTL bit 1 is set, otherwise it warns again. The counter reloads |
| Watchdog.LoadWrite | hw/watchdog/tm4c123_watchdog.c:165-174 | LOAD takes the value, CTL gains bit 0, and the counter restarts from the value, running |
| Watchdog.ClearWrite | hw/watchdog/tm4c123_watchdog.c:181-188 | the counter reloads from LOAD, bit 0 of RIS and MIS is cleared, and ICR keeps the value |
| Watchdog.LockWrite | hw/watchdog/tm4c123_watchdog.c:198-204 | only LOCK can change; it can only become 0, never be set; only the unlock key changes it, and the key always clears it |
| Watchdog.Write | hw/watchdog/tm4c123_watchdog.c:154-244 | the write halts exactly when the watchdog's gate bit is clear. No write has effects. LOAD, ICR and LOCK behave as above. CTL and TEST only store the value. Other offsets change nothing |
| Watchdog.StoppedUntilLoad | hw/watchdog/tm4c123_watchdog.c:165-174 | after power-on, with the counter in its created state, it is stopped, so a time-out does nothing. After a LOAD write it runs, and its first time-out is a warning |
| Watchdog.Read | hw/watchdog/tm4c123_watchdog.c:99-152 | the read faults exactly when the gate bit is clear; otherwise VALUE reads the counter's count as of its last reload and the identification registers read their fixed values |
| Watchdog.Escalation | hw/watchdog/tm4c123_watchdog.c:41-58 | two time-outs without an acknowledgement warn first and then reset, or warn again, according to CTL bit 1 |
| Watchdog.EscalationBit | hw/watchdog/tm4c123_watchdog.c:51 | the escalation tests CTL bit 1, not the interrupt-type bit 2 |
| Watchdog.ClearRestartsWarning | hw/watchdog/tm4c123_watchdog.c:181-188 | after an ICR write the next time-out is a first warning again, and the counter holds LOAD |
| Watchdog.LoadArms | hw/watchdog/tm4c123_watchdog.c:165-174 | a LOAD write arms the counter whatever LOCK holds, sets the interrupt enable and reads back |
| Watchdog.WriteReadBack | hw/watchdog/tm4c123_watchdog.c:178-197 | CTL and TEST read back what was written |
| Watchdog.GateFollowsRcgc | hw/watchdog/tm4c123_watchdog.c:60-71 | after RCGCWD is written with g, watchdog i is accessible exactly when bit i of g is set |
| Watchdog.StepInvariant | hw/watchdog/tm4c123_watchdog.c:154-244 | every write and time-out keeps RIS and LOCK at 0 |
| Watchdog.RunInvariant | hw/watchdog/tm4c123_watchdog.c:154-244 | any sequence of writes and time-outs keeps RIS and LOCK at 0 |
| Watchdog.RisAndLockStayZero | hw/watchdog/tm4c123_watchdog.c:73-244 | from reset, whatever happens, RIS and LOCK read 0 |
| Usart.Reset | hw/char/tm4c123_usart.c:76-112 | every register takes its reset value and the interrupt line is driven low |
| Usart.Receive | hw/char/tm4c123_usart.c:56-74 | with EN or RXE clear nothing happens. Otherwise DR takes the first byte, CTL loses bit 4 only, and the line is raised exactly when RXIM is set. Nothing else changes |
| Usart.Write | hw/char/tm4c123_usart.c:188-293 | a mapped register takes the value; an unmapped offset changes nothing |
| Usart.Read | hw/char/tm4c123_usart.c:114-186 | an unmapped offset reads 0 |
| Usart.WriteReadBack | hw/char/tm4c123_usart.c:114-293 | every mapped register, identification registers included, reads back what was written, and no other register changes |
| Usart.UnknownOffset | hw/char/tm4c123_usart.c:179-186 | at an unmapped offset a write changes nothing and a read gives 0 |
| Usart.ResetIgnoresReceive | hw/char/tm4c123_usart.c:45-112 | after reset the UART can take a character but drops it, because CTL 0x300 has RXE set but not EN |
| Usart.ReceivedByteInDr | hw/char/tm4c123_usart.c:56-74 | an enabled receive makes DR read the received byte |
| Usart.ReceiveKeepsFlags | hw/char/tm4c123_usart.c:45-74 | receiving never changes FR, so whether the UART can receive stays the same |
| Usart.ReceiveStaysEnabled | hw/char/tm4c123_usart.c:56-74 | an enabled receive leaves the receiver enabled |

## Left out

- Timing arithmetic. The conversions between nanoseconds and timer ticks go through `float` and the clock frequency, and are not modelled. A deadline is an `Mmio.Schedule` carrying the tick interval, the prescaler and the clock domain. Because those conversions are out, so is their division by the prescaler: with the reset prescaler 0 they divide by zero (`hw/timer/tm4c123_gptm.c:38` and `:46`).
- Gptm.Read: a TAV or TBV read returns the marker `LiveCount(timer)`, not the remaining tick count. That count needs the host clock and the float conversion. The non-timer-A branch of the TBV read names a field, `gptm_tabr`, that the unit's state does not declare. It is modelled as timer B's count. For a 32/64-bit unit in CFG 0 the TAV read keeps only bits 0-30 of the count (`extract64(…, 0, 31)`); the marker does not carry a count, so this truncation is not modelled. QEMU's `extract64` (its bitops header) is not part of this model; the TBV abort follows its assertion `length <= 64 - start`.
- Gptm.Expire: the ensures states the register changes. The effects are stated by `Gptm.ExpireEffects`.
- Disabling a sub-timer through CTL does not cancel a deadline already armed, because the source never deletes a host timer. So there is no cancel effect.
- The watchdog's host down-counter (a QEMU `ptimer`) is abstracted as `Watchdog.Countdown`: count, limit and a running flag. Its passage of time is the `Timeout` event, which takes effect only while the counter runs.
- Watchdog.Read: VALUE gives the count at the counter's last reload (LOAD, ICR or a time-out), not the live `ptimer_get_count` value, because the model has no time passing between time-outs.
- The watchdog's file-scope `locked` flag is never read, so it is not modelled. Neither is the `wdt_value` field, which reset sets and nothing reads.
- The identification registers of GPIO and the watchdog are constants. They are read-only and never change.
- The UART's character backend is out: opening it, handlers and transmission. `Usart.Receive` takes the received buffer as a parameter and requires at least one byte, as the backend calls the handler only with data.
- Logging and tracing, QOM type registration, `realize`/`init`, memory-region setup and clock plumbing are out.
- SoC composition, including IRQ wiring, is out except the GPTM address table (`Gptm.SocBases`) and the GPIO port bases (`Gpio.PortIndex`). The port bases stand in for the `GPIO_A`..`GPIO_F` constants, which no header defines.
- SysCtl.Reset: the ensures states the gate columns and RIS, not every one of the 121 reset values. Those are the `ResetValue` table it is built from.

Notes on where the model follows the code rather than the data sheet:
- An RCGCWD or RCGCTIMER write is not copied into PRWD or PRTIMER.
- The GPTM ICR write clears RIS and MIS but does not store into ICR.
- The watchdog's second time-out tests CTL bit 1, not the interrupt-type bit.
- The SoC maps the third wide timer at 0x4003C800, which the gate check does not list.
- The GPIO detector ignores the previous pin value.
- The GPIO gate check switches on `GPIO_A`..`GPIO_F`, which no header defines; `Gpio.PortIndex` uses the SoC's port bases in their place.
- The TBV read of a 32/64-bit unit in CFG 0 aborts in `extract64`.
- The UART receive path clears CTL bit 4, not the FR flag.
