# Frequency-tracking firmware: control and menu logic

A Dafny model of the control loop of a TM4C board program (`timers.c`).
Once a second, timer 0's interrupt (the supervisor) reads an ADC sample. It
scales the sample to a desired pulse rate and reprograms timer 1's reload when
the pulses counted in the last second differ from that rate. It then renders
both values on the OLED, latches one UART character into a one-slot mailbox,
and resets the pulse count. Timer 1's interrupt counts pulses. The `main` loop
blinks an LED and handles the menu keys `t`, `s`, `1`, `2` and `c`. The loop
ends when its test sees `q`.

The model is one state machine with three atomic events: a pulse tick, a
supervisor tick and one pass of the `main` loop. The events may come in any
order.

- `Words`: `uint32_t` wrap-around, bytes, and C-locale `tolower`.
- `Display`: the `DisplayMode` enum, the mod-3 toggle, and what
  `diplayADCInfoOnBoard` draws in each mode, as a `Drawing` value.
- `Control`: the two clock builds, scaling a sample to a frequency, and the
  reload decision, which includes the unguarded division.
- `Machine`: the shared state as a value, one function per event, `Run` over
  an event sequence, and the lemmas about interleavings.
- `Firmware`: class `Board`, which holds the globals as fields. Its methods
  are the two handlers and one loop pass, written step by step. `MainLoop` is
  the `while` loop with interrupts interleaved in it. Each method's contract
  ties the new state to the matching `Machine` function.

Behaviour of the code worth knowing:

- The loop test is `tolower(characterFromComputer != 'q')`. `tolower` gets the
  0/1 result of the comparison and returns it unchanged. So the loop stops
  exactly when the mailbox holds a lowercase `q`, and an uppercase `Q` does
  not stop it (`Machine.LoopStopsOnlyOnLowercaseQ`). Each loop pass puts
  `'\0'` back in the mailbox, so the loop can only exit after a supervisor
  tick has latched a `q` between two passes.
- The correction test compares the pulse count measured in the last second
  with the new request. A constant sample is therefore reprogrammed again on
  every tick whose count is not exactly the request
  (`Control.SampleThousandScenario`).
- Both display modes start as NUMBER. Five presses of `1` and then five of
  `2` therefore leave both modes OFF (`Machine.FivePressesEach`).
- When no conversion is ready, the desired frequency is only a local
  variable of the handler, so no value carries over to the next tick.
- The LED test is `<=`. So in every aligned 400000-pass period before the
  32-bit blink counter wraps, the LED is on for 20001 passes. 2^32 is not a
  multiple of 400000, so the last period before the wrap is only 167296
  passes long. Around the wrap the on-phases of two periods come closer
  together.

## Model

| member | source | states |
|---|---|---|
| `Words.ToLower` | timers.c:296 | the result is never a capital; it equals the input, or the input's small letter when the input is a capital |
| `Display.Advance` | timers.c:309-316 | the toggled mode's enum value is (old value + 1) mod DISPLAY_COUNT, and it always differs from the old mode |
| `Display.AdvanceCycle` | timers.c:54-56 | toggling goes OFF -> NUMBER -> BAR -> OFF |
| `Display.AdvanceNCode` | timers.c:309-316 | after n toggles the enum value is (start + n) mod 3 |
| `Display.AdvanceNPeriodic` | timers.c:309-316 | three toggles bring back the starting mode; n + 3 toggles equal n toggles |
| `Display.BarWidth` | timers.c:349-350 | the bar's right edge is the value divided by 6783, rounded down, whenever that fits the int16_t coordinate |
| `Display.Render` | timers.c:328-358 | OFF draws nothing; NUMBER draws the labelled value on the quantity's row; BAR fills from x = 0 to the bar width, 4 pixels above and below the row |
| `Control.ScaleFactor` | timers.c:109-113 | the multiplier is one of the two build constants, 159 or 500 (which one per build: `Control.ScaleFactorPerBuild`) |
| `Control.ScaleFactorPerBuild` | timers.c:109-113 | the multiplier is 159 exactly in the 16 MHz build and 500 exactly in the 66 MHz build |
| `Control.DesiredFrequency` | timers.c:109-113 | without overflow the request is sample times the build's multiplier, and it is zero exactly for a zero sample |
| `Control.TwelveBitSamplesDoNotOverflow` | timers.c:109-113 | every sample below 4096 scales exactly, in both builds |
| `Control.ReloadDecision` | timers.c:115-120 | the reload is kept iff the measured count equals the request; a zero request with a different count divides by zero; otherwise the new reload is clock / request |
| `Control.ZeroSampleDividesByZero` | timers.c:116-118 | a zero sample with a non-zero count reaches the division by zero |
| `Control.SameSampleReprogramsWhileMismatched` | timers.c:115-120 | a non-zero sample whose request differs from the count reprograms to clock / (sample * multiplier) |
| `Control.SampleThousandScenario` | timers.c:109-120 | sample 1000 at 16 MHz requests 159000 Hz and reload 100; it reprograms on every count other than 159000 |
| `Machine.Initial` | timers.c:258-262 | loop entry: count 0, mailbox '\0', both modes NUMBER, LED enabled, blink counter 0, reload half the clock |
| `Machine.Pulse` | timers.c:144-150 | a pulse tick adds one to the count modulo 2^32 (exactly one below 2^32 - 1) and leaves every other field as it was |
| `Machine.Supervise` | timers.c:84-139 | a sample is read, re-triggered and rendered only when a conversion is ready; the reload changes only as the reload decision says; the serviced value shown is the count before the reset; the count ends at 0; the mailbox ends with the received byte or '\0'; the foreground's state is untouched |
| `Machine.Foreground` | timers.c:281-323 | a failed loop test exits and changes nothing else; a pass reports the LED level from the old counter and flag, dispatches on the lower-cased mailbox ('t' flips the LED flag, '1' toggles only the requested mode, '2' only the serviced mode, 's' redraws the splash, anything else nothing), then clears the mailbox and increments the blink counter mod 2^32 |
| `Machine.CountIsPulsesSinceReset` | timers.c:137-150 | under any interleaving the count equals the pulse ticks since the last supervisor tick, mod 2^32 |
| `Machine.ServicedShowsLastWindow` | timers.c:126-138 | a supervisor tick renders as the serviced value the number of pulses since the previous supervisor tick |
| `Machine.LoopContinues` | timers.c:281 | the loop test passes iff the mailbox is not a lowercase 'q' |
| `Machine.LoopStopsOnlyOnLowercaseQ` | timers.c:281 | the loop test passes iff the mailbox is not 'q'; an uppercase 'Q' passes it |
| `Machine.LoopExitNeedsLatchedQ` | timers.c:281-323 | the loop exits only on a mailbox holding 'q', and after any pass the next test passes unless an interrupt intervenes |
| `Machine.UppercaseQIsIgnored` | timers.c:296-322 | a pass over 'Q' only clears the mailbox and increments the blink counter |
| `Machine.MailboxOverwritten` | timers.c:129-135 | a second supervisor tick before the next pass replaces the latched character, with '\0' when the UART is empty |
| `Machine.LedOn` | timers.c:284-286 | the LED is high only when enabled; within the first period, an enabled LED is high iff the counter is at most 20000 (the duty counts: `Machine.OnTicksAligned`, `Machine.DutyCycle`) |
| `Machine.OnTicksAligned` | timers.c:284-286 | with the LED enabled, the counters below k * 400000 + n (n at most one period, no wrap) light it k * 20001 + min(n, 20001) times |
| `Machine.DutyCycle` | timers.c:50-51 | every aligned 400000-pass period that ends before the counter wraps lights an enabled LED 20001 times; a disabled LED is never lit; the period before the wrap is 167296 passes long |
| `Machine.PressesAdvance` | timers.c:309-316 | n key presses of '1' toggle the requested mode n times and leave the serviced mode; likewise '2' for the serviced mode |
| `Machine.FivePressesEach` | timers.c:258-316 | from start-up, five '1' then five '2' leave both modes OFF |
| `Machine.RequestedBarWidth` | timers.c:349-350 | at 16 MHz the requested bar of a 12-bit sample ends within the 96-pixel display; at 66 MHz a full-scale sample reaches x = 301 |
| `Firmware.Board.constructor` | timers.c:258-262 | the fields start in the loop-entry state |
| `Firmware.Board.PulseTick` | timers.c:144-151 | the count goes up by one mod 2^32 and no other field changes |
| `Firmware.Board.SupervisorTick` | timers.c:84-139 | the new fields and the report are those of the supervisor step; the count ends at 0, the mailbox holds the received byte or '\0', and the reload changes only on a ready sample whose request differs from the count, to clock / request |
| `Firmware.Board.LoopPass` | timers.c:281-322 | the new fields and the report are those of one loop step; a pass leaves '\0' in the mailbox |
| `Firmware.Board.MainLoop` | timers.c:281-323 | after handling a prefix of the schedule, the fields are those the event sequence gives; the loop had not exited before any handled event, and it stops early only because the loop has exited |

## Left out

- Peripheral set-up and readiness polling (clock, GPIO, UART, ADC and timer configuration, interrupt enabling, `FPULazyStackingEnable`). These are driver-library register calls. The driver library is not part of this model.
- `SysCtlClockGet()` is the constant `clock` given when a `Board` is built.
- The ADC and the UART are inputs of each supervisor tick: a ready flag with a 32-bit sample, and an availability flag with a received byte. The receive-error bits that the UART data register can carry above the byte are not modelled.
- Graphics and serial output: `clearBlack`, `diplaySplashOnOLED`, `printMainMenu`, `UARTSend`, the `sprintf` formatting and the final `clearBlack` after the loop. Rendering is reported as a `Drawing` value, and the splash redraw as a flag.
- Real preemption, the interrupt-free window of the `s` command, and the read-then-clear race on the mailbox inside one loop pass. Each handler and each loop pass is one atomic step. The mailbox overwrite *between* steps is modelled (`Machine.MailboxOverwritten`).
- What the hardware does after the division by zero. The C result is undefined. The model reports `DivideByZero`, keeps the old reload, and carries on with the rest of the tick.
- The hardware's pulse timing, that is, how many timer-1 interrupts a given reload produces. Pulses are free events.
- What runs after `main` returns. In the model the handlers keep working, and further loop passes do nothing.
- The LED duty cycle across the 32-bit wrap of the blink counter. `Machine.DutyCycle` counts only aligned periods that end before the wrap.
- `__error__`, an empty debug stub.
