/** The firmware's shared state and its three atomic events, as values:
    the pulse tick (`Timer1IntHandler`), the supervisor tick
    (`Timer0IntHandler`) and one pass of the `main` while loop. Interleaving
    is free; each event runs to completion. */
module Machine {
  import opened Words
  import opened Display
  import opened Control

  /** The globals `countsPerSecond`, `characterFromComputer`,
      `requestedDisplay`, `servicedDisplay`, the loop locals `enableLED` and
      `blinkingLightCounter`, timer 1's reload register, and whether the
      `main` loop has exited. */
  datatype State = State(
    countsPerSecond: u32,
    characterFromComputer: u32,
    requestedDisplay: DisplayMode,
    servicedDisplay: DisplayMode,
    enableLED: bool,
    blinkingLightCounter: u32,
    timer1Load: u32,
    loopExited: bool)

  /** The state when the loop is entered (timers.c:239, 258-262): the
      mailbox holds the zero a C global starts with, timer 1 reloads at half
      the clock. */
  function Initial(clock: u32): (s: State)
    ensures s.countsPerSecond == 0 && s.characterFromComputer == NUL
    ensures s.requestedDisplay == Number && s.servicedDisplay == Number
    ensures s.enableLED && s.blinkingLightCounter == 0 && !s.loopExited
    ensures s.timer1Load * 2 <= clock < s.timer1Load * 2 + 2
  {
    State(0, NUL, Number, Number, true, 0, clock / 2, false)
  }

  // ---------------------------------------------------------------------
  // Pulse tick

  /** `countsPerSecond++`: one more pulse modulo 2^32, and nothing else. */
  function Pulse(s: State): (t: State)
    ensures t.countsPerSecond == Wrap32(s.countsPerSecond + 1)
    ensures s.countsPerSecond < Pow32 - 1 ==> t.countsPerSecond == s.countsPerSecond + 1
    ensures t.(countsPerSecond := s.countsPerSecond) == s
  {
    s.(countsPerSecond := Wrap32(s.countsPerSecond + 1))
  }

  // ---------------------------------------------------------------------
  // Supervisor tick

  /** What the environment offers one supervisor tick: whether an ADC
      conversion has completed and its value, whether the UART holds a
      character and which. */
  datatype TickInputs = TickInputs(adcReady: bool, sample: u32, charAvailable: bool, received: byte)

  /** What the tick did besides updating the state: whether it read a sample
      and re-triggered the converter, what it did to the reload, and what it
      drew for each quantity. */
  datatype TickReport = TickReport(
    sampled: bool,
    reload: ReloadAction,
    requested: Option<Drawing>,
    serviced: Drawing)

  datatype Tick = Tick(next: State, report: TickReport)

  function Supervise(cfg: ClockConfig, clock: u32, s: State, inp: TickInputs): (t: Tick)
    // a conversion is consumed, re-triggered and shown only when ready
    ensures t.report.sampled == inp.adcReady
    ensures t.report.requested.Some? <==> inp.adcReady
    ensures inp.adcReady ==>
              t.report.requested == Some(Render(Requested, DesiredFrequency(cfg, inp.sample), s.requestedDisplay))
    // the reload is rewritten only on a ready sample that differs from the count
    ensures !inp.adcReady ==> t.report.reload == KeepReload
    ensures inp.adcReady ==>
              t.report.reload == ReloadDecision(clock, s.countsPerSecond, DesiredFrequency(cfg, inp.sample))
    ensures t.next.timer1Load == if t.report.reload.Reprogram? then t.report.reload.load else s.timer1Load
    // the serviced value shown is the count before it is reset
    ensures t.report.serviced == Render(Serviced, s.countsPerSecond, s.servicedDisplay)
    ensures t.next.countsPerSecond == 0
    ensures t.next.characterFromComputer == if inp.charAvailable then inp.received else NUL
    // the rest of the state is the foreground's
    ensures t.next.requestedDisplay == s.requestedDisplay && t.next.servicedDisplay == s.servicedDisplay
    ensures t.next.enableLED == s.enableLED && t.next.blinkingLightCounter == s.blinkingLightCounter
    ensures t.next.loopExited == s.loopExited
  {
    var desired := DesiredFrequency(cfg, inp.sample);
    var action := if inp.adcReady then ReloadDecision(clock, s.countsPerSecond, desired) else KeepReload;
    var load := if action.Reprogram? then action.load else s.timer1Load;
    var requested := if inp.adcReady then Some(Render(Requested, desired, s.requestedDisplay)) else None;
    var serviced := Render(Serviced, s.countsPerSecond, s.servicedDisplay);
    var mailbox := if inp.charAvailable then inp.received else NUL;
    Tick(s.(timer1Load := load, characterFromComputer := mailbox, countsPerSecond := 0),
         TickReport(inp.adcReady, action, requested, serviced))
  }

  // ---------------------------------------------------------------------
  // Foreground loop

  const LedOnTicks: nat := 20000
  const LedOffTicks: nat := 380000
  const BlinkPeriod: nat := LedOnTicks + LedOffTicks

  /** The LED is driven high when enabled and the blink counter is in the
      first part of its period (timers.c:284-291). */
  predicate LedOn(enabled: bool, counter: u32)
    ensures LedOn(enabled, counter) ==> enabled
    ensures enabled && counter < BlinkPeriod ==> (LedOn(enabled, counter) <==> counter <= LedOnTicks)
  {
    counter % BlinkPeriod <= LedOnTicks && enabled
  }

  /** The loop test `tolower(characterFromComputer != 'q')`: `tolower` gets
      the 0/1 result of the comparison and returns it unchanged. */
  predicate LoopContinues(c: u32)
    ensures LoopContinues(c) <==> c != KeyQ
  {
    ToLower(if c != KeyQ then 1 else 0) != 0
  }

  datatype LoopReport =
    | LoopExited                                 // the test failed; `clearBlack()` and leave `main`
    | Iterated(ledHigh: bool, splashRedrawn: bool)

  datatype Iteration = Iteration(next: State, report: LoopReport)

  /** One evaluation of the loop test and, if it passes, one pass of the body:
      the LED phase, the switch on the lower-cased mailbox, the mailbox
      cleared, the blink counter incremented. */
  function Foreground(s: State): (it: Iteration)
    ensures s.loopExited ==> it == Iteration(s, LoopExited)
    ensures !s.loopExited && !LoopContinues(s.characterFromComputer) ==>
              it == Iteration(s.(loopExited := true), LoopExited)
    ensures it.report.Iterated? <==> !s.loopExited && LoopContinues(s.characterFromComputer)
    ensures it.report.Iterated? ==>
              var key := ToLower(s.characterFromComputer);
              && it.report.ledHigh == LedOn(s.enableLED, s.blinkingLightCounter)
              && it.report.splashRedrawn == (key == KeyS)
              && it.next.enableLED == (if key == KeyT then !s.enableLED else s.enableLED)
              && it.next.requestedDisplay == (if key == Key1 then Advance(s.requestedDisplay) else s.requestedDisplay)
              && it.next.servicedDisplay == (if key == Key2 then Advance(s.servicedDisplay) else s.servicedDisplay)
              && it.next.characterFromComputer == NUL
              && it.next.blinkingLightCounter == Wrap32(s.blinkingLightCounter + 1)
              && it.next.countsPerSecond == s.countsPerSecond
              && it.next.timer1Load == s.timer1Load
              && !it.next.loopExited
  {
    if s.loopExited then Iteration(s, LoopExited)
    else if !LoopContinues(s.characterFromComputer) then Iteration(s.(loopExited := true), LoopExited)
    else
      var ledHigh := LedOn(s.enableLED, s.blinkingLightCounter);
      var key := ToLower(s.characterFromComputer);
      var t :=
        if key == KeyT then s.(enableLED := !s.enableLED)
        else if key == Key1 then s.(requestedDisplay := Advance(s.requestedDisplay))
        else if key == Key2 then s.(servicedDisplay := Advance(s.servicedDisplay))
        else s;  // 's' redraws the splash screen, 'c' and the rest do nothing
      Iteration(t.(characterFromComputer := NUL, blinkingLightCounter := Wrap32(s.blinkingLightCounter + 1)),
                Iterated(ledHigh, key == KeyS))
  }

  // ---------------------------------------------------------------------
  // Interleavings

  datatype Event = PulseTick | SupervisorTick(inputs: TickInputs) | LoopPass

  function Step(cfg: ClockConfig, clock: u32, s: State, e: Event): State
  {
    match e
    case PulseTick => Pulse(s)
    case SupervisorTick(inp) => Supervise(cfg, clock, s, inp).next
    case LoopPass => Foreground(s).next
  }

  /** The state after the events of `evs`, in order. */
  function Run(cfg: ClockConfig, clock: u32, s: State, evs: seq<Event>): State
    decreases |evs|
  {
    if evs == [] then s else Step(cfg, clock, Run(cfg, clock, s, evs[..|evs| - 1]), evs[|evs| - 1])
  }

  lemma {:induction false} RunAppend(cfg: ClockConfig, clock: u32, s: State, a: seq<Event>, b: seq<Event>)
    ensures Run(cfg, clock, s, a + b) == Run(cfg, clock, Run(cfg, clock, s, a), b)
    decreases |b|
  {
    if b == [] {
      assert a + b == a;
    } else {
      assert (a + b)[..|a + b| - 1] == a + b[..|b| - 1];
      assert (a + b)[|a + b| - 1] == b[|b| - 1];
      RunAppend(cfg, clock, s, a, b[..|b| - 1]);
    }
  }

  predicate HasSupervisorTick(evs: seq<Event>)
  {
    exists i :: 0 <= i < |evs| && evs[i].SupervisorTick?
  }

  /** The number of pulse ticks after the last supervisor tick of `evs` (all
      of them if there is none). */
  function PulsesSinceReset(evs: seq<Event>): nat
    decreases |evs|
  {
    if evs == [] then 0
    else
      match evs[|evs| - 1]
      case SupervisorTick(_) => 0
      case PulseTick => PulsesSinceReset(evs[..|evs| - 1]) + 1
      case LoopPass => PulsesSinceReset(evs[..|evs| - 1])
  }

  /** Under any interleaving, the pulse count is the number of pulse ticks
      since the last supervisor tick (on top of the starting count when there
      was none), modulo 2^32. */
  lemma {:induction false} CountIsPulsesSinceReset(cfg: ClockConfig, clock: u32, s: State, evs: seq<Event>)
    ensures Run(cfg, clock, s, evs).countsPerSecond
              == Wrap32((if HasSupervisorTick(evs) then 0 else s.countsPerSecond) + PulsesSinceReset(evs))
    decreases |evs|
  {
    if evs != [] {
      var init := evs[..|evs| - 1];
      var last := evs[|evs| - 1];
      CountIsPulsesSinceReset(cfg, clock, s, init);
      assert HasSupervisorTick(evs) <==> HasSupervisorTick(init) || last.SupervisorTick? by {
        if HasSupervisorTick(init) {
          var i :| 0 <= i < |init| && init[i].SupervisorTick?;
          assert evs[i] == init[i];
        }
        if HasSupervisorTick(evs) && !last.SupervisorTick? {
          var i :| 0 <= i < |evs| && evs[i].SupervisorTick?;
          assert init[i] == evs[i];
        }
        if last.SupervisorTick? {
          assert evs[|evs| - 1].SupervisorTick?;
        }
      }
      var base := if HasSupervisorTick(init) then 0 else s.countsPerSecond;
      if last.PulseTick? {
        Wrap32Succ(base + PulsesSinceReset(init));
      }
    }
  }

  /** Hence a supervisor tick shows, as the serviced value, the number of
      pulses in the window since the previous supervisor tick. */
  lemma ServicedShowsLastWindow(cfg: ClockConfig, clock: u32, s: State, evs: seq<Event>, inp: TickInputs)
    requires HasSupervisorTick(evs)
    ensures Supervise(cfg, clock, Run(cfg, clock, s, evs), inp).report.serviced
              == Render(Serviced, Wrap32(PulsesSinceReset(evs)), Run(cfg, clock, s, evs).servicedDisplay)
  {
    CountIsPulsesSinceReset(cfg, clock, s, evs);
  }

  // ---------------------------------------------------------------------
  // Properties of single events

  /** Only a lowercase 'q' stops the loop; an uppercase 'Q' is dispatched as
      an unknown command and the loop goes on. */
  lemma LoopStopsOnlyOnLowercaseQ(c: u32)
    ensures LoopContinues(c) <==> c != KeyQ
    ensures LoopContinues('Q' as int)
  {
  }

  /** The pass that ran always leaves '\0' in the mailbox, so the next loop
      test can fail only if a supervisor tick latched a 'q' in between. */
  lemma LoopExitNeedsLatchedQ(s: State)
    ensures !s.loopExited && Foreground(s).next.loopExited ==> s.characterFromComputer == KeyQ
    ensures Foreground(s).report.Iterated? ==> LoopContinues(Foreground(s).next.characterFromComputer)
  {
  }

  /** An uppercase 'Q' in the mailbox is consumed like any unknown key. */
  lemma UppercaseQIsIgnored(s: State)
    requires !s.loopExited && s.characterFromComputer == 'Q' as int
    ensures Foreground(s).report.Iterated?
    ensures Foreground(s).next
              == s.(characterFromComputer := NUL, blinkingLightCounter := Wrap32(s.blinkingLightCounter + 1))
  {
  }

  /** The mailbox holds one character: a second supervisor tick before the
      next loop pass overwrites the first character, with '\0' when the UART
      is empty. */
  lemma MailboxOverwritten(cfg: ClockConfig, clock: u32, s: State, first: TickInputs, second: TickInputs)
    requires first.charAvailable
    ensures Supervise(cfg, clock, Supervise(cfg, clock, s, first).next, second).next.characterFromComputer
              == if second.charAvailable then second.received else NUL
  {
  }

  // ---------------------------------------------------------------------
  // The LED duty cycle

  /** The number of blink-counter values below `n` for which the LED is on. */
  function OnTicks(enabled: bool, n: nat): nat
    requires n <= Pow32
  {
    if n == 0 then 0 else OnTicks(enabled, n - 1) + (if LedOn(enabled, n - 1) then 1 else 0)
  }

  /** `(k * P + r) % P == r` for the blink period P. */
  lemma AlignedPhase(k: nat, r: nat)
    requires r < BlinkPeriod
    ensures (k * BlinkPeriod + r) % BlinkPeriod == r
  {
  }

  /** Counters below `k * P + n` within the first `k + 1` periods, before the
      32-bit counter wraps: each full period contributes 20001 lit counters. */
  lemma {:induction false} OnTicksAligned(k: nat, n: nat)
    requires n <= BlinkPeriod && k * BlinkPeriod + n <= Pow32
    ensures OnTicks(true, k * BlinkPeriod + n)
              == k * (LedOnTicks + 1) + (if n <= LedOnTicks + 1 then n else LedOnTicks + 1)
    decreases k, n
  {
    if n > 0 {
      OnTicksAligned(k, n - 1);
      AlignedPhase(k, n - 1);
    } else if k > 0 {
      assert k * BlinkPeriod == (k - 1) * BlinkPeriod + BlinkPeriod;
      OnTicksAligned(k - 1, BlinkPeriod);
    }
  }

  /** In every aligned blink period that ends before the 32-bit counter
      wraps, the enabled LED is high for 20001 of the 400000 passes (the test
      is `<=`); a disabled LED is never high. The counter wraps at 2^32, which
      is not a multiple of the period: the last period before the wrap is
      only 167296 passes long. */
  lemma DutyCycle(k: nat, c: u32)
    requires (k + 1) * BlinkPeriod <= Pow32
    ensures OnTicks(true, (k + 1) * BlinkPeriod) - OnTicks(true, k * BlinkPeriod) == LedOnTicks + 1
    ensures !LedOn(false, c)
    ensures Pow32 % BlinkPeriod == 167296
  {
    OnTicksAligned(k, BlinkPeriod);
    OnTicksAligned(k, 0);
    assert (k + 1) * BlinkPeriod == k * BlinkPeriod + BlinkPeriod;
  }

  // ---------------------------------------------------------------------
  // Menu presses

  /** A key arrives with a supervisor tick that finds no conversion ready,
      and the next loop pass handles it. */
  function KeyPress(key: byte): seq<Event>
  {
    [SupervisorTick(TickInputs(false, 0, true, key)), LoopPass]
  }

  function Repeat(evs: seq<Event>, n: nat): seq<Event>
  {
    if n == 0 then [] else Repeat(evs, n - 1) + evs
  }

  lemma KeyPressOne(cfg: ClockConfig, clock: u32, s: State)
    requires !s.loopExited
    ensures var t := Run(cfg, clock, s, KeyPress('1' as int));
            t.requestedDisplay == Advance(s.requestedDisplay)
            && t.servicedDisplay == s.servicedDisplay && !t.loopExited
  {
    var evs := KeyPress('1' as int);
    var inp := TickInputs(false, 0, true, '1' as int);
    assert evs[..1][..0] == [];
    assert Run(cfg, clock, s, evs[..1]) == Supervise(cfg, clock, s, inp).next;
    assert Run(cfg, clock, s, evs) == Foreground(Supervise(cfg, clock, s, inp).next).next;
  }

  lemma KeyPressTwo(cfg: ClockConfig, clock: u32, s: State)
    requires !s.loopExited
    ensures var t := Run(cfg, clock, s, KeyPress('2' as int));
            t.servicedDisplay == Advance(s.servicedDisplay)
            && t.requestedDisplay == s.requestedDisplay && !t.loopExited
  {
    var evs := KeyPress('2' as int);
    var inp := TickInputs(false, 0, true, '2' as int);
    assert evs[..1][..0] == [];
    assert Run(cfg, clock, s, evs[..1]) == Supervise(cfg, clock, s, inp).next;
    assert Run(cfg, clock, s, evs) == Foreground(Supervise(cfg, clock, s, inp).next).next;
  }

  /** `n` presses of '1' toggle the requested mode `n` times and leave the
      serviced mode alone; likewise '2' for the serviced mode. */
  lemma {:induction false} PressesAdvance(cfg: ClockConfig, clock: u32, s: State, n: nat)
    requires !s.loopExited
    ensures var t := Run(cfg, clock, s, Repeat(KeyPress('1' as int), n));
            t.requestedDisplay == AdvanceN(s.requestedDisplay, n)
            && t.servicedDisplay == s.servicedDisplay && !t.loopExited
    ensures var t := Run(cfg, clock, s, Repeat(KeyPress('2' as int), n));
            t.servicedDisplay == AdvanceN(s.servicedDisplay, n)
            && t.requestedDisplay == s.requestedDisplay && !t.loopExited
  {
    if n > 0 {
      PressesAdvance(cfg, clock, s, n - 1);
      var one := KeyPress('1' as int);
      var two := KeyPress('2' as int);
      RunAppend(cfg, clock, s, Repeat(one, n - 1), one);
      RunAppend(cfg, clock, s, Repeat(two, n - 1), two);
      KeyPressOne(cfg, clock, Run(cfg, clock, s, Repeat(one, n - 1)));
      KeyPressTwo(cfg, clock, Run(cfg, clock, s, Repeat(two, n - 1)));
    }
  }

  /** From power-up both modes are NUMBER, so five presses of '1' followed by
      five of '2' leave both quantities OFF. */
  lemma FivePressesEach(cfg: ClockConfig, clock: u32)
    ensures var t := Run(cfg, clock, Initial(clock),
                         Repeat(KeyPress('1' as int), 5) + Repeat(KeyPress('2' as int), 5));
            t.requestedDisplay == Off && t.servicedDisplay == Off
  {
    var s := Initial(clock);
    var ones := Repeat(KeyPress('1' as int), 5);
    var twos := Repeat(KeyPress('2' as int), 5);
    RunAppend(cfg, clock, s, ones, twos);
    PressesAdvance(cfg, clock, s, 5);
    PressesAdvance(cfg, clock, Run(cfg, clock, s, ones), 5);
    AdvanceNCode(Number, 5);
  }

  // ---------------------------------------------------------------------
  // Bar length on the 96-pixel-wide display

  /** In the 16 MHz build the requested bar of any 12-bit sample ends inside
      the 96-pixel display; in the 66 MHz build a full-scale sample draws a
      bar three times that width. */
  lemma RequestedBarWidth(sample: u32)
    requires sample < 0x1000
    ensures 0 <= BarWidth(DesiredFrequency(Crystal16MHz, sample)) < 96
    ensures sample == 0xFFF ==> BarWidth(DesiredFrequency(Pll66MHz, sample)) == 301
  {
  }
}
