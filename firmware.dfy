/** The firmware's globals as one object whose methods are the two interrupt
    handlers and one pass of `main`'s while loop (timers.c:84-151, 258-323).
    Each method updates the fields step by step as the C code does, and its
    contract ties the new state to the step functions of `Machine`. */
module Firmware {
  import opened Words
  import opened Display
  import opened Control
  import opened Machine

  class Board {
    const config: ClockConfig
    /** `SysCtlClockGet()`, fixed once the clock is configured. */
    const clock: u32

    var countsPerSecond: u32
    var characterFromComputer: u32
    var requestedDisplay: DisplayMode
    var servicedDisplay: DisplayMode
    var enableLED: bool
    var blinkingLightCounter: u32
    /** Timer 1's reload register (TIMER1_BASE, TIMER_A). */
    var timer1Load: u32
    /** Set once the loop test has failed and `main` has left its loop. */
    var loopExited: bool

    function Snapshot(): State
      reads this
    {
      State(countsPerSecond, characterFromComputer, requestedDisplay, servicedDisplay,
            enableLED, blinkingLightCounter, timer1Load, loopExited)
    }

    /** The timer set-up and the variable initialisation that precede the loop. */
    constructor (config: ClockConfig, clock: u32)
      requires clock > 0
      ensures this.config == config && this.clock == clock
      ensures Snapshot() == Initial(clock)
    {
      this.config := config;
      this.clock := clock;
      timer1Load := clock / 2;
      blinkingLightCounter := 0;
      countsPerSecond := 0;
      servicedDisplay := Number;
      requestedDisplay := Number;
      enableLED := true;
      characterFromComputer := NUL;
      loopExited := false;
    }

    /** `Timer1IntHandler`: one more pulse, nothing else. */
    method PulseTick()
      modifies this
      ensures countsPerSecond == Wrap32(old(countsPerSecond) + 1)
      ensures Snapshot() == old(Snapshot()).(countsPerSecond := countsPerSecond)
      ensures Snapshot() == Pulse(old(Snapshot()))
    {
      countsPerSecond := Wrap32(countsPerSecond + 1);
    }

    /** `Timer0IntHandler`, in source order. */
    method SupervisorTick(inp: TickInputs) returns (report: TickReport)
      modifies this
      ensures Snapshot() == Supervise(config, clock, old(Snapshot()), inp).next
      ensures report == Supervise(config, clock, old(Snapshot()), inp).report
      ensures countsPerSecond == 0
      ensures characterFromComputer == if inp.charAvailable then inp.received else NUL
      ensures timer1Load != old(timer1Load) ==>
                inp.adcReady && old(countsPerSecond) != DesiredFrequency(config, inp.sample)
                && timer1Load == clock / DesiredFrequency(config, inp.sample)
    {
      ghost var expected := Supervise(config, clock, Snapshot(), inp);
      var reload := KeepReload;
      var requested := None;
      if inp.adcReady {
        var desiredFrequency := DesiredFrequency(config, inp.sample);
        if countsPerSecond != desiredFrequency {
          if desiredFrequency == 0 {
            reload := DivideByZero;
          } else {
            timer1Load := clock / desiredFrequency;
            reload := Reprogram(timer1Load);
          }
        }
        requested := Some(Render(Requested, desiredFrequency, requestedDisplay));
      }
      var serviced := Render(Serviced, countsPerSecond, servicedDisplay);
      if inp.charAvailable {
        characterFromComputer := inp.received;
      } else {
        characterFromComputer := NUL;
      }
      countsPerSecond := 0;
      report := TickReport(inp.adcReady, reload, requested, serviced);
      assert report == expected.report;
      assert Snapshot() == expected.next;
    }

    /** One loop test of `main` and, when it passes, one pass of the body. */
    method LoopPass() returns (report: LoopReport)
      modifies this
      ensures Snapshot() == Foreground(old(Snapshot())).next
      ensures report == Foreground(old(Snapshot())).report
      ensures report.Iterated? ==> characterFromComputer == NUL
    {
      if loopExited {
        return LoopExited;
      }
      if !LoopContinues(characterFromComputer) {
        loopExited := true;
        return LoopExited;
      }
      var ledHigh := LedOn(enableLED, blinkingLightCounter);
      var key := ToLower(characterFromComputer);
      if key == KeyT {
        enableLED := !enableLED;
      } else if key == Key1 {
        requestedDisplay := Advance(requestedDisplay);
      } else if key == Key2 {
        servicedDisplay := Advance(servicedDisplay);
      }
      characterFromComputer := NUL;
      blinkingLightCounter := Wrap32(blinkingLightCounter + 1);
      report := Iterated(ledHigh, key == KeyS);
    }

    /** `main`'s while loop with the interrupts of `schedule` interleaved:
        events are handled in order until the loop test fails or the schedule
        is used up. */
    method MainLoop(schedule: seq<Event>) returns (handled: nat)
      modifies this
      ensures handled <= |schedule|
      ensures Snapshot() == Run(config, clock, old(Snapshot()), schedule[..handled])
      ensures handled < |schedule| ==> loopExited
      ensures forall k :: 0 <= k < handled ==> !Run(config, clock, old(Snapshot()), schedule[..k]).loopExited
    {
      handled := 0;
      while handled < |schedule| && !loopExited
        invariant handled <= |schedule|
        invariant Snapshot() == Run(config, clock, old(Snapshot()), schedule[..handled])
        invariant forall k :: 0 <= k < handled ==> !Run(config, clock, old(Snapshot()), schedule[..k]).loopExited
        decreases |schedule| - handled
      {
        assert schedule[..handled + 1][..handled] == schedule[..handled];
        match schedule[handled] {
          case PulseTick => PulseTick();
          case SupervisorTick(inp) => var _ := SupervisorTick(inp);
          case LoopPass => var _ := LoopPass();
        }
        handled := handled + 1;
      }
    }
  }
}
