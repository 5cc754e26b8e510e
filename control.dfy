/** The frequency controller inside `Timer0IntHandler` (timers.c:97-124):
    scaling one ADC sample to a desired pulse rate, and deciding whether the
    pulse timer's reload value is rewritten. */
module Control {
  import opened Words

  /** The two clock builds selected by the `SIXTYSIX_MHZ` define
      (timers.c:46-47, 161-168): a 16 MHz crystal (the define commented out,
      the shipped build) or the PLL at about 66 MHz. One build is fixed per
      image; it never changes while the program runs. */
  datatype ClockConfig = Crystal16MHz | Pll66MHz

  /** The per-build multiplier applied to an ADC sample (timers.c:109-113). */
  function ScaleFactor(cfg: ClockConfig): (k: nat)
    ensures k == 159 || k == 500
  {
    match cfg
    case Crystal16MHz => 159
    case Pll66MHz => 500
  }

  /** Exactly one of the two constants is active, chosen by the build. */
  lemma ScaleFactorPerBuild(cfg: ClockConfig)
    ensures ScaleFactor(cfg) == 159 <==> cfg == Crystal16MHz
    ensures ScaleFactor(cfg) == 500 <==> cfg == Pll66MHz
  {
  }

  /** `desiredFrequency = ADCValue[0] * k` in `uint32_t` arithmetic. While
      the product fits in 32 bits it is the exact product, and then it is zero
      exactly for a zero sample. */
  function DesiredFrequency(cfg: ClockConfig, sample: u32): (f: u32)
    ensures sample * ScaleFactor(cfg) < Pow32 ==> f == sample * ScaleFactor(cfg)
    ensures sample * ScaleFactor(cfg) < Pow32 ==> (f == 0 <==> sample == 0)
  {
    Wrap32(sample * ScaleFactor(cfg))
  }

  /** Every sample a 12-bit converter can produce scales without overflow,
      in both builds. */
  lemma TwelveBitSamplesDoNotOverflow(cfg: ClockConfig, sample: u32)
    requires sample < 0x1000
    ensures DesiredFrequency(cfg, sample) == sample * ScaleFactor(cfg)
  {
  }

  /** What the supervisor does to timer 1's reload on a tick that took a
      sample. */
  datatype ReloadAction =
    | KeepReload               // measured count already equals the request
    | Reprogram(load: u32)     // disable, `TimerLoadSet(clock / desired)`, enable
    | DivideByZero             // the correction divides by a zero request

  /** The correction test `countsPerSecond != desiredFrequency` compares the
      MEASURED pulse count with the request (not the previous request), and
      its division `SysCtlClockGet() / desiredFrequency` has no guard: a
      zero request with a non-zero count divides by zero. */
  function ReloadDecision(clock: u32, measured: u32, desired: u32): (a: ReloadAction)
    ensures a.KeepReload? <==> measured == desired
    ensures a.DivideByZero? <==> measured != desired && desired == 0
    ensures a.Reprogram? ==> a.load * desired <= clock < (a.load + 1) * desired
  {
    if measured == desired then KeepReload
    else if desired == 0 then DivideByZero
    else Reprogram(clock / desired)
  }

  /** A zero sample while pulses are still being counted reaches the
      unguarded division. */
  lemma ZeroSampleDividesByZero(cfg: ClockConfig, clock: u32, measured: u32)
    requires measured != 0
    ensures ReloadDecision(clock, measured, DesiredFrequency(cfg, 0)) == DivideByZero
  {
  }

  /** Re-sampling the same value does reprogram again whenever the generator
      did not produce exactly the requested count in the last second. */
  lemma SameSampleReprogramsWhileMismatched(cfg: ClockConfig, clock: u32, measured: u32, sample: u32)
    requires 0 < sample < 0x1000
    requires measured != DesiredFrequency(cfg, sample)
    ensures ReloadDecision(clock, measured, DesiredFrequency(cfg, sample)).Reprogram?
    ensures ReloadDecision(clock, measured, DesiredFrequency(cfg, sample)).load
              == clock / (sample * ScaleFactor(cfg))
  {
  }

  /** With the shipped 16 MHz build a sample of 1000 requests 159000 Hz and a
      reload of 16000000 / 159000 = 100 clock cycles. Because the test looks at
      the measured count, the same sample is reprogrammed again on every tick
      whose count is not exactly 159000, and left alone only when it is. */
  lemma SampleThousandScenario(measured: u32)
    ensures DesiredFrequency(Crystal16MHz, 1000) == 159000
    ensures measured != 159000 ==>
              ReloadDecision(16000000, measured, DesiredFrequency(Crystal16MHz, 1000)) == Reprogram(100)
    ensures measured == 159000 ==>
              ReloadDecision(16000000, measured, DesiredFrequency(Crystal16MHz, 1000)) == KeepReload
  {
  }
}
