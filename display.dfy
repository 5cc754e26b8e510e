/** The `DisplayMode` enumeration and what `diplayADCInfoOnBoard` draws for a
    value in each mode (timers.c:54-56, 327-358). Drawing is described by a
    value; the graphics library calls themselves are not modelled. */
module Display {
  import opened Words

  /** DISPLAY_OFF = 0, DISPLAY_NUMBER = 1, DISPLAY_BAR = 2. */
  datatype DisplayMode = Off | Number | Bar

  /** DISPLAY_COUNT, the number of modes. */
  const DisplayCount: nat := 3

  /** The enumerator's integer value. */
  function Code(m: DisplayMode): (c: nat)
    ensures c < DisplayCount
  {
    match m
    case Off => 0
    case Number => 1
    case Bar => 2
  }

  function FromCode(c: nat): (m: DisplayMode)
    requires c < DisplayCount
    ensures Code(m) == c
  {
    if c == 0 then Off else if c == 1 then Number else Bar
  }

  /** `mode = (mode + 1) % DISPLAY_COUNT`, the menu's toggle. */
  function Advance(m: DisplayMode): (r: DisplayMode)
    ensures Code(r) == (Code(m) + 1) % DisplayCount
    ensures r != m
  {
    FromCode((Code(m) + 1) % DisplayCount)
  }

  /** The toggle cycles OFF -> NUMBER -> BAR -> OFF. */
  lemma AdvanceCycle()
    ensures Advance(Off) == Number && Advance(Number) == Bar && Advance(Bar) == Off
  {
  }

  /** `n` successive toggles. */
  function AdvanceN(m: DisplayMode, n: nat): DisplayMode
  {
    if n == 0 then m else Advance(AdvanceN(m, n - 1))
  }

  lemma {:induction false} AdvanceNCode(m: DisplayMode, n: nat)
    ensures Code(AdvanceN(m, n)) == (Code(m) + n) % DisplayCount
  {
    if n > 0 {
      AdvanceNCode(m, n - 1);
      var k := Code(m) + n - 1;
      assert (k % 3 + 1) % 3 == (k + 1) % 3;
    }
  }

  /** Three toggles bring a mode back to where it started, and more
      generally only the number of toggles modulo three matters. */
  lemma AdvanceNPeriodic(m: DisplayMode, n: nat)
    ensures AdvanceN(m, 3) == m
    ensures AdvanceN(m, n + 3) == AdvanceN(m, n)
  {
    AdvanceNCode(m, 3);
    AdvanceNCode(m, n);
    AdvanceNCode(m, n + 3);
    CodeInjective(AdvanceN(m, 3), m);
    CodeInjective(AdvanceN(m, n + 3), AdvanceN(m, n));
  }

  lemma CodeInjective(a: DisplayMode, b: DisplayMode)
    requires Code(a) == Code(b)
    ensures a == b
  {
  }

  /** The two quantities the supervisor shows, each on its own row. */
  datatype Quantity = Requested | Serviced

  /** The y coordinate passed for each quantity (timers.c:123, 127). */
  function Row(q: Quantity): nat
  {
    match q
    case Requested => 20
    case Serviced => 35
  }

  /** `int16_t`, the coordinate type of the graphics library's rectangles. */
  type int16 = x: int | -0x8000 <= x < 0x8000

  /** The value an `int16_t` field holds after being assigned `x`
      (two's-complement truncation). */
  function Int16(x: int): (r: int16)
    ensures -0x8000 <= x < 0x8000 ==> r == x
    ensures (x - r) % 0x1_0000 == 0
  {
    (x + 0x8000) % 0x1_0000 - 0x8000
  }

  /** Divisor that scales a value down to a bar length in pixels. */
  const BarScale: nat := 6783

  /** `sRect.i16XMax = ADCValue / 6783`: the bar's right edge. */
  function BarWidth(v: u32): (w: int16)
    ensures v < 0x8000 * BarScale ==> 0 <= w && w * BarScale <= v < (w + 1) * BarScale
  {
    Int16(v / BarScale)
  }

  /** What one call of `diplayADCInfoOnBoard` puts on the screen. */
  datatype Drawing =
    | Blank
    | Text(quantity: Quantity, y: nat, value: u32)
    | FilledBar(xMin: int16, yMin: int16, xMax: int16, yMax: int16)

  /** Nothing in OFF, the labelled number centred on the row in NUMBER, and in
      BAR a filled rectangle from x = 0 to the scaled value, four pixels above
      and below the row. */
  function Render(q: Quantity, value: u32, mode: DisplayMode): (d: Drawing)
    ensures d.Blank? <==> mode == Off
    ensures d.Text? <==> mode == Number
    ensures d.Text? ==> d.quantity == q && d.y == Row(q) && d.value == value
    ensures d.FilledBar? ==> d.xMin == 0 && d.xMax == BarWidth(value)
    ensures d.FilledBar? ==> d.yMin == Row(q) - 4 && d.yMax == Row(q) + 4
  {
    match mode
    case Off => Blank
    case Number => Text(q, Row(q), value)
    case Bar => FilledBar(0, Row(q) - 4, BarWidth(value), Row(q) + 4)
  }
}
