/** Whole-scan consequences of the driver model: what a caller sees over several steps. */
module Scenarios {

  import opened Basics
  import opened Colors
  import opened Multiplex
  import opened Arith
  import opened DutyCycle

  /** Steps from cursor c until the scan reaches LED i. */
  function StepsUntil(c: nat, i: nat, n: nat): (k: nat)
    requires c < n && i < n
    ensures k < n
  {
    if c <= i then i - c else i + n - c
  }

  /** Counting k steps on from c lands on i. */
  lemma StepsUntilReaches(c: nat, i: nat, n: nat)
    requires c < n && i < n
    ensures (c + StepsUntil(c, i, n)) % n == i
  {
    if c <= i {
      ModSmall(i, n);
    } else {
      DivModUnique(i + n, n, 1, i);
    }
  }

  /**
   * A colour written with `SetColor` is shown on the LED's next turn: at full brightness,
   * within fewer than N steps the scan selects exactly that LED and drives its channels
   * (active-low) from the written triple.
   */
  lemma SetColorShownOnItsTurn(d: Driver, i: uint8, r: bool, g: bool, b: bool)
    requires Scannable(d) && InRange(d, i) && d.brightness == MaxBrightness
    ensures
      var d1 := SetColor(d, i, r, g, b);
      var k := StepsUntil(d.cursor, i as nat, |d.values|);
      Update(Run(d1, k)).pins == Pins(Drive(r), Drive(g), Drive(b), {i as nat})
  {
    var d1 := SetColor(d, i, r, g, b);
    var k := StepsUntil(d.cursor, i as nat, |d.values|);
    RunCursor(d1, k);
    StepsUntilReaches(d.cursor, i as nat, |d.values|);
  }

  /** From cursor 0 at full brightness, the first N steps select LEDs 0, 1, ..., N-1 in order. */
  lemma FirstPassInOrder(d: Driver, j: nat)
    requires Scannable(d) && d.cursor == 0 && d.brightness == MaxBrightness && j < |d.values|
    ensures Update(Run(d, j)).pins.anodesHigh == {j}
  {
    RunCursor(d, j);
    ModSmall(j, |d.values|);
  }

  /** Three LEDs at full brightness: the first three steps select anodes 0, 1 and 2. */
  lemma ThreeLedsFullBrightness()
    ensures
      var d := SetColorBits(SetColorBits(SetColorBits(New(3), 0, Red), 1, Green), 2, Blue);
      && Update(d).pins == Pins(Low, High, High, {0})
      && Update(Run(d, 1)).pins == Pins(High, Low, High, {1})
      && Update(Run(d, 2)).pins == Pins(High, High, Low, {2})
  {
    var d := SetColorBits(SetColorBits(SetColorBits(New(3), 0, Red), 1, Green), 2, Blue);
    FirstPassInOrder(d, 1);
    FirstPassInOrder(d, 2);
  }

  /**
   * Three LEDs at brightness 4: 12 of 24 steps are lit, but the blanking does not fall on
   * pass boundaries. In the fourth pass (steps 9 to 11) LEDs 0 and 1 are shown and LED 2 is
   * already blanked, because the phase advances on the step that moves onto the last LED.
   */
  lemma ThreeLedsHalfBrightness()
    ensures
      var d := SetGlobalBrightness(New(3), 4);
      && LitSteps(d, 24) == 12
      && Update(Run(d, 9)).pins.anodesHigh == {0}
      && Update(Run(d, 10)).pins.anodesHigh == {1}
      && Update(Run(d, 11)).pins == Blank
  {
    var d := SetGlobalBrightness(New(3), 4);
    LitDutyCycle(d);
    assert Tick(d) == 1;
    RunTick(d, 9);
    RunTick(d, 10);
    RunTick(d, 11);
    ModSmall(10, 24);
    ModSmall(11, 24);
    ModSmall(12, 24);
    LitIffEarly(Run(d, 9));
    LitIffEarly(Run(d, 10));
    LitIffEarly(Run(d, 11));
    RunCursor(d, 9);
    RunCursor(d, 10);
    DivModUnique(9, 3, 3, 0);
    DivModUnique(10, 3, 3, 1);
  }

  /** `Begin` on a fresh driver of at least two LEDs spends one forced step, so scanning resumes at LED 1. */
  lemma BeginAdvancesCursor(n: uint8)
    requires 2 <= n
    ensures Begin(New(n)).next.cursor == 1
    ensures Begin(New(n)).pins == Pins(High, High, High, {0})
  {
  }
}
