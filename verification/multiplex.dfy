/**
 * The display-driver engine of `RGBMultiplex` as an immutable state record.
 *
 * A driver owns N LEDs that share three active-low colour channels; each LED has its
 * own anode-select line. Every scan step (`Update`) lights at most one LED, then moves
 * the scan cursor on and, once per pass, the dimming phase.
 */
module Multiplex {

  import opened Basics
  import opened Colors

  /** The number of phases in one dimming frame, and the brightness that lights every step. */
  const PhaseCount: nat := 8
  const MaxBrightness: nat := 8

  /** The driver's state: the LED table, the scan cursor, the dimming phase and the brightness. */
  datatype Driver = Driver(values: seq<RGB>, cursor: nat, phase: nat, brightness: nat)

  /**
   * What every reachable driver satisfies. The LED count is a byte; the cursor names a
   * LED (a driver built for zero LEDs keeps cursor 0); the phase stays below 8 and the
   * brightness at most 8.
   */
  ghost predicate Valid(d: Driver) {
    && |d.values| <= 255
    && (d.cursor < |d.values| || (|d.values| == 0 && d.cursor == 0))
    && d.phase < PhaseCount
    && d.brightness <= MaxBrightness
  }

  /** A driver that `Update` can step: valid, with at least one LED to divide by. */
  ghost predicate Scannable(d: Driver) {
    Valid(d) && 1 <= |d.values|
  }

  /** Every LED of a table is off. */
  ghost predicate AllDark(values: seq<RGB>) {
    forall j :: 0 <= j < |values| ==> values[j] == Dark
  }

  /** A table of n LEDs, all off. */
  function DarkTable(n: nat): (t: seq<RGB>)
    ensures |t| == n && AllDark(t)
  {
    seq(n, _ => Dark)
  }

  /** The constructor: n LEDs all off, cursor 0, phase 0 and full brightness 8. */
  function New(n: uint8): (d: Driver)
    ensures Valid(d)
    ensures |d.values| == n as int && AllDark(d.values)
    ensures d.cursor == 0 && d.phase == 0 && d.brightness == MaxBrightness
  {
    Driver(DarkTable(n as int), 0, 0, MaxBrightness)
  }

  /** An index the table accepts; larger ones are ignored by every operation. */
  predicate InRange(d: Driver, i: uint8) {
    (i as int) < |d.values|
  }

  /**
   * `SetColor(led_index, r, g, b)`: an in-range index gets exactly the given triple and
   * nothing else in the driver moves; an out-of-range index changes nothing.
   */
  function SetColor(d: Driver, i: uint8, r: bool, g: bool, b: bool): (d': Driver)
    ensures |d'.values| == |d.values|
    ensures InRange(d, i) ==> d'.values[i] == RGB(r, g, b)
    ensures forall j :: 0 <= j < |d.values| && j != i as int ==> d'.values[j] == d.values[j]
    ensures d'.cursor == d.cursor && d'.phase == d.phase && d'.brightness == d.brightness
    ensures !InRange(d, i) ==> d' == d
    ensures Valid(d) ==> Valid(d')
  {
    if !InRange(d, i) then d
    else d.(values := d.values[i := RGB(r, g, b)])
  }

  /**
   * `SetColor(led_index, Color3Bits)` applied to the enum's underlying byte, which may be
   * any value: bits 0, 1 and 2 are read as red, green and blue and the higher bits ignored,
   * then the triple form is called. An in-range entry reads back as the byte's low three
   * bits; nothing else moves.
   */
  function SetColorByte(d: Driver, i: uint8, v: bv8): (d': Driver)
    ensures |d'.values| == |d.values|
    ensures InRange(d, i) ==> Code(Encode(d'.values[i])) == v & 7
    ensures forall j :: 0 <= j < |d.values| && j != i as int ==> d'.values[j] == d.values[j]
    ensures d'.cursor == d.cursor && d'.phase == d.phase && d'.brightness == d.brightness
    ensures !InRange(d, i) ==> d' == d
  {
    SetColor(d, i, Bit(v, 0), Bit(v, 1), Bit(v, 2))
  }

  /**
   * `SetColor(led_index, Color3Bits)` for a named colour: takes its byte and decodes that
   * into the triple form. Reading an in-range entry back as a colour gives the colour written.
   */
  function SetColorBits(d: Driver, i: uint8, c: Color3Bits): (d': Driver)
    ensures |d'.values| == |d.values|
    ensures InRange(d, i) ==> Encode(d'.values[i]) == c
    ensures forall j :: 0 <= j < |d.values| && j != i as int ==> d'.values[j] == d.values[j]
    ensures d'.cursor == d.cursor && d'.phase == d.phase && d'.brightness == d.brightness
    ensures !InRange(d, i) ==> d' == d
  {
    SetColorByte(d, i, Code(c))
  }

  /** Only the low three bits of the byte matter: a named colour is its code, and 9 acts as red. */
  lemma SetColorByteLowBits(d: Driver, i: uint8, v: bv8, c: Color3Bits)
    ensures SetColorByte(d, i, v) == SetColorByte(d, i, v & 7)
    ensures SetColorByte(d, i, Code(c)) == SetColorBits(d, i, c)
    ensures SetColorByte(d, i, 9) == SetColor(d, i, true, false, false)
  {
  }

  /** The level of a shared channel line. */
  datatype Level = Low | High

  /** The channel lines are active-low: a channel that is on is driven LOW. */
  function Drive(on: bool): (l: Level)
    ensures l == Low <==> on
  {
    if on then Low else High
  }

  /** The line levels a scan step leaves behind: three channels and the set of anodes driven HIGH. */
  datatype Pins = Pins(red: Level, green: Level, blue: Level, anodesHigh: set<nat>)

  /** A blank step: every channel off (HIGH) and no anode selected. */
  const Blank: Pins := Pins(High, High, High, {})

  /** One scan step: the lines it drives and the driver it leaves. */
  datatype Scan = Scan(pins: Pins, next: Driver)

  /** A step is lit, i.e. shows the current LED, exactly when the dimming test passes. */
  predicate Lit(d: Driver) {
    if d.brightness > 0 then d.phase < d.brightness else false
  }

  /**
   * `Update`: one multiplexing step. When lit, the current LED's channels are driven from
   * its entry and only its anode goes HIGH; otherwise every line stays off. The cursor then
   * moves on cyclically, and the phase advances (mod 8) exactly when the NEW cursor is the
   * last LED.
   */
  function Update(d: Driver): (s: Scan)
    requires Scannable(d)
    ensures Scannable(s.next)
    ensures s.next.values == d.values && s.next.brightness == d.brightness
    ensures s.pins.anodesHigh != {} <==> 0 < d.brightness && d.phase < d.brightness
    ensures forall k :: k in s.pins.anodesHigh ==> k == d.cursor
    ensures s.pins.anodesHigh != {} ==>
      && s.pins.red == Drive(d.values[d.cursor].r)
      && s.pins.green == Drive(d.values[d.cursor].g)
      && s.pins.blue == Drive(d.values[d.cursor].b)
    ensures s.pins.anodesHigh == {} ==> s.pins == Blank
    ensures s.next.cursor == if d.cursor + 1 == |d.values| then 0 else d.cursor + 1
    ensures s.next.cursor == |d.values| - 1 ==> s.next.phase == (d.phase + 1) % PhaseCount
    ensures s.next.cursor != |d.values| - 1 ==> s.next.phase == d.phase
  {
    var n := |d.values|;
    var e := d.values[d.cursor];
    var pins := if Lit(d) then Pins(Drive(e.r), Drive(e.g), Drive(e.b), {d.cursor}) else Blank;
    var c := NextCursor(d.cursor, n);
    var p := if c == n - 1 then (d.phase + 1) % PhaseCount else d.phase;
    Scan(pins, d.(cursor := c, phase := p))
  }

  /** At most one anode is HIGH after any step: the invariant that makes multiplexing work. */
  lemma AtMostOneAnode(d: Driver)
    requires Scannable(d)
    ensures |Update(d).pins.anodesHigh| <= 1
  {
    var a := Update(d).pins.anodesHigh;
    if a != {} {
      assert a == {d.cursor};
    }
  }

  /** The firmware's cursor advance `(cursor + 1) % n`: the next LED, wrapping after the last. */
  function NextCursor(c: nat, n: nat): (c': nat)
    requires c < n
    ensures c' == if c + 1 == n then 0 else c + 1
  {
    (c + 1) % n
  }

  /** The result of `Off`: the new driver and, when a forced step ran, the lines it drove. */
  datatype Outcome = Outcome(driver: Driver, pins: Option<Pins>)

  /**
   * `Off(led_index)`: an out-of-range index does nothing at all (no scan step); otherwise
   * the LED is cleared and exactly one scan step is forced.
   */
  function Off(d: Driver, i: uint8): (o: Outcome)
    requires Valid(d)
    ensures !InRange(d, i) ==> o == Outcome(d, None)
    ensures InRange(d, i) ==>
      && o.pins.Some?
      && o.driver.values == d.values[i := Dark]
      && o.driver == Update(d).next.(values := d.values[i := Dark])
      && o.pins.value.anodesHigh == (if Lit(d) then {d.cursor} else {})
      && o.pins.value.red == (if Lit(d) then Drive(d.values[i := Dark][d.cursor].r) else High)
      && o.pins.value.green == (if Lit(d) then Drive(d.values[i := Dark][d.cursor].g) else High)
      && o.pins.value.blue == (if Lit(d) then Drive(d.values[i := Dark][d.cursor].b) else High)
  {
    if !InRange(d, i) then Outcome(d, None)
    else
      var s := Update(d.(values := d.values[i := Dark]));
      Outcome(s.next, Some(s.pins))
  }

  /**
   * `AllOff()`: every LED is cleared and exactly one scan step is forced; the step shows
   * no colour, and the counters move exactly as one `Update` of the old driver would.
   */
  function AllOff(d: Driver): (s: Scan)
    requires Scannable(d)
    ensures |s.next.values| == |d.values| && AllDark(s.next.values)
    ensures s.next == Update(d).next.(values := s.next.values)
    ensures s.pins.red == High && s.pins.green == High && s.pins.blue == High
    ensures s.pins.anodesHigh == if Lit(d) then {d.cursor} else {}
  {
    Update(d.(values := DarkTable(|d.values|)))
  }

  /**
   * `Begin()` ends with `AllOff()`: every LED is cleared and one step is forced, which shows
   * no colour and selects the cursor's LED alone when lit. Its pin set-up is hardware only.
   */
  function Begin(d: Driver): (s: Scan)
    requires Scannable(d)
    ensures |s.next.values| == |d.values| && AllDark(s.next.values)
    ensures s.next == Update(d).next.(values := s.next.values)
    ensures s.next.cursor == (d.cursor + 1) % |d.values|
    ensures s.pins.red == High && s.pins.green == High && s.pins.blue == High
    ensures s.pins.anodesHigh == if Lit(d) then {d.cursor} else {}
  {
    AllOff(d)
  }

  /** `SetGlobalBrightness(brightness)`: stores the level clamped to 8; nothing else changes. */
  function SetGlobalBrightness(d: Driver, level: uint8): (d': Driver)
    ensures d'.brightness <= MaxBrightness
    ensures level as int <= MaxBrightness ==> d'.brightness == level as int
    ensures level as int > MaxBrightness ==> d'.brightness == MaxBrightness
    ensures d'.values == d.values && d'.cursor == d.cursor && d'.phase == d.phase
    ensures Valid(d) ==> Valid(d')
  {
    var b := if level as int > MaxBrightness then MaxBrightness else level as int;
    d.(brightness := b)
  }

  /** `GetGlobalBrightness()`: the stored, already clamped level, as a byte. */
  function GetGlobalBrightness(d: Driver): (level: uint8)
    requires Valid(d)
    ensures level as int == d.brightness && level <= 8
  {
    d.brightness as uint8
  }

  /** The enum overload agrees with the triple form on the decoded bits; white is all-on, off all-off. */
  lemma SetColorBitsDecodes(d: Driver, i: uint8, c: Color3Bits)
    ensures SetColorBits(d, i, c) == SetColor(d, i, Bit(Code(c), 0), Bit(Code(c), 1), Bit(Code(c), 2))
    ensures SetColorBits(d, i, White) == SetColor(d, i, true, true, true)
    ensures SetColorBits(d, i, Black) == SetColor(d, i, false, false, false)
    ensures SetColorBits(d, i, Yellow) == SetColor(d, i, true, true, false)
  {
  }

  /** Writing two different LEDs commutes; writing one LED twice keeps only the last write. */
  lemma SetColorFrames(d: Driver, i: uint8, j: uint8, e: RGB, f: RGB)
    ensures i != j ==>
      SetColor(SetColor(d, i, e.r, e.g, e.b), j, f.r, f.g, f.b)
      == SetColor(SetColor(d, j, f.r, f.g, f.b), i, e.r, e.g, e.b)
    ensures SetColor(SetColor(d, i, e.r, e.g, e.b), i, f.r, f.g, f.b) == SetColor(d, i, f.r, f.g, f.b)
  {
    if i != j && InRange(d, i) && InRange(d, j) {
      var a := SetColor(SetColor(d, i, e.r, e.g, e.b), j, f.r, f.g, f.b);
      var b := SetColor(SetColor(d, j, f.r, f.g, f.b), i, e.r, e.g, e.b);
      assert a.values == b.values;
    }
  }

  /** Reading the brightness back after setting it gives the request clamped to 8; setting is idempotent. */
  lemma BrightnessRoundTrip(d: Driver, level: uint8)
    requires Valid(d)
    ensures GetGlobalBrightness(SetGlobalBrightness(d, level)) as int == Min(level as int, MaxBrightness)
    ensures level == 0 ==> GetGlobalBrightness(SetGlobalBrightness(d, level)) == 0
    ensures SetGlobalBrightness(SetGlobalBrightness(d, level), level) == SetGlobalBrightness(d, level)
  {
  }

  /** Brightness 8 lights every step and brightness 0 lights none, whatever the phase. */
  lemma BrightnessExtremes(d: Driver)
    requires Scannable(d)
    ensures d.brightness == MaxBrightness ==> Update(d).pins.anodesHigh == {d.cursor}
    ensures d.brightness == 0 ==> Update(d).pins == Blank
  {
  }

  /** A freshly built driver has full brightness, so its first step selects LED 0 (showing nothing). */
  lemma NewLightsFirstStep(n: uint8)
    requires 1 <= n
    ensures Update(New(n)).pins == Pins(High, High, High, {0})
  {
  }

  /** `AllOff` twice leaves every LED off, and the second forced step again shows no colour. */
  lemma AllOffTwice(d: Driver)
    requires Scannable(d)
    ensures AllOff(AllOff(d).next).next.values == AllOff(d).next.values
    ensures AllOff(AllOff(d).next).pins.anodesHigh <= {AllOff(d).next.cursor}
    ensures AllOff(AllOff(d).next).pins.red == High
    ensures AllOff(AllOff(d).next).pins.green == High && AllOff(AllOff(d).next).pins.blue == High
  {
    var s1 := AllOff(d);
    var s2 := AllOff(s1.next);
    assert s2.next.values == s1.next.values by {
      forall j | 0 <= j < |s1.next.values|
        ensures s2.next.values[j] == s1.next.values[j]
      {
      }
    }
  }

  /**
   * The step `Off` forces is an ordinary scan step of the cleared table: at most one anode
   * is HIGH, and turning off the LED under the cursor shows no colour. Turning off a LED
   * that is already off changes the driver exactly as one `Update` does.
   */
  lemma OffIsOneStep(d: Driver, i: uint8)
    requires Valid(d) && InRange(d, i)
    ensures |Off(d, i).pins.value.anodesHigh| <= 1
    ensures i as int == d.cursor ==>
      Off(d, i).pins.value.red == High && Off(d, i).pins.value.green == High && Off(d, i).pins.value.blue == High
    ensures d.values[i] == Dark ==> Off(d, i) == Outcome(Update(d).next, Some(Update(d).pins))
  {
    var o := Off(d, i);
    if Lit(d) {
      assert o.pins.value.anodesHigh == {d.cursor};
    }
    if d.values[i] == Dark {
      assert d.values[i := Dark] == d.values;
    }
  }
}
