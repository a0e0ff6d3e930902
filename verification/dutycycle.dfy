/**
 * Frame-level dimming over many scan steps.
 *
 * The pair (phase, cursor) behaves like one counter modulo 8*N: `Tick` below advances by
 * exactly one on every `Update`. Counting steps therefore reduces to counting the
 * residues of a window of consecutive integers, which gives the duty cycle: over any
 * 8*N consecutive steps each phase occurs N times and exactly N*brightness steps are lit.
 */
module DutyCycle {

  import opened Multiplex
  import opened Arith

  /** The driver after k consecutive scan steps. */
  function Run(d: Driver, k: nat): (e: Driver)
    requires Scannable(d)
    ensures Scannable(e)
    ensures e.values == d.values && e.brightness == d.brightness
    decreases k
  {
    if k == 0 then d else Run(Update(d).next, k - 1)
  }

  /** The number of lit steps (some anode driven HIGH) among k consecutive steps from d. */
  function LitSteps(d: Driver, k: nat): (n: nat)
    requires Scannable(d)
    ensures n <= k
    decreases k
  {
    if k == 0 then 0
    else (if Update(d).pins.anodesHigh != {} then 1 else 0) + LitSteps(Update(d).next, k - 1)
  }

  /** The number of steps among k consecutive steps from d that run with phase p. */
  function PhaseSteps(d: Driver, k: nat, p: nat): (n: nat)
    requires Scannable(d)
    ensures n <= k
    decreases k
  {
    if k == 0 then 0
    else (if d.phase == p then 1 else 0) + PhaseSteps(Update(d).next, k - 1, p)
  }

  /** The length of one full dimming frame: 8 passes over the N LEDs. */
  function Period(d: Driver): nat
  {
    PhaseCount * |d.values|
  }

  /** The position of a driver within its dimming frame. */
  function Tick(d: Driver): (t: nat)
    requires Scannable(d)
    ensures t < Period(d)
  {
    var n := |d.values|;
    MulMono(d.phase, 7, n);
    d.phase * n + Wrap(d.cursor, n)
  }

  /** Each step advances the frame position by one, wrapping after a full frame. */
  lemma TickStep(d: Driver)
    requires Scannable(d)
    ensures Tick(Update(d).next) == Wrap(Tick(d), Period(d))
  {
    var n := |d.values|;
    var e := Update(d).next;
    assert e.cursor == Wrap(d.cursor, n);
    if e.cursor == n - 1 {
      assert Tick(d) + 1 == (d.phase + 1) * n;
      if d.phase + 1 < 8 {
        assert e.phase == d.phase + 1;
        MulMono(d.phase + 1, 7, n);
      }
    }
  }

  /** Scaling by a positive n preserves strict order in both directions. */
  lemma MulLess(a: nat, b: nat, o: nat, n: nat)
    requires o < n
    ensures a < b <==> a * n + o < b * n
  {
    if a < b {
      MulMono(a + 1, b, n);
    } else {
      MulMono(b, a, n);
    }
  }

  /** A step is lit exactly when its frame position lies in the first N*brightness positions. */
  lemma LitIffEarly(d: Driver)
    requires Scannable(d)
    ensures Update(d).pins.anodesHigh != {} <==> Tick(d) < d.brightness * |d.values|
  {
    MulLess(d.phase, d.brightness, Wrap(d.cursor, |d.values|), |d.values|);
  }

  /** A step runs with phase p exactly when its frame position lies in the p-th block of N. */
  lemma PhaseIffBlock(d: Driver, p: nat)
    requires Scannable(d)
    ensures d.phase == p <==> p * |d.values| <= Tick(d) < (p + 1) * |d.values|
  {
    var n := |d.values|;
    var o := Wrap(d.cursor, n);
    MulLess(d.phase, p + 1, o, n);
    if p <= d.phase {
      MulMono(p, d.phase, n);
    } else {
      MulMono(d.phase + 1, p, n);
    }
  }

  /** How many of the k positions t, t+1, ... (mod m) fall in [lo, hi). */
  function InWindow(t: nat, k: nat, lo: nat, hi: nat, m: nat): (c: nat)
    requires t < m
    ensures c <= k
    decreases k
  {
    if k == 0 then 0
    else (if lo <= t < hi then 1 else 0) + InWindow(Wrap(t, m), k - 1, lo, hi, m)
  }

  /** The size of the overlap of the ranges [a, b) and [lo, hi). */
  function Overlap(a: nat, b: nat, lo: nat, hi: nat): (c: nat)
    ensures a <= b ==> c <= b - a
  {
    var x := if a < lo then lo else a;
    var y := if b < hi then b else hi;
    if x < y then y - x else 0
  }

  /** A window that does not wrap counts its overlap with [lo, hi). */
  lemma {:induction false} InWindowStraight(t: nat, k: nat, lo: nat, hi: nat, m: nat)
    requires t < m && t + k <= m
    ensures InWindow(t, k, lo, hi, m) == Overlap(t, t + k, lo, hi)
    decreases k
  {
    if k > 0 {
      if t + 1 == m {
        assert k == 1;
        assert InWindow(0, 0, lo, hi, m) == 0;
      } else {
        InWindowStraight(t + 1, k - 1, lo, hi, m);
      }
    }
  }

  /** The position a steps after t on a dial of m positions. */
  function Advance(t: nat, a: nat, m: nat): (u: nat)
    requires t < m
    ensures u < m
    decreases a
  {
    if a == 0 then t else Advance(Wrap(t, m), a - 1, m)
  }

  /** Advancing without passing the end of the dial is addition; reaching the end lands on 0. */
  lemma {:induction false} AdvanceStraight(t: nat, a: nat, m: nat)
    requires t < m && t + a <= m
    ensures Advance(t, a, m) == if t + a == m then 0 else t + a
    decreases a
  {
    if a > 0 {
      if t + 1 == m {
        assert Advance(t, a, m) == Advance(0, 0, m);
      } else {
        AdvanceStraight(t + 1, a - 1, m);
      }
    }
  }

  /** A window splits into its first a positions and the b positions after them. */
  lemma {:induction false} InWindowSplit(t: nat, a: nat, b: nat, lo: nat, hi: nat, m: nat)
    requires t < m
    ensures InWindow(t, a + b, lo, hi, m) == InWindow(t, a, lo, hi, m) + InWindow(Advance(t, a, m), b, lo, hi, m)
    decreases a
  {
    if a > 0 {
      InWindowSplit(Wrap(t, m), a - 1, b, lo, hi, m);
    }
  }

  /** A window of a whole period, starting anywhere, meets [lo, hi) exactly hi - lo times. */
  lemma WholePeriod(t: nat, lo: nat, hi: nat, m: nat)
    requires t < m && lo <= hi <= m
    ensures InWindow(t, m, lo, hi, m) == hi - lo
  {
    InWindowSplit(t, m - t, t, lo, hi, m);
    AdvanceStraight(t, m - t, m);
    InWindowStraight(t, m - t, lo, hi, m);
    InWindowStraight(0, t, lo, hi, m);
  }

  /** Counting lit steps is counting the frame positions below N*brightness. */
  lemma {:induction false} LitStepsByTick(d: Driver, k: nat)
    requires Scannable(d)
    ensures LitSteps(d, k) == InWindow(Tick(d), k, 0, d.brightness * |d.values|, Period(d))
    decreases k
  {
    if k > 0 {
      LitIffEarly(d);
      TickStep(d);
      LitStepsByTick(Update(d).next, k - 1);
    }
  }

  /** Counting the steps of phase p is counting the frame positions in the p-th block. */
  lemma {:induction false} PhaseStepsByTick(d: Driver, k: nat, p: nat)
    requires Scannable(d)
    ensures PhaseSteps(d, k, p) == InWindow(Tick(d), k, p * |d.values|, (p + 1) * |d.values|, Period(d))
    decreases k
  {
    if k > 0 {
      PhaseIffBlock(d, p);
      TickStep(d);
      PhaseStepsByTick(Update(d).next, k - 1, p);
    }
  }

  /** Over any 8*N consecutive steps, from any reachable state, exactly N*brightness are lit. */
  lemma LitDutyCycle(d: Driver)
    requires Scannable(d)
    ensures LitSteps(d, Period(d)) == |d.values| * d.brightness
  {
    var n, m := |d.values|, Period(d);
    var hi := d.brightness * n;
    assert hi <= m by { MulMono(d.brightness, 8, n); }
    LitStepsByTick(d, m);
    WholePeriod(Tick(d), 0, hi, m);
    assert LitSteps(d, m) == hi;
  }

  /** Over any 8*N consecutive steps, from any reachable state, each phase value occurs N times. */
  lemma PhaseDutyCycle(d: Driver, p: nat)
    requires Scannable(d) && p < PhaseCount
    ensures PhaseSteps(d, Period(d), p) == |d.values|
  {
    var n := |d.values|;
    PhaseStepsByTick(d, Period(d), p);
    MulMono(p + 1, 8, n);
    assert p * n <= (p + 1) * n;
    WholePeriod(Tick(d), p * n, (p + 1) * n, Period(d));
  }

  /** After k steps the frame position has moved k places on (mod 8*N). */
  lemma {:induction false} RunTick(d: Driver, k: nat)
    requires Scannable(d)
    ensures Tick(Run(d, k)) == (Tick(d) + k) % Period(d)
    decreases k
  {
    if k == 0 {
      ModSmall(Tick(d), Period(d));
    } else {
      var e := Update(d).next;
      TickStep(d);
      RunTick(e, k - 1);
      assert Run(d, k) == Run(e, k - 1);
      WrapThenAdd(Tick(d), k, Period(d));
    }
  }

  /** After k steps the cursor has moved k LEDs on (mod N). */
  lemma {:induction false} RunCursor(d: Driver, k: nat)
    requires Scannable(d)
    ensures Run(d, k).cursor == (d.cursor + k) % |d.values|
    decreases k
  {
    if k == 0 {
      ModSmall(d.cursor, |d.values|);
    } else {
      var e := Update(d).next;
      RunCursor(e, k - 1);
      assert Run(d, k) == Run(e, k - 1);
      assert e.cursor == Wrap(d.cursor, |d.values|);
      WrapThenAdd(d.cursor, k, |d.values|);
    }
  }

  /** The frame position determines the cursor and phase. */
  lemma TickDetermines(d: Driver, e: Driver)
    requires Scannable(d) && Scannable(e) && |d.values| == |e.values|
    requires Tick(d) == Tick(e)
    ensures d.cursor == e.cursor && d.phase == e.phase
  {
    var n := |d.values|;
    PhaseIffBlock(d, e.phase);
    PhaseIffBlock(e, e.phase);
    assert d.phase == e.phase;
    assert Wrap(d.cursor, n) == Wrap(e.cursor, n);
  }

  /** The scan engine is periodic: after one whole frame of 8*N steps it is back where it started. */
  lemma FramePeriodic(d: Driver)
    requires Scannable(d)
    ensures Run(d, Period(d)) == d
  {
    var m := Period(d);
    var e := Run(d, m);
    RunTick(d, m);
    DivModUnique(Tick(d) + m, m, 1, Tick(d));
    assert Tick(e) == Tick(d);
    TickDetermines(d, e);
  }
}
