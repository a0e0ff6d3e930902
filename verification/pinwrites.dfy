/**
 * The scan step as the firmware performs it: a sequence of individual line writes.
 *
 * `Update` in the driver model summarises a step by the line levels it leaves. Here the
 * same step is replayed write by write on a map from lines to levels, in the firmware's
 * order (blank the channels, drop every anode, then drive the lit LED or blank again),
 * and the final levels are proved to be the summary's. Lines are abstract and distinct.
 */
module PinWrites {

  import opened Multiplex

  /** A digital output line owned by the driver. */
  datatype Line = RedLine | GreenLine | BlueLine | Anode(k: nat)

  /** The driver's own lines for N LEDs. */
  predicate Owned(l: Line, n: nat) {
    match l
    case Anode(k) => k < n
    case _ => true
  }

  /** The levels `Pins` stands for on every owned line. */
  ghost predicate Shows(levels: map<Line, Level>, pins: Pins, n: nat) {
    && RedLine in levels && levels[RedLine] == pins.red
    && GreenLine in levels && levels[GreenLine] == pins.green
    && BlueLine in levels && levels[BlueLine] == pins.blue
    && (forall k :: 0 <= k < n ==>
          Anode(k) in levels && (levels[Anode(k)] == High <==> k in pins.anodesHigh))
  }

  /**
   * Replays one `Update` write by write, starting from any line levels. The levels it
   * leaves are exactly those the summary `Update(d).pins` describes, at most one anode is
   * HIGH, lines the driver does not own are untouched, and the counters move as `Update` says.
   */
  method ReplayUpdate(d: Driver, before: map<Line, Level>) returns (after: map<Line, Level>, next: Driver)
    requires Scannable(d)
    ensures Shows(after, Update(d).pins, |d.values|)
    ensures forall j, k ::
      (0 <= j < |d.values| && 0 <= k < |d.values| && after[Anode(j)] == High && after[Anode(k)] == High) ==> j == k
    ensures forall l :: l in before && !Owned(l, |d.values|) ==> l in after && after[l] == before[l]
    ensures next == Update(d).next
  {
    var n := |d.values|;
    after := before;
    after := after[RedLine := High];
    after := after[GreenLine := High];
    after := after[BlueLine := High];
    var i := 0;
    while i < n
      invariant 0 <= i <= n
      invariant RedLine in after && after[RedLine] == High
      invariant GreenLine in after && after[GreenLine] == High
      invariant BlueLine in after && after[BlueLine] == High
      invariant forall k :: 0 <= k < i ==> Anode(k) in after && after[Anode(k)] == Low
      invariant forall l :: l in before && !Owned(l, n) ==> l in after && after[l] == before[l]
    {
      after := after[Anode(i) := Low];
      i := i + 1;
    }
    var on := false;
    if d.brightness > 0 {
      on := d.phase < d.brightness;
    }
    var e := d.values[d.cursor];
    if on {
      after := after[RedLine := if e.r then Low else High];
      after := after[GreenLine := if e.g then Low else High];
      after := after[BlueLine := if e.b then Low else High];
      after := after[Anode(d.cursor) := High];
    } else {
      after := after[RedLine := High];
      after := after[GreenLine := High];
      after := after[BlueLine := High];
      after := after[Anode(d.cursor) := Low];
    }
    var c := (d.cursor + 1) % n;
    var p := d.phase;
    if c == n - 1 {
      p := (p + 1) % 8;
    }
    next := d.(cursor := c, phase := p);
  }
}
