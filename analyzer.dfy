/**
 * The per-day, per-inverter energy accounting of `analyze_day` in inverter_analyzer.py,
 * without its plotting: the generated energy (a doubled trapezoid sum), the quality
 * gates, the inputs of the three parabola fits, and the crossing-aware integrals of the
 * power above the ceiling, raw and with clipped samples replaced by the final fit.
 *
 * Each least-squares fit is a parameter `fit` from the points it is given to the fitted
 * curve; the crossing arithmetic, done with floats in the program, is exact here.
 */
module Analyzer {
  import opened Common
  import opened Reconstructor

  const MaxStartPower: int := 20
  const MaxEndPower: int := 0
  const MinDataPoints: int := 50
  const FitMinWatts: int := 75
  const CloudThreshold: int := 5

  /** The plot modes, an `IntEnum` whose `auto()` values the gates compare. */
  datatype PlotMode = All | GoodData | NotCloudy | Exceedance | Shaved | Never

  function Ordinal(m: PlotMode): int {
    match m
    case All => 1
    case GoodData => 2
    case NotCloudy => 3
    case Exceedance => 4
    case Shaved => 5
    case Never => 6
  }

  /** A fitted parabola, evaluated at an offset. */
  type Curve = int -> real

  /** `(generated, exceedance, shaved)` in watt-seconds; None where not computed. */
  datatype Analysis = Analysis(generated: int, exceedance: Option<int>, shaved: Option<int>)

  /** A point of a series whose watts may be a fitted (non-integer) value. */
  datatype Point = Point(secs: int, watts: real)

  predicate OffsetsNondecreasing(data: seq<Sample>) {
    forall i, j :: 0 <= i < j < |data| ==> data[i].secs <= data[j].secs
  }

  predicate PointsNondecreasing(pts: seq<Point>) {
    forall i, j :: 0 <= i < j < |pts| ==> pts[i].secs <= pts[j].secs
  }

  predicate WattsNonNegative(data: seq<Sample>) {
    forall i :: 0 <= i < |data| ==> data[i].watts >= 0
  }

  // ---------------------------------------------------------------------------
  // Generated energy (lines 172-183)
  // ---------------------------------------------------------------------------

  /** Twice the trapezoid integral: the sum of `(t1 - t0) * (w0 + w1)` over adjacent samples. */
  function DoubleGenerated(data: seq<Sample>): int
  {
    if |data| < 2 then 0
    else
      var n := |data|;
      DoubleGenerated(data[..n - 1]) + (data[n - 1].secs - data[n - 2].secs) * (data[n - 2].watts + data[n - 1].watts)
  }

  /** With time running forward and no negative watts, the generated energy is not negative. */
  lemma {:induction false} GeneratedNonNegative(data: seq<Sample>)
    requires OffsetsNondecreasing(data) && WattsNonNegative(data)
    ensures DoubleGenerated(data) >= 0
  {
    if |data| >= 2 {
      var n := |data|;
      GeneratedNonNegative(data[..n - 1]);
      MulNonNegative(data[n - 1].secs - data[n - 2].secs, data[n - 2].watts + data[n - 1].watts);
    }
  }

  lemma MulNonNegative(a: int, b: int)
    requires a >= 0 && b >= 0
    ensures a * b >= 0
  {
  }

  /** The accumulation loop of lines 172-183 (the delta statistics beside it only feed warnings). */
  method AccumulateGenerated(data: seq<Sample>) returns (doublePowerGenerated: int)
    requires |data| > 0
    ensures doublePowerGenerated == DoubleGenerated(data)
  {
    doublePowerGenerated := 0;
    var previousReportSecs := data[0].secs;
    var previousWatts := data[0].watts;
    var i := 1;
    while i < |data|
      invariant 1 <= i <= |data|
      invariant previousReportSecs == data[i - 1].secs && previousWatts == data[i - 1].watts
      invariant doublePowerGenerated == DoubleGenerated(data[..i])
    {
      assert data[..i + 1][..i] == data[..i];
      var deltaSecs := data[i].secs - previousReportSecs;
      doublePowerGenerated := doublePowerGenerated + deltaSecs * (previousWatts + data[i].watts);
      previousReportSecs := data[i].secs;
      previousWatts := data[i].watts;
      i := i + 1;
    }
    assert data[..i] == data;
  }

  // ---------------------------------------------------------------------------
  // Samples at the ceiling (line 180)
  // ---------------------------------------------------------------------------

  /** `shave_count`: how many samples reach the ceiling. */
  function ShaveCount(data: seq<Sample>, ceiling: int): (count: int)
    ensures 0 <= count <= |data|
    ensures count > 0 <==> exists i :: 0 <= i < |data| && data[i].watts >= ceiling
  {
    if data == [] then 0
    else
      var rest := ShaveCount(data[1..], ceiling);
      assert forall i :: 1 <= i < |data| ==> data[i] == data[1..][i - 1];
      assert forall i :: 0 <= i < |data| - 1 ==> data[1..][i] == data[i + 1];
      (if data[0].watts >= ceiling then 1 else 0) + rest
  }

  // ---------------------------------------------------------------------------
  // Fit inputs (lines 220-233)
  // ---------------------------------------------------------------------------

  /** The fit window: above the low-power cutoff and below the ceiling. */
  predicate InFitWindow(s: Sample, ceiling: int) {
    FitMinWatts < s.watts < ceiling
  }

  /** A sample is flagged cloudy when it is above the cutoff but more than the threshold below the curve. */
  predicate IsCloudy(s: Sample, curve: Curve) {
    FitMinWatts < s.watts && (s.watts as real) < curve(s.secs) - CloudThreshold as real
  }

  /** The points of the first fit: every sample inside the fit window, in order. */
  function FitPoints(data: seq<Sample>, ceiling: int): (pts: seq<Sample>)
    ensures |pts| <= |data|
    ensures forall s :: s in pts <==> s in data && InFitWindow(s, ceiling)
  {
    if data == [] then []
    else
      var rest := FitPoints(data[1..], ceiling);
      assert forall s :: s in data <==> s == data[0] || s in data[1..];
      if InFitWindow(data[0], ceiling) then [data[0]] + rest else rest
  }

  /**
   * The cloud flags of a curve, computed for every sample of the day: a sample is cloudy
   * exactly when it is above the fit's minimum and more than the threshold below the curve.
   */
  function CloudFlags(data: seq<Sample>, curve: Curve): (flags: seq<bool>)
    ensures |flags| == |data|
    ensures forall i {:trigger flags[i]} :: 0 <= i < |data| ==>
      (flags[i] <==> FitMinWatts < data[i].watts && (data[i].watts as real) < curve(data[i].secs) - CloudThreshold as real)
  {
    seq(|data|, i requires 0 <= i < |data| => IsCloudy(data[i], curve))
  }

  /** The samples inside the fit window whose flag is not set, in order. */
  function ClearPoints(data: seq<Sample>, flags: seq<bool>, ceiling: int): (pts: seq<Sample>)
    requires |flags| == |data|
    ensures |pts| <= |data|
  {
    if data == [] then []
    else
      var rest := ClearPoints(data[1..], flags[1..], ceiling);
      if InFitWindow(data[0], ceiling) && !flags[0] then [data[0]] + rest else rest
  }

  /** ClearPoints keeps a sample exactly when it is inside the window and its flag is clear. */
  lemma {:induction false} ClearPointsMembers(data: seq<Sample>, flags: seq<bool>, ceiling: int)
    requires |flags| == |data|
    ensures forall s :: s in ClearPoints(data, flags, ceiling) ==> s in data && InFitWindow(s, ceiling)
    ensures forall i :: 0 <= i < |data| && InFitWindow(data[i], ceiling) && !flags[i] ==>
      data[i] in ClearPoints(data, flags, ceiling)
  {
    if data != [] {
      ClearPointsMembers(data[1..], flags[1..], ceiling);
      assert forall i :: 1 <= i < |data| ==> data[i] == data[1..][i - 1] && flags[i] == flags[1..][i - 1];
    }
  }

  /** Points of the second fit: the window minus the samples the first fit flags cloudy. */
  function SecondFitPoints(data: seq<Sample>, ceiling: int, fit: seq<Sample> -> Curve): seq<Sample> {
    ClearPoints(data, CloudFlags(data, fit(FitPoints(data, ceiling))), ceiling)
  }

  /** Points of the final fit: the window minus the samples the second fit flags cloudy. */
  function FinalFitPoints(data: seq<Sample>, ceiling: int, fit: seq<Sample> -> Curve): seq<Sample> {
    ClearPoints(data, CloudFlags(data, fit(SecondFitPoints(data, ceiling, fit))), ceiling)
  }

  /**
   * Zipping the flags of a curve with the day gives exactly the window samples that the
   * curve does not flag cloudy.
   */
  lemma {:induction false} ClearPointsOfCurve(data: seq<Sample>, curve: Curve, ceiling: int)
    ensures forall s :: s in ClearPoints(data, CloudFlags(data, curve), ceiling) <==>
      s in data && InFitWindow(s, ceiling) && !IsCloudy(s, curve)
  {
    var flags := CloudFlags(data, curve);
    var pts := ClearPoints(data, flags, ceiling);
    ClearPointsMembers(data, flags, ceiling);
    forall s | s in pts
      ensures !IsCloudy(s, curve)
    {
      ClearPointsFlagged(data, flags, ceiling, curve, s);
    }
    forall s | s in data && InFitWindow(s, ceiling) && !IsCloudy(s, curve)
      ensures s in pts
    {
      var i :| 0 <= i < |data| && data[i] == s;
      assert !flags[i];
    }
  }

  /** A point kept by ClearPoints had its flag clear, and the flag is the curve's cloud test. */
  lemma {:induction false} ClearPointsFlagged(data: seq<Sample>, flags: seq<bool>, ceiling: int, curve: Curve, s: Sample)
    requires |flags| == |data|
    requires forall i :: 0 <= i < |data| ==> flags[i] == IsCloudy(data[i], curve)
    requires s in ClearPoints(data, flags, ceiling)
    ensures !IsCloudy(s, curve)
  {
    if data != [] {
      var rest := ClearPoints(data[1..], flags[1..], ceiling);
      if !(InFitWindow(data[0], ceiling) && !flags[0] && s == data[0]) {
        assert s in rest;
        ClearPointsFlagged(data[1..], flags[1..], ceiling, curve, s);
      }
    }
  }

  /**
   * The three fits' inputs: every point of each lies strictly between the low-power
   * cutoff and the ceiling; the second and final fits drop exactly the window samples
   * the previous fit flags cloudy; the flags are computed over every sample of the day.
   */
  lemma FitSelection(data: seq<Sample>, ceiling: int, fit: seq<Sample> -> Curve)
    ensures forall s :: s in FitPoints(data, ceiling) ==> FitMinWatts < s.watts < ceiling
    ensures var curve1 := fit(FitPoints(data, ceiling));
      && |CloudFlags(data, curve1)| == |data|
      && forall s :: s in SecondFitPoints(data, ceiling, fit) <==>
           s in data && FitMinWatts < s.watts < ceiling && !IsCloudy(s, curve1)
    ensures var curve2 := fit(SecondFitPoints(data, ceiling, fit));
      && |CloudFlags(data, curve2)| == |data|
      && forall s :: s in FinalFitPoints(data, ceiling, fit) <==>
           s in data && FitMinWatts < s.watts < ceiling && !IsCloudy(s, curve2)
  {
    ClearPointsOfCurve(data, fit(FitPoints(data, ceiling)), ceiling);
    ClearPointsOfCurve(data, fit(SecondFitPoints(data, ceiling, fit)), ceiling);
  }

  // ---------------------------------------------------------------------------
  // Exceedance integrals (lines 241-269)
  // ---------------------------------------------------------------------------

  /** The raw series with its watts as numbers. */
  function RawPoints(data: seq<Sample>): (pts: seq<Point>)
    ensures |pts| == |data|
  {
    seq(|data|, i requires 0 <= i < |data| => Point(data[i].secs, data[i].watts as real))
  }

  /**
   * The estimated series: the first sample is always kept as measured; each later
   * sample at or above the ceiling is replaced by the curve's value at its offset.
   */
  function EstimatedPoints(data: seq<Sample>, ceiling: int, curve: Curve): (pts: seq<Point>)
    ensures |pts| == |data|
  {
    seq(|data|, i requires 0 <= i < |data| =>
      Point(data[i].secs, if i == 0 || data[i].watts < ceiling then data[i].watts as real else curve(data[i].secs)))
  }

  /** The time at which the straight line from `p` to `q` meets the ceiling. */
  function CrossingTime(p: Point, q: Point, ceiling: int): real
    requires p.watts != q.watts
  {
    p.secs as real + (ceiling as real - p.watts) * (q.secs - p.secs) as real / (q.watts - p.watts)
  }

  /**
   * Twice the area above the ceiling between two adjacent points: the trapezoid when
   * both are at or above it, the triangle beyond the interpolated crossing time when
   * the series rises or falls through it, nothing when both are below.
   */
  function Contribution(p: Point, q: Point, ceiling: int): real
  {
    var c := ceiling as real;
    if q.watts >= c || p.watts >= c then
      if p.watts < c then
        (q.secs as real - CrossingTime(p, q, ceiling)) * (q.watts - c)
      else if q.watts < c then
        (CrossingTime(p, q, ceiling) - p.secs as real) * (p.watts - c)
      else
        (q.secs - p.secs) as real * (p.watts - c + q.watts - c)
    else
      0.0
  }

  /** Twice the crossing-aware integral of the series above the ceiling. */
  function DoubleExceedance(pts: seq<Point>, ceiling: int): real
  {
    if |pts| < 2 then 0.0
    else
      var n := |pts|;
      DoubleExceedance(pts[..n - 1], ceiling) + Contribution(pts[n - 2], pts[n - 1], ceiling)
  }

  lemma MulNonNegativeReal(a: real, b: real)
    requires a >= 0.0 && b >= 0.0
    ensures a * b >= 0.0
  {
  }

  lemma MulMonotoneReal(a: real, b: real, x: real, y: real)
    requires 0.0 <= a <= x && 0.0 <= b <= y
    ensures a * b <= x * y
  {
    assert a * b <= x * b;
    assert x * b <= x * y;
  }

  /**
   * Where the series crosses the ceiling the crossing time falls inside the interval:
   * it lies at the fraction `(c - w0) / (w1 - w0)` of it, a fraction in [0, 1].
   */
  lemma CrossingInside(p: Point, q: Point, ceiling: int)
    requires p.secs <= q.secs
    requires (p.watts < ceiling as real <= q.watts) || (q.watts < ceiling as real <= p.watts)
    ensures p.secs as real <= CrossingTime(p, q, ceiling) <= q.secs as real
  {
    var deltaSecs := (q.secs - p.secs) as real;
    var a, b := ceiling as real - p.watts, q.watts - p.watts;
    var f := a / b;
    assert 0.0 <= f <= 1.0;
    assert a * deltaSecs / b == f * deltaSecs;
    assert CrossingTime(p, q, ceiling) == p.secs as real + f * deltaSecs;
    MulMonotoneReal(f, deltaSecs, 1.0, deltaSecs);
    MulNonNegativeReal(f, deltaSecs);
  }

  /** Rising through the ceiling: the triangle beyond the crossing is within the interval's bounds. */
  lemma RisingBounds(p: Point, q: Point, ceiling: int)
    requires p.secs <= q.secs && p.watts < ceiling as real <= q.watts
    ensures Contribution(p, q, ceiling) >= 0.0
    ensures ceiling >= 0 && p.watts >= 0.0 ==>
      Contribution(p, q, ceiling) <= (q.secs - p.secs) as real * (p.watts + q.watts)
  {
    var c := ceiling as real;
    CrossingInside(p, q, ceiling);
    var x := q.secs as real - CrossingTime(p, q, ceiling);
    assert Contribution(p, q, ceiling) == x * (q.watts - c);
    MulNonNegativeReal(x, q.watts - c);
    if ceiling >= 0 && p.watts >= 0.0 {
      MulMonotoneReal(x, q.watts - c, (q.secs - p.secs) as real, p.watts + q.watts);
    }
  }

  /** Falling through the ceiling: the triangle before the crossing is within the interval's bounds. */
  lemma FallingBounds(p: Point, q: Point, ceiling: int)
    requires p.secs <= q.secs && q.watts < ceiling as real <= p.watts
    ensures Contribution(p, q, ceiling) >= 0.0
    ensures ceiling >= 0 && q.watts >= 0.0 ==>
      Contribution(p, q, ceiling) <= (q.secs - p.secs) as real * (p.watts + q.watts)
  {
    var c := ceiling as real;
    CrossingInside(p, q, ceiling);
    var x := CrossingTime(p, q, ceiling) - p.secs as real;
    assert Contribution(p, q, ceiling) == x * (p.watts - c);
    MulNonNegativeReal(x, p.watts - c);
    if ceiling >= 0 && q.watts >= 0.0 {
      MulMonotoneReal(x, p.watts - c, (q.secs - p.secs) as real, p.watts + q.watts);
    }
  }

  /** Each interval adds a non-negative amount and never more than its full-height trapezoid. */
  lemma ContributionBounds(p: Point, q: Point, ceiling: int)
    requires p.secs <= q.secs
    ensures Contribution(p, q, ceiling) >= 0.0
    ensures ceiling >= 0 && p.watts >= 0.0 && q.watts >= 0.0 ==>
      Contribution(p, q, ceiling) <= (q.secs - p.secs) as real * (p.watts + q.watts)
  {
    var c := ceiling as real;
    var deltaSecs := (q.secs - p.secs) as real;
    if p.watts < c <= q.watts {
      RisingBounds(p, q, ceiling);
    } else if q.watts < c <= p.watts {
      FallingBounds(p, q, ceiling);
    } else if c <= p.watts && c <= q.watts {
      assert Contribution(p, q, ceiling) == deltaSecs * (p.watts - c + q.watts - c);
      MulNonNegativeReal(deltaSecs, p.watts - c + q.watts - c);
      if ceiling >= 0 {
        MulMonotoneReal(deltaSecs, p.watts - c + q.watts - c, deltaSecs, p.watts + q.watts);
      }
    } else if p.watts >= 0.0 && q.watts >= 0.0 {
      MulNonNegativeReal(deltaSecs, p.watts + q.watts);
    }
  }

  /** With time running forward, the doubled exceedance of any series is not negative. */
  lemma {:induction false} ExceedanceNonNegative(pts: seq<Point>, ceiling: int)
    requires PointsNondecreasing(pts)
    ensures DoubleExceedance(pts, ceiling) >= 0.0
  {
    if |pts| >= 2 {
      var n := |pts|;
      ExceedanceNonNegative(pts[..n - 1], ceiling);
      ContributionBounds(pts[n - 2], pts[n - 1], ceiling);
    }
  }

  /** The energy above a non-negative ceiling never exceeds the energy generated. */
  lemma {:induction false} ExceedanceAtMostGenerated(data: seq<Sample>, ceiling: int)
    requires OffsetsNondecreasing(data) && WattsNonNegative(data) && ceiling >= 0
    ensures DoubleExceedance(RawPoints(data), ceiling) <= DoubleGenerated(data) as real
  {
    if |data| >= 2 {
      var n := |data|;
      var pts := RawPoints(data);
      assert pts[..n - 1] == RawPoints(data[..n - 1]);
      ExceedanceAtMostGenerated(data[..n - 1], ceiling);
      var s0, s1 := data[n - 2], data[n - 1];
      assert pts[n - 2] == Point(s0.secs, s0.watts as real) && pts[n - 1] == Point(s1.secs, s1.watts as real);
      IntervalAtMostGenerated(s0, s1, ceiling);
    }
  }

  /** One interval: the part above a non-negative ceiling is within the interval's trapezoid. */
  lemma IntervalAtMostGenerated(s0: Sample, s1: Sample, ceiling: int)
    requires s0.secs <= s1.secs && s0.watts >= 0 && s1.watts >= 0 && ceiling >= 0
    ensures Contribution(Point(s0.secs, s0.watts as real), Point(s1.secs, s1.watts as real), ceiling)
      <= ((s1.secs - s0.secs) * (s0.watts + s1.watts)) as real
  {
    var dt, ws := s1.secs - s0.secs, s0.watts + s1.watts;
    ContributionBounds(Point(s0.secs, s0.watts as real), Point(s1.secs, s1.watts as real), ceiling);
    ProductAsReal(ws, dt);
    assert (dt * ws) as real == dt as real * ws as real;
  }

  /** A series that stays below the ceiling has no exceedance. */
  lemma {:induction false} BelowCeilingNoExceedance(pts: seq<Point>, ceiling: int)
    requires forall i :: 0 <= i < |pts| ==> pts[i].watts < ceiling as real
    ensures DoubleExceedance(pts, ceiling) == 0.0
  {
    if |pts| >= 2 {
      BelowCeilingNoExceedance(pts[..|pts| - 1], ceiling);
    }
  }

  /**
   * The estimate changes only clipped samples: the first sample and every sample below
   * the ceiling keep their measured watts; so a day that never reaches the ceiling has
   * an estimate equal to its raw series.
   */
  lemma EstimateKeepsUnclipped(data: seq<Sample>, ceiling: int, curve: Curve)
    ensures forall i :: 0 <= i < |data| && (i == 0 || data[i].watts < ceiling) ==>
      EstimatedPoints(data, ceiling, curve)[i] == RawPoints(data)[i]
    ensures (forall i :: 0 <= i < |data| ==> data[i].watts < ceiling) ==>
      EstimatedPoints(data, ceiling, curve) == RawPoints(data)
  {
  }

  /**
   * The estimate replaces every clipped sample after the first: a later sample at or
   * above the ceiling takes the curve's value at its own offset; offsets never change.
   */
  lemma EstimateReplacesClipped(data: seq<Sample>, ceiling: int, curve: Curve)
    ensures forall i :: 0 < i < |data| && data[i].watts >= ceiling ==>
      EstimatedPoints(data, ceiling, curve)[i] == Point(data[i].secs, curve(data[i].secs))
    ensures forall i :: 0 <= i < |data| ==> EstimatedPoints(data, ceiling, curve)[i].secs == data[i].secs
  {
  }

  /** The crossing example: ceiling 100, samples (0 s, 90 W) and (10 s, 110 W) cross at 5 s; 25 W s above. */
  lemma CrossingExample()
    ensures Contribution(Point(0, 90.0), Point(10, 110.0), 100) == 50.0
    ensures DoubleExceedance([Point(0, 90.0), Point(10, 110.0)], 100) == 50.0
    ensures RoundHalfEven(50.0 / 2.0) == 25
  {
    assert (100.0 - 90.0) * 10.0 / (110.0 - 90.0) == 5.0;
  }

  /**
   * One interval of the integration loop of lines 241-269, the block the program writes
   * out once for the raw series and once for the estimate.
   */
  method IntervalExceedance(previousReportSecs: int, previousWatts: real, reportSecs: int, watts: real, maxContinuous: int)
    returns (doubleOver: real)
    ensures doubleOver == Contribution(Point(previousReportSecs, previousWatts), Point(reportSecs, watts), maxContinuous)
  {
    var c := maxContinuous as real;
    var deltaSecs := reportSecs - previousReportSecs;
    doubleOver := 0.0;
    if watts >= c || previousWatts >= c {
      if previousWatts < c {
        var tCross := previousReportSecs as real + (c - previousWatts) * deltaSecs as real / (watts - previousWatts);
        doubleOver := (reportSecs as real - tCross) * (watts - c);
      } else if watts < c {
        var tCross := previousReportSecs as real + (c - previousWatts) * deltaSecs as real / (watts - previousWatts);
        doubleOver := (tCross - previousReportSecs as real) * (previousWatts - c);
      } else {
        doubleOver := deltaSecs as real * (previousWatts - c + watts - c);
      }
    }
  }

  /** The integration loop of lines 241-269: raw and estimated accumulators side by side. */
  method AccumulateExceedance(data: seq<Sample>, maxContinuous: int, fitParabola: Curve)
    returns (doubleOverMaxPower: real, doubleOverMaxPowerEst: real)
    requires |data| > 0
    ensures doubleOverMaxPower == DoubleExceedance(RawPoints(data), maxContinuous)
    ensures doubleOverMaxPowerEst == DoubleExceedance(EstimatedPoints(data, maxContinuous, fitParabola), maxContinuous)
  {
    ghost var raw := RawPoints(data);
    ghost var est := EstimatedPoints(data, maxContinuous, fitParabola);
    var previousReportSecs := data[0].secs;
    var previousWatts := data[0].watts;
    var previousWattsEst := data[0].watts as real;
    doubleOverMaxPower, doubleOverMaxPowerEst := 0.0, 0.0;
    var i := 1;
    while i < |data|
      invariant 1 <= i <= |data|
      invariant previousReportSecs == data[i - 1].secs && previousWatts == data[i - 1].watts
      invariant previousWattsEst == est[i - 1].watts
      invariant doubleOverMaxPower == DoubleExceedance(raw[..i], maxContinuous)
      invariant doubleOverMaxPowerEst == DoubleExceedance(est[..i], maxContinuous)
    {
      assert raw[..i + 1][..i] == raw[..i] && est[..i + 1][..i] == est[..i];
      var reportSecs, watts := data[i].secs, data[i].watts;
      var wattsEst := if watts < maxContinuous then watts as real else fitParabola(reportSecs);
      assert raw[i - 1] == Point(previousReportSecs, previousWatts as real) && raw[i] == Point(reportSecs, watts as real);
      assert est[i - 1] == Point(previousReportSecs, previousWattsEst) && est[i] == Point(reportSecs, wattsEst);
      var over := IntervalExceedance(previousReportSecs, previousWatts as real, reportSecs, watts as real, maxContinuous);
      var overEst := IntervalExceedance(previousReportSecs, previousWattsEst, reportSecs, wattsEst, maxContinuous);
      doubleOverMaxPower := doubleOverMaxPower + over;
      doubleOverMaxPowerEst := doubleOverMaxPowerEst + overEst;
      previousReportSecs, previousWatts, previousWattsEst := reportSecs, watts, wattsEst;
      i := i + 1;
    }
    assert raw[..i] == raw && est[..i] == est;
  }

  // ---------------------------------------------------------------------------
  // The whole day (lines 158-305)
  // ---------------------------------------------------------------------------

  /** The gates of lines 199-212: bad start, too few samples, bad end, or nothing clipped. */
  predicate StopsAtQualityGate(data: seq<Sample>, ceiling: int, mode: PlotMode)
    requires |data| > 0
  {
    || (Ordinal(mode) >= Ordinal(GoodData) &&
          (data[0].watts > MaxStartPower || |data| < MinDataPoints || data[|data| - 1].watts > MaxEndPower))
    || (ShaveCount(data, ceiling) == 0 && Ordinal(mode) >= Ordinal(Exceedance))
  }

  /** The gate of lines 234-237: too few clear samples left for the final fit. */
  predicate StopsAsTooCloudy(data: seq<Sample>, ceiling: int, mode: PlotMode, fit: seq<Sample> -> Curve) {
    |FinalFitPoints(data, ceiling, fit)| < MinDataPoints && Ordinal(mode) >= Ordinal(NotCloudy)
  }

  /** The day gets past every gate and reaches the final integration. */
  predicate ReachesIntegration(data: seq<Sample>, ceiling: int, mode: PlotMode, fit: seq<Sample> -> Curve)
    requires |data| > 0
  {
    !StopsAtQualityGate(data, ceiling, mode) && !StopsAsTooCloudy(data, ceiling, mode, fit)
  }

  /** What `analyze_day` returns for one inverter's day. */
  function AnalyzeDaySpec(data: seq<Sample>, ceiling: int, mode: PlotMode, fit: seq<Sample> -> Curve): Analysis
    requires |data| > 0
  {
    var generated := DoubleGenerated(data) / 2;
    if !ReachesIntegration(data, ceiling, mode, fit) then
      Analysis(generated, None, None)
    else
      var curve := fit(FinalFitPoints(data, ceiling, fit));
      var over := DoubleExceedance(RawPoints(data), ceiling);
      var overEst := DoubleExceedance(EstimatedPoints(data, ceiling, curve), ceiling);
      Analysis(generated,
        if ShaveCount(data, ceiling) > 0 then Some(RoundHalfEven(over / 2.0)) else None,
        if overEst > over then Some(RoundHalfEven((overEst - over) / 2.0)) else None)
  }

  /** The two cloud-filtering rounds of lines 214-233, each refitting on the samples left. */
  method CloudFilter(data: seq<Sample>, maxContinuous: int, fit: seq<Sample> -> Curve)
    returns (unshavedUncloudy2: seq<Sample>)
    ensures unshavedUncloudy2 == FinalFitPoints(data, maxContinuous, fit)
  {
    var unshaved := FitPoints(data, maxContinuous);
    var cloudParabola := fit(unshaved);
    var cloudFlags := CloudFlags(data, cloudParabola);
    var unshavedUncloudy := ClearPoints(data, cloudFlags, maxContinuous);
    var cloudParabola2 := fit(unshavedUncloudy);
    var cloudFlags2 := CloudFlags(data, cloudParabola2);
    unshavedUncloudy2 := ClearPoints(data, cloudFlags2, maxContinuous);
  }

  /** `analyze_day` without its plotting and warnings. */
  method AnalyzeDay(data: seq<Sample>, maxContinuous: int, plotMode: PlotMode, fit: seq<Sample> -> Curve)
    returns (result: Analysis)
    requires |data| > 0
    ensures result == AnalyzeDaySpec(data, maxContinuous, plotMode, fit)
  {
    var doublePowerGenerated := AccumulateGenerated(data);
    var shaveCount := ShaveCount(data, maxContinuous);
    if data[0].watts > MaxStartPower && Ordinal(plotMode) >= Ordinal(GoodData) {
      assert StopsAtQualityGate(data, maxContinuous, plotMode);
      StoppedDay(data, maxContinuous, plotMode, fit);
      return Analysis(doublePowerGenerated / 2, None, None);
    }
    if |data| < MinDataPoints && Ordinal(plotMode) >= Ordinal(GoodData) {
      assert StopsAtQualityGate(data, maxContinuous, plotMode);
      StoppedDay(data, maxContinuous, plotMode, fit);
      return Analysis(doublePowerGenerated / 2, None, None);
    }
    if data[|data| - 1].watts > MaxEndPower && Ordinal(plotMode) >= Ordinal(GoodData) {
      assert StopsAtQualityGate(data, maxContinuous, plotMode);
      StoppedDay(data, maxContinuous, plotMode, fit);
      return Analysis(doublePowerGenerated / 2, None, None);
    }
    if shaveCount == 0 && Ordinal(plotMode) >= Ordinal(Exceedance) {
      assert StopsAtQualityGate(data, maxContinuous, plotMode);
      StoppedDay(data, maxContinuous, plotMode, fit);
      return Analysis(doublePowerGenerated / 2, None, None);
    }
    assert !StopsAtQualityGate(data, maxContinuous, plotMode);
    var unshavedUncloudy2 := CloudFilter(data, maxContinuous, fit);
    if |unshavedUncloudy2| < MinDataPoints && Ordinal(plotMode) >= Ordinal(NotCloudy) {
      assert StopsAsTooCloudy(data, maxContinuous, plotMode, fit);
      StoppedDay(data, maxContinuous, plotMode, fit);
      return Analysis(doublePowerGenerated / 2, None, None);
    }
    assert ReachesIntegration(data, maxContinuous, plotMode, fit);
    var fitParabola := fit(unshavedUncloudy2);
    var doubleOverMaxPower, doubleOverMaxPowerEst := AccumulateExceedance(data, maxContinuous, fitParabola);
    IntegratedDay(data, maxContinuous, plotMode, fit, fitParabola, doubleOverMaxPower, doubleOverMaxPowerEst);
    result := Analysis(doublePowerGenerated / 2,
      if shaveCount > 0 then Some(RoundHalfEven(doubleOverMaxPower / 2.0)) else None,
      if doubleOverMaxPowerEst > doubleOverMaxPower then Some(RoundHalfEven((doubleOverMaxPowerEst - doubleOverMaxPower) / 2.0)) else None);
  }

  /** A day stopped at a gate reports only its generated energy. */
  lemma StoppedDay(data: seq<Sample>, ceiling: int, mode: PlotMode, fit: seq<Sample> -> Curve)
    requires |data| > 0 && !ReachesIntegration(data, ceiling, mode, fit)
    ensures AnalyzeDaySpec(data, ceiling, mode, fit) == Analysis(DoubleGenerated(data) / 2, None, None)
  {
  }

  /** A day past every gate reports the rounded halves of its two integrals. */
  lemma IntegratedDay(data: seq<Sample>, ceiling: int, mode: PlotMode, fit: seq<Sample> -> Curve, curve: Curve, over: real, overEst: real)
    requires |data| > 0 && ReachesIntegration(data, ceiling, mode, fit)
    requires over == DoubleExceedance(RawPoints(data), ceiling)
    requires curve == fit(FinalFitPoints(data, ceiling, fit))
    requires overEst == DoubleExceedance(EstimatedPoints(data, ceiling, curve), ceiling)
    ensures AnalyzeDaySpec(data, ceiling, mode, fit) == Analysis(DoubleGenerated(data) / 2,
        if ShaveCount(data, ceiling) > 0 then Some(RoundHalfEven(over / 2.0)) else None,
        if overEst > over then Some(RoundHalfEven((overEst - over) / 2.0)) else None)
  {
  }

  // ---------------------------------------------------------------------------
  // What a day's result means
  // ---------------------------------------------------------------------------

  /**
   * The generated energy is the doubled trapezoid sum halved with floor division, on
   * every path; and a mode at or above GOOD_DATA stops a day with a bad start, too few
   * samples or a bad end, a mode at or above EXCEEDANCE a day that never reaches the
   * ceiling, and a mode at or above NOT_CLOUDY a day with too few clear samples, each
   * with only the generated energy.
   */
  lemma QualityGate(data: seq<Sample>, ceiling: int, mode: PlotMode, fit: seq<Sample> -> Curve)
    requires |data| > 0
    ensures var r := AnalyzeDaySpec(data, ceiling, mode, fit);
      && 2 * r.generated <= DoubleGenerated(data) <= 2 * r.generated + 1
      && ((Ordinal(mode) >= Ordinal(GoodData) &&
            (data[0].watts > MaxStartPower || |data| < MinDataPoints || data[|data| - 1].watts > MaxEndPower)) ==>
          r.exceedance == None && r.shaved == None)
      && ((forall i :: 0 <= i < |data| ==> data[i].watts < ceiling) && Ordinal(mode) >= Ordinal(Exceedance) ==>
          r.exceedance == None && r.shaved == None)
      && (|FinalFitPoints(data, ceiling, fit)| < MinDataPoints && Ordinal(mode) >= Ordinal(NotCloudy) ==>
          r.exceedance == None && r.shaved == None)
  {
  }

  /**
   * When the exceedance and the shaved energy are present: the exceedance exactly when
   * the day got past the gates and some sample reached the ceiling; the shaved energy
   * exactly when it got past the gates and the estimate's integral is larger than the
   * raw one.
   */
  lemma ResultPresence(data: seq<Sample>, ceiling: int, mode: PlotMode, fit: seq<Sample> -> Curve)
    requires |data| > 0
    ensures var r := AnalyzeDaySpec(data, ceiling, mode, fit);
      && (r.exceedance.Some? <==>
            ReachesIntegration(data, ceiling, mode, fit) && exists i :: 0 <= i < |data| && data[i].watts >= ceiling)
      && (r.shaved.Some? <==>
            ReachesIntegration(data, ceiling, mode, fit) &&
            var curve := fit(FinalFitPoints(data, ceiling, fit));
            DoubleExceedance(EstimatedPoints(data, ceiling, curve), ceiling) > DoubleExceedance(RawPoints(data), ceiling))
  {
  }

  /** A day that never reaches the ceiling has neither exceedance nor shaved energy, in every mode. */
  lemma NoClippingNoShaving(data: seq<Sample>, ceiling: int, mode: PlotMode, fit: seq<Sample> -> Curve)
    requires |data| > 0
    requires forall i :: 0 <= i < |data| ==> data[i].watts < ceiling
    ensures AnalyzeDaySpec(data, ceiling, mode, fit).exceedance == None
    ensures AnalyzeDaySpec(data, ceiling, mode, fit).shaved == None
  {
    if ReachesIntegration(data, ceiling, mode, fit) {
      var curve := fit(FinalFitPoints(data, ceiling, fit));
      EstimateKeepsUnclipped(data, ceiling, curve);
      assert ShaveCount(data, ceiling) == 0;
    }
  }

  /**
   * With time running forward and no negative watts the reported generated energy is
   * non-negative, whatever the ceiling and the plot mode.
   */
  lemma GeneratedReportNonNegative(data: seq<Sample>, ceiling: int, mode: PlotMode, fit: seq<Sample> -> Curve)
    requires |data| > 0 && OffsetsNondecreasing(data) && WattsNonNegative(data)
    ensures AnalyzeDaySpec(data, ceiling, mode, fit).generated >= 0
  {
    GeneratedNonNegative(data);
  }

  /**
   * With time running forward and no negative watts every reported energy is
   * non-negative, and the exceedance never exceeds the generated energy by more than the
   * halving's rounding.
   */
  lemma ResultNonNegative(data: seq<Sample>, ceiling: int, mode: PlotMode, fit: seq<Sample> -> Curve)
    requires |data| > 0 && OffsetsNondecreasing(data) && WattsNonNegative(data) && ceiling >= 0
    ensures var r := AnalyzeDaySpec(data, ceiling, mode, fit);
      && r.generated >= 0
      && (r.exceedance.Some? ==> 0 <= r.exceedance.value <= r.generated + 1)
      && (r.shaved.Some? ==> r.shaved.value >= 0)
  {
    GeneratedNonNegative(data);
    if ReachesIntegration(data, ceiling, mode, fit) {
      var over := DoubleExceedance(RawPoints(data), ceiling);
      ExceedanceNonNegative(RawPoints(data), ceiling);
      ExceedanceAtMostGenerated(data, ceiling);
      assert 0.0 <= over / 2.0 <= (DoubleGenerated(data) / 2) as real + 0.5;
    }
  }
}
