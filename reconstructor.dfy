/**
 * Rebuilding dense per-day, per-inverter series from the change-only store
 * (`get_results_from_database` and `secs_to_time` in inverter_analyzer.py).
 *
 * The store keeps a row only when an inverter's watts change, so a run of equal
 * readings leaves a hole; the reader fills each hole that is more than one and a
 * half nominal update periods wide with held copies of the previous watts.
 */
module Reconstructor {
  import opened Common

  /** The nominal time between two updates of one inverter (INVERTER_DATA_DELTA_SECS). */
  const DataDeltaSecs: int := 331
  const SecsPerDay: int := 86400
  /** `datetime.date(MINYEAR, 1, 1)` as a day number: the "no day yet" marker. */
  const MinDay: int := 1

  datatype TimeOfDay = TimeOfDay(hour: int, minute: int, second: int)

  /** What a Python `datetime.time` can hold (to the second). */
  predicate ValidTime(t: TimeOfDay) {
    0 <= t.hour < 24 && 0 <= t.minute < 60 && 0 <= t.second < 60
  }

  /** One row of the cursor: the report's day and time of day, the serial and the watts. */
  datatype Reading = Reading(day: int, time: TimeOfDay, serial: int, watts: int)

  /** One point of a series: seconds past midnight and watts. */
  datatype Sample = Sample(secs: int, watts: int)

  /**
   * One yielded day: its date, the serials in the order they first appeared that day
   * (the iteration order of the Python dict) and each serial's series.
   */
  datatype DayData = DayData(day: int, serials: seq<int>, series: map<int, seq<Sample>>)

  /** The generator's state: the day being filled and the days already yielded. */
  datatype Grouping = Grouping(current: DayData, emitted: seq<DayData>)

  predicate ValidRows(rows: seq<Reading>) {
    forall i :: 0 <= i < |rows| ==> ValidTime(rows[i].time)
  }

  predicate NoDuplicates(xs: seq<int>) {
    forall i, j :: 0 <= i < j < |xs| ==> xs[i] != xs[j]
  }

  predicate InDay(s: Sample) {
    0 <= s.secs < SecsPerDay
  }

  /** A series as the reader builds it: never empty, every offset inside the day. */
  predicate ValidSeries(xs: seq<Sample>) {
    |xs| > 0 && forall k :: 0 <= k < |xs| ==> InDay(xs[k])
  }

  /** The shape every day keeps: each serial's series is valid. */
  predicate WellFormedDay(d: DayData) {
    forall s :: s in d.series ==> ValidSeries(d.series[s])
  }

  /** The serial list is the dict's iteration order: every key exactly once. */
  predicate SerialsMatch(d: DayData) {
    && NoDuplicates(d.serials)
    && (forall i :: 0 <= i < |d.serials| ==> d.serials[i] in d.series)
    && (forall s :: s in d.series ==> s in d.serials)
  }

  /** A series whose offsets strictly increase. */
  predicate StrictlyIncreasing(xs: seq<Sample>) {
    forall i, j :: 0 <= i < j < |xs| ==> xs[i].secs < xs[j].secs
  }

  /** The report's offset: `hour * 3600 + minute * 60 + second`. */
  function SecsPastMidnight(t: TimeOfDay): (secs: int)
    requires ValidTime(t)
    ensures 0 <= secs < SecsPerDay
  {
    t.hour * 3600 + t.minute * 60 + t.second
  }

  /**
   * `secs_to_time`: two floor divmods, then `datetime.time`, which refuses an hour
   * outside 0..23 (a ValueError, modelled as None).
   */
  function SecsToTime(secs: int): (t: Option<TimeOfDay>)
    ensures t.Some? <==> 0 <= secs < SecsPerDay
    ensures t.Some? ==> ValidTime(t.value) && SecsPastMidnight(t.value) == secs
  {
    var hours, hrem := secs / 3600, secs % 3600;
    var minutes, seconds := hrem / 60, hrem % 60;
    if 0 <= hours < 24 then Some(TimeOfDay(hours, minutes, seconds)) else None
  }

  /** Converting a valid time of day to seconds and back gives the same time. */
  lemma TimeRoundTrip(t: TimeOfDay)
    requires ValidTime(t)
    ensures SecsToTime(SecsPastMidnight(t)) == Some(t)
  {
    var secs := SecsPastMidnight(t);
    var ms := t.minute * 60 + t.second;
    assert 0 <= ms < 3600;
    assert secs == t.hour * 3600 + ms;
    assert secs / 3600 == t.hour && secs % 3600 == ms;
    assert ms / 60 == t.minute && ms % 60 == t.second;
  }

  /** The hole test: the two offsets are more than 1.5 nominal periods apart. */
  predicate IsGap(prevSecs: int, secs: int) {
    (secs - prevSecs) * 2 > DataDeltaSecs * 3
  }

  /** The number of periods in a hole: `round(delta / 331)`; at least 2 for a real hole. */
  function GapCount(delta: int): (n: int)
    requires delta * 2 > DataDeltaSecs * 3
    ensures n >= 2
  {
    RoundHalfEven(delta as real / DataDeltaSecs as real)
  }

  /** The spacing of the held copies: `round(delta / n)`. */
  function GapSpacing(delta: int): int
    requires delta * 2 > DataDeltaSecs * 3
  {
    RoundHalfEven(delta as real / GapCount(delta) as real)
  }

  /**
   * The held copies inserted between the previous sample and a reading at `secs`:
   * `n - 1` samples at `prev.secs + spacing * i` for `i = 1 .. n - 1`, all with the
   * previous watts; none when the hole is not wide enough.
   */
  function GapFill(prev: Sample, secs: int): (fill: seq<Sample>)
    ensures !IsGap(prev.secs, secs) ==> fill == []
    ensures IsGap(prev.secs, secs) ==> |fill| == GapCount(secs - prev.secs) - 1
    ensures forall i :: 0 <= i < |fill| ==> fill[i].watts == prev.watts
    ensures IsGap(prev.secs, secs) ==>
      forall i :: 0 <= i < |fill| ==> fill[i].secs == prev.secs + GapSpacing(secs - prev.secs) * (i + 1)
  {
    if IsGap(prev.secs, secs) then
      var delta := secs - prev.secs;
      var n := GapCount(delta);
      var spacing := GapSpacing(delta);
      seq(n - 1, i => Sample(prev.secs + spacing * (i + 1), prev.watts))
    else
      []
  }

  /**
   * The held copies are evenly spaced: the first sits one spacing after the previous
   * sample, each next one a further spacing on, and the reading follows the last copy
   * after whatever of the hole the `n - 1` spacings leave over.
   */
  lemma GapFillSpacing(prev: Sample, secs: int)
    requires IsGap(prev.secs, secs)
    ensures var fill := GapFill(prev, secs); var delta := secs - prev.secs; var g := GapSpacing(delta);
      && fill[0].secs - prev.secs == g
      && (forall i :: 0 <= i < |fill| - 1 ==> fill[i + 1].secs - fill[i].secs == g)
      && secs - fill[|fill| - 1].secs == delta - g * (GapCount(delta) - 1)
  {
    var fill := GapFill(prev, secs);
    var delta := secs - prev.secs;
    var g := GapSpacing(delta);
    forall i | 0 <= i < |fill| - 1
      ensures fill[i + 1].secs - fill[i].secs == g
    {
      assert g * (i + 2) == g * (i + 1) + g;
    }
  }

  /** `round(a / b)` in integer terms: twice the result times `b` is within `b` of `2 * a`. */
  lemma RoundDivBounds(a: int, b: int)
    requires b > 0
    ensures var r := RoundHalfEven(a as real / b as real);
      2 * a - b <= 2 * (b * r) <= 2 * a + b
  {
    var br := b as real;
    var r := RoundHalfEven(a as real / br);
    var rr := r as real;
    ScaleQuotient(rr, a as real, br);
    ProductAsReal(b, r);
    var pr := b * r;
    assert pr as real == rr * br;
    assert 2 * pr <= 2 * a + b && 2 * pr >= 2 * a - b;
  }

  /** Scaling `|y - a / c| <= 1/2` by a positive `c`. */
  lemma ScaleQuotient(y: real, a: real, c: real)
    requires c > 0.0 && a / c - 0.5 <= y <= a / c + 0.5
    ensures a - 0.5 * c <= y * c <= a + 0.5 * c
  {
    var x := a / c;
    assert x * c == a;
    var lo, hi := y - x + 0.5, x + 0.5 - y;
    assert lo * c >= 0.0 && hi * c >= 0.0;
    assert lo * c == y * c - x * c + 0.5 * c;
    assert hi * c == x * c + 0.5 * c - y * c;
  }

  lemma ProductAsReal(a: int, b: int)
    ensures (a * b) as real == b as real * a as real
  {
  }

  /**
   * The arithmetic of a hole inside one day: between 2 and 261 periods, a spacing of at
   * least 248 s, and the last held copy strictly before the new reading.
   */
  lemma GapBounds(d: int)
    requires d * 2 > DataDeltaSecs * 3 && d < SecsPerDay
    ensures 2 <= GapCount(d) <= 261
    ensures GapSpacing(d) >= 248
    ensures GapSpacing(d) * (GapCount(d) - 1) < d
  {
    GapCountBounds(d);
    GapSpacingBounds(d);
    HoleArithmetic(d, GapCount(d), GapSpacing(d), GapCount(d) * GapSpacing(d));
  }

  lemma GapCountBounds(d: int)
    requires d * 2 > DataDeltaSecs * 3
    ensures 2 * d - 331 <= 662 * GapCount(d) <= 2 * d + 331
  {
    RoundDivBounds(d, DataDeltaSecs);
  }

  lemma GapSpacingBounds(d: int)
    requires d * 2 > DataDeltaSecs * 3
    ensures 2 * d - GapCount(d) <= 2 * (GapCount(d) * GapSpacing(d)) <= 2 * d + GapCount(d)
  {
    RoundDivBounds(d, GapCount(d));
  }

  /** The integer core of GapBounds, stated on plain numbers. */
  lemma HoleArithmetic(d: int, n: int, g: int, ng: int)
    requires 497 <= d < 86400 && n >= 2 && ng == n * g
    requires 2 * d - 331 <= 662 * n <= 2 * d + 331
    requires 2 * d - n <= 2 * ng <= 2 * d + n
    ensures n <= 261 && g >= 248 && g * (n - 1) < d
  {
    assert g >= 248 by {
      if g <= 247 {
        assert false;
      }
    }
    assert g * (n - 1) == ng - g;
  }

  /**
   * Within one day the held copies land strictly between the two real samples, in
   * strictly increasing order: the spacing is at least 248 s and the hole holds at
   * most 261 periods, so rounding never pushes the last copy onto the new reading.
   */
  lemma GapFillBetween(prev: Sample, secs: int)
    requires 0 <= prev.secs < secs < SecsPerDay
    ensures var fill := GapFill(prev, secs);
      && StrictlyIncreasing(fill)
      && (forall i :: 0 <= i < |fill| ==> prev.secs < fill[i].secs < secs)
  {
    var fill := GapFill(prev, secs);
    if IsGap(prev.secs, secs) {
      var d := secs - prev.secs;
      GapBounds(d);
      var n := GapCount(d);
      var g := GapSpacing(d);
      assert fill == seq(n - 1, i => Sample(prev.secs + g * (i + 1), prev.watts));
      EvenlySpacedBetween(fill, prev.secs, secs, g, n);
    }
  }

  /** Points `p + g * i` for `i = 1 .. n - 1` with `g * (n - 1) < t - p` lie strictly between `p` and `t`. */
  lemma EvenlySpacedBetween(fill: seq<Sample>, p: int, t: int, g: int, n: int)
    requires g > 0 && |fill| == n - 1 && g * (n - 1) < t - p
    requires forall i :: 0 <= i < |fill| ==> fill[i].secs == p + g * (i + 1)
    ensures StrictlyIncreasing(fill)
    ensures forall i :: 0 <= i < |fill| ==> p < fill[i].secs < t
  {
    forall i | 0 <= i < |fill|
      ensures p < fill[i].secs < t
    {
      MulStrictlyIncreasing(g, 0, i + 1);
      MulMonotoneInt(g, i + 1, n - 1);
    }
    forall i, j | 0 <= i < j < |fill|
      ensures fill[i].secs < fill[j].secs
    {
      MulStrictlyIncreasing(g, i + 1, j + 1);
    }
  }

  lemma MulStrictlyIncreasing(g: int, a: int, b: int)
    requires g > 0 && a < b
    ensures g * a < g * b
  {
  }

  lemma MulMonotoneInt(g: int, a: int, b: int)
    requires g > 0 && a <= b
    ensures g * a <= g * b
  {
  }

  /**
   * The spacing of a filled hole is rounded once and the copies sit at whole multiples
   * of it, so the last interval, from the final copy to the new reading, carries all of
   * the rounding error. A 3314 s hole gets 9 copies 331 s apart and a final interval of 335 s, while
   * 3314 / 10 = 331.4.
   */
  lemma LastIntervalCarriesRounding()
    ensures GapCount(3314) == 10 && GapSpacing(3314) == 331
    ensures var fill := GapFill(Sample(0, 7), 3314);
      |fill| == 9 && fill[8] == Sample(2979, 7) && 3314 - fill[8].secs == 335
  {
    assert 3314.0 / 331.0 - 0.5 <= GapCount(3314) as real <= 3314.0 / 331.0 + 0.5;
    assert GapCount(3314) == 10;
    assert 3314.0 / 10.0 == 331.4;
  }

  /**
   * Adding one reading to a day (lines 120-138): a serial seen for the first time that
   * day starts a one-sample series (never filled); otherwise the held copies of the
   * hole go first and the reading becomes the newest sample. Other serials are untouched.
   */
  function AddToDay(d: DayData, r: Reading): (e: DayData)
    requires WellFormedDay(d) && ValidTime(r.time)
    ensures WellFormedDay(e) && e.day == d.day && r.serial in e.series
  {
    var secs := SecsPastMidnight(r.time);
    if r.serial !in d.series then
      DayData(d.day, d.serials + [r.serial], d.series[r.serial := [Sample(secs, r.watts)]])
    else
      var list := d.series[r.serial];
      var last := list[|list| - 1];
      var fill := GapFill(last, secs);
      var list' := list + fill + [Sample(secs, r.watts)];
      assert ValidSeries(list') by {
        assert InDay(last);
        if last.secs < secs {
          GapFillBetween(last, secs);
        }
        forall k | 0 <= k < |list'| ensures InDay(list'[k]) {
          if k < |list| {
            assert list'[k] == list[k];
          } else if k < |list| + |fill| {
            assert list'[k] == fill[k - |list|];
          }
        }
      }
      DayData(d.day, d.serials, d.series[r.serial := list'])
  }

  /**
   * What adding a reading does to a day: the reading becomes the newest sample of its
   * serial; a serial new to the day gets a one-sample series (never filled) and joins
   * the end of the iteration order; an existing series keeps all its samples, followed
   * by held copies of its newest watts; every other serial is untouched.
   */
  lemma AddToDayShape(d: DayData, r: Reading)
    requires WellFormedDay(d) && ValidTime(r.time)
    ensures var e := AddToDay(d, r); var secs := SecsPastMidnight(r.time);
      && e.series.Keys == d.series.Keys + {r.serial}
      && (forall s :: s in d.series && s != r.serial ==> e.series[s] == d.series[s])
      && e.series[r.serial][|e.series[r.serial]| - 1] == Sample(secs, r.watts)
      && (r.serial !in d.series ==> e.serials == d.serials + [r.serial] && e.series[r.serial] == [Sample(secs, r.watts)])
      && (r.serial in d.series ==> (
            var prior := d.series[r.serial];
            && e.serials == d.serials
            && e.series[r.serial] == prior + GapFill(prior[|prior| - 1], secs) + [Sample(secs, r.watts)]
            && |e.series[r.serial]| > |prior|
            && e.series[r.serial][..|prior|] == prior
            && forall k :: |prior| <= k < |e.series[r.serial]| - 1 ==>
                 e.series[r.serial][k].watts == prior[|prior| - 1].watts))
  {
    var e := AddToDay(d, r);
    if r.serial in d.series {
      var prior := d.series[r.serial];
      var list := e.series[r.serial];
      var fill := GapFill(prior[|prior| - 1], SecsPastMidnight(r.time));
      assert list == prior + fill + [Sample(SecsPastMidnight(r.time), r.watts)];
      forall k | |prior| <= k < |list| - 1
        ensures list[k].watts == prior[|prior| - 1].watts
      {
        assert list[k] == fill[k - |prior|];
      }
    }
  }

  /** Adding a reading keeps the serial list in step with the map. */
  lemma AddToDayKeepsSerials(d: DayData, r: Reading)
    requires WellFormedDay(d) && ValidTime(r.time) && SerialsMatch(d)
    ensures SerialsMatch(AddToDay(d, r))
  {
    AddToDayShape(d, r);
  }

  /** The empty day the generator starts from. */
  function InitialGrouping(): Grouping {
    Grouping(DayData(MinDay, [], map[]), [])
  }

  /**
   * One row of the cursor (lines 111-138): a change of date yields the day being
   * filled (when it holds anything) and starts a fresh one; the row is then added.
   */
  function Step(g: Grouping, r: Reading): (h: Grouping)
    requires WellFormedDay(g.current) && ValidTime(r.time)
    ensures WellFormedDay(h.current) && h.current.day == r.day && h.current.series != map[]
    ensures r.day == g.current.day ==> h.emitted == g.emitted
    ensures r.day != g.current.day ==>
      h.emitted == g.emitted + (if g.current.series != map[] then [g.current] else [])
    ensures r.day != g.current.day ==>
      h.current == DayData(r.day, [r.serial], map[r.serial := [Sample(SecsPastMidnight(r.time), r.watts)]])
    ensures r.day == g.current.day ==> h.current == AddToDay(g.current, r)
  {
    var newDay := r.day != g.current.day;
    var emitted := if newDay && |g.current.series| > 0 then g.emitted + [g.current] else g.emitted;
    var current := if newDay then DayData(r.day, [], map[]) else g.current;
    Grouping(AddToDay(current, r), emitted)
  }

  /** The generator's state after the first `|rows|` rows. */
  function Scan(rows: seq<Reading>): (g: Grouping)
    requires ValidRows(rows)
    ensures WellFormedDay(g.current)
    ensures forall k :: 0 <= k < |g.emitted| ==> WellFormedDay(g.emitted[k]) && g.emitted[k].series != map[]
    ensures rows == [] ==> g == InitialGrouping()
    ensures rows != [] ==> g.current.day == rows[|rows| - 1].day && g.current.series != map[]
  {
    if rows == [] then InitialGrouping()
    else Step(Scan(rows[..|rows| - 1]), rows[|rows| - 1])
  }

  /** Everything the generator yields: the completed days, then the last day if it holds anything. */
  function Days(rows: seq<Reading>): (days: seq<DayData>)
    requires ValidRows(rows)
    ensures forall k :: 0 <= k < |days| ==> WellFormedDay(days[k]) && days[k].series != map[]
    ensures rows == [] <==> days == []
  {
    var g := Scan(rows);
    if |g.current.series| > 0 then g.emitted + [g.current] else g.emitted
  }

  /**
   * The hole-filling loop (lines 129-135): when the reading at `reportSecs` is more than
   * 1.5 periods after `prev`, append `round(delta / n)`-spaced copies of `prev.watts`.
   */
  method AppendHeldCopies(list: seq<Sample>, prev: Sample, reportSecs: int) returns (filled: seq<Sample>)
    ensures filled == list + GapFill(prev, reportSecs)
  {
    filled := list;
    if (reportSecs - prev.secs) * 2 > DataDeltaSecs * 3 {
      var deltaSecs := reportSecs - prev.secs;
      var numGaps := RoundHalfEven(deltaSecs as real / DataDeltaSecs as real);
      var gapDeltaSecs := RoundHalfEven(deltaSecs as real / numGaps as real);
      ghost var fill := GapFill(prev, reportSecs);
      assert numGaps == GapCount(deltaSecs) && gapDeltaSecs == GapSpacing(deltaSecs);
      assert |fill| == numGaps - 1;
      var i := 1;
      while i < numGaps
        invariant 1 <= i <= numGaps
        invariant filled == list + fill[..i - 1]
      {
        assert fill[i - 1] == Sample(prev.secs + gapDeltaSecs * i, prev.watts);
        assert fill[..i] == fill[..i - 1] + [fill[i - 1]];
        filled := filled + [Sample(prev.secs + gapDeltaSecs * i, prev.watts)];
        i := i + 1;
      }
      assert fill[..i - 1] == fill;
    }
  }

  /**
   * The body of the cursor loop for one row already in the current day (lines
   * 120-138): look up the serial's list (a new serial has no previous report, marked
   * by offset -1), fill the hole, then append the reading as the newest sample.
   */
  method AppendReading(d: DayData, r: Reading) returns (e: DayData)
    requires WellFormedDay(d) && ValidTime(r.time)
    ensures e == AddToDay(d, r)
  {
    var data, serials := d.series, d.serials;
    var reportSecs := r.time.hour * 3600 + r.time.minute * 60 + r.time.second;
    var list: seq<Sample>;
    var previousSecs: int;
    var previousWatts: int;
    if r.serial !in data {
      list := [];
      serials := serials + [r.serial];
      previousSecs, previousWatts := -1, 0;
    } else {
      list := data[r.serial];
      previousSecs, previousWatts := list[|list| - 1].secs, list[|list| - 1].watts;
      assert InDay(list[|list| - 1]);
    }
    if previousSecs != -1 {
      list := AppendHeldCopies(list, Sample(previousSecs, previousWatts), reportSecs);
    }
    list := list + [Sample(reportSecs, r.watts)];
    data := data[r.serial := list];
    e := DayData(d.day, serials, data);
    assert reportSecs == SecsPastMidnight(r.time);
    if r.serial in d.series {
      var prior := d.series[r.serial];
      assert e == DayData(d.day, d.serials, d.series[r.serial := prior + GapFill(prior[|prior| - 1], reportSecs) + [Sample(reportSecs, r.watts)]]);
    } else {
      assert list == [] + [Sample(reportSecs, r.watts)] == [Sample(reportSecs, r.watts)];
    }
  }

  /**
   * `get_results_from_database` as a loop over the cursor's rows; it returns the
   * sequence of `(day, series)` pairs the generator yields.
   */
  method ReadDays(rows: seq<Reading>) returns (days: seq<DayData>)
    requires ValidRows(rows)
    ensures days == Days(rows)
  {
    var inverterData := DayData(MinDay, [], map[]);
    var previousReportDay := MinDay;
    var reportDay := MinDay;
    days := [];
    var i := 0;
    while i < |rows|
      invariant 0 <= i <= |rows|
      invariant inverterData.day == previousReportDay
      invariant Scan(rows[..i]) == Grouping(inverterData, days)
      invariant i > 0 ==> reportDay == previousReportDay
    {
      var r := rows[i];
      ghost var g := Grouping(inverterData, days);
      assert rows[..i + 1][..i] == rows[..i] && rows[..i + 1][i] == r;
      assert Scan(rows[..i + 1]) == Step(g, r);
      reportDay := r.day;
      if reportDay != previousReportDay {
        if |inverterData.series| > 0 {
          days := days + [inverterData];
        }
        previousReportDay := reportDay;
        inverterData := DayData(reportDay, [], map[]);
      }
      assert WellFormedDay(inverterData);
      inverterData := AppendReading(inverterData, r);
      assert Grouping(inverterData, days) == Step(g, r);
      i := i + 1;
    }
    assert rows[..i] == rows;
    if |inverterData.series| > 0 {
      days := days + [DayData(reportDay, inverterData.serials, inverterData.series)];
    }
  }

  // ---------------------------------------------------------------------------
  // What the yielded days mean, given what the store's query guarantees.
  // ---------------------------------------------------------------------------

  /** The query orders rows by report time, so dates never go backwards. */
  predicate DaysNondecreasing(rows: seq<Reading>) {
    forall i, j :: 0 <= i < j < |rows| ==> rows[i].day <= rows[j].day
  }

  /**
   * Report time order plus the (report time, serial) primary key: within a day the
   * rows of one serial have strictly increasing offsets.
   */
  predicate SerialOffsetsIncrease(rows: seq<Reading>)
    requires ValidRows(rows)
  {
    forall i, j :: 0 <= i < j < |rows| && rows[i].day == rows[j].day && rows[i].serial == rows[j].serial ==>
      SecsPastMidnight(rows[i].time) < SecsPastMidnight(rows[j].time)
  }

  /** Every serial of the day came from a row of that day. */
  ghost predicate FromRows(d: DayData, rows: seq<Reading>) {
    forall s :: s in d.series ==> exists i :: 0 <= i < |rows| && rows[i].day == d.day && rows[i].serial == s
  }

  /** ... and the newest sample of each series is that serial's latest row of the day. */
  ghost predicate NewestFromRows(d: DayData, rows: seq<Reading>)
    requires ValidRows(rows) && WellFormedDay(d)
  {
    forall s :: s in d.series ==> exists i :: (0 <= i < |rows| && rows[i].day == d.day && rows[i].serial == s &&
      d.series[s][|d.series[s]| - 1].secs == SecsPastMidnight(rows[i].time))
  }

  ghost predicate AllIncreasing(d: DayData) {
    forall s :: s in d.series ==> StrictlyIncreasing(d.series[s])
  }

  /** Appending held copies that lie between the newest sample and a later reading keeps a series increasing. */
  lemma AppendKeepsIncreasing(prior: seq<Sample>, fill: seq<Sample>, x: Sample)
    requires |prior| > 0 && StrictlyIncreasing(prior) && StrictlyIncreasing(fill)
    requires prior[|prior| - 1].secs < x.secs
    requires forall i :: 0 <= i < |fill| ==> prior[|prior| - 1].secs < fill[i].secs < x.secs
    ensures StrictlyIncreasing(prior + fill + [x])
  {
    var all := prior + fill + [x];
    forall i, j | 0 <= i < j < |all|
      ensures all[i].secs < all[j].secs
    {
      if j < |prior| {
      } else if i < |prior| {
        assert prior[i].secs <= prior[|prior| - 1].secs by {
          if i < |prior| - 1 { }
        }
      }
    }
  }

  /** One row as a Step over the state after the rows before it. */
  lemma ScanLast(rows: seq<Reading>)
    requires ValidRows(rows) && rows != []
    ensures ValidRows(rows[..|rows| - 1])
    ensures Scan(rows) == Step(Scan(rows[..|rows| - 1]), rows[|rows| - 1])
  {
  }

  /** The day a Step adds its row to: a fresh one when the date changes. */
  function StepBase(g: Grouping, r: Reading): DayData {
    if r.day != g.current.day then DayData(r.day, [], map[]) else g.current
  }

  /** Every day of a generator state points back to the rows it was built from. */
  ghost predicate Provenance(g: Grouping, rows: seq<Reading>)
    requires ValidRows(rows) && WellFormedDay(g.current)
    requires forall k :: 0 <= k < |g.emitted| ==> WellFormedDay(g.emitted[k])
  {
    && NewestFromRows(g.current, rows)
    && forall k :: 0 <= k < |g.emitted| ==> NewestFromRows(g.emitted[k], rows) && FromRows(g.emitted[k], rows)
  }

  lemma StepProvenance(g0: Grouping, front: seq<Reading>, r: Reading)
    requires ValidRows(front) && ValidTime(r.time) && WellFormedDay(g0.current)
    requires forall k :: 0 <= k < |g0.emitted| ==> WellFormedDay(g0.emitted[k])
    requires front != [] ==> g0.current.series != map[]
    requires Provenance(g0, front)
    ensures ValidRows(front + [r])
    ensures forall k :: 0 <= k < |Step(g0, r).emitted| ==> WellFormedDay(Step(g0, r).emitted[k])
    ensures Provenance(Step(g0, r), front + [r])
  {
    var rows := front + [r];
    var g := Step(g0, r);
    StepNewest(g0, front, r);
    forall k | 0 <= k < |g.emitted|
      ensures WellFormedDay(g.emitted[k]) && NewestFromRows(g.emitted[k], rows) && FromRows(g.emitted[k], rows)
    {
      var d := if k < |g0.emitted| then g0.emitted[k] else g0.current;
      assert g.emitted[k] == d;
      assert WellFormedDay(d) && NewestFromRows(d, front);
      NewestIsFromRows(d, front);
      NewestGrow(d, front, r);
      FromRowsGrow(d, front, r);
    }
  }

  /** The newest samples of the day a Step extends still point back to rows. */
  lemma StepNewest(g0: Grouping, front: seq<Reading>, r: Reading)
    requires ValidRows(front) && ValidTime(r.time) && WellFormedDay(g0.current)
    requires NewestFromRows(g0.current, front)
    ensures ValidRows(front + [r])
    ensures NewestFromRows(Step(g0, r).current, front + [r])
  {
    var base := StepBase(g0, r);
    assert Step(g0, r).current == AddToDay(base, r);
    AddNewest(base, front, r);
  }

  /** Adding a row to its own day keeps every newest sample pointing back to a row. */
  lemma AddNewest(d: DayData, front: seq<Reading>, r: Reading)
    requires ValidRows(front) && ValidTime(r.time) && WellFormedDay(d) && d.day == r.day
    requires NewestFromRows(d, front)
    ensures ValidRows(front + [r])
    ensures NewestFromRows(AddToDay(d, r), front + [r])
  {
    var rows := front + [r];
    var n := |rows|;
    var e := AddToDay(d, r);
    AddToDayShape(d, r);
    forall s | s in e.series
      ensures exists i :: (0 <= i < n && rows[i].day == e.day && rows[i].serial == s &&
        e.series[s][|e.series[s]| - 1].secs == SecsPastMidnight(rows[i].time))
    {
      if s == r.serial {
        assert rows[n - 1] == r;
      } else {
        assert s in d.series && e.series[s] == d.series[s];
        var i :| 0 <= i < n - 1 && front[i].day == d.day && front[i].serial == s &&
          d.series[s][|d.series[s]| - 1].secs == SecsPastMidnight(front[i].time);
        assert rows[i] == front[i];
      }
    }
  }

  lemma NewestIsFromRows(d: DayData, rows: seq<Reading>)
    requires ValidRows(rows) && WellFormedDay(d) && NewestFromRows(d, rows)
    ensures FromRows(d, rows)
  {
  }

  /** Appending a row keeps every newest sample's pointer back into the rows valid. */
  lemma NewestGrow(d: DayData, front: seq<Reading>, r: Reading)
    requires ValidRows(front) && ValidTime(r.time) && WellFormedDay(d) && NewestFromRows(d, front)
    ensures ValidRows(front + [r])
    ensures NewestFromRows(d, front + [r])
  {
    var rows := front + [r];
    forall s | s in d.series
      ensures exists i :: (0 <= i < |rows| && rows[i].day == d.day && rows[i].serial == s &&
        d.series[s][|d.series[s]| - 1].secs == SecsPastMidnight(rows[i].time))
    {
      var i :| 0 <= i < |front| && front[i].day == d.day && front[i].serial == s &&
        d.series[s][|d.series[s]| - 1].secs == SecsPastMidnight(front[i].time);
      assert rows[i] == front[i];
    }
  }

  /** Appending a row keeps every pointer back into the rows valid. */
  lemma FromRowsGrow(d: DayData, front: seq<Reading>, r: Reading)
    requires FromRows(d, front)
    ensures FromRows(d, front + [r])
  {
    forall s | s in d.series
      ensures exists i :: 0 <= i < |front| + 1 && (front + [r])[i].day == d.day && (front + [r])[i].serial == s
    {
      var i :| 0 <= i < |front| && front[i].day == d.day && front[i].serial == s;
      assert (front + [r])[i] == front[i];
    }
  }

  /** After every row, each serial of every day points back to a row of that date. */
  lemma {:induction false} ScanProvenance(rows: seq<Reading>)
    requires ValidRows(rows)
    ensures Provenance(Scan(rows), rows)
  {
    if rows != [] {
      var front, r := rows[..|rows| - 1], rows[|rows| - 1];
      assert rows == front + [r];
      ScanLast(rows);
      ScanProvenance(front);
      StepProvenance(Scan(front), front, r);
    }
  }

  /** The date facts of a generator state (see ScanDates). */
  ghost predicate DatesInOrder(g: Grouping, ordered: bool) {
    && (forall k :: 0 <= k < |g.emitted| - 1 ==> g.emitted[k].day != g.emitted[k + 1].day)
    && (g.emitted != [] ==> g.emitted[|g.emitted| - 1].day != g.current.day)
    && (ordered ==> forall k :: 0 <= k < |g.emitted| ==> g.emitted[k].day < g.current.day)
    && (ordered ==> forall k :: 0 <= k < |g.emitted| - 1 ==> g.emitted[k].day < g.emitted[k + 1].day)
  }

  lemma StepDates(g0: Grouping, r: Reading, ordered: bool)
    requires ValidTime(r.time) && WellFormedDay(g0.current)
    requires g0.emitted != [] ==> g0.current.series != map[]
    requires DatesInOrder(g0, ordered)
    requires ordered && (g0.current.series != map[] || g0.emitted != []) ==> g0.current.day <= r.day
    ensures DatesInOrder(Step(g0, r), ordered)
  {
  }

  /**
   * Days are yielded only on a change of date: neighbouring yielded days differ, the
   * last one differs from the day being filled, and for date-ordered rows all of them
   * come strictly before it in increasing order.
   */
  lemma {:induction false} ScanDates(rows: seq<Reading>)
    requires ValidRows(rows)
    ensures DatesInOrder(Scan(rows), DaysNondecreasing(rows))
    ensures Scan(rows).emitted != [] ==> rows != []
  {
    if rows != [] {
      var front, r := rows[..|rows| - 1], rows[|rows| - 1];
      ScanLast(rows);
      ScanDates(front);
      var g0 := Scan(front);
      if DaysNondecreasing(rows) {
        assert DaysNondecreasing(front);
        assert front != [] ==> g0.current.day == front[|front| - 1].day == rows[|rows| - 2].day <= r.day;
      }
      StepDates(g0, r, DaysNondecreasing(rows));
    }
  }

  /** A generator state whose series all have strictly increasing offsets. */
  ghost predicate Increasing(g: Grouping) {
    AllIncreasing(g.current) && forall k :: 0 <= k < |g.emitted| ==> AllIncreasing(g.emitted[k])
  }

  lemma StepIncreasing(g0: Grouping, front: seq<Reading>, r: Reading)
    requires ValidRows(front) && ValidTime(r.time) && WellFormedDay(g0.current)
    requires ValidRows(front + [r]) && SerialOffsetsIncrease(front + [r])
    requires forall k :: 0 <= k < |g0.emitted| ==> WellFormedDay(g0.emitted[k])
    requires Provenance(g0, front) && Increasing(g0)
    ensures Increasing(Step(g0, r))
  {
    var rows := front + [r];
    var n := |rows|;
    var g := Step(g0, r);
    var base := StepBase(g0, r);
    assert g.current == AddToDay(base, r);
    AddToDayShape(base, r);
    forall s | s in g.current.series
      ensures StrictlyIncreasing(g.current.series[s])
    {
      if s == r.serial && s in base.series {
        var prior := base.series[s];
        var last := prior[|prior| - 1];
        var secs := SecsPastMidnight(r.time);
        var i :| 0 <= i < n - 1 && front[i].day == base.day && front[i].serial == s &&
          last.secs == SecsPastMidnight(front[i].time);
        assert rows[i] == front[i] && rows[n - 1] == r;
        assert last.secs < secs;
        assert InDay(last);
        GapFillBetween(last, secs);
        assert g.current.series[s] == prior + GapFill(last, secs) + [Sample(secs, r.watts)];
        AppendKeepsIncreasing(prior, GapFill(last, secs), Sample(secs, r.watts));
      }
    }
  }

  /** With the query's order, every series of every day keeps strictly increasing offsets. */
  lemma {:induction false} ScanIncreasing(rows: seq<Reading>)
    requires ValidRows(rows) && SerialOffsetsIncrease(rows)
    ensures Increasing(Scan(rows))
  {
    if rows != [] {
      var front, r := rows[..|rows| - 1], rows[|rows| - 1];
      assert rows == front + [r];
      ScanLast(rows);
      assert SerialOffsetsIncrease(front);
      ScanIncreasing(front);
      ScanProvenance(front);
      StepIncreasing(Scan(front), front, r);
    }
  }

  /** Every day of a generator state lists its serials once each, in first-seen order. */
  ghost predicate SerialsInStep(g: Grouping) {
    SerialsMatch(g.current) && forall k :: 0 <= k < |g.emitted| ==> SerialsMatch(g.emitted[k])
  }

  lemma {:induction false} ScanSerials(rows: seq<Reading>)
    requires ValidRows(rows)
    ensures SerialsInStep(Scan(rows))
  {
    if rows != [] {
      var front, r := rows[..|rows| - 1], rows[|rows| - 1];
      ScanLast(rows);
      ScanSerials(front);
      var g0 := Scan(front);
      var base := StepBase(g0, r);
      assert SerialsMatch(base);
      AddToDayKeepsSerials(base, r);
    }
  }

  /** The yielded days are the completed ones followed by the day being filled, if non-empty. */
  lemma DaysLast(rows: seq<Reading>)
    requires ValidRows(rows)
    ensures var g := Scan(rows);
      Days(rows) == g.emitted + (if g.current.series != map[] then [g.current] else [])
  {
  }

  /**
   * The stream ends with a yield of the day being filled: for a non-empty stream the
   * last yielded day carries the last row's date, and that row is the newest sample of
   * its serial there.
   */
  lemma FinalDayHoldsLastRow(rows: seq<Reading>)
    requires ValidRows(rows) && rows != []
    ensures var days := Days(rows); var r := rows[|rows| - 1];
      && |days| > 0
      && days[|days| - 1] == Scan(rows).current
      && days[|days| - 1].day == r.day
      && r.serial in days[|days| - 1].series
      && var list := days[|days| - 1].series[r.serial];
         list[|list| - 1] == Sample(SecsPastMidnight(r.time), r.watts)
  {
    DaysLast(rows);
    ScanLast(rows);
    var r := rows[|rows| - 1];
    var g0 := Scan(rows[..|rows| - 1]);
    AddToDayShape(StepBase(g0, r), r);
  }

  /**
   * Each yielded day lists its serials once each in first-seen order, and every one of
   * them came from a row of that date.
   */
  lemma DaysSerials(rows: seq<Reading>)
    requires ValidRows(rows)
    ensures forall k :: 0 <= k < |Days(rows)| ==> SerialsMatch(Days(rows)[k]) && FromRows(Days(rows)[k], rows)
  {
    ScanSerials(rows);
    ScanProvenance(rows);
    DaysLast(rows);
    NewestIsFromRows(Scan(rows).current, rows);
  }

  /**
   * A day is yielded only when the date changes or the stream ends: neighbouring
   * yielded days carry different dates, and increasing dates when the rows are in
   * date order (so no date is yielded twice).
   */
  lemma DaysDates(rows: seq<Reading>)
    requires ValidRows(rows)
    ensures forall k :: 0 <= k < |Days(rows)| - 1 ==> Days(rows)[k].day != Days(rows)[k + 1].day
    ensures DaysNondecreasing(rows) ==>
      forall k :: 0 <= k < |Days(rows)| - 1 ==> Days(rows)[k].day < Days(rows)[k + 1].day
  {
    ScanDates(rows);
    DaysLast(rows);
  }

  /** With the query's order, every yielded series has strictly increasing offsets, held copies included. */
  lemma DaysIncreasing(rows: seq<Reading>)
    requires ValidRows(rows) && SerialOffsetsIncrease(rows)
    ensures forall k, s :: 0 <= k < |Days(rows)| && s in Days(rows)[k].series ==> StrictlyIncreasing(Days(rows)[k].series[s])
  {
    ScanIncreasing(rows);
    DaysLast(rows);
  }
}
