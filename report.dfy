/**
 * The run aggregation of inverter_analyzer.py's `main` (lines 397-446): every day the
 * reconstruction yields, every inverter of that day in first-appearance order, one
 * `analyze_day` each; totals and maxima with the inverter and day that first reached
 * each maximum.
 */
module Report {
  import opened Common
  import opened Reconstructor
  import opened Analyzer

  /** One analysed inverter-day. */
  datatype Entry = Entry(day: int, serial: int, result: Analysis)

  /** A maximum and the inverter and day credited with it. */
  datatype Best = Best(value: int, serial: int, day: int)

  /** A running total and maximum of one quantity. */
  datatype Tally = Tally(total: int, best: Best)

  /** The three quantities the run adds up. */
  datatype Metric = GeneratedEnergy | ExceedanceEnergy | ShavedEnergy

  datatype Summary = Summary(days: int, inverterDays: int, generated: Tally, exceedance: Tally, shaved: Tally)

  /** Maxima start at zero, credited to serial 0 on the earliest representable day. */
  const NoBest: Best := Best(0, 0, MinDay)

  /** The quantity of a result, None where analyze_day returned None (the generated energy is always there). */
  function Value(r: Analysis, m: Metric): Option<int> {
    match m
    case GeneratedEnergy => Some(r.generated)
    case ExceedanceEnergy => r.exceedance
    case ShavedEnergy => r.shaved
  }

  /** The entry's quantity, or 0 where it is absent. */
  function Amount(e: Entry, m: Metric): int {
    match Value(e.result, m)
    case Some(v) => v
    case None => 0
  }

  // ---------------------------------------------------------------------------
  // Which inverter-days are analysed, in which order
  // ---------------------------------------------------------------------------

  predicate ReadyDay(d: DayData) {
    WellFormedDay(d) && SerialsMatch(d)
  }

  /** The analysis of the day's `j`-th inverter. */
  function EntryOf(d: DayData, j: int, ceiling: int, mode: PlotMode, fit: seq<Sample> -> Curve): Entry
    requires ReadyDay(d) && 0 <= j < |d.serials|
  {
    var serial := d.serials[j];
    assert serial in d.series && ValidSeries(d.series[serial]);
    Entry(d.day, serial, AnalyzeDaySpec(d.series[serial], ceiling, mode, fit))
  }

  /** The entries of one day, one per inverter in the order the day first saw them. */
  function DayEntries(d: DayData, ceiling: int, mode: PlotMode, fit: seq<Sample> -> Curve): (es: seq<Entry>)
    requires ReadyDay(d)
    ensures |es| == |d.serials|
    ensures forall j {:trigger es[j]} :: 0 <= j < |es| ==>
      && es[j].day == d.day
      && es[j].serial == d.serials[j]
      && d.serials[j] in d.series
      && es[j].result == AnalyzeDaySpec(d.series[d.serials[j]], ceiling, mode, fit)
  {
    seq(|d.serials|, j requires 0 <= j < |d.serials| && ReadyDay(d) => EntryOf(d, j, ceiling, mode, fit))
  }

  /** The entries of a run, day after day. */
  function Entries(days: seq<DayData>, ceiling: int, mode: PlotMode, fit: seq<Sample> -> Curve): seq<Entry>
    requires forall k :: 0 <= k < |days| ==> ReadyDay(days[k])
  {
    if days == [] then []
    else
      var n := |days|;
      Entries(days[..n - 1], ceiling, mode, fit) + DayEntries(days[n - 1], ceiling, mode, fit)
  }

  // ---------------------------------------------------------------------------
  // The fold
  // ---------------------------------------------------------------------------

  /**
   * Adds one value: an absent value changes nothing; a present one is added to the total
   * and replaces the maximum, with its serial and day, only when strictly larger.
   */
  function Add(t: Tally, value: Option<int>, serial: int, day: int): Tally {
    match value
    case None => t
    case Some(v) => Tally(t.total + v, if v > t.best.value then Best(v, serial, day) else t.best)
  }

  function AddEntry(t: Tally, e: Entry, m: Metric): Tally {
    Add(t, Value(e.result, m), e.serial, e.day)
  }

  /** The tally after adding the entries, in order, to `t`. */
  function Fold(t: Tally, es: seq<Entry>, m: Metric): Tally {
    if es == [] then t
    else AddEntry(Fold(t, es[..|es| - 1], m), es[|es| - 1], m)
  }

  /** The tally of a run: zero totals and the initial maxima, then every entry. */
  function TallyOf(es: seq<Entry>, m: Metric): Tally {
    Fold(Tally(0, NoBest), es, m)
  }

  /** What the run reports. */
  function SummaryOf(days: seq<DayData>, ceiling: int, mode: PlotMode, fit: seq<Sample> -> Curve): Summary
    requires forall k :: 0 <= k < |days| ==> ReadyDay(days[k])
  {
    var es := Entries(days, ceiling, mode, fit);
    Summary(|days|, |es|, TallyOf(es, GeneratedEnergy), TallyOf(es, ExceedanceEnergy), TallyOf(es, ShavedEnergy))
  }

  /** The sum of the present values, front to back: an independent reading of the total. */
  function SumOf(es: seq<Entry>, m: Metric): int {
    if es == [] then 0 else Amount(es[0], m) + SumOf(es[1..], m)
  }

  lemma {:induction false} SumOfAppend(es: seq<Entry>, e: Entry, m: Metric)
    ensures SumOf(es + [e], m) == SumOf(es, m) + Amount(e, m)
  {
    if es != [] {
      assert (es + [e])[1..] == es[1..] + [e];
      SumOfAppend(es[1..], e, m);
    }
  }

  /** The running total is the sum of the present values: generated always, the others only when not None. */
  lemma {:induction false} TotalIsSum(es: seq<Entry>, m: Metric)
    ensures TallyOf(es, m).total == SumOf(es, m)
  {
    if es != [] {
      var n := |es|;
      TotalIsSum(es[..n - 1], m);
      assert es == es[..n - 1] + [es[n - 1]];
      SumOfAppend(es[..n - 1], es[n - 1], m);
    }
  }

  /** The entry `i` is the first whose value reaches `v`. */
  predicate FirstReaching(es: seq<Entry>, m: Metric, i: int, v: int)
    requires 0 <= i < |es|
  {
    && Value(es[i].result, m) == Some(v)
    && forall j :: 0 <= j < i ==> !(Value(es[j].result, m).Some? && Value(es[j].result, m).value >= v)
  }

  /**
   * The maximum is at least every present value and never negative; when positive it is
   * credited to the serial and day of the first entry that reached it (later equal
   * values do not take the credit); when zero it is still the initial credit.
   */
  lemma {:induction false} BestIsFirstMaximum(es: seq<Entry>, m: Metric)
    ensures var b := TallyOf(es, m).best;
      && b.value >= 0
      && (forall j :: 0 <= j < |es| && Value(es[j].result, m).Some? ==> Value(es[j].result, m).value <= b.value)
      && (b.value == 0 ==> b == NoBest)
      && (b.value > 0 ==>
            exists i :: (0 <= i < |es| && FirstReaching(es, m, i, b.value) && es[i].serial == b.serial && es[i].day == b.day))
  {
    if es != [] {
      var n := |es|;
      var prefix := es[..n - 1];
      BestIsFirstMaximum(prefix, m);
      var b0 := TallyOf(prefix, m).best;
      var b := TallyOf(es, m).best;
      assert forall j :: 0 <= j < n - 1 ==> es[j] == prefix[j];
      if b != b0 {
        // the last entry is strictly larger than everything before it
        assert FirstReaching(es, m, n - 1, b.value);
      } else if b.value > 0 {
        var i :| 0 <= i < n - 1 && FirstReaching(prefix, m, i, b0.value) && prefix[i].serial == b0.serial && prefix[i].day == b0.day;
        assert FirstReaching(es, m, i, b.value);
      }
    }
  }

  /** Every day the reconstruction yields can be analysed inverter by inverter. */
  lemma DaysReady(rows: seq<Reading>)
    requires ValidRows(rows)
    ensures forall k :: 0 <= k < |Days(rows)| ==> ReadyDay(Days(rows)[k])
  {
    DaysSerials(rows);
  }

  /** Folding a concatenation folds the first part, then the second from where the first left off. */
  lemma {:induction false} FoldAppend(t: Tally, a: seq<Entry>, b: seq<Entry>, m: Metric)
    ensures Fold(t, a + b, m) == Fold(Fold(t, a, m), b, m)
  {
    if b != [] {
      var n := |b|;
      assert (a + b)[..|a + b| - 1] == a + b[..n - 1];
      FoldAppend(t, a, b[..n - 1], m);
    } else {
      assert a + b == a;
    }
  }

  /** Appending a day's entries extends the run's entries. */
  lemma EntriesStep(days: seq<DayData>, i: int, ceiling: int, mode: PlotMode, fit: seq<Sample> -> Curve)
    requires forall k :: 0 <= k < |days| ==> ReadyDay(days[k])
    requires 0 <= i < |days|
    ensures Entries(days[..i + 1], ceiling, mode, fit) == Entries(days[..i], ceiling, mode, fit) + DayEntries(days[i], ceiling, mode, fit)
    ensures forall m ::
      TallyOf(Entries(days[..i + 1], ceiling, mode, fit), m) ==
      Fold(TallyOf(Entries(days[..i], ceiling, mode, fit), m), DayEntries(days[i], ceiling, mode, fit), m)
  {
    assert days[..i + 1][..i] == days[..i];
    forall m {
      FoldAppend(Tally(0, NoBest), Entries(days[..i], ceiling, mode, fit), DayEntries(days[i], ceiling, mode, fit), m);
    }
  }

  // ---------------------------------------------------------------------------
  // The loop of `main`
  // ---------------------------------------------------------------------------

  /** One of the three blocks of lines 422-442: add a present value, and take the maximum if strictly larger. */
  method Record(t: Tally, value: Option<int>, serialNumber: int, day: int) returns (u: Tally)
    ensures u == Add(t, value, serialNumber, day)
  {
    u := t;
    if value.Some? {
      u := u.(total := u.total + value.value);
      if value.value > u.best.value {
        u := u.(best := Best(value.value, serialNumber, day));
      }
    }
  }

  /** The inner loop of lines 419-446: every inverter of one day, in the day's order. */
  method AnalyzeInverters(inverterData: DayData, maxContinuous: int, plotMode: PlotMode, fit: seq<Sample> -> Curve,
                          inverterDays: int, generated: Tally, exceedance: Tally, shaved: Tally)
    returns (inverterDays': int, generated': Tally, exceedance': Tally, shaved': Tally)
    requires ReadyDay(inverterData)
    ensures var es := DayEntries(inverterData, maxContinuous, plotMode, fit);
      && inverterDays' == inverterDays + |es|
      && generated' == Fold(generated, es, GeneratedEnergy)
      && exceedance' == Fold(exceedance, es, ExceedanceEnergy)
      && shaved' == Fold(shaved, es, ShavedEnergy)
  {
    ghost var es := DayEntries(inverterData, maxContinuous, plotMode, fit);
    inverterDays', generated', exceedance', shaved' := inverterDays, generated, exceedance, shaved;
    var j := 0;
    while j < |inverterData.serials|
      invariant 0 <= j <= |inverterData.serials|
      invariant inverterDays' == inverterDays + j
      invariant generated' == Fold(generated, es[..j], GeneratedEnergy)
      invariant exceedance' == Fold(exceedance, es[..j], ExceedanceEnergy)
      invariant shaved' == Fold(shaved, es[..j], ShavedEnergy)
    {
      var serialNumber := inverterData.serials[j];
      var data := inverterData.series[serialNumber];
      inverterDays' := inverterDays' + 1;
      var result := AnalyzeDay(data, maxContinuous, plotMode, fit);
      assert es[j] == Entry(inverterData.day, serialNumber, result);
      assert es[..j + 1][..j] == es[..j];
      generated' := Record(generated', Some(result.generated), serialNumber, inverterData.day);
      exceedance' := Record(exceedance', result.exceedance, serialNumber, inverterData.day);
      shaved' := Record(shaved', result.shaved, serialNumber, inverterData.day);
      j := j + 1;
    }
    assert es[..j] == es;
  }

  /**
   * Lines 397-446: reads the days, analyses every inverter-day and keeps the counters,
   * totals and maxima.
   */
  method Summarize(rows: seq<Reading>, maxContinuous: int, plotMode: PlotMode, fit: seq<Sample> -> Curve)
    returns (summary: Summary)
    requires ValidRows(rows)
    ensures forall k :: 0 <= k < |Days(rows)| ==> ReadyDay(Days(rows)[k])
    ensures summary == SummaryOf(Days(rows), maxContinuous, plotMode, fit)
  {
    var results := ReadDays(rows);
    DaysReady(rows);
    summary := SummarizeDays(results, maxContinuous, plotMode, fit);
  }

  /** The loop of lines 416-446 over the days already read: counters, totals and maxima. */
  method SummarizeDays(results: seq<DayData>, maxContinuous: int, plotMode: PlotMode, fit: seq<Sample> -> Curve)
    returns (summary: Summary)
    requires forall k :: 0 <= k < |results| ==> ReadyDay(results[k])
    ensures summary == SummaryOf(results, maxContinuous, plotMode, fit)
  {
    var days, inverterDays := 0, 0;
    var generated, exceedance, shaved := Tally(0, NoBest), Tally(0, NoBest), Tally(0, NoBest);
    while days < |results|
      invariant 0 <= days <= |results|
      invariant Summary(days, inverterDays, generated, exceedance, shaved) ==
        SummaryOf(results[..days], maxContinuous, plotMode, fit)
    {
      var inverterDays', generated', exceedance', shaved' :=
        AnalyzeInverters(results[days], maxContinuous, plotMode, fit, inverterDays, generated, exceedance, shaved);
      SummaryStep(results, days, maxContinuous, plotMode, fit,
        Summary(days, inverterDays, generated, exceedance, shaved),
        Summary(days + 1, inverterDays', generated', exceedance', shaved'));
      inverterDays, generated, exceedance, shaved := inverterDays', generated', exceedance', shaved';
      days := days + 1;
    }
    assert results[..days] == results;
    summary := Summary(days, inverterDays, generated, exceedance, shaved);
  }

  /** Folding the next day's entries into the summary of the days before it gives the summary of one day more. */
  lemma SummaryStep(results: seq<DayData>, i: int, ceiling: int, mode: PlotMode, fit: seq<Sample> -> Curve,
                    before: Summary, after: Summary)
    requires forall k :: 0 <= k < |results| ==> ReadyDay(results[k])
    requires 0 <= i < |results|
    requires before == SummaryOf(results[..i], ceiling, mode, fit)
    requires var es := DayEntries(results[i], ceiling, mode, fit);
      && after.days == before.days + 1
      && after.inverterDays == before.inverterDays + |es|
      && after.generated == Fold(before.generated, es, GeneratedEnergy)
      && after.exceedance == Fold(before.exceedance, es, ExceedanceEnergy)
      && after.shaved == Fold(before.shaved, es, ShavedEnergy)
    ensures after == SummaryOf(results[..i + 1], ceiling, mode, fit)
  {
    EntriesStep(results, i, ceiling, mode, fit);
  }
}
