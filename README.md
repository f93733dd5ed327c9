# Enphase inverter analyzer — a verified Dafny model

The Enphase Inverter Analyzer polls an Enphase gateway for the per-microinverter power
reports and stores a row only when an inverter's watts change. Later it rebuilds dense
per-day series from those rows, integrates each day's energy, and estimates how much
energy each inverter's maximum continuous power limit clipped ("shaved") from the day.

This project models the deterministic core of both programs in Dafny and proves
properties of that model.

- `common.dfy` (`Common`): an `Option` type, and Python's `round` (ties to even) on
  exact reals.
- `reconstructor.dfy` (`Reconstructor`): `get_results_from_database` and `secs_to_time`.
  It covers:
  - grouping a date-ordered row stream into days, with the serials in their
    first-appearance order;
  - filling holes wider than 1.5 × 331 s with held copies of the previous watts.
- `analyzer.dfy` (`Analyzer`): `analyze_day` without its plotting. It covers:
  - the doubled trapezoid accumulator, halved with floor division;
  - the quality gates, which compare `PlotMode` ordinals;
  - the inputs of the three parabola fits;
  - the crossing-aware integrals above the ceiling, of the raw series and of the
    fit-estimated series;
  - the result rules of the final return.
- `report.dfy` (`Report`): the aggregation loop of `main`. It keeps a day count, an
  inverter-day count, and three totals with first-strict-maximum attribution.
- `capture.dfy` (`Capture`): `add_results_to_database`, the change-only deduplication
  state machine over the two module-level dictionaries, and `update_bind_placeholders`.
  Both are methods of a class `CaptureState` that holds the module's globals.

How the outside world enters the model:
- Each least-squares parabola fit is a parameter `fit: seq<Sample> -> (int -> real)`
  from the points it is given to the fitted curve.
- The database insert is an oracle `(reading index, date, serial, watts) -> rowcount`.
- `datetime.now()` is an oracle `reading index -> timestamp`.
- The database cursor is a sequence of rows `(day, time of day, serial, watts)`.

The imperative parts of the source are methods with loops. Each is proved equal to a
specification function, and the properties are lemmas about those functions:
- the accumulators of `analyze_day`;
- the generator loop;
- the fold of `main`;
- the capture loop.

Two details of the code decide what the model states:

- **Generated energy is floored.** The doubled integer sum is halved with `// 2`
  (inverter_analyzer.py:202, 206, 210, 212, 237, 305), so the reported energy is the
  floor of the trapezoid integral, not the nearest watt-second. `Analyzer.QualityGate`
  states the floor.
- **The last interval of a filled hole carries the rounding.** The spacing of the held
  copies is rounded once (inverter_analyzer.py:133), and the copies are placed at
  whole multiples of it, so the interval from the last copy to the new reading absorbs
  the rounding error. Take a 3314 s hole:
  - it gets 9 copies, 331 s apart;
  - its last interval is 335 s;
  - 3314 / 10 = 331.4.
  `Reconstructor.LastIntervalCarriesRounding` proves this. `Reconstructor.GapFillSpacing`
  proves the spacing law in general, `Reconstructor.GapBounds` bounds the count and the
  spacing within a day, and `Reconstructor.GapFillBetween` proves that the copies always
  land strictly inside the hole, in order.

## Model

| member | source | states |
|---|---|---|
| Common.RoundHalfEven | inverter_analyzer.py:132-133 | Python `round`: the result is within 1/2 of the argument, and on an exact tie it is even |
| Common.RoundHalfEvenTies | inverter_analyzer.py:133 | ties go to the even neighbour: 331.5 → 332, 2.5 → 2, −0.5 → 0 |
| Reconstructor.SecsPastMidnight | inverter_analyzer.py:112 | a valid time's offset `h*3600+m*60+s` lies in [0, 86400) |
| Reconstructor.SecsToTime | inverter_analyzer.py:144-150 | `secs_to_time` yields a time exactly for offsets in [0, 86400) (otherwise `datetime.time` raises), and that time converts back to the offset |
| Reconstructor.TimeRoundTrip | inverter_analyzer.py:144-150 | converting a valid time of day to seconds and back gives the same time |
| Reconstructor.GapCount | inverter_analyzer.py:129-132 | whenever the hole test passes, the number of periods is at least 2, so the next division is safe |
| Reconstructor.GapFill | inverter_analyzer.py:129-135 | no hole → nothing inserted; a hole → exactly `n − 1` copies, every one carrying the previous watts, the `i`-th at `prev + round(delta / n) · i` |
| Reconstructor.GapFillSpacing | inverter_analyzer.py:131-135 | the copies are evenly spaced: prev to the first copy and each copy to the next are `round(delta / n)` apart, and the reading follows the last copy after `delta − round(delta / n) · (n − 1)` |
| Reconstructor.RoundDivBounds | inverter_analyzer.py:132-133 | `round(a / b)` times `b` is within `b / 2` of `a` |
| Reconstructor.GapBounds | inverter_analyzer.py:129-135 | within a day a hole has 2..261 periods, a spacing of at least 248 s, and its last copy strictly before the new reading |
| Reconstructor.GapFillBetween | inverter_analyzer.py:129-135 | held copies lie strictly between the previous sample and the new reading, with strictly increasing offsets |
| Reconstructor.EvenlySpacedBetween | inverter_analyzer.py:134-135 | points `p + g*i` for `i = 1..n−1` with `g*(n−1) < t − p` are strictly increasing and strictly inside (p, t) |
| Reconstructor.LastIntervalCarriesRounding | inverter_analyzer.py:132-135 | a 3314 s hole gets 10 periods, spacing 331, 9 copies, and a last interval of 335 s |
| Reconstructor.AddToDay | inverter_analyzer.py:120-138 | adding a reading keeps every series valid, keeps the date, and makes the serial present |
| Reconstructor.AddToDayShape | inverter_analyzer.py:120-138 | the reading becomes the newest sample of its serial; other serials are untouched; a serial's first row of the day starts a one-sample series with no fill; otherwise the series becomes the old series, then exactly `GapFill` of its newest sample, then the reading |
| Reconstructor.AddToDayKeepsSerials | inverter_analyzer.py:119-122 | the serial list stays the dict's iteration order: every key once, in first-appearance order |
| Reconstructor.Step | inverter_analyzer.py:111-138 | a date change yields the current day only when it is non-empty and starts a fresh day holding just the row (one serial, one sample at the row's offset); on the same date nothing is yielded and the row is added to the current day |
| Reconstructor.Scan | inverter_analyzer.py:109-138 | after any rows, every yielded day is non-empty and well formed, and the current day is the last row's date |
| Reconstructor.Days | inverter_analyzer.py:109-142 | the yielded days are all non-empty and well formed, and there are none exactly when there are no rows |
| Reconstructor.AppendHeldCopies | inverter_analyzer.py:129-135 | the fill loop appends exactly `GapFill` |
| Reconstructor.AppendReading | inverter_analyzer.py:120-138 | the per-row loop body computes `AddToDay` |
| Reconstructor.ReadDays | inverter_analyzer.py:99-142 | the generator loop yields exactly `Days(rows)` |
| Reconstructor.ScanProvenance | inverter_analyzer.py:109-138 | for the day being filled and every day already yielded: every serial comes from a row of that date, and each series' newest sample is the offset of such a row |
| Reconstructor.ScanDates | inverter_analyzer.py:113-118 | neighbouring yielded days have different dates, and increasing ones for date-ordered rows |
| Reconstructor.ScanIncreasing | inverter_analyzer.py:129-138 | with per-serial offsets increasing within a day, every series stays strictly increasing |
| Reconstructor.ScanSerials | inverter_analyzer.py:119-122 | every day's serial list matches its map |
| Reconstructor.DaysSerials | inverter_analyzer.py:119-138 | every yielded day lists each serial once and only serials that have a row on that date |
| Reconstructor.FinalDayHoldsLastRow | inverter_analyzer.py:140-142 | a non-empty stream ends by yielding the day being filled: it carries the last row's date and that row is its serial's newest sample |
| Reconstructor.DaysDates | inverter_analyzer.py:113-142 | a day is yielded only at a date change or at the end: neighbours differ, and they increase for date-ordered rows |
| Reconstructor.DaysIncreasing | inverter_analyzer.py:129-138 | with the query's order every yielded series, held copies included, has strictly increasing offsets |
| Analyzer.GeneratedNonNegative | inverter_analyzer.py:172-183 | with non-decreasing offsets and non-negative watts the doubled generated energy is ≥ 0 |
| Analyzer.AccumulateGenerated | inverter_analyzer.py:172-183 | the loop computes Σ (t₁ − t₀)(w₀ + w₁) over adjacent samples |
| Analyzer.ShaveCount | inverter_analyzer.py:180 | the count is in [0, len], and positive exactly when some sample is ≥ the ceiling |
| Analyzer.FitPoints | inverter_analyzer.py:220-221 | the first fit gets exactly the samples with 75 < w < ceiling |
| Analyzer.CloudFlags | inverter_analyzer.py:223 | one flag per sample, set exactly when 75 W < watts < curve(offset) − 5 W |
| Analyzer.ClearPoints | inverter_analyzer.py:226-227 | the zip filter keeps at most the day's samples |
| Analyzer.ClearPointsMembers | inverter_analyzer.py:226-227 | a kept sample is in the window; every unflagged window sample is kept |
| Analyzer.ClearPointsFlagged | inverter_analyzer.py:223-227 | a kept sample is not cloudy under the curve whose flags were zipped |
| Analyzer.ClearPointsOfCurve | inverter_analyzer.py:223-233 | zipping a curve's flags keeps exactly the window samples that the curve does not flag cloudy |
| Analyzer.FitSelection | inverter_analyzer.py:220-233 | every fit input satisfies 75 < w < ceiling; the second and final fits drop exactly the samples the previous fit flags with `75 < w < curve(t) − 5`; the flags cover the whole day |
| Analyzer.CloudFilter | inverter_analyzer.py:220-233 | the two filtering rounds produce the final fit's points |
| Analyzer.RawPoints | inverter_analyzer.py:241-269 | the raw series has one point per sample |
| Analyzer.EstimatedPoints | inverter_analyzer.py:243-248 | the estimated series has one point per sample |
| Analyzer.EstimateKeepsUnclipped | inverter_analyzer.py:243-248 | the first sample and every sample below the ceiling keep their measured watts; a day below the ceiling has estimate = raw |
| Analyzer.EstimateReplacesClipped | inverter_analyzer.py:248 | every later sample at or above the ceiling is replaced by the curve's value at its offset; offsets are kept |
| Analyzer.CrossingInside | inverter_analyzer.py:251-254 | the interpolated crossing time lies inside the interval |
| Analyzer.RisingBounds | inverter_analyzer.py:250-252 | the rising triangle is ≥ 0 and at most the interval's trapezoid |
| Analyzer.FallingBounds | inverter_analyzer.py:253-255 | the falling triangle is ≥ 0 and at most the interval's trapezoid |
| Analyzer.ContributionBounds | inverter_analyzer.py:249-257 | every interval's contribution is ≥ 0, and for a non-negative ceiling and watts at most Δt·(w₀+w₁) |
| Analyzer.CrossingExample | inverter_analyzer.py:250-252 | ceiling 100 with (0 s, 90 W), (10 s, 110 W): doubled 50, reported 25 |
| Analyzer.ExceedanceNonNegative | inverter_analyzer.py:241-269 | the doubled exceedance of a forward-running series is ≥ 0 |
| Analyzer.ExceedanceAtMostGenerated | inverter_analyzer.py:241-269 | above a non-negative ceiling the doubled exceedance is at most the doubled generated energy |
| Analyzer.IntervalAtMostGenerated | inverter_analyzer.py:249-257 | one interval's exceedance is at most its own trapezoid |
| Analyzer.BelowCeilingNoExceedance | inverter_analyzer.py:249-257 | a series entirely below the ceiling has no exceedance |
| Analyzer.IntervalExceedance | inverter_analyzer.py:249-257 | the three-way branch computes the interval's crossing-aware contribution |
| Analyzer.AccumulateExceedance | inverter_analyzer.py:241-269 | the loop computes the doubled exceedance of the raw series and of the estimated series |
| Analyzer.AnalyzeDay | inverter_analyzer.py:158-305 | `analyze_day` returns `AnalyzeDaySpec` on every path |
| Analyzer.QualityGate | inverter_analyzer.py:199-237 | generated = ⌊doubled sum / 2⌋ on every path; at ≥ GOOD_DATA a bad start, fewer than 50 samples or a bad end give `(generated, None, None)`; so does no clipping at ≥ EXCEEDANCE, and fewer than 50 final fit points at ≥ NOT_CLOUDY |
| Analyzer.ResultPresence | inverter_analyzer.py:305 | exceedance is present iff the day passed the gates and some sample is ≥ the ceiling; shaved is present iff it passed and the estimate's integral exceeds the raw one |
| Analyzer.NoClippingNoShaving | inverter_analyzer.py:211-212 | a day that never reaches the ceiling reports neither exceedance nor shaved energy, in every mode |
| Analyzer.GeneratedReportNonNegative | inverter_analyzer.py:305 | for forward time and non-negative watts the reported generated energy is ≥ 0, for any ceiling and mode |
| Analyzer.ResultNonNegative | inverter_analyzer.py:305 | for forward time, non-negative watts and a non-negative ceiling: generated ≥ 0, 0 ≤ exceedance ≤ generated + 1, shaved ≥ 0 |
| Report.DayEntries | inverter_analyzer.py:419-421 | one entry per inverter of the day in first-seen order, each carrying the day, that serial and the analysis of its series |
| Report.SumOfAppend | inverter_analyzer.py:422-438 | adding an entry at the end adds its present value |
| Report.TotalIsSum | inverter_analyzer.py:422-438 | each total is the sum of the present values: generated always, exceedance and shaved only when not None |
| Report.BestIsFirstMaximum | inverter_analyzer.py:423-442 | each maximum is ≥ every present value and ≥ 0; when positive it is credited to the first inverter-day that reached it (strict `>`); when zero it keeps the initial credit |
| Report.DaysReady | inverter_analyzer.py:417-419 | every yielded day can be iterated inverter by inverter |
| Report.FoldAppend | inverter_analyzer.py:417-446 | folding a run day by day equals folding all its entries |
| Report.EntriesStep | inverter_analyzer.py:417-419 | one more day appends that day's entries |
| Report.Record | inverter_analyzer.py:422-442 | one block adds a present value to the total, and takes the maximum with its serial and day only when strictly larger |
| Report.AnalyzeInverters | inverter_analyzer.py:419-446 | the inner loop counts one inverter-day per inverter and folds its results in order |
| Report.Summarize | inverter_analyzer.py:397-446 | the run's counters, totals and maxima are `SummaryOf` the reconstructed days |
| Report.SummarizeDays | inverter_analyzer.py:416-446 | the loop over the days read keeps day and inverter-day counts, totals and maxima equal to `SummaryOf` of those days |
| Capture.ProcessRules | inverter_capture.py:182-205 | other device types change nothing; a repeated date with the same watts is a resend and changes nothing; a repeated date with new watts is stored under "now"; stored watts move only the date; an insert happens iff the watts differ (or the serial is new) and the oracle reports 1 row, and only then do both dictionaries take the new values |
| Capture.ProcessIsolation | inverter_capture.py:196-205 | only the reading's serial can change in either dictionary, and no key is removed |
| Capture.RunBatch | inverter_capture.py:174-207 | the rows counter is the number of stored rows; the three counters sum to at most the number of readings |
| Capture.BatchIsolation | inverter_capture.py:174-207 | a serial that no reading carries keeps both dictionary entries |
| Capture.ProductionTracksLog | inverter_capture.py:196-205 | after a poll the production dictionary holds each serial's newest stored watts |
| Capture.NoRepeatedWatts | inverter_capture.py:196-203 | every stored row differs in watts from its serial's previously stored watts |
| Capture.ReplaceAllAppend | inverter_capture.py:128 | replacing distributes over concatenation |
| Capture.ReplaceAll | inverter_capture.py:128 | a placeholder without the pattern leaves none behind; a string without the pattern is unchanged |
| Capture.ReplaceAllLength | inverter_capture.py:128 | the length grows by (placeholder length − 1) per occurrence and nothing else changes it |
| Capture.ReplacePlaceholders | inverter_capture.py:128 | a statement whose only `?` are its three placeholders becomes the same text with the new placeholder in their place |
| Capture.MySqlStatement | inverter_capture.py:111-115 | with `%s` the insert statement becomes `... VALUES (%s, %s, %s) ` and nothing else changes |
| Capture.CaptureState.constructor | inverter_capture.py:111-131 | the module starts with the SQLite statement and empty dictionaries |
| Capture.CaptureState.UpdateBindPlaceholders | inverter_capture.py:123-128 | every `?` of the statement becomes the placeholder; the dictionaries are unchanged |
| Capture.CaptureState.AddResultsToDatabase | inverter_capture.py:153-207 | the dictionaries and the three returned counters are those of `RunBatch` on the old dictionaries; the statement is unchanged |

## Left out

- Least-squares fitting (`Polynomial.fit`, inverter_analyzer.py:222, 228, 238) is a
  floating-point foreign library. Each fit is an opaque parameter. What the fit does with
  fewer than three points is not modelled.
- `cloud_flags3` (inverter_analyzer.py:239) feeds only the plot.
- Plotting (inverter_analyzer.py:270-303) is presentation only. This includes the peak
  estimate and the `plot_limit` test.
- The min/max/average delta diagnostics (inverter_analyzer.py:185-197) only print
  warnings, and so do the messages beside each gate.
- Database and command-line setup in both programs is I/O: connections, SQL text other
  than the insert statement, credentials and argparse.
- The gateway session, the retry and reconnect loops, sleeps, signal handling and the
  float `cumulative_power` of inverter_capture.py are I/O, timing and asynchronous.
- `insert_inverter_reading` (inverter_capture.py:133-151) is the oracle `insert`. Its
  database call and its exception handling are not modelled: errors that are ignored
  show up as a rowcount other than 1, and re-raised errors are not modelled.
- The summary printing (inverter_analyzer.py:451-458) is output formatting. Its
  divisions by `days`, `inverter_days` and the total can divide by zero.
- Floats are exact reals. Float rounding in the crossing times and in `round(x / 2)` is
  not modelled.
- Dates are day numbers, report timestamps are whole seconds, and times of day are
  `(hour, minute, second)`. Time zones and `fromtimestamp` are not modelled.
- Analyzer.RawPoints and Analyzer.EstimatedPoints state only their length as an
  `ensures`. The raw points are the samples with their watts as reals, which is the
  whole definition. What the estimate holds at every index is stated by
  Analyzer.EstimateKeepsUnclipped and Analyzer.EstimateReplacesClipped.
- Analyzer.ClearPoints states only a length bound itself. Its membership law is
  Analyzer.ClearPointsMembers.
- Reconstructor.DaysIncreasing assumes the store's query order: per-serial offsets
  strictly increase within a day. The model does not derive this from the query, which
  is not part of this model.
- Capture.CaptureState.AddResultsToDatabase reads the clock oracle by reading index
  rather than by wall time. This matters only for a reused report date.
- The `int(...)` conversions of the JSON fields are not modelled: readings arrive
  already typed.
