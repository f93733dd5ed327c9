/**
 * The change-only storage step of inverter_capture.py: `add_results_to_database`, which
 * keeps, per inverter serial, the last report date and the last stored watts, and for
 * each reading of a poll decides whether it is skipped, a resend, unchanged or stored;
 * and `update_bind_placeholders`, which rewrites the insert statement's placeholders.
 *
 * Report dates are timestamps (whole seconds). The database insert is an oracle from
 * (reading index, date, serial, watts) to the rowcount it reports; the clock read when
 * a report date is reused with different watts is an oracle from the reading index to
 * the current time.
 */
module Capture {
  import opened Common

  /** One element of the gateway's inverter list. */
  datatype InverterReading = InverterReading(serialNumber: int, lastReportDate: int, devType: int, lastReportWatts: int)

  /** A row the insert reported as stored. */
  datatype StoredRow = StoredRow(lastReportDate: int, serialNumber: int, watts: int)

  /** The two dictionaries the capture keeps between polls. */
  datatype Store = Store(lastReportDate: map<int, int>, production: map<int, int>)

  /** `(rows added, resends, unchanged)`. */
  datatype Counts = Counts(rows: int, resends: int, unchangedReadings: int)

  /** What happened to one reading. */
  datatype Outcome = Skipped | Resent | Unchanged | Inserted(row: StoredRow) | NotInserted

  datatype Step = Step(store: Store, outcome: Outcome)

  datatype Batch = Batch(store: Store, counts: Counts, log: seq<StoredRow>)

  /** The only device type whose readings are stored (microinverters). */
  const InverterDevType: int := 1

  /** `dict.get(key) == value`: false for an absent key. */
  predicate Holds(m: map<int, int>, key: int, value: int) {
    key in m && m[key] == value
  }

  // ---------------------------------------------------------------------------
  // One reading (lines 178-205)
  // ---------------------------------------------------------------------------

  /** The date a reading is kept under: the current time when its report date was already seen, else its own. */
  function DateUsed(s: Store, r: InverterReading, now: int): int {
    if Holds(s.lastReportDate, r.serialNumber, r.lastReportDate) then now else r.lastReportDate
  }

  /** The body of the loop of `add_results_to_database` for the reading `i`. */
  function ProcessReading(s: Store, r: InverterReading, now: int, i: nat, insert: (nat, int, int, int) -> int): Step {
    var serial, watts := r.serialNumber, r.lastReportWatts;
    if r.devType != InverterDevType then Step(s, Skipped)
    else if Holds(s.lastReportDate, serial, r.lastReportDate) && Holds(s.production, serial, watts) then Step(s, Resent)
    else
      var date := DateUsed(s, r, now);
      if Holds(s.production, serial, watts) then
        Step(s.(lastReportDate := s.lastReportDate[serial := date]), Unchanged)
      else if insert(i, date, serial, watts) == 1 then
        Step(Store(s.lastReportDate[serial := date], s.production[serial := watts]), Inserted(StoredRow(date, serial, watts)))
      else
        Step(s, NotInserted)
  }

  /**
   * The decision rules: a reading of another device type changes nothing; a repeated
   * date with the stored watts is a resend and changes nothing; a repeated date with new
   * watts is stored under the supplied current time; stored watts with a new date is
   * unchanged and only the date moves; otherwise the reading is offered to the database
   * and both dictionaries move exactly when it reports one row.
   */
  lemma ProcessRules(s: Store, r: InverterReading, now: int, i: nat, insert: (nat, int, int, int) -> int)
    ensures var step := ProcessReading(s, r, now, i, insert);
      var serial, watts := r.serialNumber, r.lastReportWatts;
      && (r.devType != InverterDevType ==> step == Step(s, Skipped))
      && (r.devType == InverterDevType && Holds(s.lastReportDate, serial, r.lastReportDate) && Holds(s.production, serial, watts) ==>
            step == Step(s, Resent))
      && (r.devType == InverterDevType && Holds(s.lastReportDate, serial, r.lastReportDate) && !Holds(s.production, serial, watts) ==>
            step.outcome in {Inserted(StoredRow(now, serial, watts)), NotInserted})
      && (r.devType == InverterDevType && !Holds(s.lastReportDate, serial, r.lastReportDate) && Holds(s.production, serial, watts) ==>
            step.outcome == Unchanged && step.store.production == s.production &&
            step.store.lastReportDate == s.lastReportDate[serial := r.lastReportDate])
      && (step.outcome.Inserted? <==>
            r.devType == InverterDevType && !Holds(s.production, serial, watts) && insert(i, DateUsed(s, r, now), serial, watts) == 1)
      && (step.outcome.Inserted? ==>
            var date := DateUsed(s, r, now);
            step.outcome.row == StoredRow(date, serial, watts) &&
            step.store == Store(s.lastReportDate[serial := date], s.production[serial := watts]))
      && (step.outcome in {Skipped, Resent, NotInserted} ==> step.store == s)
  {
  }

  /** Only the reading's own serial can change in either dictionary, and keys are never removed. */
  lemma ProcessIsolation(s: Store, r: InverterReading, now: int, i: nat, insert: (nat, int, int, int) -> int)
    ensures var t := ProcessReading(s, r, now, i, insert).store;
      && s.lastReportDate.Keys <= t.lastReportDate.Keys <= s.lastReportDate.Keys + {r.serialNumber}
      && s.production.Keys <= t.production.Keys <= s.production.Keys + {r.serialNumber}
      && (forall k :: k != r.serialNumber && k in s.lastReportDate ==> t.lastReportDate[k] == s.lastReportDate[k])
      && (forall k :: k != r.serialNumber && k in s.production ==> t.production[k] == s.production[k])
  {
  }

  // ---------------------------------------------------------------------------
  // A poll (lines 153-207)
  // ---------------------------------------------------------------------------

  function CountOutcome(c: Counts, o: Outcome): Counts {
    match o
    case Inserted(_) => c.(rows := c.rows + 1)
    case Resent => c.(resends := c.resends + 1)
    case Unchanged => c.(unchangedReadings := c.unchangedReadings + 1)
    case _ => c
  }

  /**
   * The readings processed in order: the final dictionaries, the three counters and the
   * rows the database reported stored. Each reading adds to at most one counter, so the
   * counters sum to at most the number of readings; the rows counter is the log's length.
   */
  function RunBatch(s: Store, rs: seq<InverterReading>, clock: nat -> int, insert: (nat, int, int, int) -> int): (b: Batch)
    ensures b.counts.rows == |b.log|
    ensures b.counts.resends >= 0 && b.counts.unchangedReadings >= 0
    ensures b.counts.rows + b.counts.resends + b.counts.unchangedReadings <= |rs|
  {
    if rs == [] then Batch(s, Counts(0, 0, 0), [])
    else
      var n := |rs|;
      var b := RunBatch(s, rs[..n - 1], clock, insert);
      var step := ProcessReading(b.store, rs[n - 1], clock(n - 1), n - 1, insert);
      Batch(step.store, CountOutcome(b.counts, step.outcome), b.log + if step.outcome.Inserted? then [step.outcome.row] else [])
  }

  /** A serial that no reading of the poll carries keeps both its entries. */
  lemma {:induction false} BatchIsolation(s: Store, rs: seq<InverterReading>, clock: nat -> int, insert: (nat, int, int, int) -> int, k: int)
    requires forall j :: 0 <= j < |rs| ==> rs[j].serialNumber != k
    ensures var t := RunBatch(s, rs, clock, insert).store;
      && (k in t.lastReportDate <==> k in s.lastReportDate) && (k in t.production <==> k in s.production)
      && (k in s.lastReportDate ==> t.lastReportDate[k] == s.lastReportDate[k])
      && (k in s.production ==> t.production[k] == s.production[k])
  {
    if rs != [] {
      var n := |rs|;
      BatchIsolation(s, rs[..n - 1], clock, insert, k);
      var b := RunBatch(s, rs[..n - 1], clock, insert);
      ProcessIsolation(b.store, rs[n - 1], clock(n - 1), n - 1, insert);
    }
  }

  /** The last watts stored for a serial: its newest row in the log, else the value the poll started with. */
  function LastWatts(initial: map<int, int>, log: seq<StoredRow>, serial: int): Option<int> {
    if log == [] then (if serial in initial then Some(initial[serial]) else None)
    else if log[|log| - 1].serialNumber == serial then Some(log[|log| - 1].watts)
    else LastWatts(initial, log[..|log| - 1], serial)
  }

  /** Appending a row makes it the newest of its serial and leaves the other serials' newest rows. */
  lemma LastWattsAppend(initial: map<int, int>, log: seq<StoredRow>, row: StoredRow, k: int)
    ensures LastWatts(initial, log + [row], k) == if k == row.serialNumber then Some(row.watts) else LastWatts(initial, log, k)
  {
    assert (log + [row])[..|log|] == log;
  }

  /** For every serial, the production dictionary holds the watts of its newest stored row. */
  ghost predicate ProductionMatchesLog(initial: map<int, int>, b: Batch) {
    forall k :: (k in b.store.production <==> LastWatts(initial, b.log, k).Some?) &&
      (k in b.store.production ==> LastWatts(initial, b.log, k) == Some(b.store.production[k]))
  }

  /** The production dictionary always holds, for every serial, the watts of its newest stored row. */
  lemma {:induction false} ProductionTracksLog(s: Store, rs: seq<InverterReading>, clock: nat -> int, insert: (nat, int, int, int) -> int)
    ensures ProductionMatchesLog(s.production, RunBatch(s, rs, clock, insert))
  {
    if rs != [] {
      var n := |rs|;
      ProductionTracksLog(s, rs[..n - 1], clock, insert);
      var b := RunBatch(s, rs[..n - 1], clock, insert);
      var step := ProcessReading(b.store, rs[n - 1], clock(n - 1), n - 1, insert);
      assert RunBatch(s, rs, clock, insert) ==
        Batch(step.store, CountOutcome(b.counts, step.outcome), b.log + if step.outcome.Inserted? then [step.outcome.row] else []);
      ProcessRules(b.store, rs[n - 1], clock(n - 1), n - 1, insert);
      if step.outcome.Inserted? {
        var row := step.outcome.row;
        forall k {
          LastWattsAppend(s.production, b.log, row, k);
        }
      } else {
        assert b.log + [] == b.log;
      }
    }
  }

  /** The newest stored row of a serial before the row `j` differs from it in watts. */
  predicate ChangesWatts(initial: map<int, int>, log: seq<StoredRow>, j: int)
    requires 0 <= j < |log|
  {
    LastWatts(initial, log[..j], log[j].serialNumber) != Some(log[j].watts)
  }

  predicate ChangeOnly(initial: map<int, int>, log: seq<StoredRow>) {
    forall j :: 0 <= j < |log| ==> ChangesWatts(initial, log, j)
  }

  /**
   * Change-only storage: every row stored carries watts different from the previous
   * stored watts of its serial (from this poll's earlier rows, or from before the poll),
   * so two consecutive stored rows of a serial never repeat a value.
   */
  lemma {:induction false} NoRepeatedWatts(s: Store, rs: seq<InverterReading>, clock: nat -> int, insert: (nat, int, int, int) -> int)
    ensures ChangeOnly(s.production, RunBatch(s, rs, clock, insert).log)
  {
    if rs != [] {
      var n := |rs|;
      NoRepeatedWatts(s, rs[..n - 1], clock, insert);
      ProductionTracksLog(s, rs[..n - 1], clock, insert);
      var b := RunBatch(s, rs[..n - 1], clock, insert);
      var step := ProcessReading(b.store, rs[n - 1], clock(n - 1), n - 1, insert);
      assert RunBatch(s, rs, clock, insert) ==
        Batch(step.store, CountOutcome(b.counts, step.outcome), b.log + if step.outcome.Inserted? then [step.outcome.row] else []);
      ProcessRules(b.store, rs[n - 1], clock(n - 1), n - 1, insert);
      if step.outcome.Inserted? {
        var log := b.log + [step.outcome.row];
        forall j | 0 <= j < |log|
          ensures ChangesWatts(s.production, log, j)
        {
          if j < |b.log| {
            assert log[..j] == b.log[..j] && log[j] == b.log[j];
            assert ChangesWatts(s.production, b.log, j);
          } else {
            assert log[..j] == b.log;
          }
        }
      } else {
        assert b.log + [] == b.log;
      }
    }
  }

  // ---------------------------------------------------------------------------
  // Placeholder rewriting (line 128)
  // ---------------------------------------------------------------------------

  /** The insert statement up to its first placeholder. */
  const InsertHead: string := "INSERT INTO `APIV1ProductionInverters` " + "(`LastReportDate`, `SerialNumber`, `Watts`) " + "VALUES ("

  /** The insert statement with SQLite's `?` placeholders (lines 111-115). */
  const AddInverterReadingSql: string := InsertHead + "?" + ", " + "?" + ", " + "?" + ") "

  /** `str.replace(c, p)` for a one-character pattern: every occurrence of `c` becomes `p`. */
  function ReplaceAll(s: string, c: char, p: string): (r: string)
    ensures c !in p ==> c !in r
    ensures c !in s ==> r == s
  {
    if s == [] then []
    else (if s[0] == c then p else [s[0]]) + ReplaceAll(s[1..], c, p)
  }

  function Occurrences(s: string, c: char): nat {
    if s == [] then 0 else (if s[0] == c then 1 else 0) + Occurrences(s[1..], c)
  }

  /** Replacing distributes over concatenation: each character is rewritten on its own. */
  lemma {:induction false} ReplaceAllAppend(a: string, b: string, c: char, p: string)
    ensures ReplaceAll(a + b, c, p) == ReplaceAll(a, c, p) + ReplaceAll(b, c, p)
  {
    if a != [] {
      var head := if a[0] == c then p else [a[0]];
      assert (a + b)[0] == a[0] && (a + b)[1..] == a[1..] + b;
      assert ReplaceAll(a + b, c, p) == head + ReplaceAll(a[1..] + b, c, p);
      ReplaceAllAppend(a[1..], b, c, p);
      assert ReplaceAll(a, c, p) == head + ReplaceAll(a[1..], c, p);
    } else {
      assert a + b == b;
    }
  }

  /** Each occurrence grows into the placeholder and every other character stays: the length law. */
  lemma {:induction false} ReplaceAllLength(s: string, c: char, p: string)
    ensures |ReplaceAll(s, c, p)| == |s| + Occurrences(s, c) * (|p| - 1)
  {
    if s != [] {
      ReplaceAllLength(s[1..], c, p);
      var head := if s[0] == c then p else [s[0]];
      var o, rest, k := if s[0] == c then 1 else 0, Occurrences(s[1..], c), |p| - 1;
      assert |head| == 1 + o * k;
      assert |ReplaceAll(s, c, p)| == |head| + |ReplaceAll(s[1..], c, p)|;
      Distribute(o, rest, k);
    }
  }

  lemma Distribute(a: int, b: int, k: int)
    ensures (a + b) * k == a * k + b * k
  {
  }

  /** The MySQL form of the statement: exactly the three placeholders become `%s`. */
  lemma MySqlStatement()
    ensures ReplaceAll(AddInverterReadingSql, '?', "%s") == InsertHead + "%s" + ", " + "%s" + ", " + "%s" + ") "
  {
    var h1, h2, h3 := "INSERT INTO `APIV1ProductionInverters` ", "(`LastReportDate`, `SerialNumber`, `Watts`) ", "VALUES (";
    assert '?' !in h1 && '?' !in h2 && '?' !in h3;
    assert '?' !in InsertHead;
    ReplacePlaceholders(InsertHead, ", ", ") ", '?', "%s");
  }

  /** Rewriting a statement whose only pattern characters are its three placeholders. */
  lemma ReplacePlaceholders(head: string, sep: string, tail: string, c: char, p: string)
    requires c !in head && c !in sep && c !in tail
    ensures ReplaceAll(head + [c] + sep + [c] + sep + [c] + tail, c, p) == head + p + sep + p + sep + p + tail
  {
    var q := [c];
    assert ReplaceAll(q, c, p) == p + ReplaceAll([], c, p) == p;
    ReplaceAllAppend(head + q + sep + q + sep + q, tail, c, p);
    ReplaceAllAppend(head + q + sep + q + sep, q, c, p);
    ReplaceAllAppend(head + q + sep + q, sep, c, p);
    ReplaceAllAppend(head + q + sep, q, c, p);
    ReplaceAllAppend(head + q, sep, c, p);
    ReplaceAllAppend(head, q, c, p);
  }

  // ---------------------------------------------------------------------------
  // The module-level state
  // ---------------------------------------------------------------------------

  /** The globals the capture updates in place: the insert statement and the two dictionaries. */
  class CaptureState {
    var addInverterReading: string
    var invertersLastReportDate: map<int, int>
    var invertersProduction: map<int, int>

    function Contents(): Store
      reads this
    {
      Store(invertersLastReportDate, invertersProduction)
    }

    /** The state at import: the SQLite statement and empty dictionaries. */
    constructor ()
      ensures addInverterReading == AddInverterReadingSql
      ensures invertersLastReportDate == map[] && invertersProduction == map[]
    {
      addInverterReading := AddInverterReadingSql;
      invertersLastReportDate := map[];
      invertersProduction := map[];
    }

    /** `update_bind_placeholders`: every `?` of the statement becomes the placeholder; the dictionaries stay. */
    method UpdateBindPlaceholders(bindPlaceholder: string)
      modifies this
      ensures addInverterReading == ReplaceAll(old(addInverterReading), '?', bindPlaceholder)
      ensures Contents() == old(Contents())
    {
      addInverterReading := ReplaceAll(addInverterReading, '?', bindPlaceholder);
    }

    /**
     * `add_results_to_database`: processes the poll's readings in order and returns the
     * rows added, the resends and the unchanged readings.
     */
    method AddResultsToDatabase(jsonObject: seq<InverterReading>, clock: nat -> int, insert: (nat, int, int, int) -> int)
      returns (inverterReadingRowcount: int, inverterReadingResendCount: int, inverterReadingUnchangedCount: int)
      modifies this
      ensures var b := RunBatch(old(Contents()), jsonObject, clock, insert);
        && Contents() == b.store
        && Counts(inverterReadingRowcount, inverterReadingResendCount, inverterReadingUnchangedCount) == b.counts
      ensures addInverterReading == old(addInverterReading)
    {
      ghost var initial := Contents();
      inverterReadingRowcount, inverterReadingResendCount, inverterReadingUnchangedCount := 0, 0, 0;
      var i := 0;
      while i < |jsonObject|
        invariant 0 <= i <= |jsonObject|
        invariant addInverterReading == old(addInverterReading)
        invariant var b := RunBatch(initial, jsonObject[..i], clock, insert);
          && Contents() == b.store
          && Counts(inverterReadingRowcount, inverterReadingResendCount, inverterReadingUnchangedCount) == b.counts
      {
        assert jsonObject[..i + 1][..i] == jsonObject[..i];
        var inverterReading := jsonObject[i];
        var serialNumber := inverterReading.serialNumber;
        var lastReportDate := inverterReading.lastReportDate;
        var devType := inverterReading.devType;
        var lastWatts := inverterReading.lastReportWatts;
        if devType != InverterDevType {
          i := i + 1;
          continue;
        }
        if Holds(invertersLastReportDate, serialNumber, lastReportDate) {
          if Holds(invertersProduction, serialNumber, lastWatts) {
            inverterReadingResendCount := inverterReadingResendCount + 1;
            i := i + 1;
            continue;
          }
          lastReportDate := clock(i);
        }
        if Holds(invertersProduction, serialNumber, lastWatts) {
          inverterReadingUnchangedCount := inverterReadingUnchangedCount + 1;
          invertersLastReportDate := invertersLastReportDate[serialNumber := lastReportDate];
        } else {
          if insert(i, lastReportDate, serialNumber, lastWatts) == 1 {
            inverterReadingRowcount := inverterReadingRowcount + 1;
            invertersProduction := invertersProduction[serialNumber := lastWatts];
            invertersLastReportDate := invertersLastReportDate[serialNumber := lastReportDate];
          }
        }
        i := i + 1;
      }
      assert jsonObject[..i] == jsonObject;
    }
  }
}
