/** The polling side of the syscall histograms (internal/syscalls/aggregator.go). */
module SyscallAggregator {
  import opened Wrappers
  import opened U64
  import opened Histogram
  import OrderStatistics
  import opened SyscallKernel

  datatype Report = Report(
    key: Key, count: u64, deltaCount: u64,
    p50: nat, p90: nat, p99: nat, minNs: nat, maxNs: nat, lastInterval: int)

  const P50: real := 0.5
  const P90: real := 0.9
  const P99: real := 0.99

  /** The sum of the per-bucket differences; none before a later poll. */
  function DeltaOf(cur: Buckets, prev: Buckets, elapsed: int): u64
  {
    if elapsed > 0 then Below(SubBucketsOf(cur, prev), HIST_BUCKETS) % SIZE else 0
  }

  /** The histogram the percentiles are read from: the interval's, or the whole one when that is empty. */
  function ChosenOf(cur: Buckets, prev: Buckets, elapsed: int): Buckets
  {
    if DeltaOf(cur, prev, elapsed) > 0 then SubBucketsOf(cur, prev) else cur
  }

  function ReportOf(key: Key, cur: Buckets, prev: Buckets, elapsed: int, round: Rounding): Report
  {
    var hist := ChosenOf(cur, prev, elapsed);
    Report(key, Below(cur, HIST_BUCKETS) % SIZE, DeltaOf(cur, prev, elapsed),
           PercentileOf(hist, P50, round), PercentileOf(hist, P90, round), PercentileOf(hist, P99, round),
           MinNsOf(hist), MaxNsOf(hist), elapsed)
  }

  /** The figures of a report are in order, if rounding is monotone and the histogram does not overflow. */
  lemma {:induction false} ReportIsOrdered(key: Key, cur: Buckets, prev: Buckets, elapsed: int, round: Rounding)
    requires OrderStatistics.Monotone(round) && Below(ChosenOf(cur, prev, elapsed), HIST_BUCKETS) < SIZE
    ensures var r, h := ReportOf(key, cur, prev, elapsed, round), ChosenOf(cur, prev, elapsed);
            && r.minNs <= r.p50 <= r.p90 <= r.p99
            && (Below(h, HIST_BUCKETS) > 0 && h[HIST_BUCKETS - 1] == 0 ==> r.p99 < r.maxNs)
  {
    var h := ChosenOf(cur, prev, elapsed);
    OrderStatistics.PercentileWithin(h, P50, round);
    OrderStatistics.PercentilesOrdered(h, P50, P90, round);
    OrderStatistics.PercentilesOrdered(h, P90, P99, round);
    OrderStatistics.PercentileWithin(h, P99, round);
  }

  method BuildRecord(key: Key, cur: Buckets, prev: Buckets, elapsed: int, round: Rounding) returns (rec: Report)
    ensures rec == ReportOf(key, cur, prev, elapsed, round)
  {
    var total := Total(cur);
    var hist, delta := cur, 0;
    if elapsed > 0 {
      var d := SubBuckets(cur, prev);
      delta := Total(d);
      if delta > 0 {
        hist := d;
      }
    }
    var p50 := Percentile(hist, P50, round);
    var p90 := Percentile(hist, P90, round);
    var p99 := Percentile(hist, P99, round);
    var lowest := MinNs(hist);
    var highest := MaxNs(hist);
    rec := Report(key, total, delta, p50, p90, p99, lowest, highest, elapsed);
  }

  /** A key that was not in the previous snapshot reads as the zero value. */
  function PrevOf(prev: map<Key, Buckets>, key: Key): Buckets
  {
    if key in prev then prev[key] else Empty()
  }

  function ReportsOf(cur: map<Key, Buckets>, prev: map<Key, Buckets>, elapsed: int, round: Rounding): map<Key, Report>
  {
    map key | key in cur :: ReportOf(key, cur[key], PrevOf(prev, key), elapsed, round)
  }

  function ElapsedOf(prevTime: Option<int>, now: int): int
  {
    if prevTime.Some? then now - prevTime.value else 0
  }

  /** The list holds exactly the reports of the map, in any order. */
  ghost predicate Lists(records: seq<Report>, reports: map<Key, Report>)
  {
    && |records| == |reports|
    && (forall key :: key in reports ==> reports[key] in records)
    && (forall r :: r in records ==> r.key in reports && reports[r.key] == r)
  }

  /** The report of a key that is in the snapshot. */
  ghost predicate IsReport(report: Report, key: Key, current: map<Key, Buckets>, prev: map<Key, Buckets>,
          elapsed: int, round: Rounding)
  {
    key in current && report == ReportOf(key, current[key], PrevOf(prev, key), elapsed, round)
  }

  ghost predicate AreReports(reports: map<Key, Report>, current: map<Key, Buckets>, prev: map<Key, Buckets>,
          elapsed: int, round: Rounding)
  {
    && reports.Keys == current.Keys
    && (forall key {:trigger IsReport(reports[key], key, current, prev, elapsed, round)} :: key in reports ==>
          IsReport(reports[key], key, current, prev, elapsed, round))
  }

  lemma ReportsAre(current: map<Key, Buckets>, prev: map<Key, Buckets>, elapsed: int, round: Rounding)
    ensures AreReports(ReportsOf(current, prev, elapsed, round), current, prev, elapsed, round)
  {
  }

  method BuildFor(key: Key, current: map<Key, Buckets>, prev: map<Key, Buckets>, elapsed: int, round: Rounding,
          ghost report: Report)
    returns (rec: Report)
    requires IsReport(report, key, current, prev, elapsed, round)
    ensures rec == report && rec.key == key
  {
    rec := BuildRecord(key, current[key], PrevOf(prev, key), elapsed, round);
  }

  /** The loop over the snapshot, in whatever order the map yields its keys. */
  method BuildRecords(current: map<Key, Buckets>, prev: map<Key, Buckets>, elapsed: int, round: Rounding,
                      ghost reports: map<Key, Report>)
    returns (records: seq<Report>)
    requires AreReports(reports, current, prev, elapsed, round)
    ensures Lists(records, reports)
  {
    records := [];
    var todo := current.Keys;
    while todo != {}
      invariant todo <= current.Keys
      invariant |records| + |todo| == |current.Keys|
      invariant forall key :: key in current.Keys - todo ==> reports[key] in records
      invariant forall r :: r in records ==> r.key in reports && reports[r.key] == r
    {
      var key :| key in todo;
      assert IsReport(reports[key], key, current, prev, elapsed, round);
      var rec := BuildFor(key, current, prev, elapsed, round, reports[key]);
      records := records + [rec];
      todo := todo - {key};
    }
    assert |reports| == |reports.Keys|;
  }

  method BuildAll(current: map<Key, Buckets>, prev: map<Key, Buckets>, elapsed: int,
          round: Rounding) returns (records: seq<Report>)
    ensures Lists(records, ReportsOf(current, prev, elapsed, round))
  {
    ReportsAre(current, prev, elapsed, round);
    records := BuildRecords(current, prev, elapsed, round, ReportsOf(current, prev, elapsed, round));
  }

  /** What reading the BPF map yields. */
  datatype Snapshot = ReadError | Snapshot(entries: map<Key, Buckets>)

  class Aggregator {
    var prev: map<Key, Buckets>
    var prevTime: Option<int>

    constructor ()
      ensures prev == map[] && prevTime == None
    {
      prev, prevTime := map[], None;
    }

    method Poll(now: int, snapshot: Snapshot, round: Rounding) returns (records: Option<seq<Report>>)
      modifies this
      ensures snapshot.ReadError? ==> records == None && prev == old(prev) && prevTime == old(prevTime)
      ensures snapshot.Snapshot? ==> records.Some? && prev == snapshot.entries && prevTime == Some(now)
      ensures snapshot.Snapshot? ==>
        Lists(records.value, ReportsOf(snapshot.entries, old(prev), ElapsedOf(old(prevTime), now), round))
    {
      if snapshot.ReadError? {
        return None;
      }
      var current := snapshot.entries;
      var elapsed := 0;
      if prevTime.Some? {
        elapsed := now - prevTime.value;
      }
      var list := BuildAll(current, prev, elapsed, round);
      prev := current;
      prevTime := Some(now);
      return Some(list);
    }
  }
}
