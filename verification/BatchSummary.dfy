/** What compacting a batch computes: per-metric summaries of the raw events of its window, over the reals. */
module BatchSummary {
  import opened Sequences
  import opened BatchLifecycle

  type MetricId = int

  datatype RawEvent = RawEvent(device: DeviceId, metric: MetricId, value: real, time: int)

  datatype Summary = Summary(
    batch: BatchId, device: DeviceId, metric: MetricId, start: int, end: int,
    minValue: real, maxValue: real, avgValue: real, sumValue: real, eventCount: int)

  /** The unique key of the summaries table. */
  datatype SummaryKey = SummaryKey(batch: BatchId, device: DeviceId, metric: MetricId)

  // ---- Reading a window ----

  function InWindow(device: DeviceId, start: int, end: int): RawEvent -> bool {
    (e: RawEvent) => e.device == device && start <= e.time < end
  }

  function ByTime(): RawEvent -> int {
    (e: RawEvent) => e.time
  }

  function ReadRawEvents(telemetry: seq<RawEvent>, device: DeviceId, start: int, end: int): seq<RawEvent> {
    SortBy(Filter(telemetry, InWindow(device, start, end)), ByTime())
  }

  // ---- Summarising ----

  function ValuesOf(events: seq<RawEvent>, m: MetricId): seq<real> {
    if events == [] then []
    else
      var e := events[|events| - 1];
      ValuesOf(events[..|events| - 1], m) + if e.metric == m then [e.value] else []
  }

  function Sum(vals: seq<real>): real {
    if vals == [] then 0.0 else Sum(vals[..|vals| - 1]) + vals[|vals| - 1]
  }

  function Min(vals: seq<real>): real
    requires |vals| > 0
  {
    if |vals| == 1 then vals[0]
    else
      var rest := Min(vals[..|vals| - 1]);
      if vals[|vals| - 1] < rest then vals[|vals| - 1] else rest
  }

  function Max(vals: seq<real>): real
    requires |vals| > 0
  {
    if |vals| == 1 then vals[0]
    else
      var rest := Max(vals[..|vals| - 1]);
      if vals[|vals| - 1] > rest then vals[|vals| - 1] else rest
  }

  function Metrics(events: seq<RawEvent>): set<MetricId> {
    set e | e in events :: e.metric
  }

  function Summarise(id: BatchId, b: Batch, m: MetricId, vals: seq<real>): Summary
    requires |vals| > 0
  {
    Summary(id, b.device, m, b.start, b.end, Min(vals), Max(vals), Sum(vals) / |vals| as real, Sum(vals), |vals|)
  }

  lemma {:induction false} ValuesOfMetrics(events: seq<RawEvent>, m: MetricId)
    ensures |ValuesOf(events, m)| > 0 <==> m in Metrics(events)
  {
    if events != [] {
      var k := |events| - 1;
      assert events == events[..k] + [events[k]];
      ValuesOfMetrics(events[..k], m);
      assert m in Metrics(events[..k]) ==> m in Metrics(events);
      if m in Metrics(events) && events[k].metric != m {
        var e :| e in events && e.metric == m;
        assert e in events[..k];
      }
    }
  }

  /** The summaries of a batch, one for each metric that occurs. */
  ghost function SummariesOf(id: BatchId, b: Batch, events: seq<RawEvent>): (s: map<SummaryKey, Summary>)
    ensures forall m :: SummaryKey(id, b.device, m) in s <==> m in Metrics(events)
  {
    map k: SummaryKey | k in KeysOf(id, b.device, Metrics(events)) ::
      (ValuesOfMetrics(events, k.metric); Summarise(id, b, k.metric, ValuesOf(events, k.metric)))
  }

  function KeysOf(id: BatchId, device: DeviceId, metrics: set<MetricId>): (ks: set<SummaryKey>)
    ensures forall k :: k in ks <==> k.batch == id && k.device == device && k.metric in metrics
  {
    set m | m in metrics :: SummaryKey(id, device, m)
  }

  // ---- Bounds ----

  lemma {:induction false} LowerBoundStep(lo: real, lo0: real, x: real, n: real, sum0: real)
    requires lo <= lo0 && lo <= x && n >= 0.0 && lo0 * n <= sum0
    ensures lo * (n + 1.0) <= sum0 + x
  {
    assert lo * n <= lo0 * n;
    assert lo * (n + 1.0) == lo * n + lo;
  }

  lemma {:induction false} UpperBoundStep(hi: real, hi0: real, x: real, n: real, sum0: real)
    requires hi >= hi0 && hi >= x && n >= 0.0 && hi0 * n >= sum0
    ensures hi * (n + 1.0) >= sum0 + x
  {
    assert hi * n >= hi0 * n;
    assert hi * (n + 1.0) == hi * n + hi;
  }

  lemma {:induction false} MinMaxAreAttained(vals: seq<real>)
    requires |vals| > 0
    ensures Min(vals) in vals && Max(vals) in vals
    ensures forall v :: v in vals ==> Min(vals) <= v <= Max(vals)
  {
    var k := |vals| - 1;
    assert vals == vals[..k] + [vals[k]];
    if k > 0 {
      MinMaxAreAttained(vals[..k]);
    }
  }

  lemma {:induction false} MinBoundsSum(vals: seq<real>)
    requires |vals| > 0
    ensures Min(vals) * |vals| as real <= Sum(vals)
  {
    var k := |vals| - 1;
    var x := vals[k];
    if k > 0 {
      MinBoundsSum(vals[..k]);
      LowerBoundStep(Min(vals), Min(vals[..k]), x, k as real, Sum(vals[..k]));
      assert |vals| as real == k as real + 1.0;
    } else {
      assert Sum(vals[..0]) == 0.0 && |vals| as real == 1.0;
    }
  }

  lemma {:induction false} MaxBoundsSum(vals: seq<real>)
    requires |vals| > 0
    ensures Sum(vals) <= Max(vals) * |vals| as real
  {
    var k := |vals| - 1;
    var x := vals[k];
    if k > 0 {
      MaxBoundsSum(vals[..k]);
      UpperBoundStep(Max(vals), Max(vals[..k]), x, k as real, Sum(vals[..k]));
      assert |vals| as real == k as real + 1.0;
    } else {
      assert Sum(vals[..0]) == 0.0 && |vals| as real == 1.0;
    }
  }

  /** A summary's average lies between its minimum and its maximum, which are attained and bound every value. */
  lemma {:induction false} SummaryIsBounded(id: BatchId, b: Batch, m: MetricId, vals: seq<real>)
    requires |vals| > 0
    ensures var s := Summarise(id, b, m, vals);
            && s.minValue <= s.avgValue <= s.maxValue
            && s.avgValue * s.eventCount as real == s.sumValue
            && s.minValue in vals && s.maxValue in vals
            && forall v :: v in vals ==> s.minValue <= v <= s.maxValue
  {
    MinMaxAreAttained(vals);
    MinBoundsSum(vals);
    MaxBoundsSum(vals);
    var n := |vals| as real;
    DivideBound(Min(vals), Sum(vals), n);
    DivideBound(-Max(vals), -Sum(vals), n);
    assert -Sum(vals) / n == -(Sum(vals) / n);
  }

  lemma {:induction false} DivideBound(lo: real, sum: real, n: real)
    requires n > 0.0 && lo * n <= sum
    ensures lo <= sum / n
  {
    var q := sum / n;
    assert q * n == sum;
    if q < lo {
      assert q * n < lo * n;
    }
  }

  // ---- The summaries partition the events ----

  function CountOver(events: seq<RawEvent>, metrics: seq<MetricId>): int {
    if metrics == [] then 0 else |ValuesOf(events, metrics[0])| + CountOver(events, metrics[1..])
  }

  function SumOver(events: seq<RawEvent>, metrics: seq<MetricId>): real {
    if metrics == [] then 0.0 else Sum(ValuesOf(events, metrics[0])) + SumOver(events, metrics[1..])
  }

  function TotalValue(events: seq<RawEvent>): real {
    if events == [] then 0.0 else TotalValue(events[..|events| - 1]) + events[|events| - 1].value
  }

  /** One more event adds one, and its value, to exactly one metric. */
  lemma {:induction false} OneMoreEvent(events: seq<RawEvent>, metrics: seq<MetricId>)
    requires |events| > 0 && NoDuplicates(metrics)
    ensures var e, before := events[|events| - 1], events[..|events| - 1];
            && CountOver(events, metrics) == CountOver(before, metrics) + (if e.metric in metrics then 1 else 0)
            && SumOver(events, metrics) == SumOver(before, metrics) + (if e.metric in metrics then e.value else 0.0)
  {
    if metrics != [] {
      var e, before := events[|events| - 1], events[..|events| - 1];
      assert metrics == [metrics[0]] + metrics[1..];
      OneMoreEvent(events, metrics[1..]);
      if e.metric == metrics[0] {
        assert e.metric !in metrics[1..];
        var v := ValuesOf(events, metrics[0]);
        assert v[..|v| - 1] == ValuesOf(before, metrics[0]) && v[|v| - 1] == e.value;
      } else {
        assert ValuesOf(before, metrics[0]) + [] == ValuesOf(before, metrics[0]);
      }
    }
  }

  /** Over the metrics that occur, in any order, counts add up to the events and sums to their total. */
  lemma {:induction false} SummariesPartitionEvents(events: seq<RawEvent>, metrics: seq<MetricId>)
    requires NoDuplicates(metrics) && forall e :: e in events ==> e.metric in metrics
    ensures CountOver(events, metrics) == |events|
    ensures SumOver(events, metrics) == TotalValue(events)
  {
    if events == [] {
      NothingToCount(metrics);
    } else {
      OneMoreEvent(events, metrics);
      SummariesPartitionEvents(events[..|events| - 1], metrics);
    }
  }

  lemma {:induction false} NothingToCount(metrics: seq<MetricId>)
    ensures CountOver([], metrics) == 0 && SumOver([], metrics) == 0.0
  {
    if metrics != [] {
      NothingToCount(metrics[1..]);
    }
  }

  // ---- Counts and sums do not depend on how the database orders equal times, and add up over windows ----

  /** Count and sum of one metric in a window, straight from the table. */
  function WindowCount(telemetry: seq<RawEvent>, device: DeviceId, m: MetricId, start: int, end: int): int {
    if telemetry == [] then 0
    else
      (if InWindow(device, start, end)(telemetry[0]) && telemetry[0].metric == m then 1 else 0)
      + WindowCount(telemetry[1..], device, m, start, end)
  }

  function WindowSum(telemetry: seq<RawEvent>, device: DeviceId, m: MetricId, start: int, end: int): real {
    if telemetry == [] then 0.0
    else
      (if InWindow(device, start, end)(telemetry[0]) && telemetry[0].metric == m then telemetry[0].value else 0.0)
      + WindowSum(telemetry[1..], device, m, start, end)
  }

  lemma {:induction false} ValuesOfConcat(a: seq<RawEvent>, b: seq<RawEvent>, m: MetricId)
    ensures ValuesOf(a + b, m) == ValuesOf(a, m) + ValuesOf(b, m)
  {
    if b == [] {
      assert a + b == a;
    } else {
      var k := |b| - 1;
      assert (a + b)[..|a + b| - 1] == a + b[..k];
      ValuesOfConcat(a, b[..k], m);
    }
  }

  lemma {:induction false} SumConcat(a: seq<real>, b: seq<real>)
    ensures Sum(a + b) == Sum(a) + Sum(b)
  {
    if b == [] {
      assert a + b == a;
    } else {
      assert (a + b)[..|a + b| - 1] == a + b[..|b| - 1];
      SumConcat(a, b[..|b| - 1]);
    }
  }

  lemma {:induction false} InsertAddsOne(e: RawEvent, sorted: seq<RawEvent>, m: MetricId)
    ensures |ValuesOf(InsertBy(e, sorted, ByTime()), m)| == |ValuesOf(sorted, m)| + if e.metric == m then 1 else 0
    ensures Sum(ValuesOf(InsertBy(e, sorted, ByTime()), m))
         == Sum(ValuesOf(sorted, m)) + if e.metric == m then e.value else 0.0
  {
    var one := ValuesOf([e], m);
    assert [e][..0] == [] && ValuesOf([e][..0], m) == [];
    assert one == if e.metric == m then [e.value] else [];
    if sorted == [] || e.time <= sorted[0].time {
      ValuesOfConcat([e], sorted, m);
      SumConcat(one, ValuesOf(sorted, m));
    } else {
      var head, tail := [sorted[0]], sorted[1..];
      assert sorted == head + tail;
      InsertAddsOne(e, tail, m);
      ValuesOfConcat(head, tail, m);
      ValuesOfConcat(head, InsertBy(e, tail, ByTime()), m);
      SumConcat(ValuesOf(head, m), ValuesOf(tail, m));
      SumConcat(ValuesOf(head, m), ValuesOf(InsertBy(e, tail, ByTime()), m));
    }
  }

  /** What doCompact counts and sums for a metric is what the table holds for that metric in the window. */
  lemma {:induction false} SummaryMatchesTable(
      telemetry: seq<RawEvent>, device: DeviceId, m: MetricId, start: int, end: int)
    ensures var vals := ValuesOf(ReadRawEvents(telemetry, device, start, end), m);
            && |vals| == WindowCount(telemetry, device, m, start, end)
            && Sum(vals) == WindowSum(telemetry, device, m, start, end)
  {
    if telemetry != [] {
      SummaryMatchesTable(telemetry[1..], device, m, start, end);
      var rest := Filter(telemetry[1..], InWindow(device, start, end));
      if InWindow(device, start, end)(telemetry[0]) {
        assert ([telemetry[0]] + rest)[1..] == rest;
        InsertAddsOne(telemetry[0], SortBy(rest, ByTime()), m);
        assert ReadRawEvents(telemetry, device, start, end) == InsertBy(telemetry[0], SortBy(rest, ByTime()), ByTime());
      } else {
        assert [] + rest == rest;
      }
    }
  }

  lemma {:induction false} AdjacentWindowsAdd(
      telemetry: seq<RawEvent>, device: DeviceId, m: MetricId, a: int, b: int, c: int)
    requires a <= b <= c
    ensures WindowCount(telemetry, device, m, a, c)
         == WindowCount(telemetry, device, m, a, b) + WindowCount(telemetry, device, m, b, c)
    ensures WindowSum(telemetry, device, m, a, c)
         == WindowSum(telemetry, device, m, a, b) + WindowSum(telemetry, device, m, b, c)
  {
    if telemetry != [] {
      AdjacentWindowsAdd(telemetry[1..], device, m, a, b, c);
    }
  }

  function BatchCount(telemetry: seq<RawEvent>, device: DeviceId, m: MetricId, start: int): int {
    |ValuesOf(ReadRawEvents(telemetry, device, start, start + BATCH_WINDOW_MS), m)|
  }

  function BatchSum(telemetry: seq<RawEvent>, device: DeviceId, m: MetricId, start: int): real {
    Sum(ValuesOf(ReadRawEvents(telemetry, device, start, start + BATCH_WINDOW_MS), m))
  }

  /** Counts and sums over n batches rotated one after the other. */
  function ChainCount(telemetry: seq<RawEvent>, device: DeviceId, m: MetricId, start: int, n: nat): int
    decreases n
  {
    if n == 0 then 0
    else BatchCount(telemetry, device, m, start) + ChainCount(telemetry, device, m, start + BATCH_WINDOW_MS, n - 1)
  }

  function ChainSum(telemetry: seq<RawEvent>, device: DeviceId, m: MetricId, start: int, n: nat): real
    decreases n
  {
    if n == 0 then 0.0
    else BatchSum(telemetry, device, m, start) + ChainSum(telemetry, device, m, start + BATCH_WINDOW_MS, n - 1)
  }

  lemma {:induction false} BatchMatchesWindow(
      telemetry: seq<RawEvent>, device: DeviceId, m: MetricId, start: int, end: int)
    requires start + BATCH_WINDOW_MS <= end
    ensures BatchCount(telemetry, device, m, start) + WindowCount(telemetry, device, m, start + BATCH_WINDOW_MS, end)
         == WindowCount(telemetry, device, m, start, end)
    ensures BatchSum(telemetry, device, m, start) + WindowSum(telemetry, device, m, start + BATCH_WINDOW_MS, end)
         == WindowSum(telemetry, device, m, start, end)
  {
    SummaryMatchesTable(telemetry, device, m, start, start + BATCH_WINDOW_MS);
    AdjacentWindowsAdd(telemetry, device, m, start, start + BATCH_WINDOW_MS, end);
  }

  lemma {:induction false} EmptyWindow(telemetry: seq<RawEvent>, device: DeviceId, m: MetricId, start: int)
    ensures WindowCount(telemetry, device, m, start, start) == 0 && WindowSum(telemetry, device, m, start, start) == 0.0
  {
    if telemetry != [] {
      EmptyWindow(telemetry[1..], device, m, start);
    }
  }

  /** A chain of rotated batches counts and sums every event of the interval it covers exactly once. */
  lemma {:induction false} ChainCoversInterval(
      telemetry: seq<RawEvent>, device: DeviceId, m: MetricId, start: int, n: nat)
    ensures ChainCount(telemetry, device, m, start, n)
         == WindowCount(telemetry, device, m, start, start + n * BATCH_WINDOW_MS)
    ensures ChainSum(telemetry, device, m, start, n)
         == WindowSum(telemetry, device, m, start, start + n * BATCH_WINDOW_MS)
    decreases n
  {
    hide WindowCount, WindowSum, BatchCount, BatchSum;
    if n == 0 {
      EmptyWindow(telemetry, device, m, start);
    } else {
      var next, end := start + BATCH_WINDOW_MS, start + n * BATCH_WINDOW_MS;
      assert next + (n - 1) * BATCH_WINDOW_MS == end;
      ChainCoversInterval(telemetry, device, m, next, n - 1);
      BatchMatchesWindow(telemetry, device, m, start, end);
    }
  }

  /** Batches each of which was rotated into the next. */
  ghost predicate RotatedChain(s: System, ids: seq<BatchId>) {
    && |ids| > 0
    && (forall id :: id in ids ==> id in s.table)
    && forall k :: 0 <= k < |ids| - 1 ==> ids[k] in s.rotated && s.rotated[ids[k]] == ids[k + 1]
  }

  /** What compacting each of them counts and sums for a metric. */
  function TableCount(table: map<BatchId, Batch>, ids: seq<BatchId>, telemetry: seq<RawEvent>, m: MetricId): int
    requires forall id :: id in ids ==> id in table
  {
    if ids == [] then 0
    else
      var b := table[ids[0]];
      |ValuesOf(ReadRawEvents(telemetry, b.device, b.start, b.end), m)| + TableCount(table, ids[1..], telemetry, m)
  }

  function TableSum(table: map<BatchId, Batch>, ids: seq<BatchId>, telemetry: seq<RawEvent>, m: MetricId): real
    requires forall id :: id in ids ==> id in table
  {
    if ids == [] then 0.0
    else
      var b := table[ids[0]];
      Sum(ValuesOf(ReadRawEvents(telemetry, b.device, b.start, b.end), m)) + TableSum(table, ids[1..], telemetry, m)
  }

  /** In any state of any run: the batches of a chain of rotations count and sum what lies from its start to its end. */
  lemma {:induction false} RotationsCoverInterval(
      lockOf: BatchId -> LockId, run: seq<System>, i: nat, ids: seq<BatchId>, telemetry: seq<RawEvent>, m: MetricId)
    requires IsRun(lockOf, run) && i < |run| && RotatedChain(run[i], ids)
    ensures var table := run[i].table;
            var first, last := table[ids[0]], table[ids[|ids| - 1]];
            && first.start < last.end && first.device == last.device
            && TableCount(table, ids, telemetry, m)
            == WindowCount(telemetry, first.device, m, first.start, last.end)
            && TableSum(table, ids, telemetry, m) == WindowSum(telemetry, first.device, m, first.start, last.end)
  {
    hide IsRun, WindowCount, WindowSum, ValuesOf, ReadRawEvents, Inv;
    var table := run[i].table;
    var first, last := table[ids[0]], table[ids[|ids| - 1]];
    WindowsAreForward(lockOf, run, i, ids[0]);
    SummaryMatchesTable(telemetry, first.device, m, first.start, first.end);
    if |ids| == 1 {
      assert ids[1..] == [];
    } else {
      RotationLeavesNoGap(lockOf, run, i, ids[0]);
      RotationsCoverInterval(lockOf, run, i, ids[1..], telemetry, m);
      AdjacentWindowsAdd(telemetry, first.device, m, first.start, first.end, last.end);
    }
  }

  lemma {:induction false} WindowsAreForward(lockOf: BatchId -> LockId, run: seq<System>, i: nat, id: BatchId)
    requires IsRun(lockOf, run) && i < |run| && id in run[i].table
    ensures run[i].table[id].start < run[i].table[id].end
  {
    RunsAreSafe(lockOf, run, i);
  }

  /** readRawEvents returns exactly the events of the device in [start, end), each as often as stored, in time order. */
  lemma {:induction false} ReadsTheWindow(telemetry: seq<RawEvent>, device: DeviceId, start: int, end: int)
    ensures var events := ReadRawEvents(telemetry, device, start, end);
            && (forall i, j :: 0 <= i < j < |events| ==> events[i].time <= events[j].time)
            && forall e: RawEvent :: multiset(events)[e] ==
                             if e.device == device && start <= e.time < end then multiset(telemetry)[e] else 0
  {
    var matching := Filter(telemetry, InWindow(device, start, end));
    SortByOrders(matching, ByTime());
    forall e: RawEvent
      ensures multiset(matching)[e] == if e.device == device && start <= e.time < end then multiset(telemetry)[e] else 0
    {
      FilterCounts(telemetry, InWindow(device, start, end), e);
    }
  }

  /** An event of this metric in a device's window. */
  predicate IsOf(e: RawEvent, device: DeviceId, m: MetricId, start: int, end: int) {
    e.device == device && e.metric == m && start <= e.time < end
  }

  lemma {:induction false} ValuesOfMembers(events: seq<RawEvent>, m: MetricId)
    ensures forall v :: v in ValuesOf(events, m) <==> exists e :: e in events && e.metric == m && e.value == v
  {
    if events != [] {
      var k := |events| - 1;
      assert events == events[..k] + [events[k]];
      ValuesOfMembers(events[..k], m);
      forall v ensures v in ValuesOf(events, m) <==> exists e :: e in events && e.metric == m && e.value == v {
        if v in ValuesOf(events[..k], m) {
          var e :| e in events[..k] && e.metric == m && e.value == v;
          assert e in events;
        }
        if e :| e in events && e.metric == m && e.value == v {
          assert e in events[..k] || e == events[k];
        }
        assert events[k] in events;
      }
    }
  }

  lemma {:induction false} ReadMembers(telemetry: seq<RawEvent>, device: DeviceId, start: int, end: int)
    ensures forall e :: e in ReadRawEvents(telemetry, device, start, end) <==>
              e in telemetry && e.device == device && start <= e.time < end
  {
    var read := ReadRawEvents(telemetry, device, start, end);
    ReadsTheWindow(telemetry, device, start, end);
    forall e: RawEvent
      ensures e in read <==> e in telemetry && e.device == device && start <= e.time < end
    {
      assert e in read <==> multiset(read)[e] > 0;
      assert e in telemetry <==> multiset(telemetry)[e] > 0;
    }
  }

  /**
   * What compacting a batch stores, told by the table: one summary for each metric with an event in the batch's
   * window, under the batch, its device and the metric, for that window; its count and sum are those of these events,
   * its average is sum over count, and its minimum and maximum are the least and the greatest of their values.
   */
  lemma {:induction false} SummariesTellTheTable(telemetry: seq<RawEvent>, id: BatchId, b: Batch, k: SummaryKey)
    ensures var all := SummariesOf(id, b, ReadRawEvents(telemetry, b.device, b.start, b.end));
            && (k in all <==>
                 && k.batch == id && k.device == b.device
                 && exists e :: e in telemetry && IsOf(e, b.device, k.metric, b.start, b.end))
            && (k in all ==>
                 var s := all[k];
                 && SummaryKey(s.batch, s.device, s.metric) == k && s.start == b.start && s.end == b.end
                 && s.eventCount == WindowCount(telemetry, b.device, k.metric, b.start, b.end)
                 && s.sumValue == WindowSum(telemetry, b.device, k.metric, b.start, b.end)
                 && s.eventCount > 0 && s.avgValue == s.sumValue / s.eventCount as real
                 && (exists e :: e in telemetry && IsOf(e, b.device, k.metric, b.start, b.end) && e.value == s.minValue)
                 && (exists e :: e in telemetry && IsOf(e, b.device, k.metric, b.start, b.end) && e.value == s.maxValue)
                 && forall e :: e in telemetry && IsOf(e, b.device, k.metric, b.start, b.end) ==>
                      s.minValue <= e.value <= s.maxValue)
  {
    hide WindowCount, WindowSum, ReadRawEvents, Sum, Min, Max, ValuesOf, IsOf;
    var events := ReadRawEvents(telemetry, b.device, b.start, b.end);
    ValuesOfMetrics(events, k.metric);
    ValuesOfMembers(events, k.metric);
    ReadIsOf(telemetry, b.device, k.metric, b.start, b.end);
    SummaryMatchesTable(telemetry, b.device, k.metric, b.start, b.end);
    if |ValuesOf(events, k.metric)| > 0 {
      MinMaxAreAttained(ValuesOf(events, k.metric));
      forall e | e in telemetry && IsOf(e, b.device, k.metric, b.start, b.end)
        ensures e.value in ValuesOf(events, k.metric)
      {
        assert e in events && e.metric == k.metric;
      }
    }
  }

  lemma {:induction false} ReadIsOf(telemetry: seq<RawEvent>, device: DeviceId, m: MetricId, start: int, end: int)
    ensures forall e :: e in ReadRawEvents(telemetry, device, start, end) && e.metric == m <==>
              e in telemetry && IsOf(e, device, m, start, end)
  {
    hide ReadRawEvents;
    ReadMembers(telemetry, device, start, end);
  }
}
