/** The batch operations as the source writes them, on the three tables of the database. */
module BatchCompactor {
  import opened Sequences
  import opened BatchLifecycle
  import opened BatchSummary

  /** The summaries of the metrics already written. */
  ghost function Written(all: map<SummaryKey, Summary>, rest: set<MetricId>): map<SummaryKey, Summary> {
    map k | k in all && k.metric !in rest :: all[k]
  }

  lemma {:induction false} WriteOneMore(
      all: map<SummaryKey, Summary>, stored: map<SummaryKey, Summary>, rest: set<MetricId>, k: SummaryKey)
    requires k in all && k.metric in rest
    requires forall k' :: k' in all && k'.metric == k.metric ==> k' == k
    ensures var s := Written(all, rest) + stored;
            (if k in s then s else s[k := all[k]]) == Written(all, rest - {k.metric}) + stored
  {
    var before, after := Written(all, rest), Written(all, rest - {k.metric});
    assert after == before[k := all[k]];
    assert k !in before;
  }

  ghost predicate Groups(byMetric: map<MetricId, seq<real>>, events: seq<RawEvent>) {
    byMetric.Keys == Metrics(events) && forall m :: m in byMetric ==> byMetric[m] == ValuesOf(events, m)
  }

  lemma {:induction false} GroupOneMore(byMetric: map<MetricId, seq<real>>, events: seq<RawEvent>, e: RawEvent)
    requires Groups(byMetric, events)
    ensures var vals := if e.metric in byMetric then byMetric[e.metric] else [];
            Groups(byMetric[e.metric := vals + [e.value]], events + [e])
  {
    ValuesOfMetrics(events, e.metric);
    assert (events + [e])[..|events|] == events;
  }

  lemma {:induction false} SummariesIgnoreState(id: BatchId, b: Batch, state: BatchState, events: seq<RawEvent>)
    ensures SummariesOf(id, b.(state := state), events) == SummariesOf(id, b, events)
  {
  }

  class TimescaleDb {
    var batches: map<BatchId, Batch>
    var telemetry: seq<RawEvent>
    var summaries: map<SummaryKey, Summary>

    constructor ()
      ensures batches == map[] && telemetry == [] && summaries == map[]
    {
      batches, telemetry, summaries := map[], [], map[];
    }

    method InsertRawEvent(e: RawEvent)
      modifies this`telemetry
      ensures telemetry == old(telemetry) + [e]
    {
      telemetry := telemetry + [e];
    }

    /** INSERT ... ON CONFLICT (batch_id, device_id, metric_id) DO NOTHING */
    method WriteSummary(s: Summary)
      modifies this`summaries
      ensures var k := SummaryKey(s.batch, s.device, s.metric);
              summaries == if k in old(summaries) then old(summaries) else old(summaries)[k := s]
    {
      var k := SummaryKey(s.batch, s.device, s.metric);
      if k !in summaries {
        summaries := summaries[k := s];
      }
    }

    /** UPDATE ... WHERE id AND state = from; an unlisted transition throws, which is no result here. */
    method TransitionBatchState(id: BatchId, from: BatchState, to: BatchState) returns (moved: Option<bool>)
      modifies this`batches
      ensures moved.None? <==> StateRank(to) != StateRank(from) + 1
      ensures moved.Some? ==> (moved.value <==> id in old(batches) && old(batches)[id].state == from)
      ensures batches == if moved.Some? then SetState(old(batches), id, from, to) else old(batches)
    {
      var allowed := match from case OPEN => [COMPACTING] case COMPACTING => [CLOSED] case CLOSED => [];
      if to !in allowed {
        return None;
      }
      if id in batches && batches[id].state == from {
        batches := batches[id := batches[id].(state := to)];
        return Some(true);
      }
      return Some(false);
    }

    /** The open batch of the device with the latest start, found by going through the table. */
    method GetOpenBatch(device: DeviceId) returns (found: Option<BatchId>)
      requires forall id :: id in batches ==> WellFormed(id, batches[id])
      ensures IsLatestOpen(batches, device, found)
    {
      found := None;
      var rest := batches.Keys;
      while rest != {}
        invariant rest <= batches.Keys
        invariant IsLatestOpen(map id | id in batches && id !in rest :: batches[id], device, found)
        decreases rest
      {
        var id :| id in rest;
        rest := rest - {id};
        var b := batches[id];
        if b.device == device && b.state.OPEN? && (found.None? || batches[found.value].start < b.start) {
          found := Some(id);
        }
      }
      assert (map id | id in batches && id !in rest :: batches[id]) == batches;
    }

    /** The events grouped by metric, in order of arrival within each metric. */
    method GroupByMetric(events: seq<RawEvent>) returns (byMetric: map<MetricId, seq<real>>)
      ensures Groups(byMetric, events)
    {
      byMetric := map[];
      var i := 0;
      while i < |events|
        invariant 0 <= i <= |events|
        invariant Groups(byMetric, events[..i])
      {
        var e := events[i];
        assert events[..i + 1] == events[..i] + [e];
        GroupOneMore(byMetric, events[..i], e);
        var vals := if e.metric in byMetric then byMetric[e.metric] else [];
        byMetric := byMetric[e.metric := vals + [e.value]];
        i := i + 1;
      }
      assert events[..i] == events;
    }

    /** Reads the window, groups it and writes one summary per metric; a summary that exists already stays. */
    method DoCompact(id: BatchId, b: Batch)
      modifies this`summaries
      ensures summaries == SummariesOf(id, b, ReadRawEvents(telemetry, b.device, b.start, b.end)) + old(summaries)
    {
      var events := ReadRawEvents(telemetry, b.device, b.start, b.end);
      var byMetric := GroupByMetric(events);
      ghost var all := SummariesOf(id, b, events);
      var rest := byMetric.Keys;
      while rest != {}
        invariant rest <= byMetric.Keys
        invariant summaries == Written(all, rest) + old(summaries)
        decreases rest
      {
        var m :| m in rest;
        var vals := byMetric[m];
        ValuesOfMetrics(events, m);
        var minValue, maxValue, sumValue := Min(vals), Max(vals), Sum(vals);
        var avgValue := sumValue / |vals| as real;
        WriteOneMore(all, old(summaries), rest, SummaryKey(id, b.device, m));
        WriteSummary(Summary(id, b.device, m, b.start, b.end, minValue, maxValue, avgValue, sumValue, |vals|));
        rest := rest - {m};
      }
      assert Written(all, rest) == all;
    }

    /** compactBatch with the advisory lock granted or not. */
    method CompactBatch(id: BatchId, lockGranted: bool) returns (result: Result)
      modifies this`batches, this`summaries
      ensures result == if lockGranted && IsOpen(old(batches), id) then Compacted else Skipped
      ensures result == Skipped ==> batches == old(batches) && summaries == old(summaries)
      ensures result == Compacted ==>
                var b := old(batches)[id];
                && batches == old(batches)[id := b.(state := CLOSED)]
                && summaries == SummariesOf(id, b, ReadRawEvents(telemetry, b.device, b.start, b.end)) + old(summaries)
    {
      if !lockGranted {
        return Skipped;
      }
      if id !in batches || batches[id].state != OPEN {
        return Skipped;
      }
      var batch := batches[id];
      var moved := TransitionBatchState(id, OPEN, COMPACTING);
      DoCompact(id, batch);
      var closed := TransitionBatchState(id, COMPACTING, CLOSED);
      assert batches == old(batches)[id := batch.(state := CLOSED)];
      return Compacted;
    }

    /**
     * rotateBatch with the advisory lock granted or not. The old batch is closed and compacted and its successor
     * opened, or, when the successor's row exists already, the transaction is rolled back and nothing changes.
     */
    method RotateBatch(device: DeviceId, lockGranted: bool) returns (result: Result, ghost from: Option<BatchId>)
      requires forall id :: id in batches ==> WellFormed(id, batches[id])
      modifies this`batches, this`summaries
      ensures IsLatestOpen(old(batches), device, from)
      ensures result.Rotated? <==>
                from.Some? && lockGranted && BatchId(device, old(batches)[from.value].end) !in old(batches)
      ensures result == Threw <==>
                from.Some? && lockGranted && BatchId(device, old(batches)[from.value].end) in old(batches)
      ensures !result.Rotated? ==> batches == old(batches) && summaries == old(summaries)
      ensures result.Rotated? ==>
                var b := old(batches)[from.value];
                && result.successor == BatchId(device, b.end)
                && batches == old(batches)[from.value := b.(state := CLOSED)]
                                          [result.successor := NewBatch(result.successor)]
                && summaries == SummariesOf(from.value, b, ReadRawEvents(telemetry, device, b.start, b.end))
                   + old(summaries)
      ensures forall id :: id in batches ==> WellFormed(id, batches[id])
    {
      hide SummariesOf, ReadRawEvents;
      var current := GetOpenBatch(device);
      from := current;
      if current.None? || !lockGranted {
        return Nothing, from;
      }
      var id := current.value;
      var old_ := batches[id];
      var newId := BatchId(device, old_.end);
      var beforeTransaction := batches;
      var moved := TransitionBatchState(id, OPEN, COMPACTING);
      if newId in batches {
        batches := beforeTransaction;
        return Threw, from;
      }
      batches := batches[newId := NewBatch(newId)];
      SummariesIgnoreState(id, old_, COMPACTING, ReadRawEvents(telemetry, device, old_.start, old_.end));
      DoCompact(id, old_.(state := COMPACTING));
      var closed := TransitionBatchState(id, COMPACTING, CLOSED);
      assert batches == old(batches)[id := old_.(state := CLOSED)][newId := NewBatch(newId)];
      return Rotated(newId), from;
    }

    /**
     * ensureOpenBatch at a given clock reading; `meanwhile` is the table as others leave it between the look and the
     * insert.
     */
    method EnsureOpenBatch(device: DeviceId, now: int, meanwhile: map<BatchId, Batch>) returns (batch: Batch)
      requires forall id :: id in batches ==> WellFormed(id, batches[id])
      requires forall id :: id in meanwhile ==> WellFormed(id, meanwhile[id])
      modifies this`batches
      ensures var id := BatchId(device, Bucket(now));
              if exists b :: IsOpen(old(batches), b) && old(batches)[b].device == device then
                && batches == old(batches)
                && exists b :: IsLatestOpen(batches, device, Some(b)) && batch == batches[b]
              else
                && batch == NewBatch(id)
                && batches == if id in meanwhile then meanwhile else meanwhile[id := batch]
      ensures forall id :: id in batches ==> WellFormed(id, batches[id])
    {
      var existing := GetOpenBatch(device);
      if existing.Some? {
        return batches[existing.value];
      }
      batches := meanwhile;
      BucketIsAligned(now);
      var id := BatchId(device, Bucket(now));
      batch := NewBatch(id);
      if id !in batches {
        batches := batches[id := batch];
      }
    }
  }

  // ---- batchLockId ----

  const FNV_OFFSET: int := 0x811c9dc5
  const FNV_PRIME: int := 0x01000193

  type CodeUnit = c: int | 0 <= c < 0x1_0000

  /** Bitwise exclusive or. */
  function Xor(a: nat, b: nat): nat
    decreases a + b
  {
    if a == 0 && b == 0 then 0 else 2 * Xor(a / 2, b / 2) + if a % 2 == b % 2 then 0 else 1
  }

  function Pow2(n: nat): nat {
    if n == 0 then 1 else 2 * Pow2(n - 1)
  }

  /** It is as wide as its arguments. */
  lemma {:induction false} XorFits(a: nat, b: nat, n: nat)
    requires a < Pow2(n) && b < Pow2(n)
    ensures Xor(a, b) < Pow2(n)
  {
    if n > 0 {
      XorFits(a / 2, b / 2, n - 1);
    }
  }

  function Fnv1a(s: seq<CodeUnit>): (h: int)
    ensures 0 <= h < 0x1_0000_0000
  {
    if s == [] then FNV_OFFSET
    else Xor(Fnv1a(s[..|s| - 1]), s[|s| - 1]) * FNV_PRIME % 0x1_0000_0000
  }

  /** The lock id is the low 31 bits of the hash. */
  method BatchLockId(batchId: seq<CodeUnit>) returns (lockId: int)
    ensures lockId == Fnv1a(batchId) % 0x8000_0000
    ensures 0 <= lockId < 0x8000_0000
  {
    var h := FNV_OFFSET;
    var i := 0;
    while i < |batchId|
      invariant 0 <= i <= |batchId|
      invariant h == Fnv1a(batchId[..i])
    {
      assert batchId[..i + 1][..i] == batchId[..i];
      h := Xor(h, batchId[i]);
      h := h * FNV_PRIME % 0x1_0000_0000;
      i := i + 1;
    }
    assert batchId[..i] == batchId;
    return h % 0x8000_0000;
  }

  lemma {:induction false} XorStep(a: nat, b: nat, half: nat)
    requires Xor(a / 2, b / 2) == half
    ensures Xor(a, b) == 2 * half + if a % 2 == b % 2 then 0 else 1
  {
  }

  lemma {:induction false} XorNothing(a: nat)
    ensures Xor(a, 0) == a
  {
    if a > 0 {
      XorNothing(a / 2);
    }
  }

  lemma {:induction false} XorVector()
    ensures Xor(0x811c_9dc5, 97) == 0x811c_9da4
  {
    hide Xor;
    XorNothing(0x811c_9dc5 / 128);
    XorStep(0x811c_9dc5 / 64, 97 / 64, 0x811c_9da4 / 128);
    XorStep(0x811c_9dc5 / 32, 97 / 32, 0x811c_9da4 / 64);
    XorStep(0x811c_9dc5 / 16, 97 / 16, 0x811c_9da4 / 32);
    XorStep(0x811c_9dc5 / 8, 97 / 8, 0x811c_9da4 / 16);
    XorStep(0x811c_9dc5 / 4, 97 / 4, 0x811c_9da4 / 8);
    XorStep(0x811c_9dc5 / 2, 97 / 2, 0x811c_9da4 / 4);
    XorStep(0x811c_9dc5, 97, 0x811c_9da4 / 2);
  }

  /** The offset basis and the published hash of the one-letter string "a". */
  lemma {:induction false} FnvVectors()
    ensures Fnv1a([]) == 0x811c_9dc5 && Fnv1a([97]) == 0xe40c_292c
  {
    hide Xor;
    var a: seq<CodeUnit> := [97];
    assert a[..0] == [];
    XorVector();
  }
}
