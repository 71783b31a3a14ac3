/** The ledger catch-up loop: batches of ledgers, retries, skips and checkpoints. */
module LedgerSync {
  import opened Sequences

  const MAX_GAP: int := 172_800
  const CHECKPOINT_INTERVAL: int := 64
  const MAX_RETRIES: int := 3

  /** Which attempt (from 0) at which ledger fails, and which checkpoint write fails. */
  type LedgerFails = (int, int) -> bool
  type CheckpointFails = int -> bool

  function Min(a: int, b: int): int {
    if a <= b then a else b
  }

  function CappedTarget(from: int, to: int): int {
    Min(to, from + MAX_GAP)
  }

  /** All the allowed attempts at this ledger fail. */
  predicate IsSkipped(fails: LedgerFails, ledger: int) {
    forall attempt :: 0 <= attempt < MAX_RETRIES ==> fails(ledger, attempt)
  }

  /** What trying some ledgers comes to: those processed, in order, and how many were skipped. */
  datatype Tally = Tally(processed: seq<int>, skipped: nat)

  function Plus(a: Tally, b: Tally): Tally {
    Tally(a.processed + b.processed, a.skipped + b.skipped)
  }

  lemma {:induction false} PlusAssociates(a: Tally, b: Tally, c: Tally)
    ensures Plus(Plus(a, b), c) == Plus(a, Plus(b, c))
  {
  }

  lemma {:induction false} PlusNothing(a: Tally)
    ensures Plus(a, Nothing) == a
  {
  }

  const Nothing := Tally([], 0)

  function One(fails: LedgerFails, ledger: int): Tally {
    if IsSkipped(fails, ledger) then Tally([], 1) else Tally([ledger], 0)
  }

  function Outcome(fails: LedgerFails, ledgers: seq<int>): Tally {
    if ledgers == [] then Nothing
    else Plus(Outcome(fails, ledgers[..|ledgers| - 1]), One(fails, ledgers[|ledgers| - 1]))
  }

  /** Checkpoints fall where the 64-ledger block changes. */
  function Block(ledger: int): int {
    ledger / CHECKPOINT_INTERVAL
  }

  lemma {:induction false} OutcomeConcat(fails: LedgerFails, a: seq<int>, b: seq<int>)
    ensures Outcome(fails, a + b) == Plus(Outcome(fails, a), Outcome(fails, b))
  {
    if b == [] {
      assert a + b == a;
    } else {
      assert (a + b)[..|a + b| - 1] == a + b[..|b| - 1];
      OutcomeConcat(fails, a, b[..|b| - 1]);
      PlusAssociates(Outcome(fails, a), Outcome(fails, b[..|b| - 1]), One(fails, b[|b| - 1]));
    }
  }

  /** Every ledger is processed or counted as skipped; those processed are the ones some allowed attempt succeeds at. */
  lemma {:induction false} OutcomeAccounts(fails: LedgerFails, ledgers: seq<int>)
    ensures forall x :: x in Outcome(fails, ledgers).processed <==> x in ledgers && !IsSkipped(fails, x)
    ensures |Outcome(fails, ledgers).processed| + Outcome(fails, ledgers).skipped == |ledgers|
  {
    if ledgers != [] {
      var front := ledgers[..|ledgers| - 1];
      assert ledgers == front + [ledgers[|ledgers| - 1]];
      OutcomeAccounts(fails, front);
    }
  }

  lemma {:induction false} IntervalsJoin(lo: int, mid: int, hi: int)
    requires lo <= mid <= hi
    ensures Interval(lo, hi) == Interval(lo, mid) + Interval(mid, hi)
  {
  }

  lemma {:induction false} IntervalMembers(lo: int, hi: int)
    ensures forall x :: x in Interval(lo, hi) <==> lo <= x < hi
  {
    forall x | lo <= x < hi ensures x in Interval(lo, hi) {
      assert Interval(lo, hi)[x - lo] == x;
    }
  }

  lemma {:induction false} IntervalSize(lo: int, hi: int)
    requires lo <= hi
    ensures |Interval(lo, hi)| == hi - lo
  {
  }

  class LedgerEventSynchronizer {
    const concurrency: int
    var lastSyncedLedger: int
    var targetLedger: int
    var inProgress: bool
    var errorCount: nat
    var persisted: int                // the row in the database
    ghost var processed: seq<int>     // the ledgers processed, in order
    ghost var batches: seq<seq<int>>  // the ledgers attempted, batch by batch

    constructor (persisted: int, concurrency: int)
      ensures lastSyncedLedger == this.persisted == persisted && errorCount == 0 && !inProgress
      ensures batches == [] && processed == [] && this.concurrency == concurrency
    {
      this.concurrency, this.persisted, lastSyncedLedger := concurrency, persisted, persisted;
      targetLedger, inProgress, errorCount, batches, processed := 0, false, 0, [], [];
    }

    ghost function Total(): Tally
      reads this
    {
      Tally(processed, errorCount)
    }

    /** One ledger: up to three attempts, then it is counted and skipped. */
    method SyncLedger(ledger: int, fails: LedgerFails) returns (attempts: nat)
      modifies this`errorCount, this`processed
      ensures Total() == Plus(old(Total()), One(fails, ledger))
      ensures 1 <= attempts <= MAX_RETRIES
      ensures forall k :: 0 <= k < attempts - 1 ==> fails(ledger, k)
      ensures fails(ledger, attempts - 1) ==> attempts == 3
      ensures processed == if fails(ledger, attempts - 1) then old(processed) else old(processed) + [ledger]
      ensures errorCount == if fails(ledger, attempts - 1) then old(errorCount) + 1 else old(errorCount)
    {
      var attempt := 0;
      while attempt < MAX_RETRIES
        invariant 0 <= attempt <= MAX_RETRIES
        invariant forall k :: 0 <= k < attempt ==> fails(ledger, k)
        invariant errorCount == old(errorCount) + (if attempt == MAX_RETRIES then 1 else 0)
                  && processed == old(processed)
      {
        if !fails(ledger, attempt) {
          processed := processed + [ledger];
          return attempt + 1;
        }
        if !(attempt < MAX_RETRIES - 1) {
          errorCount := errorCount + 1;
        }
        attempt := attempt + 1;
      }
      return MAX_RETRIES;
    }

    /** The ledgers of one batch; their order does not matter to what is counted. */
    method SyncBatch(ledgers: seq<int>, fails: LedgerFails)
      modifies this`errorCount, this`processed, this`batches
      ensures Total() == Plus(old(Total()), Outcome(fails, ledgers))
      ensures batches == old(batches) + [ledgers]
    {
      hide One, Plus;
      PlusNothing(Total());
      var i := 0;
      while i < |ledgers|
        invariant 0 <= i <= |ledgers|
        invariant Total() == Plus(old(Total()), Outcome(fails, ledgers[..i])) && batches == old(batches)
      {
        var attempts := SyncLedger(ledgers[i], fails);
        assert ledgers[..i + 1][..i] == ledgers[..i];
        PlusAssociates(old(Total()), Outcome(fails, ledgers[..i]), One(fails, ledgers[i]));
        i := i + 1;
      }
      assert ledgers[..i] == ledgers;
      batches := batches + [ledgers];
    }

    method Checkpoint(checkpointFails: CheckpointFails) returns (ok: bool)
      modifies this`persisted
      ensures ok <==> !checkpointFails(lastSyncedLedger)
      ensures persisted == if ok then lastSyncedLedger else old(persisted)
    {
      if checkpointFails(lastSyncedLedger) {
        return false;
      }
      persisted := lastSyncedLedger;
      return true;
    }

    /** catchUp; the outcome's `ok` is false when a checkpoint write threw, which ends the loop. */
    method CatchUp(from: int, to: int, fails: LedgerFails, checkpointFails: CheckpointFails)
      returns (ok: bool, ghost progress: Progress)
      requires concurrency >= 1
      modifies this
      ensures !inProgress && targetLedger == CappedTarget(from, to)
      ensures progress == CatchUpProgress(
                            from, to, concurrency, fails, checkpointFails, old(lastSyncedLedger), old(persisted))
      ensures ok == progress.ok && lastSyncedLedger == progress.synced && persisted == progress.persisted
      ensures Total() == Plus(old(Total()), progress.tally)
      ensures batches == old(batches) + progress.attempted
    {
      hide Concat, Outcome, One, Plus, IsSkipped, Interval, Batches, Block;
      PlusNothing(Total());
      var cappedTo := Min(to, from + MAX_GAP);
      targetLedger, inProgress, ok := cappedTo, true, true;
      progress := Progress([], [], lastSyncedLedger, persisted, Nothing, true);
      var batchStart := from + 1;
      while batchStart <= cappedTo
        invariant targetLedger == cappedTo && ok && progress.ok
        invariant lastSyncedLedger == progress.synced && persisted == progress.persisted
        invariant Total() == Plus(old(Total()), progress.tally) && batches == old(batches) + progress.attempted
        invariant CatchUpProgress(from, to, concurrency, fails, checkpointFails, old(lastSyncedLedger), old(persisted))
               == Batches(batchStart, cappedTo, concurrency, fails, checkpointFails, progress)
        decreases cappedTo + 1 - batchStart
      {
        var batchEnd := Min(batchStart + concurrency - 1, cappedTo);
        var seqs := Interval(batchStart, batchEnd + 1);
        SyncBatch(seqs, fails);
        PlusAssociates(old(Total()), progress.tally, Outcome(fails, seqs));
        lastSyncedLedger := batchEnd;
        var crossedBoundary := Block(batchEnd) > Block(batchStart - 1);
        if crossedBoundary || batchEnd == cappedTo {
          ok := Checkpoint(checkpointFails);
        }
        BatchesStep(batchStart, cappedTo, concurrency, fails, checkpointFails, progress);
        progress := OneBatch(batchStart, cappedTo, concurrency, fails, checkpointFails, progress);
        batchStart := batchStart + concurrency;
        if !ok {
          break;
        }
      }
      BatchesStop(batchStart, cappedTo, concurrency, fails, checkpointFails, progress);
      inProgress := false;
    }

    /** One poll: catches up from what is synchronised to the latest ledger, unless a catch-up is running. */
    method PollLatestLedger(latest: int, fails: LedgerFails, checkpointFails: CheckpointFails, ghost start: int)
      returns (ok: bool)
      requires concurrency >= 1
      requires start <= lastSyncedLedger && Concat(batches) == Interval(start + 1, lastSyncedLedger + 1)
      modifies this
      ensures old(lastSyncedLedger) <= lastSyncedLedger
      ensures Concat(batches) == Interval(start + 1, lastSyncedLedger + 1)
      ensures ok && !old(inProgress) && latest > old(lastSyncedLedger) ==>
                persisted == lastSyncedLedger == CappedTarget(old(lastSyncedLedger), latest)
    {
      hide Concat, Outcome, CatchUpProgress, Interval;
      if inProgress || latest <= lastSyncedLedger {
        return true;
      }
      ghost var from, before := lastSyncedLedger, batches;
      ghost var progress;
      ok, progress := CatchUp(lastSyncedLedger, latest, fails, checkpointFails);
      CatchUpCovers(from, latest, concurrency, fails, checkpointFails, from, old(persisted));
      ConcatAdds(before, progress.attempted);
      IntervalsJoin(start + 1, from + 1, lastSyncedLedger + 1);
    }
  }

  // ---- What one catch-up does ----

  /** A batch boundary: where the loop and the checkpoint were after it, and whether its checkpoint write threw. */
  datatype Mark = Mark(synced: int, persisted: int, failed: bool)

  /** The state of the loop: batches attempted, a mark for each, both ledgers, the tally, no throw so far. */
  datatype Progress = Progress(
      attempted: seq<seq<int>>, marks: seq<Mark>, synced: int, persisted: int, tally: Tally, ok: bool)

  function OneBatch(
      start: int, cappedTo: int, concurrency: int, fails: LedgerFails, checkpointFails: CheckpointFails, p: Progress)
    : Progress
  {
    var end := Min(start + concurrency - 1, cappedTo);
    var ledgers := Interval(start, end + 1);
    var writes := Block(end) > Block(start - 1) || end == cappedTo;
    var persisted := if writes && !checkpointFails(end) then end else p.persisted;
    var failed := writes && checkpointFails(end);
    Progress(p.attempted + [ledgers], p.marks + [Mark(end, persisted, failed)],
             end, persisted, Plus(p.tally, Outcome(fails, ledgers)), !failed)
  }

  function Batches(
      start: int, cappedTo: int, concurrency: int, fails: LedgerFails, checkpointFails: CheckpointFails, p: Progress)
    : Progress
    requires concurrency >= 1
    decreases cappedTo + 1 - start
  {
    if start > cappedTo || !p.ok then p
    else Batches(start + concurrency, cappedTo, concurrency, fails, checkpointFails,
                 OneBatch(start, cappedTo, concurrency, fails, checkpointFails, p))
  }

  function CatchUpProgress(from: int, to: int, concurrency: int, fails: LedgerFails, checkpointFails: CheckpointFails,
                           synced: int, persisted: int): Progress
    requires concurrency >= 1
  {
    Batches(from + 1, CappedTarget(from, to), concurrency, fails, checkpointFails,
        Progress([], [], synced, persisted, Nothing, true))
  }

  lemma {:induction false} BatchesStep(
      start: int, cappedTo: int, concurrency: int, fails: LedgerFails, checkpointFails: CheckpointFails, p: Progress)
    requires concurrency >= 1 && start <= cappedTo && p.ok
    ensures Batches(start, cappedTo, concurrency, fails, checkpointFails, p)
         == Batches(start + concurrency, cappedTo, concurrency, fails, checkpointFails,
                    OneBatch(start, cappedTo, concurrency, fails, checkpointFails, p))
  {
  }

  lemma {:induction false} BatchesStop(
      start: int, cappedTo: int, concurrency: int, fails: LedgerFails, checkpointFails: CheckpointFails, p: Progress)
    requires concurrency >= 1 && (start > cappedTo || !p.ok)
    ensures Batches(start, cappedTo, concurrency, fails, checkpointFails, p) == p
  {
  }

  /** The ledgers from + 1 .. synced have been attempted, each in one batch within the concurrency. */
  ghost predicate Covers(from: int, concurrency: int, fails: LedgerFails, p: Progress) {
    && Concat(p.attempted) == Interval(from + 1, p.synced + 1)
    && (forall b :: b in p.attempted ==> 1 <= |b| <= concurrency)
    && p.tally == Outcome(fails, Concat(p.attempted))
  }

  /** Each batch has a mark, made at its last ledger; only the last write can have thrown, and that ended the loop. */
  ghost predicate MarksEach(p: Progress) {
    && |p.marks| == |p.attempted|
    && (forall k :: 0 <= k < |p.marks| ==>
          |p.attempted[k]| > 0 && p.marks[k].synced == p.attempted[k][|p.attempted[k]| - 1])
    && (forall k :: 0 <= k < |p.marks| && p.marks[k].failed ==> k == |p.marks| - 1)
    && (|p.marks| > 0 ==> p.marks[|p.marks| - 1] == Mark(p.synced, p.persisted, !p.ok))
  }


  lemma {:induction false} OneBatchCovers(
      from: int, start: int, cappedTo: int, concurrency: int, fails: LedgerFails, checkpointFails: CheckpointFails,
      p: Progress)
    requires concurrency >= 1 && from + 1 <= start <= cappedTo
    requires Covers(from, concurrency, fails, p) && p.synced == start - 1
    ensures var p' := OneBatch(start, cappedTo, concurrency, fails, checkpointFails, p);
            && Covers(from, concurrency, fails, p') && p'.synced == Min(start + concurrency - 1, cappedTo)
            && (p'.ok && p'.synced == cappedTo ==> p'.persisted == cappedTo)
  {
    hide Interval, Outcome, Concat, IsSkipped, Block;
    var end := Min(start + concurrency - 1, cappedTo);
    IntervalSize(start, end + 1);
    BatchExtends(p.attempted, Interval(start, end + 1), from, start, end, fails);
  }

  lemma {:induction false} OneBatchMarks(
      start: int, cappedTo: int, concurrency: int, fails: LedgerFails, checkpointFails: CheckpointFails, p: Progress)
    requires concurrency >= 1 && start <= cappedTo && p.ok && MarksEach(p)
    ensures MarksEach(OneBatch(start, cappedTo, concurrency, fails, checkpointFails, p))
  {
    hide Outcome, Block;
  }

  lemma {:induction false} BatchesCover(
      from: int, start: int, cappedTo: int, concurrency: int, fails: LedgerFails, checkpointFails: CheckpointFails,
      p: Progress)
    requires concurrency >= 1 && from + 1 <= start
    requires Covers(from, concurrency, fails, p) && p.ok && from <= p.synced
    requires start <= cappedTo ==> p.synced == start - 1
    ensures var q := Batches(start, cappedTo, concurrency, fails, checkpointFails, p);
            && Covers(from, concurrency, fails, q)
            && from <= q.synced
            && (start <= cappedTo ==> start <= q.synced <= cappedTo)
            && (start <= cappedTo && q.ok ==> q.persisted == q.synced == cappedTo)
    decreases cappedTo + 1 - start
  {
    hide Covers, OneBatch;
    if start <= cappedTo {
      OneBatchCovers(from, start, cappedTo, concurrency, fails, checkpointFails, p);
      var p' := OneBatch(start, cappedTo, concurrency, fails, checkpointFails, p);
      if p'.ok {
        BatchesCover(from, start + concurrency, cappedTo, concurrency, fails, checkpointFails, p');
      }
    }
  }

  lemma {:induction false} BatchesMark(
      start: int, cappedTo: int, concurrency: int, fails: LedgerFails, checkpointFails: CheckpointFails, p: Progress)
    requires concurrency >= 1 && p.ok && MarksEach(p)
    ensures MarksEach(Batches(start, cappedTo, concurrency, fails, checkpointFails, p))
    decreases cappedTo + 1 - start
  {
    hide OneBatch, MarksEach;
    if start <= cappedTo {
      OneBatchMarks(start, cappedTo, concurrency, fails, checkpointFails, p);
      var p' := OneBatch(start, cappedTo, concurrency, fails, checkpointFails, p);
      if p'.ok {
        BatchesMark(start + concurrency, cappedTo, concurrency, fails, checkpointFails, p');
      }
    }
  }

  /** One more batch extends the ledgers attempted, and the skips among them, by its interval. */
  lemma {:induction false} BatchExtends(
      before: seq<seq<int>>, batch: seq<int>, from: int, batchStart: int, batchEnd: int, fails: LedgerFails)
    requires from + 1 <= batchStart <= batchEnd && batch == Interval(batchStart, batchEnd + 1)
    requires Concat(before) == Interval(from + 1, batchStart)
    ensures Concat(before + [batch]) == Interval(from + 1, batchEnd + 1)
    ensures Outcome(fails, Concat(before + [batch])) == Plus(Outcome(fails, Concat(before)), Outcome(fails, batch))
  {
    ConcatAdds(before, [batch]);
    ConcatOne(batch);
    OutcomeConcat(fails, Concat(before), batch);
    IntervalsJoin(from + 1, batchStart, batchEnd + 1);
  }

  lemma {:induction false} NothingCovers(from: int, concurrency: int, fails: LedgerFails, persisted: int)
    ensures Covers(from, concurrency, fails, Progress([], [], from, persisted, Nothing, true))
  {
  }

  lemma {:induction false} NoBatches(
      from: int, to: int, concurrency: int, fails: LedgerFails, checkpointFails: CheckpointFails, synced: int,
      persisted: int)
    requires concurrency >= 1 && to <= from
    ensures CatchUpProgress(from, to, concurrency, fails, checkpointFails, synced, persisted)
         == Progress([], [], synced, persisted, Nothing, true)
  {
  }

  /** What was synchronised before does not matter once there is a batch. */
  lemma {:induction false} FirstBatchSetsSynced(
      from: int, to: int, concurrency: int, fails: LedgerFails, checkpointFails: CheckpointFails,
      synced: int, persisted: int)
    requires concurrency >= 1 && from < to
    ensures CatchUpProgress(from, to, concurrency, fails, checkpointFails, synced, persisted)
         == CatchUpProgress(from, to, concurrency, fails, checkpointFails, from, persisted)
  {
    hide Concat, Outcome, Interval;
    var cappedTo := CappedTarget(from, to);
    var p, p' := Progress([], [], synced, persisted, Nothing, true), Progress([], [], from, persisted, Nothing, true);
    assert OneBatch(from + 1, cappedTo, concurrency, fails, checkpointFails, p)
        == OneBatch(from + 1, cappedTo, concurrency, fails, checkpointFails, p');
  }

  // ---- Main results ----

  /** A catch-up attempts the ledgers after `from` up to the capped target in order, each in one batch. */
  lemma {:induction false} CatchUpCovers(
      from: int, to: int, concurrency: int, fails: LedgerFails, checkpointFails: CheckpointFails, synced: int,
      persisted: int)
    requires concurrency >= 1
    ensures var q := CatchUpProgress(from, to, concurrency, fails, checkpointFails, synced, persisted);
            if to <= from then q == Progress([], [], synced, persisted, Nothing, true)
            else
              && Concat(q.attempted) == Interval(from + 1, q.synced + 1)
              && (forall b :: b in q.attempted ==> 1 <= |b| <= concurrency)
              && q.tally == Outcome(fails, Interval(from + 1, q.synced + 1))
              && from < q.synced <= CappedTarget(from, to)
              && (q.ok ==> q.persisted == q.synced == CappedTarget(from, to))
  {
    hide Concat, Outcome, Interval, OneBatch, Batches;
    if from < to {
      FirstBatchSetsSynced(from, to, concurrency, fails, checkpointFails, synced, persisted);
      NothingCovers(from, concurrency, fails, persisted);
      BatchesCover(from, from + 1, CappedTarget(from, to), concurrency, fails, checkpointFails,
                   Progress([], [], from, persisted, Nothing, true));
    } else {
      NoBatches(from, to, concurrency, fails, checkpointFails, synced, persisted);
    }
  }

  /**
   * Up to the last ledger synchronised, each was processed, or its attempts all failed and the error count grew by one.
   */
  lemma {:induction false} CatchUpAccounts(
      from: int, to: int, concurrency: int, fails: LedgerFails, checkpointFails: CheckpointFails, synced: int,
      persisted: int)
    requires concurrency >= 1 && from < to
    ensures var q := CatchUpProgress(from, to, concurrency, fails, checkpointFails, synced, persisted);
            && (forall x :: x in q.tally.processed <==> from < x <= q.synced && !IsSkipped(fails, x))
            && |q.tally.processed| + q.tally.skipped == q.synced - from
  {
    hide CatchUpProgress, Outcome, IsSkipped, Concat;
    CatchUpCovers(from, to, concurrency, fails, checkpointFails, synced, persisted);
    var q := CatchUpProgress(from, to, concurrency, fails, checkpointFails, synced, persisted);
    OutcomeAccounts(fails, Interval(from + 1, q.synced + 1));
    IntervalMembers(from + 1, q.synced + 1);
  }

  /** Every batch boundary has its mark, the one whose checkpoint write threw included. */
  lemma {:induction false} EveryBoundaryIsMarked(
      from: int, to: int, concurrency: int, fails: LedgerFails, checkpointFails: CheckpointFails, synced: int,
      persisted: int)
    requires concurrency >= 1
    ensures MarksEach(CatchUpProgress(from, to, concurrency, fails, checkpointFails, synced, persisted))
  {
    hide OneBatch, Batches;
    BatchesMark(from + 1, CappedTarget(from, to), concurrency, fails, checkpointFails,
                Progress([], [], synced, persisted, Nothing, true));
  }

  // ---- How far the checkpoint can be behind ----

  /** Until the first write the checkpoint is where it was, and the loop has not left the block it began in. */
  ghost predicate Lagging(p: Progress, from: int, persisted: int) {
    || (p.persisted == persisted && from <= p.synced && Block(p.synced) == Block(from))
    || (p.persisted <= p.synced && Block(p.persisted) == Block(p.synced))
  }

  /** What a checkpoint that was ahead of `from` or behind it adds to the lag. */
  function Inherited(from: int, persisted: int): int {
    if persisted <= from then from - persisted else 0
  }

  /**
   * Less than one interval, or not written since and less than one interval more than it was; where the write of this
   * very boundary threw, up to one batch more.
   */
  predicate LagBounded(m: Mark, from: int, concurrency: int, persisted: int) {
    if m.failed then m.synced - m.persisted < CHECKPOINT_INTERVAL + concurrency + Inherited(from, persisted)
    else
      || 0 <= m.synced - m.persisted < CHECKPOINT_INTERVAL
      || (m.persisted == persisted && m.synced - m.persisted < CHECKPOINT_INTERVAL + (from - persisted))
  }

  lemma {:induction false} OneBatchLags(
      from: int, persisted: int, start: int, cappedTo: int, concurrency: int, fails: LedgerFails,
      checkpointFails: CheckpointFails, p: Progress)
    requires concurrency >= 1 && from < start <= cappedTo && p.synced == start - 1 && Lagging(p, from, persisted)
    ensures var p' := OneBatch(start, cappedTo, concurrency, fails, checkpointFails, p);
            && p'.synced == Min(start + concurrency - 1, cappedTo)
            && (p'.ok ==> Lagging(p', from, persisted))
            && LagBounded(Mark(p'.synced, p'.persisted, !p'.ok), from, concurrency, persisted)
            && p'.marks == p.marks + [Mark(p'.synced, p'.persisted, !p'.ok)]
  {
    hide Outcome, Interval;
  }

  lemma {:induction false} BatchesLag(
      from: int, persisted: int, start: int, cappedTo: int, concurrency: int, fails: LedgerFails,
      checkpointFails: CheckpointFails, p: Progress)
    requires concurrency >= 1 && from < start
    requires Lagging(p, from, persisted) && forall m :: m in p.marks ==> LagBounded(m, from, concurrency, persisted)
    requires p.ok && (start <= cappedTo ==> p.synced == start - 1)
    ensures forall m :: m in Batches(start, cappedTo, concurrency, fails, checkpointFails, p).marks ==>
              LagBounded(m, from, concurrency, persisted)
    decreases cappedTo + 1 - start
  {
    hide OneBatch, Lagging, LagBounded;
    if start <= cappedTo {
      OneBatchLags(from, persisted, start, cappedTo, concurrency, fails, checkpointFails, p);
      var p' := OneBatch(start, cappedTo, concurrency, fails, checkpointFails, p);
      if p'.ok {
        BatchesLag(from, persisted, start + concurrency, cappedTo, concurrency, fails, checkpointFails, p');
      }
    }
  }

  /**
   * Wherever the checkpoint was left by earlier failed writes: at every batch boundary whose write did not throw it is
   * less than one interval behind, or it has not been written since and is behind by less than one interval more than
   * it was. At a boundary whose write threw, which ends the catch-up, it can be behind by up to one batch more.
   */
  lemma {:induction false} CheckpointLagIsBounded(
      from: int, to: int, concurrency: int, fails: LedgerFails, checkpointFails: CheckpointFails, persisted: int)
    requires concurrency >= 1
    ensures var q := CatchUpProgress(from, to, concurrency, fails, checkpointFails, from, persisted);
            && (forall m :: m in q.marks ==> LagBounded(m, from, concurrency, persisted))
            && (!q.ok ==> q.synced - q.persisted < CHECKPOINT_INTERVAL + concurrency + Inherited(from, persisted))
  {
    hide Outcome, IsSkipped, Interval, OneBatch, Batches;
    EveryBoundaryIsMarked(from, to, concurrency, fails, checkpointFails, from, persisted);
    BatchesLag(from, persisted, from + 1, CappedTarget(from, to), concurrency, fails, checkpointFails,
               Progress([], [], from, persisted, Nothing, true));
    ThrowingMeansABatch(from, to, concurrency, fails, checkpointFails, persisted);
    var q := CatchUpProgress(from, to, concurrency, fails, checkpointFails, from, persisted);
    assert !q.ok ==> q.marks[|q.marks| - 1] in q.marks;
  }

  lemma {:induction false} ThrowingMeansABatch(
      from: int, to: int, concurrency: int, fails: LedgerFails, checkpointFails: CheckpointFails, persisted: int)
    requires concurrency >= 1
    ensures var q := CatchUpProgress(from, to, concurrency, fails, checkpointFails, from, persisted);
            !q.ok ==> |q.marks| > 0
  {
    hide Outcome, Interval, OneBatch, Batches, Concat;
    var q := CatchUpProgress(from, to, concurrency, fails, checkpointFails, from, persisted);
    EveryBoundaryIsMarked(from, to, concurrency, fails, checkpointFails, from, persisted);
    CatchUpCovers(from, to, concurrency, fails, checkpointFails, from, persisted);
    if from < to {
      IntervalSize(from + 1, q.synced + 1);
      NothingConcatenates();
      assert q.attempted != [];
    }
  }

  lemma {:induction false} NothingConcatenates()
    ensures Concat<int>([]) == []
  {
  }

  /**
   * If it starts persisted in the block of `from`: less than one interval behind at every batch boundary whose write
   * did not throw, and, where it threw, behind by up to one batch more.
   */
  lemma {:induction false} CheckpointKeepsUp(
      from: int, to: int, concurrency: int, fails: LedgerFails, checkpointFails: CheckpointFails, persisted: int)
    requires concurrency >= 1 && persisted <= from && Block(persisted) == Block(from)
    ensures var q := CatchUpProgress(from, to, concurrency, fails, checkpointFails, from, persisted);
            forall m :: m in q.marks ==>
              0 <= m.synced - m.persisted < CHECKPOINT_INTERVAL + if m.failed then concurrency else 0
  {
    hide Outcome, IsSkipped, Interval, OneBatch, Batches;
    BatchesKeepUp(from + 1, CappedTarget(from, to), concurrency, fails, checkpointFails,
                  Progress([], [], from, persisted, Nothing, true));
  }

  predicate KeepsUp(m: Mark, concurrency: int) {
    0 <= m.synced - m.persisted < CHECKPOINT_INTERVAL + if m.failed then concurrency else 0
  }

  predicate Current(p: Progress) {
    p.persisted <= p.synced && Block(p.persisted) == Block(p.synced)
  }

  lemma {:induction false} OneBatchKeepsUp(
      start: int, cappedTo: int, concurrency: int, fails: LedgerFails, checkpointFails: CheckpointFails, p: Progress)
    requires concurrency >= 1 && start <= cappedTo && p.synced == start - 1 && Current(p)
    ensures var p' := OneBatch(start, cappedTo, concurrency, fails, checkpointFails, p);
            && p'.synced == Min(start + concurrency - 1, cappedTo)
            && (p'.ok ==> Current(p'))
            && KeepsUp(Mark(p'.synced, p'.persisted, !p'.ok), concurrency)
            && p'.marks == p.marks + [Mark(p'.synced, p'.persisted, !p'.ok)]
  {
    hide Outcome, Interval;
  }

  lemma {:induction false} BatchesKeepUp(
      start: int, cappedTo: int, concurrency: int, fails: LedgerFails, checkpointFails: CheckpointFails, p: Progress)
    requires concurrency >= 1 && Current(p) && p.ok && (start <= cappedTo ==> p.synced == start - 1)
    requires forall m :: m in p.marks ==> KeepsUp(m, concurrency)
    ensures forall m :: m in Batches(start, cappedTo, concurrency, fails, checkpointFails, p).marks ==>
              KeepsUp(m, concurrency)
    decreases cappedTo + 1 - start
  {
    hide OneBatch, Current, KeepsUp;
    if start <= cappedTo {
      OneBatchKeepsUp(start, cappedTo, concurrency, fails, checkpointFails, p);
      var p' := OneBatch(start, cappedTo, concurrency, fails, checkpointFails, p);
      if p'.ok {
        BatchesKeepUp(start + concurrency, cappedTo, concurrency, fails, checkpointFails, p');
      }
    }
  }

  /** No ledger fails. */
  function AllSucceed(ledger: int, attempt: int): bool {
    false
  }

  function AllThrow(ledger: int): bool {
    true
  }

  /** The extra batch can be needed: the write after a batch that leaves its block throws, 63 + concurrency behind. */
  lemma {:induction false} FailedWriteLagsABatchMore(concurrency: int)
    requires 1 <= concurrency <= MAX_GAP
    ensures var q := CatchUpProgress(63, 63 + 2 * concurrency, concurrency, AllSucceed, AllThrow, 63, 0);
            !q.ok && q.synced - q.persisted == CHECKPOINT_INTERVAL + concurrency - 1
  {
    hide Outcome, Interval, Batches;
    var cappedTo, p := CappedTarget(63, 63 + 2 * concurrency), Progress([], [], 63, 0, Nothing, true);
    var p' := OneBatch(64, cappedTo, concurrency, AllSucceed, AllThrow, p);
    BatchesStep(64, cappedTo, concurrency, AllSucceed, AllThrow, p);
    BatchesStop(64 + concurrency, cappedTo, concurrency, AllSucceed, AllThrow, p');
  }

  // ---- What the numbers are ----

  /** A ledger is skipped when its first three attempts all fail. */
  lemma {:induction false} SkippedIff(fails: LedgerFails, ledger: int)
    ensures IsSkipped(fails, ledger) <==> fails(ledger, 0) && fails(ledger, 1) && fails(ledger, 2)
  {
    assert MAX_RETRIES == 3;
  }

  /** Every batch but the last is as large as the concurrency allows. */
  ghost predicate FullButLast(p: Progress, concurrency: int) {
    forall k :: 0 <= k < |p.attempted| - 1 ==> |p.attempted[k]| == concurrency
  }

  ghost predicate Full(p: Progress, concurrency: int) {
    forall k :: 0 <= k < |p.attempted| ==> |p.attempted[k]| == concurrency
  }

  lemma {:induction false} BatchesAreFull(
      start: int, cappedTo: int, concurrency: int, fails: LedgerFails, checkpointFails: CheckpointFails, p: Progress)
    requires concurrency >= 1 && Full(p, concurrency)
    ensures FullButLast(Batches(start, cappedTo, concurrency, fails, checkpointFails, p), concurrency)
    decreases cappedTo + 1 - start
  {
    hide Outcome, Block;
    if start <= cappedTo && p.ok {
      var p' := OneBatch(start, cappedTo, concurrency, fails, checkpointFails, p);
      if start + concurrency - 1 <= cappedTo {
        BatchesAreFull(start + concurrency, cappedTo, concurrency, fails, checkpointFails, p');
      } else {
        BatchesStop(start + concurrency, cappedTo, concurrency, fails, checkpointFails, p');
      }
    }
  }

  /** A batch leaves its block of 64 exactly when it contains a multiple of 64. */
  lemma {:induction false} CrossesIff(start: int, end: int)
    requires start <= end
    ensures Block(end) > Block(start - 1) <==> exists l :: start <= l <= end && l % 64 == 0
  {
    if Block(end) > Block(start - 1) {
      var l := Block(end) * 64;
      assert start <= l <= end && l % 64 == 0;
    }
    if l :| start <= l <= end && l % 64 == 0 {
      assert l / 64 > (start - 1) / 64;
    }
  }

  /** A checkpoint is due after a batch that contains a multiple of 64 or ends the catch-up. */
  ghost predicate IsDue(batch: seq<int>, end: int, cappedTo: int) {
    end == cappedTo || exists l :: l in batch && l % 64 == 0
  }

  /** The checkpoint before the k-th boundary. */
  function PersistedBefore(p: Progress, k: nat, persisted: int): int
    requires k <= |p.marks|
  {
    if k == 0 then persisted else p.marks[k - 1].persisted
  }

  ghost predicate WriteTells(p: Progress, k: nat, cappedTo: int, checkpointFails: CheckpointFails, persisted: int)
    requires k < |p.marks| && k < |p.attempted| && |p.attempted[k]| > 0
  {
    var end := p.attempted[k][|p.attempted[k]| - 1];
    var due := IsDue(p.attempted[k], end, cappedTo);
    && p.marks[k].synced == end
    && p.marks[k].failed == (due && checkpointFails(end))
    && p.marks[k].persisted == if due && !checkpointFails(end) then end else PersistedBefore(p, k, persisted)
  }

  /** The checkpoint is written exactly where it is due; otherwise it stays where it was. */
  ghost predicate WritesTell(p: Progress, cappedTo: int, checkpointFails: CheckpointFails, persisted: int) {
    && |p.marks| == |p.attempted|
    && (forall k :: 0 <= k < |p.attempted| ==> |p.attempted[k]| > 0)
    && forall k :: 0 <= k < |p.marks| ==> WriteTells(p, k, cappedTo, checkpointFails, persisted)
  }

  lemma {:induction false} OneBatchWrites(
      start: int, cappedTo: int, concurrency: int, fails: LedgerFails, checkpointFails: CheckpointFails, p: Progress,
      persisted: int)
    requires concurrency >= 1 && start <= cappedTo && WritesTell(p, cappedTo, checkpointFails, persisted)
    requires p.persisted == PersistedBefore(p, |p.marks|, persisted)
    ensures var p' := OneBatch(start, cappedTo, concurrency, fails, checkpointFails, p);
            && WritesTell(p', cappedTo, checkpointFails, persisted)
            && p'.persisted == PersistedBefore(p', |p'.marks|, persisted)
  {
    hide Outcome, Block, Interval;
    var end := Min(start + concurrency - 1, cappedTo);
    var b := Interval(start, end + 1);
    IntervalMembers(start, end + 1);
    IntervalEnds(start, end + 1);
    CrossesIff(start, end);
    if l :| l in b && l % 64 == 0 {
      assert start <= l <= end;
    }
    if l :| start <= l <= end && l % 64 == 0 {
      assert l in b;
    }
    assert IsDue(b, end, cappedTo) <==> Block(end) > Block(start - 1) || end == cappedTo;
    var p' := OneBatch(start, cappedTo, concurrency, fails, checkpointFails, p);
    forall k | 0 <= k < |p'.marks| ensures WriteTells(p', k, cappedTo, checkpointFails, persisted) {
      if k < |p.marks| {
        assert WriteTells(p, k, cappedTo, checkpointFails, persisted);
      }
    }
  }

  lemma {:induction false} IntervalEnds(lo: int, hi: int)
    requires lo < hi
    ensures |Interval(lo, hi)| > 0 && Interval(lo, hi)[|Interval(lo, hi)| - 1] == hi - 1
  {
  }

  lemma {:induction false} BatchesWrite(
      start: int, cappedTo: int, concurrency: int, fails: LedgerFails, checkpointFails: CheckpointFails, p: Progress,
      persisted: int)
    requires concurrency >= 1 && WritesTell(p, cappedTo, checkpointFails, persisted)
    requires p.persisted == PersistedBefore(p, |p.marks|, persisted)
    ensures var o := Batches(start, cappedTo, concurrency, fails, checkpointFails, p);
            WritesTell(o, cappedTo, checkpointFails, persisted)
    decreases cappedTo + 1 - start
  {
    hide OneBatch, WritesTell;
    if start <= cappedTo && p.ok {
      OneBatchWrites(start, cappedTo, concurrency, fails, checkpointFails, p, persisted);
      BatchesWrite(start + concurrency, cappedTo, concurrency, fails, checkpointFails,
                   OneBatch(start, cappedTo, concurrency, fails, checkpointFails, p), persisted);
    }
  }

  /**
   * A catch-up in numbers: it stops at the target or 172800 ledgers on, whichever is nearer, if no write throws; its
   * batches are full but for the last; and it writes the checkpoint after the batches with a multiple of 64 and at its
   * end.
   */
  lemma {:induction false} CatchUpInNumbers(
      from: int, to: int, concurrency: int, fails: LedgerFails, checkpointFails: CheckpointFails, synced: int,
      persisted: int)
    requires concurrency >= 1 && from < to
    ensures var q := CatchUpProgress(from, to, concurrency, fails, checkpointFails, synced, persisted);
            var target := if to <= from + 172_800 then to else from + 172_800;
            && (q.ok ==> q.synced == q.persisted == target)
            && FullButLast(q, concurrency)
            && WritesTell(q, target, checkpointFails, persisted)
  {
    hide Outcome, Interval, OneBatch, Batches, Concat, WritesTell;
    CatchUpCovers(from, to, concurrency, fails, checkpointFails, synced, persisted);
    var p := Progress([], [], synced, persisted, Nothing, true);
    BatchesAreFull(from + 1, CappedTarget(from, to), concurrency, fails, checkpointFails, p);
    NoWritesYet(p, CappedTarget(from, to), checkpointFails, persisted);
    BatchesWrite(from + 1, CappedTarget(from, to), concurrency, fails, checkpointFails, p, persisted);
  }

  lemma {:induction false} NoWritesYet(p: Progress, cappedTo: int, checkpointFails: CheckpointFails, persisted: int)
    requires p.attempted == [] && p.marks == []
    ensures WritesTell(p, cappedTo, checkpointFails, persisted)
  {
  }
}
