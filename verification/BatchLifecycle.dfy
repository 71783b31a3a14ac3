/**
 * Telemetry batches: any number of compactBatch, rotateBatch and ensureOpenBatch calls interleaved at every
 * await, over one table with row transactions and session advisory locks. `lockOf` is the batch-to-lock
 * mapping; nothing is assumed about it, so batches may share locks.
 */
module BatchLifecycle {
  import opened Sequences

  const BATCH_WINDOW_MS: int := 300_000

  type DeviceId = string
  type LockId = int

  datatype BatchState = OPEN | COMPACTING | CLOSED

  /** Rendered by the source as device, colon, start; see BatchIds.RenderingIsInjective. */
  datatype BatchId = BatchId(device: DeviceId, start: int)

  datatype Batch = Batch(device: DeviceId, start: int, end: int, state: BatchState)

  datatype Job = CompactBatch | RotateBatch | EnsureOpenBatch

  datatype Result = Skipped | Compacted | Nothing | Rotated(successor: BatchId) | Threw | Ensured(batch: Batch)

  datatype Pc =
    | Starting              // before the first query
    | Found                 // rotate: knows the open batch, before taking its lock
    | Locked                // holds the lock, before re-reading the row
    | SawOpen               // read OPEN under the lock, before the compare-and-set
    | Moved                 // rotate: compare-and-set done, not committed
    | Inserted              // rotate: successor inserted, not committed
    | Entering              // the move to COMPACTING is committed; doCompact comes next
    | Entered               // doCompact was entered and has returned
    | Releasing(result: Result)
    | Missing(bucket: int)  // ensure: saw no open batch, read the clock
    | Done(outcome: Result)
    | Died

  /** `id` and `end` describe the batch the worker works on, once it knows it. */
  datatype Worker = Worker(job: Job, id: BatchId, end: int, pc: Pc)

  datatype System = System(
    table: map<BatchId, Batch>,
    locks: map<LockId, nat>,
    workers: map<nat, Worker>,
    entered: seq<BatchId>,             // doCompact calls, in order
    rotated: map<BatchId, BatchId>)    // committed rotations

  const Empty: System := System(map[], map[], map[], [], map[])

  // ---- Queries ----

  ghost predicate IsOpen(table: map<BatchId, Batch>, id: BatchId) {
    id in table && table[id].state.OPEN?
  }

  /** SELECT ... WHERE device_id AND state = OPEN ORDER BY batch_start DESC LIMIT 1 */
  ghost predicate IsLatestOpen(table: map<BatchId, Batch>, device: DeviceId, found: Option<BatchId>) {
    match found
    case None => forall id :: IsOpen(table, id) ==> table[id].device != device
    case Some(b) =>
      && IsOpen(table, b) && table[b].device == device
      && forall id :: IsOpen(table, id) && table[id].device == device ==> table[id].start <= table[b].start
  }

  function Bucket(now: int): int {
    now - now % BATCH_WINDOW_MS
  }

  function NewBatch(id: BatchId): Batch {
    Batch(id.device, id.start, id.start + BATCH_WINDOW_MS, OPEN)
  }

  function Successor(w: Worker): BatchId {
    BatchId(w.id.device, w.end)
  }

  /** Some transaction has inserted this id and has not ended. */
  ghost predicate Pending(s: System, id: BatchId) {
    exists w :: w in s.workers && s.workers[w].pc.Inserted? && Successor(s.workers[w]) == id
  }

  // ---- Transitions ----

  datatype Event =
    | StartCompact(w: nat, id: BatchId)
    | StartRotate(w: nat, device: DeviceId)
    | StartEnsure(w: nat, device: DeviceId)
    | Look(w: nat, found: Option<BatchId>, now: int)   // getOpenBatch; ensure then reads the clock
    | TryLock(w: nat)
    | Recheck(w: nat)
    | Cas(w: nat)
    | InsertSuccessor(w: nat)
    | Commit(w: nat)
    | Enter(w: nat)
    | Close(w: nat)
    | Unlock(w: nat)
    | InsertBucket(w: nat)
    | Fail(w: nat)   // a query throws: any transaction is rolled back and the lock is released
    | Die(w: nat)    // the connection is lost: the same, without a result

  ghost predicate Enabled(s: System, e: Event) {
    match e
    case StartCompact(w, _) => w !in s.workers
    case StartRotate(w, _) => w !in s.workers
    case StartEnsure(w, _) => w !in s.workers
    case Look(w, found, now) =>
      && w in s.workers && s.workers[w].pc.Starting? && !s.workers[w].job.CompactBatch?
      && 0 <= now && IsLatestOpen(s.table, s.workers[w].id.device, found)
    case TryLock(w) =>
      w in s.workers && (s.workers[w].pc.Found? || (s.workers[w].pc.Starting? && s.workers[w].job.CompactBatch?))
    case Recheck(w) => w in s.workers && s.workers[w].pc.Locked?
    case Cas(w) => w in s.workers && s.workers[w].pc.SawOpen?
    case InsertSuccessor(w) => w in s.workers && s.workers[w].pc.Moved? && !Pending(s, Successor(s.workers[w]))
    case Commit(w) => w in s.workers && s.workers[w].pc.Inserted?
    case Enter(w) => w in s.workers && s.workers[w].pc.Entering?
    case Close(w) => w in s.workers && s.workers[w].pc.Entered?
    case Unlock(w) => w in s.workers && s.workers[w].pc.Releasing?
    case InsertBucket(w) =>
      && w in s.workers && s.workers[w].pc.Missing?
      && !Pending(s, BatchId(s.workers[w].id.device, s.workers[w].pc.bucket))
    case Fail(w) => w in s.workers && HoldsLock(s.workers[w].pc) && !s.workers[w].pc.Releasing?
    case Die(w) => w in s.workers && !s.workers[w].pc.Done? && !s.workers[w].pc.Died?
  }

  predicate HoldsLock(pc: Pc) {
    pc.Locked? || pc.SawOpen? || pc.Moved? || pc.Inserted? || pc.Entering? || pc.Entered? || pc.Releasing?
  }

  function Goto(s: System, w: nat, pc: Pc): map<nat, Worker>
    requires w in s.workers
  {
    s.workers[w := s.workers[w].(pc := pc)]
  }

  function WithoutLocksOf(s: System, w: nat): map<LockId, nat> {
    map k | k in s.locks && s.locks[k] != w :: s.locks[k]
  }

  /** UPDATE telemetry_batches SET state = to WHERE id AND state = from */
  function SetState(table: map<BatchId, Batch>, id: BatchId, from: BatchState, to: BatchState): map<BatchId, Batch> {
    if id in table && table[id].state == from then table[id := table[id].(state := to)] else table
  }

  function NothingDone(job: Job): Result {
    if job.CompactBatch? then Skipped else Nothing
  }

  ghost function Next(lockOf: BatchId -> LockId, s: System, e: Event): System
    requires Enabled(s, e)
  {
    match e
    case StartCompact(w, id) => s.(workers := s.workers[w := Worker(CompactBatch, id, 0, Starting)])
    case StartRotate(w, d) => s.(workers := s.workers[w := Worker(RotateBatch, BatchId(d, 0), 0, Starting)])
    case StartEnsure(w, d) => s.(workers := s.workers[w := Worker(EnsureOpenBatch, BatchId(d, 0), 0, Starting)])
    case Look(w, found, now) =>
      var me := s.workers[w];
      (match found
       case None =>
         s.(workers := Goto(s, w, if me.job.RotateBatch? then Done(Nothing) else Missing(Bucket(now))))
       case Some(b) =>
         if me.job.RotateBatch? then s.(workers := s.workers[w := Worker(RotateBatch, b, s.table[b].end, Found)])
         else s.(workers := Goto(s, w, Done(Ensured(s.table[b])))))
    case TryLock(w) =>
      var me := s.workers[w];
      if lockOf(me.id) in s.locks then s.(workers := Goto(s, w, Done(NothingDone(me.job))))
      else s.(workers := Goto(s, w, Locked), locks := s.locks[lockOf(me.id) := w])
    case Recheck(w) =>
      var me := s.workers[w];
      s.(workers := Goto(s, w, if IsOpen(s.table, me.id) then SawOpen else Releasing(NothingDone(me.job))))
    case Cas(w) =>
      var me := s.workers[w];
      if !IsOpen(s.table, me.id) then s.(workers := Goto(s, w, Releasing(NothingDone(me.job))))
      else if me.job.RotateBatch? then s.(workers := Goto(s, w, Moved))
      else s.(table := SetState(s.table, me.id, OPEN, COMPACTING), workers := Goto(s, w, Entering))
    case InsertSuccessor(w) =>
      // a successor that exists already violates the primary key: rollback and throw
      s.(workers := Goto(s, w, if Successor(s.workers[w]) in s.table then Releasing(Threw) else Inserted))
    case Commit(w) =>
      var me := s.workers[w];
      s.(table := SetState(s.table, me.id, OPEN, COMPACTING)[Successor(me) := NewBatch(Successor(me))],
         workers := Goto(s, w, Entering), rotated := s.rotated[me.id := Successor(me)])
    case Enter(w) => s.(entered := s.entered + [s.workers[w].id], workers := Goto(s, w, Entered))
    case Close(w) =>
      var me := s.workers[w];
      s.(table := SetState(s.table, me.id, COMPACTING, CLOSED),
         workers := Goto(s, w, Releasing(if me.job.RotateBatch? then Rotated(Successor(me)) else Compacted)))
    case Unlock(w) => s.(workers := Goto(s, w, Done(s.workers[w].pc.result)), locks := WithoutLocksOf(s, w))
    case InsertBucket(w) =>
      var id := BatchId(s.workers[w].id.device, s.workers[w].pc.bucket);
      s.(table := if id in s.table then s.table else s.table[id := NewBatch(id)],
         workers := Goto(s, w, Done(Ensured(NewBatch(id)))))
    case Fail(w) => s.(workers := Goto(s, w, Releasing(Threw)))
    case Die(w) => s.(workers := Goto(s, w, Died), locks := WithoutLocksOf(s, w))
  }

  ghost predicate Step(lockOf: BatchId -> LockId, s: System, s': System) {
    exists e :: Enabled(s, e) && s' == Next(lockOf, s, e)
  }

  ghost predicate IsRun(lockOf: BatchId -> LockId, run: seq<System>) {
    && |run| > 0 && run[0] == Empty
    && forall i :: 0 <= i < |run| - 1 ==> Step(lockOf, run[i], run[i + 1])
  }

  // ---- The invariant ----

  /** A batch is named after its device and start, starts on a window boundary and lasts one window. */
  predicate WellFormed(id: BatchId, b: Batch) {
    b.device == id.device && b.start == id.start && b.end == b.start + BATCH_WINDOW_MS && b.start % BATCH_WINDOW_MS == 0
  }

  ghost predicate TableInv(s: System) {
    forall id :: id in s.table ==> WellFormed(id, s.table[id])
  }

  /** doCompact was entered at most once per batch, never while it is OPEN, and always before it is CLOSED. */
  ghost predicate EnteredInv(s: System) {
    && NoDuplicates(s.entered)
    && (forall id :: id in s.entered ==> id in s.table && !s.table[id].state.OPEN?)
    && (forall id :: id in s.table && s.table[id].state.CLOSED? ==> id in s.entered)
  }

  ghost predicate RotatedInv(s: System) {
    forall id :: id in s.rotated ==>
                   && id in s.table && s.rotated[id] in s.table && !s.table[id].state.OPEN?
                   && s.rotated[id].device == id.device
                   && s.table[s.rotated[id]].start == s.table[id].end
  }

  ghost predicate LockInv(lockOf: BatchId -> LockId, s: System, w: nat, me: Worker) {
    HoldsLock(me.pc) ==> lockOf(me.id) in s.locks && s.locks[lockOf(me.id)] == w
  }

  ghost predicate WorkerInv(lockOf: BatchId -> LockId, s: System, w: nat, me: Worker) {
    && LockInv(lockOf, s, w, me)
    && (me.pc.SawOpen? || me.pc.Moved? || me.pc.Inserted? ==> IsOpen(s.table, me.id))
    && (me.pc.Entering? || me.pc.Entered? ==> me.id in s.table && s.table[me.id].state.COMPACTING?)
    && (me.pc.Entering? ==> me.id !in s.entered)
    && (me.pc.Entered? ==> me.id in s.entered)
    && (me.pc.Inserted? ==> Successor(me) !in s.table)
    && (me.pc.Found? || (me.job.RotateBatch? && HoldsLock(me.pc)) ==>
          me.id in s.table && me.end == s.table[me.id].end)
    && (me.pc.Moved? || me.pc.Inserted? ==> me.job.RotateBatch?)
    && (me.pc.Missing? ==> me.job.EnsureOpenBatch? && me.pc.bucket % BATCH_WINDOW_MS == 0)
  }

  ghost predicate WorkersInv(lockOf: BatchId -> LockId, s: System) {
    forall w :: w in s.workers ==> WorkerInv(lockOf, s, w, s.workers[w])
  }

  ghost predicate Inv(lockOf: BatchId -> LockId, s: System) {
    TableInv(s) && EnteredInv(s) && RotatedInv(s) && WorkersInv(lockOf, s)
  }

  // ---- Preservation ----

  lemma {:induction false} BucketIsAligned(now: int)
    ensures Bucket(now) % BATCH_WINDOW_MS == 0 && Bucket(now) <= now < Bucket(now) + BATCH_WINDOW_MS
  {
  }

  /** Under its lock, a worker's compare-and-set always applies: the lost-race branches are never taken. */
  lemma {:induction false} CasNeverRaces(lockOf: BatchId -> LockId, s: System, w: nat)
    requires WorkersInv(lockOf, s) && Enabled(s, Cas(w))
    ensures IsOpen(s.table, s.workers[w].id)
  {
    assert WorkerInv(lockOf, s, w, s.workers[w]);
  }

  lemma {:induction false} TableKept(lockOf: BatchId -> LockId, s: System, e: Event)
    requires TableInv(s) && WorkersInv(lockOf, s) && Enabled(s, e)
    ensures TableInv(Next(lockOf, s, e))
  {
    hide Pending, IsLatestOpen, WithoutLocksOf;
    if e.w in s.workers {
      assert WorkerInv(lockOf, s, e.w, s.workers[e.w]);
    }
  }

  function StateRank(s: BatchState): nat {
    match s case OPEN => 0 case COMPACTING => 1 case CLOSED => 2
  }

  /** No batch disappears, moves its window or goes back to an earlier state. */
  lemma {:induction false} BatchesOnlyMoveForward(lockOf: BatchId -> LockId, s: System, e: Event, id: BatchId)
    requires TableInv(s) && WorkersInv(lockOf, s) && Enabled(s, e) && id in s.table
    ensures var s' := Next(lockOf, s, e);
            && id in s'.table
            && s'.table[id].(state := OPEN) == s.table[id].(state := OPEN)
            && StateRank(s.table[id].state) <= StateRank(s'.table[id].state) <= StateRank(s.table[id].state) + 1
  {
    hide Pending, IsLatestOpen, WithoutLocksOf;
    if e.w in s.workers {
      assert WorkerInv(lockOf, s, e.w, s.workers[e.w]);
    }
  }

  /** doCompact is entered for a COMPACTING batch, for the first time. */
  lemma {:induction false} EnteringIsNew(lockOf: BatchId -> LockId, s: System, e: Event)
    requires WorkersInv(lockOf, s) && Enabled(s, e)
    ensures var s' := Next(lockOf, s, e);
            if e.Enter? then
              var id := s.workers[e.w].id;
              s'.entered == s.entered + [id] && id !in s.entered && id in s.table && s.table[id].state.COMPACTING?
            else s'.entered == s.entered
  {
    hide Pending, IsLatestOpen, WithoutLocksOf, SetState;
    if e.w in s.workers {
      assert WorkerInv(lockOf, s, e.w, s.workers[e.w]);
    }
  }

  lemma {:induction false} ClosingIsEntered(lockOf: BatchId -> LockId, s: System, e: Event, id: BatchId)
    requires WorkersInv(lockOf, s) && Enabled(s, e)
    ensures var s' := Next(lockOf, s, e);
            id in s'.table && s'.table[id].state.CLOSED? ==>
              (id in s.table && s.table[id].state.CLOSED?) || id in s.entered
  {
    hide Pending, IsLatestOpen, WithoutLocksOf;
    if e.w in s.workers {
      assert WorkerInv(lockOf, s, e.w, s.workers[e.w]);
    }
  }

  lemma {:induction false} EnteredKept(lockOf: BatchId -> LockId, s: System, e: Event)
    requires TableInv(s) && EnteredInv(s) && WorkersInv(lockOf, s) && Enabled(s, e)
    ensures EnteredInv(Next(lockOf, s, e))
  {
    hide Next, Enabled, WorkersInv, TableInv;
    var s' := Next(lockOf, s, e);
    EnteringIsNew(lockOf, s, e);
    forall id | id in s.table ensures id in s'.table && (!s.table[id].state.OPEN? ==> !s'.table[id].state.OPEN?) {
      BatchesOnlyMoveForward(lockOf, s, e, id);
    }
    forall id
      ensures id in s'.table && s'.table[id].state.CLOSED? ==>
                (id in s.table && s.table[id].state.CLOSED?) || id in s.entered
    {
      ClosingIsEntered(lockOf, s, e, id);
    }
  }

  /** Only a commit records a rotation: of its own batch, to the successor it inserts. */
  lemma {:induction false} RotationsAreCommits(lockOf: BatchId -> LockId, s: System, e: Event)
    requires TableInv(s) && WorkersInv(lockOf, s) && Enabled(s, e)
    ensures var s' := Next(lockOf, s, e);
            if e.Commit? then
              var me := s.workers[e.w];
              && me.id in s.table && s.rotated[me.id := Successor(me)] == s'.rotated
              && me.id in s'.table && !s'.table[me.id].state.OPEN?
              && Successor(me) in s'.table && s'.table[Successor(me)].start == s'.table[me.id].end
            else s'.rotated == s.rotated
  {
    hide Pending, IsLatestOpen, WithoutLocksOf;
    if e.w in s.workers {
      assert WorkerInv(lockOf, s, e.w, s.workers[e.w]);
    }
  }

  lemma {:induction false} RotatedKept(lockOf: BatchId -> LockId, s: System, e: Event)
    requires TableInv(s) && RotatedInv(s) && WorkersInv(lockOf, s) && Enabled(s, e)
    ensures RotatedInv(Next(lockOf, s, e))
  {
    hide Next, WorkersInv, TableInv, Enabled;
    RotationsAreCommits(lockOf, s, e);
    var s' := Next(lockOf, s, e);
    forall id | id in s.rotated
      ensures id in s'.table && s.rotated[id] in s'.table && !s'.table[id].state.OPEN?
              && s'.table[s.rotated[id]].start == s'.table[id].end
    {
      BatchesOnlyMoveForward(lockOf, s, e, id);
      BatchesOnlyMoveForward(lockOf, s, e, s.rotated[id]);
    }
  }

  lemma {:induction false} OtherLockKept(lockOf: BatchId -> LockId, s: System, e: Event, o: nat)
    requires WorkersInv(lockOf, s) && Enabled(s, e)
    requires o in s.workers && o != e.w
    ensures LockInv(lockOf, Next(lockOf, s, e), o, s.workers[o])
  {
    hide Pending, IsLatestOpen, SetState, IsOpen;
    assert WorkerInv(lockOf, s, o, s.workers[o]);
  }

  /** A row is written only by the worker that holds its lock. */
  lemma {:induction false} WritesHoldTheLock(lockOf: BatchId -> LockId, s: System, e: Event, id: BatchId)
    requires WorkersInv(lockOf, s) && Enabled(s, e) && id in s.table
    ensures var s' := Next(lockOf, s, e);
            && id in s'.table
            && (s'.table[id] != s.table[id] ==>
                 e.w in s.workers && s.workers[e.w].id == id && HoldsLock(s.workers[e.w].pc))
  {
    hide Pending, IsLatestOpen, WithoutLocksOf;
    if e.w in s.workers {
      assert WorkerInv(lockOf, s, e.w, s.workers[e.w]);
    }
  }

  /** Where new rows come from. */
  lemma {:induction false} NewRows(lockOf: BatchId -> LockId, s: System, e: Event, id: BatchId)
    requires Enabled(s, e) && id !in s.table
    ensures id in Next(lockOf, s, e).table ==>
              e.w in s.workers
              && ((s.workers[e.w].pc.Inserted? && id == Successor(s.workers[e.w]))
                   || (e.InsertBucket? && !Pending(s, id)))
  {
    hide Pending, IsLatestOpen, WithoutLocksOf;
  }

  /** Two rotations never insert the same successor. */
  lemma {:induction false} SuccessorsDiffer(lockOf: BatchId -> LockId, s: System, v: nat, w: nat)
    requires TableInv(s) && WorkersInv(lockOf, s) && v in s.workers && w in s.workers && v != w
    requires s.workers[v].pc.Inserted? && s.workers[w].pc.Inserted?
    ensures Successor(s.workers[v]) != Successor(s.workers[w])
  {
    assert WorkerInv(lockOf, s, v, s.workers[v]) && WorkerInv(lockOf, s, w, s.workers[w]);
  }

  lemma {:induction false} OtherWorkerKept(lockOf: BatchId -> LockId, s: System, e: Event, o: nat)
    requires TableInv(s) && WorkersInv(lockOf, s) && Enabled(s, e)
    requires o in s.workers && o != e.w
    ensures WorkerInv(lockOf, Next(lockOf, s, e), o, s.workers[o])
  {
    hide Enabled, Next, Successor;
    var s', me := Next(lockOf, s, e), s.workers[o];
    assert WorkerInv(lockOf, s, o, me);
    OtherLockKept(lockOf, s, e, o);
    EnteringIsNew(lockOf, s, e);
    if e.Enter? {
      EntererHasTheLock(lockOf, s, e);
    }
    if me.id in s.table {
      WritesHoldTheLock(lockOf, s, e, me.id);
      BatchesOnlyMoveForward(lockOf, s, e, me.id);
      assert e.w in s.workers ==> LockInv(lockOf, s, e.w, s.workers[e.w]);
    }
    if me.pc.Inserted? {
      NewRows(lockOf, s, e, Successor(me));
      if e.w in s.workers && s.workers[e.w].pc.Inserted? {
        SuccessorsDiffer(lockOf, s, e.w, o);
      }
    }
  }

  lemma {:induction false} EntererHasTheLock(lockOf: BatchId -> LockId, s: System, e: Event)
    requires WorkersInv(lockOf, s) && Enabled(s, e) && e.Enter?
    ensures e.w in s.workers && LockInv(lockOf, s, e.w, s.workers[e.w]) && HoldsLock(s.workers[e.w].pc)
  {
    assert WorkerInv(lockOf, s, e.w, s.workers[e.w]);
  }

  lemma {:induction false} StarterKept(lockOf: BatchId -> LockId, s: System, e: Event)
    requires Inv(lockOf, s) && Enabled(s, e) && (e.StartCompact? || e.StartRotate? || e.StartEnsure?)
    ensures WorkerInv(lockOf, Next(lockOf, s, e), e.w, Next(lockOf, s, e).workers[e.w])
  {
  }

  lemma {:induction false} LookerKept(lockOf: BatchId -> LockId, s: System, e: Event)
    requires Inv(lockOf, s) && Enabled(s, e) && (e.Look?)
    ensures WorkerInv(lockOf, Next(lockOf, s, e), e.w, Next(lockOf, s, e).workers[e.w])
  {
    assert WorkerInv(lockOf, s, e.w, s.workers[e.w]);
    BucketIsAligned(e.now);
  }

  lemma {:induction false} LockerKept(lockOf: BatchId -> LockId, s: System, e: Event)
    requires Inv(lockOf, s) && Enabled(s, e) && (e.TryLock? || e.Recheck?)
    ensures WorkerInv(lockOf, Next(lockOf, s, e), e.w, Next(lockOf, s, e).workers[e.w])
  {
    assert WorkerInv(lockOf, s, e.w, s.workers[e.w]);
  }

  lemma {:induction false} ChangerKept(lockOf: BatchId -> LockId, s: System, e: Event)
    requires Inv(lockOf, s) && Enabled(s, e) && (e.Cas? || e.InsertSuccessor?)
    ensures WorkerInv(lockOf, Next(lockOf, s, e), e.w, Next(lockOf, s, e).workers[e.w])
  {
    assert WorkerInv(lockOf, s, e.w, s.workers[e.w]);
  }

  lemma {:induction false} CommitterKept(lockOf: BatchId -> LockId, s: System, e: Event)
    requires Inv(lockOf, s) && Enabled(s, e) && (e.Commit?)
    ensures WorkerInv(lockOf, Next(lockOf, s, e), e.w, Next(lockOf, s, e).workers[e.w])
  {
    assert WorkerInv(lockOf, s, e.w, s.workers[e.w]);
  }

  lemma {:induction false} CompactorKept(lockOf: BatchId -> LockId, s: System, e: Event)
    requires Inv(lockOf, s) && Enabled(s, e) && (e.Enter? || e.Close?)
    ensures WorkerInv(lockOf, Next(lockOf, s, e), e.w, Next(lockOf, s, e).workers[e.w])
  {
    assert WorkerInv(lockOf, s, e.w, s.workers[e.w]);
  }

  lemma {:induction false} LeaverKept(lockOf: BatchId -> LockId, s: System, e: Event)
    requires Inv(lockOf, s) && Enabled(s, e) && (e.Unlock? || e.InsertBucket? || e.Fail? || e.Die?)
    ensures WorkerInv(lockOf, Next(lockOf, s, e), e.w, Next(lockOf, s, e).workers[e.w])
  {
    assert WorkerInv(lockOf, s, e.w, s.workers[e.w]);
  }

  lemma {:induction false} MovingWorkerKept(lockOf: BatchId -> LockId, s: System, e: Event)
    requires Inv(lockOf, s) && Enabled(s, e)
    ensures WorkerInv(lockOf, Next(lockOf, s, e), e.w, Next(lockOf, s, e).workers[e.w])
  {
    match e
    case Look(_, _, _) => LookerKept(lockOf, s, e);
    case TryLock(_) => LockerKept(lockOf, s, e);
    case Recheck(_) => LockerKept(lockOf, s, e);
    case Cas(_) => ChangerKept(lockOf, s, e);
    case InsertSuccessor(_) => ChangerKept(lockOf, s, e);
    case Commit(_) => CommitterKept(lockOf, s, e);
    case Enter(_) => CompactorKept(lockOf, s, e);
    case Close(_) => CompactorKept(lockOf, s, e);
    case Unlock(_) => LeaverKept(lockOf, s, e);
    case InsertBucket(_) => LeaverKept(lockOf, s, e);
    case Fail(_) => LeaverKept(lockOf, s, e);
    case Die(_) => LeaverKept(lockOf, s, e);
    case _ => StarterKept(lockOf, s, e);
  }

  lemma {:induction false} OthersStay(lockOf: BatchId -> LockId, s: System, e: Event, w: nat)
    requires Enabled(s, e) && w != e.w
    ensures var s' := Next(lockOf, s, e); w in s'.workers <==> w in s.workers
    ensures var s' := Next(lockOf, s, e); w in s.workers ==> s'.workers[w] == s.workers[w]
  {
    hide Pending, IsLatestOpen, WithoutLocksOf, SetState, IsOpen;
  }

  lemma {:induction false} NextKeepsInv(lockOf: BatchId -> LockId, s: System, e: Event)
    requires Inv(lockOf, s) && Enabled(s, e)
    ensures Inv(lockOf, Next(lockOf, s, e))
  {
    hide Next, Enabled, TableInv, EnteredInv, RotatedInv, WorkerInv;
    TableKept(lockOf, s, e);
    EnteredKept(lockOf, s, e);
    RotatedKept(lockOf, s, e);
    var s' := Next(lockOf, s, e);
    forall o | o in s'.workers ensures WorkerInv(lockOf, s', o, s'.workers[o]) {
      if o == e.w {
        MovingWorkerKept(lockOf, s, e);
      } else {
        OthersStay(lockOf, s, e, o);
        OtherWorkerKept(lockOf, s, e, o);
      }
    }
  }

  lemma {:induction false} RunsAreSafe(lockOf: BatchId -> LockId, run: seq<System>, i: nat)
    requires IsRun(lockOf, run) && i < |run|
    ensures Inv(lockOf, run[i])
  {
    if i > 0 {
      RunsAreSafe(lockOf, run, i - 1);
      assert Step(lockOf, run[i - 1], run[i - 1 + 1]);
      var e :| Enabled(run[i - 1], e) && run[i] == Next(lockOf, run[i - 1], e);
      NextKeepsInv(lockOf, run[i - 1], e);
    }
  }

  // ---- What the invariant gives ----

  /** The windows of a device's batches are aligned, one window long and pairwise disjoint. */
  lemma {:induction false} WindowsAreDisjoint(
      lockOf: BatchId -> LockId, run: seq<System>, i: nat, a: BatchId, b: BatchId)
    requires IsRun(lockOf, run) && i < |run| && a in run[i].table && b in run[i].table
    requires a != b && run[i].table[a].device == run[i].table[b].device
    ensures WellFormed(a, run[i].table[a]) && WellFormed(b, run[i].table[b])
    ensures run[i].table[a].end <= run[i].table[b].start || run[i].table[b].end <= run[i].table[a].start
  {
    RunsAreSafe(lockOf, run, i);
    var x, y := run[i].table[a].start, run[i].table[b].start;
    assert x == x / BATCH_WINDOW_MS * BATCH_WINDOW_MS && y == y / BATCH_WINDOW_MS * BATCH_WINDOW_MS;
  }

  /** A committed rotation has a successor of the same device that starts at the old end: no gap, no overlap. */
  lemma {:induction false} RotationLeavesNoGap(lockOf: BatchId -> LockId, run: seq<System>, i: nat, id: BatchId)
    requires IsRun(lockOf, run) && i < |run| && id in run[i].rotated
    ensures id in run[i].table && run[i].rotated[id] in run[i].table
    ensures var old_, new_ := run[i].table[id], run[i].table[run[i].rotated[id]];
            new_.device == old_.device && new_.start == old_.end && !old_.state.OPEN?
  {
    RunsAreSafe(lockOf, run, i);
  }

  /** doCompact is entered at most once per batch, and a batch is CLOSED only after it was. */
  lemma {:induction false} CompactedAtMostOnce(lockOf: BatchId -> LockId, run: seq<System>, i: nat)
    requires IsRun(lockOf, run) && i < |run|
    ensures NoDuplicates(run[i].entered)
    ensures forall id :: id in run[i].table && run[i].table[id].state.CLOSED? ==> id in run[i].entered
    ensures forall id :: id in run[i].entered ==> id in run[i].table && !run[i].table[id].state.OPEN?
  {
    RunsAreSafe(lockOf, run, i);
  }

  /** Over a run: a batch keeps its device and window for ever, and its state never goes back. */
  lemma {:induction false} BatchesNeverGoBack(lockOf: BatchId -> LockId, run: seq<System>, i: nat, j: nat, id: BatchId)
    requires IsRun(lockOf, run) && i <= j < |run| && id in run[i].table
    ensures id in run[j].table
    ensures run[j].table[id].(state := OPEN) == run[i].table[id].(state := OPEN)
    ensures StateRank(run[i].table[id].state) <= StateRank(run[j].table[id].state)
  {
    hide Enabled, Next, WorkersInv, TableInv, EnteredInv, RotatedInv;
    if i < j {
      BatchesNeverGoBack(lockOf, run, i, j - 1, id);
      RunsAreSafe(lockOf, run, j - 1);
      assert Step(lockOf, run[j - 1], run[j - 1 + 1]);
      var e :| Enabled(run[j - 1], e) && run[j] == Next(lockOf, run[j - 1], e);
      BatchesOnlyMoveForward(lockOf, run[j - 1], e, id);
    }
  }
}

/** Batch identifiers as text. */
module BatchIds {
  import opened BatchLifecycle

  function Decimal(n: nat): (s: string)
    ensures |s| > 0 && forall i :: 0 <= i < |s| ==> '0' <= s[i] <= '9'
  {
    if n < 10 then [('0' as int + n) as char] else Decimal(n / 10) + [('0' as int + n % 10) as char]
  }

  function Integer(n: int): (s: string)
    ensures forall i :: 0 <= i < |s| ==> s[i] != ':'
  {
    if n < 0 then "-" + Decimal(-n) else Decimal(n)
  }

  function NewBatchId(id: BatchId): string {
    id.device + ":" + Integer(id.start)
  }

  lemma {:induction false} DecimalIsInjective(a: nat, b: nat)
    requires Decimal(a) == Decimal(b)
    ensures a == b
  {
    var s, t := Decimal(a), Decimal(b);
    assert s[|s| - 1] == t[|t| - 1];
    if a >= 10 && b >= 10 {
      assert s[..|s| - 1] == Decimal(a / 10) && t[..|t| - 1] == Decimal(b / 10);
      DecimalIsInjective(a / 10, b / 10);
    }
  }

  lemma {:induction false} IntegerIsInjective(a: int, b: int)
    requires Integer(a) == Integer(b)
    ensures a == b
  {
    assert Integer(a)[0] == Integer(b)[0];
    if a < 0 {
      assert Integer(a)[1..] == Decimal(-a) && Integer(b)[1..] == Decimal(-b);
      DecimalIsInjective(-a, -b);
    } else {
      DecimalIsInjective(a, b);
    }
  }

  /** What follows the last colon cannot be the shorter of two colon-free suffixes. */
  lemma {:induction false} SuffixAfterColon(s: string, x: string, y: string)
    requires |x| < |s| && |y| <= |s| && s[|s| - |x| - 1] == ':'
    requires y == s[|s| - |y|..] && forall i :: 0 <= i < |y| ==> y[i] != ':'
    ensures |y| <= |x|
  {
    assert forall k :: |s| - |y| <= k < |s| ==> s[k] == y[k - (|s| - |y|)];
  }

  /** Distinct (device, start) pairs have distinct identifiers, even when device names contain colons. */
  lemma {:induction false} RenderingIsInjective(a: BatchId, b: BatchId)
    requires NewBatchId(a) == NewBatchId(b)
    ensures a == b
  {
    var s, x, y := NewBatchId(a), Integer(a.start), Integer(b.start);
    SuffixAfterColon(s, x, y);
    SuffixAfterColon(s, y, x);
    assert x == s[|s| - |x|..] == y;
    IntegerIsInjective(a.start, b.start);
    assert a.device == s[..|s| - |x| - 1] == b.device;
  }

  /** The device, a colon, and the start in milliseconds. */
  lemma {:induction false} ExampleIdentifier(device: DeviceId)
    ensures NewBatchId(BatchId(device, 300_000)) == device + ":300000"
  {
    assert Decimal(3) == "3" && Decimal(30) == "30" && Decimal(300) == "300";
    assert Decimal(3_000) == "3000" && Decimal(30_000) == "30000";
    assert device + ":" + "300000" == device + ":300000";
  }
}
