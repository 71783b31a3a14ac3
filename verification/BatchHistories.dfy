/**
 * What whole runs of batch workers do: which batches end up stranded in COMPACTING, what a rotation that failed
 * has changed, how many OPEN batches a device has, and runs that reach the states the results speak of.
 */
module BatchHistories {
  import opened Sequences
  import opened BatchLifecycle

  // ---- Runs with their events ----

  ghost predicate StepBy(lockOf: BatchId -> LockId, s: System, e: Event, s': System) {
    Enabled(s, e) && s' == Next(lockOf, s, e)
  }

  ghost predicate IsTrace(lockOf: BatchId -> LockId, run: seq<System>, events: seq<Event>) {
    && |run| == |events| + 1 && run[0] == Empty
    && forall i :: 0 <= i < |events| ==> StepBy(lockOf, run[i], events[i], run[i + 1])
  }

  lemma {:induction false} TraceIsRun(lockOf: BatchId -> LockId, run: seq<System>, events: seq<Event>)
    requires IsTrace(lockOf, run, events)
    ensures IsRun(lockOf, run)
  {
    hide Enabled, Next;
    forall i | 0 <= i < |run| - 1 ensures Step(lockOf, run[i], run[i + 1]) {
      assert StepBy(lockOf, run[i], events[i], run[i + 1]);
    }
  }

  lemma {:induction false} EventsUpTo(lockOf: BatchId -> LockId, run: seq<System>, n: nat) returns (events: seq<Event>)
    requires IsRun(lockOf, run) && n < |run|
    ensures |events| == n && forall i :: 0 <= i < n ==> StepBy(lockOf, run[i], events[i], run[i + 1])
  {
    hide Enabled, Next;
    if n == 0 {
      events := [];
    } else {
      events := EventsUpTo(lockOf, run, n - 1);
      assert Step(lockOf, run[n - 1], run[n - 1 + 1]);
      var e :| Enabled(run[n - 1], e) && run[n] == Next(lockOf, run[n - 1], e);
      events := events + [e];
    }
  }

  /** Every run has its events. */
  lemma {:induction false} RunHasEvents(lockOf: BatchId -> LockId, run: seq<System>) returns (events: seq<Event>)
    requires IsRun(lockOf, run)
    ensures IsTrace(lockOf, run, events)
  {
    hide StepBy;
    events := EventsUpTo(lockOf, run, |run| - 1);
  }

  // ---- Stranded batches ----

  predicate HasInHand(s: System, w: nat, id: BatchId) {
    w in s.workers && s.workers[w].id == id && (s.workers[w].pc.Entering? || s.workers[w].pc.Entered?)
  }

  /** Somebody is on the way to closing this batch. */
  ghost predicate InHand(s: System, id: BatchId) {
    exists w :: HasInHand(s, w, id)
  }

  predicate IsCompacting(table: map<BatchId, Batch>, id: BatchId) {
    id in table && table[id].state.COMPACTING?
  }

  /** COMPACTING, and nobody will close it. */
  ghost predicate Stranded(s: System, id: BatchId) {
    IsCompacting(s.table, id) && !InHand(s, id)
  }

  /** The worker that has this batch in hand throws or dies. */
  predicate Strands(s: System, e: Event, id: BatchId) {
    (e.Fail? || e.Die?) && HasInHand(s, e.w, id)
  }

  /** A batch turns COMPACTING in the hand of the worker that moves it. */
  lemma {:induction false} NewlyCompacting(lockOf: BatchId -> LockId, s: System, e: Event, id: BatchId)
    requires WorkersInv(lockOf, s) && Enabled(s, e) && !IsCompacting(s.table, id)
    ensures IsCompacting(Next(lockOf, s, e).table, id) ==> HasInHand(Next(lockOf, s, e), e.w, id)
  {
    hide Pending, IsLatestOpen, WithoutLocksOf;
    if e.w in s.workers {
      assert WorkerInv(lockOf, s, e.w, s.workers[e.w]);
    }
  }

  /** It stops being COMPACTING only when the worker that has it in hand closes it. */
  lemma {:induction false} LeavesCompacting(lockOf: BatchId -> LockId, s: System, e: Event, id: BatchId)
    requires WorkersInv(lockOf, s) && Enabled(s, e) && IsCompacting(s.table, id)
    ensures var s' := Next(lockOf, s, e);
            IsCompacting(s'.table, id) <==> !(e.Close? && HasInHand(s, e.w, id))
  {
    hide Pending, IsLatestOpen, WithoutLocksOf;
    if e.w in s.workers {
      assert WorkerInv(lockOf, s, e.w, s.workers[e.w]);
    }
  }

  /** What a step does to the hand of the worker that takes it. */
  lemma {:induction false} HandChanges(lockOf: BatchId -> LockId, s: System, e: Event, id: BatchId)
    requires WorkersInv(lockOf, s) && Enabled(s, e)
    ensures var s' := Next(lockOf, s, e);
            && (HasInHand(s, e.w, id) && !HasInHand(s', e.w, id) ==> e.Fail? || e.Die? || e.Close?)
            && (HasInHand(s, e.w, id) && HasInHand(s', e.w, id) ==> e.Enter?)
            && (!HasInHand(s, e.w, id) && HasInHand(s', e.w, id) ==> IsOpen(s.table, id))
  {
    hide Pending, IsLatestOpen, WithoutLocksOf, SetState;
    if e.w in s.workers {
      assert WorkerInv(lockOf, s, e.w, s.workers[e.w]);
    }
  }

  lemma {:induction false} OtherHandsStay(lockOf: BatchId -> LockId, s: System, e: Event, id: BatchId)
    requires Enabled(s, e)
    ensures forall o :: o != e.w ==> (HasInHand(Next(lockOf, s, e), o, id) <==> HasInHand(s, o, id))
  {
    hide Next, Enabled;
    forall o | o != e.w ensures HasInHand(Next(lockOf, s, e), o, id) <==> HasInHand(s, o, id) {
      OthersStay(lockOf, s, e, o);
    }
  }

  /** Its lock keeps a batch in one hand. */
  lemma {:induction false} OneHand(lockOf: BatchId -> LockId, s: System, id: BatchId, v: nat, w: nat)
    requires WorkersInv(lockOf, s) && HasInHand(s, v, id) && HasInHand(s, w, id)
    ensures v == w
  {
    assert WorkerInv(lockOf, s, v, s.workers[v]) && WorkerInv(lockOf, s, w, s.workers[w]);
  }

  /** A batch becomes stranded exactly when the worker that has it in hand throws or dies. */
  lemma {:induction false} BecomesStrandedIff(lockOf: BatchId -> LockId, s: System, e: Event, id: BatchId)
    requires Inv(lockOf, s) && Enabled(s, e) && !Stranded(s, id)
    ensures Stranded(Next(lockOf, s, e), id) <==> Strands(s, e, id)
  {
    hide Next, Enabled, WorkersInv, TableInv, EnteredInv, RotatedInv, HasInHand;
    var s' := Next(lockOf, s, e);
    HandChanges(lockOf, s, e, id);
    OtherHandsStay(lockOf, s, e, id);
    if IsCompacting(s.table, id) {
      LeavesCompacting(lockOf, s, e, id);
      var w :| HasInHand(s, w, id);
      forall o | HasInHand(s, o, id) ensures o == w {
        OneHand(lockOf, s, id, o, w);
      }
    } else {
      NewlyCompacting(lockOf, s, e, id);
      InHandIsCompacting(lockOf, s, e.w, id);
    }
  }

  lemma {:induction false} InHandIsCompacting(lockOf: BatchId -> LockId, s: System, w: nat, id: BatchId)
    requires WorkersInv(lockOf, s)
    ensures HasInHand(s, w, id) ==> IsCompacting(s.table, id)
  {
    if w in s.workers {
      assert WorkerInv(lockOf, s, w, s.workers[w]);
    }
  }

  /** A stranded batch stays so, and is never compacted again. */
  lemma {:induction false} StrandedBatchesStayStranded(lockOf: BatchId -> LockId, s: System, e: Event, id: BatchId)
    requires Inv(lockOf, s) && Enabled(s, e) && Stranded(s, id)
    ensures Stranded(Next(lockOf, s, e), id)
    ensures id in Next(lockOf, s, e).entered <==> id in s.entered
  {
    hide Next, Enabled, WorkersInv, TableInv, EnteredInv, RotatedInv, HasInHand;
    HandChanges(lockOf, s, e, id);
    OtherHandsStay(lockOf, s, e, id);
    LeavesCompacting(lockOf, s, e, id);
    EnteringIsInHand(lockOf, s, e);
    assert !HasInHand(s, e.w, id);
  }

  lemma {:induction false} EnteringIsInHand(lockOf: BatchId -> LockId, s: System, e: Event)
    requires Enabled(s, e)
    ensures Next(lockOf, s, e).entered == s.entered
         || exists id :: HasInHand(s, e.w, id) && Next(lockOf, s, e).entered == s.entered + [id]
  {
    hide Pending, IsLatestOpen, WithoutLocksOf, SetState;
    assert e.Enter? ==> HasInHand(s, e.w, s.workers[e.w].id);
  }

  /** Over a run: once stranded, a batch is stranded at every later state, and its compactions are over. */
  lemma {:induction false} StrandedForEver(lockOf: BatchId -> LockId, run: seq<System>, i: nat, j: nat, id: BatchId)
    requires IsRun(lockOf, run) && i <= j < |run| && Stranded(run[i], id)
    ensures Stranded(run[j], id) && (id in run[j].entered <==> id in run[i].entered)
  {
    hide Enabled, Next, Inv, Stranded;
    if i < j {
      StrandedForEver(lockOf, run, i, j - 1, id);
      RunsAreSafe(lockOf, run, j - 1);
      assert Step(lockOf, run[j - 1], run[j - 1 + 1]);
      var e :| Enabled(run[j - 1], e) && run[j] == Next(lockOf, run[j - 1], e);
      StrandedBatchesStayStranded(lockOf, run[j - 1], e, id);
    }
  }

  /** Over a run: a batch is stranded exactly when some worker that had it in hand threw or died. */
  lemma {:induction false} StrandedIff(
      lockOf: BatchId -> LockId, run: seq<System>, events: seq<Event>, n: nat, id: BatchId)
    requires IsTrace(lockOf, run, events) && n < |run|
    ensures Stranded(run[n], id) <==> exists k :: 0 <= k < n && Strands(run[k], events[k], id)
  {
    hide Enabled, Next, Inv, Stranded, Strands;
    if n == 0 {
      EmptyStrandsNothing(id);
    } else {
      StrandedIff(lockOf, run, events, n - 1, id);
      TraceIsRun(lockOf, run, events);
      RunsAreSafe(lockOf, run, n - 1);
      assert StepBy(lockOf, run[n - 1], events[n - 1], run[n - 1 + 1]);
      if Stranded(run[n - 1], id) {
        StrandedBatchesStayStranded(lockOf, run[n - 1], events[n - 1], id);
      } else {
        BecomesStrandedIff(lockOf, run[n - 1], events[n - 1], id);
      }
    }
  }

  lemma {:induction false} EmptyStrandsNothing(id: BatchId)
    ensures !Stranded(Empty, id)
  {
  }

  // ---- Rotations that fail ----

  /** The w-th worker's own step changed the table. */
  predicate Changed(run: seq<System>, events: seq<Event>, k: nat, w: nat)
    requires k < |events| && |run| == |events| + 1
  {
    events[k].w == w && run[k + 1].table != run[k].table
  }

  ghost predicate Committed(events: seq<Event>, n: nat, w: nat)
    requires n <= |events|
  {
    exists k :: 0 <= k < n && events[k] == Commit(w)
  }

  ghost predicate Closed(events: seq<Event>, n: nat, w: nat)
    requires n <= |events|
  {
    exists k :: 0 <= k < n && events[k] == Close(w)
  }

  /** The worker threw, or lost its connection. */
  predicate Failed(pc: Pc) {
    pc in {Releasing(Threw), Done(Threw), Died}
  }

  /** How far the log of a rotation goes, by where it stands. */
  ghost predicate History(s: System, events: seq<Event>, n: nat, w: nat)
    requires n <= |events|
  {
    var committed, closed := Committed(events, n, w), Closed(events, n, w);
    if w !in s.workers then !committed && !closed
    else s.workers[w].job.RotateBatch? ==>
      match s.workers[w].pc
      case Entering => committed && !closed
      case Entered => committed && !closed
      case Releasing(r) => if r.Rotated? then committed && closed else !closed && (committed ==> r == Threw)
      case Done(r) => if r.Rotated? then committed && closed else !closed && (committed ==> r == Threw)
      case Died => closed ==> committed
      case _ => !committed && !closed
  }

  /**
   * The worker's batch was OPEN and its successor absent; the table differs by the one COMPACTING and the other OPEN.
   */
  ghost predicate Rotates(s: System, table': map<BatchId, Batch>, w: nat) {
    && w in s.workers
    && var old_, new_ := s.workers[w].id, Successor(s.workers[w]);
      && IsOpen(s.table, old_) && new_ !in s.table
      && table' == s.table[old_ := s.table[old_].(state := COMPACTING)][new_ := NewBatch(new_)]
  }

  /** The only steps of a rotation that write, and what they write. */
  lemma {:induction false} RotationWrites(lockOf: BatchId -> LockId, s: System, e: Event)
    requires WorkersInv(lockOf, s) && Enabled(s, e) && e.w in s.workers && s.workers[e.w].job.RotateBatch?
    ensures var s', me := Next(lockOf, s, e), s.workers[e.w];
            && (s'.table != s.table <==> e.Commit? || e.Close?)
            && (e.Commit? ==> Rotates(s, s'.table, e.w))
            && (e.Close? ==> s'.table == s.table[me.id := s.table[me.id].(state := CLOSED)])
  {
    hide Pending, IsLatestOpen, WithoutLocksOf;
    assert WorkerInv(lockOf, s, e.w, s.workers[e.w]);
    assert e.Commit? ==> Next(lockOf, s, e).table[Successor(s.workers[e.w])] == NewBatch(Successor(s.workers[e.w]));
    assert e.Close? ==> Next(lockOf, s, e).table[s.workers[e.w].id].state.CLOSED?;
  }

  lemma {:induction false} StartingWritesNothing(lockOf: BatchId -> LockId, s: System, e: Event)
    requires Enabled(s, e) && e.w !in s.workers
    ensures Next(lockOf, s, e).table == s.table && !e.Commit? && !e.Close?
  {
    hide Pending, IsLatestOpen;
  }

  /** Workers stay, and keep their job. */
  lemma {:induction false} JobIsKept(lockOf: BatchId -> LockId, s: System, e: Event, w: nat)
    requires Enabled(s, e) && w in s.workers
    ensures w in Next(lockOf, s, e).workers && Next(lockOf, s, e).workers[w].job == s.workers[w].job
  {
    hide Pending, IsLatestOpen, WithoutLocksOf, SetState, IsOpen;
  }

  lemma {:induction false} JobIsKeptOverRuns(
      lockOf: BatchId -> LockId, run: seq<System>, events: seq<Event>, i: nat, n: nat, w: nat)
    requires IsTrace(lockOf, run, events) && i <= n < |run| && w in run[i].workers
    ensures w in run[n].workers && run[n].workers[w].job == run[i].workers[w].job
  {
    hide Enabled, Next;
    if i < n {
      JobIsKeptOverRuns(lockOf, run, events, i, n - 1, w);
      assert StepBy(lockOf, run[n - 1], events[n - 1], run[n - 1 + 1]);
      JobIsKept(lockOf, run[n - 1], events[n - 1], w);
    }
  }

  lemma {:induction false} OneEventMore(events: seq<Event>, n: nat, w: nat)
    requires n < |events|
    ensures Committed(events, n + 1, w) <==> Committed(events, n, w) || events[n] == Commit(w)
    ensures Closed(events, n + 1, w) <==> Closed(events, n, w) || events[n] == Close(w)
  {
  }

  /** Before the commit. */
  predicate Early(pc: Pc) {
    pc.Starting? || pc.Found? || pc.Locked? || pc.SawOpen? || pc.Moved? || pc.Inserted?
  }

  /** How a rotation can move. */
  predicate RotationMoves(e: Event, pc: Pc, pc': Pc) {
    match pc'
    case Entering => e.Commit? && Early(pc)
    case Entered => e.Enter? && pc.Entering?
    case Releasing(r) =>
      if e.Close? then pc.Entered? && r.Rotated?
      else if e.Fail? then r == Threw && (Early(pc) || pc.Entering? || pc.Entered?)
      else !e.Commit? && Early(pc) && r in {Nothing, Threw}
    case Done(r) => !e.Commit? && !e.Close? && (pc == Releasing(r) || (Early(pc) && r == Nothing))
    case Died => e.Die? && !pc.Died?
    case _ => Early(pc') && Early(pc) && !e.Commit? && !e.Close?
  }

  lemma {:induction false} RotationsMove(lockOf: BatchId -> LockId, s: System, e: Event)
    requires WorkersInv(lockOf, s) && Enabled(s, e) && e.w in s.workers && s.workers[e.w].job.RotateBatch?
    ensures var s' := Next(lockOf, s, e);
            && e.w in s'.workers && s'.workers[e.w].job.RotateBatch?
            && RotationMoves(e, s.workers[e.w].pc, s'.workers[e.w].pc)
  {
    hide Pending, IsLatestOpen, WithoutLocksOf, SetState, IsOpen, NewBatch, Successor, Bucket, LockInv;
    assert WorkerInv(lockOf, s, e.w, s.workers[e.w]);
  }

  lemma {:induction false} StartsEarly(lockOf: BatchId -> LockId, s: System, e: Event)
    requires Enabled(s, e) && e.w !in s.workers
    ensures e.w in Next(lockOf, s, e).workers && Next(lockOf, s, e).workers[e.w].pc.Starting? && !e.Commit? && !e.Close?
  {
    hide Pending, IsLatestOpen;
  }

  lemma {:induction false} HistoryStep(lockOf: BatchId -> LockId, s: System, events: seq<Event>, n: nat)
    requires n < |events| && WorkersInv(lockOf, s) && Enabled(s, events[n]) && History(s, events, n, events[n].w)
    ensures History(Next(lockOf, s, events[n]), events, n + 1, events[n].w)
  {
    hide Enabled, Next, WorkersInv, Committed, Closed;
    var e := events[n];
    OneEventMore(events, n, e.w);
    if e.w in s.workers {
      JobIsKept(lockOf, s, e, e.w);
      if s.workers[e.w].job.RotateBatch? {
        RotationsMove(lockOf, s, e);
      }
    } else {
      StartsEarly(lockOf, s, e);
    }
  }

  lemma {:induction false} HistoryHolds(lockOf: BatchId -> LockId, run: seq<System>, events: seq<Event>, n: nat, w: nat)
    requires IsTrace(lockOf, run, events) && n < |run|
    ensures History(run[n], events, n, w)
  {
    hide Enabled, Next, Committed, Closed, TableInv, EnteredInv, RotatedInv, WorkersInv;
    if n == 0 {
      NoEventsYet(events, w);
    } else {
      var k := n - 1;
      HistoryHolds(lockOf, run, events, k, w);
      TraceIsRun(lockOf, run, events);
      RunsAreSafe(lockOf, run, k);
      assert StepBy(lockOf, run[k], events[k], run[k + 1]);
      if events[k].w == w {
        HistoryStep(lockOf, run[k], events, k);
      } else {
        OneEventMore(events, k, w);
        OthersStay(lockOf, run[k], events[k], w);
      }
    }
  }

  lemma {:induction false} NoEventsYet(events: seq<Event>, w: nat)
    ensures !Committed(events, 0, w) && !Closed(events, 0, w)
  {
  }

  /** A step of a rotation, at some state of a run, writes exactly when it is its commit or its close. */
  lemma {:induction false} OwnStepWrites(
      lockOf: BatchId -> LockId, run: seq<System>, events: seq<Event>, k: nat, n: nat, w: nat)
    requires IsTrace(lockOf, run, events) && k < n < |run|
    requires w in run[n].workers && run[n].workers[w].job.RotateBatch?
    ensures Changed(run, events, k, w) <==> events[k] == Commit(w) || events[k] == Close(w)
    ensures events[k] == Commit(w) || events[k] == Close(w) ==>
              w in run[k].workers && run[k].workers[w].job.RotateBatch?
  {
    hide Enabled, Next, TableInv, EnteredInv, RotatedInv, WorkersInv;
    TraceIsRun(lockOf, run, events);
    RunsAreSafe(lockOf, run, k);
    assert StepBy(lockOf, run[k], events[k], run[k + 1]);
    if events[k].w == w {
      if w in run[k].workers {
        JobIsKeptOverRuns(lockOf, run, events, k, n, w);
        RotationWrites(lockOf, run[k], events[k]);
      } else {
        StartingWritesNothing(lockOf, run[k], events[k]);
      }
    }
  }

  /**
   * A rotation that threw or died has changed the table, by its own steps, exactly when its commit took effect. It then
   * committed once, which left its batch COMPACTING and opened the successor; the one thing it can have written
   * besides is the close of its batch, when it died after that.
   */
  lemma {:induction false} FailedRotationLeavesTraceIffCommitted(
    lockOf: BatchId -> LockId, run: seq<System>, events: seq<Event>, n: nat, w: nat)
    requires IsTrace(lockOf, run, events) && n < |run|
    requires w in run[n].workers && run[n].workers[w].job.RotateBatch? && Failed(run[n].workers[w].pc)
    ensures (exists k :: 0 <= k < n && Changed(run, events, k, w)) <==> Committed(events, n, w)
    ensures forall k :: 0 <= k < n && Changed(run, events, k, w) ==>
              events[k] == Commit(w) || (events[k] == Close(w) && run[n].workers[w].pc.Died?)
    ensures forall j, k :: 0 <= j < k < n && events[j] == Commit(w) ==> events[k] != Commit(w)
    ensures forall k :: 0 <= k < n && events[k] == Commit(w) ==> Rotates(run[k], run[k + 1].table, w)
  {
    hide Enabled, Next, TableInv, EnteredInv, RotatedInv, WorkersInv, Changed;
    TraceIsRun(lockOf, run, events);
    HistoryHolds(lockOf, run, events, n, w);
    forall k | 0 <= k < n ensures Changed(run, events, k, w) <==> events[k] == Commit(w) || events[k] == Close(w) {
      OwnStepWrites(lockOf, run, events, k, n, w);
    }
    forall k | 0 <= k < n && events[k] == Commit(w)
      ensures !Committed(events, k, w) && w in run[k].workers && run[k].workers[w].job.RotateBatch?
    {
      OwnStepWrites(lockOf, run, events, k, n, w);
      HistoryHolds(lockOf, run, events, k, w);
      assert StepBy(lockOf, run[k], events[k], run[k + 1]);
      CommitsFromInserted(run[k], w);
    }
    forall k | 0 <= k < n && events[k] == Commit(w) ensures Rotates(run[k], run[k + 1].table, w) {
      RunsAreSafe(lockOf, run, k);
      assert StepBy(lockOf, run[k], events[k], run[k + 1]);
      RotationWrites(lockOf, run[k], events[k]);
    }
  }

  lemma {:induction false} CommitsFromInserted(s: System, w: nat)
    requires Enabled(s, Commit(w))
    ensures w in s.workers && s.workers[w].pc.Inserted?
  {
  }

  // ---- How many OPEN batches ----

  ghost predicate SingleOpen(table: map<BatchId, Batch>) {
    forall a, b :: IsOpen(table, a) && IsOpen(table, b) && table[a].device == table[b].device ==> a == b
  }

  /** The insert of ensureOpenBatch adds a second OPEN batch. */
  ghost predicate StaleInsert(s: System, e: Event)
    requires Enabled(s, e)
  {
    && e.InsertBucket?
    && BatchId(s.workers[e.w].id.device, s.workers[e.w].pc.bucket) !in s.table
    && exists b :: IsOpen(s.table, b) && s.table[b].device == s.workers[e.w].id.device
  }

  lemma {:induction false} NewlyOpen(lockOf: BatchId -> LockId, s: System, e: Event, id: BatchId)
    requires TableInv(s) && WorkersInv(lockOf, s) && Enabled(s, e)
    ensures var s' := Next(lockOf, s, e);
            IsOpen(s'.table, id) && !IsOpen(s.table, id) ==>
              && id !in s.table && s'.table[id].device == id.device
              && e.w in s.workers && id.device == s.workers[e.w].id.device
              && (e.Commit? || (e.InsertBucket? && id == BatchId(id.device, s.workers[e.w].pc.bucket)))
  {
    hide Pending, IsLatestOpen, WithoutLocksOf;
    if e.w in s.workers {
      assert WorkerInv(lockOf, s, e.w, s.workers[e.w]);
    }
  }

  /** A commit replaces its batch, which was OPEN, by the only batch it opens. */
  lemma {:induction false} CommitReplaces(lockOf: BatchId -> LockId, s: System, e: Event)
    requires TableInv(s) && WorkersInv(lockOf, s) && Enabled(s, e) && e.Commit?
    ensures var s' := Next(lockOf, s, e); var me := s.workers[e.w];
            && IsOpen(s.table, me.id) && !IsOpen(s'.table, me.id) && s.table[me.id].device == me.id.device
            && forall id :: IsOpen(s'.table, id) ==> id == Successor(me) || IsOpen(s.table, id)
  {
    hide Pending, IsLatestOpen, WithoutLocksOf;
    assert WorkerInv(lockOf, s, e.w, s.workers[e.w]);
  }

  lemma {:induction false} StaleInsertOpensSecond(lockOf: BatchId -> LockId, s: System, e: Event)
    requires TableInv(s) && Enabled(s, e) && StaleInsert(s, e)
    ensures !SingleOpen(Next(lockOf, s, e).table)
  {
    var s' := Next(lockOf, s, e);
    var b :| IsOpen(s.table, b) && s.table[b].device == s.workers[e.w].id.device;
    var id := BatchId(s.workers[e.w].id.device, s.workers[e.w].pc.bucket);
    assert IsOpen(s'.table, id) && IsOpen(s'.table, b);
  }

  /**
   * Devices keep at most one OPEN batch through every step but one: an ensureOpenBatch insert of a bucket
   * that is new, made when the device has an OPEN batch again by then.
   */
  lemma {:induction false} SingleOpenIsLostIffStaleInsert(lockOf: BatchId -> LockId, s: System, e: Event)
    requires Inv(lockOf, s) && Enabled(s, e) && SingleOpen(s.table)
    ensures SingleOpen(Next(lockOf, s, e).table) <==> !StaleInsert(s, e)
  {
    hide Pending, IsLatestOpen, Next, Enabled, WorkersInv, EnteredInv, RotatedInv;
    var s' := Next(lockOf, s, e);
    forall id ensures IsOpen(s.table, id) ==> id in s'.table && s'.table[id].device == s.table[id].device {
      if IsOpen(s.table, id) {
        BatchesOnlyMoveForward(lockOf, s, e, id);
      }
    }
    forall id { NewlyOpen(lockOf, s, e, id); }
    if e.Commit? {
      CommitReplaces(lockOf, s, e);
    }
    if StaleInsert(s, e) {
      StaleInsertOpensSecond(lockOf, s, e);
    }
  }

  /** The i-th step of the run is such an insert. */
  ghost predicate StaleStep(lockOf: BatchId -> LockId, run: seq<System>, i: nat)
    requires i + 1 < |run|
  {
    exists e :: Enabled(run[i], e) && run[i + 1] == Next(lockOf, run[i], e) && StaleInsert(run[i], e)
  }

  /** Over a run: no device ever has two OPEN batches if and only if no insert was stale. */
  lemma {:induction false} SingleOpenUntilStaleStep(lockOf: BatchId -> LockId, run: seq<System>, n: nat)
    requires IsRun(lockOf, run) && n < |run|
    ensures (forall i :: 0 <= i <= n ==> SingleOpen(run[i].table))
              <==> (forall i :: 0 <= i < n ==> !StaleStep(lockOf, run, i))
  {
    hide Enabled, Next, Inv, SingleOpen, StaleStep, Step;
    if n == 0 {
      NoBatchesNoTwoOpen();
    } else {
      SingleOpenUntilStaleStep(lockOf, run, n - 1);
      if SingleOpen(run[n - 1].table) {
        StepLosesSingleOpenIff(lockOf, run, n - 1);
      }
      assert (forall i :: 0 <= i <= n ==> SingleOpen(run[i].table))
        <==> (forall i :: 0 <= i <= n - 1 ==> SingleOpen(run[i].table)) && SingleOpen(run[n].table);
      assert (forall i :: 0 <= i < n ==> !StaleStep(lockOf, run, i))
        <==> (forall i :: 0 <= i < n - 1 ==> !StaleStep(lockOf, run, i)) && !StaleStep(lockOf, run, n - 1);
    }
  }

  lemma {:induction false} NoBatchesNoTwoOpen()
    ensures SingleOpen(Empty.table)
  {
  }

  lemma {:induction false} StepLosesSingleOpenIff(lockOf: BatchId -> LockId, run: seq<System>, i: nat)
    requires IsRun(lockOf, run) && i + 1 < |run| && SingleOpen(run[i].table)
    ensures SingleOpen(run[i + 1].table) <==> !StaleStep(lockOf, run, i)
  {
    hide SingleOpen, StaleInsert, Enabled, Next;
    RunsAreSafe(lockOf, run, i);
    assert Step(lockOf, run[i], run[i + 1]);
    var e :| Enabled(run[i], e) && run[i + 1] == Next(lockOf, run[i], e);
    SingleOpenIsLostIffStaleInsert(lockOf, run[i], e);
    forall e' | Enabled(run[i], e') && run[i + 1] == Next(lockOf, run[i], e') && StaleInsert(run[i], e')
      ensures !SingleOpen(run[i + 1].table)
    {
      SingleOpenIsLostIffStaleInsert(lockOf, run[i], e');
    }
  }

  /**
   * ensureOpenBatch promises an OPEN batch. When it inserts, the row it reports is OPEN in the table
   * if and only if the bucket's row was absent or OPEN: a COMPACTING or CLOSED row is reported as OPEN.
   */
  lemma {:induction false} EnsuredIsOpenIff(lockOf: BatchId -> LockId, s: System, e: Event)
    requires Enabled(s, e) && e.InsertBucket?
    ensures var id := BatchId(s.workers[e.w].id.device, s.workers[e.w].pc.bucket);
            var s' := Next(lockOf, s, e);
            && s'.workers[e.w].pc == Done(Ensured(NewBatch(id)))
            && (IsOpen(s'.table, id) <==> id !in s.table || s.table[id].state.OPEN?)
  {
  }

  // ---- Callers that keep a single OPEN batch ----

  /** No two ensureOpenBatch calls of a device are between their look and their insert. */
  ghost predicate NoOverlap(s: System) {
    forall v, w :: IsMissing(s, v) && IsMissing(s, w) && s.workers[v].id.device == s.workers[w].id.device ==> v == w
  }

  predicate IsMissing(s: System, w: nat) {
    w in s.workers && s.workers[w].pc.Missing?
  }

  /** What such a call saw is still so: its device has no OPEN batch. */
  ghost predicate LooksAreCurrent(s: System) {
    forall w, b :: IsMissing(s, w) && IsOpen(s.table, b) ==> b.device != s.workers[w].id.device
  }

  lemma {:induction false} LookIsCurrent(lockOf: BatchId -> LockId, s: System, e: Event)
    requires TableInv(s) && Enabled(s, e)
    ensures var s' := Next(lockOf, s, e);
            IsMissing(s', e.w) ==>
              && s'.table == s.table
              && forall b :: IsOpen(s.table, b) ==> b.device != s'.workers[e.w].id.device
  {
    hide Pending, WithoutLocksOf, SetState;
  }

  lemma {:induction false} CommitKnowsOpen(lockOf: BatchId -> LockId, s: System, e: Event)
    requires WorkersInv(lockOf, s) && Enabled(s, e) && e.Commit?
    ensures IsOpen(s.table, s.workers[e.w].id)
  {
    assert WorkerInv(lockOf, s, e.w, s.workers[e.w]);
  }

  lemma {:induction false} InsertersAreMissing(s: System, e: Event)
    requires Enabled(s, e) && e.InsertBucket?
    ensures IsMissing(s, e.w)
  {
  }

  lemma {:induction false} LooksStayCurrent(lockOf: BatchId -> LockId, s: System, e: Event)
    requires Inv(lockOf, s) && Enabled(s, e) && NoOverlap(s) && LooksAreCurrent(s)
    ensures LooksAreCurrent(Next(lockOf, s, e))
  {
    hide Next, Enabled, WorkersInv, TableInv, EnteredInv, RotatedInv, IsOpen;
    var s' := Next(lockOf, s, e);
    LookIsCurrent(lockOf, s, e);
    if e.InsertBucket? {
      InsertersAreMissing(s, e);
    } else if e.Commit? {
      CommitKnowsOpen(lockOf, s, e);
    }
    forall w, b | IsMissing(s', w) && IsOpen(s'.table, b) ensures b.device != s'.workers[w].id.device {
      NewlyOpen(lockOf, s, e, b);
      if w != e.w {
        OthersStay(lockOf, s, e, w);
      }
    }
  }

  lemma {:induction false} CurrentLooksKeepSingleOpen(lockOf: BatchId -> LockId, s: System, e: Event)
    requires Inv(lockOf, s) && Enabled(s, e) && LooksAreCurrent(s) && SingleOpen(s.table)
    ensures SingleOpen(Next(lockOf, s, e).table)
  {
    hide Next, WorkersInv, EnteredInv, RotatedInv, SingleOpen;
    SingleOpenIsLostIffStaleInsert(lockOf, s, e);
  }

  /** Over a run in which no two ensureOpenBatch calls of a device overlap, no device ever has two OPEN batches. */
  lemma {:induction false} SingleOpenWithoutOverlap(lockOf: BatchId -> LockId, run: seq<System>, n: nat)
    requires IsRun(lockOf, run) && n < |run|
    requires forall i :: 0 <= i < n ==> NoOverlap(run[i])
    ensures SingleOpen(run[n].table) && LooksAreCurrent(run[n])
  {
    hide Next, Enabled, Inv, SingleOpen, LooksAreCurrent, NoOverlap;
    if n == 0 {
      NoBatchesNoTwoOpen();
      NoLooksYet();
    } else {
      SingleOpenWithoutOverlap(lockOf, run, n - 1);
      RunsAreSafe(lockOf, run, n - 1);
      assert Step(lockOf, run[n - 1], run[n - 1 + 1]);
      var e :| Enabled(run[n - 1], e) && run[n] == Next(lockOf, run[n - 1], e);
      LooksStayCurrent(lockOf, run[n - 1], e);
      CurrentLooksKeepSingleOpen(lockOf, run[n - 1], e);
    }
  }

  lemma {:induction false} NoLooksYet()
    ensures LooksAreCurrent(Empty)
  {
  }

  lemma {:induction false} RunGrows(lockOf: BatchId -> LockId, run: seq<System>, e: Event)
    requires IsRun(lockOf, run) && Enabled(run[|run| - 1], e)
    ensures IsRun(lockOf, run + [Next(lockOf, run[|run| - 1], e)])
  {
    var run' := run + [Next(lockOf, run[|run| - 1], e)];
    forall i | 0 <= i < |run'| - 1 ensures Step(lockOf, run'[i], run'[i + 1]) {
      if i < |run| - 1 {
        assert Step(lockOf, run[i], run[i + 1]);
      }
    }
  }

  /** Both calls have looked, on either side of a bucket boundary, and neither has inserted. */
  function Straddling(d: DeviceId): System {
    System(map[], map[], map[0 := Worker(EnsureOpenBatch, BatchId(d, 0), 0, Missing(0)),
                             1 := Worker(EnsureOpenBatch, BatchId(d, 0), 0, Missing(BATCH_WINDOW_MS))], [], map[])
  }

  lemma {:induction false} StraddlingIsReachable(lockOf: BatchId -> LockId, d: DeviceId) returns (run: seq<System>)
    ensures IsRun(lockOf, run) && run[|run| - 1] == Straddling(d)
  {
    run := [Empty];
    RunGrows(lockOf, run, StartEnsure(0, d));
    var s1 := Next(lockOf, Empty, StartEnsure(0, d));
    run := run + [s1];
    RunGrows(lockOf, run, StartEnsure(1, d));
    var s2 := Next(lockOf, s1, StartEnsure(1, d));
    run := run + [s2];
    RunGrows(lockOf, run, Look(0, None, BATCH_WINDOW_MS - 1));
    var s3 := Next(lockOf, s2, Look(0, None, BATCH_WINDOW_MS - 1));
    run := run + [s3];
    RunGrows(lockOf, run, Look(1, None, BATCH_WINDOW_MS));
    run := run + [Next(lockOf, s3, Look(1, None, BATCH_WINDOW_MS))];
  }

  /** Two ensureOpenBatch calls that straddle a bucket boundary leave a device with two OPEN batches. */
  lemma {:induction false} TwoOpenBatchesAreReachable(lockOf: BatchId -> LockId, d: DeviceId) returns (run: seq<System>)
    ensures IsRun(lockOf, run) && !SingleOpen(run[|run| - 1].table)
  {
    run := StraddlingIsReachable(lockOf, d);
    RunGrows(lockOf, run, InsertBucket(0));
    var s1 := Next(lockOf, Straddling(d), InsertBucket(0));
    run := run + [s1];
    RunGrows(lockOf, run, InsertBucket(1));
    var s2 := Next(lockOf, s1, InsertBucket(1));
    run := run + [s2];
    assert IsOpen(s2.table, BatchId(d, 0)) && IsOpen(s2.table, BatchId(d, BATCH_WINDOW_MS));
  }

  // ---- Runs that reach the other failures ----

  /** Extends a run by one event. */
  lemma {:induction false} Extend(lockOf: BatchId -> LockId, run: seq<System>, e: Event)
    returns (run': seq<System>, s: System)
    requires IsRun(lockOf, run) && Enabled(run[|run| - 1], e)
    ensures IsRun(lockOf, run') && |run'| == |run| + 1 && run'[|run|] == s == Next(lockOf, run[|run| - 1], e)
  {
    RunGrows(lockOf, run, e);
    s := Next(lockOf, run[|run| - 1], e);
    run' := run + [s];
  }

  /** Two calls have found no batch, the first has inserted the bucket that starts at 0, the second has not. */
  function OneInserted(d: DeviceId): System {
    System(map[BatchId(d, 0) := NewBatch(BatchId(d, 0))], map[],
           map[0 := Worker(EnsureOpenBatch, BatchId(d, 0), 0, Done(Ensured(NewBatch(BatchId(d, 0))))),
               1 := Worker(EnsureOpenBatch, BatchId(d, 0), 0, Missing(0))], [], map[])
  }

  lemma {:induction false} OneInsertedIsReachable(lockOf: BatchId -> LockId, d: DeviceId) returns (run: seq<System>)
    ensures IsRun(lockOf, run) && run[|run| - 1] == OneInserted(d)
  {
    var s: System;
    run := [Empty];
    run, s := Extend(lockOf, run, StartEnsure(0, d));
    run, s := Extend(lockOf, run, StartEnsure(1, d));
    run, s := Extend(lockOf, run, Look(0, None, 0));
    run, s := Extend(lockOf, run, Look(1, None, 0));
    run, s := Extend(lockOf, run, InsertBucket(0));
  }

  /** Then a third worker has moved that batch to COMPACTING. */
  function OneCompacting(lockOf: BatchId -> LockId, d: DeviceId): System {
    var id := BatchId(d, 0);
    OneInserted(d).(table := map[id := NewBatch(id).(state := COMPACTING)], locks := map[lockOf(id) := 2],
                    workers := OneInserted(d).workers[2 := Worker(CompactBatch, id, 0, Entering)])
  }

  lemma {:induction false} OneCompactingIsReachable(lockOf: BatchId -> LockId, d: DeviceId) returns (run: seq<System>)
    ensures IsRun(lockOf, run) && run[|run| - 1] == OneCompacting(lockOf, d)
  {
    var s: System;
    run := OneInsertedIsReachable(lockOf, d);
    run, s := Extend(lockOf, run, StartCompact(2, BatchId(d, 0)));
    run, s := Extend(lockOf, run, TryLock(2));
    run, s := Extend(lockOf, run, Recheck(2));
    run, s := Extend(lockOf, run, Event.Cas(2));
  }

  /** ensureOpenBatch can report a batch as OPEN that is COMPACTING in the table. */
  lemma {:induction false} EnsuredButCompactingIsReachable(lockOf: BatchId -> LockId, d: DeviceId)
    returns (run: seq<System>)
    ensures IsRun(lockOf, run)
    ensures var id := BatchId(d, 0); var s := run[|run| - 1];
            && 1 in s.workers
            && s.workers[1].pc == Done(Ensured(NewBatch(id))) && IsCompacting(s.table, id)
  {
    run := OneCompactingIsReachable(lockOf, d);
    var s: System;
    run, s := Extend(lockOf, run, InsertBucket(1));
  }

  /** A batch can be stranded: here the query after the compare-and-set fails. */
  lemma {:induction false} StrandedIsReachable(lockOf: BatchId -> LockId, d: DeviceId) returns (run: seq<System>)
    ensures IsRun(lockOf, run) && Stranded(run[|run| - 1], BatchId(d, 0))
  {
    run := OneCompactingIsReachable(lockOf, d);
    var s: System;
    run, s := Extend(lockOf, run, Fail(2));
  }

  /** A rotation of that first batch is about to commit. */
  function OneRotating(lockOf: BatchId -> LockId, d: DeviceId): System {
    var id := BatchId(d, 0);
    OneInserted(d).(locks := map[lockOf(id) := 2],
                    workers := OneInserted(d).workers[2 := Worker(RotateBatch, id, BATCH_WINDOW_MS, Inserted)])
  }

  lemma {:induction false} OneRotatingIsReachable(lockOf: BatchId -> LockId, d: DeviceId) returns (run: seq<System>)
    ensures IsRun(lockOf, run) && run[|run| - 1] == OneRotating(lockOf, d)
  {
    var s: System;
    var id := BatchId(d, 0);
    run := OneInsertedIsReachable(lockOf, d);
    run, s := Extend(lockOf, run, StartRotate(2, d));
    assert IsLatestOpen(s.table, d, Some(id));
    run, s := Extend(lockOf, run, Look(2, Some(id), 0));
    run, s := Extend(lockOf, run, TryLock(2));
    run, s := Extend(lockOf, run, Recheck(2));
    run, s := Extend(lockOf, run, Event.Cas(2));
    run, s := Extend(lockOf, run, InsertSuccessor(2));
  }

  /** A rotation can fail and leave its trace: here the query after the commit fails. */
  lemma {:induction false} FailedRotationTraceIsReachable(lockOf: BatchId -> LockId, d: DeviceId)
    returns (run: seq<System>)
    ensures IsRun(lockOf, run)
    ensures var s, id, next := run[|run| - 1], BatchId(d, 0), BatchId(d, BATCH_WINDOW_MS);
            && 2 in s.workers && s.workers[2].job.RotateBatch? && s.workers[2].pc == Releasing(Threw)
            && IsCompacting(s.table, id) && IsOpen(s.table, next) && Stranded(s, id)
  {
    var s: System;
    run := OneRotatingIsReachable(lockOf, d);
    run, s := Extend(lockOf, run, Commit(2));
    run, s := Extend(lockOf, run, Fail(2));
  }
}
