/** What batch workers find, report and hold, told from the table and from the events of a run. */
module BatchEffects {
  import opened Sequences
  import opened BatchLifecycle
  import opened BatchHistories

  // ---- What a look at the table finds ----

  ghost predicate HasOpen(table: map<BatchId, Batch>, device: DeviceId) {
    exists b :: IsOpen(table, b) && table[b].device == device
  }

  /**
   * Looking for the open batch of a device. If it has one, a rotation goes on with the one that starts last, and
   * ensureOpenBatch returns that row. If it has none, a rotation returns null, and ensureOpenBatch goes on with the
   * five minutes around the clock.
   */
  lemma {:induction false} LookFinds(lockOf: BatchId -> LockId, s: System, e: Event)
    requires TableInv(s) && Enabled(s, e) && e.Look?
    ensures var me, me' := s.workers[e.w], Next(lockOf, s, e).workers[e.w];
            && me'.job == me.job
            && if HasOpen(s.table, me.id.device) then
                 exists b :: b in s.table && s.table[b].state == OPEN && s.table[b].device == me.id.device
                   && (forall o :: o in s.table && s.table[o].state == OPEN && s.table[o].device == me.id.device ==>
                         s.table[o].start <= s.table[b].start)
                   && if me.job == RotateBatch then me'.id == b && me'.end == s.table[b].end && me'.pc == Found
                      else me'.pc == Done(Ensured(s.table[b]))
               else if me.job == RotateBatch then me'.pc == Done(Nothing)
               else
                 && me'.pc.Missing? && me'.pc.bucket % 300_000 == 0 && me'.pc.bucket <= e.now < me'.pc.bucket + 300_000
                 && me'.id == me.id
  {
    hide Pending;
    BucketIsAligned(e.now);
    var device := s.workers[e.w].id.device;
    assert e.found.Some? ==> IsOpen(s.table, e.found.value) && s.table[e.found.value].device == device;
    assert forall o :: o in s.table && s.table[o].state == OPEN ==> IsOpen(s.table, o);
  }

  // ---- Locks ----

  /** Every lock is held by a worker between taking and giving it back, for its own batch. */
  ghost predicate LocksAreHeld(lockOf: BatchId -> LockId, s: System) {
    forall k :: k in s.locks ==>
      s.locks[k] in s.workers && HoldsLock(s.workers[s.locks[k]].pc) && k == lockOf(s.workers[s.locks[k]].id)
  }

  lemma {:induction false} StepKeepsLocksHeld(lockOf: BatchId -> LockId, s: System, e: Event)
    requires LocksAreHeld(lockOf, s) && Enabled(s, e)
    ensures LocksAreHeld(lockOf, Next(lockOf, s, e))
  {
    hide Pending, IsLatestOpen, SetState, IsOpen, NewBatch, Successor, Bucket;
  }

  /** No lock outlives its worker's call, however that ended. */
  lemma {:induction false} LocksEndWithCalls(lockOf: BatchId -> LockId, run: seq<System>, i: nat)
    requires IsRun(lockOf, run) && i < |run|
    ensures LocksAreHeld(lockOf, run[i])
  {
    hide Enabled, Next, LocksAreHeld;
    if i == 0 {
      NoLocksYet(lockOf);
    } else {
      LocksEndWithCalls(lockOf, run, i - 1);
      assert Step(lockOf, run[i - 1], run[i - 1 + 1]);
      var e :| Enabled(run[i - 1], e) && run[i] == Next(lockOf, run[i - 1], e);
      StepKeepsLocksHeld(lockOf, run[i - 1], e);
    }
  }

  lemma {:induction false} NoLocksYet(lockOf: BatchId -> LockId)
    ensures LocksAreHeld(lockOf, Empty)
  {
  }

  // ---- What is reported ----

  /** Nothing was written so far, or will be reported as written. */
  predicate Quiet(pc: Pc) {
    match pc
    case Releasing(r) => r in {Skipped, Nothing}
    case Done(r) => r in {Skipped, Nothing}
    case Starting => true
    case Found => true
    case Locked => true
    case SawOpen => true
    case Moved => true
    case Inserted => true
    case Missing(_) => true
    case _ => false
  }

  /** Reports the batch as compacted and closed. */
  predicate Reports(pc: Pc) {
    match pc
    case Releasing(r) => r.Compacted? || r.Rotated?
    case Done(r) => r.Compacted? || r.Rotated?
    case _ => false
  }

  lemma {:induction false} QuietStep(lockOf: BatchId -> LockId, s: System, e: Event)
    requires Enabled(s, e) && Quiet(Next(lockOf, s, e).workers[e.w].pc)
    ensures Next(lockOf, s, e).table == s.table
    ensures e.w in s.workers ==> Quiet(s.workers[e.w].pc)
  {
    hide Pending, IsLatestOpen, WithoutLocksOf, SetState, NewBatch, Successor, Bucket;
  }

  lemma {:induction false} ReportStep(lockOf: BatchId -> LockId, s: System, e: Event)
    requires Enabled(s, e) && Reports(Next(lockOf, s, e).workers[e.w].pc)
    ensures e.w in s.workers
    ensures e.Close? || (Reports(s.workers[e.w].pc) && e.Unlock? && s.workers[e.w].pc.Releasing?
                         && Next(lockOf, s, e).workers[e.w].id == s.workers[e.w].id
                         && Next(lockOf, s, e).workers[e.w].pc == Done(s.workers[e.w].pc.result))
    ensures e.Close? ==>
              var me := s.workers[e.w];
              Next(lockOf, s, e).workers[e.w].pc
              == Releasing(if me.job == RotateBatch then Rotated(BatchId(me.id.device, me.end)) else Compacted)
  {
    hide Pending, IsLatestOpen, WithoutLocksOf, SetState, NewBatch, Bucket;
  }

  lemma {:induction false} MoverIsWorker(lockOf: BatchId -> LockId, s: System, e: Event)
    requires Enabled(s, e)
    ensures e.w in Next(lockOf, s, e).workers
  {
    hide Pending, IsLatestOpen, WithoutLocksOf, SetState, NewBatch, Successor, Bucket, IsOpen;
  }

  /** A call that skips, or finds nothing to rotate, has changed nothing by its own steps. */
  lemma {:induction false} QuietCallsWriteNothing(
      lockOf: BatchId -> LockId, run: seq<System>, events: seq<Event>, n: nat, w: nat, k: nat)
    requires IsTrace(lockOf, run, events) && k < n < |run| && w in run[n].workers && Quiet(run[n].workers[w].pc)
    ensures !Changed(run, events, k, w)
  {
    hide Enabled, Next, Quiet;
    assert StepBy(lockOf, run[n - 1], events[n - 1], run[n - 1 + 1]);
    if events[n - 1].w == w {
      QuietStep(lockOf, run[n - 1], events[n - 1]);
    } else {
      OthersStay(lockOf, run[n - 1], events[n - 1], w);
    }
    if k < n - 1 {
      if w in run[n - 1].workers {
        QuietCallsWriteNothing(lockOf, run, events, n - 1, w, k);
      } else {
        NotYetAWorker(lockOf, run, events, n - 1, w, k);
      }
    }
  }

  lemma {:induction false} NotYetAWorker(
      lockOf: BatchId -> LockId, run: seq<System>, events: seq<Event>, n: nat, w: nat, k: nat)
    requires IsTrace(lockOf, run, events) && k < n < |run| && w !in run[n].workers
    ensures events[k].w != w
  {
    hide Enabled, Next;
    assert StepBy(lockOf, run[k], events[k], run[k + 1]);
    if events[k].w == w {
      MoverIsWorker(lockOf, run[k], events[k]);
      JobIsKeptOverRuns(lockOf, run, events, k + 1, n, w);
    }
  }

  /**
   * A call that reports success closed its batch itself: compactBatch reports 'ok', and rotateBatch the batch that
   * starts where its own ends.
   */
  lemma {:induction false} ReportsAreEarned(
      lockOf: BatchId -> LockId, run: seq<System>, events: seq<Event>, n: nat, w: nat)
    requires IsTrace(lockOf, run, events) && n < |run| && w in run[n].workers && Reports(run[n].workers[w].pc)
    ensures Closed(events, n, w)
    ensures var me := run[n].workers[w]; var r := if me.pc.Releasing? then me.pc.result else me.pc.outcome;
            r == if me.job == RotateBatch then Rotated(BatchId(me.id.device, me.end)) else Compacted
  {
    hide Enabled, Next, Reports;
    if n > 0 {
      assert StepBy(lockOf, run[n - 1], events[n - 1], run[n - 1 + 1]);
      OneEventMore(events, n - 1, w);
      if events[n - 1].w == w {
        ReportStep(lockOf, run[n - 1], events[n - 1]);
        JobIsKept(lockOf, run[n - 1], events[n - 1], w);
        WorkIsKept(lockOf, run[n - 1], events[n - 1]);
        if !events[n - 1].Close? {
          ReportsAreEarned(lockOf, run, events, n - 1, w);
        }
      } else {
        OthersStay(lockOf, run[n - 1], events[n - 1], w);
        ReportsAreEarned(lockOf, run, events, n - 1, w);
      }
    }
  }

  lemma {:induction false} WorkIsKept(lockOf: BatchId -> LockId, s: System, e: Event)
    requires Enabled(s, e) && (e.Close? || e.Unlock?)
    ensures var me, me' := s.workers[e.w], Next(lockOf, s, e).workers[e.w]; me'.id == me.id && me'.end == me.end
  {
    hide Pending, IsLatestOpen, WithoutLocksOf, SetState;
  }

  // ---- Calls by themselves ----

  lemma {:induction false} Do(lockOf: BatchId -> LockId, s: System, e: Event) returns (s': System)
    requires Inv(lockOf, s) && Enabled(s, e)
    ensures s' == Next(lockOf, s, e) && Inv(lockOf, s')
  {
    hide Next, Enabled, Inv;
    s' := Next(lockOf, s, e);
    NextKeepsInv(lockOf, s, e);
  }

  /** A worker that holds the lock of a batch it has in hand compacts and closes it and gives the lock back. */
  lemma {:induction false} InHandCloses(lockOf: BatchId -> LockId, s: System, w: nat) returns (s': System)
    requires Inv(lockOf, s) && w in s.workers && s.workers[w].pc == Entering && IsCompacting(s.table, s.workers[w].id)
    ensures var me := s.workers[w];
            && s'.table == s.table[me.id := s.table[me.id].(state := CLOSED)] && s'.entered == s.entered + [me.id]
            && s'.rotated == s.rotated && s'.locks == WithoutLocksOf(s, w)
            && var result := if me.job == RotateBatch then Rotated(Successor(me)) else Compacted;
              s'.workers == s.workers[w := me.(pc := Done(result))]
  {
    hide Inv, Pending, IsLatestOpen;
    var s1 := Do(lockOf, s, Enter(w));
    var s2 := Do(lockOf, s1, Close(w));
    s' := Do(lockOf, s2, Unlock(w));
    var me := s.workers[w];
    var done := me.(pc := Done(if me.job == RotateBatch then Rotated(Successor(me)) else Compacted));
    assert s.workers[w := s1.workers[w]][w := s2.workers[w]][w := done] == s.workers[w := done];
  }

  lemma {:induction false} LockIsBack(lockOf: BatchId -> LockId, s: System, s': System, w: nat, k: LockId)
    requires LocksAreHeld(lockOf, s) && w !in s.workers && k !in s.locks && s'.locks == s.locks[k := w]
    ensures WithoutLocksOf(s', w) == s.locks
  {
    forall l | l in s.locks ensures l != k && s.locks[l] != w {
      assert s.locks[l] in s.workers;
    }
    var back := WithoutLocksOf(s', w);
    assert forall l :: l in back <==> l in s.locks;
    assert forall l :: l in back ==> back[l] == s.locks[l];
  }

  /** compactBatch on an OPEN batch whose lock is free: the batch is compacted once and CLOSED, the lock free again. */
  lemma {:induction false} UncontendedCompactSucceeds(lockOf: BatchId -> LockId, s: System, w: nat, id: BatchId)
    returns (s': System)
    requires Inv(lockOf, s) && LocksAreHeld(lockOf, s)
    requires w !in s.workers && IsOpen(s.table, id) && lockOf(id) !in s.locks
    ensures s'.table == s.table[id := s.table[id].(state := CLOSED)] && s'.entered == s.entered + [id]
    ensures s'.locks == s.locks && w in s'.workers && s'.workers[w].pc == Done(Compacted)
  {
    hide Inv, Pending, IsLatestOpen, WithoutLocksOf;
    var s1 := Do(lockOf, s, StartCompact(w, id));
    var s2 := Do(lockOf, s1, TryLock(w));
    var s3 := Do(lockOf, s2, Recheck(w));
    var s4 := Do(lockOf, s3, Event.Cas(w));
    s' := InHandCloses(lockOf, s4, w);
    LockIsBack(lockOf, s, s4, w, lockOf(id));
  }

  /** compactBatch when the lock is taken, or the batch is not OPEN: nothing but a result. */
  lemma {:induction false} CompactSkips(lockOf: BatchId -> LockId, s: System, w: nat, id: BatchId) returns (s': System)
    requires Inv(lockOf, s) && LocksAreHeld(lockOf, s) && w !in s.workers
    requires lockOf(id) in s.locks || !IsOpen(s.table, id)
    ensures s'.table == s.table && s'.entered == s.entered && s'.locks == s.locks
    ensures w in s'.workers && s'.workers[w].pc == Done(Skipped)
  {
    hide Inv, Pending, IsLatestOpen, WithoutLocksOf;
    var s1 := Do(lockOf, s, StartCompact(w, id));
    var s2 := Do(lockOf, s1, TryLock(w));
    if lockOf(id) in s.locks {
      s' := s2;
    } else {
      var s3 := Do(lockOf, s2, Recheck(w));
      s' := Do(lockOf, s3, Unlock(w));
      LockIsBack(lockOf, s, s3, w, lockOf(id));
    }
  }

  /**
   * rotateBatch on a device whose last OPEN batch has a free lock and no successor: that batch is CLOSED and compacted,
   * the one that starts where it ends is OPEN and returned, the lock free again.
   */
  lemma {:induction false} UncontendedRotateSucceeds(lockOf: BatchId -> LockId, s: System, w: nat, id: BatchId)
    returns (s': System)
    requires Inv(lockOf, s) && LocksAreHeld(lockOf, s) && w !in s.workers && lockOf(id) !in s.locks
    requires IsLatestOpen(s.table, id.device, Some(id))
    requires var next := BatchId(id.device, s.table[id].end); next !in s.table && !Pending(s, next)
    ensures var next := BatchId(id.device, s.table[id].end);
            && s'.table == s.table[id := s.table[id].(state := CLOSED)]
                                  [next := Batch(id.device, next.start, next.start + 300_000, OPEN)]
            && s'.entered == s.entered + [id] && s'.rotated == s.rotated[id := next] && s'.locks == s.locks
            && w in s'.workers && s'.workers[w].pc == Done(Rotated(next))
  {
    hide Inv, WithoutLocksOf, Pending, IsLatestOpen, Next, Enabled;
    var s4 := RotateToMoved(lockOf, s, w, id);
    StillNotPending(s, s4, w, BatchId(id.device, s.table[id].end));
    s' := RotateFromMoved(lockOf, s4, w);
    LockIsBack(lockOf, s, s4, w, lockOf(id));
  }

  /** Up to the compare-and-set inside the transaction. */
  lemma {:induction false} RotateToMoved(lockOf: BatchId -> LockId, s: System, w: nat, id: BatchId) returns (s': System)
    requires Inv(lockOf, s) && w !in s.workers && lockOf(id) !in s.locks && IsLatestOpen(s.table, id.device, Some(id))
    ensures Inv(lockOf, s') && IsOpen(s.table, id)
    ensures s' == s.(workers := s.workers[w := Worker(RotateBatch, id, s.table[id].end, Moved)],
                     locks := s.locks[lockOf(id) := w])
  {
    hide Inv, Pending, WithoutLocksOf;
    var s1 := Do(lockOf, s, StartRotate(w, id.device));
    var s2 := Do(lockOf, s1, Look(w, Some(id), 0));
    var s3 := Do(lockOf, s2, TryLock(w));
    var s4 := Do(lockOf, s3, Recheck(w));
    s' := Do(lockOf, s4, Event.Cas(w));
    assert s1.workers[w := s2.workers[w]] == s.workers[w := s2.workers[w]];
    assert s2.workers[w := s3.workers[w]] == s.workers[w := s3.workers[w]];
    assert s3.workers[w := s4.workers[w]] == s.workers[w := s4.workers[w]];
    assert s4.workers[w := s'.workers[w]] == s.workers[w := s'.workers[w]];
  }

  lemma {:induction false} StillNotPending(s: System, s': System, w: nat, next: BatchId)
    requires !Pending(s, next) && w !in s.workers && (forall v :: v in s'.workers && v != w ==> v in s.workers)
    requires forall v :: v in s.workers ==> v in s'.workers && s'.workers[v] == s.workers[v]
    requires w in s'.workers && !s'.workers[w].pc.Inserted?
    ensures !Pending(s', next)
  {
    forall v | v in s'.workers && s'.workers[v].pc.Inserted? ensures Successor(s'.workers[v]) != next {
      assert v in s.workers && s.workers[v] == s'.workers[v];
    }
  }

  /** The rest of the transaction, and the compaction. */
  lemma {:induction false} RotateFromMoved(lockOf: BatchId -> LockId, s: System, w: nat) returns (s': System)
    requires Inv(lockOf, s) && w in s.workers && s.workers[w].job == RotateBatch && s.workers[w].pc == Moved
    requires IsOpen(s.table, s.workers[w].id)
    requires Successor(s.workers[w]) !in s.table && !Pending(s, Successor(s.workers[w]))
    ensures var me, next := s.workers[w], Successor(s.workers[w]);
            && s'.table == s.table[me.id := s.table[me.id].(state := CLOSED)][next := NewBatch(next)]
            && s'.entered == s.entered + [me.id] && s'.rotated == s.rotated[me.id := next]
            && s'.locks == WithoutLocksOf(s, w)
            && w in s'.workers && s'.workers[w].pc == Done(Rotated(next))
  {
    hide Inv, Pending, IsLatestOpen, WithoutLocksOf;
    var me, next := s.workers[w], Successor(s.workers[w]);
    var s1 := Do(lockOf, s, InsertSuccessor(w));
    var s2 := Do(lockOf, s1, Commit(w));
    s' := InHandCloses(lockOf, s2, w);
    SameLocks(s, s2, w);
    assert me.id != next;
  }

  lemma {:induction false} SameLocks(s: System, s': System, w: nat)
    requires s'.locks == s.locks
    ensures WithoutLocksOf(s', w) == WithoutLocksOf(s, w)
  {
  }
}
