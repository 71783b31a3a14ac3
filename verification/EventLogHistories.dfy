/** Where committed events come from, who holds locks, and what readers are given, over runs with their events. */
module EventLogHistories {
  import opened Sequences
  import opened EventLog

  ghost predicate StepBy(lockOf: Tenant -> LockId, d: Db, e: Event, d': Db) {
    Enabled(lockOf, d, e) && d' == Next(lockOf, d, e)
  }

  /** A run together with the events that make it. */
  ghost predicate IsTrace(lockOf: Tenant -> LockId, run: seq<Db>, events: seq<Event>) {
    && |run| == |events| + 1 && run[0] == Empty
    && forall i :: 0 <= i < |events| ==> StepBy(lockOf, run[i], events[i], run[i + 1])
  }

  lemma {:induction false} TraceIsRun(lockOf: Tenant -> LockId, run: seq<Db>, events: seq<Event>)
    requires IsTrace(lockOf, run, events)
    ensures IsRun(lockOf, run)
  {
    hide Enabled, Next;
    forall i | 0 <= i < |run| - 1 ensures Step(lockOf, run[i], run[i + 1]) {
      assert StepBy(lockOf, run[i], events[i], run[i + 1]);
    }
  }

  lemma {:induction false} EventsUpTo(lockOf: Tenant -> LockId, run: seq<Db>, n: nat) returns (events: seq<Event>)
    requires IsRun(lockOf, run) && n < |run|
    ensures |events| == n && forall i :: 0 <= i < n ==> StepBy(lockOf, run[i], events[i], run[i + 1])
  {
    hide Enabled, Next;
    if n == 0 {
      events := [];
    } else {
      events := EventsUpTo(lockOf, run, n - 1);
      assert Step(lockOf, run[n - 1], run[n - 1 + 1]);
      var e :| Enabled(lockOf, run[n - 1], e) && run[n] == Next(lockOf, run[n - 1], e);
      events := events + [e];
    }
  }

  /** Every run has its events. */
  lemma {:induction false} RunHasEvents(lockOf: Tenant -> LockId, run: seq<Db>) returns (events: seq<Event>)
    requires IsRun(lockOf, run)
    ensures IsTrace(lockOf, run, events)
  {
    hide StepBy;
    events := EventsUpTo(lockOf, run, |run| - 1);
  }

  // ---- Arguments ----

  /** One of the first n events is a call of appendEvent with these arguments. */
  ghost predicate Called(events: seq<Event>, n: nat, c: CallId, t: Tenant, eventType: string)
    requires n <= |events|
  {
    exists k :: 0 <= k < n && events[k] == Begin(c, t, eventType)
  }

  /** What a call works with is what it was called with. */
  ghost predicate WorksWithArguments(events: seq<Event>, n: nat, c: CallId, w: Writer)
    requires n <= |events|
  {
    match w
    case Begun(t, eventType) => Called(events, n, c, t, eventType)
    case Locked(t, eventType, _) => Called(events, n, c, t, eventType)
    case MaxRead(t, eventType, _, _) => Called(events, n, c, t, eventType)
    case Inserted(row) => row.call == c && Called(events, n, c, row.tenant, row.eventType)
    case Returned(row) => row.call == c && Called(events, n, c, row.tenant, row.eventType)
    case Threw(_) => true
  }

  lemma {:induction false} CalledLater(events: seq<Event>, n: nat, c: CallId, t: Tenant, eventType: string)
    requires n < |events|
    ensures Called(events, n + 1, c, t, eventType) <==>
              Called(events, n, c, t, eventType) || events[n] == Begin(c, t, eventType)
  {
  }

  lemma {:induction false} WorksLater(events: seq<Event>, n: nat, c: CallId, w: Writer)
    requires n < |events| && WorksWithArguments(events, n, c, w)
    ensures WorksWithArguments(events, n + 1, c, w)
  {
    match w
    case Begun(t, eventType) => CalledLater(events, n, c, t, eventType);
    case Locked(t, eventType, _) => CalledLater(events, n, c, t, eventType);
    case MaxRead(t, eventType, _, _) => CalledLater(events, n, c, t, eventType);
    case Inserted(row) => CalledLater(events, n, c, row.tenant, row.eventType);
    case Returned(row) => CalledLater(events, n, c, row.tenant, row.eventType);
    case Threw(_) =>
  }

  lemma {:induction false} StepKeepsArguments(lockOf: Tenant -> LockId, d: Db, events: seq<Event>, n: nat, c: CallId)
    requires n < |events| && Enabled(lockOf, d, events[n])
    requires forall o :: o in d.writers ==> WorksWithArguments(events, n, o, d.writers[o])
    ensures c in Next(lockOf, d, events[n]).writers ==>
              WorksWithArguments(events, n + 1, c, Next(lockOf, d, events[n]).writers[c])
  {
    hide LogOf, MaxSequence, ReadEvents, Conflicts, Unlock, Called;
    if c in d.writers {
      WorksLater(events, n, c, d.writers[c]);
    }
    if events[n].Begin? {
      CalledLater(events, n, events[n].call, events[n].tenant, events[n].eventType);
    }
  }

  lemma {:induction false} WritersWorkWithArguments(
      lockOf: Tenant -> LockId, run: seq<Db>, events: seq<Event>, i: nat, c: CallId)
    requires IsTrace(lockOf, run, events) && i < |run| && c in run[i].writers
    ensures WorksWithArguments(events, i, c, run[i].writers[c])
  {
    hide Enabled, Next, WorksWithArguments;
    if i > 0 {
      var k := i - 1;
      assert StepBy(lockOf, run[k], events[k], run[k + 1]);
      forall o | o in run[k].writers ensures WorksWithArguments(events, k, o, run[k].writers[o]) {
        WritersWorkWithArguments(lockOf, run, events, k, o);
      }
      StepKeepsArguments(lockOf, run[k], events, k, c);
    }
  }

  /** What a step commits is the row its own call inserted. */
  lemma {:induction false} CommitsOwnRow(lockOf: Tenant -> LockId, d: Db, e: Event)
    requires Enabled(lockOf, d, e)
    ensures var d' := Next(lockOf, d, e);
            d'.committed == d.committed
            || ((e.Commit? || e.CommitThenError?) && e.call in d.writers && d.writers[e.call].Inserted?
                && d'.committed == d.committed + [d.writers[e.call].row])
  {
    hide LogOf, MaxSequence, ReadEvents, Conflicts, Unlock;
  }

  /** Every committed event carries the tenant and the type its own call was made with. */
  lemma {:induction false} RowsComeFromCalls(lockOf: Tenant -> LockId, run: seq<Db>, events: seq<Event>, i: nat, r: Row)
    requires IsTrace(lockOf, run, events) && i < |run| && r in run[i].committed
    ensures Called(events, i, r.call, r.tenant, r.eventType)
  {
    hide Enabled, Next;
    if i > 0 {
      var e := events[i - 1];
      assert StepBy(lockOf, run[i - 1], e, run[i - 1 + 1]);
      CommitsOwnRow(lockOf, run[i - 1], e);
      CalledLater(events, i - 1, r.call, r.tenant, r.eventType);
      if r in run[i - 1].committed {
        RowsComeFromCalls(lockOf, run, events, i - 1, r);
      } else {
        WritersWorkWithArguments(lockOf, run, events, i - 1, e.call);
      }
    }
  }

  lemma {:induction false} CallsStay(lockOf: Tenant -> LockId, d: Db, e: Event)
    requires Enabled(lockOf, d, e)
    ensures forall c :: c in d.writers ==> c in Next(lockOf, d, e).writers
    ensures e.Begin? ==> e.call !in d.writers && e.call in Next(lockOf, d, e).writers
  {
    hide LogOf, MaxSequence, ReadEvents, Conflicts, Unlock;
  }

  lemma {:induction false} CalledIsWriter(
      lockOf: Tenant -> LockId, run: seq<Db>, events: seq<Event>, k: nat, i: nat)
    requires IsTrace(lockOf, run, events) && k < i < |run| && events[k].Begin?
    ensures events[k].call in run[i].writers
  {
    hide Enabled, Next;
    assert StepBy(lockOf, run[i - 1], events[i - 1], run[i - 1 + 1]);
    CallsStay(lockOf, run[i - 1], events[i - 1]);
    if k < i - 1 {
      CalledIsWriter(lockOf, run, events, k, i - 1);
    }
  }

  /** A call is made once, so its arguments are the only ones it can be said to have. */
  lemma {:induction false} CalledOnce(lockOf: Tenant -> LockId, run: seq<Db>, events: seq<Event>, j: nat, k: nat)
    requires IsTrace(lockOf, run, events) && j < k < |events| && events[j].Begin? && events[k].Begin?
    ensures events[j].call != events[k].call
  {
    hide Enabled, Next;
    CalledIsWriter(lockOf, run, events, j, k);
    assert StepBy(lockOf, run[k], events[k], run[k + 1]);
    CallsStay(lockOf, run[k], events[k]);
  }

  /** A call that returns gives its caller the row it committed, for the caller's own tenant and event type. */
  lemma {:induction false} ReturnsForItsCaller(
    lockOf: Tenant -> LockId, run: seq<Db>, events: seq<Event>, i: nat, k: nat)
    requires IsTrace(lockOf, run, events) && k < i < |run| && events[k].Begin?
    ensures var c := events[k].call;
            && c in run[i].writers
            && (run[i].writers[c].Returned? ==>
                 var row := run[i].writers[c].result;
                 row in run[i].committed && row.call == c && row.tenant == events[k].tenant
                 && row.eventType == events[k].eventType)
  {
    hide Enabled, Next;
    var c := events[k].call;
    CalledIsWriter(lockOf, run, events, k, i);
    WritersWorkWithArguments(lockOf, run, events, i, c);
    if run[i].writers[c].Returned? {
      TraceIsRun(lockOf, run, events);
      ReturnedMeansCommittedOnce(lockOf, run, i, c);
      var row := run[i].writers[c].result;
      var j :| 0 <= j < i && events[j] == Begin(c, row.tenant, row.eventType);
      if j < k {
        CalledOnce(lockOf, run, events, j, k);
      } else if k < j {
        CalledOnce(lockOf, run, events, k, j);
      }
    }
  }

  // ---- Locks ----

  /** Every lock is held by a call between its lock and the end of its transaction, for its tenant's lock id. */
  ghost predicate LocksAreHeld(lockOf: Tenant -> LockId, d: Db) {
    forall k :: k in d.locks ==>
      && d.locks[k] in d.writers && HoldsLock(d.writers[d.locks[k]])
      && k == lockOf(TenantOf(d.writers[d.locks[k]]))
  }

  lemma {:induction false} StepKeepsLocksHeld(lockOf: Tenant -> LockId, d: Db, e: Event)
    requires LocksAreHeld(lockOf, d) && Enabled(lockOf, d, e)
    ensures LocksAreHeld(lockOf, Next(lockOf, d, e))
  {
    hide LogOf, MaxSequence, ReadEvents, Conflicts;
  }

  /** No lock outlives its transaction: a call that returned or threw holds none. */
  lemma {:induction false} LocksEndWithTransactions(lockOf: Tenant -> LockId, run: seq<Db>, i: nat)
    requires IsRun(lockOf, run) && i < |run|
    ensures LocksAreHeld(lockOf, run[i])
  {
    hide Enabled, Next, LocksAreHeld;
    if i == 0 {
      NoLocksYet(lockOf);
    } else {
      LocksEndWithTransactions(lockOf, run, i - 1);
      assert Step(lockOf, run[i - 1], run[i - 1 + 1]);
      var e :| Enabled(lockOf, run[i - 1], e) && run[i] == Next(lockOf, run[i - 1], e);
      StepKeepsLocksHeld(lockOf, run[i - 1], e);
    }
  }

  lemma {:induction false} NoLocksYet(lockOf: Tenant -> LockId)
    ensures LocksAreHeld(lockOf, Empty)
  {
  }

  // ---- Readers ----

  /** A reader starts with nothing seen, and each page adds what readEvents returns for its tenant and cursor. */
  lemma {:induction false} ReadersAreGivenPages(lockOf: Tenant -> LockId, d: Db, e: Event, r: nat)
    requires Enabled(lockOf, d, e) && r in Next(lockOf, d, e).readers
    ensures var after := Next(lockOf, d, e).readers[r];
            if r !in d.readers then e == Subscribe(r, after.tenant) && after.seen == [] && after.cursor == 0
            else if e.Page? && e.reader == r then
              && after.tenant == d.readers[r].tenant
              && after.seen == d.readers[r].seen + ReadEvents(d.committed, after.tenant, d.readers[r].cursor, e.limit)
            else after == d.readers[r]
  {
    hide LogOf, MaxSequence, ReadEvents, Conflicts, Unlock;
  }

  // ---- A call by itself ----

  /**
   * A call whose lock is free and that nobody overtakes goes through in five steps: it commits one row, for its tenant
   * and type, under the number after the tenant's last, gives the lock back and returns that row.
   */
  lemma {:induction false} UncontendedCallCommits(
    lockOf: Tenant -> LockId, d: Db, c: CallId, t: Tenant, eventType: string)
    returns (d': Db)
    requires Inv(lockOf, d) && LocksAreHeld(lockOf, d) && c !in d.writers && lockOf(t) !in d.locks
    ensures var row := Row(t, |LogOf(d.committed, t)| + 1, eventType, c);
            && d'.committed == d.committed + [row] && d'.locks == d.locks && d'.readers == d.readers
            && d'.writers == d.writers[c := Returned(row)]
  {
    hide ReadEvents, LogOf, Inv, MaxSequence, Conflicts, Unlock, Next, Enabled;
    DenseLogs(lockOf, d, t);
    var d1 := Start(lockOf, d, c, t, eventType);
    var d2 := Read(lockOf, d1, c);
    d' := Finish(lockOf, d2, c);
    LockIsBack(lockOf, d, d2, lockOf(t), c);
  }

  lemma {:induction false} DenseLogs(lockOf: Tenant -> LockId, d: Db, t: Tenant)
    requires Inv(lockOf, d)
    ensures MaxSequence(LogOf(d.committed, t)) == |LogOf(d.committed, t)|
  {
    MaxOfDense(LogOf(d.committed, t));
  }

  /** Begin and the lock. */
  lemma {:induction false} Start(lockOf: Tenant -> LockId, d: Db, c: CallId, t: Tenant, eventType: string)
    returns (d': Db)
    requires Inv(lockOf, d) && c !in d.writers && lockOf(t) !in d.locks
    ensures Inv(lockOf, d')
    ensures d' == d.(writers := d.writers[c := Locked(t, eventType, 0)], locks := d.locks[lockOf(t) := c])
  {
    hide ReadEvents, LogOf, Inv, MaxSequence, Conflicts, Unlock;
    var d1 := Take(lockOf, d, Begin(c, t, eventType));
    d' := Take(lockOf, d1, Lock(c));
    assert d1.writers[c := Locked(t, eventType, 0)] == d.writers[c := Locked(t, eventType, 0)];
  }

  /** The maximum and the insert. */
  lemma {:induction false} Read(lockOf: Tenant -> LockId, d: Db, c: CallId) returns (d': Db)
    requires Inv(lockOf, d) && c in d.writers && d.writers[c].Locked?
    ensures Inv(lockOf, d')
    ensures var w := d.writers[c];
            var row := Row(w.tenant, MaxSequence(LogOf(d.committed, w.tenant)) + 1, w.eventType, c);
            d' == d.(writers := d.writers[c := Inserted(row)])
  {
    hide ReadEvents, LogOf, Inv, MaxSequence, Conflicts, Unlock;
    FirstAttempt(lockOf, d, c);
    var d1 := Take(lockOf, d, ReadMax(c));
    InsertNeverConflicts(lockOf, d1, c);
    NobodyElseInserted(lockOf, d1, c);
    d' := Take(lockOf, d1, Insert(c));
    assert d1.writers[c := d'.writers[c]] == d.writers[c := d'.writers[c]];
  }

  lemma {:induction false} FirstAttempt(lockOf: Tenant -> LockId, d: Db, c: CallId)
    requires Inv(lockOf, d) && c in d.writers && d.writers[c].Locked?
    ensures d.writers[c].attempt < MAX_RETRY_ATTEMPTS
  {
    assert WriterInv(d, c, d.writers[c]);
  }

  /** The commit. */
  lemma {:induction false} Finish(lockOf: Tenant -> LockId, d: Db, c: CallId) returns (d': Db)
    requires Inv(lockOf, d) && c in d.writers && d.writers[c].Inserted?
    ensures var row := d.writers[c].row;
            d' == d.(committed := d.committed + [row], writers := d.writers[c := Returned(row)], locks := Unlock(d, c))
  {
    hide ReadEvents, LogOf, Inv, MaxSequence, Conflicts, Unlock;
    d' := Take(lockOf, d, Commit(c));
  }

  lemma {:induction false} Take(lockOf: Tenant -> LockId, d: Db, e: Event) returns (d': Db)
    requires Inv(lockOf, d) && Enabled(lockOf, d, e)
    ensures d' == Next(lockOf, d, e) && Inv(lockOf, d')
  {
    hide Next, Enabled, Inv;
    d' := Next(lockOf, d, e);
    NextKeepsInv(lockOf, d, e);
  }

  lemma {:induction false} NobodyElseInserted(lockOf: Tenant -> LockId, d: Db, c: CallId)
    requires Inv(lockOf, d) && c in d.writers && d.writers[c].MaxRead?
    ensures forall o :: o in d.writers && d.writers[o].Inserted? ==> d.writers[o].row.tenant != d.writers[c].tenant
  {
  }

  lemma {:induction false} LockIsBack(lockOf: Tenant -> LockId, d: Db, d': Db, k: LockId, c: CallId)
    requires LocksAreHeld(lockOf, d) && c !in d.writers && k !in d.locks && d'.locks == d.locks[k := c]
    ensures Unlock(d', c) == d.locks
  {
    forall l | l in d.locks ensures l != k && d.locks[l] != c {
      assert d.locks[l] in d.writers;
    }
    var back := Unlock(d', c);
    assert forall l :: l in back <==> l in d.locks;
    assert forall l :: l in back ==> back[l] == d.locks[l];
  }
}
