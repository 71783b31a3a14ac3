/**
 * The per-tenant event log: any number of concurrent appendEvent transactions and paging readers over one
 * table, under READ COMMITTED, with transaction-scoped advisory locks. `lockOf` is the tenant-to-lock
 * mapping; nothing is assumed about it, so tenants may share locks.
 */
module EventLog {
  import opened Sequences

  const MAX_RETRY_ATTEMPTS: nat := 3

  type Tenant = string
  type LockId = int
  type CallId = nat

  /** `call` identifies the appendEvent call that inserted the row. */
  datatype Row = Row(tenant: Tenant, sequence: int, eventType: string, call: CallId)

  datatype Failure = SequenceConflict | OtherError

  /** Where one appendEvent call stands. */
  datatype Writer =
    | Begun(tenant: Tenant, eventType: string)
    | Locked(tenant: Tenant, eventType: string, attempt: nat)
    | MaxRead(tenant: Tenant, eventType: string, attempt: nat, nextSeq: int)
    | Inserted(row: Row)
    | Returned(result: Row)
    | Threw(failure: Failure)

  datatype Reader = Reader(tenant: Tenant, cursor: int, seen: seq<Row>)

  datatype Db = Db(
    committed: seq<Row>,             // in commit order
    locks: map<LockId, CallId>,
    writers: map<CallId, Writer>,
    readers: map<nat, Reader>)

  const Empty: Db := Db([], map[], map[], map[])

  // ---- Queries ----

  function Of(t: Tenant): Row -> bool {
    (r: Row) => r.tenant == t
  }

  function Beyond(after: int): Row -> bool {
    (r: Row) => r.sequence > after
  }

  function LogOf(rows: seq<Row>, t: Tenant): seq<Row> {
    Filter(rows, Of(t))
  }

  /** COALESCE(MAX(sequence), 0) */
  function MaxSequence(rows: seq<Row>): int {
    if rows == [] then 0
    else if |rows| == 1 then rows[0].sequence
    else
      var rest := MaxSequence(rows[..|rows| - 1]);
      if rest < rows[|rows| - 1].sequence then rows[|rows| - 1].sequence else rest
  }

  predicate Conflicts(rows: seq<Row>, t: Tenant, n: int) {
    exists r :: r in rows && r.tenant == t && r.sequence == n
  }

  function BySequence(): Row -> int {
    (r: Row) => r.sequence
  }

  function Limit(rows: seq<Row>, limit: nat): seq<Row> {
    if |rows| <= limit then rows else rows[..limit]
  }

  function ReadEvents(rows: seq<Row>, t: Tenant, afterSeq: int, limit: nat): seq<Row> {
    Limit(SortBy(Filter(LogOf(rows, t), Beyond(afterSeq)), BySequence()), limit)
  }

  // ---- Transitions ----

  predicate HoldsLock(w: Writer) {
    w.Locked? || w.MaxRead? || w.Inserted?
  }

  function TenantOf(w: Writer): Tenant
    requires w.Begun? || HoldsLock(w)
  {
    if w.Inserted? then w.row.tenant else w.tenant
  }

  /** COMMIT and ROLLBACK both give the transaction's lock back. */
  function Unlock(d: Db, c: CallId): map<LockId, CallId> {
    map k | k in d.locks && d.locks[k] != c :: d.locks[k]
  }

  datatype Event =
    | Begin(call: CallId, tenant: Tenant, eventType: string)
    | Lock(call: CallId)
    | ReadMax(call: CallId)
    | Insert(call: CallId)
    | GiveUp(call: CallId)
    | Commit(call: CallId)
    | CommitThenError(call: CallId)   // the commit took effect but the caller saw an error
    | Fail(call: CallId)              // any error before that: the transaction is rolled back
    | Subscribe(reader: nat, tenant: Tenant)
    | Page(reader: nat, limit: nat)

  ghost predicate Enabled(lockOf: Tenant -> LockId, d: Db, e: Event) {
    match e
    case Begin(c, _, _) => c !in d.writers
    case Lock(c) => c in d.writers && d.writers[c].Begun? && lockOf(d.writers[c].tenant) !in d.locks
    case ReadMax(c) => c in d.writers && d.writers[c].Locked? && d.writers[c].attempt < MAX_RETRY_ATTEMPTS
    case Insert(c) =>
      // an insert that meets another transaction's uncommitted row with the same key waits for its end
      && c in d.writers && d.writers[c].MaxRead?
      && !exists o :: o in d.writers && d.writers[o].Inserted? && d.writers[o].row.tenant == d.writers[c].tenant
                      && d.writers[o].row.sequence == d.writers[c].nextSeq
    case GiveUp(c) => c in d.writers && d.writers[c].Locked? && d.writers[c].attempt >= MAX_RETRY_ATTEMPTS
    case Commit(c) => c in d.writers && d.writers[c].Inserted?
    case CommitThenError(c) => c in d.writers && d.writers[c].Inserted?
    case Fail(c) => c in d.writers && (d.writers[c].Begun? || HoldsLock(d.writers[c]))
    case Subscribe(r, _) => r !in d.readers
    case Page(r, _) => r in d.readers
  }

  function Next(lockOf: Tenant -> LockId, d: Db, e: Event): Db
    requires Enabled(lockOf, d, e)
  {
    match e
    case Begin(c, t, eventType) => d.(writers := d.writers[c := Begun(t, eventType)])
    case Lock(c) =>
      var w := d.writers[c];
      d.(writers := d.writers[c := Locked(w.tenant, w.eventType, 0)], locks := d.locks[lockOf(w.tenant) := c])
    case ReadMax(c) =>
      var w := d.writers[c];
      var nextSeq := MaxSequence(LogOf(d.committed, w.tenant)) + 1;
      d.(writers := d.writers[c := MaxRead(w.tenant, w.eventType, w.attempt, nextSeq)])
    case Insert(c) =>
      var w := d.writers[c];
      if Conflicts(d.committed, w.tenant, w.nextSeq) then
        d.(writers := d.writers[c := Locked(w.tenant, w.eventType, w.attempt + 1)])
      else
        d.(writers := d.writers[c := Inserted(Row(w.tenant, w.nextSeq, w.eventType, c))])
    case GiveUp(c) => d.(writers := d.writers[c := Threw(SequenceConflict)], locks := Unlock(d, c))
    case Commit(c) =>
      d.(committed := d.committed + [d.writers[c].row], writers := d.writers[c := Returned(d.writers[c].row)],
         locks := Unlock(d, c))
    case CommitThenError(c) =>
      d.(committed := d.committed + [d.writers[c].row], writers := d.writers[c := Threw(OtherError)],
         locks := Unlock(d, c))
    case Fail(c) => d.(writers := d.writers[c := Threw(OtherError)], locks := Unlock(d, c))
    case Subscribe(r, t) => d.(readers := d.readers[r := Reader(t, 0, [])])
    case Page(r, limit) =>
      var reader := d.readers[r];
      var page := ReadEvents(d.committed, reader.tenant, reader.cursor, limit);
      d.(readers := d.readers[r := Reader(reader.tenant,
                                          if page == [] then reader.cursor else page[|page| - 1].sequence,
                                          reader.seen + page)])
  }

  ghost predicate Step(lockOf: Tenant -> LockId, d: Db, d': Db) {
    exists e :: Enabled(lockOf, d, e) && d' == Next(lockOf, d, e)
  }

  ghost predicate IsRun(lockOf: Tenant -> LockId, run: seq<Db>) {
    && |run| > 0 && run[0] == Empty
    && forall i :: 0 <= i < |run| - 1 ==> Step(lockOf, run[i], run[i + 1])
  }

  // ---- The invariant ----

  /** Sequences 1, 2, ..., n in this order. */
  ghost predicate Dense(log: seq<Row>) {
    forall i :: 0 <= i < |log| ==> log[i].sequence == i + 1
  }

  ghost predicate LocksInv(lockOf: Tenant -> LockId, d: Db) {
    forall c :: c in d.writers && HoldsLock(d.writers[c]) ==>
                  lockOf(TenantOf(d.writers[c])) in d.locks && d.locks[lockOf(TenantOf(d.writers[c]))] == c
  }

  ghost predicate LogsInv(d: Db) {
    forall t :: Dense(LogOf(d.committed, t))
  }

  /** A call that has read the maximum is still the one to append next, on its first attempt. */
  ghost predicate WriterInv(d: Db, c: CallId, w: Writer) {
    match w
    case Begun(_, _) => true
    case Locked(_, _, attempt) => attempt == 0
    case MaxRead(t, _, attempt, nextSeq) => attempt == 0 && nextSeq == |LogOf(d.committed, t)| + 1
    case Inserted(row) => row.call == c && row.sequence == |LogOf(d.committed, row.tenant)| + 1
    case Returned(row) => row.call == c && row in d.committed
    case Threw(failure) => failure == OtherError
  }

  ghost predicate WritersInv(d: Db) {
    forall c :: c in d.writers ==> WriterInv(d, c, d.writers[c])
  }

  /** Each committed row comes from its own call, and that call has ended. */
  ghost predicate OriginInv(d: Db) {
    && (forall i :: 0 <= i < |d.committed| ==> d.committed[i].call in d.writers)
    && (forall i :: 0 <= i < |d.committed| ==>
          d.writers[d.committed[i].call] in {Returned(d.committed[i]), Threw(OtherError)})
    && (forall i, j :: 0 <= i < j < |d.committed| ==> d.committed[i].call != d.committed[j].call)
  }

  ghost predicate ReaderInv(committed: seq<Row>, r: Reader) {
    && 0 <= r.cursor <= |LogOf(committed, r.tenant)|
    && r.seen == LogOf(committed, r.tenant)[..r.cursor]
  }

  ghost predicate ReadersInv(d: Db) {
    forall r :: r in d.readers ==> ReaderInv(d.committed, d.readers[r])
  }

  ghost predicate Inv(lockOf: Tenant -> LockId, d: Db) {
    LocksInv(lockOf, d) && LogsInv(d) && WritersInv(d) && OriginInv(d) && ReadersInv(d)
  }

  // ---- Queries on dense logs ----

  lemma {:induction false} MaxOfDense(log: seq<Row>)
    requires Dense(log)
    ensures MaxSequence(log) == |log|
  {
    if |log| > 1 {
      MaxOfDense(log[..|log| - 1]);
    }
  }

  lemma {:induction false} LogGrows(rows: seq<Row>, r: Row, t: Tenant)
    ensures LogOf(rows + [r], t) == LogOf(rows, t) + if r.tenant == t then [r] else []
  {
    FilterConcat(rows, [r], Of(t));
  }

  lemma {:induction false} FilterDense(log: seq<Row>, base: nat, after: nat)
    requires base <= after <= base + |log|
    requires forall i :: 0 <= i < |log| ==> log[i].sequence == base + i + 1
    ensures Filter(log, Beyond(after)) == log[after - base..]
  {
    if log != [] {
      if base < after {
        FilterDense(log[1..], base + 1, after);
        assert log[after - base..] == log[1..][after - base - 1..];
      } else {
        FilterAll(log, Beyond(after));
      }
    }
  }

  /** A page of a dense log is the next `limit` rows after the cursor. */
  lemma {:induction false} PageOfDense(rows: seq<Row>, t: Tenant, after: nat, limit: nat)
    requires Dense(LogOf(rows, t)) && after <= |LogOf(rows, t)|
    ensures ReadEvents(rows, t, after, limit) == Limit(LogOf(rows, t)[after..], limit)
  {
    FilterDense(LogOf(rows, t), 0, after);
    SortByOrdered(LogOf(rows, t)[after..], BySequence());
  }

  // ---- Preservation ----

  lemma {:induction false} CommitExtends(lockOf: Tenant -> LockId, d: Db, c: CallId)
    requires Inv(lockOf, d) && c in d.writers && d.writers[c].Inserted?
    ensures forall t :: Dense(LogOf(d.committed + [d.writers[c].row], t))
    ensures forall o :: o in d.writers && o != c ==>
              WriterInv(d.(committed := d.committed + [d.writers[c].row]), o, d.writers[o])
  {
    var row := d.writers[c].row;
    forall t ensures Dense(LogOf(d.committed + [row], t)) {
      LogGrows(d.committed, row, t);
    }
    forall o | o in d.writers && o != c ensures WriterInv(d.(committed := d.committed + [row]), o, d.writers[o]) {
      var w := d.writers[o];
      if w.MaxRead? || w.Inserted? {
        // Two calls never hold the same tenant's lock.
        assert TenantOf(w) != row.tenant;
        LogGrows(d.committed, row, TenantOf(w));
      }
    }
  }

  lemma {:induction false} CommitKeepsReaders(d: Db, row: Row)
    requires ReadersInv(d)
    ensures ReadersInv(d.(committed := d.committed + [row]))
  {
    forall r | r in d.readers ensures ReaderInv(d.committed + [row], d.readers[r]) {
      LogGrows(d.committed, row, d.readers[r].tenant);
    }
  }

  lemma {:induction false} CommitKeepsOrigin(d: Db, c: CallId, w': Writer)
    requires OriginInv(d) && c in d.writers && d.writers[c].Inserted? && d.writers[c].row.call == c
    requires w' == Returned(d.writers[c].row) || w' == Threw(OtherError)
    ensures OriginInv(d.(committed := d.committed + [d.writers[c].row], writers := d.writers[c := w']))
  {
    assert forall i :: 0 <= i < |d.committed| ==> d.committed[i].call != c;
  }

  lemma {:induction false} UnlockKeepsOthers(lockOf: Tenant -> LockId, d: Db, c: CallId, w': Writer)
    requires LocksInv(lockOf, d) && c in d.writers && !HoldsLock(w')
    ensures LocksInv(lockOf, d.(locks := Unlock(d, c), writers := d.writers[c := w']))
  {
  }

  /** No committed row has the sequence a call computed from the maximum. */
  lemma {:induction false} InsertNeverConflicts(lockOf: Tenant -> LockId, d: Db, c: CallId)
    requires Inv(lockOf, d) && c in d.writers && d.writers[c].MaxRead?
    ensures !Conflicts(d.committed, d.writers[c].tenant, d.writers[c].nextSeq)
  {
    var t := d.writers[c].tenant;
    var log := LogOf(d.committed, t);
    assert WriterInv(d, c, d.writers[c]) && Dense(log);
    forall r | r in d.committed && r.tenant == t ensures r.sequence <= |log| {
      FilterMember(d.committed, Of(t), r);
      var i :| 0 <= i < |log| && log[i] == r;
    }
  }

  lemma {:induction false} CommitKeepsInv(lockOf: Tenant -> LockId, d: Db, c: CallId, w': Writer)
    requires Inv(lockOf, d) && c in d.writers && d.writers[c].Inserted?
    requires w' == Returned(d.writers[c].row) || w' == Threw(OtherError)
    ensures Inv(
              lockOf,
              d.(committed := d.committed + [d.writers[c].row], writers := d.writers[c := w'], locks := Unlock(d, c)))
  {
    CommitExtends(lockOf, d, c);
    CommitKeepsReaders(d, d.writers[c].row);
    CommitKeepsOrigin(d, c, w');
    UnlockKeepsOthers(lockOf, d, c, w');
  }

  lemma {:induction false} PageKeepsInv(d: Db, r: nat, limit: nat)
    requires LogsInv(d) && ReadersInv(d) && r in d.readers
    ensures ReadersInv(Next(_ => 0, d, Page(r, limit)))
  {
    hide ReadEvents, LogOf;
    var reader := d.readers[r];
    var log := LogOf(d.committed, reader.tenant);
    PageOfDense(d.committed, reader.tenant, reader.cursor, limit);
    var page := Limit(log[reader.cursor..], limit);
    assert |page| > 0 ==> page[|page| - 1] == log[reader.cursor + |page| - 1];
    assert log[..reader.cursor] + page == log[..reader.cursor + |page|];
  }

  /** A call that has not ended moves on without committing anything. */
  lemma {:induction false} MoveKeepsInv(
      lockOf: Tenant -> LockId, d: Db, c: CallId, w': Writer, locks': map<LockId, CallId>)
    requires Inv(lockOf, d)
    requires c in d.writers ==> d.writers[c].Begun? || HoldsLock(d.writers[c])
    requires WriterInv(d, c, w')
    requires LocksInv(lockOf, d.(writers := d.writers[c := w'], locks := locks'))
    ensures Inv(lockOf, d.(writers := d.writers[c := w'], locks := locks'))
  {
    var d' := d.(writers := d.writers[c := w'], locks := locks');
    forall o | o in d'.writers ensures WriterInv(d', o, d'.writers[o]) {
      assert o != c ==> WriterInv(d, o, d.writers[o]);
    }
    assert forall i :: 0 <= i < |d.committed| ==> d.committed[i].call != c;
  }

  lemma {:induction false} LockKeepsLocks(lockOf: Tenant -> LockId, d: Db, c: CallId, w': Writer)
    requires LocksInv(lockOf, d) && w'.Locked? && lockOf(w'.tenant) !in d.locks
    ensures LocksInv(lockOf, d.(writers := d.writers[c := w'], locks := d.locks[lockOf(w'.tenant) := c]))
  {
  }

  lemma {:induction false} WriterStepKeepsInv(lockOf: Tenant -> LockId, d: Db, e: Event)
    requires Inv(lockOf, d) && Enabled(lockOf, d, e)
    requires e.Begin? || e.Lock? || e.ReadMax? || e.Insert? || e.Fail?
    ensures Inv(lockOf, Next(lockOf, d, e))
  {
    match e
    case Begin(c, t, eventType) =>
      MoveKeepsInv(lockOf, d, c, Begun(t, eventType), d.locks);
    case Lock(c) =>
      var w := Locked(d.writers[c].tenant, d.writers[c].eventType, 0);
      LockKeepsLocks(lockOf, d, c, w);
      MoveKeepsInv(lockOf, d, c, w, d.locks[lockOf(w.tenant) := c]);
    case ReadMax(c) =>
      MaxOfDense(LogOf(d.committed, d.writers[c].tenant));
      assert WriterInv(d, c, d.writers[c]);
      MoveKeepsInv(lockOf, d, c, Next(lockOf, d, e).writers[c], d.locks);
    case Insert(c) =>
      InsertNeverConflicts(lockOf, d, c);
      assert WriterInv(d, c, d.writers[c]);
      MoveKeepsInv(lockOf, d, c, Next(lockOf, d, e).writers[c], d.locks);
    case Fail(c) =>
      UnlockKeepsOthers(lockOf, d, c, Threw(OtherError));
      MoveKeepsInv(lockOf, d, c, Threw(OtherError), Unlock(d, c));
  }

  lemma {:induction false} NoCallGivesUp(lockOf: Tenant -> LockId, d: Db)
    requires WritersInv(d)
    ensures forall c :: !Enabled(lockOf, d, GiveUp(c))
  {
    forall c | c in d.writers ensures !(d.writers[c].Locked? && d.writers[c].attempt >= MAX_RETRY_ATTEMPTS) {
      assert WriterInv(d, c, d.writers[c]);
    }
  }

  lemma {:induction false} SubscribeKeepsInv(lockOf: Tenant -> LockId, d: Db, r: nat, t: Tenant)
    requires Inv(lockOf, d) && r !in d.readers
    ensures Inv(lockOf, d.(readers := d.readers[r := Reader(t, 0, [])]))
  {
    UnreadWritersKeepInv(lockOf, d, d.readers[r := Reader(t, 0, [])]);
  }

  /** Readers change nothing for the writers. */
  lemma {:induction false} UnreadWritersKeepInv(lockOf: Tenant -> LockId, d: Db, readers: map<nat, Reader>)
    requires Inv(lockOf, d)
    ensures var d' := d.(readers := readers); LocksInv(lockOf, d') && LogsInv(d') && WritersInv(d') && OriginInv(d')
  {
    forall c | c in d.writers ensures WriterInv(d.(readers := readers), c, d.writers[c]) {
      assert WriterInv(d, c, d.writers[c]);
    }
  }

  lemma {:induction false} NextKeepsInv(lockOf: Tenant -> LockId, d: Db, e: Event)
    requires Inv(lockOf, d) && Enabled(lockOf, d, e)
    ensures Inv(lockOf, Next(lockOf, d, e))
  {
    hide LocksInv, LogsInv, OriginInv, ReadersInv, WriterInv, ReadEvents;
    NoCallGivesUp(lockOf, d);
    match e
    case GiveUp(c) => assert false;
    case Commit(c) => CommitKeepsInv(lockOf, d, c, Returned(d.writers[c].row));
    case CommitThenError(c) => CommitKeepsInv(lockOf, d, c, Threw(OtherError));
    case Subscribe(r, t) => SubscribeKeepsInv(lockOf, d, r, t);
    case Page(r, limit) =>
      UnreadWritersKeepInv(lockOf, d, Next(lockOf, d, e).readers);
      PageKeepsInv(d, r, limit);
    case _ => WriterStepKeepsInv(lockOf, d, e);
  }

  lemma {:induction false} RunsAreSafe(lockOf: Tenant -> LockId, run: seq<Db>, i: nat)
    requires IsRun(lockOf, run) && i < |run|
    ensures Inv(lockOf, run[i])
  {
    if i > 0 {
      RunsAreSafe(lockOf, run, i - 1);
      assert Step(lockOf, run[i - 1], run[i - 1 + 1]);
      var e :| Enabled(lockOf, run[i - 1], e) && run[i] == Next(lockOf, run[i - 1], e);
      NextKeepsInv(lockOf, run[i - 1], e);
    }
  }

  // ---- What the invariant gives ----

  /** Each tenant's committed events are 1, 2, ..., n, in commit order, whatever locks tenants share. */
  lemma {:induction false} SequencesAreDense(lockOf: Tenant -> LockId, run: seq<Db>, i: nat, t: Tenant, k: nat)
    requires IsRun(lockOf, run) && i < |run| && k < |LogOf(run[i].committed, t)|
    ensures LogOf(run[i].committed, t)[k].sequence == k + 1
    ensures LogOf(run[i].committed, t)[k].tenant == t && LogOf(run[i].committed, t)[k] in run[i].committed
  {
    RunsAreSafe(lockOf, run, i);
    assert Dense(LogOf(run[i].committed, t));
    FilterMember(run[i].committed, Of(t), LogOf(run[i].committed, t)[k]);
  }

  /** The conflict branch is never entered: every insert is made on the first attempt and takes effect. */
  lemma {:induction false} ConflictBranchIsUnreachable(lockOf: Tenant -> LockId, run: seq<Db>, i: nat, c: CallId)
    requires IsRun(lockOf, run) && i < |run| && c in run[i].writers
    ensures run[i].writers[c] != Threw(SequenceConflict)
    ensures run[i].writers[c].Locked? ==> run[i].writers[c].attempt == 0
    ensures run[i].writers[c].MaxRead? ==>
              && run[i].writers[c].attempt == 0
              && !Conflicts(run[i].committed, run[i].writers[c].tenant, run[i].writers[c].nextSeq)
    ensures !Enabled(lockOf, run[i], GiveUp(c))
  {
    RunsAreSafe(lockOf, run, i);
    assert WriterInv(run[i], c, run[i].writers[c]);
    if run[i].writers[c].MaxRead? {
      InsertNeverConflicts(lockOf, run[i], c);
    }
  }

  /** A call that returned committed exactly one row, the one it returned; a call still running committed none. */
  lemma {:induction false} ReturnedMeansCommittedOnce(lockOf: Tenant -> LockId, run: seq<Db>, i: nat, c: CallId)
    requires IsRun(lockOf, run) && i < |run| && c in run[i].writers
    ensures run[i].writers[c].Returned? ==>
              && run[i].writers[c].result in run[i].committed
              && forall r :: r in run[i].committed && r.call == c ==> r == run[i].writers[c].result
    ensures !run[i].writers[c].Returned? && !run[i].writers[c].Threw? ==>
              forall r :: r in run[i].committed ==> r.call != c
    ensures forall j, k :: 0 <= j < k < |run[i].committed| ==> run[i].committed[j].call != run[i].committed[k].call
  {
    RunsAreSafe(lockOf, run, i);
    assert WriterInv(run[i], c, run[i].writers[c]);
  }

  /** A paging reader has seen events 1..cursor in order, none missed, none twice. */
  lemma {:induction false} ReadersSeeEveryEventOnce(lockOf: Tenant -> LockId, run: seq<Db>, i: nat, r: nat)
    requires IsRun(lockOf, run) && i < |run| && r in run[i].readers
    ensures var reader := run[i].readers[r];
            && |reader.seen| == reader.cursor
            && reader.seen <= LogOf(run[i].committed, reader.tenant)
            && forall k :: 0 <= k < |reader.seen| ==> reader.seen[k].sequence == k + 1
  {
    RunsAreSafe(lockOf, run, i);
    assert ReaderInv(run[i].committed, run[i].readers[r]);
    assert Dense(LogOf(run[i].committed, run[i].readers[r].tenant));
  }

  /** A page with a positive limit makes progress unless the reader has caught up. */
  lemma {:induction false} PagesMakeProgress(lockOf: Tenant -> LockId, run: seq<Db>, i: nat, r: nat, limit: nat)
    requires IsRun(lockOf, run) && i < |run| && r in run[i].readers
    ensures var before := run[i].readers[r];
            var after := Next(lockOf, run[i], Page(r, limit)).readers[r];
            var behind := |LogOf(run[i].committed, before.tenant)| - before.cursor;
            after.cursor == before.cursor + if limit < behind then limit else behind
  {
    RunsAreSafe(lockOf, run, i);
    var d := run[i];
    assert ReaderInv(d.committed, d.readers[r]);
    assert Dense(LogOf(d.committed, d.readers[r].tenant));
    PageOfDense(d.committed, d.readers[r].tenant, d.readers[r].cursor, limit);
  }

  // ---- readEvents on any table ----

  /** A page is sorted, holds only matching rows, and is short of the limit only when it holds them all. */
  lemma {:induction false} PageIsTheSmallestMatches(rows: seq<Row>, t: Tenant, after: int, limit: nat)
    ensures var page := ReadEvents(rows, t, after, limit);
            && |page| <= limit
            && (forall i, j :: 0 <= i < j < |page| ==> page[i].sequence <= page[j].sequence)
            && (forall r :: r in page ==> r in rows && r.tenant == t && r.sequence > after)
            && (forall r :: r in rows && r.tenant == t && r.sequence > after && r !in page ==>
                  |page| == limit && forall p :: p in page ==> p.sequence <= r.sequence)
  {
    var matching := Filter(LogOf(rows, t), Beyond(after));
    var sorted := SortBy(matching, BySequence());
    SortByOrders(matching, BySequence());
    forall r ensures r in sorted <==> r in rows && r.tenant == t && r.sequence > after {
      FilterMember(rows, Of(t), r);
      FilterMember(LogOf(rows, t), Beyond(after), r);
      assert r in sorted <==> r in multiset(sorted);
      assert r in matching <==> r in multiset(matching);
    }
  }
}
