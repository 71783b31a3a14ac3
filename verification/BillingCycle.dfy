/** The billing-cycle state machine: OPEN, FINALIZING, FINALIZED, SETTLED. */
module BillingStateMachine {
  import opened Sequences

  datatype BillingCycleState = OPEN | FINALIZING | FINALIZED | SETTLED

  function ValidTransitions(s: BillingCycleState): seq<BillingCycleState> {
    match s
    case OPEN => [FINALIZING]
    case FINALIZING => [FINALIZED]
    case FINALIZED => [SETTLED]
    case SETTLED => []
  }

  predicate ValidateTransition(current: BillingCycleState, next: BillingCycleState) {
    next in ValidTransitions(current)
  }

  function NextState(current: BillingCycleState): Option<BillingCycleState> {
    if |ValidTransitions(current)| > 0 then Some(ValidTransitions(current)[0]) else None
  }

  predicate IsTerminal(s: BillingCycleState) {
    |ValidTransitions(s)| == 0
  }

  function Rank(s: BillingCycleState): nat {
    match s
    case OPEN => 0
    case FINALIZING => 1
    case FINALIZED => 2
    case SETTLED => 3
  }

  /** The legal transitions are exactly the single steps up the rank, so the machine is a straight line. */
  lemma {:induction false} TransitionsAreSingleSteps(a: BillingCycleState, b: BillingCycleState)
    ensures ValidateTransition(a, b) <==> Rank(b) == Rank(a) + 1
    ensures ValidateTransition(a, b) <==> NextState(a) == Some(b)
    ensures IsTerminal(a) <==> a == SETTLED
  {
    assert a.OPEN? || a.FINALIZING? || a.FINALIZED? || a.SETTLED?;
    assert b.OPEN? || b.FINALIZING? || b.FINALIZED? || b.SETTLED?;
  }
}

/** The two stores of billing cycles: a map and a set in memory, and guarded SQL statements. */
module BillingStore {
  import opened Sequences
  import opened BillingStateMachine

  type CycleId = string
  type Key = string

  datatype Cycle = Cycle(state: BillingCycleState, lockVersion: int)

  // ---- The specification: compare-and-set on a map of cycles ----

  predicate CasApplies(cycles: map<CycleId, Cycle>, id: CycleId, from: BillingCycleState, version: int) {
    id in cycles && cycles[id] == Cycle(from, version)
  }

  function Cas(cycles: map<CycleId, Cycle>, id: CycleId, from: BillingCycleState, to: BillingCycleState, version: int)
    : map<CycleId, Cycle>
  {
    if CasApplies(cycles, id, from, version) then cycles[id := Cycle(to, version + 1)] else cycles
  }

  class InMemoryBillingCycleStore {
    var cycles: map<CycleId, Cycle>
    var idempotencyKeys: set<Key>

    constructor ()
      ensures cycles == map[] && idempotencyKeys == {}
    {
      cycles, idempotencyKeys := map[], {};
    }

    method Seed(id: CycleId, state: BillingCycleState, lockVersion: int)
      modifies this`cycles
      ensures cycles == old(cycles)[id := Cycle(state, lockVersion)]
    {
      cycles := cycles[id := Cycle(state, lockVersion)];
    }

    method GetCycle(id: CycleId) returns (c: Option<Cycle>)
      ensures c == if id in cycles then Some(cycles[id]) else None
    {
      return if id in cycles then Some(cycles[id]) else None;
    }

    method ApplyTransition(id: CycleId, from: BillingCycleState, to: BillingCycleState, expectedLockVersion: int)
      returns (applied: bool)
      modifies this`cycles
      ensures applied <==> CasApplies(old(cycles), id, from, expectedLockVersion)
      ensures cycles == Cas(old(cycles), id, from, to, expectedLockVersion)
    {
      if id !in cycles {
        return false;
      }
      var cycle := cycles[id];
      if cycle.state != from || cycle.lockVersion != expectedLockVersion {
        return false;
      }
      cycle := cycle.(state := to);
      cycle := cycle.(lockVersion := cycle.lockVersion + 1);
      cycles := cycles[id := cycle];
      return true;
    }

    method RecordFinalization(cycleId: CycleId, key: Key) returns (isNew: bool)
      modifies this`idempotencyKeys
      ensures isNew <==> key !in old(idempotencyKeys)
      ensures idempotencyKeys == if isNew then old(idempotencyKeys) + {key} else old(idempotencyKeys)
    {
      if key in idempotencyKeys {
        return false;
      }
      idempotencyKeys := idempotencyKeys + {key};
      return true;
    }
  }

  // ---- The SQL statements of PgBillingCycleStore, on tables of rows ----

  datatype CycleRow = CycleRow(id: CycleId, state: BillingCycleState, lockVersion: int)

  /** UPDATE ... SET state, lock_version = lock_version + 1 WHERE id, state and lock_version match; with the count. */
  function GuardedUpdate(rows: seq<CycleRow>, id: CycleId, from: BillingCycleState, to: BillingCycleState, version: int)
    : (seq<CycleRow>, nat)
  {
    if rows == [] then ([], 0)
    else
      var (rest, n) := GuardedUpdate(rows[1..], id, from, to, version);
      if rows[0] == CycleRow(id, from, version) then ([CycleRow(id, to, version + 1)] + rest, n + 1)
      else ([rows[0]] + rest, n)
  }

  ghost predicate PrimaryKey(rows: seq<CycleRow>) {
    forall i, j :: 0 <= i < j < |rows| ==> rows[i].id != rows[j].id
  }

  /** The map a table stands for. */
  function AsMap(rows: seq<CycleRow>): map<CycleId, Cycle> {
    if rows == [] then map[] else AsMap(rows[1..])[rows[0].id := Cycle(rows[0].state, rows[0].lockVersion)]
  }

  lemma {:induction false} AsMapKeys(rows: seq<CycleRow>, id: CycleId)
    ensures id in AsMap(rows) <==> exists r :: r in rows && r.id == id
  {
    if rows != [] {
      assert rows == [rows[0]] + rows[1..];
      AsMapKeys(rows[1..], id);
      if rows[0].id == id {
        assert rows[0] in rows;
      } else if id in AsMap(rows[1..]) {
        var r :| r in rows[1..] && r.id == id;
        assert r in rows;
      }
    }
  }

  lemma {:induction false} UpdateKeepsIds(
      rows: seq<CycleRow>, id: CycleId, from: BillingCycleState, to: BillingCycleState, version: int)
    ensures var rows' := GuardedUpdate(rows, id, from, to, version).0;
            |rows'| == |rows| && forall i :: 0 <= i < |rows| ==> rows'[i].id == rows[i].id
  {
    if rows != [] {
      UpdateKeepsIds(rows[1..], id, from, to, version);
    }
  }

  /** How a compare-and-set meets the first row of a table, whose id no later row has. */
  lemma {:induction false} CasOnFirstRow(
      rest: map<CycleId, Cycle>, row: CycleRow, id: CycleId, from: BillingCycleState, to: BillingCycleState,
      version: int)
    requires row.id !in rest
    ensures var all := rest[row.id := Cycle(row.state, row.lockVersion)];
            if row == CycleRow(id, from, version) then
              && CasApplies(all, id, from, version) && !CasApplies(rest, id, from, version)
              && Cas(rest, id, from, to, version) == rest
              && Cas(all, id, from, to, version) == rest[id := Cycle(to, version + 1)]
            else
              (CasApplies(all, id, from, version) <==> CasApplies(rest, id, from, version))
              && Cas(all, id, from, to, version)
                 == Cas(rest, id, from, to, version)[row.id := Cycle(row.state, row.lockVersion)]
  {
  }

  lemma {:induction false} UpdateKeepsPrimaryKey(
      rows: seq<CycleRow>, id: CycleId, from: BillingCycleState, to: BillingCycleState, version: int)
    requires PrimaryKey(rows)
    ensures PrimaryKey(GuardedUpdate(rows, id, from, to, version).0)
  {
    UpdateKeepsIds(rows, id, from, to, version);
  }

  /** The guarded UPDATE is the compare-and-set: one row when it applies, none otherwise, same new contents. */
  lemma {:induction false} GuardedUpdateIsCas(
      rows: seq<CycleRow>, id: CycleId, from: BillingCycleState, to: BillingCycleState, version: int)
    requires PrimaryKey(rows)
    ensures var (rows', n) := GuardedUpdate(rows, id, from, to, version);
            && n == (if CasApplies(AsMap(rows), id, from, version) then 1 else 0)
            && AsMap(rows') == Cas(AsMap(rows), id, from, to, version)
            && PrimaryKey(rows')
  {
    hide CasApplies, Cas;
    UpdateKeepsPrimaryKey(rows, id, from, to, version);
    if rows == [] {
      CasOnNothing(id, from, to, version);
    } else {
      GuardedUpdateIsCas(rows[1..], id, from, to, version);
      var rest := GuardedUpdate(rows[1..], id, from, to, version).0;
      var rows' := GuardedUpdate(rows, id, from, to, version).0;
      assert rows'[1..] == rest;
      FirstIdIsNotLater(rows);
      CasOnFirstRow(AsMap(rows[1..]), rows[0], id, from, to, version);
    }
  }

  lemma {:induction false} FirstIdIsNotLater(rows: seq<CycleRow>)
    requires PrimaryKey(rows) && rows != []
    ensures rows[0].id !in AsMap(rows[1..])
  {
    AsMapKeys(rows[1..], rows[0].id);
  }

  lemma {:induction false} CasOnNothing(id: CycleId, from: BillingCycleState, to: BillingCycleState, version: int)
    ensures !CasApplies(map[], id, from, version) && Cas(map[], id, from, to, version) == map[]
  {
  }
}
