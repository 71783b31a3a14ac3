/** appendEvent and tenantLockId as the source writes them: loops over a table and over a string. */
module EventStore {
  import opened Sequences
  import opened EventLog

  lemma {:induction false} MaxBoundsLog(log: seq<Row>, r: Row)
    requires r in log
    ensures r.sequence <= MaxSequence(log)
  {
    if |log| > 1 && r != log[|log| - 1] {
      assert log == log[..|log| - 1] + [log[|log| - 1]];
      MaxBoundsLog(log[..|log| - 1], r);
    }
  }

  lemma {:induction false} NextSequenceIsFree(rows: seq<Row>, t: Tenant)
    ensures !Conflicts(rows, t, MaxSequence(LogOf(rows, t)) + 1)
  {
    forall r | r in rows && r.tenant == t ensures r.sequence <= MaxSequence(LogOf(rows, t)) {
      FilterMember(rows, Of(t), r);
      MaxBoundsLog(LogOf(rows, t), r);
    }
  }

  /**
   * The attempts of one appendEvent call. intruders[k] are rows that writers bypassing appendEvent commit
   * between the k-th read of the maximum and the k-th insert; the retry loop exists for them.
   */
  function Attempts(
      rows: seq<Row>, t: Tenant, eventType: string, call: CallId, intruders: seq<seq<Row>>)
    : (seq<Row>, Option<Row>)
    decreases |intruders|
  {
    if intruders == [] then (rows, None)
    else
      var row := Row(t, MaxSequence(LogOf(rows, t)) + 1, eventType, call);
      var now := rows + intruders[0];
      if Conflicts(now, t, row.sequence) then Attempts(now, t, eventType, call, intruders[1..])
      else (now + [row], Some(row))
  }

  ghost predicate UniqueKeys(rows: seq<Row>) {
    forall i, j :: 0 <= i < j < |rows| ==> rows[i].tenant != rows[j].tenant || rows[i].sequence != rows[j].sequence
  }

  /** Whatever intrudes, the row returned is the last of the table and keeps (tenant, sequence) unique. */
  lemma {:induction false} AttemptsKeepKeysUnique(
      rows: seq<Row>, t: Tenant, eventType: string, call: CallId, intruders: seq<seq<Row>>)
    requires UniqueKeys(rows + Concat(intruders))
    ensures var (rows', result) := Attempts(rows, t, eventType, call, intruders);
            && (result.None? ==> rows' == rows + Concat(intruders))
            && (result.Some? ==> UniqueKeys(rows') && |rows'| > 0 && rows'[|rows'| - 1] == result.value)
    decreases |intruders|
  {
    if intruders == [] {
      assert rows + [] == rows;
    } else {
      var now := rows + intruders[0];
      ConcatFirst(intruders);
      assert rows + Concat(intruders) == now + Concat(intruders[1..]);
      var whole := now + Concat(intruders[1..]);
      forall i, j | 0 <= i < j < |now| ensures now[i].tenant != now[j].tenant || now[i].sequence != now[j].sequence {
        assert whole[i] == now[i] && whole[j] == now[j];
      }
      AttemptsKeepKeysUnique(now, t, eventType, call, intruders[1..]);
    }
  }

  /** Attempt k reads a maximum whose successor an intruder then takes. */
  ghost predicate Overtaken(rows: seq<Row>, t: Tenant, intruders: seq<seq<Row>>, k: nat)
    requires k < |intruders|
  {
    Conflicts(intruders[k], t, MaxSequence(LogOf(rows + Concat(intruders[..k]), t)) + 1)
  }

  lemma {:induction false} OvertakenShifts(rows: seq<Row>, t: Tenant, intruders: seq<seq<Row>>, k: nat)
    requires k + 1 < |intruders|
    ensures Overtaken(rows + intruders[0], t, intruders[1..], k) == Overtaken(rows, t, intruders, k + 1)
  {
    assert intruders[..k + 1][1..] == intruders[1..][..k];
    ConcatFirst(intruders[..k + 1]);
    assert rows + Concat(intruders[..k + 1]) == rows + intruders[0] + Concat(intruders[1..][..k]);
  }

  lemma {:induction false} FirstIsOvertakenIff(rows: seq<Row>, t: Tenant, intruders: seq<seq<Row>>)
    requires |intruders| > 0
    ensures Overtaken(rows, t, intruders, 0) <==> Conflicts(rows + intruders[0], t, MaxSequence(LogOf(rows, t)) + 1)
  {
    NextSequenceIsFree(rows, t);
    assert rows + Concat(intruders[..0]) == rows;
    if Overtaken(rows, t, intruders, 0) {
      var r :| r in intruders[0] && r.tenant == t && r.sequence == MaxSequence(LogOf(rows, t)) + 1;
      assert r in rows + intruders[0];
    }
  }

  /** The call gives up exactly when every attempt was overtaken by a row taking the sequence it had read. */
  lemma {:induction false} GivesUpIffAlwaysOvertaken(
      rows: seq<Row>, t: Tenant, eventType: string, call: CallId, intruders: seq<seq<Row>>)
    ensures Attempts(rows, t, eventType, call, intruders).1.None? <==>
              forall k :: 0 <= k < |intruders| ==> Overtaken(rows, t, intruders, k)
    decreases |intruders|
  {
    if intruders != [] {
      FirstIsOvertakenIff(rows, t, intruders);
      GivesUpIffAlwaysOvertaken(rows + intruders[0], t, eventType, call, intruders[1..]);
      forall k | 0 <= k < |intruders| - 1
        ensures Overtaken(rows + intruders[0], t, intruders[1..], k) == Overtaken(rows, t, intruders, k + 1)
      {
        OvertakenShifts(rows, t, intruders, k);
      }
      forall k | 0 < k < |intruders|
        ensures Overtaken(rows + intruders[0], t, intruders[1..], k - 1) == Overtaken(rows, t, intruders, k)
      {
        OvertakenShifts(rows, t, intruders, k - 1);
      }
    }
  }

  /**
   * Otherwise the first attempt not overtaken succeeds: the intruders so far and one row are stored, for the given
   * tenant, type and call, and numbered one above the maximum that attempt had read.
   */
  lemma {:induction false} StoresItsRowAtFirstChance(
      rows: seq<Row>, t: Tenant, eventType: string, call: CallId, intruders: seq<seq<Row>>, k: nat)
    requires k < |intruders| && !Overtaken(rows, t, intruders, k)
    requires forall j :: 0 <= j < k ==> Overtaken(rows, t, intruders, j)
    ensures var row := Row(t, MaxSequence(LogOf(rows + Concat(intruders[..k]), t)) + 1, eventType, call);
            Attempts(rows, t, eventType, call, intruders) == (rows + Concat(intruders[..k + 1]) + [row], Some(row))
    decreases k
  {
    hide MaxSequence, LogOf, Overtaken, Conflicts;
    FirstIsOvertakenIff(rows, t, intruders);
    if k == 0 {
      assert intruders[..1] == [intruders[0]];
      ConcatOne(intruders[0]);
      assert rows + Concat(intruders[..0]) == rows;
    } else {
      forall j | 0 <= j < k
        ensures Overtaken(rows + intruders[0], t, intruders[1..], j) == Overtaken(rows, t, intruders, j + 1)
      {
        OvertakenShifts(rows, t, intruders, j);
      }
      forall j | 0 <= j < k - 1 ensures Overtaken(rows + intruders[0], t, intruders[1..], j) {
        assert Overtaken(rows, t, intruders, j + 1);
      }
      StoresItsRowAtFirstChance(rows + intruders[0], t, eventType, call, intruders[1..], k - 1);
      ShiftConcat(rows, intruders, k);
      ShiftConcat(rows, intruders, k + 1);
    }
  }

  lemma {:induction false} ShiftConcat(rows: seq<Row>, intruders: seq<seq<Row>>, k: nat)
    requires 0 < k <= |intruders|
    ensures rows + intruders[0] + Concat(intruders[1..][..k - 1]) == rows + Concat(intruders[..k])
  {
    assert intruders[..k][1..] == intruders[1..][..k - 1];
    ConcatFirst(intruders[..k]);
  }

  /** COALESCE(MAX(sequence), 0): zero for no rows, and otherwise attained and never exceeded. */
  lemma {:induction false} MaxSequenceIsTheMaximum(log: seq<Row>)
    ensures log == [] ==> MaxSequence(log) == 0
    ensures log != [] ==> exists r :: r in log && r.sequence == MaxSequence(log)
    ensures forall r :: r in log ==> r.sequence <= MaxSequence(log)
  {
    forall r | r in log ensures r.sequence <= MaxSequence(log) {
      MaxBoundsLog(log, r);
    }
    if |log| == 1 {
      assert log[0] in log;
    } else if |log| > 1 {
      var last := log[|log| - 1];
      MaxSequenceIsTheMaximum(log[..|log| - 1]);
      assert last in log && forall r :: r in log[..|log| - 1] ==> r in log;
    }
  }

  class BillingEvents {
    var rows: seq<Row>

    constructor ()
      ensures rows == []
    {
      rows := [];
    }

    /** The retry loop of appendEvent; None stands for the rollback and SequenceConflictError. */
    method AppendEvent(t: Tenant, eventType: string, call: CallId, intruders: seq<seq<Row>>)
      returns (result: Option<Row>)
      requires |intruders| == 3
      modifies this
      ensures (rows, result) == Attempts(old(rows), t, eventType, call, intruders)
    {
      var attempt := 0;
      while attempt < MAX_RETRY_ATTEMPTS
        invariant 0 <= attempt <= MAX_RETRY_ATTEMPTS
        invariant Attempts(old(rows), t, eventType, call, intruders)
                  == Attempts(rows, t, eventType, call, intruders[attempt..])
      {
        var nextSeq := MaxSequence(LogOf(rows, t)) + 1;
        assert intruders[attempt..][1..] == intruders[attempt + 1..];
        rows := rows + intruders[attempt];
        if !Conflicts(rows, t, nextSeq) {
          var row := Row(t, nextSeq, eventType, call);
          rows := rows + [row];
          return Some(row);
        }
        attempt := attempt + 1;
      }
      return None;
    }
  }

  /** With no intruders the first attempt succeeds, and a table of dense logs stays one. */
  lemma {:induction false} UndisturbedAppend(rows: seq<Row>, t: Tenant, eventType: string, call: CallId)
    ensures var row := Row(t, MaxSequence(LogOf(rows, t)) + 1, eventType, call);
            && Attempts(rows, t, eventType, call, [[], [], []]) == (rows + [row], Some(row))
            && ((forall u :: Dense(LogOf(rows, u))) ==> forall u :: Dense(LogOf(rows + [row], u)))
  {
    NextSequenceIsFree(rows, t);
    assert rows + [] == rows;
    MaxOfLogs(rows, Row(t, MaxSequence(LogOf(rows, t)) + 1, eventType, call));
  }

  lemma {:induction false} MaxOfLogs(rows: seq<Row>, row: Row)
    requires row.sequence == MaxSequence(LogOf(rows, row.tenant)) + 1
    ensures (forall u :: Dense(LogOf(rows, u))) ==> forall u :: Dense(LogOf(rows + [row], u))
  {
    if forall u :: Dense(LogOf(rows, u)) {
      forall u ensures Dense(LogOf(rows + [row], u)) {
        assert Dense(LogOf(rows, u));
        LogGrows(rows, row, u);
        MaxOfDense(LogOf(rows, u));
      }
    }
  }

  // ---- tenantLockId ----

  type CodeUnit = c: int | 0 <= c < 0x1_0000

  /** The value a JavaScript bitwise operation leaves: two's complement, 32 bits. */
  function ToInt32(n: int): (r: int)
    ensures -0x8000_0000 <= r < 0x8000_0000
  {
    (n + 0x8000_0000) % 0x1_0000_0000 - 0x8000_0000
  }

  /** The hash with no wrap-around: the code units as digits in base 31. */
  function Polynomial(s: seq<CodeUnit>): int {
    if s == [] then 0 else Polynomial(s[..|s| - 1]) * 31 + s[|s| - 1]
  }

  lemma {:induction false} ToInt32IsPeriodic(n: int, k: int)
    ensures ToInt32(n + k * 0x1_0000_0000) == ToInt32(n)
  {
    var m := n + 0x8000_0000;
    var q, r := m / 0x1_0000_0000, m % 0x1_0000_0000;
    assert m + k * 0x1_0000_0000 == (q + k) * 0x1_0000_0000 + r;
  }

  lemma {:induction false} ToInt32IsShift(n: int) returns (k: int)
    ensures ToInt32(n) == n + k * 0x1_0000_0000
  {
    k := -((n + 0x8000_0000) / 0x1_0000_0000);
  }

  /** One round of the hash: shifting wraps, and so does the final truncation. */
  lemma {:induction false} HashRound(p: int, c: int)
    ensures ToInt32(ToInt32(ToInt32(p) * 32) - ToInt32(p) + c) == ToInt32(p * 31 + c)
  {
    var h := ToInt32(p);
    var i := ToInt32IsShift(p);
    var j := ToInt32IsShift(h * 32);
    assert ToInt32(h * 32) - h + c == p * 31 + c + (31 * i + j) * 0x1_0000_0000;
    ToInt32IsPeriodic(p * 31 + c, 31 * i + j);
  }

  /** The lock id is the absolute value of the polynomial wrapped once, at the end, to 32 bits. */
  method TenantLockId(tenantId: seq<CodeUnit>) returns (lockId: int)
    ensures var h := ToInt32(Polynomial(tenantId)); lockId == if h < 0 then -h else h
    ensures 0 <= lockId <= 0x8000_0000
  {
    var hash := 0;
    var i := 0;
    while i < |tenantId|
      invariant 0 <= i <= |tenantId|
      invariant hash == ToInt32(Polynomial(tenantId[..i]))
    {
      var chr := tenantId[i];
      assert tenantId[..i + 1][..i] == tenantId[..i];
      HashRound(Polynomial(tenantId[..i]), chr);
      hash := ToInt32(hash * 32) - hash + chr;
      hash := ToInt32(hash);
      i := i + 1;
    }
    assert tenantId[..i] == tenantId;
    return if hash < 0 then -hash else hash;
  }

  /** Tenants "Aa" and "BB" share a lock: the safety results may not rest on distinct lock ids. */
  lemma {:induction false} LockIdsCollide()
    ensures Polynomial([65, 97]) == Polynomial([66, 66])
  {
    assert [65, 97][..1] == [65] && [66, 66][..1] == [66];
    assert [65][..0] == [] && [66][..0] == [];
  }
}
