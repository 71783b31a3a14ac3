/**
 * Billing finalisation: any number of finalizeBillingCycle calls over one store, interleaved at every
 * await. Each call may throw or die at any point, and others may settle finalised cycles meanwhile.
 */
module Finalizer {
  import opened Sequences
  import opened BillingStateMachine
  import opened BillingStore

  datatype Outcome = Finalized | NotFound | NotOpen | LostRace | DuplicateReplay

  /** How far a call that threw or died had come. */
  datatype Stage = BeforeWinning | Holding | AfterClosing

  datatype Pc =
    | Started
    | SawOpen(version: int)     // read OPEN at this version
    | Won(version: int)         // its compare-and-set opened the critical section
    | Recorded(version: int)    // its idempotency key was new
    | Computed(version: int)    // the computation returned
    | Closed                    // the second transition was issued
    | Lost
    | Done(outcome: Outcome)
    | Died(stage: Stage)

  datatype Call = Call(cycle: CycleId, key: Key, pc: Pc)

  datatype System = System(
    cycles: map<CycleId, Cycle>,
    keys: set<Key>,
    calls: map<nat, Call>,
    // What happened so far:
    winner: map<CycleId, nat>,     // who opened each critical section
    recorder: map<Key, nat>,       // who recorded each key
    computed: seq<nat>)            // the calls whose computation was entered, in that order

  function Initially(cycles: map<CycleId, Cycle>, keys: set<Key>): System {
    System(cycles, keys, map[], map[], map[], [])
  }

  datatype Event =
    | Start(p: nat, cycle: CycleId, key: Key)
    | Read(p: nat)
    | Win(p: nat)
    | ReadLatest(p: nat)
    | Record(p: nat)
    | Compute(p: nat, throws: bool)
    | Close(p: nat)
    | Return(p: nat)
    | Die(p: nat)
    | Settle(cycle: CycleId, version: int)

  predicate Enabled(s: System, e: Event) {
    match e
    case Start(p, _, _) => p !in s.calls
    case Read(p) => p in s.calls && s.calls[p].pc.Started?
    case Win(p) => p in s.calls && s.calls[p].pc.SawOpen?
    case ReadLatest(p) => p in s.calls && s.calls[p].pc.Lost?
    case Record(p) => p in s.calls && s.calls[p].pc.Won?
    case Compute(p, _) => p in s.calls && s.calls[p].pc.Recorded?
    case Close(p) => p in s.calls && s.calls[p].pc.Computed?
    case Return(p) => p in s.calls && s.calls[p].pc.Closed?
    case Die(p) => p in s.calls && !s.calls[p].pc.Done? && !s.calls[p].pc.Died?
    case Settle(_, _) => true
  }

  function StageOf(pc: Pc): Stage {
    if pc.Won? || pc.Recorded? || pc.Computed? then Holding
    else if pc.Closed? then AfterClosing
    else BeforeWinning
  }

  function Move(s: System, p: nat, pc: Pc): map<nat, Call>
    requires p in s.calls
  {
    s.calls[p := s.calls[p].(pc := pc)]
  }

  function Next(s: System, e: Event): System
    requires Enabled(s, e)
  {
    match e
    case Start(p, c, k) => s.(calls := s.calls[p := Call(c, k, Started)])
    case Read(p) =>
      var c := s.calls[p].cycle;
      s.(calls := Move(s, p,
                       if c !in s.cycles then Done(NotFound)
                       else if !s.cycles[c].state.OPEN? then Done(NotOpen)
                       else SawOpen(s.cycles[c].lockVersion)))
    case Win(p) =>
      var c, v := s.calls[p].cycle, s.calls[p].pc.version;
      if CasApplies(s.cycles, c, OPEN, v) then
        s.(cycles := Cas(s.cycles, c, OPEN, FINALIZING, v), calls := Move(s, p, Won(v)), winner := s.winner[c := p])
      else
        s.(calls := Move(s, p, Lost))
    case ReadLatest(p) => s.(calls := Move(s, p, Done(LostRace)))
    case Record(p) =>
      var k := s.calls[p].key;
      if k in s.keys then s.(calls := Move(s, p, Done(DuplicateReplay)))
      else
        s.(keys := s.keys + {k}, recorder := s.recorder[k := p],
           calls := Move(s, p, Recorded(s.calls[p].pc.version)))
    case Compute(p, throws) =>
      s.(computed := s.computed + [p],
         calls := Move(s, p, if throws then Died(Holding) else Computed(s.calls[p].pc.version)))
    case Close(p) =>
      s.(cycles := Cas(s.cycles, s.calls[p].cycle, FINALIZING, FINALIZED, s.calls[p].pc.version + 1),
         calls := Move(s, p, Closed))
    case Return(p) => s.(calls := Move(s, p, Done(Finalized)))
    case Die(p) => s.(calls := Move(s, p, Died(StageOf(s.calls[p].pc))))
    case Settle(c, v) => s.(cycles := Cas(s.cycles, c, FINALIZED, SETTLED, v))
  }

  ghost predicate Step(s: System, s': System) {
    exists e :: Enabled(s, e) && s' == Next(s, e)
  }

  ghost predicate IsRun(cycles: map<CycleId, Cycle>, keys: set<Key>, run: seq<System>) {
    && |run| > 0 && run[0] == Initially(cycles, keys)
    && forall i :: 0 <= i < |run| - 1 ==> Step(run[i], run[i + 1])
  }

  // ---- The invariant ----

  /** In the critical section of its cycle. */
  predicate Holds(pc: Pc) {
    pc.Won? || pc.Recorded? || pc.Computed?
  }

  predicate WonOnce(pc: Pc) {
    Holds(pc) || pc.Closed? || pc in {Done(Finalized), Done(DuplicateReplay), Died(Holding), Died(AfterClosing)}
  }

  /** Past the second transition. */
  predicate GotThrough(pc: Pc) {
    pc.Closed? || pc in {Done(Finalized), Died(AfterClosing)}
  }

  /** The versions count transitions, and no transition goes backwards. */
  ghost predicate CyclesInv(init: map<CycleId, Cycle>, cycles: map<CycleId, Cycle>) {
    && cycles.Keys == init.Keys
    && forall c :: c in cycles ==>
         && Rank(init[c].state) <= Rank(cycles[c].state)
         && cycles[c].lockVersion - init[c].lockVersion == Rank(cycles[c].state) - Rank(init[c].state)
  }

  /** A cycle that has left OPEN was won by exactly one call. */
  ghost predicate WinnerInv(init: map<CycleId, Cycle>, s: System) {
    && (forall c :: c in s.winner ==>
          && c in init && init[c].state.OPEN?
          && s.winner[c] in s.calls && s.calls[s.winner[c]].cycle == c && WonOnce(s.calls[s.winner[c]].pc))
    && (forall c :: c in s.cycles && c in init && init[c].state.OPEN? && !s.cycles[c].state.OPEN? ==> c in s.winner)
  }

  ghost predicate KeysInv(keys0: set<Key>, s: System) {
    && s.keys == keys0 + s.recorder.Keys
    && (forall k :: k in s.recorder ==> k !in keys0 && s.recorder[k] in s.calls && s.calls[s.recorder[k]].key == k)
  }

  ghost predicate ComputedInv(s: System) {
    NoDuplicates(s.computed) && forall p :: p in s.computed ==> p in s.calls
  }

  predicate Records(s: System, p: nat, q: Call) {
    q.key in s.recorder && s.recorder[q.key] == p
  }

  ghost predicate CallInv(keys0: set<Key>, s: System, p: nat, q: Call) {
    && (WonOnce(q.pc) ==>
          && q.cycle in s.winner && s.winner[q.cycle] == p
          && q.cycle in s.cycles && !s.cycles[q.cycle].state.OPEN?
          && (s.cycles[q.cycle].state.FINALIZING? <==> !GotThrough(q.pc)))
    && (Holds(q.pc) ==> s.cycles[q.cycle] == Cycle(FINALIZING, q.pc.version + 1))
    && (q.pc.SawOpen? ==>
         q.cycle in s.cycles && (s.cycles[q.cycle].state.OPEN? ==> s.cycles[q.cycle].lockVersion == q.pc.version))
    && (q.pc in {Done(NotOpen), Done(LostRace), Lost} ==> q.cycle in s.cycles && !s.cycles[q.cycle].state.OPEN?)
    && (q.pc == Done(NotFound) ==> q.cycle !in s.cycles)
    && (q.pc.Recorded? || q.pc.Computed? || q.pc.Closed? || q.pc == Done(Finalized) ==> Records(s, p, q))
    && (q.pc.Started? || q.pc.SawOpen? || q.pc.Won? || q.pc.Lost? ==> !Records(s, p, q))
    && (q.pc == Done(DuplicateReplay) ==> q.key in s.keys && !Records(s, p, q))
    && (q.pc.Computed? || GotThrough(q.pc) ==> p in s.computed)
    && (p in s.computed ==> WonOnce(q.pc) && !q.pc.Won? && !q.pc.Recorded? && Records(s, p, q))
  }

  ghost predicate CallsInv(keys0: set<Key>, s: System) {
    forall p :: p in s.calls ==> CallInv(keys0, s, p, s.calls[p])
  }

  ghost predicate Inv(init: map<CycleId, Cycle>, keys0: set<Key>, s: System) {
    CyclesInv(init, s.cycles) && WinnerInv(init, s) && KeysInv(keys0, s) && ComputedInv(s) && CallsInv(keys0, s)
  }

  // ---- Preservation ----

  /** The call an event moves, if any. */
  function Mover(e: Event): Option<nat> {
    if e.Settle? then None else Some(e.p)
  }

  /** The second transition is not checked by the code, and does not need to be: it always applies. */
  lemma {:induction false} SecondTransitionApplies(keys0: set<Key>, s: System, p: nat)
    requires CallsInv(keys0, s) && Enabled(s, Close(p))
    ensures CasApplies(s.cycles, s.calls[p].cycle, FINALIZING, s.calls[p].pc.version + 1)
  {
    assert CallInv(keys0, s, p, s.calls[p]);
  }

  lemma {:induction false} CyclesKept(init: map<CycleId, Cycle>, keys0: set<Key>, s: System, e: Event)
    requires CyclesInv(init, s.cycles) && Enabled(s, e)
    ensures CyclesInv(init, Next(s, e).cycles)
  {
  }

  /** Calls stay on their cycle, and one that has won stays so. */
  ghost predicate Advances(calls: map<nat, Call>, calls': map<nat, Call>) {
    forall p :: p in calls ==>
      p in calls' && calls'[p].cycle == calls[p].cycle && (WonOnce(calls[p].pc) ==> WonOnce(calls'[p].pc))
  }

  lemma {:induction false} CallsAdvance(s: System, e: Event)
    requires Enabled(s, e)
    ensures Advances(s.calls, Next(s, e).calls)
  {
    hide Cas, CasApplies;
  }

  lemma {:induction false} OnlyWinningOpens(s: System, e: Event)
    requires Enabled(s, e)
    ensures var s' := Next(s, e); var won := e.Win? && s'.calls[e.p].pc.Won?;
            && s'.winner == (if won then s.winner[s.calls[e.p].cycle := e.p] else s.winner)
            && (won ==> CasApplies(s.cycles, s.calls[e.p].cycle, OPEN, s.calls[e.p].pc.version))
            && forall c :: c in s'.cycles && !s'.cycles[c].state.OPEN? ==>
                 (c in s.cycles && !s.cycles[c].state.OPEN?) || (won && c == s.calls[e.p].cycle)
  {
  }

  lemma {:induction false} WinnersKept(init: map<CycleId, Cycle>, s: System, e: Event)
    requires CyclesInv(init, s.cycles) && WinnerInv(init, s) && Enabled(s, e)
    ensures WinnerInv(init, Next(s, e))
  {
    hide Next, WonOnce;
    CallsAdvance(s, e);
    OnlyWinningOpens(s, e);
    WonIsWonOnce(Next(s, e));
  }

  lemma {:induction false} WonIsWonOnce(s: System)
    ensures forall p :: p in s.calls && s.calls[p].pc.Won? ==> WonOnce(s.calls[p].pc)
  {
  }

  lemma {:induction false} KeysKept(keys0: set<Key>, s: System, e: Event)
    requires KeysInv(keys0, s) && Enabled(s, e)
    ensures KeysInv(keys0, Next(s, e))
  {
  }

  lemma {:induction false} ComputedKept(keys0: set<Key>, s: System, e: Event)
    requires ComputedInv(s) && CallsInv(keys0, s) && Enabled(s, e)
    ensures ComputedInv(Next(s, e))
  {
    if e.Compute? {
      assert CallInv(keys0, s, e.p, s.calls[e.p]);
    }
  }

  lemma {:induction false} OtherCallKept(init: map<CycleId, Cycle>, keys0: set<Key>, s: System, e: Event, o: nat)
    requires CallsInv(keys0, s) && KeysInv(keys0, s) && Enabled(s, e)
    requires o in s.calls && Mover(e) != Some(o)
    ensures CallInv(keys0, Next(s, e), o, s.calls[o])
  {
    assert CallInv(keys0, s, o, s.calls[o]);
    if Mover(e).Some? && Mover(e).value in s.calls {
      assert CallInv(keys0, s, e.p, s.calls[e.p]);
    }
  }

  lemma {:induction false} StarterKept(init: map<CycleId, Cycle>, keys0: set<Key>, s: System, e: Event)
    requires Inv(init, keys0, s) && Enabled(s, e) && e.Start?
    ensures CallInv(keys0, Next(s, e), e.p, Next(s, e).calls[e.p])
  {
  }

  lemma {:induction false} ReaderKept(init: map<CycleId, Cycle>, keys0: set<Key>, s: System, e: Event)
    requires Inv(init, keys0, s) && Enabled(s, e) && (e.Read? || e.ReadLatest?)
    ensures CallInv(keys0, Next(s, e), e.p, Next(s, e).calls[e.p])
  {
    assert CallInv(keys0, s, e.p, s.calls[e.p]);
  }

  lemma {:induction false} WinnerKept(init: map<CycleId, Cycle>, keys0: set<Key>, s: System, e: Event)
    requires Inv(init, keys0, s) && Enabled(s, e) && e.Win?
    ensures CallInv(keys0, Next(s, e), e.p, Next(s, e).calls[e.p])
  {
    assert CallInv(keys0, s, e.p, s.calls[e.p]);
  }

  lemma {:induction false} RecorderKept(init: map<CycleId, Cycle>, keys0: set<Key>, s: System, e: Event)
    requires Inv(init, keys0, s) && Enabled(s, e) && e.Record?
    ensures CallInv(keys0, Next(s, e), e.p, Next(s, e).calls[e.p])
  {
    assert CallInv(keys0, s, e.p, s.calls[e.p]);
  }

  lemma {:induction false} ComputerKept(init: map<CycleId, Cycle>, keys0: set<Key>, s: System, e: Event)
    requires Inv(init, keys0, s) && Enabled(s, e) && e.Compute?
    ensures CallInv(keys0, Next(s, e), e.p, Next(s, e).calls[e.p])
  {
    assert CallInv(keys0, s, e.p, s.calls[e.p]);
  }

  lemma {:induction false} CloserKept(init: map<CycleId, Cycle>, keys0: set<Key>, s: System, e: Event)
    requires Inv(init, keys0, s) && Enabled(s, e) && (e.Close? || e.Return?)
    ensures CallInv(keys0, Next(s, e), e.p, Next(s, e).calls[e.p])
  {
    assert CallInv(keys0, s, e.p, s.calls[e.p]);
  }

  lemma {:induction false} DeadKept(init: map<CycleId, Cycle>, keys0: set<Key>, s: System, e: Event)
    requires Inv(init, keys0, s) && Enabled(s, e) && e.Die?
    ensures CallInv(keys0, Next(s, e), e.p, Next(s, e).calls[e.p])
  {
    assert CallInv(keys0, s, e.p, s.calls[e.p]);
  }

  lemma {:induction false} MoverKept(init: map<CycleId, Cycle>, keys0: set<Key>, s: System, e: Event)
    requires Inv(init, keys0, s) && Enabled(s, e) && Mover(e).Some?
    ensures CallInv(keys0, Next(s, e), e.p, Next(s, e).calls[e.p])
  {
    match e
    case Start(_, _, _) => StarterKept(init, keys0, s, e);
    case Read(_) => ReaderKept(init, keys0, s, e);
    case ReadLatest(_) => ReaderKept(init, keys0, s, e);
    case Win(_) => WinnerKept(init, keys0, s, e);
    case Record(_) => RecorderKept(init, keys0, s, e);
    case Compute(_, _) => ComputerKept(init, keys0, s, e);
    case Close(_) => CloserKept(init, keys0, s, e);
    case Return(_) => CloserKept(init, keys0, s, e);
    case Die(_) => DeadKept(init, keys0, s, e);
  }

  lemma {:induction false} NextKeepsInv(init: map<CycleId, Cycle>, keys0: set<Key>, s: System, e: Event)
    requires Inv(init, keys0, s) && Enabled(s, e)
    ensures Inv(init, keys0, Next(s, e))
  {
    CyclesKept(init, keys0, s, e);
    WinnersKept(init, s, e);
    KeysKept(keys0, s, e);
    ComputedKept(keys0, s, e);
    var s' := Next(s, e);
    forall o | o in s'.calls ensures CallInv(keys0, s', o, s'.calls[o]) {
      if Mover(e) == Some(o) {
        MoverKept(init, keys0, s, e);
      } else {
        OtherCallKept(init, keys0, s, e, o);
      }
    }
  }

  lemma {:induction false} RunsAreSafe(init: map<CycleId, Cycle>, keys0: set<Key>, run: seq<System>, i: nat)
    requires IsRun(init, keys0, run) && i < |run|
    ensures Inv(init, keys0, run[i])
  {
    if i > 0 {
      RunsAreSafe(init, keys0, run, i - 1);
      assert Step(run[i - 1], run[i - 1 + 1]);
      var e :| Enabled(run[i - 1], e) && run[i] == Next(run[i - 1], e);
      NextKeepsInv(init, keys0, run[i - 1], e);
    }
  }

  // ---- What the invariant gives ----

  /** The computation is entered at most once per cycle and at most once per idempotency key. */
  lemma {:induction false} ComputedAtMostOnce(
      init: map<CycleId, Cycle>, keys0: set<Key>, run: seq<System>, i: nat, a: nat, b: nat)
    requires IsRun(init, keys0, run) && i < |run| && a < b < |run[i].computed|
    ensures var s := run[i];
            && s.computed[a] in s.calls && s.computed[b] in s.calls
            && s.calls[s.computed[a]].cycle != s.calls[s.computed[b]].cycle
            && s.calls[s.computed[a]].key != s.calls[s.computed[b]].key
  {
    RunsAreSafe(init, keys0, run, i);
    var p, q := run[i].computed[a], run[i].computed[b];
    assert CallInv(keys0, run[i], p, run[i].calls[p]) && CallInv(keys0, run[i], q, run[i].calls[q]);
  }

  /** Whoever reports 'finalized' computed, and nobody else does so for the same cycle. */
  lemma {:induction false} FinalizedAtMostOnce(
      init: map<CycleId, Cycle>, keys0: set<Key>, run: seq<System>, i: nat, p: nat, q: nat)
    requires IsRun(init, keys0, run) && i < |run|
    requires p in run[i].calls && run[i].calls[p].pc == Done(Finalized)
    requires q in run[i].calls && run[i].calls[q].cycle == run[i].calls[p].cycle && q != p
    ensures p in run[i].computed && q !in run[i].computed && !WonOnce(run[i].calls[q].pc)
  {
    RunsAreSafe(init, keys0, run, i);
    assert CallInv(keys0, run[i], p, run[i].calls[p]) && CallInv(keys0, run[i], q, run[i].calls[q]);
  }

  ghost predicate AllEnded(s: System, c: CycleId) {
    forall p :: p in s.calls && s.calls[p].cycle == c ==> s.calls[p].pc.Done? || s.calls[p].pc.Died?
  }

  /** Once its calls have ended, the winner's end decides the state of a cycle that was OPEN. */
  lemma {:induction false} WinnerDecides(
      init: map<CycleId, Cycle>, keys0: set<Key>, run: seq<System>, i: nat, c: CycleId)
    requires IsRun(init, keys0, run) && i < |run| && c in init && init[c].state.OPEN?
    requires AllEnded(run[i], c)
    ensures c in run[i].cycles
    ensures var s := run[i];
            if c in s.winner then
              && s.winner[c] in s.calls && s.calls[s.winner[c]].cycle == c
              && s.calls[s.winner[c]].pc in {Done(Finalized), Died(AfterClosing), Done(DuplicateReplay), Died(Holding)}
              && (GotThrough(s.calls[s.winner[c]].pc) ==> s.cycles[c].state in {FINALIZED, SETTLED})
              && (!GotThrough(s.calls[s.winner[c]].pc) ==> s.cycles[c].state == FINALIZING)
            else s.cycles[c].state == OPEN
  {
    RunsAreSafe(init, keys0, run, i);
    var s := run[i];
    if c in s.winner {
      assert CallInv(keys0, s, s.winner[c], s.calls[s.winner[c]]);
    }
  }

  /**
   * A cycle is stranded in FINALIZING exactly when a call on it met a key already recorded, or threw or died,
   * after winning the first transition.
   */
  lemma {:induction false} StrandedIff(init: map<CycleId, Cycle>, keys0: set<Key>, run: seq<System>, i: nat, c: CycleId)
    requires IsRun(init, keys0, run) && i < |run| && c in init && init[c].state.OPEN?
    requires AllEnded(run[i], c)
    ensures c in run[i].cycles
    ensures run[i].cycles[c].state == FINALIZING <==>
              exists p :: p in run[i].calls && run[i].calls[p].cycle == c
                          && run[i].calls[p].pc in {Done(DuplicateReplay), Died(Holding)}
  {
    WinnerDecides(init, keys0, run, i, c);
    RunsAreSafe(init, keys0, run, i);
    var s := run[i];
    forall p | p in s.calls && s.calls[p].cycle == c && s.calls[p].pc in {Done(DuplicateReplay), Died(Holding)}
      ensures s.cycles[c].state == FINALIZING
    {
      assert CallInv(keys0, s, p, s.calls[p]);
    }
  }

  /** The winner's key was taken: recorded before the first call, or by another call. */
  predicate WinnerKeyTaken(keys0: set<Key>, s: System, c: CycleId) {
    && c in s.winner && s.winner[c] in s.calls
    && var k := s.calls[s.winner[c]].key;
      k in keys0 || (k in s.recorder && s.recorder[k] != s.winner[c])
  }

  /** When all its calls returned, a cycle is stranded exactly when its winner came with a key taken before. */
  lemma {:induction false} StrandedIffKeyTaken(
      init: map<CycleId, Cycle>, keys0: set<Key>, run: seq<System>, i: nat, c: CycleId)
    requires IsRun(init, keys0, run) && i < |run| && c in init && init[c].state.OPEN?
    requires forall p :: p in run[i].calls && run[i].calls[p].cycle == c ==> run[i].calls[p].pc.Done?
    ensures c in run[i].cycles
    ensures run[i].cycles[c].state == FINALIZING <==> WinnerKeyTaken(keys0, run[i], c)
  {
    hide IsRun, CyclesInv, ComputedInv;
    WinnerDecides(init, keys0, run, i, c);
    RunsAreSafe(init, keys0, run, i);
    var s := run[i];
    if c in s.winner {
      assert CallInv(keys0, s, s.winner[c], s.calls[s.winner[c]]);
    }
  }

  /** No call on this cycle is between its two transitions. */
  ghost predicate Abandoned(s: System, c: CycleId) {
    forall p :: p in s.calls && s.calls[p].cycle == c ==> !Holds(s.calls[p].pc)
  }

  lemma {:induction false} AbandonedStays(s: System, e: Event, c: CycleId)
    requires Enabled(s, e) && c in s.cycles && s.cycles[c].state.FINALIZING? && Abandoned(s, c)
    ensures c in Next(s, e).cycles && Next(s, e).cycles[c] == s.cycles[c] && Abandoned(Next(s, e), c)
  {
  }

  /** A cycle abandoned in FINALIZING stays there for ever, whoever calls again. */
  lemma {:induction false} StrandedForEver(
      init: map<CycleId, Cycle>, keys0: set<Key>, run: seq<System>, i: nat, j: nat, c: CycleId)
    requires IsRun(init, keys0, run) && i <= j < |run|
    requires c in run[i].cycles && run[i].cycles[c].state.FINALIZING? && Abandoned(run[i], c)
    ensures c in run[j].cycles && run[j].cycles[c] == run[i].cycles[c] && Abandoned(run[j], c)
  {
    hide Enabled, Next, Abandoned;
    if i < j {
      StrandedForEver(init, keys0, run, i, j - 1, c);
      assert Step(run[j - 1], run[j - 1 + 1]);
      var e :| Enabled(run[j - 1], e) && run[j] == Next(run[j - 1], e);
      AbandonedStays(run[j - 1], e, c);
    }
  }

  lemma {:induction false} RunGrows(init: map<CycleId, Cycle>, keys0: set<Key>, run: seq<System>, e: Event)
    returns (run': seq<System>)
    requires IsRun(init, keys0, run) && Enabled(run[|run| - 1], e)
    ensures IsRun(init, keys0, run') && run'[|run'| - 1] == Next(run[|run| - 1], e)
  {
    hide Enabled, Next;
    run' := run + [Next(run[|run| - 1], e)];
    forall i | 0 <= i < |run'| - 1 ensures Step(run'[i], run'[i + 1]) {
      if i < |run| - 1 {
        assert Step(run[i], run[i + 1]);
      }
    }
  }

  /** One call whose key was used before: its cycle is left in FINALIZING though nothing threw or died. */
  lemma {:induction false} StrandedIsReachable(c: CycleId, key: Key) returns (run: seq<System>)
    ensures IsRun(map[c := Cycle(OPEN, 1)], {key}, run)
    ensures var s := run[|run| - 1];
            && AllEnded(s, c) && 0 in s.calls && s.calls[0].pc == Done(DuplicateReplay)
            && c in s.cycles && s.cycles[c].state == FINALIZING && Abandoned(s, c)
  {
    var init, keys0 := map[c := Cycle(OPEN, 1)], {key};
    run := [Initially(init, keys0)];
    run := RunGrows(init, keys0, run, Start(0, c, key));
    run := RunGrows(init, keys0, run, Read(0));
    run := RunGrows(init, keys0, run, Win(0));
    run := RunGrows(init, keys0, run, Record(0));
  }

  /** Or one call with a fresh key whose computation throws. */
  lemma {:induction false} ThrowStrandsToo(c: CycleId, key: Key) returns (run: seq<System>)
    ensures IsRun(map[c := Cycle(OPEN, 1)], {}, run)
    ensures var s := run[|run| - 1];
            && AllEnded(s, c) && 0 in s.calls && s.calls[0].pc == Died(Holding)
            && c in s.cycles && s.cycles[c].state == FINALIZING && Abandoned(s, c)
  {
    var init := map[c := Cycle(OPEN, 1)];
    run := [Initially(init, {})];
    run := RunGrows(init, {}, run, Start(0, c, key));
    run := RunGrows(init, {}, run, Read(0));
    run := RunGrows(init, {}, run, Win(0));
    run := RunGrows(init, {}, run, Record(0));
    run := RunGrows(init, {}, run, Compute(0, true));
  }

  /** Every call on c has its own key, not used before or by anybody else. */
  ghost predicate FreshKeys(keys0: set<Key>, s: System, c: CycleId) {
    forall p :: p in s.calls && s.calls[p].cycle == c ==>
                  && s.calls[p].key !in keys0
                  && forall q :: q in s.calls && q != p ==> s.calls[q].key != s.calls[p].key
  }

  lemma {:induction false} FreshKeysNeverReplay(init: map<CycleId, Cycle>, keys0: set<Key>, s: System, c: CycleId)
    requires Inv(init, keys0, s) && FreshKeys(keys0, s, c)
    ensures forall p :: p in s.calls && s.calls[p].cycle == c ==> s.calls[p].pc != Done(DuplicateReplay)
  {
    forall p | p in s.calls && s.calls[p].cycle == c ensures s.calls[p].pc != Done(DuplicateReplay) {
      assert CallInv(keys0, s, p, s.calls[p]);
    }
  }

  lemma {:induction false} SomeCallWon(init: map<CycleId, Cycle>, keys0: set<Key>, s: System, c: CycleId, p0: nat)
    requires Inv(init, keys0, s) && c in init && init[c].state.OPEN?
    requires p0 in s.calls && s.calls[p0].cycle == c && s.calls[p0].pc.Done?
    ensures c in s.winner
  {
    assert CallInv(keys0, s, p0, s.calls[p0]);
    assert s.calls[p0].pc == Done(s.calls[p0].pc.outcome) && s.calls[p0].pc.outcome != NotFound;
  }

  lemma {:induction false} VersionCountsTransitions(init: map<CycleId, Cycle>, cycles: map<CycleId, Cycle>, c: CycleId)
    requires CyclesInv(init, cycles) && c in init && init[c].state.OPEN?
    ensures c in cycles && cycles[c].lockVersion == init[c].lockVersion + Rank(cycles[c].state)
  {
  }

  lemma {:induction false} FinalizedHasComputed(keys0: set<Key>, s: System, p: nat)
    requires CallsInv(keys0, s) && p in s.calls
    ensures s.calls[p].pc == Done(Finalized) ==> p in s.computed
  {
    assert CallInv(keys0, s, p, s.calls[p]);
  }

  lemma {:induction false} LoserNeverComputes(init: map<CycleId, Cycle>, keys0: set<Key>, s: System, q: nat)
    requires Inv(init, keys0, s) && q in s.calls && s.calls[q].pc.Done?
    ensures var c := s.calls[q].cycle;
            c in s.cycles && (c in s.winner ==> s.winner[c] != q) && s.calls[q].pc != Done(DuplicateReplay) ==>
              s.calls[q].pc in {Done(NotOpen), Done(LostRace)} && q !in s.computed
  {
    assert CallInv(keys0, s, q, s.calls[q]);
    var outcome := s.calls[q].pc.outcome;
    assert outcome.NotFound? || outcome.NotOpen? || outcome.LostRace? || WonOnce(Done(outcome));
    assert s.calls[q].pc == Done(outcome);
  }

  /**
   * Exactly once: if some call was made on an OPEN cycle, all calls on it returned (none threw or died) and
   * their keys are fresh, then exactly one of them returned 'finalized', it alone computed,
   * and the cycle is finalised.
   */
  lemma {:induction false} ExactlyOneFinalizes(
      init: map<CycleId, Cycle>, keys0: set<Key>, run: seq<System>, i: nat, c: CycleId, p0: nat)
    requires IsRun(init, keys0, run) && i < |run| && c in init && init[c].state.OPEN?
    requires forall p :: p in run[i].calls && run[i].calls[p].cycle == c ==> run[i].calls[p].pc.Done?
    requires p0 in run[i].calls && run[i].calls[p0].cycle == c
    requires FreshKeys(keys0, run[i], c)
    ensures var s := run[i];
            && c in s.cycles && s.cycles[c].state in {FINALIZED, SETTLED}
            && s.cycles[c].lockVersion == init[c].lockVersion + Rank(s.cycles[c].state)
            && exists p :: p in s.calls && s.calls[p].cycle == c && s.calls[p].pc == Done(Finalized) && p in s.computed
                           && forall q :: q in s.calls && s.calls[q].cycle == c && q != p ==>
                                            s.calls[q].pc in {Done(NotOpen), Done(LostRace)} && q !in s.computed
  {
    hide CallInv, KeysInv, CyclesInv, WinnerInv, FreshKeys, IsRun;
    RunsAreSafe(init, keys0, run, i);
    var s := run[i];
    WinnerDecides(init, keys0, run, i, c);
    FreshKeysNeverReplay(init, keys0, s, c);
    SomeCallWon(init, keys0, s, c, p0);
    VersionCountsTransitions(init, s.cycles, c);
    var p := s.winner[c];
    FinalizedHasComputed(keys0, s, p);
    forall q | q in s.calls && s.calls[q].cycle == c && q != p
      ensures s.calls[q].pc in {Done(NotOpen), Done(LostRace)} && q !in s.computed
    {
      LoserNeverComputes(init, keys0, s, q);
    }
  }

  // ---- One call on its own ----

  datatype FinalizationResult = FinalizationResult(outcome: Outcome, state: Option<BillingCycleState>, key: Option<Key>)

  /**
   * What one call leaves and returns; no result when the computation throws. `meanwhile` is what another
   * writer puts in place of the cycle between this call's read and its compare-and-set, if any.
   */
  function Solo(
      cycles: map<CycleId, Cycle>, keys: set<Key>, c: CycleId, key: Key, throws: bool, meanwhile: Option<Cycle>)
    : (map<CycleId, Cycle>, set<Key>, Option<FinalizationResult>)
  {
    if c !in cycles then (cycles, keys, Some(FinalizationResult(NotFound, None, None)))
    else if !cycles[c].state.OPEN? then (cycles, keys, Some(FinalizationResult(NotOpen, Some(cycles[c].state), None)))
    else
      var v := cycles[c].lockVersion;
      if meanwhile.Some? && meanwhile.value != Cycle(OPEN, v) then
        (cycles[c := meanwhile.value], keys, Some(FinalizationResult(LostRace, Some(meanwhile.value.state), None)))
      else if key in keys then
        (cycles[c := Cycle(FINALIZING, v + 1)], keys,
         Some(FinalizationResult(DuplicateReplay, Some(FINALIZING), Some(key))))
      else if throws then (cycles[c := Cycle(FINALIZING, v + 1)], keys + {key}, None)
      else
        (cycles[c := Cycle(FINALIZED, v + 2)], keys + {key},
         Some(FinalizationResult(Finalized, Some(FINALIZED), Some(key))))
  }

  /** finalizeBillingCycle as written, against the in-memory store; `ran` says whether the computation was entered. */
  method FinalizeBillingCycle(
      store: InMemoryBillingCycleStore, c: CycleId, key: Key, throws: bool, meanwhile: Option<Cycle>)
    returns (result: Option<FinalizationResult>, ran: bool)
    modifies store
    ensures (store.cycles, store.idempotencyKeys, result)
         == Solo(old(store.cycles), old(store.idempotencyKeys), c, key, throws, meanwhile)
    ensures ran <==>
              && c in old(store.cycles) && old(store.cycles)[c].state == OPEN
              && (meanwhile.None? || meanwhile.value == old(store.cycles)[c])
              && key !in old(store.idempotencyKeys)
  {
    ran := false;
    var cycle := store.GetCycle(c);
    if cycle.None? {
      return Some(FinalizationResult(NotFound, None, None)), ran;
    }
    if cycle.value.state != OPEN {
      return Some(FinalizationResult(NotOpen, Some(cycle.value.state), None)), ran;
    }
    assert ValidateTransition(OPEN, FINALIZING);
    if meanwhile.Some? {
      store.cycles := store.cycles[c := meanwhile.value];
    }
    var won := store.ApplyTransition(c, OPEN, FINALIZING, cycle.value.lockVersion);
    if !won {
      var latest := store.GetCycle(c);
      return Some(FinalizationResult(LostRace, if latest.Some? then Some(latest.value.state) else None, None)), ran;
    }
    assert store.cycles == old(store.cycles)[c := Cycle(FINALIZING, cycle.value.lockVersion + 1)];
    var isNew := store.RecordFinalization(c, key);
    if !isNew {
      return Some(FinalizationResult(DuplicateReplay, Some(FINALIZING), Some(key))), ran;
    }
    ran := true;
    if throws {
      return None, ran;
    }
    assert ValidateTransition(FINALIZING, FINALIZED);
    var closed := store.ApplyTransition(c, FINALIZING, FINALIZED, cycle.value.lockVersion + 1);
    assert store.cycles == old(store.cycles)[c := Cycle(FINALIZED, cycle.value.lockVersion + 2)];
    return Some(FinalizationResult(Finalized, Some(FINALIZED), Some(key))), ran;
  }

  /** The compare-and-set meets the cycle as it was read. */
  predicate Undisturbed(cycles: map<CycleId, Cycle>, c: CycleId, meanwhile: Option<Cycle>) {
    c in cycles && cycles[c].state.OPEN? && (meanwhile.None? || meanwhile.value == cycles[c])
  }

  /**
   * What a call reports and leaves, told by what it met. It finalises exactly an OPEN cycle that nobody changed before
   * its compare-and-set, with a fresh key and a computation that does not throw; a lost race leaves everything to the
   * winner; the state reported is always the cycle's own, and a key is reported exactly with a finalisation or a
   * replay.
   */
  lemma {:induction false} SoloOutcomes(
      cycles: map<CycleId, Cycle>, keys: set<Key>, c: CycleId, key: Key, throws: bool, meanwhile: Option<Cycle>)
    ensures var (cycles', keys', result) := Solo(cycles, keys, c, key, throws, meanwhile);
            var won := Undisturbed(cycles, c, meanwhile);
            && (result.None? <==> won && key !in keys && throws)
            && (result.Some? ==>
                 var r := result.value;
                 && (r.outcome == NotFound <==> c !in cycles)
                 && (r.outcome == NotOpen <==> c in cycles && cycles[c].state != OPEN)
                 && (r.outcome == LostRace <==> c in cycles && cycles[c].state == OPEN && !won)
                 && (r.outcome == DuplicateReplay <==> won && key in keys)
                 && (r.outcome == Finalized <==> won && key !in keys && !throws)
                 && r.state == (if c in cycles' then Some(cycles'[c].state) else None)
                 && r.key == (if r.outcome in {Finalized, DuplicateReplay} then Some(key) else None))
            && keys' == (if won then keys + {key} else keys)
            && (won ==> c in cycles'
                        && cycles' == cycles[c :=
                             if key !in keys && !throws then Cycle(FINALIZED, cycles[c].lockVersion + 2)
                             else Cycle(FINALIZING, cycles[c].lockVersion + 1)])
            && (!won ==> cycles' == if c in cycles && cycles[c].state == OPEN && meanwhile.Some?
                                    then cycles[c := meanwhile.value] else cycles)
  {
    if key in keys {
      assert keys + {key} == keys;
    }
  }

  /** A second, undisturbed call on the same cycle changes nothing and never computes, whatever the first one did. */
  lemma {:induction false} SecondCallIsNoOp(
      cycles: map<CycleId, Cycle>, keys: set<Key>, c: CycleId, key: Key, throws: bool, key2: Key, throws2: bool)
    ensures var (cycles1, keys1, _) := Solo(cycles, keys, c, key, throws, None);
            var (cycles2, keys2, result2) := Solo(cycles1, keys1, c, key2, throws2, None);
            && cycles2 == cycles1 && keys2 == keys1
            && result2.Some? && result2.value.outcome in {NotFound, NotOpen}
  {
  }

  // ---- The same call as steps of the concurrent system ----

  /** Runs those of the events that are enabled when their turn comes. */
  function Play(s: System, events: seq<Event>): System
    decreases |events|
  {
    if events == [] then s else Play(if Enabled(s, events[0]) then Next(s, events[0]) else s, events[1..])
  }

  lemma {:induction false} PlayFirst(s: System, e: Event, rest: seq<Event>)
    ensures Play(s, [e] + rest) == Play(if Enabled(s, e) then Next(s, e) else s, rest)
  {
    assert ([e] + rest)[1..] == rest;
  }

  lemma {:induction false} PlayNothing(s: System)
    ensures Play(s, []) == s
  {
  }

  function Billing(p: nat, throws: bool): seq<Event> {
    [Compute(p, throws)] + ([Close(p)] + ([Return(p)] + []))
  }

  function CriticalSection(p: nat, throws: bool): seq<Event> {
    [Record(p)] + Billing(p, throws)
  }

  /** What follows the first read: the compare-and-set, then the second read or the critical section. */
  function AfterRead(p: nat, throws: bool): seq<Event> {
    [Win(p)] + ([ReadLatest(p)] + CriticalSection(p, throws))
  }

  /** Somebody else's write to a cycle that was read OPEN. */
  function Meanwhile(s: System, c: CycleId, meanwhile: Option<Cycle>): System {
    if meanwhile.Some? && c in s.cycles && s.cycles[c].state.OPEN? then s.(cycles := s.cycles[c := meanwhile.value])
    else s
  }

  predicate Ended(pc: Pc) {
    pc.Done? || pc.Died?
  }

  lemma {:induction false} EndedPlaysNothing(s: System, p: nat, throws: bool)
    requires p in s.calls && Ended(s.calls[p].pc)
    ensures Play(s, Billing(p, throws)) == s && Play(s, CriticalSection(p, throws)) == s
    ensures Play(s, AfterRead(p, throws)) == s
  {
    hide Next, Play;
    PlayFirst(s, Win(p), [ReadLatest(p)] + CriticalSection(p, throws));
    PlayFirst(s, ReadLatest(p), CriticalSection(p, throws));
    PlayFirst(s, Record(p), Billing(p, throws));
    PlayFirst(s, Compute(p, throws), [Close(p)] + ([Return(p)] + []));
    PlayFirst(s, Close(p), [Return(p)] + []);
    PlayFirst(s, Return(p), []);
    PlayNothing(s);
  }

  lemma {:induction false} BillingAlone(s: System, p: nat, throws: bool)
    requires p in s.calls && s.calls[p].pc.Recorded?
    requires CasApplies(s.cycles, s.calls[p].cycle, FINALIZING, s.calls[p].pc.version + 1)
    ensures var s' := Play(s, Billing(p, throws));
            && p in s'.calls && s'.keys == s.keys && s'.computed == s.computed + [p]
            && s'.calls[p].pc == (if throws then Died(Holding) else Done(Finalized))
            && s'.cycles == (if throws then s.cycles
                             else Cas(s.cycles, s.calls[p].cycle, FINALIZING, FINALIZED, s.calls[p].pc.version + 1))
  {
    hide Play;
    PlayFirst(s, Compute(p, throws), [Close(p)] + ([Return(p)] + []));
    var s1 := Next(s, Compute(p, throws));
    PlayFirst(s1, Close(p), [Return(p)] + []);
    var s2 := if throws then s1 else Next(s1, Close(p));
    PlayFirst(s2, Return(p), []);
    PlayNothing(if throws then s2 else Next(s2, Return(p)));
  }

  lemma {:induction false} CriticalSectionAlone(s: System, p: nat, throws: bool)
    requires p in s.calls && s.calls[p].pc.Won?
    requires CasApplies(s.cycles, s.calls[p].cycle, FINALIZING, s.calls[p].pc.version + 1)
    ensures var q, s' := s.calls[p], Play(s, CriticalSection(p, throws));
            && p in s'.calls
            && s'.keys == (if q.key in s.keys then s.keys else s.keys + {q.key})
            && s'.computed == (if q.key in s.keys then s.computed else s.computed + [p])
            && s'.calls[p].pc == (if q.key in s.keys then Done(DuplicateReplay)
                                  else if throws then Died(Holding)
                                  else Done(Finalized))
            && s'.cycles == (if q.key in s.keys || throws then s.cycles
                             else Cas(s.cycles, q.cycle, FINALIZING, FINALIZED, q.pc.version + 1))
  {
    hide Play;
    PlayFirst(s, Record(p), Billing(p, throws));
    var s1 := Next(s, Record(p));
    if s.calls[p].key in s.keys {
      EndedPlaysNothing(s1, p, throws);
    } else {
      BillingAlone(s1, p, throws);
    }
  }

  /** The compare-and-set from what was read to what it meets. */
  lemma {:induction false} WinMeets(s: System, p: nat)
    requires p in s.calls && s.calls[p].pc.SawOpen? && s.calls[p].cycle in s.cycles
    ensures var q, s' := s.calls[p], Next(s, Win(p));
            && s'.keys == s.keys && s'.computed == s.computed && p in s'.calls
            && s'.calls[p].cycle == q.cycle && s'.calls[p].key == q.key
            && if s.cycles[q.cycle] == Cycle(OPEN, q.pc.version) then
                 && s'.calls[p].pc == Won(q.pc.version)
                 && s'.cycles == s.cycles[q.cycle := Cycle(FINALIZING, q.pc.version + 1)]
                 && CasApplies(s'.cycles, q.cycle, FINALIZING, q.pc.version + 1)
                 && Cas(s'.cycles, q.cycle, FINALIZING, FINALIZED, q.pc.version + 1)
                 == s.cycles[q.cycle := Cycle(FINALIZED, q.pc.version + 2)]
               else s'.calls[p].pc == Lost && s'.cycles == s.cycles
  {
  }

  /** What AfterRead does to a call that read OPEN. */
  lemma {:induction false} AfterReadAlone(s: System, p: nat, throws: bool)
    requires p in s.calls && s.calls[p].pc.SawOpen? && s.calls[p].cycle in s.cycles
    ensures var q, s' := s.calls[p], Play(s, AfterRead(p, throws));
            var won := s.cycles[q.cycle] == Cycle(OPEN, q.pc.version);
            var bills := won && q.key !in s.keys;
            && p in s'.calls
            && s'.keys == (if bills then s.keys + {q.key} else s.keys)
            && s'.computed == (if bills then s.computed + [p] else s.computed)
            && s'.calls[p].pc == (if !won then Done(LostRace)
                                  else if !bills then Done(DuplicateReplay)
                                  else if throws then Died(Holding)
                                  else Done(Finalized))
            && s'.cycles == (if !won then s.cycles
                             else s.cycles[q.cycle := if bills && !throws then Cycle(FINALIZED, q.pc.version + 2)
                                                      else Cycle(FINALIZING, q.pc.version + 1)])
  {
    hide Play, Billing, CriticalSection, Cas, CasApplies;
    WinMeets(s, p);
    var s1 := Next(s, Win(p));
    PlayFirst(s, Win(p), [ReadLatest(p)] + CriticalSection(p, throws));
    PlayFirst(s1, ReadLatest(p), CriticalSection(p, throws));
    if s1.calls[p].pc.Lost? {
      EndedPlaysNothing(Next(s1, ReadLatest(p)), p, throws);
    } else {
      CriticalSectionAlone(s1, p, throws);
    }
  }

  lemma {:induction false} ReadAlone(s: System, p: nat, c: CycleId, key: Key)
    requires p !in s.calls
    ensures var s2 := Play(s, [Start(p, c, key)] + ([Read(p)] + []));
            && s2.cycles == s.cycles && s2.keys == s.keys && s2.computed == s.computed && p in s2.calls
            && s2.calls[p] == Call(c, key, if c !in s.cycles then Done(NotFound)
                                           else if !s.cycles[c].state.OPEN? then Done(NotOpen)
                                           else SawOpen(s.cycles[c].lockVersion))
  {
    hide Play;
    PlayFirst(s, Start(p, c, key), [Read(p)] + []);
    var s1 := Next(s, Start(p, c, key));
    PlayFirst(s1, Read(p), []);
    PlayNothing(Next(s1, Read(p)));
  }

  /**
   * Played by itself, but for a write by somebody else between its read and its compare-and-set, a call of the
   * concurrent system leaves the store, reports the outcome and enters the computation as the code does.
   */
  lemma {:induction false} SoloIsARunOfTheSystem(
      s: System, p: nat, c: CycleId, key: Key, throws: bool, meanwhile: Option<Cycle>)
    requires p !in s.calls
    ensures var s2 := Meanwhile(Play(s, [Start(p, c, key)] + ([Read(p)] + [])), c, meanwhile);
            var s' := Play(s2, AfterRead(p, throws));
            var (cycles', keys', result) := Solo(s.cycles, s.keys, c, key, throws, meanwhile);
            && s'.cycles == cycles' && s'.keys == keys' && p in s'.calls
            && s'.calls[p].pc == (if result.None? then Died(Holding) else Done(result.value.outcome))
            && s'.computed ==
               s.computed + if Undisturbed(s.cycles, c, meanwhile) && key !in s.keys then [p] else []
  {
    hide AfterRead, Play;
    ReadAlone(s, p, c, key);
    var s2 := Meanwhile(Play(s, [Start(p, c, key)] + ([Read(p)] + [])), c, meanwhile);
    if s2.calls[p].pc.SawOpen? {
      AfterReadAlone(s2, p, throws);
    } else {
      EndedPlaysNothing(s2, p, throws);
    }
  }
}
