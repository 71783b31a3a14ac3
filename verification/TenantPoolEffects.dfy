/**
 * What each event does to the scheduler, told from the events and the queue: who is rejected, granted, picked and
 * kept.
 */
module TenantPoolEffects {
  import opened Sequences
  import opened TenantPool
  import opened TenantPoolSafety

  // ---- The order of fairOrder ----

  /** t comes before u. */
  ghost predicate InOrder<T>(f: seq<T>, t: T, u: T) {
    exists i, j :: 0 <= i < j < |f| && f[i] == t && f[j] == u
  }

  lemma {:induction false} InOrderCons<T>(x: T, f: seq<T>, t: T, u: T)
    ensures InOrder([x] + f, t, u) <==> (x == t && u in f) || InOrder(f, t, u)
  {
    var all := [x] + f;
    if x == t && u in f {
      var j :| 0 <= j < |f| && f[j] == u;
      assert all[0] == t && all[j + 1] == u;
    }
    if InOrder(f, t, u) {
      var i, j :| 0 <= i < j < |f| && f[i] == t && f[j] == u;
      assert all[i + 1] == t && all[j + 1] == u;
    }
    if InOrder(all, t, u) {
      var i, j :| 0 <= i < j < |all| && all[i] == t && all[j] == u;
      assert f[j - 1] == u;
      assert i > 0 ==> f[i - 1] == t;
    }
  }

  lemma {:induction false} FilterKeepsPlaces<T>(f: seq<T>, p: T -> bool, t: T, u: T)
    ensures InOrder(Filter(f, p), t, u) <==> InOrder(f, t, u) && p(t) && p(u)
  {
    hide InOrder;
    if f == [] {
      NothingInOrder(f, t, u);
    } else {
      assert f == [f[0]] + f[1..];
      FilterKeepsPlaces(f[1..], p, t, u);
      FilterMember(f[1..], p, u);
      InOrderCons(f[0], f[1..], t, u);
      InOrderCons(f[0], Filter(f[1..], p), t, u);
      assert [] + Filter(f[1..], p) == Filter(f[1..], p);
    }
  }

  lemma {:induction false} NothingInOrder<T>(f: seq<T>, t: T, u: T)
    requires f == []
    ensures !InOrder(f, t, u)
  {
  }

  lemma {:induction false} FirstGrantableSkipsNone(max: int, s: Pool, tenants: seq<Tenant>, t: Tenant)
    requires NoDuplicates(tenants) && forall u :: u in tenants ==> HasPending(s.waitQueue, u)
    ensures var pick := FirstGrantable(max, s, tenants);
            pick.Some? && InOrder(tenants, t, pick.value.tenant) ==> !CanGrant(max, s, t)
  {
    hide InOrder, CanGrant;
    if tenants == [] {
    } else {
      assert tenants == [tenants[0]] + tenants[1..];
      FindRequestFinds(s.waitQueue, tenants[0]);
      FirstGrantableSkipsNone(max, s, tenants[1..], t);
      if FirstGrantable(max, s, tenants).Some? {
        var u := FirstGrantable(max, s, tenants).value.tenant;
        InOrderCons(tenants[0], tenants[1..], t, u);
        if CanGrant(max, s, tenants[0]) {
          InOrderMembers(tenants[1..], t, u);
        }
      }
    }
  }

  lemma {:induction false} InOrderMembers<T>(f: seq<T>, t: T, u: T)
    ensures InOrder(f, t, u) ==> t in f && u in f
  {
  }

  /**
   * fairOrder decides: a tenant listed before the one picked could not be granted, unless it had its minimum already
   * and the one picked had not.
   */
  lemma {:induction false} PickFollowsFairOrder(max: int, s: Pool, t: Tenant)
    requires Agree(s.waitQueue, s.fairOrder) && Pick(max, s).Some?
    requires InOrder(s.fairOrder, t, Pick(max, s).value.tenant) && CanGrant(max, s, t)
    ensures Active(s.tenantActive, t) >= 2 && Active(s.tenantActive, Pick(max, s).value.tenant) < 2
  {
    hide InOrder, CanGrant, FirstGrantable;
    var u := Pick(max, s).value.tenant;
    var p := Short(s.tenantActive);
    FilterMembers(s.fairOrder, p);
    FilterKeepsNoDuplicates(s.fairOrder, p);
    FilterKeepsPlaces(s.fairOrder, p, t, u);
    FirstGrantableSkipsNone(max, s, Candidates(s), t);
    FirstGrantableFinds(max, s, Candidates(s));
  }

  // ---- When a grant is allowed ----

  /** What tenants other than `exclude` that hold fewer than two connections still lack, added up. */
  ghost function HeldShortfall(m: map<Tenant, int>, exclude: Tenant): int {
    if m == map[] then 0
    else
      var t :| t in m;
      HeldShortfall(m - {t}, exclude) + if t != exclude && 0 < m[t] < 2 then 2 - m[t] else 0
  }

  lemma {:induction false} HeldShortfallCounts(m: map<Tenant, int>, exclude: Tenant)
    ensures HeldShortfall(m, exclude) == |OneShort(m, exclude)|
  {
    hide OneShort;
    if m == map[] {
      NoneIsOneShort(exclude);
    } else {
      var t :| t in m && HeldShortfall(m, exclude)
                      == HeldShortfall(m - {t}, exclude) + if t != exclude && 0 < m[t] < 2 then 2 - m[t] else 0;
      HeldShortfallCounts(m - {t}, exclude);
      OneShortWithout(m, t, exclude);
    }
  }

  lemma {:induction false} NoneIsOneShort(exclude: Tenant)
    ensures OneShort(map[], exclude) == {}
  {
  }

  lemma {:induction false} OneShortWithout(m: map<Tenant, int>, t: Tenant, exclude: Tenant)
    requires t in m
    ensures |OneShort(m, exclude)| == |OneShort(m - {t}, exclude)| + if t != exclude && m[t] == 1 then 1 else 0
  {
    var rest := OneShort(m - {t}, exclude);
    assert OneShort(m, exclude) == if t != exclude && m[t] == 1 then rest + {t} else rest;
  }

  /** The queued request whose tenant, not `exclude`, is the first to hold fewer than two connections. */
  ghost predicate FirstShortQueued(s: Pool, exclude: Tenant, i: nat) {
    && i < |s.waitQueue| && IsShort(s, exclude, s.waitQueue[i])
    && forall j :: 0 <= j < i ==> !IsShort(s, exclude, s.waitQueue[j])
  }

  predicate IsShort(s: Pool, exclude: Tenant, r: Request) {
    r.tenant != exclude && Active(s.tenantActive, r.tenant) < 2
  }

  lemma {:induction false} QueuedShortfallIs(q: seq<Request>, m: map<Tenant, int>, exclude: Tenant, i: nat)
    requires i <= |q| && forall j :: 0 <= j < i ==> q[j].tenant == exclude || Active(m, q[j].tenant) >= 2
    requires i < |q| ==> q[i].tenant != exclude && Active(m, q[i].tenant) < 2
    ensures QueuedShortfall(q, m, exclude) == if i == |q| then 0 else 2 - Active(m, q[i].tenant)
  {
    if i > 0 {
      QueuedShortfallIs(q[1..], m, exclude, i - 1);
    }
  }

  /**
   * A tenant may be granted a connection exactly when it holds fewer than ten, the total is below the maximum, and it
   * either holds fewer than two or leaves free what others need to reach two: all who hold one, and the first waiting
   * one below two.
   */
  lemma {:induction false} GrantIff(max: int, s: Pool, t: Tenant, i: nat)
    requires FirstShortQueued(s, t, i) || (i == |s.waitQueue| && forall r :: r in s.waitQueue ==> !IsShort(s, t, r))
    ensures var waiting := if i == |s.waitQueue| then 0 else 2 - Active(s.tenantActive, s.waitQueue[i].tenant);
            CanGrant(max, s, t) <==>
              && Active(s.tenantActive, t) < 10 && s.globalActive < max
              && (Active(s.tenantActive, t) < 2 || s.globalActive + HeldShortfall(s.tenantActive, t) + waiting < max)
  {
    HeldShortfallCounts(s.tenantActive, t);
    assert forall j :: 0 <= j < i ==> !IsShort(s, t, s.waitQueue[j]);
    QueuedShortfallIs(s.waitQueue, s.tenantActive, t, i);
  }

  // ---- The queue loop ----

  lemma {:induction false} FilterBackwardsMembers<T>(s: seq<T>, p: T -> bool)
    ensures forall x :: x in FilterBackwards(s, p) <==> x in s && p(x)
  {
    if s != [] {
      assert s == [s[0]] + s[1..];
      FilterBackwardsMembers(s[1..], p);
    }
  }

  predicate TimedOut(r: Request, now: int) {
    now - r.enqueuedAt >= 500
  }

  /** The newest request first. */
  ghost predicate LastFirst(rejected: seq<Request>) {
    forall i, j :: 0 <= i < j < |rejected| ==> rejected[i].id > rejected[j].id
  }

  lemma {:induction false} BackwardsIsLastFirst(q: seq<Request>, p: Request -> bool)
    requires Ordered(q)
    ensures LastFirst(FilterBackwards(q, p))
  {
    if q != [] {
      BackwardsIsLastFirst(q[1..], p);
      FilterBackwardsMembers(q[1..], p);
      assert forall x :: x in q[1..] ==> q[0].id < x.id;
      var rest := FilterBackwards(q[1..], p);
      assert forall i :: 0 <= i < |rest| ==> rest[i] in q[1..];
    }
  }

  /**
   * The loop rejects exactly who waited 500 ms or more, keeps the others, and takes at most one of them to be served.
   */
  ghost predicate LoopEffects(max: int, b: Pool, now: int, s': Pool) {
    && b.rejected <= s'.rejected
    && (forall r :: r in s'.rejected[|b.rejected|..] <==> r in b.waitQueue && TimedOut(r, now))
    && LastFirst(s'.rejected[|b.rejected|..])
    && (forall r :: r in b.waitQueue && !TimedOut(r, now) ==>
          (r in s'.waitQueue) != (s'.flight.Connecting? && s'.flight.req == r))
    && (forall r :: r in s'.waitQueue ==> r in b.waitQueue && !TimedOut(r, now))
    && !s'.flight.SettingPath?
    && (s'.flight.Connecting? ==>
         && s'.flight.req in b.waitQueue && !TimedOut(s'.flight.req, now)
         && s'.picked == b.picked + [s'.flight.req] && s'.timers == b.timers
         && Some(s'.flight.req) == Pick(max, RejectTimedOut(b, now))
         && (s'.flight.atMinimum <==> Active(b.tenantActive, s'.flight.req.tenant) >= 2))
    && (s'.flight.Idle? ==>
         s'.picked == b.picked && s'.timers == b.timers + if |s'.waitQueue| > 0 then 1 else 0)
    && s' == b.(waitQueue := s'.waitQueue, fairOrder := s'.fairOrder, flight := s'.flight, timers := s'.timers,
                picked := s'.picked, rejected := s'.rejected)
  }

  /** What dropping the timed-out requests leaves. */
  lemma {:induction false} TrimEffects(b: Pool, now: int)
    requires Agree(b.waitQueue, b.fairOrder) && Ordered(b.waitQueue)
    ensures var t := RejectTimedOut(b, now);
            && Agree(t.waitQueue, t.fairOrder) && Ordered(t.waitQueue)
            && b.rejected <= t.rejected
            && (forall r :: r in t.rejected[|b.rejected|..] <==> r in b.waitQueue && TimedOut(r, now))
            && LastFirst(t.rejected[|b.rejected|..])
            && (forall r :: r in t.waitQueue <==> r in b.waitQueue && !TimedOut(r, now))
            && t == b.(waitQueue := t.waitQueue, fairOrder := t.fairOrder, rejected := t.rejected)
  {
    hide Agree, Ordered;
    var trimmed := RejectTimedOut(b, now);
    FilterMembers(b.waitQueue, Fresh(now));
    FilterBackwardsMembers(b.waitQueue, Not(Fresh(now)));
    BackwardsIsLastFirst(b.waitQueue, Not(Fresh(now)));
    FilterKeepsOrdered(b.waitQueue, Fresh(now));
    ShrinkingQueueStaysListed(b.waitQueue, trimmed.waitQueue, b.fairOrder);
    AgreeIsDistinct(b.waitQueue, b.fairOrder);
    CompactAgrees(b.(waitQueue := trimmed.waitQueue, rejected := trimmed.rejected));
    var added := FilterBackwards(b.waitQueue, Not(Fresh(now)));
    assert (b.rejected + added)[|b.rejected|..] == added;
  }

  lemma {:induction false} AgreeIsDistinct(q: seq<Request>, f: seq<Tenant>)
    requires Agree(q, f)
    ensures NoDuplicates(f)
  {
  }

  lemma {:induction false} AdvanceEffects(max: int, b: Pool, now: int)
    requires b.flight.Idle? && Agree(b.waitQueue, b.fairOrder) && Ordered(b.waitQueue)
    ensures LoopEffects(max, b, now, Advance(max, b, now))
  {
    hide CanGrant, Candidates, Agree, Ordered, RejectTimedOut, Pick, TimedOut;
    if |b.waitQueue| == 0 {
      assert b.rejected[|b.rejected|..] == [];
    } else {
      var trimmed := RejectTimedOut(b, now);
      TrimEffects(b, now);
      PickIsWorkConserving(max, trimmed);
      if |trimmed.waitQueue| > 0 && Pick(max, trimmed).Some? {
        WithoutMembers(trimmed.waitQueue, Pick(max, trimmed).value);
      }
    }
  }

  lemma {:induction false} AdvanceKeepsPlaces(max: int, b: Pool, now: int, t: Tenant, u: Tenant)
    requires b.flight.Idle? && Agree(b.waitQueue, b.fairOrder) && Ordered(b.waitQueue)
    ensures var f := Advance(max, b, now).fairOrder;
            InOrder(f, t, u) <==> InOrder(b.fairOrder, t, u) && t in f && u in f
  {
    hide CanGrant, Pick, InOrder;
    var trimmed := RejectTimedOut(b, now);
    InOrderMembers(b.fairOrder, t, u);
    FilterKeepsPlaces(b.fairOrder, Pending(trimmed.waitQueue), t, u);
    FilterMembers(b.fairOrder, Pending(trimmed.waitQueue));
    if Pick(max, trimmed).Some? {
      var left := Without(trimmed.waitQueue, Pick(max, trimmed).value);
      FilterKeepsPlaces(trimmed.fairOrder, Pending(left), t, u);
      FilterMembers(trimmed.fairOrder, Pending(left));
    }
  }

  // ---- Events ----

  /** The queue the loop looks at: with the new request, when the event is a call of connect. */
  function Asked(s: Pool, e: Event): seq<Request> {
    if e.Connect? then s.waitQueue + [Request(|s.issued|, e.tenant, e.enqueuedAt)] else s.waitQueue
  }

  /** The request whose set-up the event ends without a grant. */
  function Failing(s: Pool, e: Event): seq<Request> {
    if !s.flight.Idle? && (e.FlightFailed? || (e.ClientReady? && SchemaName(s.flight.req.tenant).None?))
    then [s.flight.req]
    else []
  }

  /** The event makes the queue loop run: it was not suspended, or its wait ends. */
  predicate LoopRuns(s: Pool, e: Event) {
    || e.PathSet? || |Failing(s, e)| > 0
    || (s.flight.Idle? && (e.Connect? || e.RetryTimer? || (e.Release? && e.req in s.live)))
  }

  predicate PoolMissing(e: Event) {
    (e.Connect? || e.Release? || e.RetryTimer?) && !e.poolExists
  }

  /** The state in which the loop starts. */
  function Base(s: Pool, e: Event): Pool
    requires Enabled(s, e) && LoopRuns(s, e)
  {
    match e
    case Connect(t, at, _, _) => Enqueue(s, t, at)
    case Release(r, _, _) => ReleaseOne(s, r)
    case RetryTimer(_, _) => s.(timers := s.timers - 1)
    case ClientReady(_) => RejectFlight(CheckOut(s))
    case PathSet(_) => GrantFlight(s)
    case FlightFailed(_) => RejectFlight(s)
  }

  lemma {:induction false} LoopStartsAtBase(max: int, s: Pool, e: Event)
    requires Inv(max, s) && Enabled(s, e) && LoopRuns(s, e)
    ensures var b := Base(s, e);
            && b.flight.Idle? && Agree(b.waitQueue, b.fairOrder) && Ordered(b.waitQueue)
            && b.waitQueue == Asked(s, e) && b.rejected == s.rejected + Failing(s, e)
            && b.fairOrder == (if e.Connect? && e.tenant !in s.fairOrder then s.fairOrder + [e.tenant] else s.fairOrder)
            && b.granted == (if e.PathSet? then s.granted + [s.flight.req] else s.granted)
            && b.picked == s.picked
            && b.timers == (if e.RetryTimer? then s.timers - 1 else s.timers)
            && Next(max, s, e) == if PoolMissing(e) then RejectAll(b) else Advance(max, b, e.now)
  {
    hide Advance, Counted, Capped, Room, Conserved, CanGrant, Quiet, SchemaName;
    if e.Connect? {
      EnqueueKeepsCore(max, s, e.tenant, e.enqueuedAt);
    }
    assert s.rejected + [] == s.rejected;
  }

  /**
   * Who is rejected. While the loop is suspended, nobody but a request whose own set-up fails. When it runs without a
   * pool, the whole queue. When it runs with one, exactly those who have waited 500 ms, the newest first; every other
   * one is afterwards still queued, or is the one now being served.
   */
  lemma {:induction false} WhoIsRejected(max: int, s: Pool, e: Event)
    requires Inv(max, s) && Enabled(s, e)
    ensures var s', q, before := Next(max, s, e), Asked(s, e), s.rejected + Failing(s, e);
            && before <= s'.rejected
            && var newly := s'.rejected[|before|..];
              if !LoopRuns(s, e) then newly == [] && s'.waitQueue == q
              else if PoolMissing(e) then newly == q && s'.waitQueue == [] && s'.flight.Idle?
              else
                && (forall r :: r in newly <==> r in q && e.now - r.enqueuedAt >= 500)
                && (forall i, j :: 0 <= i < j < |newly| ==> newly[i].id > newly[j].id)
                && (forall r :: r in q && e.now - r.enqueuedAt < 500 ==>
                      (r in s'.waitQueue) != (s'.flight.Connecting? && s'.flight.req == r))
                && (forall r :: r in s'.waitQueue ==> r in q && e.now - r.enqueuedAt < 500)
  {
    hide Inv, Advance, LoopEffects, SchemaName, CanGrant;
    if LoopRuns(s, e) {
      LoopStartsAtBase(max, s, e);
      if PoolMissing(e) {
        var before := s.rejected + Failing(s, e);
        assert (before + Asked(s, e))[|before|..] == Asked(s, e);
      } else {
        AdvanceEffects(max, Base(s, e), e.now);
        RejectionsOf(max, Base(s, e), e.now, Next(max, s, e));
      }
    } else {
      SuspendedKeepsQueue(max, s, e);
      assert s.rejected + [] == s.rejected;
    }
  }

  /** The part of LoopEffects about the queue. */
  lemma {:induction false} RejectionsOf(max: int, b: Pool, now: int, s': Pool)
    requires LoopEffects(max, b, now, s')
    ensures b.rejected <= s'.rejected
    ensures forall r :: r in s'.rejected[|b.rejected|..] <==> r in b.waitQueue && now - r.enqueuedAt >= 500
    ensures LastFirst(s'.rejected[|b.rejected|..])
    ensures forall r :: r in b.waitQueue && now - r.enqueuedAt < 500 ==>
              (r in s'.waitQueue) != (s'.flight.Connecting? && s'.flight.req == r)
    ensures forall r :: r in s'.waitQueue ==> r in b.waitQueue && now - r.enqueuedAt < 500
  {
  }

  lemma {:induction false} SuspendedKeepsQueue(max: int, s: Pool, e: Event)
    requires Enabled(s, e) && !LoopRuns(s, e)
    ensures var s' := Next(max, s, e);
            && s'.waitQueue == Asked(s, e) && s'.rejected == s.rejected && Failing(s, e) == []
            && s'.granted == s.granted && s'.picked == s.picked
            && s'.timers == (if e.RetryTimer? then s.timers - 1 else s.timers)
            && s'.fairOrder == s.fairOrder + (if e.Connect? && e.tenant !in s.fairOrder then [e.tenant] else [])
            && (e.ClientReady? ==> s'.flight == SettingPath(s.flight.req, s.flight.atMinimum))
            && (!e.ClientReady? ==> s'.flight == s.flight)
  {
    hide Advance, SchemaName;
  }

  /**
   * Who is granted, asked for and picked. Only a set search path grants, and only the request in flight; only connect
   * issues a request, with the caller's tenant and time; every call of a release is passed on, and nothing else is; and
   * the loop arms a retry timer exactly when it ends with requests left.
   */
  lemma {:induction false} WhoIsGranted(max: int, s: Pool, e: Event)
    requires Inv(max, s) && Enabled(s, e)
    ensures var s' := Next(max, s, e);
            && s'.granted == (if e.PathSet? then s.granted + [s.flight.req] else s.granted)
            && s'.issued == (if e.Connect? then s.issued + [Request(|s.issued|, e.tenant, e.enqueuedAt)] else s.issued)
            && s'.passedOn == (if e.Release? then s.passedOn + [e.req] else s.passedOn)
            && s'.picked == (if LoopRuns(s, e) && s'.flight.Connecting? then s.picked + [s'.flight.req] else s.picked)
            && s'.timers == (if e.RetryTimer? then s.timers - 1 else s.timers)
                            + if LoopRuns(s, e) && s'.flight.Idle? && |s'.waitQueue| > 0 then 1 else 0
  {
    hide Inv, Advance, SchemaName, CanGrant, Pick;
    if LoopRuns(s, e) {
      LoopStartsAtBase(max, s, e);
      if !PoolMissing(e) {
        AdvanceEffects(max, Base(s, e), e.now);
      }
    } else {
      SuspendedKeepsQueue(max, s, e);
    }
    LogsOfCalls(max, s, e);
  }

  lemma {:induction false} LogsOfCalls(max: int, s: Pool, e: Event)
    requires Enabled(s, e)
    ensures Next(max, s, e).issued
         == if e.Connect? then s.issued + [Request(|s.issued|, e.tenant, e.enqueuedAt)] else s.issued
    ensures Next(max, s, e).passedOn == if e.Release? then s.passedOn + [e.req] else s.passedOn
  {
    hide CanGrant, Filter, FilterBackwards, Without, Pick, SchemaName;
  }

  /** Tenants keep their places in fairOrder as long as they are in it, and a new one comes last. */
  lemma {:induction false} FairOrderKeepsPlaces(max: int, s: Pool, e: Event, t: Tenant, u: Tenant)
    requires Inv(max, s) && Enabled(s, e)
    ensures var f := Next(max, s, e).fairOrder;
            var before := if e.Connect? && e.tenant !in s.fairOrder then s.fairOrder + [e.tenant] else s.fairOrder;
            InOrder(f, t, u) <==> InOrder(before, t, u) && t in f && u in f
  {
    hide Inv, Advance, SchemaName, InOrder;
    if LoopRuns(s, e) {
      LoopStartsAtBase(max, s, e);
      if PoolMissing(e) {
        NothingInOrder(Next(max, s, e).fairOrder, t, u);
      } else {
        AdvanceKeepsPlaces(max, Base(s, e), e.now, t, u);
      }
    } else {
      SuspendedKeepsQueue(max, s, e);
      InOrderMembers(Next(max, s, e).fairOrder, t, u);
    }
  }

  // ---- Reserved capacity, told from the pick ----

  /** While nothing more is picked, the flight is still that of the last pick. */
  lemma {:induction false} FlightIsKept(max: int, s: Pool, e: Event)
    requires Inv(max, s) && Enabled(s, e)
    requires !Next(max, s, e).flight.Idle? && Next(max, s, e).picked == s.picked
    ensures var s' := Next(max, s, e);
            !s.flight.Idle? && s'.flight.req == s.flight.req && s'.flight.atMinimum == s.flight.atMinimum
  {
    hide Inv, Advance, SchemaName, CanGrant, Pick;
    WhoIsGranted(max, s, e);
    if LoopRuns(s, e) {
      LoopStartsAtBase(max, s, e);
      assert |s.picked + [Next(max, s, e).flight.req]| > |s.picked|;
      if !PoolMissing(e) {
        AdvanceEffects(max, Base(s, e), e.now);
      }
    } else {
      SuspendedKeepsQueue(max, s, e);
    }
  }

  /** The flight remembers whether its tenant held two connections or more at the pick. */
  lemma {:induction false} PickIsRemembered(max: int, run: seq<Pool>, events: seq<Event>, i: nat, j: nat)
    requires 0 <= max && IsTrace(max, run, events) && i < j < |run|
    requires run[i].picked != run[i + 1].picked && run[j].picked == run[i + 1].picked && !run[j].flight.Idle?
    ensures !run[i + 1].flight.Idle? && run[j].flight.req == run[i + 1].flight.req
    ensures run[j].flight.atMinimum <==> Active(run[i + 1].tenantActive, run[i + 1].flight.req.tenant) >= 2
  {
    hide Enabled, Next, Inv, IsTrace;
    TraceIsRun(max, run, events);
    TraceStep(max, run, events, j - 1);
    RunsAreSafe(max, run, j - 1);
    if j == i + 1 {
      TraceStep(max, run, events, i);
      PickSetsFlight(max, run[i], events[i]);
    } else {
      LogsGrow(max, run, i + 1, j - 1);
      LogsGrow(max, run, j - 1, j);
      FlightIsKept(max, run[j - 1], events[j - 1]);
      PickIsRemembered(max, run, events, i, j - 1);
    }
  }

  lemma {:induction false} TraceStep(max: int, run: seq<Pool>, events: seq<Event>, i: nat)
    requires IsTrace(max, run, events) && i + 1 < |run|
    ensures i < |events| && Enabled(run[i], events[i]) && run[i + 1] == Next(max, run[i], events[i])
  {
    assert StepBy(max, run[i], events[i], run[i + 1]);
  }

  lemma {:induction false} PickSetsFlight(max: int, s: Pool, e: Event)
    requires Inv(max, s) && Enabled(s, e) && Next(max, s, e).picked != s.picked
    ensures var s' := Next(max, s, e);
            && s'.flight.Connecting?
            && (s'.flight.atMinimum <==> Active(s'.tenantActive, s'.flight.req.tenant) >= 2)
  {
    hide Inv, Advance, SchemaName, CanGrant, Pick;
    WhoIsGranted(max, s, e);
    LoopStartsAtBase(max, s, e);
    if !PoolMissing(e) {
      AdvanceEffects(max, Base(s, e), e.now);
    }
  }

  /**
   * Reserved capacity, told from the events: a request picked when its tenant held two connections or more is granted,
   * whatever calls and releases came in between, so that one more connection is left for every other tenant that holds
   * exactly one.
   */
  lemma {:induction false} GrantAfterPickSparesReserve(
      max: int, run: seq<Pool>, events: seq<Event>, i: nat, j: nat, now: int)
    requires 0 <= max && IsTrace(max, run, events) && i < j < |run|
    requires run[i].picked != run[i + 1].picked && run[j].picked == run[i + 1].picked && run[j].flight.SettingPath?
    requires Active(run[i + 1].tenantActive, run[j].flight.req.tenant) >= 2
    ensures var s' := Next(max, run[j], PathSet(now));
            s'.globalActive + HeldShortfall(s'.tenantActive, run[j].flight.req.tenant) <= max
  {
    hide Next, Enabled, IsTrace;
    TraceIsRun(max, run, events);
    PickIsRemembered(max, run, events, i, j);
    SettingPathIsEnabled(run[j], now);
    GrantsSpareReservedCapacity(max, run, j, now);
    HeldShortfallCounts(Next(max, run[j], PathSet(now)).tenantActive, run[j].flight.req.tenant);
  }

  lemma {:induction false} SettingPathIsEnabled(s: Pool, now: int)
    requires s.flight.SettingPath?
    ensures Enabled(s, PathSet(now))
  {
  }

  // ---- Schema names ----

  predicate IsNameChar(c: char) {
    'a' <= c <= 'z' || 'A' <= c <= 'Z' || '0' <= c <= '9' || c == '_'
  }

  /** Letters, digits and underscores stay as they are, up to 48 of them. */
  lemma {:induction false} CleanSchemaName(t: Tenant)
    requires t != [] && forall c :: c in t ==> IsNameChar(c)
    ensures SchemaName(t) == Some("tenant_" + if |t| <= 48 then t else t[..48])
  {
    FilterAll(t, SchemaChar());
  }

  /** Any other character might as well not be there. */
  lemma {:induction false} SchemaNameIgnoresOthers(a: Tenant, c: char, b: Tenant)
    requires !IsNameChar(c)
    ensures SchemaName(a + [c] + b) == SchemaName(a + b)
  {
    FilterConcat(a + [c], b, SchemaChar());
    FilterConcat(a, [c], SchemaChar());
    FilterConcat(a, b, SchemaChar());
    assert [c][1..] == [];
    assert Filter(a, SchemaChar()) + [] == Filter(a, SchemaChar());
  }
}
