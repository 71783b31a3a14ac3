/** The scheduler's invariants, and what they give over every run. */
module TenantPoolSafety {
  import opened Sequences
  import opened TenantPool

  // ---- The invariant ----

  /** fairOrder lists exactly the tenants with queued requests, once each. */
  ghost predicate Agree(q: seq<Request>, f: seq<Tenant>) {
    && NoDuplicates(f)
    && forall t :: t in f <==> HasPending(q, t)
  }

  ghost function LiveOf(live: set<Request>, t: Tenant): set<Request> {
    set r | r in live && r.tenant == t
  }

  /** The counters count the granted clients that were not released. */
  ghost predicate Counted(m: map<Tenant, int>, g: int, live: set<Request>) {
    && g == |live|
    && (forall t :: t in m ==> m[t] > 0)
    && (forall t :: Active(m, t) == |LiveOf(live, t)|)
  }

  ghost predicate Capped(max: int, m: map<Tenant, int>, g: int) {
    && g <= max
    && forall t :: Active(m, t) <= TENANT_MAX_CONNECTIONS
  }

  /** A suspended grant still has room, whatever was released meanwhile. */
  ghost predicate Room(max: int, m: map<Tenant, int>, g: int, flight: Flight) {
    !flight.Idle? ==>
      && Active(m, flight.req.tenant) < TENANT_MAX_CONNECTIONS
      && g < max
      && (flight.atMinimum ==> g + |OneShort(m, flight.req.tenant)| < max)
  }

  function InFlight(flight: Flight): seq<Request> {
    if flight.Idle? then [] else [flight.req]
  }

  ghost predicate Conserved(s: Pool) {
    multiset(s.waitQueue) + multiset(InFlight(s.flight)) + multiset(s.granted) + multiset(s.rejected)
    == multiset(s.issued)
  }

  ghost predicate Numbered(issued: seq<Request>) {
    forall i :: 0 <= i < |issued| ==> issued[i].id == i
  }

  ghost predicate Ordered(q: seq<Request>) {
    forall i, j :: 0 <= i < j < |q| ==> q[i].id < q[j].id
  }

  /** Each tenant's requests are picked in arrival order, and what is still queued came later. */
  ghost predicate PickedInOrder(picked: seq<Request>, q: seq<Request>) {
    && (forall i, j :: 0 <= i < j < |picked| && picked[i].tenant == picked[j].tenant ==> picked[i].id < picked[j].id)
    && (forall p, r :: p in picked && r in q && p.tenant == r.tenant ==> p.id < r.id)
  }

  ghost predicate CheckedOut(s: Pool) {
    s.checkedOut == |s.live| + s.leaked + if s.flight.SettingPath? then 1 else 0
  }

  ghost predicate Core(max: int, s: Pool) {
    && Agree(s.waitQueue, s.fairOrder)
    && Counted(s.tenantActive, s.globalActive, s.live)
    && Capped(max, s.tenantActive, s.globalActive)
    && Room(max, s.tenantActive, s.globalActive, s.flight)
    && Conserved(s)
    && Numbered(s.issued)
    && Ordered(s.waitQueue)
    && PickedInOrder(s.picked, s.waitQueue)
    && (forall p :: p in s.picked ==> p in s.issued)
    && (forall r :: r in s.live ==> r in s.granted)
    && CheckedOut(s)
  }

  /** While no run of the loop is suspended, nothing in the queue could be granted, and a timer will look again. */
  ghost predicate Quiet(max: int, s: Pool) {
    s.flight.Idle? ==>
      && (forall r :: r in s.waitQueue ==> !CanGrant(max, s, r.tenant))
      && (|s.waitQueue| > 0 ==> s.timers > 0)
  }

  ghost predicate Inv(max: int, s: Pool) {
    Core(max, s) && Quiet(max, s)
  }

  // ---- Queue and fairOrder ----

  lemma {:induction false} FindRequestFinds(q: seq<Request>, t: Tenant)
    ensures FindRequest(q, t).Some? <==> HasPending(q, t)
    ensures FindRequest(q, t).Some? ==> FindRequest(q, t).value in q && FindRequest(q, t).value.tenant == t
    ensures FindRequest(q, t).Some? && Ordered(q) ==>
              forall r :: r in q && r.tenant == t && r != FindRequest(q, t).value ==> FindRequest(q, t).value.id < r.id
  {
    if q != [] {
      assert q == [q[0]] + q[1..];
      assert Ordered(q) ==> Ordered(q[1..]);
      FindRequestFinds(q[1..], t);
      if q[0].tenant != t && HasPending(q, t) {
        var r :| r in q && r.tenant == t;
        assert r in q[1..];
      }
    }
  }

  lemma {:induction false} WithoutMembers(q: seq<Request>, r: Request)
    requires Ordered(q)
    ensures forall x :: x in Without(q, r) <==> x in q && x != r
  {
    if q != [] {
      assert q == [q[0]] + q[1..];
      WithoutMembers(q[1..], r);
    }
  }

  lemma {:induction false} WithoutTakesOne(q: seq<Request>, r: Request)
    requires r in q
    ensures multiset(q) == multiset(Without(q, r)) + multiset{r}
  {
    assert q == [q[0]] + q[1..];
    if q[0] != r {
      WithoutTakesOne(q[1..], r);
    }
  }

  lemma {:induction false} OrderedCons(r: Request, q: seq<Request>)
    requires Ordered(q) && forall x :: x in q ==> r.id < x.id
    ensures Ordered([r] + q)
  {
    var s := [r] + q;
    forall i, j | 0 <= i < j < |s| ensures s[i].id < s[j].id {
      assert s[j] == q[j - 1] && q[j - 1] in q;
    }
  }

  lemma {:induction false} WithoutKeepsOrdered(q: seq<Request>, r: Request)
    requires Ordered(q)
    ensures Ordered(Without(q, r))
  {
    if q != [] && q[0] != r {
      WithoutKeepsOrdered(q[1..], r);
      WithoutMembers(q[1..], r);
      OrderedCons(q[0], Without(q[1..], r));
    }
  }

  lemma {:induction false} FilterKeepsOrdered(q: seq<Request>, p: Request -> bool)
    requires Ordered(q)
    ensures Ordered(Filter(q, p))
  {
    if q != [] {
      FilterKeepsOrdered(q[1..], p);
      FilterMembers(q[1..], p);
      if p(q[0]) {
        OrderedCons(q[0], Filter(q[1..], p));
      }
    }
  }

  /** compactFairOrder restores the agreement whenever the queue only shrank. */
  lemma {:induction false} CompactAgrees(s: Pool)
    requires NoDuplicates(s.fairOrder)
    requires forall t :: HasPending(s.waitQueue, t) ==> t in s.fairOrder
    ensures Agree(Compact(s).waitQueue, Compact(s).fairOrder)
  {
    FilterKeepsNoDuplicates(s.fairOrder, Pending(s.waitQueue));
    FilterMembers(s.fairOrder, Pending(s.waitQueue));
  }

  lemma {:induction false} ShrinkingQueueStaysListed(q: seq<Request>, q': seq<Request>, f: seq<Tenant>)
    requires Agree(q, f)
    requires forall r :: r in q' ==> r in q
    ensures forall t :: HasPending(q', t) ==> t in f
  {
    forall t | HasPending(q', t) ensures t in f {
      var r :| r in q' && r.tenant == t;
      assert r in q;
    }
  }

  // ---- Picking ----

  lemma {:induction false} FirstGrantableFinds(max: int, s: Pool, tenants: seq<Tenant>)
    requires forall t :: t in tenants ==> HasPending(s.waitQueue, t)
    ensures FirstGrantable(max, s, tenants).None? <==> forall t :: t in tenants ==> !CanGrant(max, s, t)
    ensures FirstGrantable(max, s, tenants).Some? ==>
              var r := FirstGrantable(max, s, tenants).value;
              && r.tenant in tenants && CanGrant(max, s, r.tenant)
              && FindRequest(s.waitQueue, r.tenant) == Some(r)
  {
    if tenants != [] {
      assert tenants == [tenants[0]] + tenants[1..];
      FindRequestFinds(s.waitQueue, tenants[0]);
      if !CanGrant(max, s, tenants[0]) {
        FirstGrantableFinds(max, s, tenants[1..]);
      }
    }
  }

  /** The tenant served is the first in fairOrder, among the candidates, that may be granted at all. */
  lemma {:induction false} FirstGrantableIsFirst(max: int, s: Pool, tenants: seq<Tenant>, i: nat)
    requires forall t :: t in tenants ==> HasPending(s.waitQueue, t)
    requires NoDuplicates(tenants)
    requires i < |tenants| && CanGrant(max, s, tenants[i])
    requires forall j :: 0 <= j < i ==> !CanGrant(max, s, tenants[j])
    ensures FirstGrantable(max, s, tenants) == FindRequest(s.waitQueue, tenants[i])
  {
    FindRequestFinds(s.waitQueue, tenants[0]);
    if i > 0 {
      FirstGrantableIsFirst(max, s, tenants[1..], i - 1);
    }
  }

  /** Work conservation: nothing is picked exactly when nothing in the queue may be granted. */
  lemma {:induction false} PickIsWorkConserving(max: int, s: Pool)
    requires Agree(s.waitQueue, s.fairOrder)
    ensures Pick(max, s).None? <==> forall r :: r in s.waitQueue ==> !CanGrant(max, s, r.tenant)
    ensures Pick(max, s).Some? ==>
              var r := Pick(max, s).value;
              && r in s.waitQueue && CanGrant(max, s, r.tenant) && FindRequest(s.waitQueue, r.tenant) == Some(r)
  {
    FilterMembers(s.fairOrder, Short(s.tenantActive));
    var candidates := Candidates(s);
    FirstGrantableFinds(max, s, candidates);
    if Pick(max, s).Some? {
      FindRequestFinds(s.waitQueue, Pick(max, s).value.tenant);
    } else {
      forall r | r in s.waitQueue ensures !CanGrant(max, s, r.tenant) {
        assert HasPending(s.waitQueue, r.tenant);
        if r.tenant !in candidates {
          // Then some queued tenant is below its minimum and was refused, so the pool is full.
          var t := candidates[0];
          assert t in candidates;
          assert Active(s.tenantActive, t) < TENANT_MIN_CONNECTIONS && !CanGrant(max, s, t);
        }
      }
    }
  }

  /** Priority: while some queued tenant is below its minimum, only such tenants are served. */
  lemma {:induction false} PickPrefersTenantsBelowMinimum(max: int, s: Pool, t: Tenant)
    requires Agree(s.waitQueue, s.fairOrder)
    requires HasPending(s.waitQueue, t) && Active(s.tenantActive, t) < TENANT_MIN_CONNECTIONS
    ensures Pick(max, s).Some? ==> Active(s.tenantActive, Pick(max, s).value.tenant) < TENANT_MIN_CONNECTIONS
    ensures Pick(max, s).None? ==> s.globalActive >= max
  {
    FilterMembers(s.fairOrder, Short(s.tenantActive));
    FirstGrantableFinds(max, s, Candidates(s));
  }

  lemma {:induction false} NoShortfallQueued(q: seq<Request>, m: map<Tenant, int>, exclude: Tenant)
    requires forall r :: r in q ==> Active(m, r.tenant) >= TENANT_MIN_CONNECTIONS
    ensures QueuedShortfall(q, m, exclude) == 0
  {
    if q != [] {
      assert q == [q[0]] + q[1..];
      NoShortfallQueued(q[1..], m, exclude);
    }
  }

  lemma {:induction false} ShortfallIsNotNegative(q: seq<Request>, m: map<Tenant, int>, exclude: Tenant)
    ensures QueuedShortfall(q, m, exclude) >= 0
  {
    if q != [] {
      ShortfallIsNotNegative(q[1..], m, exclude);
    }
  }

  /** The queue part of the reservation is zero whenever a tenant already at its minimum is picked. */
  lemma {:induction false} PickAtMinimumSeesNoQueuedShortfall(max: int, s: Pool)
    requires Agree(s.waitQueue, s.fairOrder)
    requires Pick(max, s).Some? && Active(s.tenantActive, Pick(max, s).value.tenant) >= TENANT_MIN_CONNECTIONS
    ensures QueuedShortfall(s.waitQueue, s.tenantActive, Pick(max, s).value.tenant) == 0
  {
    forall r | r in s.waitQueue ensures Active(s.tenantActive, r.tenant) >= TENANT_MIN_CONNECTIONS {
      assert HasPending(s.waitQueue, r.tenant);
      if Active(s.tenantActive, r.tenant) < TENANT_MIN_CONNECTIONS {
        PickPrefersTenantsBelowMinimum(max, s, r.tenant);
      }
    }
    NoShortfallQueued(s.waitQueue, s.tenantActive, Pick(max, s).value.tenant);
  }

  // ---- Each stretch keeps the invariant ----

  lemma {:induction false} IssuedOnce(s: Pool, r: Request)
    requires Numbered(s.issued) && Conserved(s)
    ensures multiset(s.issued)[r] == if r in s.issued then 1 else 0
    ensures r in s.waitQueue || r in InFlight(s.flight) || r in s.granted || r in s.rejected <==> r in s.issued
  {
    CountsFromNoDuplicates(s.issued, r);
    assert r in s.issued <==> r in multiset(s.issued);
    assert r in s.waitQueue <==> r in multiset(s.waitQueue);
    assert r in s.granted <==> r in multiset(s.granted);
    assert r in s.rejected <==> r in multiset(s.rejected);
  }

  lemma {:induction false} EnqueueAgrees(q: seq<Request>, f: seq<Tenant>, r: Request)
    requires Agree(q, f)
    ensures Agree(q + [r], if r.tenant in f then f else f + [r.tenant])
  {
    forall x ensures HasPending(q + [r], x) <==> HasPending(q, x) || x == r.tenant {
      assert r in q + [r];
      if HasPending(q, x) {
        var y :| y in q && y.tenant == x;
        assert y in q + [r];
      }
    }
  }

  lemma {:induction false} EnqueueStaysOrdered(q: seq<Request>, picked: seq<Request>, r: Request)
    requires Ordered(q) && PickedInOrder(picked, q)
    requires forall x :: x in q || x in picked ==> x.id < r.id
    ensures Ordered(q + [r]) && PickedInOrder(picked, q + [r])
  {
  }

  lemma {:induction false} EnqueueConserves(s: Pool, t: Tenant, now: int)
    requires Conserved(s)
    ensures Conserved(Enqueue(s, t, now))
  {
  }

  lemma {:induction false} EnqueueKeepsCore(max: int, s: Pool, t: Tenant, now: int)
    requires Core(max, s)
    ensures Core(max, Enqueue(s, t, now))
  {
    hide Agree, Ordered, PickedInOrder, Counted, Capped, Room, Conserved;
    var s' := Enqueue(s, t, now);
    var r := Request(|s.issued|, t, now);
    forall x | x in s.waitQueue || x in s.picked ensures x.id < |s.issued| {
      IssuedOnce(s, x);
    }
    EnqueueAgrees(s.waitQueue, s.fairOrder, r);
    EnqueueStaysOrdered(s.waitQueue, s.picked, r);
    EnqueueConserves(s, t, now);
  }

  lemma {:induction false} RejectTimedOutKeepsCore(max: int, s: Pool, now: int)
    requires Core(max, s)
    ensures Core(max, RejectTimedOut(s, now))
  {
    var q := Filter(s.waitQueue, Fresh(now));
    FilterMembers(s.waitQueue, Fresh(now));
    FilterPartition(s.waitQueue, Fresh(now));
    FilterKeepsOrdered(s.waitQueue, Fresh(now));
    ShrinkingQueueStaysListed(s.waitQueue, q, s.fairOrder);
    CompactAgrees(s.(waitQueue := q, rejected := s.rejected + FilterBackwards(s.waitQueue, Not(Fresh(now)))));
  }

  lemma {:induction false} LaunchLeavesRoom(max: int, s: Pool, r: Request)
    requires Agree(s.waitQueue, s.fairOrder) && Pick(max, s) == Some(r)
    ensures Room(max, s.tenantActive, s.globalActive, Launch(s, r).flight)
  {
    PickIsWorkConserving(max, s);
    ShortfallIsNotNegative(s.waitQueue, s.tenantActive, r.tenant);
  }

  lemma {:induction false} LaunchPicksInOrder(s: Pool, r: Request)
    requires Ordered(s.waitQueue) && PickedInOrder(s.picked, s.waitQueue)
    requires FindRequest(s.waitQueue, r.tenant) == Some(r)
    ensures PickedInOrder(s.picked + [r], Without(s.waitQueue, r))
  {
    FindRequestFinds(s.waitQueue, r.tenant);
    WithoutMembers(s.waitQueue, r);
  }

  lemma {:induction false} LaunchKeepsCore(max: int, s: Pool, r: Request)
    requires Core(max, s) && s.flight.Idle?
    requires Pick(max, s) == Some(r)
    ensures Core(max, Launch(s, r))
  {
    PickIsWorkConserving(max, s);
    LaunchLeavesRoom(max, s, r);
    LaunchPicksInOrder(s, r);
    WithoutTakesOne(s.waitQueue, r);
    WithoutKeepsOrdered(s.waitQueue, r);
    WithoutMembers(s.waitQueue, r);
    ShrinkingQueueStaysListed(s.waitQueue, Without(s.waitQueue, r), s.fairOrder);
    var atMinimum := Active(s.tenantActive, r.tenant) >= TENANT_MIN_CONNECTIONS;
    CompactAgrees(s.(waitQueue := Without(s.waitQueue, r), flight := Connecting(r, atMinimum),
                     picked := s.picked + [r]));
    assert r in s.issued by {
      IssuedOnce(s, r);
    }
  }

  lemma {:induction false} ParkEstablishesInv(max: int, s: Pool)
    requires Core(max, s) && s.flight.Idle?
    requires forall r :: r in s.waitQueue ==> !CanGrant(max, s, r.tenant)
    ensures Inv(max, Park(s))
  {
    assert forall t :: CanGrant(max, Park(s), t) == CanGrant(max, s, t);
  }

  lemma {:induction false} RejectAllKeepsCore(max: int, s: Pool)
    requires Core(max, s)
    ensures Core(max, RejectAll(s))
  {
  }

  lemma {:induction false} ReleaseKeepsCounted(s: Pool, r: Request)
    requires Counted(s.tenantActive, s.globalActive, s.live) && r in s.live
    ensures var s' := ReleaseOne(s, r); Counted(s'.tenantActive, s'.globalActive, s'.live)
    ensures ReleaseOne(s, r).globalActive == s.globalActive - 1
    ensures forall t ::
              Active(ReleaseOne(s, r).tenantActive, t) == Active(s.tenantActive, t) - if t == r.tenant then 1 else 0
  {
    var s' := ReleaseOne(s, r);
    assert r in LiveOf(s.live, r.tenant);
    assert |LiveOf(s.live, r.tenant) - {r}| == |LiveOf(s.live, r.tenant)| - 1;
    forall t ensures LiveOf(s'.live, t) == if t == r.tenant then LiveOf(s.live, t) - {r} else LiveOf(s.live, t) {
    }
  }

  /** Releasing takes one off the total, and leaves at most one more tenant with a single connection. */
  lemma {:induction false} ReleaseKeepsRoom(max: int, s: Pool, r: Request)
    requires Counted(s.tenantActive, s.globalActive, s.live) && r in s.live
    requires Room(max, s.tenantActive, s.globalActive, s.flight)
    ensures var s' := ReleaseOne(s, r); Room(max, s'.tenantActive, s'.globalActive, s'.flight)
  {
    ReleaseKeepsCounted(s, r);
    if !s.flight.Idle? {
      var t := s.flight.req.tenant;
      var before, after := OneShort(s.tenantActive, t), OneShort(ReleaseOne(s, r).tenantActive, t);
      SubsetSize(after, before + {r.tenant});
    }
  }

  lemma {:induction false} ReleaseKeepsCore(max: int, s: Pool, r: Request)
    requires Core(max, s) && r in s.live
    ensures Core(max, ReleaseOne(s, r))
  {
    ReleaseKeepsCounted(s, r);
    ReleaseKeepsRoom(max, s, r);
    assert |s.live - {r}| == |s.live| - 1;
    assert Conserved(ReleaseOne(s, r));
  }

  lemma {:induction false} SubsetSize<T>(a: set<T>, b: set<T>)
    requires a <= b
    ensures |a| <= |b|
  {
    if a != {} {
      var x :| x in a;
      SubsetSize(a - {x}, b - {x});
    }
  }

  lemma {:induction false} GrantKeepsCounted(s: Pool)
    requires Counted(s.tenantActive, s.globalActive, s.live)
    requires s.flight.SettingPath? && s.flight.req !in s.live
    ensures var s' := GrantFlight(s); Counted(s'.tenantActive, s'.globalActive, s'.live)
    ensures forall t ::
              Active(GrantFlight(s).tenantActive, t)
              == Active(s.tenantActive, t) + if t == s.flight.req.tenant then 1 else 0
  {
    var s' := GrantFlight(s);
    var r := s.flight.req;
    assert |LiveOf(s.live, r.tenant) + {r}| == |LiveOf(s.live, r.tenant)| + 1;
    forall t ensures LiveOf(s'.live, t) == if t == r.tenant then LiveOf(s.live, t) + {r} else LiveOf(s.live, t) {
    }
  }

  lemma {:induction false} InFlightIsUnsettled(s: Pool)
    requires Numbered(s.issued) && Conserved(s) && !s.flight.Idle?
    ensures s.flight.req !in s.granted && s.flight.req !in s.rejected && s.flight.req !in s.waitQueue
  {
    var r := s.flight.req;
    IssuedOnce(s, r);
    assert multiset(InFlight(s.flight))[r] == 1;
    assert r in s.granted <==> multiset(s.granted)[r] > 0;
    assert r in s.rejected <==> multiset(s.rejected)[r] > 0;
    assert r in s.waitQueue <==> multiset(s.waitQueue)[r] > 0;
  }

  lemma {:induction false} GrantKeepsCore(max: int, s: Pool)
    requires Core(max, s) && s.flight.SettingPath?
    ensures Core(max, GrantFlight(s))
  {
    InFlightIsUnsettled(s);
    GrantKeepsCounted(s);
    assert Conserved(GrantFlight(s));
  }

  lemma {:induction false} RejectFlightKeepsCore(max: int, s: Pool)
    requires Core(max, s) && !s.flight.Idle?
    ensures Core(max, RejectFlight(s))
  {
    assert Conserved(RejectFlight(s));
  }

  lemma {:induction false} CheckOutKeepsInv(max: int, s: Pool)
    requires Inv(max, s) && s.flight.Connecting?
    ensures Inv(max, CheckOut(s))
  {
    hide CanGrant, Agree, Counted, Capped, Ordered, PickedInOrder;
    assert Conserved(CheckOut(s));
  }

  lemma {:induction false} PassingOnKeepsInv(max: int, s: Pool, r: Request)
    requires Inv(max, s)
    ensures Inv(max, s.(passedOn := s.passedOn + [r]))
  {
    hide Agree, Counted, Capped, Room, Ordered, PickedInOrder, OneShort, QueuedShortfall;
    assert Conserved(s.(passedOn := s.passedOn + [r]));
  }

  lemma {:induction false} AdvanceEstablishesInv(max: int, s: Pool, now: int)
    requires Core(max, s) && s.flight.Idle?
    ensures Inv(max, Advance(max, s, now))
  {
    if |s.waitQueue| == 0 {
      ParkEstablishesInv(max, s);
    } else {
      var trimmed := RejectTimedOut(s, now);
      RejectTimedOutKeepsCore(max, s, now);
      PickIsWorkConserving(max, trimmed);
      if |trimmed.waitQueue| == 0 || Pick(max, trimmed).None? {
        ParkEstablishesInv(max, trimmed);
      } else {
        LaunchKeepsCore(max, trimmed, Pick(max, trimmed).value);
      }
    }
  }

  lemma {:induction false} ProcessQueueEstablishesInv(max: int, s: Pool, poolExists: bool, now: int)
    requires Core(max, s)
    ensures Inv(max, ProcessQueue(max, s, poolExists, now))
  {
    if s.flight.Idle? {
      if poolExists {
        AdvanceEstablishesInv(max, s, now);
      } else {
        RejectAllKeepsCore(max, s);
      }
    }
  }

  lemma {:induction false} TimersAreFree(max: int, s: Pool, timers: nat)
    requires Core(max, s)
    ensures Core(max, s.(timers := timers))
  {
  }

  lemma {:induction false} NextKeepsInv(max: int, s: Pool, e: Event)
    requires Inv(max, s) && Enabled(s, e)
    ensures Inv(max, Next(max, s, e))
  {
    hide Core, Quiet, Advance, ProcessQueue, Conserved;
    match e
    case Connect(t, at, now, poolExists) =>
      EnqueueKeepsCore(max, s, t, at);
      ProcessQueueEstablishesInv(max, Enqueue(s, t, at), poolExists, now);
    case Release(r, now, poolExists) =>
      if r in s.live {
        ReleaseKeepsCore(max, s, r);
        ProcessQueueEstablishesInv(max, ReleaseOne(s, r), poolExists, now);
      } else {
        PassingOnKeepsInv(max, s, r);
      }
    case RetryTimer(now, poolExists) =>
      TimersAreFree(max, s, s.timers - 1);
      ProcessQueueEstablishesInv(max, s.(timers := s.timers - 1), poolExists, now);
    case ClientReady(now) =>
      CheckOutKeepsInv(max, s);
      if SchemaName(s.flight.req.tenant).None? {
        RejectFlightKeepsCore(max, CheckOut(s));
        AdvanceEstablishesInv(max, RejectFlight(CheckOut(s)), now);
      }
    case PathSet(now) =>
      GrantKeepsCore(max, s);
      AdvanceEstablishesInv(max, GrantFlight(s), now);
    case FlightFailed(now) =>
      RejectFlightKeepsCore(max, s);
      AdvanceEstablishesInv(max, RejectFlight(s), now);
  }

  /** Every state of every interleaving satisfies the invariant. */
  lemma {:induction false} RunsAreSafe(max: int, run: seq<Pool>, i: nat)
    requires 0 <= max && IsRun(max, run) && i < |run|
    ensures Inv(max, run[i])
  {
    if i == 0 {
      assert forall t :: LiveOf({}, t) == {};
    } else {
      RunsAreSafe(max, run, i - 1);
      assert Step(max, run[i - 1], run[i - 1 + 1]);
      var e :| Enabled(run[i - 1], e) && run[i] == Next(max, run[i - 1], e);
      NextKeepsInv(max, run[i - 1], e);
    }
  }

  // ---- What the invariant gives ----

  ghost function SumActive(m: map<Tenant, int>): int {
    if m == map[] then 0 else var t :| t in m; m[t] + SumActive(m - {t})
  }

  lemma {:induction false} LiveWithout(live: set<Request>, t: Tenant)
    ensures var rest := live - LiveOf(live, t);
            && |live| == |rest| + |LiveOf(live, t)|
            && (forall r :: r in rest ==> r in live && r.tenant != t)
            && forall u :: u != t ==> LiveOf(rest, u) == LiveOf(live, u)
  {
    assert live == (live - LiveOf(live, t)) + LiveOf(live, t);
  }

  lemma {:induction false} LiveIsSum(m: map<Tenant, int>, live: set<Request>)
    requires forall t :: t in m ==> m[t] == |LiveOf(live, t)|
    requires forall r :: r in live ==> r.tenant in m
    ensures SumActive(m) == |live|
  {
    if m == map[] {
      assert live == {};
    } else {
      var t :| t in m && SumActive(m) == m[t] + SumActive(m - {t});
      LiveWithout(live, t);
      LiveIsSum(m - {t}, live - LiveOf(live, t));
    }
  }

  /** The published counters, on every interleaving. */
  lemma {:induction false} CountersStayWithinQuotas(max: int, run: seq<Pool>, i: nat)
    requires 0 <= max && IsRun(max, run) && i < |run|
    ensures var s := run[i];
            && s.globalActive == SumActive(s.tenantActive) == |s.live| <= max
            && (forall t :: 0 <= Active(s.tenantActive, t) == |LiveOf(s.live, t)| <= TENANT_MAX_CONNECTIONS)
  {
    RunsAreSafe(max, run, i);
    var s := run[i];
    forall t | t in s.tenantActive ensures s.tenantActive[t] == |LiveOf(s.live, t)| {
      assert Active(s.tenantActive, t) == |LiveOf(s.live, t)|;
    }
    forall r | r in s.live ensures r.tenant in s.tenantActive {
      assert r in LiveOf(s.live, r.tenant);
      assert Active(s.tenantActive, r.tenant) == |LiveOf(s.live, r.tenant)|;
    }
    LiveIsSum(s.tenantActive, s.live);
  }

  /** No release ever meets a counter at zero: both decrements are exact. */
  lemma {:induction false} ReleaseNeverClips(max: int, run: seq<Pool>, i: nat, r: Request)
    requires 0 <= max && IsRun(max, run) && i < |run| && r in run[i].live
    ensures ClampedDecrement(run[i].globalActive) == run[i].globalActive - 1
    ensures Active(run[i].tenantActive, r.tenant) >= 1
  {
    RunsAreSafe(max, run, i);
    ReleaseKeepsCounted(run[i], r);
    assert r in LiveOf(run[i].live, r.tenant);
  }

  /** How often a request occurs in a place. */
  function Times(s: seq<Request>, r: Request): nat {
    multiset(s)[r]
  }

  /** Every request is in exactly one place, once; nothing else is anywhere. */
  lemma {:induction false} EveryRequestIsInOnePlace(max: int, run: seq<Pool>, i: nat, r: Request)
    requires 0 <= max && IsRun(max, run) && i < |run|
    ensures var s := run[i];
            Times(s.waitQueue, r) + Times(InFlight(s.flight), r) + Times(s.granted, r) + Times(s.rejected, r)
            == if r in s.issued then 1 else 0
  {
    RunsAreSafe(max, run, i);
    IssuedOnce(run[i], r);
    assert multiset(run[i].issued)[r]
        == (multiset(run[i].waitQueue) + multiset(InFlight(run[i].flight)) + multiset(run[i].granted)
            + multiset(run[i].rejected))[r];
  }

  ghost predicate Extends(s: Pool, s': Pool) {
    && s.issued <= s'.issued && s.picked <= s'.picked
    && s.granted <= s'.granted && s.rejected <= s'.rejected
    && s.leaked <= s'.leaked && s.passedOn <= s'.passedOn
  }

  /** The event loses a raw client: a set-up fails after the client was checked out. */
  predicate Leaks(s: Pool, e: Event) {
    || (e.FlightFailed? && s.flight.SettingPath?)
    || (e.ClientReady? && s.flight.Connecting? && SchemaName(s.flight.req.tenant).None?)
  }

  lemma {:induction false} AdvanceExtendsLogs(max: int, s: Pool, now: int)
    ensures Extends(s, Advance(max, s, now)) && Advance(max, s, now).leaked == s.leaked
  {
    hide CanGrant, Filter, FilterBackwards, Without, Pick;
  }

  lemma {:induction false} ProcessQueueExtendsLogs(max: int, s: Pool, poolExists: bool, now: int)
    ensures Extends(s, ProcessQueue(max, s, poolExists, now))
              && ProcessQueue(max, s, poolExists, now).leaked == s.leaked
  {
    hide Advance;
    AdvanceExtendsLogs(max, s, now);
  }

  /** A failed set-up after check-out is what adds to `leaked`; everything else leaves it alone. */
  lemma {:induction false} NextOnlyExtendsLogs(max: int, s: Pool, e: Event)
    requires Enabled(s, e)
    ensures Extends(s, Next(max, s, e))
    ensures Next(max, s, e).leaked == s.leaked + if Leaks(s, e) then 1 else 0
  {
    hide Advance, ProcessQueue;
    match e
    case Connect(t, at, now, poolExists) => ProcessQueueExtendsLogs(max, Enqueue(s, t, at), poolExists, now);
    case Release(r, now, poolExists) => ProcessQueueExtendsLogs(max, ReleaseOne(s, r), poolExists, now);
    case RetryTimer(now, poolExists) => ProcessQueueExtendsLogs(max, s.(timers := s.timers - 1), poolExists, now);
    case ClientReady(now) =>
      if SchemaName(s.flight.req.tenant).None? {
        AdvanceExtendsLogs(max, RejectFlight(CheckOut(s)), now);
      }
    case PathSet(now) => AdvanceExtendsLogs(max, GrantFlight(s), now);
    case FlightFailed(now) => AdvanceExtendsLogs(max, RejectFlight(s), now);
  }

  lemma {:induction false} StepOnlyExtendsLogs(max: int, run: seq<Pool>, i: nat)
    requires IsRun(max, run) && i + 1 < |run|
    ensures Extends(run[i], run[i + 1])
  {
    assert Step(max, run[i], run[i + 1]);
    var e :| Enabled(run[i], e) && run[i + 1] == Next(max, run[i], e);
    NextOnlyExtendsLogs(max, run[i], e);
  }

  /** No promise is settled twice: the two logs of settlements only grow and never repeat a request. */
  lemma {:induction false} SettledAtMostOnce(max: int, run: seq<Pool>, i: nat)
    requires 0 <= max && IsRun(max, run) && i < |run|
    ensures NoDuplicates(run[i].granted + run[i].rejected)
    ensures i + 1 < |run| ==> Extends(run[i], run[i + 1])
  {
    var settled := run[i].granted + run[i].rejected;
    forall r | r in settled ensures multiset(settled)[r] == 1 {
      EveryRequestIsInOnePlace(max, run, i, r);
      assert multiset(settled)[r] == Times(run[i].granted, r) + Times(run[i].rejected, r);
    }
    NoDuplicatesFromCounts(settled);
    if i + 1 < |run| {
      StepOnlyExtendsLogs(max, run, i);
    }
  }

  lemma {:induction false} AdvanceKeepsCounters(max: int, s: Pool, now: int)
    ensures var s' := Advance(max, s, now); s'.tenantActive == s.tenantActive && s'.globalActive == s.globalActive
  {
    hide CanGrant, Filter, FilterBackwards, Without, Pick;
  }

  /**
   * Reserved capacity: when the search path of a request picked at or above its tenant's minimum is set,
   * the grant leaves room for one more connection to every other tenant that holds exactly one,
   * even though calls and releases may have happened since the pick.
   */
  lemma {:induction false} GrantsSpareReservedCapacity(max: int, run: seq<Pool>, i: nat, now: int)
    requires 0 <= max && IsRun(max, run) && i < |run|
    requires run[i].flight.SettingPath? && run[i].flight.atMinimum
    ensures var s' := Next(max, run[i], PathSet(now));
            s'.globalActive + |OneShort(s'.tenantActive, run[i].flight.req.tenant)| <= max
  {
    hide Advance, CanGrant, IsRun, Counted, Conserved, Agree;
    RunsAreSafe(max, run, i);
    AdvanceKeepsCounters(max, GrantFlight(run[i]), now);
    var t := run[i].flight.req.tenant;
    assert OneShort(GrantFlight(run[i]).tenantActive, t) == OneShort(run[i].tenantActive, t);
  }

  /** Who is picked had waited less than the timeout, and nobody who had not is left in the queue. */
  lemma {:induction false} OnlyFreshRequestsAreKept(max: int, s: Pool, now: int)
    requires s.flight.Idle? && Agree(s.waitQueue, s.fairOrder)
    ensures var s' := Advance(max, s, now);
            && (s'.flight.Connecting? ==> s'.flight.req in s.waitQueue && Fresh(now)(s'.flight.req))
            && (forall r :: r in s'.waitQueue ==> r in s.waitQueue && Fresh(now)(r))
            && (forall r :: r in s.waitQueue && !Fresh(now)(r) ==> r in s'.rejected)
  {
    var trimmed := RejectTimedOut(s, now);
    var q := trimmed.waitQueue;
    FilterMembers(s.waitQueue, Fresh(now));
    FilterPartition(s.waitQueue, Fresh(now));
    ShrinkingQueueStaysListed(s.waitQueue, q, s.fairOrder);
    CompactAgrees(s.(waitQueue := q, rejected := trimmed.rejected));
    PickIsWorkConserving(max, trimmed);
    if Pick(max, trimmed).Some? {
      WithoutTakesOne(q, Pick(max, trimmed).value);
      forall r | r in Without(q, Pick(max, trimmed).value) ensures r in q {
        assert r in multiset(q);
      }
    }
    forall r | r in s.waitQueue && !Fresh(now)(r) ensures r in trimmed.rejected {
      assert r in multiset(s.waitQueue);
      assert r in multiset(FilterBackwards(s.waitQueue, Not(Fresh(now))));
    }
  }

  // ---- Raw clients ----

  ghost predicate StepBy(max: int, s: Pool, e: Event, s': Pool) {
    Enabled(s, e) && s' == Next(max, s, e)
  }

  /** A run together with the events that make it. */
  ghost predicate IsTrace(max: int, run: seq<Pool>, events: seq<Event>) {
    && |run| == |events| + 1 && run[0] == Initial
    && forall i :: 0 <= i < |events| ==> StepBy(max, run[i], events[i], run[i + 1])
  }

  lemma {:induction false} TraceIsRun(max: int, run: seq<Pool>, events: seq<Event>)
    requires IsTrace(max, run, events)
    ensures IsRun(max, run)
  {
    hide Enabled, Next;
    forall i | 0 <= i < |run| - 1 ensures Step(max, run[i], run[i + 1]) {
      assert StepBy(max, run[i], events[i], run[i + 1]);
    }
  }

  lemma {:induction false} EventsUpTo(max: int, run: seq<Pool>, n: nat) returns (events: seq<Event>)
    requires IsRun(max, run) && n < |run|
    ensures |events| == n && forall i :: 0 <= i < n ==> StepBy(max, run[i], events[i], run[i + 1])
  {
    hide Enabled, Next;
    if n == 0 {
      events := [];
    } else {
      events := EventsUpTo(max, run, n - 1);
      assert Step(max, run[n - 1], run[n - 1 + 1]);
      var e :| Enabled(run[n - 1], e) && run[n] == Next(max, run[n - 1], e);
      events := events + [e];
    }
  }

  /** Every run has its events. */
  lemma {:induction false} RunHasEvents(max: int, run: seq<Pool>) returns (events: seq<Event>)
    requires IsRun(max, run)
    ensures IsTrace(max, run, events)
  {
    hide StepBy;
    events := EventsUpTo(max, run, |run| - 1);
  }

  /** How many of the first n events lost a raw client. */
  function LeakCount(run: seq<Pool>, events: seq<Event>, n: nat): nat
    requires n <= |events| && |run| == |events| + 1
  {
    if n == 0 then 0 else LeakCount(run, events, n - 1) + if Leaks(run[n - 1], events[n - 1]) then 1 else 0
  }

  lemma {:induction false} LeakedIsCounted(max: int, run: seq<Pool>, events: seq<Event>, i: nat)
    requires IsTrace(max, run, events) && i < |run|
    ensures run[i].leaked == LeakCount(run, events, i)
    ensures LeakCount(run, events, i) == 0 <==> forall k :: 0 <= k < i ==> !Leaks(run[k], events[k])
  {
    hide Enabled, Next, Leaks;
    if i > 0 {
      LeakedIsCounted(max, run, events, i - 1);
      assert StepBy(max, run[i - 1], events[i - 1], run[i - 1 + 1]);
      NextOnlyExtendsLogs(max, run[i - 1], events[i - 1]);
    }
  }

  /**
   * A set-up that fails after check-out, be it for the schema name or for the query, never gives its client back.
   * Between loop runs the raw check-outs equal the granted clients if and only if no event so far was such a failure,
   * and they may exceed the global maximum by as many as were.
   */
  lemma {:induction false} RawClientsMatchGrantsIff(max: int, run: seq<Pool>, events: seq<Event>, i: nat)
    requires 0 <= max && IsTrace(max, run, events) && i < |run|
    ensures run[i].flight.Idle? ==>
              (run[i].checkedOut == run[i].globalActive <==> forall k :: 0 <= k < i ==> !Leaks(run[k], events[k]))
    ensures run[i].checkedOut <= max + LeakCount(run, events, i)
  {
    hide Enabled, Next, Leaks, IsTrace;
    TraceIsRun(max, run, events);
    RunsAreSafe(max, run, i);
    LeakedIsCounted(max, run, events, i);
  }

  /** tenantSchemaName throws exactly for names without a letter, digit or underscore. */
  lemma {:induction false} UnusableNameIff(t: Tenant)
    ensures SchemaName(t).None? <==> forall c :: c in t ==> !SchemaChar()(c)
  {
    FilterMembers(t, SchemaChar());
    var kept := Filter(t, SchemaChar());
    assert |kept| > 0 ==> kept[0] in kept;
  }

  lemma {:induction false} LogsGrow(max: int, run: seq<Pool>, i: nat, j: nat)
    requires IsRun(max, run) && i <= j < |run|
    ensures Extends(run[i], run[j])
  {
    hide IsRun;
    if i < j {
      LogsGrow(max, run, i, j - 1);
      StepOnlyExtendsLogs(max, run, j - 1);
    }
  }

  /**
   * What callers can see to: while no connection query fails after a check-out, raw clients are lost exactly to
   * requests with an unusable tenant name that get one; so none is lost when every tenant name asked for is usable.
   */
  lemma {:induction false} OnlyUnusableNamesLeak(max: int, run: seq<Pool>, events: seq<Event>, i: nat)
    requires 0 <= max && IsTrace(max, run, events) && i < |run|
    requires forall k :: 0 <= k < i ==> !(events[k].FlightFailed? && run[k].flight.SettingPath?)
    ensures run[i].leaked > 0 <==> exists k :: 0 <= k < i && TakesUnusable(run[k], events[k])
    ensures (forall r :: r in run[i].issued ==> SchemaName(r.tenant).Some?) ==> run[i].leaked == 0
  {
    hide Enabled, Next, SchemaName, Inv;
    LeakedIsCounted(max, run, events, i);
    TraceIsRun(max, run, events);
    forall k | 0 <= k < i && TakesUnusable(run[k], events[k]) ensures run[k].flight.req in run[i].issued {
      RunsAreSafe(max, run, k);
      InFlightIsIssued(max, run[k]);
      LogsGrow(max, run, k, i);
    }
  }

  /** A raw client arrives for a request whose tenant has no schema name. */
  predicate TakesUnusable(s: Pool, e: Event) {
    e.ClientReady? && s.flight.Connecting? && SchemaName(s.flight.req.tenant).None?
  }

  lemma {:induction false} InFlightIsIssued(max: int, s: Pool)
    requires Inv(max, s) && !s.flight.Idle?
    ensures s.flight.req in s.issued
  {
    IssuedOnce(s, s.flight.req);
  }

  // ---- Releases ----

  /** Whoever was granted a client has it until its first release, and only granted clients are released. */
  ghost predicate ReleasesInv(s: Pool) {
    && (forall r :: r in s.passedOn ==> r in s.granted)
    && (forall r :: r in s.live <==> r in s.granted && r !in s.passedOn)
  }

  lemma {:induction false} AdvanceKeepsReleases(max: int, s: Pool, now: int)
    ensures var s' := Advance(max, s, now);
            s'.live == s.live && s'.granted == s.granted && s'.passedOn == s.passedOn
  {
    hide CanGrant, Filter, FilterBackwards, Without, Pick;
  }

  lemma {:induction false} ProcessQueueKeepsReleases(max: int, s: Pool, poolExists: bool, now: int)
    ensures var s' := ProcessQueue(max, s, poolExists, now);
            s'.live == s.live && s'.granted == s.granted && s'.passedOn == s.passedOn
  {
    hide Advance;
    AdvanceKeepsReleases(max, s, now);
  }

  lemma {:induction false} NextKeepsReleases(max: int, s: Pool, e: Event)
    requires ReleasesInv(s) && Enabled(s, e)
    requires !s.flight.Idle? ==> s.flight.req !in s.granted
    ensures ReleasesInv(Next(max, s, e))
  {
    hide Advance, ProcessQueue, SchemaName, ClampedDecrement;
    match e
    case Connect(t, at, now, poolExists) => ProcessQueueKeepsReleases(max, Enqueue(s, t, at), poolExists, now);
    case Release(r, now, poolExists) => ProcessQueueKeepsReleases(max, ReleaseOne(s, r), poolExists, now);
    case RetryTimer(now, poolExists) => ProcessQueueKeepsReleases(max, s.(timers := s.timers - 1), poolExists, now);
    case ClientReady(now) => AdvanceKeepsReleases(max, RejectFlight(CheckOut(s)), now);
    case PathSet(now) => AdvanceKeepsReleases(max, GrantFlight(s), now);
    case FlightFailed(now) => AdvanceKeepsReleases(max, RejectFlight(s), now);
  }

  lemma {:induction false} InFlightIsNotGranted(max: int, s: Pool)
    requires Inv(max, s)
    ensures !s.flight.Idle? ==> s.flight.req !in s.granted
  {
    if !s.flight.Idle? {
      InFlightIsUnsettled(s);
    }
  }

  /**
   * On every run, a client counts as held exactly from its grant to the first call of its release. Every call is passed
   * on to the client's own release, in order, and a second call does nothing else.
   */
  lemma {:induction false} HeldUntilFirstRelease(max: int, run: seq<Pool>, i: nat)
    requires 0 <= max && IsRun(max, run) && i < |run|
    ensures ReleasesInv(run[i])
  {
    hide Enabled, Next, Inv;
    if i > 0 {
      HeldUntilFirstRelease(max, run, i - 1);
      RunsAreSafe(max, run, i - 1);
      assert Step(max, run[i - 1], run[i - 1 + 1]);
      var e :| Enabled(run[i - 1], e) && run[i] == Next(max, run[i - 1], e);
      InFlightIsNotGranted(max, run[i - 1]);
      NextKeepsReleases(max, run[i - 1], e);
    }
  }

  // ---- Runs that reach the cases above ----

  lemma {:induction false} RunGrows(max: int, run: seq<Pool>, e: Event) returns (run': seq<Pool>)
    requires IsRun(max, run) && Enabled(run[|run| - 1], e)
    ensures IsRun(max, run') && |run'| == |run| + 1 && run' == run + [Next(max, run[|run| - 1], e)]
  {
    hide Enabled, Next;
    run' := run + [Next(max, run[|run| - 1], e)];
    forall i | 0 <= i < |run'| - 1 ensures Step(max, run'[i], run'[i + 1]) {
      if i < |run| - 1 {
        assert Step(max, run[i], run[i + 1]);
      }
    }
  }

  /** At time 0, with room and nobody at its minimum, the first tenant's first request is picked. */
  lemma {:induction false} FirstIsPicked(max: int, s: Pool, r: Request, t: Tenant, q: seq<Request>, f: seq<Tenant>)
    requires r.tenant == t && s.waitQueue == [r] + q && s.fairOrder == [t] + f && Agree(s.waitQueue, s.fairOrder)
    requires forall x :: x in s.waitQueue ==> x.enqueuedAt == 0
    requires forall x :: x in s.fairOrder ==> Active(s.tenantActive, x) < TENANT_MIN_CONNECTIONS
    requires s.flight.Idle? && s.globalActive < max && r !in q
    ensures var s' := Advance(max, s, 0);
            s' == s.(waitQueue := q, fairOrder := Filter(s.fairOrder, Pending(q)),
                     flight := Connecting(r, false), picked := s.picked + [r])
  {
    hide Agree, CanGrant;
    AllAreKept(s, 0);
    FilterAll(s.fairOrder, Short(s.tenantActive));
    assert s.fairOrder[0] == t && s.waitQueue[0] == r && s.waitQueue[1..] == q;
    ShortIsGrantable(max, s, t);
    WithoutFirst(r, q);
  }

  lemma {:induction false} AllAreKept(s: Pool, now: int)
    requires Agree(s.waitQueue, s.fairOrder)
    requires forall x :: x in s.waitQueue ==> Fresh(now)(x)
    ensures RejectTimedOut(s, now) == s
  {
    FilterAll(s.waitQueue, Fresh(now));
    FilterBackwardsNone(s.waitQueue, Not(Fresh(now)));
    FilterAll(s.fairOrder, Pending(s.waitQueue));
    assert s.rejected + [] == s.rejected;
  }

  lemma {:induction false} ShortIsGrantable(max: int, s: Pool, t: Tenant)
    requires s.globalActive < max && Active(s.tenantActive, t) < TENANT_MIN_CONNECTIONS
    ensures CanGrant(max, s, t)
  {
  }

  lemma {:induction false} WithoutFirst(r: Request, q: seq<Request>)
    requires r !in q
    ensures Without([r] + q, r) == q
  {
  }

  /** One request, picked at once and waiting for its raw client. */
  function OneInFlight(t: Tenant): Pool {
    var r := Request(0, t, 0);
    Initial.(flight := Connecting(r, false), issued := [r], picked := [r])
  }

  lemma {:induction false} OneInFlightIsReachable(max: int, t: Tenant) returns (run: seq<Pool>)
    requires max > 0
    ensures IsRun(max, run) && run[|run| - 1] == OneInFlight(t)
  {
    hide Advance, IsRun;
    JustStarted(max);
    var r := Request(0, t, 0);
    var asked := Enqueue(Initial, t, 0);
    assert [] + [r] == [r] && [] + [t] == [t];
    assert r in [r];
    FirstIsPicked(max, asked, r, t, [], []);
    NothingIsPending([t]);
    run := RunGrows(max, [Initial], Event.Connect(t, 0, 0, true));
  }

  lemma {:induction false} JustStarted(max: int)
    ensures IsRun(max, [Initial])
  {
  }

  lemma {:induction false} NothingIsPending(f: seq<Tenant>)
    ensures Filter(f, Pending([])) == []
  {
    if f != [] {
      NothingIsPending(f[1..]);
    }
  }

  /** A raw client can be lost: here setting the search path fails for the only request. */
  lemma {:induction false} LeakIsReachable(max: int, t: Tenant) returns (run: seq<Pool>)
    requires max > 0 && SchemaName(t).Some?
    ensures IsRun(max, run)
    ensures var s := run[|run| - 1]; s.flight.Idle? && s.leaked == 1 && s.globalActive == 0 && s.checkedOut == 1
  {
    hide SchemaName;
    run := OneInFlightIsReachable(max, t);
    run := RunGrows(max, run, ClientReady(0));
    run := RunGrows(max, run, FlightFailed(0));
  }

  /** And every tenant name that has no schema name loses one as soon as the raw client arrives. */
  lemma {:induction false} UnusableNameLeaks(max: int, t: Tenant) returns (run: seq<Pool>)
    requires max > 0 && forall c :: c in t ==> !SchemaChar()(c)
    ensures IsRun(max, run)
    ensures var s := run[|run| - 1]; s.flight.Idle? && s.leaked == 1 && s.globalActive == 0 && s.checkedOut == 1
  {
    hide SchemaName;
    UnusableNameIff(t);
    run := OneInFlightIsReachable(max, t);
    run := RunGrows(max, run, ClientReady(0));
  }

  /** a's first request is about to be granted; another of a's and one of b's wait. */
  function TwoWaiting(a: Tenant, b: Tenant): Pool {
    var r, r1, r2 := Request(0, a, 0), Request(1, a, 0), Request(2, b, 0);
    Initial.(waitQueue := [r1, r2], fairOrder := [a, b], flight := SettingPath(r, false),
             issued := [r, r1, r2], picked := [r], checkedOut := 1)
  }

  lemma {:induction false} TwoWaitingIsReachable(max: int, a: Tenant, b: Tenant) returns (run: seq<Pool>)
    requires max > 0 && a != b && SchemaName(a).Some?
    ensures IsRun(max, run) && run[|run| - 1] == TwoWaiting(a, b)
  {
    hide Advance, IsRun, SchemaName;
    run := OneInFlightIsReachable(max, a);
    run := RunGrows(max, run, Event.Connect(a, 0, 0, true));
    run := RunGrows(max, run, Event.Connect(b, 0, 0, true));
    run := RunGrows(max, run, ClientReady(0));
  }

  /**
   * The scheduler is not round-robin: when a's first request is granted, its second is picked although b, which asked
   * before that pick, could be granted as well, before and after it.
   */
  lemma {:induction false} PickedTwiceInARowIsReachable(max: int, a: Tenant, b: Tenant) returns (run: seq<Pool>)
    requires max > 1 && a != b && SchemaName(a).Some?
    ensures IsRun(max, run) && |run| > 1 && run[|run| - 2] == TwoWaiting(a, b)
    ensures var s := run[|run| - 1];
            && s.picked == [Request(0, a, 0), Request(1, a, 0)] && s.waitQueue == [Request(2, b, 0)]
            && CanGrant(max, GrantFlight(TwoWaiting(a, b)), b) && CanGrant(max, s, b)
  {
    hide Advance, Step, CanGrant, Agree, SchemaName;
    run := TwoWaitingIsReachable(max, a, b);
    var r1, r2 := Request(1, a, 0), Request(2, b, 0);
    var granted := GrantFlight(TwoWaiting(a, b));
    QueueOfTwo(r1, r2);
    assert [r1, r2] == [r1] + [r2] && [a, b] == [a] + [b];
    FirstIsPicked(max, granted, r1, a, [r2], [b]);
    run := RunGrows(max, run, PathSet(0));
    ShortIsGrantable(max, granted, b);
    ShortIsGrantable(max, run[|run| - 1], b);
  }

  lemma {:induction false} QueueOfTwo(r1: Request, r2: Request)
    requires r1.tenant != r2.tenant
    ensures Agree([r1, r2], [r1.tenant, r2.tenant])
  {
    assert r1 in [r1, r2] && r2 in [r1, r2];
  }
}
