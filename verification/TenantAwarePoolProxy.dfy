/** The scheduler as the source writes it: fields, loops that splice in place, and a suspended queue loop. */
module PoolProxy {
  import opened Sequences
  import opened TenantPool

  lemma {:induction false} WithoutIsSplice(q: seq<Request>, r: Request, i: nat)
    requires i < |q| && q[i] == r && forall j :: 0 <= j < i ==> q[j] != r
    ensures Without(q, r) == q[..i] + q[i + 1..]
  {
    if i > 0 {
      WithoutIsSplice(q[1..], r, i - 1);
      assert q[..i] == [q[0]] + q[1..][..i - 1];
    }
  }

  lemma {:induction false} WithoutAbsent(q: seq<Request>, r: Request)
    requires r !in q
    ensures Without(q, r) == q
  {
    if q != [] {
      WithoutAbsent(q[1..], r);
    }
  }

  /** Tenants without connections have no entry. */
  ghost predicate Positive(m: map<Tenant, int>) {
    forall t :: t in m ==> m[t] > 0
  }

  class TenantAwarePoolProxy {
    const globalMax: int
    var tenantActive: map<Tenant, int>
    var waitQueue: seq<Request>
    var fairOrder: seq<Tenant>
    var globalActive: int
    var processing: bool
    var next: Option<Request>   // the request the suspended loop is serving
    var clientReady: bool       // whether it waits for the search path rather than for the raw client
    var timers: nat
    var live: set<Request>      // granted clients whose wrapped release has not been called
    var nextId: nat             // identity of the next queued object

    ghost var atMinimum: bool
    ghost var issued: seq<Request>
    ghost var picked: seq<Request>
    ghost var granted: seq<Request>
    ghost var rejected: seq<Request>
    ghost var checkedOut: int
    ghost var leaked: nat
    ghost var passedOn: seq<Request>

    ghost function State(): Pool
      reads this
    {
      Pool(waitQueue, fairOrder, tenantActive, globalActive,
           if next.None? then Idle
           else if clientReady then SettingPath(next.value, atMinimum)
           else Connecting(next.value, atMinimum),
           timers, issued, picked, granted, rejected, live, checkedOut, leaked, passedOn)
    }

    /** Holds whenever no synchronous code is running. */
    ghost predicate Valid()
      reads this
    {
      && (processing <==> next.Some?)
      && nextId == |issued|
      && Positive(tenantActive)
    }

    constructor (max: int)
      ensures Valid() && State() == Initial && globalMax == max
    {
      globalMax := max;
      tenantActive, waitQueue, fairOrder, globalActive := map[], [], [], 0;
      processing, next, clientReady, timers, nextId := false, None, false, 0, 0;
      atMinimum, issued, picked, granted, rejected := false, [], [], [], [];
      live, checkedOut, leaked, passedOn := {}, 0, 0, [];
    }

    function GetTenantActiveCount(t: Tenant): int
      reads this
    {
      Active(tenantActive, t)
    }

    method CompactFairOrder()
      modifies this`fairOrder
      ensures State() == Compact(old(State()))
    {
      ghost var f := fairOrder;
      ghost var keep := Pending(waitQueue);
      var i := |fairOrder| - 1;
      while i >= 0
        invariant -1 <= i < |f|
        invariant fairOrder == f[..i + 1] + Filter(f[i + 1..], keep)
      {
        var tenantId := fairOrder[i];
        assert tenantId == f[i] && f[i..] == [f[i]] + f[i + 1..];
        var hasPending := HasPending(waitQueue, tenantId);
        if !hasPending {
          fairOrder := fairOrder[..i] + fairOrder[i + 1..];
        }
        i := i - 1;
      }
      assert f[0..] == f;
    }

    method SpliceTimedOut(now: int)
      modifies this`waitQueue, this`rejected
      ensures waitQueue == Filter(old(waitQueue), Fresh(now))
      ensures rejected == old(rejected) + FilterBackwards(old(waitQueue), Not(Fresh(now)))
    {
      ghost var q := waitQueue;
      var i := |waitQueue| - 1;
      while i >= 0
        invariant -1 <= i < |q|
        invariant waitQueue == q[..i + 1] + Filter(q[i + 1..], Fresh(now))
        invariant rejected == old(rejected) + FilterBackwards(q[i + 1..], Not(Fresh(now)))
      {
        var request := waitQueue[i];
        assert request == q[i] && q[i..][1..] == q[i + 1..];
        var waitMs := now - request.enqueuedAt;
        if waitMs >= CONNECTION_WAIT_TIMEOUT_MS {
          waitQueue := waitQueue[..i] + waitQueue[i + 1..];
          rejected := rejected + [request];
        }
        i := i - 1;
      }
      assert q[0..] == q;
    }

    method RejectTimedOutRequests(now: int)
      modifies this`waitQueue, this`fairOrder, this`rejected
      ensures State() == RejectTimedOut(old(State()), now)
    {
      SpliceTimedOut(now);
      CompactFairOrder();
    }

    /** The first loop: what the tenants holding fewer than the minimum still lack. */
    method ReservedForHolders(exclude: Tenant) returns (reserved: int)
      requires Positive(tenantActive)
      ensures reserved == |OneShort(tenantActive, exclude)|
    {
      reserved := 0;
      var rest := tenantActive.Keys;
      while rest != {}
        invariant rest <= tenantActive.Keys
        invariant reserved == |OneShort(tenantActive, exclude) - rest|
        decreases rest
      {
        var tenantId :| tenantId in rest;
        var active := tenantActive[tenantId];
        ghost var before := OneShort(tenantActive, exclude) - rest;
        rest := rest - {tenantId};
        assert OneShort(tenantActive, exclude) - rest
            == if tenantId != exclude && active == 1 then before + {tenantId} else before;
        if tenantId != exclude && active > 0 && active < TENANT_MIN_CONNECTIONS {
          reserved := reserved + (TENANT_MIN_CONNECTIONS - active);
        }
      }
      assert OneShort(tenantActive, exclude) - rest == OneShort(tenantActive, exclude);
    }

    method ReservedForGuarantees(exclude: Tenant) returns (reserved: int)
      requires Positive(tenantActive)
      ensures reserved == Reserved(State(), exclude)
    {
      reserved := ReservedForHolders(exclude);
      var i := 0;
      while i < |waitQueue|
        invariant 0 <= i <= |waitQueue|
        invariant reserved == |OneShort(tenantActive, exclude)|
        invariant QueuedShortfall(waitQueue[i..], tenantActive, exclude)
                  == QueuedShortfall(waitQueue, tenantActive, exclude)
      {
        var request := waitQueue[i];
        assert waitQueue[i..][1..] == waitQueue[i + 1..];
        if request.tenant != exclude {
          var active := GetTenantActiveCount(request.tenant);
          if active < TENANT_MIN_CONNECTIONS {
            reserved := reserved + (TENANT_MIN_CONNECTIONS - active);
            return;
          }
        }
        i := i + 1;
      }
    }

    method CanGrantTo(tenantId: Tenant) returns (ok: bool)
      requires Positive(tenantActive)
      ensures ok <==> CanGrant(globalMax, State(), tenantId)
    {
      var active := GetTenantActiveCount(tenantId);
      if active >= TENANT_MAX_CONNECTIONS {
        return false;
      }
      if globalActive >= globalMax {
        return false;
      }
      if active < TENANT_MIN_CONNECTIONS {
        return true;
      }
      var reserved := ReservedForGuarantees(tenantId);
      return globalActive + reserved < globalMax;
    }

    method PickNextRequest() returns (request: Option<Request>)
      requires Positive(tenantActive)
      ensures request == Pick(globalMax, State())
    {
      var underMinimum := Filter(fairOrder, Short(tenantActive));
      var priorityTenants := if |underMinimum| > 0 then underMinimum else fairOrder;
      var i := 0;
      while i < |priorityTenants|
        invariant 0 <= i <= |priorityTenants|
        invariant FirstGrantable(globalMax, State(), priorityTenants[i..]) == Pick(globalMax, State())
      {
        assert priorityTenants[i..][1..] == priorityTenants[i + 1..];
        request := FindRequest(waitQueue, priorityTenants[i]);
        if request.Some? {
          var ok := CanGrantTo(priorityTenants[i]);
          if ok {
            return;
          }
        }
        i := i + 1;
      }
      return None;
    }

    /** indexOf followed by splice. */
    method RemoveFromQueue(r: Request)
      modifies this`waitQueue
      ensures waitQueue == Without(old(waitQueue), r)
    {
      var index := 0;
      while index < |waitQueue| && waitQueue[index] != r
        invariant 0 <= index <= |waitQueue|
        invariant forall j :: 0 <= j < index ==> waitQueue[j] != r
      {
        index := index + 1;
      }
      if index < |waitQueue| {
        WithoutIsSplice(waitQueue, r, index);
        waitQueue := waitQueue[..index] + waitQueue[index + 1..];
      } else {
        WithoutAbsent(waitQueue, r);
      }
    }

    /** The `finally` of processQueue. */
    method LeaveLoop()
      requires next.None?
      modifies this`processing, this`timers
      ensures !processing && State() == Park(old(State()))
    {
      processing := false;
      if |waitQueue| > 0 {
        timers := timers + 1;
      }
    }

    /** Takes the picked request off the queue; the loop then waits for a raw client. */
    method TakeRequest(r: Request)
      requires next.None?
      modifies this`waitQueue, this`fairOrder, this`next, this`clientReady, this`picked, this`atMinimum
      ensures next.Some? && State() == Launch(old(State()), r)
    {
      RemoveFromQueue(r);
      next, clientReady := Some(r), false;
      picked := picked + [r];
      atMinimum := Active(tenantActive, r.tenant) >= TENANT_MIN_CONNECTIONS;
      CompactFairOrder();
    }

    /** The queue loop from its head until it suspends or ends. */
    method RunLoop(now: int)
      requires processing && next.None? && nextId == |issued| && Positive(tenantActive)
      modifies this`waitQueue, this`fairOrder, this`rejected, this`processing, this`timers
      modifies this`next, this`clientReady, this`picked, this`atMinimum
      ensures Valid() && State() == Advance(globalMax, old(State()), now)
    {
      if |waitQueue| == 0 {
        LeaveLoop();
        return;
      }
      RejectTimedOutRequests(now);
      if |waitQueue| == 0 {
        LeaveLoop();
        return;
      }
      var request := PickNextRequest();
      if request.None? {
        LeaveLoop();
        return;
      }
      TakeRequest(request.value);
    }

    method RunProcessQueue(poolExists: bool, now: int)
      requires Valid()
      modifies this
      ensures Valid() && State() == ProcessQueue(globalMax, old(State()), poolExists, now)
    {
      if processing {
        return;
      }
      processing := true;
      if !poolExists {
        rejected := rejected + waitQueue;
        waitQueue, fairOrder := [], [];
        LeaveLoop();
        return;
      }
      RunLoop(now);
    }

    // ---- The entry points; each is one transition of the state machine ----

    method Connect(tenantId: Tenant, enqueuedAt: int, now: int, poolExists: bool)
      requires Valid()
      modifies this
      ensures Valid()
      ensures State() == Next(globalMax, old(State()), Event.Connect(tenantId, enqueuedAt, now, poolExists))
    {
      hide ProcessQueue, Advance, SchemaName;
      var request := Request(nextId, tenantId, enqueuedAt);
      nextId := nextId + 1;
      issued := issued + [request];
      waitQueue := waitQueue + [request];
      if tenantId !in fairOrder {
        fairOrder := fairOrder + [tenantId];
      }
      RunProcessQueue(poolExists, now);
    }

    /** What the first call of a release changes before the queue is looked at. */
    method FreePlace(r: Request)
      requires Positive(tenantActive)
      modifies this`globalActive, this`tenantActive, this`live, this`checkedOut, this`passedOn
      ensures Positive(tenantActive) && State() == ReleaseOne(old(State()), r)
    {
      globalActive := ClampedDecrement(globalActive);
      var current := GetTenantActiveCount(r.tenant);
      if current <= 1 {
        tenantActive := tenantActive - {r.tenant};
      } else {
        tenantActive := tenantActive[r.tenant := current - 1];
      }
      live, checkedOut, passedOn := live - {r}, checkedOut - 1, passedOn + [r];
    }

    /** The wrapped release of a granted client. */
    method Release(r: Request, now: int, poolExists: bool)
      requires Valid()
      requires r in granted
      modifies this
      ensures Valid()
      ensures State() == Next(globalMax, old(State()), Event.Release(r, now, poolExists))
    {
      hide ProcessQueue, Advance;
      if r !in live {
        passedOn := passedOn + [r];
        return;
      }
      FreePlace(r);
      RunProcessQueue(poolExists, now);
    }

    method RetryTimerFires(now: int, poolExists: bool)
      requires Valid()
      requires timers > 0
      modifies this
      ensures Valid()
      ensures State() == Next(globalMax, old(State()), RetryTimer(now, poolExists))
    {
      hide ProcessQueue, Advance;
      timers := timers - 1;
      RunProcessQueue(poolExists, now);
    }

    /** `await pool.connect()` resolved: the schema name and the second await, or the catch and the rest of the loop. */
    method RawClientArrives(now: int)
      requires Valid()
      requires next.Some? && !clientReady
      modifies this
      ensures Valid()
      ensures State() == Next(globalMax, old(State()), ClientReady(now))
    {
      hide Advance;
      clientReady, checkedOut := true, checkedOut + 1;
      var request := next.value;
      var schema := SchemaName(request.tenant);
      if schema.None? {
        rejected := rejected + [request];
        leaked := leaked + 1;
        next := None;
        RunLoop(now);
      }
    }

    /** `SET search_path` succeeded: the grant, then the rest of the loop. */
    method SearchPathSet(now: int)
      requires Valid()
      requires next.Some? && clientReady
      modifies this
      ensures Valid()
      ensures State() == Next(globalMax, old(State()), PathSet(now))
    {
      hide Advance;
      var request := next.value;
      globalActive := globalActive + 1;
      tenantActive := tenantActive[request.tenant := GetTenantActiveCount(request.tenant) + 1];
      granted, live := granted + [request], live + {request};
      next := None;
      RunLoop(now);
    }

    /** Either await threw: the request is rejected, then the rest of the loop. */
    method SetupFails(now: int)
      requires Valid()
      requires next.Some?
      modifies this
      ensures Valid()
      ensures State() == Next(globalMax, old(State()), FlightFailed(now))
    {
      hide Advance;
      rejected := rejected + [next.value];
      leaked := if clientReady then leaked + 1 else leaked;
      next := None;
      RunLoop(now);
    }
  }
}
