/**
 * The tenant connection scheduler as a state machine. One transition is one synchronous stretch of
 * the source: from an event (a call, a timer, a settled promise) to the next `await` or return.
 */
module TenantPool {
  import opened Sequences

  const TENANT_MIN_CONNECTIONS: nat := 2
  const TENANT_MAX_CONNECTIONS: nat := 10
  const CONNECTION_WAIT_TIMEOUT_MS: nat := 500

  type Tenant = string

  /** `id` stands for the identity of the queued object; ids are handed out in call order. */
  datatype Request = Request(id: nat, tenant: Tenant, enqueuedAt: int)

  /**
   * The suspended run of the queue loop: none, waiting for a raw client, or waiting for the search path.
   * `atMinimum` remembers whether the tenant already held its minimum when the request was picked.
   */
  datatype Flight =
    | Idle
    | Connecting(req: Request, atMinimum: bool)
    | SettingPath(req: Request, atMinimum: bool)

  datatype Pool = Pool(
    waitQueue: seq<Request>,
    fairOrder: seq<Tenant>,
    tenantActive: map<Tenant, int>,
    globalActive: int,
    flight: Flight,
    timers: nat,            // armed 10 ms retry timers
    // What happened so far:
    issued: seq<Request>,   // every request, in call order
    picked: seq<Request>,   // requests taken off the queue to be served, in that order
    granted: seq<Request>,  // promises resolved
    rejected: seq<Request>, // promises rejected
    live: set<Request>,     // granted and not yet released
    checkedOut: int,        // raw clients taken from the pg pool and not returned
    leaked: nat,            // raw clients whose set-up failed after check-out
    passedOn: seq<Request>) // calls passed on to a granted client's own release

  const Initial: Pool := Pool([], [], map[], 0, Idle, 0, [], [], [], [], {}, 0, 0, [])

  // ---- Schema names ----

  function SchemaChar(): char -> bool {
    (c: char) => 'a' <= c <= 'z' || 'A' <= c <= 'Z' || '0' <= c <= '9' || c == '_'
  }

  /** tenantSchemaName; None stands for its 'Invalid tenant id' error. */
  function SchemaName(t: Tenant): Option<string> {
    var kept := Filter(t, SchemaChar());
    var sanitized := if |kept| <= 48 then kept else kept[..48];
    if |sanitized| == 0 then None else Some("tenant_" + sanitized)
  }

  // ---- Reading the state ----

  function Active(m: map<Tenant, int>, t: Tenant): int {
    if t in m then m[t] else 0
  }

  predicate HasPending(q: seq<Request>, t: Tenant) {
    exists r :: r in q && r.tenant == t
  }

  function Fresh(now: int): Request -> bool {
    (r: Request) => now - r.enqueuedAt < CONNECTION_WAIT_TIMEOUT_MS
  }

  function Pending(q: seq<Request>): Tenant -> bool {
    (t: Tenant) => HasPending(q, t)
  }

  function Short(m: map<Tenant, int>): Tenant -> bool {
    (t: Tenant) => Active(m, t) < TENANT_MIN_CONNECTIONS
  }

  /** Tenants other than `exclude` that hold some connections but fewer than the minimum of two. */
  function OneShort(m: map<Tenant, int>, exclude: Tenant): set<Tenant> {
    set t | t in m && t != exclude && m[t] == 1
  }

  /** What the first queued tenant below its minimum, other than `exclude`, still lacks. */
  function QueuedShortfall(q: seq<Request>, m: map<Tenant, int>, exclude: Tenant): int {
    if q == [] then 0
    else if q[0].tenant != exclude && Active(m, q[0].tenant) < TENANT_MIN_CONNECTIONS then
      TENANT_MIN_CONNECTIONS - Active(m, q[0].tenant)
    else QueuedShortfall(q[1..], m, exclude)
  }

  function Reserved(s: Pool, exclude: Tenant): int {
    |OneShort(s.tenantActive, exclude)| + QueuedShortfall(s.waitQueue, s.tenantActive, exclude)
  }

  predicate CanGrant(max: int, s: Pool, t: Tenant) {
    && Active(s.tenantActive, t) < TENANT_MAX_CONNECTIONS
    && s.globalActive < max
    && (Active(s.tenantActive, t) < TENANT_MIN_CONNECTIONS || s.globalActive + Reserved(s, t) < max)
  }

  /** The oldest queued request of tenant t. */
  function FindRequest(q: seq<Request>, t: Tenant): Option<Request> {
    if q == [] then None else if q[0].tenant == t then Some(q[0]) else FindRequest(q[1..], t)
  }

  function FirstGrantable(max: int, s: Pool, tenants: seq<Tenant>): Option<Request> {
    if tenants == [] then None
    else
      var request := FindRequest(s.waitQueue, tenants[0]);
      if request.Some? && CanGrant(max, s, tenants[0]) then request
      else FirstGrantable(max, s, tenants[1..])
  }

  function Candidates(s: Pool): seq<Tenant> {
    var underMinimum := Filter(s.fairOrder, Short(s.tenantActive));
    if |underMinimum| > 0 then underMinimum else s.fairOrder
  }

  function Pick(max: int, s: Pool): Option<Request> {
    FirstGrantable(max, s, Candidates(s))
  }

  /** q without the first occurrence of r. */
  function Without(q: seq<Request>, r: Request): seq<Request> {
    if q == [] then [] else if q[0] == r then q[1..] else [q[0]] + Without(q[1..], r)
  }

  // ---- The stretches of code between awaits ----

  function Compact(s: Pool): Pool {
    s.(fairOrder := Filter(s.fairOrder, Pending(s.waitQueue)))
  }

  function Enqueue(s: Pool, t: Tenant, now: int): Pool {
    var r := Request(|s.issued|, t, now);
    s.(waitQueue := s.waitQueue + [r],
       fairOrder := if t in s.fairOrder then s.fairOrder else s.fairOrder + [t],
       issued := s.issued + [r])
  }

  function RejectTimedOut(s: Pool, now: int): Pool {
    Compact(s.(waitQueue := Filter(s.waitQueue, Fresh(now)),
               rejected := s.rejected + FilterBackwards(s.waitQueue, Not(Fresh(now)))))
  }

  /** Takes the picked request off the queue and suspends on the raw client. */
  function Launch(s: Pool, r: Request): Pool {
    Compact(s.(waitQueue := Without(s.waitQueue, r),
               flight := Connecting(r, Active(s.tenantActive, r.tenant) >= TENANT_MIN_CONNECTIONS),
               picked := s.picked + [r]))
  }

  /** Leaves the loop; a retry timer is armed when requests remain. */
  function Park(s: Pool): Pool {
    s.(flight := Idle, timers := if |s.waitQueue| > 0 then s.timers + 1 else s.timers)
  }

  /** The loop from its head to the next await, or to its exit. */
  function Advance(max: int, s: Pool, now: int): Pool {
    if |s.waitQueue| == 0 then Park(s)
    else
      var trimmed := RejectTimedOut(s, now);
      if |trimmed.waitQueue| == 0 then Park(trimmed)
      else
        match Pick(max, trimmed)
        case None => Park(trimmed)
        case Some(r) => Launch(trimmed, r)
  }

  function RejectAll(s: Pool): Pool {
    s.(waitQueue := [], fairOrder := [], rejected := s.rejected + s.waitQueue)
  }

  function ProcessQueue(max: int, s: Pool, poolExists: bool, now: int): Pool {
    if !s.flight.Idle? then s
    else if !poolExists then RejectAll(s)
    else Advance(max, s, now)
  }

  function ClampedDecrement(n: int): int {
    if n - 1 > 0 then n - 1 else 0
  }

  /** The first call of a granted client's release. */
  function ReleaseOne(s: Pool, r: Request): Pool {
    var current := Active(s.tenantActive, r.tenant);
    s.(globalActive := ClampedDecrement(s.globalActive),
       tenantActive := if current <= 1 then s.tenantActive - {r.tenant}
                       else s.tenantActive[r.tenant := current - 1],
       live := s.live - {r},
       checkedOut := s.checkedOut - 1,
       passedOn := s.passedOn + [r])
  }

  /** Both awaits succeeded: the counters move and the promise is resolved. */
  function GrantFlight(s: Pool): Pool
    requires s.flight.SettingPath?
  {
    var r := s.flight.req;
    s.(globalActive := s.globalActive + 1,
       tenantActive := s.tenantActive[r.tenant := Active(s.tenantActive, r.tenant) + 1],
       flight := Idle, granted := s.granted + [r], live := s.live + {r})
  }

  /** The raw client arrived: the search path comes next. */
  function CheckOut(s: Pool): Pool
    requires s.flight.Connecting?
  {
    s.(flight := SettingPath(s.flight.req, s.flight.atMinimum), checkedOut := s.checkedOut + 1)
  }

  /** An await failed; a client that was already checked out is not given back. */
  function RejectFlight(s: Pool): Pool
    requires !s.flight.Idle?
  {
    s.(flight := Idle, rejected := s.rejected + [s.flight.req],
       leaked := if s.flight.SettingPath? then s.leaked + 1 else s.leaked)
  }

  // ---- Transitions ----

  datatype Event =
    | Connect(tenant: Tenant, enqueuedAt: int, now: int, poolExists: bool)
    | Release(req: Request, now: int, poolExists: bool)
    | RetryTimer(now: int, poolExists: bool)
    | ClientReady(now: int)
    | PathSet(now: int)
    | FlightFailed(now: int)

  predicate Enabled(s: Pool, e: Event) {
    match e
    case Connect(_, _, _, _) => true
    case Release(r, _, _) => r in s.granted
    case RetryTimer(_, _) => s.timers > 0
    case ClientReady(_) => s.flight.Connecting?
    case PathSet(_) => s.flight.SettingPath?
    case FlightFailed(_) => !s.flight.Idle?
  }

  function Next(max: int, s: Pool, e: Event): Pool
    requires Enabled(s, e)
  {
    match e
    case Connect(t, at, now, exists_) => ProcessQueue(max, Enqueue(s, t, at), exists_, now)
    case Release(r, now, exists_) =>
      // a second call only reaches the client's own release
      if r in s.live then ProcessQueue(max, ReleaseOne(s, r), exists_, now)
      else s.(passedOn := s.passedOn + [r])
    case RetryTimer(now, exists_) => ProcessQueue(max, s.(timers := s.timers - 1), exists_, now)
    case ClientReady(now) =>
      // the schema name is computed before the second await; when that throws, the request is rejected at once
      if SchemaName(s.flight.req.tenant).Some? then CheckOut(s) else Advance(max, RejectFlight(CheckOut(s)), now)
    case PathSet(now) => Advance(max, GrantFlight(s), now)
    case FlightFailed(now) => Advance(max, RejectFlight(s), now)
  }

  ghost predicate Step(max: int, s: Pool, s': Pool) {
    exists e :: Enabled(s, e) && s' == Next(max, s, e)
  }

  /** Any interleaving of calls, timers, releases and promise outcomes, from an empty scheduler. */
  ghost predicate IsRun(max: int, run: seq<Pool>) {
    && |run| > 0 && run[0] == Initial
    && forall i :: 0 <= i < |run| - 1 ==> Step(max, run[i], run[i + 1])
  }
}
