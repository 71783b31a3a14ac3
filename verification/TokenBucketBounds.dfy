/** What the token bucket guarantees over whole runs of calls with a nondecreasing clock. */
module TokenBucketBounds {
  import opened Sequences
  import opened TokenBucket

  /** A run of calls; with `ttl` the stored hash expires between calls, without it the hash is kept for ever. */
  datatype Trace = Trace(h: Option<Hash>, replies: seq<Reply>, bursts: int)

  function Run(calls: seq<Call>, ttl: bool): Trace {
    if calls == [] then Trace(None, [], 0)
    else
      var c := calls[|calls| - 1];
      var before := Run(calls[..|calls| - 1], ttl);
      var h := if ttl then Visible(before.h, c.now) else before.h;
      Trace(Some(Stored(h, ArgsOf(c))), before.replies + [Answer(h, ArgsOf(c))],
            before.bursts + if Starts(h, ArgsOf(c)) then 1 else 0)
  }

  ghost predicate Clocked(calls: seq<Call>) {
    && (forall i :: 0 <= i < |calls| ==> calls[i].now > 0)
    && (forall i, j :: 0 <= i < j < |calls| ==> calls[i].now <= calls[j].now)
  }

  // ---- Single calls ----

  lemma {:induction false} MulLe(a: real, b: real, c: real)
    requires 0.0 <= a && b <= c
    ensures a * b <= a * c
  {
  }

  lemma {:induction false} MulLt(a: real, b: real, c: real)
    requires 0.0 < a && b < c
    ensures a * b < a * c
  {
  }

  lemma {:induction false} MulNonNegative(a: real, b: real)
    requires 0.0 <= a && 0.0 <= b
    ensures 0.0 <= a * b
  {
  }

  /** What checkLimit passes for a tier, whatever the compliance. */
  predicate InRange(a: Args, tier: Tier) {
    && a.now > 0
    && a.normalMax == MaxTokens(tier) && a.burstMax == 3.0 * MaxTokens(tier)
    && 0.5 * BaseRate(tier) <= a.normalRate <= BaseRate(tier)
    && a.burstRate == 3.0 * a.normalRate
  }

  lemma {:induction false} ArgsInRange(c: Call)
    requires c.now > 0
    ensures InRange(ArgsOf(c), c.tier) && ArgsOf(c).now == c.now
  {
  }

  /** Tokens are never negative and a burst never lies in the future. */
  predicate Valid(h: Option<Hash>) {
    h.Some? ==> h.value.tokens >= 0.0 && 0.0 <= h.value.burstAt <= Seconds(h.value.lastRefill)
  }

  predicate NotBefore(h: Option<Hash>, now: int) {
    h.Some? ==> h.value.lastRefill <= now
  }

  function Elapsed(h: Option<Hash>, now: int): real {
    if h.Some? then Seconds(now - h.value.lastRefill) else 0.0
  }

  lemma {:induction false} RateBounds(h: Option<Hash>, a: Args, tier: Tier)
    requires InRange(a, tier)
    ensures 0.0 < EffectiveRate(h, a) <= 3.0 * BaseRate(tier)
    ensures 1.0 <= EffectiveMax(h, a) <= 3.0 * MaxTokens(tier)
    ensures 3600.0 * EffectiveRate(h, a) >= EffectiveMax(h, a)
  {
  }

  lemma {:induction false} RefillToBounds(max: real, tokens: real, elapsed: real, rate: real)
    requires 0.0 <= max && 0.0 <= tokens && 0.0 <= elapsed && 0.0 <= rate
    ensures 0.0 <= RefillTo(max, tokens, elapsed, rate) <= max
    ensures elapsed >= 3600.0 && 3600.0 * rate >= max ==> RefillTo(max, tokens, elapsed, rate) == max
  {
    MulNonNegative(elapsed, rate);
    if elapsed >= 3600.0 {
      MulLe(rate, 3600.0, elapsed);
      assert elapsed * rate >= 3600.0 * rate;
    }
  }

  /** The refill in terms of what was stored. */
  lemma {:induction false} RefilledIs(h: Option<Hash>, a: Args)
    requires h.Some?
    ensures Refilled(h, a) == RefillTo(EffectiveMax(h, a), h.value.tokens, Elapsed(h, a.now), EffectiveRate(h, a))
  {
    hide RefillTo, EffectiveMax, EffectiveRate;
  }

  lemma {:induction false} RefilledBounds(h: Option<Hash>, a: Args, tier: Tier)
    requires Valid(h) && NotBefore(h, a.now) && InRange(a, tier)
    ensures 0.0 <= Refilled(h, a) <= EffectiveMax(h, a)
    ensures 0.0 <= Left(h, a)
  {
    hide RefillTo, EffectiveMax, EffectiveRate, BaseRate, MaxTokens;
    RateBounds(h, a, tier);
    if h.Some? {
      RefilledIs(h, a);
      RefillToBounds(EffectiveMax(h, a), h.value.tokens, Elapsed(h, a.now), EffectiveRate(h, a));
    }
  }

  lemma {:induction false} StoredIsValid(h: Option<Hash>, a: Args, tier: Tier)
    requires Valid(h) && NotBefore(h, a.now) && InRange(a, tier)
    ensures Valid(Some(Stored(h, a)))
  {
    hide Refilled, BaseRate, MaxTokens;
    RefilledBounds(h, a, tier);
    assert h.Some? ==> Seconds(h.value.lastRefill) <= Seconds(a.now);
  }

  // ---- Expiry makes no difference ----

  predicate Spent(burstAt: real, at: real) {
    burstAt == 0.0 || at - burstAt >= BURST_COOLDOWN_S
  }

  /** Two hashes that answer alike for ever: equal but for bursts both of which are over and cooled down. */
  predicate Same(h1: Option<Hash>, h2: Option<Hash>) {
    match (h1, h2)
    case (None, None) => true
    case (Some(a), Some(b)) =>
      && a.tokens == b.tokens && a.lastRefill == b.lastRefill
      && (a.burstAt == b.burstAt
           || (Spent(a.burstAt, Seconds(a.lastRefill)) && Spent(b.burstAt, Seconds(b.lastRefill))))
    case _ => false
  }

  /** Everything an answer depends on. */
  lemma {:induction false} AnswerIsDetermined(h1: Option<Hash>, h2: Option<Hash>, a: Args)
    requires Bursting(h1, a) == Bursting(h2, a) && Refilled(h1, a) == Refilled(h2, a)
    ensures Answer(h1, a) == Answer(h2, a)
    ensures Left(h1, a) == Left(h2, a)
  {
    hide Refilled, ResetTime, Bursting;
  }

  lemma {:induction false} RefilledWhenIdle(h: Option<Hash>, a: Args, tier: Tier)
    requires Valid(h) && InRange(a, tier) && h.Some? && a.now >= h.value.lastRefill + BUCKET_TTL_S * 1000
    ensures Refilled(h, a) == EffectiveMax(h, a)
  {
    hide RefillTo, EffectiveMax, EffectiveRate, BaseRate, MaxTokens;
    RateBounds(h, a, tier);
    RefilledIs(h, a);
    RefillToBounds(EffectiveMax(h, a), h.value.tokens, Elapsed(h, a.now), EffectiveRate(h, a));
  }

  lemma {:induction false} RefilledWithoutHash(a: Args)
    ensures Refilled(None, a) == EffectiveMax(None, a)
  {
  }

  /** A hash idle for its time to live answers like no hash at all: it has refilled and may burst again. */
  lemma {:induction false} IdleIsFresh(h: Option<Hash>, a: Args, tier: Tier)
    requires Valid(h) && InRange(a, tier) && h.Some? && a.now >= h.value.lastRefill + BUCKET_TTL_S * 1000
    ensures Answer(None, a) == Answer(h, a)
    ensures Starts(None, a) == Starts(h, a)
    ensures Same(Some(Stored(None, a)), Some(Stored(h, a)))
  {
    hide Refilled, Answer, Left;
    assert Seconds(a.now) - h.value.burstAt >= 3600.0;
    RefilledWhenIdle(h, a, tier);
    RefilledWithoutHash(a);
    AnswerIsDetermined(None, h, a);
  }

  lemma {:induction false} SameAnswersAlike(h1: Option<Hash>, h2: Option<Hash>, a: Args)
    requires Same(h1, h2) && Valid(h1) && Valid(h2) && NotBefore(h1, a.now)
    ensures Answer(h1, a) == Answer(h2, a)
    ensures Starts(h1, a) == Starts(h2, a)
    ensures Same(Some(Stored(h1, a)), Some(Stored(h2, a)))
  {
    hide Refilled, Answer, Left;
    assert h1.Some? ==> Seconds(h1.value.lastRefill) <= Seconds(a.now);
    SameRefill(h1, h2, a);
    AnswerIsDetermined(h1, h2, a);
  }

  lemma {:induction false} SameRefill(h1: Option<Hash>, h2: Option<Hash>, a: Args)
    requires Same(h1, h2) && Bursting(h1, a) == Bursting(h2, a)
    ensures Refilled(h1, a) == Refilled(h2, a)
  {
    hide RefillTo, Bursting;
  }

  lemma {:induction false} RunIsValid(calls: seq<Call>)
    requires Clocked(calls)
    ensures Valid(Run(calls, false).h)
    ensures calls != [] ==> Run(calls, false).h.Some? && Run(calls, false).h.value.lastRefill == calls[|calls| - 1].now
    ensures calls == [] ==> Run(calls, false).h.None?
  {
    if calls != [] {
      hide ArgsOf, Left, Answer, Starts;
      var k := |calls| - 1;
      RunIsValid(calls[..k]);
      ArgsInRange(calls[k]);
      StoredIsValid(Run(calls[..k], false).h, ArgsOf(calls[k]), calls[k].tier);
    }
  }

  /** Every answer of every run is the same whether or not hashes expire. */
  lemma {:induction false} ExpiryIsUnobservable(calls: seq<Call>)
    requires Clocked(calls)
    ensures Run(calls, true).replies == Run(calls, false).replies
    ensures Run(calls, true).bursts == Run(calls, false).bursts
    ensures Same(Run(calls, true).h, Run(calls, false).h) && Valid(Run(calls, true).h)
  {
    if calls != [] {
      hide ArgsOf, Left, Answer, Starts, InRange;
      var k := |calls| - 1;
      var a := ArgsOf(calls[k]);
      ArgsInRange(calls[k]);
      ExpiryIsUnobservable(calls[..k]);
      RunIsValid(calls[..k]);
      var h1, h2 := Run(calls[..k], true).h, Run(calls[..k], false).h;
      StoredIsValid(Visible(h1, a.now), a, calls[k].tier);
      if Visible(h1, a.now) == h1 {
        SameAnswersAlike(h1, h2, a);
      } else {
        IdleIsFresh(h2, a, calls[k].tier);
      }
    }
  }

  // ---- Bursts ----

  /** The hash that call k of a run finds. */
  function HashAt(calls: seq<Call>, k: nat, ttl: bool): Option<Hash>
    requires k < |calls|
  {
    var h := Run(calls[..k], ttl).h;
    if ttl then Visible(h, calls[k].now) else h
  }

  /** Call k starts a burst. */
  predicate StartsAt(calls: seq<Call>, k: nat, ttl: bool)
    requires k < |calls|
  {
    Starts(HashAt(calls, k, ttl), ArgsOf(calls[k]))
  }

  /** Call k is served at burst capacity. */
  predicate BurstingAt(calls: seq<Call>, k: nat, ttl: bool)
    requires k < |calls|
  {
    Bursting(HashAt(calls, k, ttl), ArgsOf(calls[k]))
  }

  /** Call k falls into a burst that an earlier call started. */
  predicate OlderBurstAt(calls: seq<Call>, k: nat, ttl: bool)
    requires k < |calls|
  {
    InBurst(BurstAt(HashAt(calls, k, ttl)), Seconds(calls[k].now))
  }

  lemma {:induction false} BurstsShow(h1: Option<Hash>, h2: Option<Hash>, a: Args, tier: Tier)
    requires InRange(a, tier) && Answer(h1, a) == Answer(h2, a)
    ensures Bursting(h1, a) <==> Bursting(h2, a)
  {
    hide Refilled, Bursting, ResetAt, Left, Admits;
    RateBounds(h1, a, tier);
  }

  lemma {:induction false} OneCallMore(calls: seq<Call>, k: nat, ttl: bool)
    requires k < |calls|
    ensures var before, after := Run(calls[..k], ttl), Run(calls[..k + 1], ttl);
            && after.replies == before.replies + [Answer(HashAt(calls, k, ttl), ArgsOf(calls[k]))]
            && after.bursts == before.bursts + if StartsAt(calls, k, ttl) then 1 else 0
  {
    hide ArgsOf, Answer, Stored, Starts;
    assert calls[..k + 1][..k] == calls[..k];
  }

  lemma {:induction false} BurstingIsEither(h: Option<Hash>, a: Args)
    ensures Bursting(h, a) <==> Starts(h, a) || InBurst(BurstAt(h), Seconds(a.now))
    ensures Starts(h, a) ==> !InBurst(BurstAt(h), Seconds(a.now))
  {
  }

  /** Expiry does not change when bursts start and run. */
  lemma {:induction false} BurstsIgnoreExpiry(calls: seq<Call>, k: nat)
    requires Clocked(calls) && k < |calls|
    ensures StartsAt(calls, k, true) <==> StartsAt(calls, k, false)
    ensures BurstingAt(calls, k, true) <==> BurstingAt(calls, k, false)
    ensures OlderBurstAt(calls, k, true) <==> OlderBurstAt(calls, k, false)
  {
    hide ArgsOf, Answer, Stored, InRange, InBurst, CanBurst, Same, Run, HashAt, Bursting;
    ArgsInRange(calls[k]);
    ExpiryIsUnobservable(calls[..k]);
    ExpiryIsUnobservable(calls[..k + 1]);
    OneCallMore(calls, k, true);
    OneCallMore(calls, k, false);
    BurstingIsEither(HashAt(calls, k, true), ArgsOf(calls[k]));
    BurstingIsEither(HashAt(calls, k, false), ArgsOf(calls[k]));
    var n := |Run(calls[..k], true).replies|;
    assert Run(calls[..k + 1], true).replies[n] == Answer(HashAt(calls, k, true), ArgsOf(calls[k]));
    assert Run(calls[..k + 1], false).replies[n] == Answer(HashAt(calls, k, false), ArgsOf(calls[k]));
    BurstsShow(HashAt(calls, k, true), HashAt(calls, k, false), ArgsOf(calls[k]), calls[k].tier);
  }

  /** A burst starts no sooner than the cooldown after the start that is stored. */
  lemma {:induction false} CooldownGuards(h: Option<Hash>, a: Args)
    requires Starts(h, a) && BurstAt(h) > 0.0
    ensures Seconds(a.now) - BurstAt(h) >= BURST_COOLDOWN_S
  {
  }

  /** The stored start is never before one that was made. */
  lemma {:induction false} StartIsRemembered(calls: seq<Call>, i: nat)
    requires Clocked(calls) && i < |calls| && StartsAt(calls, i, false)
    ensures Run(calls, false).h.Some? && Run(calls, false).h.value.burstAt >= Seconds(calls[i].now)
  {
    hide Left, Answer, InBurst, CanBurst, InRange;
    var k := |calls| - 1;
    ArgsInRange(calls[k]);
    if i < k {
      assert calls[..k][..i] == calls[..i];
      StartIsRemembered(calls[..k], i);
    }
  }

  /** Over a run, with hashes expiring as they do: bursts start at least the cooldown apart. */
  lemma {:induction false} BurstsAreApart(calls: seq<Call>, i: nat, j: nat)
    requires Clocked(calls) && i < j < |calls|
    requires StartsAt(calls, i, true) && StartsAt(calls, j, true)
    ensures calls[j].now - calls[i].now >= 60_000
  {
    hide Run, Starts, ArgsOf, InRange;
    BurstsIgnoreExpiry(calls, i);
    BurstsIgnoreExpiry(calls, j);
    assert calls[..j][..i] == calls[..i];
    StartIsRemembered(calls[..j], i);
    ArgsInRange(calls[j]);
    CooldownGuards(HashAt(calls, j, false), ArgsOf(calls[j]));
  }

  // ---- Retrying ----

  lemma {:induction false} CeilIsLeastInteger(x: real, n: int)
    ensures n >= Ceil(x) <==> n as real >= x
  {
  }

  lemma {:induction false} ScaleIff(need: real, rate: real, ms: real)
    requires rate > 0.0
    ensures need / rate * 1000.0 <= ms <==> need * 1000.0 <= ms * rate
  {
    var q := need / rate;
    assert q * rate == need;
    if q * 1000.0 <= ms {
      MulLe(rate, q * 1000.0, ms);
    } else {
      MulLt(rate, ms, q * 1000.0);
    }
  }

  lemma {:induction false} ResetArithmetic(need: real, rate: real, ms: int)
    requires rate > 0.0
    ensures ms >= Ceil(need / rate * 1000.0) <==> ms as real * rate >= need * 1000.0
  {
    ScaleIff(need, rate, ms as real);
    CeilIsLeastInteger(need / rate * 1000.0, ms);
  }

  lemma {:induction false} SecondsScale(ms: int, rate: real)
    ensures Seconds(ms) * rate * 1000.0 == ms as real * rate
  {
    assert Seconds(ms) * 1000.0 == ms as real;
    assert Seconds(ms) * rate * 1000.0 == Seconds(ms) * 1000.0 * rate;
  }

  lemma {:induction false} EnoughRefilledIff(max: real, tokens: real, ms: int, rate: real)
    requires max >= 1.0
    ensures RefillTo(max, tokens, Seconds(ms), rate) >= 1.0 <==> ms as real * rate >= (1.0 - tokens) * 1000.0
  {
    var gained, scaled := Seconds(ms) * rate, ms as real * rate;
    assert gained * 1000.0 == scaled by {
      SecondsScale(ms, rate);
    }
    ReachesOneIff(max, tokens, gained, scaled);
  }

  lemma {:induction false} ReachesOneIff(max: real, tokens: real, gained: real, scaled: real)
    requires max >= 1.0 && gained * 1000.0 == scaled
    ensures RMin(max, tokens + gained) >= 1.0 <==> scaled >= (1.0 - tokens) * 1000.0
  {
  }

  /** After a denial, a later call is allowed exactly when enough has been refilled at its own rate. */
  lemma {:induction false} AfterDenialAllowedIff(h: Option<Hash>, a: Args, next: Args, tier: Tier)
    requires a.now <= next.now && InRange(next, tier) && !Admits(h, a)
    ensures var h' := Some(Stored(h, a));
            Admits(h', next) <==> (next.now - a.now) as real * EffectiveRate(h', next) >= (1.0 - Left(h, a)) * 1000.0
  {
    hide Refilled, RefillTo, EffectiveRate, EffectiveMax, InRange;
    var h' := Some(Stored(h, a));
    RefilledIs(h', next);
    RateBounds(h', next, tier);
    EnoughRefilledIff(EffectiveMax(h', next), Left(h, a), next.now - a.now, EffectiveRate(h', next));
  }

  /** Under the same effective rate, that is exactly from the announced reset time on. */
  lemma {:induction false} ResetTimeIsExact(h: Option<Hash>, a: Args, next: Args, tier: Tier, nextTier: Tier)
    requires a.now <= next.now && InRange(a, tier) && InRange(next, nextTier) && !Admits(h, a)
    requires EffectiveRate(Some(Stored(h, a)), next) == EffectiveRate(h, a)
    ensures Admits(Some(Stored(h, a)), next) <==> next.now >= ResetAt(h, a)
  {
    hide ArgsOf, Refilled, EffectiveRate, EffectiveMax;
    RateBounds(h, a, tier);
    AfterDenialAllowedIff(h, a, next, nextTier);
    ResetArithmetic(1.0 - Left(h, a), EffectiveRate(h, a), next.now - a.now);
    assert ResetAt(h, a) == a.now + Ceil((1.0 - Left(h, a)) / EffectiveRate(h, a) * 1000.0);
  }

  /** The reply to call k of a run. */
  lemma {:induction false} ReplyAt(calls: seq<Call>, k: nat, ttl: bool)
    requires k < |calls|
    ensures |Run(calls, ttl).replies| == |calls|
    ensures Run(calls, ttl).replies[k] == Answer(HashAt(calls, k, ttl), ArgsOf(calls[k]))
  {
    hide ArgsOf, Answer, Stored, Starts;
    var last := |calls| - 1;
    if last > 0 {
      ReplyAt(calls[..last], if k < last then k else 0, ttl);
    }
    if k < last {
      assert calls[..last][..k] == calls[..k];
    }
  }

  lemma {:induction false} RatesIgnoreExpiry(calls: seq<Call>, k: nat)
    requires Clocked(calls) && k < |calls|
    ensures EffectiveRate(HashAt(calls, k, true), ArgsOf(calls[k]))
         == EffectiveRate(HashAt(calls, k, false), ArgsOf(calls[k]))
  {
    hide HashAt, Bursting, ArgsOf;
    BurstsIgnoreExpiry(calls, k);
  }

  lemma {:induction false} NextHash(calls: seq<Call>, k: nat)
    requires k + 1 < |calls|
    ensures HashAt(calls, k + 1, false) == Some(Stored(HashAt(calls, k, false), ArgsOf(calls[k])))
  {
    assert calls[..k + 1][..k] == calls[..k];
  }

  /**
   * Over a run with expiring hashes, when call k is denied: the next call is allowed exactly when enough has been
   * refilled at its own rate, and, if that is also the rate of call k, exactly from the reset time in the denial on.
   */
  lemma {:induction false} RetryAllowedIff(calls: seq<Call>, k: nat)
    requires Clocked(calls) && k + 1 < |calls|
    ensures |Run(calls, true).replies| == |calls|
    ensures var denial, retry := Run(calls, true).replies[k], Run(calls, true).replies[k + 1];
            var rate := EffectiveRate(HashAt(calls, k + 1, true), ArgsOf(calls[k + 1]));
            !denial.allowed ==>
              && (retry.allowed <==>
                   (calls[k + 1].now - calls[k].now) as real * rate >= (1.0 - denial.tokens) * 1000.0)
              && (rate == EffectiveRate(HashAt(calls, k, true), ArgsOf(calls[k])) ==>
                   (retry.allowed <==> calls[k + 1].now >= denial.resetAt))
  {
    hide Run, HashAt, ArgsOf, Stored, InRange, EffectiveRate, Admits, Left, ResetAt;
    ReplyAt(calls, k, false);
    ReplyAt(calls, k + 1, false);
    ExpiryIsUnobservable(calls);
    RatesIgnoreExpiry(calls, k);
    RatesIgnoreExpiry(calls, k + 1);
    NextHash(calls, k);
    ArgsInRange(calls[k]);
    ArgsInRange(calls[k + 1]);
    var h, a, next := HashAt(calls, k, false), ArgsOf(calls[k]), ArgsOf(calls[k + 1]);
    if !Admits(h, a) {
      AfterDenialAllowedIff(h, a, next, calls[k + 1].tier);
      if EffectiveRate(Some(Stored(h, a)), next) == EffectiveRate(h, a) {
        ResetTimeIsExact(h, a, next, calls[k].tier, calls[k + 1].tier);
      }
    }
  }

  const Asking := Call(1000, Free, 0.6)
  const Retrying := Call(1125, Free, 0.0)
  const AtCompliance06: Args := Args(1000, 10.0, 8.0, 30.0, 24.0, 0.6)
  const AtCompliance0: Args := Args(1125, 10.0, 5.0, 30.0, 15.0, 0.0)

  lemma {:induction false} ExampleArgs()
    ensures ArgsOf(Asking) == AtCompliance06 && ArgsOf(Retrying) == AtCompliance0
  {
  }

  lemma {:induction false} ExampleReset()
    ensures ResetTime(1000, 0.0, 8.0) == 1125
  {
    assert (1.0 - 0.0) / 8.0 * 1000.0 == 125.0;
    assert Ceil(125.0) == 125;
  }

  lemma {:induction false} ExampleRefill(tokens: real)
    requires 0.0 <= tokens <= 10.0
    ensures Refilled(Some(Hash(tokens, 1000, 0.0)), AtCompliance06) == tokens
    ensures EffectiveRate(Some(Hash(tokens, 1000, 0.0)), AtCompliance06) == 8.0
    ensures !Starts(Some(Hash(tokens, 1000, 0.0)), AtCompliance06)
  {
    assert Seconds(0) == 0.0;
  }

  lemma {:induction false} ExampleFirst()
    ensures Refilled(None, AtCompliance06) == 10.0 && !Starts(None, AtCompliance06)
  {
  }

  lemma {:induction false} ExampleRetry()
    ensures Refilled(Some(Hash(0.0, 1000, 0.0)), AtCompliance0) == 0.625
  {
    assert Seconds(125) == 0.125;
  }

  /** n calls in the same millisecond. */
  function Asks(n: nat): seq<Call> {
    if n == 0 then [] else Asks(n - 1) + [Asking]
  }

  function TokensLeft(tokens: real): Option<Hash> {
    Some(Hash(tokens, 1000, 0.0))
  }

  lemma {:induction false} AskTakesOne(h: Option<Hash>, tokens: real)
    requires 1.0 <= tokens <= 10.0 && h == if tokens == 10.0 then None else TokensLeft(tokens)
    ensures Some(Stored(Visible(h, 1000), AtCompliance06)) == TokensLeft(tokens - 1.0)
  {
    hide Refilled, Starts;
    if tokens == 10.0 {
      ExampleFirst();
    } else {
      ExampleRefill(tokens);
    }
  }

  /** Each takes one of the ten tokens. */
  lemma {:induction false} AsksDrainTheBucket(n: nat)
    requires n <= 10
    ensures Run(Asks(n), true).h == if n == 0 then None else TokensLeft(10.0 - n as real)
    ensures |Run(Asks(n), true).replies| == n
  {
    hide ArgsOf, Starts, Answer, Stored, Visible, TokensLeft;
    if n > 0 {
      assert Asks(n)[..|Asks(n)| - 1] == Asks(n - 1);
      AsksDrainTheBucket(n - 1);
      ExampleArgs();
      AskTakesOne(Run(Asks(n - 1), true).h, 10.0 - (n - 1) as real);
    }
  }

  /**
   * When the rate falls meanwhile, the announced time is too early: after ten calls in one millisecond the eleventh is
   * denied and told to come back in 125 ms; a call made then, the compliance down from 0.6 to 0, is denied again.
   */
  lemma {:induction false} ResetTimeCanBeTooEarly()
    ensures var replies := Run(Asks(10) + [Asking, Retrying], true).replies;
            && |replies| == 12
            && !replies[10].allowed && replies[10].resetAt == Retrying.now
            && !replies[11].allowed
  {
    hide ArgsOf, Refilled, EffectiveRate, EffectiveMax, ResetTime, Starts, Asks;
    AsksDrainTheBucket(10);
    ExampleArgs();
    ExampleRefill(0.0);
    ExampleReset();
    ExampleRetry();
    var calls := Asks(10) + [Asking, Retrying];
    assert calls[..|calls| - 1] == Asks(10) + [Asking];
    assert (Asks(10) + [Asking])[..|Asks(10) + [Asking]| - 1] == Asks(10);
    var eleventh := Run(Asks(10) + [Asking], true);
    assert eleventh.h == Some(Hash(0.0, 1000, 0.0));
  }

  // ---- How much is admitted ----

  function Admitted(replies: seq<Reply>): int {
    if replies == [] then 0 else Admitted(replies[..|replies| - 1]) + if replies[|replies| - 1].allowed then 1 else 0
  }

  /** The calls from call i on are made at this tier, whatever the earlier ones were. */
  ghost predicate OneTier(calls: seq<Call>, i: nat, tier: Tier) {
    forall k :: i <= k < |calls| ==> calls[k].tier == tier
  }

  /** The seconds from call i to the last one. */
  function Since(calls: seq<Call>, i: nat): real
    requires i < |calls|
  {
    Seconds(calls[|calls| - 1].now - calls[i].now)
  }

  /** The requests admitted from call i on. */
  function AdmittedSince(calls: seq<Call>, i: nat, ttl: bool): int
    requires i < |calls|
  {
    Admitted(Run(calls, ttl).replies) - Admitted(Run(calls[..i], ttl).replies)
  }

  /** Each call takes one token or none. */
  lemma {:induction false} AdmittedStep(h: Option<Hash>, a: Args, replies: seq<Reply>)
    ensures Admitted(replies + [Answer(h, a)]) as real + Left(h, a) == Admitted(replies) as real + Refilled(h, a)
  {
    assert (replies + [Answer(h, a)])[..|replies|] == replies;
  }

  /** A run of one call more. */
  lemma {:induction false} RunStep(calls: seq<Call>, i: nat)
    requires Clocked(calls) && i < |calls|
    ensures var k := |calls| - 1;
            var before, after, a := HashAt(calls, k, false), Run(calls, false), ArgsOf(calls[k]);
            && Valid(before) && NotBefore(before, a.now) && InRange(a, calls[k].tier) && a.now == calls[k].now
            && (k > 0 ==> before.Some? && before.value.lastRefill == calls[k - 1].now)
            && (i < k ==> Since(calls, i) == Since(calls[..k], i) + Elapsed(before, a.now))
            && (i == k ==> Since(calls, i) == 0.0)
            && after.h == Some(Stored(before, a))
            && after.bursts == Run(calls[..k], false).bursts + (if Starts(before, a) then 1 else 0)
            && AdmittedSince(calls, i, false) as real + Left(before, a)
            == (if i < k then AdmittedSince(calls[..k], i, false) else 0) as real + Refilled(before, a)
  {
    hide Valid, InRange, Left, Refilled, Admitted, Answer, Starts;
    var k := |calls| - 1;
    RunIsValid(calls[..k]);
    ArgsInRange(calls[k]);
    AdmittedStep(HashAt(calls, k, false), ArgsOf(calls[k]), Run(calls[..k], false).replies);
    if i < k {
      assert calls[..k][..i] == calls[..i];
    }
  }

  /** Tokens earned at the base rate. */
  function Earned(tier: Tier, seconds: real): real {
    seconds * BaseRate(tier)
  }

  lemma {:induction false} EarnedAdds(tier: Tier, s: real, e: real)
    ensures Earned(tier, s + e) == Earned(tier, s) + Earned(tier, e)
  {
  }

  lemma {:induction false} EarnedFromZero(tier: Tier)
    ensures Earned(tier, 0.0) == 0.0
  {
  }

  lemma {:induction false} RefillWithinBurstRate(h: Option<Hash>, a: Args, tier: Tier)
    requires Valid(h) && h.Some? && NotBefore(h, a.now) && InRange(a, tier)
    ensures Refilled(h, a) <= h.value.tokens + 3.0 * Earned(tier, Elapsed(h, a.now))
  {
    hide EffectiveMax, EffectiveRate, BaseRate, MaxTokens, InRange;
    RateBounds(h, a, tier);
    RefilledIs(h, a);
    MulLe(Elapsed(h, a.now), EffectiveRate(h, a), 3.0 * BaseRate(tier));
    assert Elapsed(h, a.now) * (3.0 * BaseRate(tier)) == 3.0 * (Elapsed(h, a.now) * BaseRate(tier));
  }

  lemma {:induction false} RefillWithinBaseRate(h: Option<Hash>, a: Args, tier: Tier)
    requires Valid(h) && h.Some? && NotBefore(h, a.now) && InRange(a, tier) && !Bursting(h, a)
    ensures Refilled(h, a) <= h.value.tokens + Earned(tier, Elapsed(h, a.now))
  {
    hide RefillTo, Bursting, BaseRate, MaxTokens;
    RefilledIs(h, a);
    PlainGain(h.value.tokens, Elapsed(h, a.now), a.normalRate, BaseRate(tier), a.normalMax);
  }

  /** Wherever an interval begins: admissions and tokens together grow at most at the burst rate. */
  lemma {:induction false} BurstRateBound(calls: seq<Call>, i: nat, tier: Tier)
    requires Clocked(calls) && OneTier(calls, i, tier) && i < |calls|
    ensures var h := Run(calls, false).h;
            && h.Some?
            && AdmittedSince(calls, i, false) as real + h.value.tokens
               <= 3.0 * MaxTokens(tier) + 3.0 * Earned(tier, Since(calls, i))
  {
    hide ArgsOf, Refilled, EffectiveMax, Left, MaxTokens, Earned, AdmittedSince, Run, InRange, Since, HashAt;
    var k := |calls| - 1;
    RunStep(calls, i);
    var before, a := HashAt(calls, k, false), ArgsOf(calls[k]);
    if i < k {
      BeforeIsRun(calls, k);
      BurstRateBound(calls[..k], i, tier);
      RefillWithinBurstRate(before, a, tier);
      EarnedAdds(tier, Since(calls[..k], i), Elapsed(before, a.now));
    } else {
      RefilledBounds(before, a, tier);
      RateBounds(before, a, tier);
      EarnedFromZero(tier);
    }
  }

  lemma {:induction false} BeforeIsRun(calls: seq<Call>, k: nat)
    requires k < |calls|
    ensures HashAt(calls, k, false) == Run(calls[..k], false).h
  {
  }

  /** While no call is served at burst capacity, at the base rate. */
  lemma {:induction false} BaseRateBound(calls: seq<Call>, i: nat, tier: Tier)
    requires Clocked(calls) && OneTier(calls, i, tier) && i < |calls|
    requires forall k :: i <= k < |calls| ==> !BurstingAt(calls, k, false)
    ensures var h := Run(calls, false).h;
            && h.Some?
            && AdmittedSince(calls, i, false) as real + h.value.tokens
               <= MaxTokens(tier) + Earned(tier, Since(calls, i))
  {
    hide ArgsOf, Refilled, Left, MaxTokens, Earned, AdmittedSince, Run, InRange, Since, HashAt, Bursting;
    var k := |calls| - 1;
    RunStep(calls, i);
    var before, a := HashAt(calls, k, false), ArgsOf(calls[k]);
    assert BurstingAt(calls, k, false) == Bursting(before, a);
    if i < k {
      BeforeIsRun(calls, k);
      forall j | i <= j < k ensures !BurstingAt(calls[..k], j, false) {
        PrefixHash(calls, k, j);
        assert !BurstingAt(calls, j, false);
      }
      BaseRateBound(calls[..k], i, tier);
      RefillWithinBaseRate(before, a, tier);
      EarnedAdds(tier, Since(calls[..k], i), Elapsed(before, a.now));
    } else {
      RefilledBounds(before, a, tier);
      PlainCapacity(before, a, tier);
      EarnedFromZero(tier);
    }
  }

  lemma {:induction false} PrefixHash(calls: seq<Call>, k: nat, j: nat)
    requires j < k <= |calls|
    ensures HashAt(calls[..k], j, false) == HashAt(calls, j, false)
  {
    assert calls[..k][..j] == calls[..j];
  }

  lemma {:induction false} PlainCapacity(h: Option<Hash>, a: Args, tier: Tier)
    requires InRange(a, tier) && !Bursting(h, a)
    ensures EffectiveMax(h, a) == MaxTokens(tier)
  {
  }

  // ---- The long-run rate ----

  /** Seconds of the running burst that are still to come. */
  function BurstLeft(h: Hash): real {
    if h.burstAt == 0.0 then 0.0 else RMax(0.0, BURST_DURATION_S - (Seconds(h.lastRefill) - h.burstAt))
  }

  /** What one burst can add: twice the capacity when it starts, and twice the base rate while it lasts. */
  function BurstAllowance(tier: Tier): real {
    2.0 * MaxTokens(tier) + 2.0 * BURST_DURATION_S * BaseRate(tier)
  }

  /** Tokens, with what the running burst may still add. */
  function Potential(h: Hash, tier: Tier): real {
    h.tokens + 2.0 * Earned(tier, BurstLeft(h))
  }

  /** The first call of an interval, whatever it finds. */
  lemma {:induction false} FirstPotential(h: Option<Hash>, a: Args, tier: Tier)
    requires Valid(h) && NotBefore(h, a.now) && InRange(a, tier)
    ensures Refilled(h, a) - Left(h, a) + Potential(Stored(h, a), tier)
         <= MaxTokens(tier) + if Bursting(h, a) then BurstAllowance(tier) else 0.0
  {
    hide Refilled, RefillTo, Left, InBurst, CanBurst, BurstLeft;
    RefilledBounds(h, a, tier);
    BurstLeftIsBounded(h, a);
  }

  lemma {:induction false} BurstLeftIsBounded(h: Option<Hash>, a: Args)
    requires Valid(h) && NotBefore(h, a.now) && a.now > 0
    ensures 0.0 <= BurstLeft(Stored(h, a)) <= if Bursting(h, a) then BURST_DURATION_S else 0.0
  {
    hide Left;
    assert h.Some? ==> Seconds(h.value.lastRefill) <= Seconds(a.now);
  }

  lemma {:induction false} BurstLeftStep(h: Option<Hash>, a: Args)
    requires Valid(h) && h.Some? && NotBefore(h, a.now) && a.now > 0
    ensures 0.0 <= BurstLeft(h.value)
    ensures Starts(h, a) ==> BurstLeft(Stored(h, a)) == BURST_DURATION_S
    ensures !Starts(h, a) && InBurst(BurstAt(h), Seconds(a.now)) ==>
              BurstLeft(Stored(h, a)) == BurstLeft(h.value) - Elapsed(h, a.now)
    ensures !Starts(h, a) && !InBurst(BurstAt(h), Seconds(a.now)) ==> BurstLeft(Stored(h, a)) == 0.0
  {
    hide Left;
  }

  /** Starting a burst gains at most twice the capacity over refilling at the base rate. */
  lemma {:induction false} StartingGain(x: real, elapsed: real, rate: real, base: real, max: real)
    requires 0.0 <= x && 0.0 <= elapsed && 0.0 <= rate <= base
    ensures RefillTo(3.0 * max, x, elapsed, 3.0 * rate) <= x + elapsed * base + 2.0 * max
  {
    MulLe(elapsed, rate, base);
    assert elapsed * (3.0 * rate) == 3.0 * (elapsed * rate);
  }

  /** During a burst the gain over the base rate is paid for by the time that passes. */
  lemma {:induction false} RunningGain(x: real, elapsed: real, rate: real, base: real, max: real, left: real)
    requires 0.0 <= elapsed && rate <= base
    ensures RefillTo(max, x, elapsed, 3.0 * rate) + 2.0 * ((left - elapsed) * base)
              <= x + elapsed * base + 2.0 * (left * base)
  {
    MulLe(elapsed, rate, base);
    assert elapsed * (3.0 * rate) == 3.0 * (elapsed * rate);
    assert (left - elapsed) * base == left * base - elapsed * base;
  }

  lemma {:induction false} PlainGain(x: real, elapsed: real, rate: real, base: real, max: real)
    requires 0.0 <= elapsed && rate <= base
    ensures RefillTo(max, x, elapsed, rate) <= x + elapsed * base
  {
    MulLe(elapsed, rate, base);
  }

  /** Each call adds at most what refills at the base rate, plus one allowance when it starts a burst. */
  lemma {:induction false} PotentialStep(h: Option<Hash>, a: Args, tier: Tier)
    requires Valid(h) && h.Some? && NotBefore(h, a.now) && InRange(a, tier)
    ensures Refilled(h, a) - Left(h, a) + Potential(Stored(h, a), tier)
         <= Potential(h.value, tier) + Earned(tier, Elapsed(h, a.now))
            + if Starts(h, a) then BurstAllowance(tier) else 0.0
  {
    hide Refilled, RefillTo, Left, BurstLeft, BaseRate, MaxTokens, InBurst, CanBurst;
    var x, elapsed, base := h.value.tokens, Elapsed(h, a.now), BaseRate(tier);
    BaseRateIsPositive(tier);
    RefilledIs(h, a);
    BurstLeftStep(h, a);
    MulNonNegative(BurstLeft(h.value), base);
    if Starts(h, a) {
      StartingGain(x, elapsed, a.normalRate, base, MaxTokens(tier));
    } else if InBurst(BurstAt(h), Seconds(a.now)) {
      RunningGain(x, elapsed, a.normalRate, base, a.burstMax, BurstLeft(h.value));
    } else {
      PlainGain(x, elapsed, a.normalRate, base, a.normalMax);
    }
  }

  lemma {:induction false} BaseRateIsPositive(tier: Tier)
    ensures 0.0 < BaseRate(tier)
  {
  }

  /** What n bursts may add. */
  function BurstBudget(tier: Tier, n: int): real {
    n as real * BurstAllowance(tier)
  }

  lemma {:induction false} BurstBudgetAdds(tier: Tier, n: int)
    ensures BurstBudget(tier, n + 1) == BurstBudget(tier, n) + BurstAllowance(tier)
    ensures BurstBudget(tier, 0) == 0.0
  {
    hide BurstAllowance;
    assert (n + 1) as real == n as real + 1.0;
  }

  /** The bursts that can serve calls from call i on: one that was running already, and those that started since. */
  function BurstsSince(calls: seq<Call>, i: nat): int
    requires i < |calls|
  {
    Run(calls, false).bursts - Run(calls[..i], false).bursts + if OlderBurstAt(calls, i, false) then 1 else 0
  }

  lemma {:induction false} BurstsSinceStep(calls: seq<Call>, i: nat)
    requires i < |calls|
    ensures var k := |calls| - 1;
            && (i < k ==>
                  BurstsSince(calls, i) == BurstsSince(calls[..k], i) + if StartsAt(calls, k, false) then 1 else 0)
            && (i == k ==> BurstsSince(calls, i) == if BurstingAt(calls, k, false) then 1 else 0)
  {
    hide Answer, Left, ArgsOf;
    ArgsKeepTheClock(calls[i]);
    if i < |calls| - 1 {
      PrefixHash(calls, |calls| - 1, i);
      assert calls[..|calls| - 1][..i] == calls[..i];
    }
  }

  lemma {:induction false} ArgsKeepTheClock(c: Call)
    ensures ArgsOf(c).now == c.now
  {
  }

  /** Wherever an interval begins: admissions and potential grow at the base rate, plus one allowance per burst. */
  lemma {:induction false} PotentialBound(calls: seq<Call>, i: nat, tier: Tier)
    requires Clocked(calls) && OneTier(calls, i, tier) && i < |calls|
    ensures var h := Run(calls, false).h;
            && h.Some?
            && AdmittedSince(calls, i, false) as real + Potential(h.value, tier)
               <= MaxTokens(tier) + Earned(tier, Since(calls, i)) + BurstBudget(tier, BurstsSince(calls, i))
  {
    hide ArgsOf, Refilled, EffectiveMax, Left, MaxTokens, Earned, AdmittedSince, Run, InRange, BurstBudget;
    hide BurstAllowance, Potential, Starts, Bursting, Since, HashAt, BurstsSince;
    var k := |calls| - 1;
    RunStep(calls, i);
    BurstsSinceStep(calls, i);
    var before, a := HashAt(calls, k, false), ArgsOf(calls[k]);
    if i < k {
      BeforeIsRun(calls, k);
      PotentialBound(calls[..k], i, tier);
      PotentialStep(before, a, tier);
      BurstBudgetAdds(tier, BurstsSince(calls[..k], i));
      EarnedAdds(tier, Since(calls[..k], i), Elapsed(before, a.now));
    } else {
      FirstPotential(before, a, tier);
      BurstBudgetAdds(tier, 0);
      EarnedFromZero(tier);
    }
  }

  /** The earliest start of a burst that serves calls from call i on. */
  function FirstStart(calls: seq<Call>, i: nat): real
    requires i < |calls|
  {
    if OlderBurstAt(calls, i, false) then BurstAt(HashAt(calls, i, false)) else Seconds(calls[i].now)
  }

  /** n bursts, the first no earlier than `first` and the last one stored, fit into the time between. */
  predicate Fit(n: int, burstAt: real, first: real, now: real) {
    n > 0 ==> first <= burstAt <= now && n as real * BURST_COOLDOWN_S <= burstAt - first + BURST_COOLDOWN_S
  }

  lemma {:induction false} OneBurstMoreFits(h: Option<Hash>, a: Args, first: real, n: int, earlier: real)
    requires n >= 0 && 0.0 < first <= Seconds(a.now) && earlier <= Seconds(a.now)
    requires Fit(n, BurstAt(h), first, earlier)
    ensures Fit(n + if Starts(h, a) then 1 else 0, Stored(h, a).burstAt, first, Seconds(a.now))
  {
    hide Left;
    if Starts(h, a) && n > 0 {
      CooldownGuards(h, a);
    }
  }

  /** They are at least the cooldown apart, so they are few. */
  lemma {:induction false} BurstsAreFew(calls: seq<Call>, i: nat)
    requires Clocked(calls) && i < |calls|
    ensures var h, n := Run(calls, false).h, BurstsSince(calls, i);
            && h.Some? && n >= 0
            && Fit(n, h.value.burstAt, FirstStart(calls, i), Seconds(calls[|calls| - 1].now))
    ensures 0.0 < FirstStart(calls, i) <= Seconds(calls[i].now)
  {
    hide Refilled, Left, BaseRate, MaxTokens, AdmittedSince, Run, HashAt, BurstsSince, ArgsOf, InRange, Since, CanBurst;
    var k := |calls| - 1;
    RunStep(calls, i);
    BurstsSinceStep(calls, i);
    var before, a := HashAt(calls, k, false), ArgsOf(calls[k]);
    if i < k {
      BeforeIsRun(calls, k);
      PrefixHash(calls, k, i);
      BurstsAreFew(calls[..k], i);
      assert Seconds(calls[i].now) <= Seconds(calls[k - 1].now) <= Seconds(calls[k].now);
      OneBurstMoreFits(before, a, FirstStart(calls, i), BurstsSince(calls[..k], i), Seconds(calls[k - 1].now));
    } else {
      assert before.Some? ==> Seconds(before.value.lastRefill) <= Seconds(a.now);
    }
  }

  lemma {:induction false} BudgetFromGap(tier: Tier, bursts: int, time: real)
    requires bursts as real * BURST_COOLDOWN_S <= time + BURST_COOLDOWN_S
    ensures BurstBudget(tier, bursts) <= (time / BURST_COOLDOWN_S + 1.0) * BurstAllowance(tier)
  {
    MulLe(BurstAllowance(tier), bursts as real, time / BURST_COOLDOWN_S + 1.0);
  }

  lemma {:induction false} PotentialIsNotNegative(h: Hash, tier: Tier)
    requires h.tokens >= 0.0
    ensures Potential(h, tier) >= 0.0
  {
    MulNonNegative(BurstLeft(h), BaseRate(tier));
  }

  /** The bursts of an interval, by the time it takes. */
  lemma {:induction false} BurstsFitTheTime(calls: seq<Call>, i: nat)
    requires Clocked(calls) && i < |calls|
    ensures var n := BurstsSince(calls, i) as real * BURST_COOLDOWN_S;
            && n <= Since(calls, i) + BURST_DURATION_S + BURST_COOLDOWN_S
            && (!OlderBurstAt(calls, i, false) ==> n <= Since(calls, i) + BURST_COOLDOWN_S)
  {
    hide Run, HashAt, BurstsSince;
    BurstsAreFew(calls, i);
    assert Since(calls, i) == Seconds(calls[|calls| - 1].now) - Seconds(calls[i].now) >= 0.0;
    assert OlderBurstAt(calls, i, false) ==> Seconds(calls[i].now) - FirstStart(calls, i) < BURST_DURATION_S;
  }

  lemma {:induction false} AdmittedIgnoresExpiry(calls: seq<Call>, i: nat)
    requires Clocked(calls) && i < |calls|
    ensures AdmittedSince(calls, i, true) == AdmittedSince(calls, i, false)
  {
    ExpiryIsUnobservable(calls);
    ExpiryIsUnobservable(calls[..i]);
  }

  /**
   * Over any interval of calls of one tier in the life of a bucket, with hashes expiring as they do, the requests
   * admitted from call i to the last call stay within three buckets plus three times the base rate; within one bucket
   * plus the base rate while no call is served at burst capacity; and in the long run within the base rate plus one
   * allowance per cooldown, where a burst that was running already when the interval began counts from its own start.
   */
  lemma {:induction false} AdmissionsAreBounded(calls: seq<Call>, i: nat, tier: Tier)
    requires Clocked(calls) && OneTier(calls, i, tier) && i < |calls|
    ensures var admitted, time := AdmittedSince(calls, i, true) as real, Since(calls, i);
            && admitted <= 3.0 * MaxTokens(tier) + 3.0 * Earned(tier, time)
            && ((forall k :: i <= k < |calls| ==> !BurstingAt(calls, k, true)) ==>
                  admitted <= MaxTokens(tier) + Earned(tier, time))
            && admitted <= MaxTokens(tier) + Earned(tier, time)
                           + ((time + BURST_DURATION_S) / BURST_COOLDOWN_S + 1.0) * BurstAllowance(tier)
            && (!OlderBurstAt(calls, i, true) ==>
                  admitted <= MaxTokens(tier) + Earned(tier, time)
                      + (time / BURST_COOLDOWN_S + 1.0) * BurstAllowance(tier))
  {
    hide BurstAllowance, BurstBudget, BurstLeft, BaseRate, MaxTokens, Run, Admitted, Potential, Earned, AdmittedSince;
    hide Since, BurstsSince, BurstingAt, OlderBurstAt, FirstStart;
    AdmittedIgnoresExpiry(calls, i);
    RunIsValid(calls);
    BurstRateBound(calls, i, tier);
    PotentialBound(calls, i, tier);
    PotentialIsNotNegative(Run(calls, false).h.value, tier);
    BurstsFitTheTime(calls, i);
    BudgetFromGap(tier, BurstsSince(calls, i), Since(calls, i) + BURST_DURATION_S);
    BurstsIgnoreExpiry(calls, i);
    if !OlderBurstAt(calls, i, true) {
      BudgetFromGap(tier, BurstsSince(calls, i), Since(calls, i));
    }
    if forall k :: i <= k < |calls| ==> !BurstingAt(calls, k, true) {
      forall k | i <= k < |calls| ensures !BurstingAt(calls, k, false) {
        BurstsIgnoreExpiry(calls, k);
      }
      BaseRateBound(calls, i, tier);
    }
  }
}
