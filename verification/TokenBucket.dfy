/**
 * The token bucket with bursts: one stored hash per device, a script that refills and takes one token,
 * and a time to live after which the hash is gone. Times are in milliseconds; quantities are reals.
 */
module TokenBucket {
  import opened Sequences

  const BUCKET_TTL_S: int := 3600
  const BURST_MULTIPLIER: real := 3.0
  const BURST_DURATION_S: real := 5.0
  const BURST_COOLDOWN_S: real := 60.0
  const COMPLIANCE_BURST_THRESHOLD: real := 0.95

  datatype Tier = Free | Standard | Enterprise

  function BaseRate(t: Tier): real {
    match t case Free => 10.0 case Standard => 100.0 case Enterprise => 500.0
  }

  function MaxTokens(t: Tier): real {
    match t case Free => 10.0 case Standard => 100.0 case Enterprise => 500.0
  }

  datatype Hash = Hash(tokens: real, lastRefill: int, burstAt: real)

  /** One checkLimit call: clock, tier and the compliance of the device's profile. */
  datatype Call = Call(now: int, tier: Tier, historicalCompliance: real)

  datatype Reply = Reply(tokens: real, effectiveMax: real, resetAt: int, allowed: bool)

  datatype RateLimitResult = RateLimitResult(
      allowed: bool, tokensRemaining: int, maxTokens: real, resetAtMs: int, retryAfterMs: Option<int>)

  // ---- The arithmetic of checkLimit and of the script ----

  function Seconds(ms: int): real {
    ms as real / 1000.0
  }

  function RMin(a: real, b: real): real {
    if b < a then b else a
  }

  function RMax(a: real, b: real): real {
    if b > a then b else a
  }

  function Ceil(x: real): int {
    if x.Floor as real == x then x.Floor else x.Floor + 1
  }

  /** The arguments checkLimit passes to the script. */
  datatype Args = Args(now: int, normalMax: real, normalRate: real, burstMax: real, burstRate: real, compliance: real)

  function ArgsOf(c: Call): Args {
    var compliance := RMax(0.0, RMin(1.0, c.historicalCompliance));
    var rate := BaseRate(c.tier) * (0.5 + 0.5 * compliance);
    Args(c.now, MaxTokens(c.tier), rate, MaxTokens(c.tier) * BURST_MULTIPLIER, rate * BURST_MULTIPLIER, compliance)
  }

  function BurstAt(h: Option<Hash>): real {
    if h.Some? then h.value.burstAt else 0.0
  }

  predicate InBurst(burstAt: real, now: real) {
    burstAt > 0.0 && now - burstAt < BURST_DURATION_S
  }

  predicate CanBurst(burstAt: real, a: Args) {
    && a.compliance > COMPLIANCE_BURST_THRESHOLD
    && (burstAt == 0.0 || Seconds(a.now) - burstAt >= BURST_COOLDOWN_S)
  }

  /** This call starts a burst. */
  predicate Starts(h: Option<Hash>, a: Args) {
    CanBurst(BurstAt(h), a) && !InBurst(BurstAt(h), Seconds(a.now))
  }

  /** This call is served at burst capacity. */
  predicate Bursting(h: Option<Hash>, a: Args) {
    Starts(h, a) || InBurst(BurstAt(h), Seconds(a.now))
  }

  function EffectiveMax(h: Option<Hash>, a: Args): real {
    if Bursting(h, a) then a.burstMax else a.normalMax
  }

  function EffectiveRate(h: Option<Hash>, a: Args): real {
    if Bursting(h, a) then a.burstRate else a.normalRate
  }

  function RefillTo(max: real, tokens: real, elapsed: real, rate: real): real {
    RMin(max, tokens + elapsed * rate)
  }

  function ResetTime(now: int, tokens: real, rate: real): int {
    if rate > 0.0 && tokens < 1.0 then now + Ceil((1.0 - tokens) / rate * 1000.0) else now
  }

  /** The tokens at hand when the call is decided. */
  function Refilled(h: Option<Hash>, a: Args): real {
    match h
    case None => EffectiveMax(h, a)
    case Some(b) => RefillTo(EffectiveMax(h, a), b.tokens, Seconds(a.now - b.lastRefill), EffectiveRate(h, a))
  }

  predicate Admits(h: Option<Hash>, a: Args) {
    Refilled(h, a) >= 1.0
  }

  function Left(h: Option<Hash>, a: Args): real {
    if Admits(h, a) then Refilled(h, a) - 1.0 else Refilled(h, a)
  }

  function ResetAt(h: Option<Hash>, a: Args): int {
    ResetTime(a.now, Left(h, a), EffectiveRate(h, a))
  }

  function Stored(h: Option<Hash>, a: Args): Hash {
    Hash(Left(h, a), a.now, if Starts(h, a) then Seconds(a.now) else BurstAt(h))
  }

  function Answer(h: Option<Hash>, a: Args): Reply {
    Reply(Left(h, a), EffectiveMax(h, a), ResetAt(h, a), Admits(h, a))
  }

  /** What Redis still holds at the time of a call: the hash is gone once its time to live has passed. */
  function Visible(h: Option<Hash>, now: int): Option<Hash> {
    if h.Some? && now >= h.value.lastRefill + BUCKET_TTL_S * 1000 then None else h
  }

  lemma {:induction false} RefillNothing(max: real, rate: real)
    ensures RefillTo(max, max, 0.0, rate) == max
  {
  }

  class RedisBucket {
    var stored: Option<Hash>

    constructor ()
      ensures stored == None
    {
      stored := None;
    }

    /** BUCKET_LUA */
    method BucketScript(a: Args) returns (tokens: real, effectiveMax: real, resetAt: int, allowed: bool)
      modifies this
      ensures var h := Visible(old(stored), a.now);
              && Reply(tokens, effectiveMax, resetAt, allowed) == Answer(h, a)
              && stored == Some(Stored(h, a))
    {
      hide RefillTo, ResetTime;
      var now := a.now as real / 1000.0;
      if stored.Some? && a.now >= stored.value.lastRefill + BUCKET_TTL_S * 1000 {
        stored := None;  // EXPIRE
      }
      ghost var h := stored;
      var burstAt := if stored.Some? then stored.value.burstAt else 0.0;
      var inBurst := burstAt > 0.0 && now - burstAt < BURST_DURATION_S;
      var canBurst := a.compliance > COMPLIANCE_BURST_THRESHOLD
          && (burstAt == 0.0 || now - burstAt >= BURST_COOLDOWN_S);
      if canBurst && !inBurst {
        burstAt := now;
        inBurst := true;
      }
      effectiveMax := if inBurst then a.burstMax else a.normalMax;
      var effectiveRate := if inBurst then a.burstRate else a.normalRate;
      var lastRefill := a.now;
      if stored.None? {
        tokens := effectiveMax;
      } else {
        tokens := stored.value.tokens;
        lastRefill := stored.value.lastRefill;
      }
      var elapsed := (a.now - lastRefill) as real / 1000.0;
      RefillNothing(effectiveMax, effectiveRate);
      tokens := RefillTo(effectiveMax, tokens, elapsed, effectiveRate);
      assert tokens == Refilled(h, a);
      lastRefill := a.now;
      allowed := false;
      if tokens >= 1.0 {
        tokens := tokens - 1.0;
        allowed := true;
      }
      resetAt := ResetTime(a.now, tokens, effectiveRate);
      stored := Some(Hash(tokens, lastRefill, burstAt));
    }

    method CheckLimit(c: Call) returns (result: RateLimitResult)
      modifies this
      ensures var h, a := Visible(old(stored), c.now), ArgsOf(c);
              && stored == Some(Stored(h, a))
              && result.allowed == Admits(h, a)
              && result.tokensRemaining == Left(h, a).Floor
              && result.maxTokens == EffectiveMax(h, a)
              && result.resetAtMs == ResetAt(h, a)
              && result.retryAfterMs == (if Admits(h, a) then None
                                         else Some(if ResetAt(h, a) - c.now > 0 then ResetAt(h, a) - c.now else 0))
    {
      var compliance := RMax(0.0, RMin(1.0, c.historicalCompliance));
      var effectiveRate := BaseRate(c.tier) * (0.5 + 0.5 * compliance);
      var burstRate := effectiveRate * BURST_MULTIPLIER;
      var burstMax := MaxTokens(c.tier) * BURST_MULTIPLIER;
      var a := Args(c.now, MaxTokens(c.tier), effectiveRate, burstMax, burstRate, compliance);
      var tokens, max, resetAt, allowed := BucketScript(a);
      var wait := if resetAt - c.now > 0 then resetAt - c.now else 0;
      return RateLimitResult(allowed, tokens.Floor, max, resetAt, if allowed then None else Some(wait));
    }
  }
}
