/** What one call of the token bucket amounts to in numbers, and two bounds from below on what it admits. */
module TokenBucketEffects {
  import opened Sequences
  import opened TokenBucket
  import opened TokenBucketBounds

  /** The compliance, held between 0 and 1. */
  function Clamped(c: Call): real {
    if c.historicalCompliance < 0.0 then 0.0 else if c.historicalCompliance > 1.0 then 1.0 else c.historicalCompliance
  }

  function Capacity(tier: Tier): real {
    if tier.Free? then 10.0 else if tier.Standard? then 100.0 else 500.0
  }

  /**
   * When bursts start and what they change. A burst starts with a compliance above 0.95 when there was none before, or
   * the last one started 60 seconds ago; it lasts 5 seconds, in which capacity and refill are tripled. The refill per
   * second is the tier's capacity, down to half of it for a compliance of 0.
   */
  lemma {:induction false} BurstsInNumbers(h: Option<Hash>, c: Call)
    ensures var a := ArgsOf(c); var now := c.now as real / 1000.0;
            var last := if h.Some? then h.value.burstAt else 0.0;
            var factor := if Bursting(h, a) then 3.0 else 1.0;
            && (Starts(h, a) <==>
                 Clamped(c) > 0.95 && (last == 0.0 || now - last >= 60.0) && !(0.0 < last && now - last < 5.0))
            && (Bursting(h, a) <==> Starts(h, a) || (0.0 < last && now - last < 5.0))
            && EffectiveMax(h, a) == factor * Capacity(c.tier)
            && EffectiveRate(h, a) == factor * (Capacity(c.tier) * (0.5 + 0.5 * Clamped(c)))
  {
    ArgsInNumbers(c);
  }

  lemma {:induction false} ArgsInNumbers(c: Call)
    ensures var a := ArgsOf(c);
            && a.now == c.now && a.compliance == Clamped(c)
            && a.normalMax == Capacity(c.tier) && a.normalRate == Capacity(c.tier) * (0.5 + 0.5 * Clamped(c))
            && a.burstMax == 3.0 * a.normalMax && a.burstRate == 3.0 * a.normalRate
  {
  }

  /**
   * A call finds a new bucket full, and another one as it was left, plus what was refilled since, up to the capacity.
   * It is allowed exactly when that is at least one, then takes one; what is left is stored, with the time.
   */
  lemma {:induction false} CallTakesOne(h: Option<Hash>, c: Call)
    ensures var a := ArgsOf(c); var r, h' := Answer(h, a), Stored(h, a);
            var refilled := if h.None? then EffectiveMax(h, a)
                            else h.value.tokens + (c.now - h.value.lastRefill) as real / 1000.0 * EffectiveRate(h, a);
            var found := if refilled <= EffectiveMax(h, a) then refilled else EffectiveMax(h, a);
            && (r.allowed <==> found >= 1.0)
            && r.tokens == (if r.allowed then found - 1.0 else found)
            && r.effectiveMax == EffectiveMax(h, a)
            && h'.tokens == r.tokens && h'.lastRefill == c.now
            && h'.burstAt == (if Starts(h, a) then c.now as real / 1000.0 else if h.Some? then h.value.burstAt else 0.0)
  {
    hide EffectiveMax, EffectiveRate, Starts;
    ArgsInNumbers(c);
  }

  // ---- Bounds from below ----

  /** n calls like this one in the same millisecond. */
  function Same(c: Call, n: nat): seq<Call> {
    if n == 0 then [] else Same(c, n - 1) + [c]
  }

  function Cap(c: Call): real {
    if Clamped(c) > 0.95 then 3.0 * Capacity(c.tier) else Capacity(c.tier)
  }

  /** What the n-th of them leaves. */
  function LeftAfter(c: Call, n: nat): Hash
    requires n > 0
  {
    Hash(if n as real <= Cap(c) then Cap(c) - n as real else 0.0, c.now,
         if Clamped(c) > 0.95 then c.now as real / 1000.0 else 0.0)
  }

  lemma {:induction false} FirstOfSame(c: Call)
    requires c.now > 0
    ensures Stored(None, ArgsOf(c)) == LeftAfter(c, 1) && Admits(None, ArgsOf(c))
  {
    hide Starts, EffectiveMax, EffectiveRate;
    CallTakesOne(None, c);
    BurstsInNumbers(None, c);
  }

  lemma {:induction false} NextOfSame(c: Call, n: nat)
    requires c.now > 0 && n > 0
    ensures var h := Some(LeftAfter(c, n));
            && Visible(h, c.now) == h
            && Stored(h, ArgsOf(c)) == LeftAfter(c, n + 1)
            && (Admits(h, ArgsOf(c)) <==> (n + 1) as real <= Cap(c))
  {
    hide Starts, EffectiveMax, EffectiveRate, Bursting;
    var h := Some(LeftAfter(c, n));
    CallTakesOne(h, c);
    BurstsInNumbers(h, c);
    assert (n + 1) as real == n as real + 1.0;
    assert (c.now - h.value.lastRefill) as real / 1000.0 * EffectiveRate(h, ArgsOf(c)) == 0.0;
    CapIsWhole(c, n);
  }

  /** The capacities are whole numbers, so what is left of one is never a fraction. */
  lemma {:induction false} CapIsWhole(c: Call, n: nat)
    ensures Cap(c) - n as real >= 1.0 <==> Cap(c) >= n as real + 1.0
    ensures n as real < Cap(c) ==> n as real + 1.0 <= Cap(c)
  {
    var whole: int := if Clamped(c) > 0.95 then 3 * WholeCapacity(c.tier) else WholeCapacity(c.tier);
    assert Cap(c) == whole as real;
  }

  function WholeCapacity(tier: Tier): int {
    if tier.Free? then 10 else if tier.Standard? then 100 else 500
  }

  lemma {:induction false} SameLeaves(c: Call, n: nat)
    requires c.now > 0
    ensures var t := Run(Same(c, n), true);
            && t.h == (if n == 0 then None else Some(LeftAfter(c, n)))
            && |t.replies| == n && forall k :: 0 <= k < n ==> (t.replies[k].allowed <==> (k + 1) as real <= Cap(c))
  {
    hide ArgsOf, Stored, Visible, LeftAfter, Starts, Left, ResetAt, EffectiveMax, Admits, Cap;
    if n > 0 {
      assert Same(c, n)[..|Same(c, n)| - 1] == Same(c, n - 1);
      SameLeaves(c, n - 1);
      if n == 1 {
        FirstOfSame(c);
        NothingVisible(c.now);
        OneFits(c);
      } else {
        NextOfSame(c, n - 1);
      }
    }
  }

  lemma {:induction false} NothingVisible(now: int)
    ensures Visible(None, now) == None
  {
  }

  lemma {:induction false} OneFits(c: Call)
    ensures 1.0 <= Cap(c)
  {
  }

  /**
   * A new bucket serves exactly its capacity at once: of any number of calls in one millisecond the first 10, 100 or
   * 500 are allowed, three times as many with a compliance above 0.95, and no more.
   */
  lemma {:induction false} NewBucketServesItsCapacity(c: Call, n: nat)
    requires c.now > 0
    ensures var replies := Run(Same(c, n), true).replies;
            |replies| == n && forall k :: 0 <= k < n ==> (replies[k].allowed <==> (k + 1) as real <= Cap(c))
  {
    SameLeaves(c, n);
  }

  /** The k-th call comes at least two refills of its tier after the one before. */
  predicate ComesSlowly(calls: seq<Call>, k: nat)
    requires 0 < k < |calls|
  {
    (calls[k].now - calls[k - 1].now) as real / 1000.0 * Capacity(calls[k].tier) >= 2.0
  }

  /** Whoever waits long enough for two tokens at the full rate is always served, whatever the compliance. */
  lemma {:induction false} SlowCallersAreNeverDenied(calls: seq<Call>, k: nat)
    requires Clocked(calls) && k < |calls| && (k > 0 ==> ComesSlowly(calls, k))
    ensures |Run(calls, true).replies| == |calls| && Run(calls, true).replies[k].allowed
  {
    hide Run, HashAt, ArgsOf, Answer, Stored, Starts, Refilled, EffectiveMax, EffectiveRate;
    ExpiryIsUnobservable(calls);
    ReplyAt(calls, k, false);
    var h, a := HashAt(calls, k, false), ArgsOf(calls[k]);
    ArgsInRange(calls[k]);
    if k == 0 {
      FirstFindsNothing(calls);
      RefilledWithoutHash(a);
      RateBounds(None, a, calls[0].tier);
    } else {
      FindsTheLastCall(calls, k);
      RefilledIs(h, a);
      RateBounds(h, a, calls[k].tier);
      HalfRateAtLeast(h, calls[k]);
      TwoHalvesAreOne(
        h.value.tokens, Elapsed(h, a.now), EffectiveRate(h, a), Capacity(calls[k].tier), EffectiveMax(h, a));
    }
    AllowedIsAdmitted(h, a);
  }

  lemma {:induction false} AllowedIsAdmitted(h: Option<Hash>, a: Args)
    ensures Answer(h, a).allowed <==> Refilled(h, a) >= 1.0
  {
  }

  lemma {:induction false} FirstFindsNothing(calls: seq<Call>)
    requires |calls| > 0
    ensures HashAt(calls, 0, false) == None
  {
    assert calls[..0] == [];
  }

  lemma {:induction false} FindsTheLastCall(calls: seq<Call>, k: nat)
    requires Clocked(calls) && 0 < k < |calls|
    ensures var h := HashAt(calls, k, false);
            && h.Some? && h.value.tokens >= 0.0
            && Elapsed(h, calls[k].now) == (calls[k].now - calls[k - 1].now) as real / 1000.0
  {
    RunIsValid(calls[..k]);
  }

  lemma {:induction false} HalfRateAtLeast(h: Option<Hash>, c: Call)
    ensures EffectiveRate(h, ArgsOf(c)) >= Capacity(c.tier) / 2.0
  {
    BurstsInNumbers(h, c);
  }

  lemma {:induction false} TwoHalvesAreOne(tokens: real, elapsed: real, rate: real, capacity: real, max: real)
    requires tokens >= 0.0 && elapsed * capacity >= 2.0 && rate >= capacity / 2.0 && max >= 1.0 && capacity > 0.0
    ensures RefillTo(max, tokens, elapsed, rate) >= 1.0
  {
    if elapsed < 0.0 {
      MulLe(capacity, elapsed, 0.0);
    }
    MulLe(elapsed, capacity / 2.0, rate);
    assert elapsed * (capacity / 2.0) == elapsed * capacity / 2.0;
  }
}
