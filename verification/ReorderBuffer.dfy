/**
 * The reorder buffer: out-of-order frames of one device become a contiguous stream, through a bounded
 * window that evicts the largest sequence number. One submit runs at a time.
 */
module ReorderBuffer {
  import opened Sequences

  /** A serialised payload; the order of int stands for the byte order Redis uses between members of equal score. */
  type Payload = int

  datatype Frame = Frame(seq_: int, payload: Payload)

  /** A Redis sorted set: members are payloads, scores are sequence numbers, kept in (score, member) order. */
  type ZSet = seq<Frame>

  datatype Buffer = Buffer(delivered: int, zset: ZSet, drops: nat)

  const Fresh: Buffer := Buffer(0, [], 0)

  // ---- Sorted-set commands ----

  predicate Before(a: Frame, b: Frame) {
    a.seq_ < b.seq_ || (a.seq_ == b.seq_ && a.payload < b.payload)
  }

  function Insert(z: ZSet, f: Frame): ZSet {
    if z == [] || !Before(z[0], f) then [f] + z else [z[0]] + Insert(z[1..], f)
  }

  function OtherMember(p: Payload): Frame -> bool {
    (f: Frame) => f.payload != p
  }

  function Scored(n: int): Frame -> bool {
    (f: Frame) => f.seq_ == n
  }

  /** ZADD: a member that is present moves to the new score. */
  function ZAdd(z: ZSet, f: Frame): ZSet {
    Insert(Filter(z, OtherMember(f.payload)), f)
  }

  /** ZRANGEBYSCORE n n */
  function ZRangeByScore(z: ZSet, n: int): seq<Frame> {
    Filter(z, Scored(n))
  }

  /** ZREMRANGEBYSCORE n n */
  function ZRemRangeByScore(z: ZSet, n: int): ZSet {
    Filter(z, Not(Scored(n)))
  }

  lemma {:induction false} RemovalShrinks(z: ZSet, n: int)
    ensures |ZRemRangeByScore(z, n)| + |ZRangeByScore(z, n)| == |z|
  {
    if z != [] {
      RemovalShrinks(z[1..], n);
    }
  }

  // ---- submit ----

  /** Delivers buffered frames d + 1, d + 2, ... as long as they are there. */
  function Drain(d: int, z: ZSet): (int, ZSet, seq<Frame>)
    decreases |z|
  {
    var next := ZRangeByScore(z, d + 1);
    if |next| == 0 then (d, z, [])
    else
      RemovalShrinks(z, d + 1);
      var (d', z', out) := Drain(d + 1, ZRemRangeByScore(z, d + 1));
      (d', z', [next[0]] + out)
  }

  /** What is still to come of draining: the state it ends in, and `out` followed by the frames delivered on the way. */
  function DrainAfter(out: seq<Frame>, d: int, z: ZSet): (int, ZSet, seq<Frame>) {
    var (d', z', rest) := Drain(d, z);
    (d', z', out + rest)
  }

  lemma {:induction false} DrainOnce(out: seq<Frame>, d: int, z: ZSet)
    ensures var next := ZRangeByScore(z, d + 1);
            DrainAfter(out, d, z) == if |next| == 0 then (d, z, out)
                                     else DrainAfter(out + [next[0]], d + 1, ZRemRangeByScore(z, d + 1))
  {
    var next := ZRangeByScore(z, d + 1);
    if |next| == 0 {
      assert out + [] == out;
    } else {
      var (d', z', rest) := Drain(d + 1, ZRemRangeByScore(z, d + 1));
      assert out + ([next[0]] + rest) == (out + [next[0]]) + rest;
    }
  }

  datatype Submitted = Submitted(buffer: Buffer, delivered: seq<Frame>, evicted: seq<Frame>)

  function Submit(maxWindow: nat, b: Buffer, f: Frame): Submitted {
    if f.seq_ <= b.delivered then Submitted(b, [], [])
    else if f.seq_ == b.delivered + 1 then
      var (d, z, out) := Drain(f.seq_, b.zset);
      Submitted(Buffer(d, z, b.drops), [f] + out, [])
    else
      var z := ZAdd(b.zset, f);
      if |z| > maxWindow then Submitted(Buffer(b.delivered, z[..|z| - 1], b.drops + 1), [], [z[|z| - 1]])
      else Submitted(Buffer(b.delivered, z, b.drops), [], [])
  }

  /** A whole run: the final buffer, everything delivered and everything evicted, in order. */
  function Run(maxWindow: nat, frames: seq<Frame>): Submitted {
    if frames == [] then Submitted(Fresh, [], [])
    else
      var before := Run(maxWindow, frames[..|frames| - 1]);
      var step := Submit(maxWindow, before.buffer, frames[|frames| - 1]);
      Submitted(step.buffer, before.delivered + step.delivered, before.evicted + step.evicted)
  }

  class RedisReorderBuffer {
    const maxWindow: nat
    var delivered: int
    var zset: ZSet
    var drops: nat

    constructor (maxWindow: nat)
      ensures State() == Fresh && this.maxWindow == maxWindow
    {
      this.maxWindow := maxWindow;
      delivered, zset, drops := 0, [], 0;
    }

    ghost function State(): Buffer
      reads this
    {
      Buffer(delivered, zset, drops)
    }

    method SubmitFrame(frameSeq: int, payload: Payload) returns (out: seq<Frame>)
      modifies this
      ensures var step := Submit(maxWindow, old(State()), Frame(frameSeq, payload));
              State() == step.buffer && out == step.delivered
    {
      hide Drain, ZRangeByScore, ZRemRangeByScore;
      var currentDelivered := delivered;
      if frameSeq <= currentDelivered {
        return [];
      }
      if frameSeq == currentDelivered + 1 {
        out := [Frame(frameSeq, payload)];
        currentDelivered := currentDelivered + 1;
        var done := false;
        while !done
          invariant drops == old(drops) && delivered == old(delivered)
          invariant DrainAfter([Frame(frameSeq, payload)], frameSeq, old(zset))
                 == if done then (currentDelivered, zset, out) else DrainAfter(out, currentDelivered, zset)
          decreases |zset|, !done
        {
          DrainOnce(out, currentDelivered, zset);
          var nextFrames := ZRangeByScore(zset, currentDelivered + 1);
          if |nextFrames| > 0 {
            RemovalShrinks(zset, currentDelivered + 1);
            out := out + [nextFrames[0]];
            zset := ZRemRangeByScore(zset, currentDelivered + 1);
            currentDelivered := currentDelivered + 1;
          } else {
            done := true;
          }
        }
        delivered := currentDelivered;
      } else {
        zset := ZAdd(zset, Frame(frameSeq, payload));
        if |zset| > maxWindow {
          zset := zset[..|zset| - 1];
          drops := drops + 1;
        }
        return [];
      }
    }
  }

  // ---- The buffer's order ----

  ghost predicate Sorted(z: ZSet) {
    forall i, j :: 0 <= i < j < |z| ==> Before(z[i], z[j])
  }

  ghost predicate Above(z: ZSet, d: int) {
    forall f :: f in z ==> f.seq_ > d
  }

  lemma {:induction false} SortedCons(f: Frame, z: ZSet)
    requires Sorted(z) && forall x :: x in z ==> Before(f, x)
    ensures Sorted([f] + z)
  {
    var s := [f] + z;
    forall i, j | 0 <= i < j < |s| ensures Before(s[i], s[j]) {
      assert s[j] == z[j - 1] && z[j - 1] in z;
    }
  }

  lemma {:induction false} FilterKeepsSorted(z: ZSet, p: Frame -> bool)
    requires Sorted(z)
    ensures Sorted(Filter(z, p))
  {
    if z != [] {
      FilterKeepsSorted(z[1..], p);
      FilterMembers(z[1..], p);
      if p(z[0]) {
        SortedCons(z[0], Filter(z[1..], p));
      }
    }
  }

  lemma {:induction false} InsertMembers(z: ZSet, f: Frame)
    ensures forall x :: x in Insert(z, f) <==> x in z || x == f
    ensures |Insert(z, f)| == |z| + 1
  {
    if z != [] && Before(z[0], f) {
      assert z == [z[0]] + z[1..];
      InsertMembers(z[1..], f);
    }
  }

  lemma {:induction false} InsertKeepsSorted(z: ZSet, f: Frame)
    requires Sorted(z) && f !in z
    ensures Sorted(Insert(z, f))
  {
    if z == [] || !Before(z[0], f) {
      forall x | x in z ensures Before(f, x) {
        assert x == z[0] || Before(z[0], x);
      }
      SortedCons(f, z);
    } else {
      InsertKeepsSorted(z[1..], f);
      InsertMembers(z[1..], f);
      SortedCons(z[0], Insert(z[1..], f));
    }
  }

  lemma {:induction false} ZAddMembers(z: ZSet, f: Frame)
    ensures forall x :: x in ZAdd(z, f) <==> x == f || (x in z && x.payload != f.payload)
    ensures Sorted(z) ==> Sorted(ZAdd(z, f))
  {
    var rest := Filter(z, OtherMember(f.payload));
    FilterMembers(z, OtherMember(f.payload));
    InsertMembers(rest, f);
    if Sorted(z) {
      FilterKeepsSorted(z, OtherMember(f.payload));
      InsertKeepsSorted(rest, f);
    }
  }

  lemma {:induction false} FilterIsNoLonger(z: ZSet, p: Frame -> bool)
    ensures |Filter(z, p)| <= |z|
  {
    if z != [] {
      FilterIsNoLonger(z[1..], p);
    }
  }

  // ---- Draining ----

  /** Draining delivers d + 1, ..., d' in order from the buffer and leaves exactly what lies beyond d' + 1. */
  lemma {:induction false} DrainDelivers(d: int, z: ZSet)
    requires Sorted(z) && Above(z, d)
    ensures var (d', z', out) := Drain(d, z);
            && d' == d + |out|
            && (forall i :: 0 <= i < |out| ==> out[i].seq_ == d + 1 + i && out[i] in z)
            && (forall x :: x in z' <==> x in z && x.seq_ > d')
            && Sorted(z') && Above(z', d' + 1) && |z'| <= |z|
    decreases |z|
  {
    var next := ZRangeByScore(z, d + 1);
    FilterMembers(z, Scored(d + 1));
    if |next| > 0 {
      var rest := ZRemRangeByScore(z, d + 1);
      RemovalShrinks(z, d + 1);
      FilterMembers(z, Not(Scored(d + 1)));
      FilterKeepsSorted(z, Not(Scored(d + 1)));
      DrainDelivers(d + 1, rest);
      assert next[0] in next;
    } else {
      forall f | f in z ensures f.seq_ > d + 1 {
        assert f.seq_ == d + 1 ==> f in next;
      }
    }
  }

  // ---- Every run ----

  /** The frames delivered are 1, 2, ..., d in order; the buffer is sorted, bounded, and beyond d + 1. */
  ghost predicate RunInv(maxWindow: nat, frames: seq<Frame>, r: Submitted) {
    && |r.delivered| == r.buffer.delivered
    && (forall i :: 0 <= i < |r.delivered| ==> r.delivered[i].seq_ == i + 1 && r.delivered[i] in frames)
    && Sorted(r.buffer.zset) && Above(r.buffer.zset, r.buffer.delivered + 1)
    && (forall f :: f in r.buffer.zset ==> f in frames)
    && |r.buffer.zset| <= maxWindow
    && r.buffer.drops == |r.evicted|
    && (forall f :: f in r.evicted ==> f in frames)
  }

  lemma {:induction false} SubmitKeepsBufferInOrder(maxWindow: nat, b: Buffer, f: Frame)
    requires Sorted(b.zset) && Above(b.zset, b.delivered + 1) && |b.zset| <= maxWindow && 0 <= b.delivered
    ensures var s := Submit(maxWindow, b, f);
            && Sorted(s.buffer.zset) && Above(s.buffer.zset, s.buffer.delivered + 1) && |s.buffer.zset| <= maxWindow
            && s.buffer.delivered == b.delivered + |s.delivered|
            && (forall i :: 0 <= i < |s.delivered| ==>
                 s.delivered[i].seq_ == b.delivered + 1 + i && (s.delivered[i] == f || s.delivered[i] in b.zset))
            && (forall x :: x in s.buffer.zset || x in s.evicted ==> x == f || x in b.zset)
            && s.buffer.drops == b.drops + |s.evicted|
  {
    if f.seq_ == b.delivered + 1 {
      DrainDelivers(f.seq_, b.zset);
    } else if f.seq_ > b.delivered + 1 {
      ZAddMembers(b.zset, f);
      FilterIsNoLonger(b.zset, OtherMember(f.payload));
      InsertMembers(Filter(b.zset, OtherMember(f.payload)), f);
    }
  }

  /** On every run, whatever is evicted: a gapless stream from 1, and a sorted buffer within its window. */
  lemma {:induction false} RunsDeliverInOrder(maxWindow: nat, frames: seq<Frame>)
    ensures RunInv(maxWindow, frames, Run(maxWindow, frames))
  {
    if frames != [] {
      var k := |frames| - 1;
      assert frames == frames[..k] + [frames[k]];
      RunsDeliverInOrder(maxWindow, frames[..k]);
      var before := Run(maxWindow, frames[..k]);
      SubmitKeepsBufferInOrder(maxWindow, before.buffer, frames[k]);
      var step := Submit(maxWindow, before.buffer, frames[k]);
      var r := Run(maxWindow, frames);
      forall i | 0 <= i < |r.delivered| ensures r.delivered[i].seq_ == i + 1 && r.delivered[i] in frames {
        if i >= |before.delivered| {
          assert r.delivered[i] == step.delivered[i - |before.delivered|];
        }
      }
    }
  }

  /** Distinct frames have distinct payloads, so ZADD never moves a frame to another sequence number. */
  ghost predicate PayloadsIdentify(frames: seq<Frame>) {
    forall a, b :: a in frames && b in frames && a.payload == b.payload ==> a == b
  }

  /** Every submitted sequence number is delivered, buffered or evicted. */
  ghost predicate Accounted(r: Submitted, f: Frame) {
    f.seq_ <= r.buffer.delivered || f in r.buffer.zset || f in r.evicted
  }

  lemma {:induction false} NothingElseIsLost(maxWindow: nat, frames: seq<Frame>)
    requires PayloadsIdentify(frames)
    ensures forall f :: f in frames ==> Accounted(Run(maxWindow, frames), f)
  {
    if frames != [] {
      var k := |frames| - 1;
      assert frames == frames[..k] + [frames[k]];
      assert PayloadsIdentify(frames[..k]) by {
        assert forall f :: f in frames[..k] ==> f in frames;
      }
      NothingElseIsLost(maxWindow, frames[..k]);
      RunsDeliverInOrder(maxWindow, frames[..k]);
      var before := Run(maxWindow, frames[..k]);
      forall f | f in frames ensures Accounted(Run(maxWindow, frames), f) {
        assert f == frames[k] || f in frames[..k];
        if f !in before.evicted {
          SubmitAccounts(maxWindow, before.buffer, frames[k], f);
        }
      }
    }
  }

  lemma {:induction false} SubmitAccounts(maxWindow: nat, b: Buffer, f: Frame, x: Frame)
    requires Sorted(b.zset) && Above(b.zset, b.delivered + 1)
    requires x.payload == f.payload ==> x == f
    requires x == f || x.seq_ <= b.delivered || x in b.zset
    ensures var s := Submit(maxWindow, b, f);
            && b.delivered <= s.buffer.delivered
            && (x.seq_ <= s.buffer.delivered || x in s.buffer.zset || x in s.evicted)
  {
    if f.seq_ == b.delivered + 1 {
      DrainDelivers(f.seq_, b.zset);
    } else if f.seq_ > b.delivered + 1 {
      ZAddMembers(b.zset, f);
    }
  }

  ghost predicate IsSubmitted(frames: seq<Frame>, n: int) {
    exists f :: f in frames && f.seq_ == n
  }

  ghost predicate IsBuffered(z: ZSet, n: int) {
    exists f :: f in z && f.seq_ == n
  }

  /**
   * Without evictions: d is the largest n such that all of 1..n were submitted, and the buffer holds
   * exactly the submitted sequence numbers above d.
   */
  lemma {:induction false} WithoutEvictionsNothingIsLost(maxWindow: nat, frames: seq<Frame>)
    requires PayloadsIdentify(frames) && Run(maxWindow, frames).evicted == []
    ensures var b := Run(maxWindow, frames).buffer;
            && (forall n :: 1 <= n <= b.delivered ==> IsSubmitted(frames, n))
            && !IsSubmitted(frames, b.delivered + 1)
            && (forall n :: IsBuffered(b.zset, n) <==> IsSubmitted(frames, n) && n > b.delivered)
  {
    RunsDeliverInOrder(maxWindow, frames);
    NothingElseIsLost(maxWindow, frames);
    var r := Run(maxWindow, frames);
    var d := r.buffer.delivered;
    forall n | 1 <= n <= d ensures IsSubmitted(frames, n) {
      assert r.delivered[n - 1].seq_ == n && r.delivered[n - 1] in frames;
    }
    forall n | IsSubmitted(frames, n) && n > d ensures IsBuffered(r.buffer.zset, n) {
      var f :| f in frames && f.seq_ == n;
      assert Accounted(r, f);
    }
    forall n | IsBuffered(r.buffer.zset, n) ensures IsSubmitted(frames, n) && n > d + 1 {
      var f :| f in r.buffer.zset && f.seq_ == n;
      assert f in frames;
    }
  }

  // ---- Evictions ----

  /** One payload per sequence number. */
  ghost predicate SequencesIdentify(frames: seq<Frame>) {
    forall a, b :: a in frames && b in frames && a.seq_ == b.seq_ ==> a == b
  }

  ghost predicate DistinctSequences(z: ZSet) {
    forall i, j :: 0 <= i < j < |z| ==> z[i].seq_ < z[j].seq_
  }

  /** Pigeonhole: n distinct sequence numbers above d + 1 reach at least d + 1 + n. */
  lemma {:induction false} LastIsFarOut(z: ZSet, d: int)
    requires |z| > 0 && DistinctSequences(z) && Above(z, d + 1)
    ensures z[|z| - 1].seq_ >= d + 1 + |z|
  {
    var k := |z| - 1;
    assert z[k] in z;
    if k > 0 {
      assert forall f :: f in z[..k] ==> f in z;
      LastIsFarOut(z[..k], d);
    }
  }

  /** A frame is evicted exactly when it arrives out of order, is new, and finds the window full. */
  lemma {:induction false} EvictsIff(maxWindow: nat, b: Buffer, f: Frame)
    requires |b.zset| <= maxWindow
    ensures |Submit(maxWindow, b, f).evicted| == 1 <==>
              f.seq_ > b.delivered + 1 && |b.zset| == maxWindow && forall x :: x in b.zset ==> x.payload != f.payload
    ensures |Submit(maxWindow, b, f).evicted| <= 1
  {
    var rest := Filter(b.zset, OtherMember(f.payload));
    InsertMembers(rest, f);
    FilterIsNoLonger(b.zset, OtherMember(f.payload));
    if forall x :: x in b.zset ==> x.payload != f.payload {
      FilterAll(b.zset, OtherMember(f.payload));
    } else {
      var x :| x in b.zset && x.payload == f.payload;
      FilterDropsOne(b.zset, OtherMember(f.payload), x);
    }
  }

  lemma {:induction false} FilterDropsOne(z: ZSet, p: Frame -> bool, x: Frame)
    requires x in z && !p(x)
    ensures |Filter(z, p)| < |z|
  {
    assert z == [z[0]] + z[1..];
    FilterIsNoLonger(z[1..], p);
    if z[0] != x {
      FilterDropsOne(z[1..], p, x);
    }
  }

  ghost predicate OneFramePerSequence(z: ZSet, f: Frame) {
    forall x, y :: (x in z || x == f) && (y in z || y == f) && x.seq_ == y.seq_ ==> x == y
  }

  lemma {:induction false} SortedIsDistinct(z: ZSet)
    requires Sorted(z) && forall x, y :: x in z && y in z && x.seq_ == y.seq_ ==> x == y
    ensures DistinctSequences(z)
  {
    forall i, j | 0 <= i < j < |z| ensures z[i].seq_ < z[j].seq_ {
      assert Before(z[i], z[j]) && z[i] in z && z[j] in z;
    }
  }

  /** Whatever a full window evicts lies at least maxWindow + 2 beyond what was delivered by then. */
  lemma {:induction false} EvictionIsFarOut(maxWindow: nat, b: Buffer, f: Frame)
    requires Sorted(b.zset) && Above(b.zset, b.delivered + 1) && OneFramePerSequence(b.zset, f)
    ensures forall e :: e in Submit(maxWindow, b, f).evicted ==> e.seq_ >= b.delivered + maxWindow + 2
  {
    if f.seq_ > b.delivered + 1 {
      ZAddMembers(b.zset, f);
      var z := ZAdd(b.zset, f);
      SortedIsDistinct(z);
      if |z| > maxWindow {
        LastIsFarOut(z, b.delivered);
      }
    }
  }

  lemma {:induction false} EvictedFramesAreFarOut(maxWindow: nat, frames: seq<Frame>, f: Frame)
    requires SequencesIdentify(frames + [f])
    ensures var b := Run(maxWindow, frames).buffer;
            forall e :: e in Submit(maxWindow, b, f).evicted ==> e.seq_ >= b.delivered + maxWindow + 2
  {
    RunsDeliverInOrder(maxWindow, frames);
    var b := Run(maxWindow, frames).buffer;
    assert forall x :: x in b.zset || x == f ==> x in frames + [f];
    EvictionIsFarOut(maxWindow, b, f);
  }

  lemma {:induction false} EmptyOrFirst(s: seq<Frame>)
    ensures s == [] || s[0] in s
  {
  }

  /** Every buffered frame is at most maxWindow + 1 beyond what has been delivered. */
  ghost predicate Near(maxWindow: nat, b: Buffer) {
    forall x :: x in b.zset ==> x.seq_ <= b.delivered + maxWindow + 1
  }

  lemma {:induction false} NearSubmit(maxWindow: nat, b: Buffer, f: Frame)
    requires Sorted(b.zset) && Above(b.zset, b.delivered + 1) && |b.zset| <= maxWindow && 0 <= b.delivered
    requires OneFramePerSequence(b.zset, f)
    requires Near(maxWindow, b) && f.seq_ <= b.delivered + maxWindow + 1
    ensures Submit(maxWindow, b, f).evicted == [] && Near(maxWindow, Submit(maxWindow, b, f).buffer)
  {
    EvictionIsFarOut(maxWindow, b, f);
    SubmitKeepsBufferInOrder(maxWindow, b, f);
    EmptyOrFirst(Submit(maxWindow, b, f).evicted);
  }

  /** Each frame is, when it arrives, at most maxWindow + 1 beyond what has been delivered. */
  ghost predicate StaysNear(maxWindow: nat, frames: seq<Frame>) {
    forall k :: 0 <= k < |frames| ==> frames[k].seq_ <= Run(maxWindow, frames[..k]).buffer.delivered + maxWindow + 1
  }

  lemma {:induction false} PrefixStaysNear(maxWindow: nat, frames: seq<Frame>)
    requires StaysNear(maxWindow, frames) && frames != []
    ensures var k := |frames| - 1;
            StaysNear(maxWindow, frames[..k])
            && frames[k].seq_ <= Run(maxWindow, frames[..k]).buffer.delivered + maxWindow + 1
  {
    hide Run;
    var prefix := frames[..|frames| - 1];
    forall j | 0 <= j < |prefix|
      ensures prefix[j].seq_ <= Run(maxWindow, prefix[..j]).buffer.delivered + maxWindow + 1
    {
      assert prefix[..j] == frames[..j];
    }
  }

  lemma {:induction false} BufferedIdentify(maxWindow: nat, frames: seq<Frame>)
    requires SequencesIdentify(frames) && frames != []
    ensures var k := |frames| - 1;
            SequencesIdentify(frames[..k]) && OneFramePerSequence(Run(maxWindow, frames[..k]).buffer.zset, frames[k])
  {
    hide Run;
    var k := |frames| - 1;
    RunsDeliverInOrder(maxWindow, frames[..k]);
    assert forall x :: x in frames[..k] ==> x in frames;
    var z := Run(maxWindow, frames[..k]).buffer.zset;
    assert forall x :: x in z || x == frames[k] ==> x in frames;
  }

  /** Any arrival order that stays that near is delivered without loss. */
  lemma {:induction false} NearArrivalsAreNeverEvicted(maxWindow: nat, frames: seq<Frame>)
    requires SequencesIdentify(frames) && StaysNear(maxWindow, frames)
    ensures Run(maxWindow, frames).evicted == [] && Near(maxWindow, Run(maxWindow, frames).buffer)
  {
    hide Submit, StaysNear, Near, SequencesIdentify, OneFramePerSequence;
    if frames == [] {
      NothingIsNear(maxWindow);
    } else {
      var k := |frames| - 1;
      PrefixStaysNear(maxWindow, frames);
      BufferedIdentify(maxWindow, frames);
      NearArrivalsAreNeverEvicted(maxWindow, frames[..k]);
      RunsDeliverInOrder(maxWindow, frames[..k]);
      NearSubmit(maxWindow, Run(maxWindow, frames[..k]).buffer, frames[k]);
    }
  }

  lemma {:induction false} NothingIsNear(maxWindow: nat)
    ensures Near(maxWindow, Fresh)
  {
  }

  // ---- What one submit does ----

  /** Of several buffered frames with the same number, the one with the least payload is delivered. */
  lemma {:induction false} DrainTakesTheLeast(d: int, z: ZSet, i: nat, x: Frame)
    requires Sorted(z) && Above(z, d) && i < |Drain(d, z).2| && x in z && x.seq_ == Drain(d, z).2[i].seq_
    ensures Drain(d, z).2[i].payload <= x.payload
    decreases i
  {
    hide Above;
    var next, rest := ZRangeByScore(z, d + 1), ZRemRangeByScore(z, d + 1);
    DrainDelivers(d, z);
    FilterMembers(z, Scored(d + 1));
    FilterMembers(z, Not(Scored(d + 1)));
    if i == 0 {
      FilterKeepsSorted(z, Scored(d + 1));
      var j :| 0 <= j < |next| && next[j] == x;
      assert j > 0 ==> Before(next[0], next[j]);
    } else {
      FilterKeepsSorted(z, Not(Scored(d + 1)));
      RemovalRaises(z, d);
      DrainTakesTheLeast(d + 1, rest, i - 1, x);
    }
  }

  lemma {:induction false} RemovalRaises(z: ZSet, d: int)
    requires Above(z, d)
    ensures Above(ZRemRangeByScore(z, d + 1), d + 1)
  {
    FilterMembers(z, Not(Scored(d + 1)));
  }

  /**
   * The frame that is due is delivered, followed by the buffered frames with the numbers after it, up to the first
   * number that is missing; the frames beyond that number stay.
   */
  lemma {:induction false} DueFrameDelivers(maxWindow: nat, b: Buffer, f: Frame)
    requires Sorted(b.zset) && Above(b.zset, b.delivered + 1) && f.seq_ == b.delivered + 1
    ensures var s := Submit(maxWindow, b, f); var d := s.buffer.delivered;
            && s.evicted == [] && s.buffer.drops == b.drops
            && |s.delivered| == d - b.delivered > 0 && s.delivered[0] == f
            && (forall i :: 0 < i < |s.delivered| ==>
                  && s.delivered[i].seq_ == b.delivered + 1 + i && s.delivered[i] in b.zset
                  && forall x :: x in b.zset && x.seq_ == s.delivered[i].seq_ ==> s.delivered[i].payload <= x.payload)
            && (forall x :: x in b.zset ==> x.seq_ != d + 1)
            && (forall x :: x in s.buffer.zset <==> x in b.zset && x.seq_ > d)
  {
    hide Above, Sorted;
    var (d, z, out) := Drain(f.seq_, b.zset);
    DrainDelivers(f.seq_, b.zset);
    forall i, x | 0 <= i < |out| && x in b.zset && x.seq_ == out[i].seq_ ensures out[i].payload <= x.payload {
      DrainTakesTheLeast(f.seq_, b.zset, i, x);
    }
    NoneIsNext(z, d);
  }

  lemma {:induction false} NoneIsNext(z: ZSet, d: int)
    requires Above(z, d + 1)
    ensures forall x :: x in z ==> x.seq_ > d + 1
  {
  }

  /** A frame that was passed already changes nothing. */
  lemma {:induction false} PassedFrameIsIgnored(maxWindow: nat, b: Buffer, f: Frame)
    requires f.seq_ <= b.delivered
    ensures Submit(maxWindow, b, f) == Submitted(b, [], [])
  {
  }

  /**
   * A frame that is early is buffered, its payload under its newest number. When that makes one too many, the frame
   * with the greatest number is evicted, the new one or another, and counted; all others stay. Nothing is delivered.
   */
  lemma {:induction false} EarlyFrameIsBuffered(maxWindow: nat, b: Buffer, f: Frame)
    requires Sorted(b.zset) && |b.zset| <= maxWindow && f.seq_ > b.delivered + 1
    ensures var s := Submit(maxWindow, b, f);
            && s.delivered == [] && s.buffer.delivered == b.delivered
            && s.buffer.drops == b.drops + |s.evicted|
            && (forall x :: x in s.buffer.zset || x in s.evicted <==> x == f || (x in b.zset && x.payload != f.payload))
            && (forall x, e :: x in s.buffer.zset && e in s.evicted ==> x != e && x.seq_ <= e.seq_)
            && (|s.evicted| > 0 ==> |s.evicted| == 1 && |s.buffer.zset| == maxWindow)
  {
    hide Sorted;
    var z := ZAdd(b.zset, f);
    ZAddMembers(b.zset, f);
    ZAddIsOneLonger(b.zset, f);
    if |z| > maxWindow {
      LastIsGreatest(z);
    }
  }

  lemma {:induction false} ZAddIsOneLonger(z: ZSet, f: Frame)
    ensures |ZAdd(z, f)| <= |z| + 1
  {
    FilterIsNoLonger(z, OtherMember(f.payload));
    InsertMembers(Filter(z, OtherMember(f.payload)), f);
  }

  lemma {:induction false} LastIsGreatest(z: ZSet)
    requires Sorted(z) && z != []
    ensures forall x :: x in z <==> x in z[..|z| - 1] || x == z[|z| - 1]
    ensures forall x :: x in z[..|z| - 1] ==> x != z[|z| - 1] && x.seq_ <= z[|z| - 1].seq_
  {
    var rest, last := z[..|z| - 1], z[|z| - 1];
    forall x | x in rest ensures Before(x, last) {
      var j :| 0 <= j < |rest| && rest[j] == x;
      assert Before(z[j], z[|z| - 1]);
    }
    assert z == rest + [last];
  }
}
