/** One server-sent-events connection: its bounded queue, what is written to the stream and what is lost. */
module SseQueue {

  const MAX_QUEUE_DEPTH: nat := 50

  /** How an accepted event left the queue. */
  datatype Fate = Sent | Dropped

  /** One write to the stream and its answer; an event carries its position among those accepted. */
  datatype Chunk = EventChunk(text: string, position: nat, ok: bool) | KeepaliveChunk(ok: bool)

  /** What the n-th write to the stream (from 0) returns. */
  type WriteAnswers = nat -> bool

  datatype State = State(
    queue: seq<string>,
    draining: bool,
    closed: bool,
    dropped: nat,           // droppedCount
    sent: nat,              // this connection's share of the sent counter
    accepted: seq<string>,  // events for which enqueue returned true
    fates: seq<Fate>,       // of the accepted events that left the queue, in order
    discarded: seq<string>, // queued events thrown away by close
    rejected: nat,          // events for which enqueue returned false
    wire: seq<Chunk>)

  const Initial := State([], false, false, 0, 0, [], [], [], 0, [])

  datatype Event = Enqueue(text: string) | Drain | Keepalive | Close

  /** Writes the oldest queued event; it leaves the queue unless the stream pushes back. */
  function WriteHead(s: State, ok: bool): State
    requires s.queue != []
  {
    var s' := s.(wire := s.wire + [EventChunk(s.queue[0], |s.fates|, ok)]);
    if ok then s'.(queue := s.queue[1..], fates := s.fates + [Sent], sent := s.sent + 1) else s'.(draining := true)
  }

  function Flush(s: State, answers: WriteAnswers): State
    decreases |s.queue|, if s.draining then 0 else 1
  {
    if s.closed || s.queue == [] || s.draining then s else Flush(WriteHead(s, answers(|s.wire|)), answers)
  }

  lemma {:induction false} FlushOnce(s: State, answers: WriteAnswers)
    ensures Flush(s, answers)
         == if s.closed || s.queue == [] || s.draining then s else Flush(WriteHead(s, answers(|s.wire|)), answers)
  {
  }

  function DropOldest(s: State): State
    requires s.queue != []
  {
    s.(queue := s.queue[1..], fates := s.fates + [Dropped], dropped := s.dropped + 1)
  }

  function Push(s: State, text: string): State {
    s.(queue := s.queue + [text], accepted := s.accepted + [text])
  }

  function Admit(s: State, text: string): State {
    Push(if |s.queue| >= MAX_QUEUE_DEPTH then DropOldest(s) else s, text)
  }

  function Step(s: State, event: Event, answers: WriteAnswers): State {
    match event
    case Enqueue(text) =>
      if s.closed then s.(dropped := s.dropped + 1, rejected := s.rejected + 1)
      else Flush(Admit(s, text), answers)
    case Drain => Flush(s.(draining := false), answers)
    case Keepalive =>
      if s.closed then s
      else s.(wire := s.wire + [KeepaliveChunk(answers(|s.wire|))], draining := s.draining || !answers(|s.wire|))
    case Close => if s.closed then s else s.(closed := true, discarded := s.queue, queue := [])
  }

  function After(run: seq<Event>, answers: WriteAnswers): State {
    if run == [] then Initial else Step(After(run[..|run| - 1], answers), run[|run| - 1], answers)
  }

  class SseConnection {
    const answers: WriteAnswers
    var queue: seq<string>
    var draining: bool
    var closed: bool
    var droppedCount: nat
    var sent: nat
    var writes: nat       // writes made to the stream
    ghost var accepted: seq<string>
    ghost var fates: seq<Fate>
    ghost var discarded: seq<string>
    ghost var rejected: nat
    ghost var wire: seq<Chunk>

    ghost predicate Valid()
      reads this
    {
      writes == |wire|
    }

    ghost function Snapshot(): State
      reads this
    {
      State(queue, draining, closed, droppedCount, sent, accepted, fates, discarded, rejected, wire)
    }

    constructor (answers: WriteAnswers)
      ensures Valid() && Snapshot() == Initial && this.answers == answers
    {
      this.answers := answers;
      queue, draining, closed, droppedCount, sent, writes := [], false, false, 0, 0, 0;
      accepted, fates, discarded, rejected, wire := [], [], [], 0, [];
    }

    /** reply.raw.write: the stream's answer, and a record of what was written. */
    method Write(ghost chunk: Chunk) returns (wrote: bool)
      requires Valid() && chunk.ok == answers(writes)
      modifies this`writes, this`wire
      ensures Valid() && wire == old(wire) + [chunk] && wrote == chunk.ok
    {
      wrote := answers(writes);
      writes, wire := writes + 1, wire + [chunk];
    }

    method Enqueue(event: string) returns (enqueued: bool)
      requires Valid()
      modifies this
      ensures Valid() && Snapshot() == Step(old(Snapshot()), Event.Enqueue(event), answers)
      ensures enqueued == !old(closed)
    {
      hide Flush;
      if closed {
        droppedCount, rejected := droppedCount + 1, rejected + 1;
        return false;
      }
      if |queue| >= MAX_QUEUE_DEPTH {
        queue := queue[1..];
        droppedCount, fates := droppedCount + 1, fates + [Dropped];
      }
      queue, accepted := queue + [event], accepted + [event];
      FlushOnce(Snapshot(), answers);
      if !draining {
        FlushQueue();
      }
      return true;
    }

    method FlushQueue()
      requires Valid()
      modifies this
      ensures Valid() && Snapshot() == Flush(old(Snapshot()), answers)
    {
      hide Flush;
      FlushOnce(Snapshot(), answers);
      if closed {
        return;
      }
      while |queue| > 0 && !draining
        invariant Valid() && !closed
        invariant Flush(Snapshot(), answers) == Flush(old(Snapshot()), answers)
        decreases |queue|
      {
        ghost var before := Snapshot();
        FlushOnce(before, answers);
        FlushOnce(WriteHead(before, answers(writes)), answers);
        var event := queue[0];
        queue := queue[1..];
        var wrote := Write(EventChunk(event, |fates|, answers(writes)));
        if !wrote {
          draining := true;
          queue := [event] + queue;
          assert Snapshot() == WriteHead(before, false);
          break;
        }
        sent, fates := sent + 1, fates + [Sent];
        assert Snapshot() == WriteHead(before, true);
      }
      FlushOnce(Snapshot(), answers);
    }

    /** The stream's drain event. */
    method OnDrain()
      requires Valid()
      modifies this
      ensures Valid() && Snapshot() == Step(old(Snapshot()), Drain, answers)
    {
      draining := false;
      FlushQueue();
    }

    method SendKeepalive()
      requires Valid()
      modifies this
      ensures Valid() && Snapshot() == Step(old(Snapshot()), Keepalive, answers)
    {
      if closed {
        return;
      }
      var wrote := Write(KeepaliveChunk(answers(writes)));
      if !wrote {
        draining := true;
      }
    }

    /** close, also run on the stream's close and error events. */
    method Close()
      requires Valid()
      modifies this
      ensures Valid() && Snapshot() == Step(old(Snapshot()), Event.Close, answers)
    {
      if closed {
        return;
      }
      closed := true;
      discarded, queue := queue, [];
    }
  }

  // ---- What every run keeps ----

  function CountOf(fates: seq<Fate>, fate: Fate): nat {
    if fates == [] then 0 else CountOf(fates[..|fates| - 1], fate) + if fates[|fates| - 1] == fate then 1 else 0
  }

  /** The positions of the events sent, in the order accepted. */
  function SentPositions(fates: seq<Fate>): seq<nat> {
    if fates == [] then []
    else SentPositions(fates[..|fates| - 1]) + if fates[|fates| - 1] == Sent then [|fates| - 1] else []
  }

  /** The positions of the writes the stream took, in the order written. */
  function TakenPositions(wire: seq<Chunk>): seq<nat> {
    if wire == [] then []
    else TakenPositions(wire[..|wire| - 1]) + Taken(wire[|wire| - 1])
  }

  function Taken(chunk: Chunk): seq<nat> {
    if chunk.EventChunk? && chunk.ok then [chunk.position] else []
  }

  /** Every accepted event has left the queue with a fate, is queued in order, or was thrown away by close. */
  ghost predicate Accounted(s: State) {
    && |s.fates| <= |s.accepted|
    && s.accepted[|s.fates|..] == s.queue + s.discarded
    && (if s.closed then s.queue == [] else s.discarded == [])
    && |s.queue| <= MAX_QUEUE_DEPTH
    && s.sent == CountOf(s.fates, Sent)
    && s.dropped == CountOf(s.fates, Dropped) + s.rejected
  }

  /** Only events that at least a queueful of later ones has overtaken are dropped. */
  ghost predicate DropsAreOld(s: State) {
    forall p :: 0 <= p < |s.fates| && s.fates[p] == Dropped ==> p + MAX_QUEUE_DEPTH < |s.accepted|
  }

  /** What is on the wire is what was accepted, each event at most once taken and never written again after that. */
  ghost predicate Faithful(s: State) {
    && (forall c :: c in s.wire && c.EventChunk? ==>
          c.position <= |s.fates| && c.position < |s.accepted| && c.text == s.accepted[c.position])
    && (forall c :: c in s.wire && c.EventChunk? && c.ok ==> c.position < |s.fates|)
    && (forall i, j :: 0 <= i < j < |s.wire| && s.wire[i].EventChunk? && s.wire[j].EventChunk? ==>
          s.wire[i].position <= s.wire[j].position && (s.wire[i].ok ==> s.wire[i].position < s.wire[j].position))
    && TakenPositions(s.wire) == SentPositions(s.fates)
  }

  ghost predicate Inv(s: State) {
    Accounted(s) && DropsAreOld(s) && Faithful(s)
  }

  ghost predicate Waiting(s: State) {
    s.queue != [] ==> s.draining
  }

  lemma {:induction false} SnocFates(fates: seq<Fate>, fate: Fate)
    ensures SentPositions(fates + [fate]) == SentPositions(fates) + if fate == Sent then [|fates|] else []
    ensures forall f :: CountOf(fates + [fate], f) == CountOf(fates, f) + if f == fate then 1 else 0
  {
    assert (fates + [fate])[..|fates|] == fates;
  }

  lemma {:induction false} SnocWire(wire: seq<Chunk>, chunk: Chunk)
    ensures TakenPositions(wire + [chunk]) == TakenPositions(wire) + Taken(chunk)
  {
    assert (wire + [chunk])[..|wire|] == wire;
  }

  lemma {:induction false} WriteHeadKeepsAccounts(s: State, ok: bool)
    requires Accounted(s) && DropsAreOld(s) && s.queue != []
    ensures Accounted(WriteHead(s, ok)) && DropsAreOld(WriteHead(s, ok))
  {
    hide CountOf, SentPositions;
    SnocFates(s.fates, Sent);
  }

  lemma {:induction false} WriteHeadStaysFaithful(s: State, ok: bool)
    requires Accounted(s) && Faithful(s) && s.queue != []
    ensures Faithful(WriteHead(s, ok))
  {
    hide CountOf, SentPositions, TakenPositions;
    SnocFates(s.fates, Sent);
    SnocWire(s.wire, EventChunk(s.queue[0], |s.fates|, ok));
    assert s.queue[0] == s.accepted[|s.fates|];
  }

  lemma {:induction false} WriteHeadKeepsInv(s: State, ok: bool)
    requires Inv(s) && s.queue != []
    ensures Inv(WriteHead(s, ok))
  {
    hide Accounted, DropsAreOld, Faithful;
    WriteHeadKeepsAccounts(s, ok);
    WriteHeadStaysFaithful(s, ok);
  }

  lemma {:induction false} FlushKeepsInv(s: State, answers: WriteAnswers)
    requires Inv(s) && !s.closed
    ensures Inv(Flush(s, answers)) && Waiting(Flush(s, answers))
    decreases |s.queue|, if s.draining then 0 else 1
  {
    hide Inv;
    if s.queue != [] && !s.draining {
      WriteHeadKeepsInv(s, answers(|s.wire|));
      FlushKeepsInv(WriteHead(s, answers(|s.wire|)), answers);
    }
  }

  lemma {:induction false} AdmitKeepsInv(s: State, text: string)
    requires Inv(s) && !s.closed
    ensures Inv(Admit(s, text))
  {
    hide CountOf, SentPositions, TakenPositions;
    SnocFates(s.fates, Dropped);
  }

  lemma {:induction false} StepKeepsInv(s: State, event: Event, answers: WriteAnswers)
    requires Inv(s) && Waiting(s)
    ensures Inv(Step(s, event, answers)) && Waiting(Step(s, event, answers))
  {
    hide CountOf, SentPositions, TakenPositions;
    match event {
      case Enqueue(text) =>
        if !s.closed {
          AdmitKeepsInv(s, text);
          FlushKeepsInv(Admit(s, text), answers);
        }
      case Drain =>
        if !s.closed {
          FlushKeepsInv(s.(draining := false), answers);
        }
      case Keepalive => SnocWire(s.wire, KeepaliveChunk(answers(|s.wire|)));
      case Close =>
    }
  }

  lemma {:induction false} InitialIsSafe()
    ensures Inv(Initial) && Waiting(Initial)
  {
    hide DropsAreOld, Faithful, Accounted;
    InitialIsAccounted();
    InitialIsFaithful();
    InitialDropsNothing();
  }

  lemma {:induction false} InitialIsAccounted()
    ensures Accounted(Initial)
  {
    hide CountOf;
    NothingYet();
  }

  lemma {:induction false} InitialIsFaithful()
    ensures Faithful(Initial)
  {
    hide SentPositions, TakenPositions;
    NothingYet();
  }

  lemma {:induction false} InitialDropsNothing()
    ensures DropsAreOld(Initial)
  {
  }

  lemma {:induction false} NothingYet()
    ensures SentPositions([]) == TakenPositions([]) == []
    ensures forall f :: CountOf([], f) == 0
  {
  }

  lemma {:induction false} RunsAreSafe(run: seq<Event>, answers: WriteAnswers)
    ensures Inv(After(run, answers)) && Waiting(After(run, answers))
  {
    hide Inv, Waiting, Step;
    if run == [] {
      InitialIsSafe();
    } else {
      RunsAreSafe(run[..|run| - 1], answers);
      StepKeepsInv(After(run[..|run| - 1], answers), run[|run| - 1], answers);
    }
  }

  // ---- Main results ----

  /** Nothing is lost silently: accepted events are sent, dropped by a full queue, discarded by close or queued. */
  lemma {:induction false} AcceptedEventsAreAccounted(run: seq<Event>, answers: WriteAnswers)
    ensures var s := After(run, answers);
            && |s.accepted| == s.sent + (s.dropped - s.rejected) + |s.queue| + |s.discarded|
            && (!s.closed ==>
                  && |s.queue| <= |s.accepted| && s.queue == s.accepted[|s.accepted| - |s.queue|..]
                  && s.discarded == [])
            && |s.queue| <= MAX_QUEUE_DEPTH
            && (s.queue != [] ==> s.draining && !s.closed)
  {
    RunsAreSafe(run, answers);
    FatesAreCounted(After(run, answers).fates);
  }

  lemma {:induction false} FatesAreCounted(fates: seq<Fate>)
    ensures CountOf(fates, Sent) + CountOf(fates, Dropped) == |fates|
  {
    if fates != [] {
      FatesAreCounted(fates[..|fates| - 1]);
    }
  }

  /** An increasing list of exactly the positions whose fate is Sent. */
  lemma {:induction false} SentPositionsAreExact(fates: seq<Fate>)
    ensures forall i, j :: 0 <= i < j < |SentPositions(fates)| ==> SentPositions(fates)[i] < SentPositions(fates)[j]
    ensures forall p: nat :: p in SentPositions(fates) <==> p < |fates| && fates[p] == Sent
    ensures |SentPositions(fates)| == CountOf(fates, Sent)
  {
    if fates != [] {
      var front := fates[..|fates| - 1];
      SentPositionsAreExact(front);
      var positions := SentPositions(front);
      forall i | 0 <= i < |positions| ensures positions[i] < |front| {
        assert positions[i] in positions;
      }
      assert SentPositions(fates) == positions + if fates[|front|] == Sent then [|front|] else [];
    }
  }

  /**
   * The writes the stream took are the sent events, once each, an order-preserving subsequence of the accepted ones.
   */
  lemma {:induction false} SendsKeepOrder(run: seq<Event>, answers: WriteAnswers)
    ensures var s := After(run, answers); var taken := TakenPositions(s.wire);
            && |taken| == s.sent
            && (forall i, j :: 0 <= i < j < |taken| ==> taken[i] < taken[j])
            && (forall p: nat :: p in taken <==> p < |s.fates| && s.fates[p] == Sent)
            && (forall c :: c in s.wire && c.EventChunk? ==>
                 c.position < |s.accepted| && c.text == s.accepted[c.position])
  {
    RunsAreSafe(run, answers);
    SentPositionsAreExact(After(run, answers).fates);
  }

  /** While the connection is open, each of the last MAX_QUEUE_DEPTH accepted events is sent or still queued. */
  lemma {:induction false} RecentEventsSurvive(run: seq<Event>, answers: WriteAnswers, p: nat)
    requires var s := After(run, answers); !s.closed && p < |s.accepted| <= p + MAX_QUEUE_DEPTH
    ensures var s := After(run, answers);
            if p < |s.fates| then s.fates[p] == Sent
            else |s.fates| + |s.queue| == |s.accepted| && s.queue[p - |s.fates|] == s.accepted[p]
  {
    RunsAreSafe(run, answers);
  }

  // ---- Events written twice ----

  /** The oldest queued event has been written, and the stream pushed back. */
  ghost predicate HeadRefused(s: State) {
    s.queue != [] && WrittenAt(s.wire, |s.fates|)
  }

  ghost predicate WrittenTwice(wire: seq<Chunk>) {
    exists i, j :: 0 <= i < j < |wire| && SameEvent(wire[i], wire[j])
  }

  predicate SameEvent(c: Chunk, d: Chunk) {
    c.EventChunk? && d.EventChunk? && c.position == d.position
  }

  lemma {:induction false} WrittenTwiceNow(wire: seq<Chunk>, last: Chunk)
    ensures WrittenTwice(wire + [last]) <==> WrittenTwice(wire) || exists c :: c in wire && SameEvent(c, last)
  {
    var now := wire + [last];
    if WrittenTwice(wire) {
      var i, j :| 0 <= i < j < |wire| && SameEvent(wire[i], wire[j]);
      assert SameEvent(now[i], now[j]);
    }
    if c :| c in wire && SameEvent(c, last) {
      var i :| 0 <= i < |wire| && wire[i] == c;
      assert SameEvent(now[i], now[|wire|]);
    }
    if WrittenTwice(now) {
      var i, j :| 0 <= i < j < |now| && SameEvent(now[i], now[j]);
      if j < |wire| {
        assert SameEvent(wire[i], wire[j]);
      } else {
        assert wire[i] in wire;
      }
    }
  }

  lemma {:induction false} WriteHeadRepeatsIff(s: State, ok: bool)
    requires Inv(s) && s.queue != []
    ensures WrittenTwice(WriteHead(s, ok).wire) <==> WrittenTwice(s.wire) || HeadRefused(s)
    ensures ok ==> !HeadRefused(WriteHead(s, ok))
  {
    hide Accounted, DropsAreOld, TakenPositions, SentPositions, CountOf;
    WrittenTwiceNow(s.wire, EventChunk(s.queue[0], |s.fates|, ok));
  }

  /** A flush repeats an event exactly when it starts by rewriting one the stream had pushed back on. */
  lemma {:induction false} FlushRepeatsIff(s: State, answers: WriteAnswers)
    requires Inv(s) && !s.closed
    ensures WrittenTwice(Flush(s, answers).wire) <==> WrittenTwice(s.wire) || (!s.draining && HeadRefused(s))
    decreases |s.queue|, if s.draining then 0 else 1
  {
    hide Inv, WrittenTwice, HeadRefused;
    HeadRefusedMeansQueued(s);
    if s.queue != [] && !s.draining {
      var ok := answers(|s.wire|);
      WriteHeadRepeatsIff(s, ok);
      WriteHeadKeepsInv(s, ok);
      FlushRepeatsIff(WriteHead(s, ok), answers);
    }
  }

  lemma {:induction false} HeadRefusedMeansQueued(s: State)
    ensures HeadRefused(s) ==> s.queue != []
  {
  }

  /**
   * A step first writes some event again exactly when it is a drain and the stream had pushed back on the oldest queued
   * event.
   */
  lemma {:induction false} RepeatsIff(s: State, event: Event, answers: WriteAnswers)
    requires Inv(s) && Waiting(s) && !WrittenTwice(s.wire)
    ensures WrittenTwice(Step(s, event, answers).wire) <==> event.Drain? && HeadRefused(s)
  {
    hide Inv, WrittenTwice;
    match event {
      case Enqueue(text) =>
        if !s.closed {
          AdmitKeepsInv(s, text);
          FlushRepeatsIff(Admit(s, text), answers);
          FreshHeadIsUnwritten(s, text);
        }
      case Drain =>
        if s.closed {
          ClosedIsEmpty(s);
        } else {
          InvIgnoresDraining(s);
          FlushRepeatsIff(s.(draining := false), answers);
        }
      case Keepalive => WrittenTwiceNow(s.wire, KeepaliveChunk(answers(|s.wire|)));
      case Close =>
    }
  }

  lemma {:induction false} InvIgnoresDraining(s: State)
    requires Inv(s)
    ensures Inv(s.(draining := false))
  {
  }

  lemma {:induction false} ClosedIsEmpty(s: State)
    requires Inv(s) && s.closed
    ensures s.queue == []
  {
  }

  lemma {:induction false} FreshHeadIsUnwritten(s: State, text: string)
    requires Inv(s) && !s.closed
    ensures s.queue == [] ==> !HeadRefused(Admit(s, text))
  {
  }

  /** Over a run, an event goes out twice exactly when some drain comes after a push-back on an event still queued. */
  lemma {:induction false} RunWritesTwiceIff(run: seq<Event>, answers: WriteAnswers)
    ensures WrittenTwice(After(run, answers).wire)
       <==> exists k :: 0 <= k < |run| && run[k].Drain? && HeadRefused(After(run[..k], answers))
  {
    hide Inv, Waiting, HeadRefused, Step;
    if run != [] {
      var n := |run| - 1;
      var before := After(run[..n], answers);
      RunsAreSafe(run[..n], answers);
      RunWritesTwiceIff(run[..n], answers);
      assert forall k :: 0 <= k < n ==> run[..n][..k] == run[..k];
      if WrittenTwice(before.wire) {
        StepExtendsWire(before, run[n], answers);
      } else {
        RepeatsIff(before, run[n], answers);
      }
    }
  }

  lemma {:induction false} FlushExtendsWire(s: State, answers: WriteAnswers)
    ensures s.wire <= Flush(s, answers).wire
    decreases |s.queue|, if s.draining then 0 else 1
  {
    if !s.closed && s.queue != [] && !s.draining {
      FlushExtendsWire(WriteHead(s, answers(|s.wire|)), answers);
    }
  }

  lemma {:induction false} StepExtendsWire(s: State, event: Event, answers: WriteAnswers)
    ensures s.wire <= Step(s, event, answers).wire
  {
    match event {
      case Enqueue(text) => if !s.closed { FlushExtendsWire(Admit(s, text), answers); }
      case Drain => FlushExtendsWire(s.(draining := false), answers);
      case Keepalive =>
      case Close =>
    }
  }

  /**
   * An event dropped by a full queue had already been written to the stream exactly when the stream had pushed back on
   * it.
   */
  lemma {:induction false} DropsWrittenEventIff(s: State, text: string, answers: WriteAnswers)
    requires Inv(s) && Waiting(s) && !s.closed
    ensures var s' := Step(s, Enqueue(text), answers);
            (exists p: nat :: |s.fates| <= p < |s'.fates| && s'.fates[p] == Dropped && WrittenAt(s.wire, p))
            <==> |s.queue| == MAX_QUEUE_DEPTH && HeadRefused(s)
  {
    var s' := Step(s, Enqueue(text), answers);
    if |s.queue| == MAX_QUEUE_DEPTH {
      assert s'.fates == s.fates + [Dropped];
      assert s'.fates[|s.fates|] == Dropped;
    }
  }

  ghost predicate WrittenAt(wire: seq<Chunk>, p: nat) {
    exists c :: c in wire && c.EventChunk? && c.position == p
  }

  function Enqueues(n: nat): seq<Event> {
    if n == 0 then [] else Enqueues(n - 1) + [Enqueue("e")]
  }

  function PushBack(write: nat): bool {
    false
  }

  /** A stream that pushes back at the first write keeps the queue growing behind it. */
  lemma {:induction false} StalledQueueFills(n: nat)
    requires 1 <= n <= MAX_QUEUE_DEPTH
    ensures var s := After(Enqueues(n), PushBack);
            && |s.queue| == n && s.draining && !s.closed && s.fates == [] && s.dropped == 0
            && s.wire == [EventChunk("e", 0, false)]
  {
    assert Enqueues(n)[..|Enqueues(n)| - 1] == Enqueues(n - 1);
    if n == 1 {
      assert After(Enqueues(0), PushBack) == Initial;
    } else {
      StalledQueueFills(n - 1);
    }
  }

  /** One event, one push-back and one drain: it is written twice. */
  lemma {:induction false} DoubleWriteIsReachable()
    ensures WrittenTwice(After([Enqueue("e"), Drain], PushBack).wire)
  {
    var run: seq<Event> := [Enqueue("e"), Drain];
    StalledQueueFills(1);
    assert run[..1] == Enqueues(1);
    var s := After(run[..1], PushBack);
    assert s.wire[0] == EventChunk("e", 0, false);
    assert run[1].Drain? && HeadRefused(s);
    RunWritesTwiceIff(run, PushBack);
  }

  /** So the dropped count can include events that did go out. */
  lemma {:induction false} DroppedYetWritten()
    ensures var s := After(Enqueues(MAX_QUEUE_DEPTH + 1), PushBack);
            s.fates == [Dropped] && s.dropped == 1 && WrittenAt(s.wire, 0)
  {
    StalledQueueFills(MAX_QUEUE_DEPTH);
    var run, before := Enqueues(MAX_QUEUE_DEPTH + 1), After(Enqueues(MAX_QUEUE_DEPTH), PushBack);
    assert run[..|run| - 1] == Enqueues(MAX_QUEUE_DEPTH) && run[|run| - 1] == Enqueue("e");
    var s := After(run, PushBack);
    assert s == Step(before, Enqueue("e"), PushBack) == Push(DropOldest(before), "e");
    assert s.wire[0] == EventChunk("e", 0, false);
  }
}
