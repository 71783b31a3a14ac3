/** What each event on a connection writes, accepts and drops, and what it means to be draining. */
module SseEffects {
  import opened Sequences
  import opened SseQueue

  // ---- What is written ----

  /**
   * These chunks are the queued events from the oldest on, under their positions, with the stream's next answers: all
   * taken but perhaps the last, and when not all of the queue was written, the last was refused.
   */
  ghost predicate WritesFromFront(s: State, answers: WriteAnswers, chunks: seq<Chunk>) {
    && |chunks| <= |s.queue|
    && (forall i :: 0 <= i < |chunks| ==> FromQueue(s, answers, chunks[i], i))
    && RefusedOnlyLast(chunks)
    && (|chunks| < |s.queue| ==> EndsRefused(chunks))
  }

  predicate FromQueue(s: State, answers: WriteAnswers, chunk: Chunk, i: nat)
    requires i < |s.queue|
  {
    chunk == EventChunk(s.queue[i], |s.fates| + i, answers(|s.wire| + i))
  }

  predicate RefusedOnlyLast(chunks: seq<Chunk>) {
    forall i :: 0 <= i < |chunks| - 1 ==> chunks[i].ok
  }

  function TakenOf(chunks: seq<Chunk>): nat {
    if EndsRefused(chunks) then |chunks| - 1 else |chunks|
  }

  predicate EndsRefused(chunks: seq<Chunk>) {
    |chunks| > 0 && !chunks[|chunks| - 1].ok
  }

  /**
   * Writing these chunks leads to this state: the events taken left the queue, and a refusal means waiting for a
   * drain.
   */
  ghost predicate Wrote(s: State, chunks: seq<Chunk>, s': State) {
    && TakenOf(chunks) <= |s.queue|
    && s' == s.(queue := s.queue[TakenOf(chunks)..], fates := s'.fates, sent := s.sent + TakenOf(chunks),
                wire := s.wire + chunks, draining := EndsRefused(chunks))
  }

  lemma {:induction false} OneMoreFromFront(s: State, answers: WriteAnswers, rest: seq<Chunk>)
    requires s.queue != [] && answers(|s.wire|) && WritesFromFront(WriteHead(s, true), answers, rest)
    ensures WritesFromFront(s, answers, [EventChunk(s.queue[0], |s.fates|, true)] + rest)
  {
    hide FromQueue;
    var first := EventChunk(s.queue[0], |s.fates|, true);
    FirstFromQueue(s, answers);
    forall i | 0 <= i < |rest| ensures FromQueue(s, answers, rest[i], i + 1) {
      NextFromQueue(s, answers, rest[i], i);
    }
    OneMoreTaken(first, rest);
  }

  lemma {:induction false} FirstFromQueue(s: State, answers: WriteAnswers)
    requires s.queue != [] && answers(|s.wire|)
    ensures FromQueue(s, answers, EventChunk(s.queue[0], |s.fates|, true), 0)
  {
  }

  lemma {:induction false} NextFromQueue(s: State, answers: WriteAnswers, chunk: Chunk, i: nat)
    requires i + 1 < |s.queue| && FromQueue(WriteHead(s, true), answers, chunk, i)
    ensures FromQueue(s, answers, chunk, i + 1)
  {
  }

  lemma {:induction false} OneMoreTaken(first: Chunk, rest: seq<Chunk>)
    requires first.ok && RefusedOnlyLast(rest)
    ensures RefusedOnlyLast([first] + rest) && EndsRefused([first] + rest) == EndsRefused(rest)
  {
  }

  lemma {:induction false} OneMoreWrote(s: State, rest: seq<Chunk>, s': State)
    requires s.queue != [] && !s.draining && Wrote(WriteHead(s, true), rest, s')
    ensures Wrote(s, [EventChunk(s.queue[0], |s.fates|, true)] + rest, s')
  {
    var chunk := EventChunk(s.queue[0], |s.fates|, true);
    assert s.wire + [chunk] + rest == s.wire + ([chunk] + rest);
    assert TakenOf([chunk] + rest) == 1 + TakenOf(rest);
    assert s.queue[1..][TakenOf(rest)..] == s.queue[1 + TakenOf(rest)..];
  }

  /** Flushing an open connection that is not draining: what it writes, what leaves the queue, when it waits again. */
  lemma {:induction false} FlushEffects(s: State, answers: WriteAnswers)
    requires !s.closed && !s.draining
    ensures var s' := Flush(s, answers);
            && s.wire <= s'.wire
            && WritesFromFront(s, answers, s'.wire[|s.wire|..]) && Wrote(s, s'.wire[|s.wire|..], s')
    decreases |s.queue|
  {
    hide Flush, WritesFromFront, Wrote;
    var chunks := FlushChunks(s, answers);
    assert (s.wire + chunks)[|s.wire|..] == chunks;
  }

  lemma {:induction false} FlushChunks(s: State, answers: WriteAnswers) returns (chunks: seq<Chunk>)
    requires !s.closed && !s.draining
    ensures WritesFromFront(s, answers, chunks) && Wrote(s, chunks, Flush(s, answers))
    ensures Flush(s, answers).wire == s.wire + chunks
    decreases |s.queue|
  {
    hide Flush, WritesFromFront, Wrote;
    FlushOnce(s, answers);
    if s.queue == [] {
      chunks := [];
      NothingWrote(s, answers);
    } else if answers(|s.wire|) {
      var rest := FlushChunks(WriteHead(s, true), answers);
      chunks := [EventChunk(s.queue[0], |s.fates|, true)] + rest;
      OneMoreFromFront(s, answers, rest);
      OneMoreWrote(s, rest, Flush(s, answers));
    } else {
      chunks := [EventChunk(s.queue[0], |s.fates|, false)];
      FlushOnce(WriteHead(s, false), answers);
      RefusedWrote(s, answers);
    }
  }

  lemma {:induction false} NothingWrote(s: State, answers: WriteAnswers)
    requires s.queue == [] && !s.draining
    ensures WritesFromFront(s, answers, []) && Wrote(s, [], s) && s.wire + [] == s.wire
  {
  }

  lemma {:induction false} RefusedWrote(s: State, answers: WriteAnswers)
    requires s.queue != [] && !answers(|s.wire|)
    ensures WritesFromFront(s, answers, [EventChunk(s.queue[0], |s.fates|, false)])
    ensures Wrote(s, [EventChunk(s.queue[0], |s.fates|, false)], WriteHead(s, false))
  {
  }

  /**
   * What one event writes to the stream. Nothing on a closed connection; a keepalive comment, whatever the queue, for
   * the heartbeat; the queued events from the front until the stream pushes back, for a drain; the new event alone,
   * unless the connection is draining, for an enqueue; nothing for a close.
   */
  lemma {:induction false} WhatIsWritten(s: State, e: Event, answers: WriteAnswers)
    requires Waiting(s) && |s.queue| <= 50
    ensures var s' := Step(s, e, answers);
            && s.wire <= s'.wire
            && var chunks := s'.wire[|s.wire|..];
              if s.closed then chunks == []
              else match e
                case Enqueue(text) =>
                  chunks == if s.draining then [] else [EventChunk(text, |s.fates|, answers(|s.wire|))]
                case Drain => WritesFromFront(s, answers, chunks)
                case Keepalive => chunks == [KeepaliveChunk(answers(|s.wire|))]
                case Close => chunks == []
  {
    hide WritesFromFront;
    if !s.closed {
      match e
      case Enqueue(text) =>
        if !s.draining {
          FlushEffects(Admit(s, text), answers);
          FrontOfOne(Admit(s, text), answers, Step(s, e, answers).wire[|s.wire|..]);
        }
      case Drain =>
        FlushEffects(s.(draining := false), answers);
        SameFront(s, s.(draining := false), answers, Step(s, e, answers).wire[|s.wire|..]);
      case Keepalive =>
      case Close =>
    }
  }

  lemma {:induction false} FrontOfOne(s: State, answers: WriteAnswers, chunks: seq<Chunk>)
    requires WritesFromFront(s, answers, chunks) && |s.queue| == 1
    ensures chunks == [EventChunk(s.queue[0], |s.fates|, answers(|s.wire|))]
  {
  }

  lemma {:induction false} SameFront(s: State, s1: State, answers: WriteAnswers, chunks: seq<Chunk>)
    requires s1 == s.(draining := false) && WritesFromFront(s1, answers, chunks)
    ensures WritesFromFront(s, answers, chunks)
  {
  }

  // ---- What is accepted and lost ----

  /**
   * What becomes of events. An enqueue on an open connection accepts its event, at the cost of the oldest one exactly
   * when fifty wait; on a closed one it only counts a drop. A close throws the queue away, once. Nothing else drops
   * anything.
   */
  lemma {:induction false} WhatIsAccepted(s: State, e: Event, answers: WriteAnswers)
    requires Waiting(s) && |s.queue| <= 50
    ensures var s' := Step(s, e, answers);
            && s'.accepted == (if e.Enqueue? && !s.closed then s.accepted + [e.text] else s.accepted)
            && s'.rejected == s.rejected + (if e.Enqueue? && s.closed then 1 else 0)
            && s'.dropped == s.dropped
                             + (if e.Enqueue? && (s.closed || |s.queue| == 50) then 1 else 0)
            && s'.closed == (s.closed || e.Close?)
            && s'.discarded == (if e.Close? && !s.closed then s.queue else s.discarded)
            && (e.Enqueue? && !s.closed && s.draining ==>
                 s'.queue == (if |s.queue| == 50 then s.queue[1..] else s.queue) + [e.text])
            && (e.Keepalive? ==> s'.queue == s.queue && s'.sent == s.sent)
  {
    hide WritesFromFront;
    if !s.closed && !s.draining && e.Enqueue? {
      FlushEffects(Admit(s, e.text), answers);
    }
    if !s.closed && e.Drain? {
      FlushEffects(s.(draining := false), answers);
    }
  }

  // ---- Draining ----

  predicate HasRefusal(chunks: seq<Chunk>) {
    exists c :: c in chunks && !c.ok
  }

  lemma {:induction false} RefusalIsLast(s: State, answers: WriteAnswers, chunks: seq<Chunk>)
    requires WritesFromFront(s, answers, chunks)
    ensures HasRefusal(chunks) <==> |chunks| > 0 && !chunks[|chunks| - 1].ok
  {
    if |chunks| > 0 {
      assert chunks[|chunks| - 1] in chunks;
    }
  }

  /** A step ends draining exactly when it got a refusal, or was draining and is no drain. */
  lemma {:induction false} DrainingStep(s: State, e: Event, answers: WriteAnswers)
    requires Waiting(s) && |s.queue| <= 50
    ensures var s' := Step(s, e, answers);
            s.wire <= s'.wire && (s'.draining <==> HasRefusal(s'.wire[|s.wire|..]) || (s.draining && !e.Drain?))
  {
    hide WritesFromFront;
    var s' := Step(s, e, answers);
    if s.closed {
      assert s'.wire[|s.wire|..] == [];
    } else {
      match e
      case Enqueue(text) =>
        if s.draining {
          assert s'.wire[|s.wire|..] == [];
        } else {
          FlushEffects(Admit(s, text), answers);
          RefusalIsLast(Admit(s, text), answers, s'.wire[|s.wire|..]);
        }
      case Drain =>
        FlushEffects(s.(draining := false), answers);
        RefusalIsLast(s.(draining := false), answers, s'.wire[|s.wire|..]);
      case Keepalive =>
        var chunk := KeepaliveChunk(answers(|s.wire|));
        assert s'.wire[|s.wire|..] == [chunk] && chunk in [chunk];
      case Close => assert s'.wire[|s.wire|..] == [];
    }
  }

  /** The k-th event of the run got a refusal. */
  predicate Refused(run: seq<Event>, answers: WriteAnswers, k: nat)
    requires k < |run|
  {
    var before, after := After(run[..k], answers).wire, After(run[..k + 1], answers).wire;
    |before| <= |after| && HasRefusal(after[|before|..])
  }

  ghost predicate RefusedSinceDrain(run: seq<Event>, answers: WriteAnswers) {
    exists k :: 0 <= k < |run| && Refused(run, answers, k) && forall j :: k < j < |run| ==> !run[j].Drain?
  }

  /**
   * Over a run: the connection is draining exactly when the stream refused some write, event or keepalive, since the
   * last drain.
   */
  lemma {:induction false} DrainingIff(run: seq<Event>, answers: WriteAnswers)
    ensures After(run, answers).draining <==> RefusedSinceDrain(run, answers)
  {
    hide Step, Refused, RefusedSinceDrain, Inv, Waiting;
    if run == [] {
      NoneRefused(answers);
    } else {
      var n := |run| - 1;
      var before := run[..n];
      DrainingIff(before, answers);
      RunsAreSafe(before, answers);
      AcceptedEventsAreAccounted(before, answers);
      DrainingStep(After(before, answers), run[n], answers);
      LastRefused(run, answers);
      RefusedSinceDrainStep(run, answers);
    }
  }

  lemma {:induction false} RefusedSinceDrainStep(run: seq<Event>, answers: WriteAnswers)
    requires run != []
    ensures var n := |run| - 1;
            RefusedSinceDrain(run, answers) <==>
            Refused(run, answers, n) || (RefusedSinceDrain(run[..n], answers) && !run[n].Drain?)
  {
    hide Refused;
    var n := |run| - 1;
    var before := run[..n];
    forall k | 0 <= k < n ensures Refused(before, answers, k) == Refused(run, answers, k) {
      EarlierRefused(run, answers, k);
    }
    if RefusedSinceDrain(before, answers) && !run[n].Drain? {
      var k :| 0 <= k < n && Refused(before, answers, k) && forall j :: k < j < n ==> !before[j].Drain?;
      assert Refused(run, answers, k);
      assert forall j :: k < j < |run| ==> j == n || run[j] == before[j];
    }
    if RefusedSinceDrain(run, answers) {
      var k :| 0 <= k < |run| && Refused(run, answers, k) && forall j :: k < j < |run| ==> !run[j].Drain?;
      if k < n {
        assert Refused(before, answers, k);
        assert forall j :: k < j < n ==> before[j] == run[j];
      }
    }
  }

  lemma {:induction false} NoneRefused(answers: WriteAnswers)
    ensures !RefusedSinceDrain([], answers)
  {
  }

  lemma {:induction false} LastRefused(run: seq<Event>, answers: WriteAnswers)
    requires run != []
    ensures var n := |run| - 1; var before, after := After(run[..n], answers).wire, After(run, answers).wire;
            |before| <= |after| ==> (Refused(run, answers, n) <==> HasRefusal(after[|before|..]))
  {
    hide After;
    assert run[..|run|] == run;
  }

  lemma {:induction false} EarlierRefused(run: seq<Event>, answers: WriteAnswers, k: nat)
    requires k < |run| - 1
    ensures Refused(run[..|run| - 1], answers, k) == Refused(run, answers, k)
  {
    hide After;
    var before := run[..|run| - 1];
    assert before[..k] == run[..k] && before[..k + 1] == run[..k + 1];
  }
}
