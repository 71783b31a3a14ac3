/** Reassembly of fragments into zero-terminated messages, under a memory limit and a timer. */
module FragmentReassembler {
  import opened Sequences

  const TELEMETRY_MESSAGE_TERMINATOR: int := 0
  const MESSAGE_TOO_BIG_CLOSE_CODE: int := 1009

  type Byte = b: int | 0 <= b < 256
  type Bytes = seq<Byte>

  datatype Reason = PartialMessageTooLarge | PartialMessageTimeout

  datatype Violation = Violation(reason: Reason, bufferBytes: nat, chunkBytes: Option<nat>, limitBytes: nat)

  datatype Reassembly = Reassembly(
      messages: seq<Bytes>, closed: bool, closeCode: Option<int>, violation: Option<Violation>)

  /** The stream position: what is buffered, whether the connection was closed, whether the timer runs. */
  datatype Stream = Stream(buffer: Bytes, closed: bool, timerArmed: bool)

  const Opened: Stream := Stream([], false, false)

  // ---- Splitting ----

  /** buffer.indexOf(0x00) */
  function IndexOfTerminator(b: Bytes): (i: int)
    ensures -1 <= i < |b|
    ensures i >= 0 ==>
              && b[i] == TELEMETRY_MESSAGE_TERMINATOR
              && forall k :: 0 <= k < i ==> b[k] != TELEMETRY_MESSAGE_TERMINATOR
    ensures i == -1 ==> forall k :: 0 <= k < |b| ==> b[k] != TELEMETRY_MESSAGE_TERMINATOR
  {
    if b == [] then -1
    else if b[0] == TELEMETRY_MESSAGE_TERMINATOR then 0
    else
      var rest := IndexOfTerminator(b[1..]);
      if rest == -1 then -1 else rest + 1
  }

  /** The complete messages at the front of b, and what follows the last terminator. */
  function Split(b: Bytes): (seq<Bytes>, Bytes)
    decreases |b|
  {
    var i := IndexOfTerminator(b);
    if i == -1 then ([], b)
    else
      var (messages, rest) := Split(b[i + 1..]);
      ([b[..i]] + messages, rest)
  }

  /** Each message followed by its terminator. */
  function Encode(messages: seq<Bytes>): Bytes {
    if messages == [] then [] else messages[0] + [TELEMETRY_MESSAGE_TERMINATOR] + Encode(messages[1..])
  }

  predicate TerminatorFree(messages: seq<Bytes>) {
    forall m :: m in messages ==> TELEMETRY_MESSAGE_TERMINATOR !in m
  }

  // ---- Operations ----

  function Append(limit: nat, s: Stream, chunk: Bytes): (Stream, Reassembly) {
    if s.closed then (s, Reassembly([], true, Some(MESSAGE_TOO_BIG_CLOSE_CODE), None))
    else if |s.buffer| + |chunk| > limit then
      (Stream([], true, false),
       Reassembly([], true, Some(MESSAGE_TOO_BIG_CLOSE_CODE),
                  Some(Violation(PartialMessageTooLarge, |s.buffer|, Some(|chunk|), limit))))
    else
      var (messages, rest) := Split(s.buffer + chunk);
      (Stream(rest, false, rest != []), Reassembly(messages, false, None, None))
  }

  class TelemetryFragmentReassembler {
    const maxPartialMessageSize: nat
    var buffer: Bytes
    var closed: bool
    var timerArmed: bool
    var publishedBytes: nat         // last value given to onBufferSizeChange
    var violations: seq<Violation>  // given to onProtocolViolation

    constructor (maxPartialMessageSize: nat)
      ensures State() == Opened && violations == [] && publishedBytes == 0
      ensures this.maxPartialMessageSize == maxPartialMessageSize
    {
      this.maxPartialMessageSize := maxPartialMessageSize;
      buffer, closed, timerArmed, publishedBytes, violations := [], false, false, 0, [];
    }

    ghost function State(): Stream
      reads this
    {
      Stream(buffer, closed, timerArmed)
    }

    /** A timer runs exactly while something is buffered. */
    ghost predicate Valid()
      reads this
    {
      && (timerArmed <==> buffer != [])
      && |buffer| <= maxPartialMessageSize
      && publishedBytes == |buffer|
    }

    method ArmTimeoutIfNeeded()
      modifies this`timerArmed
      ensures timerArmed == (old(timerArmed) || buffer != [])
    {
      if |buffer| == 0 || timerArmed {
        return;
      }
      timerArmed := true;
    }

    method ResetForViolation(reason: Reason, chunkBytes: Option<nat>) returns (v: Violation)
      modifies this`buffer, this`timerArmed, this`publishedBytes, this`violations
      ensures v == Violation(reason, |old(buffer)|, chunkBytes, maxPartialMessageSize)
      ensures buffer == [] && !timerArmed && publishedBytes == 0 && violations == old(violations) + [v]
    {
      v := Violation(reason, |buffer|, chunkBytes, maxPartialMessageSize);
      timerArmed := false;
      buffer := [];
      publishedBytes := |buffer|;
      violations := violations + [v];
    }

    /** Takes the complete messages off the front of the buffer. */
    method TakeMessages() returns (messages: seq<Bytes>)
      modifies this`buffer
      ensures (messages, buffer) == Split(old(buffer))
      ensures |buffer| <= |old(buffer)|
    {
      ghost var whole := Split(buffer);
      messages := [];
      assert messages + whole.0 == whole.0;
      var terminatorIndex := IndexOfTerminator(buffer);
      while terminatorIndex != -1
        invariant terminatorIndex == IndexOfTerminator(buffer)
        invariant |buffer| <= |old(buffer)|
        invariant whole == (messages + Split(buffer).0, Split(buffer).1)
        decreases |buffer|
      {
        ghost var rest := Split(buffer[terminatorIndex + 1..]);
        assert messages + ([buffer[..terminatorIndex]] + rest.0) == (messages + [buffer[..terminatorIndex]]) + rest.0;
        messages := messages + [buffer[..terminatorIndex]];
        buffer := buffer[terminatorIndex + 1..];
        terminatorIndex := IndexOfTerminator(buffer);
      }
      assert messages + [] == messages;
    }

    method AppendChunk(chunk: Bytes) returns (result: Reassembly)
      requires Valid()
      modifies this
      ensures Valid()
      ensures (State(), result) == Append(maxPartialMessageSize, old(State()), chunk)
      ensures violations == old(violations) + if result.violation.Some? then [result.violation.value] else []
    {
      hide Split;
      if closed {
        return Reassembly([], true, Some(MESSAGE_TOO_BIG_CLOSE_CODE), None);
      }
      if |buffer| + |chunk| > maxPartialMessageSize {
        var v := ResetForViolation(PartialMessageTooLarge, Some(|chunk|));
        closed := true;
        return Reassembly([], true, Some(MESSAGE_TOO_BIG_CLOSE_CODE), Some(v));
      }
      buffer := buffer + chunk;
      publishedBytes := |buffer|;
      ArmTimeoutIfNeeded();
      var messages := TakeMessages();
      publishedBytes := |buffer|;
      if |buffer| == 0 {
        timerArmed := false;
      } else {
        ArmTimeoutIfNeeded();
      }
      return Reassembly(messages, false, None, None);
    }

    /** The partial message timed out. The connection is not closed. */
    method TimeoutFires()
      requires Valid() && timerArmed
      modifies this
      ensures Valid() && State() == Emptied(old(State()))
      ensures violations == old(violations)
                + [Violation(PartialMessageTimeout, |old(buffer)|, None, maxPartialMessageSize)]
    {
      var v := ResetForViolation(PartialMessageTimeout, None);
    }

    method Dispose()
      requires Valid()
      modifies this
      ensures Valid() && State() == Emptied(old(State())) && violations == old(violations)
    {
      timerArmed := false;
      buffer := [];
      publishedBytes := |buffer|;
    }
  }

  // ---- Splitting is decoding ----

  lemma {:induction false} EncodeCons(m: Bytes, messages: seq<Bytes>)
    ensures Encode([m] + messages) == m + [TELEMETRY_MESSAGE_TERMINATOR] + Encode(messages)
  {
    assert ([m] + messages)[1..] == messages;
  }

  lemma {:induction false} FirstMessage(b: Bytes, i: nat, messages: seq<Bytes>, rest: Bytes)
    requires i < |b| && b[i] == TELEMETRY_MESSAGE_TERMINATOR && Encode(messages) + rest == b[i + 1..]
    ensures Encode([b[..i]] + messages) + rest == b
  {
    hide Encode;
    EncodeCons(b[..i], messages);
    calc {
      b[..i] + [TELEMETRY_MESSAGE_TERMINATOR] + Encode(messages) + rest;
      b[..i] + [TELEMETRY_MESSAGE_TERMINATOR] + (Encode(messages) + rest);
      b[..i] + [TELEMETRY_MESSAGE_TERMINATOR] + b[i + 1..];
      b;
    }
  }

  /** The messages, each followed by its terminator, then the remainder, are the bytes that were split. */
  lemma {:induction false} SplitLosesNothing(b: Bytes)
    ensures var (messages, rest) := Split(b);
            && Encode(messages) + rest == b
            && TerminatorFree(messages) && TELEMETRY_MESSAGE_TERMINATOR !in rest && |rest| <= |b|
    decreases |b|
  {
    hide Encode;
    var i := IndexOfTerminator(b);
    if i == -1 {
      EncodeNothing();
      assert [] + b == b;
    } else {
      SplitLosesNothing(b[i + 1..]);
      var (messages, rest) := Split(b[i + 1..]);
      FirstMessage(b, i, messages, rest);
    }
  }

  lemma {:induction false} EncodeNothing()
    ensures Encode([]) == []
  {
  }

  lemma {:induction false} IndexInConcat(m: Bytes, rest: Bytes)
    requires TELEMETRY_MESSAGE_TERMINATOR !in m
    ensures IndexOfTerminator(m + [TELEMETRY_MESSAGE_TERMINATOR] + rest) == |m|
  {
    var b := m + [TELEMETRY_MESSAGE_TERMINATOR] + rest;
    assert b[|m|] == TELEMETRY_MESSAGE_TERMINATOR;
    assert forall k :: 0 <= k < |m| ==> b[k] == m[k];
  }

  /** Splitting is the only way to read the bytes as terminator-free messages and a terminator-free remainder. */
  lemma {:induction false} SplitIsTheDecoder(messages: seq<Bytes>, rest: Bytes)
    requires TerminatorFree(messages) && TELEMETRY_MESSAGE_TERMINATOR !in rest
    ensures Split(Encode(messages) + rest) == (messages, rest)
    decreases |messages|
  {
    hide Encode;
    var b := Encode(messages) + rest;
    if messages == [] {
      EncodeNothing();
      assert b == rest;
    } else {
      var m, tail := messages[0], Encode(messages[1..]) + rest;
      assert messages == [m] + messages[1..];
      EncodeCons(m, messages[1..]);
      assert b == m + [TELEMETRY_MESSAGE_TERMINATOR] + tail;
      IndexInConcat(m, tail);
      assert b[..|m|] == m && b[|m| + 1..] == tail;
      SplitIsTheDecoder(messages[1..], rest);
    }
  }

  lemma {:induction false} EncodeConcat(a: seq<Bytes>, b: seq<Bytes>)
    ensures Encode(a + b) == Encode(a) + Encode(b)
  {
    if a == [] {
      assert a + b == b;
    } else {
      assert (a + b)[1..] == a[1..] + b;
      EncodeConcat(a[1..], b);
    }
  }

  /** Splitting what was left over together with the next chunk continues the split. */
  lemma {:induction false} SplitContinues(b: Bytes, chunk: Bytes)
    ensures var (messages, rest) := Split(b);
            var (more, rest') := Split(rest + chunk);
            Split(b + chunk) == (messages + more, rest')
  {
    hide Split, Encode;
    var (messages, rest) := Split(b);
    var (more, rest') := Split(rest + chunk);
    SplitLosesNothing(b);
    SplitLosesNothing(rest + chunk);
    EncodeConcat(messages, more);
    assert Encode(messages) + Encode(more) + rest' == Encode(messages) + (rest + chunk)
        == (Encode(messages) + rest) + chunk;
    assert Encode(messages + more) + rest' == b + chunk;
    SplitIsTheDecoder(messages + more, rest');
  }

  // ---- Whole runs ----

  datatype Input = Chunk(bytes: Bytes) | Timeout

  /** Nothing buffered, timer off. */
  function Emptied(s: Stream): Stream {
    s.(buffer := [], timerArmed := false)
  }

  datatype Fed = Violated | Fed(messages: seq<Bytes>, stream: Stream)

  /** Takes the inputs in turn; Violated when a chunk exceeds the limit. A timer that is not armed does not fire. */
  function Feed(limit: nat, inputs: seq<Input>): Fed {
    if inputs == [] then Fed([], Opened)
    else
      match Feed(limit, inputs[..|inputs| - 1])
      case Violated => Violated
      case Fed(messages, s) =>
        match inputs[|inputs| - 1]
        case Timeout => Fed(messages, if s.timerArmed then Emptied(s) else s)
        case Chunk(bytes) =>
          var (s', r) := Append(limit, s, bytes);
          if r.violation.Some? then Violated else Fed(messages + r.messages, s')
  }

  /** The bytes received between timeouts, up to now: one piece more than there were timeouts. */
  function Pieces(inputs: seq<Input>): (pieces: seq<Bytes>)
    ensures |pieces| > 0
  {
    if inputs == [] then [[]]
    else
      var pieces := Pieces(inputs[..|inputs| - 1]);
      match inputs[|inputs| - 1]
      case Timeout => pieces + [[]]
      case Chunk(bytes) => Grown(pieces, bytes)
  }

  /** The last piece goes on. */
  function Grown(pieces: seq<Bytes>, bytes: Bytes): (grown: seq<Bytes>)
    requires |pieces| > 0
    ensures |grown| == |pieces|
  {
    pieces[..|pieces| - 1] + [pieces[|pieces| - 1] + bytes]
  }

  function LastPiece(inputs: seq<Input>): Bytes {
    Pieces(inputs)[|Pieces(inputs)| - 1]
  }

  /** What stays buffered once b has been split. */
  function Residue(b: Bytes): Bytes {
    Split(b).1
  }

  /** The messages of each piece read on its own. */
  function MessagesOf(pieces: seq<Bytes>): seq<Bytes> {
    if pieces == [] then [] else MessagesOf(pieces[..|pieces| - 1]) + Split(pieces[|pieces| - 1]).0
  }

  lemma {:induction false} MessagesOfMore(pieces: seq<Bytes>, b: Bytes)
    ensures MessagesOf(pieces + [b]) == MessagesOf(pieces) + Split(b).0
  {
    assert (pieces + [b])[..|pieces|] == pieces;
  }

  lemma {:induction false} MessagesOfOne(b: Bytes)
    ensures MessagesOf([b]) == Split(b).0
  {
    assert [b][..0] == [];
    MessagesOfMore([], b);
    assert [b] == [] + [b];
    assert MessagesOf([]) + Split(b).0 == Split(b).0;
  }

  lemma {:induction false} SplitOfNothing()
    ensures Split([]) == ([], [])
  {
  }

  /** One more chunk of the last piece. */
  lemma {:induction false} PieceGrows(inputs: seq<Input>, bytes: Bytes)
    ensures MessagesOf(Pieces(inputs + [Chunk(bytes)]))
         == MessagesOf(Pieces(inputs)) + Split(Residue(LastPiece(inputs)) + bytes).0
    ensures Residue(LastPiece(inputs + [Chunk(bytes)])) == Residue(Residue(LastPiece(inputs)) + bytes)
  {
    hide Split;
    assert (inputs + [Chunk(bytes)])[..|inputs|] == inputs;
    var pieces, b := Pieces(inputs), LastPiece(inputs);
    var front := pieces[..|pieces| - 1];
    assert pieces == front + [b];
    MessagesOfMore(front, b);
    MessagesOfMore(front, b + bytes);
    SplitContinues(b, bytes);
  }

  lemma {:induction false} PieceEnds(inputs: seq<Input>)
    ensures MessagesOf(Pieces(inputs + [Timeout])) == MessagesOf(Pieces(inputs))
    ensures Residue(LastPiece(inputs + [Timeout])) == []
  {
    assert (inputs + [Timeout])[..|inputs|] == inputs;
    SplitOfNothing();
    MessagesOfMore(Pieces(inputs), []);
  }

  /**
   * However the bytes were cut into chunks, and whenever the timer fired, a run without violation emits the messages of
   * the pieces between timeouts, each split on its own, and buffers what the last one leaves.
   */
  lemma {:induction false} ReassemblyReadsPieces(limit: nat, inputs: seq<Input>)
    requires Feed(limit, inputs).Fed?
    ensures var f := Feed(limit, inputs);
            && !f.stream.closed
            && f.messages == MessagesOf(Pieces(inputs)) && f.stream.buffer == Residue(LastPiece(inputs))
            && |f.stream.buffer| <= limit
            && (f.stream.timerArmed <==> f.stream.buffer != [])
  {
    hide Split, Pieces, LastPiece, Residue;
    if inputs == [] {
      NoPieceYet();
    } else {
      var before := inputs[..|inputs| - 1];
      ReassemblyReadsPieces(limit, before);
      assert inputs == before + [inputs[|inputs| - 1]];
      match inputs[|inputs| - 1]
      case Timeout => PieceEnds(before);
      case Chunk(bytes) =>
        PieceGrows(before, bytes);
        SplitResidue(Residue(LastPiece(before)) + bytes);
    }
  }

  lemma {:induction false} NoPieceYet()
    ensures MessagesOf(Pieces([])) == [] && Residue(LastPiece([])) == []
  {
    SplitOfNothing();
    MessagesOfMore([], []);
    var none: seq<Bytes> := [];
    assert [[]] == none + [[]];
  }

  lemma {:induction false} SplitResidue(b: Bytes)
    ensures Split(b).1 == Residue(b) && |Residue(b)| <= |b|
  {
    SplitLosesNothing(b);
  }

  // ---- Runs without timeouts ----

  function Chunks(chunks: seq<Bytes>): seq<Input> {
    seq(|chunks|, i requires 0 <= i < |chunks| => Chunk(chunks[i]))
  }

  lemma {:induction false} ChunksArePieces(chunks: seq<Bytes>)
    ensures Pieces(Chunks(chunks)) == [Concat(chunks)]
  {
    if chunks != [] {
      var k := |chunks| - 1;
      assert Chunks(chunks)[..k] == Chunks(chunks[..k]);
      ChunksArePieces(chunks[..k]);
    }
  }

  /** Without timeouts, a run without violation emits what splitting all the bytes at once does. */
  lemma {:induction false} ReassemblyIgnoresChunking(limit: nat, chunks: seq<Bytes>)
    requires Feed(limit, Chunks(chunks)).Fed?
    ensures var f := Feed(limit, Chunks(chunks));
            && Split(Concat(chunks)) == (f.messages, f.stream.buffer)
            && |f.stream.buffer| <= limit
            && (f.stream.timerArmed <==> f.stream.buffer != [])
  {
    hide Split, Feed, MessagesOf;
    ReassemblyReadsPieces(limit, Chunks(chunks));
    ChunksArePieces(chunks);
    MessagesOfOne(Concat(chunks));
  }

  /** Any chunking of encoded messages that causes no violation gives exactly those messages back. */
  lemma {:induction false} EncodedMessagesComeBack(limit: nat, chunks: seq<Bytes>, messages: seq<Bytes>)
    requires Feed(limit, Chunks(chunks)).Fed? && TerminatorFree(messages) && Concat(chunks) == Encode(messages)
    ensures Feed(limit, Chunks(chunks)).messages == messages && Feed(limit, Chunks(chunks)).stream == Opened
  {
    hide Split;
    ReassemblyReadsPieces(limit, Chunks(chunks));
    ReassemblyIgnoresChunking(limit, chunks);
    assert Encode(messages) + [] == Encode(messages);
    SplitIsTheDecoder(messages, []);
  }

  // ---- Which runs violate ----

  /** The k-th input, if it is a chunk, fits on top of what was left over. */
  predicate Fits(limit: nat, inputs: seq<Input>, k: nat)
    requires k < |inputs|
  {
    inputs[k].Chunk? ==> |Residue(LastPiece(inputs[..k]))| + |inputs[k].bytes| <= limit
  }

  /**
   * A run causes no violation exactly when each chunk fits on top of what the chunks since the last timeout left over.
   */
  lemma {:induction false} AcceptsIff(limit: nat, inputs: seq<Input>)
    ensures Feed(limit, inputs).Fed? <==> forall k :: 0 <= k < |inputs| ==> Fits(limit, inputs, k)
  {
    hide Split, LastPiece, Residue;
    if inputs != [] {
      var k := |inputs| - 1;
      AcceptsIff(limit, inputs[..k]);
      forall j | 0 <= j < k ensures Fits(limit, inputs[..k], j) <==> Fits(limit, inputs, j) {
        assert inputs[..k][..j] == inputs[..j];
      }
      if Feed(limit, inputs[..k]).Fed? {
        ReassemblyReadsPieces(limit, inputs[..k]);
      }
      assert (forall j :: 0 <= j < |inputs| ==> Fits(limit, inputs, j))
        <==> (forall j :: 0 <= j < k ==> Fits(limit, inputs[..k], j)) && Fits(limit, inputs, k);
    }
  }

  /** Without timeouts: when each chunk fits on top of the unfinished message before it. */
  lemma {:induction false} ChunkingAcceptsIff(limit: nat, chunks: seq<Bytes>)
    ensures Feed(limit, Chunks(chunks)).Fed? <==>
              forall k :: 0 <= k < |chunks| ==> |Residue(Concat(chunks[..k]))| + |chunks[k]| <= limit
  {
    hide Feed, Residue;
    AcceptsIff(limit, Chunks(chunks));
    forall k | 0 <= k < |chunks|
      ensures Fits(limit, Chunks(chunks), k) <==> |Residue(Concat(chunks[..k]))| + |chunks[k]| <= limit
    {
      assert Chunks(chunks)[..k] == Chunks(chunks[..k]);
      ChunksArePieces(chunks[..k]);
    }
  }

  function Singles(b: Bytes): seq<Bytes> {
    seq(|b|, i requires 0 <= i < |b| => [b[i]])
  }

  lemma {:induction false} ConcatSingles(b: Bytes)
    ensures Concat(Singles(b)) == b
  {
    if b != [] {
      var k := |b| - 1;
      assert Singles(b)[..k] == Singles(b[..k]);
      ConcatSingles(b[..k]);
    }
  }

  /** Fed byte by byte, a stream causes no violation exactly when every unfinished message, with one byte more, fits. */
  lemma {:induction false} BytewiseAcceptsIff(limit: nat, b: Bytes)
    ensures Feed(limit, Chunks(Singles(b))).Fed? <==> forall i :: 0 <= i < |b| ==> |Residue(b[..i])| + 1 <= limit
  {
    hide Feed, Residue;
    ChunkingAcceptsIff(limit, Singles(b));
    forall i | 0 <= i < |b| ensures Concat(Singles(b)[..i]) == b[..i] {
      assert Singles(b)[..i] == Singles(b[..i]);
      ConcatSingles(b[..i]);
    }
  }

  lemma {:induction false} AcceptedChunksLeaveRoom(limit: nat, chunks: seq<Bytes>, i: nat)
    requires Feed(limit, Chunks(chunks)).Fed? && i < |Concat(chunks)|
    ensures |Residue(Concat(chunks)[..i])| + 1 <= limit
  {
    var k := |chunks| - 1;
    var before, chunk := chunks[..k], chunks[k];
    assert Chunks(chunks)[..k] == Chunks(before);
    var b := Concat(before);
    if i < |b| {
      AcceptedChunksLeaveRoom(limit, before, i);
      assert Concat(chunks)[..i] == b[..i];
    } else {
      ReassemblyIgnoresChunking(limit, before);
      var part := chunk[..i - |b|];
      assert Concat(chunks)[..i] == b + part;
      SplitContinues(b, part);
      SplitLosesNothing(Residue(b) + part);
      ChunkingAcceptsIff(limit, chunks);
    }
  }

  /** Bytewise feeding is the most permissive: it accepts every stream that some chunking accepts. */
  lemma {:induction false} AnyAcceptedStreamIsAcceptedBytewise(limit: nat, chunks: seq<Bytes>)
    requires Feed(limit, Chunks(chunks)).Fed?
    ensures Feed(limit, Chunks(Singles(Concat(chunks)))).Fed?
  {
    hide Feed, Residue;
    forall i | 0 <= i < |Concat(chunks)| ensures |Residue(Concat(chunks)[..i])| + 1 <= limit {
      AcceptedChunksLeaveRoom(limit, chunks, i);
    }
    BytewiseAcceptsIff(limit, Concat(chunks));
  }

  /** Two small messages in one chunk may violate a limit that each of them respects. */
  lemma {:induction false} CoarseChunkingMayViolate()
    ensures Feed(2, Chunks([[7, 0], [7, 0]])).Fed? && Feed(2, Chunks([[7, 0, 7, 0]])).Violated?
  {
    hide Feed, Split;
    var fine, coarse: seq<Bytes> := [[7, 0], [7, 0]], [[7, 0, 7, 0]];
    ChunkingAcceptsIff(2, fine);
    ChunkingAcceptsIff(2, coarse);
    SplitOfNothing();
    assert fine[..0] == [] && fine[..1] == [[7, 0]] && coarse[..0] == [];
    ConcatOne<Byte>([7, 0]);
    assert Encode([[7]]) + [] == [7, 0];
    SplitIsTheDecoder([[7]], []);
  }

  // ---- What a timeout changes ----

  /** The last piece of p goes on in the first piece of q. */
  function Joined(p: seq<Bytes>, q: seq<Bytes>): seq<Bytes>
    requires |p| > 0 && |q| > 0
  {
    Grown(p, q[0]) + q[1..]
  }

  lemma {:induction false} JoinedGrows(p: seq<Bytes>, q: seq<Bytes>, bytes: Bytes)
    requires |p| > 0 && |q| > 0
    ensures |Joined(p, q)| > 0 && Grown(Joined(p, q), bytes) == Joined(p, Grown(q, bytes))
    ensures Joined(p, q) + [[]] == Joined(p, q + [[]])
  {
    assert (p[|p| - 1] + q[0]) + bytes == p[|p| - 1] + (q[0] + bytes);
  }

  lemma {:induction false} JoinedNothing(p: seq<Bytes>)
    requires |p| > 0
    ensures Joined(p, [[]]) == p
  {
    assert p[|p| - 1] + [] == p[|p| - 1];
  }

  /** Runs one after the other: the last piece of the first goes on in the first piece of the second. */
  lemma {:induction false} PiecesJoin(a: seq<Input>, b: seq<Input>)
    ensures Pieces(a + b) == Joined(Pieces(a), Pieces(b))
  {
    hide Joined, Grown;
    if b == [] {
      assert a + b == a;
      JoinedNothing(Pieces(a));
    } else {
      var k := |b| - 1;
      PiecesJoin(a, b[..k]);
      assert (a + b)[..|a + b| - 1] == a + b[..k] && (a + b)[|a + b| - 1] == b[k];
      JoinedGrows(Pieces(a), Pieces(b[..k]), if b[k].Chunk? then b[k].bytes else []);
    }
  }

  lemma {:induction false} MessagesOfJoin(p: seq<Bytes>, q: seq<Bytes>)
    ensures MessagesOf(p + q) == MessagesOf(p) + MessagesOf(q)
  {
    hide Split, MessagesOf;
    if q == [] {
      NoMessages();
      assert p + q == p;
    } else {
      var k := |q| - 1;
      MessagesOfJoin(p, q[..k]);
      MessagesOfMore(p + q[..k], q[k]);
      MessagesOfMore(q[..k], q[k]);
      assert p + q == p + q[..k] + [q[k]] && q == q[..k] + [q[k]];
    }
  }

  lemma {:induction false} NoMessages()
    ensures MessagesOf([]) == []
  {
  }

  /** Dropping the remainder r changes the messages of what follows unless there is none, or nothing is completed. */
  lemma {:induction false} DroppingIsHarmlessIff(r: Bytes, b: Bytes)
    requires TELEMETRY_MESSAGE_TERMINATOR !in r
    ensures Split(b).0 == Split(r + b).0 <==> r == [] || TELEMETRY_MESSAGE_TERMINATOR !in b
  {
    var i := IndexOfTerminator(b);
    if r == [] {
      assert r + b == b;
    } else if i == -1 {
      assert TELEMETRY_MESSAGE_TERMINATOR !in r + b;
    } else {
      var head, rest := b[..i], b[i + 1..];
      assert r + b == (r + head) + [TELEMETRY_MESSAGE_TERMINATOR] + rest;
      IndexInConcat(r + head, rest);
      assert (r + b)[..|r + head|] == r + head;
      assert Split(b).0[0] == head && Split(r + b).0[0] == r + head;
      assert |r + head| != |head|;
    }
  }

  /** The messages of a run, told from its first piece. */
  lemma {:induction false} MessagesAround(before: seq<Input>, after: seq<Input>)
    ensures var p, q := Pieces(before), Pieces(after);
            && MessagesOf(Pieces(before + after))
            == MessagesOf(p[..|p| - 1]) + Split(p[|p| - 1] + q[0]).0 + MessagesOf(q[1..])
            && MessagesOf(p) == MessagesOf(p[..|p| - 1]) + Split(p[|p| - 1]).0
  {
    hide Pieces, Split;
    var p, q := Pieces(before), Pieces(after);
    PiecesJoin(before, after);
    MessagesOfJoin(p[..|p| - 1] + [p[|p| - 1] + q[0]], q[1..]);
    MessagesOfMore(p[..|p| - 1], p[|p| - 1] + q[0]);
    MessagesOfMore(p[..|p| - 1], p[|p| - 1]);
    assert p == p[..|p| - 1] + [p[|p| - 1]];
  }

  lemma {:induction false} PiecesEmptied(before: seq<Input>)
    ensures Pieces(before + [Timeout]) == Pieces(before) + [[]]
  {
    assert (before + [Timeout])[..|before|] == before;
  }

  lemma {:induction false} SameMiddle<T>(a: seq<T>, x: seq<T>, y: seq<T>, b: seq<T>)
    ensures a + x + b == a + y + b <==> x == y
  {
    if a + x + b == a + y + b {
      assert |x| == |y|;
      assert x == (a + x + b)[|a|..|a| + |x|] == (a + y + b)[|a|..|a| + |x|] == y;
    }
  }

  /**
   * A timeout in the middle of a run leaves the messages as they would have been exactly when nothing was buffered, or
   * when no terminator follows until the next timeout; otherwise the rest of a cut message is emitted as a whole one.
   */
  lemma {:induction false} TimeoutIsHarmlessIff(limit: nat, before: seq<Input>, after: seq<Input>)
    requires Feed(limit, before + [Timeout] + after).Fed? && Feed(limit, before + after).Fed?
    ensures Feed(limit, before + [Timeout] + after).messages == Feed(limit, before + after).messages
       <==> Residue(LastPiece(before)) == [] || TELEMETRY_MESSAGE_TERMINATOR !in Pieces(after)[0]
  {
    hide Feed, Split, MessagesOf, Pieces;
    var p, q := Pieces(before), Pieces(after);
    var b, r := p[|p| - 1], Residue(p[|p| - 1]);
    ReassemblyReadsPieces(limit, before + [Timeout] + after);
    ReassemblyReadsPieces(limit, before + after);
    MessagesAround(before, after);
    MessagesAround(before + [Timeout], after);
    PiecesEmptied(before);
    assert (p + [[]])[..|p|] == p;
    assert [] + q[0] == q[0];
    SplitContinues(b, q[0]);
    SplitLosesNothing(b);
    DroppingIsHarmlessIff(r, q[0]);
    var front, tail := MessagesOf(p[..|p| - 1]), MessagesOf(q[1..]);
    assert front + (Split(b).0 + Split(r + q[0]).0) + tail == (front + Split(b).0) + Split(r + q[0]).0 + tail;
    SameMiddle(front + Split(b).0, Split(q[0]).0, Split(r + q[0]).0, tail);
  }

  /** For one message cut in two by a timeout: the second half comes out as a message. */
  lemma {:induction false} TimeoutLosesFraming(limit: nat, head: Bytes, tail: Bytes)
    requires TELEMETRY_MESSAGE_TERMINATOR !in head && TELEMETRY_MESSAGE_TERMINATOR !in tail
    requires |head| <= limit && |tail| + 1 <= limit
    ensures var end := Chunk(tail + [TELEMETRY_MESSAGE_TERMINATOR]);
            && Feed(limit, [Chunk(head), Timeout, end]).Fed?
            && Feed(limit, [Chunk(head), Timeout, end]).messages == [tail]
  {
    hide Feed, Split;
    var inputs := [Chunk(head), Timeout, Chunk(tail + [TELEMETRY_MESSAGE_TERMINATOR])];
    assert inputs[..0] == [] && inputs[..1] == [Chunk(head)] && inputs[..2] == [Chunk(head), Timeout];
    assert inputs[..1][..0] == [] && inputs[..2][..1] == inputs[..1];
    assert [] + head == head && [] + (tail + [TELEMETRY_MESSAGE_TERMINATOR]) == tail + [TELEMETRY_MESSAGE_TERMINATOR];
    assert Pieces(inputs[..1]) == [head];
    assert Pieces(inputs[..2]) == [head, []];
    assert Pieces(inputs) == [head, tail + [TELEMETRY_MESSAGE_TERMINATOR]];
    SplitOfNothing();
    SplitIsTheDecoder([], head);
    assert Encode([]) + head == head;
    SplitIsTheDecoder([tail], []);
    assert Encode([tail]) + [] == tail + [TELEMETRY_MESSAGE_TERMINATOR];
    AcceptsIff(limit, inputs);
    ReassemblyReadsPieces(limit, inputs);
    MessagesOfOne(head);
    MessagesOfMore([head], tail + [TELEMETRY_MESSAGE_TERMINATOR]);
  }

  // ---- After a violation ----

  /**
   * A violation is a chunk that does not fit on an open connection; it empties the buffer and closes the connection.
   */
  lemma {:induction false} ViolationCloses(limit: nat, s: Stream, chunk: Bytes)
    ensures var (s', r) := Append(limit, s, chunk);
            && (r.violation.Some? <==> !s.closed && |s.buffer| + |chunk| > limit)
            && (r.violation.Some? ==>
                 && r.violation.value == Violation(PartialMessageTooLarge, |s.buffer|, Some(|chunk|), limit)
                 && s' == Stream([], true, false))
            && (r.closed <==> s.closed || r.violation.Some?)
            && r.closeCode == (if r.closed then Some(1009) else None)
            && (r.closed ==> r.messages == [])
            && (s'.closed <==> r.closed)
  {
  }

  /** What further inputs, chunks and timeouts, do to a connection. */
  function Continue(limit: nat, s: Stream, inputs: seq<Input>): (Stream, seq<Reassembly>)
    decreases |inputs|
  {
    if inputs == [] then (s, [])
    else
      match inputs[0]
      case Timeout => Continue(limit, if s.timerArmed then Emptied(s) else s, inputs[1..])
      case Chunk(bytes) =>
        var (s', r) := Append(limit, s, bytes);
        var (last, rest) := Continue(limit, s', inputs[1..]);
        (last, [r] + rest)
  }

  /**
   * Once closed, always closed: whatever arrives, every answer says so, and no message and no violation comes any
   * more.
   */
  lemma {:induction false} ClosedForEver(limit: nat, s: Stream, inputs: seq<Input>)
    requires s.closed
    ensures var (last, answers) := Continue(limit, s, inputs);
            && last.closed && (!s.timerArmed ==> last == s)
            && forall r :: r in answers ==> r == Reassembly([], true, Some(1009), None)
    decreases |inputs|
  {
    if inputs != [] {
      match inputs[0]
      case Timeout => ClosedForEver(limit, if s.timerArmed then Emptied(s) else s, inputs[1..]);
      case Chunk(bytes) => ClosedForEver(limit, s, inputs[1..]);
    }
  }
}
