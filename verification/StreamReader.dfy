/**
 The inbound readers of src/core/data_stream.cpp: DataStreamReaderBudget, and TextStreamReader and
 ByteStreamReader, which differ only in the UTF-8 test on each chunk.
 */
module StreamReader {
  import opened Bytes
  import opened Options
  import opened Sizes
  import Utf8

  datatype Limits = Limits(maxActiveReaders: size, maxBytesPerReader: size, maxBufferedBytes: size,
                           maxQueuedChunks: size, maxReadAllBytes: size)

  /** DataStreamReaderBudget::Limits */
  const DEFAULT_LIMITS := Limits(64, 16 * 1024 * 1024, 64 * 1024 * 1024, 4096, 16 * 1024 * 1024)

  // ----- The shared budget -----

  datatype Budget = Budget(active: nat, buffered: nat)

  function AcquireReader(limits: Limits, b: Budget): (Budget, bool) {
    if b.active >= limits.maxActiveReaders then (b, false) else (b.(active := b.active + 1), true)
  }

  function ReleaseReader(b: Budget): Budget {
    if b.active > 0 then b.(active := b.active - 1) else b
  }

  function ReserveBuffered(limits: Limits, b: Budget, bytes: nat): (Budget, bool) {
    if bytes > limits.maxBufferedBytes - Min(b.buffered, limits.maxBufferedBytes) then (b, false)
    else (b.(buffered := b.buffered + bytes), true)
  }

  function ReleaseBuffered(b: Budget, bytes: nat): Budget {
    b.(buffered := if bytes <= b.buffered then b.buffered - bytes else 0)
  }

  // ----- One reader -----

  datatype CloseReason =
    | ActiveReaderLimitExceeded
    | BufferLimitExceeded
    | ChunkLimitExceeded
    | ChunkSequenceMismatch
    | InvalidUtf8
    | ReadAllLimitExceeded
    | DeclaredLengthExceeded
    | LengthMismatch
    | Given(reason: string)

  /** The fields of a reader; `text` is true of a TextStreamReader. */
  datatype Reader = Reader(text: bool, declared: Option<nat>, attributes: map<string, string>,
                           queue: seq<Chunk>, buffered: nat, received: nat, queuedChunks: nat, next: nat,
                           admitted: bool, registered: bool, closed: bool, failed: bool,
                           reason: Option<CloseReason>)

  /** What every operation keeps. */
  predicate Valid(r: Reader) {
    && r.buffered == Size(r.queue)
    && r.queuedChunks == |r.queue|
    && r.buffered <= r.received <= SIZE_MAX
    && (r.failed <==> r.reason.Some?)
    && (r.failed ==> r.closed)
    && (r.registered ==> r.admitted)
    && (r.registered <==> r.admitted && !r.closed)
    && (forall i :: 0 <= i < |r.queue| ==> r.queue[i] != [])
    && (r.declared.Some? ==> r.received <= r.declared.value)
  }

  function Open(limits: Limits, b: Budget, text: bool, declared: Option<nat>): (Reader, Budget) {
    var (b', admitted) := AcquireReader(limits, b);
    (Reader(text, declared, map[], [], 0, 0, 0, 0, admitted, admitted, !admitted, !admitted,
            if admitted then None else Some(ActiveReaderLimitExceeded)), b')
  }

  function ReleaseActive(r: Reader, b: Budget): (Reader, Budget) {
    if r.registered then (r.(registered := false), ReleaseReader(b)) else (r, b)
  }

  function Fail(r: Reader, b: Budget, reason: CloseReason): (Reader, Budget) {
    if r.closed then (r, b)
    else ReleaseActive(r.(closed := true, failed := true, reason := Some(reason)), b)
  }

  predicate ExceedsDeclared(r: Reader, bytes: nat) {
    || bytes > SIZE_MAX - r.received
    || (r.declared.Some? && (r.received > r.declared.value || bytes > r.declared.value - r.received))
  }

  /** TryOnChunkUpdate */
  function Offer(limits: Limits, r: Reader, b: Budget, index: nat, content: Chunk): (Reader, Budget, bool) {
    if r.closed then (r, b, false)
    else if index != r.next then Refuse(r, b, ChunkSequenceMismatch)
    else if r.text && !Utf8.WellFormed(content) then Refuse(r, b, InvalidUtf8)
    else if content == [] then (r.(next := r.next + 1), b, true)
    else if ExceedsDeclared(r, |content|) then Refuse(r, b, DeclaredLengthExceeded)
    else Admit(limits, r, b, content)
  }

  /** The memory limits of TryOnChunkUpdate, and the push. */
  function Admit(limits: Limits, r: Reader, b: Budget, content: Chunk): (Reader, Budget, bool) {
    if r.queuedChunks >= limits.maxQueuedChunks then Refuse(r, b, ChunkLimitExceeded)
    else if |content| > limits.maxBytesPerReader - Min(r.buffered, limits.maxBytesPerReader)
    then Refuse(r, b, BufferLimitExceeded)
    else
      var (b', reserved) := ReserveBuffered(limits, b, |content|);
      if !reserved then Refuse(r, b, BufferLimitExceeded)
      else (Push(r, content), b', true)
  }

  function Push(r: Reader, content: Chunk): Reader {
    r.(queue := r.queue + [content], buffered := r.buffered + |content|,
       received := r.received + |content|, queuedChunks := r.queuedChunks + 1, next := r.next + 1)
  }

  function Refuse(r: Reader, b: Budget, reason: CloseReason): (Reader, Budget, bool) {
    var (r', b') := Fail(r, b, reason);
    (r', b', false)
  }

  /** OnStreamClose */
  function Close(r: Reader, b: Budget, reason: string, attributes: map<string, string>): (Reader, Budget) {
    if r.closed then (r, b)
    else
      var r1 := r.(attributes := r.attributes + attributes);
      if r1.declared.Some? && r1.received != r1.declared.value then Fail(r1, b, LengthMismatch)
      else if reason != "" then Fail(r1, b, Given(reason))
      else ReleaseActive(r1.(closed := true, reason := None), b)
  }

  /** Takes the first queued chunk; its bytes stay reserved in the budget. */
  function Pop(r: Reader): (Reader, Chunk)
    requires r.queue != [] && Valid(r)
  {
    assert r.buffered >= |r.queue[0]|;
    (r.(queue := r.queue[1..], buffered := r.buffered - |r.queue[0]|, queuedChunks := r.queuedChunks - 1), r.queue[0])
  }

  /** ReadNext once it need not wait, that is when a chunk is queued or the stream is closed. */
  function ReadNext(r: Reader, b: Budget): (Reader, Budget, Option<Chunk>)
    requires Valid(r)
  {
    if r.queue == [] then (r, b, None)
    else
      var (r', chunk) := Pop(r);
      (r', ReleaseBuffered(b, |chunk|), Some(chunk))
  }

  function MarkReadAllLimitExceeded(r: Reader, b: Budget): (Reader, Budget) {
    if r.failed then (r, b)
    else ReleaseActive(r.(closed := true, failed := true, reason := Some(ReadAllLimitExceeded)), b)
  }

  predicate OverflowsReadAll(limits: Limits, resultSize: nat, chunkSize: nat) {
    chunkSize > limits.maxReadAllBytes - Min(resultSize, limits.maxReadAllBytes)
  }

  function Destroy(r: Reader, b: Budget): (Reader, Budget) {
    var (r1, b1) := ReleaseActive(r.(closed := true), b);
    (r1.(queue := [], buffered := 0, queuedChunks := 0), ReleaseBuffered(b1, r.buffered))
  }

  /** What ReadAll comes to: the bytes, the exception it throws, or a wait with the bytes it has taken so far. */
  datatype ReadResult = Bytes(bytes: Chunk) | Throws(reason: CloseReason) | Waits(taken: Chunk)

  /** ReadAll from the point where it holds `result`, up to its end or to where it waits for another thread. */
  function ReadAllFrom(limits: Limits, r: Reader, b: Budget, result: Chunk): (Reader, Budget, ReadResult)
    requires Valid(r)
    decreases |r.queue|
  {
    if r.queue == [] && !r.closed then (r, b, Waits(result))
    else if r.queue == [] then
      (r, ReleaseBuffered(b, |result|), if r.failed then Throws(r.reason.value) else Bytes(result))
    else
      var (r', chunk) := Pop(r);
      if OverflowsReadAll(limits, |result|, |chunk|) then
        var (r'', b'') := MarkReadAllLimitExceeded(r', b);
        (r'', ReleaseBuffered(b'', |result| + |chunk|), Throws(ReadAllLimitExceeded))
      else
        PopKeepsValid(r);
        ReadAllFrom(limits, r', b, result + chunk)
  }

  lemma PopKeepsValid(r: Reader)
    requires r.queue != [] && Valid(r)
    ensures Valid(Pop(r).0)
  {
  }

  // ----- What one reader delivers, whatever happens to the shared budget -----

  /** One call on a reader; `budget` is the shared budget it finds, left there by any other readers. */
  datatype Call =
    | Chunk(index: nat, content: Bytes.Chunk)
    | StreamClose(reason: string, attributes: map<string, string>)
    | StreamError(reason: string)
    | Read
    | ReadAllLimit

  /** A reader with the bytes it has accepted and the bytes ReadNext has handed out. */
  datatype Traced = Traced(reader: Reader, accepted: Bytes.Chunk, delivered: Bytes.Chunk)

  ghost predicate Consistent(t: Traced) {
    && Valid(t.reader)
    && t.accepted == t.delivered + Concat(t.reader.queue)
    && t.reader.received == |t.accepted|
  }

  function Do(limits: Limits, t: Traced, call: Call, budget: Budget): Traced
    requires Valid(t.reader)
  {
    match call
    case Chunk(index, content) =>
      var (r, _, ok) := Offer(limits, t.reader, budget, index, content);
      Traced(r, if ok then t.accepted + content else t.accepted, t.delivered)
    case StreamClose(reason, attributes) => t.(reader := Close(t.reader, budget, reason, attributes).0)
    case StreamError(reason) => t.(reader := Fail(t.reader, budget, Given(reason)).0)
    case Read =>
      var (r, _, chunk) := ReadNext(t.reader, budget);
      Traced(r, t.accepted, if chunk.Some? then t.delivered + chunk.value else t.delivered)
    case ReadAllLimit => t.(reader := MarkReadAllLimitExceeded(t.reader, budget).0)
  }

  /** What one call may change: closing is final, and so is the first failure. */
  ghost predicate Evolves(t: Traced, t': Traced) {
    var r, r' := t.reader, t'.reader;
    && r'.declared == r.declared && r'.text == r.text
    && (r.closed ==> r'.closed && t'.accepted == t.accepted)
    && (r.failed ==> r'.failed && r'.reason == r.reason)
    && (!r.closed && r'.closed && !r'.failed && r.declared.Some? ==> r'.received == r.declared.value)
    && r.received <= r'.received
    && (r.closed ==> r'.received == r.received)
  }

  /** The budget still has room for so many bytes, and so has the reader. */
  predicate Room(limits: Limits, r: Reader, b: Budget, bytes: nat) {
    r.buffered + bytes <= limits.maxBytesPerReader && b.buffered + bytes <= limits.maxBufferedBytes
  }

  /** The bytes accepted together stay countable and within the declared length. */
  predicate WithinDeclared(r: Reader, bytes: nat) {
    r.received + bytes <= SIZE_MAX && (r.declared.Some? ==> r.received + bytes <= r.declared.value)
  }

  /**
   An open reader accepts a chunk, whole, if and only if it is the next one, text where it must be, and either empty or
   within the declared length and all limits. Any other chunk closes it, with the reason of the first of these that
   fails, and gives back its slot; a closed reader ignores every chunk.
   */
  lemma OfferOutcome(limits: Limits, r: Reader, b: Budget, index: nat, content: Bytes.Chunk)
    requires Valid(r)
    ensures var (r', b', ok) := Offer(limits, r, b, index, content);
            && (ok <==>
                  && !r.closed && index == r.next && (r.text ==> Utf8.WellFormed(content))
                  && (content != [] ==>
                        && WithinDeclared(r, |content|) && r.queuedChunks < limits.maxQueuedChunks
                        && Room(limits, r, b, |content|)))
            && (if ok then
                  && r' == (if content == [] then r.(next := r.next + 1) else Push(r, content))
                  && b' == b.(buffered := b.buffered + |content|)
                else if r.closed then r' == r && b' == b
                else FailsWith(r, b, r', b',
                               if index != r.next then ChunkSequenceMismatch
                               else if r.text && !Utf8.WellFormed(content) then InvalidUtf8
                               else if !WithinDeclared(r, |content|) then DeclaredLengthExceeded
                               else if r.queuedChunks >= limits.maxQueuedChunks then ChunkLimitExceeded
                               else BufferLimitExceeded))
  {
  }

  /** The reader is closed for good, with this reason, and its slot goes back to the budget. */
  predicate FailsWith(r: Reader, b: Budget, r': Reader, b': Budget, reason: CloseReason) {
    && r' == r.(closed := true, failed := true, registered := false, reason := Some(reason))
    && SlotReturned(r, b, b')
  }

  predicate SlotReturned(r: Reader, b: Budget, b': Budget) {
    b' == b.(active := if r.registered && b.active > 0 then b.active - 1 else b.active)
  }

  /**
   The close of an open reader is clean if and only if it gives no reason and a declared length is met. Otherwise it
   fails with the length mismatch or else with the reason given; either way it takes the trailer's attributes and gives
   back its slot. An error closes it with its reason. A closed reader ignores both.
   */
  lemma CloseOutcome(r: Reader, b: Budget, reason: string, attributes: map<string, string>)
    requires Valid(r)
    ensures var (r', b') := Close(r, b, reason, attributes);
            if r.closed then r' == r && b' == b
            else
              var merged := r.(attributes := r.attributes + attributes);
              if r.declared.Some? && r.received != r.declared.value then FailsWith(merged, b, r', b', LengthMismatch)
              else if reason != "" then FailsWith(merged, b, r', b', Given(reason))
              else r' == merged.(closed := true, registered := false) && SlotReturned(r, b, b')
    ensures var (r', b') := Fail(r, b, Given(reason));
            if r.closed then r' == r && b' == b else FailsWith(r, b, r', b', Given(reason))
  {
  }

  /** ReadNext hands out the front chunk and gives its bytes back, or tells that there is none. */
  lemma NextOutcome(r: Reader, b: Budget)
    requires Valid(r) && r.buffered <= b.buffered
    ensures var (r', b', chunk) := ReadNext(r, b);
            if r.queue == [] then r' == r && b' == b && chunk.None?
            else
              && chunk == Some(r.queue[0]) && r'.queue == r.queue[1..] && Valid(r')
              && r' == r.(queue := r'.queue, buffered := r'.buffered, queuedChunks := r'.queuedChunks)
              && b' == b.(buffered := b.buffered - |r.queue[0]|)
  {
    if r.queue != [] { PopKeepsValid(r); }
  }

  lemma PushKeepsValid(r: Reader, content: Bytes.Chunk)
    requires Valid(r) && content != [] && !ExceedsDeclared(r, |content|)
    ensures Valid(Push(r, content))
  {
    ConcatAppend(r.queue, content);
  }

  lemma OfferKeepsValid(limits: Limits, r: Reader, b: Budget, index: nat, content: Bytes.Chunk)
    requires Valid(r)
    ensures Valid(Offer(limits, r, b, index, content).0)
  {
    OfferOutcome(limits, r, b, index, content);
    if content != [] && WithinDeclared(r, |content|) { PushKeepsValid(r, content); }
  }

  lemma OfferEvolves(limits: Limits, t: Traced, b: Budget, index: nat, content: Bytes.Chunk)
    requires Consistent(t)
    ensures var t' := Do(limits, t, Chunk(index, content), b);
            Consistent(t') && Evolves(t, t')
  {
    var r := t.reader;
    var ok := Offer(limits, r, b, index, content).2;
    OfferOutcome(limits, r, b, index, content);
    if ok && content != [] {
      PushKeepsValid(r, content);
      ConcatAppend(r.queue, content);
      assert t.accepted + content == t.delivered + (Concat(r.queue) + content);
    }
  }

  lemma ReadEvolves(limits: Limits, t: Traced, b: Budget)
    requires Consistent(t)
    ensures Consistent(Do(limits, t, Read, b)) && Evolves(t, Do(limits, t, Read, b))
  {
    if t.reader.queue != [] {
      PopKeepsValid(t.reader);
      assert t.delivered + (t.reader.queue[0] + Concat(t.reader.queue[1..]))
          == t.delivered + t.reader.queue[0] + Concat(t.reader.queue[1..]);
    }
  }

  lemma CloseEvolves(limits: Limits, t: Traced, b: Budget, reason: string, attributes: map<string, string>)
    requires Consistent(t)
    ensures var t' := Do(limits, t, StreamClose(reason, attributes), b);
            Consistent(t') && Evolves(t, t')
  {
    hide Close;
    CloseOutcome(t.reader, b, reason, attributes);
  }

  lemma DoEvolves(limits: Limits, t: Traced, call: Call, b: Budget)
    requires Consistent(t)
    ensures Consistent(Do(limits, t, call, b)) && Evolves(t, Do(limits, t, call, b))
  {
    match call
    case Chunk(index, content) => OfferEvolves(limits, t, b, index, content);
    case Read => ReadEvolves(limits, t, b);
    case StreamClose(reason, attributes) => CloseEvolves(limits, t, b, reason, attributes);
    case StreamError(_) =>
    case ReadAllLimit =>
  }

  function DoAll(limits: Limits, t: Traced, calls: seq<(Call, Budget)>): (t': Traced)
    requires Consistent(t)
    ensures Consistent(t')
    decreases |calls|
  {
    if calls == [] then t
    else
      var next := Do(limits, t, calls[0].0, calls[0].1);
      DoEvolves(limits, t, calls[0].0, calls[0].1);
      DoAll(limits, next, calls[1..])
  }

  function Fresh(text: bool, declared: Option<nat>): (t: Traced)
    ensures Consistent(t)
  {
    Traced(Reader(text, declared, map[], [], 0, 0, 0, 0, true, true, false, false, None), [], [])
  }

  /**
   Any further calls, with any budgets: a closed reader accepts nothing more, a failure keeps its
   first reason, and the declared length never changes.
   */
  lemma {:induction false} ReaderHistory(limits: Limits, t: Traced, calls: seq<(Call, Budget)>)
    requires Consistent(t)
    ensures var r, r' := t.reader, DoAll(limits, t, calls).reader;
            && r'.declared == r.declared && r'.text == r.text
            && (r.closed ==> r'.closed && DoAll(limits, t, calls).accepted == t.accepted)
            && (r.failed ==> r'.failed && r'.reason == r.reason)
            && (!r.closed && r'.closed && !r'.failed && r.declared.Some? ==> r'.received == r.declared.value)
    decreases |calls|
  {
    if calls != [] {
      var next := Do(limits, t, calls[0].0, calls[0].1);
      DoEvolves(limits, t, calls[0].0, calls[0].1);
      assert DoAll(limits, t, calls) == DoAll(limits, next, calls[1..]);
      ReaderHistory(limits, next, calls[1..]);
    }
  }

  /**
   Any calls on an admitted reader, with any budgets: the bytes ReadNext delivered, followed by the
   bytes queued, are the bytes accepted, in order; a clean close after a declared length means that
   exactly that many bytes were accepted.
   */
  lemma ReaderContent(limits: Limits, text: bool, declared: Option<nat>, calls: seq<(Call, Budget)>)
    ensures var t := DoAll(limits, Fresh(text, declared), calls);
            && t.accepted == t.delivered + Concat(t.reader.queue)
            && (declared.Some? ==> |t.accepted| <= declared.value)
            && (t.reader.closed && !t.reader.failed && declared.Some? ==> |t.accepted| == declared.value)
  {
    ReaderHistory(limits, Fresh(text, declared), calls);
  }

  /** So many reads hand out all that is queued, in order, whatever the budget. */
  lemma {:induction false} ReadsDeliver(limits: Limits, t: Traced, calls: seq<(Call, Budget)>)
    requires Consistent(t) && |calls| == |t.reader.queue|
    requires forall i :: 0 <= i < |calls| ==> calls[i].0 == Read
    ensures var t' := DoAll(limits, t, calls);
            t'.delivered == t.accepted && t'.accepted == t.accepted && t'.reader.queue == []
    decreases |calls|
  {
    if calls == [] {
      assert t.delivered + [] == t.delivered;
    } else {
      var next := Do(limits, t, calls[0].0, calls[0].1);
      DoEvolves(limits, t, calls[0].0, calls[0].1);
      assert DoAll(limits, t, calls) == DoAll(limits, next, calls[1..]);
      ReadsDeliver(limits, next, calls[1..]);
    }
  }

  // ----- ReadAll -----

  /**
   ReadAll takes everything that is queued exactly when it stays within the limit. It then waits on an open reader,
   gives the bytes of a cleanly closed one, and throws the reason of a failed one. The bytes it took, and only those,
   go back to the budget when it ends; while it waits it holds them.
   */
  lemma {:induction false} ReadAllMeaning(limits: Limits, r: Reader, b: Budget, result: Bytes.Chunk)
    requires Valid(r) && |result| <= limits.maxReadAllBytes
    requires |result| + r.buffered <= b.buffered
    ensures var (r', b', outcome) := ReadAllFrom(limits, r, b, result);
            && Valid(r')
            && (if |result| + r.buffered > limits.maxReadAllBytes
                then outcome == Throws(ReadAllLimitExceeded) && r'.failed
                else r' == r.(queue := [], buffered := 0, queuedChunks := 0)
                     && outcome == if !r.closed then Waits(result + Concat(r.queue))
                                   else if r.failed then Throws(r.reason.value)
                                   else Bytes(result + Concat(r.queue)))
            && (if outcome.Waits? then b' == b
                else b'.buffered + |result| + r.buffered == b.buffered + r'.buffered)
    decreases |r.queue|
  {
    if r.queue == [] {
      assert result + [] == result;
    } else {
      var (r', chunk) := Pop(r);
      PopKeepsValid(r);
      if !OverflowsReadAll(limits, |result|, |chunk|) {
        ReadAllMeaning(limits, r', b, result + chunk);
        assert result + (chunk + Concat(r'.queue)) == result + chunk + Concat(r'.queue);
      }
    }
  }

  /** The reader with these chunks still queued ahead of what it has. */
  function Ahead(chunks: seq<Bytes.Chunk>, r: Reader): Reader {
    r.(queue := chunks + r.queue, buffered := Size(chunks) + r.buffered, queuedChunks := |chunks| + r.queuedChunks)
  }

  /**
   Waiting changes nothing. A call that took what r had queued, waited, and goes on when it finds the reader as
   `late`, ends like one call that finds all of it queued; meanwhile other chunks may have come, the stream may have
   been closed, and the budget may have been used by others.
   */
  lemma {:induction false} WaitingIsInvisible(limits: Limits, r: Reader, b: Budget, result: Bytes.Chunk, late: Reader,
                                              later: Budget)
    requires Valid(r) && Valid(late) && Valid(Ahead(r.queue, late))
    requires ReadAllFrom(limits, r, b, result).2.Waits?
    ensures ReadAllFrom(limits, Ahead(r.queue, late), later, result)
         == ReadAllFrom(limits, late, later, ReadAllFrom(limits, r, b, result).2.taken)
    decreases |r.queue|
  {
    if r.queue == [] {
      assert r.queue + late.queue == late.queue;
    } else {
      var (r', chunk) := Pop(r);
      PopKeepsValid(r);
      PopKeepsValid(Ahead(r.queue, late));
      assert (r.queue + late.queue)[1..] == r'.queue + late.queue;
      WaitingIsInvisible(limits, r', b, result + chunk, late, later);
    }
  }

  // ----- The classes -----

  class ReaderBudget {
    const limits: Limits
    var activeReaders: nat
    var bufferedBytes: nat

    constructor (limits: Limits)
      ensures this.limits == limits && View() == Budget(0, 0)
    {
      this.limits := limits;
      activeReaders, bufferedBytes := 0, 0;
    }

    function View(): Budget
      reads this
    {
      Budget(activeReaders, bufferedBytes)
    }

    method TryAcquireReader() returns (ok: bool)
      modifies this
      ensures (View(), ok) == AcquireReader(limits, old(View()))
    {
      if activeReaders >= limits.maxActiveReaders { return false; }
      activeReaders := activeReaders + 1;
      ok := true;
    }

    method Release()
      modifies this
      ensures View() == ReleaseReader(old(View()))
    {
      if activeReaders > 0 { activeReaders := activeReaders - 1; }
    }

    method TryReserve(bytes: nat) returns (ok: bool)
      modifies this
      ensures (View(), ok) == ReserveBuffered(limits, old(View()), bytes)
    {
      if bytes > limits.maxBufferedBytes - Min(bufferedBytes, limits.maxBufferedBytes) { return false; }
      bufferedBytes := bufferedBytes + bytes;
      ok := true;
    }

    method ReleaseBytes(bytes: nat)
      modifies this
      ensures View() == ReleaseBuffered(old(View()), bytes)
    {
      bufferedBytes := if bytes <= bufferedBytes then bufferedBytes - bytes else 0;
    }
  }

  class StreamReader {
    const text: bool
    const declared: Option<nat>
    const budget: ReaderBudget
    var attributes: map<string, string>
    var queue: seq<Bytes.Chunk>
    var bufferedBytes: nat
    var receivedBytes: nat
    var queuedChunks: nat
    var nextChunkIndex: nat
    var admitted: bool
    var activeRegistered: bool
    var closed: bool
    var failed: bool
    var closeReason: Option<CloseReason>

    function View(): Reader
      reads this
    {
      Reader(text, declared, attributes, queue, bufferedBytes, receivedBytes, queuedChunks, nextChunkIndex,
             admitted, activeRegistered, closed, failed, closeReason)
    }

    constructor (text: bool, declared: Option<nat>, budget: ReaderBudget)
      modifies budget
      ensures this.budget == budget
      ensures (View(), budget.View()) == Open(budget.limits, old(budget.View()), text, declared)
    {
      this.text, this.declared, this.budget := text, declared, budget;
      attributes, queue, bufferedBytes, receivedBytes, queuedChunks, nextChunkIndex := map[], [], 0, 0, 0, 0;
      closed, failed, closeReason := false, false, None;
      admitted, activeRegistered := false, false;
      new;
      admitted := budget.TryAcquireReader();
      activeRegistered := admitted;
      if !admitted {
        closed, failed := true, true;
        closeReason := Some(ActiveReaderLimitExceeded);
      }
    }

    method ReleaseActiveLocked()
      modifies this, budget
      ensures (View(), budget.View()) == ReleaseActive(old(View()), old(budget.View()))
    {
      if !activeRegistered { return; }
      activeRegistered := false;
      budget.Release();
    }

    method FailLocked(reason: CloseReason)
      modifies this, budget
      ensures (View(), budget.View()) == Fail(old(View()), old(budget.View()), reason)
    {
      if closed { return; }
      closed, failed := true, true;
      closeReason := Some(reason);
      ReleaseActiveLocked();
    }

    method TryOnChunkUpdate(index: nat, content: Bytes.Chunk) returns (ok: bool)
      requires Valid(View())
      modifies this, budget
      ensures (View(), budget.View(), ok)
           == Offer(budget.limits, old(View()), old(budget.View()), index, content)
    {
      if closed { return false; }
      if index != nextChunkIndex {
        FailLocked(ChunkSequenceMismatch);
        return false;
      }
      if text {
        Utf8.GrammarIsEncoding(content);
        var valid := Utf8.IsValidUtf8(content);
        if !valid {
          FailLocked(InvalidUtf8);
          return false;
        }
      }
      if content == [] {
        nextChunkIndex := nextChunkIndex + 1;
        return true;
      }
      if |content| > SIZE_MAX - receivedBytes ||
         (declared.Some? && (receivedBytes > declared.value || |content| > declared.value - receivedBytes)) {
        FailLocked(DeclaredLengthExceeded);
        return false;
      }
      ok := AdmitLocked(content);
    }

    method AdmitLocked(content: Bytes.Chunk) returns (ok: bool)
      modifies this, budget
      ensures (View(), budget.View(), ok) == Admit(budget.limits, old(View()), old(budget.View()), content)
    {
      if queuedChunks >= budget.limits.maxQueuedChunks {
        FailLocked(ChunkLimitExceeded);
        return false;
      }
      if |content| > budget.limits.maxBytesPerReader - Min(bufferedBytes, budget.limits.maxBytesPerReader) {
        FailLocked(BufferLimitExceeded);
        return false;
      }
      var reserved := budget.TryReserve(|content|);
      if !reserved {
        FailLocked(BufferLimitExceeded);
        return false;
      }
      queue := queue + [content];
      bufferedBytes := bufferedBytes + |content|;
      receivedBytes := receivedBytes + |content|;
      queuedChunks := queuedChunks + 1;
      nextChunkIndex := nextChunkIndex + 1;
      ok := true;
    }

    method OnStreamClose(reason: string, trailer: map<string, string>)
      modifies this, budget
      ensures (View(), budget.View()) == Close(old(View()), old(budget.View()), reason, trailer)
    {
      if closed { return; }
      attributes := attributes + trailer;
      ghost var merged := View();
      assert merged == old(View()).(attributes := old(View()).attributes + trailer);
      if declared.Some? && receivedBytes != declared.value {
        FailLocked(LengthMismatch);
        return;
      }
      if reason != "" {
        FailLocked(Given(reason));
        return;
      }
      closed := true;
      closeReason := None;
      ReleaseActiveLocked();
    }

    /** Takes the front of the queue; its bytes stay reserved. */
    method PopFront() returns (chunk: Bytes.Chunk)
      requires Valid(View()) && queue != []
      modifies this
      ensures (View(), chunk) == Pop(old(View())) && Valid(View())
    {
      PopKeepsValid(View());
      chunk := queue[0];
      queue := queue[1..];
      bufferedBytes := bufferedBytes - |chunk|;
      queuedChunks := queuedChunks - 1;
    }

    /** ReadNext. A caller waits while nothing is queued and the stream is not closed. */
    method Next() returns (out: Option<Bytes.Chunk>)
      requires Valid(View())
      requires queue != [] || closed
      modifies this, budget
      ensures (View(), budget.View(), out) == ReadNext(old(View()), old(budget.View()))
    {
      if queue == [] { return None; }
      var chunk := PopFront();
      budget.ReleaseBytes(|chunk|);
      out := Some(chunk);
    }

    method MarkLimitExceeded()
      modifies this, budget
      ensures (View(), budget.View()) == MarkReadAllLimitExceeded(old(View()), old(budget.View()))
    {
      if failed { return; }
      closed, failed := true, true;
      closeReason := Some(ReadAllLimitExceeded);
      ReleaseActiveLocked();
    }

    /**
     ReadAll from where it holds `taken`: at first nothing, and after a wait what it had taken before. It ends, or it
     comes to the point where it waits for a chunk or the close.
     */
    method ReadAll(taken: Bytes.Chunk) returns (outcome: ReadResult)
      requires Valid(View())
      modifies this, budget
      ensures (View(), budget.View(), outcome)
           == ReadAllFrom(budget.limits, old(View()), old(budget.View()), taken)
    {
      var result := taken;
      var accounted := |taken|;
      while queue != []
        invariant Valid(View()) && accounted == |result|
        invariant budget.View() == old(budget.View())
        invariant ReadAllFrom(budget.limits, View(), budget.View(), result)
               == ReadAllFrom(budget.limits, old(View()), old(budget.View()), taken)
        decreases |queue|
      {
        var chunk := PopFront();
        var limit := budget.limits.maxReadAllBytes;
        if |chunk| > limit - Min(|result|, limit) {
          MarkLimitExceeded();
          budget.ReleaseBytes(accounted + |chunk|);
          return Throws(ReadAllLimitExceeded);
        }
        result := result + chunk;
        accounted := accounted + |chunk|;
      }
      if !closed { return Waits(result); }
      budget.ReleaseBytes(accounted);
      outcome := if failed then Throws(closeReason.value) else Bytes(result);
    }

    /** ~TextStreamReader and ~ByteStreamReader */
    method Dispose()
      modifies this, budget
      ensures (View(), budget.View()) == Destroy(old(View()), old(budget.View()))
    {
      closed := true;
      ReleaseActiveLocked();
      budget.ReleaseBytes(bufferedBytes);
      bufferedBytes, queuedChunks := 0, 0;
      queue := [];
    }
  }
}
