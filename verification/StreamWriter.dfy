/**
 BaseStreamWriter with the Write loops of TextStreamWriter and ByteStreamWriter
 (src/core/data_stream.cpp). The publisher is arbitrary: it may accept, reject or throw on any
 packet, and its answer may depend on how often it has been called.
 */
module StreamWriter {
  import opened Bytes
  import opened Options
  import opened StreamChunks

  datatype Packet =
    | Header(streamId: string, totalLength: Option<nat>)
    | Content(streamId: string, index: nat, content: Chunk)
    | Trailer(streamId: string, reason: string, attributes: map<string, string>)

  datatype Stage = HeaderStage | ChunkStage | TrailerStage

  /** The exceptions an operation can throw; the last is whatever the publisher threw. */
  datatype Failure = Unavailable(stage: Stage) | Rejected(stage: Stage) | Thrown(exception: nat)

  datatype Answer = Accept | Reject | Throw(exception: nat)

  type Publisher = (nat, Packet) -> Answer

  datatype Config = Config(streamId: string, totalLength: Option<nat>, publisher: Option<Publisher>)

  datatype Status = Open | Closed | Failed

  /** The writer's fields, with what its publisher has seen: the accepted packets and the call count. */
  datatype Writer = Writer(status: Status, firstFailure: Option<Failure>, headerSent: bool, nextIndex: nat,
                           accepted: seq<Packet>, calls: nat)

  const FRESH := Writer(Open, None, false, 0, [], 0)

  function Fail(w: Writer, failure: Failure): Writer {
    w.(status := Failed, firstFailure := Some(failure))
  }

  function Publish(cfg: Config, w: Writer, packet: Packet, stage: Stage): Writer {
    match cfg.publisher
    case None => Fail(w, Unavailable(stage))
    case Some(publisher) =>
      var called := w.(calls := w.calls + 1);
      match publisher(w.calls, packet)
      case Accept => called.(accepted := w.accepted + [packet])
      case Reject => Fail(called, Rejected(stage))
      case Throw(e) => Fail(called, Thrown(e))
  }

  function EnsureHeader(cfg: Config, w: Writer): Writer {
    if w.headerSent then w
    else
      var sent := Publish(cfg, w, Header(cfg.streamId, cfg.totalLength), HeaderStage);
      if sent.status.Failed? then sent else sent.(headerSent := true)
  }

  function SendChunk(cfg: Config, w: Writer, content: Chunk): Writer {
    var ready := EnsureHeader(cfg, w);
    if ready.status.Failed? then ready
    else
      var sent := Publish(cfg, ready, Content(cfg.streamId, ready.nextIndex, content), ChunkStage);
      if sent.status.Failed? then sent else sent.(nextIndex := ready.nextIndex + 1)
  }

  function SendChunks(cfg: Config, w: Writer, parts: seq<Chunk>): Writer
    decreases |parts|
  {
    if parts == [] || w.status.Failed? then w
    else SendChunks(cfg, SendChunk(cfg, w, parts[0]), parts[1..])
  }

  function SendTrailer(cfg: Config, w: Writer, reason: string, attributes: map<string, string>): Writer {
    var ready := EnsureHeader(cfg, w);
    if ready.status.Failed? then ready
    else
      var sent := Publish(cfg, ready, Trailer(cfg.streamId, reason, attributes), TrailerStage);
      if sent.status.Failed? then sent else sent.(status := Closed)
  }

  /** The public operations, and destruction. */
  datatype Operation =
    | WriteText(text: Chunk)
    | WriteBytes(data: Chunk)
    | Close(reason: string, attributes: map<string, string>)
    | Cancel(reason: string)
    | Destroy

  /** The chunks an operation on an open writer tries to send. */
  function Parts(op: Operation): seq<Chunk> {
    match op
    case WriteText(text) => TextChunks(text, 0)
    case WriteBytes(data) => ByteChunks(data, 0)
    case _ => []
  }

  /** The bytes a write adds to the stream. */
  function Payload(op: Operation): Chunk {
    match op
    case WriteText(text) => text
    case WriteBytes(data) => data
    case _ => []
  }

  predicate IsWrite(op: Operation) {
    op.WriteText? || op.WriteBytes?
  }

  /** One operation: the writer afterwards and the exception it throws, if it throws. */
  function Step(cfg: Config, w: Writer, op: Operation): (Writer, Option<Failure>) {
    if !w.status.Open? then (w, if op.Destroy? then None else w.firstFailure)
    else
      var w' :=
        match op
        case WriteText(_) => SendChunks(cfg, w, Parts(op))
        case WriteBytes(_) => SendChunks(cfg, w, Parts(op))
        case Close(reason, attributes) => SendTrailer(cfg, w, reason, attributes)
        case Cancel(reason) => SendTrailer(cfg, w, if reason == "" then "cancelled" else reason, map[])
        case Destroy => SendTrailer(cfg, w, "", map[]);
      (w', if op.Destroy? then None else w'.firstFailure)
  }

  function Run(cfg: Config, w: Writer, ops: seq<Operation>): Writer
    decreases |ops|
  {
    if ops == [] then w else Run(cfg, Step(cfg, w, ops[0]).0, ops[1..])
  }

  /** Everything written before the operation that ends the stream. */
  function Written(ops: seq<Operation>): Chunk {
    if ops == [] || !IsWrite(ops[0]) then [] else Payload(ops[0]) + Written(ops[1..])
  }

  predicate Ends(ops: seq<Operation>) {
    exists i :: 0 <= i < |ops| && !IsWrite(ops[i])
  }

  // ----- The packet trace -----

  /** Header, then the chunks numbered from 0. */
  function Opening(cfg: Config, parts: seq<Chunk>): seq<Packet> {
    [Header(cfg.streamId, cfg.totalLength)]
    + seq(|parts|, i requires 0 <= i < |parts| => Content(cfg.streamId, i, parts[i]))
  }

  /**
   The accepted packets are Header, Chunk 0, ..., Chunk n-1, and then a trailer exactly when the
   writer is closed; or none, when the header was never accepted.
   */
  ghost predicate Traces(cfg: Config, w: Writer, parts: seq<Chunk>) {
    && w.nextIndex == |parts|
    && (w.status.Failed? <==> w.firstFailure.Some?)
    && (!w.headerSent ==> parts == [] && w.accepted == [] && !w.status.Closed?)
    && (w.headerSent && !w.status.Closed? ==> w.accepted == Opening(cfg, parts))
    && (w.status.Closed? ==>
          exists reason, attributes ::
            w.accepted == Opening(cfg, parts) + [Trailer(cfg.streamId, reason, attributes)])
  }

  /** The chunks hold a prefix of some bytes, and all of them unless the writer failed. */
  ghost predicate Carries(w: Writer, parts: seq<Chunk>, bytes: Chunk) {
    Concat(parts) <= bytes && (!w.status.Failed? ==> Concat(parts) == bytes)
  }

  lemma EnsureHeaderTraces(cfg: Config, w: Writer, parts: seq<Chunk>)
    requires w.status.Open? && Traces(cfg, w, parts)
    ensures var r := EnsureHeader(cfg, w);
            Traces(cfg, r, parts) && !r.status.Closed? && (r.status.Open? ==> r.headerSent)
  {
    assert !w.headerSent ==> [] + [Header(cfg.streamId, cfg.totalLength)] == Opening(cfg, parts);
  }

  lemma SendChunkTraces(cfg: Config, w: Writer, parts: seq<Chunk>, content: Chunk)
    requires w.status.Open? && Traces(cfg, w, parts)
    ensures var r := SendChunk(cfg, w, content);
            if r.status.Open? then Traces(cfg, r, parts + [content])
            else r.status.Failed? && Traces(cfg, r, parts)
  {
    EnsureHeaderTraces(cfg, w, parts);
    assert Opening(cfg, parts + [content]) == Opening(cfg, parts) + [Content(cfg.streamId, |parts|, content)];
  }

  /** A failure in the middle of a write leaves a prefix of its chunks. */
  lemma {:induction false} SendChunksTraces(cfg: Config, w: Writer, sent: seq<Chunk>, parts: seq<Chunk>)
    returns (done: seq<Chunk>)
    requires w.status.Open? && Traces(cfg, w, sent)
    ensures var r := SendChunks(cfg, w, parts);
            && done <= parts
            && Traces(cfg, r, sent + done)
            && !r.status.Closed?
            && (r.status.Open? ==> done == parts)
    decreases |parts|
  {
    done := [];
    if parts == [] {
      assert sent + done == sent;
    } else {
      var next := SendChunk(cfg, w, parts[0]);
      SendChunkTraces(cfg, w, sent, parts[0]);
      if next.status.Failed? {
        assert sent + done == sent;
      } else {
        var rest := SendChunksTraces(cfg, next, sent + [parts[0]], parts[1..]);
        done := [parts[0]] + rest;
        assert sent + [parts[0]] + rest == sent + done;
      }
    }
  }

  lemma SendTrailerTraces(cfg: Config, w: Writer, parts: seq<Chunk>, reason: string, attributes: map<string, string>)
    requires w.status.Open? && Traces(cfg, w, parts)
    ensures Traces(cfg, SendTrailer(cfg, w, reason, attributes), parts)
    ensures !SendTrailer(cfg, w, reason, attributes).status.Open?
  {
    EnsureHeaderTraces(cfg, w, parts);
  }

  /** The chunks of a write spell what was written. */
  lemma PartsSpellPayload(op: Operation)
    ensures Concat(Parts(op)) == Payload(op)
    ensures forall c :: c in Parts(op) ==> 0 < |c| <= STREAM_CHUNK_SIZE
  {
    match op
    case WriteText(text) => TextChunksCover(text, 0); assert text[0..] == text;
    case WriteBytes(data) => ByteChunksCover(data, 0); assert data[0..] == data;
    case _ =>
  }

  lemma {:induction false} ConcatPrefix(part: seq<Chunk>, whole: seq<Chunk>)
    requires part <= whole
    ensures Concat(part) <= Concat(whole)
  {
    assert whole == part + whole[|part|..];
    ConcatSplit(part, whole[|part|..]);
  }

  lemma {:induction false} ClosedRunsStay(cfg: Config, w: Writer, ops: seq<Operation>)
    requires !w.status.Open?
    ensures Run(cfg, w, ops) == w
  {
    if ops != [] {
      ClosedRunsStay(cfg, w, ops[1..]);
    }
  }

  /** One operation on an open writer: a write extends the chunks, anything else ends the stream. */
  lemma StepTraces(cfg: Config, w: Writer, sent: seq<Chunk>, op: Operation) returns (parts: seq<Chunk>)
    requires w.status.Open? && Traces(cfg, w, sent)
    ensures var r := Step(cfg, w, op).0;
            && Traces(cfg, r, parts)
            && Carries(r, parts, Concat(sent) + Payload(op))
            && (if IsWrite(op) then !r.status.Closed? else !r.status.Open?)
            && (r.status.Open? ==> Concat(parts) == Concat(sent) + Payload(op))
  {
    if IsWrite(op) {
      PartsSpellPayload(op);
      var done := SendChunksTraces(cfg, w, sent, Parts(op));
      ConcatSplit(sent, done);
      ConcatPrefix(done, Parts(op));
      parts := sent + done;
    } else {
      match op {
        case Close(reason, attributes) => SendTrailerTraces(cfg, w, sent, reason, attributes);
        case Cancel(reason) => SendTrailerTraces(cfg, w, sent, if reason == "" then "cancelled" else reason, map[]);
        case _ => SendTrailerTraces(cfg, w, sent, "", map[]);
      }
      parts := sent;
    }
  }

  lemma {:induction false} RunTraces(cfg: Config, w: Writer, sent: seq<Chunk>, ops: seq<Operation>)
    returns (parts: seq<Chunk>)
    requires w.status.Open? && Traces(cfg, w, sent)
    ensures var r := Run(cfg, w, ops);
            && Traces(cfg, r, parts)
            && Carries(r, parts, Concat(sent) + Written(ops))
    decreases |ops|
  {
    if ops == [] {
      return sent;
    }
    var next := Step(cfg, w, ops[0]).0;
    parts := StepTraces(cfg, w, sent, ops[0]);
    if next.status.Open? {
      WrittenSplit(Concat(sent), ops);
      parts := RunTraces(cfg, next, parts, ops[1..]);
    } else {
      ClosedRunsStay(cfg, next, ops[1..]);
      EndedCarries(next, parts, Concat(sent), ops);
    }
  }

  /** A writer that has not failed is closed exactly when its stream was ended. */
  lemma {:induction false} RunEnds(cfg: Config, w: Writer, sent: seq<Chunk>, ops: seq<Operation>)
    requires w.status.Open? && Traces(cfg, w, sent)
    ensures !Run(cfg, w, ops).status.Failed? ==> (Run(cfg, w, ops).status.Closed? <==> Ends(ops))
    decreases |ops|
  {
    if ops != [] {
      var next := Step(cfg, w, ops[0]).0;
      var parts := StepTraces(cfg, w, sent, ops[0]);
      if next.status.Open? {
        EndsLater(ops);
        RunEnds(cfg, next, parts, ops[1..]);
      } else {
        ClosedRunsStay(cfg, next, ops[1..]);
      }
    }
  }

  lemma WrittenSplit(before: Chunk, ops: seq<Operation>)
    requires ops != [] && IsWrite(ops[0])
    ensures before + Written(ops) == before + Payload(ops[0]) + Written(ops[1..])
  {
  }

  lemma EndedCarries(w: Writer, parts: seq<Chunk>, before: Chunk, ops: seq<Operation>)
    requires ops != [] && Carries(w, parts, before + Payload(ops[0]))
    requires w.status.Failed? || !IsWrite(ops[0])
    ensures Carries(w, parts, before + Written(ops))
  {
    if IsWrite(ops[0]) {
      assert before + Written(ops) == before + Payload(ops[0]) + Written(ops[1..]);
    }
  }

  lemma EndsLater(ops: seq<Operation>)
    requires ops != [] && IsWrite(ops[0])
    ensures Ends(ops) <==> Ends(ops[1..])
  {
    if Ends(ops) {
      var i :| 0 <= i < |ops| && !IsWrite(ops[i]);
      assert ops[1..][i - 1] == ops[i];
    }
  }

  /**
   Over any operations and any publisher, the accepted packets are Header, Chunk 0, ..., Chunk n-1
   and, once closed, one trailer; the chunks carry a prefix of what was written before the end of the
   stream, and all of it unless the writer failed. It is closed exactly when it was ended and nothing failed.
   */
  lemma WriterTrace(cfg: Config, ops: seq<Operation>)
    ensures exists parts ::
              && Traces(cfg, Run(cfg, FRESH, ops), parts)
              && Carries(Run(cfg, FRESH, ops), parts, Written(ops))
    ensures !Run(cfg, FRESH, ops).status.Failed? ==> (Run(cfg, FRESH, ops).status.Closed? <==> Ends(ops))
  {
    var parts := RunTraces(cfg, FRESH, [], ops);
    RunEnds(cfg, FRESH, [], ops);
    assert [] + Written(ops) == Written(ops);
  }

  lemma {:induction false} RunSplit(cfg: Config, w: Writer, ops: seq<Operation>, more: seq<Operation>)
    ensures Run(cfg, w, ops + more) == Run(cfg, Run(cfg, w, ops), more)
    decreases |ops|
  {
    if ops == [] {
      assert ops + more == more;
    } else {
      assert (ops + more)[1..] == ops[1..] + more;
      RunSplit(cfg, Step(cfg, w, ops[0]).0, ops[1..], more);
    }
  }

  /**
   After a trailer or a first failure the publisher is never called again; every later explicit
   operation on a failed writer throws that first failure and, on a closed one, nothing.
   */
  lemma EndedWriterIsInert(cfg: Config, ops: seq<Operation>, more: seq<Operation>, op: Operation)
    requires !Run(cfg, FRESH, ops).status.Open?
    ensures var ended := Run(cfg, FRESH, ops);
            && Run(cfg, FRESH, ops + more) == ended
            && (ended.status.Failed? <==> ended.firstFailure.Some?)
            && Step(cfg, Run(cfg, FRESH, ops + more), op)
               == (ended, if op.Destroy? then None else ended.firstFailure)
  {
    RunSplit(cfg, FRESH, ops, more);
    ClosedRunsStay(cfg, Run(cfg, FRESH, ops), more);
    WriterTrace(cfg, ops);
  }

  /** An operation throws exactly when it meets the first failure or an earlier one; a destructor never does. */
  lemma ThrowsIffFailed(cfg: Config, ops: seq<Operation>, op: Operation)
    ensures var (w, thrown) := Step(cfg, Run(cfg, FRESH, ops), op);
            if op.Destroy? then thrown.None?
            else thrown == w.firstFailure && (thrown.Some? <==> w.status.Failed?)
  {
    RunSplit(cfg, FRESH, ops, [op]);
    WriterTrace(cfg, ops + [op]);
    WriterTrace(cfg, ops);
  }

  // ----- How a stream ends -----

  /** The reason and the attributes an operation that ends a stream gives. */
  function ReasonOf(op: Operation): string {
    match op
    case Close(reason, _) => reason
    case Cancel(reason) => if reason != "" then reason else "cancelled"
    case _ => ""
  }

  function AttributesOf(op: Operation): map<string, string> {
    if op.Close? then op.attributes else map[]
  }

  lemma EndingTrailer(cfg: Config, w: Writer, op: Operation)
    requires w.status.Open? && !IsWrite(op) && Step(cfg, w, op).0.status.Closed?
    ensures var sent := Step(cfg, w, op).0.accepted;
            sent != [] && sent[|sent| - 1] == Trailer(cfg.streamId, ReasonOf(op), AttributesOf(op))
  {
  }

  lemma {:induction false} WriteStaysOpen(cfg: Config, w: Writer, parts: seq<Chunk>)
    requires !w.status.Closed?
    ensures !SendChunks(cfg, w, parts).status.Closed?
    decreases |parts|
  {
    if parts != [] && !w.status.Failed? {
      WriteStaysOpen(cfg, SendChunk(cfg, w, parts[0]), parts[1..]);
    }
  }

  lemma {:induction false} RunTrailer(cfg: Config, w: Writer, ops: seq<Operation>) returns (i: nat)
    requires w.status.Open? && Run(cfg, w, ops).status.Closed?
    ensures i < |ops| && !IsWrite(ops[i]) && forall j :: 0 <= j < i ==> IsWrite(ops[j])
    ensures var sent := Run(cfg, w, ops).accepted;
            sent != [] && sent[|sent| - 1] == Trailer(cfg.streamId, ReasonOf(ops[i]), AttributesOf(ops[i]))
    decreases |ops|
  {
    hide SendChunk, SendTrailer, Parts;
    var next := Step(cfg, w, ops[0]).0;
    if IsWrite(ops[0]) {
      WriteStaysOpen(cfg, w, Parts(ops[0]));
      if next.status.Failed? { ClosedRunsStay(cfg, next, ops[1..]); }
      var later := RunTrailer(cfg, next, ops[1..]);
      i := later + 1;
      assert forall j :: 1 <= j < i ==> ops[j] == ops[1..][j - 1];
    } else {
      i := 0;
      EndsNow(cfg, w, ops[0]);
      ClosedRunsStay(cfg, next, ops[1..]);
      EndingTrailer(cfg, w, ops[0]);
    }
  }

  lemma EndsNow(cfg: Config, w: Writer, op: Operation)
    requires w.status.Open? && !IsWrite(op)
    ensures !Step(cfg, w, op).0.status.Open?
  {
  }

  /**
   The trailer of a closed writer carries the reason and the attributes of the first operation that was no write: those
   given to Close, the reason given to Cancel or else "cancelled", and none for a writer that was destroyed.
   */
  lemma TrailerMeaning(cfg: Config, ops: seq<Operation>) returns (i: nat)
    requires Run(cfg, FRESH, ops).status.Closed?
    ensures i < |ops| && !IsWrite(ops[i]) && forall j :: 0 <= j < i ==> IsWrite(ops[j])
    ensures var sent := Run(cfg, FRESH, ops).accepted;
            sent != [] && sent[|sent| - 1] == Trailer(cfg.streamId, ReasonOf(ops[i]), AttributesOf(ops[i]))
  {
    i := RunTrailer(cfg, FRESH, ops);
  }

  // ----- What the publisher was asked -----

  function StageOf(p: Packet): Stage {
    match p
    case Header(_, _) => HeaderStage
    case Content(_, _, _) => ChunkStage
    case Trailer(_, _, _) => TrailerStage
  }

  /** What the publisher answers to a call is what the first failure tells. */
  predicate TellsOf(failure: Option<Failure>, answer: Answer, stage: Stage) {
    match answer
    case Accept => false
    case Reject => failure == Some(Rejected(stage))
    case Throw(e) => failure == Some(Thrown(e))
  }

  /**
   Every accepted packet is one call that the publisher answered so, in order; a failed writer made one call more, whose
   answer is its first failure. Without a publisher there are none.
   */
  ghost predicate Answered(cfg: Config, w: Writer) {
    match cfg.publisher
    case None =>
      && w.calls == 0 && w.accepted == [] && !w.headerSent
      && (w.status.Failed? ==> w.firstFailure == Some(Unavailable(HeaderStage)))
    case Some(publisher) =>
      && w.calls == |w.accepted| + (if w.status.Failed? then 1 else 0)
      && (forall i :: 0 <= i < |w.accepted| ==> publisher(i, w.accepted[i]) == Accept)
      && (w.status.Failed? ==>
            exists p: Packet :: (p.Header? <==> w.accepted == [])
                        && TellsOf(w.firstFailure, publisher(|w.accepted|, p), StageOf(p)))
  }

  /** The header goes first, and only once. */
  predicate HeaderFirst(w: Writer, p: Packet) {
    (p.Header? <==> w.accepted == []) && (w.headerSent <==> w.accepted != [])
  }

  lemma PublishAnswered(cfg: Config, w: Writer, p: Packet, stage: Stage)
    requires !w.status.Failed? && Answered(cfg, w) && HeaderFirst(w, p) && stage == StageOf(p)
    requires cfg.publisher.None? ==> p.Header?
    ensures Answered(cfg, Publish(cfg, w, p, stage))
    ensures var w' := Publish(cfg, w, p, stage);
            w'.headerSent == w.headerSent && (w'.status.Failed? || w'.accepted == w.accepted + [p])
  {
    if cfg.publisher.Some? && !cfg.publisher.value(w.calls, p).Accept? {
      assert TellsOf(Publish(cfg, w, p, stage).firstFailure, cfg.publisher.value(|w.accepted|, p), StageOf(p));
    }
  }

  predicate HeaderKnown(w: Writer) {
    w.headerSent <==> w.accepted != []
  }

  lemma HeaderAnswered(cfg: Config, w: Writer)
    requires w.status.Open? && Answered(cfg, w) && HeaderKnown(w)
    ensures var r := EnsureHeader(cfg, w);
            Answered(cfg, r) && (r.status.Failed? || (r.status.Open? && r.headerSent && r.accepted != []))
  {
    if !w.headerSent { PublishAnswered(cfg, w, Header(cfg.streamId, cfg.totalLength), HeaderStage); }
  }

  lemma ChunkAnswered(cfg: Config, w: Writer, content: Chunk)
    requires w.status.Open? && Answered(cfg, w) && HeaderKnown(w)
    ensures var r := SendChunk(cfg, w, content);
            Answered(cfg, r) && (r.status.Failed? || (r.status.Open? && HeaderKnown(r)))
  {
    hide EnsureHeader, Publish;
    HeaderAnswered(cfg, w);
    var ready := EnsureHeader(cfg, w);
    if !ready.status.Failed? {
      PublishAnswered(cfg, ready, Content(cfg.streamId, ready.nextIndex, content), ChunkStage);
      PublishStays(cfg, ready, Content(cfg.streamId, ready.nextIndex, content), ChunkStage);
    }
  }

  lemma PublishStays(cfg: Config, w: Writer, p: Packet, stage: Stage)
    requires w.status.Open?
    ensures Publish(cfg, w, p, stage).status.Failed? || Publish(cfg, w, p, stage).status.Open?
  {
  }

  lemma {:induction false} ChunksAnswered(cfg: Config, w: Writer, parts: seq<Chunk>)
    requires w.status.Open? && Answered(cfg, w) && HeaderKnown(w)
    ensures var r := SendChunks(cfg, w, parts);
            Answered(cfg, r) && (r.status.Failed? || (r.status.Open? && HeaderKnown(r)))
    decreases |parts|
  {
    hide Answered, SendChunk;
    if parts != [] {
      ChunkAnswered(cfg, w, parts[0]);
      var next := SendChunk(cfg, w, parts[0]);
      if next.status.Open? { ChunksAnswered(cfg, next, parts[1..]); }
    }
  }

  lemma TrailerAnswered(cfg: Config, w: Writer, reason: string, attributes: map<string, string>)
    requires w.status.Open? && Answered(cfg, w) && HeaderKnown(w)
    ensures Answered(cfg, SendTrailer(cfg, w, reason, attributes))
  {
    hide EnsureHeader, Publish;
    HeaderAnswered(cfg, w);
    var ready := EnsureHeader(cfg, w);
    if !ready.status.Failed? {
      PublishAnswered(cfg, ready, Trailer(cfg.streamId, reason, attributes), TrailerStage);
    }
  }

  lemma {:induction false} RunAnswered(cfg: Config, w: Writer, ops: seq<Operation>)
    requires Answered(cfg, w) && (w.status.Open? ==> HeaderKnown(w))
    ensures Answered(cfg, Run(cfg, w, ops))
    decreases |ops|
  {
    hide Answered, SendChunks, SendTrailer, Parts;
    if ops != [] {
      if w.status.Open? {
        if IsWrite(ops[0]) {
          ChunksAnswered(cfg, w, Parts(ops[0]));
        } else {
          TrailerAnswered(cfg, w, ReasonOf(ops[0]), AttributesOf(ops[0]));
          EndsNow(cfg, w, ops[0]);
        }
      }
      RunAnswered(cfg, Step(cfg, w, ops[0]).0, ops[1..]);
    }
  }

  /**
   Over any operations: the publisher was asked once for each accepted packet, in order, and accepted it; a writer that
   failed asked once more, and its first failure tells the answer and what was being sent.
   */
  lemma FailureMeaning(cfg: Config, ops: seq<Operation>)
    ensures Answered(cfg, Run(cfg, FRESH, ops))
  {
    RunAnswered(cfg, FRESH, ops);
  }

  // ----- The class -----

  class StreamWriter {
    const cfg: Config
    var status: Status
    var firstFailure: Option<Failure>
    var headerSent: bool
    var nextChunkIndex: nat
    var accepted: seq<Packet>
    var calls: nat

    constructor (cfg: Config)
      ensures this.cfg == cfg && View() == FRESH
    {
      this.cfg := cfg;
      status, firstFailure, headerSent, nextChunkIndex := Open, None, false, 0;
      accepted, calls := [], 0;
    }

    function View(): Writer
      reads this
    {
      Writer(status, firstFailure, headerSent, nextChunkIndex, accepted, calls)
    }

    method FailLocked(failure: Failure) returns (thrown: Option<Failure>)
      modifies this
      ensures !old(status).Failed? ==> View() == Fail(old(View()), failure)
      ensures old(status).Failed? ==> View() == old(View())
      ensures thrown == firstFailure
    {
      if !status.Failed? {
        firstFailure := Some(failure);
        status := Failed;
      }
      thrown := firstFailure;
    }

    method PublishPacket(packet: Packet, stage: Stage) returns (thrown: Option<Failure>)
      requires status.Open? && firstFailure.None?
      modifies this
      ensures View() == Publish(cfg, old(View()), packet, stage)
      ensures thrown == firstFailure
    {
      thrown := None;
      match cfg.publisher {
        case None =>
          thrown := FailLocked(Unavailable(stage));
        case Some(publisher) =>
          var answer := publisher(calls, packet);
          calls := calls + 1;
          match answer {
            case Accept => accepted := accepted + [packet];
            case Reject => thrown := FailLocked(Rejected(stage));
            case Throw(e) => thrown := FailLocked(Thrown(e));
          }
      }
    }

    method EnsureHeaderSent() returns (thrown: Option<Failure>)
      requires status.Open? && firstFailure.None?
      modifies this
      ensures View() == EnsureHeader(cfg, old(View()))
      ensures thrown == firstFailure && (thrown.Some? <==> status.Failed?)
    {
      if headerSent { return None; }
      thrown := PublishPacket(Header(cfg.streamId, cfg.totalLength), HeaderStage);
      if thrown.Some? { return; }
      headerSent := true;
    }

    method SendOneChunk(content: Chunk) returns (thrown: Option<Failure>)
      requires status.Open? && firstFailure.None?
      modifies this
      ensures View() == SendChunk(cfg, old(View()), content)
      ensures thrown == firstFailure && (thrown.Some? <==> status.Failed?) && !status.Closed?
    {
      thrown := EnsureHeaderSent();
      if thrown.Some? { return; }
      thrown := PublishPacket(Content(cfg.streamId, nextChunkIndex, content), ChunkStage);
      if thrown.Some? { return; }
      nextChunkIndex := nextChunkIndex + 1;
    }

    /** TextStreamWriter::Write */
    method WriteTextChunks(text: Chunk) returns (thrown: Option<Failure>)
      requires status.Failed? <==> firstFailure.Some?
      modifies this
      ensures (View(), thrown) == Step(cfg, old(View()), WriteText(text))
    {
      hide SendChunk, SendTrailer, ChunkSizeAt;
      if status.Failed? { return firstFailure; }
      if status.Closed? || text == [] { return None; }

      var offset := 0;
      while offset < |text|
        invariant 0 <= offset <= |text|
        invariant status.Open? && firstFailure.None?
        invariant SendChunks(cfg, View(), TextChunks(text, offset)) == SendChunks(cfg, old(View()), TextChunks(text, 0))
      {
        var chunkSize := Utf8AwareChunkSize(text, offset);
        thrown := SendOneChunk(text[offset..offset + chunkSize]);
        if thrown.Some? { return; }
        offset := offset + chunkSize;
      }
      thrown := None;
    }

    /** ByteStreamWriter::Write */
    method WriteByteChunks(data: Chunk) returns (thrown: Option<Failure>)
      requires status.Failed? <==> firstFailure.Some?
      modifies this
      ensures (View(), thrown) == Step(cfg, old(View()), WriteBytes(data))
    {
      if status.Failed? { return firstFailure; }
      if status.Closed? || data == [] { return None; }

      var offset := 0;
      while offset < |data|
        invariant 0 <= offset <= |data|
        invariant status.Open? && firstFailure.None?
        invariant SendChunks(cfg, View(), ByteChunks(data, offset)) == SendChunks(cfg, old(View()), ByteChunks(data, 0))
      {
        var chunkSize := if |data| - offset < STREAM_CHUNK_SIZE then |data| - offset else STREAM_CHUNK_SIZE;
        thrown := SendOneChunk(data[offset..offset + chunkSize]);
        if thrown.Some? { return; }
        offset := offset + chunkSize;
      }
      thrown := None;
    }

    method CloseStream(reason: string, attributes: map<string, string>) returns (thrown: Option<Failure>)
      requires status.Failed? <==> firstFailure.Some?
      modifies this
      ensures (View(), thrown) == Step(cfg, old(View()), Close(reason, attributes))
    {
      if status.Failed? { return firstFailure; }
      if status.Closed? { return None; }
      thrown := EnsureHeaderSent();
      if thrown.Some? { return; }
      thrown := PublishPacket(Trailer(cfg.streamId, reason, attributes), TrailerStage);
      if thrown.Some? { return; }
      status := Closed;
    }

    method CancelStream(reason: string) returns (thrown: Option<Failure>)
      requires status.Failed? <==> firstFailure.Some?
      modifies this
      ensures (View(), thrown) == Step(cfg, old(View()), Cancel(reason))
    {
      thrown := CloseStream(if reason == "" then "cancelled" else reason, map[]);
    }

    /** ~BaseStreamWriter: an open writer is closed, and an exception is swallowed. */
    method Finalize()
      requires status.Failed? <==> firstFailure.Some?
      modifies this
      ensures View() == Step(cfg, old(View()), Destroy).0
    {
      if !status.Open? { return; }
      var _ := CloseStream("", map[]);
    }
  }
}
