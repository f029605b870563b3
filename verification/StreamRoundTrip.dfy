/**
 From a stream writer, over a publisher that accepts every packet, to a stream reader that takes the
 packets in order (src/core/data_stream.cpp, both ends).
 */
module StreamRoundTrip {
  import opened Bytes
  import opened Options
  import opened Sizes
  import opened StreamChunks
  import Utf8
  import W = StreamWriter
  import R = StreamReader

  // ----- Writing to a publisher that accepts everything -----

  ghost predicate AcceptsAll(cfg: W.Config) {
    cfg.publisher.Some? && forall n: nat, p: W.Packet :: cfg.publisher.value(n, p) == W.Accept
  }

  function Write(text: bool, bytes: Chunk): W.Operation {
    if text then W.WriteText(bytes) else W.WriteBytes(bytes)
  }

  function Writes(text: bool, writes: seq<Chunk>): seq<W.Operation> {
    if writes == [] then [] else [Write(text, writes[0])] + Writes(text, writes[1..])
  }

  /** The chunks of all writes. */
  function AllParts(text: bool, writes: seq<Chunk>): seq<Chunk> {
    if writes == [] then [] else W.Parts(Write(text, writes[0])) + AllParts(text, writes[1..])
  }

  predicate NoneEmpty(parts: seq<Chunk>) {
    forall i :: 0 <= i < |parts| ==> parts[i] != []
  }

  lemma {:induction false} AllPartsSpell(text: bool, writes: seq<Chunk>)
    ensures Concat(AllParts(text, writes)) == Concat(writes)
    ensures NoneEmpty(AllParts(text, writes))
  {
    if writes != [] {
      W.PartsSpellPayload(Write(text, writes[0]));
      assert forall i :: 0 <= i < |W.Parts(Write(text, writes[0]))| ==>
        W.Parts(Write(text, writes[0]))[i] in W.Parts(Write(text, writes[0]));
      AllPartsSpell(text, writes[1..]);
      ConcatSplit(W.Parts(Write(text, writes[0])), AllParts(text, writes[1..]));
    }
  }

  lemma {:induction false} SendChunksSucceeds(cfg: W.Config, w: W.Writer, parts: seq<Chunk>)
    requires AcceptsAll(cfg) && w.status.Open?
    ensures W.SendChunks(cfg, w, parts).status.Open?
    decreases |parts|
  {
    if parts != [] {
      SendChunksSucceeds(cfg, W.SendChunk(cfg, w, parts[0]), parts[1..]);
    }
  }

  lemma WriteSucceeds(cfg: W.Config, w: W.Writer, sent: seq<Chunk>, op: W.Operation)
    requires AcceptsAll(cfg) && w.status.Open? && W.Traces(cfg, w, sent) && W.IsWrite(op)
    ensures var r := W.Step(cfg, w, op).0;
            r.status.Open? && W.Traces(cfg, r, sent + W.Parts(op))
  {
    SendChunksSucceeds(cfg, w, W.Parts(op));
    var done := W.SendChunksTraces(cfg, w, sent, W.Parts(op));
  }

  lemma {:induction false} WritesSucceed(cfg: W.Config, w: W.Writer, sent: seq<Chunk>, text: bool, writes: seq<Chunk>)
    requires AcceptsAll(cfg) && w.status.Open? && W.Traces(cfg, w, sent)
    ensures var r := W.Run(cfg, w, Writes(text, writes));
            r.status.Open? && W.Traces(cfg, r, sent + AllParts(text, writes))
    decreases |writes|
  {
    hide W.Step, W.Traces, W.Parts;
    if writes == [] {
      assert sent + [] == sent;
    } else {
      var op := Write(text, writes[0]);
      WriteSucceeds(cfg, w, sent, op);
      WritesSucceed(cfg, W.Step(cfg, w, op).0, sent + W.Parts(op), text, writes[1..]);
      assert sent + W.Parts(op) + AllParts(text, writes[1..]) == sent + AllParts(text, writes);
      assert Writes(text, writes)[1..] == Writes(text, writes[1..]);
    }
  }

  /** The packets of a stream of writes that is then ended: closed, cancelled, or dropped. */
  function Sent(cfg: W.Config, text: bool, writes: seq<Chunk>, ending: W.Operation): seq<W.Packet> {
    W.Run(cfg, W.FRESH, Writes(text, writes) + [ending]).accepted
  }

  lemma SentPackets(cfg: W.Config, text: bool, writes: seq<Chunk>, ending: W.Operation)
    requires AcceptsAll(cfg) && !W.IsWrite(ending)
    ensures Sent(cfg, text, writes, ending)
         == W.Opening(cfg, AllParts(text, writes))
            + [W.Trailer(cfg.streamId, W.ReasonOf(ending), W.AttributesOf(ending))]
  {
    var parts := AllParts(text, writes);
    WritesSucceed(cfg, W.FRESH, [], text, writes);
    assert [] + parts == parts;
    W.RunSplit(cfg, W.FRESH, Writes(text, writes), [ending]);
    var open := W.Run(cfg, W.FRESH, Writes(text, writes));
    assert W.Run(cfg, open, [ending]) == W.Step(cfg, open, ending).0;
    W.EnsureHeaderTraces(cfg, open, parts);
    var trailer := W.Trailer(cfg.streamId, W.ReasonOf(ending), W.AttributesOf(ending));
    assert W.Opening(cfg, parts) + [trailer] == W.EnsureHeader(cfg, open).accepted + [trailer];
  }

  // ----- Reading the packets in order -----

  /** The receiving side: the reader a header opened, the shared budget, and whether all was accepted. */
  datatype Inbox = Inbox(reader: Option<R.Reader>, budget: R.Budget, accepted: bool)

  function Deliver(limits: R.Limits, text: bool, x: Inbox, packet: W.Packet): Inbox {
    match packet
    case Header(_, total) =>
      var (r, b) := R.Open(limits, x.budget, text, total);
      Inbox(Some(r), b, x.accepted && r.admitted)
    case Content(_, index, content) =>
      if x.reader.None? then x.(accepted := false)
      else
        var (r, b, ok) := R.Offer(limits, x.reader.value, x.budget, index, content);
        Inbox(Some(r), b, x.accepted && ok)
    case Trailer(_, reason, attributes) =>
      if x.reader.None? then x.(accepted := false)
      else
        var (r, b) := R.Close(x.reader.value, x.budget, reason, attributes);
        Inbox(Some(r), b, x.accepted)
  }

  function DeliverAll(limits: R.Limits, text: bool, x: Inbox, packets: seq<W.Packet>): Inbox
    decreases |packets|
  {
    if packets == [] then x else DeliverAll(limits, text, Deliver(limits, text, x, packets[0]), packets[1..])
  }

  lemma {:induction false} DeliverSplit(limits: R.Limits, text: bool, x: Inbox, ps: seq<W.Packet>, qs: seq<W.Packet>)
    ensures DeliverAll(limits, text, x, ps + qs) == DeliverAll(limits, text, DeliverAll(limits, text, x, ps), qs)
    decreases |ps|
  {
    if ps == [] {
      assert ps + qs == qs;
    } else {
      assert (ps + qs)[1..] == ps[1..] + qs;
      DeliverSplit(limits, text, Deliver(limits, text, x, ps[0]), ps[1..], qs);
    }
  }

  lemma {:induction false} RefusalIsRemembered(limits: R.Limits, text: bool, x: Inbox, packets: seq<W.Packet>)
    requires !x.accepted
    ensures !DeliverAll(limits, text, x, packets).accepted
    decreases |packets|
  {
    if packets != [] {
      RefusalIsRemembered(limits, text, Deliver(limits, text, x, packets[0]), packets[1..]);
    }
  }

  /** The content packets from number `from` on. */
  function Contents(id: string, parts: seq<Chunk>, from: nat): seq<W.Packet> {
    if parts == [] then [] else [W.Content(id, from, parts[0])] + Contents(id, parts[1..], from + 1)
  }

  lemma {:induction false} OpeningContents(cfg: W.Config, parts: seq<Chunk>)
    ensures W.Opening(cfg, parts) == [W.Header(cfg.streamId, cfg.totalLength)] + Contents(cfg.streamId, parts, 0)
  {
    ContentsAt(cfg.streamId, parts, 0);
  }

  lemma {:induction false} ContentsAt(id: string, parts: seq<Chunk>, from: nat)
    ensures |Contents(id, parts, from)| == |parts|
    ensures forall i :: 0 <= i < |parts| ==> Contents(id, parts, from)[i] == W.Content(id, from + i, parts[i])
  {
    if parts != [] {
      ContentsAt(id, parts[1..], from + 1);
    }
  }

  /** Chunks of `bytes` bytes still fit in the reader and in the budget. */
  predicate Fits(limits: R.Limits, r: R.Reader, b: R.Budget, count: nat, bytes: nat) {
    && r.queuedChunks + count <= limits.maxQueuedChunks
    && r.buffered + bytes <= limits.maxBytesPerReader
    && b.buffered + bytes <= limits.maxBufferedBytes
    && r.received + bytes <= SIZE_MAX
    && (r.declared.Some? ==> r.received + bytes <= r.declared.value)
  }

  predicate AllText(parts: seq<Chunk>) {
    forall c :: c in parts ==> Utf8.WellFormed(c)
  }

  /** The reader after it has taken all the chunks. */
  function Loaded(r: R.Reader, parts: seq<Chunk>): R.Reader {
    r.(queue := r.queue + parts, buffered := r.buffered + Size(parts), received := r.received + Size(parts),
       queuedChunks := r.queuedChunks + |parts|, next := r.next + |parts|)
  }

  lemma {:induction false} OfferFits(limits: R.Limits, r: R.Reader, b: R.Budget, content: Chunk)
    requires R.Valid(r) && !r.closed && content != [] && Fits(limits, r, b, 0, 0)
    ensures var (r', b', ok) := R.Offer(limits, r, b, r.next, content);
            && (ok <==> Fits(limits, r, b, 1, |content|) && (r.text ==> Utf8.WellFormed(content)))
            && (ok ==> r' == R.Push(r, content) && R.Valid(r') && b' == b.(buffered := b.buffered + |content|))
  {
    if Fits(limits, r, b, 1, |content|) {
      R.PushKeepsValid(r, content);
    }
  }

  lemma AllTextSplit(parts: seq<Chunk>)
    requires parts != []
    ensures AllText(parts) <==> Utf8.WellFormed(parts[0]) && AllText(parts[1..])
  {
  }

  lemma LoadedStep(r: R.Reader, parts: seq<Chunk>)
    requires parts != []
    ensures Loaded(R.Push(r, parts[0]), parts[1..]) == Loaded(r, parts)
  {
    assert r.queue + [parts[0]] + parts[1..] == r.queue + parts;
  }

  /** An open reader accepts a run of non-empty chunks exactly when all of them together fit. */
  lemma {:induction false} ChunksAccepted(limits: R.Limits, text: bool, id: string, r: R.Reader, b: R.Budget,
                                          parts: seq<Chunk>)
    requires R.Valid(r) && !r.closed && r.text == text && Fits(limits, r, b, 0, 0)
    requires NoneEmpty(parts)
    ensures var x := DeliverAll(limits, text, Inbox(Some(r), b, true), Contents(id, parts, r.next));
            && (x.accepted <==> Fits(limits, r, b, |parts|, Size(parts)) && (text ==> AllText(parts)))
            && (x.accepted ==>
                  x == Inbox(Some(Loaded(r, parts)), b.(buffered := b.buffered + Size(parts)), true)
                  && R.Valid(Loaded(r, parts)))
    decreases |parts|
  {
    hide R.Offer, R.Valid;
    var start := Inbox(Some(r), b, true);
    if parts == [] {
      assert r.queue + [] == r.queue;
      assert Loaded(r, []) == r;
    } else {
      var (r', b', ok) := R.Offer(limits, r, b, r.next, parts[0]);
      OfferFits(limits, r, b, parts[0]);
      var next, rest := Inbox(Some(r'), b', ok), Contents(id, parts[1..], r.next + 1);
      assert Deliver(limits, text, start, W.Content(id, r.next, parts[0])) == next;
      assert DeliverAll(limits, text, start, Contents(id, parts, r.next)) == DeliverAll(limits, text, next, rest);
      AllTextSplit(parts);
      if ok {
        ChunksAccepted(limits, text, id, r', b', parts[1..]);
        LoadedStep(r, parts);
      } else {
        RefusalIsRemembered(limits, text, next, rest);
      }
    }
  }

  // ----- End to end -----

  /** What the caller of ReadAll gets once these packets were delivered in order, whether or not all were accepted. */
  function Receive(limits: R.Limits, text: bool, b: R.Budget, packets: seq<W.Packet>): Option<R.ReadResult> {
    var x := DeliverAll(limits, text, Inbox(None, b, true), packets);
    if x.reader.Some? && R.Valid(x.reader.value)
    then Some(R.ReadAllFrom(limits, x.reader.value, x.budget, []).2)
    else None
  }

  /** A stream is still coming in: its reader closes only to fail, and has failed once it has refused a packet. */
  predicate ComingIn(x: Inbox) {
    && x.reader.Some? && R.Valid(x.reader.value) && x.reader.value.buffered <= x.budget.buffered
    && (x.reader.value.closed || !x.accepted ==> x.reader.value.failed)
  }

  lemma ContentComesIn(limits: R.Limits, text: bool, x: Inbox, id: string, index: nat, content: Chunk)
    requires ComingIn(x)
    ensures ComingIn(Deliver(limits, text, x, W.Content(id, index, content)))
  {
    hide R.Offer, Utf8.WellFormed, R.Room;
    R.OfferOutcome(limits, x.reader.value, x.budget, index, content);
    R.OfferKeepsValid(limits, x.reader.value, x.budget, index, content);
  }

  lemma {:induction false} ContentsComeIn(limits: R.Limits, text: bool, x: Inbox, id: string, parts: seq<Chunk>,
                                          from: nat)
    requires ComingIn(x)
    ensures ComingIn(DeliverAll(limits, text, x, Contents(id, parts, from)))
    decreases |parts|
  {
    hide Deliver, ComingIn;
    if parts != [] {
      ContentComesIn(limits, text, x, id, from, parts[0]);
      ContentsComeIn(limits, text, Deliver(limits, text, x, W.Content(id, from, parts[0])), id, parts[1..], from + 1);
    }
  }

  lemma HeaderComesIn(limits: R.Limits, text: bool, b: R.Budget, header: W.Packet)
    requires header.Header?
    ensures ComingIn(Deliver(limits, text, Inbox(None, b, true), header))
  {
  }

  lemma TrailerFails(limits: R.Limits, text: bool, x: Inbox, trailer: W.Packet)
    requires trailer.Trailer? && ComingIn(x)
    ensures var x' := Deliver(limits, text, x, trailer);
            && x'.reader.Some? && R.Valid(x'.reader.value) && x'.reader.value.buffered <= x'.budget.buffered
            && (!x'.accepted ==> x'.reader.value.failed)
  {
    hide R.Close;
    R.CloseOutcome(x.reader.value, x.budget, trailer.reason, trailer.attributes);
  }

  /** ReadAll of a failed reader throws. */
  lemma FailedThrows(limits: R.Limits, r: R.Reader, b: R.Budget)
    requires R.Valid(r) && r.failed && r.buffered <= b.buffered
    ensures R.ReadAllFrom(limits, r, b, []).2.Throws?
  {
    hide R.ReadAllFrom;
    R.ReadAllMeaning(limits, r, b, []);
  }

  /** The writes of a text stream are text, and the whole stream fits the receiver's limits. */
  predicate Acceptable(limits: R.Limits, text: bool, b: R.Budget, declared: Option<nat>, writes: seq<Chunk>) {
    && b.active < limits.maxActiveReaders
    && (text ==> AllText(writes))
    && |AllParts(text, writes)| <= limits.maxQueuedChunks
    && Size(writes) <= limits.maxBytesPerReader
    && b.buffered + Size(writes) <= limits.maxBufferedBytes
    && (declared.Some? ==> Size(writes) <= declared.value)
  }

  /** A text stream's chunks are all text exactly when every write was. */
  lemma {:induction false} PartsAreText(writes: seq<Chunk>)
    ensures AllText(AllParts(true, writes)) <==> AllText(writes)
  {
    if writes != [] {
      var text, parts, rest := writes[0], TextChunks(writes[0], 0), AllParts(true, writes[1..]);
      assert text[0..] == text;
      PartsAreText(writes[1..]);
      TextChunksCover(text, 0);
      if Utf8.WellFormed(text) {
        TextChunksAreText(text, 0);
      }
      if AllText(parts) {
        ConcatOfTexts(parts);
      }
      assert AllParts(true, writes) == parts + rest;
      assert AllText(parts + rest) <==> AllText(parts) && AllText(rest);
      assert AllText(writes) <==> Utf8.WellFormed(text) && AllText(writes[1..]);
    }
  }

  lemma {:induction false} ConcatOfTexts(parts: seq<Chunk>)
    requires AllText(parts)
    ensures Utf8.WellFormed(Concat(parts))
  {
    if parts != [] {
      ConcatOfTexts(parts[1..]);
      Utf8.JoinText(parts[0], Concat(parts[1..]));
    }
  }

  lemma {:induction false} AllPartsSize(text: bool, writes: seq<Chunk>)
    ensures Size(AllParts(text, writes)) == Size(writes)
  {
    AllPartsSpell(text, writes);
    ConcatLength(AllParts(text, writes));
    ConcatLength(writes);
  }

  lemma HeaderDelivered(limits: R.Limits, cfg: W.Config, text: bool, b: R.Budget)
    requires b.buffered <= limits.maxBufferedBytes
    ensures var x := Deliver(limits, text, Inbox(None, b, true), W.Header(cfg.streamId, cfg.totalLength));
            && (x.accepted <==> b.active < limits.maxActiveReaders)
            && (x.accepted ==>
                  && x.reader.Some? && x.budget == b.(active := b.active + 1)
                  && var r := x.reader.value;
                     && R.Valid(r) && !r.closed && r.text == text && r.declared == cfg.totalLength
                     && r.next == r.received == r.buffered == r.queuedChunks == 0 && r.queue == [] && r.registered
                     && r.attributes == map[]
                     && Fits(limits, r, x.budget, 0, 0))
  {
  }

  /** Why a reader is failed by the end of a stream that gives this reason, if it is. */
  function Ended(declared: Option<nat>, received: nat, reason: string): Option<R.CloseReason> {
    if declared.Some? && declared.value != received then Some(R.LengthMismatch)
    else if reason != "" then Some(R.Given(reason))
    else None
  }

  lemma TrailerDelivered(limits: R.Limits, text: bool, r: R.Reader, b: R.Budget, id: string, reason: string,
                         attributes: map<string, string>)
    requires R.Valid(r) && !r.closed && r.registered && b.active > 0
    ensures var x := Deliver(limits, text, Inbox(Some(r), b, true), W.Trailer(id, reason, attributes));
            && x.accepted && x.reader.Some? && x.budget == b.(active := b.active - 1)
            && var r' := x.reader.value;
               && R.Valid(r') && r'.closed && r'.queue == r.queue && r'.attributes == r.attributes + attributes
               && r'.reason == Ended(r.declared, r.received, reason)
  {
    R.CloseOutcome(r, b, reason, attributes);
  }

  /** The receiver after the last packet of an acceptable stream, and whether every packet was accepted. */
  lemma StreamDelivered(limits: R.Limits, cfg: W.Config, text: bool, b: R.Budget, writes: seq<Chunk>,
                        ending: W.Operation)
    requires AcceptsAll(cfg) && !W.IsWrite(ending) && b.buffered <= limits.maxBufferedBytes
    ensures var x := DeliverAll(limits, text, Inbox(None, b, true), Sent(cfg, text, writes, ending));
            && (x.accepted <==> Acceptable(limits, text, b, cfg.totalLength, writes))
            && (x.accepted ==>
                  && x.reader.Some? && R.Valid(x.reader.value) && x.reader.value.closed
                  && x.reader.value.queue == AllParts(text, writes)
                  && x.budget == b.(buffered := b.buffered + Size(writes))
                  && x.reader.value.attributes == W.AttributesOf(ending)
                  && x.reader.value.reason == Ended(cfg.totalLength, Size(writes), W.ReasonOf(ending)))
  {
    hide R.Offer, R.Valid, W.Opening, AllParts, Sent, Size, Deliver, Contents, W.Run, Concat, Ended, W.ReasonOf,
         W.AttributesOf;
    var parts, id := AllParts(text, writes), cfg.streamId;
    var trailer := W.Trailer(id, W.ReasonOf(ending), W.AttributesOf(ending));
    SentPackets(cfg, text, writes, ending);
    OpeningContents(cfg, parts);
    AllPartsSpell(text, writes);
    AllPartsSize(text, writes);
    if text { PartsAreText(writes); }

    var start, header := Inbox(None, b, true), W.Header(id, cfg.totalLength);
    var begun := Deliver(limits, text, start, header);
    var body := Contents(id, parts, 0);
    var packets := [header] + (body + [trailer]);
    assert W.Opening(cfg, parts) + [trailer] == packets;
    assert DeliverAll(limits, text, start, packets) == DeliverAll(limits, text, begun, body + [trailer]);
    DeliverSplit(limits, text, begun, body, [trailer]);
    var full := DeliverAll(limits, text, begun, body);
    assert DeliverAll(limits, text, full, [trailer]) == Deliver(limits, text, full, trailer);
    HeaderDelivered(limits, cfg, text, b);
    if begun.accepted {
      ChunksAccepted(limits, text, id, begun.reader.value, begun.budget, parts);
      assert [] + parts == parts;
    } else {
      RefusalIsRemembered(limits, text, begun, body);
    }
    if full.accepted {
      TrailerDelivered(limits, text, full.reader.value, full.budget, id, W.ReasonOf(ending), W.AttributesOf(ending));
      assert map[] + W.AttributesOf(ending) == W.AttributesOf(ending);
    } else {
      RefusalIsRemembered(limits, text, full, [trailer]);
    }
  }

  /**
   The end-to-end law, for text and for byte streams, on all inputs and however the stream ends: ReadAll gives back
   exactly what was written if and only if the stream ended without a reason, the writes of a text stream are UTF-8, the
   stream fits the receiver's limits, a declared length is the length written, and ReadAll's own limit holds it.
   */
  lemma RoundTrip(limits: R.Limits, cfg: W.Config, text: bool, b: R.Budget, writes: seq<Chunk>, ending: W.Operation)
    requires AcceptsAll(cfg) && !W.IsWrite(ending) && b.buffered <= limits.maxBufferedBytes
    ensures Receive(limits, text, b, Sent(cfg, text, writes, ending)) == Some(R.Bytes(Concat(writes)))
       <==> && Acceptable(limits, text, b, cfg.totalLength, writes)
            && (cfg.totalLength.Some? ==> cfg.totalLength.value == Size(writes))
            && Size(writes) <= limits.maxReadAllBytes
            && (ending.Destroy? || (ending.Close? && ending.reason == ""))
  {
    ReceiveOutcome(limits, cfg, text, b, writes, ending);
  }

  /** What comes of a stream whose packets are all accepted: bytes only at a clean end, else what went wrong. */
  lemma ReceiveOutcome(limits: R.Limits, cfg: W.Config, text: bool, b: R.Budget, writes: seq<Chunk>,
                       ending: W.Operation)
    requires AcceptsAll(cfg) && !W.IsWrite(ending) && b.buffered <= limits.maxBufferedBytes
    ensures var outcome := Receive(limits, text, b, Sent(cfg, text, writes, ending));
            var failure := Ended(cfg.totalLength, Size(writes), W.ReasonOf(ending));
            if !Acceptable(limits, text, b, cfg.totalLength, writes) then outcome.Some? && outcome.value.Throws?
            else if Size(writes) > limits.maxReadAllBytes then outcome == Some(R.Throws(R.ReadAllLimitExceeded))
            else if failure.Some? then outcome == Some(R.Throws(failure.value))
            else outcome == Some(R.Bytes(Concat(writes)))
  {
    hide Sent, Acceptable, AllParts, DeliverAll, R.ReadAllFrom, W.ReasonOf, W.AttributesOf, Ended, Size, Concat;
    var x := DeliverAll(limits, text, Inbox(None, b, true), Sent(cfg, text, writes, ending));
    StreamDelivered(limits, cfg, text, b, writes, ending);
    if x.accepted {
      AllPartsSpell(text, writes);
      AllPartsSize(text, writes);
      R.ReadAllMeaning(limits, x.reader.value, x.budget, []);
      assert [] + Concat(writes) == Concat(writes);
    } else {
      RefusedThrows(limits, cfg, text, b, writes, ending);
    }
  }

  /** A stream that is not accepted whole makes ReadAll throw. */
  lemma RefusedThrows(limits: R.Limits, cfg: W.Config, text: bool, b: R.Budget, writes: seq<Chunk>,
                      ending: W.Operation)
    requires AcceptsAll(cfg) && !W.IsWrite(ending)
    requires !DeliverAll(limits, text, Inbox(None, b, true), Sent(cfg, text, writes, ending)).accepted
    ensures var outcome := Receive(limits, text, b, Sent(cfg, text, writes, ending));
            outcome.Some? && outcome.value.Throws?
  {
    hide Sent, AllParts, R.ReadAllFrom, W.ReasonOf, W.AttributesOf, R.Valid, Deliver, Contents, W.Opening;
    var parts, id := AllParts(text, writes), cfg.streamId;
    var header, trailer := W.Header(id, cfg.totalLength), W.Trailer(id, W.ReasonOf(ending), W.AttributesOf(ending));
    SentPackets(cfg, text, writes, ending);
    OpeningContents(cfg, parts);
    var start, body := Inbox(None, b, true), Contents(id, parts, 0);
    var begun := Deliver(limits, text, start, header);
    assert W.Opening(cfg, parts) + [trailer] == [header] + (body + [trailer]);
    DeliverSplit(limits, text, begun, body, [trailer]);
    HeaderComesIn(limits, text, b, header);
    ContentsComeIn(limits, text, begun, id, parts, 0);
    var full := DeliverAll(limits, text, begun, body);
    TrailerFails(limits, text, full, trailer);
    var last := Deliver(limits, text, full, trailer);
    assert DeliverAll(limits, text, full, [trailer]) == last;
    FailedThrows(limits, last.reader.value, last.budget);
  }

  /**
   A cancelled stream never passes for a whole one: whatever was written, ReadAll throws. It throws the reason given, or
   "cancelled" without one, if the stream fits and a declared length happens to be met.
   */
  lemma CancelIsThrown(limits: R.Limits, cfg: W.Config, text: bool, b: R.Budget, writes: seq<Chunk>, reason: string)
    requires AcceptsAll(cfg) && b.buffered <= limits.maxBufferedBytes
    ensures var outcome := Receive(limits, text, b, Sent(cfg, text, writes, W.Cancel(reason)));
            && outcome.Some? && outcome.value.Throws?
            && (Acceptable(limits, text, b, cfg.totalLength, writes) && Size(writes) <= limits.maxReadAllBytes
                && (cfg.totalLength.Some? ==> cfg.totalLength.value == Size(writes)) ==>
                  outcome == Some(R.Throws(R.Given(if reason == "" then "cancelled" else reason))))
  {
    ReceiveOutcome(limits, cfg, text, b, writes, W.Cancel(reason));
  }

  /** With the default limits, one valid text of 16 MiB or less always arrives at an idle receiver. */
  lemma DefaultTextArrives(cfg: W.Config, write: Chunk, attributes: map<string, string>)
    requires AcceptsAll(cfg) && cfg.totalLength.None?
    requires Utf8.WellFormed(write) && |write| <= 16 * 1024 * 1024
    ensures Receive(R.DEFAULT_LIMITS, true, R.Budget(0, 0), Sent(cfg, true, [write], W.Close("", attributes)))
            == Some(R.Bytes(write))
  {
    RoundTrip(R.DEFAULT_LIMITS, cfg, true, R.Budget(0, 0), [write], W.Close("", attributes));
    assert Acceptable(R.DEFAULT_LIMITS, true, R.Budget(0, 0), None, [write]) by {
      TextChunkCount(write);
      SingleWrite(write);
    }
    SingleWrite(write);
  }

  lemma SingleWrite(write: Chunk)
    ensures Concat([write]) == write && Size([write]) == |write|
    ensures AllParts(true, [write]) == TextChunks(write, 0)
  {
    assert [write][1..] == [];
    assert write + [] == write && TextChunks(write, 0) + [] == TextChunks(write, 0);
  }
}
