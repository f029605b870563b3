/**
 How the receiver takes the packets of one file (src/core/meeting_coordinator.cpp): each chunk is put in its place and
 the threads run on until nothing waits; the chunk that makes the set full delivers the file.
 */
module MediaUptake {
  import opened Options
  import opened MediaKeys
  import opened MediaSlices
  import T = MediaTransfer
  import opened MediaDelivery
  import opened MediaReceiver

  // ----- The receiver's threads run on until nothing waits -----

  predicate Settled(w: Receiver) {
    w.toQt == [] && w.toStrand == [] && w.frames == []
  }

  /** One of the callbacks that wait; where it looks, the session and this sender are current. */
  predicate ThreadStep(owner: ParticipantKey, c: Callback) {
    match c
    case QtPostIn(view, _) => Current(view, owner)
    case ResumeIn(_, view) => Current(view, owner)
    case StrandPostIn(_) => true
    case _ => false
  }

  ghost predicate Drains(decode: T.Decoder, owner: ParticipantKey, w: Receiver, callbacks: seq<Callback>, w': Receiver)
    decreases |callbacks|
  {
    if callbacks == [] then w' == w && Settled(w)
    else ThreadStep(owner, callbacks[0])
         && exists mid :: Step(decode, w, callbacks[0], mid) && Drains(decode, owner, mid, callbacks[1..], w')
  }

  /** The callback brings this packet of this sender, whose ticket is active. */
  predicate Brings(c: Callback, k: Key, owner: ParticipantKey, p: T.Packet) {
    c.PacketIn? && c.sender == owner && c.revision == k.revision && c.packet == p && owner in c.tickets && c.active
  }

  /** The receiver takes a packet, and its threads run on until nothing waits. */
  ghost predicate Takes(decode: T.Decoder, k: Key, owner: ParticipantKey, w: Receiver, p: T.Packet, w': Receiver) {
    exists c, mid, callbacks ::
      Brings(c, k, owner, p) && Step(decode, w, c, mid) && Drains(decode, owner, mid, callbacks, w')
  }

  ghost predicate TakesAll(decode: T.Decoder, k: Key, owner: ParticipantKey, w: Receiver, packets: seq<T.Packet>,
                           w': Receiver)
    decreases |packets|
  {
    if packets == [] then w' == w
    else exists mid :: Takes(decode, k, owner, w, packets[0], mid) && TakesAll(decode, k, owner, mid, packets[1..], w')
  }

  /** A view in which the session and the sender are current. */
  function Now(owner: ParticipantKey): QtView {
    QtView(true, {owner}, Meeting(true, InMeeting, false, false), {owner}, map[owner.identity := owner], true)
  }

  lemma Still(decode: T.Decoder, owner: ParticipantKey, w: Receiver, callbacks: seq<Callback>, w': Receiver)
    requires Settled(w) && Drains(decode, owner, w, callbacks, w')
    ensures w' == w
  {
  }

  /** Only the head of the Qt thread's queue can run. */
  lemma QtMoves(decode: T.Decoder, owner: ParticipantKey, w: Receiver, callbacks: seq<Callback>, w': Receiver, k: Key,
                m: T.QtMessage)
    requires Drains(decode, owner, w, callbacks, w') && w.toStrand == [] && w.frames == []
    requires w.toQt != [] && w.toQt[0] == Post(k, owner, m) && !m.Request?
    ensures callbacks != []
    ensures Drains(decode, owner, OnTransferPost(w.(toQt := w.toQt[1..]), k, owner, m, Now(owner)), callbacks[1..], w')
  {
    hide UiTransferId, TransfersOk, Iterates, MayAsk, OnTransferPost, HasEntry;
    var mid :| Step(decode, w, callbacks[0], mid) && Drains(decode, owner, mid, callbacks[1..], w');
    assert callbacks[0].QtPostIn?;
    assert mid == Handle(decode, w, callbacks[0]).state;
    SameView(w.(toQt := w.toQt[1..]), k, owner, m, callbacks[0].view);
  }

  /** But for a request, only the session and the sender matter to what a callback finds. */
  lemma SameView(w: Receiver, k: Key, owner: ParticipantKey, m: T.QtMessage, view: QtView)
    requires Current(view, owner) && !m.Request?
    ensures OnTransferPost(w, k, owner, m, view) == OnTransferPost(w, k, owner, m, Now(owner))
  {
    hide UiTransferId, HasEntry;
  }

  /** Only the one waiting frame can resume. */
  lemma FrameMoves(decode: T.Decoder, owner: ParticipantKey, w: Receiver, callbacks: seq<Callback>, w': Receiver,
                   k: Key, data: seq<int>)
    requires Drains(decode, owner, w, callbacks, w') && w.toQt == [] && w.toStrand == []
    requires w.frames == [Waiting(k, owner, T.Delivering(data))]
    ensures callbacks != []
    ensures Drains(decode, owner, OnFrame(w.(frames := []), w.frames[0], Now(owner)), callbacks[1..], w')
  {
    hide UiTransferId, TransfersOk, Iterates;
    var mid :| Step(decode, w, callbacks[0], mid) && Drains(decode, owner, mid, callbacks[1..], w');
    assert callbacks[0].ResumeIn? && callbacks[0].frame == 0;
    assert T.Without(w.frames, 0) == [];
    assert mid == Handle(decode, w, callbacks[0]).state;
  }

  /** Only the commit can run; it buries the transfer. */
  lemma StrandMoves(decode: T.Decoder, owner: ParticipantKey, w: Receiver, callbacks: seq<Callback>, w': Receiver,
                    k: Key)
    returns (ts: Terminals)
    requires Drains(decode, owner, w, callbacks, w') && w.toQt == [] && w.frames == [] && w.accepting
    requires w.toStrand == [StrandPost(k, owner, T.Commit)]
    ensures callbacks != []
    ensures Drains(decode, owner, w.(toStrand := [], transfers := w.transfers - {k}, terminals := ts,
                                     toQt := [Post(k, owner, T.Acknowledge)]), callbacks[1..], w')
  {
    hide CompletionId, TransfersOk, Remembered;
    var mid :| Step(decode, w, callbacks[0], mid) && Drains(decode, owner, mid, callbacks[1..], w');
    assert callbacks[0].StrandPostIn?;
    assert [] + [Post(k, owner, T.Acknowledge)] == [Post(k, owner, T.Acknowledge)];
    ts := mid.terminals;
    assert mid == Handle(decode, w, callbacks[0]).state.(terminals := ts);
  }

  // ----- What a packet comes to -----

  /** The ledger has no entry of this transfer, or one that is not committed. */
  predicate OpenEntry(w: Receiver, k: Key) {
    UiTransferId(k) in w.ledger ==> w.ledger[UiTransferId(k)] == Entry(k, false)
  }

  /** With the placeholder there, reported once. */
  function Opened(w: Receiver, k: Key): Receiver {
    if UiTransferId(k) in w.ledger then w
    else Emit(w.(ledger := w.ledger[UiTransferId(k) := Entry(k, false)]), k, T.Started)
  }

  lemma StartDrains(decode: T.Decoder, owner: ParticipantKey, w: Receiver, callbacks: seq<Callback>, w': Receiver,
                    k: Key, percent: int)
    requires Drains(decode, owner, w, callbacks, w') && w.toStrand == [] && w.frames == [] && OpenEntry(w, k)
    requires |w.toQt| >= 2 && w.toQt[0] == Post(k, owner, T.Start) && w.toQt[1] == Post(k, owner, T.Progress(percent))
    ensures |callbacks| >= 2
    ensures Drains(decode, owner, Emit(Opened(w, k), k, T.Progressed(percent)).(toQt := w.toQt[2..]), callbacks[2..],
                   w')
  {
    hide UiTransferId, Drains;
    QtMoves(decode, owner, w, callbacks, w', k, T.Start);
    var w1 := Opened(w, k).(toQt := w.toQt[1..]);
    assert OnTransferPost(w.(toQt := w.toQt[1..]), k, owner, T.Start, Now(owner)) == w1;
    QtMoves(decode, owner, w1, callbacks[1..], w', k, T.Progress(percent));
    assert callbacks[1..][1..] == callbacks[2..] && w.toQt[1..][1..] == w.toQt[2..];
    assert OnTransferPost(w1.(toQt := w.toQt[2..]), k, owner, T.Progress(percent), Now(owner))
        == Emit(Opened(w, k), k, T.Progressed(percent)).(toQt := w.toQt[2..]);
  }

  /** Signals of this transfer, as they are reported. */
  function ReportsOf(k: Key, signals: seq<T.Signal>): seq<Report> {
    seq(|signals|, i requires 0 <= i < |signals| => Report(UiTransferId(k), signals[i]))
  }

  /** What is reported of a chunk: the placeholder if there is none yet, the progress, and the data at the end. */
  function ChunkSignals(announced: bool, percent: int, data: Option<seq<int>>): seq<T.Signal> {
    (if announced then [] else [T.Started]) + [T.Progressed(percent)]
    + if data.Some? then [T.Progressed(100), T.Completed(data.value)] else []
  }

  /** How far a transfer is shown to have come: the percentage, rounded down, and 99 at most. */
  lemma PercentMeaning(count: nat, total: int)
    requires total > 0
    ensures var p := T.Percent(count, total);
            0 <= p <= 99 && p * total <= 100 * count && (p < 99 ==> 100 * count < (p + 1) * total)
  {
    var q, rest := count * 100 / total, count * 100 % total;
    assert count * 100 == q * total + rest;
    PercentBounds(count * 100, q, rest, total);
  }

  lemma PercentBounds(x: nat, q: int, rest: int, total: int)
    requires total > 0 && x == q * total + rest && 0 <= rest < total
    ensures q >= 0 && q * total <= x < (q + 1) * total && (q >= 99 ==> 99 * total <= x)
  {
    if q < 0 { ProductGrows(q + 1, 0, total); }
    if q >= 99 { ProductGrows(99, q, total); }
  }

  lemma ProductGrows(a: int, b: int, n: int)
    requires a <= b && n > 0
    ensures a * n <= b * n && (b + 1) * n == b * n + n
  {
    assert (b - a) * n >= 0;
  }

  /** The transfer is over and its data has been handed over, last of all that was reported. */
  predicate Delivered(w: Receiver, k: Key, data: seq<int>) {
    && Settled(w) && k !in w.transfers && UiTransferId(k) !in w.ledger
    && w.log != [] && w.log[|w.log| - 1] == Report(UiTransferId(k), T.Completed(data))
  }

  lemma CompleteDrains(decode: T.Decoder, owner: ParticipantKey, w: Receiver, callbacks: seq<Callback>, w': Receiver,
                       k: Key, data: seq<int>)
    requires Drains(decode, owner, w, callbacks, w') && w.toStrand == [] && w.frames == [] && w.accepting
    requires w.toQt == [Post(k, owner, T.Complete(data))] && HasEntry(w, k, false)
    ensures Delivered(w', k, data) && w'.transfers == w.transfers - {k}
    ensures w'.log == w.log + ReportsOf(k, [T.Progressed(100), T.Completed(data)])
  {
    hide UiTransferId, Drains;
    QtMoves(decode, owner, w, callbacks, w', k, T.Complete(data));
    var w1 := Emit(w.(toQt := [], frames := [Waiting(k, owner, T.Delivering(data))]), k, T.Progressed(100));
    assert OnTransferPost(w.(toQt := w.toQt[1..]), k, owner, T.Complete(data), Now(owner)) == w1;
    FrameMoves(decode, owner, w1, callbacks[1..], w', k, data);
    var w2 := Emit(w1.(frames := [], ledger := w1.ledger[UiTransferId(k) := Entry(k, true)],
                       toStrand := [StrandPost(k, owner, T.Commit)]), k, T.Completed(data));
    assert OnFrame(w1.(frames := []), w1.frames[0], Now(owner)) == w2;
    var ts := StrandMoves(decode, owner, w2, callbacks[1..][1..], w', k);
    var w3 := w2.(toStrand := [], transfers := w2.transfers - {k}, terminals := ts,
                  toQt := [Post(k, owner, T.Acknowledge)]);
    QtMoves(decode, owner, w3, callbacks[1..][1..][1..], w', k, T.Acknowledge);
    var w4 := w3.(toQt := [], ledger := w3.ledger - {UiTransferId(k)});
    assert OnTransferPost(w3.(toQt := w3.toQt[1..]), k, owner, T.Acknowledge, Now(owner)) == w4;
    Still(decode, owner, w4, callbacks[1..][1..][1..][1..], w');
  }

  /** A transfer whose chunks so far are its file's, with nothing under way. */
  ghost predicate Assembling(w: Receiver, k: Key, owner: ParticipantKey, text: string, meta: T.Meta) {
    && Settled(w) && w.accepting && TransfersOk(w) && k in w.transfers && OpenEntry(w, k)
    && k.session == w.session && k.generation == owner.generation && k.incarnation == owner.incarnation
    && CompletionId(owner, k.revision, k.wireId) !in w.terminals
    && meta.totalChunks == SliceCount(|text|)
    && var t := w.transfers[k]; t.owner == owner && !t.queued && TransferTrue(text, meta, t)
  }

  /** A chunk of that file. */
  predicate ChunkOf(decode: T.Decoder, text: string, meta: T.Meta, k: Key, p: T.Packet) {
    p.isChunk && p.wireId == k.wireId && T.WellFormed(p) && HonestPacket(decode, text, meta, p)
  }

  lemma AssemblingHas(w: Receiver, k: Key, owner: ParticipantKey, text: string, meta: T.Meta)
    requires Assembling(w, k, owner, text, meta)
    ensures k in w.transfers
    ensures var t := w.transfers[k]; T.TransferOk(t) && !t.queued && t.owner == owner && TransferTrue(text, meta, t)
  {
  }

  lemma InRange(decode: T.Decoder, text: string, meta: T.Meta, k: Key, p: T.Packet)
    requires ChunkOf(decode, text, meta, k, p)
    ensures 0 <= p.index < meta.totalChunks
  {
  }

  /** The chunks with the packet's own among them. */
  function With(t: T.Transfer, p: T.Packet): map<nat, string>
    requires p.index >= 0
  {
    t.chunks[p.index := p.data]
  }

  /** Nothing but the chunks and the time of the last new one changes. */
  predicate Continues(t: T.Transfer, t': T.Transfer, p: T.Packet, now: int)
    requires p.index >= 0
  {
    SameTerms(t, t') && t'.lastActive == if p.index in t.chunks then t.lastActive else now
  }

  /** Whether it may be asked for at all, and when it was. */
  predicate SameTerms(t: T.Transfer, t': T.Transfer) {
    t'.resumable == t.resumable && t'.lastRecovery == t.lastRecovery
  }

  /** The placeholder of the transfer has been reported. */
  predicate Announced(w: Receiver, k: Key) {
    UiTransferId(k) in w.ledger
  }

  /** What the strand makes of it: the chunk is there, and the messages are on their way. */
  lemma ChunkArrives(decode: T.Decoder, text: string, meta: T.Meta, w: Receiver, k: Key, owner: ParticipantKey,
                     c: Callback, p: T.Packet, mid: Receiver)
    requires Assembling(w, k, owner, text, meta) && ChunkOf(decode, text, meta, k, p)
    requires Brings(c, k, owner, p) && Step(decode, w, c, mid)
    ensures var t := w.transfers[k];
            var (t', messages) := T.Absorb(decode, t, p, c.now);
            t'.Some? && mid == w.(transfers := w.transfers[k := t'.value], toQt := Posts(k, owner, messages))
  {
    hide CompletionId, T.WellFormed, T.Absorb, UiTransferId, Posts, Slice, SliceCount;
    AbsorbTrue(decode, text, w.transfers[k], p, c.now);
    assert KeyFor(w, owner, c.revision, p.wireId) == k;
    assert w.terminals - {CompletionId(owner, k.revision, k.wireId)} == w.terminals;
    assert w.(terminals := w.terminals) == w;
    assert w.toQt + Posts(k, owner, T.Absorb(decode, w.transfers[k], p, c.now).1)
        == Posts(k, owner, T.Absorb(decode, w.transfers[k], p, c.now).1);
  }

  /** The messages of a chunk, and the transfer it leaves. */
  lemma ChunkAbsorbed(decode: T.Decoder, text: string, meta: T.Meta, k: Key, t: T.Transfer, p: T.Packet, now: int)
    requires T.TransferOk(t) && !t.queued && TransferTrue(text, meta, t) && ChunkOf(decode, text, meta, k, p)
    ensures var (t', messages) := T.Absorb(decode, t, p, now);
            var count := |With(t, p)|;
            && t'.Some? && t'.value.chunks == With(t, p) && T.TransferOk(t'.value) && TransferTrue(text, meta, t'.value)
            && count <= meta.totalChunks && t'.value.owner == t.owner && Continues(t, t'.value, p, now)
            && var start := [T.Start, T.Progress(T.Percent(count, meta.totalChunks))];
               if count < meta.totalChunks then messages == start && !t'.value.queued
               else messages == start + [T.Complete(decode(text))]
  {
    hide T.WellFormed, Slice, SliceCount, Join, T.Percent, T.Joined;
    AbsorbTrue(decode, text, t, p, now);
    var t1 := T.WithPiece(t, p, now);
    assert t1.chunks == With(t, p);
    Pigeonhole(t1.chunks, meta.totalChunks);
    if |t1.chunks| == meta.totalChunks {
      assert p.index < t.meta.totalChunks;
      CompletingIsAbsorbed(decode, text, t, p, now);
    }
  }

  lemma TwoPosts(k: Key, owner: ParticipantKey, a: T.QtMessage, b: T.QtMessage)
    ensures Posts(k, owner, [a, b]) == [Post(k, owner, a), Post(k, owner, b)]
  {
    assert [a, b][1..] == [b] && [b][1..] == [];
    assert Posts(k, owner, [b]) == [Post(k, owner, b)];
  }

  lemma ThreePosts(k: Key, owner: ParticipantKey, a: T.QtMessage, b: T.QtMessage, m: T.QtMessage)
    ensures Posts(k, owner, [a, b] + [m]) == [Post(k, owner, a), Post(k, owner, b), Post(k, owner, m)]
  {
    assert ([a, b] + [m])[1..] == [b, m];
    TwoPosts(k, owner, b, m);
  }

  /** The queue that a chunk leaves, as the Qt thread finds it. */
  function QueueAfter(decode: T.Decoder, text: string, k: Key, owner: ParticipantKey, percent: int, count: int,
                      total: int)
    : seq<Post>
  {
    var start := [Post(k, owner, T.Start), Post(k, owner, T.Progress(percent))];
    if count < total then start else start + [Post(k, owner, T.Complete(decode(text)))]
  }

  /** What a transfer keeps of a chunk of its file. */
  ghost predicate Holds(text: string, meta: T.Meta, owner: ParticipantKey, chunks: map<nat, string>, t: T.Transfer) {
    && t.chunks == chunks && |chunks| <= meta.totalChunks && t.owner == owner
    && T.TransferOk(t) && TransferTrue(text, meta, t) && (|chunks| < meta.totalChunks ==> !t.queued)
  }

  lemma ChunkPosted(decode: T.Decoder, text: string, meta: T.Meta, k: Key, owner: ParticipantKey, t: T.Transfer,
                    p: T.Packet, now: int)
    requires T.TransferOk(t) && !t.queued && t.owner == owner && TransferTrue(text, meta, t)
    requires ChunkOf(decode, text, meta, k, p)
    ensures var (t', messages) := T.Absorb(decode, t, p, now);
            && meta.totalChunks > 0 && t'.Some? && Holds(text, meta, owner, With(t, p), t'.value)
            && Continues(t, t'.value, p, now)
            && Posts(k, owner, messages)
               == QueueAfter(decode, text, k, owner, T.Percent(|With(t, p)|, meta.totalChunks), |With(t, p)|,
                             meta.totalChunks)
  {
    hide T.WellFormed, Slice, SliceCount, Join, T.Percent, T.Joined, T.Absorb, Posts, HonestPacket;
    InRange(decode, text, meta, k, p);
    ChunkAbsorbed(decode, text, meta, k, t, p, now);
    HonestMeta(decode, text, meta, p);
    var percent := T.Percent(|With(t, p)|, meta.totalChunks);
    TwoPosts(k, owner, T.Start, T.Progress(percent));
    ThreePosts(k, owner, T.Start, T.Progress(percent), T.Complete(decode(text)));
    assert Posts(k, owner, T.Absorb(decode, t, p, now).1)
        == QueueAfter(decode, text, k, owner, percent, |With(t, p)|, meta.totalChunks);
  }

  /** Both together. */
  lemma ChunkQueued(decode: T.Decoder, text: string, meta: T.Meta, w: Receiver, k: Key, owner: ParticipantKey,
                    c: Callback, p: T.Packet, mid: Receiver) returns (t: T.Transfer, percent: int)
    requires Assembling(w, k, owner, text, meta) && ChunkOf(decode, text, meta, k, p)
    requires Brings(c, k, owner, p) && Step(decode, w, c, mid)
    ensures k in w.transfers && p.index >= 0 && Holds(text, meta, owner, With(w.transfers[k], p), t)
    ensures Continues(w.transfers[k], t, p, c.now)
    ensures meta.totalChunks > 0 && percent == T.Percent(|With(w.transfers[k], p)|, meta.totalChunks)
    ensures mid == w.(transfers := w.transfers[k := t],
                      toQt := QueueAfter(decode, text, k, owner, percent, |With(w.transfers[k], p)|, meta.totalChunks))
  {
    hide Assembling, T.WellFormed, T.TransferOk, T.Absorb, Posts, Step, HonestPacket, AreSlices, QueueAfter, Holds,
         Continues;
    AssemblingHas(w, k, owner, text, meta);
    InRange(decode, text, meta, k, p);
    ChunkArrives(decode, text, meta, w, k, owner, c, p, mid);
    ChunkPosted(decode, text, meta, k, owner, w.transfers[k], p, c.now);
    HonestMeta(decode, text, meta, p);
    var (t', messages) := T.Absorb(decode, w.transfers[k], p, c.now);
    t := t'.value;
    percent := T.Percent(|With(w.transfers[k], p)|, meta.totalChunks);
  }

  lemma ReportsChunk(log: seq<Report>, k: Key, announced: bool, percent: int, data: Option<seq<int>>)
    ensures log + ReportsOf(k, ChunkSignals(announced, percent, data))
         == (if announced then log else log + [Report(UiTransferId(k), T.Started)])
            + [Report(UiTransferId(k), T.Progressed(percent))]
            + (if data.Some? then ReportsOf(k, [T.Progressed(100), T.Completed(data.value)]) else [])
  {
    hide UiTransferId;
  }

  /** What the Qt thread makes of it. */
  lemma ChunkReported(decode: T.Decoder, text: string, meta: T.Meta, w: Receiver, k: Key, owner: ParticipantKey,
                      t: T.Transfer, percent: int, mid: Receiver, callbacks: seq<Callback>, w': Receiver)
    requires Assembling(w, k, owner, text, meta) && Drains(decode, owner, mid, callbacks, w')
    requires Holds(text, meta, owner, t.chunks, t)
    requires mid == w.(transfers := w.transfers[k := t],
                       toQt := QueueAfter(decode, text, k, owner, percent, |t.chunks|, meta.totalChunks))
    ensures if |t.chunks| < meta.totalChunks
            then Assembling(w', k, owner, text, meta) && w'.transfers == w.transfers[k := t]
                 && w'.terminals == w.terminals && Announced(w', k)
            else Delivered(w', k, decode(text)) && w'.transfers == w.transfers - {k}
    ensures w'.log == w.log + ReportsOf(k, ChunkSignals(Announced(w, k), percent,
                                                        if |t.chunks| < meta.totalChunks then None
                                                        else Some(decode(text))))
  {
    hide CompletionId, UiTransferId, Drains, AreSlices, SliceCount, Delivered, T.TransferOk, ReportsOf, ChunkSignals;
    StartDrains(decode, owner, mid, callbacks, w', k, percent);
    var ready := Emit(Opened(mid, k), k, T.Progressed(percent)).(toQt := mid.toQt[2..]);
    ReportsChunk(w.log, k, Announced(w, k), percent,
                 if |t.chunks| < meta.totalChunks then None else Some(decode(text)));
    if |t.chunks| < meta.totalChunks {
      Still(decode, owner, ready, callbacks[2..], w');
    } else {
      CompleteDrains(decode, owner, ready, callbacks[2..], w', k, decode(text));
    }
  }

  /**
   A chunk that is taken is there, with everything else as before; the last one to come delivers the file. Placeholder,
   progress and data are reported for it, in this order, and nothing else is.
   */
  lemma ChunkTaken(decode: T.Decoder, text: string, meta: T.Meta, w: Receiver, k: Key, owner: ParticipantKey,
                   p: T.Packet, w': Receiver)
    requires Assembling(w, k, owner, text, meta) && ChunkOf(decode, text, meta, k, p)
    requires Takes(decode, k, owner, w, p, w')
    ensures k in w.transfers && p.index >= 0
            && var chunks := With(w.transfers[k], p);
               && |chunks| <= meta.totalChunks
               && if |chunks| < meta.totalChunks
                  then Assembling(w', k, owner, text, meta) && k in w'.transfers && w'.transfers[k].chunks == chunks
                       && w'.transfers == w.transfers[k := w'.transfers[k]] && w'.terminals == w.terminals
                       && Announced(w', k) && SameTerms(w.transfers[k], w'.transfers[k])
                  else Delivered(w', k, decode(text)) && w'.transfers == w.transfers - {k}
    ensures meta.totalChunks > 0
            && var count := |With(w.transfers[k], p)|;
               w'.log == w.log + ReportsOf(k, ChunkSignals(Announced(w, k), T.Percent(count, meta.totalChunks),
                                                           if count < meta.totalChunks then None
                                                           else Some(decode(text))))
  {
    hide Assembling, ChunkOf, Brings, Step, Drains, Delivered, T.TransferOk, TransferTrue, QueueAfter, Announced;
    AssemblingHas(w, k, owner, text, meta);
    InRange(decode, text, meta, k, p);
    var c, mid, callbacks :| Brings(c, k, owner, p) && Step(decode, w, c, mid)
      && Drains(decode, owner, mid, callbacks, w');
    var t, percent := ChunkQueued(decode, text, meta, w, k, owner, c, p, mid);
    ChunkReported(decode, text, meta, w, k, owner, t, percent, mid, callbacks, w');
    if |t.chunks| < meta.totalChunks { AssemblingHas(w', k, owner, text, meta); }
  }

  // ----- All that is missing -----

  /** The packets of these chunks of the file, in this order. */
  predicate ChunksOf(decode: T.Decoder, text: string, meta: T.Meta, k: Key, packets: seq<T.Packet>, indices: seq<nat>) {
    |packets| == |indices|
    && forall i :: 0 <= i < |packets| ==> ChunkOf(decode, text, meta, k, packets[i]) && packets[i].index == indices[i]
  }

  predicate Distinct(s: seq<nat>) {
    forall i, j :: 0 <= i < j < |s| ==> s[i] != s[j]
  }

  lemma {:induction false} ElementsCount(s: seq<nat>)
    requires Distinct(s)
    ensures |Elements(s)| == |s|
  {
    if s == [] {
      assert Elements(s) == {};
    } else {
      ElementsCount(s[1..]);
      assert s == [s[0]] + s[1..];
      ElementsCons(s[0], s[1..]);
    }
  }

  /** There are no more missing chunks than fit. */
  lemma RoomLeft(chunks: map<nat, string>, indices: seq<nat>, total: nat)
    requires Distinct(indices) && forall i :: i in indices ==> i < total && i !in chunks
    requires forall i :: i in chunks ==> i < total
    ensures |chunks| + |indices| <= total
  {
    ElementsCount(indices);
    assert |chunks.Keys + Elements(indices)| == |chunks.Keys| + |Elements(indices)|;
    SubsetSize(chunks.Keys + Elements(indices), Below(total));
  }

  lemma ElementsHead(s: seq<nat>)
    requires s != []
    ensures Elements(s) == {s[0]} + Elements(s[1..])
  {
    assert s == [s[0]] + s[1..];
  }

  lemma DistinctTail(s: seq<nat>)
    requires Distinct(s) && s != []
    ensures Distinct(s[1..]) && s[0] !in s[1..] && forall i :: i in s[1..] ==> i in s
  {
  }

  /** The first of the missing chunks arrives. */
  lemma OneFewer(chunks: map<nat, string>, data: string, indices: seq<nat>)
    requires indices != [] && Distinct(indices) && forall i :: i in indices ==> i !in chunks
    ensures var more := chunks[indices[0] := data];
            && |more| == |chunks| + 1 && more.Keys + Elements(indices[1..]) == chunks.Keys + Elements(indices)
            && Distinct(indices[1..]) && forall i :: i in indices[1..] ==> i !in more
  {
    hide Elements, Distinct;
    var more := chunks[indices[0] := data];
    assert more.Keys == chunks.Keys + {indices[0]};
    assert |more| == |more.Keys| && |chunks| == |chunks.Keys| && indices[0] in indices;
    ElementsHead(indices);
    assert more.Keys + Elements(indices[1..]) == chunks.Keys + ({indices[0]} + Elements(indices[1..]));
    DistinctTail(indices);
  }

  /**
   Missing chunks that are taken one after the other are there afterwards; with none left missing the file is
   delivered.
   */
  lemma {:induction false} MissingTaken(decode: T.Decoder, text: string, meta: T.Meta, w: Receiver, k: Key,
                                        owner: ParticipantKey, packets: seq<T.Packet>, indices: seq<nat>, w': Receiver)
    requires Assembling(w, k, owner, text, meta) && ChunksOf(decode, text, meta, k, packets, indices)
    requires Distinct(indices) && forall i :: i in indices ==> i !in w.transfers[k].chunks
    requires |w.transfers[k].chunks| < meta.totalChunks && TakesAll(decode, k, owner, w, packets, w')
    ensures var count := |w.transfers[k].chunks| + |indices|;
            && count <= meta.totalChunks
            && if count < meta.totalChunks
               then Assembling(w', k, owner, text, meta) && k in w'.transfers
                    && w'.transfers[k].chunks.Keys == w.transfers[k].chunks.Keys + Elements(indices)
                    && (packets != [] ==> Announced(w', k)) && SameTerms(w.transfers[k], w'.transfers[k])
               else Delivered(w', k, decode(text))
    decreases |packets|
  {
    hide Assembling, Takes, ChunkOf, Delivered, Distinct, Elements, TransferTrue, T.TransferOk, Announced;
    AssemblingHas(w, k, owner, text, meta);
    AllFit(decode, text, meta, k, w.transfers[k], packets, indices);
    if packets == [] {
      assert Elements(indices) == {} by { NoElements(); }
    } else {
      var mid :| Takes(decode, k, owner, w, packets[0], mid) && TakesAll(decode, k, owner, mid, packets[1..], w');
      ChunkTaken(decode, text, meta, w, k, owner, packets[0], mid);
      OneFewer(w.transfers[k].chunks, packets[0].data, indices);
      if |With(w.transfers[k], packets[0])| < meta.totalChunks {
        MissingTaken(decode, text, meta, mid, k, owner, packets[1..], indices[1..], w');
      } else {
        assert packets[1..] == [];
      }
    }
  }

  lemma NoElements()
    ensures Elements([]) == {}
  {
  }

  lemma AllFit(decode: T.Decoder, text: string, meta: T.Meta, k: Key, t: T.Transfer, packets: seq<T.Packet>,
               indices: seq<nat>)
    requires T.TransferOk(t) && t.meta == meta && ChunksOf(decode, text, meta, k, packets, indices)
    requires Distinct(indices) && forall i :: i in indices ==> i !in t.chunks
    ensures |t.chunks| + |indices| <= meta.totalChunks
  {
    hide ChunkOf, Distinct;
    forall i | 0 <= i < |packets| ensures indices[i] < meta.totalChunks {
      InRange(decode, text, meta, k, packets[i]);
    }
    RoomLeft(t.chunks, indices, meta.totalChunks);
  }

  // ----- The threads can always come to rest -----

  /** Some order in which the callbacks that wait can run lets the threads come to rest. */
  ghost predicate Stops(decode: T.Decoder, owner: ParticipantKey, w: Receiver) {
    exists callbacks, w' :: Drains(decode, owner, w, callbacks, w')
  }

  lemma StopsAfter(decode: T.Decoder, owner: ParticipantKey, w: Receiver, c: Callback, mid: Receiver)
    requires ThreadStep(owner, c) && Step(decode, w, c, mid) && Stops(decode, owner, mid)
    ensures Stops(decode, owner, w)
  {
    hide Step, ThreadStep;
    var callbacks, w' :| Drains(decode, owner, mid, callbacks, w');
    assert ([c] + callbacks)[1..] == callbacks;
    assert Drains(decode, owner, w, [c] + callbacks, w');
  }

  lemma {:induction false} SomeOrder<K>(keys: set<K>) returns (order: seq<K>)
    ensures Iterates(order, keys)
    decreases |keys|
  {
    if keys == {} {
      order := [];
    } else {
      var k :| k in keys;
      var rest := SomeOrder(keys - {k});
      order := [k] + rest;
      assert forall l :: l in keys ==> l == k || l in keys - {k};
    }
  }

  lemma QtCanMove(decode: T.Decoder, owner: ParticipantKey, w: Receiver, k: Key, m: T.QtMessage)
    requires TransfersOk(w) && w.toQt != [] && w.toQt[0] == Post(k, owner, m)
    requires Stops(decode, owner, OnTransferPost(w.(toQt := w.toQt[1..]), k, owner, m, Now(owner)))
    ensures Stops(decode, owner, w)
  {
    hide Stops, OnTransferPost, TransfersOk, Iterates;
    var ids := SomeOrder(w.ledger.Keys);
    var c, mid := QtPostIn(Now(owner), ids), OnTransferPost(w.(toQt := w.toQt[1..]), k, owner, m, Now(owner));
    assert Handle(decode, w, c) == Outcome(mid, []);
    assert Step(decode, w, c, mid);
    StopsAfter(decode, owner, w, c, mid);
  }

  lemma {:induction false} SomeOldest(ts: Terminals) returns (id: string)
    requires |ts| > 0
    ensures Oldest(ts, id)
    decreases |ts|
  {
    assert ts.Keys != {};
    id :| id in ts;
    var rest := ts - {id};
    assert ts.Keys == rest.Keys + {id};
    if |rest| > 0 {
      var other := SomeOldest(rest);
      if ts[other].expiresAt < ts[id].expiresAt { id := other; }
    } else {
      assert rest.Keys == {};
    }
  }

  lemma {:induction false} SomeEviction(ts: Terminals) returns (left: Terminals)
    ensures Evicted(ts, left)
    decreases |ts|
  {
    left := ts;
    if |ts| > MAXIMUM_TERMINALS {
      var id := SomeOldest(ts);
      assert ts.Keys == (ts - {id}).Keys + {id};
      left := SomeEviction(ts - {id});
    }
  }

  /** A burial always leaves some records, whichever the eviction takes. */
  lemma SomeRecords(ts: Terminals, record: Terminal) returns (left: Terminals)
    ensures Remembered(ts, [record], left)
  {
    hide Evicted, CompletionId;
    left := SomeEviction(ts[RecordId(record) := record]);
    var records := [record];
    assert records[..|records| - 1] == [];
    assert Remembered(ts, records[..|records| - 1], ts) && Evicted(ts[RecordId(record) := record], left);
  }

  lemma CompleteCanDrain(decode: T.Decoder, owner: ParticipantKey, w: Receiver, k: Key, data: seq<int>)
    requires TransfersOk(w) && w.toStrand == [] && w.frames == [] && w.accepting
    requires w.toQt == [Post(k, owner, T.Complete(data))] && HasEntry(w, k, false)
    ensures Stops(decode, owner, w)
  {
    hide UiTransferId, CompletionId, Drains, Remembered, Stops, TransfersOk;
    var now := Now(owner);
    var w1 := Emit(w.(toQt := [], frames := [Waiting(k, owner, T.Delivering(data))]), k, T.Progressed(100));
    var w2 := Emit(w1.(frames := [], ledger := w1.ledger[UiTransferId(k) := Entry(k, true)],
                       toStrand := [StrandPost(k, owner, T.Commit)]), k, T.Completed(data));
    var left := SomeRecords(w2.terminals, RecordOf(k, owner, 0));
    var w3 := w2.(toStrand := [], transfers := w2.transfers - {k}, terminals := left,
                  toQt := [Post(k, owner, T.Acknowledge)]);
    var w4 := w3.(toQt := [], ledger := w3.ledger - {UiTransferId(k)});
    SameTransfers(w, w1);
    SameTransfers(w, w2);
    FewerTransfers(w2, w3);
    assert Stops(decode, owner, w4) by { AtRest(decode, owner, w4); }
    assert OnTransferPost(w3.(toQt := w3.toQt[1..]), k, owner, T.Acknowledge, now) == w4;
    QtCanMove(decode, owner, w3, k, T.Acknowledge);
    CommitCanRun(decode, w2, k, owner, left);
    StopsAfter(decode, owner, w2, StrandPostIn(0), w3);
    FrameCanResume(decode, owner, w1, w2, k, data);
    StopsAfter(decode, owner, w1, ResumeIn(0, now), w2);
    assert OnTransferPost(w.(toQt := w.toQt[1..]), k, owner, T.Complete(data), now) == w1;
    QtCanMove(decode, owner, w, k, T.Complete(data));
  }

  lemma AtRest(decode: T.Decoder, owner: ParticipantKey, w: Receiver)
    requires Settled(w)
    ensures Stops(decode, owner, w)
  {
    assert Drains(decode, owner, w, [], w);
  }

  lemma SameTransfers(w: Receiver, w1: Receiver)
    requires TransfersOk(w) && w1.transfers == w.transfers
    ensures TransfersOk(w1)
  {
  }

  lemma FewerTransfers(w: Receiver, w1: Receiver)
    requires TransfersOk(w) && forall k :: k in w1.transfers ==> k in w.transfers && w1.transfers[k] == w.transfers[k]
    ensures TransfersOk(w1)
  {
  }

  lemma CommitCanRun(decode: T.Decoder, w: Receiver, k: Key, owner: ParticipantKey, left: Terminals)
    requires TransfersOk(w) && w.toQt == [] && w.accepting && w.toStrand == [StrandPost(k, owner, T.Commit)]
    requires Remembered(w.terminals, [RecordOf(k, owner, 0)], left)
    ensures Step(decode, w, StrandPostIn(0), w.(toStrand := [], transfers := w.transfers - {k}, terminals := left,
                                                toQt := [Post(k, owner, T.Acknowledge)]))
  {
    hide CompletionId, TransfersOk, Remembered;
    assert [] + [Post(k, owner, T.Acknowledge)] == [Post(k, owner, T.Acknowledge)];
    assert w.toStrand[1..] == [];
  }

  lemma FrameCanResume(decode: T.Decoder, owner: ParticipantKey, w: Receiver, w1: Receiver, k: Key, data: seq<int>)
    requires TransfersOk(w) && w.frames == [Waiting(k, owner, T.Delivering(data))] && HasEntry(w, k, false)
    requires w.toStrand == []
    requires w1 == Emit(w.(frames := [], ledger := w.ledger[UiTransferId(k) := Entry(k, true)],
                           toStrand := [StrandPost(k, owner, T.Commit)]), k, T.Completed(data))
    ensures Step(decode, w, ResumeIn(0, Now(owner)), w1)
  {
    hide UiTransferId, TransfersOk;
    assert T.Without(w.frames, 0) == [];
    assert w.toStrand + [StrandPost(k, owner, T.Commit)] == [StrandPost(k, owner, T.Commit)];
    assert Handle(decode, w, ResumeIn(0, Now(owner))) == Outcome(w1, []);
  }

  lemma StartCanDrain(decode: T.Decoder, owner: ParticipantKey, w: Receiver, k: Key, percent: int)
    requires TransfersOk(w) && OpenEntry(w, k)
    requires |w.toQt| >= 2 && w.toQt[0] == Post(k, owner, T.Start) && w.toQt[1] == Post(k, owner, T.Progress(percent))
    requires Stops(decode, owner, Emit(Opened(w, k), k, T.Progressed(percent)).(toQt := w.toQt[2..]))
    ensures Stops(decode, owner, w)
  {
    hide UiTransferId, Stops, TransfersOk;
    var w1 := Opened(w, k).(toQt := w.toQt[1..]);
    SameTransfers(w, w1);
    assert w.toQt[1..][1..] == w.toQt[2..];
    assert OnTransferPost(w1.(toQt := w.toQt[2..]), k, owner, T.Progress(percent), Now(owner))
        == Emit(Opened(w, k), k, T.Progressed(percent)).(toQt := w.toQt[2..]);
    QtCanMove(decode, owner, w1, k, T.Progress(percent));
    assert OnTransferPost(w.(toQt := w.toQt[1..]), k, owner, T.Start, Now(owner)) == w1;
    QtCanMove(decode, owner, w, k, T.Start);
  }

  lemma ChunkCanBeReported(decode: T.Decoder, text: string, meta: T.Meta, w: Receiver, k: Key, owner: ParticipantKey,
                           t: T.Transfer, percent: int, mid: Receiver)
    requires Assembling(w, k, owner, text, meta) && Holds(text, meta, owner, t.chunks, t)
    requires mid == w.(transfers := w.transfers[k := t],
                       toQt := QueueAfter(decode, text, k, owner, percent, |t.chunks|, meta.totalChunks))
    ensures Stops(decode, owner, mid)
  {
    hide CompletionId, UiTransferId, AreSlices, SliceCount, Stops;
    var ready := Emit(Opened(mid, k), k, T.Progressed(percent)).(toQt := mid.toQt[2..]);
    if |t.chunks| < meta.totalChunks {
      AtRest(decode, owner, ready);
    } else {
      CompleteCanDrain(decode, owner, ready, k, decode(text));
    }
    StartCanDrain(decode, owner, mid, k, percent);
  }

  lemma ChunkCanBeTaken(decode: T.Decoder, text: string, meta: T.Meta, w: Receiver, k: Key, owner: ParticipantKey,
                        p: T.Packet, now: int) returns (w': Receiver)
    requires Assembling(w, k, owner, text, meta) && ChunkOf(decode, text, meta, k, p)
    ensures Takes(decode, k, owner, w, p, w')
    ensures k in w.transfers && p.index >= 0
    ensures p.index !in w.transfers[k].chunks && |With(w.transfers[k], p)| < meta.totalChunks
            ==> k in w'.transfers && w'.transfers[k].lastActive == now
  {
    hide Assembling, ChunkOf, T.TransferOk, TransferTrue, QueueAfter, Drains, Announced, Delivered, Stops;
    AssemblingHas(w, k, owner, text, meta);
    InRange(decode, text, meta, k, p);
    var c := PacketIn(owner, k.revision, p, now, {owner}, true);
    PacketCanCome(decode, text, meta, w, k, owner, p, now);
    var mid := Handle(decode, w, c).state;
    var t, percent := ChunkQueued(decode, text, meta, w, k, owner, c, p, mid);
    ChunkCanBeReported(decode, text, meta, w, k, owner, t, percent, mid);
    var callbacks, rest := SomeDrain(decode, owner, mid);
    ChunkReported(decode, text, meta, w, k, owner, t, percent, mid, callbacks, rest);
    w' := rest;
    assert Brings(c, k, owner, p) && Step(decode, w, c, mid) && Drains(decode, owner, mid, callbacks, w');
  }

  lemma SomeDrain(decode: T.Decoder, owner: ParticipantKey, w: Receiver)
    returns (callbacks: seq<Callback>, w': Receiver)
    requires Stops(decode, owner, w)
    ensures Drains(decode, owner, w, callbacks, w')
  {
    callbacks, w' :| Drains(decode, owner, w, callbacks, w');
  }

  lemma PacketCanCome(decode: T.Decoder, text: string, meta: T.Meta, w: Receiver, k: Key, owner: ParticipantKey,
                      p: T.Packet, now: int)
    requires Assembling(w, k, owner, text, meta) && ChunkOf(decode, text, meta, k, p)
    ensures var c := PacketIn(owner, k.revision, p, now, {owner}, true);
            Ready(w, c) && Step(decode, w, c, Handle(decode, w, c).state)
  {
    hide CompletionId, T.Absorb, UiTransferId, AreSlices, SliceCount, Slice, T.WellFormed;
    AbsorbTrue(decode, text, w.transfers[k], p, now);
    assert KeyFor(w, owner, k.revision, p.wireId) == k;
  }

  lemma {:induction false} MissingCanBeTaken(decode: T.Decoder, text: string, meta: T.Meta, w: Receiver, k: Key,
                                             owner: ParticipantKey, packets: seq<T.Packet>, indices: seq<nat>,
                                             now: int)
    returns (w': Receiver)
    requires Assembling(w, k, owner, text, meta) && ChunksOf(decode, text, meta, k, packets, indices)
    requires Distinct(indices) && forall i :: i in indices ==> i !in w.transfers[k].chunks
    ensures TakesAll(decode, k, owner, w, packets, w')
    ensures packets != [] && |w.transfers[k].chunks| + |packets| < meta.totalChunks
            ==> k in w'.transfers && w'.transfers[k].lastActive == now
    decreases |packets|
  {
    hide Assembling, Takes, ChunkOf, Delivered, Distinct, TransferTrue, T.TransferOk, Announced, Elements, SameTerms;
    AssemblingHas(w, k, owner, text, meta);
    AllFit(decode, text, meta, k, w.transfers[k], packets, indices);
    if packets == [] {
      w' := w;
    } else {
      var mid := ChunkCanBeTaken(decode, text, meta, w, k, owner, packets[0], now);
      ChunkTaken(decode, text, meta, w, k, owner, packets[0], mid);
      OneFewer(w.transfers[k].chunks, packets[0].data, indices);
      if |With(w.transfers[k], packets[0])| < meta.totalChunks {
        w' := MissingCanBeTaken(decode, text, meta, mid, k, owner, packets[1..], indices[1..], now);
      } else {
        assert packets[1..] == [];
        w' := mid;
      }
    }
  }

  lemma OneCanBeTaken(decode: T.Decoder, text: string, meta: T.Meta, w: Receiver, k: Key, owner: ParticipantKey,
                      packets: seq<T.Packet>, index: nat, now: int) returns (w': Receiver)
    requires Assembling(w, k, owner, text, meta) && ChunksOf(decode, text, meta, k, packets, [index])
    ensures TakesAll(decode, k, owner, w, packets, w')
  {
    hide Assembling, Takes, ChunkOf;
    w' := ChunkCanBeTaken(decode, text, meta, w, k, owner, packets[0], now);
    assert packets[1..] == [];
  }
}
