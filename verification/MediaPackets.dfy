/**
 Packets that come to nothing, and deliveries of the wrong size (src/core/meeting_coordinator.cpp): what the receiver
 refuses, and that nothing is ever delivered that has not the size announced for it.
 */
module MediaPackets {
  import opened Options
  import opened MediaKeys
  import opened MediaSlices
  import T = MediaTransfer
  import opened MediaSignals
  import opened MediaReceiver
  import P = MediaProjection
  import RR = MediaReceiverRuns
  import opened MediaUptake
  import opened MediaGivingUp

  // ----- What is refused -----

  /**
   A start or a chunk that cannot be one: no id, or one of more than 256 units; not 1 to 2048 chunks, not 1 byte to
   15 MiB, neither a file nor an image; or a chunk of no such index, empty, or of more than 10240 units.
   */
  predicate Malformed(p: T.Packet) {
    || p.wireId == "" || Utf16Size(p.wireId) > 256
    || p.meta.totalChunks <= 0 || p.meta.totalChunks > 2048
    || p.meta.totalSize <= 0 || p.meta.totalSize > 15 * 1024 * 1024
    || (p.meta.mediaType != "file" && p.meta.mediaType != "image")
    || (p.isChunk && (p.index < 0 || p.index >= p.meta.totalChunks || p.data == "" || Utf16Size(p.data) > 10 * 1024))
  }

  /** A packet that is not even looked up: of a sender without a ticket, malformed, or of a transfer that is over. */
  predicate Ignored(w: Receiver, c: Callback)
    requires c.PacketIn?
  {
    var id := CompletionId(c.sender, c.revision, c.packet.wireId);
    || !w.accepting || c.sender !in c.tickets || Malformed(c.packet)
    || (id in w.terminals && w.terminals[id].expiresAt > c.now)
  }

  /**
   Such a packet changes nothing. Any other drops an expired record of its transfer; it then changes nothing more if it
   would open a 65th transfer, and nothing but that it may open its own if the transfer is not its sender's, its ticket
   is no longer active, or it announces something else.
   */
  lemma PacketRefused(decode: T.Decoder, w: Receiver, c: Callback, w': Receiver)
    requires c.PacketIn? && Step(decode, w, c, w')
    ensures var k := KeyFor(w, c.sender, c.revision, c.packet.wireId);
            var rest := w.(terminals := w.terminals - {CompletionId(c.sender, c.revision, c.packet.wireId)});
            var first := T.Transfer(c.packet.meta, c.sender, c.packet.resumable, map[], false, c.now, 0);
            if Ignored(w, c) then w' == w
            else if k !in w.transfers && |w.transfers| >= 64 then w' == rest
            else
              var t := if k in w.transfers then w.transfers[k] else first;
              (t.owner != c.sender || !c.active || t.meta != c.packet.meta
               ==> w' == rest.(transfers := w.transfers[k := t]))
  {
    hide CompletionId, T.Absorb, T.TransferOk, Utf16Size;
  }

  // ----- A delivery of the wrong size -----

  /** The chunks once this packet has come. */
  function Chunks(t: T.Transfer, p: T.Packet): map<nat, string>
    requires p.index >= 0
  {
    if p.index in t.chunks then t.chunks else t.chunks[p.index := p.data]
  }

  /** The packet fills the transfer, and what its chunks spell has not the size announced. */
  predicate FillsWrongly(decode: T.Decoder, t: T.Transfer, p: T.Packet) {
    && T.TransferOk(t) && !t.queued && T.WellFormed(p) && p.isChunk && p.meta == t.meta
    && |Chunks(t, p)| == t.meta.totalChunks
    && |decode(Spelled(t, p))| != t.meta.totalSize
  }

  function Spelled(t: T.Transfer, p: T.Packet): string
    requires T.TransferOk(t) && 0 <= p.index < t.meta.totalChunks && |Chunks(t, p)| == t.meta.totalChunks
  {
    Pigeonhole(Chunks(t, p), t.meta.totalChunks);
    Join(Chunks(t, p), t.meta.totalChunks)
  }

  lemma WrongIsAbsorbed(decode: T.Decoder, t: T.Transfer, p: T.Packet, now: int)
    requires FillsWrongly(decode, t, p)
    ensures T.Absorb(decode, t, p, now)
         == (None, [T.Start, T.Progress(T.Percent(|Chunks(t, p)|, t.meta.totalChunks))] + [T.Fail])
  {
    FillsMatching(decode, t, p);
    hide T.WellFormed, Join, T.Percent;
    var t1 := T.WithPiece(t, p, now);
    assert t1.chunks == Chunks(t, p);
    assert T.Joined(t1) == Spelled(t, p);
  }

  /** What the strand makes of it: the transfer goes and is recorded, and the messages are on their way. */
  lemma WrongArrives(decode: T.Decoder, w: Receiver, k: Key, owner: ParticipantKey, c: Callback, p: T.Packet,
                     mid: Receiver)
    requires Settled(w) && w.accepting && TransfersOk(w) && k in w.transfers && w.transfers[k].owner == owner
    requires FillsWrongly(decode, w.transfers[k], p) && k == KeyFor(w, owner, k.revision, p.wireId)
    requires Brings(c, k, owner, p) && !Ignored(w, c) && Step(decode, w, c, mid)
    ensures var percent := T.Percent(|Chunks(w.transfers[k], p)|, w.transfers[k].meta.totalChunks);
            && mid == w.(terminals := mid.terminals, transfers := w.transfers - {k},
                         toQt := [Post(k, owner, T.Start), Post(k, owner, T.Progress(percent)), Post(k, owner, T.Fail)])
            && RecordedUntil(mid.terminals, CompletionId(owner, k.revision, k.wireId), c.now + CACHE_LIFETIME)
  {
    hide CompletionId, T.Absorb, UiTransferId, Posts, FillsWrongly, T.Percent, T.TransferOk, Remembered, RecordedUntil,
         Chunks, Utf16Size;
    var t := w.transfers[k];
    FillsMatching(decode, t, p);
    WrongIsAbsorbed(decode, t, p, c.now);
    var percent := T.Percent(|Chunks(t, p)|, t.meta.totalChunks);
    ThreePosts(k, owner, T.Start, T.Progress(percent), T.Fail);
    assert w.toQt + Posts(k, owner, [T.Start, T.Progress(percent)] + [T.Fail])
        == Posts(k, owner, [T.Start, T.Progress(percent)] + [T.Fail]);
    OneRecorded(w.terminals - {CompletionId(owner, k.revision, k.wireId)}, RecordOf(k, owner, c.now), mid.terminals);
  }

  lemma FillsMatching(decode: T.Decoder, t: T.Transfer, p: T.Packet)
    requires FillsWrongly(decode, t, p)
    ensures p.meta == t.meta && p.isChunk && T.WellFormed(p) && 0 <= p.index < t.meta.totalChunks
  {
  }

  /**
   A full set of chunks that does not spell as many bytes as were announced is never delivered: once nothing waits, the
   transfer is out of the table and recorded, its placeholder is gone, and it has been reported as failed.
   */
  lemma WrongSizeFails(decode: T.Decoder, w: Receiver, k: Key, owner: ParticipantKey, c: Callback, p: T.Packet,
                       mid: Receiver, callbacks: seq<Callback>, w': Receiver)
    requires Settled(w) && w.accepting && TransfersOk(w) && OpenEntry(w, k)
    requires k in w.transfers && w.transfers[k].owner == owner && k == KeyFor(w, owner, k.revision, p.wireId)
    requires FillsWrongly(decode, w.transfers[k], p) && Brings(c, k, owner, p) && !Ignored(w, c)
    requires Step(decode, w, c, mid) && Drains(decode, owner, mid, callbacks, w')
    ensures k !in w'.transfers && w'.transfers == w.transfers - {k} && !Announced(w', k) && p.index >= 0
    ensures w'.log == w.log + ReportsOf(k, (if Announced(w, k) then [] else [T.Started])
              + [T.Progressed(T.Percent(|Chunks(w.transfers[k], p)|, w.transfers[k].meta.totalChunks)), T.Failed])
    ensures RecordedUntil(w'.terminals, CompletionId(owner, k.revision, k.wireId), c.now + CACHE_LIFETIME)
  {
    hide FillsWrongly, Ignored, Step, Drains, UiTransferId, CompletionId, RecordedUntil, T.Percent, TransfersOk, Brings,
         ReportsOf;
    FillsMatching(decode, w.transfers[k], p);
    WrongArrives(decode, w, k, owner, c, p, mid);
    FailureReported(decode, mid, k, owner, T.Percent(|Chunks(w.transfers[k], p)|, w.transfers[k].meta.totalChunks),
                    callbacks, w');
  }

  /** The Qt thread's share. */
  lemma FailureReported(decode: T.Decoder, w: Receiver, k: Key, owner: ParticipantKey, percent: int,
                        callbacks: seq<Callback>, w': Receiver)
    requires w.toStrand == [] && w.frames == [] && OpenEntry(w, k)
    requires w.toQt == [Post(k, owner, T.Start), Post(k, owner, T.Progress(percent)), Post(k, owner, T.Fail)]
    requires Drains(decode, owner, w, callbacks, w')
    ensures w'.transfers == w.transfers && w'.terminals == w.terminals && !Announced(w', k)
    ensures w'.log == w.log + ReportsOf(k, (if Announced(w, k) then [] else [T.Started])
                                           + [T.Progressed(percent), T.Failed])
  {
    hide Drains, UiTransferId, ReportsOf;
    StartDrains(decode, owner, w, callbacks, w', k, percent);
    var ready := Emit(Opened(w, k), k, T.Progressed(percent)).(toQt := w.toQt[2..]);
    QtMoves(decode, owner, ready, callbacks[2..], w', k, T.Fail);
    var last := OnTransferPost(ready.(toQt := ready.toQt[1..]), k, owner, T.Fail, Now(owner));
    Still(decode, owner, last, callbacks[2..][1..], w');
    ReportsFailure(w.log, k, Announced(w, k), percent);
  }

  lemma ReportsFailure(log: seq<Report>, k: Key, announced: bool, percent: int)
    ensures log + ReportsOf(k, (if announced then [] else [T.Started]) + [T.Progressed(percent), T.Failed])
         == (if announced then log else log + [Report(UiTransferId(k), T.Started)])
            + [Report(UiTransferId(k), T.Progressed(percent))] + [Report(UiTransferId(k), T.Failed)]
  {
    hide UiTransferId;
  }

  // ----- Every delivery has an allowed size -----

  predicate Allowed(data: seq<int>) {
    0 < |data| <= MAXIMUM_FILE
  }

  /** What a transfer announces, and what is delivered of it, is a file of 1 byte to 15 MiB. */
  predicate Sized(s: T.State) {
    && (s.transfer.Some? ==> T.TransferOk(s.transfer.value) && 0 < s.transfer.value.meta.totalSize <= MAXIMUM_FILE)
    && (forall i :: 0 <= i < |s.toQt| && s.toQt[i].Complete? ==> Allowed(s.toQt[i].data))
    && (forall i :: 0 <= i < |s.frames| && s.frames[i].Delivering? ==> Allowed(s.frames[i].data))
    && (forall i :: 0 <= i < |s.log| && s.log[i].Completed? ==> Allowed(s.log[i].data))
  }

  lemma AbsorbSized(decode: T.Decoder, t: T.Transfer, p: T.Packet, now: int)
    requires T.TransferOk(t) && p.meta == t.meta && T.WellFormed(p)
    ensures var (t', messages) := T.Absorb(decode, t, p, now);
            && (t'.Some? ==> T.TransferOk(t'.value) && t'.value.meta == t.meta)
            && forall i :: 0 <= i < |messages| && messages[i].Complete? ==> |messages[i].data| == t.meta.totalSize
  {
    hide T.Joined, T.Percent;
  }

  lemma StepSized(decode: T.Decoder, s: T.State, e: T.Event)
    requires Sized(s) && T.Enabled(s, e)
    ensures Sized(T.Apply(decode, s, e))
  {
    hide T.Absorb, Allowed, T.WellFormed;
    if e.Receive? {
      PacketSized(decode, s, e);
    } else if e.ResumeFrame? {
      FrameSized(decode, s, e);
    } else if e.RunOnQt? {
      hide T.TransferOk;
      PostSized(decode, s, e);
    }
  }

  lemma FrameSized(decode: T.Decoder, s: T.State, e: T.Event)
    requires Sized(s) && T.Enabled(s, e) && e.ResumeFrame?
    ensures Sized(T.Apply(decode, s, e))
  {
    hide T.TransferOk, Allowed;
    assert forall j :: 0 <= j < |s.frames| - 1 ==>
        T.Without(s.frames, e.frame)[j] == s.frames[if j < e.frame then j else j + 1];
    hide T.Without;
  }

  lemma PostSized(decode: T.Decoder, s: T.State, e: T.Event)
    requires Sized(s) && T.Enabled(s, e) && e.RunOnQt?
    ensures Sized(T.Apply(decode, s, e))
  {
    hide T.TransferOk, Allowed;
  }

  lemma PacketSized(decode: T.Decoder, s: T.State, e: T.Event)
    requires Sized(s) && T.Enabled(s, e) && e.Receive?
    ensures Sized(T.Apply(decode, s, e))
  {
    hide T.Absorb;
    var t := if s.transfer.Some? then s.transfer.value else T.NewTransfer(e.packet, e.owner, e.now);
    if t.meta == e.packet.meta {
      AbsorbSized(decode, t, e.packet, e.now);
    }
  }

  lemma {:induction false} RunSized(decode: T.Decoder, s: T.State, events: seq<T.Event>)
    requires Sized(s) && Runs(decode, s, events)
    ensures Sized(After(decode, s, events))
    decreases |events|
  {
    hide Sized, T.Apply;
    if events != [] {
      StepSized(decode, s, events[0]);
      RunSized(decode, T.Apply(decode, s, events[0]), events[1..]);
    }
  }

  /** In every run, whatever comes in: all that is ever delivered are files of 1 byte to 15 MiB. */
  lemma EveryDeliveryIsSized(decode: T.Decoder, names: P.Names, session: nat, states: seq<Receiver>,
                             callbacks: seq<Callback>, k: Key, i: nat)
    requires RR.Run(decode, session, states, callbacks) && RR.AllKnown(names, callbacks) && k.session == session
    requires var signals := RR.SignalsOf(states[|callbacks|], k); i < |signals| && signals[i].Completed?
    ensures 0 < |RR.SignalsOf(states[|callbacks|], k)[i].data| <= MAXIMUM_FILE
  {
    hide RR.SignalsOf, RR.LocalRun, Runs, After, P.Local, P.Consistent;
    var n := |callbacks|;
    RR.RunProjects(decode, names, session, states, callbacks, k, n);
    RunSized(decode, T.INITIAL, RR.LocalRun(decode, names, states, callbacks, k, n));
    RR.LogIsLocal(names, states[n], k);
  }
}
