/**
 What one transfer delivers. At most one delivery is under way at a time, and a refused one is not
 lost; and when every packet is a slice of one text, what is delivered is that text, decoded.
 */
module MediaDelivery {
  import opened Options
  import opened MediaKeys
  import opened MediaSlices
  import opened MediaTransfer
  import opened MediaSignals

  // ----- One delivery at a time -----

  function Completes(q: seq<QtMessage>): nat {
    if q == [] then 0 else (if q[0].Complete? then 1 else 0) + Completes(q[1..])
  }

  function Deliveries(frames: seq<Frame>): nat {
    if frames == [] then 0 else (if frames[0].Delivering? then 1 else 0) + Deliveries(frames[1..])
  }

  /** A completion is on its way to Qt, waits there inside a signal, or its outcome is on its way back. */
  function UnderWay(s: State): nat {
    Completes(s.toQt) + Deliveries(s.frames) + |s.toStrand|
  }

  lemma {:induction false} CompletesConcat(q: seq<QtMessage>, r: seq<QtMessage>)
    ensures Completes(q + r) == Completes(q) + Completes(r)
  {
    if q == [] {
      assert q + r == r;
    } else {
      assert (q + r)[1..] == q[1..] + r;
      CompletesConcat(q[1..], r);
    }
  }

  lemma {:induction false} DeliveriesConcat(f: seq<Frame>, g: seq<Frame>)
    ensures Deliveries(f + g) == Deliveries(f) + Deliveries(g)
  {
    if f == [] {
      assert f + g == g;
    } else {
      assert (f + g)[1..] == f[1..] + g;
      DeliveriesConcat(f[1..], g);
    }
  }

  lemma DeliveriesOne(f: Frame)
    ensures Deliveries([f]) == if f.Delivering? then 1 else 0
  {
  }

  lemma DeliveriesWithout(f: seq<Frame>, i: nat)
    requires i < |f|
    ensures Deliveries(f) == Deliveries(Without(f, i)) + (if f[i].Delivering? then 1 else 0)
  {
    hide Deliveries;
    assert f == f[..i] + ([f[i]] + f[i + 1..]);
    DeliveriesOne(f[i]);
    DeliveriesConcat(f[..i], [f[i]] + f[i + 1..]);
    DeliveriesConcat([f[i]], f[i + 1..]);
    DeliveriesConcat(f[..i], f[i + 1..]);
  }

  /**
   At most one delivery is under way; while data is accepted the assembly knows whether one is, and a
   committed ledger entry waits for the strand to hear of it.
   */
  predicate OneDelivery(s: State) {
    && UnderWay(s) <= 1
    && (s.transfer.None? && !s.terminal ==> UnderWay(s) == 0)
    && (s.accepting && s.transfer.Some? ==> (s.transfer.value.queued <==> UnderWay(s) == 1))
    && (s.accepting && s.transfer.Some? && s.ledger == Some(true) ==> s.toStrand == [Commit])
  }

  predicate Tracked(s: State) {
    TransferSound(s) && OneDelivery(s)
  }

  lemma AbsorbCounts(decode: Decoder, t: Transfer, p: Packet, now: int)
    requires TransferOk(t) && p.meta == t.meta && WellFormed(p)
    ensures var (t', messages) := Absorb(decode, t, p, now);
            && (t'.Some? ==> TransferOk(t'.value)
                             && Completes(messages) == (if t'.value.queued && !t.queued then 1 else 0)
                             && (t.queued ==> t'.value.queued))
            && (t'.None? ==> !t.queued && Completes(messages) == 0)
  {
    hide Joined, Percent;
    var (t', messages) := Absorb(decode, t, p, now);
    if p.isChunk {
      var start := [Start, Progress(Percent(|WithPiece(t, p, now).chunks|, t.meta.totalChunks))];
      assert start[1..][1..] == [];
      assert messages == start + messages[2..];
      CompletesConcat(start, messages[2..]);
    }
  }

  lemma ReceiveTracks(decode: Decoder, s: State, e: Event)
    requires Tracked(s) && Enabled(s, e) && e.Receive? && (s.transfer.None? && !s.terminal ==> s.ledger.None?)
    ensures Tracked(Apply(decode, s, e))
  {
    hide Completes, Deliveries, Absorb, WellFormed;
    if !s.terminal && s.accepting && (s.transfer.Some? || e.room) {
      var t := if s.transfer.Some? then s.transfer.value else NewTransfer(e.packet, e.owner, e.now);
      StartsOk(e.packet, e.owner, e.now);
      if t.owner == e.owner && e.ticket && t.meta == e.packet.meta {
        AbsorbCounts(decode, t, e.packet, e.now);
        var (t', messages) := Absorb(decode, t, e.packet, e.now);
        CompletesConcat(s.toQt, messages);
      }
    }
  }

  lemma StrandTracks(decode: Decoder, s: State, e: Event)
    requires Tracked(s) && Enabled(s, e)
    requires !e.Receive? && !e.RunOnQt? && !e.ResumeFrame? && !e.DropTerminal?
    ensures Tracked(Apply(decode, s, e))
  {
    hide Deliveries;
    CompletesConcat(s.toQt, [Fail]);
    CompletesConcat(s.toQt, [Cancel]);
    CompletesConcat(s.toQt, [Acknowledge]);
    if e.AskForMissing? { CompletesConcat(s.toQt, [Request(e.missing)]); }
  }

  /** Taking a message from the queue and handling it neither loses nor adds a delivery. */
  lemma HandledCounts(s: State, m: QtMessage, current: Currency)
    ensures UnderWay(HandleOnQt(s, m, current)) == UnderWay(s) + (if m.Complete? then 1 else 0)
    ensures HandleOnQt(s, m, current).ledger == Some(true) ==> s.ledger == Some(true)
    ensures s.ledger == Some(true) && !m.Complete? ==> HandleOnQt(s, m, current).toStrand == s.toStrand
  {
    hide Completes;
    DeliveriesConcat(s.frames, [Failing]);
    if m.Complete? { DeliveriesConcat(s.frames, [Delivering(m.data)]); }
  }

  lemma HandledFrame(s: State, m: QtMessage, current: Currency)
    ensures var s' := HandleOnQt(s, m, current);
            s'.transfer == s.transfer && s'.terminal == s.terminal && s'.accepting == s.accepting
  {
  }

  lemma QtTracks(decode: Decoder, s: State, e: Event)
    requires Tracked(s) && Enabled(s, e) && e.RunOnQt?
    ensures Tracked(Apply(decode, s, e))
  {
    hide HandleOnQt, Completes, Deliveries;
    var m, s1 := s.toQt[0], s.(toQt := s.toQt[1..]);
    assert Completes(s.toQt) == (if m.Complete? then 1 else 0) + Completes(s1.toQt) by { CompletesHead(s.toQt); }
    HandledCounts(s1, m, e.current);
    HandledFrame(s1, m, e.current);
  }

  lemma CompletesHead(q: seq<QtMessage>)
    requires q != []
    ensures Completes(q) == (if q[0].Complete? then 1 else 0) + Completes(q[1..])
  {
  }

  lemma FrameTracks(decode: Decoder, s: State, e: Event)
    requires Tracked(s) && Enabled(s, e) && e.ResumeFrame?
    ensures Tracked(Apply(decode, s, e))
  {
    hide Completes, Without;
    DeliveriesWithout(s.frames, e.frame);
  }

  lemma StepTracks(decode: Decoder, s: State, e: Event)
    requires Sound(s) && Tracked(s) && Enabled(s, e) && !e.DropTerminal?
    ensures Tracked(Apply(decode, s, e))
  {
    hide Tracked, Apply, Shaped, LogSound, FailingSound;
    match e
    case Receive(_, _, _, _, _) => ReceiveTracks(decode, s, e);
    case RunOnQt(_) => QtTracks(decode, s, e);
    case ResumeFrame(_, _) => FrameTracks(decode, s, e);
    case _ => StrandTracks(decode, s, e);
  }

  lemma {:induction false} RunTracks(decode: Decoder, s: State, events: seq<Event>)
    requires Sound(s) && Tracked(s) && Runs(decode, s, events) && KeepsTerminal(events)
    ensures Tracked(After(decode, s, events))
    decreases |events|
  {
    hide Sound, Tracked, Apply;
    if events != [] {
      StepKeeps(decode, s, events[0]);
      StepTracks(decode, s, events[0]);
      RunTracks(decode, Apply(decode, s, events[0]), events[1..]);
    }
  }

  lemma StartReady(decode: Decoder, events: seq<Event>)
    requires Runs(decode, INITIAL, events) && KeepsTerminal(events)
    ensures Sound(After(decode, INITIAL, events)) && Tracked(After(decode, INITIAL, events))
  {
    hide Sound, Apply, Runs, After;
    InitiallySound();
    RunKeeps(decode, INITIAL, events);
    RunTracks(decode, INITIAL, events);
  }

  /** Assembled data is never queued twice, and a refused delivery always clears the way for the next. */
  lemma OneDeliveryAtATime(decode: Decoder, events: seq<Event>)
    requires Runs(decode, INITIAL, events) && KeepsTerminal(events)
    ensures var s := After(decode, INITIAL, events);
            && UnderWay(s) <= 1
            && (s.accepting && s.transfer.Some? ==> (s.transfer.value.queued <==> UnderWay(s) == 1))
  {
    hide Sound, Apply, Runs, After, UnderWay;
    StartReady(decode, events);
  }

  // ----- What is delivered -----

  /** The packets of one honest sender: one text, its meta, and the slices of that text. */
  predicate HonestPacket(decode: Decoder, text: string, meta: Meta, p: Packet) {
    && p.meta == meta && meta.totalChunks == SliceCount(|text|) && meta.totalSize == |decode(text)|
    && (p.isChunk ==> p.index >= 0 && p.data == Slice(text, p.index))
  }

  ghost predicate HonestEvents(decode: Decoder, text: string, meta: Meta, events: seq<Event>) {
    forall i :: 0 <= i < |events| && events[i].Receive? ==> HonestPacket(decode, text, meta, events[i].packet)
  }

  ghost predicate TransferTrue(text: string, meta: Meta, t: Transfer) {
    t.meta == meta && AreSlices(t.chunks, text)
  }

  ghost predicate True(decode: Decoder, text: string, meta: Meta, s: State) {
    && (s.transfer.Some? ==> TransferTrue(text, meta, s.transfer.value))
    && (forall i :: 0 <= i < |s.toQt| && s.toQt[i].Complete? ==> s.toQt[i].data == decode(text))
    && (forall i :: 0 <= i < |s.frames| && s.frames[i].Delivering? ==> s.frames[i].data == decode(text))
    && (forall i :: 0 <= i < |s.log| && s.log[i].Completed? ==> s.log[i].data == decode(text))
  }

  /** Honest packets assemble the honest text, and its size is never wrong. */
  lemma AbsorbTrue(decode: Decoder, text: string, t: Transfer, p: Packet, now: int)
    requires TransferOk(t) && p.meta == t.meta && WellFormed(p)
    requires TransferTrue(text, t.meta, t) && HonestPacket(decode, text, t.meta, p)
    ensures var (t', messages) := Absorb(decode, t, p, now);
            && t'.Some? && TransferTrue(text, t.meta, t'.value)
            && (forall i :: 0 <= i < |messages| && messages[i].Complete? ==> messages[i].data == decode(text))
  {
    hide Slice, SliceCount, Join;
    if p.isChunk {
      var t1 := WithPiece(t, p, now);
      if |t1.chunks| == t1.meta.totalChunks {
        FullSetJoins(t1.chunks, text);
      }
    }
  }

  lemma ReceiveStaysTrue(decode: Decoder, text: string, meta: Meta, s: State, e: Event)
    requires True(decode, text, meta, s) && Enabled(s, e) && e.Receive?
    requires HonestPacket(decode, text, meta, e.packet)
    ensures True(decode, text, meta, Apply(decode, s, e))
    ensures s.transfer.Some? ==> Apply(decode, s, e).transfer.Some?
  {
    hide Absorb, WellFormed, HonestPacket, Slice, SliceCount;
    if !s.terminal && s.accepting && (s.transfer.Some? || e.room) {
      var t := if s.transfer.Some? then s.transfer.value else NewTransfer(e.packet, e.owner, e.now);
      StartsOk(e.packet, e.owner, e.now);
      assert e.packet.meta == meta by { HonestMeta(decode, text, meta, e.packet); }
      if t.owner == e.owner && e.ticket && t.meta == e.packet.meta {
        AbsorbTrue(decode, text, t, e.packet, e.now);
      }
    }
  }

  lemma HonestMeta(decode: Decoder, text: string, meta: Meta, p: Packet)
    requires HonestPacket(decode, text, meta, p)
    ensures p.meta == meta
  {
  }

  lemma QtStaysTrue(decode: Decoder, text: string, meta: Meta, s: State, m: QtMessage, current: Currency)
    requires True(decode, text, meta, s) && (m.Complete? ==> m.data == decode(text))
    ensures True(decode, text, meta, HandleOnQt(s, m, current))
  {
    hide TransferTrue;
  }

  lemma FrameStaysTrue(decode: Decoder, text: string, meta: Meta, s: State, i: nat, current: Currency)
    requires True(decode, text, meta, s) && i < |s.frames|
    ensures True(decode, text, meta, HandleFrame(s.(frames := Without(s.frames, i)), s.frames[i], current))
  {
    hide TransferTrue;
    var rest := Without(s.frames, i);
    assert forall j :: 0 <= j < |rest| ==> rest[j] == s.frames[if j < i then j else j + 1];
  }

  lemma StepStaysTrue(decode: Decoder, text: string, meta: Meta, s: State, e: Event)
    requires True(decode, text, meta, s) && Enabled(s, e)
    requires e.Receive? ==> HonestPacket(decode, text, meta, e.packet)
    ensures True(decode, text, meta, Apply(decode, s, e))
  {
    hide HonestPacket, AreSlices, HandleOnQt, HandleFrame, ReceivePacket, WellFormed;
    match e
    case Receive(_, _, _, _, _) => ReceiveStaysTrue(decode, text, meta, s, e);
    case RunOnQt(current) => QtStaysTrue(decode, text, meta, s.(toQt := s.toQt[1..]), s.toQt[0], current);
    case ResumeFrame(i, current) => FrameStaysTrue(decode, text, meta, s, i, current);
    case _ =>
  }

  lemma {:induction false} RunStaysTrue(decode: Decoder, text: string, meta: Meta, s: State, events: seq<Event>)
    requires True(decode, text, meta, s) && Runs(decode, s, events) && HonestEvents(decode, text, meta, events)
    ensures True(decode, text, meta, After(decode, s, events))
    decreases |events|
  {
    hide True, Apply, HonestPacket;
    if events != [] {
      StepStaysTrue(decode, text, meta, s, events[0]);
      RunStaysTrue(decode, text, meta, Apply(decode, s, events[0]), events[1..]);
    }
  }

  lemma InitiallyTrue(decode: Decoder, text: string, meta: Meta)
    ensures True(decode, text, meta, INITIAL)
  {
  }

  lemma TrueLog(decode: Decoder, text: string, meta: Meta, s: State)
    requires True(decode, text, meta, s)
    ensures forall i :: 0 <= i < |s.log| && s.log[i].Completed? ==> s.log[i].data == decode(text)
    ensures s.transfer.Some? ==> s.transfer.value.meta == meta && AreSlices(s.transfer.value.chunks, text)
  {
  }

  /**
   Under any loss, duplication and reordering of one sender's packets, what is assembled is part of the
   text sent, and what is delivered is that text, decoded.
   */
  lemma DeliversTheText(decode: Decoder, text: string, meta: Meta, events: seq<Event>)
    requires Runs(decode, INITIAL, events) && HonestEvents(decode, text, meta, events)
    ensures var s := After(decode, INITIAL, events);
            && (forall i :: 0 <= i < |s.log| && s.log[i].Completed? ==> s.log[i].data == decode(text))
            && (s.transfer.Some? ==> s.transfer.value.meta == meta && AreSlices(s.transfer.value.chunks, text))
  {
    hide True, Apply, Runs, After;
    InitiallyTrue(decode, text, meta);
    RunStaysTrue(decode, text, meta, INITIAL, events);
    TrueLog(decode, text, meta, After(decode, INITIAL, events));
  }

  // ----- Recovery delivers -----

  /** Nothing is on its way between the threads. */
  predicate Drained(s: State) {
    s.toQt == [] && s.toStrand == [] && s.frames == []
  }

  /** The steps that deliver a full assembly once one of its chunks arrives again. */
  function Delivery(p: Packet, owner: ParticipantKey, now: int): seq<Event> {
    var current := Currency(true, true);
    [Receive(p, owner, now, true, true), RunOnQt(current), RunOnQt(current), RunOnQt(current),
     ResumeFrame(0, current), RunOnStrand, RunOnQt(current)]
  }

  /** A packet that completes the assembly, or repeats a chunk of a complete one. */
  predicate Completing(t: Transfer, p: Packet, now: int) {
    TransferOk(t) && p.isChunk && 0 <= p.index < t.meta.totalChunks
      && |WithPiece(t, p, now).chunks| == t.meta.totalChunks
  }

  /** What the strand posts for it. */
  lemma CompletingIsAbsorbed(decode: Decoder, text: string, t: Transfer, p: Packet, now: int)
    requires WellFormed(p) && Completing(t, p, now) && !t.queued
    requires TransferTrue(text, t.meta, t) && HonestPacket(decode, text, t.meta, p)
    ensures var percent := Percent(t.meta.totalChunks, t.meta.totalChunks);
            Absorb(decode, t, p, now)
            == (Some(WithPiece(t, p, now).(queued := true)), [Start, Progress(percent), Complete(decode(text))])
  {
    hide Slice, SliceCount, Join, Percent;
    var t1 := WithPiece(t, p, now);
    FullSetJoins(t1.chunks, text);
    assert Joined(t1) == text;
    var percent := Percent(t.meta.totalChunks, t.meta.totalChunks);
    assert [Start, Progress(percent)] + [Complete(decode(text))] == [Start, Progress(percent), Complete(decode(text))];
  }

  /** From the signal of full progress on: the commit, its burial on the strand, and the acknowledgement. */
  lemma CommitDelivers(decode: Decoder, s: State, data: seq<int>)
    requires s.toQt == [] && s.toStrand == [] && s.frames == [Delivering(data)] && s.accepting
    requires s.ledger == Some(false)
    ensures var current := Currency(true, true);
            var events := [ResumeFrame(0, current), RunOnStrand, RunOnQt(current)];
            Runs(decode, s, events) && After(decode, s, events) == s.(
              transfer := None, terminal := true, frames := [], ledger := None, log := s.log + [Completed(data)])
  {
    var current := Currency(true, true);
    var s1 := Apply(decode, s, ResumeFrame(0, current));
    assert s1 == s.(frames := [], toStrand := [Commit], ledger := Some(true), log := s.log + [Completed(data)]);
    var s2 := Apply(decode, s1, RunOnStrand);
    assert s2 == s1.(toStrand := [], transfer := None, terminal := true, toQt := [Acknowledge]);
    var s3 := Apply(decode, s2, RunOnQt(current));
    assert s3 == s2.(toQt := [], ledger := None);
    RunCons(decode, s2, RunOnQt(current), []);
    RunCons(decode, s1, RunOnStrand, [RunOnQt(current)]);
    RunCons(decode, s, ResumeFrame(0, current), [RunOnStrand, RunOnQt(current)]);
  }

  /** The log once the placeholder is there. */
  function StartedLog(s: State): seq<Signal> {
    if s.ledger.None? then [Started] else s.log
  }

  lemma StartDelivers(decode: Decoder, s: State, rest: seq<QtMessage>)
    requires s.toQt == [Start] + rest && s.ledger != Some(true) && (s.ledger.None? ==> s.log == [])
    ensures Apply(decode, s, RunOnQt(Currency(true, true)))
         == s.(toQt := rest, ledger := Some(false), log := StartedLog(s))
  {
    assert s.toQt[1..] == rest;
    if s.ledger.None? {
      assert s.log + [Started] == [Started];
    } else {
      var committed := s.ledger.value;
      assert s.ledger == Some(committed);
      assert s.(toQt := rest, ledger := Some(false), log := s.log) == s.(toQt := rest);
    }
  }

  /** The Qt thread's share, from the queue that packet leaves. */
  lemma QtDelivers(decode: Decoder, s: State, percent: int, data: seq<int>)
    requires s.toQt == [Start, Progress(percent), Complete(data)] && s.toStrand == [] && s.frames == []
    requires s.accepting && s.ledger != Some(true) && (s.ledger.None? ==> s.log == [])
    ensures var current := Currency(true, true);
            var events := [RunOnQt(current), RunOnQt(current), RunOnQt(current), ResumeFrame(0, current), RunOnStrand,
                           RunOnQt(current)];
            Runs(decode, s, events) && After(decode, s, events) == s.(
              transfer := None, terminal := true, toQt := [], ledger := None,
              log := StartedLog(s) + [Progressed(percent)] + [Progressed(100)] + [Completed(data)])
  {
    hide StartedLog, Runs, After;
    var current := Currency(true, true);
    var s1 := Apply(decode, s, RunOnQt(current));
    StartDelivers(decode, s, [Progress(percent), Complete(data)]);
    var s2 := Apply(decode, s1, RunOnQt(current));
    assert s2 == s1.(toQt := [Complete(data)], log := StartedLog(s) + [Progressed(percent)]);
    var s3 := Apply(decode, s2, RunOnQt(current));
    assert s3 == s2.(toQt := [], frames := [Delivering(data)], log := s2.log + [Progressed(100)]);
    CommitDelivers(decode, s3, data);
    var last := [ResumeFrame(0, current), RunOnStrand, RunOnQt(current)];
    RunCons(decode, s2, RunOnQt(current), last);
    RunCons(decode, s1, RunOnQt(current), [RunOnQt(current)] + last);
    RunCons(decode, s, RunOnQt(current), [RunOnQt(current)] + ([RunOnQt(current)] + last));
    assert [RunOnQt(current)] + ([RunOnQt(current)] + ([RunOnQt(current)] + last))
        == [RunOnQt(current), RunOnQt(current), RunOnQt(current), ResumeFrame(0, current), RunOnStrand,
            RunOnQt(current)];
  }

  /**
   No delivery is ever lost for good. In whatever way a run got there, refused deliveries included: once
   both threads are idle, the last missing chunk, or any chunk again if none is missing, delivers the
   text and closes the transfer, if its sender and session are current while it is handled.
   */
  lemma RecoveryDelivers(decode: Decoder, text: string, meta: Meta, events: seq<Event>, p: Packet,
                         owner: ParticipantKey, now: int)
    requires Runs(decode, INITIAL, events) && KeepsTerminal(events) && HonestEvents(decode, text, meta, events)
    requires WellFormed(p) && HonestPacket(decode, text, meta, p)
    requires var s := After(decode, INITIAL, events);
             && Drained(s) && s.accepting && s.transfer.Some? && s.transfer.value.owner == owner
             && Completing(s.transfer.value, p, now)
    ensures var s := After(decode, INITIAL, events);
            && Runs(decode, s, Delivery(p, owner, now))
            && var s' := After(decode, s, Delivery(p, owner, now));
               && s'.log != [] && s'.log[|s'.log| - 1] == Completed(decode(text))
               && Drained(s') && s'.terminal && s'.transfer.None? && s'.ledger.None?
  {
    hide Runs, After, True, HonestPacket, WellFormed, Completing, Shaped, LogSound, FailingSound, Absorb, UnderWay;
    var s := After(decode, INITIAL, events);
    StartReady(decode, events);
    InitiallyTrue(decode, text, meta);
    RunStaysTrue(decode, text, meta, INITIAL, events);
    TrueLog(decode, text, meta, s);
    HonestMeta(decode, text, meta, p);
    assert UnderWay(s) == 0 by { DrainedIsIdle(s); }
    var t := s.transfer.value;
    CompletingIsAbsorbed(decode, text, t, p, now);
    var e := Receive(p, owner, now, true, true);
    var s1 := Apply(decode, s, e);
    var percent := Percent(t.meta.totalChunks, t.meta.totalChunks);
    assert s1.toQt == [Start, Progress(percent), Complete(decode(text))];
    QtDelivers(decode, s1, percent, decode(text));
    var current := Currency(true, true);
    var rest := [RunOnQt(current), RunOnQt(current), RunOnQt(current), ResumeFrame(0, current), RunOnStrand,
                 RunOnQt(current)];
    RunCons(decode, s, e, rest);
    assert [e] + rest == Delivery(p, owner, now);
  }

  lemma DrainedIsIdle(s: State)
    requires Drained(s)
    ensures UnderWay(s) == 0
  {
  }
}
