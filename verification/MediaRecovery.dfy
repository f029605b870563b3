/**
 Recovery of a media transfer, both ends together: the receiver asks for what is missing, the sender sends it
 again, and round by round the file comes to its delivery (src/core/meeting_coordinator.cpp).
 */
module MediaRecovery {
  import opened Options
  import opened MediaKeys
  import opened MediaSlices
  import T = MediaTransfer
  import opened MediaSignals
  import opened MediaDelivery
  import opened MediaReceiver
  import P = MediaProjection
  import RR = MediaReceiverRuns
  import S = MediaSender
  import SR = MediaSenderRuns
  import opened MediaEndToEnd
  import opened MediaUptake
  import opened MediaAsking
  import opened MediaGivingUp
  import opened MediaAnswers

  // ----- One round -----

  /** The sender's side of a round: it gets this request; the file is at hand all the time. */
  ghost predicate Exchange(task: S.Task, requester: ParticipantKey, ask: Asked, s: S.Sender, accepted: bool, now: int,
                           s1: S.Sender, worlds: seq<S.World>, s': S.Sender)
  {
    && S.Step(s, S.ResumeRequest(S.Request(ask.key.wireId, Numbers(ask.missing)), requester, true, accepted, now), s1)
    && S.ReplaySource(s, ask.key.wireId, now) == Some(task) && AtHand(s, task, worlds)
    && |worlds| == |ask.missing| && (forall i :: 0 <= i < |worlds| ==> Serves(worlds[i], requester))
    && s' == Ticks(s1, worlds)
  }

  ghost predicate Exchanges(task: S.Task, requester: ParticipantKey, ask: Asked, s: S.Sender, s': S.Sender) {
    exists accepted, now, s1, worlds :: Exchange(task, requester, ask, s, accepted, now, s1, worlds, s')
  }

  /**
   One round of recovery: a pass of the receiver publishes a request for the transfer, which reaches the sender; as many
   ticks follow as it asks for, and what they send reaches the receiver, which takes it.
   */
  ghost predicate Round(decode: T.Decoder, k: Key, owner: ParticipantKey, requester: ParticipantKey, task: S.Task,
                        p: Pass, s: S.Sender, w: Receiver, s': S.Sender, w': Receiver)
  {
    Starts(p) && exists mid, i :: RoundBy(decode, k, owner, requester, task, p, s, w, mid, i, s', w')
  }

  /** The same, with the receiver as the pass leaves it and the place of the request among those published. */
  ghost predicate RoundBy(decode: T.Decoder, k: Key, owner: ParticipantKey, requester: ParticipantKey, task: S.Task,
                          p: Pass, s: S.Sender, w: Receiver, mid: Receiver, i: nat, s': S.Sender, w': Receiver)
  {
    && PassRuns(decode, owner, p, w, mid)
    && |w.outbox| <= i < |mid.outbox| && mid.outbox[i].key == k
    && Exchanges(task, requester, mid.outbox[i], s, s')
    && |s.sent| <= |s'.sent|
    && TakesAll(decode, k, owner, mid, Addressed(s'.sent[|s.sent|..], requester.identity), w')
  }

  /** The sender has no replay waiting. */
  ghost predicate Idle(s: S.Sender) {
    s.replays == [] && CacheFits(s.cache)
  }

  /** The file may be sent to this participant, and its text decodes to the data. */
  predicate Shared(encode: Encoder, decode: T.Decoder, task: S.Task, data: seq<int>, requester: ParticipantKey) {
    && TaskOf(encode, task, data) && IsBase64(encode, data) && RoundTrips(encode, decode, data) && MaySend(task, data)
    && requester.identity != "" && requester.identity in task.recipients
  }

  /**
   Such a round sends exactly the chunks that were asked for, in ascending order, and leaves the sender idle
   again.
   */
  lemma SenderAnswers(encode: Encoder, decode: T.Decoder, task: S.Task, data: seq<int>, requester: ParticipantKey,
                      t: T.Transfer, ask: Asked, s: S.Sender, accepted: bool, now: int, s1: S.Sender,
                      worlds: seq<S.World>, s': S.Sender)
    requires Idle(s) && Shared(encode, decode, task, data, requester) && T.TransferOk(t) && t.meta == task.meta
    requires ask.key.wireId == task.transferId && ask.missing == Wanted(t)
    requires Exchange(task, requester, ask, s, accepted, now, s1, worlds, s')
    ensures var packets := ChunkPackets(task, Ascending(Elements(Wanted(t))));
            Idle(s') && s'.sent == s.sent + Answers(requester.identity, packets)
            && Addressed(s'.sent[|s.sent|..], requester.identity) == packets
  {
    hide Wanted, S.Step, CacheFits, S.ReplaySource, Elements, Serves, S.ChunkPacket, AtHand, T.TransferOk, IsBase64,
         Utf16Size;
    var c := RequestQueues(s, task, t, requester, accepted, now, s1);
    OnlyExpiredGo(s.cache, now, c);
    StaysAtHand(s, task, now, c, worlds);
    WantedMeaning(t);
    var chunks := Elements(Wanted(t));
    assert AtHand(s1, task, worlds) by { SameHand(s.(cache := c), s1, task, worlds); }
    TicksServe(s1, task, requester, chunks, worlds);
    var packets := ChunkPackets(task, Ascending(chunks));
    AnswersReach(requester.identity, packets);
    assert s'.sent[|s.sent|..] == Answers(requester.identity, packets);
  }

  /** Its packets are chunks of the file, fit for the receiver. */
  lemma PacketsFit(encode: Encoder, decode: T.Decoder, task: S.Task, data: seq<int>, requester: ParticipantKey, k: Key,
                   indices: seq<nat>)
    requires Shared(encode, decode, task, data, requester) && k.wireId == task.transferId
    requires forall i :: i in indices ==> i < task.meta.totalChunks
    ensures ChunksOf(decode, task.text, task.meta, k, ChunkPackets(task, indices), indices)
  {
    hide Slice, SliceCount, Utf16Size;
    var packets := ChunkPackets(task, indices);
    forall j | 0 <= j < |indices| ensures ChunkOf(decode, task.text, task.meta, k, packets[j]) {
      assert indices[j] in indices;
      ChunkIsWellFormed(encode, task, data, indices[j]);
    }
  }

  /** The transfer of this file is at rest. */
  ghost predicate Recovering(names: P.Names, w: Receiver, k: Key, task: S.Task) {
    Resting(names, w, k, task.text, task.meta) && k.wireId == task.transferId
  }

  /** How many of its chunks are missing. */
  function MissingOf(w: Receiver, k: Key): int
    requires k in w.transfers
  {
    w.transfers[k].meta.totalChunks - |w.transfers[k].chunks|
  }

  lemma MissingIsCounted(chunks: map<nat, string>, total: nat)
    requires forall i :: i in chunks ==> i < total
    ensures MissingCount(chunks, total) == total - |chunks| >= 0
  {
    assert chunks.Keys <= Below(total);
    SubsetSize(chunks.Keys, Below(total));
  }

  /** How much a request asks for: what is missing, up to a batch; one chunk when nothing is. */
  lemma WantedSize(t: T.Transfer)
    requires T.TransferOk(t)
    ensures var missing := t.meta.totalChunks - |t.chunks|;
            0 <= missing && |Wanted(t)| == if missing == 0 then 1 else RequestSize(missing)
  {
    hide MissingFrom, Below;
    var total := t.meta.totalChunks;
    MissingIsCounted(t.chunks, total);
    var m := MissingFrom(t.chunks, 0, total, RECOVERY_BATCH);
    var arrived := map i: nat | i in t.chunks.Keys + Elements(m) :: "";
    assert arrived.Keys == t.chunks.Keys + Elements(m);
    RecoveryRound(t.chunks, arrived, total);
  }

  /** The last chunk again, for a full set whose delivery was refused. */
  lemma FullRound(decode: T.Decoder, text: string, meta: T.Meta, w: Receiver, k: Key, owner: ParticipantKey,
                  packets: seq<T.Packet>, index: nat, w': Receiver)
    requires Assembling(w, k, owner, text, meta) && ChunksOf(decode, text, meta, k, packets, [index])
    requires |w.transfers[k].chunks| == meta.totalChunks && TakesAll(decode, k, owner, w, packets, w')
    ensures Delivered(w', k, decode(text))
  {
    hide Assembling, Takes, ChunkOf, Delivered, TransferTrue;
    AssemblingHas(w, k, owner, text, meta);
    var mid :| Takes(decode, k, owner, w, packets[0], mid) && TakesAll(decode, k, owner, mid, packets[1..], w');
    assert mid == w' by { assert packets[1..] == []; }
    ChunkTaken(decode, text, meta, w, k, owner, packets[0], w');
    InRange(decode, text, meta, k, packets[0]);
    Pigeonhole(w.transfers[k].chunks, meta.totalChunks);
    assert With(w.transfers[k], packets[0]).Keys == w.transfers[k].chunks.Keys;
    assert |With(w.transfers[k], packets[0])| == |With(w.transfers[k], packets[0]).Keys|;
    assert |w.transfers[k].chunks| == |w.transfers[k].chunks.Keys|;
  }

  // ----- The receiver keeps its owners -----

  lemma {:induction false} DrainsConsistent(decode: T.Decoder, names: P.Names, owner: ParticipantKey, w: Receiver,
                                            callbacks: seq<Callback>, w': Receiver, k: Key)
    requires P.Consistent(names, w) && k.session == w.session && Drains(decode, owner, w, callbacks, w')
    ensures P.Consistent(names, w') && w'.session == w.session
    decreases |callbacks|
  {
    hide P.Consistent, Step, P.Local, P.LocalEvent, T.Apply, T.Enabled;
    if callbacks != [] {
      var mid :| Step(decode, w, callbacks[0], mid) && Drains(decode, owner, mid, callbacks[1..], w');
      StepIsLocal(decode, names, w, callbacks[0], mid, k);
      DrainsConsistent(decode, names, owner, mid, callbacks[1..], w', k);
    }
  }

  lemma {:induction false} TakesConsistent(decode: T.Decoder, names: P.Names, w: Receiver, packets: seq<T.Packet>,
                                           w': Receiver, k: Key)
    requires P.Consistent(names, w) && k.session == w.session
    requires TakesAll(decode, k, P.OwnerOf(names, k), w, packets, w')
    ensures P.Consistent(names, w') && w'.session == w.session
    decreases |packets|
  {
    hide P.Consistent, Step, P.Local, P.LocalEvent, T.Apply, T.Enabled, Drains;
    if packets != [] {
      var owner := P.OwnerOf(names, k);
      var mid :| Takes(decode, k, owner, w, packets[0], mid) && TakesAll(decode, k, owner, mid, packets[1..], w');
      var c, first, callbacks :|
        Brings(c, k, owner, packets[0]) && Step(decode, w, c, first) && Drains(decode, owner, first, callbacks, mid);
      StepIsLocal(decode, names, w, c, first, k);
      DrainsConsistent(decode, names, owner, first, callbacks, mid, k);
      TakesConsistent(decode, names, mid, packets[1..], w', k);
    }
  }

  // ----- What a round achieves -----

  /** The chunks a transfer asks for, taken one after the other. */
  lemma WantedTaken(encode: Encoder, decode: T.Decoder, task: S.Task, data: seq<int>, k: Key, owner: ParticipantKey,
                    requester: ParticipantKey, w: Receiver, w': Receiver)
    requires Shared(encode, decode, task, data, requester) && k.wireId == task.transferId
    requires Assembling(w, k, owner, task.text, task.meta)
    requires var packets := ChunkPackets(task, Ascending(Elements(Wanted(w.transfers[k]))));
             TakesAll(decode, k, owner, w, packets, w')
    ensures if MissingOf(w, k) <= RECOVERY_BATCH then Delivered(w', k, data)
            else Assembling(w', k, owner, task.text, task.meta) && k in w'.transfers
                 && MissingOf(w', k) == MissingOf(w, k) - RECOVERY_BATCH
                 && Announced(w', k) && SameTerms(w.transfers[k], w'.transfers[k])
  {
    hide Assembling, Wanted, Shared, TakesAll, Elements, T.TransferOk, ChunkPackets, Ascending, ChunksOf, Delivered,
         Distinct, Sorted, TransferTrue, Announced;
    AssemblingHas(w, k, owner, task.text, task.meta);
    var t := w.transfers[k];
    SameMeta(task.text, task.meta, t);
    var indices := WantedIndices(encode, decode, task, data, k, requester, t);
    TextDecodes(encode, decode, task, data, requester);
    if MissingOf(w, k) == 0 {
      FullRound(decode, task.text, task.meta, w, k, owner, ChunkPackets(task, indices), indices[0], w');
    } else {
      MissingTaken(decode, task.text, task.meta, w, k, owner, ChunkPackets(task, indices), indices, w');
      if MissingOf(w, k) > RECOVERY_BATCH {
        AssemblingHas(w', k, owner, task.text, task.meta);
        SameMeta(task.text, task.meta, w'.transfers[k]);
        KeysCount(t.chunks, w'.transfers[k].chunks, indices);
      }
    }
  }

  /** The indices of a request in the order they are sent, and the packets that carry them. */
  lemma WantedIndices(encode: Encoder, decode: T.Decoder, task: S.Task, data: seq<int>, k: Key,
                      requester: ParticipantKey, t: T.Transfer) returns (indices: seq<nat>)
    requires Shared(encode, decode, task, data, requester) && k.wireId == task.transferId
    requires T.TransferOk(t) && t.meta == task.meta
    ensures indices == Ascending(Elements(Wanted(t))) && Distinct(indices) && Elements(indices) == Elements(Wanted(t))
    ensures ChunksOf(decode, task.text, task.meta, k, ChunkPackets(task, indices), indices)
    ensures var missing := t.meta.totalChunks - |t.chunks|;
            && 0 <= missing && |indices| == (if missing == 0 then 1 else RequestSize(missing))
            && (missing == 0 ==> indices == [indices[0]])
            && (missing > 0 ==> forall i :: i in indices ==> i !in t.chunks)
  {
    hide Wanted, Shared, Elements, T.TransferOk, ChunkPackets, Ascending, ChunksOf, Distinct, Sorted;
    WantedSize(t);
    WantedMeaning(t);
    var chunks := Elements(Wanted(t));
    indices := Ascending(chunks);
    AscendingMeaning(chunks);
    SameElements(Wanted(t), indices);
    SortedDistinct(indices);
    PacketsFit(encode, decode, task, data, requester, k, indices);
  }

  /**
   A round brings 64 chunks more, or all that are missing and the delivery with them. The next round can be asked for
   like this one: the placeholder is there, and the last request is this one's.
   */
  lemma RoundAdvances(encode: Encoder, decode: T.Decoder, names: P.Names, task: S.Task, data: seq<int>, k: Key,
                      requester: ParticipantKey, p: Pass, s: S.Sender, w: Receiver, s': S.Sender, w': Receiver)
    requires Shared(encode, decode, task, data, requester) && Idle(s) && Recovering(names, w, k, task)
    requires Round(decode, k, P.OwnerOf(names, k), requester, task, p, s, w, s', w')
    ensures k in w.transfers && Idle(s')
    ensures if MissingOf(w, k) <= RECOVERY_BATCH then Delivered(w', k, data)
            else Recovering(names, w', k, task) && k in w'.transfers
                 && MissingOf(w', k) == MissingOf(w, k) - RECOVERY_BATCH
                 && Announced(w', k) && w'.transfers[k].resumable && w'.transfers[k].lastRecovery == p.now
  {
    hide Assembling, Wanted, Shared, CacheFits, Exchange, TakesAll, T.TransferOk, ChunkPackets, PassRuns, Delivered,
         TransferTrue, Addressed, P.Consistent, Announced, Decide, Starts;
    var owner := P.OwnerOf(names, k);
    AssemblingHas(w, k, owner, task.text, task.meta);
    var t := w.transfers[k];
    SameMeta(task.text, task.meta, t);
    var mid, i: nat :| RoundBy(decode, k, owner, requester, task, p, s, w, mid, i, s', w');
    PassMeaning(decode, names, p, w, mid, k, task.text, task.meta);
    DecisionMeaning(t, p);
    assert AskedSince(mid, |w.outbox|, k);
    var ask := mid.outbox[i];
    var accepted, now, s1, worlds :| Exchange(task, requester, ask, s, accepted, now, s1, worlds, s');
    SenderAnswers(encode, decode, task, data, requester, t, ask, s, accepted, now, s1, worlds, s');
    AskedChunks(t, mid.transfers[k], p);
    AssemblingSession(names, mid, k, task.text, task.meta);
    WantedTaken(encode, decode, task, data, k, owner, requester, mid, w');
    TakesConsistent(decode, names, mid, ChunkPackets(task, Ascending(Elements(Wanted(t)))), w', k);
  }

  /** To be asked for takes a transfer that is not lost; the two times do not matter to what is wanted. */
  lemma AskedChunks(t: T.Transfer, t': T.Transfer, p: Pass)
    requires T.TransferOk(t) && Askable(t, p)
    requires t' == t.(lastActive := t'.lastActive, lastRecovery := t'.lastRecovery)
    ensures !Lost(t, p) && t.resumable && T.TransferOk(t') && Wanted(t') == Wanted(t)
  {
    hide Wanted;
    DecisionMeaning(t, p);
    SameWanted(t, t');
  }

  lemma SameWanted(t: T.Transfer, t': T.Transfer)
    requires T.TransferOk(t) && T.TransferOk(t') && t'.chunks == t.chunks && t'.meta == t.meta
    ensures Wanted(t') == Wanted(t)
  {
  }

  lemma AssemblingSession(names: P.Names, w: Receiver, k: Key, text: string, meta: T.Meta)
    requires Resting(names, w, k, text, meta)
    ensures k.session == w.session && P.Consistent(names, w)
  {
  }

  lemma SameMeta(text: string, meta: T.Meta, t: T.Transfer)
    requires TransferTrue(text, meta, t)
    ensures t.meta == meta
  {
  }

  lemma SameElements(a: seq<nat>, b: seq<nat>)
    requires Elements(a) == Elements(b)
    ensures forall i :: i in a <==> i in b
  {
    assert forall i :: i in a <==> i in Elements(a);
    assert forall i :: i in b <==> i in Elements(b);
  }

  lemma SortedDistinct(s: seq<nat>)
    requires Sorted(s)
    ensures Distinct(s)
  {
  }

  lemma TextDecodes(encode: Encoder, decode: T.Decoder, task: S.Task, data: seq<int>, requester: ParticipantKey)
    requires Shared(encode, decode, task, data, requester)
    ensures decode(task.text) == data
  {
  }

  lemma KeysCount(chunks: map<nat, string>, more: map<nat, string>, indices: seq<nat>)
    requires Distinct(indices) && more.Keys == chunks.Keys + Elements(indices)
    requires forall i :: i in indices ==> i !in chunks
    ensures |more| == |chunks| + |indices|
  {
    ElementsCount(indices);
    assert |chunks.Keys + Elements(indices)| == |chunks.Keys| + |Elements(indices)|;
    assert |more| == |more.Keys|;
  }

  // ----- Rounds to the delivery -----

  function RoundsNeeded(missing: int): nat
    decreases missing
  {
    if missing <= RECOVERY_BATCH then 1 else 1 + RoundsNeeded(missing - RECOVERY_BATCH)
  }

  ghost predicate Rounds(decode: T.Decoder, k: Key, owner: ParticipantKey, requester: ParticipantKey, task: S.Task,
                         passes: seq<Pass>, senders: seq<S.Sender>, receivers: seq<Receiver>)
  {
    && |senders| == |receivers| == |passes| + 1
    && forall i :: 0 <= i < |passes| ==>
         Round(decode, k, owner, requester, task, passes[i], senders[i], receivers[i], senders[i + 1], receivers[i + 1])
  }

  /** So many rounds as there are batches missing deliver the file. */
  lemma {:induction false} RoundsDeliver(encode: Encoder, decode: T.Decoder, names: P.Names, task: S.Task,
                                         data: seq<int>, k: Key, requester: ParticipantKey, passes: seq<Pass>,
                                         senders: seq<S.Sender>, receivers: seq<Receiver>)
    requires Shared(encode, decode, task, data, requester)
    requires Rounds(decode, k, P.OwnerOf(names, k), requester, task, passes, senders, receivers)
    requires Idle(senders[0]) && Recovering(names, receivers[0], k, task) && k in receivers[0].transfers
    requires |passes| == RoundsNeeded(MissingOf(receivers[0], k))
    ensures Delivered(receivers[|receivers| - 1], k, data)
    decreases |passes|
  {
    hide Shared, Round, Idle, Recovering, Delivered, Announced;
    var owner := P.OwnerOf(names, k);
    assert Round(decode, k, owner, requester, task, passes[0], senders[0], receivers[0], senders[1], receivers[1]);
    RoundAdvances(encode, decode, names, task, data, k, requester, passes[0], senders[0], receivers[0], senders[1],
                  receivers[1]);
    if MissingOf(receivers[0], k) > RECOVERY_BATCH {
      forall i | 0 <= i < |passes[1..]|
        ensures Round(decode, k, owner, requester, task, passes[1..][i], senders[1..][i], receivers[1..][i],
                      senders[1..][i + 1], receivers[1..][i + 1])
      {
        assert passes[1..][i] == passes[i + 1];
        assert senders[1..][i] == senders[i + 1] && senders[1..][i + 1] == senders[i + 1 + 1];
        assert receivers[1..][i] == receivers[i + 1] && receivers[1..][i + 1] == receivers[i + 1 + 1];
      }
      RoundsDeliver(encode, decode, names, task, data, k, requester, passes[1..], senders[1..], receivers[1..]);
    }
  }

  // ----- When rounds are possible -----

  /** A world in which a tick serves this recipient. */
  function Up(recipient: ParticipantKey, now: int): S.World {
    S.World(true, true, false, 0, {recipient}, now, S.Accepted)
  }

  /** The sender has the file from one time to another. */
  ghost predicate HasFile(s: S.Sender, task: S.Task, start: int, end: int) {
    forall now :: start <= now <= end ==> S.ReplaySource(s, task.transferId, now) == Some(task)
  }

  /** The sender's side of a round is always possible while it has the file, and takes nothing of it away. */
  lemma ExchangeIsPossible(encode: Encoder, decode: T.Decoder, task: S.Task, data: seq<int>, requester: ParticipantKey,
                           t: T.Transfer, ask: Asked, s: S.Sender, now: int, end: int) returns (s': S.Sender)
    requires Idle(s) && Shared(encode, decode, task, data, requester) && T.TransferOk(t) && t.meta == task.meta
    requires ask.key.wireId == task.transferId && ask.missing == Wanted(t)
    requires now <= end && HasFile(s, task, now, end)
    ensures Exchanges(task, requester, ask, s, s') && HasFile(s', task, now, end)
    ensures var packets := ChunkPackets(task, Ascending(Elements(Wanted(t))));
            |s.sent| <= |s'.sent| && Addressed(s'.sent[|s.sent|..], requester.identity) == packets
  {
    hide Wanted, S.Find, Elements, T.TransferOk, IsBase64, Utf16Size, S.IndicesOk, S.Indices, S.AddReplay, TaskOf,
         RoundTrips, S.CacheBytes, Ticks, S.ReplaySource, ChunkPackets, Ascending, Answers, Addressed;
    assert S.ReplaySource(s, task.transferId, now) == Some(task);
    var c := S.Live(s.cache, now);
    LiveFits(s.cache, now);
    assert S.Pruned(s.cache, now, c) by { FitsIsPruned(s.cache, now); }
    RequestIsServed(t, task);
    var r := S.Request(task.transferId, Numbers(ask.missing));
    var s1 := S.OnRequest(s.(cache := c), r, requester, true);
    assert S.Step(s, S.ResumeRequest(r, requester, true, true, now), s1);
    var worlds := seq(|ask.missing|, i => Up(requester, now));
    s' := Ticks(s1, worlds);
    assert AtHand(s, task, worlds);
    assert Exchange(task, requester, ask, s, true, now, s1, worlds, s');
    SenderAnswers(encode, decode, task, data, requester, t, ask, s, true, now, s1, worlds, s');
    AfterExchange(encode, decode, task, data, requester, t, ask, s, now, end, s1, worlds, s');
  }

  lemma FitsIsPruned(c: S.Cache, now: int)
    requires CacheFits(S.Live(c, now))
    ensures S.Pruned(c, now, S.Live(c, now))
  {
    hide S.CacheBytes, S.Live;
  }

  /** The file is still there, since nothing but the replays and what was sent has changed. */
  lemma AfterExchange(encode: Encoder, decode: T.Decoder, task: S.Task, data: seq<int>, requester: ParticipantKey,
                      t: T.Transfer, ask: Asked, s: S.Sender, now: int, end: int, s1: S.Sender, worlds: seq<S.World>,
                      s': S.Sender)
    requires Idle(s) && Shared(encode, decode, task, data, requester) && T.TransferOk(t) && t.meta == task.meta
    requires ask.key.wireId == task.transferId && ask.missing == Wanted(t) && HasFile(s, task, now, end)
    requires Exchange(task, requester, ask, s, true, now, s1, worlds, s')
    ensures HasFile(s', task, now, end)
  {
    hide Wanted, S.Step, CacheFits, S.ReplaySource, Elements, Serves, S.ChunkPacket, T.TransferOk, IsBase64, Utf16Size,
         AtHand;
    var c := RequestQueues(s, task, t, requester, true, now, s1);
    StaysAtHand(s, task, now, c, worlds);
    WantedMeaning(t);
    SameHand(s.(cache := c), s1, task, worlds);
    TicksServe(s1, task, requester, Elements(Wanted(t)), worlds);
    forall later | now <= later <= end ensures S.ReplaySource(s', task.transferId, later) == Some(task) {
      var world := [Up(requester, later)];
      assert AtHand(s, task, world) by { OneAtHand(s, task, requester, later); }
      StaysAtHand(s, task, now, c, world);
      SameHand(s.(cache := c), s', task, world);
      AtHandFirst(s', task, world);
    }
  }

  lemma OneAtHand(s: S.Sender, task: S.Task, requester: ParticipantKey, now: int)
    requires S.ReplaySource(s, task.transferId, now) == Some(task)
    ensures AtHand(s, task, [Up(requester, now)])
  {
    hide S.ReplaySource;
  }

  /** The receiver can take what it asked for, all at one time. */
  lemma WantedCanBeTaken(encode: Encoder, decode: T.Decoder, task: S.Task, data: seq<int>, k: Key,
                         owner: ParticipantKey, requester: ParticipantKey, w: Receiver, now: int) returns (w': Receiver)
    requires Shared(encode, decode, task, data, requester) && k.wireId == task.transferId
    requires Assembling(w, k, owner, task.text, task.meta)
    ensures k in w.transfers
    ensures TakesAll(decode, k, owner, w, ChunkPackets(task, Ascending(Elements(Wanted(w.transfers[k])))), w')
    ensures MissingOf(w, k) > RECOVERY_BATCH ==> k in w'.transfers && w'.transfers[k].lastActive == now
  {
    hide Assembling, Wanted, Shared, TakesAll, Elements, T.TransferOk, ChunkPackets, Ascending, ChunksOf, Distinct,
         Sorted, TransferTrue;
    AssemblingHas(w, k, owner, task.text, task.meta);
    var t := w.transfers[k];
    SameMeta(task.text, task.meta, t);
    var indices := WantedIndices(encode, decode, task, data, k, requester, t);
    var packets := ChunkPackets(task, indices);
    if MissingOf(w, k) == 0 {
      w' := OneCanBeTaken(decode, task.text, task.meta, w, k, owner, packets, indices[0], now);
    } else {
      w' := MissingCanBeTaken(decode, task.text, task.meta, w, k, owner, packets, indices, now);
    }
  }

  lemma RoundIsPossible(encode: Encoder, decode: T.Decoder, names: P.Names, task: S.Task, data: seq<int>, k: Key,
                        requester: ParticipantKey, p: Pass, s: S.Sender, w: Receiver, now: int, end: int)
    returns (s': S.Sender, w': Receiver)
    requires Shared(encode, decode, task, data, requester) && Idle(s) && Recovering(names, w, k, task)
    requires k in w.transfers
    requires Starts(p) && Askable(w.transfers[k], p) && Announced(w, k) && Reaches(p)
    requires now <= end && HasFile(s, task, now, end)
    ensures Round(decode, k, P.OwnerOf(names, k), requester, task, p, s, w, s', w') && HasFile(s', task, now, end)
    ensures MissingOf(w, k) > RECOVERY_BATCH ==> k in w'.transfers && w'.transfers[k].lastActive == p.now
  {
    hide Assembling, Wanted, Shared, CacheFits, Exchanges, TakesAll, T.TransferOk, ChunkPackets, PassRuns, Decide,
         Starts, TransferTrue, Addressed, P.Consistent, Announced, HasFile, Elements, Ascending;
    var owner := P.OwnerOf(names, k);
    AssemblingHas(w, k, owner, task.text, task.meta);
    SettledOk(w, k, owner, task.text, task.meta);
    var t := w.transfers[k];
    SameMeta(task.text, task.meta, t);
    var mid := PassCanRun(decode, owner, p, w);
    PassMeaning(decode, names, p, w, mid, k, task.text, task.meta);
    DecisionMeaning(t, p);
    AskedChunks(t, mid.transfers[k], p);
    var i: nat :| |w.outbox| <= i < |mid.outbox| && mid.outbox[i].key == k;
    s' := ExchangeIsPossible(encode, decode, task, data, requester, t, mid.outbox[i], s, now, end);
    w' := WantedCanBeTaken(encode, decode, task, data, k, owner, requester, mid, p.now);
    assert RoundBy(decode, k, owner, requester, task, p, s, w, mid, i, s', w');
  }

  lemma SettledOk(w: Receiver, k: Key, owner: ParticipantKey, text: string, meta: T.Meta)
    requires Assembling(w, k, owner, text, meta)
    ensures Settled(w) && TransfersOk(w)
  {
  }

  /**
   A round with this pass is possible if and only if the pass starts, the transfer may be asked for in it, its
   placeholder has been reported, and the Qt thread may publish the request: an idle sender that has the file
   never stands in its way.
   */
  lemma RoundIff(encode: Encoder, decode: T.Decoder, names: P.Names, task: S.Task, data: seq<int>, k: Key,
                 requester: ParticipantKey, p: Pass, s: S.Sender, w: Receiver, now: int)
    requires Shared(encode, decode, task, data, requester) && Idle(s) && Recovering(names, w, k, task)
    requires k in w.transfers
    requires S.ReplaySource(s, task.transferId, now) == Some(task)
    ensures (exists s', w' :: Round(decode, k, P.OwnerOf(names, k), requester, task, p, s, w, s', w'))
       <==> Starts(p) && Askable(w.transfers[k], p) && Announced(w, k) && Reaches(p)
  {
    hide Shared, Idle, RoundBy, Starts, Askable, Announced, S.ReplaySource, Resting;
    if s', w' :| Round(decode, k, P.OwnerOf(names, k), requester, task, p, s, w, s', w') {
      var mid, i: nat :| RoundBy(decode, k, P.OwnerOf(names, k), requester, task, p, s, w, mid, i, s', w');
      RoundAsks(decode, k, P.OwnerOf(names, k), requester, task, p, s, w, mid, i, s', w');
      PassMeaning(decode, names, p, w, mid, k, task.text, task.meta);
    }
    if Starts(p) && Askable(w.transfers[k], p) && Announced(w, k) && Reaches(p) {
      var s', w' := RoundIsPossible(encode, decode, names, task, data, k, requester, p, s, w, now, now);
    }
  }

  lemma RoundAsks(decode: T.Decoder, k: Key, owner: ParticipantKey, requester: ParticipantKey, task: S.Task, p: Pass,
                  s: S.Sender, w: Receiver, mid: Receiver, i: nat, s': S.Sender, w': Receiver)
    requires RoundBy(decode, k, owner, requester, task, p, s, w, mid, i, s', w')
    ensures PassRuns(decode, owner, p, w, mid) && AskedSince(mid, |w.outbox|, k)
  {
    hide PassRuns, Exchanges, TakesAll;
  }

  // ----- Ordinary passes suffice -----

  /** A pass every five seconds. */
  function EveryFiveSeconds(owner: ParticipantKey, start: int, n: nat): (passes: seq<Pass>)
    ensures |passes| == n && forall i :: 0 <= i < n ==> passes[i] == Ordinary(owner, start + i * RECOVERY_INTERVAL)
  {
    seq(n, i requires 0 <= i < n => Ordinary(owner, start + i * RECOVERY_INTERVAL))
  }

  /** After a round that leaves something missing, the transfer may be asked for again five seconds later. */
  lemma AskableAgain(t: T.Transfer, owner: ParticipantKey, now: int)
    requires t.resumable && t.owner == owner && t.lastActive == now && t.lastRecovery == now
    requires t.meta.totalChunks <= MAXIMUM_CHUNKS
    ensures Askable(t, Ordinary(owner, now + RECOVERY_INTERVAL))
  {
  }

  /**
   From any such state that may be asked for, with its placeholder reported, ordinary passes every five seconds deliver
   the file, one for each batch missing, if the sender has it so long.
   */
  lemma {:induction false} RecoveryIsPossible(encode: Encoder, decode: T.Decoder, names: P.Names, task: S.Task,
                                              data: seq<int>, k: Key, requester: ParticipantKey, s: S.Sender,
                                              w: Receiver, start: int)
    returns (senders: seq<S.Sender>, receivers: seq<Receiver>)
    requires Shared(encode, decode, task, data, requester) && Idle(s) && Recovering(names, w, k, task)
    requires k in w.transfers
    requires Announced(w, k) && Askable(w.transfers[k], Ordinary(P.OwnerOf(names, k), start))
    requires HasFile(s, task, start, start + RoundsNeeded(MissingOf(w, k)) * RECOVERY_INTERVAL)
    ensures var n := RoundsNeeded(MissingOf(w, k));
            Rounds(decode, k, P.OwnerOf(names, k), requester, task, EveryFiveSeconds(P.OwnerOf(names, k), start, n),
                   senders, receivers)
    ensures senders[0] == s && receivers[0] == w && Delivered(receivers[|receivers| - 1], k, data)
    decreases MissingOf(w, k)
  {
    hide Shared, Round, Idle, Resting, Delivered, Announced, S.ReplaySource, Askable;
    var owner, n := P.OwnerOf(names, k), RoundsNeeded(MissingOf(w, k));
    var p, end := Ordinary(owner, start), start + n * RECOVERY_INTERVAL;
    OrdinaryStarts(owner, start);
    var s', w' := RoundIsPossible(encode, decode, names, task, data, k, requester, p, s, w, start, end);
    RoundAdvances(encode, decode, names, task, data, k, requester, p, s, w, s', w');
    if MissingOf(w, k) <= RECOVERY_BATCH {
      senders, receivers := [s, s'], [w, w'];
    } else {
      var next := start + RECOVERY_INTERVAL;
      RestingHas(encode, decode, names, task, data, k, requester, w');
      AskableAgain(w'.transfers[k], owner, start);
      var more, rest := RecoveryIsPossible(encode, decode, names, task, data, k, requester, s', w', next);
      senders, receivers := [s] + more, [w] + rest;
      var passes, later := EveryFiveSeconds(owner, start, n), EveryFiveSeconds(owner, next, n - 1);
      forall i | 0 <= i < n
        ensures Round(decode, k, owner, requester, task, passes[i], senders[i], receivers[i], senders[i + 1],
                      receivers[i + 1])
      {
        if i > 0 {
          assert passes[i] == later[i - 1];
          assert Round(decode, k, owner, requester, task, later[i - 1], more[i - 1], rest[i - 1], more[i - 1 + 1],
                       rest[i - 1 + 1]);
        }
      }
    }
  }

  lemma OrdinaryStarts(owner: ParticipantKey, now: int)
    ensures Starts(Ordinary(owner, now)) && Reaches(Ordinary(owner, now))
  {
  }

  lemma RestingHas(encode: Encoder, decode: T.Decoder, names: P.Names, task: S.Task, data: seq<int>, k: Key,
                   requester: ParticipantKey, w: Receiver)
    requires Shared(encode, decode, task, data, requester) && Recovering(names, w, k, task)
    ensures k in w.transfers && w.transfers[k].owner == P.OwnerOf(names, k)
    ensures w.transfers[k].meta.totalChunks <= MAXIMUM_CHUNKS
  {
    hide SliceCount, P.Consistent, T.TransferOk;
    LargestFileFits(|data|, task.text);
  }

  // ----- From every reachable state -----

  /** What a transfer looks like to itself once both threads are idle. */
  lemma IdleTransfer(s: T.State)
    requires Sound(s) && Tracked(s) && Drained(s) && s.accepting && s.transfer.Some?
    ensures !s.terminal && !s.transfer.value.queued && s.ledger != Some(true)
  {
    hide Shaped, LogSound, FailingSound;
    assert UnderWay(s) == 0 by { DrainedIsIdle(s); }
  }

  /** In every run a transfer is being assembled, undisturbed, whenever nothing waits and it is there. */
  lemma SettledIsAssembling(decode: T.Decoder, names: P.Names, text: string, meta: T.Meta, session: nat,
                            states: seq<Receiver>, callbacks: seq<Callback>, k: Key)
    requires RR.Run(decode, session, states, callbacks) && RR.AllKnown(names, callbacks) && k.session == session
    requires RR.RecordsKept(decode, names, states, callbacks, k)
    requires RR.HonestFor(decode, text, meta, session, k, callbacks) && meta.totalChunks == SliceCount(|text|)
    requires var w := states[|callbacks|]; Settled(w) && w.accepting && k in w.transfers
    ensures Resting(names, states[|callbacks|], k, text, meta)
  {
    hide Runs, After, RR.LocalRun, Ready, Handle, Remembered, RR.HonestCallback, P.KnownCallback, P.Consistent,
         RR.RecordKept, Sound, Tracked, True, P.Local, RR.HonestFor, Drained, AreSlices, Resting, Announced;
    var n := |callbacks|;
    var w := states[n];
    forall i | 0 <= i < n ensures states[i].session == session {
      RR.RunProjects(decode, names, session, states, callbacks, k, i);
    }
    RR.RunProjects(decode, names, session, states, callbacks, k, n);
    RR.NoDrops(decode, names, states, callbacks, k, n);
    RR.HonestRun(decode, names, text, meta, session, states, callbacks, k, n);
    var events := RR.LocalRun(decode, names, states, callbacks, k, n);
    var s := P.Local(names, w, k);
    StartReady(decode, events);
    InitiallyTrue(decode, text, meta);
    RunStaysTrue(decode, text, meta, T.INITIAL, events);
    TrueLog(decode, text, meta, s);
    LocalDrained(names, w, k);
    assert Drained(s) by { DrainedState(s); }
    IdleTransfer(s);
    RestsLocally(names, w, k, text, meta);
  }

  lemma DrainedState(s: T.State)
    requires s.toQt == [] && s.toStrand == [] && s.frames == []
    ensures Drained(s)
  {
  }

  /** A copy of a submitted file is as good as the file. */
  lemma SameShared(encode: Encoder, decode: T.Decoder, task: S.Task, o: S.Task, data: seq<int>,
                   requester: ParticipantKey)
    requires Shared(encode, decode, o, data, requester) && SR.SameFile(task, o)
    ensures Shared(encode, decode, task, data, requester) && task.text == o.text && task.meta == o.meta
            && task.transferId == o.transferId
  {
  }

  lemma TextIsFile(encode: Encoder, decode: T.Decoder, o: S.Task, data: seq<int>, requester: ParticipantKey)
    requires Shared(encode, decode, o, data, requester)
    ensures o.text == encode(data) && o.meta.totalChunks == SliceCount(|o.text|)
    ensures TaskOf(encode, o, data) && RoundTrips(encode, decode, data)
  {
  }

  /** What the sender finds for the request is the file that was submitted. */
  lemma SourceIsShared(s: S.Sender, id: string, now: int, task: S.Task)
    requires SR.SenderOk(s) && S.ReplaySource(s, id, now) == Some(task)
    ensures id in s.submitted && SR.SameFile(task, s.submitted[id]) && s.submitted[id].transferId == id
    ensures CacheFits(s.cache)
  {
    hide SR.AllFiles, SR.TrafficOk, S.CacheBytes, S.Find;
    SR.SourceIsFile(s, id);
  }

  // ----- Transfers of this sender can be resumed -----

  /** The packets filed under k say that they can be resumed. */
  predicate ResumableFor(session: nat, k: Key, c: Callback) {
    c.PacketIn? && k == Key(session, c.sender.generation, c.sender.incarnation, c.revision, c.packet.wireId)
    ==> c.packet.resumable
  }

  lemma StepKeepsResumable(decode: T.Decoder, w: Receiver, c: Callback, w': Receiver, k: Key)
    requires Step(decode, w, c, w') && ResumableFor(w.session, k, c)
    requires k in w.transfers ==> w.transfers[k].resumable
    ensures k in w'.transfers ==> w'.transfers[k].resumable
    ensures w'.session == w.session
  {
    hide Asks, Wanted, Iterates, T.TransferOk, OnPacket, OnQtPost, OnFrame, CompletionId, RecordsOf, Decide, Remembered;
    if c.PacketIn? { PacketKeepsResumable(decode, w, c, k); }
    if c.QtPostIn? { QtKeepsTransfers(w.(toQt := w.toQt[1..]), w.toQt[0], c.view, c.ids); }
    if c.ResumeIn? { FrameKeepsTransfers(w.(frames := T.Without(w.frames, c.frame)), w.frames[c.frame], c.view); }
  }

  lemma QtKeepsTransfers(w: Receiver, post: Post, view: QtView, order: seq<string>)
    ensures var w' := OnQtPost(w, post, view, order); w'.transfers == w.transfers && w'.session == w.session
  {
    hide UiTransferId, HasEntry, Current, MayAsk, Belongs, FailingOf;
  }

  lemma FrameKeepsTransfers(w: Receiver, f: Waiting, view: QtView)
    ensures var w' := OnFrame(w, f, view); w'.transfers == w.transfers && w'.session == w.session
  {
    hide UiTransferId, HasEntry, Current;
  }

  lemma PacketKeepsResumable(decode: T.Decoder, w: Receiver, c: Callback, k: Key)
    requires TransfersOk(w) && c.PacketIn? && ResumableFor(w.session, k, c)
    requires k in w.transfers ==> w.transfers[k].resumable
    ensures var after := Handle(decode, w, c).state;
            (k in after.transfers ==> after.transfers[k].resumable) && after.session == w.session
  {
    hide T.TransferOk, T.WellFormed, T.Absorb, CompletionId, Posts, RecordOf;
    if T.WellFormed(c.packet) && k == KeyFor(w, c.sender, c.revision, c.packet.wireId) {
      var t := if k in w.transfers then w.transfers[k] else T.NewTransfer(c.packet, c.sender, c.now);
      RR.NewTransferOk(c.packet, c.sender, c.now);
      if t.meta == c.packet.meta { AbsorbKeepsTerms(decode, t, c.packet, c.now); }
    }
  }

  lemma AbsorbKeepsTerms(decode: T.Decoder, t: T.Transfer, p: T.Packet, now: int)
    requires T.TransferOk(t) && p.meta == t.meta && T.WellFormed(p)
    ensures var t' := T.Absorb(decode, t, p, now).0; t'.Some? ==> t'.value.resumable == t.resumable
  {
    hide T.WellFormed, T.Joined, T.Percent;
  }

  lemma {:induction false} RunKeepsResumable(decode: T.Decoder, session: nat, states: seq<Receiver>,
                                             callbacks: seq<Callback>, k: Key, n: nat)
    requires RR.Run(decode, session, states, callbacks) && n <= |callbacks|
    requires forall i :: 0 <= i < |callbacks| ==> ResumableFor(session, k, callbacks[i])
    ensures k in states[n].transfers ==> states[n].transfers[k].resumable
    ensures states[n].session == session
  {
    hide Step, ResumableFor, Ready;
    if n > 0 {
      RunKeepsResumable(decode, session, states, callbacks, k, n - 1);
      StepKeepsResumable(decode, states[n - 1], callbacks[n - 1], states[n], k);
    }
  }

  /** Every transfer that hears only this sender's packets can be resumed: they all say so. */
  lemma SendersTransfersResume(decode: T.Decoder, s: S.Sender, session: nat, states: seq<Receiver>,
                               callbacks: seq<Callback>, k: Key)
    requires SR.SenderOk(s) && RR.Run(decode, session, states, callbacks) && FromSender(s, session, k, callbacks)
    ensures var w := states[|callbacks|]; k in w.transfers ==> w.transfers[k].resumable
  {
    hide SR.AllFiles, S.CacheBytes, RR.Run, Slice, SliceCount, Step;
    forall i | 0 <= i < |callbacks| ensures ResumableFor(session, k, callbacks[i]) {
      var c := callbacks[i];
      assert CameFrom(s, session, k, c);
      if c.PacketIn? && k == Key(session, c.sender.generation, c.sender.incarnation, c.revision, c.packet.wireId) {
        var j :| 0 <= j < |s.sent| && !s.sent[j].Unavailable? && s.sent[j].packet == c.packet;
        assert SR.WireOk(s.submitted, s.sent[j]);
      }
    }
    RunKeepsResumable(decode, session, states, callbacks, k, |callbacks|);
  }

  // ----- Both ends, from any reachable states -----

  /**
   Two runs that have come to rest: of a sender, which still has the file and owes nobody anything, and of a
   receiver that hears of this transfer only what that sender sent, in whatever order, and has not finished it.
   */
  ghost predicate CameToRest(encode: Encoder, decode: T.Decoder, names: P.Names, session: nat, data: seq<int>,
                             sends: seq<S.Sender>, ops: seq<S.Operation>, states: seq<Receiver>,
                             callbacks: seq<Callback>, k: Key, requester: ParticipantKey, task: S.Task, now: int)
  {
    && SR.Run(sends, ops) && RR.Run(decode, session, states, callbacks) && RR.AllKnown(names, callbacks)
    && RR.RecordsKept(decode, names, states, callbacks, k) && k.session == session
    && (var s := sends[|ops|];
        && k.wireId in s.submitted && Shared(encode, decode, s.submitted[k.wireId], data, requester)
        && FromSender(s, session, k, callbacks) && s.replays == [] && S.ReplaySource(s, k.wireId, now) == Some(task))
    && (var w := states[|callbacks|]; Settled(w) && w.accepting && k in w.transfers)
  }

  /** Then the transfer is at rest and can be resumed, and the sender is idle and its file is the one submitted. */
  lemma ReachableRecovers(encode: Encoder, decode: T.Decoder, names: P.Names, session: nat, data: seq<int>,
                          sends: seq<S.Sender>, ops: seq<S.Operation>, states: seq<Receiver>, callbacks: seq<Callback>,
                          k: Key, requester: ParticipantKey, task: S.Task, now: int)
    requires CameToRest(encode, decode, names, session, data, sends, ops, states, callbacks, k, requester, task, now)
    ensures var s, w := sends[|ops|], states[|callbacks|];
            && Recovering(names, w, k, task) && w.transfers[k].resumable
            && Idle(s) && Shared(encode, decode, task, data, requester) && task.transferId == k.wireId
  {
    hide S.Step, SR.SenderOk, RR.AllKnown, RR.RecordsKept, WasSent, Settled, S.ReplaySource, Shared, CacheFits,
         Assembling, RR.HonestCallback, Resting;
    var s, w := sends[|ops|], states[|callbacks|];
    SenderOkAtEnd(sends, ops);
    SourceIsShared(s, k.wireId, now, task);
    var o := s.submitted[k.wireId];
    SameShared(encode, decode, task, o, data, requester);
    TextIsFile(encode, decode, o, data, requester);
    EverythingIsHonest(encode, decode, s, session, k, data, callbacks);
    SettledIsAssembling(decode, names, task.text, task.meta, session, states, callbacks, k);
    SendersTransfersResume(decode, s, session, states, callbacks, k);
  }

  /**
   Whatever a run of the sender and a run of the receiver have been through, with packets lost, repeated and
   out of order and deliveries refused: once nothing waits on either side, as many rounds as there are batches
   missing deliver the file.
   */
  lemma RecoveryCompletes(encode: Encoder, decode: T.Decoder, names: P.Names, session: nat, data: seq<int>,
                          sends: seq<S.Sender>, ops: seq<S.Operation>, states: seq<Receiver>, callbacks: seq<Callback>,
                          k: Key, requester: ParticipantKey, task: S.Task, now: int, passes: seq<Pass>,
                          senders: seq<S.Sender>, receivers: seq<Receiver>)
    requires CameToRest(encode, decode, names, session, data, sends, ops, states, callbacks, k, requester, task, now)
    requires Rounds(decode, k, P.OwnerOf(names, k), requester, task, passes, senders, receivers)
    requires senders[0] == sends[|ops|] && receivers[0] == states[|callbacks|]
    requires |passes| == RoundsNeeded(MissingOf(states[|callbacks|], k))
    ensures Delivered(receivers[|receivers| - 1], k, data)
  {
    hide S.Step, RR.Run, SR.Run, Rounds, Settled, Delivered, S.ReplaySource, Shared, CacheFits, Resting;
    ReachableRecovers(encode, decode, names, session, data, sends, ops, states, callbacks, k, requester, task, now);
    RoundsDeliver(encode, decode, names, task, data, k, requester, passes, senders, receivers);
  }

  /**
   And ordinary passes every five seconds are such rounds, from all such states in which the placeholder has
   been reported and the transfer may be asked for at the first of them, if the sender keeps the file so long.
   */
  lemma OrdinaryPassesDeliver(encode: Encoder, decode: T.Decoder, names: P.Names, session: nat, data: seq<int>,
                              sends: seq<S.Sender>, ops: seq<S.Operation>, states: seq<Receiver>,
                              callbacks: seq<Callback>, k: Key, requester: ParticipantKey, task: S.Task, start: int)
    returns (senders: seq<S.Sender>, receivers: seq<Receiver>)
    requires CameToRest(encode, decode, names, session, data, sends, ops, states, callbacks, k, requester, task, start)
    requires var w := states[|callbacks|];
             && Announced(w, k) && Askable(w.transfers[k], Ordinary(P.OwnerOf(names, k), start))
             && HasFile(sends[|ops|], task, start, start + RoundsNeeded(MissingOf(w, k)) * RECOVERY_INTERVAL)
    ensures var n := RoundsNeeded(MissingOf(states[|callbacks|], k));
            Rounds(decode, k, P.OwnerOf(names, k), requester, task, EveryFiveSeconds(P.OwnerOf(names, k), start, n),
                   senders, receivers)
    ensures senders[0] == sends[|ops|] && receivers[0] == states[|callbacks|]
    ensures Delivered(receivers[|receivers| - 1], k, data)
  {
    hide S.Step, Rounds, Settled, Delivered, HasFile, Shared, CacheFits, Resting, Announced, Askable;
    ReachableRecovers(encode, decode, names, session, data, sends, ops, states, callbacks, k, requester, task, start);
    senders, receivers :=
      RecoveryIsPossible(encode, decode, names, task, data, k, requester, sends[|ops|], states[|callbacks|], start);
  }

  // ----- A transfer that is never asked for -----

  /** A start arrives, but its callback finds that its sender is not current. */
  function StartUnseen(sender: ParticipantKey, revision: nat, p: T.Packet, now: int, view: QtView): seq<Callback> {
    [PacketIn(sender, revision, p, now, {sender}, true), QtPostIn(view, [])]
  }

  lemma StartIsDropped(decode: T.Decoder, session: nat, sender: ParticipantKey, revision: nat, p: T.Packet, now: int,
                       view: QtView) returns (states: seq<Receiver>)
    requires T.WellFormed(p) && !p.isChunk && !Current(view, sender)
    ensures RR.Run(decode, session, states, StartUnseen(sender, revision, p, now, view))
    ensures states[2] == Initial(session).(transfers :=
              map[Key(session, sender.generation, sender.incarnation, revision, p.wireId)
                  := T.NewTransfer(p, sender, now)])
  {
    hide CompletionId, T.WellFormed, UiTransferId;
    var k := Key(session, sender.generation, sender.incarnation, revision, p.wireId);
    var w0 := Initial(session);
    var w2 := w0.(transfers := map[k := T.NewTransfer(p, sender, now)]);
    var w1 := w2.(toQt := [Post(k, sender, T.Start)]);
    RR.NewTransferOk(p, sender, now);
    assert w0.terminals - {CompletionId(sender, revision, p.wireId)} == map[];
    RR.StartOpens(decode, w0, sender, revision, p, now);
    RR.ReportRuns(decode, w1, view, [], k, sender, T.Start, w2);
    states := [w0, w1, w2];
  }

  /**
   The placeholder is needed: this run of two callbacks leaves a transfer at rest, yet no pass ever publishes a request
   for it, and an ordinary pass a minute later gives it up. Only another packet of its sender can save it.
   */
  lemma UnannouncedIsNeverAsked(decode: T.Decoder, names: P.Names, session: nat, sender: ParticipantKey, revision: nat,
                                p: T.Packet, now: int, view: QtView, text: string) returns (states: seq<Receiver>)
    requires P.Known(names, sender) && T.WellFormed(p) && !p.isChunk && !Current(view, sender)
    requires p.meta.totalChunks == SliceCount(|text|)
    ensures RR.Run(decode, session, states, StartUnseen(sender, revision, p, now, view))
    ensures var w, k := states[2], Key(session, sender.generation, sender.incarnation, revision, p.wireId);
            && Resting(names, w, k, text, p.meta) && !Announced(w, k)
            && (forall pass, w' :: PassRuns(decode, sender, pass, w, w') ==> !AskedSince(w', |w.outbox|, k))
            && (forall pass: Pass, w' ::
                  !pass.force && pass.now - now >= RECOVERY_TIMEOUT && PassRuns(decode, sender, pass, w, w') ==>
                    k !in w'.transfers)
  {
    hide T.WellFormed, UiTransferId, CompletionId, PassRuns, Decide, SliceCount;
    states := StartIsDropped(decode, session, sender, revision, p, now, view);
    var w, k := states[2], Key(session, sender.generation, sender.incarnation, revision, p.wireId);
    RR.NewTransferOk(p, sender, now);
    assert Resting(names, w, k, text, p.meta);
    forall pass, w' | PassRuns(decode, sender, pass, w, w') ensures !AskedSince(w', |w.outbox|, k) {
      PassMeaning(decode, names, pass, w, w', k, text, p.meta);
    }
    forall pass: Pass, w' | !pass.force && pass.now - now >= RECOVERY_TIMEOUT && PassRuns(decode, sender, pass, w, w')
      ensures k !in w'.transfers
    {
      LostIsGivenUp(decode, names, pass, w, w', k);
    }
  }
}
