/**
 Whole runs of the media sender. Every packet that goes out is a true part of its file; every file is
 queued or has ended, once; and a file that ended in success has gone out whole, in order.
 */
module MediaSenderRuns {
  import opened Options
  import opened MediaKeys
  import opened MediaSlices
  import opened Picks
  import T = MediaTransfer
  import opened MediaSender

  // ----- One file -----

  function Range(n: nat): seq<int> {
    if n == 0 then [] else Range(n - 1) + [n - 1]
  }

  /** The chunk index of a packet that went to everyone. */
  function BroadcastOf(d: string): Wire -> Option<int> {
    (w: Wire) => if w.ToAll? && w.packet.isChunk && w.packet.wireId == d then Some(w.packet.index) else None
  }

  function EndingOf(d: string): Ending -> Option<bool> {
    (e: Ending) => if e.id == d then Some(e.success) else None
  }

  /** The indices broadcast for a file, in order, and how it ended. */
  function Broadcasts(s: Sender, d: string): seq<int> {
    Pick(s.sent, BroadcastOf(d))
  }

  function Endings(s: Sender, d: string): seq<bool> {
    Pick(s.endings, EndingOf(d))
  }

  function Queued(s: Sender, d: string): Option<Task> {
    Find(s.queue, d)
  }

  predicate SameFile(t: Task, o: Task) {
    t.(currentChunk := o.currentChunk, expiresAt := o.expiresAt) == o
  }

  predicate SubmittedOk(t: Task, d: string) {
    t.transferId == d && t.text != "" && t.meta.totalChunks == SliceCount(|t.text|)
  }

  predicate FileOk(s: Sender, d: string) {
    var t, ends, broadcast := Queued(s, d), Endings(s, d), Broadcasts(s, d);
    if d !in s.submitted then t.None? && ends == [] && broadcast == [] && d !in s.cache && Committing(d) !in s.frames
    else
      var o := s.submitted[d];
      && SubmittedOk(o, d)
      && (t.Some? ==> ends == [] && SameFile(t.value, o) && t.value.currentChunk <= o.meta.totalChunks
                      && broadcast == Range(t.value.currentChunk)
                      && (Committing(d) in s.frames ==> t.value.currentChunk == o.meta.totalChunks))
      && (t.None? ==> |ends| == 1)
      && (ends == [true] ==> broadcast == Range(SliceCount(|o.text|)))
      && (d in s.cache ==> ends == [true] && SameFile(s.cache[d], o))
  }

  predicate DistinctIds(queue: seq<Task>) {
    forall i, j :: 0 <= i < j < |queue| ==> queue[i].transferId != queue[j].transferId
  }

  // ----- The queue -----

  lemma {:induction false} FindSnoc(queue: seq<Task>, t: Task, d: string)
    ensures Find(queue + [t], d)
         == if Find(queue, d).Some? then Find(queue, d) else if t.transferId == d then Some(t) else None
  {
    if queue == [] {
      assert queue + [t] == [t];
    } else {
      assert (queue + [t])[1..] == queue[1..] + [t];
      FindSnoc(queue[1..], t, d);
    }
  }

  lemma {:induction false} FindAbsent(queue: seq<Task>, d: string)
    ensures Find(queue, d).None? <==> forall i :: 0 <= i < |queue| ==> queue[i].transferId != d
  {
    if queue != [] {
      FindAbsent(queue[1..], d);
      assert forall i :: 1 <= i < |queue| ==> queue[i] == queue[1..][i - 1];
    }
  }

  /** Only the first task of a queue with distinct ids is found under its id. */
  lemma FindTail(queue: seq<Task>, d: string)
    requires queue != [] && DistinctIds(queue)
    ensures Find(queue[1..], d) == if queue[0].transferId == d then None else Find(queue, d)
    ensures DistinctIds(queue[1..])
  {
    FindAbsent(queue[1..], d);
  }

  lemma {:induction false} FailedEndingsOf(queue: seq<Task>, d: string)
    requires DistinctIds(queue)
    ensures Pick(FailedEndings(queue), EndingOf(d)) == if Find(queue, d).Some? then [false] else []
  {
    if queue != [] {
      FindTail(queue, d);
      FailedEndingsOf(queue[1..], d);
      assert FailedEndings(queue)[1..] == FailedEndings(queue[1..]);
    }
  }

  // ----- Every operation keeps every file in order -----

  predicate FilesOk(s: Sender, d: string) {
    DistinctIds(s.queue) && FileOk(s, d)
  }

  lemma SubmitKeeps(s: Sender, op: Operation, d: string)
    requires op.Submit? && Allowed(s, op) && FilesOk(s, d) && FileOk(s, op.task.transferId)
    ensures FilesOk(OnSubmit(s, op.task, op.accepted), d)
  {
    hide Find, Pick;
    FindSnoc(s.queue, op.task, d);
    FindAbsent(s.queue, op.task.transferId);
    PickSnoc(s.sent, ToAll(StartPacket(op.task)), BroadcastOf(d));
  }

  lemma TickReplayKeeps(s: Sender, w: World, d: string)
    requires FilesOk(s, d) && s.replays != []
    ensures FilesOk(TickReplay(s, w), d)
  {
    hide Find, Pick, Slice;
    var r := s.replays[0];
    var source := ReplaySource(s, r.transferId, w.now);
    if source.Some? && r.chunks != {} {
      PickSnoc(s.sent, ToOne(r.recipient.identity, ChunkPacket(source.value, Least(r.chunks))), BroadcastOf(d));
    }
  }

  lemma FirstFails(s: Sender, frames: seq<Frame>, d: string)
    requires FilesOk(s, d) && s.queue != [] && (Committing(d) in frames ==> Committing(d) in s.frames)
    ensures FilesOk(s.(queue := s.queue[1..], endings := s.endings + [Ending(s.queue[0].transferId, false)],
                       frames := frames), d)
  {
    hide Pick, SliceCount;
    FindTail(s.queue, d);
    PickSnoc(s.endings, Ending(s.queue[0].transferId, false), EndingOf(d));
    assert d == s.queue[0].transferId ==> Queued(s, d) == Some(s.queue[0]);
    assert [] + [false] == [false];
  }

  lemma TickFileKeeps(s: Sender, w: World, d: string)
    requires s.queue != [] && FilesOk(s, d) && FileOk(s, s.queue[0].transferId)
    ensures FilesOk(TickFile(s, w), d)
  {
    hide Pick, SliceCount, Slice;
    var t := s.queue[0];
    FindTail(s.queue, d);
    if w.publication.Threw? {
      FirstFails(s, s.frames, d);
    } else {
      PickSnoc(s.sent, ToAll(ChunkPacket(t, t.currentChunk)), BroadcastOf(d));
    }
  }

  lemma CommittedKeeps(s: Sender, id: string, now: int, d: string)
    requires FilesOk(s, d) && Commits(s, id, true) && FileOk(s, id) && Committing(id) in s.frames
    ensures FilesOk(Committed(s, id, now), d)
  {
    hide Pick, SliceCount;
    FindTail(s.queue, d);
    PickSnoc(s.endings, Ending(id, true), EndingOf(d));
    assert d == id ==> Queued(s, d) == Some(s.queue[0]);
  }

  lemma FewerFrames(s: Sender, frames: seq<Frame>, d: string)
    requires FilesOk(s, d) && (Committing(d) in frames ==> Committing(d) in s.frames)
    ensures FilesOk(s.(frames := frames), d)
  {
  }

  lemma SmallerCache(s: Sender, c: Cache, d: string)
    requires FilesOk(s, d) && (d in c ==> d in s.cache && c[d] == s.cache[d])
    ensures FilesOk(s.(cache := c), d)
  {
  }

  lemma OnlyReplays(s: Sender, replays: seq<Replay>, more: seq<Wire>, d: string)
    requires FilesOk(s, d) && Pick(more, BroadcastOf(d)) == []
    ensures FilesOk(s.(replays := replays, sent := s.sent + more), d)
  {
    hide Pick;
    PickConcat(s.sent, more, BroadcastOf(d));
  }

  lemma RequestKeeps(s: Sender, r: Request, sender: ParticipantKey, accepted: bool, d: string)
    requires FilesOk(s, d) && r.missing != []
    ensures FilesOk(OnRequest(s, r, sender, accepted), d)
  {
    hide FilesOk, Merge, Indices, IndicesOk;
    var s' := OnRequest(s, r, sender, accepted);
    var more := [Unavailable(sender.identity, r.id)];
    PickOne(more[0], BroadcastOf(d));
    PickNone<Wire, int>(BroadcastOf(d));
    OnlyReplays(s, s'.replays, [], d);
    OnlyReplays(s, s.replays, more, d);
    assert s.sent + [] == s.sent;
  }

  lemma LeaveKeeps(s: Sender, d: string)
    requires FilesOk(s, d)
    ensures FilesOk(OnLeave(s), d)
  {
    hide Pick, SliceCount, FailedEndings;
    FailedEndingsOf(s.queue, d);
    PickConcat(s.endings, FailedEndings(s.queue), EndingOf(d));
    assert [] + [false] == [false] && Endings(s, d) + [] == Endings(s, d);
  }

  lemma {:induction false} TrimmedMeaning(c: Cache, c': Cache)
    requires Trimmed(c, c')
    ensures forall id :: id in c' ==> id in c && c'[id] == c[id]
    ensures CacheBytes(c') <= CACHE_BYTES && |c'| <= CACHE_FILES
    decreases |c|
  {
    if CacheBytes(c) > CACHE_BYTES || |c| > CACHE_FILES {
      var id :| Oldest(c, id) && Trimmed(c - {id}, c');
      assert c.Keys == (c - {id}).Keys + {id};
      TrimmedMeaning(c - {id}, c');
    }
  }

  /** What leaves the cache is expired, or no younger than anything that stays. */
  lemma {:induction false} OldestLeave(c: Cache, c': Cache, gone: string, kept: string)
    requires Trimmed(c, c') && gone in c && gone !in c' && kept in c'
    ensures kept in c && c[gone].expiresAt <= c[kept].expiresAt
    decreases |c|
  {
    TrimmedMeaning(c, c');
    if CacheBytes(c) > CACHE_BYTES || |c| > CACHE_FILES {
      var id :| Oldest(c, id) && Trimmed(c - {id}, c');
      assert c.Keys == (c - {id}).Keys + {id};
      TrimmedMeaning(c - {id}, c');
      if id != gone { OldestLeave(c - {id}, c', gone, kept); }
    }
  }

  lemma PrunedMeaning(c: Cache, now: int, c': Cache)
    requires Pruned(c, now, c')
    ensures forall id :: id in c' ==> id in c && c'[id] == c[id] && c'[id].expiresAt > now
    ensures CacheBytes(c') <= CACHE_BYTES && |c'| <= CACHE_FILES
  {
    hide Trimmed, CacheBytes;
    TrimmedMeaning(Live(c, now), c');
  }

  /** The file an operation is about, besides the one looked at. */
  function Subject(s: Sender, op: Operation): string {
    match op
    case Submit(t, _) => t.transferId
    case Resume(i, _, _) => if i < |s.frames| && s.frames[i].Committing? then s.frames[i].id else ""
    case _ => if s.queue != [] then s.queue[0].transferId else ""
  }

  lemma ResumeKeeps(s: Sender, op: Operation, s': Sender, d: string)
    requires op.Resume? && Step(s, op, s') && FilesOk(s, d) && FilesOk(s, Subject(s, op))
    ensures FilesOk(s', d)
  {
    hide FilesOk, Find, Pruned, FileOk;
    WithoutIsIn(s.frames, op.frame, Committing(d));
    if s.frames[op.frame].FailingRest? {
      var s1 := DropFrame(s, op.frame);
      FewerFrames(s, s1.frames, d);
      if s.queue != [] { FirstFails(s1, s1.frames + [FailingRest], d); }
    } else if Commits(s, s.frames[op.frame].id, op.alive) {
      var id := s.frames[op.frame].id;
      FilesAre(s, id);
      assert s.frames[op.frame] == Committing(id);
      CommittedKeeps(s, id, op.now, d);
      var c := Committed(s, id, op.now);
      FewerFrames(c, T.Without(s.frames, op.frame), d);
      var c' := c.(frames := T.Without(s.frames, op.frame));
      PrunedMeaning(c'.cache, op.now, s'.cache);
      SmallerCache(c', s'.cache, d);
    } else {
      FewerFrames(s, T.Without(s.frames, op.frame), d);
    }
  }

  lemma WithoutIsIn<X>(q: seq<X>, i: nat, x: X)
    requires i < |q|
    ensures x in T.Without(q, i) ==> x in q
  {
  }

  /** Every operation keeps every file in order. */
  lemma StepKeepsFiles(s: Sender, op: Operation, s': Sender, d: string)
    requires Step(s, op, s') && FilesOk(s, d) && FilesOk(s, Subject(s, op))
    ensures FilesOk(s', d)
  {
    hide FilesOk, FileOk, Find, Pruned, OnSubmit, TickReplay, TickFile, OnRequest, OnLeave;
    match op
    case Submit(t, accepted) => FilesAre(s, t.transferId); SubmitKeeps(s, op, d);
    case Tick(w) =>
      var s1 := s.(replays := []);
      OnlyReplays(s, [], [], d);
      PickNone<Wire, int>(BroadcastOf(d));
      assert s.sent + [] == s.sent;
      if s.queue != [] {
        FirstFails(s1, s1.frames + [FailingRest], d);
        FilesAre(s, s.queue[0].transferId);
        TickFileKeeps(s, w, d);
      }
      if s.replays != [] { TickReplayKeeps(s, w, d); }
    case Resume(_, _, _) => ResumeKeeps(s, op, s', d);
    case ResumeRequest(r, sender, current, accepted, now) =>
      if current && sender.identity != "" && RequestOk(r) {
        var c: Cache :| Pruned(s.cache, now, c) && s' == OnRequest(s.(cache := c), r, sender, accepted);
        PrunedMeaning(s.cache, now, c);
        SmallerCache(s, c, d);
        RequestKeeps(s.(cache := c), r, sender, accepted, d);
      }
    case Prune(now) =>
      PrunedMeaning(s.cache, now, s'.cache);
      SmallerCache(s, s'.cache, d);
    case Leave => LeaveKeeps(s, d);
  }

  lemma FilesAre(s: Sender, d: string)
    requires FilesOk(s, d)
    ensures FileOk(s, d) && DistinctIds(s.queue)
  {
  }

  // ----- Packets and replays -----

  /** The start of a submitted file, or one of its slices. */
  predicate PacketOf(submitted: map<string, Task>, p: T.Packet) {
    && p.wireId in submitted
    && var o := submitted[p.wireId];
       p == StartPacket(o) || (p.isChunk && 0 <= p.index < o.meta.totalChunks && p == ChunkPacket(o, p.index))
  }

  predicate WireOk(submitted: map<string, Task>, w: Wire) {
    match w
    case ToAll(p) => PacketOf(submitted, p)
    case ToOne(identity, p) => PacketOf(submitted, p) && p.isChunk && identity in submitted[p.wireId].recipients
    case Unavailable(_, _) => true
  }

  predicate ReplayOk(submitted: map<string, Task>, r: Replay) {
    && r.transferId in submitted && |r.chunks| <= RECOVERY_BATCH
    && forall n :: n in r.chunks ==> n < submitted[r.transferId].meta.totalChunks
  }

  predicate TrafficOk(s: Sender) {
    && (forall i :: 0 <= i < |s.sent| ==> WireOk(s.submitted, s.sent[i]))
    && |s.replays| <= MAXIMUM_REPLAYS
    && (forall i :: 0 <= i < |s.replays| ==> ReplayOk(s.submitted, s.replays[i]))
  }

  ghost predicate AllFiles(s: Sender) {
    forall d: string :: FilesOk(s, d)
  }

  lemma {:induction false} FoundId(queue: seq<Task>, id: string)
    ensures Find(queue, id).Some? ==> Find(queue, id).value.transferId == id
  {
    if queue != [] { FoundId(queue[1..], id); }
  }

  /** What a replay or a request finds under an id is that file. */
  lemma SourceIsFile(s: Sender, id: string)
    requires AllFiles(s)
    ensures id in s.cache ==> id in s.submitted && SameFile(s.cache[id], s.submitted[id])
    ensures Find(s.queue, id).Some? ==> id in s.submitted && SameFile(Find(s.queue, id).value, s.submitted[id])
    ensures id in s.submitted ==> s.submitted[id].transferId == id
                                  && s.submitted[id].meta.totalChunks == SliceCount(|s.submitted[id].text|)
  {
    hide Find, Pick, SliceCount;
    assert FilesOk(s, id);
  }

  lemma ReplayTraffic(s: Sender, w: World)
    requires AllFiles(s) && TrafficOk(s) && s.replays != []
    ensures TrafficOk(TickReplay(s, w))
  {
    hide Find, AllFiles, Slice, SliceCount;
    var r := s.replays[0];
    assert ReplayOk(s.submitted, r);
    SourceIsFile(s, r.transferId);
    var source := ReplaySource(s, r.transferId, w.now);
    if r.recipient in w.current && r.chunks != {} && source.Some?
       && r.recipient.identity in source.value.recipients && w.publication.Accepted?
    {
      var index := Least(r.chunks);
      assert r.chunks == (r.chunks - {index}) + {index};
      assert WireOk(s.submitted, ToOne(r.recipient.identity, ChunkPacket(source.value, index)));
    }
  }

  lemma FileTraffic(s: Sender, w: World)
    requires AllFiles(s) && TrafficOk(s) && s.queue != []
    ensures TrafficOk(TickFile(s, w))
  {
    hide AllFiles, Slice, SliceCount, ReplayOk;
    var t := s.queue[0];
    SourceIsFile(s, t.transferId);
    assert Find(s.queue, t.transferId) == Some(t);
    if t.currentChunk < t.meta.totalChunks {
      assert WireOk(s.submitted, ToAll(ChunkPacket(t, t.currentChunk)));
    }
  }

  lemma SubmitTraffic(s: Sender, op: Operation)
    requires op.Submit? && Allowed(s, op) && TrafficOk(s)
    ensures TrafficOk(OnSubmit(s, op.task, op.accepted))
  {
    hide Slice, SliceCount;
    var after := s.submitted[op.task.transferId := op.task];
    assert WireOk(after, ToAll(StartPacket(op.task)));
    forall i | 0 <= i < |s.sent| ensures WireOk(after, s.sent[i]) {
      assert WireOk(s.submitted, s.sent[i]);
    }
    forall i | 0 <= i < |s.replays| ensures ReplayOk(after, s.replays[i]) {
      assert ReplayOk(s.submitted, s.replays[i]);
    }
  }

  lemma {:induction false} MergeMeaning(chunks: set<nat>, more: set<nat>, end: nat)
    requires |chunks| <= RECOVERY_BATCH
    ensures |Merge(chunks, more, end)| <= RECOVERY_BATCH
    ensures chunks <= Merge(chunks, more, end) <= chunks + more
    ensures |Merge(chunks, more, end)| < RECOVERY_BATCH ==>
              forall n :: n in more && n < end ==> n in Merge(chunks, more, end)
    ensures forall n :: n in Merge(chunks, more, end) && n !in chunks ==> n < end
    ensures var merged := Merge(chunks, more, end);
            forall n, m :: n in merged && n !in chunks && m in more && m !in merged && m < end ==> n < m
  {
    if end > 0 {
      MergeMeaning(chunks, more, end - 1);
      hide Merge;
      MergeStep(chunks, more, end);
    }
  }

  lemma MergeStep(chunks: set<nat>, more: set<nat>, end: nat)
    requires end > 0
    ensures var before := Merge(chunks, more, end - 1);
            Merge(chunks, more, end)
            == if end - 1 in more && |before| != RECOVERY_BATCH then before + {end - 1} else before
  {
  }

  lemma {:induction false} IndicesSize(missing: seq<Option<int>>)
    ensures |Indices(missing)| <= |missing|
  {
    if missing == [] {
      assert Indices(missing) == {};
    } else {
      var front, last := missing[..|missing| - 1], missing[|missing| - 1];
      IndicesSize(front);
      var extra: set<nat> := if last.Some? && last.value >= 0 then {last.value as nat} else {};
      assert Indices(missing) == Indices(front) + extra;
    }
  }

  lemma AddTraffic(s: Sender, id: string, sender: ParticipantKey, chunks: set<nat>)
    requires TrafficOk(s) && id in s.submitted && |chunks| <= RECOVERY_BATCH && s.submitted[id].meta.totalChunks >= 0
    requires forall n :: n in chunks ==> n < s.submitted[id].meta.totalChunks
    ensures TrafficOk(AddReplay(s, id, sender, chunks, s.submitted[id].meta.totalChunks))
  {
    hide Merge, WireOk;
    var i, total := FindReplay(s.replays, id, sender.identity), s.submitted[id].meta.totalChunks;
    FoundReplay(s.replays, id, sender.identity);
    if i < |s.replays| {
      var held := if s.replays[i].recipient != sender then {} else s.replays[i].chunks;
      assert ReplayOk(s.submitted, s.replays[i]);
      MergeMeaning(held, chunks, total);
      assert ReplayOk(s.submitted, Replay(id, sender, Merge(held, chunks, total)));
    } else {
      assert ReplayOk(s.submitted, Replay(id, sender, chunks));
    }
  }

  lemma RequestTraffic(s: Sender, r: Request, sender: ParticipantKey, accepted: bool)
    requires AllFiles(s) && TrafficOk(s) && RequestOk(r)
    ensures TrafficOk(OnRequest(s, r, sender, accepted))
  {
    hide AllFiles, SliceCount, Find, AddReplay, Utf16Size, PacketOf, ReplayOk;
    SourceIsFile(s, r.id);
    IndicesSize(r.missing);
    var source := if r.id in s.cache then Some(s.cache[r.id]) else Find(s.queue, r.id);
    if source.Some? && IndicesOk(r.missing, source.value.meta.totalChunks) {
      AddTraffic(s, r.id, sender, Indices(r.missing));
    }
  }

  lemma {:induction false} FoundReplay(replays: seq<Replay>, id: string, identity: string)
    ensures var i := FindReplay(replays, id, identity);
            i < |replays| ==> replays[i].transferId == id && replays[i].recipient.identity == identity
  {
    if replays != [] { FoundReplay(replays[1..], id, identity); }
  }

  // ----- Runs -----

  ghost predicate SenderOk(s: Sender) {
    AllFiles(s) && TrafficOk(s) && CacheBytes(s.cache) <= CACHE_BYTES && |s.cache| <= CACHE_FILES
  }

  lemma InitiallyOk()
    ensures SenderOk(INITIAL)
  {
    assert (map id | id in INITIAL.cache :: 2 * |INITIAL.cache[id].text|) == map[];
  }

  lemma StepTraffic(s: Sender, op: Operation, s': Sender)
    requires AllFiles(s) && TrafficOk(s) && Step(s, op, s')
    ensures TrafficOk(s')
  {
    hide AllFiles, FilesOk, WireOk, ReplayOk, Find, Pruned, OnSubmit, TickReplay, TickFile, OnRequest;
    match op
    case Submit(t, accepted) => SubmitTraffic(s, op);
    case Tick(w) =>
      if s.queue != [] { FileTraffic(s, w); }
      if s.replays != [] { ReplayTraffic(s, w); }
    case ResumeRequest(r, sender, current, accepted, now) =>
      if current && sender.identity != "" && RequestOk(r) {
        var c: Cache :| Pruned(s.cache, now, c) && s' == OnRequest(s.(cache := c), r, sender, accepted);
        var s1 := s.(cache := c);
        CacheKeepsFiles(s, c, now);
        RequestTraffic(s1, r, sender, accepted);
      }
    case _ =>
  }

  lemma CacheKeepsFiles(s: Sender, c: Cache, now: int)
    requires AllFiles(s) && Pruned(s.cache, now, c)
    ensures AllFiles(s.(cache := c))
  {
    hide FilesOk, Pruned;
    PrunedMeaning(s.cache, now, c);
    forall d: string ensures FilesOk(s.(cache := c), d) {
      SmallerCache(s, c, d);
    }
  }

  lemma StepBounded(s: Sender, op: Operation, s': Sender)
    requires CacheBytes(s.cache) <= CACHE_BYTES && |s.cache| <= CACHE_FILES && Step(s, op, s')
    ensures CacheBytes(s'.cache) <= CACHE_BYTES && |s'.cache| <= CACHE_FILES
  {
    hide CacheBytes, Find, Pruned, OnSubmit, OnRequest;
    assert CacheBytes(map[]) <= CACHE_BYTES by { NoBytes(); }
    match op
    case Submit(t, accepted) => assert s'.cache == s.cache by { SubmitCache(s, t, accepted); }
    case ResumeRequest(r, sender, current, accepted, now) =>
      if current && sender.identity != "" && RequestOk(r) {
        var c: Cache :| Pruned(s.cache, now, c) && s' == OnRequest(s.(cache := c), r, sender, accepted);
        PrunedMeaning(s.cache, now, c);
        RequestCache(s.(cache := c), r, sender, accepted);
      }
    case Resume(i, alive, now) =>
      if s.frames[i].Committing? && Commits(s, s.frames[i].id, alive) {
        PrunedMeaning(Committed(DropFrame(s, i), s.frames[i].id, now).cache, now, s'.cache);
      }
    case Prune(now) => PrunedMeaning(s.cache, now, s'.cache);
    case _ =>
  }

  lemma NoBytes()
    ensures CacheBytes(map[]) == 0
  {
    var none: Cache := map[];
    assert (map id | id in none :: 2 * |none[id].text|) == map[];
  }

  lemma SubmitCache(s: Sender, t: Task, accepted: bool)
    ensures OnSubmit(s, t, accepted).cache == s.cache
  {
  }

  lemma RequestCache(s: Sender, r: Request, sender: ParticipantKey, accepted: bool)
    requires r.missing != []
    ensures OnRequest(s, r, sender, accepted).cache == s.cache
  {
  }

  ghost predicate Run(states: seq<Sender>, ops: seq<Operation>) {
    && |states| == |ops| + 1 && states[0] == INITIAL
    && forall i :: 0 <= i < |ops| ==> Step(states[i], ops[i], states[i + 1])
  }

  lemma {:induction false} RunKeeps(states: seq<Sender>, ops: seq<Operation>, n: nat)
    requires Run(states, ops) && n <= |ops|
    ensures SenderOk(states[n])
  {
    hide AllFiles, TrafficOk, CacheBytes, Step;
    if n == 0 {
      InitiallyOk();
    } else {
      RunKeeps(states, ops, n - 1);
      var s, op, s' := states[n - 1], ops[n - 1], states[n];
      StepTraffic(s, op, s');
      StepBounded(s, op, s');
      StepAllFiles(s, op, s');
    }
  }

  lemma StepAllFiles(s: Sender, op: Operation, s': Sender)
    requires AllFiles(s) && Step(s, op, s')
    ensures AllFiles(s')
  {
    hide FilesOk, Step;
    forall d: string ensures FilesOk(s', d) {
      StepKeepsFiles(s, op, s', d);
    }
  }

  /**
   A submitted file is queued or has ended, exactly once; if it ended in success, its chunks have been
   broadcast from the first to the last, each once, in order.
   */
  lemma EveryFileEndsOnce(states: seq<Sender>, ops: seq<Operation>, d: string)
    requires Run(states, ops)
    ensures var s := states[|ops|];
            d in s.submitted ==>
              && (if Queued(s, d).Some? then Endings(s, d) == [] else |Endings(s, d)| == 1)
              && (Endings(s, d) == [true] ==> Broadcasts(s, d) == Range(SliceCount(|s.submitted[d].text|)))
  {
    hide TrafficOk, CacheBytes, Step, Pick, Find, SliceCount;
    RunKeeps(states, ops, |ops|);
    assert FilesOk(states[|ops|], d);
  }

  /** Everything sent for a file is its start or one of its slices, and replays go to those it was sent to. */
  lemma EveryPacketIsTrue(states: seq<Sender>, ops: seq<Operation>, i: nat)
    requires Run(states, ops) && i < |states[|ops|].sent|
    ensures WireOk(states[|ops|].submitted, states[|ops|].sent[i])
  {
    hide AllFiles, CacheBytes, Step, WireOk;
    RunKeeps(states, ops, |ops|);
  }

  /** The cache and the replays stay within their bounds. */
  lemma SenderIsBounded(states: seq<Sender>, ops: seq<Operation>)
    requires Run(states, ops)
    ensures var s := states[|ops|];
            && CacheBytes(s.cache) <= CACHE_BYTES && |s.cache| <= CACHE_FILES && |s.replays| <= MAXIMUM_REPLAYS
            && forall i :: 0 <= i < |s.replays| ==> |s.replays[i].chunks| <= RECOVERY_BATCH
  {
    hide AllFiles, CacheBytes, Step;
    RunKeeps(states, ops, |ops|);
    var s := states[|ops|];
    forall i | 0 <= i < |s.replays| ensures |s.replays[i].chunks| <= RECOVERY_BATCH {
      assert ReplayOk(s.submitted, s.replays[i]);
    }
  }
}
