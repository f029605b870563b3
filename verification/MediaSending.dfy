/**
 How the sender gets on (src/core/meeting_coordinator.cpp): what each tick does, how a file goes out chunk by chunk
 until it is in the cache, how the queue fails outside a meeting, and what becomes of requests.
 */
module MediaSending {
  import opened Options
  import opened MediaKeys
  import opened MediaSlices
  import opened Totals
  import T = MediaTransfer
  import opened MediaSender
  import SR = MediaSenderRuns
  import A = MediaAnswers

  // ----- One tick of the first file -----

  /** The meeting is up, and there is room in the channel. */
  predicate Up(w: World) {
    w.room && w.inMeeting && !w.reconnecting && w.buffered <= BUFFER_LIMIT
  }

  /** Nothing can go out for now: the room reconnects, the channel is full, or the transport rejects. */
  predicate Waits(w: World) {
    w.room && (w.reconnecting || (w.inMeeting && (w.buffered > BUFFER_LIMIT || w.publication.Rejected?)))
  }

  /** The meeting is over for the sender. */
  predicate Outside(w: World) {
    !w.room || (!w.inMeeting && !w.reconnecting)
  }

  /** Chunk i of a file as everyone gets it. */
  function ChunkToAll(t: Task, i: nat): Wire {
    ToAll(T.Packet(true, t.transferId, t.meta, true, i, Slice(t.text, i)))
  }

  /**
   A tick without replays: an accepted chunk is the slice that was due, the next one is due then, and the last one
   leaves the file to be committed; a tick that waits changes nothing; an exception ends the file.
   */
  lemma TickMeaning(s: Sender, w: World)
    requires s.queue != [] && s.replays == [] && s.queue[0].currentChunk < s.queue[0].meta.totalChunks
    ensures var t := s.queue[0];
            && (Up(w) && w.publication.Accepted? ==>
                  OnTick(s, w) == s.(queue := [t.(currentChunk := t.currentChunk + 1)] + s.queue[1..],
                                     sent := s.sent + [ChunkToAll(t, t.currentChunk)],
                                     frames := if t.currentChunk + 1 == t.meta.totalChunks
                                               then s.frames + [Committing(t.transferId)] else s.frames))
            && (Waits(w) ==> OnTick(s, w) == s)
            && (Up(w) && w.publication.Threw? ==>
                  OnTick(s, w) == s.(queue := s.queue[1..], endings := s.endings + [Ending(t.transferId, false)]))
  {
    hide Slice;
  }

  /** A file that has gone out whole waits for its signal to return. */
  lemma TickOfWholeFile(s: Sender, w: World)
    requires s.queue != [] && s.replays == [] && s.queue[0].currentChunk >= s.queue[0].meta.totalChunks && !Outside(w)
    ensures OnTick(s, w) == s
  {
  }

  // ----- A file goes out -----

  /** The chunks of a file from one index up to another, in order. */
  function Chunks(t: Task, from: nat, to: nat): (wires: seq<Wire>)
    requires from <= to
    ensures |wires| == to - from && forall i :: 0 <= i < |wires| ==> wires[i] == ChunkToAll(t, from + i)
  {
    seq(to - from, i requires 0 <= i < to - from => ChunkToAll(t, from + i))
  }

  /** How many of these ticks the transport takes a chunk in. */
  function Taken(worlds: seq<World>): nat {
    if worlds == [] then 0 else (if Waits(worlds[0]) then 0 else 1) + Taken(worlds[1..])
  }

  predicate TakenOrWaits(worlds: seq<World>) {
    forall i :: 0 <= i < |worlds| ==> Waits(worlds[i]) || (Up(worlds[i]) && worlds[i].publication.Accepted?)
  }

  /** Any number of ticks, whichever of them wait: as many chunks go out, in order, as the transport takes. */
  lemma {:induction false} TicksSend(s: Sender, t: Task, worlds: seq<World>)
    requires s.queue != [] && s.queue[0] == t && s.replays == [] && TakenOrWaits(worlds)
    requires t.currentChunk + Taken(worlds) <= t.meta.totalChunks
    ensures var next := t.currentChunk + Taken(worlds);
            A.Ticks(s, worlds) == s.(queue := [t.(currentChunk := next)] + s.queue[1..],
                                     sent := s.sent + Chunks(t, t.currentChunk, next),
                                     frames := if t.currentChunk < next == t.meta.totalChunks
                                               then s.frames + [Committing(t.transferId)] else s.frames)
    decreases |worlds|
  {
    hide Up, Waits, OnTick, Slice, ChunkToAll, Chunks;
    if worlds == [] {
      assert [t] + s.queue[1..] == s.queue && s.sent + [] == s.sent;
    } else {
      var s1 := OnTick(s, worlds[0]);
      TickOnce(s, t, worlds[0]);
      assert TakenOrWaits(worlds[1..]);
      TicksSend(s1, s1.queue[0], worlds[1..]);
      assert s1.queue[1..] == s.queue[1..];
      if !Waits(worlds[0]) {
        var next := t.currentChunk + Taken(worlds);
        ChunksCons(t, s1.queue[0], t.currentChunk, next);
        assert s.sent + [ChunkToAll(t, t.currentChunk)] + Chunks(s1.queue[0], t.currentChunk + 1, next)
            == s.sent + Chunks(t, t.currentChunk, next);
      }
    }
  }

  lemma ChunksCons(t: Task, next: Task, from: nat, to: nat)
    requires from < to && next == t.(currentChunk := next.currentChunk)
    ensures [ChunkToAll(t, from)] + Chunks(next, from + 1, to) == Chunks(t, from, to)
  {
    hide Slice;
  }

  lemma TickOnce(s: Sender, t: Task, w: World)
    requires s.queue != [] && s.queue[0] == t && s.replays == []
    requires Waits(w) || (Up(w) && w.publication.Accepted? && t.currentChunk < t.meta.totalChunks)
    ensures if Waits(w) then OnTick(s, w) == s
            else OnTick(s, w) == s.(queue := [t.(currentChunk := t.currentChunk + 1)] + s.queue[1..],
                                    sent := s.sent + [ChunkToAll(t, t.currentChunk)],
                                    frames := if t.currentChunk + 1 == t.meta.totalChunks
                                              then s.frames + [Committing(t.transferId)] else s.frames)
  {
    if t.currentChunk < t.meta.totalChunks { TickMeaning(s, w); } else { TickOfWholeFile(s, w); }
  }

  /** A file that fits the cache and expires after all others stays in it. */
  lemma {:induction false} NewestStays(c: Cache, c': Cache, id: string)
    requires Trimmed(c, c') && id in c && 2 * |c[id].text| <= CACHE_BYTES
    requires forall other :: other in c && other != id ==> c[other].expiresAt < c[id].expiresAt
    ensures id in c' && c'[id] == c[id]
    decreases |c|
  {
    hide CacheBytes;
    if CacheBytes(c) > CACHE_BYTES || |c| > CACHE_FILES {
      var oldest :| Oldest(c, oldest) && Trimmed(c - {oldest}, c');
      if oldest == id {
        assert c == map[id := c[id]];
        BytesOfOne(c, id);
        assert false;
      } else {
        assert c.Keys == (c - {oldest}).Keys + {oldest};
        NewestStays(c - {oldest}, c', id);
      }
    }
  }

  lemma BytesOfOne(c: Cache, id: string)
    requires id in c && c == map[id := c[id]]
    ensures CacheBytes(c) == 2 * |c[id].text| && |c| == 1
  {
    hide Total;
    var sizes := map i | i in c :: 2 * |c[i].text|;
    var size: nat := 2 * |c[id].text|;
    assert sizes == map[id := size];
    TotalOfOne(id, size);
    assert c.Keys == {id};
  }

  lemma TotalOfOne(id: string, size: nat)
    ensures Total(map[id := size]) == size
  {
    var sizes := map[id := size];
    assert sizes - {id} == map[];
  }

  /**
   The signal of a finished file returns. If its session has ended or another file is first by then, nothing happens.
   Otherwise the file ends in success and moves to the cache; what is left there of others is unaltered and unexpired.
   */
  lemma CommitMeaning(s: Sender, i: nat, alive: bool, now: int, s': Sender)
    requires i < |s.frames| && s.frames[i].Committing? && Step(s, Resume(i, alive, now), s')
    ensures if !alive || s.queue == [] || s.queue[0].transferId != s.frames[i].id
            then s' == s.(frames := T.Without(s.frames, i))
            else
              var t := s.queue[0];
              && s' == s.(queue := s.queue[1..], cache := s'.cache, frames := T.Without(s.frames, i),
                          endings := s.endings + [Ending(t.transferId, true)])
              && (2 * |t.text| <= CACHE_BYTES
                  && (forall other :: other in s.cache && other != t.transferId ==>
                        s.cache[other].expiresAt < now + CACHE_LIFETIME) ==>
                    t.transferId in s'.cache && s'.cache[t.transferId] == t.(expiresAt := now + CACHE_LIFETIME))
              && (forall other :: other in s'.cache && other != t.transferId ==>
                    other in s.cache && s'.cache[other] == s.cache[other] && s.cache[other].expiresAt > now)
  {
    hide Trimmed, CacheBytes;
    if alive && s.queue != [] && s.queue[0].transferId == s.frames[i].id {
      var t := s.queue[0];
      var c := s.cache[t.transferId := t.(expiresAt := now + CACHE_LIFETIME)];
      SR.PrunedMeaning(c, now, s'.cache);
      if 2 * |t.text| <= CACHE_BYTES && forall other :: other in s.cache && other != t.transferId ==>
             s.cache[other].expiresAt < now + CACHE_LIFETIME
      {
        NewestStays(Live(c, now), s'.cache, t.transferId);
      }
    }
  }

  /**
   A file goes out: as many ticks take a chunk as it has, any others wait, and the last signal returns. Every chunk
   has been sent to everyone, once and in order, the file has ended once, in success, and if it fits and all others
   expire earlier it is in the cache for ten minutes.
   */
  lemma FileGoesOut(s: Sender, t: Task, worlds: seq<World>, now: int, s': Sender)
    requires s.queue != [] && s.queue[0] == t && s.replays == [] && t.currentChunk == 0
    requires TakenOrWaits(worlds) && Taken(worlds) == t.meta.totalChunks > 0
    requires Step(A.Ticks(s, worlds), Resume(|s.frames|, true, now), s')
    ensures s'.queue == s.queue[1..] && s'.replays == [] && s'.frames == s.frames && s'.submitted == s.submitted
    ensures s'.sent == s.sent + Chunks(t, 0, t.meta.totalChunks)
    ensures s'.endings == s.endings + [Ending(t.transferId, true)]
    ensures 2 * |t.text| <= CACHE_BYTES
            && (forall other :: other in s.cache && other != t.transferId ==>
                  s.cache[other].expiresAt < now + CACHE_LIFETIME) ==>
              t.transferId in s'.cache
              && s'.cache[t.transferId] == t.(currentChunk := t.meta.totalChunks, expiresAt := now + CACHE_LIFETIME)
  {
    hide OnTick, Slice, Pruned, Taken, TakenOrWaits, Step;
    var sent := A.Ticks(s, worlds);
    TicksSend(s, t, worlds);
    CommitMeaning(sent, |s.frames|, true, now, s');
    assert T.Without(sent.frames, |s.frames|) == s.frames;
    assert sent.queue[1..] == s.queue[1..];
  }

  /** From its submission to an idle sender on: its start first, then its chunks. */
  lemma SubmittedGoesOut(s: Sender, t: Task, accepted: bool, worlds: seq<World>, now: int, s1: Sender, s': Sender)
    requires s.queue == [] && s.replays == [] && Step(s, Submit(t, accepted), s1)
    requires TakenOrWaits(worlds) && Taken(worlds) == t.meta.totalChunks
    requires Step(A.Ticks(s1, worlds), Resume(|s.frames|, true, now), s')
    ensures s'.sent == s.sent + (if accepted then [ToAll(T.Packet(false, t.transferId, t.meta, true, -1, ""))] else [])
                       + Chunks(t, 0, t.meta.totalChunks)
    ensures s'.queue == [] && s'.endings == s.endings + [Ending(t.transferId, true)]
  {
    hide OnTick, Slice, Taken, TakenOrWaits, Pruned;
    assert s1.queue == [t] && s1.replays == [] && s1.frames == s.frames;
    assert t.meta.totalChunks > 0;
    FileGoesOut(s1, t, worlds, now, s');
    assert s.sent + [] == s.sent;
  }

  // ----- The queue fails -----

  /** So many files of the queue have failed, in order. */
  predicate FailedInOrder(s: Sender, n: nat, s': Sender) {
    && n <= |s.queue| && s'.queue == s.queue[n..] && s'.replays == []
    && |s'.endings| == |s.endings| + n && s.endings <= s'.endings
    && (forall i :: 0 <= i < n ==> s'.endings[|s.endings| + i] == Ending(s.queue[i].transferId, false))
    && s'.sent == s.sent && s'.cache == s.cache && s'.submitted == s.submitted
  }

  /** What remains of the loop is resumed, each time behind the signal of one failure. */
  ghost predicate FailsOn(s: Sender, resumes: seq<(bool, int)>, frame: nat, s': Sender)
    decreases |resumes|
  {
    if resumes == [] then s' == s
    else frame < |s.frames| && s.frames[frame] == FailingRest
         && exists mid :: Step(s, Resume(frame, resumes[0].0, resumes[0].1), mid)
                          && FailsOn(mid, resumes[1..], frame, s')
  }

  lemma FailedMore(s: Sender, n: nat, s1: Sender, s2: Sender)
    requires FailedInOrder(s, n, s1) && n < |s.queue|
    requires s2 == s1.(queue := s1.queue[1..], endings := s1.endings + [Ending(s1.queue[0].transferId, false)],
                       frames := s2.frames)
    ensures FailedInOrder(s, n + 1, s2)
  {
  }

  lemma {:induction false} FailureGoesOn(s: Sender, n: nat, s1: Sender, resumes: seq<(bool, int)>, s': Sender)
    requires FailedInOrder(s, n, s1) && n + |resumes| <= |s.queue|
    requires s1.frames == s.frames + [FailingRest] && FailsOn(s1, resumes, |s.frames|, s')
    ensures FailedInOrder(s, n + |resumes|, s') && s'.frames == s.frames + [FailingRest]
    decreases |resumes|
  {
    hide FailedInOrder;
    if resumes != [] {
      var frame := |s.frames|;
      var mid :| Step(s1, Resume(frame, resumes[0].0, resumes[0].1), mid) && FailsOn(mid, resumes[1..], frame, s');
      assert T.Without(s1.frames, frame) == s.frames;
      assert s1.queue == s.queue[n..] by { FailedQueue(s, n, s1); }
      FailedMore(s, n, s1, mid);
      FailureGoesOn(s, n + 1, mid, resumes[1..], s');
    }
  }

  lemma FailedQueue(s: Sender, n: nat, s1: Sender)
    requires FailedInOrder(s, n, s1)
    ensures n <= |s.queue| && s1.queue == s.queue[n..]
  {
  }

  /**
   Out of the meeting one tick, and what remains of it behind each signal, fails every queued file, once and in order,
   and drops the replays; nothing is sent. Behind the last signal nothing remains.
   */
  lemma QueueFails(s: Sender, w: World, resumes: seq<(bool, int)>, last: Sender, alive: bool, now: int, s': Sender)
    requires Outside(w) && s.queue != [] && |resumes| == |s.queue| - 1
    requires FailsOn(OnTick(s, w), resumes, |s.frames|, last) && |last.frames| == |s.frames| + 1
    requires Step(last, Resume(|s.frames|, alive, now), s')
    ensures FailedInOrder(s, |s.queue|, s') && s'.queue == [] && s'.frames == s.frames
  {
    var s1 := OnTick(s, w);
    assert FailedInOrder(s, 1, s1);
    FailureGoesOn(s, 1, s1, resumes, last);
    assert T.Without(last.frames, |s.frames|) == s.frames;
  }

  /** A session that ends fails every queued file, in order, and forgets replays and cache. */
  lemma {:induction false} LeaveMeaning(s: Sender)
    ensures var s' := OnLeave(s);
            FailedInOrder(s.(cache := map[]), |s.queue|, s') && s'.frames == s.frames && s'.queue == []
  {
    FailedEndingsMeaning(s.queue);
  }

  lemma {:induction false} FailedEndingsMeaning(queue: seq<Task>)
    ensures |FailedEndings(queue)| == |queue|
    ensures forall i :: 0 <= i < |queue| ==> FailedEndings(queue)[i] == Ending(queue[i].transferId, false)
  {
    if queue != [] { FailedEndingsMeaning(queue[1..]); }
  }

  // ----- Replays -----

  /** A file under this id is in the cache and has not expired, or is still queued. */
  predicate Known(s: Sender, id: string, now: int) {
    (id in s.cache && s.cache[id].expiresAt > now) || exists i :: 0 <= i < |s.queue| && s.queue[i].transferId == id
  }

  /** The cache comes before the queue, and in the queue the first file counts. */
  lemma SourceMeaning(s: Sender, id: string, now: int)
    ensures ReplaySource(s, id, now).Some? <==> Known(s, id, now)
    ensures id in s.cache && s.cache[id].expiresAt > now ==> ReplaySource(s, id, now) == Some(s.cache[id])
    ensures id !in s.cache || s.cache[id].expiresAt <= now ==> ReplaySource(s, id, now) == Find(s.queue, id)
  {
    hide Find;
    SR.FindAbsent(s.queue, id);
  }

  /**
   A tick that comes to the first replay drops it, and sends nothing, if its recipient is not current or it asks for
   nothing, if the file is not known, or if the recipient was not among its addressees. Otherwise it stays until the
   transport takes its least chunk, which then leaves it.
   */
  lemma ReplayMeaning(s: Sender, w: World)
    requires s.replays != [] && Up(w)
    ensures var r, rest := s.replays[0], s.replays[1..];
            var source := ReplaySource(s, r.transferId, w.now);
            if r.recipient !in w.current || r.chunks == {} || !Known(s, r.transferId, w.now)
               || (source.Some? && r.recipient.identity !in source.value.recipients)
            then OnTick(s, w) == s.(replays := rest)
            else if !w.publication.Accepted? then OnTick(s, w) == s
            else source.Some? && exists least ::
                   && IsLeast(least, r.chunks)
                   && var left := r.chunks - {least};
                      OnTick(s, w) == s.(
                        sent := s.sent + [ToOne(r.recipient.identity, ChunkToAll(source.value, least).packet)],
                        replays := if left == {} then rest else [r.(chunks := left)] + rest)
  {
    hide ReplaySource, Known, Slice, LeastFrom;
    var r := s.replays[0];
    SourceMeaning(s, r.transferId, w.now);
    if r.chunks != {} {
      var least := Least(r.chunks);
      assert IsLeast(least, r.chunks);
    }
  }

  // ----- Requests -----

  /** The file a request finds once the cache is pruned: a cached one, else the first queued one. */
  function Requested(s: Sender, c: Cache, id: string): Option<Task> {
    if id in c then Some(c[id]) else Find(s.queue, id)
  }

  /**
   A request that is not of a current participant with an identity, or has no proper id, or not 1 to 64 entries, changes
   nothing. Any other prunes the cache. An unknown file is said to be unavailable; a request by somebody the file was
   not sent to, or with an entry that is no index of the file, is ignored; any other is taken up as a replay.
   */
  lemma RequestMeaning(s: Sender, r: Request, sender: ParticipantKey, current: bool, accepted: bool, now: int,
                       s': Sender)
    requires Step(s, ResumeRequest(r, sender, current, accepted, now), s')
    ensures if !current || sender.identity == "" || r.id == "" || Utf16Size(r.id) > 256 || r.missing == []
               || |r.missing| > RECOVERY_BATCH
            then s' == s
            else
              && Pruned(s.cache, now, s'.cache)
              && var file := Requested(s, s'.cache, r.id);
                 if file.None? then
                   s' == s.(cache := s'.cache,
                            sent := s.sent + (if accepted then [Unavailable(sender.identity, r.id)] else []))
                 else if sender.identity !in file.value.recipients
                         || (exists i :: 0 <= i < |r.missing|
                                         && (r.missing[i].None?
                                             || !(0 <= r.missing[i].value < file.value.meta.totalChunks)))
                 then s' == s.(cache := s'.cache)
                 else s' == s.(cache := s'.cache, replays := s'.replays) && TakenUp(s.replays, r, sender, s'.replays)
  {
    hide Pruned, Find, AddReplay, Indices, TakenUp, Utf16Size;
    if current && sender.identity != "" && RequestOk(r) {
      var c: Cache :| Pruned(s.cache, now, c) && s' == OnRequest(s.(cache := c), r, sender, accepted);
      var file := Requested(s, c, r.id);
      assert s.sent + [] == s.sent;
      if file.Some? && IndicesOk(r.missing, file.value.meta.totalChunks) {
        assert r.missing[0].Some?;
        AddMeaning(s.(cache := c), r, sender, file.value.meta.totalChunks);
      }
    }
  }

  /** The replay of a file for a participant, by identity. */
  predicate IsFor(p: Replay, id: string, identity: string) {
    p.transferId == id && p.recipient.identity == identity
  }

  /** A request that finds no replay of its own: a new one comes last, unless there are 128. */
  ghost predicate Appended(replays: seq<Replay>, r: Request, sender: ParticipantKey, replays': seq<Replay>) {
    if |replays| >= MAXIMUM_REPLAYS then replays' == replays
    else
      && |replays'| == |replays| + 1 && replays <= replays'
      && var p := replays'[|replays|];
         p.transferId == r.id && p.recipient == sender && forall n: nat :: n in p.chunks <==> Some(n) in r.missing
  }

  /**
   A request that finds a replay: the sender's now, it holds what it held, unless that was for another incarnation, and
   what is asked for, up to 64 in all.
   */
  ghost predicate Extended(p: Replay, r: Request, sender: ParticipantKey, p': Replay) {
    && p'.transferId == r.id && p'.recipient == sender
    && var held := if p.recipient == sender then p.chunks else {};
       && held <= p'.chunks
       && (forall n: nat :: n in p'.chunks ==> n in held || Some(n) in r.missing)
       && (|held| <= RECOVERY_BATCH ==> |p'.chunks| <= RECOVERY_BATCH)
       && (|held| <= RECOVERY_BATCH && |p'.chunks| < RECOVERY_BATCH ==>
             forall n: nat :: Some(n) in r.missing ==> n in p'.chunks)
  }

  /** What a request does to the replays: the first one of this file for this identity, if any, is extended. */
  ghost predicate TakenUp(replays: seq<Replay>, r: Request, sender: ParticipantKey, replays': seq<Replay>) {
    if forall i :: 0 <= i < |replays| ==> !IsFor(replays[i], r.id, sender.identity)
    then Appended(replays, r, sender, replays')
    else exists i: nat, p: Replay :: i < |replays| && FirstFor(replays, i, r.id, sender.identity)
                                     && replays' == replays[i := p] && Extended(replays[i], r, sender, p)
  }

  predicate FirstFor(replays: seq<Replay>, i: nat, id: string, identity: string)
    requires i < |replays|
  {
    IsFor(replays[i], id, identity) && forall j :: 0 <= j < i ==> !IsFor(replays[j], id, identity)
  }

  lemma {:induction false} FindReplayMeaning(replays: seq<Replay>, id: string, identity: string)
    ensures var i := FindReplay(replays, id, identity);
            && (i < |replays| ==> IsFor(replays[i], id, identity))
            && forall j :: 0 <= j < i ==> !IsFor(replays[j], id, identity)
  {
    if replays != [] {
      FindReplayMeaning(replays[1..], id, identity);
      assert forall j :: 1 <= j < |replays| ==> replays[j] == replays[1..][j - 1];
    }
  }

  lemma IndicesAreNamed(r: Request, total: int)
    requires IndicesOk(r.missing, total)
    ensures forall n: nat :: n in Indices(r.missing) <==> Some(n) in r.missing
    ensures forall n: nat :: Some(n) in r.missing ==> n < total
  {
    forall n: nat | Some(n) in r.missing ensures n in Indices(r.missing) && n < total {
      var i :| 0 <= i < |r.missing| && r.missing[i] == Some(n);
      assert r.missing[i].value == n;
    }
  }

  lemma AddMeaning(s: Sender, r: Request, sender: ParticipantKey, total: nat)
    requires IndicesOk(r.missing, total)
    ensures var s' := AddReplay(s, r.id, sender, Indices(r.missing), total);
            s' == s.(replays := s'.replays) && TakenUp(s.replays, r, sender, s'.replays)
  {
    hide Merge, Indices, IndicesOk;
    var s', i := AddReplay(s, r.id, sender, Indices(r.missing), total), FindReplay(s.replays, r.id, sender.identity);
    IndicesAreNamed(r, total);
    FindReplayMeaning(s.replays, r.id, sender.identity);
    if i < |s.replays| {
      var held := if s.replays[i].recipient != sender then {} else s.replays[i].chunks;
      if |held| <= RECOVERY_BATCH { SR.MergeMeaning(held, Indices(r.missing), total); }
      MergeHolds(held, Indices(r.missing), total);
      var p := Replay(r.id, sender, Merge(held, Indices(r.missing), total));
      assert Extended(s.replays[i], r, sender, p);
      assert FirstFor(s.replays, i, r.id, sender.identity) && s'.replays == s.replays[i := p];
    } else {
      assert Appended(s.replays, r, sender, s'.replays);
    }
  }

  /** However much was held. */
  lemma {:induction false} MergeHolds(chunks: set<nat>, more: set<nat>, end: nat)
    ensures chunks <= Merge(chunks, more, end) <= chunks + more
  {
    if end > 0 { MergeHolds(chunks, more, end - 1); }
  }
}
