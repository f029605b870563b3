/** The sender's operations as they run: its queues and its cache, updated in place. */
module OutboundMedia {
  import opened Options
  import opened MediaKeys
  import opened MediaSlices
  import opened Totals
  import opened MediaSender

  function Sizes(c: Cache): map<string, nat> {
    map id | id in c :: 2 * |c[id].text|
  }

  lemma BytesRemove(c: Cache, id: string)
    requires id in c
    ensures CacheBytes(c) == 2 * |c[id].text| + CacheBytes(c - {id})
  {
    assert CacheBytes(c) == Total(Sizes(c));
    TotalRemove(Sizes(c), id);
    assert Sizes(c) - {id} == Sizes(c - {id});
  }

  lemma NoFiles()
    ensures CacheBytes(map[]) == 0
  {
    var none: Cache := map[];
    assert Sizes(none) == map[];
    assert CacheBytes(none) == Total(Sizes(none));
  }

  /** A cache over its bounds is not empty. */
  lemma SomeFile(c: Cache)
    requires CacheBytes(c) > CACHE_BYTES || |c| > CACHE_FILES
    ensures |c| > 0
  {
    NoFiles();
    assert |c| == 0 ==> c == map[];
  }

  /** The cache while the files of `rest` are still to be looked at, and those already counted. */
  function PartlyLive(c: Cache, rest: set<string>, now: int): Cache {
    map id | id in c && (id in rest || c[id].expiresAt > now) :: c[id]
  }

  function Counted(c: Cache, rest: set<string>, now: int): Cache {
    map id | id in c && id !in rest && c[id].expiresAt > now :: c[id]
  }

  lemma LiveEnds(c: Cache, now: int)
    ensures PartlyLive(c, c.Keys, now) == c && CacheBytes(Counted(c, c.Keys, now)) == 0
    ensures PartlyLive(c, {}, now) == Live(c, now) == Counted(c, {}, now)
  {
    NoFiles();
    assert Counted(c, c.Keys, now) == map[];
  }

  lemma LiveNext(c: Cache, rest: set<string>, id: string, now: int)
    requires id in rest && rest <= c.Keys
    ensures id in PartlyLive(c, rest, now) && PartlyLive(c, rest, now)[id] == c[id]
    ensures PartlyLive(c, rest - {id}, now)
         == (if c[id].expiresAt > now then PartlyLive(c, rest, now) else PartlyLive(c, rest, now) - {id})
    ensures CacheBytes(Counted(c, rest - {id}, now))
         == CacheBytes(Counted(c, rest, now)) + (if c[id].expiresAt > now then 2 * |c[id].text| else 0)
  {
    hide CacheBytes;
    if c[id].expiresAt > now {
      BytesRemove(Counted(c, rest - {id}, now), id);
      assert Counted(c, rest - {id}, now) - {id} == Counted(c, rest, now);
    } else {
      assert Counted(c, rest - {id}, now) == Counted(c, rest, now);
    }
  }

  /** std::min_element over the cached files, by when they expire. */
  method OldestFile(c: Cache) returns (oldest: string)
    requires |c| > 0
    ensures Oldest(c, oldest)
  {
    oldest :| oldest in c;
    var rest := c.Keys - {oldest};
    while rest != {}
      invariant oldest in c && rest <= c.Keys
      invariant forall id :: id in c && id !in rest ==> c[oldest].expiresAt <= c[id].expiresAt
      decreases |rest|
    {
      var id :| id in rest;
      if c[id].expiresAt < c[oldest].expiresAt { oldest := id; }
      rest := rest - {id};
    }
  }

  /** The indices of a request, in range and whole, or None. */
  method ReadIndices(missing: seq<Option<int>>, total: int) returns (chunks: Option<set<nat>>)
    ensures chunks == if IndicesOk(missing, total) then Some(Indices(missing)) else None
  {
    var read: set<nat> := {};
    for i := 0 to |missing|
      invariant IndicesOk(missing[..i], total) && read == Indices(missing[..i])
    {
      assert missing[..i + 1] == missing[..i] + [missing[i]];
      if missing[i].None? || missing[i].value < 0 || missing[i].value >= total { return None; }
      IndicesSnoc(missing[..i], missing[i].value);
      read := read + {missing[i].value};
    }
    assert missing[..|missing|] == missing;
    return Some(read);
  }

  lemma IndicesSnoc(missing: seq<Option<int>>, index: nat)
    ensures Indices(missing + [Some(index)]) == Indices(missing) + {index}
  {
    var more := missing + [Some(index)];
    assert more[|missing|] == Some(index);
    assert forall i :: 0 <= i < |missing| ==> more[i] == missing[i];
    forall n | n in Indices(missing) ensures n in Indices(more) {
      var i: nat :| i < |missing| && missing[i].Some? && missing[i].value == n;
      assert more[i].value == n;
    }
  }

  /** The loop that adds chunks to a replay in ascending order, until it holds a batch. */
  method MergeChunks(held: set<nat>, chunks: set<nat>, total: nat) returns (merged: set<nat>)
    ensures merged == Merge(held, chunks, total)
  {
    hide Merge;
    merged := held;
    var index := 0;
    MergeStart(held, chunks);
    while index < total
      invariant 0 <= index <= total && merged == Merge(held, chunks, index)
    {
      MergeNext(held, chunks, index);
      if index in chunks {
        if |merged| == RECOVERY_BATCH {
          FullStaysFull(held, chunks, index, total);
          return;
        }
        merged := merged + {index};
      }
      index := index + 1;
    }
  }

  lemma MergeStart(held: set<nat>, chunks: set<nat>)
    ensures Merge(held, chunks, 0) == held
  {
  }

  lemma MergeNext(held: set<nat>, chunks: set<nat>, index: nat)
    ensures var before := Merge(held, chunks, index);
            Merge(held, chunks, index + 1)
            == if index in chunks && |before| != RECOVERY_BATCH then before + {index} else before
  {
  }

  lemma {:induction false} FullStaysFull(held: set<nat>, chunks: set<nat>, index: nat, total: nat)
    requires index <= total && |Merge(held, chunks, index)| == RECOVERY_BATCH
    ensures Merge(held, chunks, total) == Merge(held, chunks, index)
    decreases total
  {
    if index < total {
      FullStaysFull(held, chunks, index, total - 1);
    }
  }

  class OutboundMedia {
    var queue: seq<Task>
    var replays: seq<Replay>
    var cache: Cache
    var frames: seq<Frame>
    ghost var submitted: map<string, Task>
    ghost var sent: seq<Wire>
    ghost var endings: seq<Ending>

    ghost function View(): Sender
      reads this
    {
      Sender(queue, replays, cache, frames, submitted, sent, endings)
    }

    constructor ()
      ensures View() == INITIAL
    {
      queue, replays, cache, frames := [], [], map[], [];
      submitted, sent, endings := map[], [], [];
    }

    /** sendChatMediaMessage: refused while keys recover, without data or out of a meeting. */
    method Submit(messageId: string, transferId: string, mediaType: string, fileName: string, data: seq<int>,
                  encode: seq<int> -> string, recipients: set<string>, recovering: bool, connected: bool,
                  accepted: bool)
      returns (queued: bool)
      modifies this
      ensures queued <==> !recovering && data != [] && connected
      ensures queued ==> View() == OnSubmit(old(View()), NewTask(messageId, transferId, mediaType, fileName, |data|,
                                                                 encode(data), recipients), accepted)
      ensures !queued ==> View() == old(View())
    {
      if recovering || data == [] || !connected { return false; }
      var text := encode(data);
      var t := NewTask(messageId, transferId, mediaType, fileName, |data|, text, recipients);
      if accepted { sent := sent + [ToAll(StartPacket(t))]; }
      submitted := submitted[transferId := t];
      queue := queue + [t];
      return true;
    }

    /** std::find_if over the queue. */
    method FindActive(id: string) returns (found: Option<Task>)
      ensures found == Find(queue, id)
    {
      for i := 0 to |queue|
        invariant Find(queue, id) == Find(queue[i..], id)
      {
        if queue[i].transferId == id { return Some(queue[i]); }
        assert queue[i..][1..] == queue[i + 1..];
      }
      return None;
    }

    method ReplayNext(w: World)
      requires replays != []
      modifies this
      ensures View() == TickReplay(old(View()), w)
    {
      var r := replays[0];
      if r.recipient !in w.current || r.chunks == {} { replays := replays[1..]; return; }
      var source: Option<Task> := None;
      if r.transferId in cache && cache[r.transferId].expiresAt > w.now { source := Some(cache[r.transferId]); }
      if source.None? { source := FindActive(r.transferId); }
      if source.None? || r.recipient.identity !in source.value.recipients { replays := replays[1..]; return; }
      var index := Least(r.chunks);
      if w.publication.Accepted? {
        sent := sent + [ToOne(r.recipient.identity, ChunkPacket(source.value, index))];
        var left := r.chunks - {index};
        replays := if left == {} then replays[1..] else [r.(chunks := left)] + replays[1..];
      }
    }

    method SendNext(w: World)
      requires queue != []
      modifies this
      ensures View() == TickFile(old(View()), w)
    {
      var t := queue[0];
      if t.currentChunk >= t.meta.totalChunks { return; }
      match w.publication
      case Threw =>
        queue := queue[1..];
        endings := endings + [Ending(t.transferId, false)];
      case Rejected =>
      case Accepted =>
        sent := sent + [ToAll(ChunkPacket(t, t.currentChunk))];
        var t' := t.(currentChunk := t.currentChunk + 1);
        queue := [t'] + queue[1..];
        if t'.currentChunk >= t'.meta.totalChunks { frames := frames + [Committing(t.transferId)]; }
    }

    method FailNext()
      modifies this
      ensures View() == FailFirst(old(View()))
    {
      if queue == [] { return; }
      endings := endings + [Ending(queue[0].transferId, false)];
      queue := queue[1..];
      frames := frames + [FailingRest];
    }

    /** processNextMediaSendChunk */
    method Tick(w: World)
      modifies this
      ensures View() == OnTick(old(View()), w)
    {
      if w.room && w.reconnecting { return; }
      if queue == [] && replays == [] { return; }
      if !w.room || !w.inMeeting {
        replays := [];
        FailNext();
        return;
      }
      if w.buffered > BUFFER_LIMIT { return; }
      if replays != [] { ReplayNext(w); } else { SendNext(w); }
    }

    /** pruneMediaSendCache: expired files first, counting the bytes of the rest, then the oldest. */
    method Prune(now: int)
      modifies this`cache
      ensures Pruned(old(cache), now, cache)
    {
      var bytes := ExpireFiles(now);
      ghost var live := cache;
      while bytes > CACHE_BYTES || |cache| > CACHE_FILES
        invariant bytes == CacheBytes(cache)
        invariant forall c: Cache :: Trimmed(cache, c) ==> Trimmed(live, c)
        decreases |cache|
      {
        SomeFile(cache);
        var oldest := OldestFile(cache);
        BytesRemove(cache, oldest);
        bytes := bytes - 2 * |cache[oldest].text|;
        ghost var before := cache;
        cache := cache - {oldest};
        assert before.Keys == cache.Keys + {oldest};
        assert forall c: Cache :: Trimmed(cache, c) ==> Trimmed(before, c);
      }
      assert Trimmed(cache, cache);
    }

    method ExpireFiles(now: int) returns (bytes: nat)
      modifies this`cache
      ensures cache == Live(old(cache), now) && bytes == CacheBytes(cache)
    {
      hide CacheBytes, PartlyLive, Counted;
      bytes := 0;
      var rest := cache.Keys;
      ghost var before := cache;
      LiveEnds(before, now);
      while rest != {}
        invariant rest <= before.Keys && cache == PartlyLive(before, rest, now)
        invariant bytes == CacheBytes(Counted(before, rest, now))
        decreases |rest|
      {
        var id :| id in rest;
        LiveNext(before, rest, id, now);
        rest := rest - {id};
        if cache[id].expiresAt <= now {
          cache := cache - {id};
        } else {
          bytes := bytes + 2 * |cache[id].text|;
        }
      }
    }

    /** What is left of a callback when the event loop inside its signal returns. */
    method ResumeFrame(i: nat, alive: bool, now: int)
      requires i < |frames|
      modifies this
      ensures Step(old(View()), Resume(i, alive, now), View())
    {
      hide Pruned;
      var f := frames[i];
      frames := frames[..i] + frames[i + 1..];
      match f
      case FailingRest => FailNext();
      case Committing(id) =>
        if !alive || queue == [] || queue[0].transferId != id { return; }
        cache := cache[id := queue[0].(expiresAt := now + CACHE_LIFETIME)];
        queue := queue[1..];
        Prune(now);
        endings := endings + [Ending(id, true)];
    }

    /** handleMediaResumeRequest */
    method HandleRequest(r: Request, sender: ParticipantKey, current: bool, accepted: bool, now: int)
      modifies this
      ensures Step(old(View()), ResumeRequest(r, sender, current, accepted, now), View())
    {
      hide Pruned, Utf16Size, Find, IndicesOk, Indices, AddReplay;
      if !current || sender.identity == "" || !RequestOk(r) { return; }
      Prune(now);
      var source := None;
      if r.id in cache { source := Some(cache[r.id]); } else { source := FindActive(r.id); }
      if source.None? {
        if accepted { sent := sent + [Unavailable(sender.identity, r.id)]; }
        return;
      }
      if sender.identity !in source.value.recipients { return; }
      var chunks := ReadIndices(r.missing, source.value.meta.totalChunks);
      if chunks.Some? {
        SomeIndex(r.missing, source.value.meta.totalChunks);
        QueueReplay(r.id, sender, chunks.value, source.value.meta.totalChunks);
      }
    }

    lemma SomeIndex(missing: seq<Option<int>>, total: int)
      requires missing != [] && IndicesOk(missing, total)
      ensures total > 0
    {
      assert missing[0].Some?;
    }

    method QueueReplay(id: string, sender: ParticipantKey, chunks: set<nat>, total: nat)
      modifies this`replays
      ensures View() == AddReplay(old(View()), id, sender, chunks, total)
    {
      var i := 0;
      while i < |replays| && !(replays[i].transferId == id && replays[i].recipient.identity == sender.identity)
        invariant i <= |replays|
        invariant FindReplay(replays, id, sender.identity) == i + FindReplay(replays[i..], id, sender.identity)
      {
        assert replays[i..][1..] == replays[i + 1..];
        i := i + 1;
      }
      if i < |replays| {
        var held := if replays[i].recipient != sender then {} else replays[i].chunks;
        var merged := MergeChunks(held, chunks, total);
        replays := replays[i := Replay(id, sender, merged)];
      } else if |replays| < MAXIMUM_REPLAYS {
        replays := replays + [Replay(id, sender, chunks)];
      }
    }

    /** The end of the session: every queued file ends, and nothing stays to be replayed. */
    method EndSession()
      modifies this
      ensures View() == OnLeave(old(View()))
    {
      ghost var before := endings;
      for i := 0 to |queue|
        invariant View() == old(View()).(endings := endings)
        invariant endings + FailedEndings(queue[i..]) == before + FailedEndings(queue)
      {
        assert queue[i..][1..] == queue[i + 1..];
        endings := endings + [Ending(queue[i].transferId, false)];
      }
      queue, cache, replays := [], map[], [];
    }
  }
}
