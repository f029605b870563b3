/**
 What each operation of the assembler comes to (src/core/data_stream_assembler.cpp), in plain arithmetic: none of its
 unsigned sums and differences wraps around in a reachable state.
 */
module AssemblerOutcomes {
  import opened Bytes
  import opened Options
  import opened Sizes
  import opened Totals
  import opened Assembler

  /** The streams that have been idle for less than their time to live, unaltered. */
  ghost predicate OnlyIdleGo(limits: Limits, s: State, now: int, s': State) {
    && (forall id :: id in s'.streams <==> id in s.streams && now - s.streams[id].lastActivity < limits.ttl)
    && (forall id :: id in s'.streams ==> s'.streams[id] == s.streams[id])
    && s'.nextCleanup == now + limits.cleanupInterval
  }

  /** A purge takes the idle streams, and nothing else; the implicit one runs at first and when it is due. */
  lemma PurgeMeaning(limits: Limits, s: State, now: int)
    requires Inv(limits, s)
    ensures OnlyIdleGo(limits, s, now, Purge(limits, s, now)) && Inv(limits, Purge(limits, s, now))
    ensures if s.nextCleanup == 0 || now >= s.nextCleanup then MaybePurge(limits, s, now) == Purge(limits, s, now)
            else MaybePurge(limits, s, now) == s
  {
    hide StreamOk, Received, Total, Wrap;
    PurgeKeepsInv(limits, s, now);
  }

  /** The streams and the bytes without one of them. */
  ghost predicate Without(s: State, id: string, s': State) {
    && s'.streams == s.streams - {id} && s'.nextCleanup == s.nextCleanup
    && s'.buffered == s.buffered - if id in s.streams then s.streams[id].received else 0
  }

  lemma EraseMeaning(limits: Limits, s: State, id: string)
    requires Inv(limits, s)
    ensures Without(s, id, if id in s.streams then Erase(s, id) else s)
  {
    hide Inv;
    if id in s.streams { EraseKeepsInv(limits, s, id); } else { assert s.streams - {id} == s.streams; }
  }

  /**
   A Begin succeeds if and only if it names a stream, its length is positive and within the limit, and once idle streams
   and a stream of the same id are gone there is room for one more. Then the new stream is there, empty, beside the
   others. A Begin that is wrong in itself changes nothing; one that finds no room has still cleaned up.
   */
  lemma BeginMeaning(limits: Limits, s: State, op: Operation)
    requires Inv(limits, s) && op.Begin?
    ensures var (s', ok) := BeginStream(limits, s, op);
            var swept := MaybePurge(limits, s, op.now);
            if op.id == "" || op.totalLength == 0 || op.totalLength > limits.maxStreamSize then s' == s && !ok
            else
              && (ok <==> |swept.streams - {op.id}| < limits.maxStreams)
              && exists cleared ::
                   && Without(swept, op.id, cleared)
                   && s' == if !ok then cleared
                            else cleared.(streams := cleared.streams[op.id :=
                                   Stream(op.topic, op.totalLength, op.identity, op.sid, op.now, map[], 0)])
  {
    hide Inv, MaybePurge, Without;
    var swept := MaybePurge(limits, s, op.now);
    MaybePurgeKeepsInv(limits, s, op.now);
    EraseMeaning(limits, swept, op.id);
    var cleared := if op.id in swept.streams then Erase(swept, op.id) else swept;
    assert Without(swept, op.id, cleared);
    ClearedStreams(swept, op.id, cleared);
  }

  lemma ClearedStreams(s: State, id: string, s': State)
    requires Without(s, id, s')
    ensures s'.streams == s.streams - {id}
  {
  }

  /** All the bytes announced have come, in chunks 0 to n-1. */
  predicate Whole(x: Stream) {
    x.received == x.totalLength && |x.chunks| > 0 && forall i :: 0 <= i < |x.chunks| ==> i in x.chunks
  }

  /**
   What becomes of a chunk. Nothing for a stream that is not there, or a chunk that is; the stream is dropped if it has
   been idle too long or if the chunk is one too many or exceeds the bytes announced or buffered; otherwise the chunk is
   kept, unless it makes the stream whole, which is then given back in order and dropped.
   */
  lemma AddMeaning(limits: Limits, s: State, id: string, index: nat, content: Span, now: int)
    requires Inv(limits, s)
    ensures var (s', payload) := AddToStream(limits, s, id, index, content, now);
            var swept := MaybePurge(limits, s, now);
            if id !in swept.streams then s' == swept && payload.None?
            else
              var x := swept.streams[id];
              if now - x.lastActivity >= limits.ttl then Without(swept, id, s') && payload.None?
              else if index in x.chunks then s' == swept && payload.None?
              else if |x.chunks| >= limits.maxChunksPerStream || x.received + |content| > x.totalLength
                      || swept.buffered + |content| > limits.maxBufferedBytes
              then Without(swept, id, s') && payload.None?
              else
                x.received + |content| <= SIZE_MAX
                && var more := x.(chunks := x.chunks[index := content], received := x.received + |content|,
                                  lastActivity := now);
                   if Whole(more) then
                     Without(swept, id, s') && Contiguous(more.chunks)
                     && payload == Some(Assembled(Concat(InOrder(more.chunks)), x.topic, x.identity, x.sid))
                   else
                     payload.None? && swept.buffered + |content| <= SIZE_MAX
                     && s' == swept.(streams := swept.streams[id := more], buffered := swept.buffered + |content|)
  {
    hide Inv, MaybePurge, ExceedsLimits, InOrder;
    var swept := MaybePurge(limits, s, now);
    MaybePurgeKeepsInv(limits, s, now);
    if id in swept.streams {
      EraseMeaning(limits, swept, id);
      var x := swept.streams[id];
      if index !in x.chunks {
        WithChunkOk(limits, swept, id, index, content, now);
        if !ExceedsLimits(limits, swept, x, content) {
          var more := WithChunk(x, index, content, now);
          AddedErased(limits, swept, id, index, content, now);
        }
      }
    }
  }

  /** A stream that is put back with one chunk more and then erased is gone with all its bytes. */
  lemma AddedErased(limits: Limits, s: State, id: string, index: nat, content: Span, now: int)
    requires Inv(limits, s) && id in s.streams && index !in s.streams[id].chunks
    requires !ExceedsLimits(limits, s, s.streams[id], content)
    ensures var more := WithChunk(s.streams[id], index, content, now);
            var s' := s.(streams := s.streams[id := more], buffered := SizeAdd(s.buffered, |content|));
            Without(s, id, Erase(s', id))
  {
    hide Total, Received, ChunkSizes;
    WithChunkOk(limits, s, id, index, content, now);
    ReceivedWithout(s.streams, id);
    assert s.streams[id := WithChunk(s.streams[id], index, content, now)] - {id} == s.streams - {id};
  }

  /** The end of a stream and its being discarded take it away and nothing else, and never give a payload. */
  lemma FinishMeaning(limits: Limits, s: State, id: string, now: int)
    requires Inv(limits, s)
    ensures var (s', payload) := Step(limits, s, Finish(id, now));
            payload.None? && Without(MaybePurge(limits, s, now), id, s')
    ensures var (s', payload) := Step(limits, s, Discard(id)); payload.None? && Without(s, id, s')
  {
    hide MaybePurge, Without, Total, Received, ChunkSizes;
    MaybePurgeKeepsInv(limits, s, now);
    EraseMeaning(limits, MaybePurge(limits, s, now), id);
    EraseMeaning(limits, s, id);
  }
}
