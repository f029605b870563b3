/** IncomingDataStreamAssembler (src/core/data_stream_assembler.cpp). Times are clock ticks. */
module Assembler {
  import opened Bytes
  import opened Options
  import opened Sizes
  import opened StreamChunks
  import opened Totals

  /** The bytes of one packet: a span, whose size is a size_t. */
  type Span = c: Chunk | |c| <= SIZE_MAX

  datatype Limits = Limits(maxStreams: nat, maxStreamSize: size, maxBufferedBytes: size, maxChunksPerStream: nat,
                           ttl: nat, cleanupInterval: nat)

  datatype Stream = Stream(topic: string, totalLength: size, identity: string, sid: string, lastActivity: int,
                           chunks: map<nat, Chunk>, received: size)

  datatype Assembled = Assembled(payload: Chunk, topic: string, identity: string, sid: string)

  /** The fields of the assembler. */
  datatype State = State(streams: map<string, Stream>, buffered: size, nextCleanup: int)

  const EMPTY := State(map[], 0, 0)

  // ----- Completeness and payload -----

  /** Chunks 0 to n-1 and no others are present. */
  predicate Contiguous(chunks: map<nat, Chunk>) {
    forall i :: 0 <= i < |chunks| ==> i in chunks
  }

  predicate IsComplete(stream: Stream) {
    stream.received == stream.totalLength && stream.chunks != map[] && Contiguous(stream.chunks)
  }

  /** The chunks in index order. */
  function InOrder(chunks: map<nat, Chunk>): seq<Chunk>
    requires Contiguous(chunks)
  {
    seq(|chunks|, i requires 0 <= i < |chunks| => chunks[i])
  }

  function Finished(stream: Stream): Assembled
    requires Contiguous(stream.chunks)
  {
    Assembled(Concat(InOrder(stream.chunks)), stream.topic, stream.identity, stream.sid)
  }

  // ----- The operations -----

  function Erase(s: State, id: string): State
    requires id in s.streams
  {
    s.(buffered := SizeSub(s.buffered, s.streams[id].received), streams := s.streams - {id})
  }

  predicate IsExpired(limits: Limits, stream: Stream, now: int) {
    now - stream.lastActivity >= limits.ttl
  }

  function Expired(limits: Limits, streams: map<string, Stream>, now: int): map<string, Stream> {
    map id | id in streams && IsExpired(limits, streams[id], now) :: streams[id]
  }

  function Kept(limits: Limits, streams: map<string, Stream>, now: int): map<string, Stream> {
    map id | id in streams && !IsExpired(limits, streams[id], now) :: streams[id]
  }

  function Received(streams: map<string, Stream>): map<string, nat> {
    map id | id in streams :: streams[id].received
  }

  function ChunkSizes(chunks: map<nat, Chunk>): map<nat, nat> {
    map i | i in chunks :: |chunks[i]|
  }

  ghost function Purge(limits: Limits, s: State, now: int): State {
    State(Kept(limits, s.streams, now),
          SizeSub(s.buffered, Wrap(Total(Received(Expired(limits, s.streams, now))))),
          now + limits.cleanupInterval)
  }

  ghost function MaybePurge(limits: Limits, s: State, now: int): State {
    if s.nextCleanup == 0 || now >= s.nextCleanup then Purge(limits, s, now) else s
  }

  datatype Operation =
    | Begin(id: string, topic: string, totalLength: nat, identity: string, sid: string, now: int)
    | AddChunk(id: string, index: nat, content: Span, now: int)
    | Finish(id: string, now: int)
    | PurgeExpired(now: int)
    | Discard(id: string)

  ghost function BeginStream(limits: Limits, s0: State, op: Operation): (State, bool)
    requires op.Begin?
  {
    if op.id == "" || op.totalLength == 0 || op.totalLength > limits.maxStreamSize then (s0, false)
    else
      var s1 := MaybePurge(limits, s0, op.now);
      var s := if op.id in s1.streams then Erase(s1, op.id) else s1;
      if |s.streams| >= limits.maxStreams then (s, false)
      else
        var stream := Stream(op.topic, op.totalLength, op.identity, op.sid, op.now, map[], 0);
        (s.(streams := s.streams[op.id := stream]), true)
  }

  predicate ExceedsLimits(limits: Limits, s: State, stream: Stream, content: Span) {
    || |stream.chunks| >= limits.maxChunksPerStream
    || |content| > SizeSub(stream.totalLength, stream.received)
    || |content| > SizeSub(limits.maxBufferedBytes, s.buffered)
  }

  function WithChunk(stream: Stream, index: nat, content: Span, now: int): Stream {
    stream.(chunks := stream.chunks[index := content],
            received := SizeAdd(stream.received, |content|), lastActivity := now)
  }

  ghost function AddToStream(limits: Limits, s0: State, id: string, index: nat, content: Span, now: int)
    : (State, Option<Assembled>)
  {
    var s := MaybePurge(limits, s0, now);
    if id !in s.streams then (s, None)
    else
      var stream := s.streams[id];
      if IsExpired(limits, stream, now) then (Erase(s, id), None)
      else if index in stream.chunks then (s, None)
      else if ExceedsLimits(limits, s, stream, content) then (Erase(s, id), None)
      else
        var stream' := WithChunk(stream, index, content, now);
        var s' := s.(streams := s.streams[id := stream'], buffered := SizeAdd(s.buffered, |content|));
        if IsComplete(stream') then (Erase(s', id), Some(Finished(stream'))) else (s', None)
  }

  ghost function FinishStream(limits: Limits, s0: State, id: string, now: int): (State, Option<Assembled>) {
    var s := MaybePurge(limits, s0, now);
    if id !in s.streams then (s, None)
    else if !IsComplete(s.streams[id]) then (Erase(s, id), None)
    else (Erase(s, id), Some(Finished(s.streams[id])))
  }

  /** One operation: the state afterwards and the payload it returns, if it returns one. */
  ghost function Step(limits: Limits, s: State, op: Operation): (State, Option<Assembled>) {
    match op
    case Begin(_, _, _, _, _, _) => (BeginStream(limits, s, op).0, None)
    case AddChunk(id, index, content, now) => AddToStream(limits, s, id, index, content, now)
    case Finish(id, now) => FinishStream(limits, s, id, now)
    case PurgeExpired(now) => (Purge(limits, s, now), None)
    case Discard(id) => (if id in s.streams then Erase(s, id) else s, None)
  }

  ghost function Run(limits: Limits, s: State, ops: seq<Operation>): State
    decreases |ops|
  {
    if ops == [] then s else Run(limits, Step(limits, s, ops[0]).0, ops[1..])
  }

  // ----- Accounting -----

  ghost predicate StreamOk(limits: Limits, stream: Stream) {
    && stream.received == Total(ChunkSizes(stream.chunks))
    && stream.received <= stream.totalLength <= limits.maxStreamSize
    && 0 < stream.totalLength
    && |stream.chunks| <= limits.maxChunksPerStream
    && !IsComplete(stream)
  }

  /** Every counter is the sum it stands for, every limit holds, and no stored stream is complete. */
  ghost predicate Inv(limits: Limits, s: State) {
    && s.buffered == Total(Received(s.streams))
    && s.buffered <= limits.maxBufferedBytes
    && |s.streams| <= limits.maxStreams
    && (forall id :: id in s.streams ==> StreamOk(limits, s.streams[id]))
  }

  lemma ReceivedWithout(streams: map<string, Stream>, id: string)
    requires id in streams
    ensures Total(Received(streams)) == streams[id].received + Total(Received(streams - {id}))
  {
    TotalRemove(Received(streams), id);
    assert Received(streams) - {id} == Received(streams - {id});
  }

  lemma SubMapSize<K, V>(small: map<K, V>, big: map<K, V>)
    requires small.Keys <= big.Keys
    ensures |small| <= |big|
  {
    SubSetSize(small.Keys, big.Keys);
  }

  lemma {:induction false} SubSetSize<K>(small: set<K>, big: set<K>)
    requires small <= big
    ensures |small| <= |big|
  {
    assert big == small + (big - small);
  }

  /** The subtractions of EraseLocked do not wrap around. */
  lemma EraseKeepsInv(limits: Limits, s: State, id: string)
    requires Inv(limits, s) && id in s.streams
    ensures Inv(limits, Erase(s, id))
    ensures Erase(s, id).buffered == s.buffered - s.streams[id].received
  {
    ReceivedWithout(s.streams, id);
    SubMapSize(s.streams - {id}, s.streams);
  }

  lemma PurgeTotals(limits: Limits, streams: map<string, Stream>, now: int)
    ensures Total(Received(streams))
         == Total(Received(Expired(limits, streams, now))) + Total(Received(Kept(limits, streams, now)))
  {
    var gone, all := Expired(limits, streams, now), Received(streams);
    TotalSplit(all, gone.Keys);
    assert Received(gone) == map id | id in all && id in gone.Keys :: all[id];
    assert Received(Kept(limits, streams, now)) == map id | id in all && id !in gone.Keys :: all[id];
  }

  lemma PurgeKeepsInv(limits: Limits, s: State, now: int)
    requires Inv(limits, s)
    ensures Inv(limits, Purge(limits, s, now))
    ensures Purge(limits, s, now).buffered == s.buffered - Total(Received(Expired(limits, s.streams, now)))
  {
    hide StreamOk, Received, Total, Wrap;
    PurgeTotals(limits, s.streams, now);
    SubMapSize(Kept(limits, s.streams, now), s.streams);
    WrapSmall(Total(Received(Expired(limits, s.streams, now))));
  }

  lemma MaybePurgeKeepsInv(limits: Limits, s: State, now: int)
    requires Inv(limits, s)
    ensures Inv(limits, MaybePurge(limits, s, now))
  {
    PurgeKeepsInv(limits, s, now);
  }

  lemma NewStreamKeepsInv(limits: Limits, s: State, id: string, stream: Stream)
    requires Inv(limits, s) && id !in s.streams && |s.streams| < limits.maxStreams
    requires stream.chunks == map[] && stream.received == 0 && 0 < stream.totalLength <= limits.maxStreamSize
    ensures Inv(limits, s.(streams := s.streams[id := stream]))
  {
    hide StreamOk, Total, Received;
    NewStreamTotals(s.streams, id, stream);
    FreshStreamOk(limits, stream);
    assert s.streams[id := stream].Keys == s.streams.Keys + {id};
  }

  lemma FreshStreamOk(limits: Limits, stream: Stream)
    requires stream.chunks == map[] && stream.received == 0 && 0 < stream.totalLength <= limits.maxStreamSize
    ensures StreamOk(limits, stream)
  {
    assert ChunkSizes(map[]) == map[];
  }

  lemma NewStreamTotals(streams: map<string, Stream>, id: string, stream: Stream)
    requires id !in streams
    ensures Total(Received(streams[id := stream])) == Total(Received(streams)) + stream.received
  {
    TotalPut(Received(streams), id, stream.received);
    assert Received(streams[id := stream]) == Received(streams)[id := stream.received];
  }

  lemma BeginKeepsInv(limits: Limits, s0: State, op: Operation)
    requires Inv(limits, s0) && op.Begin?
    ensures Inv(limits, BeginStream(limits, s0, op).0)
  {
    hide Inv;
    var s1 := MaybePurge(limits, s0, op.now);
    MaybePurgeKeepsInv(limits, s0, op.now);
    if op.id in s1.streams { EraseKeepsInv(limits, s1, op.id); }
    if BeginStream(limits, s0, op).1 {
      var s := if op.id in s1.streams then Erase(s1, op.id) else s1;
      NewStreamKeepsInv(limits, s, op.id, Stream(op.topic, op.totalLength, op.identity, op.sid, op.now, map[], 0));
    }
  }

  lemma PutChunkTotals(streams: map<string, Stream>, id: string, index: nat, content: Span, now: int)
    requires id in streams && index !in streams[id].chunks
    ensures var stream := streams[id];
            var stream' := WithChunk(stream, index, content, now);
            && Total(ChunkSizes(stream'.chunks)) == Total(ChunkSizes(stream.chunks)) + |content|
            && |stream'.chunks| == |stream.chunks| + 1
            && Total(Received(streams[id := stream'])) + stream.received == Total(Received(streams)) + stream'.received
  {
    var stream := streams[id];
    var stream' := WithChunk(stream, index, content, now);
    TotalPut(ChunkSizes(stream.chunks), index, |content|);
    assert ChunkSizes(stream'.chunks) == ChunkSizes(stream.chunks)[index := |content|];
    TotalPut(Received(streams), id, stream'.received);
    assert Received(streams[id := stream']) == Received(streams)[id := stream'.received];
    assert stream'.chunks.Keys == stream.chunks.Keys + {index};
  }

  /** The additions and subtractions of AddChunk do not wrap around, and its tests are what they say. */
  lemma WithChunkOk(limits: Limits, s: State, id: string, index: nat, content: Span, now: int)
    requires Inv(limits, s) && id in s.streams && index !in s.streams[id].chunks
    ensures var stream := s.streams[id];
            && (ExceedsLimits(limits, s, stream, content) <==>
                  || |stream.chunks| >= limits.maxChunksPerStream
                  || stream.received + |content| > stream.totalLength
                  || s.buffered + |content| > limits.maxBufferedBytes)
            && (!ExceedsLimits(limits, s, stream, content) ==>
                  && var stream' := WithChunk(stream, index, content, now);
                     && stream'.received == stream.received + |content|
                     && stream'.received == Total(ChunkSizes(stream'.chunks))
                     && stream'.received <= stream'.totalLength
                     && |stream'.chunks| == |stream.chunks| + 1
                     && SizeAdd(s.buffered, |content|) == s.buffered + |content| <= limits.maxBufferedBytes
                     && Total(Received(s.streams[id := stream'])) == s.buffered + |content|)
  {
    hide Total, Received, ChunkSizes, IsComplete;
    assert StreamOk(limits, s.streams[id]);
    PutChunkTotals(s.streams, id, index, content, now);
  }

  lemma AddKeepsInv(limits: Limits, s0: State, id: string, index: nat, content: Span, now: int)
    requires Inv(limits, s0)
    ensures Inv(limits, AddToStream(limits, s0, id, index, content, now).0)
  {
    hide Total, Received, ChunkSizes;
    var s := MaybePurge(limits, s0, now);
    MaybePurgeKeepsInv(limits, s0, now);
    if id in s.streams {
      EraseKeepsInv(limits, s, id);
      var stream := s.streams[id];
      if !IsExpired(limits, stream, now) && index !in stream.chunks && !ExceedsLimits(limits, s, stream, content) {
        WithChunkOk(limits, s, id, index, content, now);
        var stream' := WithChunk(stream, index, content, now);
        var s' := s.(streams := s.streams[id := stream'], buffered := SizeAdd(s.buffered, |content|));
        assert s'.streams - {id} == s.streams - {id};
        assert s'.streams.Keys == s.streams.Keys;
        if IsComplete(stream') {
          ReceivedWithout(s'.streams, id);
          ReceivedWithout(s.streams, id);
        }
      }
    }
  }

  lemma StepKeepsInv(limits: Limits, s: State, op: Operation)
    requires Inv(limits, s)
    ensures Inv(limits, Step(limits, s, op).0)
  {
    match op
    case Begin(_, _, _, _, _, _) => BeginKeepsInv(limits, s, op);
    case AddChunk(id, index, content, now) => AddKeepsInv(limits, s, id, index, content, now);
    case Finish(id, now) =>
      MaybePurgeKeepsInv(limits, s, now);
      if id in MaybePurge(limits, s, now).streams { EraseKeepsInv(limits, MaybePurge(limits, s, now), id); }
    case PurgeExpired(now) => PurgeKeepsInv(limits, s, now);
    case Discard(id) => if id in s.streams { EraseKeepsInv(limits, s, id); }
  }

  /** In every reachable state: the accounting is exact and all four limits hold. */
  lemma {:induction false} Accounting(limits: Limits, s: State, ops: seq<Operation>)
    requires Inv(limits, s)
    ensures Inv(limits, Run(limits, s, ops))
    decreases |ops|
  {
    if ops != [] {
      StepKeepsInv(limits, s, ops[0]);
      Accounting(limits, Step(limits, s, ops[0]).0, ops[1..]);
    }
  }

  lemma EmptyInv(limits: Limits)
    ensures Inv(limits, EMPTY)
  {
    assert Received(map[]) == map[];
  }

  /** So every unsigned subtraction in the code gives the difference: none wraps around. */
  lemma NoUnderflow(limits: Limits, ops: seq<Operation>, id: string)
    requires id in Run(limits, EMPTY, ops).streams
    ensures var s := Run(limits, EMPTY, ops);
            && SizeSub(s.streams[id].totalLength, s.streams[id].received)
              == s.streams[id].totalLength - s.streams[id].received
            && SizeSub(limits.maxBufferedBytes, s.buffered) == limits.maxBufferedBytes - s.buffered
            && SizeSub(s.buffered, s.streams[id].received) == s.buffered - s.streams[id].received
  {
    EmptyInv(limits);
    Accounting(limits, EMPTY, ops);
    EraseKeepsInv(limits, Run(limits, EMPTY, ops), id);
  }

  /** No stored stream is complete, so Finish never returns a payload: it can only discard. */
  lemma FinishOnlyDiscards(limits: Limits, ops: seq<Operation>, id: string, now: int)
    ensures var (s, payload) := Step(limits, Run(limits, EMPTY, ops), Finish(id, now));
            payload.None? && id !in s.streams
  {
    hide Total, Received, ChunkSizes;
    EmptyInv(limits);
    Accounting(limits, EMPTY, ops);
    MaybePurgeKeepsInv(limits, Run(limits, EMPTY, ops), now);
  }

  // ----- One payload for each Begin -----

  ghost function BeginsOf(limits: Limits, s: State, ops: seq<Operation>, id: string): nat
    decreases |ops|
  {
    if ops == [] then 0
    else
      (if ops[0].Begin? && ops[0].id == id && BeginStream(limits, s, ops[0]).1 then 1 else 0)
      + BeginsOf(limits, Step(limits, s, ops[0]).0, ops[1..], id)
  }

  ghost function PayloadsOf(limits: Limits, s: State, ops: seq<Operation>, id: string): nat
    decreases |ops|
  {
    if ops == [] then 0
    else
      (if (ops[0].AddChunk? || ops[0].Finish?) && ops[0].id == id && Step(limits, s, ops[0]).1.Some? then 1 else 0)
      + PayloadsOf(limits, Step(limits, s, ops[0]).0, ops[1..], id)
  }

  function Present(s: State, id: string): nat {
    if id in s.streams then 1 else 0
  }

  /** Over any run, a stream id yields no more payloads than it had successful Begins. */
  lemma {:induction false} AtMostOnePayload(limits: Limits, s: State, ops: seq<Operation>, id: string)
    ensures PayloadsOf(limits, s, ops, id) + Present(Run(limits, s, ops), id)
         <= BeginsOf(limits, s, ops, id) + Present(s, id)
    decreases |ops|
  {
    if ops != [] {
      StepPresence(limits, s, ops[0], id);
      AtMostOnePayload(limits, Step(limits, s, ops[0]).0, ops[1..], id);
    }
  }

  lemma StepPresence(limits: Limits, s: State, op: Operation, id: string)
    ensures var (s', payload) := Step(limits, s, op);
            && (payload.Some? && op.id == id ==>
                  (op.AddChunk? || op.Finish?) && Present(s, id) == 1 && Present(s', id) == 0)
            && (Present(s', id) <= Present(s, id) || (op.Begin? && op.id == id && BeginStream(limits, s, op).1))
  {
  }

  // ----- Idle streams -----

  /** The clock an operation reads, if it reads one. */
  function ClockAt(op: Operation, before: int): int {
    if op.Discard? then before else op.now
  }

  predicate ClockNeverFalls(ops: seq<Operation>, start: int)
    decreases |ops|
  {
    ops == [] || (start <= ClockAt(ops[0], start) && ClockNeverFalls(ops[1..], ClockAt(ops[0], start)))
  }

  function ClockAfter(ops: seq<Operation>, start: int): int
    decreases |ops|
  {
    if ops == [] then start else ClockAfter(ops[1..], ClockAt(ops[0], start))
  }

  /** Operations that reach MaybePurgeExpiredLocked: a Begin rejected on its arguments does not. */
  predicate Sweeps(limits: Limits, op: Operation) {
    match op
    case Begin(id, _, totalLength, _, _, _) => id != "" && 0 < totalLength <= limits.maxStreamSize
    case AddChunk(_, _, _, _) => true
    case Finish(_, _) => true
    case PurgeExpired(_) => false
    case Discard(_) => false
  }

  /** Every stream was active less than ttl before the last purge, or since. */
  ghost predicate RecentlySwept(limits: Limits, s: State, now: int) {
    && (forall id :: id in s.streams ==> s.streams[id].lastActivity <= now)
    && (s.nextCleanup != 0 ==>
          && s.nextCleanup - limits.cleanupInterval <= now
          && forall id :: id in s.streams ==>
               s.nextCleanup <= s.streams[id].lastActivity + limits.ttl + limits.cleanupInterval)
  }

  ghost predicate AllIdleLess(limits: Limits, s: State, now: int) {
    forall id :: id in s.streams ==> now - s.streams[id].lastActivity < limits.ttl + limits.cleanupInterval
  }

  ghost predicate Swept(limits: Limits, s: State, now: int) {
    RecentlySwept(limits, s, now) && AllIdleLess(limits, s, now)
  }

  lemma MaybePurgeSweeps(limits: Limits, s: State, before: int, now: int)
    requires RecentlySwept(limits, s, before) && before <= now
    ensures Swept(limits, MaybePurge(limits, s, now), now)
  {
  }

  lemma EraseSweeps(limits: Limits, s: State, id: string, now: int)
    requires RecentlySwept(limits, s, now) && id in s.streams
    ensures RecentlySwept(limits, Erase(s, id), now)
    ensures AllIdleLess(limits, s, now) ==> AllIdleLess(limits, Erase(s, id), now)
  {
  }

  lemma PutSweeps(limits: Limits, s: State, s': State, id: string, stream: Stream, now: int)
    requires 0 < limits.ttl + limits.cleanupInterval
    requires Swept(limits, s, now) && stream.lastActivity == now
    requires s'.streams == s.streams[id := stream] && s'.nextCleanup == s.nextCleanup
    ensures Swept(limits, s', now)
  {
  }

  lemma BeginSweeps(limits: Limits, s: State, op: Operation, before: int)
    requires 0 < limits.ttl + limits.cleanupInterval && op.Begin?
    requires RecentlySwept(limits, s, before) && before <= op.now
    ensures RecentlySwept(limits, BeginStream(limits, s, op).0, op.now)
    ensures Sweeps(limits, op) ==> AllIdleLess(limits, BeginStream(limits, s, op).0, op.now)
  {
    if Sweeps(limits, op) {
      hide RecentlySwept, AllIdleLess;
      var s1 := MaybePurge(limits, s, op.now);
      MaybePurgeSweeps(limits, s, before, op.now);
      if op.id in s1.streams { EraseSweeps(limits, s1, op.id, op.now); }
      var s2 := if op.id in s1.streams then Erase(s1, op.id) else s1;
      var (s', ok) := BeginStream(limits, s, op);
      if ok { PutSweeps(limits, s2, s', op.id, s'.streams[op.id], op.now); }
    }
  }

  lemma AddSweeps(limits: Limits, s: State, id: string, index: nat, content: Span, now: int, before: int)
    requires 0 < limits.ttl + limits.cleanupInterval
    requires RecentlySwept(limits, s, before) && before <= now
    ensures Swept(limits, AddToStream(limits, s, id, index, content, now).0, now)
  {
    hide RecentlySwept, AllIdleLess, IsComplete, ExceedsLimits, IsExpired;
    var s1 := MaybePurge(limits, s, now);
    MaybePurgeSweeps(limits, s, before, now);
    if id in s1.streams {
      EraseSweeps(limits, s1, id, now);
      var stream' := WithChunk(s1.streams[id], index, content, now);
      var s' := s1.(streams := s1.streams[id := stream'], buffered := SizeAdd(s1.buffered, |content|));
      PutSweeps(limits, s1, s', id, stream', now);
      EraseSweeps(limits, s', id, now);
    }
  }

  lemma StepSweeps(limits: Limits, s: State, op: Operation, before: int)
    requires 0 < limits.ttl + limits.cleanupInterval
    requires RecentlySwept(limits, s, before) && before <= ClockAt(op, before)
    ensures var s' := Step(limits, s, op).0;
            && RecentlySwept(limits, s', ClockAt(op, before))
            && (Sweeps(limits, op) ==> AllIdleLess(limits, s', op.now))
  {
    hide RecentlySwept, AllIdleLess, IsComplete;
    match op
    case Begin(_, _, _, _, _, _) => BeginSweeps(limits, s, op, before);
    case AddChunk(id, index, content, now) => AddSweeps(limits, s, id, index, content, now, before);
    case Finish(id, now) =>
      MaybePurgeSweeps(limits, s, before, now);
      if id in MaybePurge(limits, s, now).streams { EraseSweeps(limits, MaybePurge(limits, s, now), id, now); }
    case PurgeExpired(now) => PurgeSweeps(limits, s, before, now);
    case Discard(id) => if id in s.streams { EraseSweeps(limits, s, id, before); }
  }

  lemma PurgeSweeps(limits: Limits, s: State, before: int, now: int)
    requires RecentlySwept(limits, s, before) && before <= now
    ensures RecentlySwept(limits, Purge(limits, s, now), now)
  {
  }

  lemma {:induction false} RunSweeps(limits: Limits, s: State, ops: seq<Operation>, start: int)
    requires 0 < limits.ttl + limits.cleanupInterval
    requires RecentlySwept(limits, s, start) && ClockNeverFalls(ops, start)
    ensures RecentlySwept(limits, Run(limits, s, ops), ClockAfter(ops, start))
    decreases |ops|
  {
    if ops != [] {
      StepSweeps(limits, s, ops[0], start);
      RunSweeps(limits, Step(limits, s, ops[0]).0, ops[1..], ClockAt(ops[0], start));
    }
  }

  /**
   With a clock that never falls, each Begin that is not rejected on its arguments, each AddChunk and
   each Finish leaves only streams idle for less than stream_ttl + cleanup_interval.
   */
  lemma IdleBound(limits: Limits, ops: seq<Operation>, op: Operation, start: int)
    requires 0 < limits.ttl + limits.cleanupInterval
    requires ClockNeverFalls(ops, start) && Sweeps(limits, op) && ClockAfter(ops, start) <= op.now
    ensures AllIdleLess(limits, Step(limits, Run(limits, EMPTY, ops), op).0, op.now)
  {
    RunSweeps(limits, EMPTY, ops, start);
    StepSweeps(limits, Run(limits, EMPTY, ops), op, ClockAfter(ops, start));
  }

  // ----- Order independence -----

  /** An event of a run in which one stream's chunks arrive: one of its chunks, or another operation. */
  datatype Event = Mine(index: nat, now: int) | Other(op: Operation)

  function AsOperation(id: string, parts: seq<Span>, e: Event): Operation {
    match e
    case Mine(index, now) => AddChunk(id, index, if index < |parts| then parts[index] else [], now)
    case Other(op) => op
  }

  predicate Names(op: Operation, id: string) {
    !op.PurgeExpired? && op.id == id
  }

  /**
   From a state, the events keep within the stream's time to live and leave room in the shared
   budget for its chunks; the other operations concern other streams.
   */
  ghost predicate Undisturbed(limits: Limits, s: State, id: string, parts: seq<Span>, events: seq<Event>)
    decreases |events|
  {
    events == [] ||
    var e := events[0];
    && (e.Mine? ==> e.index < |parts|)
    && (e.Other? ==> !Names(e.op, id))
    && (id in s.streams ==>
          !IsExpired(limits, s.streams[id], ClockAt(AsOperation(id, parts, e), s.streams[id].lastActivity)))
    && (e.Mine? && id in s.streams && e.index !in s.streams[id].chunks ==>
          MaybePurge(limits, s, e.now).buffered + |parts[e.index]| <= limits.maxBufferedBytes)
    && Undisturbed(limits, Step(limits, s, AsOperation(id, parts, e)).0, id, parts, events[1..])
  }

  /** The indices that have arrived. */
  function Seen(events: seq<Event>): set<nat> {
    set e | e in events && e.Mine? :: e.index
  }

  function AllIndices(n: nat): (all: set<nat>)
    ensures |all| == n && forall i: nat :: i in all <==> i < n
  {
    if n == 0 then {}
    else
      var fewer := AllIndices(n - 1);
      assert n - 1 !in fewer;
      fewer + {n - 1}
  }

  function Arrived(parts: seq<Span>, seen: set<nat>): map<nat, Chunk> {
    map i | 0 <= i < |parts| && i in seen :: parts[i]
  }

  predicate NoneEmpty(parts: seq<Span>) {
    forall i :: 0 <= i < |parts| ==> parts[i] != []
  }

  function PartSizes(parts: seq<Span>): map<nat, nat> {
    map i | 0 <= i < |parts| :: |parts[i]|
  }

  lemma {:induction false} PartSizesTotal(parts: seq<Span>)
    ensures Total(PartSizes(parts)) == Size(parts)
  {
    if parts == [] {
      assert PartSizes(parts) == map[];
    } else {
      var n: nat := |parts| - 1;
      PartSizesTotal(parts[..n]);
      assert parts == parts[..n] + [parts[n]];
      ConcatAppend(parts[..n], parts[n]);
      TotalRemove(PartSizes(parts), n);
      assert PartSizes(parts) - {n} == PartSizes(parts[..n]);
    }
  }

  /** The bytes that arrived are all the bytes exactly when every index arrived. */
  lemma ArrivedTotal(parts: seq<Span>, seen: set<nat>)
    requires NoneEmpty(parts)
    ensures Total(ChunkSizes(Arrived(parts, seen))) <= Size(parts)
    ensures Total(ChunkSizes(Arrived(parts, seen))) == Size(parts) <==> AllIndices(|parts|) <= seen
  {
    hide Total, AllIndices, Size;
    var all, sizes := PartSizes(parts), ChunkSizes(Arrived(parts, seen));
    PartSizesTotal(parts);
    TotalOfPart(sizes, all);
    if AllIndices(|parts|) <= seen {
      assert sizes == all;
    } else {
      var i :| i in AllIndices(|parts|) && i !in seen;
      TotalRemove(all, i);
      TotalOfPart(sizes, all - {i});
    }
  }

  lemma ArrivedAll(parts: seq<Span>, seen: set<nat>)
    requires AllIndices(|parts|) <= seen
    ensures Contiguous(Arrived(parts, seen)) && InOrder(Arrived(parts, seen)) == parts
  {
    assert Arrived(parts, seen).Keys == AllIndices(|parts|);
  }

  /** The state of one stream of which the chunks with the given indices have arrived. */
  ghost predicate Tracks(limits: Limits, s: State, id: string, parts: seq<Span>, seen: set<nat>, info: Assembled) {
    && Inv(limits, s)
    && seen <= AllIndices(|parts|)
    && (id in s.streams <==> seen != AllIndices(|parts|))
    && (id in s.streams ==>
          && var x := s.streams[id];
             && x.chunks == Arrived(parts, seen) && x.totalLength == Size(parts)
             && x.topic == info.topic && x.identity == info.identity && x.sid == info.sid)
  }

  predicate Sendable(limits: Limits, parts: seq<Span>) {
    NoneEmpty(parts) && |parts| <= limits.maxChunksPerStream
  }

  lemma MaybePurgeTracks(limits: Limits, s: State, id: string, now: int)
    requires Inv(limits, s)
    requires id in s.streams ==> !IsExpired(limits, s.streams[id], now)
    ensures var s' := MaybePurge(limits, s, now);
            && Inv(limits, s')
            && (id in s'.streams <==> id in s.streams)
            && (id in s.streams ==> s'.streams[id] == s.streams[id])
  {
    MaybePurgeKeepsInv(limits, s, now);
  }

  lemma OtherLeavesStream(limits: Limits, s: State, id: string, op: Operation)
    requires !Names(op, id)
    requires id in s.streams ==> !IsExpired(limits, s.streams[id], ClockAt(op, s.streams[id].lastActivity))
    ensures SameStream(s, Step(limits, s, op).0, id)
  {
    hide IsComplete, ExceedsLimits, Total, Received, Wrap, SizeSub, SizeAdd, Finished, AddToStream;
    if op.AddChunk? { OtherChunk(limits, s, id, op); }
  }

  predicate SameStream(s: State, s': State, id: string) {
    (id in s'.streams <==> id in s.streams) && (id in s.streams ==> s'.streams[id] == s.streams[id])
  }

  lemma OtherChunk(limits: Limits, s: State, id: string, op: Operation)
    requires op.AddChunk? && !Names(op, id)
    requires id in s.streams ==> !IsExpired(limits, s.streams[id], ClockAt(op, s.streams[id].lastActivity))
    ensures SameStream(s, Step(limits, s, op).0, id)
  {
    hide IsComplete, ExceedsLimits, Total, Received, Wrap, SizeSub, SizeAdd, Finished;
  }

  /** Operations on other streams leave this one alone. */
  lemma OtherTracks(limits: Limits, s: State, id: string, parts: seq<Span>, seen: set<nat>, info: Assembled,
                    op: Operation)
    requires Tracks(limits, s, id, parts, seen, info) && !Names(op, id)
    requires id in s.streams ==> !IsExpired(limits, s.streams[id], ClockAt(op, s.streams[id].lastActivity))
    ensures Tracks(limits, Step(limits, s, op).0, id, parts, seen, info)
  {
    hide Inv, Step, Arrived;
    StepKeepsInv(limits, s, op);
    OtherLeavesStream(limits, s, id, op);
  }

  /** A chunk of this stream: the payload appears exactly when the last missing index arrives. */
  lemma MineTracks(limits: Limits, s: State, id: string, parts: seq<Span>, seen: set<nat>, info: Assembled,
                   index: nat, now: int)
    requires Tracks(limits, s, id, parts, seen, info) && Sendable(limits, parts) && index < |parts|
    requires id in s.streams ==> !IsExpired(limits, s.streams[id], now)
    requires id in s.streams && index !in s.streams[id].chunks ==>
               MaybePurge(limits, s, now).buffered + |parts[index]| <= limits.maxBufferedBytes
    ensures var (s', payload) := Step(limits, s, AddChunk(id, index, parts[index], now));
            && Tracks(limits, s', id, parts, seen + {index}, info)
            && payload == if seen != AllIndices(|parts|) && seen + {index} == AllIndices(|parts|)
                          then Some(info.(payload := Concat(parts))) else None
  {
    hide Total, Received, ChunkSizes, Wrap, SizeSub, SizeAdd, Concat, InOrder;
    var s1 := MaybePurge(limits, s, now);
    MaybePurgeTracks(limits, s, id, now);
    StepKeepsInv(limits, s, AddChunk(id, index, parts[index], now));
    if id in s.streams && index !in seen {
      MissingChunkFits(limits, s1, id, parts, seen, index, now);
    } else {
      assert seen + {index} == seen;
    }
  }

  lemma MissingChunkFits(limits: Limits, s: State, id: string, parts: seq<Span>, seen: set<nat>, index: nat, now: int)
    requires Inv(limits, s) && Sendable(limits, parts) && index < |parts| && index !in seen
    requires seen <= AllIndices(|parts|) && id in s.streams
    requires s.streams[id].chunks == Arrived(parts, seen) && s.streams[id].totalLength == Size(parts)
    requires s.buffered + |parts[index]| <= limits.maxBufferedBytes
    ensures var x' := WithChunk(s.streams[id], index, parts[index], now);
            && !ExceedsLimits(limits, s, s.streams[id], parts[index])
            && x'.chunks == Arrived(parts, seen + {index})
            && (IsComplete(x') <==> seen + {index} == AllIndices(|parts|))
            && (IsComplete(x') ==> InOrder(x'.chunks) == parts)
  {
    hide Total, Received, ChunkSizes;
    var x := s.streams[id];
    var x' := WithChunk(x, index, parts[index], now);
    assert StreamOk(limits, x);
    ArrivedNext(parts, seen, index);
    ArrivedTotal(parts, seen + {index});
    PutChunkTotals(s.streams, id, index, parts[index], now);
    hide StreamOk, Inv, Arrived, InOrder, Contiguous, WithChunk;
    WithChunkOk(limits, s, id, index, parts[index], now);
    assert x'.chunks == Arrived(parts, seen + {index}) by { WithChunkChunks(x, index, parts[index], now); }
    if seen + {index} == AllIndices(|parts|) {
      ArrivedAll(parts, seen + {index});
    }
  }

  lemma WithChunkChunks(x: Stream, index: nat, content: Span, now: int)
    ensures var x' := WithChunk(x, index, content, now);
            x'.chunks == x.chunks[index := content] && x'.totalLength == x.totalLength
  {
  }

  lemma ArrivedNext(parts: seq<Span>, seen: set<nat>, index: nat)
    requires index < |parts| && index !in seen && seen <= AllIndices(|parts|)
    ensures Arrived(parts, seen)[index := parts[index]] == Arrived(parts, seen + {index})
    ensures index !in Arrived(parts, seen) && |Arrived(parts, seen)| < |parts|
    ensures Arrived(parts, seen + {index}) != map[]
  {
    hide AllIndices;
    ArrivedKeys(parts, seen);
    assert index in Arrived(parts, seen + {index});
    SubSetSize(seen + {index}, AllIndices(|parts|));
    assert |seen + {index}| == |seen| + 1;
  }

  lemma ArrivedKeys(parts: seq<Span>, seen: set<nat>)
    requires seen <= AllIndices(|parts|)
    ensures Arrived(parts, seen).Keys == seen && |Arrived(parts, seen)| == |seen|
  {
    hide AllIndices;
    assert Arrived(parts, seen).Keys == seen;
    assert |Arrived(parts, seen)| == |Arrived(parts, seen).Keys|;
  }

  /** The state after some events. */
  ghost function After(limits: Limits, s: State, id: string, parts: seq<Span>, events: seq<Event>): State
    decreases |events|
  {
    if events == [] then s
    else After(limits, Step(limits, s, AsOperation(id, parts, events[0])).0, id, parts, events[1..])
  }

  lemma SeenSplit(events: seq<Event>)
    requires events != []
    ensures Seen(events) == Seen([events[0]]) + Seen(events[1..])
  {
    assert forall e :: e in events <==> e == events[0] || e in events[1..];
  }

  /** One event, as it changes the set of indices that have arrived. */
  lemma EventTracks(limits: Limits, s: State, id: string, parts: seq<Span>, seen: set<nat>, info: Assembled,
                    events: seq<Event>)
    requires events != []
    requires Tracks(limits, s, id, parts, seen, info) && Sendable(limits, parts)
    requires Undisturbed(limits, s, id, parts, events)
    ensures var op, seen' := AsOperation(id, parts, events[0]), seen + Seen([events[0]]);
            && Undisturbed(limits, Step(limits, s, op).0, id, parts, events[1..])
            && Tracks(limits, Step(limits, s, op).0, id, parts, seen', info)
            && (events[0].Mine? ==>
                  Step(limits, s, op).1 == if seen != AllIndices(|parts|) && seen' == AllIndices(|parts|)
                                           then Some(info.(payload := Concat(parts))) else None)
  {
    hide Step, Tracks, Sendable, Concat, AllIndices, IsExpired;
    var e := events[0];
    if e.Mine? {
      assert id in s.streams ==> e.index in s.streams[id].chunks || e.index !in s.streams[id].chunks;
      MineTracks(limits, s, id, parts, seen, info, e.index, e.now);
      assert Seen([e]) == {e.index};
    } else {
      OtherTracks(limits, s, id, parts, seen, info, e.op);
      assert seen + Seen([e]) == seen;
    }
  }

  lemma {:induction false} ArrivalOrder(limits: Limits, s: State, id: string, parts: seq<Span>, seen: set<nat>,
                                        info: Assembled, events: seq<Event>, last: Event)
    requires Tracks(limits, s, id, parts, seen, info) && Sendable(limits, parts) && last.Mine?
    requires Undisturbed(limits, s, id, parts, events + [last])
    ensures var before := seen + Seen(events);
            Step(limits, After(limits, s, id, parts, events), AsOperation(id, parts, last)).1
            == if before != AllIndices(|parts|) && before + {last.index} == AllIndices(|parts|)
               then Some(info.(payload := Concat(parts))) else None
    decreases |events|
  {
    hide Step, Tracks, Sendable, Concat, AllIndices, Undisturbed, AsOperation;
    EventTracks(limits, s, id, parts, seen, info, events + [last]);
    if events == [] {
      assert Seen([last]) == {last.index} && seen + Seen([]) == seen;
    } else {
      var rest := events[1..];
      assert (events + [last])[1..] == rest + [last];
      ArrivalOrder(limits, Step(limits, s, AsOperation(id, parts, events[0])).0, id, parts,
                   seen + Seen([events[0]]), info, rest, last);
      SeenSplit(events);
      assert seen + Seen([events[0]]) + Seen(rest) == seen + Seen(events);
    }
  }

  /**
   Order independence. After a Begin that declares the length of a payload, its non-empty chunks may
   arrive in any order, any number of times and among any operations on other streams: within the
   limits and the time to live, the payload is returned on the step that supplies the last missing
   chunk, and on no other.
   */
  lemma OrderIndependence(limits: Limits, ops: seq<Operation>, begin: Operation, parts: seq<Span>,
                          events: seq<Event>, last: Event)
    requires begin.Begin? && begin.totalLength == Size(parts) && Sendable(limits, parts) && last.Mine?
    requires BeginStream(limits, Run(limits, EMPTY, ops), begin).1
    requires Undisturbed(limits, Run(limits, EMPTY, ops + [begin]), begin.id, parts, events + [last])
    ensures var s := After(limits, Run(limits, EMPTY, ops + [begin]), begin.id, parts, events);
            Step(limits, s, AsOperation(begin.id, parts, last)).1
            == if Seen(events) != AllIndices(|parts|) && Seen(events) + {last.index} == AllIndices(|parts|)
               then Some(Assembled(Concat(parts), begin.topic, begin.identity, begin.sid)) else None
  {
    var s0, info := Run(limits, EMPTY, ops), Assembled([], begin.topic, begin.identity, begin.sid);
    RunAppend(limits, EMPTY, ops, begin);
    EmptyInv(limits);
    Accounting(limits, EMPTY, ops);
    BeginTracks(limits, s0, begin, parts, info);
    hide Step, Tracks, BeginStream, Undisturbed;
    ArrivalOrder(limits, Run(limits, EMPTY, ops + [begin]), begin.id, parts, {}, info, events, last);
    assert {} + Seen(events) == Seen(events);
  }

  lemma BeginTracks(limits: Limits, s: State, begin: Operation, parts: seq<Span>, info: Assembled)
    requires Inv(limits, s) && begin.Begin? && begin.totalLength == Size(parts) && BeginStream(limits, s, begin).1
    requires info.topic == begin.topic && info.identity == begin.identity && info.sid == begin.sid
    ensures Tracks(limits, BeginStream(limits, s, begin).0, begin.id, parts, {}, info)
  {
    hide Inv, MaybePurge, Erase, Concat;
    BeginKeepsInv(limits, s, begin);
    assert Arrived(parts, {}) == map[];
    assert parts != [];
    assert 0 in AllIndices(|parts|);
  }

  /**
   The stream of a ByteStreamWriter, assembled: whatever the order of its chunks, the payload is the
   data that was written.
   */
  lemma WrittenDataAssembled(limits: Limits, ops: seq<Operation>, begin: Operation, data: Chunk, parts: seq<Span>,
                             events: seq<Event>, last: Event)
    requires begin.Begin? && begin.totalLength == |data| && parts == ByteChunks(data, 0) && last.Mine?
    requires |parts| <= limits.maxChunksPerStream
    requires BeginStream(limits, Run(limits, EMPTY, ops), begin).1
    requires Undisturbed(limits, Run(limits, EMPTY, ops + [begin]), begin.id, parts, events + [last])
    ensures var s := After(limits, Run(limits, EMPTY, ops + [begin]), begin.id, parts, events);
            var payload := Step(limits, s, AsOperation(begin.id, parts, last)).1;
            && (payload.Some?
                <==> Seen(events) != AllIndices(|parts|) && Seen(events) + {last.index} == AllIndices(|parts|))
            && (payload.Some? ==> payload.value.payload == data)
  {
    hide Step, BeginStream, Undisturbed;
    ByteChunksCover(data, 0);
    assert data[0..] == data;
    ConcatLength(parts);
    forall i | 0 <= i < |parts| ensures parts[i] != [] {
      assert parts[i] in ByteChunks(data, 0);
    }
    OrderIndependence(limits, ops, begin, parts, events, last);
  }

  lemma {:induction false} RunAppend(limits: Limits, s: State, ops: seq<Operation>, op: Operation)
    ensures Run(limits, s, ops + [op]) == Step(limits, Run(limits, s, ops), op).0
    decreases |ops|
  {
    if ops == [] {
      assert [] + [op] == [op];
      assert Run(limits, s, [op]) == Run(limits, Step(limits, s, op).0, [op][1..]);
    } else {
      assert (ops + [op])[1..] == ops[1..] + [op];
      RunAppend(limits, Step(limits, s, ops[0]).0, ops[1..], op);
    }
  }

  // ----- The class -----

  lemma LeastKey(keys: set<nat>) returns (least: nat)
    requires keys != {}
    ensures least in keys && forall k :: k in keys ==> least <= k
    decreases |keys|
  {
    var first :| first in keys;
    least := first;
    var rest := keys - {first};
    assert forall k :: k in keys ==> k == first || k in rest;
    if rest != {} {
      var other := LeastKey(rest);
      if other < least { least := other; }
    }
  }

  lemma ContiguousKeys(chunks: map<nat, Chunk>)
    requires Contiguous(chunks)
    ensures chunks.Keys == AllIndices(|chunks|)
  {
    var all := AllIndices(|chunks|);
    assert all <= chunks.Keys;
    assert chunks.Keys == all + (chunks.Keys - all);
  }

  lemma PrefixBounds(chunks: map<nat, Chunk>)
    requires Contiguous(chunks)
    ensures Concat(InOrder(chunks)[..0]) == [] && InOrder(chunks)[..|chunks|] == InOrder(chunks)
  {
  }

  lemma PrefixStep(chunks: map<nat, Chunk>, done: nat)
    requires Contiguous(chunks) && done < |chunks|
    ensures Concat(InOrder(chunks)[..done + 1]) == Concat(InOrder(chunks)[..done]) + chunks[done]
  {
    var parts := InOrder(chunks);
    assert parts[..done + 1] == parts[..done] + [parts[done]];
    ConcatAppend(parts[..done], parts[done]);
  }

  /** The purge loop: one more expired stream has been erased. */
  lemma PurgeOne(streams: map<string, Stream>, gone: set<string>, id: string, start: size)
    requires id in streams && id !in gone && gone <= streams.Keys
    ensures SizeSub(SizeSub(start, Wrap(Total(Received(Only(streams, gone))))), streams[id].received)
         == SizeSub(start, Wrap(Total(Received(Only(streams, gone + {id})))))
  {
    var before, after := Only(streams, gone), Only(streams, gone + {id});
    assert after == before[id := streams[id]];
    NewStreamTotals(before, id, streams[id]);
    SubTwice(start, Total(Received(before)), streams[id].received);
  }

  lemma PurgeNone(streams: map<string, Stream>, start: size)
    ensures SizeSub(start, Wrap(Total(Received(Only(streams, {}))))) == start
  {
    assert Only(streams, {}) == map[] && Received(map[]) == map[];
  }

  lemma PurgeAll(limits: Limits, streams: map<string, Stream>, gone: set<string>, now: int)
    requires gone <= streams.Keys
    requires forall id :: id in streams.Keys ==> (id in gone <==> IsExpired(limits, streams[id], now))
    ensures Only(streams, gone) == Expired(limits, streams, now)
    ensures streams - gone == Kept(limits, streams, now)
    ensures |gone| == |Expired(limits, streams, now)|
  {
    assert Expired(limits, streams, now).Keys == gone;
  }

  function Only(streams: map<string, Stream>, ids: set<string>): map<string, Stream> {
    map id | id in streams && id in ids :: streams[id]
  }

  class IncomingDataStreamAssembler {
    const limits: Limits
    var streams: map<string, Stream>
    var bufferedBytes: size
    var nextCleanup: int

    constructor (limits: Limits)
      ensures this.limits == limits && View() == EMPTY
    {
      this.limits := limits;
      streams, bufferedBytes, nextCleanup := map[], 0, 0;
    }

    function View(): State
      reads this
    {
      State(streams, bufferedBytes, nextCleanup)
    }

    method EraseLocked(id: string)
      requires id in streams
      modifies this
      ensures View() == Erase(old(View()), id)
    {
      bufferedBytes := SizeSub(bufferedBytes, streams[id].received);
      streams := streams - {id};
    }

    /** The iteration order of an unordered_map is arbitrary. */
    method PurgeExpiredLocked(now: int) returns (removed: nat)
      modifies this
      ensures View() == Purge(limits, old(View()), now)
      ensures removed == |Expired(limits, old(streams), now)|
    {
      hide Total, Received, SizeSub, Wrap, Only;
      removed := 0;
      var pending := streams.Keys;
      ghost var gone: set<string> := {};
      ghost var start, all := bufferedBytes, streams;
      PurgeNone(all, start);
      while pending != {}
        invariant pending <= all.Keys && gone <= all.Keys - pending && nextCleanup == old(nextCleanup)
        invariant forall id :: id in all.Keys - pending ==> (id in gone <==> IsExpired(limits, all[id], now))
        invariant streams == all - gone
        invariant bufferedBytes == SizeSub(start, Wrap(Total(Received(Only(all, gone)))))
        invariant removed == |gone|
        decreases |pending|
      {
        var id :| id in pending;
        pending := pending - {id};
        if now - streams[id].lastActivity >= limits.ttl {
          PurgeOne(all, gone, id, start);
          bufferedBytes := SizeSub(bufferedBytes, streams[id].received);
          streams := streams - {id};
          removed := removed + 1;
          gone := gone + {id};
        }
      }
      nextCleanup := now + limits.cleanupInterval;
      PurgeAll(limits, all, gone, now);
    }

    method MaybePurgeExpiredLocked(now: int)
      modifies this
      ensures View() == MaybePurge(limits, old(View()), now)
    {
      if nextCleanup == 0 || now >= nextCleanup {
        var _ := PurgeExpiredLocked(now);
      }
    }

    /** One pass over the chunks in the order of their indices. */
    method IsCompleteLocked(stream: Stream) returns (complete: bool)
      ensures complete <==> IsComplete(stream)
    {
      if stream.received != stream.totalLength || stream.chunks == map[] { return false; }
      var expected := 0;
      var remaining := stream.chunks.Keys;
      while remaining != {}
        invariant remaining == set i | i in stream.chunks && expected <= i
        invariant forall i :: 0 <= i < expected ==> i in stream.chunks
        invariant |remaining| + expected == |stream.chunks|
        decreases |remaining|
      {
        ghost var least := LeastKey(remaining);
        var index :| index in remaining && forall i :: i in remaining ==> index <= i;
        if index != expected {
          assert Contiguous(stream.chunks) ==> expected in stream.chunks && expected in remaining;
          return false;
        }
        remaining := remaining - {index};
        expected := expected + 1;
      }
      return true;
    }

    /** The payload is gathered in the order of the indices. */
    static method Gather(chunks: map<nat, Chunk>) returns (payload: Chunk)
      requires Contiguous(chunks)
      ensures payload == Concat(InOrder(chunks))
    {
      payload := [];
      var remaining := chunks.Keys;
      ghost var done: nat := 0;
      ContiguousKeys(chunks);
      hide Concat;
      PrefixBounds(chunks);
      while remaining != {}
        invariant done <= |chunks|
        invariant forall i :: i in remaining <==> i in chunks && done <= i
        invariant payload == Concat(InOrder(chunks)[..done])
        decreases |remaining|
      {
        ghost var least := LeastKey(remaining);
        var index :| index in remaining && forall i :: i in remaining ==> index <= i;
        assert done < |chunks| && done in remaining && index == done;
        PrefixStep(chunks, done);
        payload := payload + chunks[index];
        remaining := remaining - {index};
        done := done + 1;
      }
      assert done < |chunks| ==> done in chunks && done in remaining;
    }

    method AssembleAndEraseLocked(id: string) returns (result: Assembled)
      requires id in streams && Contiguous(streams[id].chunks)
      modifies this
      ensures View() == Erase(old(View()), id)
      ensures result == Finished(old(streams[id]))
    {
      var stream := streams[id];
      var payload := Gather(stream.chunks);
      result := Assembled(payload, stream.topic, stream.identity, stream.sid);
      EraseLocked(id);
    }

    method BeginOne(id: string, topic: string, totalLength: nat, identity: string, sid: string, now: int)
      returns (ok: bool)
      modifies this
      ensures (View(), ok) == BeginStream(limits, old(View()), Begin(id, topic, totalLength, identity, sid, now))
    {
      if id == "" || totalLength == 0 || totalLength > limits.maxStreamSize { return false; }
      MaybePurgeExpiredLocked(now);
      if id in streams { EraseLocked(id); }
      if |streams| >= limits.maxStreams { return false; }
      streams := streams[id := Stream(topic, totalLength, identity, sid, now, map[], 0)];
      return true;
    }

    method AddOneChunk(id: string, index: nat, content: Span, now: int) returns (result: Option<Assembled>)
      modifies this
      ensures (View(), result) == AddToStream(limits, old(View()), id, index, content, now)
    {
      MaybePurgeExpiredLocked(now);
      if id !in streams { return None; }
      var stream := streams[id];
      if now - stream.lastActivity >= limits.ttl {
        EraseLocked(id);
        return None;
      }
      if index in stream.chunks { return None; }
      if |stream.chunks| >= limits.maxChunksPerStream ||
         |content| > SizeSub(stream.totalLength, stream.received) ||
         |content| > SizeSub(limits.maxBufferedBytes, bufferedBytes) {
        EraseLocked(id);
        return None;
      }
      stream := stream.(chunks := stream.chunks[index := content],
                        received := SizeAdd(stream.received, |content|), lastActivity := now);
      streams := streams[id := stream];
      bufferedBytes := SizeAdd(bufferedBytes, |content|);
      var complete := IsCompleteLocked(stream);
      if !complete { return None; }
      var assembled := AssembleAndEraseLocked(id);
      return Some(assembled);
    }

    method FinishOne(id: string, now: int) returns (result: Option<Assembled>)
      modifies this
      ensures (View(), result) == FinishStream(limits, old(View()), id, now)
    {
      MaybePurgeExpiredLocked(now);
      if id !in streams { return None; }
      var complete := IsCompleteLocked(streams[id]);
      if !complete {
        EraseLocked(id);
        return None;
      }
      var assembled := AssembleAndEraseLocked(id);
      return Some(assembled);
    }

    method DiscardOne(id: string) returns (found: bool)
      modifies this
      ensures View() == Step(limits, old(View()), Discard(id)).0
      ensures found <==> id in old(streams)
    {
      if id !in streams { return false; }
      EraseLocked(id);
      return true;
    }
  }
}
