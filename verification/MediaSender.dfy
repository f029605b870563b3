/**
 The sender of media transfers (src/core/meeting_coordinator.cpp): files queue up, one slice goes out per
 tick, sent files stay in a bounded cache, and slices that a receiver reports missing are sent again.
 */
module MediaSender {
  import opened Options
  import opened MediaKeys
  import opened MediaSlices
  import opened Totals
  import T = MediaTransfer

  /** kMediaRecoveryCacheLifetimeMs */
  const CACHE_LIFETIME := 10 * 60 * 1000
  /** kMediaRecoveryCacheBytes */
  const CACHE_BYTES := 128 * 1024 * 1024
  const CACHE_FILES := 128
  const MAXIMUM_REPLAYS := 128
  /** A tick sends nothing while more than this is waiting in the data channel. */
  const BUFFER_LIMIT := 64 * 1024

  // ----- State -----

  /** MediaSendChunkTask; the text is the file in base64. */
  datatype Task = Task(messageId: string, transferId: string, meta: T.Meta, text: string, recipients: set<string>,
                       currentChunk: nat, expiresAt: int)

  /** MediaReplayTask */
  datatype Replay = Replay(transferId: string, recipient: ParticipantKey, chunks: set<nat>)

  /** What the transport took: to everyone, or to one identity. */
  datatype Wire = ToAll(packet: T.Packet) | ToOne(identity: string, packet: T.Packet)
    | Unavailable(identity: string, id: string)

  /** How a file ended: the outcome reported once for it. */
  datatype Ending = Ending(id: string, success: bool)

  /** A callback waiting for the event loop inside its signal to return. */
  datatype Frame = Committing(id: string) | FailingRest

  type Cache = map<string, Task>

  /** The three queues, the waiting frames, every file ever submitted, what went out, and how files ended. */
  datatype Sender = Sender(queue: seq<Task>, replays: seq<Replay>, cache: Cache, frames: seq<Frame>,
                           submitted: map<string, Task>, sent: seq<Wire>, endings: seq<Ending>)

  const INITIAL := Sender([], [], map[], [], map[], [], [])

  // ----- Packets -----

  function StartPacket(t: Task): T.Packet {
    T.Packet(false, t.transferId, t.meta, true, -1, "")
  }

  /** MediaChunkPacket, and the packet processNextMediaSendChunk builds itself: they are the same. */
  function ChunkPacket(t: Task, index: nat): T.Packet {
    T.Packet(true, t.transferId, t.meta, true, index, Slice(t.text, index))
  }

  // ----- Submission -----

  /** The queue entry sendChatMediaMessage makes of a file and its base64 text. */
  function NewTask(messageId: string, transferId: string, mediaType: string, fileName: string, size: nat, text: string,
                   recipients: set<string>): Task
  {
    Task(messageId, transferId, T.Meta(mediaType, fileName, SliceCount(|text|), size), text, recipients, 0, 0)
  }

  /** sendChatMediaMessage once its guards have passed. The start is sent if the transport takes it. */
  function OnSubmit(s: Sender, t: Task, accepted: bool): Sender {
    s.(queue := s.queue + [t], submitted := s.submitted[t.transferId := t],
       sent := if accepted then s.sent + [ToAll(StartPacket(t))] else s.sent)
  }

  // ----- One tick -----

  datatype Publication = Accepted | Rejected | Threw

  /** What a tick finds: the room, the meeting's state, the buffer, who is current, the time, the transport. */
  datatype World = World(room: bool, inMeeting: bool, reconnecting: bool, buffered: nat, current: set<ParticipantKey>,
                         now: int, publication: Publication)

  /** The first task with an id, by std::find_if. */
  function Find(queue: seq<Task>, id: string): Option<Task> {
    if queue == [] then None else if queue[0].transferId == id then Some(queue[0]) else Find(queue[1..], id)
  }

  predicate IsLeast(n: nat, chunks: set<nat>) {
    n in chunks && forall m :: m in chunks ==> n <= m
  }

  /** *chunks.begin() */
  function Least(chunks: set<nat>): (n: nat)
    requires chunks != {}
    ensures IsLeast(n, chunks)
  {
    var least := LeastFrom(chunks, 0);
    least
  }

  function LeastFrom(chunks: set<nat>, from: nat): (n: nat)
    requires chunks != {} && forall m :: m in chunks ==> from <= m
    ensures IsLeast(n, chunks)
    decreases Farthest(chunks) - from
  {
    FarthestIsFar(chunks);
    if from in chunks then from else LeastFrom(chunks, from + 1)
  }

  /** A bound on every element. */
  ghost function Farthest(chunks: set<nat>): nat
    decreases |chunks|
  {
    if chunks == {} then 0
    else
      var x :| x in chunks;
      x + 1 + Farthest(chunks - {x})
  }

  lemma {:induction false} FarthestIsFar(chunks: set<nat>)
    ensures forall m :: m in chunks ==> m < Farthest(chunks)
    decreases |chunks|
  {
    if chunks != {} {
      var x :| x in chunks && Farthest(chunks) == x + 1 + Farthest(chunks - {x});
      FarthestIsFar(chunks - {x});
      assert forall m :: m in chunks ==> m == x || m in chunks - {x};
    }
  }

  function ReplaySource(s: Sender, id: string, now: int): Option<Task> {
    if id in s.cache && s.cache[id].expiresAt > now then Some(s.cache[id]) else Find(s.queue, id)
  }

  /** A tick that serves the first replay. */
  function TickReplay(s: Sender, w: World): Sender
    requires s.replays != []
  {
    var r, rest := s.replays[0], s.replays[1..];
    var source := ReplaySource(s, r.transferId, w.now);
    if r.recipient !in w.current || r.chunks == {} then s.(replays := rest)
    else if source.None? || r.recipient.identity !in source.value.recipients then s.(replays := rest)
    else if !w.publication.Accepted? then s
    else
      var index := Least(r.chunks);
      var left := r.chunks - {index};
      s.(sent := s.sent + [ToOne(r.recipient.identity, ChunkPacket(source.value, index))],
         replays := if left == {} then rest else [r.(chunks := left)] + rest)
  }

  /** A tick that sends the next chunk of the first file, up to the progress signal. */
  function TickFile(s: Sender, w: World): Sender
    requires s.queue != []
  {
    var t := s.queue[0];
    if t.currentChunk >= t.meta.totalChunks || w.publication.Rejected? then s
    else if w.publication.Threw? then s.(queue := s.queue[1..], endings := s.endings + [Ending(t.transferId, false)])
    else
      var t' := t.(currentChunk := t.currentChunk + 1);
      s.(queue := [t'] + s.queue[1..], sent := s.sent + [ToAll(ChunkPacket(t, t.currentChunk))],
         frames := if t'.currentChunk >= t.meta.totalChunks then s.frames + [Committing(t.transferId)] else s.frames)
  }

  /** The first file fails; the signal of its failure may run a nested event loop before the next one. */
  function FailFirst(s: Sender): Sender {
    if s.queue == [] then s
    else s.(queue := s.queue[1..], endings := s.endings + [Ending(s.queue[0].transferId, false)],
            frames := s.frames + [FailingRest])
  }

  /** processNextMediaSendChunk */
  function OnTick(s: Sender, w: World): Sender {
    if (w.room && w.reconnecting) || (s.queue == [] && s.replays == []) then s
    else if !w.room || !w.inMeeting then FailFirst(s.(replays := []))
    else if w.buffered > BUFFER_LIMIT then s
    else if s.replays != [] then TickReplay(s, w)
    else TickFile(s, w)
  }

  // ----- The cache -----

  ghost function CacheBytes(c: Cache): nat {
    Total(map id | id in c :: 2 * |c[id].text|)
  }

  predicate Oldest(c: Cache, id: string) {
    id in c && forall j :: j in c ==> c[id].expiresAt <= c[j].expiresAt
  }

  /** The oldest files go until the cache is within its bounds. */
  ghost predicate Trimmed(c: Cache, c': Cache)
    decreases |c|
  {
    if CacheBytes(c) <= CACHE_BYTES && |c| <= CACHE_FILES then c' == c
    else exists id :: Oldest(c, id) && Trimmed(c - {id}, c')
  }

  function Live(c: Cache, now: int): Cache {
    map id | id in c && c[id].expiresAt > now :: c[id]
  }

  /** pruneMediaSendCache */
  ghost predicate Pruned(c: Cache, now: int, c': Cache) {
    Trimmed(Live(c, now), c')
  }

  // ----- What follows a signal -----

  /** A file that has gone out whole moves to the cache, unless its session ended inside the signal. */
  predicate Commits(s: Sender, id: string, alive: bool) {
    alive && s.queue != [] && s.queue[0].transferId == id
  }

  function Committed(s: Sender, id: string, now: int): Sender
    requires Commits(s, id, true)
  {
    s.(queue := s.queue[1..], cache := s.cache[id := s.queue[0].(expiresAt := now + CACHE_LIFETIME)],
            endings := s.endings + [Ending(id, true)])
  }

  function DropFrame(s: Sender, i: nat): Sender
    requires i < |s.frames|
  {
    s.(frames := T.Without(s.frames, i))
  }

  // ----- Requests -----

  /** A media_resume request: its id, and its indices, None where an entry is not a whole number. */
  datatype Request = Request(id: string, missing: seq<Option<int>>)

  predicate RequestOk(r: Request) {
    r.id != "" && Utf16Size(r.id) <= 256 && 0 < |r.missing| <= RECOVERY_BATCH
  }

  predicate IndicesOk(missing: seq<Option<int>>, total: int) {
    forall i :: 0 <= i < |missing| ==> missing[i].Some? && 0 <= missing[i].value < total
  }

  function Indices(missing: seq<Option<int>>): set<nat> {
    set i: nat | i < |missing| && missing[i].Some? && missing[i].value >= 0 :: missing[i].value as nat
  }

  /** The indices of `more` below `end`, added in ascending order until the set holds a whole batch. */
  function Merge(chunks: set<nat>, more: set<nat>, end: nat): set<nat> {
    if end == 0 then chunks
    else
      var before := Merge(chunks, more, end - 1);
      if end - 1 in more && |before| != RECOVERY_BATCH then before + {end - 1} else before
  }

  /** The first replay for this file and this identity, |replays| if there is none. */
  function FindReplay(replays: seq<Replay>, id: string, identity: string): (i: nat)
    ensures i <= |replays|
  {
    if replays == [] || (replays[0].transferId == id && replays[0].recipient.identity == identity) then 0
    else 1 + FindReplay(replays[1..], id, identity)
  }

  function AddReplay(s: Sender, id: string, sender: ParticipantKey, chunks: set<nat>, total: nat): Sender {
    var i := FindReplay(s.replays, id, sender.identity);
    if i < |s.replays| then
      var held := if s.replays[i].recipient != sender then {} else s.replays[i].chunks;
      s.(replays := s.replays[i := Replay(id, sender, Merge(held, chunks, total))])
    else if |s.replays| >= MAXIMUM_REPLAYS then s
    else s.(replays := s.replays + [Replay(id, sender, chunks)])
  }

  /** handleMediaResumeRequest, once its sender is known to be current and the cache is pruned. */
  function OnRequest(s: Sender, r: Request, sender: ParticipantKey, accepted: bool): Sender
    requires r.missing != []
  {
    var source := if r.id in s.cache then Some(s.cache[r.id]) else Find(s.queue, r.id);
    if source.None? then if accepted then s.(sent := s.sent + [Unavailable(sender.identity, r.id)]) else s
    else if sender.identity !in source.value.recipients then s
    else if !IndicesOk(r.missing, source.value.meta.totalChunks) then s
    else
      assert r.missing[0].Some?;
      AddReplay(s, r.id, sender, Indices(r.missing), source.value.meta.totalChunks)
  }

  // ----- Leaving -----

  function FailedEndings(queue: seq<Task>): seq<Ending> {
    if queue == [] then [] else [Ending(queue[0].transferId, false)] + FailedEndings(queue[1..])
  }

  /** The session ends: every queued file ends, and nothing can be replayed any more. */
  function OnLeave(s: Sender): Sender {
    s.(queue := [], replays := [], cache := map[], endings := s.endings + FailedEndings(s.queue))
  }

  // ----- Steps -----

  datatype Operation =
    | Submit(task: Task, accepted: bool)
    | Tick(world: World)
    | Resume(frame: nat, alive: bool, now: int)
    | ResumeRequest(request: Request, sender: ParticipantKey, current: bool, accepted: bool, now: int)
    | Prune(now: int)
    | Leave

  /** What the caller of each operation guarantees: a new file has a new id, and a text. */
  predicate Allowed(s: Sender, op: Operation) {
    match op
    case Submit(t, _) => t.transferId !in s.submitted && t.text != "" && t.meta.totalChunks == SliceCount(|t.text|)
                         && t.currentChunk == 0 && t.expiresAt == 0
    case Resume(i, _, _) => i < |s.frames|
    case _ => true
  }

  ghost predicate Step(s: Sender, op: Operation, s': Sender) {
    && Allowed(s, op)
    && match op
       case Submit(t, accepted) => s' == OnSubmit(s, t, accepted)
       case Tick(w) => s' == OnTick(s, w)
       case Resume(i, alive, now) =>
         (match s.frames[i]
          case Committing(id) =>
            if !Commits(s, id, alive) then s' == DropFrame(s, i)
            else
              var c := Committed(DropFrame(s, i), id, now);
              s' == c.(cache := s'.cache) && Pruned(c.cache, now, s'.cache)
          case FailingRest => s' == FailFirst(DropFrame(s, i)))
       case ResumeRequest(r, sender, current, accepted, now) =>
         if !current || sender.identity == "" || !RequestOk(r) then s' == s
         else exists c: Cache :: Pruned(s.cache, now, c) && s' == OnRequest(s.(cache := c), r, sender, accepted)
       case Prune(now) => s' == s.(cache := s'.cache) && Pruned(s.cache, now, s'.cache)
       case Leave => s' == OnLeave(s)
  }
}
