/** How the sender answers a request for missing chunks (src/core/meeting_coordinator.cpp). */
module MediaAnswers {
  import opened Options
  import opened MediaKeys
  import opened MediaSlices
  import opened Totals
  import T = MediaTransfer
  import R = MediaReceiver
  import S = MediaSender
  import opened MediaEndToEnd
  import opened MediaUptake

  // ----- The sender answers a request -----

  /** A set in ascending order. */
  function Ascending(chunks: set<nat>): seq<nat>
    decreases |chunks|
  {
    if chunks == {} then []
    else
      var least := S.Least(chunks);
      [least] + Ascending(chunks - {least})
  }

  predicate Sorted(s: seq<nat>) {
    forall i, j :: 0 <= i < j < |s| ==> s[i] < s[j]
  }

  lemma {:induction false} AscendingMeaning(chunks: set<nat>)
    ensures var s := Ascending(chunks); |s| == |chunks| && Elements(s) == chunks && Sorted(s)
    decreases |chunks|
  {
    hide S.Least, Elements, Sorted;
    if chunks == {} {
      NoElements();
      assert Sorted([]) by { NothingSorted(); }
    } else {
      var least := S.Least(chunks);
      LeastIsFirst(chunks);
      assert chunks == {least} + (chunks - {least});
      AscendingMeaning(chunks - {least});
      SortedCons(least, Ascending(chunks - {least}));
    }
  }

  lemma NothingSorted()
    ensures Sorted([])
  {
  }

  lemma SortedCons(first: nat, rest: seq<nat>)
    requires Sorted(rest) && forall m :: m in Elements(rest) ==> first < m
    ensures Sorted([first] + rest) && Elements([first] + rest) == {first} + Elements(rest)
  {
    assert forall i :: 0 <= i < |rest| ==> rest[i] in Elements(rest);
  }

  lemma LeastIsFirst(chunks: set<nat>)
    requires chunks != {}
    ensures S.Least(chunks) in chunks && forall m :: m in chunks - {S.Least(chunks)} ==> S.Least(chunks) < m
  {
  }

  /** These chunks of the file, one packet each. */
  function ChunkPackets(task: S.Task, indices: seq<nat>): (packets: seq<T.Packet>)
    ensures |packets| == |indices| && forall i :: 0 <= i < |packets| ==> packets[i] == S.ChunkPacket(task, indices[i])
  {
    if indices == [] then [] else [S.ChunkPacket(task, indices[0])] + ChunkPackets(task, indices[1..])
  }

  /** The same, as what goes out to one participant. */
  function Answers(identity: string, packets: seq<T.Packet>): seq<S.Wire> {
    if packets == [] then [] else [S.ToOne(identity, packets[0])] + Answers(identity, packets[1..])
  }

  /** What is sent to this participant alone, in order. */
  function Addressed(wires: seq<S.Wire>, identity: string): seq<T.Packet> {
    if wires == [] then []
    else (if wires[0].ToOne? && wires[0].identity == identity then [wires[0].packet] else [])
         + Addressed(wires[1..], identity)
  }

  lemma {:induction false} AnswersReach(identity: string, packets: seq<T.Packet>)
    ensures Addressed(Answers(identity, packets), identity) == packets
  {
    if packets != [] {
      AnswersReach(identity, packets[1..]);
      assert Answers(identity, packets)[1..] == Answers(identity, packets[1..]);
    }
  }

  /** A tick that can serve a replay: the meeting is up, there is room in the channel, and the transport accepts. */
  predicate Serves(w: S.World, recipient: ParticipantKey) {
    && w.room && w.inMeeting && !w.reconnecting && w.buffered <= S.BUFFER_LIMIT && recipient in w.current
    && w.publication.Accepted?
  }

  function Ticks(s: S.Sender, worlds: seq<S.World>): S.Sender
    decreases |worlds|
  {
    if worlds == [] then s else Ticks(S.OnTick(s, worlds[0]), worlds[1..])
  }

  /** The file is at hand at each of these times. */
  predicate AtHand(s: S.Sender, task: S.Task, worlds: seq<S.World>) {
    forall i :: 0 <= i < |worlds| ==> S.ReplaySource(s, task.transferId, worlds[i].now) == Some(task)
  }

  /** One tick of the first replay: its least chunk goes out. */
  lemma TickServes(s: S.Sender, task: S.Task, recipient: ParticipantKey, chunks: set<nat>, world: S.World)
    requires chunks != {} && Serves(world, recipient) && recipient.identity in task.recipients
    requires s.replays != [] && s.replays[0] == S.Replay(task.transferId, recipient, chunks)
    requires S.ReplaySource(s, task.transferId, world.now) == Some(task)
    ensures var least := S.Least(chunks);
            var left := chunks - {least};
            S.OnTick(s, world) == s.(
              sent := s.sent + [S.ToOne(recipient.identity, S.ChunkPacket(task, least))],
              replays := if left == {} then s.replays[1..] else [s.replays[0].(chunks := left)] + s.replays[1..])
  {
    hide S.Least, S.ChunkPacket, S.ReplaySource;
  }

  /** One tick for each chunk of the first replay: they go out in ascending order, and the replay is gone. */
  lemma {:induction false} TicksServe(s: S.Sender, task: S.Task, recipient: ParticipantKey, chunks: set<nat>,
                                      worlds: seq<S.World>)
    requires chunks != {} && |worlds| == |chunks| && (forall i :: 0 <= i < |worlds| ==> Serves(worlds[i], recipient))
    requires s.replays != [] && s.replays[0] == S.Replay(task.transferId, recipient, chunks)
    requires AtHand(s, task, worlds) && recipient.identity in task.recipients
    ensures Ticks(s, worlds) == s.(replays := s.replays[1..],
              sent := s.sent + Answers(recipient.identity, ChunkPackets(task, Ascending(chunks))))
    decreases |chunks|
  {
    hide S.Least, S.ChunkPacket, S.ReplaySource, S.OnTick, Answers, ChunkPackets, Ascending, AtHand, Serves;
    var least := S.Least(chunks);
    var left, identity := chunks - {least}, recipient.identity;
    LeastIsFirst(chunks);
    assert |left| == |chunks| - 1;
    AtHandFirst(s, task, worlds);
    TickServes(s, task, recipient, chunks, worlds[0]);
    AnswerCons(task, identity, chunks);
    var wire := [S.ToOne(identity, S.ChunkPacket(task, least))];
    var more := Answers(identity, ChunkPackets(task, Ascending(left)));
    var s1 := S.OnTick(s, worlds[0]);
    assert s.sent + wire + more == s.sent + (wire + more);
    if left == {} {
      assert worlds[1..] == [];
      NoAnswers(task, identity);
      assert wire + [] == wire;
    } else {
      SameHand(s, s1, task, worlds[1..]);
      TicksServe(s1, task, recipient, left, worlds[1..]);
      assert s1.replays[1..] == s.replays[1..];
    }
  }

  lemma NoAnswers(task: S.Task, identity: string)
    ensures Answers(identity, ChunkPackets(task, Ascending({}))) == []
  {
  }

  lemma AtHandFirst(s: S.Sender, task: S.Task, worlds: seq<S.World>)
    requires worlds != [] && AtHand(s, task, worlds)
    ensures S.ReplaySource(s, task.transferId, worlds[0].now) == Some(task) && AtHand(s, task, worlds[1..])
  {
    hide S.ReplaySource;
  }

  /** Being at hand is a matter of the cache and the queue alone. */
  lemma SameHand(s: S.Sender, s1: S.Sender, task: S.Task, worlds: seq<S.World>)
    requires AtHand(s, task, worlds) && s1.cache == s.cache && s1.queue == s.queue
    ensures AtHand(s1, task, worlds)
  {
    hide S.Find;
    forall i | 0 <= i < |worlds| ensures S.ReplaySource(s1, task.transferId, worlds[i].now) == Some(task) {
      assert S.ReplaySource(s, task.transferId, worlds[i].now) == Some(task);
    }
  }

  lemma AnswerCons(task: S.Task, identity: string, chunks: set<nat>)
    requires chunks != {}
    ensures var least := S.Least(chunks);
            Answers(identity, ChunkPackets(task, Ascending(chunks)))
            == [S.ToOne(identity, S.ChunkPacket(task, least))]
              + Answers(identity, ChunkPackets(task, Ascending(chunks - {least})))
  {
    hide S.Least, S.ChunkPacket;
    var least := S.Least(chunks);
    var rest := Ascending(chunks - {least});
    assert Ascending(chunks)[0] == least && Ascending(chunks)[1..] == rest;
    assert ChunkPackets(task, Ascending(chunks))[1..] == ChunkPackets(task, rest);
  }

  ghost predicate CacheFits(c: S.Cache) {
    S.CacheBytes(c) <= S.CACHE_BYTES && |c| <= S.CACHE_FILES
  }

  lemma LiveFits(c: S.Cache, now: int)
    requires CacheFits(c)
    ensures CacheFits(S.Live(c, now))
  {
    hide Total;
    var live := S.Live(c, now);
    var sizes, kept := map id | id in c :: 2 * |c[id].text|, map id | id in live :: 2 * |live[id].text|;
    TotalOfPart(kept, sizes);
    assert S.CacheBytes(c) == Total(sizes) && S.CacheBytes(live) == Total(kept);
    assert c.Keys == live.Keys + (c.Keys - live.Keys);
    assert |live| == |live.Keys| && |c| == |c.Keys|;
  }

  /** What is left of a cache that fits also fits, so only what has expired goes. */
  lemma OnlyExpiredGo(c: S.Cache, now: int, c': S.Cache)
    requires CacheFits(c) && S.Pruned(c, now, c')
    ensures c' == S.Live(c, now) && CacheFits(c')
  {
    hide S.Live, S.CacheBytes;
    LiveFits(c, now);
  }

  /** A file that is at hand when the request comes is still at hand at those times. */
  lemma StaysAtHand(s: S.Sender, task: S.Task, now: int, c: S.Cache, worlds: seq<S.World>)
    requires CacheFits(s.cache) && S.Pruned(s.cache, now, c) && AtHand(s, task, worlds)
    requires S.ReplaySource(s, task.transferId, now) == Some(task)
    ensures (if task.transferId in c then Some(c[task.transferId]) else S.Find(s.queue, task.transferId)) == Some(task)
    ensures AtHand(s.(cache := c), task, worlds)
  {
    hide S.Find, S.Pruned, CacheFits;
    OnlyExpiredGo(s.cache, now, c);
    forall i | 0 <= i < |worlds| ensures S.ReplaySource(s.(cache := c), task.transferId, worlds[i].now) == Some(task) {
      assert S.ReplaySource(s, task.transferId, worlds[i].now) == Some(task);
    }
  }

  /** A request of a transfer of this file becomes the one replay of a sender that has none. */
  lemma RequestQueues(s: S.Sender, task: S.Task, t: T.Transfer, requester: ParticipantKey, accepted: bool, now: int,
                      s1: S.Sender) returns (c: S.Cache)
    requires T.TransferOk(t)
    requires var r := S.Request(task.transferId, Numbers(R.Wanted(t)));
             S.Step(s, S.ResumeRequest(r, requester, true, accepted, now), s1)
    requires s.replays == [] && CacheFits(s.cache) && S.ReplaySource(s, task.transferId, now) == Some(task)
    requires t.meta == task.meta && task.transferId != "" && Utf16Size(task.transferId) <= 256
    requires requester.identity != "" && requester.identity in task.recipients
    ensures S.Pruned(s.cache, now, c)
    ensures s1 == s.(cache := c, replays := [S.Replay(task.transferId, requester, Elements(R.Wanted(t)))])
  {
    hide S.Pruned, CacheFits, S.Find, R.Wanted, S.IndicesOk, S.Indices, Elements, T.TransferOk;
    RequestIsServed(t, task);
    var r := S.Request(task.transferId, Numbers(R.Wanted(t)));
    c :| S.Pruned(s.cache, now, c) && s1 == S.OnRequest(s.(cache := c), r, requester, accepted);
    StaysAtHand(s, task, now, c, []);
  }
}
