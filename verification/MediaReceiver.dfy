/**
 The receiver of media transfers as a whole: the strand's tables of transfers and terminal records, the
 Qt thread's ledger, and the two queues between them, over any number of senders and transfers
 (src/core/meeting_coordinator.cpp). Each callback of either thread is one step; a callback that emits
 a signal is split there, because the signal may run a nested event loop.
 */
module MediaReceiver {
  import opened Options
  import opened MediaKeys
  import opened MediaSlices
  import T = MediaTransfer

  /** A packet may not open a transfer beyond this many. */
  const MAXIMUM_TRANSFERS := 64
  const MAXIMUM_TERMINALS := 1024
  /** kMediaRecoveryCacheLifetimeMs */
  const CACHE_LIFETIME := 10 * 60 * 1000
  /** kMediaRecoveryTimeoutMs */
  const RECOVERY_TIMEOUT := 60 * 1000
  /** kMediaRecoveryIntervalMs */
  const RECOVERY_INTERVAL := 5 * 1000

  // ----- Terminal records -----

  /** InboundMediaTerminal */
  datatype Terminal = Terminal(sender: ParticipantKey, revision: nat, wireId: string, expiresAt: int)

  type Terminals = map<string, Terminal>

  function RecordId(t: Terminal): string {
    CompletionId(t.sender, t.revision, t.wireId)
  }

  predicate Oldest(ts: Terminals, id: string) {
    id in ts && forall j :: j in ts ==> ts[id].expiresAt <= ts[j].expiresAt
  }

  /** The oldest records go until no more than 1024 are left; among equally old ones, any. */
  ghost predicate Evicted(ts: Terminals, ts': Terminals)
    decreases |ts|
  {
    if |ts| <= MAXIMUM_TERMINALS then ts' == ts
    else exists id :: Oldest(ts, id) && Evicted(ts - {id}, ts')
  }

  /** RememberMediaTerminal, once for each record. */
  ghost predicate Remembered(ts: Terminals, records: seq<Terminal>, ts': Terminals)
    decreases |records|
  {
    if records == [] then ts' == ts
    else
      var earlier, last := records[..|records| - 1], records[|records| - 1];
      exists mid: Terminals :: Remembered(ts, earlier, mid) && Evicted(mid[RecordId(last) := last], ts')
  }

  function Unexpired(ts: Terminals, now: int): Terminals {
    map id | id in ts && ts[id].expiresAt > now :: ts[id]
  }

  // ----- State -----

  /** What the strand posts to the Qt thread, with the sender whose context the callback captured. */
  datatype Post = Post(key: Key, sender: ParticipantKey, message: T.QtMessage) | PostCancel(sender: ParticipantKey)

  datatype StrandPost = StrandPost(key: Key, sender: ParticipantKey, message: T.StrandMessage)

  datatype Waiting = Waiting(key: Key, sender: ParticipantKey, frame: T.Frame)

  /** An entry of _inboundTransferLedger. */
  datatype Entry = Entry(key: Key, committed: bool)

  datatype Report = Report(id: string, signal: T.Signal)

  /** A media_resume request that was published: the transfer, whom it went to, and the indices it asks for. */
  datatype Asked = Asked(key: Key, recipient: string, missing: seq<nat>)

  datatype Receiver = Receiver(
    session: nat, accepting: bool, transfers: map<Key, T.Transfer>, terminals: Terminals,
    toStrand: seq<StrandPost>, toQt: seq<Post>, frames: seq<Waiting>, ledger: map<string, Entry>, log: seq<Report>,
    outbox: seq<Asked>)

  function Initial(session: nat): Receiver {
    Receiver(session, true, map[], map[], [], [], [], map[], [], [])
  }

  predicate TransfersOk(w: Receiver) {
    forall k :: k in w.transfers ==> T.TransferOk(w.transfers[k])
  }

  // ----- The strand's callbacks -----

  /** A callback's effect, and the terminal records it leaves. */
  datatype Outcome = Outcome(state: Receiver, records: seq<Terminal>)

  function RecordOf(k: Key, sender: ParticipantKey, now: int): Terminal {
    Terminal(sender, k.revision, k.wireId, now + CACHE_LIFETIME)
  }

  function Posts(k: Key, sender: ParticipantKey, messages: seq<T.QtMessage>): seq<Post> {
    if messages == [] then [] else [Post(k, sender, messages[0])] + Posts(k, sender, messages[1..])
  }

  function KeyFor(w: Receiver, sender: ParticipantKey, revision: nat, wireId: string): Key {
    Key(w.session, sender.generation, sender.incarnation, revision, wireId)
  }

  /**
   The media part of handleDataReceivedOnSessionStrand. Tickets are revoked on another thread, so the ticket of the
   transfer is asked for again: `active` is the answer to that second test.
   */
  function OnPacket(decode: T.Decoder, w: Receiver, sender: ParticipantKey, revision: nat, p: T.Packet, now: int,
                    tickets: set<ParticipantKey>, active: bool): Outcome
    requires TransfersOk(w)
  {
    var id := CompletionId(sender, revision, p.wireId);
    if !w.accepting || sender !in tickets || !T.WellFormed(p) || (id in w.terminals && w.terminals[id].expiresAt > now)
    then Outcome(w, [])
    else OnNewPacket(decode, w.(terminals := w.terminals - {id}), sender, revision, p, now, active)
  }

  /** The same, of a transfer that has no terminal record. */
  function OnNewPacket(decode: T.Decoder, w: Receiver, sender: ParticipantKey, revision: nat, p: T.Packet, now: int,
                       active: bool): Outcome
    requires TransfersOk(w) && T.WellFormed(p)
  {
    var k := KeyFor(w, sender, revision, p.wireId);
    if k !in w.transfers && |w.transfers| >= MAXIMUM_TRANSFERS then Outcome(w, [])
    else
      var t := if k in w.transfers then w.transfers[k] else T.NewTransfer(p, sender, now);
      if t.owner != sender || !active || t.meta != p.meta then Outcome(w.(transfers := w.transfers[k := t]), [])
      else
        var (t', messages) := T.Absorb(decode, t, p, now);
        Absorbed(w, k, sender, t', messages, now)
  }

  /** The transfer after a packet, None if it has failed, and what is posted about it. */
  function Absorbed(w: Receiver, k: Key, sender: ParticipantKey, t: Option<T.Transfer>, messages: seq<T.QtMessage>,
                    now: int): Outcome
  {
    var posted := w.(toQt := w.toQt + Posts(k, sender, messages));
    if t.Some? then Outcome(posted.(transfers := w.transfers[k := t.value]), [])
    else Outcome(posted.(transfers := w.transfers - {k}), [RecordOf(k, sender, now)])
  }

  /** failInboundMediaTransferOnStrand */
  function OnFail(w: Receiver, k: Key, now: int): Outcome {
    if k !in w.transfers then Outcome(w, [])
    else
      var sender := w.transfers[k].owner;
      Outcome(w.(transfers := w.transfers - {k}, toQt := w.toQt + [Post(k, sender, T.Fail)]),
              [RecordOf(k, sender, now)])
  }

  /** What one pass of processMediaRecovery does about one transfer. */
  datatype Decision = Leave | Touch | Ask(touch: bool, missing: seq<nat>) | GiveUp

  /** The identities in the room with their sids, and the senders whose tickets are active. */
  datatype Roster = Roster(peers: map<string, string>, tickets: set<ParticipantKey>)

  /** The indices a request asks for: the first missing ones, or the last index when none is missing. */
  function Wanted(t: T.Transfer): seq<nat>
    requires T.TransferOk(t)
  {
    var missing := MissingFrom(t.chunks, 0, t.meta.totalChunks, RECOVERY_BATCH);
    if missing == [] then [t.meta.totalChunks - 1] else missing
  }

  function Decide(t: T.Transfer, force: bool, now: int, roster: Roster): Decision
    requires T.TransferOk(t)
  {
    if force && (t.owner.identity !in roster.peers || roster.peers[t.owner.identity] != t.owner.sid) then GiveUp
    else if t.owner !in roster.tickets then
      if !force && now - t.lastActive >= RECOVERY_TIMEOUT then GiveUp else Leave
    else if !force && now - t.lastActive >= RECOVERY_TIMEOUT then GiveUp
    else if !t.resumable then if force then Touch else Leave
    else if !force && (now - t.lastActive < RECOVERY_INTERVAL || now - t.lastRecovery < RECOVERY_INTERVAL) then Leave
    else if t.meta.totalChunks > MAXIMUM_CHUNKS then if force then Touch else Leave
    else Ask(force, Wanted(t))
  }

  function Decided(t: T.Transfer, d: Decision, now: int): T.Transfer {
    match d
    case Touch => t.(lastActive := now)
    case Ask(touch, _) => t.(lastActive := if touch then now else t.lastActive, lastRecovery := now)
    case _ => t
  }

  /** Requests for the transfers of `order`, in that order. */
  function Asks(transfers: map<Key, T.Transfer>, order: seq<Key>, force: bool, now: int, roster: Roster): seq<Post>
    requires forall k :: k in transfers ==> T.TransferOk(transfers[k])
    decreases |order|
  {
    if order == [] then []
    else
      var rest, k := Asks(transfers, order[..|order| - 1], force, now, roster), order[|order| - 1];
      if k in transfers && Decide(transfers[k], force, now, roster).Ask?
      then rest + [Post(k, transfers[k].owner, T.Request(Decide(transfers[k], force, now, roster).missing))]
      else rest
  }

  /** Every key of a table once, in the order the table iterates. */
  ghost predicate Iterates<K>(order: seq<K>, keys: set<K>) {
    && (forall i :: 0 <= i < |order| ==> order[i] in keys)
    && (forall k :: k in keys ==> k in order)
    && (forall i, j :: 0 <= i < j < |order| ==> order[i] != order[j])
  }

  /** The keys one pass of the recovery gives up, in order. */
  function GivenUp(transfers: map<Key, T.Transfer>, order: seq<Key>, force: bool, now: int, roster: Roster): seq<Key>
    requires forall k :: k in transfers ==> T.TransferOk(transfers[k])
    decreases |order|
  {
    if order == [] then []
    else
      var rest, k := GivenUp(transfers, order[..|order| - 1], force, now, roster), order[|order| - 1];
      if k in transfers && Decide(transfers[k], force, now, roster).GiveUp? then rest + [k] else rest
  }

  /** processMediaRecovery up to its failures, which are failed one by one afterwards. */
  function OnRecover(w: Receiver, force: bool, now: int, roster: Roster, order: seq<Key>): Outcome
    requires TransfersOk(w)
  {
    if !w.accepting then Outcome(w, [])
    else Outcome(w.(terminals := Unexpired(w.terminals, now),
                    transfers := map k | k in w.transfers ::
                                   Decided(w.transfers[k], Decide(w.transfers[k], force, now, roster), now),
                    toQt := w.toQt + Asks(w.transfers, order, force, now, roster)), [])
  }

  function RecordsOf(transfers: map<Key, T.Transfer>, order: seq<Key>, sender: ParticipantKey, now: int): seq<Terminal>
    decreases |order|
  {
    if order == [] then []
    else
      var rest, k := RecordsOf(transfers, order[..|order| - 1], sender, now), order[|order| - 1];
      if k in transfers && transfers[k].owner == sender then rest + [RecordOf(k, sender, now)] else rest
  }

  /** The strand's part of cancelInboundTransfersForParticipant. */
  function OnCancel(w: Receiver, sender: ParticipantKey, now: int, order: seq<Key>): Outcome {
    if !w.accepting then Outcome(w, [])
    else Outcome(w.(transfers := map k | k in w.transfers && w.transfers[k].owner != sender :: w.transfers[k],
                    toQt := w.toQt + [PostCancel(sender)]), RecordsOf(w.transfers, order, sender, now))
  }

  /** A callback the Qt thread posted: a delivery was refused, or it has been committed. */
  function OnStrandPost(w: Receiver, post: StrandPost, now: int): Outcome {
    var k := post.key;
    match post.message
    case Retry =>
      if k in w.transfers then Outcome(w.(transfers := w.transfers[k := w.transfers[k].(queued := false)]), [])
      else Outcome(w, [])
    case Commit =>
      if !w.accepting then Outcome(w, [])
      else Outcome(w.(transfers := w.transfers - {k}, toQt := w.toQt + [Post(k, post.sender, T.Acknowledge)]),
                   [RecordOf(k, post.sender, now)])
  }

  // ----- The Qt thread's callbacks -----

  datatype Phase = InMeeting | Reconnecting | Elsewhere

  /** Is there a room, what is the meeting's state, are keys being recovered, is a first reconnection pending? */
  datatype Meeting = Meeting(room: bool, phase: Phase, recovering: bool, starting: bool)

  /**
   What a callback of the Qt thread finds: whether its session is current, the senders whose context is, the meeting,
   the active tickets, the participants by identity, and whether the transport takes what is published.
   */
  datatype QtView = QtView(session: bool, senders: set<ParticipantKey>, meeting: Meeting, tickets: set<ParticipantKey>,
                           participants: map<string, ParticipantKey>, transport: bool)

  predicate HasEntry(w: Receiver, k: Key, committed: bool) {
    UiTransferId(k) in w.ledger && w.ledger[UiTransferId(k)] == Entry(k, committed)
  }

  function Emit(w: Receiver, k: Key, signal: T.Signal): Receiver {
    w.(log := w.log + [Report(UiTransferId(k), signal)])
  }

  predicate Current(view: QtView, sender: ParticipantKey) {
    view.session && sender in view.senders
  }

  /** Whether a request to this sender is published. */
  predicate MayAsk(view: QtView, sender: ParticipantKey) {
    && view.session && view.meeting.room && view.meeting.phase.InMeeting? && !view.meeting.recovering
    && sender in view.tickets
    && sender.identity in view.participants && view.participants[sender.identity] == sender && view.transport
  }

  predicate Belongs(k: Key, session: nat, sender: ParticipantKey) {
    k.session == session && k.generation == sender.generation && k.incarnation == sender.incarnation
  }

  /** The uncommitted entries of a sender, each about to be reported as failed. */
  function FailingOf(ledger: map<string, Entry>, order: seq<string>, session: nat, sender: ParticipantKey): seq<Waiting>
    decreases |order|
  {
    if order == [] then []
    else
      var rest, id := FailingOf(ledger, order[..|order| - 1], session, sender), order[|order| - 1];
      if id in ledger && Belongs(ledger[id].key, session, sender) && !ledger[id].committed
      then rest + [Waiting(ledger[id].key, sender, T.Failing)] else rest
  }

  function OnQtPost(w: Receiver, post: Post, view: QtView, order: seq<string>): Receiver {
    match post
    case PostCancel(sender) =>
      if !view.session then w
      else w.(ledger := map id | id in w.ledger && !Belongs(w.ledger[id].key, w.session, sender) :: w.ledger[id],
              frames := w.frames + FailingOf(w.ledger, order, w.session, sender))
    case Post(k, sender, message) => OnTransferPost(w, k, sender, message, view)
  }

  function OnTransferPost(w: Receiver, k: Key, sender: ParticipantKey, message: T.QtMessage, view: QtView): Receiver {
    var id := UiTransferId(k);
    match message
    case Start =>
      if Current(view, sender) && id !in w.ledger then Emit(w.(ledger := w.ledger[id := Entry(k, false)]), k, T.Started)
      else w
    case Progress(percent) =>
      if Current(view, sender) && HasEntry(w, k, false) then Emit(w, k, T.Progressed(percent)) else w
    case Complete(data) =>
      if Current(view, sender) && HasEntry(w, k, false)
      then Emit(w.(frames := w.frames + [Waiting(k, sender, T.Delivering(data))]), k, T.Progressed(100))
      else w.(toStrand := w.toStrand + [StrandPost(k, sender, T.Retry)])
    case Request(missing) =>
      if MayAsk(view, sender) && HasEntry(w, k, false)
      then w.(outbox := w.outbox + [Asked(k, sender.identity, missing)]) else w
    case Fail =>
      if view.session && HasEntry(w, k, false) then Emit(w.(ledger := w.ledger - {id}), k, T.Failed) else w
    case Acknowledge => if view.session && HasEntry(w, k, true) then w.(ledger := w.ledger - {id}) else w
    case Cancel => w
  }

  function OnFrame(w: Receiver, f: Waiting, view: QtView): Receiver {
    match f.frame
    case Delivering(data) =>
      if Current(view, f.sender) && HasEntry(w, f.key, false)
      then Emit(w.(ledger := w.ledger[UiTransferId(f.key) := Entry(f.key, true)],
                   toStrand := w.toStrand + [StrandPost(f.key, f.sender, T.Commit)]), f.key, T.Completed(data))
      else w.(toStrand := w.toStrand + [StrandPost(f.key, f.sender, T.Retry)])
    case Failing => if view.session then Emit(w, f.key, T.Failed) else w
  }

  // ----- Runs -----

  datatype Callback =
    | PacketIn(sender: ParticipantKey, revision: nat, packet: T.Packet, now: int, tickets: set<ParticipantKey>,
               active: bool)
    | FailIn(key: Key, now: int)
    | RecoverIn(force: bool, now: int, roster: Roster, order: seq<Key>)
    | CancelIn(sender: ParticipantKey, now: int, order: seq<Key>)
    | StopAccepting
    | StrandPostIn(now: int)
    | QtPostIn(view: QtView, ids: seq<string>)
    | ResumeIn(frame: nat, view: QtView)

  ghost predicate Ready(w: Receiver, c: Callback) {
    && TransfersOk(w)
    && match c
       case RecoverIn(_, _, _, order) => Iterates(order, w.transfers.Keys)
       case CancelIn(_, _, order) => Iterates(order, w.transfers.Keys)
       case StrandPostIn(_) => w.toStrand != []
       case QtPostIn(_, ids) => w.toQt != [] && Iterates(ids, w.ledger.Keys)
       case ResumeIn(i, _) => i < |w.frames|
       case _ => true
  }

  function Handle(decode: T.Decoder, w: Receiver, c: Callback): Outcome
    requires TransfersOk(w)
    requires (c.StrandPostIn? ==> w.toStrand != []) && (c.QtPostIn? ==> w.toQt != [])
    requires c.ResumeIn? ==> c.frame < |w.frames|
  {
    match c
    case PacketIn(sender, revision, p, now, tickets, active) =>
      OnPacket(decode, w, sender, revision, p, now, tickets, active)
    case FailIn(k, now) => OnFail(w, k, now)
    case RecoverIn(force, now, roster, order) => OnRecover(w, force, now, roster, order)
    case CancelIn(sender, now, order) => OnCancel(w, sender, now, order)
    case StopAccepting => Outcome(w.(accepting := false), [])
    case StrandPostIn(now) => OnStrandPost(w.(toStrand := w.toStrand[1..]), w.toStrand[0], now)
    case QtPostIn(view, ids) => Outcome(OnQtPost(w.(toQt := w.toQt[1..]), w.toQt[0], view, ids), [])
    case ResumeIn(i, view) => Outcome(OnFrame(w.(frames := T.Without(w.frames, i)), w.frames[i], view), [])
  }

  /** The state an outcome leads to; which of equally old records go is left open. */
  ghost predicate Follows(o: Outcome, w': Receiver) {
    w' == o.state.(terminals := w'.terminals) && Remembered(o.state.terminals, o.records, w'.terminals)
  }

  /** A callback takes the receiver from w to w'. */
  ghost predicate Step(decode: T.Decoder, w: Receiver, c: Callback, w': Receiver) {
    Ready(w, c) && Follows(Handle(decode, w, c), w')
  }
}
