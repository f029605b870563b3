/**
 One inbound media transfer, seen across the two threads that handle it
 (src/core/meeting_coordinator.cpp, with the state of src/core/meeting_session_runtime.h). The strand
 owns the assembly and the terminal record, the Qt thread owns the ledger entry; they talk only by
 two FIFO queues. A Qt signal may run a nested event loop, so a callback that emits one is split
 there: what remains of it waits in a frame, and anything may happen before it resumes.
 */
module MediaTransfer {
  import opened Options
  import opened MediaKeys
  import opened MediaSlices

  // ----- The strand's side -----

  datatype Meta = Meta(mediaType: string, fileName: string, totalChunks: int, totalSize: int)

  /** A media_start or media_chunk message. */
  datatype Packet = Packet(isChunk: bool, wireId: string, meta: Meta, resumable: bool, index: int, data: string)

  /** The fields the receiver insists on before it looks at any state. */
  predicate WellFormed(p: Packet) {
    && p.wireId != "" && Utf16Size(p.wireId) <= 256
    && 0 < p.meta.totalChunks <= MAXIMUM_CHUNKS
    && 0 < p.meta.totalSize <= MAXIMUM_FILE
    && (p.meta.mediaType == "file" || p.meta.mediaType == "image")
    && (p.isChunk ==> 0 <= p.index < p.meta.totalChunks && p.data != "" && Utf16Size(p.data) <= SLICE_SIZE)
  }

  /** InboundMediaTransfer */
  datatype Transfer = Transfer(meta: Meta, owner: ParticipantKey, resumable: bool, chunks: map<nat, string>,
                               queued: bool, lastActive: int, lastRecovery: int)

  predicate TransferOk(t: Transfer) {
    0 < t.meta.totalChunks && forall i :: i in t.chunks ==> i < t.meta.totalChunks
  }

  /** What the strand posts to the Qt thread about one transfer; Cancel concerns its whole sender. */
  datatype QtMessage =
    | Start
    | Progress(percent: int)
    | Complete(data: seq<int>)
    | Request(missing: seq<nat>)
    | Fail
    | Acknowledge
    | Cancel

  /** What the Qt thread posts back. */
  datatype StrandMessage = Retry | Commit

  type Decoder = string -> seq<int>

  function NewTransfer(p: Packet, owner: ParticipantKey, now: int): Transfer {
    Transfer(p.meta, owner, p.resumable, map[], false, now, 0)
  }

  function WithPiece(t: Transfer, p: Packet, now: int): (t': Transfer)
    requires TransferOk(t) && 0 <= p.index < t.meta.totalChunks
    ensures TransferOk(t')
  {
    if p.index in t.chunks then t else t.(chunks := t.chunks[p.index := p.data], lastActive := now)
  }

  function Percent(count: nat, total: int): int
    requires total > 0
  {
    if count * 100 / total < 99 then count * 100 / total else 99
  }

  /** All chunks, joined in order: every index is there, by pigeonhole. */
  function Joined(t: Transfer): string
    requires TransferOk(t) && |t.chunks| == t.meta.totalChunks
  {
    Pigeonhole(t.chunks, t.meta.totalChunks);
    Join(t.chunks, t.meta.totalChunks)
  }

  /**
   A packet that matches its transfer: the transfer afterwards, None if the assembled data has the
   wrong size, and the messages posted to the Qt thread.
   */
  function Absorb(decode: Decoder, t: Transfer, p: Packet, now: int): (Option<Transfer>, seq<QtMessage>)
    requires TransferOk(t) && p.meta == t.meta && WellFormed(p)
  {
    if !p.isChunk then (Some(t), [Start])
    else
      var t1 := WithPiece(t, p, now);
      var messages := [Start, Progress(Percent(|t1.chunks|, t1.meta.totalChunks))];
      if |t1.chunks| != t1.meta.totalChunks || t1.queued then (Some(t1), messages)
      else
        var data := decode(Joined(t1));
        if |data| != t1.meta.totalSize then (None, messages + [Fail])
        else (Some(t1.(queued := true)), messages + [Complete(data)])
  }

  // ----- Both sides -----

  datatype Signal = Started | Progressed(percent: int) | Completed(data: seq<int>) | Failed

  /** A callback waiting for the event loop it runs inside to return. */
  datatype Frame = Delivering(data: seq<int>) | Failing

  /**
   One transfer: the strand's assembly and terminal record, whether the strand still accepts data, the
   two queues, the waiting frames, the ledger entry (true once committed), and the signals so far.
   */
  datatype State = State(transfer: Option<Transfer>, terminal: bool, accepting: bool, toStrand: seq<StrandMessage>,
                         toQt: seq<QtMessage>, frames: seq<Frame>, ledger: Option<bool>, log: seq<Signal>)

  const INITIAL := State(None, false, true, [], [], [], None, [])

  /** What a Qt callback finds when it runs: is its session, and the sender it came from, still current? */
  datatype Currency = Currency(session: bool, sender: bool)

  datatype Event =
    | Quiet
    | Receive(packet: Packet, owner: ParticipantKey, now: int, room: bool, ticket: bool)
    | FailOnStrand
    | CancelOnStrand
    | Touch(now: int)
    | AskForMissing(now: int, touch: bool, missing: seq<nat>)
    | DropTerminal
    | StopAccepting
    | RunOnStrand
    | RunOnQt(current: Currency)
    | ResumeFrame(frame: nat, current: Currency)

  function Bury(s: State, message: QtMessage): State {
    s.(transfer := None, terminal := true, toQt := s.toQt + [message])
  }

  /** handleDataReceivedOnSessionStrand, from the terminal test on. */
  function ReceivePacket(decode: Decoder, s: State, p: Packet, owner: ParticipantKey, now: int, room: bool,
                         ticket: bool)
    : State
    requires WellFormed(p) && (s.transfer.Some? ==> TransferOk(s.transfer.value))
  {
    if s.terminal || !s.accepting || (s.transfer.None? && !room) then s
    else
      var t := if s.transfer.Some? then s.transfer.value else NewTransfer(p, owner, now);
      if t.owner != owner || !ticket || t.meta != p.meta then s.(transfer := Some(t))
      else
        var (t', messages) := Absorb(decode, t, p, now);
        s.(transfer := t', terminal := t'.None?, toQt := s.toQt + messages)
  }

  predicate Uncommitted(s: State, current: Currency) {
    current.session && current.sender && s.ledger == Some(false)
  }

  /** The Qt thread runs the callback at the head of its queue, up to its first nested event loop. */
  function HandleOnQt(s: State, m: QtMessage, current: Currency): State {
    match m
    case Start =>
      if current.session && current.sender && s.ledger.None?
      then s.(ledger := Some(false), log := s.log + [Started]) else s
    case Progress(percent) =>
      if Uncommitted(s, current) then s.(log := s.log + [Progressed(percent)]) else s
    case Complete(data) =>
      if Uncommitted(s, current)
      then s.(log := s.log + [Progressed(100)], frames := s.frames + [Delivering(data)])
      else s.(toStrand := s.toStrand + [Retry])
    case Request(_) => s
    case Fail =>
      if current.session && s.ledger == Some(false) then s.(ledger := None, log := s.log + [Failed]) else s
    case Acknowledge =>
      if current.session && s.ledger == Some(true) then s.(ledger := None) else s
    case Cancel =>
      if !current.session then s
      else s.(ledger := None, frames := if s.ledger == Some(false) then s.frames + [Failing] else s.frames)
  }

  function Without<T>(s: seq<T>, i: nat): seq<T>
    requires i < |s|
  {
    s[..i] + s[i + 1..]
  }

  function HandleFrame(s: State, f: Frame, current: Currency): State {
    match f
    case Delivering(data) =>
      if Uncommitted(s, current)
      then s.(ledger := Some(true), toStrand := s.toStrand + [Commit], log := s.log + [Completed(data)])
      else s.(toStrand := s.toStrand + [Retry])
    case Failing => if current.session then s.(log := s.log + [Failed]) else s
  }

  function HandleOnStrand(s: State, m: StrandMessage): State {
    match m
    case Retry => if s.transfer.Some? then s.(transfer := Some(s.transfer.value.(queued := false))) else s
    case Commit => if s.accepting then Bury(s, Acknowledge) else s
  }

  predicate Enabled(s: State, e: Event) {
    match e
    case Receive(p, _, _, _, _) => WellFormed(p) && (s.transfer.Some? ==> TransferOk(s.transfer.value))
    case RunOnStrand => s.toStrand != []
    case RunOnQt(_) => s.toQt != []
    case ResumeFrame(i, _) => i < |s.frames|
    case _ => true
  }

  function Apply(decode: Decoder, s: State, e: Event): State
    requires Enabled(s, e)
  {
    match e
    case Quiet => s
    case Receive(p, owner, now, room, ticket) => ReceivePacket(decode, s, p, owner, now, room, ticket)
    case FailOnStrand => if s.transfer.Some? then Bury(s, Fail) else s
    case CancelOnStrand =>
      if s.transfer.Some? then Bury(s, Cancel) else s.(toQt := s.toQt + [Cancel])
    case Touch(now) => if s.transfer.Some? then s.(transfer := Some(s.transfer.value.(lastActive := now))) else s
    case AskForMissing(now, touch, missing) =>
      if s.transfer.None? then s
      else
        var t := s.transfer.value;
        s.(transfer := Some(t.(lastActive := if touch then now else t.lastActive, lastRecovery := now)),
           toQt := s.toQt + [Request(missing)])
    case DropTerminal => s.(terminal := false)
    case StopAccepting => s.(accepting := false)
    case RunOnStrand => HandleOnStrand(s.(toStrand := s.toStrand[1..]), s.toStrand[0])
    case RunOnQt(current) => HandleOnQt(s.(toQt := s.toQt[1..]), s.toQt[0], current)
    case ResumeFrame(i, current) => HandleFrame(s.(frames := Without(s.frames, i)), s.frames[i], current)
  }
}
