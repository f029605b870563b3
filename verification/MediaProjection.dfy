/**
 What the receiver as a whole does to one transfer is a run of that transfer's own machine. Both keys
 must be injective for this: a terminal record and a ledger entry are found by text.
 */
module MediaProjection {
  import opened Options
  import opened MediaKeys
  import opened Picks
  import T = MediaTransfer
  import opened MediaReceiver
  import opened MediaSignals

  /** Where an element of a queue is found in the part picked from it. */
  function Rank<X, Y>(q: seq<X>, f: X -> Option<Y>, i: nat): nat
    requires i < |q|
  {
    |Pick(q[..i], f)|
  }

  lemma PickWithout<X, Y>(q: seq<X>, f: X -> Option<Y>, i: nat)
    requires i < |q|
    ensures f(q[i]).None? ==> Pick(T.Without(q, i), f) == Pick(q, f)
    ensures f(q[i]).Some? ==> Rank(q, f, i) < |Pick(q, f)| && Pick(q, f)[Rank(q, f, i)] == f(q[i]).value
                              && Pick(T.Without(q, i), f) == T.Without(Pick(q, f), Rank(q, f, i))
  {
    hide Pick;
    assert q == q[..i] + ([q[i]] + q[i + 1..]);
    PickConcat(q[..i], [q[i]] + q[i + 1..], f);
    PickConcat([q[i]], q[i + 1..], f);
    PickConcat(q[..i], q[i + 1..], f);
    PickOne(q[i], f);
  }

  // ----- One transfer -----

  /** Which participant an incarnation is: its sid and its identity. */
  type Names = (nat, nat) -> (string, string)

  function OwnerAt(names: Names, generation: nat, incarnation: nat): ParticipantKey {
    ParticipantKey(generation, incarnation, names(generation, incarnation).0, names(generation, incarnation).1)
  }

  function OwnerOf(names: Names, k: Key): ParticipantKey {
    OwnerAt(names, k.generation, k.incarnation)
  }

  predicate Known(names: Names, sender: ParticipantKey) {
    sender == OwnerAt(names, sender.generation, sender.incarnation)
  }

  function RecordKey(names: Names, k: Key): string {
    CompletionId(OwnerOf(names, k), k.revision, k.wireId)
  }

  function StrandPart(k: Key): StrandPost -> Option<T.StrandMessage> {
    (p: StrandPost) => if p.key == k then Some(p.message) else None
  }

  function QtPart(session: nat, k: Key): Post -> Option<T.QtMessage> {
    (p: Post) => match p
      case Post(key, _, message) => if key == k then Some(message) else None
      case PostCancel(sender) => if Belongs(k, session, sender) then Some(T.Cancel) else None
  }

  function FramePart(k: Key): Waiting -> Option<T.Frame> {
    (f: Waiting) => if f.key == k then Some(f.frame) else None
  }

  function LogPart(k: Key): Report -> Option<T.Signal> {
    (r: Report) => if r.id == UiTransferId(k) then Some(r.signal) else None
  }

  function TransferPart(w: Receiver, k: Key): Option<T.Transfer> {
    if k in w.transfers then Some(w.transfers[k]) else None
  }

  function LedgerPart(w: Receiver, k: Key): Option<bool> {
    if UiTransferId(k) in w.ledger then Some(w.ledger[UiTransferId(k)].committed) else None
  }

  /** The transfer k within the receiver. */
  function Local(names: Names, w: Receiver, k: Key): T.State {
    T.State(TransferPart(w, k), RecordKey(names, k) in w.terminals, w.accepting, Pick(w.toStrand, StrandPart(k)),
            Pick(w.toQt, QtPart(w.session, k)), Pick(w.frames, FramePart(k)), LedgerPart(w, k), Pick(w.log, LogPart(k)))
  }

  // ----- What every step keeps -----

  predicate KeyOk(names: Names, session: nat, k: Key, sender: ParticipantKey) {
    k.session == session && sender == OwnerOf(names, k)
  }

  predicate PostOk(names: Names, session: nat, p: Post) {
    match p
    case Post(k, sender, message) => KeyOk(names, session, k, sender) && message != T.Cancel
    case PostCancel(sender) => Known(names, sender)
  }

  predicate PostsOk(names: Names, session: nat, q: seq<Post>) {
    forall i :: 0 <= i < |q| ==> PostOk(names, session, q[i])
  }

  predicate FramesOk(names: Names, session: nat, q: seq<Waiting>) {
    forall i :: 0 <= i < |q| ==> KeyOk(names, session, q[i].key, q[i].sender)
  }

  predicate StrandPostsOk(names: Names, session: nat, q: seq<StrandPost>) {
    forall i :: 0 <= i < |q| ==> KeyOk(names, session, q[i].key, q[i].sender)
  }

  predicate OwnersOk(names: Names, session: nat, transfers: map<Key, T.Transfer>) {
    forall k :: k in transfers ==> T.TransferOk(transfers[k]) && KeyOk(names, session, k, transfers[k].owner)
  }

  /** Ledger entries are found under their own id. */
  predicate LedgerOk(session: nat, ledger: map<string, Entry>) {
    forall id :: id in ledger ==> ledger[id].key.session == session && UiTransferId(ledger[id].key) == id
  }

  /** Every part of the state that names a transfer names its owner. */
  predicate Consistent(names: Names, w: Receiver) {
    && OwnersOk(names, w.session, w.transfers)
    && LedgerOk(w.session, w.ledger)
    && StrandPostsOk(names, w.session, w.toStrand)
    && PostsOk(names, w.session, w.toQt)
    && FramesOk(names, w.session, w.frames)
  }

  predicate KnownCallback(names: Names, c: Callback) {
    match c
    case PacketIn(sender, _, _, _, _, _) => Known(names, sender)
    case CancelIn(sender, _, _) => Known(names, sender)
    case _ => true
  }

  lemma {:induction false} MessagesOk(names: Names, session: nat, k: Key, sender: ParticipantKey,
                                      messages: seq<T.QtMessage>)
    requires KeyOk(names, session, k, sender) && forall i :: 0 <= i < |messages| ==> messages[i] != T.Cancel
    ensures PostsOk(names, session, Posts(k, sender, messages))
  {
    hide KeyOk;
    if messages != [] {
      MessagesOk(names, session, k, sender, messages[1..]);
    }
  }

  lemma {:induction false} AsksOk(names: Names, w: Receiver, order: seq<Key>, force: bool, now: int, roster: Roster)
    requires Consistent(names, w)
    ensures PostsOk(names, w.session, Asks(w.transfers, order, force, now, roster))
    decreases |order|
  {
    hide KeyOk, Decide, LedgerOk, StrandPostsOk, FramesOk;
    if order != [] {
      AsksOk(names, w, order[..|order| - 1], force, now, roster);
    }
  }

  lemma {:induction false} FailingFramesOk(names: Names, w: Receiver, order: seq<string>, sender: ParticipantKey)
    requires Consistent(names, w) && Known(names, sender)
    ensures FramesOk(names, w.session, FailingOf(w.ledger, order, w.session, sender))
    decreases |order|
  {
    hide OwnersOk, StrandPostsOk, PostsOk;
    if order != [] {
      FailingFramesOk(names, w, order[..|order| - 1], sender);
    }
  }

  lemma NoCancelAbsorbed(decode: T.Decoder, t: T.Transfer, p: T.Packet, now: int)
    requires T.TransferOk(t) && p.meta == t.meta && T.WellFormed(p)
    ensures var (t', messages) := T.Absorb(decode, t, p, now);
            (t'.Some? ==> T.TransferOk(t'.value) && t'.value.owner == t.owner)
            && forall i :: 0 <= i < |messages| ==> messages[i] != T.Cancel
  {
  }

  lemma StartOk(p: T.Packet, owner: ParticipantKey, now: int)
    requires T.WellFormed(p)
    ensures T.TransferOk(T.NewTransfer(p, owner, now))
  {
  }

  lemma PostsOkConcat(names: Names, session: nat, q: seq<Post>, r: seq<Post>)
    requires PostsOk(names, session, q) && PostsOk(names, session, r)
    ensures PostsOk(names, session, q + r)
  {
    hide PostOk;
  }

  lemma AbsorbedConsistent(names: Names, w: Receiver, k: Key, sender: ParticipantKey, t: Option<T.Transfer>,
                           messages: seq<T.QtMessage>, now: int)
    requires Consistent(names, w) && KeyOk(names, w.session, k, sender)
    requires t.Some? ==> T.TransferOk(t.value) && t.value.owner == sender
    requires forall i :: 0 <= i < |messages| ==> messages[i] != T.Cancel
    ensures Consistent(names, Absorbed(w, k, sender, t, messages, now).state)
  {
    hide LedgerOk, StrandPostsOk, FramesOk, PostsOk, T.TransferOk, OwnerOf, Posts;
    MessagesOk(names, w.session, k, sender, messages);
    PostsOkConcat(names, w.session, w.toQt, Posts(k, sender, messages));
  }

  lemma NewPacketConsistent(decode: T.Decoder, names: Names, w: Receiver, sender: ParticipantKey, revision: nat,
                            p: T.Packet, now: int, active: bool)
    requires Consistent(names, w) && Known(names, sender) && T.WellFormed(p)
    ensures Consistent(names, OnNewPacket(decode, w, sender, revision, p, now, active).state)
  {
    hide T.Absorb, LedgerOk, StrandPostsOk, FramesOk, PostsOk, T.WellFormed, CompletionId, T.TransferOk, Absorbed;
    var k := KeyFor(w, sender, revision, p.wireId);
    StartOk(p, sender, now);
    var t := if k in w.transfers then w.transfers[k] else T.NewTransfer(p, sender, now);
    if t.meta == p.meta {
      NoCancelAbsorbed(decode, t, p, now);
      var (t', messages) := T.Absorb(decode, t, p, now);
      AbsorbedConsistent(names, w, k, sender, t', messages, now);
    }
  }

  lemma PacketConsistent(decode: T.Decoder, names: Names, w: Receiver, c: Callback)
    requires Consistent(names, w) && Ready(w, c) && c.PacketIn? && Known(names, c.sender)
    ensures Consistent(names, Handle(decode, w, c).state)
  {
    hide OwnersOk, LedgerOk, StrandPostsOk, FramesOk, PostsOk, T.WellFormed, CompletionId, TransfersOk, OnNewPacket;
    var w1 := w.(terminals := w.terminals - {CompletionId(c.sender, c.revision, c.packet.wireId)});
    assert Consistent(names, w1);
    if T.WellFormed(c.packet) {
      NewPacketConsistent(decode, names, w1, c.sender, c.revision, c.packet, c.now, c.active);
    }
  }

  lemma FailConsistent(decode: T.Decoder, names: Names, w: Receiver, c: Callback)
    requires Consistent(names, w) && Ready(w, c) && c.FailIn?
    ensures Consistent(names, Handle(decode, w, c).state)
  {
    hide LedgerOk, StrandPostsOk, FramesOk, TransfersOk, T.TransferOk, OwnerOf;
  }

  lemma DecidedOwners(names: Names, w: Receiver, force: bool, now: int, roster: Roster)
    requires OwnersOk(names, w.session, w.transfers) && TransfersOk(w)
    ensures OwnersOk(names, w.session, map k | k in w.transfers ::
                       Decided(w.transfers[k], Decide(w.transfers[k], force, now, roster), now))
  {
    hide Decide, OwnerOf;
  }

  lemma RecoverConsistent(decode: T.Decoder, names: Names, w: Receiver, c: Callback)
    requires Consistent(names, w) && Ready(w, c) && c.RecoverIn?
    ensures Consistent(names, Handle(decode, w, c).state)
  {
    hide OwnersOk, LedgerOk, StrandPostsOk, FramesOk, PostsOk, Decide, Decided, Asks, Iterates;
    AsksOk(names, w, c.order, c.force, c.now, c.roster);
    PostsOkConcat(names, w.session, w.toQt, Asks(w.transfers, c.order, c.force, c.now, c.roster));
    DecidedOwners(names, w, c.force, c.now, c.roster);
  }

  lemma CancelConsistent(decode: T.Decoder, names: Names, w: Receiver, c: Callback)
    requires Consistent(names, w) && Ready(w, c) && c.CancelIn? && Known(names, c.sender)
    ensures Consistent(names, Handle(decode, w, c).state)
  {
    hide LedgerOk, StrandPostsOk, FramesOk, RecordsOf, Iterates, OwnerOf, OwnerAt, T.TransferOk;
  }

  lemma OnStrandPostConsistent(names: Names, w: Receiver, post: StrandPost, now: int)
    requires Consistent(names, w) && KeyOk(names, w.session, post.key, post.sender)
    ensures Consistent(names, OnStrandPost(w, post, now).state)
  {
    hide LedgerOk, FramesOk, StrandPostsOk, OwnerOf;
  }

  lemma StrandPostConsistent(decode: T.Decoder, names: Names, w: Receiver, c: Callback)
    requires Consistent(names, w) && Ready(w, c) && c.StrandPostIn?
    ensures Consistent(names, Handle(decode, w, c).state)
  {
    hide LedgerOk, FramesOk, OwnersOk, PostsOk, KeyOk, TransfersOk, OnStrandPost;
    OnStrandPostConsistent(names, w.(toStrand := w.toStrand[1..]), w.toStrand[0], c.now);
  }

  lemma TransferPostConsistent(names: Names, w: Receiver, k: Key, sender: ParticipantKey, m: T.QtMessage, view: QtView)
    requires Consistent(names, w) && KeyOk(names, w.session, k, sender)
    ensures Consistent(names, OnTransferPost(w, k, sender, m, view))
  {
    hide OwnersOk, PostsOk, UiTransferId, OwnerOf;
  }

  lemma QtPostConsistent(decode: T.Decoder, names: Names, w: Receiver, c: Callback)
    requires Consistent(names, w) && Ready(w, c) && c.QtPostIn?
    ensures Consistent(names, Handle(decode, w, c).state)
  {
    hide OwnersOk, StrandPostsOk, Iterates, UiTransferId, OwnerOf, OwnerAt, OnTransferPost, TransfersOk;
    var w1, post := w.(toQt := w.toQt[1..]), w.toQt[0];
    assert Consistent(names, w1);
    match post
    case Post(k, sender, message) => TransferPostConsistent(names, w1, k, sender, message, c.view);
    case PostCancel(sender) => FailingFramesOk(names, w1, c.ids, sender);
  }

  lemma OnFrameConsistent(names: Names, w: Receiver, f: Waiting, view: QtView)
    requires Consistent(names, w) && KeyOk(names, w.session, f.key, f.sender)
    ensures Consistent(names, OnFrame(w, f, view))
  {
    hide OwnersOk, PostsOk, FramesOk, UiTransferId, OwnerOf;
  }

  lemma FrameConsistent(decode: T.Decoder, names: Names, w: Receiver, c: Callback)
    requires Consistent(names, w) && Ready(w, c) && c.ResumeIn?
    ensures Consistent(names, Handle(decode, w, c).state)
  {
    hide OwnersOk, PostsOk, LedgerOk, StrandPostsOk, OwnerOf, KeyOk, TransfersOk, OnFrame;
    var w1 := w.(frames := T.Without(w.frames, c.frame));
    assert forall i :: 0 <= i < |w1.frames| ==> w1.frames[i] == w.frames[if i < c.frame then i else i + 1];
    OnFrameConsistent(names, w1, w.frames[c.frame], c.view);
  }

  // ----- Each callback is one step of the transfer's machine -----

  lemma RecordKeyInjective(names: Names, k: Key, l: Key)
    requires k.session == l.session && RecordKey(names, k) == RecordKey(names, l)
    ensures k == l
  {
    CompletionIdInjective(OwnerOf(names, k), k.revision, k.wireId, OwnerOf(names, l), l.revision, l.wireId);
  }

  lemma RecordOfKey(names: Names, session: nat, k: Key, sender: ParticipantKey, now: int)
    requires KeyOk(names, session, k, sender)
    ensures RecordId(RecordOf(k, sender, now)) == RecordKey(names, k)
  {
  }

  function CurrencyOf(names: Names, k: Key, view: QtView): T.Currency {
    T.Currency(view.session, OwnerOf(names, k) in view.senders)
  }

  /** The step a callback is to the transfer k. */
  function LocalEvent(names: Names, w: Receiver, c: Callback, k: Key): T.Event
    requires TransfersOk(w)
    requires (c.StrandPostIn? ==> w.toStrand != []) && (c.QtPostIn? ==> w.toQt != [])
    requires c.ResumeIn? ==> c.frame < |w.frames|
  {
    match c
    case PacketIn(sender, revision, p, now, tickets, active) =>
      var id := CompletionId(sender, revision, p.wireId);
      if k != KeyFor(w, sender, revision, p.wireId) || !w.accepting || sender !in tickets || !T.WellFormed(p)
         || (id in w.terminals && w.terminals[id].expiresAt > now)
      then T.Quiet
      else T.Receive(p, sender, now, |w.transfers| < MAXIMUM_TRANSFERS, active)
    case FailIn(key, _) => if key == k then T.FailOnStrand else T.Quiet
    case RecoverIn(force, now, roster, _) =>
      if !w.accepting || k !in w.transfers then T.Quiet
      else (match Decide(w.transfers[k], force, now, roster)
            case Touch => T.Touch(now)
            case Ask(touch, missing) => T.AskForMissing(now, touch, missing)
            case _ => T.Quiet)
    case CancelIn(sender, _, _) => if w.accepting && Belongs(k, w.session, sender) then T.CancelOnStrand else T.Quiet
    case StopAccepting => T.StopAccepting
    case StrandPostIn(_) => if w.toStrand[0].key == k then T.RunOnStrand else T.Quiet
    case QtPostIn(view, _) =>
      if QtPart(w.session, k)(w.toQt[0]).Some? then T.RunOnQt(CurrencyOf(names, k, view)) else T.Quiet
    case ResumeIn(i, view) =>
      if w.frames[i].key == k then T.ResumeFrame(Rank(w.frames, FramePart(k), i), CurrencyOf(names, k, view))
        else T.Quiet
  }

  /** Whether an outcome leaves a record for k, before anything is evicted. */
  ghost predicate Records(names: Names, o: Outcome, k: Key) {
    RecordKey(names, k) in o.state.terminals || HasRecord(o.records, RecordKey(names, k))
  }

  predicate HasRecord(records: seq<Terminal>, id: string) {
    exists i :: 0 <= i < |records| && RecordId(records[i]) == id
  }

  lemma HasRecordSnoc(records: seq<Terminal>, t: Terminal, id: string)
    ensures HasRecord(records + [t], id) <==> HasRecord(records, id) || RecordId(t) == id
  {
    hide RecordId;
    var more := records + [t];
    assert more[|records|] == t;
    if HasRecord(records, id) {
      var i :| 0 <= i < |records| && RecordId(records[i]) == id;
      assert more[i] == records[i];
    }
  }

  /** The transfer as the callback finds it, once the callback has dropped what has expired. */
  function Before(names: Names, w: Receiver, o: Outcome, k: Key): T.State {
    Local(names, w, k).(terminal := RecordKey(names, k) in o.state.terminals)
  }

  ghost predicate Simulates(decode: T.Decoder, names: Names, w: Receiver, o: Outcome, e: T.Event, k: Key) {
    var s := Before(names, w, o, k);
    T.Enabled(s, e) && T.Apply(decode, s, e) == Local(names, o.state, k).(terminal := Records(names, o, k))
  }

  lemma {:induction false} PickPosts(session: nat, k: Key, sender: ParticipantKey, messages: seq<T.QtMessage>, l: Key)
    ensures Pick(Posts(k, sender, messages), QtPart(session, l)) == if k == l then messages else []
  {
    if messages != [] {
      PickPosts(session, k, sender, messages[1..], l);
      assert Posts(k, sender, messages)[1..] == Posts(k, sender, messages[1..]);
    }
  }

  /** Messages posted about one transfer are seen by that transfer only. */
  lemma PostedLocal(names: Names, w: Receiver, k: Key, sender: ParticipantKey, messages: seq<T.QtMessage>, l: Key)
    ensures Local(names, w.(toQt := w.toQt + Posts(k, sender, messages)), l)
         == Local(names, w, l).(toQt := Local(names, w, l).toQt + (if k == l then messages else []))
  {
    hide Pick, QtPart, RecordKey, UiTransferId;
    PickPosts(w.session, k, sender, messages, l);
    PickConcat(w.toQt, Posts(k, sender, messages), QtPart(w.session, l));
  }

  /** The tables as one transfer sees them. */
  lemma TablesLocal(names: Names, w: Receiver, transfers: map<Key, T.Transfer>, k: Key)
    ensures Local(names, w.(transfers := transfers), k)
         == Local(names, w, k).(transfer := if k in transfers then Some(transfers[k]) else None)
  {
    hide Pick, RecordKey, UiTransferId;
  }

  lemma AbsorbedLocal(names: Names, w: Receiver, k: Key, sender: ParticipantKey, t: Option<T.Transfer>,
                      messages: seq<T.QtMessage>, now: int, l: Key)
    requires KeyOk(names, w.session, k, sender) && l.session == w.session
    ensures var o := Absorbed(w, k, sender, t, messages, now);
            && o.state.terminals == w.terminals
            && (k != l ==> Local(names, o.state, l) == Local(names, w, l))
            && (k == l ==> Local(names, o.state, l)
                           == Local(names, w, l).(transfer := t, toQt := Local(names, w, l).toQt + messages))
            && (Records(names, o, l) <==> RecordKey(names, l) in w.terminals || (k == l && t.None?))
  {
    hide Local, Posts, RecordKey, RecordId, RecordOf;
    if RecordKey(names, k) == RecordKey(names, l) { RecordKeyInjective(names, k, l); }
    RecordOfKey(names, w.session, k, sender, now);
    var o, posted := Absorbed(w, k, sender, t, messages, now), w.(toQt := w.toQt + Posts(k, sender, messages));
    PostedLocal(names, w, k, sender, messages, l);
    TablesLocal(names, posted, o.state.transfers, l);
    LocalSame(names, w, l);
    if t.None? {
      assert o.records[0] == RecordOf(k, sender, now);
    }
  }

  lemma LocalSame(names: Names, w: Receiver, k: Key)
    ensures Local(names, w, k).transfer == TransferPart(w, k)
    ensures Local(names, w, k).terminal == (RecordKey(names, k) in w.terminals)
    ensures Local(names, w, k).accepting == w.accepting
  {
  }

  /** The packet belongs to the transfer it is filed under, so it is assembled. */
  lemma MatchSimulates(decode: T.Decoder, names: Names, w: Receiver, sender: ParticipantKey, revision: nat,
                       p: T.Packet, now: int, k: Key)
    requires Consistent(names, w) && Known(names, sender) && T.WellFormed(p) && w.accepting && k.session == w.session
    requires var kp := KeyFor(w, sender, revision, p.wireId);
             && RecordKey(names, kp) !in w.terminals && (kp in w.transfers || |w.transfers| < MAXIMUM_TRANSFERS)
             && (kp in w.transfers ==> w.transfers[kp].meta == p.meta && w.transfers[kp].owner == sender)
    ensures var e := if k == KeyFor(w, sender, revision, p.wireId)
                     then T.Receive(p, sender, now, |w.transfers| < MAXIMUM_TRANSFERS, true) else T.Quiet;
            Simulates(decode, names, w, OnNewPacket(decode, w, sender, revision, p, now, true), e, k)
  {
    hide T.Absorb, LedgerOk, StrandPostsOk, FramesOk, PostsOk, T.WellFormed, T.TransferOk, Local, RecordKey, Absorbed,
         UiTransferId;
    var kp := KeyFor(w, sender, revision, p.wireId);
    LocalSame(names, w, k);
    StartOk(p, sender, now);
    var t := if kp in w.transfers then w.transfers[kp] else T.NewTransfer(p, sender, now);
    NoCancelAbsorbed(decode, t, p, now);
    var (t', messages) := T.Absorb(decode, t, p, now);
    AbsorbedLocal(names, w, kp, sender, t', messages, now, k);
  }

  lemma NewPacketSimulates(decode: T.Decoder, names: Names, w: Receiver, sender: ParticipantKey, revision: nat,
                           p: T.Packet, now: int, active: bool, k: Key)
    requires Consistent(names, w) && Known(names, sender) && T.WellFormed(p) && w.accepting && k.session == w.session
    requires RecordKey(names, KeyFor(w, sender, revision, p.wireId)) !in w.terminals
    ensures var e := if k == KeyFor(w, sender, revision, p.wireId)
                     then T.Receive(p, sender, now, |w.transfers| < MAXIMUM_TRANSFERS, active) else T.Quiet;
            Simulates(decode, names, w, OnNewPacket(decode, w, sender, revision, p, now, active), e, k)
  {
    hide T.Absorb, LedgerOk, StrandPostsOk, FramesOk, PostsOk, T.WellFormed, T.TransferOk, Local, RecordKey, Absorbed,
         UiTransferId;
    var kp := KeyFor(w, sender, revision, p.wireId);
    LocalSame(names, w, k);
    StartOk(p, sender, now);
    var t := if kp in w.transfers then w.transfers[kp] else T.NewTransfer(p, sender, now);
    TablesLocal(names, w, w.transfers[kp := t], k);
    if (kp in w.transfers || |w.transfers| < MAXIMUM_TRANSFERS) && t.owner == sender && active && t.meta == p.meta {
      MatchSimulates(decode, names, w, sender, revision, p, now, k);
    }
  }

  lemma NothingSimulates(decode: T.Decoder, names: Names, w: Receiver, k: Key)
    ensures Simulates(decode, names, w, Outcome(w, []), T.Quiet, k)
  {
    hide Pick, RecordKey, UiTransferId;
  }

  /** Records that a callback drops first are no part of what it is compared with. */
  lemma DropSimulates(decode: T.Decoder, names: Names, w: Receiver, ts: Terminals, o: Outcome, e: T.Event, k: Key)
    requires Simulates(decode, names, w.(terminals := ts), o, e, k)
    ensures Simulates(decode, names, w, o, e, k)
  {
    hide Pick, RecordKey, UiTransferId, T.Apply, T.Enabled, Records;
    assert Before(names, w, o, k) == Before(names, w.(terminals := ts), o, k);
  }

  lemma PacketSimulates(decode: T.Decoder, names: Names, w: Receiver, c: Callback, k: Key)
    requires Consistent(names, w) && TransfersOk(w) && c.PacketIn? && Known(names, c.sender) && k.session == w.session
    ensures Simulates(decode, names, w, OnPacket(decode, w, c.sender, c.revision, c.packet, c.now, c.tickets, c.active),
                      LocalEvent(names, w, c, k), k)
  {
    hide OwnersOk, LedgerOk, StrandPostsOk, FramesOk, PostsOk, T.WellFormed, OnNewPacket, Simulates;
    var id := CompletionId(c.sender, c.revision, c.packet.wireId);
    NothingSimulates(decode, names, w, k);
    if T.WellFormed(c.packet) && w.accepting {
      var w1 := w.(terminals := w.terminals - {id});
      NewPacketSimulates(decode, names, w1, c.sender, c.revision, c.packet, c.now, c.active, k);
      var o := OnNewPacket(decode, w1, c.sender, c.revision, c.packet, c.now, c.active);
      var e := if k == KeyFor(w, c.sender, c.revision, c.packet.wireId)
               then T.Receive(c.packet, c.sender, c.now, |w.transfers| < MAXIMUM_TRANSFERS, c.active) else T.Quiet;
      DropSimulates(decode, names, w, w1.terminals, o, e, k);
    }
  }

  lemma FailSimulates(decode: T.Decoder, names: Names, w: Receiver, key: Key, now: int, k: Key)
    requires Consistent(names, w) && k.session == w.session
    ensures Simulates(decode, names, w, OnFail(w, key, now), if key == k then T.FailOnStrand else T.Quiet, k)
  {
    hide LedgerOk, StrandPostsOk, FramesOk, PostsOk, Local, Absorbed;
    LocalSame(names, w, k);
    if key in w.transfers {
      var sender := w.transfers[key].owner;
      AbsorbedLocal(names, w, key, sender, None, [T.Fail], now, k);
      OneMessage(w, key, now);
    }
  }

  lemma OneMessage(w: Receiver, k: Key, now: int)
    requires k in w.transfers
    ensures Absorbed(w, k, w.transfers[k].owner, None, [T.Fail], now) == OnFail(w, k, now)
  {
    assert Posts(k, w.transfers[k].owner, [T.Fail]) == [Post(k, w.transfers[k].owner, T.Fail)];
  }

  // ----- Recovery and cancellation -----

  function AskFor(transfers: map<Key, T.Transfer>, k: Key, force: bool, now: int, roster: Roster): seq<T.QtMessage>
    requires forall l :: l in transfers ==> T.TransferOk(transfers[l])
  {
    if k in transfers && Decide(transfers[k], force, now, roster).Ask?
    then [T.Request(Decide(transfers[k], force, now, roster).missing)] else []
  }

  predicate Distinct<K(==)>(order: seq<K>) {
    forall i, j :: 0 <= i < j < |order| ==> order[i] != order[j]
  }

  lemma {:induction false} PickAsks(session: nat, transfers: map<Key, T.Transfer>, order: seq<Key>, force: bool,
                                    now: int, roster: Roster, k: Key)
    requires (forall l :: l in transfers ==> T.TransferOk(transfers[l])) && Distinct(order)
    ensures Pick(Asks(transfers, order, force, now, roster), QtPart(session, k))
         == if k in order then AskFor(transfers, k, force, now, roster) else []
    decreases |order|
  {
    hide Decide, Pick;
    if order != [] {
      var rest, last := order[..|order| - 1], order[|order| - 1];
      PickAsks(session, transfers, rest, force, now, roster, k);
      assert last !in rest;
      assert order == rest + [last];
      if last in transfers && Decide(transfers[last], force, now, roster).Ask? {
        var ask := Post(last, transfers[last].owner, T.Request(Decide(transfers[last], force, now, roster).missing));
        PickSnoc(Asks(transfers, rest, force, now, roster), ask, QtPart(session, k));
      }
    } else {
      PickNone<Post, T.QtMessage>(QtPart(session, k));
    }
  }

  lemma {:induction false} RecordsMeaning(names: Names, w: Receiver, order: seq<Key>, sender: ParticipantKey, now: int,
                                          k: Key)
    requires OwnersOk(names, w.session, w.transfers) && k.session == w.session
    ensures HasRecord(RecordsOf(w.transfers, order, sender, now), RecordKey(names, k))
            <==> (k in order && k in w.transfers && w.transfers[k].owner == sender)
    decreases |order|
  {
    hide RecordKey, RecordOf, HasRecord;
    if order == [] {
      NoRecords(RecordKey(names, k));
    } else {
      var rest, last := order[..|order| - 1], order[|order| - 1];
      RecordsMeaning(names, w, rest, sender, now, k);
      assert order == rest + [last];
      if last in w.transfers && w.transfers[last].owner == sender {
        RecordOfKey(names, w.session, last, sender, now);
        if RecordKey(names, last) == RecordKey(names, k) { RecordKeyInjective(names, last, k); }
        HasRecordSnoc(RecordsOf(w.transfers, rest, sender, now), RecordOf(last, sender, now), RecordKey(names, k));
      }
    }
  }

  lemma NoRecords(id: string)
    ensures !HasRecord([], id)
  {
  }

  lemma QtLocal(names: Names, w: Receiver, q: seq<Post>, k: Key)
    ensures Local(names, w.(toQt := w.toQt + q), k)
         == Local(names, w, k).(toQt := Local(names, w, k).toQt + Pick(q, QtPart(w.session, k)))
  {
    hide Pick, RecordKey, UiTransferId;
    PickConcat(w.toQt, q, QtPart(w.session, k));
  }

  lemma TerminalLocal(names: Names, w: Receiver, ts: Terminals, k: Key)
    ensures Local(names, w.(terminals := ts), k) == Local(names, w, k).(terminal := RecordKey(names, k) in ts)
  {
  }

  lemma RecoverSimulates(decode: T.Decoder, names: Names, w: Receiver, c: Callback, k: Key)
    requires Consistent(names, w) && Ready(w, c) && c.RecoverIn? && k.session == w.session
    ensures Simulates(decode, names, w, OnRecover(w, c.force, c.now, c.roster, c.order), LocalEvent(names, w, c, k), k)
  {
    hide LedgerOk, StrandPostsOk, FramesOk, PostsOk, Asks, Decide, Pick, Local, RecordKey, Unexpired, Records;
    assert Distinct(c.order);
    var o := OnRecover(w, c.force, c.now, c.roster, c.order);
    LocalSame(names, w, k);
    NoMoreRecords(names, o, k);
    if w.accepting {
      var asks := Asks(w.transfers, c.order, c.force, c.now, c.roster);
      PickAsks(w.session, w.transfers, c.order, c.force, c.now, c.roster, k);
      QtLocal(names, w, asks, k);
      TablesLocal(names, w.(toQt := w.toQt + asks), o.state.transfers, k);
      TerminalLocal(names, w.(toQt := w.toQt + asks, transfers := o.state.transfers), o.state.terminals, k);
    } else {
      SameTerminal(names, w, k);
    }
  }

  lemma BelongsMeaning(names: Names, w: Receiver, sender: ParticipantKey, k: Key)
    requires Known(names, sender) && k.session == w.session
    ensures Belongs(k, w.session, sender) <==> OwnerOf(names, k) == sender
  {
  }

  lemma CancelSimulates(decode: T.Decoder, names: Names, w: Receiver, c: Callback, k: Key)
    requires Consistent(names, w) && Ready(w, c) && c.CancelIn? && Known(names, c.sender) && k.session == w.session
    ensures Simulates(decode, names, w, OnCancel(w, c.sender, c.now, c.order), LocalEvent(names, w, c, k), k)
  {
    hide LedgerOk, StrandPostsOk, FramesOk, PostsOk, RecordsOf, Pick, UiTransferId, RecordKey, HasRecord, OwnerOf,
         Known;
    NoRecords(RecordKey(names, k));
    if w.accepting {
      BelongsMeaning(names, w, c.sender, k);
      RecordsMeaning(names, w, c.order, c.sender, c.now, k);
      PickSnoc(w.toQt, PostCancel(c.sender), QtPart(w.session, k));
    }
  }

  lemma OnStrandPostLocal(names: Names, w: Receiver, post: StrandPost, now: int, k: Key)
    requires KeyOk(names, w.session, post.key, post.sender) && k.session == w.session
    ensures var o, s := OnStrandPost(w, post, now), Local(names, w, k);
            Local(names, o.state, k).(terminal := Records(names, o, k))
            == if post.key == k then T.HandleOnStrand(s, post.message) else s
  {
    hide Local, Records, Absorbed, RecordKey;
    var o := OnStrandPost(w, post, now);
    LocalSame(names, w, k);
    if post.message == T.Commit && w.accepting {
      AbsorbedLocal(names, w, post.key, post.sender, None, [T.Acknowledge], now, k);
      assert Absorbed(w, post.key, post.sender, None, [T.Acknowledge], now) == o by {
        OneAcknowledgement(w, post, now);
      }
    } else {
      TablesLocal(names, w, o.state.transfers, k);
      NoMoreRecords(names, o, k);
    }
  }

  lemma OneAcknowledgement(w: Receiver, post: StrandPost, now: int)
    requires post.message == T.Commit && w.accepting
    ensures Absorbed(w, post.key, post.sender, None, [T.Acknowledge], now) == OnStrandPost(w, post, now)
  {
    assert Posts(post.key, post.sender, [T.Acknowledge]) == [Post(post.key, post.sender, T.Acknowledge)];
  }

  lemma NoMoreRecords(names: Names, o: Outcome, k: Key)
    requires o.records == []
    ensures Records(names, o, k) <==> RecordKey(names, k) in o.state.terminals
  {
  }

  lemma StrandPopped(names: Names, w: Receiver, k: Key)
    requires w.toStrand != []
    ensures var s, own := Local(names, w, k), w.toStrand[0].key == k;
            && (own ==> s.toStrand != [] && s.toStrand[0] == w.toStrand[0].message)
            && Local(names, w.(toStrand := w.toStrand[1..]), k) == if own then s.(toStrand := s.toStrand[1..]) else s
  {
    hide Pick, UiTransferId, RecordKey;
    PickTail(w.toStrand, StrandPart(k));
  }

  lemma StrandPostSimulates(decode: T.Decoder, names: Names, w: Receiver, c: Callback, k: Key)
    requires Consistent(names, w) && Ready(w, c) && c.StrandPostIn? && k.session == w.session
    ensures Simulates(decode, names, w, OnStrandPost(w.(toStrand := w.toStrand[1..]), w.toStrand[0], c.now),
                      LocalEvent(names, w, c, k), k)
  {
    hide LedgerOk, FramesOk, PostsOk, OwnersOk, Local, Records, T.HandleOnStrand, KeyOk, RecordKey;
    var w1, post := w.(toStrand := w.toStrand[1..]), w.toStrand[0];
    StrandPopped(names, w, k);
    LocalSame(names, w, k);
    OnStrandPostLocal(names, w1, post, c.now, k);
  }

  // ----- The Qt thread -----

  lemma EmitLocal(names: Names, w: Receiver, k: Key, x: T.Signal, l: Key)
    ensures Local(names, Emit(w, k, x), l)
         == Local(names, w, l).(log := Local(names, w, l).log + (if k == l then [x] else []))
  {
    hide Pick, UiTransferId, RecordKey;
    PickSnoc(w.log, Report(UiTransferId(k), x), LogPart(l));
    if UiTransferId(k) == UiTransferId(l) { UiTransferIdInjective(k, l); }
  }

  lemma FrameLocal(names: Names, w: Receiver, f: Waiting, l: Key)
    ensures Local(names, w.(frames := w.frames + [f]), l)
         == Local(names, w, l).(frames := Local(names, w, l).frames + (if f.key == l then [f.frame] else []))
  {
    hide Pick, UiTransferId, RecordKey;
    PickSnoc(w.frames, f, FramePart(l));
  }

  lemma StrandLocal(names: Names, w: Receiver, p: StrandPost, l: Key)
    ensures Local(names, w.(toStrand := w.toStrand + [p]), l)
         == Local(names, w, l).(toStrand := Local(names, w, l).toStrand + (if p.key == l then [p.message] else []))
  {
    hide Pick, UiTransferId, RecordKey;
    PickSnoc(w.toStrand, p, StrandPart(l));
  }

  lemma EntryLocal(names: Names, w: Receiver, k: Key, committed: bool)
    requires LedgerOk(w.session, w.ledger)
    ensures HasEntry(w, k, committed) <==> Local(names, w, k).ledger == Some(committed)
    ensures UiTransferId(k) in w.ledger <==> Local(names, w, k).ledger.Some?
  {
    hide UiTransferId;
    var id := UiTransferId(k);
    if id in w.ledger { UiTransferIdInjective(w.ledger[id].key, k); }
  }

  /** One entry of the ledger set or erased, as each transfer sees it. */
  lemma EntrySet(names: Names, w: Receiver, k: Key, committed: bool, l: Key)
    ensures Local(names, w.(ledger := w.ledger[UiTransferId(k) := Entry(k, committed)]), l)
         == if k == l then Local(names, w, l).(ledger := Some(committed)) else Local(names, w, l)
    ensures Local(names, w.(ledger := w.ledger - {UiTransferId(k)}), l)
         == if k == l then Local(names, w, l).(ledger := None) else Local(names, w, l)
  {
    hide UiTransferId, Pick, RecordKey;
    if UiTransferId(k) == UiTransferId(l) { UiTransferIdInjective(k, l); }
  }

  /** What has been asked for is no part of a transfer's own state. */
  lemma OutboxLocal(names: Names, w: Receiver, outbox: seq<Asked>, k: Key)
    ensures Local(names, w.(outbox := outbox), k) == Local(names, w, k)
  {
    hide Pick, UiTransferId, RecordKey;
  }

  lemma OnTransferPostLocal(names: Names, w: Receiver, k: Key, sender: ParticipantKey, m: T.QtMessage, view: QtView,
                            l: Key)
    requires LedgerOk(w.session, w.ledger) && KeyOk(names, w.session, k, sender) && m != T.Cancel
    ensures var s := Local(names, w, l);
            Local(names, OnTransferPost(w, k, sender, m, view), l)
            == if k == l then T.HandleOnQt(s, m, CurrencyOf(names, k, view)) else s
    ensures OnTransferPost(w, k, sender, m, view).terminals == w.terminals
  {
    hide Local, HasEntry, UiTransferId, LedgerOk;
    EntryLocal(names, w, k, false);
    EntryLocal(names, w, k, true);
    match m
    case Start =>
      var w1 := w.(ledger := w.ledger[UiTransferId(k) := Entry(k, false)]);
      EntrySet(names, w, k, false, l);
      EmitLocal(names, w1, k, T.Started, l);
    case Progress(percent) => EmitLocal(names, w, k, T.Progressed(percent), l);
    case Complete(data) =>
      var f := Waiting(k, sender, T.Delivering(data));
      FrameLocal(names, w, f, l);
      EmitLocal(names, w.(frames := w.frames + [f]), k, T.Progressed(100), l);
      StrandLocal(names, w, StrandPost(k, sender, T.Retry), l);
    case Fail =>
      var w1 := w.(ledger := w.ledger - {UiTransferId(k)});
      EntrySet(names, w, k, false, l);
      EmitLocal(names, w1, k, T.Failed, l);
    case Acknowledge => EntrySet(names, w, k, false, l);
    case Request(missing) => OutboxLocal(names, w, w.outbox + [Asked(k, sender.identity, missing)], l);
  }

  lemma OnFrameLocal(names: Names, w: Receiver, f: Waiting, view: QtView, l: Key)
    requires LedgerOk(w.session, w.ledger) && KeyOk(names, w.session, f.key, f.sender)
    ensures var s := Local(names, w, l);
            Local(names, OnFrame(w, f, view), l)
            == if f.key == l then T.HandleFrame(s, f.frame, CurrencyOf(names, f.key, view)) else s
  {
    hide Local, HasEntry, UiTransferId, LedgerOk;
    EntryLocal(names, w, f.key, false);
    if f.frame.Failing? {
      EmitLocal(names, w, f.key, T.Failed, l);
    } else {
      var w1 := w.(ledger := w.ledger[UiTransferId(f.key) := Entry(f.key, true)]);
      EntrySet(names, w, f.key, true, l);
      StrandLocal(names, w1, StrandPost(f.key, f.sender, T.Commit), l);
      EmitLocal(names, w1.(toStrand := w.toStrand + [StrandPost(f.key, f.sender, T.Commit)]), f.key,
                T.Completed(f.frame.data), l);
      StrandLocal(names, w, StrandPost(f.key, f.sender, T.Retry), l);
    }
  }

  /** The failing frames of a cancelled sender hold one for each of its uncommitted entries. */
  lemma {:induction false} PickFailing(w: Receiver, order: seq<string>, sender: ParticipantKey, k: Key)
    requires LedgerOk(w.session, w.ledger) && Distinct(order)
    ensures Pick(FailingOf(w.ledger, order, w.session, sender), FramePart(k))
         == if UiTransferId(k) in order && Belongs(k, w.session, sender) && LedgerPart(w, k) == Some(false)
            then [T.Failing] else []
    decreases |order|
  {
    hide Pick, UiTransferId, Belongs;
    if order == [] {
      PickNone<Waiting, T.Frame>(FramePart(k));
    } else {
      var rest, id := order[..|order| - 1], order[|order| - 1];
      PickFailing(w, rest, sender, k);
      assert id !in rest;
      assert order == rest + [id];
      if id in w.ledger && Belongs(w.ledger[id].key, w.session, sender) && !w.ledger[id].committed {
        var waiting := Waiting(w.ledger[id].key, sender, T.Failing);
        PickSnoc(FailingOf(w.ledger, rest, w.session, sender), waiting, FramePart(k));
      }
      if id == UiTransferId(k) && id in w.ledger { UiTransferIdInjective(w.ledger[id].key, k); }
    }
  }

  lemma CancelPostLocal(names: Names, w: Receiver, sender: ParticipantKey, view: QtView, order: seq<string>, k: Key)
    requires LedgerOk(w.session, w.ledger) && Iterates(order, w.ledger.Keys)
    ensures var s := Local(names, w, k);
            Local(names, OnQtPost(w, PostCancel(sender), view, order), k)
            == if Belongs(k, w.session, sender) then T.HandleOnQt(s, T.Cancel, CurrencyOf(names, k, view)) else s
  {
    hide Pick, UiTransferId, RecordKey, Belongs;
    assert Distinct(order);
    PickFailing(w, order, sender, k);
    PickConcat(w.frames, FailingOf(w.ledger, order, w.session, sender), FramePart(k));
    var id := UiTransferId(k);
    if id in w.ledger { UiTransferIdInjective(w.ledger[id].key, k); }
  }

  lemma QtPopped(names: Names, w: Receiver, k: Key)
    requires w.toQt != []
    ensures var s, part := Local(names, w, k), QtPart(w.session, k)(w.toQt[0]);
            && (part.Some? ==> s.toQt != [] && s.toQt[0] == part.value)
            && Local(names, w.(toQt := w.toQt[1..]), k) == if part.Some? then s.(toQt := s.toQt[1..]) else s
  {
    hide Pick, UiTransferId, RecordKey;
    PickTail(w.toQt, QtPart(w.session, k));
  }

  lemma FrameTaken(names: Names, w: Receiver, i: nat, k: Key)
    requires i < |w.frames|
    ensures var s, own, rank := Local(names, w, k), w.frames[i].key == k, Rank(w.frames, FramePart(k), i);
            && (own ==> rank < |s.frames| && s.frames[rank] == w.frames[i].frame)
            && Local(names, w.(frames := T.Without(w.frames, i)), k)
               == if own then s.(frames := T.Without(s.frames, rank)) else s
  {
    hide Pick, UiTransferId, RecordKey, Rank, T.Without;
    PickWithout(w.frames, FramePart(k), i);
  }

  lemma QtPostSimulates(decode: T.Decoder, names: Names, w: Receiver, c: Callback, k: Key)
    requires Consistent(names, w) && Ready(w, c) && c.QtPostIn? && k.session == w.session
    ensures var w1 := w.(toQt := w.toQt[1..]);
            Simulates(decode, names, w, Outcome(OnQtPost(w1, w.toQt[0], c.view, c.ids), []),
                      LocalEvent(names, w, c, k), k)
  {
    hide StrandPostsOk, FramesOk, OwnersOk, LedgerOk, Local, Records, T.HandleOnQt, RecordKey, Belongs, Iterates,
         OnTransferPost, OwnerOf;
    var w1, post := w.(toQt := w.toQt[1..]), w.toQt[0];
    QtPopped(names, w, k);
    LocalSame(names, w, k);
    NoMoreRecords(names, Outcome(OnQtPost(w1, post, c.view, c.ids), []), k);
    SameTerminal(names, OnQtPost(w1, post, c.view, c.ids), k);
    SameTerminal(names, w, k);
    match post
    case Post(key, sender, message) => OnTransferPostLocal(names, w1, key, sender, message, c.view, k);
    case PostCancel(sender) => CancelPostLocal(names, w1, sender, c.view, c.ids, k);
  }

  lemma SameTerminal(names: Names, w: Receiver, k: Key)
    ensures Local(names, w, k).(terminal := RecordKey(names, k) in w.terminals) == Local(names, w, k)
  {
  }

  lemma ResumeSimulates(decode: T.Decoder, names: Names, w: Receiver, c: Callback, k: Key)
    requires Consistent(names, w) && Ready(w, c) && c.ResumeIn? && k.session == w.session
    ensures var w1 := w.(frames := T.Without(w.frames, c.frame));
            Simulates(decode, names, w, Outcome(OnFrame(w1, w.frames[c.frame], c.view), []),
                      LocalEvent(names, w, c, k), k)
  {
    hide StrandPostsOk, PostsOk, OwnersOk, LedgerOk, Local, Records, T.HandleFrame, RecordKey, KeyOk, Rank, OwnerOf;
    var w1, f := w.(frames := T.Without(w.frames, c.frame)), w.frames[c.frame];
    FrameTaken(names, w, c.frame, k);
    LocalSame(names, w, k);
    NoMoreRecords(names, Outcome(OnFrame(w1, f, c.view), []), k);
    OnFrameLocal(names, w1, f, c.view, k);
    SameTerminal(names, OnFrame(w1, f, c.view), k);
  }

  lemma StopSimulates(decode: T.Decoder, names: Names, w: Receiver, k: Key)
    ensures Simulates(decode, names, w, Outcome(w.(accepting := false), []), T.StopAccepting, k)
  {
    hide Pick, UiTransferId, RecordKey;
  }

  /** Whatever the callback, it is one step of the transfer's machine. */
  lemma CallbackSimulates(decode: T.Decoder, names: Names, w: Receiver, c: Callback, k: Key)
    requires Consistent(names, w) && Ready(w, c) && KnownCallback(names, c) && k.session == w.session
    ensures Simulates(decode, names, w, Handle(decode, w, c), LocalEvent(names, w, c, k), k)
    ensures Consistent(names, Handle(decode, w, c).state)
  {
    hide Consistent, Simulates, OnPacket, OnFail, OnRecover, OnCancel, OnStrandPost, OnQtPost, OnFrame, Known;
    match c
    case PacketIn(_, _, _, _, _, _) => PacketSimulates(decode, names, w, c, k); PacketConsistent(decode, names, w, c);
    case FailIn(key, now) => FailSimulates(decode, names, w, key, now, k); FailConsistent(decode, names, w, c);
    case RecoverIn(_, _, _, _) => RecoverSimulates(decode, names, w, c, k); RecoverConsistent(decode, names, w, c);
    case CancelIn(_, _, _) => CancelSimulates(decode, names, w, c, k); CancelConsistent(decode, names, w, c);
    case StopAccepting => StopSimulates(decode, names, w, k); StopConsistent(names, w);
    case StrandPostIn(_) => StrandPostSimulates(decode, names, w, c, k); StrandPostConsistent(decode, names, w, c);
    case QtPostIn(_, _) => QtPostSimulates(decode, names, w, c, k); QtPostConsistent(decode, names, w, c);
    case ResumeIn(_, _) => ResumeSimulates(decode, names, w, c, k); FrameConsistent(decode, names, w, c);
  }

  lemma StopConsistent(names: Names, w: Receiver)
    requires Consistent(names, w)
    ensures Consistent(names, w.(accepting := false))
  {
  }

  // ----- Runs -----

  lemma {:induction false} EvictedShrinks(ts: Terminals, ts': Terminals)
    requires Evicted(ts, ts')
    ensures |ts'| == if |ts| <= MAXIMUM_TERMINALS then |ts| else MAXIMUM_TERMINALS
    ensures forall id :: id in ts' ==> id in ts && ts'[id] == ts[id]
    decreases |ts|
  {
    if |ts| > MAXIMUM_TERMINALS {
      var id :| Oldest(ts, id) && Evicted(ts - {id}, ts');
      assert ts.Keys == (ts - {id}).Keys + {id};
      EvictedShrinks(ts - {id}, ts');
    }
  }

  /** What is evicted is no younger than anything that stays. */
  lemma {:induction false} EvictedAreOldest(ts: Terminals, ts': Terminals, gone: string, kept: string)
    requires Evicted(ts, ts') && gone in ts && gone !in ts' && kept in ts'
    ensures kept in ts && ts[gone].expiresAt <= ts[kept].expiresAt
    decreases |ts|
  {
    EvictedShrinks(ts, ts');
    if |ts| > MAXIMUM_TERMINALS {
      var id :| Oldest(ts, id) && Evicted(ts - {id}, ts');
      assert ts.Keys == (ts - {id}).Keys + {id};
      EvictedShrinks(ts - {id}, ts');
      if id != gone { EvictedAreOldest(ts - {id}, ts', gone, kept); }
    }
  }

  lemma {:induction false} RememberedKeys(ts: Terminals, records: seq<Terminal>, ts': Terminals, id: string)
    requires Remembered(ts, records, ts') && id in ts'
    ensures id in ts || HasRecord(records, id)
    decreases |records|
  {
    hide Evicted, RecordId;
    if records != [] {
      var earlier, last := records[..|records| - 1], records[|records| - 1];
      assert records == earlier + [last];
      var mid: Terminals :| Remembered(ts, earlier, mid) && Evicted(mid[RecordId(last) := last], ts');
      EvictedShrinks(mid[RecordId(last) := last], ts');
      HasRecordSnoc(earlier, last, id);
      if id in mid { RememberedKeys(ts, earlier, mid, id); }
    }
  }

  function DropIf(b: bool): seq<T.Event> {
    if b then [T.DropTerminal] else []
  }

  /** The steps of transfer k that one step of the receiver amounts to. */
  ghost function LocalSteps(decode: T.Decoder, names: Names, w: Receiver, c: Callback, w': Receiver,
                            k: Key): seq<T.Event>
    requires Ready(w, c)
  {
    var o := Handle(decode, w, c);
    DropIf(RecordKey(names, k) in w.terminals && RecordKey(names, k) !in o.state.terminals)
    + [LocalEvent(names, w, c, k)]
    + DropIf(Records(names, o, k) && RecordKey(names, k) !in w'.terminals)
  }

  lemma DropRuns(decode: T.Decoder, s: T.State, drop: bool)
    ensures Runs(decode, s, DropIf(drop)) && After(decode, s, DropIf(drop)) == if drop then s.(terminal := false) else s
  {
    if drop {
      RunCons(decode, s, T.DropTerminal, []);
      assert [T.DropTerminal] + [] == [T.DropTerminal];
    }
  }

  lemma {:induction false} RunsConcat(decode: T.Decoder, s: T.State, a: seq<T.Event>, b: seq<T.Event>)
    requires Runs(decode, s, a) && Runs(decode, After(decode, s, a), b)
    ensures Runs(decode, s, a + b) && After(decode, s, a + b) == After(decode, After(decode, s, a), b)
    decreases |a|
  {
    hide T.Apply, T.Enabled;
    if a == [] {
      assert a + b == b;
    } else {
      assert (a + b)[1..] == a[1..] + b;
      RunsConcat(decode, T.Apply(decode, s, a[0]), a[1..], b);
    }
  }

  /** A step of the receiver is a short run of each transfer. */
  lemma StepProjects(decode: T.Decoder, names: Names, w: Receiver, c: Callback, w': Receiver, k: Key)
    requires Consistent(names, w) && KnownCallback(names, c) && Step(decode, w, c, w') && k.session == w.session
    ensures var events := LocalSteps(decode, names, w, c, w', k);
            Runs(decode, Local(names, w, k), events) && After(decode, Local(names, w, k), events) == Local(names, w', k)
    ensures Consistent(names, w') && w'.session == w.session
  {
    hide Handle, Local, RecordKey, T.Apply, T.Enabled, Remembered, LocalEvent, KnownCallback, DropIf, Runs, After,
         Consistent, HasRecord, Iterates, TransfersOk, Before;
    var o, e, id := Handle(decode, w, c), LocalEvent(names, w, c, k), RecordKey(names, k);
    CallbackSimulates(decode, names, w, c, k);
    var s, drop, lost := Local(names, w, k), id in w.terminals && id !in o.state.terminals,
                         Records(names, o, k) && id !in w'.terminals;
    DropRuns(decode, s, drop);
    DropsFirst(decode, names, w, c, k);
    var s1 := Before(names, w, o, k);
    var s2 := T.Apply(decode, s1, e);
    RunsOne(decode, s1, e);
    RunsConcat(decode, s, DropIf(drop), [e]);
    DropRuns(decode, s2, lost);
    RunsConcat(decode, s, DropIf(drop) + [e], DropIf(lost));
    DropsLast(decode, names, w, c, w', k);
    TerminalsConsistent(names, o.state, w'.terminals);
    HandleKeeps(decode, w, c);
  }

  lemma DropsFirst(decode: T.Decoder, names: Names, w: Receiver, c: Callback, k: Key)
    requires Ready(w, c)
    ensures var o, s, id := Handle(decode, w, c), Local(names, w, k), RecordKey(names, k);
            Before(names, w, o, k) == if id in w.terminals && id !in o.state.terminals then s.(terminal := false) else s
  {
    hide Handle, Local, RecordKey, Iterates, TransfersOk;
    HandleKeeps(decode, w, c);
    SameTerminal(names, w, k);
  }

  lemma DropsLast(decode: T.Decoder, names: Names, w: Receiver, c: Callback, w': Receiver, k: Key)
    requires Step(decode, w, c, w')
    ensures var o, id := Handle(decode, w, c), RecordKey(names, k);
            var s := Local(names, o.state, k).(terminal := Records(names, o, k));
            Local(names, w', k) == if Records(names, o, k) && id !in w'.terminals then s.(terminal := false) else s
  {
    hide Handle, Local, RecordKey, Iterates, TransfersOk, Remembered, HasRecord;
    var o, id := Handle(decode, w, c), RecordKey(names, k);
    TerminalLocal(names, o.state, w'.terminals, k);
    if id in w'.terminals { RememberedKeys(o.state.terminals, o.records, w'.terminals, id); }
  }

  /** No callback adds a terminal record other than through its records. */
  lemma HandleKeeps(decode: T.Decoder, w: Receiver, c: Callback)
    requires Ready(w, c)
    ensures var o := Handle(decode, w, c); o.state.terminals.Keys <= w.terminals.Keys && o.state.session == w.session
  {
    hide T.Absorb, T.WellFormed, T.NewTransfer, T.TransferOk, CompletionId, UiTransferId, Decide, Decided, Asks,
         RecordsOf, FailingOf, Posts, RecordOf, Iterates, HasEntry, Belongs, Current;
  }

  lemma TerminalsConsistent(names: Names, w: Receiver, ts: Terminals)
    requires Consistent(names, w)
    ensures Consistent(names, w.(terminals := ts))
  {
  }

  lemma RunsOne(decode: T.Decoder, s: T.State, e: T.Event)
    requires T.Enabled(s, e)
    ensures Runs(decode, s, [e]) && After(decode, s, [e]) == T.Apply(decode, s, e)
  {
    hide T.Apply, T.Enabled;
    RunCons(decode, s, e, []);
    assert [e] + [] == [e];
  }
}
