/**
 How the receiver asks for what is missing (src/core/meeting_coordinator.cpp): a pass of the recovery decides
 about every transfer on the strand, those given up are failed, and the Qt thread publishes the requests that
 it still may.
 */
module MediaAsking {
  import opened Options
  import opened MediaKeys
  import opened MediaSlices
  import T = MediaTransfer
  import opened MediaDelivery
  import opened MediaReceiver
  import P = MediaProjection
  import opened MediaUptake

  /**
   One pass: the meeting it starts in, whether it is forced by a reconnection, its time, the roster it finds,
   whether the session is still current when the Qt thread comes to it, and whether a request to the sender may
   then still be published.
   */
  datatype Pass = Pass(meeting: Meeting, force: bool, now: int, roster: Roster, session: bool, sender: bool)

  predicate Reaches(p: Pass) {
    p.session && p.sender
  }

  /** The guard of processMediaRecovery, of a session that runs. */
  predicate Starts(p: Pass) {
    && p.meeting.room && !p.meeting.recovering
    && if p.force then p.meeting.phase.InMeeting? || p.meeting.phase.Reconnecting?
       else p.meeting.phase.InMeeting? && !p.meeting.starting
  }

  /**
   When a transfer is asked for: it can be resumed, its sender's ticket is active, and either the sender is still in the
   room, in a forced pass, or nothing has come for five seconds but something within the last minute, and the last
   request is five seconds old.
   */
  predicate Askable(t: T.Transfer, p: Pass) {
    && t.resumable && t.owner in p.roster.tickets && t.meta.totalChunks <= MAXIMUM_CHUNKS
    && if p.force then t.owner.identity in p.roster.peers && p.roster.peers[t.owner.identity] == t.owner.sid
       else RECOVERY_INTERVAL <= p.now - t.lastActive < RECOVERY_TIMEOUT && p.now - t.lastRecovery >= RECOVERY_INTERVAL
  }

  function DecisionOf(t: T.Transfer, p: Pass): Decision
    requires T.TransferOk(t)
  {
    Decide(t, p.force, p.now, p.roster)
  }

  /** When a transfer is lost: its sender has left the room, in a forced pass, or nothing has come for a minute. */
  predicate Lost(t: T.Transfer, p: Pass) {
    if p.force then t.owner.identity !in p.roster.peers || p.roster.peers[t.owner.identity] != t.owner.sid
    else p.now - t.lastActive >= RECOVERY_TIMEOUT
  }

  /**
   A transfer is given up if and only if it is lost, and asked for if and only if it may be. Of the others a forced
   pass touches those whose sender's ticket is active.
   */
  lemma DecisionMeaning(t: T.Transfer, p: Pass)
    requires T.TransferOk(t)
    ensures DecisionOf(t, p).GiveUp? <==> Lost(t, p)
    ensures DecisionOf(t, p).Ask? <==> Askable(t, p)
    ensures DecisionOf(t, p).Ask? ==> DecisionOf(t, p).missing == Wanted(t) && DecisionOf(t, p).touch == p.force
    ensures DecisionOf(t, p).Touch? <==> p.force && !Lost(t, p) && !Askable(t, p) && t.owner in p.roster.tickets
  {
    hide Wanted;
  }

  /** What a pass leaves of a transfer that is not lost: its two times are set, and nothing else. */
  lemma TimesAfter(t: T.Transfer, p: Pass)
    requires T.TransferOk(t) && !Lost(t, p)
    ensures Decided(t, DecisionOf(t, p), p.now)
         == t.(lastActive := if p.force && t.owner in p.roster.tickets then p.now else t.lastActive,
               lastRecovery := if Askable(t, p) then p.now else t.lastRecovery)
  {
    hide Wanted, Decide;
    DecisionMeaning(t, p);
  }

  // ----- A pass and what follows it -----

  /** The transfers given up are failed, one after the other. */
  ghost predicate Fails(decode: T.Decoder, w: Receiver, keys: seq<Key>, now: int, w': Receiver)
    decreases |keys|
  {
    if keys == [] then w' == w
    else exists mid :: Step(decode, w, FailIn(keys[0], now), mid) && Fails(decode, mid, keys[1..], now, w')
  }

  /** A callback that waits is run; it finds the session current or not, and may publish a request or not, as said. */
  predicate RestStep(owner: ParticipantKey, p: Pass, c: Callback) {
    match c
    case QtPostIn(view, _) => view.session == p.session && MayAsk(view, owner) == Reaches(p)
    case ResumeIn(_, _) => true
    case StrandPostIn(_) => true
    case _ => false
  }

  /** The threads run on until nothing waits. */
  ghost predicate Rests(decode: T.Decoder, owner: ParticipantKey, p: Pass, w: Receiver, callbacks: seq<Callback>,
                        w': Receiver)
    decreases |callbacks|
  {
    if callbacks == [] then w' == w && Settled(w)
    else RestStep(owner, p, callbacks[0])
         && exists mid :: Step(decode, w, callbacks[0], mid) && Rests(decode, owner, p, mid, callbacks[1..], w')
  }

  function Recovery(p: Pass, order: seq<Key>): Callback {
    RecoverIn(p.force, p.now, p.roster, order)
  }

  /** A pass over every transfer of the receiver, up to the point where nothing waits. */
  ghost predicate PassRuns(decode: T.Decoder, owner: ParticipantKey, p: Pass, w: Receiver, w': Receiver) {
    TransfersOk(w)
    && exists order, mid, failed, callbacks ::
         && Step(decode, w, Recovery(p, order), mid)
         && Fails(decode, mid, GivenUp(w.transfers, order, p.force, p.now, p.roster), p.now, failed)
         && Rests(decode, owner, p, failed, callbacks, w')
  }

  /** A request of this transfer was published since the outbox had this length. */
  predicate AskedSince(w: Receiver, length: nat, k: Key) {
    exists i :: length <= i < |w.outbox| && w.outbox[i].key == k
  }

  /** What a callback publishes. */
  function Publishes(w: Receiver, c: Callback): seq<Asked>
    requires c.QtPostIn? ==> w.toQt != []
  {
    if c.QtPostIn? && w.toQt[0].Post? && w.toQt[0].message.Request? && MayAsk(c.view, w.toQt[0].sender)
       && HasEntry(w, w.toQt[0].key, false)
    then [Asked(w.toQt[0].key, w.toQt[0].sender.identity, w.toQt[0].message.missing)] else []
  }

  lemma OutboxGrows(decode: T.Decoder, w: Receiver, c: Callback, w': Receiver)
    requires Step(decode, w, c, w')
    ensures w'.outbox == w.outbox + Publishes(w, c)
  {
    hide T.Absorb, T.WellFormed, T.NewTransfer, T.TransferOk, CompletionId, UiTransferId, Decide, Decided, RecordsOf,
         FailingOf, Posts, RecordOf, Iterates, Belongs, Current, MayAsk, Remembered, Asks;
    assert w.outbox + [] == w.outbox;
  }

  /**
   The callback of a request publishes it, to the owner's identity, if and only if the session is current and in a
   meeting that has a room and recovers no keys, the ticket is active, the participant of that identity is this one, the
   transport takes it, and the ledger has an uncommitted entry of just this key. It does nothing else.
   */
  lemma RequestPublished(decode: T.Decoder, w: Receiver, c: Callback, w': Receiver, k: Key, sender: ParticipantKey,
                         missing: seq<nat>)
    requires c.QtPostIn? && Step(decode, w, c, w') && w.toQt[0] == Post(k, sender, T.Request(missing))
    ensures var v, id := c.view, UiTransferId(k);
            var goes := && v.session && v.meeting.room && v.meeting.phase == InMeeting && !v.meeting.recovering
                        && sender in v.tickets && sender.identity in v.participants
                        && v.participants[sender.identity] == sender && v.transport
                        && id in w.ledger && w.ledger[id].key == k && !w.ledger[id].committed;
            w' == w.(toQt := w.toQt[1..],
                     outbox := if goes then w.outbox + [Asked(k, sender.identity, missing)] else w.outbox)
  {
    hide UiTransferId, T.TransferOk, Iterates;
  }

  // ----- One transfer during a pass -----

  /** A step of the receiver is one step of the transfer, but for a record that is lost. */
  lemma StepIsLocal(decode: T.Decoder, names: P.Names, w: Receiver, c: Callback, w': Receiver, k: Key)
    requires P.Consistent(names, w) && P.KnownCallback(names, c) && Step(decode, w, c, w') && k.session == w.session
    ensures var s, s', e := P.Local(names, w, k), P.Local(names, w', k), P.LocalEvent(names, w, c, k);
            exists before, after ::
              && T.Enabled(s.(terminal := before), e) && (before ==> s.terminal)
              && s' == T.Apply(decode, s.(terminal := before), e).(terminal := after)
              && (after ==> T.Apply(decode, s.(terminal := before), e).terminal)
    ensures P.Consistent(names, w') && w'.session == w.session
  {
    hide Handle, P.Local, P.RecordKey, T.Apply, T.Enabled, Remembered, P.LocalEvent, P.KnownCallback, P.Consistent,
         P.HasRecord, Iterates, TransfersOk;
    var o, e := Handle(decode, w, c), P.LocalEvent(names, w, c, k);
    var s := P.Local(names, w, k);
    P.CallbackSimulates(decode, names, w, c, k);
    P.DropsFirst(decode, names, w, c, k);
    P.DropsLast(decode, names, w, c, w', k);
    P.TerminalsConsistent(names, o.state, w'.terminals);
    P.HandleKeeps(decode, w, c);
    var before, after := P.Before(names, w, o, k).terminal, P.Local(names, w', k).terminal;
    LocalFields(names, w, k);
    assert s.(terminal := before) == P.Before(names, w, o, k);
    assert P.Local(names, w', k) == T.Apply(decode, s.(terminal := before), e).(terminal := after);
  }

  lemma LocalFields(names: P.Names, w: Receiver, k: Key)
    ensures P.Local(names, w, k).terminal == (P.RecordKey(names, k) in w.terminals)
  {
  }

  /** Nothing of the transfer is under way but a request, and the rest of it is as in `base`. */
  ghost predicate Kept(names: P.Names, w: Receiver, k: Key, base: T.State, asked: Option<seq<nat>>) {
    && P.Consistent(names, w) && k.session == w.session
    && base.toQt == [] && base.toStrand == [] && base.frames == [] && !base.terminal
    && var s := P.Local(names, w, k);
       s == base.(toQt := s.toQt) && (s.toQt == [] || (asked.Some? && s.toQt == [T.Request(asked.value)]))
  }

  /** Whether the head of the queue to Qt is this transfer's. */
  predicate HeadIs(w: Receiver, k: Key) {
    w.toQt != [] && w.toQt[0].Post? && w.toQt[0].key == k
  }

  lemma HeadIsLocal(names: P.Names, w: Receiver, k: Key)
    requires P.Consistent(names, w) && HeadIs(w, k) && k.session == w.session
    ensures var s := P.Local(names, w, k);
            s.toQt != [] && s.toQt[0] == w.toQt[0].message && w.toQt[0].sender == P.OwnerOf(names, k)
  {
    hide UiTransferId, P.RecordKey, P.OwnersOk, P.LedgerOk, P.StrandPostsOk, P.FramesOk;
    P.QtPopped(names, w, k);
    assert P.PostOk(names, w.session, w.toQt[0]);
  }

  /** What a callback that waits is to such a transfer. */
  lemma RestEvent(decode: T.Decoder, names: P.Names, w: Receiver, c: Callback, owner: ParticipantKey, p: Pass,
                  k: Key)
    requires RestStep(owner, p, c) && Ready(w, c)
    ensures var e := P.LocalEvent(names, w, c, k);
            e.Quiet? || e.RunOnQt? || e.ResumeFrame? || e.RunOnStrand?
    ensures P.KnownCallback(names, c)
    ensures c.QtPostIn? && HeadIs(w, k) ==> P.LocalEvent(names, w, c, k).RunOnQt?
    ensures !(c.QtPostIn? && HeadIs(w, k)) && P.LocalEvent(names, w, c, k).RunOnQt?
            ==> c.QtPostIn? && w.toQt[0].PostCancel?
  {
    hide MayAsk, T.WellFormed, Decide, CompletionId, UiTransferId, P.Rank, T.TransferOk, Iterates;
  }

  /** Each callback that waits leaves the transfer alone, but for its own request, which is taken from the queue. */
  lemma RestKeeps(decode: T.Decoder, names: P.Names, w: Receiver, c: Callback, w': Receiver, k: Key,
                  owner: ParticipantKey, p: Pass, base: T.State, asked: Option<seq<nat>>)
    requires Kept(names, w, k, base, asked) && RestStep(owner, p, c) && Step(decode, w, c, w')
    ensures Kept(names, w', k, base, asked)
    ensures P.Local(names, w', k).toQt == if c.QtPostIn? && HeadIs(w, k) then [] else P.Local(names, w, k).toQt
  {
    hide Handle, P.Local, P.Consistent, P.KnownCallback, P.LocalEvent, Remembered, Iterates, TransfersOk, MayAsk,
         HeadIs;
    RestEvent(decode, names, w, c, owner, p, k);
    StepIsLocal(decode, names, w, c, w', k);
    if c.QtPostIn? && HeadIs(w, k) {
      HeadIsLocal(names, w, k);
    } else if P.LocalEvent(names, w, c, k).RunOnQt? {
      CancelIsLocal(names, w, c, k);
    }
  }

  /** A cancellation at the head is one for each transfer it concerns. */
  lemma CancelIsLocal(names: P.Names, w: Receiver, c: Callback, k: Key)
    requires c.QtPostIn? && Ready(w, c) && w.toQt[0].PostCancel? && P.LocalEvent(names, w, c, k).RunOnQt?
    ensures P.Local(names, w, k).toQt != [] && P.Local(names, w, k).toQt[0].Cancel?
  {
    hide UiTransferId, P.RecordKey, Iterates, TransfersOk;
    P.QtPopped(names, w, k);
  }

  /** What such a callback publishes for the transfer: its request, if the entry is there and the request may go. */
  lemma RestPublishes(names: P.Names, w: Receiver, c: Callback, k: Key, p: Pass, base: T.State,
                      asked: Option<seq<nat>>)
    requires Kept(names, w, k, base, asked) && RestStep(P.OwnerOf(names, k), p, c)
    requires c.QtPostIn? ==> w.toQt != []
    ensures var more := Publishes(w, c);
            && (more != [] && more[0].key == k
                <==> c.QtPostIn? && HeadIs(w, k) && Reaches(p) && base.ledger == Some(false))
            && (more != [] && more[0].key == k ==> asked.Some? && more[0].missing == asked.value)
  {
    hide MayAsk, UiTransferId, P.Local, P.OwnersOk, P.PostsOk, P.StrandPostsOk, P.FramesOk, HasEntry;
    P.EntryLocal(names, w, k, false);
    if c.QtPostIn? && HeadIs(w, k) { HeadIsLocal(names, w, k); }
  }

  /** Up to the point where nothing waits: the transfer is as it was, and its request has gone out, or cannot. */
  lemma {:induction false} RestsKeep(decode: T.Decoder, names: P.Names, w: Receiver, callbacks: seq<Callback>,
                                     w': Receiver, k: Key, p: Pass, base: T.State, asked: Option<seq<nat>>)
    requires Kept(names, w, k, base, asked) && Rests(decode, P.OwnerOf(names, k), p, w, callbacks, w')
    ensures Kept(names, w', k, base, asked) && Settled(w') && P.Local(names, w', k) == base && w.outbox <= w'.outbox
    ensures AskedSince(w', |w.outbox|, k)
            <==> P.Local(names, w, k).toQt != [] && Reaches(p) && base.ledger == Some(false)
    ensures forall i :: |w.outbox| <= i < |w'.outbox| && w'.outbox[i].key == k
                        ==> asked.Some? && w'.outbox[i].missing == asked.value
    decreases |callbacks|
  {
    hide Kept, P.Local, RestStep, Step, Publishes, HeadIs;
    if callbacks == [] {
      KeptSettled(names, w, k, base, asked);
    } else {
      var c := callbacks[0];
      var mid :| Step(decode, w, c, mid) && Rests(decode, P.OwnerOf(names, k), p, mid, callbacks[1..], w');
      StepHasHead(decode, w, c, mid);
      OutboxGrows(decode, w, c, mid);
      RestKeeps(decode, names, w, c, mid, k, P.OwnerOf(names, k), p, base, asked);
      RestPublishes(names, w, c, k, p, base, asked);
      RestsKeep(decode, names, mid, callbacks[1..], w', k, p, base, asked);
      AtMostOne(w, c);
      if c.QtPostIn? && HeadIs(w, k) { KeptHead(names, w, k, base, asked); }
      OneMore(w, mid, w', Publishes(w, c), k);
    }
  }

  lemma StepHasHead(decode: T.Decoder, w: Receiver, c: Callback, w': Receiver)
    requires Step(decode, w, c, w')
    ensures c.QtPostIn? ==> w.toQt != []
  {
  }

  lemma AtMostOne(w: Receiver, c: Callback)
    requires c.QtPostIn? ==> w.toQt != []
    ensures |Publishes(w, c)| <= 1
  {
    hide MayAsk, HasEntry;
  }

  lemma KeptSettled(names: P.Names, w: Receiver, k: Key, base: T.State, asked: Option<seq<nat>>)
    requires Kept(names, w, k, base, asked) && Settled(w)
    ensures P.Local(names, w, k) == base && base.toQt == []
  {
    hide UiTransferId, P.RecordKey, P.Consistent;
  }

  lemma KeptHead(names: P.Names, w: Receiver, k: Key, base: T.State, asked: Option<seq<nat>>)
    requires Kept(names, w, k, base, asked) && HeadIs(w, k)
    ensures P.Local(names, w, k).toQt != []
  {
    hide P.Local, P.Consistent, HeadIs;
    HeadIsLocal(names, w, k);
  }

  /** Asked since before a step: in the step or since. */
  lemma OneMore(w: Receiver, mid: Receiver, w': Receiver, more: seq<Asked>, k: Key)
    requires mid.outbox == w.outbox + more && |more| <= 1 && mid.outbox <= w'.outbox
    ensures AskedSince(w', |w.outbox|, k) <==> (more != [] && more[0].key == k) || AskedSince(w', |mid.outbox|, k)
    ensures forall i :: |w.outbox| <= i < |mid.outbox| ==> w'.outbox[i] == more[0]
  {
    if more != [] { assert w'.outbox[|w.outbox|] == mid.outbox[|w.outbox|] == more[0]; }
  }

  // ----- Those given up are failed -----

  lemma {:induction false} GivenUpMeaning(transfers: map<Key, T.Transfer>, order: seq<Key>, p: Pass, k: Key)
    requires forall l :: l in transfers ==> T.TransferOk(transfers[l])
    requires k in GivenUp(transfers, order, p.force, p.now, p.roster)
    ensures k in transfers && DecisionOf(transfers[k], p).GiveUp?
    decreases |order|
  {
    hide Decide;
    if order != [] {
      var rest := GivenUp(transfers, order[..|order| - 1], p.force, p.now, p.roster);
      if k in rest { GivenUpMeaning(transfers, order[..|order| - 1], p, k); }
    }
  }

  /** The failures of other transfers leave this one alone. */
  lemma {:induction false} FailsKeep(decode: T.Decoder, names: P.Names, w: Receiver, keys: seq<Key>, now: int,
                                     w': Receiver, k: Key, base: T.State, asked: Option<seq<nat>>)
    requires Kept(names, w, k, base, asked) && k !in keys && Fails(decode, w, keys, now, w')
    ensures Kept(names, w', k, base, asked) && w'.outbox == w.outbox
    ensures P.Local(names, w', k).toQt == P.Local(names, w, k).toQt
    decreases |keys|
  {
    hide Handle, P.Local, P.Consistent, P.LocalEvent, Remembered, Iterates, TransfersOk, Ready;
    if keys != [] {
      var mid :| Step(decode, w, FailIn(keys[0], now), mid) && Fails(decode, mid, keys[1..], now, w');
      FailKeeps(decode, names, w, keys[0], now, mid, k, base, asked);
      FailsKeep(decode, names, mid, keys[1..], now, w', k, base, asked);
    }
  }

  lemma FailKeeps(decode: T.Decoder, names: P.Names, w: Receiver, l: Key, now: int, w': Receiver, k: Key, base: T.State,
                  asked: Option<seq<nat>>)
    requires Kept(names, w, k, base, asked) && l != k && Step(decode, w, FailIn(l, now), w')
    ensures Kept(names, w', k, base, asked) && w'.outbox == w.outbox
    ensures P.Local(names, w', k).toQt == P.Local(names, w, k).toQt
  {
    hide P.Local, P.Consistent, Remembered, Iterates, TransfersOk, CompletionId;
    StepIsLocal(decode, names, w, FailIn(l, now), w', k);
    OutboxGrows(decode, w, FailIn(l, now), w');
  }

  /** A transfer that is given up asks for nothing: only failures wait for it. */
  ghost predicate Mute(names: P.Names, w: Receiver, k: Key) {
    && P.Consistent(names, w) && k.session == w.session
    && var s := P.Local(names, w, k);
       s.toStrand == [] && s.frames == [] && forall i :: 0 <= i < |s.toQt| ==> s.toQt[i] == T.Fail
  }

  lemma {:induction false} FailsMute(decode: T.Decoder, names: P.Names, w: Receiver, keys: seq<Key>, now: int,
                                     w': Receiver, k: Key)
    requires Mute(names, w, k) && Fails(decode, w, keys, now, w')
    ensures Mute(names, w', k) && w'.outbox == w.outbox
    decreases |keys|
  {
    hide Handle, P.Local, P.Consistent, P.LocalEvent, Remembered, Iterates, TransfersOk, Ready;
    if keys != [] {
      var mid :| Step(decode, w, FailIn(keys[0], now), mid) && Fails(decode, mid, keys[1..], now, w');
      FailMutes(decode, names, w, keys[0], now, mid, k);
      FailsMute(decode, names, mid, keys[1..], now, w', k);
    }
  }

  lemma FailMutes(decode: T.Decoder, names: P.Names, w: Receiver, l: Key, now: int, w': Receiver, k: Key)
    requires Mute(names, w, k) && Step(decode, w, FailIn(l, now), w')
    ensures Mute(names, w', k) && w'.outbox == w.outbox
  {
    hide P.Local, P.Consistent, Remembered, Iterates, TransfersOk, CompletionId;
    StepIsLocal(decode, names, w, FailIn(l, now), w', k);
    OutboxGrows(decode, w, FailIn(l, now), w');
  }

  lemma RestMutes(decode: T.Decoder, names: P.Names, w: Receiver, c: Callback, w': Receiver, k: Key,
                  owner: ParticipantKey, p: Pass)
    requires Mute(names, w, k) && RestStep(owner, p, c) && Step(decode, w, c, w')
    ensures Mute(names, w', k) && !(c.QtPostIn? && HeadIs(w, k) && w.toQt[0].message.Request?)
  {
    hide Handle, P.Local, P.Consistent, P.KnownCallback, P.LocalEvent, Remembered, Iterates, TransfersOk, MayAsk,
         HeadIs;
    RestEvent(decode, names, w, c, owner, p, k);
    StepIsLocal(decode, names, w, c, w', k);
    if HeadIs(w, k) { HeadIsLocal(names, w, k); }
  }

  lemma {:induction false} RestsMute(decode: T.Decoder, names: P.Names, w: Receiver, callbacks: seq<Callback>,
                                     w': Receiver, k: Key, owner: ParticipantKey, p: Pass)
    requires Mute(names, w, k) && Rests(decode, owner, p, w, callbacks, w')
    ensures !AskedSince(w', |w.outbox|, k) && w.outbox <= w'.outbox
    decreases |callbacks|
  {
    hide Mute, RestStep, Step, Publishes, HeadIs;
    if callbacks != [] {
      var c := callbacks[0];
      var mid :| Step(decode, w, c, mid) && Rests(decode, owner, p, mid, callbacks[1..], w');
      StepHasHead(decode, w, c, mid);
      OutboxGrows(decode, w, c, mid);
      RestMutes(decode, names, w, c, mid, k, owner, p);
      RestsMute(decode, names, mid, callbacks[1..], w', k, owner, p);
      AtMostOne(w, c);
      PublishesHead(w, c, k);
      OneMore(w, mid, w', Publishes(w, c), k);
    }
  }

  lemma PublishesHead(w: Receiver, c: Callback, k: Key)
    requires c.QtPostIn? ==> w.toQt != []
    ensures Publishes(w, c) != [] && Publishes(w, c)[0].key == k
            ==> c.QtPostIn? && HeadIs(w, k) && w.toQt[0].message.Request?
  {
    hide MayAsk, HasEntry;
  }

  // ----- What a pass asks for -----

  lemma LocalDrained(names: P.Names, w: Receiver, k: Key)
    requires Settled(w) && k in w.transfers
    ensures var s := P.Local(names, w, k);
            && s.toQt == [] && s.toStrand == [] && s.frames == []
            && s.accepting == w.accepting && s.transfer == Some(w.transfers[k])
            && s.terminal == (P.RecordKey(names, k) in w.terminals)
            && s.ledger == if Announced(w, k) then Some(w.ledger[UiTransferId(k)].committed) else None
  {
    hide UiTransferId, P.RecordKey;
  }

  /** What the strand makes of one transfer that is not given up. */
  lemma PassDecides(decode: T.Decoder, names: P.Names, w: Receiver, p: Pass, order: seq<Key>, w': Receiver, k: Key,
                    base: T.State)
    requires P.Consistent(names, w) && k.session == w.session && Settled(w) && w.accepting && k in w.transfers
    requires P.RecordKey(names, k) !in w.terminals && Step(decode, w, Recovery(p, order), w')
    requires T.TransferOk(w.transfers[k])
    requires base == P.Local(names, w, k).(
                       transfer := Some(Decided(w.transfers[k], DecisionOf(w.transfers[k], p), p.now)))
    ensures var d := DecisionOf(w.transfers[k], p);
            if d.GiveUp? then Mute(names, w', k)
            else Kept(names, w', k, base, Some(Wanted(w.transfers[k])))
                 && P.Local(names, w', k).toQt == if d.Ask? then [T.Request(Wanted(w.transfers[k]))] else []
    ensures w'.outbox == w.outbox
  {
    hide P.Local, P.Consistent, Remembered, Iterates, TransfersOk, CompletionId, Wanted, P.RecordKey, T.TransferOk,
         Announced, Asks;
    var c, d := Recovery(p, order), DecisionOf(w.transfers[k], p);
    DecisionMeaning(w.transfers[k], p);
    LocalDrained(names, w, k);
    StepIsLocal(decode, names, w, c, w', k);
    OutboxGrows(decode, w, c, w');
    PassEvent(names, w, p, order, k);
    hide Decide, P.LocalEvent;
  }

  lemma PassEvent(names: P.Names, w: Receiver, p: Pass, order: seq<Key>, k: Key)
    requires TransfersOk(w) && w.accepting && k in w.transfers
    ensures P.LocalEvent(names, w, Recovery(p, order), k)
         == match DecisionOf(w.transfers[k], p)
            case Touch => T.Touch(p.now)
            case Ask(touch, missing) => T.AskForMissing(p.now, touch, missing)
            case _ => T.Quiet
  {
    hide Decide;
  }

  /** A transfer at rest whose tables name their owners. */
  ghost predicate Resting(names: P.Names, w: Receiver, k: Key, text: string, meta: T.Meta) {
    Assembling(w, k, P.OwnerOf(names, k), text, meta) && P.Consistent(names, w)
  }

  lemma OwnEntry(names: P.Names, w: Receiver, k: Key)
    requires P.Consistent(names, w) && k in w.transfers
    ensures TransfersOk(w) && w.transfers[k].owner == P.OwnerOf(names, k)
    ensures P.RecordKey(names, k) == CompletionId(P.OwnerOf(names, k), k.revision, k.wireId)
    ensures k.generation == P.OwnerOf(names, k).generation && k.incarnation == P.OwnerOf(names, k).incarnation
    ensures Announced(w, k) ==> w.ledger[UiTransferId(k)].key == k
  {
    hide UiTransferId, CompletionId, P.PostsOk, P.FramesOk, P.StrandPostsOk;
    if Announced(w, k) {
      UiTransferIdInjective(w.ledger[UiTransferId(k)].key, k);
    }
  }

  /** It is at rest when its own state says so. */
  lemma RestsLocally(names: P.Names, w: Receiver, k: Key, text: string, meta: T.Meta)
    requires P.Consistent(names, w) && Settled(w) && k in w.transfers && k.session == w.session
    requires var s := P.Local(names, w, k); !s.terminal && s.accepting && s.ledger != Some(true)
    requires !w.transfers[k].queued && TransferTrue(text, meta, w.transfers[k])
    requires meta.totalChunks == SliceCount(|text|)
    ensures Resting(names, w, k, text, meta)
  {
    hide P.Local, UiTransferId, CompletionId, P.RecordKey, AreSlices, SliceCount, T.TransferOk, P.Consistent, P.OwnerOf;
    LocalDrained(names, w, k);
    OwnEntry(names, w, k);
  }

  lemma LocallyHas(names: P.Names, w: Receiver, k: Key)
    ensures P.Local(names, w, k).transfer == if k in w.transfers then Some(w.transfers[k]) else None
    ensures P.Local(names, w, k).accepting == w.accepting
    ensures Announced(w, k) <==> P.Local(names, w, k).ledger.Some?
  {
  }

  /**
   A pass publishes a request for the transfer if and only if it may be asked for, its placeholder has been reported,
   and the request may still go out when the Qt thread comes to it; the request is for what is missing. Unless the
   transfer is lost it is at rest again afterwards, with nothing changed but its two times: a request marks the one,
   a forced pass that finds the ticket active the other.
   */
  lemma PassMeaning(decode: T.Decoder, names: P.Names, p: Pass, w: Receiver, w': Receiver, k: Key, text: string,
                    meta: T.Meta)
    requires Resting(names, w, k, text, meta) && PassRuns(decode, P.OwnerOf(names, k), p, w, w')
    ensures k in w.transfers && T.TransferOk(w.transfers[k]) && w.outbox <= w'.outbox
    ensures AskedSince(w', |w.outbox|, k) <==> Askable(w.transfers[k], p) && Announced(w, k) && Reaches(p)
    ensures AskedSince(w', |w.outbox|, k) ==>
              forall i :: |w.outbox| <= i < |w'.outbox| && w'.outbox[i].key == k
                          ==> w'.outbox[i].missing == Wanted(w.transfers[k])
    ensures var t := w.transfers[k];
            !Lost(t, p) ==>
              && Resting(names, w', k, text, meta) && k in w'.transfers
              && w'.transfers[k] == t.(lastActive := if p.force && t.owner in p.roster.tickets then p.now
                                                     else t.lastActive,
                                       lastRecovery := if Askable(t, p) then p.now else t.lastRecovery)
              && (Announced(w', k) <==> Announced(w, k))
  {
    hide P.Local, P.Consistent, Assembling, Wanted, Decide, Decided, Step, Fails, Rests, T.TransferOk, TransferTrue,
         Kept, Mute, Askable, Announced, GivenUp, Lost;
    var owner := P.OwnerOf(names, k);
    AssemblingHas(w, k, owner, text, meta);
    var t, d := w.transfers[k], DecisionOf(w.transfers[k], p);
    var base := P.Local(names, w, k).(transfer := Some(Decided(t, d, p.now)));
    AssemblingLocally(names, w, k, text, meta);
    var order, mid, failed, callbacks :|
      && Step(decode, w, Recovery(p, order), mid)
      && Fails(decode, mid, GivenUp(w.transfers, order, p.force, p.now, p.roster), p.now, failed)
      && Rests(decode, owner, p, failed, callbacks, w');
    PassDecides(decode, names, w, p, order, mid, k, base);
    DecisionMeaning(t, p);
    var keys := GivenUp(w.transfers, order, p.force, p.now, p.roster);
    if d.GiveUp? {
      FailsMute(decode, names, mid, keys, p.now, failed, k);
      RestsMute(decode, names, failed, callbacks, w', k, owner, p);
    } else {
      if k in keys { GivenUpMeaning(w.transfers, order, p, k); }
      FailsKeep(decode, names, mid, keys, p.now, failed, k, base, Some(Wanted(t)));
      RestsKeep(decode, names, failed, callbacks, w', k, p, base, Some(Wanted(t)));
      KeptIsConsistent(names, w', k, base, Some(Wanted(t)));
      LocallyHas(names, w, k);
      LocallyHas(names, w', k);
      DecidedKeeps(text, meta, t, d, p.now);
      TimesAfter(t, p);
      RestsLocally(names, w', k, text, meta);
    }
  }

  lemma AssemblingLocally(names: P.Names, w: Receiver, k: Key, text: string, meta: T.Meta)
    requires Resting(names, w, k, text, meta)
    ensures k in w.transfers && k.session == w.session && Settled(w) && w.accepting
    ensures P.RecordKey(names, k) !in w.terminals
    ensures var s := P.Local(names, w, k);
            !s.terminal && s.accepting && s.ledger != Some(true) && (s.ledger == Some(false) <==> Announced(w, k))
    ensures meta.totalChunks == SliceCount(|text|)
  {
    hide P.Local, UiTransferId, CompletionId, P.RecordKey, AreSlices, SliceCount, T.TransferOk, P.Consistent, P.OwnerOf;
    LocalDrained(names, w, k);
    OwnEntry(names, w, k);
  }

  lemma KeptIsConsistent(names: P.Names, w: Receiver, k: Key, base: T.State, asked: Option<seq<nat>>)
    requires Kept(names, w, k, base, asked)
    ensures P.Consistent(names, w) && k.session == w.session
  {
  }

  /** A decision that does not give a transfer up changes its times alone. */
  lemma DecidedKeeps(text: string, meta: T.Meta, t: T.Transfer, d: Decision, now: int)
    requires T.TransferOk(t) && TransferTrue(text, meta, t)
    ensures var t' := Decided(t, d, now);
            && T.TransferOk(t') && TransferTrue(text, meta, t') && t'.chunks == t.chunks && t'.queued == t.queued
            && t'.resumable == t.resumable
  {
  }

  // ----- A pass can always run -----

  /** Nothing waits but requests and failures. */
  predicate OnlyReports(w: Receiver) {
    && TransfersOk(w) && w.toStrand == [] && w.frames == []
    && forall i :: 0 <= i < |w.toQt| ==> w.toQt[i].Post? && (w.toQt[i].message.Request? || w.toQt[i].message.Fail?)
  }

  lemma ReportMoves(decode: T.Decoder, owner: ParticipantKey, p: Pass, w: Receiver) returns (c: Callback, w': Receiver)
    requires OnlyReports(w) && w.toQt != []
    ensures RestStep(owner, p, c) && Step(decode, w, c, w') && OnlyReports(w') && |w'.toQt| == |w.toQt| - 1
  {
    hide UiTransferId, Iterates, T.TransferOk;
    var ids := SomeOrder(w.ledger.Keys);
    c := QtPostIn(Now(owner).(session := p.session, transport := p.sender), ids);
    w' := Handle(decode, w, c).state;
  }

  lemma {:induction false} ReportsRest(decode: T.Decoder, owner: ParticipantKey, p: Pass, w: Receiver)
    returns (callbacks: seq<Callback>, w': Receiver)
    requires OnlyReports(w)
    ensures Rests(decode, owner, p, w, callbacks, w')
    decreases |w.toQt|
  {
    hide RestStep, Step, TransfersOk;
    if w.toQt == [] {
      callbacks, w' := [], w;
    } else {
      var c, mid := ReportMoves(decode, owner, p, w);
      var more, rest := ReportsRest(decode, owner, p, mid);
      callbacks, w' := [c] + more, rest;
      assert callbacks[1..] == more;
    }
  }

  lemma FailCanRun(decode: T.Decoder, w: Receiver, k: Key, now: int) returns (w': Receiver)
    requires OnlyReports(w)
    ensures Step(decode, w, FailIn(k, now), w') && OnlyReports(w')
  {
    hide Remembered, CompletionId, T.TransferOk;
    var o := OnFail(w, k, now);
    if k in w.transfers {
      var left := SomeRecords(w.terminals, RecordOf(k, w.transfers[k].owner, now));
      w' := o.state.(terminals := left);
    } else {
      w' := w;
      assert Remembered(w.terminals, [], w.terminals) by { NothingRemembered(w.terminals); }
    }
  }

  lemma NothingRemembered(ts: Terminals)
    ensures Remembered(ts, [], ts)
  {
  }

  lemma {:induction false} FailuresRun(decode: T.Decoder, w: Receiver, keys: seq<Key>, now: int) returns (w': Receiver)
    requires OnlyReports(w)
    ensures Fails(decode, w, keys, now, w') && OnlyReports(w')
    decreases |keys|
  {
    hide Step, OnlyReports;
    if keys == [] {
      w' := w;
    } else {
      var mid := FailCanRun(decode, w, keys[0], now);
      w' := FailuresRun(decode, mid, keys[1..], now);
    }
  }

  predicate AllRequests(posts: seq<Post>) {
    forall i :: 0 <= i < |posts| ==> posts[i].Post? && posts[i].message.Request?
  }

  lemma {:induction false} AsksAreRequests(transfers: map<Key, T.Transfer>, order: seq<Key>, p: Pass)
    requires forall k :: k in transfers ==> T.TransferOk(transfers[k])
    ensures AllRequests(Asks(transfers, order, p.force, p.now, p.roster))
    decreases |order|
  {
    hide Decide, T.TransferOk;
    if order != [] {
      var rest := Asks(transfers, order[..|order| - 1], p.force, p.now, p.roster);
      AsksAreRequests(transfers, order[..|order| - 1], p);
      assert AllRequests(rest);
    }
  }

  lemma RecoveryCanRun(decode: T.Decoder, w: Receiver, p: Pass, order: seq<Key>) returns (w': Receiver)
    requires TransfersOk(w) && Settled(w) && Iterates(order, w.transfers.Keys)
    ensures Step(decode, w, Recovery(p, order), w') && OnlyReports(w')
  {
    hide Remembered, Iterates, Decide, Decided, Asks, T.TransferOk;
    AsksAreRequests(w.transfers, order, p);
    DecidedOk(w, p);
    w' := Handle(decode, w, Recovery(p, order)).state;
    NothingRemembered(w'.terminals);
    assert w'.toQt == if w.accepting then Asks(w.transfers, order, p.force, p.now, p.roster) else [];
  }

  lemma DecidedOk(w: Receiver, p: Pass)
    requires TransfersOk(w)
    ensures forall k :: k in w.transfers ==> T.TransferOk(Decided(w.transfers[k], DecisionOf(w.transfers[k], p), p.now))
  {
    hide Decide;
  }

  lemma PassCanRun(decode: T.Decoder, owner: ParticipantKey, p: Pass, w: Receiver) returns (w': Receiver)
    requires TransfersOk(w) && Settled(w)
    ensures PassRuns(decode, owner, p, w, w')
  {
    hide Step, TransfersOk, OnlyReports, Rests, Fails, Iterates;
    var order := SomeOrder(w.transfers.Keys);
    var mid := RecoveryCanRun(decode, w, p, order);
    var keys := KeysGivenUp(w, p, order);
    var failed := FailuresRun(decode, mid, keys, p.now);
    var callbacks, rest := ReportsRest(decode, owner, p, failed);
    w' := rest;
  }

  lemma KeysGivenUp(w: Receiver, p: Pass, order: seq<Key>) returns (keys: seq<Key>)
    requires TransfersOk(w)
    ensures keys == GivenUp(w.transfers, order, p.force, p.now, p.roster)
  {
    keys := GivenUp(w.transfers, order, p.force, p.now, p.roster);
  }

  // ----- When a transfer can be asked for at all -----

  /** An ordinary pass in a meeting that finds the sender there. */
  function Ordinary(owner: ParticipantKey, now: int): Pass {
    Pass(Meeting(true, InMeeting, false, false), false, now, Roster(map[owner.identity := owner.sid], {owner}), true,
         true)
  }

  /**
   There is a time at which an ordinary pass asks for it exactly if it can be resumed and its last request came
   less than 55 seconds after its last new chunk: five seconds after both is the first such time.
   */
  lemma TimeToAsk(t: T.Transfer)
    requires T.TransferOk(t) && t.meta.totalChunks <= MAXIMUM_CHUNKS
    ensures (exists now :: Askable(t, Ordinary(t.owner, now)))
            <==> t.resumable && t.lastRecovery - t.lastActive < RECOVERY_TIMEOUT - RECOVERY_INTERVAL
  {
    var first := (if t.lastActive < t.lastRecovery then t.lastRecovery else t.lastActive) + RECOVERY_INTERVAL;
    if t.resumable && t.lastRecovery - t.lastActive < RECOVERY_TIMEOUT - RECOVERY_INTERVAL {
      assert Askable(t, Ordinary(t.owner, first));
    }
  }
}
