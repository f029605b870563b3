/**
 What becomes of the transfers of a sender who leaves (src/core/meeting_coordinator.cpp): the cancellation on the
 strand, its callback on the Qt thread, and the failures it collects.
 */
module MediaCancelling {
  import opened Options
  import opened MediaKeys
  import T = MediaTransfer
  import opened MediaReceiver
  import P = MediaProjection
  import RR = MediaReceiverRuns
  import opened MediaUptake
  import opened MediaAsking
  import opened MediaGivingUp

  /** A callback that waits is run; where it looks, the session is current or not, as said. */
  predicate Winds(session: bool, c: Callback) {
    match c
    case QtPostIn(view, _) => view.session == session
    case ResumeIn(_, view) => view.session == session
    case StrandPostIn(_) => true
    case _ => false
  }

  /** The threads run on until nothing waits. */
  ghost predicate WindsDown(decode: T.Decoder, session: bool, w: Receiver, callbacks: seq<Callback>, w': Receiver)
    decreases |callbacks|
  {
    if callbacks == [] then w' == w && Settled(w)
    else Winds(session, callbacks[0])
         && exists mid :: Step(decode, w, callbacks[0], mid) && WindsDown(decode, session, mid, callbacks[1..], w')
  }

  // ----- The receiver as a whole -----

  /** Nothing waits but cancellations and the failures they collect. */
  predicate OnlyCancels(w: Receiver) {
    && TransfersOk(w) && w.toStrand == []
    && (forall i :: 0 <= i < |w.toQt| ==> w.toQt[i].PostCancel?)
    && (forall i :: 0 <= i < |w.frames| ==> w.frames[i].frame.Failing?)
  }

  lemma {:induction false} FailingOnly(ledger: map<string, Entry>, order: seq<string>, session: nat,
                                       sender: ParticipantKey)
    ensures forall i :: 0 <= i < |FailingOf(ledger, order, session, sender)| ==>
              FailingOf(ledger, order, session, sender)[i].frame.Failing?
    decreases |order|
  {
    hide Belongs;
    if order != [] { FailingOnly(ledger, order[..|order| - 1], session, sender); }
  }

  lemma WindLeaves(decode: T.Decoder, session: bool, w: Receiver, c: Callback, w': Receiver)
    requires OnlyCancels(w) && Winds(session, c) && Step(decode, w, c, w')
    ensures OnlyCancels(w') && w'.terminals == w.terminals && w'.transfers == w.transfers
  {
    hide T.TransferOk, UiTransferId, Iterates, FailingOf, Belongs;
    if c.QtPostIn? {
      FailingOnly(w.ledger, c.ids, w.session, w.toQt[0].sender);
    }
  }

  lemma CancelLeaves(decode: T.Decoder, w: Receiver, sender: ParticipantKey, now: int, order: seq<Key>, w': Receiver)
    requires Settled(w) && Step(decode, w, CancelIn(sender, now, order), w')
    ensures OnlyCancels(w')
    ensures w.accepting ==>
              w'.transfers == map k | k in w.transfers && w.transfers[k].owner != sender :: w.transfers[k]
  {
    hide T.TransferOk, Iterates, RecordsOf, Remembered;
  }

  // ----- The records -----

  /** Of records that all expire at the same time, each is there afterwards, or was among the oldest. */
  lemma {:induction false} AllRecorded(ts: Terminals, records: seq<Terminal>, ts': Terminals, i: nat, expiry: int)
    requires Remembered(ts, records, ts') && i < |records|
    requires forall j :: 0 <= j < |records| ==> records[j].expiresAt == expiry
    ensures RecordedUntil(ts', RecordId(records[i]), expiry)
    decreases |records|
  {
    hide Evicted, RecordId, RecordedUntil;
    var earlier, last := records[..|records| - 1], records[|records| - 1];
    var mid: Terminals :| Remembered(ts, earlier, mid) && Evicted(mid[RecordId(last) := last], ts');
    if i == |records| - 1 {
      EvictedKeeps(mid[RecordId(last) := last], ts', RecordId(last));
    } else {
      AllRecorded(ts, earlier, mid, i, expiry);
      EvictedStays(mid, last, ts', RecordId(records[i]));
    }
  }

  lemma {:induction false} CancelledListed(transfers: map<Key, T.Transfer>, order: seq<Key>, sender: ParticipantKey,
                                           now: int, k: Key)
    ensures forall i :: 0 <= i < |RecordsOf(transfers, order, sender, now)| ==>
              RecordsOf(transfers, order, sender, now)[i].expiresAt == now + CACHE_LIFETIME
    ensures k in order && k in transfers && transfers[k].owner == sender ==>
              RecordOf(k, sender, now) in RecordsOf(transfers, order, sender, now)
    decreases |order|
  {
    if order != [] {
      CancelledListed(transfers, order[..|order| - 1], sender, now, k);
      assert order == order[..|order| - 1] + [order[|order| - 1]];
    }
  }

  lemma CancelRecords(decode: T.Decoder, w: Receiver, sender: ParticipantKey, now: int, order: seq<Key>, w': Receiver,
                      k: Key)
    requires w.accepting && Step(decode, w, CancelIn(sender, now, order), w')
    requires k in w.transfers && w.transfers[k].owner == sender
    ensures RecordedUntil(w'.terminals, CompletionId(sender, k.revision, k.wireId), now + CACHE_LIFETIME)
  {
    hide T.TransferOk, Remembered, RecordsOf, CompletionId, RecordedUntil;
    CancelledListed(w.transfers, order, sender, now, k);
    var records := RecordsOf(w.transfers, order, sender, now);
    var i :| 0 <= i < |records| && records[i] == RecordOf(k, sender, now);
    AllRecorded(w.terminals, records, w'.terminals, i, now + CACHE_LIFETIME);
  }

  // ----- One transfer -----

  /** Its placeholder goes with the cancellation, and its failure is due if it had been announced and not completed. */
  function Cancelled(s: T.State, session: bool): T.State {
    if !session then s
    else s.(ledger := None, frames := if s.ledger == Some(false) then [T.Failing] else [])
  }

  function Over(s: T.State, session: bool): T.State {
    if session && s.ledger == Some(false) then s.(ledger := None, log := s.log + [T.Failed])
    else if session then s.(ledger := None) else s
  }

  /** How far a cancelled transfer has come: its cancellation waits, the failure waits, or all is over. */
  ghost predicate Cancelling(names: P.Names, w: Receiver, k: Key, base: T.State, session: bool) {
    || Is(names, w, k, base.(toQt := [T.Cancel]))
    || Is(names, w, k, Cancelled(base, session))
    || Is(names, w, k, Over(base, session))
  }

  lemma WindEvent(decode: T.Decoder, names: P.Names, w: Receiver, c: Callback, session: bool, k: Key)
    requires Winds(session, c) && Ready(w, c)
    ensures var e := P.LocalEvent(names, w, c, k);
            || e.Quiet? || e.RunOnStrand? || (e.RunOnQt? && e.current.session == session)
            || (e.ResumeFrame? && e.current.session == session)
    ensures P.KnownCallback(names, c)
  {
    hide T.WellFormed, Decide, CompletionId, UiTransferId, P.Rank, T.TransferOk, Iterates;
  }

  lemma WindCancels(decode: T.Decoder, names: P.Names, w: Receiver, c: Callback, w': Receiver, k: Key, session: bool,
                    base: T.State)
    requires Cancelling(names, w, k, base, session) && Winds(session, c) && Step(decode, w, c, w')
    requires base.toQt == [] && base.toStrand == [] && base.frames == []
    ensures Cancelling(names, w', k, base, session)
  {
    hide Is, Step, Winds;
    if Is(names, w, k, base.(toQt := [T.Cancel])) {
      CancelRuns(decode, names, w, c, w', k, session, base);
    } else if Is(names, w, k, Cancelled(base, session)) {
      FailureRuns(decode, names, w, c, w', k, session, base);
    } else {
      WindSpares(decode, names, w, c, w', k, session, Over(base, session));
    }
  }

  lemma CancelRuns(decode: T.Decoder, names: P.Names, w: Receiver, c: Callback, w': Receiver, k: Key, session: bool,
                   base: T.State)
    requires Is(names, w, k, base.(toQt := [T.Cancel])) && Winds(session, c) && Step(decode, w, c, w')
    requires base.toQt == [] && base.toStrand == [] && base.frames == []
    ensures Is(names, w', k, base.(toQt := [T.Cancel])) || Is(names, w', k, Cancelled(base, session))
  {
    hide Handle, P.Local, P.Consistent, P.KnownCallback, P.LocalEvent, Remembered, Iterates, TransfersOk;
    WindEvent(decode, names, w, c, session, k);
    StepIsLocal(decode, names, w, c, w', k);
  }

  lemma FailureRuns(decode: T.Decoder, names: P.Names, w: Receiver, c: Callback, w': Receiver, k: Key, session: bool,
                    base: T.State)
    requires Is(names, w, k, Cancelled(base, session)) && Winds(session, c) && Step(decode, w, c, w')
    requires base.toQt == [] && base.toStrand == [] && base.frames == []
    ensures Is(names, w', k, Cancelled(base, session)) || Is(names, w', k, Over(base, session))
  {
    hide Handle, P.Local, P.Consistent, P.KnownCallback, P.LocalEvent, Remembered, Iterates, TransfersOk;
    WindEvent(decode, names, w, c, session, k);
    StepIsLocal(decode, names, w, c, w', k);
    assert T.Without([T.Failing], 0) == [];
  }

  lemma {:induction false} WindsCancel(decode: T.Decoder, names: P.Names, w: Receiver, callbacks: seq<Callback>,
                                       w': Receiver, k: Key, session: bool, base: T.State)
    requires Cancelling(names, w, k, base, session) && WindsDown(decode, session, w, callbacks, w')
    requires base.toQt == [] && base.toStrand == [] && base.frames == []
    ensures Is(names, w', k, Over(base, session))
    decreases |callbacks|
  {
    hide Cancelling, Step, Winds, Is;
    if callbacks == [] {
      CancelledOver(names, w, k, session, base);
    } else {
      var mid :| Step(decode, w, callbacks[0], mid) && WindsDown(decode, session, mid, callbacks[1..], w');
      WindCancels(decode, names, w, callbacks[0], mid, k, session, base);
      WindsCancel(decode, names, mid, callbacks[1..], w', k, session, base);
    }
  }

  lemma CancelledOver(names: P.Names, w: Receiver, k: Key, session: bool, base: T.State)
    requires Cancelling(names, w, k, base, session) && Settled(w) && base.frames == []
    ensures Is(names, w, k, Over(base, session))
  {
    hide P.Local, P.Consistent;
    NothingWaits(names, w, k);
  }

  /** A transfer of somebody else has nothing under way, so nothing happens to it. */
  lemma WindSpares(decode: T.Decoder, names: P.Names, w: Receiver, c: Callback, w': Receiver, k: Key, session: bool,
                   base: T.State)
    requires Is(names, w, k, base) && Winds(session, c) && Step(decode, w, c, w')
    requires base.toQt == [] && base.toStrand == [] && base.frames == []
    ensures Is(names, w', k, base)
  {
    hide Handle, P.Local, P.Consistent, P.KnownCallback, P.LocalEvent, Remembered, Iterates, TransfersOk;
    WindEvent(decode, names, w, c, session, k);
    StepIsLocal(decode, names, w, c, w', k);
  }

  lemma {:induction false} WindsSpare(decode: T.Decoder, names: P.Names, w: Receiver, callbacks: seq<Callback>,
                                      w': Receiver, k: Key, session: bool, base: T.State)
    requires Is(names, w, k, base) && WindsDown(decode, session, w, callbacks, w')
    requires base.toQt == [] && base.toStrand == [] && base.frames == []
    ensures Is(names, w', k, base)
    decreases |callbacks|
  {
    hide Step, Winds, Is;
    if callbacks != [] {
      var mid :| Step(decode, w, callbacks[0], mid) && WindsDown(decode, session, mid, callbacks[1..], w');
      WindSpares(decode, names, w, callbacks[0], mid, k, session, base);
      WindsSpare(decode, names, mid, callbacks[1..], w', k, session, base);
    }
  }

  lemma {:induction false} WindsLeave(decode: T.Decoder, session: bool, w: Receiver, callbacks: seq<Callback>,
                                      w': Receiver)
    requires OnlyCancels(w) && WindsDown(decode, session, w, callbacks, w')
    ensures w'.terminals == w.terminals && w'.transfers == w.transfers
    decreases |callbacks|
  {
    hide OnlyCancels, Step, Winds;
    if callbacks != [] {
      var mid :| Step(decode, w, callbacks[0], mid) && WindsDown(decode, session, mid, callbacks[1..], w');
      WindLeaves(decode, session, w, callbacks[0], mid);
      WindsLeave(decode, session, mid, callbacks[1..], w');
    }
  }

  /** What the strand makes of the cancellation. */
  lemma CancelStarts(decode: T.Decoder, names: P.Names, w: Receiver, sender: ParticipantKey, now: int, order: seq<Key>,
                     w': Receiver, k: Key)
    requires P.Consistent(names, w) && P.Known(names, sender) && Settled(w) && w.accepting && k.session == w.session
    requires Step(decode, w, CancelIn(sender, now, order), w')
    ensures var base := P.Local(names, w, k);
            && base.toQt == [] && base.toStrand == [] && base.frames == []
            && if Belongs(k, w.session, sender) then Is(names, w', k, base.(transfer := None, toQt := [T.Cancel]))
               else Is(names, w', k, base)
  {
    hide P.Local, P.Consistent, Remembered, Iterates, TransfersOk, RecordsOf, P.RecordKey;
    StepIsLocal(decode, names, w, CancelIn(sender, now, order), w', k);
    NothingWaits(names, w, k);
    CancelEvent(names, w, sender, now, order, k);
  }

  lemma NothingWaits(names: P.Names, w: Receiver, k: Key)
    requires Settled(w)
    ensures var s := P.Local(names, w, k); s.toQt == [] && s.toStrand == [] && s.frames == []
  {
    hide P.RecordKey, UiTransferId;
  }

  lemma CancelEvent(names: P.Names, w: Receiver, sender: ParticipantKey, now: int, order: seq<Key>, k: Key)
    requires TransfersOk(w) && w.accepting
    ensures P.LocalEvent(names, w, CancelIn(sender, now, order), k)
         == if Belongs(k, w.session, sender) then T.CancelOnStrand else T.Quiet
  {
  }

  /**
   A sender leaves, and the threads run on until nothing waits. All its transfers, and only its, are out of the table,
   and recorded unless there are 1024 records none of which expires earlier. If the session is still current all its
   ledger entries are gone, and each that was not completed has been reported as failed, once; nothing is reported of
   anybody else.
   */
  lemma SenderLeaves(decode: T.Decoder, names: P.Names, w: Receiver, sender: ParticipantKey, now: int, order: seq<Key>,
                     mid: Receiver, session: bool, callbacks: seq<Callback>, w': Receiver, k: Key)
    requires P.Consistent(names, w) && P.Known(names, sender) && Settled(w) && w.accepting && k.session == w.session
    requires Step(decode, w, CancelIn(sender, now, order), mid) && WindsDown(decode, session, mid, callbacks, w')
    ensures k in w'.transfers <==> k in w.transfers && w.transfers[k].owner != sender
    ensures k in w'.transfers ==> w'.transfers[k] == w.transfers[k]
    ensures k in w.transfers && w.transfers[k].owner == sender ==>
              RecordedUntil(w'.terminals, CompletionId(sender, k.revision, k.wireId), now + CACHE_LIFETIME)
    ensures var cancelled := session && Belongs(k, w.session, sender);
            var due := cancelled && Announced(w, k) && !w.ledger[UiTransferId(k)].committed;
            && RR.SignalsOf(w', k) == RR.SignalsOf(w, k) + (if due then [T.Failed] else [])
            && (Announced(w', k) <==> Announced(w, k) && !cancelled)
  {
    hide P.Local, P.Consistent, Step, WindsDown, Is, RecordedUntil, Announced, OnlyCancels, CompletionId, UiTransferId,
         RR.SignalsOf, P.Known, Belongs, Cancelling;
    var base := P.Local(names, w, k);
    CancelLeaves(decode, w, sender, now, order, mid);
    WindsLeave(decode, session, mid, callbacks, w');
    CancelStarts(decode, names, w, sender, now, order, mid, k);
    ItselfLocally(names, w, k);
    Unannounced(names, w, k, base);
    assert base.log + [] == base.log;
    if k in w.transfers && w.transfers[k].owner == sender {
      CancelRecords(decode, w, sender, now, order, mid, k);
    }
    if Belongs(k, w.session, sender) {
      var gone := base.(transfer := None);
      CancelWaits(names, mid, k, session, gone);
      WindsCancel(decode, names, mid, callbacks, w', k, session, gone);
      Unannounced(names, w', k, Over(gone, session));
    } else {
      WindsSpare(decode, names, mid, callbacks, w', k, session, base);
      Unannounced(names, w', k, base);
    }
  }

  lemma CancelWaits(names: P.Names, w: Receiver, k: Key, session: bool, base: T.State)
    requires Is(names, w, k, base.(toQt := [T.Cancel]))
    ensures Cancelling(names, w, k, base, session)
  {
    hide Is;
  }

  // ----- The threads can always come to rest -----

  lemma WindMoves(decode: T.Decoder, session: bool, w: Receiver) returns (c: Callback, w': Receiver)
    requires OnlyCancels(w) && !Settled(w)
    ensures Winds(session, c) && Step(decode, w, c, w') && OnlyCancels(w')
    ensures |w'.toQt| < |w.toQt| || (|w'.toQt| == |w.toQt| && |w'.frames| < |w.frames|)
  {
    hide T.TransferOk, UiTransferId, Iterates, FailingOf, Belongs;
    var view := QtView(session, {}, Meeting(true, InMeeting, false, false), {}, map[], true);
    if w.toQt != [] {
      var ids := SomeOrder(w.ledger.Keys);
      c := QtPostIn(view, ids);
      FailingOnly(w.ledger, ids, w.session, w.toQt[0].sender);
    } else {
      c := ResumeIn(0, view);
    }
    w' := Handle(decode, w, c).state;
  }

  lemma {:induction false} WindsCanDown(decode: T.Decoder, session: bool, w: Receiver)
    returns (callbacks: seq<Callback>, w': Receiver)
    requires OnlyCancels(w)
    ensures WindsDown(decode, session, w, callbacks, w')
    decreases |w.toQt|, |w.frames|
  {
    hide OnlyCancels, Winds, Step;
    if Settled(w) {
      callbacks, w' := [], w;
    } else {
      var c, mid := WindMoves(decode, session, w);
      var more, rest := WindsCanDown(decode, session, mid);
      callbacks, w' := [c] + more, rest;
      assert callbacks[1..] == more;
    }
  }
}
