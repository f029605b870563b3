/**
 Whole runs of the media receiver, with any number of senders and transfers interleaved: the signals of
 every transfer id are lawful, what is delivered is what was sent, and the tables stay within bounds.
 */
module MediaReceiverRuns {
  import opened MediaKeys
  import opened Picks
  import T = MediaTransfer
  import opened MediaSignals
  import opened MediaDelivery
  import opened MediaReceiver
  import opened MediaProjection

  ghost predicate AllReady(states: seq<Receiver>, callbacks: seq<Callback>) {
    |states| == |callbacks| + 1 && forall i :: 0 <= i < |callbacks| ==> Ready(states[i], callbacks[i])
  }

  /** A run: its states, and the callback between each two of them. */
  ghost predicate Run(decode: T.Decoder, session: nat, states: seq<Receiver>, callbacks: seq<Callback>) {
    && AllReady(states, callbacks) && states[0] == Initial(session)
    && forall i :: 0 <= i < |callbacks| ==> Step(decode, states[i], callbacks[i], states[i + 1])
  }

  ghost predicate AllKnown(names: Names, callbacks: seq<Callback>) {
    forall i :: 0 <= i < |callbacks| ==> KnownCallback(names, callbacks[i])
  }

  /** The signals a transfer has emitted. */
  function SignalsOf(w: Receiver, k: Key): seq<T.Signal> {
    Pick(w.log, LogPart(k))
  }

  /** The transfer's own run within the first n callbacks. */
  ghost function LocalRun(decode: T.Decoder, names: Names, states: seq<Receiver>, callbacks: seq<Callback>, k: Key,
                          n: nat)
    : seq<T.Event>
    requires n <= |callbacks| && AllReady(states, callbacks)
  {
    if n == 0 then []
    else LocalRun(decode, names, states, callbacks, k, n - 1)
         + LocalSteps(decode, names, states[n - 1], callbacks[n - 1], states[n], k)
  }

  lemma InitialLocal(names: Names, session: nat, k: Key)
    ensures Local(names, Initial(session), k) == T.INITIAL && Consistent(names, Initial(session))
  {
  }

  /** Every run of the receiver is, for each transfer, a run of that transfer alone. */
  lemma {:induction false} RunProjects(decode: T.Decoder, names: Names, session: nat, states: seq<Receiver>,
                                       callbacks: seq<Callback>, k: Key, n: nat)
    requires Run(decode, session, states, callbacks) && AllKnown(names, callbacks) && n <= |callbacks|
    requires k.session == session
    ensures var events := LocalRun(decode, names, states, callbacks, k, n);
            Runs(decode, T.INITIAL, events) && After(decode, T.INITIAL, events) == Local(names, states[n], k)
    ensures Consistent(names, states[n]) && states[n].session == session
  {
    hide Local, Consistent, Runs, After, LocalSteps, Ready, Handle, KnownCallback, Remembered;
    if n == 0 {
      InitialLocal(names, session, k);
      NothingRuns(decode, T.INITIAL);
    } else {
      RunProjects(decode, names, session, states, callbacks, k, n - 1);
      StepProjects(decode, names, states[n - 1], callbacks[n - 1], states[n], k);
      RunsConcat(decode, T.INITIAL, LocalRun(decode, names, states, callbacks, k, n - 1),
                 LocalSteps(decode, names, states[n - 1], callbacks[n - 1], states[n], k));
    }
  }

  lemma NothingRuns(decode: T.Decoder, s: T.State)
    ensures Runs(decode, s, []) && After(decode, s, []) == s
  {
  }

  /** The transfer's terminal record is neither found expired nor evicted by this step. */
  ghost predicate RecordKept(decode: T.Decoder, names: Names, w: Receiver, c: Callback, w': Receiver, k: Key)
    requires Ready(w, c)
  {
    var o, id := Handle(decode, w, c), RecordKey(names, k);
    (id in w.terminals ==> id in o.state.terminals) && (Records(names, o, k) ==> id in w'.terminals)
  }

  ghost predicate RecordsKept(decode: T.Decoder, names: Names, states: seq<Receiver>, callbacks: seq<Callback>, k: Key)
    requires AllReady(states, callbacks)
  {
    forall i :: 0 <= i < |callbacks| ==> RecordKept(decode, names, states[i], callbacks[i], states[i + 1], k)
  }

  lemma NoLocalDrop(decode: T.Decoder, names: Names, w: Receiver, c: Callback, w': Receiver, k: Key)
    requires Ready(w, c) && RecordKept(decode, names, w, c, w', k)
    ensures KeepsTerminal(LocalSteps(decode, names, w, c, w', k))
  {
    hide Handle, Records, RecordKey, Iterates, T.TransferOk, T.WellFormed, Decide, CompletionId, UiTransferId, Rank;
    var e := LocalEvent(names, w, c, k);
    LocalIsNoDrop(names, w, c, k);
    assert LocalSteps(decode, names, w, c, w', k) == [] + [e] + [];
  }

  lemma LocalIsNoDrop(names: Names, w: Receiver, c: Callback, k: Key)
    requires Ready(w, c)
    ensures !LocalEvent(names, w, c, k).DropTerminal?
  {
    hide T.WellFormed, Decide, CompletionId, UiTransferId, Rank, T.TransferOk, Iterates;
  }

  lemma {:induction false} NoDrops(decode: T.Decoder, names: Names, states: seq<Receiver>, callbacks: seq<Callback>,
                                   k: Key, n: nat)
    requires n <= |callbacks| && AllReady(states, callbacks)
    requires RecordsKept(decode, names, states, callbacks, k)
    ensures KeepsTerminal(LocalRun(decode, names, states, callbacks, k, n))
  {
    hide Ready, RecordKept, LocalSteps;
    if n > 0 {
      NoDrops(decode, names, states, callbacks, k, n - 1);
      NoLocalDrop(decode, names, states[n - 1], callbacks[n - 1], states[n], k);
    }
  }

  /**
   In every interleaving of strand steps, Qt steps, duplicates, failures and refused deliveries of all
   transfers, the signals of each are lawful, as long as its terminal record is kept.
   */
  lemma EverySignalIsLawful(decode: T.Decoder, names: Names, session: nat, states: seq<Receiver>,
                            callbacks: seq<Callback>, k: Key)
    requires Run(decode, session, states, callbacks) && AllKnown(names, callbacks) && k.session == session
    requires RecordsKept(decode, names, states, callbacks, k)
    ensures Lawful(SignalsOf(states[|callbacks|], k))
  {
    hide Runs, After, LocalRun, Lawful, Ready, Handle, RecordKept, Remembered;
    var n := |callbacks|;
    RunProjects(decode, names, session, states, callbacks, k, n);
    NoDrops(decode, names, states, callbacks, k, n);
    SignalsAreLawful(decode, LocalRun(decode, names, states, callbacks, k, n));
  }

  // ----- When a record is lost -----

  /** The transfer's terminal record is found expired in this step, before anything else happens in it. */
  ghost predicate Expires(decode: T.Decoder, names: Names, w: Receiver, c: Callback, k: Key)
    requires Ready(w, c)
  {
    RecordKey(names, k) in w.terminals && RecordKey(names, k) !in Handle(decode, w, c).state.terminals
  }

  /** The record is there after this step's changes, but evicted at its end. */
  ghost predicate Evicts(decode: T.Decoder, names: Names, w: Receiver, c: Callback, w': Receiver, k: Key)
    requires Ready(w, c)
  {
    Records(names, Handle(decode, w, c), k) && RecordKey(names, k) !in w'.terminals
  }

  /** A packet of the transfer is accepted while there is none. */
  predicate OpensTransfer(w: Receiver, c: Callback, k: Key)
    requires TransfersOk(w)
  {
    && c.PacketIn? && k == KeyFor(w, c.sender, c.revision, c.packet.wireId) && k !in w.transfers
    && w.accepting && c.sender in c.tickets && T.WellFormed(c.packet) && |w.transfers| < MAXIMUM_TRANSFERS
    && (CompletionId(c.sender, c.revision, c.packet.wireId) in w.terminals
        ==> w.terminals[CompletionId(c.sender, c.revision, c.packet.wireId)].expiresAt <= c.now)
  }

  /** Some record of the transfer was lost in the first n steps. */
  ghost predicate LostBefore(decode: T.Decoder, names: Names, states: seq<Receiver>, callbacks: seq<Callback>, k: Key,
                             n: nat)
    requires AllReady(states, callbacks) && n <= |callbacks|
  {
    exists i :: 0 <= i < n && LostAt(decode, names, states[i], callbacks[i], states[i + 1], k)
  }

  ghost predicate LostAt(decode: T.Decoder, names: Names, w: Receiver, c: Callback, w': Receiver, k: Key)
    requires Ready(w, c)
  {
    Expires(decode, names, w, c, k) || Evicts(decode, names, w, c, w', k)
  }

  /** No packet opens the transfer once a record of it was lost. */
  ghost predicate NeverReopened(decode: T.Decoder, names: Names, states: seq<Receiver>, callbacks: seq<Callback>,
                                k: Key)
    requires AllReady(states, callbacks)
  {
    forall n :: 0 <= n < |callbacks| && OpensTransfer(states[n], callbacks[n], k) ==>
      !LostBefore(decode, names, states, callbacks, k, n) && !Expires(decode, names, states[n], callbacks[n], k)
  }

  lemma OpensLocally(names: Names, w: Receiver, c: Callback, k: Key)
    requires Ready(w, c)
    ensures var s, e := Local(names, w, k), LocalEvent(names, w, c, k);
            e.Receive? && s.accepting && s.transfer.None? && e.room ==> OpensTransfer(w, c, k)
  {
    hide Pick, UiTransferId, RecordKey, T.WellFormed, Decide, CompletionId, Rank, T.TransferOk, Iterates;
  }

  /** One step of the receiver, as far as it concerns a transfer whose record may have been lost before. */
  lemma StepStaysSound(decode: T.Decoder, names: Names, w: Receiver, c: Callback, w': Receiver, k: Key, lost: bool)
    requires Consistent(names, w) && KnownCallback(names, c) && Step(decode, w, c, w') && k.session == w.session
    requires SoundBut(Local(names, w, k), lost)
    requires OpensTransfer(w, c, k) ==> !lost && !Expires(decode, names, w, c, k)
    ensures SoundBut(Local(names, w', k), lost || LostAt(decode, names, w, c, w', k))
  {
    hide Handle, Local, RecordKey, T.Apply, T.Enabled, Remembered, LocalEvent, KnownCallback, Consistent, HasRecord,
         Iterates, TransfersOk, SoundBut, Before, OpensTransfer, Records;
    var o, e, s := Handle(decode, w, c), LocalEvent(names, w, c, k), Local(names, w, k);
    CallbackSimulates(decode, names, w, c, k);
    DropsFirst(decode, names, w, c, k);
    DropsLast(decode, names, w, c, w', k);
    var s1, expired := Before(names, w, o, k), Expires(decode, names, w, c, k);
    RecordIsTerminal(names, w, k);
    if expired { DropKeepsBut(decode, s, lost); }
    assert SoundBut(s1, lost || expired);
    OpensLocally(names, w, c, k);
    BeforeFields(names, w, o, k);
    StepKeepsBut(decode, s1, e, lost || expired);
    LocalIsNoDrop(names, w, c, k);
    var s2 := T.Apply(decode, s1, e);
    if Evicts(decode, names, w, c, w', k) { DropKeepsBut(decode, s2, lost || expired); }
  }

  lemma RecordIsTerminal(names: Names, w: Receiver, k: Key)
    ensures Local(names, w, k).terminal == (RecordKey(names, k) in w.terminals)
  {
    hide Pick, UiTransferId, RecordKey;
  }

  lemma BeforeFields(names: Names, w: Receiver, o: Outcome, k: Key)
    ensures var s, s1 := Local(names, w, k), Before(names, w, o, k);
            s1.transfer == s.transfer && s1.accepting == s.accepting
  {
    hide Pick, UiTransferId, RecordKey;
  }

  /** The loss of the record itself. */
  lemma DropKeepsBut(decode: T.Decoder, s: T.State, lost: bool)
    requires SoundBut(s, lost) && s.terminal
    ensures SoundBut(s.(terminal := false), true)
  {
    hide SoundBut;
    StepKeepsBut(decode, s, T.DropTerminal, lost);
  }

  lemma {:induction false} RunStaysSound(decode: T.Decoder, names: Names, session: nat, states: seq<Receiver>,
                                         callbacks: seq<Callback>, k: Key, n: nat)
    requires Run(decode, session, states, callbacks) && AllKnown(names, callbacks) && n <= |callbacks|
    requires NeverReopened(decode, names, states, callbacks, k) && k.session == session
    ensures SoundBut(Local(names, states[n], k), LostBefore(decode, names, states, callbacks, k, n))
    ensures Consistent(names, states[n]) && states[n].session == session
  {
    hide Local, Consistent, LocalSteps, Ready, Handle, KnownCallback, Remembered, SoundBut, LostAt, Expires,
         OpensTransfer;
    if n == 0 {
      InitialLocal(names, session, k);
      assert SoundBut(T.INITIAL, false) by { InitiallySound(); InitiallyUnlost(); }
    } else {
      var m := n - 1;
      RunStaysSound(decode, names, session, states, callbacks, k, m);
      StepProjects(decode, names, states[m], callbacks[m], states[n], k);
      StepStaysSound(decode, names, states[m], callbacks[m], states[n], k,
                     LostBefore(decode, names, states, callbacks, k, m));
      LostInLast(decode, names, states, callbacks, k, m);
    }
  }

  lemma InitiallyUnlost()
    requires Sound(T.INITIAL)
    ensures SoundBut(T.INITIAL, false)
  {
  }

  lemma LostInLast(decode: T.Decoder, names: Names, states: seq<Receiver>, callbacks: seq<Callback>, k: Key, m: nat)
    requires AllReady(states, callbacks) && m < |callbacks|
    ensures LostBefore(decode, names, states, callbacks, k, m + 1)
       <==> LostBefore(decode, names, states, callbacks, k, m)
            || LostAt(decode, names, states[m], callbacks[m], states[m + 1], k)
  {
    hide LostAt, Ready;
    if LostBefore(decode, names, states, callbacks, k, m) {
      var i :| 0 <= i < m && LostAt(decode, names, states[i], callbacks[i], states[i + 1], k);
      assert 0 <= i < m + 1;
    }
  }

  /**
   A lost record does no harm by itself: in every interleaving in which no packet opens the transfer once its record has
   expired or been evicted, its signals are lawful.
   */
  lemma SignalsAreLawfulUnlessReopened(decode: T.Decoder, names: Names, session: nat, states: seq<Receiver>,
                                       callbacks: seq<Callback>, k: Key)
    requires Run(decode, session, states, callbacks) && AllKnown(names, callbacks) && k.session == session
    requires NeverReopened(decode, names, states, callbacks, k)
    ensures Lawful(SignalsOf(states[|callbacks|], k))
  {
    hide Local, Ready, Handle, NeverReopened, Lawful, Consistent, Sound, LostBefore, LocalRun;
    var n := |callbacks|;
    RunStaysSound(decode, names, session, states, callbacks, k, n);
    var s := Local(names, states[n], k);
    SoundLog(if LostBefore(decode, names, states, callbacks, k, n) then s.(terminal := true) else s);
    assert s.log == SignalsOf(states[n], k) by { LogIsLocal(names, states[n], k); }
  }

  lemma LogIsLocal(names: Names, w: Receiver, k: Key)
    ensures Local(names, w, k).log == SignalsOf(w, k)
  {
    hide Pick, UiTransferId, RecordKey;
  }

  /** A start that opens a transfer of a receiver that has none. */
  lemma StartOpens(decode: T.Decoder, w: Receiver, sender: ParticipantKey, revision: nat, p: T.Packet, now: int)
    requires T.WellFormed(p) && !p.isChunk && w.accepting && w.transfers == map[] && w.toQt == []
    requires var id := CompletionId(sender, revision, p.wireId); id in w.terminals ==> w.terminals[id].expiresAt <= now
    ensures var k := KeyFor(w, sender, revision, p.wireId);
            Step(decode, w, PacketIn(sender, revision, p, now, {sender}, true),
                 w.(transfers := map[k := T.NewTransfer(p, sender, now)],
                    terminals := w.terminals - {CompletionId(sender, revision, p.wireId)},
                    toQt := [Post(k, sender, T.Start)]))
  {
    hide CompletionId, T.WellFormed;
    var k, t := KeyFor(w, sender, revision, p.wireId), T.NewTransfer(p, sender, now);
    assert [T.Start][1..] == [];
    assert Posts(k, sender, [T.Start]) == [Post(k, sender, T.Start)];
    assert w.transfers[k := t] == map[k := t];
  }

  lemma OneRemembered(record: Terminal)
    ensures Remembered(map[], [record], map[RecordId(record) := record])
  {
    hide RecordId;
    var ts: Terminals, records := map[], [record];
    assert records[..|records| - 1] == [];
    assert |ts[RecordId(record) := record]| == 1;
    assert Remembered(ts, records[..|records| - 1], ts);
    assert Evicted(ts[RecordId(record) := record], map[RecordId(record) := record]);
  }

  /** The one transfer fails; its record is the one record. */
  lemma OneFails(decode: T.Decoder, w: Receiver, k: Key, now: int)
    requires TransfersOk(w) && w.transfers.Keys == {k} && w.terminals == map[] && w.toQt == []
    ensures var record := RecordOf(k, w.transfers[k].owner, now);
            Step(decode, w, FailIn(k, now),
                 w.(transfers := map[], terminals := map[RecordId(record) := record],
                    toQt := [Post(k, w.transfers[k].owner, T.Fail)]))
  {
    hide CompletionId, T.TransferOk;
    var record := RecordOf(k, w.transfers[k].owner, now);
    assert w.transfers - {k} == map[];
    OneRemembered(record);
  }

  /** A start, its failure, and the same start again when the record has expired. */
  function StartTwice(k: Key, sender: ParticipantKey, p: T.Packet, start: int, failed: int,
                      view: QtView): seq<Callback> {
    [PacketIn(sender, k.revision, p, start, {sender}, true), QtPostIn(view, []), FailIn(k, failed),
     QtPostIn(view, [UiTransferId(k)]),
     PacketIn(sender, k.revision, p, failed + CACHE_LIFETIME, {sender}, true), QtPostIn(view, [])]
  }

  /**
   Reopened it breaks the law: ten minutes after a transfer has failed, the start that opened it opens it again, and
   Started follows Failed.
   */
  lemma ExpiredRecordRestarts(decode: T.Decoder, session: nat, sender: ParticipantKey, revision: nat, p: T.Packet,
                              start: int, failed: int, view: QtView) returns (states: seq<Receiver>)
    requires T.WellFormed(p) && !p.isChunk && Current(view, sender)
    ensures var k := Key(session, sender.generation, sender.incarnation, revision, p.wireId);
            && Run(decode, session, states, StartTwice(k, sender, p, start, failed, view))
            && SignalsOf(states[6], k) == [T.Started, T.Failed, T.Started] && !Lawful(SignalsOf(states[6], k))
  {
    hide CompletionId, T.WellFormed, UiTransferId, Pick, Step, T.NewTransfer, RecordOf, Lawful;
    var k := Key(session, sender.generation, sender.incarnation, revision, p.wireId);
    var c, w0 := StartTwice(k, sender, p, start, failed, view), Initial(session);
    RecordFields(k, sender, failed);
    NewTransferOk(p, sender, start);
    var w1, w2 := OpenedAndReported(decode, w0, view, sender, revision, p, start);
    var w3, w4 := FailedAndReported(decode, w2, view, k, failed);
    var w5, w6 := OpenedAndReported(decode, w4, view, sender, revision, p, failed + CACHE_LIFETIME);
    states := [w0, w1, w2, w3, w4, w5, w6];
    assert Step(decode, w0, c[0], w1) && Step(decode, w1, c[1], w2) && Step(decode, w2, c[2], w3);
    assert Step(decode, w3, c[3], w4) && Step(decode, w4, c[4], w5) && Step(decode, w5, c[5], w6);
    StepsAreReady(decode, states, c);
    var ui := UiTransferId(k);
    assert w6.log == [Report(ui, T.Started), Report(ui, T.Failed), Report(ui, T.Started)];
    ThreeReports(k, T.Started, T.Failed, T.Started);
    StartedTwice();
  }

  lemma StartedTwice()
    ensures !Lawful([T.Started, T.Failed, T.Started])
  {
    assert [T.Started, T.Failed, T.Started][2] == T.Started;
  }

  /** A start comes and is reported, to a receiver at rest that has no transfer. */
  lemma OpenedAndReported(decode: T.Decoder, w: Receiver, view: QtView, sender: ParticipantKey, revision: nat,
                          p: T.Packet, now: int) returns (mid: Receiver, w': Receiver)
    requires T.WellFormed(p) && !p.isChunk && w.accepting && w.transfers == map[] && w.toQt == [] && w.ledger == map[]
    requires Current(view, sender)
    requires var id := CompletionId(sender, revision, p.wireId); id in w.terminals ==> w.terminals[id].expiresAt <= now
    ensures Step(decode, w, PacketIn(sender, revision, p, now, {sender}, true), mid)
    ensures Step(decode, mid, QtPostIn(view, []), w')
    ensures var k := KeyFor(w, sender, revision, p.wireId);
            w' == w.(transfers := map[k := T.NewTransfer(p, sender, now)],
                     terminals := w.terminals - {CompletionId(sender, revision, p.wireId)},
                     ledger := map[UiTransferId(k) := Entry(k, false)],
                     log := w.log + [Report(UiTransferId(k), T.Started)])
    ensures TransfersOk(w')
  {
    hide CompletionId, T.WellFormed, UiTransferId, Step, T.NewTransfer;
    var k := KeyFor(w, sender, revision, p.wireId);
    NewTransferOk(p, sender, now);
    mid := w.(transfers := map[k := T.NewTransfer(p, sender, now)],
              terminals := w.terminals - {CompletionId(sender, revision, p.wireId)},
              toQt := [Post(k, sender, T.Start)]);
    StartOpens(decode, w, sender, revision, p, now);
    w' := mid.(toQt := [], ledger := map[UiTransferId(k) := Entry(k, false)],
               log := w.log + [Report(UiTransferId(k), T.Started)]);
    StartReported(decode, mid, view, k, sender);
  }

  /** The only transfer fails, and that is reported. */
  lemma FailedAndReported(decode: T.Decoder, w: Receiver, view: QtView, k: Key, now: int)
    returns (mid: Receiver, w': Receiver)
    requires TransfersOk(w) && w.transfers.Keys == {k} && w.terminals == map[] && w.toQt == []
    requires w.ledger == map[UiTransferId(k) := Entry(k, false)] && view.session
    ensures Step(decode, w, FailIn(k, now), mid) && Step(decode, mid, QtPostIn(view, [UiTransferId(k)]), w')
    ensures var record := RecordOf(k, w.transfers[k].owner, now);
            w' == w.(transfers := map[], terminals := map[RecordId(record) := record], ledger := map[],
                     log := w.log + [Report(UiTransferId(k), T.Failed)])
  {
    hide CompletionId, UiTransferId, Step, RecordOf, T.TransferOk;
    var sender := w.transfers[k].owner;
    var record := RecordOf(k, sender, now);
    mid := w.(transfers := map[], terminals := map[RecordId(record) := record], toQt := [Post(k, sender, T.Fail)]);
    OneFails(decode, w, k, now);
    w' := mid.(toQt := [], ledger := map[], log := w.log + [Report(UiTransferId(k), T.Failed)]);
    FailReported(decode, mid, view, k, sender);
  }

  lemma RecordFields(k: Key, sender: ParticipantKey, now: int)
    ensures var record := RecordOf(k, sender, now);
            RecordId(record) == CompletionId(sender, k.revision, k.wireId) && record.expiresAt == now + CACHE_LIFETIME
  {
  }

  lemma StepsAreReady(decode: T.Decoder, states: seq<Receiver>, callbacks: seq<Callback>)
    requires |states| == |callbacks| + 1
    requires forall i :: 0 <= i < |callbacks| ==> Step(decode, states[i], callbacks[i], states[i + 1])
    ensures AllReady(states, callbacks)
  {
    hide Ready, Follows, Handle;
    forall i | 0 <= i < |callbacks| ensures Ready(states[i], callbacks[i]) {
      assert Step(decode, states[i], callbacks[i], states[i + 1]);
    }
  }

  /** The Qt thread reports the start of a transfer, as the first entry of its ledger. */
  lemma StartReported(decode: T.Decoder, w: Receiver, view: QtView, k: Key, sender: ParticipantKey)
    requires TransfersOk(w) && w.ledger == map[] && w.toQt == [Post(k, sender, T.Start)] && Current(view, sender)
    ensures Step(decode, w, QtPostIn(view, []),
                 w.(toQt := [], ledger := map[UiTransferId(k) := Entry(k, false)],
                    log := w.log + [Report(UiTransferId(k), T.Started)]))
  {
    hide UiTransferId, TransfersOk;
    var w' := w.(toQt := [], ledger := map[UiTransferId(k) := Entry(k, false)],
                 log := w.log + [Report(UiTransferId(k), T.Started)]);
    ReportRuns(decode, w, view, [], k, sender, T.Start, w');
  }

  /** And its failure, as the last. */
  lemma FailReported(decode: T.Decoder, w: Receiver, view: QtView, k: Key, sender: ParticipantKey)
    requires TransfersOk(w) && w.ledger == map[UiTransferId(k) := Entry(k, false)]
    requires w.toQt == [Post(k, sender, T.Fail)] && view.session
    ensures Step(decode, w, QtPostIn(view, [UiTransferId(k)]),
                 w.(toQt := [], ledger := map[], log := w.log + [Report(UiTransferId(k), T.Failed)]))
  {
    hide UiTransferId, TransfersOk;
    var w' := w.(toQt := [], ledger := map[], log := w.log + [Report(UiTransferId(k), T.Failed)]);
    assert w.ledger - {UiTransferId(k)} == map[];
    ReportRuns(decode, w, view, [UiTransferId(k)], k, sender, T.Fail, w');
  }

  lemma NewTransferOk(p: T.Packet, owner: ParticipantKey, now: int)
    requires T.WellFormed(p)
    ensures var t := T.NewTransfer(p, owner, now); T.TransferOk(t) && t.owner == owner
  {
  }

  /** The only post to Qt is handled. */
  lemma ReportRuns(decode: T.Decoder, w: Receiver, view: QtView, ids: seq<string>, k: Key, sender: ParticipantKey,
                   m: T.QtMessage, w': Receiver)
    requires TransfersOk(w) && Iterates(ids, w.ledger.Keys) && w.toQt == [Post(k, sender, m)]
    requires w' == OnTransferPost(w.(toQt := []), k, sender, m, view) && w'.terminals == w.terminals
    ensures Step(decode, w, QtPostIn(view, ids), w')
  {
    hide OnTransferPost, Iterates, TransfersOk;
    assert w.toQt[1..] == [];
    assert Handle(decode, w, QtPostIn(view, ids)) == Outcome(w', []);
  }

  lemma ThreeReports(k: Key, a: T.Signal, b: T.Signal, c: T.Signal)
    ensures Pick([Report(UiTransferId(k), a), Report(UiTransferId(k), b), Report(UiTransferId(k), c)], LogPart(k))
         == [a, b, c]
  {
    hide UiTransferId, Pick;
    var ui := UiTransferId(k);
    PickOne(Report(ui, a), LogPart(k));
    PickSnoc([Report(ui, a)], Report(ui, b), LogPart(k));
    assert [Report(ui, a)] + [Report(ui, b)] == [Report(ui, a), Report(ui, b)];
    PickSnoc([Report(ui, a), Report(ui, b)], Report(ui, c), LogPart(k));
    assert [Report(ui, a), Report(ui, b)] + [Report(ui, c)] == [Report(ui, a), Report(ui, b), Report(ui, c)];
  }

  // ----- What is delivered -----

  /** The packets of transfer k all come from one text. */
  ghost predicate HonestFor(decode: T.Decoder, text: string, meta: T.Meta, session: nat, k: Key,
                            callbacks: seq<Callback>) {
    forall i :: 0 <= i < |callbacks| ==> HonestCallback(decode, text, meta, session, k, callbacks[i])
  }

  predicate HonestCallback(decode: T.Decoder, text: string, meta: T.Meta, session: nat, k: Key, c: Callback) {
    c.PacketIn? && k == Key(session, c.sender.generation, c.sender.incarnation, c.revision, c.packet.wireId)
    ==> HonestPacket(decode, text, meta, c.packet)
  }

  lemma HonestLocally(decode: T.Decoder, names: Names, text: string, meta: T.Meta, w: Receiver, c: Callback,
                      w': Receiver, k: Key)
    requires Ready(w, c) && HonestCallback(decode, text, meta, w.session, k, c)
    ensures HonestEvents(decode, text, meta, LocalSteps(decode, names, w, c, w', k))
  {
    hide HonestPacket, Handle, Records, RecordKey, T.WellFormed, Decide, CompletionId, UiTransferId, Rank, T.TransferOk,
         Iterates;
  }

  lemma {:induction false} HonestRun(decode: T.Decoder, names: Names, text: string, meta: T.Meta, session: nat,
                                     states: seq<Receiver>, callbacks: seq<Callback>, k: Key, n: nat)
    requires n <= |callbacks| && AllReady(states, callbacks)
    requires forall i :: 0 <= i < |callbacks| ==> states[i].session == session
    requires HonestFor(decode, text, meta, session, k, callbacks)
    ensures HonestEvents(decode, text, meta, LocalRun(decode, names, states, callbacks, k, n))
  {
    hide Ready, LocalSteps, HonestPacket, HonestCallback;
    if n > 0 {
      HonestRun(decode, names, text, meta, session, states, callbacks, k, n - 1);
      HonestLocally(decode, names, text, meta, states[n - 1], callbacks[n - 1], states[n], k);
    }
  }

  /** Whatever else the receiver handles meanwhile, a transfer delivers the text its packets were cut from. */
  lemma EveryDeliveryIsTrue(decode: T.Decoder, names: Names, text: string, meta: T.Meta, session: nat,
                            states: seq<Receiver>, callbacks: seq<Callback>, k: Key)
    requires Run(decode, session, states, callbacks) && AllKnown(names, callbacks) && k.session == session
    requires HonestFor(decode, text, meta, session, k, callbacks)
    ensures var signals := SignalsOf(states[|callbacks|], k);
            forall i :: 0 <= i < |signals| && signals[i].Completed? ==> signals[i].data == decode(text)
  {
    hide Runs, After, LocalRun, Ready, Handle, Remembered, HonestCallback, KnownCallback, Consistent;
    var n := |callbacks|;
    forall i | 0 <= i < n ensures states[i].session == session {
      RunProjects(decode, names, session, states, callbacks, k, i);
    }
    RunProjects(decode, names, session, states, callbacks, k, n);
    HonestRun(decode, names, text, meta, session, states, callbacks, k, n);
    DeliversTheText(decode, text, meta, LocalRun(decode, names, states, callbacks, k, n));
  }

  // ----- The pace of recovery -----

  /** The callback is an ordinary pass of the recovery, not one after a reconnection. */
  predicate OrdinaryPass(c: Callback) {
    c.RecoverIn? && !c.force
  }

  /** The transfer is asked for in this pass. */
  predicate Asked(w: Receiver, c: Callback, k: Key)
    requires TransfersOk(w)
  {
    OrdinaryPass(c) && w.accepting && k in w.transfers && Decide(w.transfers[k], false, c.now, c.roster).Ask?
  }

  /** Only a pass of the recovery moves the time of a transfer's last request, and only to its own time. */
  lemma LastRequestKept(decode: T.Decoder, w: Receiver, c: Callback, k: Key)
    requires Ready(w, c) && k in w.transfers && k in Handle(decode, w, c).state.transfers
    ensures var before, after := w.transfers[k].lastRecovery, Handle(decode, w, c).state.transfers[k].lastRecovery;
            if c.RecoverIn? then after == before || after == c.now else after == before
  {
    hide Asks, Wanted, Iterates, T.TransferOk, T.WellFormed, T.Absorb, CompletionId, UiTransferId, RecordsOf,
         FailingOf, Posts, RecordOf, HasEntry, Belongs, Current, Decide, T.Without;
    if c.PacketIn? && T.WellFormed(c.packet) && w.transfers[k].meta == c.packet.meta {
      AbsorbKeepsTime(decode, w.transfers[k], c.packet, c.now);
    }
  }

  lemma AbsorbKeepsTime(decode: T.Decoder, t: T.Transfer, p: T.Packet, now: int)
    requires T.TransferOk(t) && p.meta == t.meta && T.WellFormed(p)
    ensures var t' := T.Absorb(decode, t, p, now).0; t'.Some? ==> t'.value.lastRecovery == t.lastRecovery
  {
    hide T.WellFormed, T.Joined, T.Percent;
  }

  lemma AskedMarks(decode: T.Decoder, w: Receiver, c: Callback, k: Key)
    requires Ready(w, c) && Asked(w, c, k)
    ensures var after := Handle(decode, w, c).state.transfers; k in after && after[k].lastRecovery == c.now
  {
    hide Asks, Wanted, Iterates, T.TransferOk;
  }

  /** The transfer is there all the time from the i-th state to the j-th, and passes come in order of time. */
  ghost predicate Throughout(states: seq<Receiver>, callbacks: seq<Callback>, k: Key, i: nat, j: nat)
    requires i <= j <= |callbacks| < |states|
  {
    && (forall m :: i <= m <= j ==> k in states[m].transfers)
    && (forall m, n :: i <= m <= n < |callbacks| && callbacks[m].RecoverIn? && callbacks[n].RecoverIn? ==>
          callbacks[m].now <= callbacks[n].now)
  }

  lemma {:induction false} LastRequestSince(decode: T.Decoder, session: nat, states: seq<Receiver>,
                                            callbacks: seq<Callback>, k: Key, i: nat, j: nat)
    requires Run(decode, session, states, callbacks) && i < j <= |callbacks|
    requires Throughout(states, callbacks, k, i, j) && Asked(states[i], callbacks[i], k)
    ensures states[j].transfers[k].lastRecovery >= callbacks[i].now
    decreases j
  {
    hide Iterates, Handle, Decide, Remembered, TransfersOk;
    var w, c := states[j - 1], callbacks[j - 1];
    assert Step(decode, w, c, states[j]);
    assert c.RecoverIn? ==> callbacks[i].now <= c.now;
    if i == j - 1 {
      AskedMarks(decode, w, c, k);
    } else {
      LastRequestSince(decode, session, states, callbacks, k, i, j - 1);
      LastRequestKept(decode, w, c, k);
    }
  }

  /** Ordinary passes never ask for the same transfer twice within five seconds, nor for one idle for a minute. */
  lemma RequestsArePaced(decode: T.Decoder, session: nat, states: seq<Receiver>, callbacks: seq<Callback>, k: Key,
                         i: nat, j: nat)
    requires Run(decode, session, states, callbacks) && i < j < |callbacks|
    requires Throughout(states, callbacks, k, i, j)
    requires Asked(states[i], callbacks[i], k) && Asked(states[j], callbacks[j], k)
    ensures callbacks[j].now - callbacks[i].now >= RECOVERY_INTERVAL
    ensures callbacks[j].now - states[j].transfers[k].lastActive < RECOVERY_TIMEOUT
  {
    hide Iterates, Handle, Remembered, Wanted, T.TransferOk;
    LastRequestSince(decode, session, states, callbacks, k, i, j);
  }

  // ----- Bounds -----

  predicate Bounded(w: Receiver) {
    |w.transfers| <= MAXIMUM_TRANSFERS && |w.terminals| <= MAXIMUM_TERMINALS
  }

  lemma SubmapSize<K, V>(small: map<K, V>, big: map<K, V>)
    requires small.Keys <= big.Keys
    ensures |small| <= |big|
  {
    NoLarger(small.Keys, big.Keys);
  }

  lemma NoLarger<K>(small: set<K>, big: set<K>)
    requires small <= big
    ensures |small| <= |big|
  {
    assert big == small + (big - small);
  }

  lemma RememberedBounded(ts: Terminals, records: seq<Terminal>, ts': Terminals)
    requires Remembered(ts, records, ts') && |ts| <= MAXIMUM_TERMINALS
    ensures |ts'| <= MAXIMUM_TERMINALS
  {
    hide Evicted;
    if records != [] {
      var earlier, last := records[..|records| - 1], records[|records| - 1];
      var mid: Terminals :| Remembered(ts, earlier, mid) && Evicted(mid[RecordId(last) := last], ts');
      EvictedShrinks(mid[RecordId(last) := last], ts');
    }
  }

  lemma TransfersBounded(decode: T.Decoder, w: Receiver, c: Callback)
    requires Ready(w, c) && |w.transfers| <= MAXIMUM_TRANSFERS
    ensures |Handle(decode, w, c).state.transfers| <= MAXIMUM_TRANSFERS
  {
    hide T.Absorb, T.WellFormed, T.NewTransfer, T.TransferOk, CompletionId, UiTransferId, Decide, Decided, Asks,
         RecordsOf, FailingOf, Posts, RecordOf, Iterates, HasEntry, Belongs, Current;
    var t := Handle(decode, w, c).state.transfers;
    if t.Keys <= w.transfers.Keys {
      SubmapSize(t, w.transfers);
    }
  }

  /** At most 64 assemblies and 1024 terminal records are kept. */
  lemma {:induction false} TablesBounded(decode: T.Decoder, session: nat, states: seq<Receiver>,
                                         callbacks: seq<Callback>, n: nat)
    requires Run(decode, session, states, callbacks) && n <= |callbacks|
    ensures Bounded(states[n])
  {
    hide Iterates, TransfersOk, Handle, Remembered;
    if n > 0 {
      TablesBounded(decode, session, states, callbacks, n - 1);
      var w, c := states[n - 1], callbacks[n - 1];
      assert Ready(w, c);
      var o := Handle(decode, w, c);
      TransfersBounded(decode, w, c);
      HandleKeeps(decode, w, c);
      SubmapSize(o.state.terminals, w.terminals);
      RememberedBounded(o.state.terminals, o.records, states[n].terminals);
    }
  }
}
