/**
 The signals of one transfer id: Started, Progress*, then at most one of Completed and Failed, and
 nothing after it, in every interleaving of the two threads, while its terminal record is kept.
 */
module MediaSignals {
  import opened Options
  import opened MediaKeys
  import opened MediaTransfer

  predicate IsTerminal(x: Signal) {
    x.Completed? || x.Failed?
  }

  predicate Ended(log: seq<Signal>) {
    log != [] && IsTerminal(log[|log| - 1])
  }

  /** Started, Progress*, then at most one of Completed and Failed, and nothing after it. */
  predicate Lawful(log: seq<Signal>) {
    && (log != [] ==> log[0] == Started)
    && forall i :: 1 <= i < |log| ==> log[i] != Started && (IsTerminal(log[i]) ==> i == |log| - 1)
  }

  lemma LawfulSnoc(log: seq<Signal>, x: Signal)
    requires Lawful(log) && !Ended(log) && (log == [] <==> x == Started)
    ensures Lawful(log + [x]) && (Ended(log + [x]) <==> IsTerminal(x))
  {
  }

  // ----- The shape of the queue to the Qt thread -----

  /** Messages that belong to the assembly; a burial ends them. */
  predicate FromAssembly(m: QtMessage) {
    m.Start? || m.Progress? || m.Complete? || m.Request?
  }

  /** Cancels from before the transfer existed, then what its assembly posted, then what was posted after its end. */
  predicate Shaped(q: seq<QtMessage>, a: nat, b: nat) {
    && a <= b <= |q|
    && (forall i :: 0 <= i < a ==> q[i].Cancel?)
    && (forall i :: a <= i < b ==> FromAssembly(q[i]))
    && (forall i :: b <= i < |q| ==> !FromAssembly(q[i]))
  }

  predicate Untouched(s: State) {
    s.ledger.None? && s.log == [] && s.frames == []
  }

  predicate TransferSound(s: State) {
    s.transfer.Some? ==> !s.terminal && TransferOk(s.transfer.value)
  }

  /** Where the parts of the queue end, and what that says of the rest of the state. */
  predicate QueueSound(s: State, a: nat, b: nat) {
    && Shaped(s.toQt, a, b)
    && (a > 0 ==> Untouched(s))
    && (!s.terminal ==> b == |s.toQt|)
    && (!s.terminal && s.transfer.None? ==> a == b && Untouched(s) && s.toStrand == [])
    && (s.ledger.None? && s.log != [] ==> s.terminal && a == b)
  }

  predicate LogSound(s: State) {
    && Lawful(s.log)
    && (s.ledger == Some(false) ==> s.log != [] && !Ended(s.log))
    && (s.ledger == Some(true) ==> Ended(s.log))
  }

  /** At most one frame is about to report a failure, and then the transfer has started and not ended. */
  predicate FailingSound(s: State) {
    && (forall i :: 0 <= i < |s.frames| && s.frames[i].Failing? ==> s.ledger.None? && s.log != [] && !Ended(s.log))
    && (forall i, j :: 0 <= i < j < |s.frames| ==> !(s.frames[i].Failing? && s.frames[j].Failing?))
  }

  predicate SoundAt(s: State, a: nat, b: nat) {
    TransferSound(s) && QueueSound(s, a, b) && LogSound(s) && FailingSound(s)
  }

  ghost predicate Sound(s: State) {
    exists a: nat, b: nat :: SoundAt(s, a, b)
  }

  // ----- Every step keeps it -----

  lemma AbsorbShape(decode: Decoder, t: Transfer, p: Packet, now: int)
    requires TransferOk(t) && p.meta == t.meta && WellFormed(p)
    ensures var (t', messages) := Absorb(decode, t, p, now);
            && (t'.Some? ==> TransferOk(t'.value) && forall i :: 0 <= i < |messages| ==> FromAssembly(messages[i]))
            && (t'.None? ==> messages != [] && messages[|messages| - 1] == Fail
                             && forall i :: 0 <= i < |messages| - 1 ==> FromAssembly(messages[i]))
  {
  }

  lemma PushedFromAssembly(q: seq<QtMessage>, a: nat, messages: seq<QtMessage>)
    requires Shaped(q, a, |q|) && forall i :: 0 <= i < |messages| ==> FromAssembly(messages[i])
    ensures Shaped(q + messages, a, |q + messages|)
  {
  }

  lemma PushedLast(q: seq<QtMessage>, a: nat, b: nat, m: QtMessage)
    requires Shaped(q, a, b) && !FromAssembly(m)
    ensures Shaped(q + [m], a, b)
  {
  }

  /** A step that leaves the Qt side alone keeps what is known of it. */
  predicate SameQtSide(s: State, s': State) {
    s'.ledger == s.ledger && s'.log == s.log && s'.frames == s.frames
  }

  lemma SameReports(s: State, s': State)
    requires SameQtSide(s, s') && LogSound(s) && FailingSound(s)
    ensures LogSound(s') && FailingSound(s')
  {
  }

  lemma BuriedKeeps(s: State, m: QtMessage, a: nat, b: nat)
    requires SoundAt(s, a, b) && !FromAssembly(m)
    ensures SoundAt(Bury(s, m), a, b)
  {
    hide Shaped, LogSound, FailingSound;
    PushedLast(s.toQt, a, b, m);
    SameReports(s, Bury(s, m));
  }

  lemma AbsorbedKeeps(s: State, s': State, messages: seq<QtMessage>, a: nat)
    requires SoundAt(s, a, |s.toQt|) && !s.terminal && SameQtSide(s, s') && !s'.terminal
    requires s'.toQt == s.toQt + messages
    requires forall i :: 0 <= i < |messages| ==> FromAssembly(messages[i])
    requires s'.transfer.Some? && TransferOk(s'.transfer.value)
    ensures SoundAt(s', a, |s'.toQt|)
  {
    hide Shaped, LogSound, FailingSound, FromAssembly;
    PushedFromAssembly(s.toQt, a, messages);
    SameReports(s, s');
  }

  lemma AcceptedKeeps(decode: Decoder, s: State, e: Event, a: nat) returns (b': nat)
    requires SoundAt(s, a, |s.toQt|) && Enabled(s, e) && e.Receive?
    requires !s.terminal && s.accepting && (s.transfer.Some? || e.room)
    ensures SoundAt(Apply(decode, s, e), a, b')
  {
    hide SoundAt, Absorb, FromAssembly, WellFormed;
    var t := if s.transfer.Some? then s.transfer.value else NewTransfer(e.packet, e.owner, e.now);
    var s' := Apply(decode, s, e);
    StartsOk(e.packet, e.owner, e.now);
    FailIsBurial();
    if t.owner == e.owner && e.ticket && t.meta == e.packet.meta {
      AbsorbShape(decode, t, e.packet, e.now);
      var (t', messages) := Absorb(decode, t, e.packet, e.now);
      if t'.Some? {
        AbsorbedKeeps(s, s', messages, a);
        b' := |s'.toQt|;
      } else {
        var early := messages[..|messages| - 1];
        var before := s.(transfer := Some(t), toQt := s.toQt + early);
        AbsorbedKeeps(s, before, early, a);
        BuriedKeeps(before, Fail, a, |before.toQt|);
        assert s.toQt + messages == before.toQt + [Fail];
        b' := |before.toQt|;
      }
    } else {
      AbsorbedKeeps(s, s', [], a);
      b' := |s'.toQt|;
    }
  }

  lemma StartsOk(p: Packet, owner: ParticipantKey, now: int)
    requires WellFormed(p)
    ensures TransferOk(NewTransfer(p, owner, now))
  {
  }

  lemma FailIsBurial()
    ensures !FromAssembly(Fail)
  {
  }

  lemma ReceiveKeeps(decode: Decoder, s: State, e: Event)
    requires Sound(s) && Enabled(s, e) && e.Receive?
    ensures Sound(Apply(decode, s, e))
  {
    hide Shaped, LogSound, FailingSound, Absorb, FromAssembly, WellFormed, TransferOk;
    var a: nat, b: nat :| SoundAt(s, a, b);
    if !s.terminal && s.accepting && (s.transfer.Some? || e.room) {
      var b' := AcceptedKeeps(decode, s, e, a);
    }
  }

  /** A cancellation that finds no transfer: either there was none yet, or it has been buried. */
  lemma CancelKeeps(s: State, a: nat, b: nat)
    requires SoundAt(s, a, b) && s.transfer.None?
    ensures Sound(s.(toQt := s.toQt + [Cancel]))
  {
    hide LogSound, FailingSound;
    var s' := s.(toQt := s.toQt + [Cancel]);
    SameReports(s, s');
    if s.terminal {
      PushedLast(s.toQt, a, b, Cancel);
      assert SoundAt(s', a, b);
    } else {
      assert Shaped(s'.toQt, a + 1, b + 1);
      assert SoundAt(s', a + 1, b + 1);
    }
  }

  /** A step that changes neither queue to Qt, nor burial, nor what Qt has reported. */
  lemma QuietKeeps(s: State, s': State, a: nat, b: nat)
    requires SoundAt(s, a, b) && SameQtSide(s, s') && s'.toQt == s.toQt && s'.terminal == s.terminal
    requires s'.transfer.Some? == s.transfer.Some? && (s'.transfer.Some? ==> TransferOk(s'.transfer.value))
    requires s.toStrand == [] ==> s'.toStrand == []
    ensures SoundAt(s', a, b)
  {
    hide Shaped, LogSound, FailingSound;
    SameReports(s, s');
  }

  lemma HandledKeeps(s: State, m: StrandMessage, a: nat, b: nat)
    requires SoundAt(s, a, b)
    ensures SoundAt(HandleOnStrand(s, m), a, b)
  {
    hide SoundAt;
    if m == Commit && s.accepting {
      BuriedKeeps(s, Acknowledge, a, b);
    } else {
      assert s.transfer.Some? ==> TransferOk(s.transfer.value) by { SoundTransfer(s, a, b); }
      QuietKeeps(s, HandleOnStrand(s, m), a, b);
    }
  }

  lemma SoundTransfer(s: State, a: nat, b: nat)
    requires SoundAt(s, a, b)
    ensures TransferSound(s) && (!s.terminal ==> b == |s.toQt|)
  {
  }

  lemma StrandKeeps(decode: Decoder, s: State, e: Event)
    requires Sound(s) && Enabled(s, e)
    requires !e.Receive? && !e.RunOnQt? && !e.ResumeFrame? && !e.DropTerminal?
    ensures Sound(Apply(decode, s, e))
  {
    hide SoundAt, Bury, HandleOnStrand;
    var a: nat, b: nat :| SoundAt(s, a, b);
    SoundTransfer(s, a, b);
    var s' := Apply(decode, s, e);
    match e
    case FailOnStrand => BuriedKeeps(s, Fail, a, b);
    case CancelOnStrand => BuriedKeeps(s, Cancel, a, b);
      if s.transfer.None? { CancelKeeps(s, a, b); }
    case AskForMissing(_, _, missing) =>
      if s.transfer.Some? { AbsorbedKeeps(s, s', [Request(missing)], a); }
    case RunOnStrand =>
      QuietKeeps(s, s.(toStrand := s.toStrand[1..]), a, b);
      HandledKeeps(s.(toStrand := s.toStrand[1..]), s.toStrand[0], a, b);
    case _ => QuietKeeps(s, s', a, b);
  }

  // ----- The Qt thread's steps -----

  /** The parts of the queue once its head is gone. */
  function Less(n: nat): nat {
    if n > 0 then n - 1 else 0
  }

  lemma Popped(s: State, a: nat, b: nat)
    requires SoundAt(s, a, b) && s.toQt != []
    ensures SoundAt(s.(toQt := s.toQt[1..]), Less(a), Less(b))
    ensures a > 0 ==> s.toQt[0].Cancel?
    ensures a <= b && (b == 0 ==> s.terminal)
    ensures FromAssembly(s.toQt[0]) <==> a == 0 && b > 0
  {
    hide LogSound, FailingSound;
    SameReports(s, s.(toQt := s.toQt[1..]));
  }

  /** A step of the Qt thread that reports soundly, once the transfer has existed. */
  lemma QtSideKeeps(s: State, s': State, b: nat)
    requires SoundAt(s, 0, b) && (s.transfer.Some? || s.terminal)
    requires s'.transfer == s.transfer && s'.terminal == s.terminal && s'.toQt == s.toQt
    requires LogSound(s') && FailingSound(s')
    requires s'.ledger.None? && s'.log != [] ==> s'.terminal && b == 0
    ensures SoundAt(s', 0, b)
  {
    hide Shaped, LogSound, FailingSound;
  }

  predicate ReportSound(s: State) {
    LogSound(s) && FailingSound(s)
  }

  lemma StartReport(s: State)
    requires ReportSound(s) && s.ledger.None? && s.log == []
    ensures ReportSound(s.(ledger := Some(false), log := s.log + [Started]))
  {
  }

  lemma ProgressReport(s: State, percent: int, more: seq<Frame>)
    requires ReportSound(s) && s.ledger == Some(false)
    requires forall i :: 0 <= i < |more| ==> more[i].Delivering?
    ensures ReportSound(s.(log := s.log + [Progressed(percent)], frames := s.frames + more))
  {
    hide Lawful, IsTerminal;
    LawfulSnoc(s.log, Progressed(percent));
    NotTerminal(percent);
  }

  lemma NotTerminal(percent: int)
    ensures !IsTerminal(Progressed(percent))
  {
  }

  lemma CompleteReport(s: State, data: seq<int>)
    requires ReportSound(s) && s.ledger == Some(false)
    ensures ReportSound(s.(ledger := Some(true), log := s.log + [Completed(data)]))
  {
    hide Lawful;
    LawfulSnoc(s.log, Completed(data));
  }

  lemma FailReport(s: State)
    requires ReportSound(s) && s.ledger == Some(false)
    ensures ReportSound(s.(ledger := None, log := s.log + [Failed]))
    ensures ReportSound(s.(ledger := None, frames := s.frames + [Failing]))
  {
    hide Lawful;
    LawfulSnoc(s.log, Failed);
  }

  lemma FramesReport(s: State, i: nat)
    requires ReportSound(s) && i < |s.frames|
    ensures var s' := s.(frames := Without(s.frames, i));
            && ReportSound(s')
            && (s.frames[i].Failing? ==> s.ledger.None? && s.log != [] && ReportSound(s'.(log := s.log + [Failed])))
  {
    hide Lawful;
    if s.frames[i].Failing? { LawfulSnoc(s.log, Failed); }
    var rest := Without(s.frames, i);
    assert forall j :: 0 <= j < |rest| ==> rest[j] == s.frames[if j < i then j else j + 1];
  }

  lemma AssemblyMessageKeeps(s: State, m: QtMessage, current: Currency, b: nat)
    requires SoundAt(s, 0, b) && (s.transfer.Some? || s.terminal) && FromAssembly(m)
    requires m.Start? && s.ledger.None? ==> s.log == []
    ensures SoundAt(HandleOnQt(s, m, current), 0, b)
  {
    hide Shaped, LogSound, FailingSound, TransferSound;
    var s' := HandleOnQt(s, m, current);
    if m.Start? && s.ledger.None? { StartReport(s); }
    if s.ledger == Some(false) {
      if m.Progress? { ProgressReport(s, m.percent, []); assert s.frames + [] == s.frames; }
      if m.Complete? { ProgressReport(s, 100, [Delivering(m.data)]); }
    }
    SameReports(s, s.(toStrand := s.toStrand + [Retry]));
    QtSideKeeps(s, s', b);
  }

  lemma BurialMessageKeeps(s: State, m: QtMessage, current: Currency)
    requires SoundAt(s, 0, 0) && s.terminal && !FromAssembly(m)
    ensures SoundAt(HandleOnQt(s, m, current), 0, 0)
  {
    hide Shaped, Lawful, Ended, TransferSound;
    var s' := HandleOnQt(s, m, current);
    if s.ledger == Some(false) { FailReport(s); }
    QtSideKeeps(s, s', 0);
  }

  lemma QtKeeps(decode: Decoder, s: State, e: Event)
    requires Sound(s) && Enabled(s, e) && e.RunOnQt?
    ensures Sound(Apply(decode, s, e))
  {
    hide Shaped, LogSound, FailingSound, HandleOnQt, FromAssembly, TransferSound;
    var a: nat, b: nat :| SoundAt(s, a, b);
    var s1, m := s.(toQt := s.toQt[1..]), s.toQt[0];
    Popped(s, a, b);
    if FromAssembly(m) {
      AssemblyMessageKeeps(s1, m, e.current, Less(b));
    } else if b == 0 {
      BurialMessageKeeps(s1, m, e.current);
    } else {
      assert a > 0;
      EarlyCancel(s1, e.current);
    }
  }

  lemma EarlyCancel(s: State, current: Currency)
    requires Untouched(s)
    ensures HandleOnQt(s, Cancel, current) == s
  {
  }

  lemma FrameKeeps(decode: Decoder, s: State, e: Event)
    requires Sound(s) && Enabled(s, e) && e.ResumeFrame?
    ensures Sound(Apply(decode, s, e))
  {
    hide Shaped, LogSound, FailingSound, Without, TransferSound;
    var a: nat, b: nat :| SoundAt(s, a, b);
    var s1, f := s.(frames := Without(s.frames, e.frame)), s.frames[e.frame];
    FramesReport(s, e.frame);
    QtSideKeeps(s, s1, b);
    var s' := HandleFrame(s1, f, e.current);
    if f.Delivering? && s.ledger == Some(false) {
      CompleteReport(s1, f.data);
      SameReports(s1.(ledger := Some(true), log := s.log + [Completed(f.data)]),
                  s1.(ledger := Some(true), log := s.log + [Completed(f.data)], toStrand := s.toStrand + [Commit]));
    }
    SameReports(s1, s1.(toStrand := s1.toStrand + [Retry]));
    QtSideKeeps(s1, s', b);
  }

  // ----- Every run -----

  ghost predicate Runs(decode: Decoder, s: State, events: seq<Event>)
    decreases |events|
  {
    events == [] || (Enabled(s, events[0]) && Runs(decode, Apply(decode, s, events[0]), events[1..]))
  }

  ghost function After(decode: Decoder, s: State, events: seq<Event>): State
    requires Runs(decode, s, events)
    decreases |events|
  {
    if events == [] then s else After(decode, Apply(decode, s, events[0]), events[1..])
  }

  ghost predicate KeepsTerminal(events: seq<Event>) {
    forall i :: 0 <= i < |events| ==> !events[i].DropTerminal?
  }

  lemma StepKeeps(decode: Decoder, s: State, e: Event)
    requires Sound(s) && Enabled(s, e) && !e.DropTerminal?
    ensures Sound(Apply(decode, s, e))
  {
    hide Sound, Apply;
    match e
    case Receive(_, _, _, _, _) => ReceiveKeeps(decode, s, e);
    case RunOnQt(_) => QtKeeps(decode, s, e);
    case ResumeFrame(_, _) => FrameKeeps(decode, s, e);
    case _ => StrandKeeps(decode, s, e);
  }

  lemma {:induction false} RunKeeps(decode: Decoder, s: State, events: seq<Event>)
    requires Sound(s) && Runs(decode, s, events) && KeepsTerminal(events)
    ensures Sound(After(decode, s, events))
    decreases |events|
  {
    hide Sound, Apply;
    if events != [] {
      StepKeeps(decode, s, events[0]);
      RunKeeps(decode, Apply(decode, s, events[0]), events[1..]);
    }
  }

  lemma SoundLog(s: State)
    requires Sound(s)
    ensures Lawful(s.log)
  {
  }

  /** In every run that keeps the terminal record the signals are lawful. */
  lemma SignalsAreLawful(decode: Decoder, events: seq<Event>)
    requires Runs(decode, INITIAL, events) && KeepsTerminal(events)
    ensures Lawful(After(decode, INITIAL, events).log)
  {
    hide Sound, Apply, Runs, After;
    assert Sound(INITIAL) by { InitiallySound(); }
    RunKeeps(decode, INITIAL, events);
    SoundLog(After(decode, INITIAL, events));
  }

  lemma InitiallySound()
    ensures Sound(INITIAL)
  {
    assert SoundAt(INITIAL, 0, 0);
  }

  // ----- When a record is lost -----

  /** A packet that opens a transfer. */
  predicate Opens(s: State, e: Event) {
    e.Receive? && !s.terminal && s.accepting && s.transfer.None? && e.room
  }

  /** Sound as it is, or, since its record was lost, as it would be with the record; and then nothing is open. */
  ghost predicate SoundBut(s: State, lost: bool) {
    Sound(if lost then s.(terminal := true) else s) && (lost ==> s.transfer.None?)
  }

  /** The record is lost in this step. */
  predicate Loses(s: State, e: Event) {
    e.DropTerminal? && s.terminal
  }

  /** As long as no packet opens a transfer whose record was lost, every step keeps this. */
  lemma StepKeepsBut(decode: Decoder, s: State, e: Event, lost: bool)
    requires SoundBut(s, lost) && Enabled(s, e) && (lost ==> !Opens(s, e))
    ensures SoundBut(Apply(decode, s, e), lost || Loses(s, e))
  {
    hide Sound, Absorb, WellFormed, HandleOnQt, HandleFrame;
    var shadow := if lost then s.(terminal := true) else s;
    if e.DropTerminal? {
      if s.terminal { BuriedHasNone(shadow); }
      assert s.(terminal := false).(terminal := true) == s.(terminal := true);
      assert s.terminal ==> s.(terminal := true) == s;
      assert !s.terminal ==> s.(terminal := false) == s;
    } else {
      StepKeeps(decode, shadow, e);
      if lost { LostIsShadowed(decode, s, e); }
    }
  }

  lemma BuriedHasNone(s: State)
    requires Sound(s) && s.terminal
    ensures s.transfer.None?
  {
    hide Shaped, LogSound, FailingSound;
  }

  /** Without a transfer, and with none opened, the lost record makes no difference to a step. */
  lemma LostIsShadowed(decode: Decoder, s: State, e: Event)
    requires s.transfer.None? && Enabled(s, e) && !e.DropTerminal? && !Opens(s, e)
    ensures Enabled(s.(terminal := true), e) && Apply(decode, s, e).transfer.None?
    ensures Apply(decode, s.(terminal := true), e) == Apply(decode, s, e).(terminal := true)
  {
    hide Absorb, WellFormed, HandleOnQt, HandleFrame, Without;
    if e.RunOnQt? { QtIgnoresRecord(s.(toQt := s.toQt[1..]), s.toQt[0], e.current); }
    if e.ResumeFrame? {
      FrameIgnoresRecord(s.(frames := Without(s.frames, e.frame)), s.frames[e.frame], e.current);
    }
  }

  lemma QtIgnoresRecord(s: State, m: QtMessage, current: Currency)
    ensures HandleOnQt(s.(terminal := true), m, current) == HandleOnQt(s, m, current).(terminal := true)
    ensures HandleOnQt(s, m, current).transfer == s.transfer
  {
  }

  lemma FrameIgnoresRecord(s: State, f: Frame, current: Currency)
    ensures HandleFrame(s.(terminal := true), f, current) == HandleFrame(s, f, current).(terminal := true)
    ensures HandleFrame(s, f, current).transfer == s.transfer
  {
  }

  // ----- What the terminal record is for -----

  lemma RunCons(decode: Decoder, s: State, e: Event, rest: seq<Event>)
    requires Enabled(s, e) && Runs(decode, Apply(decode, s, e), rest)
    ensures Runs(decode, s, [e] + rest)
    ensures After(decode, s, [e] + rest) == After(decode, Apply(decode, s, e), rest)
  {
    assert ([e] + rest)[1..] == rest;
  }

  /**
   Without the record the law fails: a start that arrives after the record has expired or has been
   evicted opens a transfer that is over a second time.
   */
  lemma LostRecordRestarts(decode: Decoder, p: Packet, owner: ParticipantKey)
    requires WellFormed(p) && !p.isChunk
    ensures var current := Currency(true, true);
            var start := Receive(p, owner, 0, true, true);
            var events := [start, RunOnQt(current), FailOnStrand, RunOnQt(current), DropTerminal, start,
                           RunOnQt(current)];
            Runs(decode, INITIAL, events) && After(decode, INITIAL, events).log == [Started, Failed, Started]
  {
    hide WellFormed;
    var current := Currency(true, true);
    var start := Receive(p, owner, 0, true, true);
    StartsOk(p, owner, 0);
    var t := NewTransfer(p, owner, 0);
    var s1 := Apply(decode, INITIAL, start);
    assert s1 == INITIAL.(transfer := Some(t), toQt := [Start]);
    var s2 := Apply(decode, s1, RunOnQt(current));
    assert s2 == s1.(toQt := [], ledger := Some(false), log := [Started]);
    var s3 := Apply(decode, s2, FailOnStrand);
    assert s3 == s2.(transfer := None, terminal := true, toQt := [Fail]);
    var s4 := Apply(decode, s3, RunOnQt(current));
    assert s4 == s3.(toQt := [], ledger := None, log := [Started, Failed]);
    var s5 := Apply(decode, s4, DropTerminal);
    var s6 := Apply(decode, s5, start);
    assert s6 == s5.(transfer := Some(t), toQt := [Start]);
    var s7 := Apply(decode, s6, RunOnQt(current));
    assert s7.log == [Started, Failed, Started];
    RunCons(decode, s6, RunOnQt(current), []);
    RunCons(decode, s5, start, [RunOnQt(current)]);
    RunCons(decode, s4, DropTerminal, [start, RunOnQt(current)]);
    RunCons(decode, s3, RunOnQt(current), [DropTerminal, start, RunOnQt(current)]);
    RunCons(decode, s2, FailOnStrand, [RunOnQt(current), DropTerminal, start, RunOnQt(current)]);
    RunCons(decode, s1, RunOnQt(current), [FailOnStrand, RunOnQt(current), DropTerminal, start, RunOnQt(current)]);
    RunCons(decode, INITIAL, start,
            [RunOnQt(current), FailOnStrand, RunOnQt(current), DropTerminal, start, RunOnQt(current)]);
  }
}
