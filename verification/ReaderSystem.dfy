/**
 Many readers and many running ReadAll calls over one DataStreamReaderBudget, interleaved in any
 order. One event is one section that holds a reader's lock, or one call on the budget outside it.
 */
module ReaderSystem {
  import opened Bytes
  import opened Options
  import opened StreamReader
  import opened Totals

  // ----- The system -----

  datatype Slot = Slot(reader: Reader, alive: bool)

  /** How far a ReadAll call has come. */
  datatype Phase = Reading | Overflowed | Checking | Releasing(outcome: ReadResult) | Done(outcome: ReadResult)

  /** A ReadAll call: the bytes appended so far, and the bytes it holds reserved in the budget. */
  datatype ReadCall = ReadCall(reader: nat, result: Chunk, held: nat, phase: Phase)

  datatype System = System(budget: Budget, slots: seq<Slot>, calls: seq<ReadCall>)

  const EMPTY := System(Budget(0, 0), [], [])

  datatype Event =
    | OpenReader(text: bool, declared: Option<nat>)
    | Deliver(id: nat, index: nat, content: Chunk)
    | CloseReader(id: nat, reason: string, attributes: map<string, string>)
    | FailReader(id: nat, reason: string)
    | NextChunk(id: nat)
    | DestroyReader(id: nat)
    | StartReadAll(id: nat)
    | TakeChunk(call: nat)
    | MarkOverflow(call: nat)
    | EndOfQueue(call: nat)
    | CheckFailure(call: nat)
    | ReleaseHeld(call: nat)

  predicate Running(c: ReadCall) {
    !c.phase.Done?
  }

  predicate Live(s: System, id: nat) {
    id < |s.slots| && s.slots[id].alive
  }

  function WithReader(s: System, id: nat, r: Reader, b: Budget): System
    requires id < |s.slots|
  {
    s.(budget := b, slots := s.slots[id := s.slots[id].(reader := r)])
  }

  /** When an event can happen: its object exists, and a waiting call has something to wait for no longer. */
  predicate Enabled(s: System, e: Event) {
    match e
    case OpenReader(_, _) => true
    case Deliver(id, _, _) => Live(s, id)
    case CloseReader(id, _, _) => Live(s, id)
    case FailReader(id, _) => Live(s, id)
    case NextChunk(id) => Live(s, id) && (s.slots[id].reader.queue != [] || s.slots[id].reader.closed)
    case DestroyReader(id) => Live(s, id) && forall c :: c in s.calls && c.reader == id ==> !Running(c)
    case StartReadAll(id) => Live(s, id)
    case TakeChunk(k) => At(s, k, Reading) && s.slots[s.calls[k].reader].reader.queue != []
    case MarkOverflow(k) => At(s, k, Overflowed)
    case EndOfQueue(k) =>
      At(s, k, Reading) && s.slots[s.calls[k].reader].reader.queue == [] && s.slots[s.calls[k].reader].reader.closed
    case CheckFailure(k) => At(s, k, Checking)
    case ReleaseHeld(k) => k < |s.calls| && s.calls[k].phase.Releasing?
  }

  predicate At(s: System, k: nat, phase: Phase) {
    k < |s.calls| && s.calls[k].phase == phase && s.calls[k].reader < |s.slots|
  }

  predicate AllValid(s: System) {
    forall i :: 0 <= i < |s.slots| ==> Valid(s.slots[i].reader)
  }

  function Apply(limits: Limits, s: System, e: Event): System
    requires AllValid(s) && Enabled(s, e)
  {
    match e
    case OpenReader(text, declared) =>
      var (r, b) := Open(limits, s.budget, text, declared);
      s.(budget := b, slots := s.slots + [Slot(r, true)])
    case Deliver(id, index, content) =>
      var (r, b, _) := Offer(limits, s.slots[id].reader, s.budget, index, content);
      WithReader(s, id, r, b)
    case CloseReader(id, reason, attributes) =>
      var (r, b) := Close(s.slots[id].reader, s.budget, reason, attributes);
      WithReader(s, id, r, b)
    case FailReader(id, reason) =>
      var (r, b) := Fail(s.slots[id].reader, s.budget, Given(reason));
      WithReader(s, id, r, b)
    case NextChunk(id) =>
      var (r, b, _) := ReadNext(s.slots[id].reader, s.budget);
      WithReader(s, id, r, b)
    case DestroyReader(id) =>
      var (r, b) := Destroy(s.slots[id].reader, s.budget);
      s.(budget := b, slots := s.slots[id := Slot(r, false)])
    case StartReadAll(id) =>
      s.(calls := s.calls + [ReadCall(id, [], 0, Reading)])
    case TakeChunk(k) =>
      var c := s.calls[k];
      var (r, chunk) := Pop(s.slots[c.reader].reader);
      var c' := if OverflowsReadAll(limits, |c.result|, |chunk|)
                then c.(held := c.held + |chunk|, phase := Overflowed)
                else c.(held := c.held + |chunk|, result := c.result + chunk);
      WithReader(s, c.reader, r, s.budget).(calls := s.calls[k := c'])
    case MarkOverflow(k) =>
      var c := s.calls[k];
      var (r, b) := MarkReadAllLimitExceeded(s.slots[c.reader].reader, s.budget);
      WithReader(s, c.reader, r, b).(calls := s.calls[k := c.(phase := Releasing(Throws(ReadAllLimitExceeded)))])
    case EndOfQueue(k) =>
      s.(calls := s.calls[k := s.calls[k].(phase := Checking)])
    case CheckFailure(k) =>
      var c, r := s.calls[k], s.slots[s.calls[k].reader].reader;
      var outcome := if r.failed then Throws(r.reason.value) else ReadResult.Bytes(c.result);
      s.(calls := s.calls[k := c.(phase := Releasing(outcome))])
    case ReleaseHeld(k) =>
      var c := s.calls[k];
      s.(budget := ReleaseBuffered(s.budget, c.held),
         calls := s.calls[k := c.(held := 0, phase := Done(c.phase.outcome))])
  }

  // ----- Conservation -----

  function QueuedBytes(slots: seq<Slot>): seq<nat> {
    seq(|slots|, i requires 0 <= i < |slots| => slots[i].reader.buffered)
  }

  function OpenReaders(slots: seq<Slot>): seq<nat> {
    seq(|slots|, i requires 0 <= i < |slots| => if slots[i].reader.registered then 1 else 0)
  }

  function HeldBytes(calls: seq<ReadCall>): seq<nat> {
    seq(|calls|, i requires 0 <= i < |calls| => calls[i].held)
  }

  predicate SlotOk(limits: Limits, x: Slot) {
    && Valid(x.reader)
    && x.reader.buffered <= limits.maxBytesPerReader
    && x.reader.queuedChunks <= limits.maxQueuedChunks
    && (!x.alive ==> x.reader.buffered == 0 && x.reader.closed)
  }

  predicate CallOk(s: System, c: ReadCall) {
    && (Running(c) ==> Live(s, c.reader))
    && (c.phase.Reading? || c.phase.Checking? ==> c.held == |c.result|)
    && (c.phase.Done? ==> c.held == 0)
  }

  ghost predicate Inv(limits: Limits, s: System) {
    && (forall i :: 0 <= i < |s.slots| ==> SlotOk(limits, s.slots[i]))
    && (forall k :: 0 <= k < |s.calls| ==> CallOk(s, s.calls[k]))
    && s.budget.buffered == Sum(QueuedBytes(s.slots)) + Sum(HeldBytes(s.calls))
    && s.budget.active == Sum(OpenReaders(s.slots))
    && s.budget.buffered <= limits.maxBufferedBytes
    && s.budget.active <= limits.maxActiveReaders
  }

  /** The reservation and registration a reader operation made are those it changed in the budget. */
  ghost predicate Balanced(limits: Limits, r: Reader, b: Budget, r': Reader, b': Budget) {
    && Valid(r')
    && b'.buffered + r.buffered == b.buffered + r'.buffered
    && b'.active + (if r.registered then 1 else 0) == b.active + (if r'.registered then 1 else 0)
    && b'.buffered <= limits.maxBufferedBytes && b'.active <= limits.maxActiveReaders
    && r'.buffered <= limits.maxBytesPerReader && r'.queuedChunks <= limits.maxQueuedChunks
  }

  /** The budget covers a reader: releasing all of it would not meet a clamp. */
  ghost predicate Covers(limits: Limits, r: Reader, b: Budget) {
    && Valid(r)
    && r.buffered <= b.buffered <= limits.maxBufferedBytes
    && (r.registered ==> b.active > 0) && b.active <= limits.maxActiveReaders
    && r.buffered <= limits.maxBytesPerReader && r.queuedChunks <= limits.maxQueuedChunks
  }

  lemma OfferBalances(limits: Limits, r: Reader, b: Budget, index: nat, content: Chunk)
    requires Covers(limits, r, b)
    ensures var (r', b', _) := Offer(limits, r, b, index, content);
            Balanced(limits, r, b, r', b')
  {
    OfferOutcome(limits, r, b, index, content);
    if content != [] && !ExceedsDeclared(r, |content|) {
      PushKeepsValid(r, content);
    }
  }

  lemma CloseBalances(limits: Limits, r: Reader, b: Budget, reason: string, attributes: map<string, string>)
    requires Covers(limits, r, b)
    ensures var (r', b') := Close(r, b, reason, attributes);
            Balanced(limits, r, b, r', b')
  {
  }

  lemma ReadBalances(limits: Limits, r: Reader, b: Budget)
    requires Covers(limits, r, b)
    ensures var (r', b', _) := ReadNext(r, b);
            Balanced(limits, r, b, r', b')
  {
    if r.queue != [] {
      PopKeepsValid(r);
    }
  }

  lemma InvCovers(limits: Limits, s: System, id: nat)
    requires Inv(limits, s) && id < |s.slots|
    ensures Covers(limits, s.slots[id].reader, s.budget)
  {
    SumAtLeast(QueuedBytes(s.slots), id);
    SumAtLeast(OpenReaders(s.slots), id);
  }

  /** Replacing one reader by a balanced successor keeps the invariant. */
  lemma BalancedKeepsInv(limits: Limits, s: System, id: nat, x: Slot, b: Budget)
    requires Inv(limits, s) && id < |s.slots|
    requires Balanced(limits, s.slots[id].reader, s.budget, x.reader, b)
    requires x.alive || (x.reader.buffered == 0 && x.reader.closed
                         && forall c :: c in s.calls && c.reader == id ==> !Running(c))
    requires s.slots[id].alive
    ensures Inv(limits, s.(budget := b, slots := s.slots[id := x]))
  {
    var slots' := s.slots[id := x];
    assert QueuedBytes(slots') == QueuedBytes(s.slots)[id := x.reader.buffered];
    assert OpenReaders(slots') == OpenReaders(s.slots)[id := if x.reader.registered then 1 else 0];
    SumUpdate(QueuedBytes(s.slots), id, x.reader.buffered);
    SumUpdate(OpenReaders(s.slots), id, if x.reader.registered then 1 else 0);
    var s' := s.(budget := b, slots := slots');
    forall k | 0 <= k < |s'.calls| ensures CallOk(s', s'.calls[k]) {
      assert CallOk(s, s.calls[k]) && s.calls[k] in s.calls;
    }
  }

  lemma OpenKeepsInv(limits: Limits, s: System, text: bool, declared: Option<nat>)
    requires Inv(limits, s)
    ensures Inv(limits, Apply(limits, s, OpenReader(text, declared)))
  {
    var (r, b) := Open(limits, s.budget, text, declared);
    var s' := Apply(limits, s, OpenReader(text, declared));
    assert QueuedBytes(s'.slots) == QueuedBytes(s.slots) + [0];
    assert OpenReaders(s'.slots) == OpenReaders(s.slots) + [if r.registered then 1 else 0];
    SumAppend(QueuedBytes(s.slots), 0);
    SumAppend(OpenReaders(s.slots), if r.registered then 1 else 0);
    forall k | 0 <= k < |s'.calls| ensures CallOk(s', s'.calls[k]) {
      assert CallOk(s, s.calls[k]);
    }
  }

  lemma StartKeepsInv(limits: Limits, s: System, id: nat)
    requires Inv(limits, s) && Live(s, id)
    ensures Inv(limits, Apply(limits, s, StartReadAll(id)))
  {
    var s' := Apply(limits, s, StartReadAll(id));
    assert HeldBytes(s'.calls) == HeldBytes(s.calls) + [0];
    SumAppend(HeldBytes(s.calls), 0);
    forall k | 0 <= k < |s'.calls| ensures CallOk(s', s'.calls[k]) {
      assert k < |s.calls| ==> CallOk(s, s.calls[k]);
    }
  }

  /** A ReadAll call that changes phase, with what it holds, and the budget by as much. */
  lemma CallKeepsInv(limits: Limits, s: System, k: nat, c: ReadCall, b: Budget)
    requires Inv(limits, s) && k < |s.calls| && CallOk(s, c)
    requires b.active == s.budget.active && b.buffered + s.calls[k].held == s.budget.buffered + c.held
    requires b.buffered <= limits.maxBufferedBytes
    ensures Inv(limits, s.(budget := b, calls := s.calls[k := c]))
  {
    var s' := s.(budget := b, calls := s.calls[k := c]);
    assert HeldBytes(s'.calls) == HeldBytes(s.calls)[k := c.held];
    SumUpdate(HeldBytes(s.calls), k, c.held);
    forall j | 0 <= j < |s'.calls| ensures CallOk(s', s'.calls[j]) {
      assert j != k ==> CallOk(s, s.calls[j]);
    }
  }

  /** The bytes of a popped chunk pass from the queue to the ReadAll call. */
  lemma TakeKeepsInv(limits: Limits, s: System, k: nat)
    requires Inv(limits, s) && Enabled(s, TakeChunk(k))
    ensures Inv(limits, Apply(limits, s, TakeChunk(k)))
  {
    var c, s' := s.calls[k], Apply(limits, s, TakeChunk(k));
    var id, x, x' := c.reader, s.slots[c.reader], s'.slots[c.reader];
    PopKeepsValid(x.reader);
    assert QueuedBytes(s'.slots) == QueuedBytes(s.slots)[id := x'.reader.buffered];
    assert OpenReaders(s'.slots) == OpenReaders(s.slots);
    assert HeldBytes(s'.calls) == HeldBytes(s.calls)[k := s'.calls[k].held];
    SumUpdate(QueuedBytes(s.slots), id, x'.reader.buffered);
    SumUpdate(HeldBytes(s.calls), k, s'.calls[k].held);
    forall j | 0 <= j < |s'.calls| ensures CallOk(s', s'.calls[j]) {
      assert CallOk(s, s.calls[j]);
    }
  }

  lemma MarkKeepsInv(limits: Limits, s: System, k: nat)
    requires Inv(limits, s) && Enabled(s, MarkOverflow(k))
    ensures Inv(limits, Apply(limits, s, MarkOverflow(k)))
  {
    var c := s.calls[k];
    var (r, b) := MarkReadAllLimitExceeded(s.slots[c.reader].reader, s.budget);
    InvCovers(limits, s, c.reader);
    assert CallOk(s, c);
    BalancedKeepsInv(limits, s, c.reader, s.slots[c.reader].(reader := r), b);
    var mid := WithReader(s, c.reader, r, b);
    var c' := c.(phase := Releasing(Throws(ReadAllLimitExceeded)));
    assert CallOk(mid, c');
    CallKeepsInv(limits, mid, k, c', b);
  }

  lemma ReleaseKeepsInv(limits: Limits, s: System, k: nat)
    requires Inv(limits, s) && Enabled(s, ReleaseHeld(k))
    ensures Inv(limits, Apply(limits, s, ReleaseHeld(k)))
  {
    var c := s.calls[k];
    SumAtLeast(HeldBytes(s.calls), k);
    assert CallOk(s, c);
    CallKeepsInv(limits, s, k, c.(held := 0, phase := Done(c.phase.outcome)), ReleaseBuffered(s.budget, c.held));
  }

  lemma ReaderEventKeepsInv(limits: Limits, s: System, e: Event)
    requires Inv(limits, s) && AllValid(s) && Enabled(s, e)
    requires e.Deliver? || e.CloseReader? || e.FailReader? || e.NextChunk? || e.DestroyReader?
    ensures Inv(limits, Apply(limits, s, e))
  {
    var id := e.id;
    var x, r := s.slots[id], s.slots[id].reader;
    InvCovers(limits, s, id);
    match e
    case Deliver(_, index, content) =>
      OfferBalances(limits, r, s.budget, index, content);
      var (r', b', _) := Offer(limits, r, s.budget, index, content);
      BalancedKeepsInv(limits, s, id, x.(reader := r'), b');
    case CloseReader(_, reason, attributes) =>
      CloseBalances(limits, r, s.budget, reason, attributes);
      var (r', b') := Close(r, s.budget, reason, attributes);
      BalancedKeepsInv(limits, s, id, x.(reader := r'), b');
    case FailReader(_, reason) =>
      var (r', b') := Fail(r, s.budget, Given(reason));
      BalancedKeepsInv(limits, s, id, x.(reader := r'), b');
    case NextChunk(_) =>
      ReadBalances(limits, r, s.budget);
      var (r', b', _) := ReadNext(r, s.budget);
      BalancedKeepsInv(limits, s, id, x.(reader := r'), b');
    case DestroyReader(_) =>
      var (r', b') := Destroy(r, s.budget);
      BalancedKeepsInv(limits, s, id, Slot(r', false), b');
  }

  lemma EventKeepsInv(limits: Limits, s: System, e: Event)
    requires Inv(limits, s) && AllValid(s) && Enabled(s, e)
    ensures Inv(limits, Apply(limits, s, e))
  {
    match e
    case OpenReader(text, declared) => OpenKeepsInv(limits, s, text, declared);
    case StartReadAll(id) => StartKeepsInv(limits, s, id);
    case TakeChunk(k) => TakeKeepsInv(limits, s, k);
    case MarkOverflow(k) => MarkKeepsInv(limits, s, k);
    case ReleaseHeld(k) => ReleaseKeepsInv(limits, s, k);
    case EndOfQueue(k) =>
      assert CallOk(s, s.calls[k]);
      CallKeepsInv(limits, s, k, s.calls[k].(phase := Checking), s.budget);
    case CheckFailure(k) =>
      assert CallOk(s, s.calls[k]);
      CallKeepsInv(limits, s, k, Apply(limits, s, e).calls[k], s.budget);
    case _ => ReaderEventKeepsInv(limits, s, e);
  }

  /** A run: some system, reached from the empty one by enabled events. */
  ghost predicate Reachable(limits: Limits, run: seq<System>, events: seq<Event>) {
    && |run| == |events| + 1 && run[0] == EMPTY
    && forall i :: 0 <= i < |events| ==>
         AllValid(run[i]) && Enabled(run[i], events[i]) && run[i + 1] == Apply(limits, run[i], events[i])
  }

  /**
   In every reachable state of any interleaving, the shared counters are exactly the bytes queued in
   all readers plus those held by running ReadAll calls, and the number of open readers; no limit is
   exceeded, and no release meets a clamp.
   */
  lemma {:induction false} BudgetConservation(limits: Limits, run: seq<System>, events: seq<Event>, i: nat)
    requires Reachable(limits, run, events) && i < |run|
    ensures Inv(limits, run[i])
    ensures forall id :: 0 <= id < |run[i].slots| ==> Covers(limits, run[i].slots[id].reader, run[i].budget)
    ensures forall k :: 0 <= k < |run[i].calls| ==> run[i].calls[k].held <= run[i].budget.buffered
  {
    if i == 0 {
      assert Inv(limits, run[0]);
    } else {
      BudgetConservation(limits, run, events, i - 1);
      EventKeepsInv(limits, run[i - 1], events[i - 1]);
    }
    var s := run[i];
    forall id | 0 <= id < |s.slots| ensures Covers(limits, s.slots[id].reader, s.budget) {
      InvCovers(limits, s, id);
    }
    forall k | 0 <= k < |s.calls| ensures s.calls[k].held <= s.budget.buffered {
      SumAtLeast(HeldBytes(s.calls), k);
    }
  }

  /** Once every reader is destroyed and every ReadAll call has ended, the budget is back to zero. */
  lemma NothingLeaks(limits: Limits, run: seq<System>, events: seq<Event>, i: nat)
    requires Reachable(limits, run, events) && i < |run|
    requires forall id :: 0 <= id < |run[i].slots| ==> !run[i].slots[id].alive
    requires forall k :: 0 <= k < |run[i].calls| ==> !Running(run[i].calls[k])
    ensures run[i].budget == Budget(0, 0)
  {
    BudgetConservation(limits, run, events, i);
    var s := run[i];
    assert forall id :: 0 <= id < |s.slots| ==> SlotOk(limits, s.slots[id]);
    assert forall k :: 0 <= k < |s.calls| ==> CallOk(s, s.calls[k]);
    SumZero(QueuedBytes(s.slots));
    SumZero(OpenReaders(s.slots));
    SumZero(HeldBytes(s.calls));
  }
}
