/**
 How the interleaved sections of many readers make up their operations (src/core/data_stream.cpp): each concerns its own
 reader alone, and those of one ReadAll call, when nobody comes between, are ReadAll.
 */
module ReaderCalls {
  import opened StreamReader
  import opened ReaderSystem

  /** What a section of one reader makes of it and of the budget. */
  function Own(limits: Limits, r: Reader, b: Budget, e: Event): (Reader, Budget)
    requires Valid(r) && (e.Deliver? || e.CloseReader? || e.FailReader? || e.NextChunk? || e.DestroyReader?)
  {
    match e
    case Deliver(_, index, content) => var (r', b', _) := Offer(limits, r, b, index, content); (r', b')
    case CloseReader(_, reason, attributes) => Close(r, b, reason, attributes)
    case FailReader(_, reason) => Fail(r, b, Given(reason))
    case NextChunk(_) => var (r', b', _) := ReadNext(r, b); (r', b')
    case DestroyReader(_) => Destroy(r, b)
  }

  /** A section of one reader changes that reader and the budget as it would alone, and nothing else. */
  lemma ReadersAreSeparate(limits: Limits, s: System, e: Event)
    requires AllValid(s) && Enabled(s, e)
    requires e.Deliver? || e.CloseReader? || e.FailReader? || e.NextChunk? || e.DestroyReader?
    ensures var (r, b) := Own(limits, s.slots[e.id].reader, s.budget, e);
            Apply(limits, s, e) == s.(budget := b, slots := s.slots[e.id := Slot(r, !e.DestroyReader?)])
  {
  }

  /** These events, one after the other, lead from one state to the other. */
  ghost predicate LeadTo(limits: Limits, s: System, events: seq<Event>, s': System)
    decreases |events|
  {
    if events == [] then s' == s
    else AllValid(s) && Enabled(s, events[0]) && LeadTo(limits, Apply(limits, s, events[0]), events[1..], s')
  }

  /** A section of this ReadAll call. */
  predicate OfCall(e: Event, k: nat) {
    e == TakeChunk(k) || e == MarkOverflow(k) || e == EndOfQueue(k) || e == CheckFailure(k) || e == ReleaseHeld(k)
  }

  predicate AllOfCall(events: seq<Event>, k: nat) {
    forall i :: 0 <= i < |events| ==> OfCall(events[i], k)
  }

  /** A ReadAll call comes to what ReadAll comes to: it waits with what it has taken, or it has ended. */
  ghost predicate ComesTo(limits: Limits, s: System, k: nat, s': System)
    requires k < |s.calls| && s.calls[k].reader < |s.slots| && Valid(s.slots[s.calls[k].reader].reader)
  {
    var c := s.calls[k];
    var (r, b, outcome) := ReadAllFrom(limits, s.slots[c.reader].reader, s.budget, c.result);
    && s'.budget == b && s'.slots == s.slots[c.reader := s.slots[c.reader].(reader := r)]
    && |s'.calls| == |s.calls| && s'.calls == s.calls[k := s'.calls[k]] && s'.calls[k].reader == c.reader
    && if outcome.Waits? then s'.calls[k] == ReadCall(c.reader, outcome.taken, |outcome.taken|, Reading)
       else s'.calls[k].phase == Done(outcome) && s'.calls[k].held == 0
  }

  lemma InvValid(limits: Limits, s: System)
    requires Inv(limits, s)
    ensures AllValid(s)
    ensures forall k :: 0 <= k < |s.calls| ==> CallOk(s, s.calls[k])
  {
    assert forall i :: 0 <= i < |s.slots| ==> SlotOk(limits, s.slots[i]);
  }

  lemma LeadsFirst(limits: Limits, s: System, e: Event, events: seq<Event>, s': System)
    requires AllValid(s) && Enabled(s, e) && LeadTo(limits, Apply(limits, s, e), events, s')
    ensures LeadTo(limits, s, [e] + events, s')
  {
    assert ([e] + events)[1..] == events;
  }

  lemma LeadsOn(limits: Limits, s: System, e: Event, f: Event, g: Event)
    requires Inv(limits, s) && AllValid(s) && Enabled(s, e)
    requires var s1 := Apply(limits, s, e);
             AllValid(s1) && Enabled(s1, f) && AllValid(Apply(limits, s1, f)) && Enabled(Apply(limits, s1, f), g)
    ensures LeadTo(limits, s, [e, f, g], Apply(limits, Apply(limits, Apply(limits, s, e), f), g))
  {
    hide Inv, Apply, Enabled, AllValid;
    var s1 := Apply(limits, s, e);
    var s2 := Apply(limits, s1, f);
    var s3 := Apply(limits, s2, g);
    assert LeadTo(limits, s3, [], s3);
    LeadsFirst(limits, s2, g, [], s3);
    assert [g] + [] == [g] && [f] + [g] == [f, g] && [e] + [f, g] == [e, f, g];
    LeadsFirst(limits, s1, f, [g], s3);
    LeadsFirst(limits, s, e, [f, g], s3);
  }

  /** The end of a call that finds nothing queued on a closed reader. */
  lemma EmptyEnds(limits: Limits, s: System, k: nat) returns (s': System)
    requires Inv(limits, s) && At(s, k, Reading)
    requires s.slots[s.calls[k].reader].reader.queue == [] && s.slots[s.calls[k].reader].reader.closed
    ensures LeadTo(limits, s, [EndOfQueue(k), CheckFailure(k), ReleaseHeld(k)], s')
    ensures Valid(s.slots[s.calls[k].reader].reader) && ComesTo(limits, s, k, s')
  {
    InvValid(limits, s);
    var s1 := Apply(limits, s, EndOfQueue(k));
    EventKeepsInv(limits, s, EndOfQueue(k));
    InvValid(limits, s1);
    var s2 := Apply(limits, s1, CheckFailure(k));
    EventKeepsInv(limits, s1, CheckFailure(k));
    InvValid(limits, s2);
    hide Inv, LeadTo;
    s' := Apply(limits, s2, ReleaseHeld(k));
    LeadsOn(limits, s, EndOfQueue(k), CheckFailure(k), ReleaseHeld(k));
  }

  /** The call whose next chunk is too much has taken it and is about to mark its reader. */
  lemma OverflowTaken(limits: Limits, s: System, k: nat) returns (s2: System)
    requires Inv(limits, s) && At(s, k, Reading) && s.slots[s.calls[k].reader].reader.queue != []
    requires OverflowsReadAll(limits, |s.calls[k].result|, |s.slots[s.calls[k].reader].reader.queue[0]|)
    ensures AllValid(s) && Enabled(s, TakeChunk(k))
    ensures var s1 := Apply(limits, s, TakeChunk(k));
            && AllValid(s1) && Enabled(s1, MarkOverflow(k)) && s2 == Apply(limits, s1, MarkOverflow(k)) && AllValid(s2)
    ensures var c := s.calls[k];
            var (r1, chunk) := Pop(s.slots[c.reader].reader);
            var (r2, b2) := MarkReadAllLimitExceeded(r1, s.budget);
            && s2.slots == s.slots[c.reader := s.slots[c.reader].(reader := r2)] && s2.budget == b2
            && s2.calls == s.calls[k := c.(held := |c.result| + |chunk|,
                                           phase := Releasing(Throws(ReadAllLimitExceeded)))]
  {
    InvValid(limits, s);
    var s1 := Apply(limits, s, TakeChunk(k));
    EventKeepsInv(limits, s, TakeChunk(k));
    InvValid(limits, s1);
    s2 := Apply(limits, s1, MarkOverflow(k));
    EventKeepsInv(limits, s1, MarkOverflow(k));
    InvValid(limits, s2);
    hide Inv, Valid;
  }

  /** The end of such a call. */
  lemma OverflowEnds(limits: Limits, s: System, k: nat) returns (s': System)
    requires Inv(limits, s) && At(s, k, Reading) && s.slots[s.calls[k].reader].reader.queue != []
    requires OverflowsReadAll(limits, |s.calls[k].result|, |s.slots[s.calls[k].reader].reader.queue[0]|)
    ensures LeadTo(limits, s, [TakeChunk(k), MarkOverflow(k), ReleaseHeld(k)], s')
    ensures Valid(s.slots[s.calls[k].reader].reader) && ComesTo(limits, s, k, s')
  {
    hide Inv, LeadTo, MarkReadAllLimitExceeded, Pop, OverflowsReadAll, Valid;
    InvValid(limits, s);
    var s2 := OverflowTaken(limits, s, k);
    s' := Apply(limits, s2, ReleaseHeld(k));
    LeadsOn(limits, s, TakeChunk(k), MarkOverflow(k), ReleaseHeld(k));
  }

  lemma Overwritten<X>(xs: seq<X>, i: nat, x: X, y: X)
    requires i < |xs|
    ensures xs[i := x][i := y] == xs[i := y]
  {
  }

  /** One chunk more is taken. */
  lemma TakenOne(limits: Limits, s: System, k: nat, s': System)
    requires Inv(limits, s) && At(s, k, Reading) && s.slots[s.calls[k].reader].reader.queue != []
    requires !OverflowsReadAll(limits, |s.calls[k].result|, |s.slots[s.calls[k].reader].reader.queue[0]|)
    requires AllValid(s) && Inv(limits, Apply(limits, s, TakeChunk(k)))
    ensures var s1, c := Apply(limits, s, TakeChunk(k)), s.calls[k];
            && At(s1, k, Reading) && s1.calls[k].reader == c.reader
            && |s1.slots[c.reader].reader.queue| == |s.slots[c.reader].reader.queue| - 1
            && Valid(s1.slots[c.reader].reader) && Valid(s.slots[c.reader].reader)
            && (ComesTo(limits, s1, k, s') ==> ComesTo(limits, s, k, s'))
  {
    var s1, c := Apply(limits, s, TakeChunk(k)), s.calls[k];
    InvValid(limits, s1);
    hide Inv, Valid;
    var r, r1 := s.slots[c.reader].reader, s1.slots[c.reader].reader;
    assert (r1, r.queue[0]) == Pop(r);
    assert s1.calls[k].result == c.result + r.queue[0];
    assert ReadAllFrom(limits, r, s.budget, c.result) == ReadAllFrom(limits, r1, s1.budget, s1.calls[k].result);
    if ComesTo(limits, s1, k, s') {
      var after := ReadAllFrom(limits, r, s.budget, c.result).0;
      Overwritten(s.slots, c.reader, s1.slots[c.reader], s.slots[c.reader].(reader := after));
      Overwritten(s.calls, k, s1.calls[k], s'.calls[k]);
    }
  }

  /**
   A ReadAll call that nobody disturbs, from any point at which it reads: its sections make up ReadAll, with the same
   outcome, the same reader and the same budget afterwards, or it waits with the same bytes taken.
   */
  lemma {:induction false} SectionsAreReadAll(limits: Limits, s: System, k: nat)
    returns (events: seq<Event>, s': System)
    requires Inv(limits, s) && At(s, k, Reading)
    ensures AllOfCall(events, k) && LeadTo(limits, s, events, s')
    ensures Valid(s.slots[s.calls[k].reader].reader) && ComesTo(limits, s, k, s')
    decreases |s.slots[s.calls[k].reader].reader.queue|
  {
    hide Inv, ComesTo, LeadTo;
    InvValid(limits, s);
    var c := s.calls[k];
    var r := s.slots[c.reader].reader;
    if r.queue == [] && !r.closed {
      events, s' := [], s;
      NothingComes(limits, s, k);
    } else if r.queue == [] {
      s' := EmptyEnds(limits, s, k);
      events := [EndOfQueue(k), CheckFailure(k), ReleaseHeld(k)];
    } else if OverflowsReadAll(limits, |c.result|, |r.queue[0]|) {
      s' := OverflowEnds(limits, s, k);
      events := [TakeChunk(k), MarkOverflow(k), ReleaseHeld(k)];
    } else {
      var s1 := Apply(limits, s, TakeChunk(k));
      EventKeepsInv(limits, s, TakeChunk(k));
      TakenOne(limits, s, k, s1);
      var more, last := SectionsAreReadAll(limits, s1, k);
      TakenOne(limits, s, k, last);
      events, s' := [TakeChunk(k)] + more, last;
      LeadsFirst(limits, s, TakeChunk(k), more, last);
    }
  }

  lemma NothingComes(limits: Limits, s: System, k: nat)
    requires At(s, k, Reading) && CallOk(s, s.calls[k]) && Valid(s.slots[s.calls[k].reader].reader)
    requires s.slots[s.calls[k].reader].reader.queue == [] && !s.slots[s.calls[k].reader].reader.closed
    ensures ComesTo(limits, s, k, s) && LeadTo(limits, s, [], s)
  {
  }
}
