/**
 The gate of src/core/executor_lifetime.h comes to its drain: who is admitted, which cancellations stay registered, and
 that a close can always be carried through.
 */
module GateDrain {
  import opened Options
  import opened Totals
  import opened ExecutorGate

  /** An open gate admits whoever comes, with a ticket of their own; a closed one admits nobody and stays as it is. */
  lemma EnterMeaning(s: System)
    ensures var s' := Apply(s, EnterGate);
            if s.gate.closed then s' == s
            else s'.tickets == s.tickets + [true] && LiveCount(s') == LiveCount(s) + 1
                 && s' == s.(gate := s.gate.(inFlight := s.gate.inFlight + 1), tickets := s'.tickets)
  {
    CountAdd(s.tickets);
  }

  // ----- Cancellations -----

  /** An open gate registers a cancellation under an id that was never given before; a closed one gives the id 0. */
  lemma RegisterMeaning(s: System, c: nat)
    requires Inv(s) && Enabled(s, RegisterCb(c))
    ensures var s' := Apply(s, RegisterCb(c));
            && s'.cbs == s.cbs[c := s'.cbs[c]] && s'.cbs[c] == s.cbs[c].(id := s'.cbs[c].id)
            && if s.gate.closed then s'.gate == s.gate && s'.cbs[c].id == Some(0)
               else
                 var id := s.gate.nextId + 1;
                 && s'.cbs[c].id == Some(id) && id !in s.gate.cancellations
                 && (forall d :: 0 <= d < |s.cbs| ==> s.cbs[d].id != Some(id))
                 && s'.gate.cancellations == s.gate.cancellations[id := Callback(c)]
  {
    hide LiveCount, Findable;
    assert forall d :: 0 <= d < |s.cbs| ==> CbOk(s, s.cbs[d]);
  }

  /** A cancellation of a callback is the one that callback was registered under. */
  predicate TargetOk(cbs: seq<Cb>, id: nat, t: Target) {
    t.Callback? ==> t.index < |cbs| && cbs[t.index].id == Some(id)
  }

  /** While the gate is open, only callbacks that exist and have not completed are registered. */
  predicate Registered(s: System) {
    && (forall id :: id in s.gate.cancellations ==> TargetOk(s.cbs, id, s.gate.cancellations[id]))
    && (forall id :: id in s.gate.cancellations && s.gate.cancellations[id].Callback? ==>
          var x := s.cbs[s.gate.cancellations[id].index]; x.alive && (x.armed || x.forgetDue))
    && (s.closing.Some? ==> forall id :: id in s.closing.value ==> TargetOk(s.cbs, id, s.closing.value[id]))
    && (s.held.Some? ==> s.held.value < |s.cbs| && s.cbs[s.held.value].alive && s.cbs[s.held.value].id.Some?)
  }

  lemma CallbackKeepsRegistered(s: System, e: Event)
    requires Inv(s) && Registered(s) && Enabled(s, e)
    requires e.RegisterCb? || e.CompletePost? || e.CompleteForget? || e.DestroyCb?
    ensures Registered(Apply(s, e))
  {
    hide LiveCount, Findable;
    assert forall c :: 0 <= c < |s.cbs| ==> CbOk(s, s.cbs[c]);
    hide CbOk;
  }

  lemma EventKeepsRegistered(s: System, e: Event)
    requires Inv(s) && Registered(s) && Enabled(s, e)
    ensures Registered(Apply(s, e))
  {
    hide LiveCount, Findable;
    if e.RegisterCb? || e.CompletePost? || e.CompleteForget? || e.DestroyCb? {
      CallbackKeepsRegistered(s, e);
    } else {
      hide CbOk;
    }
  }

  /** In every interleaving each registered cancellation belongs to a callback that still has it to forget. */
  lemma {:induction false} NoStaleCancellation(run: seq<System>, events: seq<Event>, i: nat)
    requires IsRun(run, events) && i < |run|
    ensures Registered(run[i])
  {
    hide Inv, Registered, Apply, Enabled;
    if i == 0 {
      assert Registered(EMPTY) by { NothingRegistered(); }
    } else {
      NoStaleCancellation(run, events, i - 1);
      GateAccounting(run, events, i - 1);
      EventKeepsRegistered(run[i - 1], events[i - 1]);
    }
  }

  lemma NothingRegistered()
    ensures Registered(EMPTY)
  {
  }

  /** A callback that is destroyed is gone, and its cancellation with it; its posts are not taken back. */
  lemma DestroyMeaning(s: System, c: nat)
    requires Inv(s) && Enabled(s, DestroyCb(c))
    ensures var s' := Apply(s, DestroyCb(c));
            && s'.cbs == s.cbs[c := s.cbs[c].(alive := false)]
            && s' == s.(cbs := s'.cbs, gate := s.gate.(cancellations := s'.gate.cancellations))
            && s'.gate.cancellations
               == s.gate.cancellations - if s.cbs[c].id.Some? then {s.cbs[c].id.value} else {}
  {
    hide LiveCount, Findable, CbOk;
    assert 0 !in s.gate.cancellations;
    assert s.gate.cancellations - {0} == s.gate.cancellations;
    assert s.gate.cancellations - {} == s.gate.cancellations;
  }

  /** Other cancellations come and go by themselves: an open gate registers one under the next id, a closed one none. */
  lemma PlainMeaning(s: System, id: nat)
    ensures Apply(s, RegisterPlain)
         == if s.gate.closed then s
            else s.(gate := s.gate.(nextId := s.gate.nextId + 1,
                                    cancellations := s.gate.cancellations[s.gate.nextId + 1 := Plain]))
    ensures Enabled(s, ForgetPlain(id)) ==>
              Apply(s, ForgetPlain(id)) == s.(gate := s.gate.(cancellations := s.gate.cancellations - {id}))
  {
  }

  // ----- A close can be carried through -----

  /** What is left to do for a callback: post, forget, register, return from Create. */
  function Work(x: Cb): nat {
    (if x.armed then 3 else 0) + (if x.forgetDue then 1 else 0) + (if x.creating then 1 else 0)
    + (if x.id.None? then 1 else 0)
  }

  function Works(cbs: seq<Cb>): seq<nat> {
    seq(|cbs|, i requires 0 <= i < |cbs| => Work(cbs[i]))
  }

  /** What is left to do at all; a cancellation that is taken may still be held. */
  function Left(s: System): nat {
    Sum(Works(s.cbs)) + LiveCount(s) + (if s.closing.Some? then 2 * |s.closing.value| else 0)
    + (if s.held.Some? then 1 else 0) + (if s.gate.finished then 0 else 1)
  }

  /** Only what is under way goes on: nobody enters, and nothing is created or registered. */
  predicate Winds(e: Event) {
    e.ReleaseTicket? || e.RegisterCb? || e.ReturnFromCreate? || e.CompletePost? || e.CompleteForget? || e.CloseTake?
    || e.CloseDrop? || e.CloseEnd?
  }

  lemma OneWorks(cbs: seq<Cb>, c: nat, x: Cb)
    requires c < |cbs|
    ensures Sum(Works(cbs[c := x])) + Work(cbs[c]) == Sum(Works(cbs)) + Work(x)
  {
    hide Work, Sum;
    assert Works(cbs[c := x]) == Works(cbs)[c := Work(x)];
    SumUpdate(Works(cbs), c, Work(x));
  }

  /** A step of a callback, or the release of a ticket, leaves less to do. */
  lemma CallbackStep(s: System, e: Event)
    requires Inv(s) && s.gate.closed && Enabled(s, e)
    requires e.RegisterCb? || e.ReturnFromCreate? || e.CompletePost? || e.CompleteForget?
    ensures Left(Apply(s, e)) < Left(s)
  {
    hide Sum, Ones, Findable;
    var s' := Apply(s, e);
    assert CbOk(s, s.cbs[e.cb]);
    OneWorks(s.cbs, e.cb, s'.cbs[e.cb]);
    if e.CompletePost? { CountAdd(s.tickets); }
  }

  lemma ClosingStep(s: System, e: Event)
    requires Inv(s) && s.gate.closed && Enabled(s, e)
    requires e.ReleaseTicket? || e.CloseTake? || e.CloseDrop? || (e.CloseEnd? && !s.gate.finished)
    ensures Left(Apply(s, e)) < Left(s)
  {
    hide Sum, Ones, Findable, Works, CbOk;
    if e.ReleaseTicket? { CountDrop(s.tickets, e.ticket); }
    if e.CloseTake? { TakenShrinks(s.closing.value, e.id); }
  }

  lemma TakenShrinks(m: map<nat, Target>, id: nat)
    requires id in m
    ensures |m - {id}| == |m| - 1
  {
    assert m.Keys == (m - {id}).Keys + {id};
  }

  /** The running Close goes on: what it holds completes and is dropped, the next cancellation is taken, or it ends. */
  lemma CloseGoesOn(s: System) returns (e: Event)
    requires Inv(s) && Registered(s) && s.gate.closed && !s.gate.finished
    requires forall c :: 0 <= c < |s.cbs| ==> !s.cbs[c].forgetDue
    ensures Winds(e) && Enabled(s, e) && Left(Apply(s, e)) < Left(s)
  {
    hide Left, Findable, LiveCount, CbOk;
    if s.held.Some? {
      var c := s.held.value;
      if s.cbs[c].armed {
        e := CompletePost(c);
        CallbackStep(s, e);
      } else {
        e := CloseDrop;
        ClosingStep(s, e);
      }
    } else if s.closing.value != map[] {
      assert s.closing.value.Keys != {};
      var id :| id in s.closing.value;
      e := CloseTake(id);
      ClosingStep(s, e);
    } else {
      e := CloseEnd;
      ClosingStep(s, e);
    }
  }

  /** A Create that runs goes on: registration with the closed gate fails, so it completes at once and returns. */
  lemma CreateGoesOn(s: System, c: nat) returns (e: Event)
    requires Inv(s) && s.gate.closed && c < |s.cbs| && s.cbs[c].creating && !s.cbs[c].forgetDue
    ensures Winds(e) && Enabled(s, e) && Left(Apply(s, e)) < Left(s)
  {
    hide Left, Findable, LiveCount;
    assert CbOk(s, s.cbs[c]);
    if s.cbs[c].id.None? {
      e := RegisterCb(c);
    } else if s.cbs[c].id.value == 0 && s.cbs[c].armed {
      e := CompletePost(c);
    } else {
      e := ReturnFromCreate(c);
    }
    CallbackStep(s, e);
  }

  /** As long as a closed gate is not drained, something that is under way can go on, and less is left then. */
  lemma DrainGoesOn(s: System) returns (e: Event)
    requires Inv(s) && Registered(s) && s.gate.closed && !Drained(s.gate)
    ensures Winds(e) && Enabled(s, e) && Left(Apply(s, e)) < Left(s)
  {
    hide Left, Findable, CbOk, Registered, Sum, Ones;
    if c :| 0 <= c < |s.cbs| && s.cbs[c].forgetDue {
      e := CompleteForget(c);
      CallbackStep(s, e);
    } else if !s.gate.finished {
      e := CloseGoesOn(s);
    } else if c :| 0 <= c < |s.cbs| && s.cbs[c].creating {
      e := CreateGoesOn(s, c);
    } else {
      var t := SomeLiveTicket(s);
      e := ReleaseTicket(t);
      assert forall x :: x in s.cbs ==> !x.creating;
      ClosingStep(s, e);
    }
  }

  lemma SomeLiveTicket(s: System) returns (t: nat)
    requires Inv(s) && s.gate.inFlight != 0
    ensures LiveTicket(s, t)
  {
    if i :| 0 <= i < |s.tickets| && s.tickets[i] {
      t := i;
    } else {
      SumZero(Ones(s.tickets));
      assert false;
    }
  }

  /** These events, one after the other, lead from one state to the other. */
  predicate LeadTo(s: System, events: seq<Event>, s': System)
    decreases |events|
  {
    if events == [] then s' == s
    else Enabled(s, events[0]) && LeadTo(Apply(s, events[0]), events[1..], s')
  }

  lemma {:induction false} ClosedStays(s: System, e: Event)
    requires s.gate.closed && Enabled(s, e)
    ensures Apply(s, e).gate.closed
  {
  }

  /**
   A close can always be carried through: from every closed state of the protocol, if what is under way just goes on
   and nobody new comes, the gate drains, so whoever waits for that is let go.
   */
  lemma {:induction false} CloseCanDrain(s: System) returns (events: seq<Event>, s': System)
    requires Inv(s) && Registered(s) && s.gate.closed
    ensures LeadTo(s, events, s') && Drained(s'.gate) && forall i :: 0 <= i < |events| ==> Winds(events[i])
    decreases Left(s)
  {
    hide Inv, Registered, Left, Enabled, Apply, Winds;
    if Drained(s.gate) {
      events, s' := [], s;
    } else {
      var e := DrainGoesOn(s);
      EventKeepsInv(s, e);
      EventKeepsRegistered(s, e);
      ClosedStays(s, e);
      var more, last := CloseCanDrain(Apply(s, e));
      events, s' := [e] + more, last;
      assert events[1..] == more;
    }
  }

  /** So in every run, from the moment the gate is closed. */
  lemma ClosedRunsCanDrain(run: seq<System>, history: seq<Event>, i: nat) returns (events: seq<Event>, s': System)
    requires IsRun(run, history) && i < |run| && run[i].gate.closed
    ensures LeadTo(run[i], events, s') && Drained(s'.gate) && forall j :: 0 <= j < |events| ==> Winds(events[j])
  {
    hide Inv, Registered, LeadTo, Apply, Enabled, Drained, Winds;
    GateAccounting(run, history, i);
    NoStaleCancellation(run, history, i);
    events, s' := CloseCanDrain(run[i]);
  }
}
