/**
 ExecutorCallbackGate and CancellableExecutorCallback (src/core/executor_lifetime.h) as a concurrent
 protocol. One event is one section under the gate's lock, or a step of the code between two of them.
 */
module ExecutorGate {
  import opened Options
  import opened Totals

  // ----- The gate's fields and its locked sections -----

  /** A registered cancellation: the weak closure of a callback, or another function. */
  datatype Target = Callback(index: nat) | Plain

  datatype Gate = Gate(inFlight: int, nextId: nat, closed: bool, finished: bool, cancellations: map<nat, Target>)

  const OPEN_GATE := Gate(0, 0, false, false, map[])

  function Enter(g: Gate): (Gate, bool) {
    if g.closed then (g, false) else (g.(inFlight := g.inFlight + 1), true)
  }

  /** PostCompletion takes a ticket even when the gate is closed. */
  function AdmitCompletion(g: Gate): Gate {
    g.(inFlight := g.inFlight + 1)
  }

  function Release(g: Gate): Gate {
    g.(inFlight := g.inFlight - 1)
  }

  /** RegisterCancellation: the id 0 means that the gate is closed. */
  function Register(g: Gate, target: Target): (Gate, nat) {
    if g.closed then (g, 0)
    else (g.(nextId := g.nextId + 1, cancellations := g.cancellations[g.nextId + 1 := target]), g.nextId + 1)
  }

  function Forget(g: Gate, id: nat): Gate {
    g.(cancellations := g.cancellations - {id})
  }

  /** The condition WaitForDrain waits for. */
  predicate Drained(g: Gate) {
    g.closed && g.finished && g.inFlight == 0
  }

  // ----- The protocol -----

  /**
   A CancellableExecutorCallback. `id` is unknown until it is registered; `creating` holds while its
   Create is running, under a ticket if there is one; `armed` means that callback_ is not empty;
   `forgetDue` holds between the two gate sections of Complete, while the callback's mutex is held.
   */
  datatype Cb = Cb(id: Option<nat>, creating: bool, under: Option<nat>, armed: bool, posts: nat, forgetDue: bool,
                   alive: bool)

  /**
   The gate, its tickets (true while live), the callbacks, and the running Close: the cancellations
   it has taken and not run yet, and the callback whose pointer it holds.
   */
  datatype System = System(gate: Gate, tickets: seq<bool>, cbs: seq<Cb>, closing: Option<map<nat, Target>>,
                           held: Option<nat>)

  const EMPTY := System(OPEN_GATE, [], [], None, None)

  datatype Event =
    | EnterGate
    | ReleaseTicket(ticket: nat)
    | BeginCreate(under: Option<nat>)
    | RegisterCb(cb: nat)
    | ReturnFromCreate(cb: nat)
    | CompletePost(cb: nat)
    | CompleteForget(cb: nat)
    | DestroyCb(cb: nat)
    | RegisterPlain
    | ForgetPlain(id: nat)
    | CloseBegin
    | CloseTake(id: nat)
    | CloseDrop
    | CloseEnd

  predicate LiveTicket(s: System, t: nat) {
    t < |s.tickets| && s.tickets[t]
  }

  /** When an event can happen: locks are free, pointers are held, and tickets outlive what runs under them. */
  predicate Enabled(s: System, e: Event) {
    match e
    case EnterGate => true
    case ReleaseTicket(t) => LiveTicket(s, t) && forall c :: c in s.cbs && c.creating ==> c.under != Some(t)
    case BeginCreate(under) => under.Some? ==> LiveTicket(s, under.value)
    case RegisterCb(c) => c < |s.cbs| && s.cbs[c].creating && s.cbs[c].id.None?
    case ReturnFromCreate(c) =>
      c < |s.cbs| && s.cbs[c].creating && s.cbs[c].id.Some?
        && (s.cbs[c].id.value == 0 ==> !s.cbs[c].armed && !s.cbs[c].forgetDue)
    case CompletePost(c) => c < |s.cbs| && s.cbs[c].alive && s.cbs[c].id.Some? && s.cbs[c].armed
    case CompleteForget(c) => c < |s.cbs| && s.cbs[c].forgetDue
    case DestroyCb(c) =>
      c < |s.cbs| && s.cbs[c].alive && !s.cbs[c].creating && !s.cbs[c].forgetDue && s.held != Some(c)
    case RegisterPlain => true
    case ForgetPlain(id) => id in s.gate.cancellations ==> s.gate.cancellations[id] == Plain
    case CloseBegin => !s.gate.closed
    case CloseTake(id) => s.closing.Some? && id in s.closing.value && s.held.None?
    case CloseDrop =>
      s.held.Some? && s.held.value < |s.cbs| && !s.cbs[s.held.value].armed && !s.cbs[s.held.value].forgetDue
    case CloseEnd => s.closing == Some(map[]) && s.held.None?
  }

  function Apply(s: System, e: Event): System
    requires Enabled(s, e)
  {
    match e
    case EnterGate =>
      var (g, admitted) := Enter(s.gate);
      s.(gate := g, tickets := if admitted then s.tickets + [true] else s.tickets)
    case ReleaseTicket(t) => s.(gate := Release(s.gate), tickets := s.tickets[t := false])
    case BeginCreate(under) => s.(cbs := s.cbs + [Cb(None, true, under, true, 0, false, true)])
    case RegisterCb(c) =>
      var (g, id) := Register(s.gate, Callback(c));
      s.(gate := g, cbs := s.cbs[c := s.cbs[c].(id := Some(id))])
    case ReturnFromCreate(c) => s.(cbs := s.cbs[c := s.cbs[c].(creating := false)])
    case CompletePost(c) =>
      var x := s.cbs[c];
      s.(gate := AdmitCompletion(s.gate), tickets := s.tickets + [true],
         cbs := s.cbs[c := x.(armed := false, posts := x.posts + 1, forgetDue := true)])
    case CompleteForget(c) =>
      var x := s.cbs[c];
      s.(gate := Forget(s.gate, if x.id.Some? then x.id.value else 0), cbs := s.cbs[c := x.(forgetDue := false)])
    case DestroyCb(c) =>
      var x := s.cbs[c];
      s.(gate := Forget(s.gate, if x.id.Some? then x.id.value else 0), cbs := s.cbs[c := x.(alive := false)])
    case RegisterPlain => s.(gate := Register(s.gate, Plain).0)
    case ForgetPlain(id) => s.(gate := Forget(s.gate, id))
    case CloseBegin => s.(gate := s.gate.(closed := true, cancellations := map[]),
                          closing := Some(s.gate.cancellations))
    case CloseTake(id) =>
      var target := s.closing.value[id];
      // The weak pointer of a destroyed callback gives nothing.
      s.(closing := Some(s.closing.value - {id}),
         held := if target.Callback? && target.index < |s.cbs| && s.cbs[target.index].alive then Some(target.index)
                 else None)
    case CloseDrop => s.(held := None)
    case CloseEnd => s.(gate := s.gate.(finished := true))
  }

  // ----- The invariant -----

  function Ones(flags: seq<bool>): seq<nat> {
    seq(|flags|, i requires 0 <= i < |flags| => if flags[i] then 1 else 0)
  }

  function LiveCount(s: System): nat {
    Sum(Ones(s.tickets))
  }

  /** What holds of each callback by itself. */
  predicate CbOk(s: System, x: Cb) {
    && x.posts == (if x.armed then 0 else 1)
    && (x.armed ==> !x.forgetDue)
    && (x.id.None? ==> x.creating && x.armed)
    && (x.creating ==> x.alive)
    && (x.id == Some(0) && x.armed ==> x.creating)
    && (x.id.Some? ==> x.id.value <= s.gate.nextId)
    && (x.creating && x.under.Some? ==> LiveTicket(s, x.under.value))
  }

  /** An armed callback with a cancellation is still where Close will find it. */
  predicate Findable(s: System, c: nat, id: nat) {
    if !s.gate.closed then id in s.gate.cancellations && s.gate.cancellations[id] == Callback(c)
    else s.held == Some(c) || (s.closing.Some? && id in s.closing.value && s.closing.value[id] == Callback(c))
  }

  ghost predicate Inv(s: System) {
    && s.gate.inFlight == LiveCount(s)
    && (s.gate.closed <==> s.closing.Some?)
    && (s.gate.finished ==> s.closing == Some(map[]) && s.held.None?)
    && (s.gate.closed ==> s.gate.cancellations == map[])
    && (s.held.Some? ==> s.held.value < |s.cbs|)
    && (forall id :: id in s.gate.cancellations ==> 0 < id <= s.gate.nextId)
    && (forall c :: 0 <= c < |s.cbs| ==> CbOk(s, s.cbs[c]))
    && (forall c :: 0 <= c < |s.cbs| ==>
          var x := s.cbs[c];
          x.alive && x.armed && x.id.Some? && x.id.value != 0 ==> Findable(s, c, x.id.value))
    && (forall c, d :: 0 <= c < d < |s.cbs| && s.cbs[c].id.Some? && s.cbs[c].id.value != 0 ==>
          s.cbs[c].id != s.cbs[d].id)
  }

  /** Every Create runs under a live ticket. */
  predicate Ticketed(s: System) {
    forall c :: 0 <= c < |s.cbs| && s.cbs[c].creating ==> s.cbs[c].under.Some?
  }

  lemma CountAdd(flags: seq<bool>)
    ensures Sum(Ones(flags + [true])) == Sum(Ones(flags)) + 1
  {
    assert Ones(flags + [true]) == Ones(flags) + [1];
    SumAppend(Ones(flags), 1);
  }

  lemma CountDrop(flags: seq<bool>, t: nat)
    requires t < |flags| && flags[t]
    ensures Sum(Ones(flags[t := false])) == Sum(Ones(flags)) - 1
  {
    assert Ones(flags[t := false]) == Ones(flags)[t := 0];
    SumUpdate(Ones(flags), t, 0);
  }

  lemma TicketEventKeepsInv(s: System, e: Event)
    requires Inv(s) && Enabled(s, e)
    requires e.EnterGate? || e.ReleaseTicket?
    ensures Inv(Apply(s, e))
  {
    CountAdd(s.tickets);
    if e.ReleaseTicket? { CountDrop(s.tickets, e.ticket); }
    var s' := Apply(s, e);
    hide Sum, Ones;
    forall c | 0 <= c < |s'.cbs| ensures CbOk(s', s'.cbs[c]) {
      assert CbOk(s, s.cbs[c]) && s.cbs[c] in s.cbs;
    }
  }

  lemma CreateEventKeepsInv(s: System, e: Event)
    requires Inv(s) && Enabled(s, e)
    requires e.BeginCreate? || e.RegisterCb? || e.ReturnFromCreate?
    ensures Inv(Apply(s, e))
  {
    hide Sum, Ones;
    var s' := Apply(s, e);
    forall c | 0 <= c < |s'.cbs| ensures CbOk(s', s'.cbs[c]) {
      assert c < |s.cbs| ==> CbOk(s, s.cbs[c]);
    }
  }

  lemma CompleteEventKeepsInv(s: System, e: Event)
    requires Inv(s) && Enabled(s, e)
    requires e.CompletePost? || e.CompleteForget? || e.DestroyCb?
    ensures Inv(Apply(s, e))
  {
    CountAdd(s.tickets);
    hide Sum, Ones;
    var s' := Apply(s, e);
    assert CbOk(s, s.cbs[e.cb]);
    forall c | 0 <= c < |s'.cbs| ensures CbOk(s', s'.cbs[c]) {
      assert CbOk(s, s.cbs[c]);
    }
  }

  lemma CloseEventKeepsInv(s: System, e: Event)
    requires Inv(s) && Enabled(s, e)
    requires e.RegisterPlain? || e.ForgetPlain? || e.CloseBegin? || e.CloseTake? || e.CloseDrop? || e.CloseEnd?
    ensures Inv(Apply(s, e))
  {
    hide Sum, Ones;
    var s' := Apply(s, e);
    forall c | 0 <= c < |s'.cbs| ensures CbOk(s', s'.cbs[c]) {
      assert CbOk(s, s.cbs[c]);
    }
  }

  lemma EventKeepsInv(s: System, e: Event)
    requires Inv(s) && Enabled(s, e)
    ensures Inv(Apply(s, e))
  {
    match e
    case EnterGate => TicketEventKeepsInv(s, e);
    case ReleaseTicket(_) => TicketEventKeepsInv(s, e);
    case BeginCreate(_) => CreateEventKeepsInv(s, e);
    case RegisterCb(_) => CreateEventKeepsInv(s, e);
    case ReturnFromCreate(_) => CreateEventKeepsInv(s, e);
    case CompletePost(_) => CompleteEventKeepsInv(s, e);
    case CompleteForget(_) => CompleteEventKeepsInv(s, e);
    case DestroyCb(_) => CompleteEventKeepsInv(s, e);
    case _ => CloseEventKeepsInv(s, e);
  }

  // ----- Runs -----

  ghost predicate IsRun(run: seq<System>, events: seq<Event>) {
    && |run| == |events| + 1 && run[0] == EMPTY
    && forall i :: 0 <= i < |events| ==> Enabled(run[i], events[i]) && run[i + 1] == Apply(run[i], events[i])
  }

  /** Create is only called under a ticket, as Room::AdmitOperation sees to. */
  predicate CreatesUnderTickets(events: seq<Event>) {
    forall i :: 0 <= i < |events| && events[i].BeginCreate? ==> events[i].under.Some?
  }

  /** In every interleaving the counter is the number of live tickets, and no callback is posted twice. */
  lemma {:induction false} GateAccounting(run: seq<System>, events: seq<Event>, i: nat)
    requires IsRun(run, events) && i < |run|
    ensures Inv(run[i])
    ensures run[i].gate.inFlight == LiveCount(run[i])
    ensures forall c :: 0 <= c < |run[i].cbs| ==> run[i].cbs[c].posts <= 1
  {
    if i > 0 {
      GateAccounting(run, events, i - 1);
      EventKeepsInv(run[i - 1], events[i - 1]);
    }
    assert forall c :: 0 <= c < |run[i].cbs| ==> CbOk(run[i], run[i].cbs[c]);
  }

  lemma {:induction false} RunTicketed(run: seq<System>, events: seq<Event>, i: nat)
    requires IsRun(run, events) && i < |run| && CreatesUnderTickets(events)
    ensures Ticketed(run[i])
  {
    if i > 0 {
      RunTicketed(run, events, i - 1);
    }
  }

  lemma {:induction false} NoLiveTicket(s: System, t: nat)
    requires LiveCount(s) == 0
    ensures !LiveTicket(s, t)
  {
    if LiveTicket(s, t) {
      SumAtLeast(Ones(s.tickets), t);
    }
  }

  /** At the drain point nothing is left to run: every surviving callback has been posted. */
  lemma DrainedMeansCompleted(s: System)
    requires Inv(s) && Ticketed(s) && Drained(s.gate)
    ensures forall c :: 0 <= c < |s.cbs| ==>
              !s.cbs[c].creating && (s.cbs[c].alive ==> !s.cbs[c].armed && s.cbs[c].posts == 1)
  {
    forall c | 0 <= c < |s.cbs|
      ensures !s.cbs[c].creating && (s.cbs[c].alive ==> !s.cbs[c].armed && s.cbs[c].posts == 1)
    {
      var x := s.cbs[c];
      assert CbOk(s, x);
      if x.creating { NoLiveTicket(s, x.under.value); }
    }
  }

  lemma DrainedStays(s: System, e: Event)
    requires Inv(s) && Ticketed(s) && Drained(s.gate) && Enabled(s, e)
    requires e.BeginCreate? ==> e.under.Some?
    ensures Drained(Apply(s, e).gate)
  {
    DrainedMeansCompleted(s);
    match e
    case ReleaseTicket(t) => NoLiveTicket(s, t);
    case BeginCreate(under) => NoLiveTicket(s, under.value);
    case _ =>
  }

  /**
   Drain safety. If Create is only called under a live ticket, then from the moment closed,
   cancellations finished and a count of zero hold together, they hold forever, and every callback
   that still exists has been posted, once.
   */
  lemma {:induction false} DrainSafety(run: seq<System>, events: seq<Event>, i: nat, j: nat)
    requires IsRun(run, events) && CreatesUnderTickets(events)
    requires i <= j < |run| && Drained(run[i].gate)
    ensures Drained(run[j].gate)
    ensures forall c :: 0 <= c < |run[j].cbs| && run[j].cbs[c].alive ==> run[j].cbs[c].posts == 1
  {
    hide Inv, Ticketed, Apply, Enabled, Drained, CbOk, Findable;
    GateAccounting(run, events, j);
    RunTicketed(run, events, j);
    if i < j {
      DrainSafety(run, events, i, j - 1);
      GateAccounting(run, events, j - 1);
      RunTicketed(run, events, j - 1);
      DrainedStays(run[j - 1], events[j - 1]);
    }
    DrainedMeansCompleted(run[j]);
  }

  /** The tickets are needed: a Create under none can post after the drain. */
  lemma UnticketedCreateBreaksDrain() returns (run: seq<System>, events: seq<Event>)
    ensures IsRun(run, events) && !CreatesUnderTickets(events)
    ensures exists i, j :: 0 <= i < j < |run| && Drained(run[i].gate) && !Drained(run[j].gate)
  {
    events := [CloseBegin, CloseEnd, BeginCreate(None), RegisterCb(0), CompletePost(0)];
    var s1 := Apply(EMPTY, CloseBegin);
    var s2 := Apply(s1, CloseEnd);
    var s3 := Apply(s2, BeginCreate(None));
    var s4 := Apply(s3, RegisterCb(0));
    var s5 := Apply(s4, CompletePost(0));
    run := [EMPTY, s1, s2, s3, s4, s5];
    assert events[2].BeginCreate?;
    assert Drained(run[2].gate) && !Drained(run[5].gate);
  }

  // ----- The classes -----

  class ExecutorCallbackGate {
    var inFlight: int
    var nextId: nat
    var closed: bool
    var cancellationsFinished: bool
    var cancellations: map<nat, Target>

    constructor ()
      ensures View() == OPEN_GATE
    {
      inFlight, nextId, closed, cancellationsFinished, cancellations := 0, 0, false, false, map[];
    }

    function View(): Gate
      reads this
    {
      Gate(inFlight, nextId, closed, cancellationsFinished, cancellations)
    }

    method EnterGate() returns (admitted: bool)
      modifies this
      ensures (View(), admitted) == Enter(old(View()))
    {
      if closed { return false; }
      inFlight := inFlight + 1;
      return true;
    }

    method PostCompletion()
      modifies this
      ensures View() == AdmitCompletion(old(View()))
    {
      inFlight := inFlight + 1;
    }

    method ReleaseTicket()
      modifies this
      ensures View() == Release(old(View()))
    {
      inFlight := inFlight - 1;
    }

    method RegisterCancellation(target: Target) returns (id: nat)
      modifies this
      ensures (View(), id) == Register(old(View()), target)
      ensures id == 0 <==> old(closed)
    {
      if closed { return 0; }
      nextId := nextId + 1;
      id := nextId;
      cancellations := cancellations[id := target];
    }

    method ForgetCancellation(id: nat)
      modifies this
      ensures View() == Forget(old(View()), id)
    {
      cancellations := cancellations - {id};
    }

    /** The first locked section of Close; a second Close finds nothing to do. */
    method TakeCancellations() returns (taken: Option<map<nat, Target>>)
      modifies this
      ensures old(closed) ==> taken.None? && View() == old(View())
      ensures !old(closed) ==>
                taken == Some(old(cancellations)) && View() == old(View()).(closed := true, cancellations := map[])
    {
      if closed { return None; }
      closed := true;
      taken := Some(cancellations);
      cancellations := map[];
    }

    /** The last locked section of Close. */
    method FinishCancellations()
      modifies this
      ensures View() == old(View()).(finished := true)
    {
      cancellationsFinished := true;
    }
  }

  class CancellableExecutorCallback {
    const gate: ExecutorCallbackGate
    const index: nat
    var armed: bool
    var id: nat
    var posts: nat

    /** Create: a callback registered with a closed gate completes at once. */
    constructor (gate: ExecutorCallbackGate, index: nat)
      modifies gate
      ensures this.gate == gate && posts == (if armed then 0 else 1)
      ensures old(gate.closed) ==> !armed && id == 0 && gate.View() == Forget(AdmitCompletion(old(gate.View())), 0)
      ensures !old(gate.closed) ==> armed && id != 0 && gate.View() == Register(old(gate.View()), Callback(index)).0
    {
      this.gate, this.index := gate, index;
      armed, posts, id := true, 0, 0;
      new;
      id := gate.RegisterCancellation(Callback(index));
      if id == 0 { Complete(); }
    }

    /** Complete posts the callback at most once, and then forgets its cancellation. */
    method Complete()
      modifies this, gate
      ensures id == old(id) && !armed && posts == old(posts) + (if old(armed) then 1 else 0)
      ensures gate.View() == if old(armed) then Forget(AdmitCompletion(old(gate.View())), id) else old(gate.View())
    {
      if !armed { return; }
      armed := false;
      posts := posts + 1;
      gate.PostCompletion();
      gate.ForgetCancellation(id);
    }

    method Dispose()
      modifies gate
      ensures gate.View() == Forget(old(gate.View()), id)
    {
      gate.ForgetCancellation(id);
    }
  }
}
