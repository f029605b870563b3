/**
 The meeting catalog controller (src/core/meeting_catalog_controller.cpp): lists, a detail and writes that
 are answered asynchronously, under accounts that change. Every signal may run a nested event loop, so
 an operation is split at each: what remains of it waits in a frame, and anything may happen before.
 */
module MeetingCatalog {
  import opened Options

  // ----- Data -----

  /** RequestContext */
  datatype Context = Context(auth: nat, revision: nat, sessionService: string, httpService: string, userId: string)

  datatype Status = Scheduled | InProgress | Completed | Cancelled | OtherStatus(raw: int)

  /** MeetingRecord; the settings are only copied. */
  datatype Record = Record(id: string, host: string, status: Status, rawStatus: string, title: string, creator: string,
                           start: int, settings: seq<int>)

  datatype LoadState = Idle | Loading | Ready | Empty | Error

  /** MeetingListViewState, without its error text. */
  datatype ListView = ListView(state: LoadState, refreshing: bool, hasSnapshot: bool, meetings: seq<Record>)

  /** MeetingDetailViewState, without its error text. */
  datatype DetailView = DetailView(state: LoadState, refreshing: bool, hasSnapshot: bool, id: string,
                                   detail: Option<Record>)

  const NO_LIST := ListView(Idle, false, false, [])
  const NO_DETAIL := DetailView(Idle, false, false, "", None)

  datatype ActiveMeeting = ActiveMeeting(context: Context, meeting: Record)

  /** What is left of an operation behind a signal it emitted. */
  datatype Frame =
    | SendList(history: bool, context: Context, generation: nat)
    | SendDetail(context: Context, generation: nat, id: string)
    | StartBooking(context: Context)
    | SendBooking(context: Context, generation: nat)
    | InvalidateDetail(context: Context, id: string)
    | StartWrite(context: Context, id: string)
    | SendWrite(context: Context, generation: nat, id: string)
    | Updated(context: Context, id: string)
    | DetailCleared(context: Context)
    | Settle(context: Context)
    | ReloadUpcoming
    | ReloadHistory

  /** What the backend was asked; its answer carries the same values back. */
  datatype Request =
    | ListRequest(history: bool, context: Context, generation: nat)
    | DetailRequest(context: Context, generation: nat, id: string)
    | BookingRequest(context: Context, generation: nat)
    | WriteRequest(context: Context, generation: nat, id: string)

  /** The controller, with the account its session is logged in to, the waiting frames, and all it has asked. */
  datatype Controller = Controller(
    login: Option<Context>, upcoming: ListView, history: ListView, detail: DetailView, active: Option<ActiveMeeting>,
    upcomingGeneration: nat, historyGeneration: nat, detailGeneration: nat, operationGeneration: nat,
    booking: Option<nat>, writes: map<string, nat>, pending: bool, frames: seq<Frame>, requests: set<Request>)

  function Initial(login: Option<Context>): Controller {
    Controller(login, NO_LIST, NO_LIST, NO_DETAIL, None, 0, 0, 0, 0, None, map[], false, [], {})
  }

  // ----- The projection of the active meeting -----

  function Merge(existing: Record, live: Record): Record {
    existing.(host := live.host, status := live.status, rawStatus := live.rawStatus, title := live.title,
              creator := live.creator, start := live.start)
  }

  function FindMeeting(meetings: seq<Record>, id: string): (i: nat)
    ensures i <= |meetings| && (i < |meetings| ==> meetings[i].id == id)
    ensures forall j :: 0 <= j < i ==> meetings[j].id != id
  {
    if meetings == [] || meetings[0].id == id then 0 else 1 + FindMeeting(meetings[1..], id)
  }

  function WithoutMeeting(meetings: seq<Record>, id: string): (r: seq<Record>)
    ensures forall i :: 0 <= i < |r| ==> r[i].id != id
  {
    if meetings == [] then []
    else (if meetings[0].id == id then [] else [meetings[0]]) + WithoutMeeting(meetings[1..], id)
  }

  /** A meeting in progress shows only to its host. */
  predicate Shown(m: Record, userId: string) {
    m.status != InProgress || (var host := if m.host == "" then m.creator else m.host; host != "" && host == userId)
  }

  function ShownOf(meetings: seq<Record>, userId: string): (r: seq<Record>)
    ensures forall i :: 0 <= i < |r| ==> Shown(r[i], userId)
  {
    if meetings == [] then []
    else (if Shown(meetings[0], userId) then [meetings[0]] else []) + ShownOf(meetings[1..], userId)
  }

  function WithActive(meetings: seq<Record>, live: Record): seq<Record> {
    var i := FindMeeting(meetings, live.id);
    WithoutMeeting(meetings, live.id) + [if i < |meetings| then Merge(meetings[i], live) else live]
  }

  /** projectUpcomingMeetings */
  function ProjectUpcoming(c: Controller, meetings: seq<Record>, userId: string): seq<Record> {
    ShownOf(if c.active.Some? && c.login == Some(c.active.value.context)
            then WithActive(meetings, c.active.value.meeting)
            else meetings, userId)
  }

  lemma {:induction false} ShownConcat(a: seq<Record>, b: seq<Record>, userId: string)
    ensures ShownOf(a + b, userId) == ShownOf(a, userId) + ShownOf(b, userId)
  {
    if a == [] {
      assert a + b == b;
    } else {
      assert (a + b)[1..] == a[1..] + b;
      ShownConcat(a[1..], b, userId);
    }
  }

  lemma {:induction false} ShownAgain(meetings: seq<Record>, userId: string)
    requires forall i :: 0 <= i < |meetings| ==> Shown(meetings[i], userId)
    ensures ShownOf(meetings, userId) == meetings
  {
    if meetings != [] {
      ShownAgain(meetings[1..], userId);
    }
  }

  lemma {:induction false} WithoutAgain(meetings: seq<Record>, id: string)
    requires forall i :: 0 <= i < |meetings| ==> meetings[i].id != id
    ensures WithoutMeeting(meetings, id) == meetings
  {
    if meetings != [] {
      WithoutAgain(meetings[1..], id);
    }
  }

  lemma {:induction false} WithoutConcat(a: seq<Record>, b: seq<Record>, id: string)
    ensures WithoutMeeting(a + b, id) == WithoutMeeting(a, id) + WithoutMeeting(b, id)
  {
    if a == [] {
      assert a + b == b;
    } else {
      assert (a + b)[1..] == a[1..] + b;
      WithoutConcat(a[1..], b, id);
    }
  }

  lemma {:induction false} ShownAmong(meetings: seq<Record>, userId: string, id: string)
    requires forall i :: 0 <= i < |meetings| ==> meetings[i].id != id
    ensures forall i :: 0 <= i < |ShownOf(meetings, userId)| ==> ShownOf(meetings, userId)[i].id != id
  {
    if meetings != [] {
      ShownAmong(meetings[1..], userId, id);
    }
  }

  lemma ShownOne(m: Record, userId: string)
    ensures ShownOf([m], userId) == if Shown(m, userId) then [m] else []
  {
  }

  lemma WithoutOne(m: Record, id: string)
    ensures WithoutMeeting([m], id) == if m.id == id then [] else [m]
  {
  }

  /** The active meeting put into a list it ends already, or is not in, and the list shown to its user again. */
  lemma ActiveAgain(rest: seq<Record>, merged: Record, live: Record, userId: string)
    requires forall i :: 0 <= i < |rest| ==> rest[i].id != live.id && Shown(rest[i], userId)
    requires merged.id == live.id && Merge(merged, live) == merged
    ensures var once := rest + (if Shown(merged, userId) then [merged] else []);
            ShownOf(WithActive(once, live), userId) == once
  {
    hide ShownOf, WithoutMeeting, FindMeeting;
    WithoutAgain(rest, live.id);
    ShownAgain(rest, userId);
    if Shown(merged, userId) {
      var once := rest + [merged];
      WithoutConcat(rest, [merged], live.id);
      WithoutOne(merged, live.id);
      assert once[|rest|] == merged;
      assert forall j :: 0 <= j < |rest| ==> once[j] == rest[j];
      assert FindMeeting(once, live.id) == |rest|;
      assert WithActive(once, live) == rest + [merged];
      ShownConcat(rest, [merged], userId);
      ShownOne(merged, userId);
    } else {
      assert rest + [] == rest;
      assert FindMeeting(rest, live.id) == |rest|;
      assert !Shown(live, userId);
      ShownConcat(rest, [live], userId);
      ShownOne(live, userId);
    }
  }

  /** Projecting a projected list changes nothing. */
  lemma ProjectionIsIdempotent(c: Controller, meetings: seq<Record>, userId: string)
    ensures var once := ProjectUpcoming(c, meetings, userId); ProjectUpcoming(c, once, userId) == once
  {
    hide ShownOf, WithoutMeeting, FindMeeting;
    var once := ProjectUpcoming(c, meetings, userId);
    if c.active.Some? && c.login == Some(c.active.value.context) {
      var live := c.active.value.meeting;
      var i, rest := FindMeeting(meetings, live.id), WithoutMeeting(meetings, live.id);
      var merged := if i < |meetings| then Merge(meetings[i], live) else live;
      ShownConcat(rest, [merged], userId);
      ShownOne(merged, userId);
      ShownAmong(rest, userId, live.id);
      ActiveAgain(ShownOf(rest, userId), merged, live, userId);
    } else {
      ShownAgain(once, userId);
    }
  }

  lemma {:induction false} WithoutMeaning(meetings: seq<Record>, id: string)
    ensures forall m :: m in WithoutMeeting(meetings, id) <==> m in meetings && m.id != id
  {
    if meetings != [] {
      WithoutMeaning(meetings[1..], id);
    }
  }

  lemma {:induction false} ShownMeaning(meetings: seq<Record>, userId: string)
    ensures forall m :: m in ShownOf(meetings, userId) <==> m in meetings && Shown(m, userId)
  {
    if meetings != [] {
      ShownMeaning(meetings[1..], userId);
    }
  }

  /** Whether the active meeting is of the account that is there now. */
  predicate HasActive(c: Controller) {
    c.active.Some? && c.login == Some(c.active.value.context)
  }

  /**
   The active meeting, as its room knows it, in place of the server's, once and last; and nobody else's
   meeting in progress. Without an active meeting, just the shown ones of the server's.
   */
  lemma ProjectionMeaning(c: Controller, meetings: seq<Record>, userId: string, m: Record)
    ensures !HasActive(c) ==> (m in ProjectUpcoming(c, meetings, userId) <==> m in meetings && Shown(m, userId))
    ensures HasActive(c) ==>
              var live := c.active.value.meeting;
              var i := FindMeeting(meetings, live.id);
              m in ProjectUpcoming(c, meetings, userId)
              <==> Shown(m, userId)
                   && if m.id == live.id then m == (if i < |meetings| then Merge(meetings[i], live) else live)
                                       else m in meetings
    ensures HasActive(c) ==>
              var shown := ProjectUpcoming(c, meetings, userId);
              forall i :: 0 <= i < |shown| && shown[i].id == c.active.value.meeting.id ==> i == |shown| - 1
  {
    hide ShownOf, WithoutMeeting, FindMeeting, Shown;
    if HasActive(c) {
      var live := c.active.value.meeting;
      var i, rest := FindMeeting(meetings, live.id), WithoutMeeting(meetings, live.id);
      var merged := if i < |meetings| then Merge(meetings[i], live) else live;
      WithoutMeaning(meetings, live.id);
      ShownMeaning(WithActive(meetings, live), userId);
      ShownConcat(rest, [merged], userId);
      ShownOne(merged, userId);
      ShownAmong(rest, userId, live.id);
    } else {
      ShownMeaning(meetings, userId);
    }
  }

  // ----- Queries -----

  function ListOf(c: Controller, history: bool): ListView {
    if history then c.history else c.upcoming
  }

  function GenerationOf(c: Controller, history: bool): nat {
    if history then c.historyGeneration else c.upcomingGeneration
  }

  function SetList(c: Controller, history: bool, view: ListView, generation: nat): Controller {
    if history then c.(history := view, historyGeneration := generation)
    else c.(upcoming := view, upcomingGeneration := generation)
  }

  function Settled(meetings: seq<Record>): LoadState {
    if meetings == [] then Empty else Ready
  }

  /** captureContext */
  predicate HasContext(c: Controller) {
    c.login.Some? && c.login.value.userId != ""
  }

  /** startListQuery, up to its signal. */
  function Refresh(c: Controller, history: bool, available: bool): Controller {
    if !HasContext(c) || !available then SetList(c, history, NO_LIST.(state := Error), GenerationOf(c, history))
    else
      var view, generation := ListOf(c, history), GenerationOf(c, history) + 1;
      SetList(c, history, view.(refreshing := true, state := if view.hasSnapshot then view.state else Loading),
              generation)
        .(frames := c.frames + [SendList(history, c.login.value, generation)])
  }

  /** A list answer counts if its account is current and no later query, invalidation or answer intervened. */
  predicate ListCounts(c: Controller, history: bool, context: Context, generation: nat) {
    c.login == Some(context) && GenerationOf(c, history) == generation
  }

  function OnList(c: Controller, history: bool, context: Context, generation: nat, ok: bool, meetings: seq<Record>)
    : Controller
  {
    if !ListCounts(c, history, context, generation) then c
    else
      var view := ListOf(c, history);
      var shown := if history then meetings else ProjectUpcoming(c, meetings, context.userId);
      SetList(c, history,
              if ok then ListView(Settled(shown), false, true, shown)
              else if view.hasSnapshot then view.(refreshing := false, state := Settled(view.meetings))
              else ListView(Error, false, false, []), generation + 1)
  }

  /** loadMeetingDetail, up to its signal. */
  function LoadDetail(c: Controller, id: string, available: bool): Controller {
    if id == "" || !HasContext(c) || !available then c.(detail := NO_DETAIL.(id := id, state := Error))
    else
      var kept := if c.detail.id == id then c.detail else NO_DETAIL;
      c.(detailGeneration := c.detailGeneration + 1,
         detail := kept.(id := id, refreshing := true, state := if kept.hasSnapshot then kept.state else Loading),
         frames := c.frames + [SendDetail(c.login.value, c.detailGeneration + 1, id)])
  }

  function OnDetail(c: Controller, context: Context, generation: nat, id: string, ok: bool,
                    record: Record): Controller {
    if c.login != Some(context) || c.detailGeneration != generation || c.detail.id != id then c
    else
      var d := c.detail;
      c.(detailGeneration := generation + 1,
         detail := if ok && record.id == id then DetailView(Ready, false, true, id, Some(record))
                   else if d.hasSnapshot then d.(refreshing := false, state := Ready)
                   else if ok then d.(refreshing := false, state := Error)
                   else d.(refreshing := false, state := Error, detail := None))
  }

  function ClearDetail(c: Controller): Controller {
    c.(detailGeneration := c.detailGeneration + 1, detail := NO_DETAIL)
  }

  // ----- The active meeting -----

  function SetActive(c: Controller, meeting: Record): Controller {
    if !HasContext(c) || meeting.id == "" || meeting.status != InProgress then c
    else
      var c1 := c.(active := Some(ActiveMeeting(c.login.value, meeting)));
      var shown := ProjectUpcoming(c1, c.upcoming.meetings, c.login.value.userId);
      c1.(upcomingGeneration := c.upcomingGeneration + 1, upcoming := ListView(Settled(shown), false, true, shown))
  }

  /** invalidateUpcomingQuery */
  function InvalidateUpcoming(c: Controller): Controller {
    var view := c.upcoming;
    c.(upcomingGeneration := c.upcomingGeneration + 1,
       upcoming := if !view.refreshing then view
                   else view.(refreshing := false, state := if view.hasSnapshot then Settled(view.meetings) else Idle))
  }

  function InvalidateDetailOf(c: Controller, id: string): Controller {
    if c.detail.id != id then c
    else
      var d := c.detail;
      c.(detailGeneration := c.detailGeneration + 1,
         detail := if !d.refreshing then d else d.(refreshing := false, state := if d.hasSnapshot then Ready else Idle))
  }

  function ClearActive(c: Controller): Controller {
    if c.active.None? then c else InvalidateUpcoming(c.(active := None))
  }

  // ----- Writes -----

  function Wait(c: Controller, f: Frame): Controller {
    c.(frames := c.frames + [f])
  }

  /** bookMeeting, up to the signal of the list it invalidates. */
  function Book(c: Controller, acceptable: bool): Controller {
    if !acceptable || !HasContext(c) || c.booking.Some? then c
    else Wait(InvalidateUpcoming(c), StartBooking(c.login.value))
  }

  /** updateMeeting and cancelMeeting, up to the signal of the list they invalidate. */
  function Write(c: Controller, id: string, acceptable: bool): Controller {
    if !acceptable || !HasContext(c) || id in c.writes then c
    else Wait(InvalidateUpcoming(c), InvalidateDetail(c.login.value, id))
  }

  function OnBooked(c: Controller, context: Context, generation: nat, ok: bool): Controller {
    if c.login != Some(context) || c.booking != Some(generation) then c
    else Wait(c.(booking := None, pending := c.pending || ok), Settle(context))
  }

  /** _meetingWriteGenerations.value: zero when there is none. */
  function WriteGeneration(c: Controller, id: string): nat {
    if id in c.writes then c.writes[id] else 0
  }

  function OnWritten(c: Controller, context: Context, generation: nat, id: string, cancel: bool, ok: bool): Controller {
    if c.login != Some(context) || WriteGeneration(c, id) != generation then c
    else
      var c1 := c.(writes := c.writes - {id}, pending := c.pending || ok);
      if cancel then
        if ok && c.detail.id == id then Wait(ClearDetail(c1), DetailCleared(context)) else Wait(c1, Settle(context))
      else Wait(c1, if ok then Updated(context, id) else Settle(context))
  }

  /** refreshUpcomingWhenWritesSettle */
  function SettleWrites(c: Controller, context: Context, available: bool): Controller {
    if !c.pending || c.booking.Some? || c.writes != map[] || c.login != Some(context) then c
    else Refresh(c.(pending := false), false, available)
  }

  // ----- Accounts -----

  /** handleAccountChange, with the account that is there now. */
  function ChangeAccount(c: Controller, login: Option<Context>, reload: bool): Controller {
    var c1 := c.(login := login, upcoming := NO_LIST, history := NO_LIST, detail := NO_DETAIL, active := None,
                 upcomingGeneration := c.upcomingGeneration + 1, historyGeneration := c.historyGeneration + 1,
                 detailGeneration := c.detailGeneration + 1, operationGeneration := c.operationGeneration + 1,
                 booking := None, writes := map[], pending := false);
    if reload then Wait(c1, ReloadUpcoming) else c1
  }

  // ----- What follows a signal -----

  function Ask(c: Controller, r: Request): Controller {
    c.(requests := c.requests + {r})
  }

  function Resume(c: Controller, f: Frame, available: bool): Controller {
    match f
    case SendList(history, context, generation) =>
      if ListCounts(c, history, context, generation) then Ask(c, ListRequest(history, context, generation)) else c
    case SendDetail(context, generation, id) =>
      if c.login == Some(context) && c.detailGeneration == generation
      then Ask(c, DetailRequest(context, generation, id)) else c
    case StartBooking(context) =>
      var g := c.operationGeneration + 1;
      Wait(c.(operationGeneration := g, booking := Some(g)), SendBooking(context, g))
    case SendBooking(context, generation) =>
      if c.login == Some(context) && c.booking == Some(generation)
      then Ask(c, BookingRequest(context, generation)) else c
    case InvalidateDetail(context, id) => Wait(InvalidateDetailOf(c, id), StartWrite(context, id))
    case StartWrite(context, id) =>
      var g := c.operationGeneration + 1;
      Wait(c.(operationGeneration := g, writes := c.writes[id := g]), SendWrite(context, g, id))
    case SendWrite(context, generation, id) =>
      if c.login == Some(context) && WriteGeneration(c, id) == generation
      then Ask(c, WriteRequest(context, generation, id)) else c
    case Updated(context, id) =>
      if c.login != Some(context) then c
      else
        var c1 := if id !in c.writes && c.detail.id == id then LoadDetail(c, id, available) else c;
        Wait(c1, Settle(context))
    case DetailCleared(context) => if c.login == Some(context) then Wait(c, Settle(context)) else c
    case Settle(context) => if c.login == Some(context) then SettleWrites(c, context, available) else c
    case ReloadUpcoming => if c.login.Some? then Wait(Refresh(c, false, available), ReloadHistory) else c
    case ReloadHistory => if c.login.Some? then Refresh(c, true, available) else c
  }

  // ----- Steps -----

  datatype Event =
    | Refreshing(history: bool, available: bool)
    | Answered(request: Request, ok: bool, meetings: seq<Record>, record: Record, cancel: bool)
    | Opening(id: string, available: bool)
    | Clearing
    | Entering(meeting: Record)
    | Leaving
    | Booking(acceptable: bool)
    | Writing(id: string, acceptable: bool)
    | Account(login: Option<Context>, reload: bool)
    | Drift(login: Option<Context>)
    | Resuming(frame: nat, available: bool)

  predicate Enabled(c: Controller, e: Event) {
    && (e.Answered? ==> e.request in c.requests)
    && (e.Resuming? ==> e.frame < |c.frames|)
  }

  function Answer(c: Controller, r: Request, ok: bool, meetings: seq<Record>, record: Record,
                  cancel: bool): Controller {
    match r
    case ListRequest(history, context, generation) => OnList(c, history, context, generation, ok, meetings)
    case DetailRequest(context, generation, id) => OnDetail(c, context, generation, id, ok, record)
    case BookingRequest(context, generation) => OnBooked(c, context, generation, ok)
    case WriteRequest(context, generation, id) => OnWritten(c, context, generation, id, cancel, ok)
  }

  /** One operation, answer or continuation. Drift changes the session's context without telling the controller. */
  function Apply(c: Controller, e: Event): Controller
    requires Enabled(c, e)
  {
    match e
    case Refreshing(history, available) => Refresh(c, history, available)
    case Answered(r, ok, meetings, record, cancel) => Answer(c, r, ok, meetings, record, cancel)
    case Opening(id, available) => LoadDetail(c, id, available)
    case Clearing => ClearDetail(c)
    case Entering(meeting) => SetActive(c, meeting)
    case Leaving => ClearActive(c)
    case Booking(acceptable) => Book(c, acceptable)
    case Writing(id, acceptable) => Write(c, id, acceptable)
    case Account(login, reload) => ChangeAccount(c, login, reload)
    case Drift(login) => c.(login := login)
    case Resuming(i, available) =>
      Resume(c.(frames := c.frames[..i] + c.frames[i + 1..]), c.frames[i], available)
  }

  // ----- Views -----

  /** A list has a snapshot exactly when it is ready or empty, and is empty exactly when it says so. */
  predicate ListViewOk(v: ListView) {
    && (v.hasSnapshot <==> v.state == Ready || v.state == Empty)
    && (v.state == Empty ==> v.meetings == []) && (v.state == Ready ==> v.meetings != [])
    && (!v.hasSnapshot ==> v.meetings == [])
    && (v.state == Loading ==> v.refreshing)
  }

  /** A detail has a snapshot exactly when it is ready, and then it is the detail of its own meeting. */
  predicate DetailViewOk(d: DetailView) {
    && (d.hasSnapshot <==> d.state == Ready) && (d.hasSnapshot <==> d.detail.Some?)
    && (d.detail.Some? ==> d.detail.value.id == d.id)
    && (d.state == Loading ==> d.refreshing)
  }

  predicate ViewsOk(c: Controller) {
    ListViewOk(c.upcoming) && ListViewOk(c.history) && DetailViewOk(c.detail)
  }

  lemma RefreshKeepsViews(c: Controller, history: bool, available: bool)
    requires ViewsOk(c)
    ensures ViewsOk(Refresh(c, history, available))
  {
  }

  lemma LoadKeepsViews(c: Controller, id: string, available: bool)
    requires ViewsOk(c)
    ensures ViewsOk(LoadDetail(c, id, available))
  {
  }

  lemma InvalidateKeepsViews(c: Controller, id: string)
    requires ViewsOk(c)
    ensures ViewsOk(InvalidateUpcoming(c)) && ViewsOk(InvalidateDetailOf(c, id))
  {
  }

  lemma ResumeKeepsViews(c: Controller, f: Frame, available: bool)
    requires ViewsOk(c)
    ensures ViewsOk(Resume(c, f, available))
  {
    hide Refresh, LoadDetail, InvalidateDetailOf, ListViewOk, DetailViewOk;
    RefreshKeepsViews(c, false, available);
    RefreshKeepsViews(c, true, available);
    RefreshKeepsViews(c.(pending := false), false, available);
    if f.Updated? { LoadKeepsViews(c, f.id, available); }
    if f.InvalidateDetail? { InvalidateKeepsViews(c, f.id); }
  }

  lemma AnswerKeepsViews(c: Controller, r: Request, ok: bool, meetings: seq<Record>, record: Record, cancel: bool)
    requires ViewsOk(c)
    ensures ViewsOk(Answer(c, r, ok, meetings, record, cancel))
  {
    hide ProjectUpcoming;
  }

  lemma StepKeepsViews(c: Controller, e: Event)
    requires ViewsOk(c) && Enabled(c, e)
    ensures ViewsOk(Apply(c, e))
  {
    hide ProjectUpcoming, Resume, Answer, Refresh, LoadDetail, InvalidateUpcoming;
    match e
    case Refreshing(history, available) => RefreshKeepsViews(c, history, available);
    case Answered(r, ok, meetings, record, cancel) => AnswerKeepsViews(c, r, ok, meetings, record, cancel);
    case Opening(id, available) => LoadKeepsViews(c, id, available);
    case Leaving => InvalidateKeepsViews(c.(active := None), "");
    case Booking(_) => InvalidateKeepsViews(c, "");
    case Writing(_, _) => InvalidateKeepsViews(c, "");
    case Resuming(i, available) =>
      ResumeKeepsViews(c.(frames := c.frames[..i] + c.frames[i + 1..]), c.frames[i], available);
    case _ =>
  }

  // ----- Late answers -----

  /** Generations only go up. */
  predicate NoOlder(c: Controller, d: Controller) {
    && c.upcomingGeneration <= d.upcomingGeneration && c.historyGeneration <= d.historyGeneration
    && c.detailGeneration <= d.detailGeneration && c.operationGeneration <= d.operationGeneration
  }

  /** A write of this generation has been answered, or dropped with its account. */
  predicate Spent(c: Controller, id: string, generation: nat) {
    0 < generation <= c.operationGeneration && WriteGeneration(c, id) != generation
  }

  predicate BookingSpent(c: Controller, generation: nat) {
    generation <= c.operationGeneration && c.booking != Some(generation)
  }

  /** What time does to one write and one booking: generations rise, and what is spent stays so. */
  predicate Later(c: Controller, d: Controller, id: string, generation: nat) {
    NoOlder(c, d) && (Spent(c, id, generation) ==> Spent(d, id, generation))
    && (BookingSpent(c, generation) ==> BookingSpent(d, generation))
  }

  lemma ResumeIsLater(c: Controller, f: Frame, available: bool, id: string, generation: nat)
    ensures Later(c, Resume(c, f, available), id, generation)
  {
  }

  lemma AnswerIsLater(c: Controller, r: Request, ok: bool, meetings: seq<Record>, record: Record, cancel: bool,
                      id: string, generation: nat)
    ensures Later(c, Answer(c, r, ok, meetings, record, cancel), id, generation)
  {
    hide ProjectUpcoming;
  }

  lemma StepIsLater(c: Controller, e: Event, id: string, generation: nat)
    requires Enabled(c, e)
    ensures Later(c, Apply(c, e), id, generation)
  {
    hide ProjectUpcoming, Resume, Answer;
    match e
    case Answered(r, ok, meetings, record, cancel) => AnswerIsLater(c, r, ok, meetings, record, cancel, id, generation);
    case Resuming(i, available) =>
      ResumeIsLater(c.(frames := c.frames[..i] + c.frames[i + 1..]), c.frames[i], available, id, generation);
    case _ =>
  }

  ghost predicate Run(states: seq<Controller>, events: seq<Event>) {
    && |states| == |events| + 1
    && forall i :: 0 <= i < |events| ==> Enabled(states[i], events[i]) && states[i + 1] == Apply(states[i], events[i])
  }

  lemma {:induction false} RunIsLater(states: seq<Controller>, events: seq<Event>, i: nat, j: nat, id: string,
                                      generation: nat)
    requires Run(states, events) && i <= j <= |events|
    ensures Later(states[i], states[j], id, generation)
    decreases j
  {
    hide Apply, Enabled, Spent, BookingSpent;
    if i < j {
      RunIsLater(states, events, i, j - 1, id, generation);
      assert Enabled(states[j - 1], events[j - 1]);
      StepIsLater(states[j - 1], events[j - 1], id, generation);
    }
  }

  /** Whatever raises a list's generation: a query, an answer that counts, an invalidation, a change of account. */
  predicate Intervenes(c: Controller, e: Event, history: bool)
    requires Enabled(c, e)
  {
    GenerationOf(Apply(c, e), history) > GenerationOf(c, history)
  }

  /**
   A list answer changes the controller only if its account is current and nothing intervened since its
   request was made; so in particular only once.
   */
  lemma LateListAnswer(states: seq<Controller>, events: seq<Event>, i: nat, j: nat)
    requires Run(states, events) && i < j < |events| && events[j].Answered? && events[j].request.ListRequest?
    requires var r := events[j].request;
             && r.generation <= GenerationOf(states[i], r.history) && Intervenes(states[i], events[i], r.history)
    ensures states[j + 1] == states[j]
  {
    RunIsLater(states, events, i + 1, j, "", 0);
  }

  /** A list query, an invalidation and a change of account all intervene. */
  lemma WhatIntervenes(c: Controller, e: Event, history: bool)
    requires Enabled(c, e)
    requires (e.Refreshing? && e.history == history && HasContext(c) && e.available) || e.Account?
             || (!history && e.Entering? && SetActive(c, e.meeting) != c)
             || (!history && (e.Leaving? && c.active.Some?))
             || (!history && e.Booking? && Book(c, e.acceptable) != c)
             || (!history && e.Writing? && Write(c, e.id, e.acceptable) != c)
             || (e.Answered? && e.request.ListRequest? && e.request.history == history
                 && ListCounts(c, history, e.request.context, e.request.generation))
    ensures Intervenes(c, e, history)
  {
    hide ProjectUpcoming;
  }

  /** A request whose answer can no longer count. */
  predicate Dead(c: Controller, r: Request) {
    match r
    case ListRequest(history, _, generation) => generation < GenerationOf(c, history)
    case DetailRequest(_, generation, _) => generation < c.detailGeneration
    case BookingRequest(_, generation) => BookingSpent(c, generation)
    case WriteRequest(_, generation, id) => Spent(c, id, generation)
  }

  predicate RequestOk(given: nat, r: Request) {
    match r
    case BookingRequest(_, generation) => generation <= given
    case WriteRequest(_, generation, _) => 0 < generation <= given
    case _ => true
  }

  predicate FrameOk(generation: nat, f: Frame) {
    && (f.SendBooking? ==> f.generation <= generation)
    && (f.SendWrite? ==> 0 < f.generation <= generation)
  }

  /** Every write asked for, or about to be, has a generation that was given out. */
  predicate AskedOk(c: Controller) {
    && (forall r :: r in c.requests ==> RequestOk(c.operationGeneration, r))
    && (forall i :: 0 <= i < |c.frames| ==> FrameOk(c.operationGeneration, c.frames[i]))
  }

  /** A step that asks for nothing new, and adds at most one frame. */
  lemma PushAsks(c: Controller, d: Controller)
    requires AskedOk(c) && c.operationGeneration <= d.operationGeneration && d.requests == c.requests
    requires d.frames == c.frames || exists f :: d.frames == c.frames + [f] && FrameOk(d.operationGeneration, f)
    ensures AskedOk(d)
  {
    forall r | r in d.requests ensures RequestOk(d.operationGeneration, r) {
      assert RequestOk(c.operationGeneration, r);
    }
    forall i | 0 <= i < |d.frames| ensures FrameOk(d.operationGeneration, d.frames[i]) {
      if i < |c.frames| {
        assert d.frames[i] == c.frames[i];
        assert FrameOk(c.operationGeneration, c.frames[i]);
      }
    }
  }

  lemma AnswerIsDead(c: Controller, r: Request, ok: bool, meetings: seq<Record>, record: Record, cancel: bool)
    requires Dead(c, r)
    ensures Answer(c, r, ok, meetings, record, cancel) == c
  {
  }

  lemma AnswerDies(c: Controller, r: Request, ok: bool, meetings: seq<Record>, record: Record, cancel: bool)
    requires RequestOk(c.operationGeneration, r) && Answer(c, r, ok, meetings, record, cancel) != c
    ensures Dead(Answer(c, r, ok, meetings, record, cancel), r)
  {
    hide ProjectUpcoming;
  }

  lemma RefreshAsks(c: Controller, history: bool, available: bool)
    requires AskedOk(c)
    ensures AskedOk(Refresh(c, history, available))
  {
    hide AskedOk;
    PushAsks(c, Refresh(c, history, available));
  }

  lemma LoadAsks(c: Controller, id: string, available: bool)
    requires AskedOk(c)
    ensures AskedOk(LoadDetail(c, id, available))
  {
    hide AskedOk;
    PushAsks(c, LoadDetail(c, id, available));
  }

  lemma AskAsks(c: Controller, r: Request)
    requires AskedOk(c) && RequestOk(c.operationGeneration, r)
    ensures AskedOk(Ask(c, r))
  {
    hide RequestOk, FrameOk;
  }

  lemma WaitAsks(c: Controller, d: Controller, f: Frame)
    requires AskedOk(c) && c.operationGeneration <= d.operationGeneration && d.requests == c.requests
    requires d.frames == c.frames
    requires FrameOk(d.operationGeneration, f)
    ensures AskedOk(Wait(d, f))
  {
    hide AskedOk, FrameOk;
    PushAsks(c, Wait(d, f));
  }

  lemma ResumeAsks(c: Controller, f: Frame, available: bool)
    requires AskedOk(c) && FrameOk(c.operationGeneration, f)
    ensures AskedOk(Resume(c, f, available))
  {
    hide AskedOk, Refresh, LoadDetail, Ask, Wait;
    match f
    case SendList(history, context, generation) => AskAsks(c, ListRequest(history, context, generation));
    case SendDetail(context, generation, id) => AskAsks(c, DetailRequest(context, generation, id));
    case SendBooking(context, generation) => AskAsks(c, BookingRequest(context, generation));
    case SendWrite(context, generation, id) => AskAsks(c, WriteRequest(context, generation, id));
    case StartBooking(context) =>
      var g := c.operationGeneration + 1;
      WaitAsks(c, c.(operationGeneration := g, booking := Some(g)), SendBooking(context, g));
    case InvalidateDetail(context, id) => WaitAsks(c, InvalidateDetailOf(c, id), StartWrite(context, id));
    case StartWrite(context, id) =>
      var g := c.operationGeneration + 1;
      WaitAsks(c, c.(operationGeneration := g, writes := c.writes[id := g]), SendWrite(context, g, id));
    case Updated(context, id) =>
      LoadAsks(c, id, available);
      WaitAsks(c, c, Settle(context));
      WaitAsks(LoadDetail(c, id, available), LoadDetail(c, id, available), Settle(context));
    case DetailCleared(context) => WaitAsks(c, c, Settle(context));
    case Settle(context) =>
      PushAsks(c, c.(pending := false));
      RefreshAsks(c.(pending := false), false, available);
    case ReloadUpcoming =>
      RefreshAsks(c, false, available);
      WaitAsks(Refresh(c, false, available), Refresh(c, false, available), ReloadHistory);
    case ReloadHistory => RefreshAsks(c, true, available);
  }

  lemma StepAsks(c: Controller, e: Event)
    requires AskedOk(c) && Enabled(c, e)
    ensures AskedOk(Apply(c, e))
  {
    hide ProjectUpcoming, Resume, AskedOk, FrameOk;
    match e
    case Resuming(i, available) =>
      var c1 := c.(frames := c.frames[..i] + c.frames[i + 1..]);
      TakenAsks(c, i);
      ResumeAsks(c1, c.frames[i], available);
    case Answered(r, ok, meetings, record, cancel) => AnswerAsks(c, r, ok, meetings, record, cancel);
    case Booking(_) => BookAsks(c, e);
    case Writing(_, _) => BookAsks(c, e);
    case Account(_, _) => BookAsks(c, e);
    case Refreshing(history, available) => RefreshAsks(c, history, available);
    case Opening(id, available) => LoadAsks(c, id, available);
    case _ => PushAsks(c, Apply(c, e));
  }

  lemma BookAsks(c: Controller, e: Event)
    requires AskedOk(c) && Enabled(c, e) && (e.Booking? || e.Writing? || e.Account?)
    ensures AskedOk(Apply(c, e))
  {
    hide AskedOk;
    PushAsks(c, Apply(c, e));
  }

  lemma TakenAsks(c: Controller, i: nat)
    requires AskedOk(c) && i < |c.frames|
    ensures AskedOk(c.(frames := c.frames[..i] + c.frames[i + 1..])) && FrameOk(c.operationGeneration, c.frames[i])
  {
    hide FrameOk, RequestOk;
    var c1 := c.(frames := c.frames[..i] + c.frames[i + 1..]);
    assert forall j :: 0 <= j < |c1.frames| ==> c1.frames[j] == c.frames[if j < i then j else j + 1];
  }

  lemma AnswerAsks(c: Controller, r: Request, ok: bool, meetings: seq<Record>, record: Record, cancel: bool)
    requires AskedOk(c)
    ensures AskedOk(Answer(c, r, ok, meetings, record, cancel))
  {
    hide ProjectUpcoming, ListCounts, AskedOk;
    PushAsks(c, Answer(c, r, ok, meetings, record, cancel));
  }

  lemma {:induction false} RunAsks(states: seq<Controller>, events: seq<Event>, n: nat)
    requires Run(states, events) && AskedOk(states[0]) && n <= |events|
    ensures AskedOk(states[n])
  {
    hide Apply, Enabled, AskedOk;
    if n > 0 {
      RunAsks(states, events, n - 1);
      assert Enabled(states[n - 1], events[n - 1]);
      StepAsks(states[n - 1], events[n - 1]);
    }
  }

  /** The answer to a request, whether a query or a write, counts at most once, however often it comes. */
  lemma EveryAnswerCountsOnce(states: seq<Controller>, events: seq<Event>, login: Option<Context>, i: nat, j: nat)
    requires Run(states, events) && states[0] == Initial(login) && i < j < |events|
    requires events[i].Answered? && events[j].Answered? && events[i].request == events[j].request
    requires states[i + 1] != states[i]
    ensures states[j + 1] == states[j]
  {
    hide Answer, Resume, Refresh, LoadDetail, SetActive, ClearActive, Book, Write, ChangeAccount, Spent, BookingSpent;
    assert AskedOk(states[0]);
    RunAsks(states, events, i);
    var e, f := events[i], events[j];
    var r := e.request;
    assert Enabled(states[i], e) && Enabled(states[j], f);
    AnswerDies(states[i], r, e.ok, e.meetings, e.record, e.cancel);
    DeadStaysDead(states, events, i + 1, j, r);
    AnswerIsDead(states[j], r, f.ok, f.meetings, f.record, f.cancel);
  }

  lemma DeadStaysDead(states: seq<Controller>, events: seq<Event>, i: nat, j: nat, r: Request)
    requires Run(states, events) && i <= j <= |events| && Dead(states[i], r)
    ensures Dead(states[j], r)
  {
    hide Run, Spent, BookingSpent;
    RunIsLater(states, events, i, j, if r.WriteRequest? then r.id else "", r.generation);
  }

  // ----- The refresh that waits for the writes -----

  predicate InFlight(c: Controller) {
    c.booking.Some? || c.writes != map[]
  }

  /** A continuation that will look whether the writes have settled. */
  predicate Settles(f: Frame, login: Option<Context>) {
    (f.Settle? || f.Updated? || f.DetailCleared?) && login == Some(f.context)
  }

  predicate WillSettle(frames: seq<Frame>, login: Option<Context>) {
    exists i :: 0 <= i < |frames| && Settles(frames[i], login)
  }

  predicate PendingOk(c: Controller) {
    c.pending ==> InFlight(c) || WillSettle(c.frames, c.login)
  }

  lemma SettleSnoc(frames: seq<Frame>, f: Frame, login: Option<Context>)
    ensures WillSettle(frames + [f], login) <==> WillSettle(frames, login) || Settles(f, login)
  {
    hide Settles;
    var more := frames + [f];
    assert more[|frames|] == f;
    if WillSettle(frames, login) {
      var i :| 0 <= i < |frames| && Settles(frames[i], login);
      assert more[i] == frames[i];
    }
  }

  lemma SettleWithout(frames: seq<Frame>, i: nat, login: Option<Context>)
    requires i < |frames| && WillSettle(frames, login) && !Settles(frames[i], login)
    ensures WillSettle(frames[..i] + frames[i + 1..], login)
  {
    hide Settles;
    var k :| 0 <= k < |frames| && Settles(frames[k], login);
    var less := frames[..i] + frames[i + 1..];
    if k < i {
      assert less[k] == frames[k];
    } else {
      assert less[k - 1] == frames[k];
    }
  }

  /** A step that adds a frame, and touches neither the writes nor the pending refresh, keeps it. */
  lemma PushKeepsPending(c: Controller, d: Controller)
    requires PendingOk(c) && d.login == c.login && (d.pending ==> c.pending) && (InFlight(c) ==> InFlight(d))
    requires d.frames == c.frames || exists f :: d.frames == c.frames + [f]
    ensures PendingOk(d)
  {
    hide InFlight, WillSettle, Settles;
    if d.frames != c.frames {
      var f :| d.frames == c.frames + [f];
      SettleSnoc(c.frames, f, c.login);
    }
  }

  lemma RefreshPushes(c: Controller, history: bool, available: bool)
    ensures var d := Refresh(c, history, available);
            && d.login == c.login && d.pending == c.pending && d.booking == c.booking && d.writes == c.writes
            && (d.frames == c.frames || exists f :: d.frames == c.frames + [f])
  {
  }

  lemma AnswerKeepsPending(c: Controller, r: Request, ok: bool, meetings: seq<Record>, record: Record, cancel: bool)
    requires PendingOk(c)
    ensures PendingOk(Answer(c, r, ok, meetings, record, cancel))
  {
    hide ProjectUpcoming, WillSettle, PendingOk, InFlight;
    var d := Answer(c, r, ok, meetings, record, cancel);
    match r
    case BookingRequest(context, generation) =>
      if d != c { SettleSnoc(c.frames, Settle(context), c.login); PendingBySettle(d); }
    case WriteRequest(context, generation, id) =>
      if d != c {
        SettleSnoc(c.frames, Settle(context), c.login);
        SettleSnoc(c.frames, Updated(context, id), c.login);
        SettleSnoc(c.frames, DetailCleared(context), c.login);
        PendingBySettle(d);
      }
    case _ => SamePending(c, d);
  }

  lemma PendingBySettle(c: Controller)
    requires WillSettle(c.frames, c.login)
    ensures PendingOk(c)
  {
  }

  lemma SamePending(c: Controller, d: Controller)
    requires PendingOk(c) && d.frames == c.frames && d.login == c.login && d.pending == c.pending
    requires d.booking == c.booking && d.writes == c.writes
    ensures PendingOk(d)
  {
  }

  /** A continuation that settles leaves the refresh started, or a write in flight, or another that will. */
  lemma SettlingKeepsPending(c: Controller, f: Frame, available: bool)
    requires Settles(f, c.login)
    ensures PendingOk(Resume(c, f, available))
  {
    hide WillSettle, Refresh, LoadDetail;
    if f.Settle? {
      RefreshPushes(c.(pending := false), false, available);
    } else {
      var c1 := if f.Updated? && f.id !in c.writes && c.detail.id == f.id then LoadDetail(c, f.id, available) else c;
      assert c1.login == c.login by { LoadLogin(c, if f.Updated? then f.id else "", available); }
      SettleSnoc(c1.frames, Settle(f.context), c.login);
    }
  }

  lemma LoadLogin(c: Controller, id: string, available: bool)
    ensures LoadDetail(c, id, available).login == c.login
  {
  }

  lemma OtherKeepsPending(c: Controller, f: Frame, available: bool)
    requires PendingOk(c) && !Settles(f, c.login)
    ensures PendingOk(Resume(c, f, available))
  {
    hide WillSettle, Refresh, LoadDetail, PendingOk;
    var d := Resume(c, f, available);
    match f
    case StartBooking(context) => BookingPending(c, context);
    case InvalidateDetail(context, id) => PushKeepsPending(c, d);
    case StartWrite(context, id) => WritePending(c, context, id);
    case ReloadUpcoming =>
      RefreshPushes(c, false, available);
      PushKeepsPending(c, Refresh(c, false, available));
      if c.login.Some? { PushKeepsPending(Refresh(c, false, available), d); }
    case ReloadHistory => RefreshPushes(c, true, available); PushKeepsPending(c, d);
    case _ => SamePending(c, d);
  }

  lemma BookingPending(c: Controller, context: Context)
    ensures PendingOk(Resume(c, StartBooking(context), true))
  {
  }

  lemma WritePending(c: Controller, context: Context, id: string)
    ensures PendingOk(Resume(c, StartWrite(context, id), true))
  {
    assert id in Resume(c, StartWrite(context, id), true).writes;
  }

  /**
   A silent change of the session is harmless if nothing is pending, a write is still in flight, or a
   continuation of the new account waits; it is not if the last write has just been answered, its
   continuation waits inside a signal, and that continuation is no longer of the session's account.
   */
  predicate Harmless(c: Controller, e: Event) {
    e.Drift? && c.pending && !InFlight(c) ==> WillSettle(c.frames, e.login)
  }

  /** Every step keeps it, exactly if it is no silent change or a harmless one. */
  lemma StepKeepsPending(c: Controller, e: Event)
    requires PendingOk(c) && Enabled(c, e)
    ensures PendingOk(Apply(c, e)) <==> Harmless(c, e)
  {
    if !e.Drift? { NoticeKeepsPending(c, e); }
  }

  lemma NoticeKeepsPending(c: Controller, e: Event)
    requires PendingOk(c) && Enabled(c, e) && !e.Drift?
    ensures PendingOk(Apply(c, e))
  {
    hide ProjectUpcoming, Resume, Answer, Refresh, PendingOk, WillSettle, Settles;
    var d := Apply(c, e);
    match e
    case Answered(r, ok, meetings, record, cancel) => AnswerKeepsPending(c, r, ok, meetings, record, cancel);
    case Resuming(i, available) =>
      var f, c1 := c.frames[i], c.(frames := c.frames[..i] + c.frames[i + 1..]);
      if Settles(f, c.login) {
        SettlingKeepsPending(c1, f, available);
      } else {
        TakenKeepsPending(c, i);
        OtherKeepsPending(c1, f, available);
      }
    case Refreshing(history, available) => RefreshPushes(c, history, available); PushKeepsPending(c, d);
    case Account(login, reload) => NothingPending(d);
    case _ => PushKeepsPending(c, d);
  }

  lemma TakenKeepsPending(c: Controller, i: nat)
    requires PendingOk(c) && i < |c.frames| && !Settles(c.frames[i], c.login)
    ensures PendingOk(c.(frames := c.frames[..i] + c.frames[i + 1..]))
  {
    hide WillSettle, Settles;
    if WillSettle(c.frames, c.login) { SettleWithout(c.frames, i, c.login); }
  }

  lemma NothingPending(c: Controller)
    requires !c.pending
    ensures PendingOk(c)
  {
  }

  lemma {:induction false} RunKeepsPending(states: seq<Controller>, events: seq<Event>, n: nat)
    requires Run(states, events) && PendingOk(states[0]) && n <= |events|
    ensures (forall i :: 0 <= i <= n ==> PendingOk(states[i]))
            <==> (forall i :: 0 <= i < n ==> Harmless(states[i], events[i]))
  {
    hide Apply, Enabled, PendingOk, Harmless;
    if n > 0 {
      RunKeepsPending(states, events, n - 1);
      assert Enabled(states[n - 1], events[n - 1]);
      if PendingOk(states[n - 1]) { StepKeepsPending(states[n - 1], events[n - 1]); }
      assert (forall i :: 0 <= i <= n ==> PendingOk(states[i]))
        <==> (forall i :: 0 <= i <= n - 1 ==> PendingOk(states[i])) && PendingOk(states[n]);
      assert (forall i :: 0 <= i < n ==> Harmless(states[i], events[i]))
        <==> (forall i :: 0 <= i < n - 1 ==> Harmless(states[i], events[i])) && Harmless(states[n - 1], events[n - 1]);
    }
  }

  /**
   A refresh that waits for the writes has, at every point of a run, a write in flight or a continuation
   that will start it, if and only if every silent change of the session in that run is harmless.
   */
  lemma PendingIffHarmless(states: seq<Controller>, events: seq<Event>, login: Option<Context>)
    requires Run(states, events) && states[0] == Initial(login)
    ensures (forall i :: 0 <= i <= |events| ==> PendingOk(states[i]))
       <==> (forall i :: 0 <= i < |events| ==> Harmless(states[i], events[i]))
  {
    hide Apply, Enabled, Harmless, WillSettle, InFlight;
    assert PendingOk(states[0]);
    RunKeepsPending(states, events, |events|);
  }

  /** Then whenever no signal is being handled, a pending refresh means that a write is in flight. */
  lemma PendingHasAWrite(states: seq<Controller>, events: seq<Event>, login: Option<Context>)
    requires Run(states, events) && states[0] == Initial(login)
    requires forall i :: 0 <= i < |events| ==> Harmless(states[i], events[i])
    requires var c := states[|events|]; c.frames == [] && c.pending
    ensures InFlight(states[|events|])
  {
    hide Apply, Enabled, InFlight, Harmless;
    PendingIffHarmless(states, events, login);
    assert PendingOk(states[|events|]);
  }

  // ----- What the session manager does -----

  /** The session changes silently only while it is logged out: a login sets its account before it says so. */
  ghost predicate ChangesWithNotice(states: seq<Controller>, events: seq<Event>) {
    |states| == |events| + 1 && forall i :: 0 <= i < |events| && events[i].Drift? ==> states[i].login.None?
  }

  /** Logged out, nothing is pending: no answer counts. */
  predicate LoggedOutIdle(c: Controller) {
    c.login.None? ==> !c.pending
  }

  lemma StepKeepsIdle(c: Controller, e: Event)
    requires LoggedOutIdle(c) && Enabled(c, e) && (e.Drift? ==> c.login.None?)
    ensures LoggedOutIdle(Apply(c, e)) && Harmless(c, e)
  {
    hide ProjectUpcoming, WillSettle;
    if e.Resuming? {
      ResumeKeepsIdle(c.(frames := c.frames[..e.frame] + c.frames[e.frame + 1..]), c.frames[e.frame], e.available);
    }
  }

  lemma ResumeKeepsIdle(c: Controller, f: Frame, available: bool)
    requires LoggedOutIdle(c)
    ensures LoggedOutIdle(Resume(c, f, available))
  {
  }

  lemma {:induction false} RunKeepsIdle(states: seq<Controller>, events: seq<Event>, n: nat)
    requires Run(states, events) && ChangesWithNotice(states, events) && LoggedOutIdle(states[0]) && n <= |events|
    ensures LoggedOutIdle(states[n]) && forall i :: 0 <= i < n ==> Harmless(states[i], events[i])
  {
    hide Apply, Enabled, Harmless, LoggedOutIdle;
    if n > 0 {
      RunKeepsIdle(states, events, n - 1);
      assert Enabled(states[n - 1], events[n - 1]);
      StepKeepsIdle(states[n - 1], events[n - 1]);
    }
  }

  /** With such a session the refresh is never forgotten. */
  lemma RefreshIsNeverForgotten(states: seq<Controller>, events: seq<Event>, login: Option<Context>)
    requires Run(states, events) && states[0] == Initial(login) && ChangesWithNotice(states, events)
    ensures forall i :: 0 <= i <= |events| ==> PendingOk(states[i])
    ensures forall i :: 0 <= i <= |events| && states[i].frames == [] && states[i].pending ==> InFlight(states[i])
  {
    hide Run, Harmless, InFlight, Settles;
    RunKeepsIdle(states, events, |events|);
    PendingIffHarmless(states, events, login);
  }

  /** The end of a booking whose account is replaced, without notice, while it is signalled. */
  function ForgettingEvents(x: Context, y: Context): seq<Event> {
    [Booking(true), Resuming(0, true), Resuming(0, true),
     Answered(BookingRequest(x, 1), true, [], Record("", "", Scheduled, "", "", "", 0, []), false),
     Drift(Some(y)), Resuming(0, true)]
  }

  /**
   A session that replaced one account by another without notice would forget it: at the end of this run
   the refresh is pending, no write is in flight, and nothing waits. The session manager never does that.
   */
  lemma DriftForgets(x: Context, y: Context) returns (states: seq<Controller>)
    requires x != y && x.userId != ""
    ensures Run(states, ForgettingEvents(x, y)) && states[0] == Initial(Some(x))
    ensures var c := states[6]; c.pending && c.frames == [] && !InFlight(c)
    ensures !Harmless(states[4], ForgettingEvents(x, y)[4])
  {
    hide Apply, InFlight, Harmless;
    var answer, nothing := BookingRequest(x, 1), Record("", "", Scheduled, "", "", "", 0, []);
    var c0 := Initial(Some(x));
    var c1 := c0.(upcomingGeneration := 1, frames := [StartBooking(x)]);
    var c2 := c1.(operationGeneration := 1, booking := Some(1), frames := [SendBooking(x, 1)]);
    var c3 := c2.(frames := [], requests := {answer});
    var c4 := c3.(booking := None, pending := true, frames := [Settle(x)]);
    var c5 := c4.(login := Some(y));
    var c6 := c5.(frames := []);
    states := [c0, c1, c2, c3, c4, c5, c6];
    assert Apply(c0, Booking(true)) == c1 by { BookingWaits(c0, c1, x); }
    assert Apply(c1, Resuming(0, true)) == c2 by { BookingStarts(c1, c2, x); }
    assert Apply(c2, Resuming(0, true)) == c3 by { BookingIsSent(c2, c3, x); }
    assert Apply(c3, Answered(answer, true, [], nothing, false)) == c4 by { BookingEnds(c3, c4, x, nothing); }
    assert Apply(c4, Drift(Some(y))) == c5 by { SessionDrifts(c4, Some(y)); }
    assert Apply(c5, Resuming(0, true)) == c6 by { SettlingIsDropped(c5, x); }
    assert !InFlight(c4) && !InFlight(c6) && !Harmless(c4, Drift(Some(y))) by {
      RefreshIsForgotten(c4, c6, x, Some(y));
    }
  }

  lemma BookingWaits(c: Controller, d: Controller, x: Context)
    requires x.userId != "" && c == Initial(Some(x)) && d == c.(upcomingGeneration := 1, frames := [StartBooking(x)])
    ensures Apply(c, Booking(true)) == d
  {
  }

  lemma BookingStarts(c: Controller, d: Controller, x: Context)
    requires c.frames == [StartBooking(x)] && c.operationGeneration == 0
    requires d == c.(operationGeneration := 1, booking := Some(1), frames := [SendBooking(x, 1)])
    ensures Apply(c, Resuming(0, true)) == d
  {
  }

  lemma BookingIsSent(c: Controller, d: Controller, x: Context)
    requires c.frames == [SendBooking(x, 1)] && c.login == Some(x) && c.booking == Some(1) && c.requests == {}
    requires d == c.(frames := [], requests := {BookingRequest(x, 1)})
    ensures Apply(c, Resuming(0, true)) == d
  {
  }

  lemma BookingEnds(c: Controller, d: Controller, x: Context, nothing: Record)
    requires c.frames == [] && c.login == Some(x) && c.booking == Some(1) && c.requests == {BookingRequest(x, 1)}
    requires d == c.(booking := None, pending := true, frames := [Settle(x)])
    ensures Apply(c, Answered(BookingRequest(x, 1), true, [], nothing, false)) == d
  {
  }

  lemma SessionDrifts(c: Controller, login: Option<Context>)
    ensures Apply(c, Drift(login)) == c.(login := login)
  {
  }

  lemma SettlingIsDropped(c: Controller, x: Context)
    requires c.frames == [Settle(x)] && c.login != Some(x)
    ensures Apply(c, Resuming(0, true)) == c.(frames := [])
  {
  }

  lemma RefreshIsForgotten(c: Controller, d: Controller, x: Context, login: Option<Context>)
    requires c.frames == [Settle(x)] && login != Some(x) && c.pending && c.booking.None? && c.writes == map[]
    requires d.booking.None? && d.writes == map[]
    ensures !InFlight(c) && !InFlight(d) && !Harmless(c, Drift(login))
  {
  }

  // ----- Every run -----

  lemma {:induction false} ViewsAreConsistent(states: seq<Controller>, events: seq<Event>, login: Option<Context>,
                                              n: nat)
    requires Run(states, events) && states[0] == Initial(login) && n <= |events|
    ensures ViewsOk(states[n])
  {
    hide Apply, Enabled;
    if n > 0 {
      ViewsAreConsistent(states, events, login, n - 1);
      assert Enabled(states[n - 1], events[n - 1]);
      StepKeepsViews(states[n - 1], events[n - 1]);
    }
  }
}
