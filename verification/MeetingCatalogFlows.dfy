/**
 What becomes of each operation of the meeting catalog controller (src/core/meeting_catalog_controller.cpp): what an
 answer puts on show, and whole operations from their call, through their signals, to their answer.
 */
module MeetingCatalogFlows {
  import opened Options
  import opened MeetingCatalog

  // ----- What a list shows -----

  /** A settled list of these meetings. */
  predicate ShowsList(v: ListView, meetings: seq<Record>) {
    v.meetings == meetings && v.hasSnapshot && !v.refreshing && (v.state == if meetings == [] then Empty else Ready)
  }

  /** The active meeting takes identity, roles and start from its room, the settings from the server if that has it. */
  predicate IsActiveRecord(m: Record, live: Record, meetings: seq<Record>) {
    && m.id == live.id && m.host == live.host && m.status == live.status && m.rawStatus == live.rawStatus
    && m.title == live.title && m.creator == live.creator && m.start == live.start
    && if forall i :: 0 <= i < |meetings| ==> meetings[i].id != live.id then m.settings == live.settings
       else exists i :: 0 <= i < |meetings| && meetings[i].id == live.id && m.settings == meetings[i].settings
                        && forall j :: 0 <= j < i ==> meetings[j].id != live.id
  }

  /** A meeting in progress is for its host alone: the one it names, or else its creator. */
  predicate IsFor(m: Record, userId: string) {
    m.status == InProgress ==> userId != "" && (m.host == userId || (m.host == "" && m.creator == userId))
  }

  lemma ShownMeaning(m: Record, userId: string)
    ensures Shown(m, userId) <==> IsFor(m, userId)
  {
  }

  /** What the upcoming list holds of these meetings. */
  predicate Upcoming(c: Controller, meetings: seq<Record>, userId: string, m: Record) {
    IsFor(m, userId)
    && if HasActive(c) && m.id == c.active.value.meeting.id then IsActiveRecord(m, c.active.value.meeting, meetings)
       else m in meetings
  }

  lemma UpcomingMeaning(c: Controller, meetings: seq<Record>, userId: string, m: Record)
    ensures m in ProjectUpcoming(c, meetings, userId) <==> Upcoming(c, meetings, userId, m)
  {
    hide ProjectUpcoming, Shown, IsFor;
    ShownMeaning(m, userId);
    ProjectionMeaning(c, meetings, userId, m);
    if HasActive(c) {
      var live := c.active.value.meeting;
      var i := FindMeeting(meetings, live.id);
      ActiveRecord(m, live, meetings);
    }
  }

  lemma ActiveRecord(m: Record, live: Record, meetings: seq<Record>)
    ensures var i := FindMeeting(meetings, live.id);
            IsActiveRecord(m, live, meetings) <==> m == if i < |meetings| then Merge(meetings[i], live) else live
  {
    hide FindMeeting;
    FirstMeeting(meetings, live.id, m.settings);
  }

  lemma FirstMeeting(meetings: seq<Record>, id: string, settings: seq<int>)
    ensures var i := FindMeeting(meetings, id);
            && ((forall j :: 0 <= j < |meetings| ==> meetings[j].id != id) <==> i == |meetings|)
            && (i < |meetings| ==>
                  ((exists k :: 0 <= k < |meetings| && meetings[k].id == id && settings == meetings[k].settings
                                && forall j :: 0 <= j < k ==> meetings[j].id != id)
                   <==> settings == meetings[i].settings))
  {
    hide FindMeeting;
  }

  /** Whether a list answer finds its account and its generation. */
  predicate IsCurrent(c: Controller, history: bool, context: Context, generation: nat) {
    c.login == Some(context) && generation == if history then c.historyGeneration else c.upcomingGeneration
  }

  /**
   A current successful answer puts its own list on show: the history is exactly that list, and a meeting is upcoming
   if and only if it is a shown one of that list, or the active one, with its room's fields and the server's settings.
   After a failure the old snapshot's meetings stay, or there is an error. Nothing else changes.
   */
  lemma ListAnswerMeaning(c: Controller, history: bool, context: Context, generation: nat, ok: bool,
                          meetings: seq<Record>)
    requires IsCurrent(c, history, context, generation)
    ensures var c' := OnList(c, history, context, generation, ok, meetings);
            var before, after := ListOf(c, history), ListOf(c', history);
            && c' == SetList(c, history, after, generation + 1)
            && (if ok then
                  && ShowsList(after, after.meetings)
                  && if history then after.meetings == meetings
                     else forall m :: m in after.meetings <==> Upcoming(c, meetings, context.userId, m)
                else if before.hasSnapshot then ShowsList(after, before.meetings)
                else after == ListView(Error, false, false, []))
  {
    hide ProjectUpcoming, Upcoming;
    forall m ensures m in ProjectUpcoming(c, meetings, context.userId) <==> Upcoming(c, meetings, context.userId, m) {
      UpcomingMeaning(c, meetings, context.userId, m);
    }
  }

  /** A detail answer that is current is shown if it is of the meeting asked for; else the old detail stays. */
  lemma DetailAnswerMeaning(c: Controller, context: Context, generation: nat, id: string, ok: bool, record: Record)
    requires c.login == Some(context) && c.detailGeneration == generation && c.detail.id == id
    ensures var c' := OnDetail(c, context, generation, id, ok, record);
            && c' == c.(detail := c'.detail, detailGeneration := generation + 1)
            && c'.detail.id == id && !c'.detail.refreshing
            && (if ok && record.id == id
                then c'.detail.detail == Some(record) && c'.detail.state == Ready && c'.detail.hasSnapshot
                else if c.detail.hasSnapshot
                then c'.detail.detail == c.detail.detail && c'.detail.state == Ready && c'.detail.hasSnapshot
                else c'.detail.state == Error && !c'.detail.hasSnapshot
                     && c'.detail.detail == if ok then c.detail.detail else None)
  {
  }

  /** Any other answer changes nothing. */
  lemma StaleAnswers(c: Controller, context: Context, generation: nat, history: bool, id: string, ok: bool,
                     meetings: seq<Record>, record: Record, cancel: bool)
    ensures !IsCurrent(c, history, context, generation) ==>
              OnList(c, history, context, generation, ok, meetings) == c
    ensures c.login != Some(context) || c.detailGeneration != generation || c.detail.id != id ==>
              OnDetail(c, context, generation, id, ok, record) == c
    ensures c.login != Some(context) || c.booking != Some(generation) ==> OnBooked(c, context, generation, ok) == c
    ensures c.login != Some(context) || (if id in c.writes then c.writes[id] else 0) != generation ==>
              OnWritten(c, context, generation, id, cancel, ok) == c
  {
  }

  // ----- Whole operations -----

  /** An operation's own continuation, the last of the waiting ones, is resumed next. */
  function ResumeLast(c: Controller, available: bool): Controller
    requires c.frames != []
  {
    Apply(c, Resuming(|c.frames| - 1, available))
  }

  lemma LastResumed(c: Controller, frames: seq<Frame>, f: Frame, available: bool)
    requires c.frames == frames + [f]
    ensures ResumeLast(c, available) == Resume(c.(frames := frames), f, available)
  {
    assert c.frames[..|frames|] + c.frames[|frames| + 1..] == frames;
  }

  /**
   What is refused asks nothing. Without an account or a backend a query empties its list, which says so, and so does a
   detail, also without an id; a booking is refused while another one is under way, a write while another one to the
   same meeting is.
   */
  lemma RefusalsMeaning(c: Controller, history: bool, id: string, available: bool, acceptable: bool)
    ensures var account := c.login.Some? && c.login.value.userId != "";
            && (!account || !available ==>
                  Apply(c, Refreshing(history, available))
                  == SetList(c, history, ListView(Error, false, false, []), GenerationOf(c, history)))
            && (!account || !available || id == "" ==>
                  Apply(c, Opening(id, available)) == c.(detail := DetailView(Error, false, false, id, None)))
            && (!account || !acceptable || c.booking.Some? ==> Apply(c, Booking(acceptable)) == c)
            && (!account || !acceptable || id in c.writes ==> Apply(c, Writing(id, acceptable)) == c)
  {
  }

  /**
   A query from its call to its answer. While it runs, the list says so, and the old snapshot stays on show or the list
   is loading; the backend is asked once; the answer is then shown as said above.
   */
  lemma RefreshShows(c: Controller, history: bool, available: bool, ok: bool, meetings: seq<Record>, record: Record,
                     cancel: bool)
    requires c.login.Some? && c.login.value.userId != ""
    ensures var context, generation := c.login.value, GenerationOf(c, history) + 1;
            var called := Apply(c, Refreshing(history, true));
            && |called.frames| == |c.frames| + 1
            && var asked, r := ResumeLast(called, available), ListRequest(history, context, generation);
               var before, during := ListOf(c, history), ListOf(asked, history);
               && asked.requests == c.requests + {r}
               && during.refreshing && during.meetings == before.meetings && during.hasSnapshot == before.hasSnapshot
               && (during.state == if before.hasSnapshot then before.state else Loading)
               && asked == SetList(c, history, during, generation).(requests := asked.requests)
               && IsCurrent(asked, history, context, generation)
               && Apply(asked, Answered(r, ok, meetings, record, cancel))
                  == OnList(asked, history, context, generation, ok, meetings)
  {
    hide OnList;
    var called := Apply(c, Refreshing(history, true));
    LastResumed(called, c.frames, SendList(history, c.login.value, GenerationOf(c, history) + 1), available);
  }

  /** The detail of a meeting from the call to the answer: another meeting's detail goes at once, its own stays. */
  lemma OpenShows(c: Controller, id: string, available: bool, ok: bool, meetings: seq<Record>, record: Record,
                  cancel: bool)
    requires id != "" && c.login.Some? && c.login.value.userId != ""
    ensures var context, generation := c.login.value, c.detailGeneration + 1;
            var called := Apply(c, Opening(id, true));
            && |called.frames| == |c.frames| + 1
            && var asked, r := ResumeLast(called, available), DetailRequest(context, generation, id);
               && asked.requests == c.requests + {r}
               && asked == c.(detail := asked.detail, detailGeneration := generation, requests := asked.requests)
               && asked.detail.id == id && asked.detail.refreshing
               && (if c.detail.id == id && c.detail.hasSnapshot
                   then asked.detail == c.detail.(refreshing := true)
                   else asked.detail.state == Loading && !asked.detail.hasSnapshot
                        && asked.detail.detail == if c.detail.id == id then c.detail.detail else None)
               && Apply(asked, Answered(r, ok, meetings, record, cancel))
                  == OnDetail(asked, context, generation, id, ok, record)
  {
    hide OnDetail;
    var called := Apply(c, Opening(id, true));
    LastResumed(called, c.frames, SendDetail(c.login.value, c.detailGeneration + 1, id), available);
  }

  /** What is left of an operation no longer has its account, or something has taken its place meanwhile. */
  predicate Overtaken(c: Controller, f: Frame) {
    match f
    case SendList(history, context, generation) => !IsCurrent(c, history, context, generation)
    case SendDetail(context, generation, _) => c.login != Some(context) || c.detailGeneration != generation
    case SendBooking(context, generation) => c.login != Some(context) || c.booking != Some(generation)
    case SendWrite(context, generation, id) =>
      c.login != Some(context) || (if id in c.writes then c.writes[id] else 0) != generation
    case Updated(context, _) => c.login != Some(context)
    case DetailCleared(context) => c.login != Some(context)
    case Settle(context) => c.login != Some(context)
    case ReloadUpcoming => c.login.None?
    case ReloadHistory => c.login.None?
    case _ => false
  }

  /** Then nothing is asked, and nothing else happens either. */
  lemma OvertakenStops(c: Controller, i: nat, available: bool)
    requires i < |c.frames| && Overtaken(c, c.frames[i])
    ensures Apply(c, Resuming(i, available)) == c.(frames := c.frames[..i] + c.frames[i + 1..])
  {
  }

  /** The detail of a meeting that has been updated is not loaded while another write to it is under way. */
  lemma UpdateOvertaken(c: Controller, frames: seq<Frame>, context: Context, id: string, available: bool)
    requires c.frames == frames + [Updated(context, id)] && c.login == Some(context) && id in c.writes
    ensures ResumeLast(c, available) == c.(frames := frames + [Settle(context)])
  {
    LastResumed(c, frames, Updated(context, id), available);
  }

  // ----- The active meeting -----

  /** A list query under way is forgotten: its answer will find a later generation. What is on show stays. */
  predicate QueryForgotten(c: Controller, c': Controller) {
    var v, v' := c.upcoming, c'.upcoming;
    && c'.upcomingGeneration == c.upcomingGeneration + 1
    && !v'.refreshing && v'.meetings == v.meetings && v'.hasSnapshot == v.hasSnapshot
    && (v'.state == if !v.refreshing then v.state
                    else if !v.hasSnapshot then Idle else if v.meetings == [] then Empty else Ready)
  }

  /** A meeting in progress that is entered is projected into the list on show, and a query under way is forgotten. */
  lemma EnterMeaning(c: Controller, meeting: Record)
    ensures var c' := Apply(c, Entering(meeting));
            if c.login.None? || c.login.value.userId == "" || meeting.id == "" || meeting.status != InProgress
            then c' == c
            else
              && c' == c.(active := c'.active, upcoming := c'.upcoming, upcomingGeneration := c.upcomingGeneration + 1)
              && c'.active == Some(ActiveMeeting(c.login.value, meeting))
              && ShowsList(c'.upcoming, c'.upcoming.meetings)
              && forall m :: m in c'.upcoming.meetings <==> Upcoming(c', c.upcoming.meetings, c.login.value.userId, m)
  {
    hide ProjectUpcoming, Upcoming;
    if HasContext(c) && meeting.id != "" && meeting.status == InProgress {
      var c1 := c.(active := Some(ActiveMeeting(c.login.value, meeting)));
      forall m ensures m in ProjectUpcoming(c1, c.upcoming.meetings, c.login.value.userId)
                       <==> Upcoming(c1, c.upcoming.meetings, c.login.value.userId, m)
      {
        UpcomingMeaning(c1, c.upcoming.meetings, c.login.value.userId, m);
      }
      SameUpcoming(c1, Apply(c, Entering(meeting)), c.upcoming.meetings, c.login.value.userId);
    }
  }

  lemma SameUpcoming(c: Controller, d: Controller, meetings: seq<Record>, userId: string)
    requires c.active == d.active && c.login == d.login
    ensures forall m :: Upcoming(c, meetings, userId, m) <==> Upcoming(d, meetings, userId, m)
  {
    hide IsFor, IsActiveRecord;
  }

  /** Leaving it forgets it and a query under way; the list on show stays until the next answer. */
  lemma LeaveMeaning(c: Controller)
    ensures var c' := Apply(c, Leaving);
            if c.active.None? then c' == c
            else QueryForgotten(c, c')
                 && c' == c.(active := None, upcoming := c'.upcoming, upcomingGeneration := c'.upcomingGeneration)
  {
  }

  // ----- Writes -----

  /**
   A booking from its call to its answer: a query under way is forgotten and the backend is asked, once. Afterwards no
   booking is under way; after a success, and only then, the upcoming list is refreshed as soon as no other write is.
   */
  lemma BookingFlow(c: Controller, ok: bool, meetings: seq<Record>, record: Record, cancel: bool)
    requires c.login.Some? && c.login.value.userId != "" && c.booking.None? && !c.pending
    ensures var called := Apply(c, Booking(true));
            && |called.frames| == |c.frames| + 1
            && var started := ResumeLast(called, true);
               && |started.frames| == |c.frames| + 1
               && var asked, g := ResumeLast(started, true), c.operationGeneration + 1;
                  var r := BookingRequest(c.login.value, g);
                  && QueryForgotten(c, asked) && asked.booking == Some(g) && asked.requests == c.requests + {r}
                  && asked == c.(upcoming := asked.upcoming, upcomingGeneration := asked.upcomingGeneration,
                                 operationGeneration := g, booking := Some(g), requests := asked.requests)
                  && var answered := Apply(asked, Answered(r, ok, meetings, record, cancel));
                     && |answered.frames| == |c.frames| + 1 && answered.booking.None?
                     && ResumeLast(answered, true)
                        == if !ok then asked.(booking := None)
                           else if c.writes != map[] then asked.(booking := None, pending := true)
                           else Apply(asked.(booking := None), Refreshing(false, true))
  {
    hide Refresh;
    var context, g := c.login.value, c.operationGeneration + 1;
    var called := Apply(c, Booking(true));
    LastResumed(called, c.frames, StartBooking(context), true);
    var started := ResumeLast(called, true);
    LastResumed(started, c.frames, SendBooking(context, g), true);
    var asked := ResumeLast(started, true);
    var answered := Apply(asked, Answered(BookingRequest(context, g), ok, meetings, record, cancel));
    LastResumed(answered, c.frames, Settle(context), true);
  }

  /** The detail of the meeting that is written to: a query of it under way is forgotten, what is on show stays. */
  predicate DetailForgotten(c: Controller, id: string, c': Controller) {
    var d, d' := c.detail, c'.detail;
    if d.id != id then d' == d && c'.detailGeneration == c.detailGeneration
    else
      && c'.detailGeneration == c.detailGeneration + 1 && !d'.refreshing
      && d' == d.(refreshing := false, state := d'.state)
      && (d'.state == if !d.refreshing then d.state else if d.hasSnapshot then Ready else Idle)
  }

  /** An update or a cancellation from its call to where the backend is asked, once. */
  lemma WriteAsks(c: Controller, id: string) returns (asked: Controller)
    requires c.login.Some? && c.login.value.userId != "" && id !in c.writes
    ensures var called := Apply(c, Writing(id, true));
            && |called.frames| == |c.frames| + 1 && |ResumeLast(called, true).frames| == |c.frames| + 1
            && |ResumeLast(ResumeLast(called, true), true).frames| == |c.frames| + 1
            && asked == ResumeLast(ResumeLast(ResumeLast(called, true), true), true)
    ensures QueryForgotten(c, asked) && DetailForgotten(c, id, asked)
    ensures var g := c.operationGeneration + 1;
            asked == c.(upcoming := asked.upcoming, upcomingGeneration := asked.upcomingGeneration,
                        detail := asked.detail, detailGeneration := asked.detailGeneration,
                        operationGeneration := g, writes := c.writes[id := g],
                        requests := c.requests + {WriteRequest(c.login.value, g, id)})
  {
    hide Apply, InvalidateUpcoming, InvalidateDetailOf, QueryForgotten, DetailForgotten;
    var context, g := c.login.value, c.operationGeneration + 1;
    WriteCalled(c, id);
    var called, invalid := Apply(c, Writing(id, true)), InvalidateDetailOf(InvalidateUpcoming(c), id);
    WriteInvalidates(c, id);
    LastResumed(called, c.frames, InvalidateDetail(context, id), true);
    LastResumed(ResumeLast(called, true), c.frames, StartWrite(context, id), true);
    var started := ResumeLast(ResumeLast(called, true), true);
    LastResumed(started, c.frames, SendWrite(context, g, id), true);
    asked := ResumeLast(started, true);
    assert asked == invalid.(operationGeneration := g, writes := c.writes[id := g], requests := asked.requests);
    SameForgotten(c, id, invalid, asked);
  }

  lemma WriteCalled(c: Controller, id: string)
    requires c.login.Some? && c.login.value.userId != "" && id !in c.writes
    ensures var called := Apply(c, Writing(id, true));
            && called.frames == c.frames + [InvalidateDetail(c.login.value, id)]
            && called.(frames := c.frames) == InvalidateUpcoming(c)
  {
  }

  lemma WriteInvalidates(c: Controller, id: string)
    ensures var d := InvalidateDetailOf(InvalidateUpcoming(c), id);
            && QueryForgotten(c, d) && DetailForgotten(c, id, d)
            && d == c.(upcoming := d.upcoming, upcomingGeneration := d.upcomingGeneration, detail := d.detail,
                       detailGeneration := d.detailGeneration)
  {
  }

  lemma SameForgotten(c: Controller, id: string, d: Controller, d': Controller)
    requires QueryForgotten(c, d) && DetailForgotten(c, id, d)
    requires d'.upcoming == d.upcoming && d'.upcomingGeneration == d.upcomingGeneration
    requires d'.detail == d.detail && d'.detailGeneration == d.detailGeneration
    ensures QueryForgotten(c, d') && DetailForgotten(c, id, d')
  {
  }

  /** What is left to do once a write is no longer under way. */
  function Settling(c: Controller, ok: bool): Controller {
    if !ok then c
    else if c.writes != map[] || c.booking.Some? then c.(pending := true)
    else Apply(c, Refreshing(false, true))
  }

  /**
   The answer to a write: it is no longer under way. After the cancellation of the meeting on show its detail is
   cleared; a success, and only that, has the upcoming list refreshed as soon as no write is under way.
   */
  lemma CancelFlow(c: Controller, id: string, g: nat, ok: bool, meetings: seq<Record>, record: Record)
    requires c.login.Some? && id in c.writes && c.writes[id] == g && !c.pending
    requires WriteRequest(c.login.value, g, id) in c.requests
    ensures var answered := Apply(c, Answered(WriteRequest(c.login.value, g, id), ok, meetings, record, true));
            var done := c.(writes := c.writes - {id});
            && |answered.frames| == |c.frames| + 1
            && if ok && c.detail.id == id then
                 var cleared := done.(detailGeneration := c.detailGeneration + 1, detail := NO_DETAIL);
                 && Apply(done, Clearing) == cleared
                 && |ResumeLast(answered, true).frames| == |c.frames| + 1
                 && ResumeLast(ResumeLast(answered, true), true) == Settling(cleared, true)
               else ResumeLast(answered, true) == Settling(done, ok)
  {
    hide Refresh;
    var context := c.login.value;
    var answered := Apply(c, Answered(WriteRequest(context, g, id), ok, meetings, record, true));
    if ok && c.detail.id == id {
      LastResumed(answered, c.frames, DetailCleared(context), true);
      LastResumed(ResumeLast(answered, true), c.frames, Settle(context), true);
    } else {
      LastResumed(answered, c.frames, Settle(context), true);
    }
  }

  /** The same of an update, after which the detail on show is loaded again. */
  lemma UpdateFlow(c: Controller, id: string, g: nat, ok: bool, meetings: seq<Record>, record: Record)
    requires c.login.Some? && id in c.writes && c.writes[id] == g && !c.pending
    requires WriteRequest(c.login.value, g, id) in c.requests
    ensures var answered := Apply(c, Answered(WriteRequest(c.login.value, g, id), ok, meetings, record, false));
            var done := c.(writes := c.writes - {id});
            && |answered.frames| == |c.frames| + 1
            && if !ok then ResumeLast(answered, true) == done
               else
                 var pending := done.(pending := true);
                 var loaded := if c.detail.id == id then Apply(pending, Opening(id, true)) else pending;
                 ResumeLast(answered, true) == loaded.(frames := loaded.frames + [Settle(c.login.value)])
  {
    hide LoadDetail;
    var context := c.login.value;
    var answered := Apply(c, Answered(WriteRequest(context, g, id), ok, meetings, record, false));
    LastResumed(answered, c.frames, if ok then Updated(context, id) else Settle(context), true);
  }

  /** What waits for the writes to settle refreshes the list then, and only then. */
  lemma SettleMeaning(c: Controller, frames: seq<Frame>, context: Context)
    requires c.frames == frames + [Settle(context)] && c.pending
    ensures var rest := c.(frames := frames);
            ResumeLast(c, true)
            == if c.login == Some(context) && c.booking.None? && c.writes == map[]
               then Apply(rest.(pending := false), Refreshing(false, true)) else rest
    ensures SettleWrites(c.(frames := frames), context, true) == ResumeLast(c, true)
  {
    hide Refresh;
    LastResumed(c, frames, Settle(context), true);
  }

  // ----- Accounts -----

  /**
   A change of account forgets both lists, the detail, the active meeting, and all writes; no answer of the old account
   counts any more. Logged in again, both lists are queried, the upcoming ones first.
   */
  lemma AccountMeaning(c: Controller, login: Option<Context>, reload: bool)
    ensures var c' := Apply(c, Account(login, reload));
            && c'.login == login && c'.upcoming == NO_LIST && c'.history == NO_LIST && c'.detail == NO_DETAIL
            && c'.active.None? && c'.booking.None? && c'.writes == map[] && !c'.pending && c'.requests == c.requests
            && c'.upcomingGeneration > c.upcomingGeneration && c'.historyGeneration > c.historyGeneration
            && c'.detailGeneration > c.detailGeneration && c'.operationGeneration > c.operationGeneration
            && (if !reload then c'.frames == c.frames
                else
                  && c'.frames == c.frames + [ReloadUpcoming]
                  && (login.Some? ==>
                        var upcoming := Apply(c'.(frames := c.frames), Refreshing(false, true));
                        && ResumeLast(c', true) == upcoming.(frames := upcoming.frames + [ReloadHistory])
                        && ResumeLast(ResumeLast(c', true), true) == Apply(upcoming, Refreshing(true, true)))
                  && (login.None? ==> ResumeLast(c', true) == c'.(frames := c.frames)))
  {
    hide Refresh;
    var c' := Apply(c, Account(login, reload));
    if reload {
      LastResumed(c', c.frames, ReloadUpcoming, true);
      if login.Some? {
        var upcoming := Apply(c'.(frames := c.frames), Refreshing(false, true));
        LoginStays(c'.(frames := c.frames));
        LastResumed(ResumeLast(c', true), upcoming.frames, ReloadHistory, true);
      }
    }
  }

  lemma LoginStays(c: Controller)
    ensures Refresh(c, false, true).login == c.login
  {
  }
}
