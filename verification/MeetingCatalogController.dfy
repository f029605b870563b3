/** The meeting catalog controller as an object, each operation up to the next signal it emits. */
module MeetingCatalogController {
  import opened Options
  import opened Spec = MeetingCatalog

  lemma NextKept(meetings: seq<Record>, i: nat, id: string, userId: string)
    requires i < |meetings|
    ensures var m := meetings[i];
            && WithoutMeeting(meetings[i..], id) == (if m.id == id then [] else [m])
              + WithoutMeeting(meetings[i + 1..], id)
            && ShownOf(meetings[i..], userId) == (if Shown(m, userId) then [m] else [])
              + ShownOf(meetings[i + 1..], userId)
  {
    hide Shown;
    assert meetings[i..][1..] == meetings[i + 1..];
  }

  lemma NoneKept(id: string, userId: string)
    ensures WithoutMeeting([], id) == [] && ShownOf([], userId) == []
  {
  }

  class MeetingCatalogController {
    var login: Option<Context>
    var upcoming: ListView
    var history: ListView
    var detail: DetailView
    var active: Option<ActiveMeeting>
    var upcomingGeneration: nat
    var historyGeneration: nat
    var detailGeneration: nat
    var operationGeneration: nat
    var booking: Option<nat>
    var writes: map<string, nat>
    var pending: bool
    var frames: seq<Frame>
    var requests: set<Request>

    function View(): Controller
      reads this
    {
      Controller(login, upcoming, history, detail, active, upcomingGeneration, historyGeneration, detailGeneration,
                 operationGeneration, booking, writes, pending, frames, requests)
    }

    constructor (login: Option<Context>)
      ensures View() == Initial(login)
    {
      this.login, upcoming, history, detail, active := login, NO_LIST, NO_LIST, NO_DETAIL, None;
      upcomingGeneration, historyGeneration, detailGeneration, operationGeneration := 0, 0, 0, 0;
      booking, writes, pending, frames, requests := None, map[], false, [], {};
    }

    /** projectUpcomingMeetings: the active meeting moves to the end, then other hosts' meetings in progress go. */
    method ProjectUpcomingMeetings(meetings: seq<Record>, userId: string) returns (projected: seq<Record>)
      ensures projected == ProjectUpcoming(View(), meetings, userId)
    {
      hide Shown;
      projected := meetings;
      if active.Some? && login == Some(active.value.context) {
        var live := active.value.meeting;
        var existing := FindMeeting(projected, live.id);
        var merged := if existing < |projected| then Merge(projected[existing], live) else live;
        projected := RemoveMeeting(projected, live.id);
        projected := projected + [merged];
      }
      projected := RemoveHidden(projected, userId);
    }

    static method RemoveMeeting(meetings: seq<Record>, id: string) returns (kept: seq<Record>)
      ensures kept == WithoutMeeting(meetings, id)
    {
      hide WithoutMeeting;
      kept := [];
      for i := 0 to |meetings|
        invariant kept + WithoutMeeting(meetings[i..], id) == WithoutMeeting(meetings, id)
      {
        NextKept(meetings, i, id, "");
        if meetings[i].id != id { kept := kept + [meetings[i]]; }
      }
      NoneKept(id, "");
    }

    static method RemoveHidden(meetings: seq<Record>, userId: string) returns (kept: seq<Record>)
      ensures kept == ShownOf(meetings, userId)
    {
      hide ShownOf, Shown;
      kept := [];
      for i := 0 to |meetings|
        invariant kept + ShownOf(meetings[i..], userId) == ShownOf(meetings, userId)
      {
        NextKept(meetings, i, "", userId);
        if Shown(meetings[i], userId) { kept := kept + [meetings[i]]; }
      }
      NoneKept("", userId);
    }

    /** startListQuery */
    method StartListQuery(past: bool, available: bool)
      modifies this
      ensures View() == Refresh(old(View()), past, available)
    {
      if login.None? || login.value.userId == "" || !available {
        if past { history := NO_LIST.(state := Error); } else { upcoming := NO_LIST.(state := Error); }
        return;
      }
      var generation: nat;
      if past {
        historyGeneration := historyGeneration + 1;
        generation := historyGeneration;
        history := history.(refreshing := true);
        if !history.hasSnapshot { history := history.(state := Loading); }
      } else {
        upcomingGeneration := upcomingGeneration + 1;
        generation := upcomingGeneration;
        upcoming := upcoming.(refreshing := true);
        if !upcoming.hasSnapshot { upcoming := upcoming.(state := Loading); }
      }
      frames := frames + [SendList(past, login.value, generation)];
    }

    /** The callback of a list query. */
    method ListAnswered(past: bool, context: Context, generation: nat, ok: bool, meetings: seq<Record>)
      modifies this
      ensures View() == OnList(old(View()), past, context, generation, ok, meetings)
    {
      hide ProjectUpcoming;
      if login != Some(context) || (if past then historyGeneration else upcomingGeneration) != generation { return; }
      var view := if past then history else upcoming;
      if ok {
        var shown := meetings;
        if !past { shown := ProjectUpcomingMeetings(meetings, context.userId); }
        view := ListView(if shown == [] then Empty else Ready, false, true, shown);
      } else if view.hasSnapshot {
        view := view.(refreshing := false, state := if view.meetings == [] then Empty else Ready);
      } else {
        view := ListView(Error, false, false, []);
      }
      if past {
        historyGeneration, history := historyGeneration + 1, view;
      } else {
        upcomingGeneration, upcoming := upcomingGeneration + 1, view;
      }
    }

    method LoadMeetingDetail(id: string, available: bool)
      modifies this
      ensures View() == LoadDetail(old(View()), id, available)
    {
      if id == "" || login.None? || login.value.userId == "" || !available {
        detail := NO_DETAIL.(id := id, state := Error);
        return;
      }
      detailGeneration := detailGeneration + 1;
      if detail.id != id { detail := NO_DETAIL; }
      detail := detail.(id := id, refreshing := true);
      if !detail.hasSnapshot { detail := detail.(state := LoadState.Loading); }
      frames := frames + [SendDetail(login.value, detailGeneration, id)];
    }

    method DetailAnswered(context: Context, generation: nat, id: string, ok: bool, record: Record)
      modifies this
      ensures View() == OnDetail(old(View()), context, generation, id, ok, record)
    {
      if login != Some(context) || detailGeneration != generation || detail.id != id { return; }
      detailGeneration := detailGeneration + 1;
      detail := detail.(refreshing := false);
      if ok && record.id == id {
        detail := detail.(detail := Some(record), hasSnapshot := true, state := Ready);
      } else if ok {
        detail := detail.(state := if detail.hasSnapshot then Ready else Error);
      } else if detail.hasSnapshot {
        detail := detail.(state := Ready);
      } else {
        detail := detail.(state := Error, detail := None);
      }
    }

    method ClearMeetingDetail()
      modifies this
      ensures View() == ClearDetail(old(View()))
    {
      detailGeneration := detailGeneration + 1;
      detail := NO_DETAIL;
    }

    method SetActiveMeeting(meeting: Record)
      modifies this
      ensures View() == SetActive(old(View()), meeting)
    {
      hide ProjectUpcoming;
      if login.None? || login.value.userId == "" || meeting.id == "" || meeting.status != InProgress { return; }
      active := Some(ActiveMeeting(login.value, meeting));
      var shown := ProjectUpcomingMeetings(upcoming.meetings, login.value.userId);
      assert shown == ProjectUpcoming(old(View()).(active := active), old(upcoming).meetings, login.value.userId);
      upcomingGeneration := upcomingGeneration + 1;
      upcoming := ListView(if shown == [] then Empty else Ready, false, true, shown);
    }

    method ClearActiveMeeting()
      modifies this
      ensures View() == ClearActive(old(View()))
    {
      if active.None? { return; }
      active := None;
      InvalidateUpcomingQuery();
    }

    method InvalidateUpcomingQuery()
      modifies this
      ensures View() == InvalidateUpcoming(old(View()))
    {
      upcomingGeneration := upcomingGeneration + 1;
      if !upcoming.refreshing { return; }
      upcoming := upcoming.(refreshing := false,
                            state := if !upcoming.hasSnapshot then Idle
                                     else if upcoming.meetings == [] then Empty else Ready);
    }

    method InvalidateDetailQuery(id: string)
      modifies this
      ensures View() == InvalidateDetailOf(old(View()), id)
    {
      if detail.id != id { return; }
      detailGeneration := detailGeneration + 1;
      if !detail.refreshing { return; }
      detail := detail.(refreshing := false, state := if detail.hasSnapshot then Ready else Idle);
    }

    method BookMeeting(acceptable: bool)
      modifies this
      ensures View() == Book(old(View()), acceptable)
    {
      if !acceptable || login.None? || login.value.userId == "" || booking.Some? { return; }
      InvalidateUpcomingQuery();
      frames := frames + [StartBooking(login.value)];
    }

    method BookingAnswered(context: Context, generation: nat, ok: bool)
      modifies this
      ensures View() == OnBooked(old(View()), context, generation, ok)
    {
      if login != Some(context) || booking != Some(generation) { return; }
      booking := None;
      if ok { pending := true; }
      frames := frames + [Settle(context)];
    }

    /** updateMeeting and cancelMeeting */
    method WriteMeeting(id: string, acceptable: bool)
      modifies this
      ensures View() == Write(old(View()), id, acceptable)
    {
      if !acceptable || login.None? || login.value.userId == "" || id in writes { return; }
      InvalidateUpcomingQuery();
      frames := frames + [InvalidateDetail(login.value, id)];
    }

    method WriteAnswered(context: Context, generation: nat, id: string, cancel: bool, ok: bool)
      modifies this
      ensures View() == OnWritten(old(View()), context, generation, id, cancel, ok)
    {
      if login != Some(context) || (if id in writes then writes[id] else 0) != generation { return; }
      writes := writes - {id};
      if ok { pending := true; }
      if cancel && ok && detail.id == id {
        ClearMeetingDetail();
        frames := frames + [DetailCleared(context)];
      } else if !cancel && ok {
        frames := frames + [Updated(context, id)];
      } else {
        frames := frames + [Settle(context)];
      }
    }

    method RefreshUpcomingWhenWritesSettle(context: Context, available: bool)
      modifies this
      ensures View() == SettleWrites(old(View()), context, available)
    {
      if !pending || booking.Some? || writes != map[] || login != Some(context) { return; }
      pending := false;
      StartListQuery(false, available);
    }

    method ForgetViews()
      modifies this`upcoming, this`history, this`detail, this`active, this`upcomingGeneration, this`historyGeneration,
               this`detailGeneration
      ensures View() == old(View()).(upcoming := NO_LIST, history := NO_LIST, detail := NO_DETAIL, active := None,
                                     upcomingGeneration := old(upcomingGeneration) + 1,
                                     historyGeneration := old(historyGeneration) + 1,
                                     detailGeneration := old(detailGeneration) + 1)
    {
      upcomingGeneration := upcomingGeneration + 1;
      historyGeneration := historyGeneration + 1;
      detailGeneration := detailGeneration + 1;
      active := None;
      upcoming := NO_LIST;
      history := NO_LIST;
      detail := NO_DETAIL;
    }

    method ForgetWrites()
      modifies this`operationGeneration, this`booking, this`writes, this`pending
      ensures View() == old(View()).(operationGeneration := old(operationGeneration) + 1, booking := None,
                                     writes := map[],
                                     pending := false)
    {
      operationGeneration := operationGeneration + 1;
      booking := None;
      writes := map[];
      pending := false;
    }

    method HandleAccountChange(account: Option<Context>, reload: bool)
      modifies this
      ensures View() == ChangeAccount(old(View()), account, reload)
    {
      login := account;
      ForgetViews();
      ForgetWrites();
      if reload { frames := frames + [ReloadUpcoming]; }
    }

    /** The request an operation still has to send, if it is still wanted. */
    method ContinueSending(f: Frame, available: bool)
      requires f.SendList? || f.SendDetail? || f.SendBooking? || f.SendWrite?
      modifies this`requests
      ensures View() == Resume(old(View()), f, available)
    {
      match f
      case SendList(past, context, generation) =>
        if login == Some(context) && (if past then historyGeneration else upcomingGeneration) == generation {
          requests := requests + {ListRequest(past, context, generation)};
        }
      case SendDetail(context, generation, id) =>
        if login == Some(context) && detailGeneration == generation {
          requests := requests + {DetailRequest(context, generation, id)};
        }
      case SendBooking(context, generation) =>
        if login == Some(context) && booking == Some(generation) {
          requests := requests + {BookingRequest(context, generation)};
        }
      case SendWrite(context, generation, id) =>
        if login == Some(context) && (if id in writes then writes[id] else 0) == generation {
          requests := requests + {WriteRequest(context, generation, id)};
        }
    }

    /** A write that has invalidated what it changes, up to its next signal. */
    method ContinueWriting(f: Frame, available: bool)
      requires f.StartBooking? || f.InvalidateDetail? || f.StartWrite?
      modifies this
      ensures View() == Resume(old(View()), f, available)
    {
      hide InvalidateDetailOf;
      match f
      case StartBooking(context) =>
        operationGeneration := operationGeneration + 1;
        booking := Some(operationGeneration);
        frames := frames + [SendBooking(context, operationGeneration)];
      case InvalidateDetail(context, id) =>
        InvalidateDetailQuery(id);
        frames := frames + [StartWrite(context, id)];
      case StartWrite(context, id) =>
        operationGeneration := operationGeneration + 1;
        writes := writes[id := operationGeneration];
        frames := frames + [SendWrite(context, operationGeneration, id)];
    }

    /** What follows an answered write, or a change of account. */
    method ContinueSettling(f: Frame, available: bool)
      requires f.Updated? || f.DetailCleared? || f.Settle? || f.ReloadUpcoming? || f.ReloadHistory?
      modifies this
      ensures View() == Resume(old(View()), f, available)
    {
      hide Refresh, LoadDetail, SettleWrites;
      match f
      case Updated(context, id) =>
        if login == Some(context) {
          if id !in writes && detail.id == id { LoadMeetingDetail(id, available); }
          frames := frames + [Settle(context)];
        }
      case DetailCleared(context) => if login == Some(context) { frames := frames + [Settle(context)]; }
      case Settle(context) => if login == Some(context) { RefreshUpcomingWhenWritesSettle(context, available); }
      case ReloadUpcoming =>
        if login.Some? {
          StartListQuery(false, available);
          frames := frames + [ReloadHistory];
        }
      case ReloadHistory => if login.Some? { StartListQuery(true, available); }
    }

    /** An operation goes on once the event loop inside its signal has returned. */
    method Continue(i: nat, available: bool)
      requires i < |frames|
      modifies this
      ensures View() == Apply(old(View()), Resuming(i, available))
    {
      hide Resume;
      var f := frames[i];
      frames := frames[..i] + frames[i + 1..];
      if f.SendList? || f.SendDetail? || f.SendBooking? || f.SendWrite? {
        ContinueSending(f, available);
      } else if f.StartBooking? || f.InvalidateDetail? || f.StartWrite? {
        ContinueWriting(f, available);
      } else {
        ContinueSettling(f, available);
      }
    }
  }
}
