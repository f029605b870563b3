/** The receiver's callbacks as they run: the tables of the strand and of the Qt thread, updated in place. */
module InboundMedia {
  import opened Options
  import opened MediaKeys
  import opened MediaSlices
  import T = MediaTransfer
  import opened MediaReceiver

  /** std::min_element over the records, by when they expire. */
  method OldestRecord(ts: Terminals) returns (oldest: string)
    requires |ts| > 0
    ensures Oldest(ts, oldest)
  {
    oldest :| oldest in ts;
    var rest := ts.Keys - {oldest};
    while rest != {}
      invariant oldest in ts && rest <= ts.Keys
      invariant forall id :: id in ts && id !in rest ==> ts[oldest].expiresAt <= ts[id].expiresAt
      decreases |rest|
    {
      var id :| id in rest;
      if ts[id].expiresAt < ts[oldest].expiresAt { oldest := id; }
      rest := rest - {id};
    }
  }

  /** The loop that joins the chunks in order; every index it asks for is there. */
  method JoinChunks(t: T.Transfer) returns (text: string)
    requires T.TransferOk(t) && |t.chunks| == t.meta.totalChunks
    ensures text == T.Joined(t)
  {
    Pigeonhole(t.chunks, t.meta.totalChunks);
    text := "";
    for index := 0 to t.meta.totalChunks
      invariant text == Join(t.chunks, index)
    {
      text := text + t.chunks[index];
    }
  }

  /** The loop that collects the missing indices of a request. */
  method MissingChunks(t: T.Transfer) returns (missing: seq<nat>)
    requires T.TransferOk(t)
    ensures missing == Wanted(t)
  {
    missing := [];
    var index := 0;
    while index < t.meta.totalChunks && |missing| < RECOVERY_BATCH
      invariant 0 <= index <= t.meta.totalChunks && |missing| <= RECOVERY_BATCH
      invariant missing + MissingFrom(t.chunks, index, t.meta.totalChunks, RECOVERY_BATCH - |missing|)
             == MissingFrom(t.chunks, 0, t.meta.totalChunks, RECOVERY_BATCH)
    {
      if index !in t.chunks { missing := missing + [index]; }
      index := index + 1;
    }
    if missing == [] { missing := [t.meta.totalChunks - 1]; }
  }

  /** One record remembered is one record of a callback. */
  lemma OneRemembered(ts: Terminals, record: Terminal, ts': Terminals)
    requires Evicted(ts[RecordId(record) := record], ts')
    ensures Remembered(ts, [record], ts')
  {
    hide Evicted;
    assert [record][..|[record]| - 1] == [];
    assert Remembered(ts, [], ts);
  }

  lemma {:induction false} PostsPush(k: Key, sender: ParticipantKey, messages: seq<T.QtMessage>, m: T.QtMessage)
    ensures Posts(k, sender, messages + [m]) == Posts(k, sender, messages) + [Post(k, sender, m)]
  {
    if messages == [] {
      assert [] + [m] == [m];
      assert [m][1..] == [];
    } else {
      assert (messages + [m])[1..] == messages[1..] + [m];
      PostsPush(k, sender, messages[1..], m);
    }
  }

  /** The table when the pass has come as far as `done`. */
  function PartlyDecided(transfers: map<Key, T.Transfer>, done: seq<Key>, force: bool, now: int, roster: Roster)
    : map<Key, T.Transfer>
    requires forall k :: k in transfers ==> T.TransferOk(transfers[k])
  {
    map k | k in transfers ::
      if k in done then Decided(transfers[k], Decide(transfers[k], force, now, roster), now) else transfers[k]
  }

  lemma AllDecided(transfers: map<Key, T.Transfer>, order: seq<Key>, force: bool, now: int, roster: Roster)
    requires (forall k :: k in transfers ==> T.TransferOk(transfers[k])) && Iterates(order, transfers.Keys)
    ensures PartlyDecided(transfers, order, force, now, roster)
         == map k | k in transfers :: Decided(transfers[k], Decide(transfers[k], force, now, roster), now)
  {
    hide Decide, Decided;
  }

  /** The request about one transfer, if there is one. */
  function AskOne(t: T.Transfer, key: Key, force: bool, now: int, roster: Roster): seq<Post>
    requires T.TransferOk(t)
  {
    var d := Decide(t, force, now, roster);
    if d.Ask? then [Post(key, t.owner, T.Request(d.missing))] else []
  }

  lemma RecoverStart(transfers: map<Key, T.Transfer>, force: bool, now: int, roster: Roster)
    requires forall k :: k in transfers ==> T.TransferOk(transfers[k])
    ensures PartlyDecided(transfers, [], force, now, roster) == transfers
    ensures Asks(transfers, [], force, now, roster) == [] && GivenUp(transfers, [], force, now, roster) == []
  {
  }

  /** What one more transfer changes in the table, and what it adds to the requests and the failures. */
  lemma DecidedNext(transfers: map<Key, T.Transfer>, order: seq<Key>, i: nat, force: bool, now: int, roster: Roster)
    requires (forall k :: k in transfers ==> T.TransferOk(transfers[k])) && Iterates(order, transfers.Keys)
    requires i < |order|
    ensures var done, key := PartlyDecided(transfers, order[..i], force, now, roster), order[i];
            && key in done && done[key] == transfers[key]
            && PartlyDecided(transfers, order[..i + 1], force, now, roster)
               == done[key := Decided(transfers[key], Decide(transfers[key], force, now, roster), now)]
  {
    hide Decide, Decided, T.TransferOk;
    assert order[..i + 1] == order[..i] + [order[i]];
    assert order[i] !in order[..i];
  }

  lemma AsksNext(transfers: map<Key, T.Transfer>, order: seq<Key>, i: nat, force: bool, now: int, roster: Roster)
    requires (forall k :: k in transfers ==> T.TransferOk(transfers[k])) && i < |order| && order[i] in transfers
    ensures Asks(transfers, order[..i + 1], force, now, roster)
         == Asks(transfers, order[..i], force, now, roster) + AskOne(transfers[order[i]], order[i], force, now, roster)
    ensures GivenUp(transfers, order[..i + 1], force, now, roster)
         == GivenUp(transfers, order[..i], force, now, roster)
            + (if Decide(transfers[order[i]], force, now, roster).GiveUp? then [order[i]] else [])
  {
    hide Decide, T.TransferOk;
    assert order[..i + 1][..i] == order[..i];
  }

  lemma AskWanted(t: T.Transfer, force: bool, now: int, roster: Roster)
    requires T.TransferOk(t)
    ensures var d := Decide(t, force, now, roster); d.Ask? ==> d.missing == Wanted(t)
  {
  }

  /** Some transfers failed, one after the other. */
  ghost predicate FailsAll(w: Receiver, failures: seq<Key>, now: int, w': Receiver)
    decreases |failures|
  {
    if failures == [] then w' == w
    else
      var earlier, last := failures[..|failures| - 1], failures[|failures| - 1];
      exists mid: Receiver :: FailsAll(w, earlier, now, mid) && Follows(OnFail(mid, last, now), w')
  }

  /** The table when a cancellation has come as far as `done`. */
  function PartlyCancelled(transfers: map<Key, T.Transfer>, done: seq<Key>, sender: ParticipantKey)
    : map<Key, T.Transfer>
  {
    map k | k in transfers && !(k in done && transfers[k].owner == sender) :: transfers[k]
  }

  lemma CancelStart(transfers: map<Key, T.Transfer>, sender: ParticipantKey, now: int)
    ensures PartlyCancelled(transfers, [], sender) == transfers && RecordsOf(transfers, [], sender, now) == []
  {
  }

  lemma CancelNext(transfers: map<Key, T.Transfer>, order: seq<Key>, i: nat, sender: ParticipantKey, now: int)
    requires Iterates(order, transfers.Keys) && i < |order|
    ensures var done, key := PartlyCancelled(transfers, order[..i], sender), order[i];
            var own := transfers[key].owner == sender;
            && key in done && done[key] == transfers[key]
            && PartlyCancelled(transfers, order[..i + 1], sender) == (if own then done - {key} else done)
            && RecordsOf(transfers, order[..i + 1], sender, now)
               == (if own then RecordsOf(transfers, order[..i], sender, now) + [RecordOf(key, sender, now)]
                   else RecordsOf(transfers, order[..i], sender, now))
  {
    assert order[..i + 1] == order[..i] + [order[i]] && order[..i + 1][..i] == order[..i];
    assert order[i] !in order[..i];
  }

  lemma AllCancelled(transfers: map<Key, T.Transfer>, order: seq<Key>, sender: ParticipantKey)
    requires Iterates(order, transfers.Keys)
    ensures PartlyCancelled(transfers, order, sender)
         == map k | k in transfers && transfers[k].owner != sender :: transfers[k]
  {
  }

  /** The ledger when a cancellation has come as far as `done`. */
  function PartlyErased(ledger: map<string, Entry>, done: seq<string>, session: nat, sender: ParticipantKey)
    : map<string, Entry>
  {
    map id | id in ledger && !(id in done && Belongs(ledger[id].key, session, sender)) :: ledger[id]
  }

  lemma EraseStart(ledger: map<string, Entry>, session: nat, sender: ParticipantKey)
    ensures PartlyErased(ledger, [], session, sender) == ledger && FailingOf(ledger, [], session, sender) == []
  {
  }

  lemma EraseNext(ledger: map<string, Entry>, ids: seq<string>, i: nat, session: nat, sender: ParticipantKey)
    requires Iterates(ids, ledger.Keys) && i < |ids|
    ensures var done, id := PartlyErased(ledger, ids[..i], session, sender), ids[i];
            var own := Belongs(ledger[id].key, session, sender);
            && id in done && done[id] == ledger[id]
            && PartlyErased(ledger, ids[..i + 1], session, sender) == (if own then done - {id} else done)
            && FailingOf(ledger, ids[..i + 1], session, sender)
               == (if own && !ledger[id].committed
                   then FailingOf(ledger, ids[..i], session, sender) + [Waiting(ledger[id].key, sender, T.Failing)]
                   else FailingOf(ledger, ids[..i], session, sender))
  {
    hide Belongs;
    assert ids[..i + 1] == ids[..i] + [ids[i]] && ids[..i + 1][..i] == ids[..i];
    assert ids[i] !in ids[..i];
  }

  lemma AllErased(ledger: map<string, Entry>, ids: seq<string>, session: nat, sender: ParticipantKey)
    requires Iterates(ids, ledger.Keys)
    ensures PartlyErased(ledger, ids, session, sender)
         == map id | id in ledger && !Belongs(ledger[id].key, session, sender) :: ledger[id]
  {
    hide Belongs;
  }

  lemma RememberedSnoc(ts: Terminals, records: seq<Terminal>, mid: Terminals, record: Terminal, ts': Terminals)
    requires Remembered(ts, records, mid) && Evicted(mid[RecordId(record) := record], ts')
    ensures Remembered(ts, records + [record], ts')
  {
    hide Evicted;
    assert (records + [record])[..|records + [record]| - 1] == records;
  }

  lemma RetryOk(t: T.Transfer)
    requires T.TransferOk(t)
    ensures T.TransferOk(t.(queued := false))
  {
  }

  class InboundMedia {
    const session: nat
    var accepting: bool
    var transfers: map<Key, T.Transfer>
    var terminals: Terminals
    var toStrand: seq<StrandPost>
    var toQt: seq<Post>
    var frames: seq<Waiting>
    var ledger: map<string, Entry>
    ghost var log: seq<Report>
    ghost var outbox: seq<Asked>

    ghost function View(): Receiver
      reads this
    {
      Receiver(session, accepting, transfers, terminals, toStrand, toQt, frames, ledger, log, outbox)
    }

    ghost predicate Valid()
      reads this
    {
      TransfersOk(View())
    }

    constructor (session: nat)
      ensures Valid() && View() == Initial(session)
    {
      this.session := session;
      accepting, transfers, terminals := true, map[], map[];
      toStrand, toQt, frames, ledger, log, outbox := [], [], [], map[], [], [];
    }

    /** RememberMediaTerminal */
    method RememberTerminal(record: Terminal)
      modifies this`terminals
      ensures Evicted(old(terminals)[RecordId(record) := record], terminals)
    {
      terminals := terminals[RecordId(record) := record];
      ghost var first := terminals;
      while |terminals| > MAXIMUM_TERMINALS
        invariant forall ts: Terminals :: Evicted(terminals, ts) ==> Evicted(first, ts)
        decreases |terminals|
      {
        var oldest := OldestRecord(terminals);
        ghost var before := terminals;
        terminals := terminals - {oldest};
        assert before.Keys == terminals.Keys + {oldest};
        assert forall ts: Terminals :: Evicted(terminals, ts) ==> Evicted(before, ts);
      }
      assert Evicted(terminals, terminals);
    }

    /** failInboundMediaTransferOnStrand */
    method Fail(key: Key, now: int)
      requires Valid()
      modifies this
      ensures Valid() && Follows(OnFail(old(View()), key, now), View())
    {
      hide T.TransferOk, CompletionId, Evicted;
      if key !in transfers { return; }
      var sender := transfers[key].owner;
      ghost var before := terminals;
      RememberTerminal(RecordOf(key, sender, now));
      OneRemembered(before, RecordOf(key, sender, now), terminals);
      transfers := transfers - {key};
      toQt := toQt + [Post(key, sender, T.Fail)];
    }

    /** One transfer of the recovery's pass. */
    method RecoverOne(key: Key, force: bool, now: int, roster: Roster) returns (gaveUp: bool)
      requires Valid() && key in transfers
      modifies this`transfers, this`toQt
      ensures Valid() && var t := old(transfers[key]);
                         && transfers == old(transfers)[key := Decided(t, Decide(t, force, now, roster), now)]
                         && toQt == old(toQt) + AskOne(t, key, force, now, roster)
                         && gaveUp == Decide(t, force, now, roster).GiveUp?
    {
      var t := transfers[key];
      var decision := Decide(t, force, now, roster);
      transfers := transfers[key := Decided(t, decision, now)];
      if decision.Ask? {
        var missing := MissingChunks(t);
        AskWanted(t, force, now, roster);
        toQt := toQt + [Post(key, t.owner, T.Request(missing))];
      }
      gaveUp := decision.GiveUp?;
    }

    /**
     The first pass of processMediaRecovery: drop expired records, ask for what is missing, collect what has
     failed.
     */
    method Recover(force: bool, now: int, roster: Roster, order: seq<Key>) returns (failures: seq<Key>)
      requires Valid() && Iterates(order, transfers.Keys)
      modifies this
      ensures Valid() && View() == OnRecover(old(View()), force, now, roster, order).state
      ensures failures == if old(accepting) then GivenUp(old(transfers), order, force, now, roster) else []
    {
      hide Decide, Decided, T.TransferOk, Asks, GivenUp, PartlyDecided, AskOne;
      failures := [];
      if !accepting { return; }
      DropExpired(now);
      ghost var before := transfers;
      RecoverStart(before, force, now, roster);
      for i := 0 to |order|
        invariant Valid()
        invariant View() == old(View()).(terminals := Unexpired(old(terminals), now), transfers := transfers,
                                         toQt := toQt)
        invariant transfers == PartlyDecided(before, order[..i], force, now, roster)
        invariant toQt == old(toQt) + Asks(before, order[..i], force, now, roster)
        invariant failures == GivenUp(before, order[..i], force, now, roster)
      {
        DecidedNext(before, order, i, force, now, roster);
        AsksNext(before, order, i, force, now, roster);
        var gaveUp := RecoverOne(order[i], force, now, roster);
        if gaveUp { failures := failures + [order[i]]; }
      }
      assert order[..|order|] == order;
      AllDecided(before, order, force, now, roster);
    }

    /** The loop that erases expired records. */
    method DropExpired(now: int)
      modifies this`terminals
      ensures terminals == Unexpired(old(terminals), now)
    {
      var rest := terminals.Keys;
      while rest != {}
        invariant rest <= terminals.Keys <= old(terminals).Keys
        invariant forall id :: id in terminals ==> terminals[id] == old(terminals)[id]
        invariant forall id :: id in old(terminals) && id !in rest ==>
                    (id in terminals <==> old(terminals)[id].expiresAt > now)
        decreases |rest|
      {
        var id :| id in rest;
        rest := rest - {id};
        if terminals[id].expiresAt <= now { terminals := terminals - {id}; }
      }
    }

    /** processMediaRecovery on the strand. */
    method ProcessRecovery(force: bool, now: int, roster: Roster, order: seq<Key>)
      requires Valid() && Iterates(order, transfers.Keys)
      modifies this
      ensures Valid()
      ensures FailsAll(OnRecover(old(View()), force, now, roster, order).state,
                       if old(accepting) then GivenUp(old(transfers), order, force, now, roster) else [], now, View())
    {
      hide OnRecover, GivenUp, OnFail, T.TransferOk;
      var failures := Recover(force, now, roster, order);
      ghost var w := View();
      for i := 0 to |failures|
        invariant Valid() && FailsAll(w, failures[..i], now, View())
      {
        assert failures[..i + 1][..i] == failures[..i];
        Fail(failures[i], now);
      }
      assert failures[..|failures|] == failures;
    }

    /** The strand's part of cancelInboundTransfersForParticipant. */
    method Cancel(sender: ParticipantKey, now: int, order: seq<Key>)
      requires Valid() && Iterates(order, transfers.Keys)
      modifies this
      ensures Valid() && Follows(OnCancel(old(View()), sender, now, order), View())
    {
      hide T.TransferOk, CompletionId, Evicted, PartlyCancelled, RecordsOf, Remembered, RecordOf, RecordId;
      NothingRemembered(terminals);
      CancelStart(transfers, sender, now);
      if !accepting { return; }
      ghost var before := transfers;
      for i := 0 to |order|
        invariant Valid() && View() == old(View()).(terminals := terminals, transfers := transfers)
        invariant transfers == PartlyCancelled(before, order[..i], sender)
        invariant Remembered(old(terminals), RecordsOf(before, order[..i], sender, now), terminals)
      {
        CancelNext(before, order, i, sender, now);
        if transfers[order[i]].owner == sender {
          ghost var records, mid := RecordsOf(before, order[..i], sender, now), terminals;
          RememberTerminal(RecordOf(order[i], sender, now));
          RememberedSnoc(old(terminals), records, mid, RecordOf(order[i], sender, now), terminals);
          transfers := transfers - {order[i]};
        }
      }
      assert order[..|order|] == order;
      AllCancelled(before, order, sender);
      toQt := toQt + [PostCancel(sender)];
    }

    /** What the Qt thread posted back: a refused delivery, or a committed one. */
    method HandleStrandPost(now: int)
      requires Valid() && toStrand != []
      modifies this
      ensures Valid()
      ensures Follows(OnStrandPost(old(View()).(toStrand := old(toStrand)[1..]), old(toStrand)[0], now), View())
    {
      hide T.TransferOk, CompletionId, Evicted;
      var post := toStrand[0];
      toStrand := toStrand[1..];
      match post.message
      case Retry =>
        if post.key in transfers {
          transfers := transfers[post.key := transfers[post.key].(queued := false)];
          assert T.TransferOk(transfers[post.key]) by { RetryOk(old(transfers)[post.key]); }
        }
      case Commit =>
        if accepting {
          transfers := transfers - {post.key};
          ghost var before := terminals;
          RememberTerminal(RecordOf(post.key, post.sender, now));
          OneRemembered(before, RecordOf(post.key, post.sender, now), terminals);
          toQt := toQt + [Post(post.key, post.sender, T.Acknowledge)];
        }
    }

    // The callbacks of the Qt thread, each up to its first signal that may run a nested event loop.

    method Report(key: Key, signal: T.Signal)
      modifies this`log
      ensures View() == Emit(old(View()), key, signal)
    {
      log := log + [MediaReceiver.Report(UiTransferId(key), signal)];
    }

    /** The callback of a request: it is published to its sender, or dropped; a later pass asks again. */
    method PublishRequest(key: Key, sender: ParticipantKey, missing: seq<nat>, view: QtView)
      modifies this`outbox
      ensures outbox == old(outbox) + (if MayAsk(view, sender) && HasEntry(View(), key, false)
                                       then [Asked(key, sender.identity, missing)] else [])
    {
      hide UiTransferId;
      if !view.session || !view.meeting.room || !view.meeting.phase.InMeeting? || view.meeting.recovering
         || sender !in view.tickets { return; }
      var id := UiTransferId(key);
      if id !in ledger || ledger[id].committed || ledger[id].key != key { return; }
      if sender.identity !in view.participants || view.participants[sender.identity] != sender { return; }
      if view.transport { outbox := outbox + [Asked(key, sender.identity, missing)]; }
    }

    /** The callback of one transfer's message. */
    method HandleTransferPost(key: Key, sender: ParticipantKey, m: T.QtMessage, view: QtView)
      modifies this
      ensures View() == OnTransferPost(old(View()), key, sender, m, view)
    {
      hide UiTransferId;
      var id := UiTransferId(key);
      var current := view.session && sender in view.senders;
      var pending := id in ledger && ledger[id] == Entry(key, false);
      match m
      case Start =>
        if current && id !in ledger {
          ledger := ledger[id := Entry(key, false)];
          Report(key, T.Started);
        }
      case Progress(percent) =>
        if current && pending { Report(key, T.Progressed(percent)); }
      case Complete(data) =>
        if current && pending {
          frames := frames + [Waiting(key, sender, T.Delivering(data))];
          Report(key, T.Progressed(100));
        } else {
          toStrand := toStrand + [StrandPost(key, sender, T.Retry)];
        }
      case Fail =>
        if view.session && pending {
          ledger := ledger - {id};
          Report(key, T.Failed);
        }
      case Acknowledge =>
        if view.session && id in ledger && ledger[id] == Entry(key, true) { ledger := ledger - {id}; }
      case Request(missing) => PublishRequest(key, sender, missing, view);
      case Cancel =>
    }

    /** The Qt part of cancelInboundTransfersForParticipant: erase the sender's entries, collect the uncommitted. */
    method CancelEntries(sender: ParticipantKey, ids: seq<string>)
      requires Iterates(ids, ledger.Keys)
      modifies this`ledger, this`frames
      ensures ledger == map id | id in old(ledger) && !Belongs(old(ledger)[id].key, session, sender) :: old(ledger)[id]
      ensures frames == old(frames) + FailingOf(old(ledger), ids, session, sender)
    {
      hide FailingOf, Belongs, PartlyErased;
      ghost var before := ledger;
      var failing: seq<Waiting> := [];
      EraseStart(before, session, sender);
      for i := 0 to |ids|
        invariant ledger == PartlyErased(before, ids[..i], session, sender)
        invariant frames == old(frames) && failing == FailingOf(before, ids[..i], session, sender)
      {
        EraseNext(before, ids, i, session, sender);
        var entry := ledger[ids[i]];
        if Belongs(entry.key, session, sender) {
          if !entry.committed { failing := failing + [Waiting(entry.key, sender, T.Failing)]; }
          ledger := ledger - {ids[i]};
        }
      }
      assert ids[..|ids|] == ids;
      AllErased(before, ids, session, sender);
      frames := frames + failing;
    }

    method HandleQtPost(view: QtView, ids: seq<string>)
      requires toQt != [] && Iterates(ids, ledger.Keys)
      modifies this
      ensures View() == OnQtPost(old(View()).(toQt := old(toQt)[1..]), old(toQt)[0], view, ids)
    {
      var post := toQt[0];
      toQt := toQt[1..];
      match post
      case Post(key, sender, message) => HandleTransferPost(key, sender, message, view);
      case PostCancel(sender) => if view.session { CancelEntries(sender, ids); }
    }

    /** A callback goes on once the event loop inside its signal has returned. */
    method Resume(i: nat, view: QtView)
      requires i < |frames|
      modifies this
      ensures View() == OnFrame(old(View()).(frames := T.Without(old(frames), i)), old(frames)[i], view)
    {
      hide UiTransferId;
      var f := frames[i];
      frames := frames[..i] + frames[i + 1..];
      match f.frame
      case Delivering(data) =>
        var id := UiTransferId(f.key);
        if view.session && f.sender in view.senders && id in ledger && ledger[id] == Entry(f.key, false) {
          ledger := ledger[id := Entry(f.key, true)];
          toStrand := toStrand + [StrandPost(f.key, f.sender, T.Commit)];
          Report(f.key, T.Completed(data));
        } else {
          toStrand := toStrand + [StrandPost(f.key, f.sender, T.Retry)];
        }
      case Failing => if view.session { Report(f.key, T.Failed); }
    }

    /** The media part of handleDataReceivedOnSessionStrand. */
    method Receive(decode: T.Decoder, sender: ParticipantKey, revision: nat, p: T.Packet, now: int,
                   tickets: set<ParticipantKey>, active: bool)
      requires Valid()
      modifies this
      ensures Valid() && Follows(OnPacket(decode, old(View()), sender, revision, p, now, tickets, active), View())
    {
      hide T.TransferOk, CompletionId, Evicted, T.WellFormed, OnNewPacket;
      if !accepting || sender !in tickets || !T.WellFormed(p) { return; }
      var id := CompletionId(sender, revision, p.wireId);
      if id in terminals && terminals[id].expiresAt > now { return; }
      terminals := terminals - {id};
      ReceiveNew(decode, sender, revision, p, now, active);
    }

    method ReceiveNew(decode: T.Decoder, sender: ParticipantKey, revision: nat, p: T.Packet, now: int, active: bool)
      requires Valid() && T.WellFormed(p)
      modifies this
      ensures Valid() && Follows(OnNewPacket(decode, old(View()), sender, revision, p, now, active), View())
    {
      hide CompletionId, Evicted, Absorbed, T.Absorb;
      var key := Key(session, sender.generation, sender.incarnation, revision, p.wireId);
      if key !in transfers {
        if |transfers| >= MAXIMUM_TRANSFERS { return; }
        transfers := transfers[key := T.NewTransfer(p, sender, now)];
      }
      var t := transfers[key];
      if t.owner != sender || !active || t.meta != p.meta { return; }
      ghost var (t', messages) := T.Absorb(decode, t, p, now);
      AbsorbedOver(old(View()), key, sender, t, t', messages, now);
      AbsorbPacket(decode, key, sender, p, now);
    }

    /** From the match with the transfer on: the posts, the chunk, and the completion. */
    method AbsorbPacket(decode: T.Decoder, key: Key, sender: ParticipantKey, p: T.Packet, now: int)
      requires Valid() && T.WellFormed(p) && key in transfers
      requires transfers[key].meta == p.meta && transfers[key].owner == sender
      modifies this
      ensures Valid() && var (t, messages) := T.Absorb(decode, old(transfers[key]), p, now);
                         Follows(Absorbed(old(View()), key, sender, t, messages, now), View())
    {
      hide CompletionId, T.WellFormed, T.TransferOk, RecordId, Follows, T.Absorb, Absorbed, OnFail;
      ghost var w := View();
      toQt := toQt + [Post(key, sender, T.Start)];
      if !p.isChunk {
        StartAbsorbed(decode, w, key, sender, p, now);
        return;
      }
      IndexOk(p);
      var t := T.WithPiece(transfers[key], p, now);
      transfers := transfers[key := t];
      var percent := T.Percent(|t.chunks|, t.meta.totalChunks);
      toQt := toQt + [Post(key, sender, T.Progress(percent))];
      if |t.chunks| == t.meta.totalChunks && !t.queued {
        Complete(decode, key, sender, now);
      }
      assert w.toQt + [Post(key, sender, T.Start)] + [Post(key, sender, T.Progress(percent))]
          == w.toQt + [Post(key, sender, T.Start), Post(key, sender, T.Progress(percent))];
      ChunkAbsorbed(decode, w, key, sender, p, now, View());
    }

    /** The assembly of a full set of chunks, and its delivery or failure. */
    method Complete(decode: T.Decoder, key: Key, sender: ParticipantKey, now: int)
      requires Valid() && key in transfers && transfers[key].owner == sender
      requires |transfers[key].chunks| == transfers[key].meta.totalChunks
      modifies this
      ensures Valid()
      ensures Completes(decode, old(View()), key, sender, now, View())
    {
      hide CompletionId, Evicted, RecordId;
      var t := transfers[key];
      transfers := transfers[key := t.(queued := true)];
      var text := JoinChunks(t);
      var data := decode(text);
      if |data| != t.meta.totalSize {
        Fail(key, now);
        assert old(transfers)[key := t.(queued := true)] - {key} == old(transfers) - {key};
      } else {
        toQt := toQt + [Post(key, sender, T.Complete(data))];
      }
    }
  }

  /** A transfer that its own packet has just opened. */
  lemma AbsorbedOver(w: Receiver, k: Key, sender: ParticipantKey, t0: T.Transfer, t: Option<T.Transfer>,
                     messages: seq<T.QtMessage>, now: int)
    ensures Absorbed(w.(transfers := w.transfers[k := t0]), k, sender, t, messages, now)
         == Absorbed(w, k, sender, t, messages, now)
  {
    assert w.transfers[k := t0] - {k} == w.transfers - {k};
  }

  lemma StartAbsorbed(decode: T.Decoder, w: Receiver, k: Key, sender: ParticipantKey, p: T.Packet, now: int)
    requires TransfersOk(w) && k in w.transfers && w.transfers[k].meta == p.meta && T.WellFormed(p) && !p.isChunk
    ensures var (t, messages) := T.Absorb(decode, w.transfers[k], p, now);
            Follows(Absorbed(w, k, sender, t, messages, now), w.(toQt := w.toQt + [Post(k, sender, T.Start)]))
  {
    hide T.WellFormed, T.Joined;
    PostsPush(k, sender, [], T.Start);
    assert [] + [T.Start] == [T.Start];
    assert w.transfers[k := w.transfers[k]] == w.transfers;
  }

  /** The receiver once a chunk's first two messages are posted. */
  function ChunkPosted(w: Receiver, k: Key, sender: ParticipantKey, t: T.Transfer): Receiver
    requires T.TransferOk(t)
  {
    w.(transfers := w.transfers[k := t],
       toQt := w.toQt + [Post(k, sender, T.Start),
                         Post(k, sender, T.Progress(T.Percent(|t.chunks|, t.meta.totalChunks)))])
  }

  /** What Complete leads to. */
  ghost predicate Completes(decode: T.Decoder, w: Receiver, k: Key, sender: ParticipantKey, now: int, w': Receiver)
    requires k in w.transfers && T.TransferOk(w.transfers[k])
    requires |w.transfers[k].chunks| == w.transfers[k].meta.totalChunks
  {
    var t := w.transfers[k];
    var data := decode(T.Joined(t));
    if |data| == t.meta.totalSize
    then Follows(Outcome(w.(transfers := w.transfers[k := t.(queued := true)],
                            toQt := w.toQt + [Post(k, sender, T.Complete(data))]), []), w')
    else Follows(OnFail(w, k, now), w')
  }

  /** The assembly's answer to a chunk, and the outcome it makes. */
  lemma AbsorbedChunk(decode: T.Decoder, t0: T.Transfer, p: T.Packet, now: int)
    requires T.TransferOk(t0) && T.WellFormed(p) && p.isChunk && 0 <= p.index < p.meta.totalChunks && t0.meta == p.meta
    ensures var t := T.WithPiece(t0, p, now);
            var posted := [T.Start, T.Progress(T.Percent(|t.chunks|, t.meta.totalChunks))];
            T.Absorb(decode, t0, p, now)
            == if |t.chunks| != t.meta.totalChunks || t.queued then (Some(t), posted)
               else if |decode(T.Joined(t))| != t.meta.totalSize then (None, posted + [T.Fail])
               else (Some(t.(queued := true)), posted + [T.Complete(decode(T.Joined(t)))])
  {
    hide T.WellFormed, T.Joined, T.Percent;
  }

  lemma PostedChunk(w: Receiver, k: Key, sender: ParticipantKey, t: T.Transfer, m: T.QtMessage)
    requires T.TransferOk(t)
    ensures var posted := [T.Start, T.Progress(T.Percent(|t.chunks|, t.meta.totalChunks))];
            && w.toQt + Posts(k, sender, posted) == ChunkPosted(w, k, sender, t).toQt
            && w.toQt + Posts(k, sender, posted + [m]) == ChunkPosted(w, k, sender, t).toQt + [Post(k, sender, m)]
  {
    hide T.Percent;
    var percent := T.Percent(|t.chunks|, t.meta.totalChunks);
    TwoPosts(k, sender, percent);
    PostsPush(k, sender, [T.Start, T.Progress(percent)], m);
  }

  lemma ChunkAbsorbed(decode: T.Decoder, w: Receiver, k: Key, sender: ParticipantKey, p: T.Packet, now: int,
                      w': Receiver)
    requires TransfersOk(w) && k in w.transfers && T.WellFormed(p) && p.isChunk && 0 <= p.index < p.meta.totalChunks
    requires w.transfers[k].meta == p.meta && w.transfers[k].owner == sender
    requires var t := T.WithPiece(w.transfers[k], p, now);
             if |t.chunks| == t.meta.totalChunks && !t.queued
             then Completes(decode, ChunkPosted(w, k, sender, t), k, sender, now, w')
             else w' == ChunkPosted(w, k, sender, t)
    ensures var (t, messages) := T.Absorb(decode, w.transfers[k], p, now);
            Follows(Absorbed(w, k, sender, t, messages, now), w')
  {
    hide T.WellFormed, T.Joined, Posts, T.Percent, RecordOf, T.Absorb, Remembered;
    var t := T.WithPiece(w.transfers[k], p, now);
    AbsorbedChunk(decode, w.transfers[k], p, now);
    PostedChunk(w, k, sender, t, T.Fail);
    if |t.chunks| == t.meta.totalChunks { PostedChunk(w, k, sender, t, T.Complete(decode(T.Joined(t)))); }
    assert w.transfers[k := t] - {k} == w.transfers - {k};
    NothingRemembered(w.terminals);
  }

  lemma NothingRemembered(ts: Terminals)
    ensures forall ts': Terminals :: Remembered(ts, [], ts') <==> ts' == ts
  {
  }

  lemma TwoPosts(k: Key, sender: ParticipantKey, percent: int)
    ensures Posts(k, sender, [T.Start, T.Progress(percent)])
         == [Post(k, sender, T.Start), Post(k, sender, T.Progress(percent))]
  {
    PostsPush(k, sender, [], T.Start);
    assert [] + [T.Start] == [T.Start];
    PostsPush(k, sender, [T.Start], T.Progress(percent));
    assert [T.Start] + [T.Progress(percent)] == [T.Start, T.Progress(percent)];
  }

  lemma IndexOk(p: T.Packet)
    requires T.WellFormed(p)
    ensures p.isChunk ==> 0 <= p.index < p.meta.totalChunks
  {
  }
}
