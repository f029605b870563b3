/**
 What becomes of a transfer that a pass of the recovery finds lost (src/core/meeting_coordinator.cpp): the whole pass,
 up to the point where nothing waits, takes it out of the table, records it, and reports its failure.
 */
module MediaGivingUp {
  import opened Options
  import opened MediaKeys
  import T = MediaTransfer
  import opened MediaReceiver
  import P = MediaProjection
  import RR = MediaReceiverRuns
  import opened MediaUptake
  import opened MediaAsking

  /** The transfer is as said, its terminal record aside. */
  ghost predicate Is(names: P.Names, w: Receiver, k: Key, s: T.State) {
    && P.Consistent(names, w) && k.session == w.session
    && P.Local(names, w, k).(terminal := false) == s.(terminal := false)
  }

  /** A record with this expiry is there, or it was evicted: 1024 are left, none of which expires earlier. */
  predicate RecordedUntil(terminals: Terminals, id: string, expiry: int) {
    || (id in terminals && terminals[id].expiresAt == expiry)
    || (|terminals| == MAXIMUM_TERMINALS && forall other :: other in terminals ==> terminals[other].expiresAt >= expiry)
  }

  // ----- The failures -----

  lemma GivenUpSnoc(transfers: map<Key, T.Transfer>, order: seq<Key>, p: Pass, k: Key)
    requires forall l :: l in transfers ==> T.TransferOk(transfers[l])
    requires order != []
    ensures var earlier := GivenUp(transfers, order[..|order| - 1], p.force, p.now, p.roster);
            k in earlier ==> k in GivenUp(transfers, order, p.force, p.now, p.roster)
    ensures order[|order| - 1] == k && k in transfers && DecisionOf(transfers[k], p).GiveUp?
            ==> k in GivenUp(transfers, order, p.force, p.now, p.roster)
  {
    hide Decide;
  }

  lemma {:induction false} LostIsListed(transfers: map<Key, T.Transfer>, order: seq<Key>, p: Pass, k: Key)
    requires forall l :: l in transfers ==> T.TransferOk(transfers[l])
    requires k in order && k in transfers && Lost(transfers[k], p)
    ensures k in GivenUp(transfers, order, p.force, p.now, p.roster)
    decreases |order|
  {
    hide GivenUp, Lost, T.TransferOk;
    GivenUpSnoc(transfers, order, p, k);
    if order[|order| - 1] == k {
      DecisionMeaning(transfers[k], p);
    } else {
      LostIsListed(transfers, order[..|order| - 1], p, k);
    }
  }

  /** One record is set: it is there, or it was among the oldest. */
  lemma OneRecorded(ts: Terminals, record: Terminal, ts': Terminals)
    requires Remembered(ts, [record], ts')
    ensures RecordedUntil(ts', RecordId(record), record.expiresAt)
  {
    hide RecordId, Evicted;
    var id := RecordId(record);
    var mid: Terminals :| Remembered(ts, [record][..0], mid) && Evicted(mid[id := record], ts');
    EvictedKeeps(mid[id := record], ts', id);
  }

  /** What is there before the oldest go is there afterwards, or it was among them. */
  lemma EvictedKeeps(ts: Terminals, ts': Terminals, id: string)
    requires Evicted(ts, ts') && id in ts
    ensures RecordedUntil(ts', id, ts[id].expiresAt)
  {
    P.EvictedShrinks(ts, ts');
    if id !in ts' {
      forall other | other in ts' ensures ts'[other].expiresAt >= ts[id].expiresAt {
        P.EvictedAreOldest(ts, ts', id, other);
      }
    }
  }

  /** Another record of the same time does not change that. */
  lemma StaysRecorded(ts: Terminals, record: Terminal, ts': Terminals, id: string)
    requires Remembered(ts, [record], ts') && RecordedUntil(ts, id, record.expiresAt)
    ensures RecordedUntil(ts', id, record.expiresAt)
  {
    hide RecordId, Evicted, RecordedUntil;
    var mid: Terminals :| Remembered(ts, [record][..0], mid) && Evicted(mid[RecordId(record) := record], ts');
    EvictedStays(ts, record, ts', id);
  }

  lemma EvictedStays(ts: Terminals, record: Terminal, ts': Terminals, id: string)
    requires Evicted(ts[RecordId(record) := record], ts') && RecordedUntil(ts, id, record.expiresAt)
    ensures RecordedUntil(ts', id, record.expiresAt)
  {
    hide Evicted, RecordId;
    var own, more := RecordId(record), ts[RecordId(record) := record];
    if id == own || (id in ts && ts[id].expiresAt == record.expiresAt) {
      EvictedKeeps(more, ts', id);
    } else {
      P.EvictedShrinks(more, ts');
      Grows(ts, own, record);
    }
  }

  lemma Grows(ts: Terminals, id: string, record: Terminal)
    ensures |ts[id := record]| >= |ts|
  {
    if id in ts {
      assert ts[id := record].Keys == ts.Keys;
    } else {
      assert ts[id := record].Keys == ts.Keys + {id};
    }
  }

  /** The transfer itself is failed. */
  lemma FailTakes(decode: T.Decoder, names: P.Names, w: Receiver, now: int, w': Receiver, k: Key, base: T.State)
    requires Is(names, w, k, base) && Step(decode, w, FailIn(k, now), w')
    requires base.transfer.Some? && base.toQt == []
    ensures Is(names, w', k, base.(transfer := None, toQt := [T.Fail]))
    ensures RecordedUntil(w'.terminals, P.RecordKey(names, k), now + CACHE_LIFETIME)
  {
    hide P.Local, P.Consistent, Iterates, TransfersOk, Remembered, RecordedUntil, CompletionId;
    StepIsLocal(decode, names, w, FailIn(k, now), w', k);
    LocallyHas(names, w, k);
    OwnEntry(names, w, k);
    OneRecorded(w.terminals, RecordOf(k, w.transfers[k].owner, now), w'.terminals);
  }

  lemma Unrecorded(ts: Terminals, ts': Terminals)
    requires Remembered(ts, [], ts')
    ensures ts' == ts
  {
  }

  /** Another one is failed, or this one a second time. */
  lemma FailSpares(decode: T.Decoder, names: P.Names, w: Receiver, l: Key, now: int, w': Receiver, k: Key,
                   base: T.State)
    requires Is(names, w, k, base) && Step(decode, w, FailIn(l, now), w') && (l != k || base.transfer.None?)
    ensures Is(names, w', k, base)
  {
    hide P.Local, P.Consistent, Iterates, TransfersOk, Remembered, CompletionId;
    StepIsLocal(decode, names, w, FailIn(l, now), w', k);
  }

  lemma RecordSpared(decode: T.Decoder, names: P.Names, w: Receiver, l: Key, now: int, w': Receiver, k: Key,
                     base: T.State)
    requires Is(names, w, k, base) && Step(decode, w, FailIn(l, now), w') && base.transfer.None?
    requires RecordedUntil(w.terminals, P.RecordKey(names, k), now + CACHE_LIFETIME)
    ensures RecordedUntil(w'.terminals, P.RecordKey(names, k), now + CACHE_LIFETIME)
  {
    hide P.Local, P.Consistent, Iterates, TransfersOk, Remembered, RecordedUntil, CompletionId;
    LocallyHas(names, w, k);
    if l in w.transfers {
      StaysRecorded(w.terminals, RecordOf(l, w.transfers[l].owner, now), w'.terminals, P.RecordKey(names, k));
    } else {
      Unrecorded(w.terminals, w'.terminals);
    }
  }

  lemma SameSession(names: P.Names, w: Receiver, l: Key)
    requires P.Consistent(names, w) && l in w.transfers
    ensures l.session == w.session
  {
  }

  lemma {:induction false} FailsSpare(decode: T.Decoder, names: P.Names, w: Receiver, keys: seq<Key>, now: int,
                                      w': Receiver, k: Key, base: T.State)
    requires Is(names, w, k, base) && Fails(decode, w, keys, now, w') && base.transfer.None?
    requires RecordedUntil(w.terminals, P.RecordKey(names, k), now + CACHE_LIFETIME)
    ensures Is(names, w', k, base) && RecordedUntil(w'.terminals, P.RecordKey(names, k), now + CACHE_LIFETIME)
    decreases |keys|
  {
    hide Is, Step, RecordedUntil, P.RecordKey;
    if keys != [] {
      var mid :| Step(decode, w, FailIn(keys[0], now), mid) && Fails(decode, mid, keys[1..], now, w');
      FailSpares(decode, names, w, keys[0], now, mid, k, base);
      RecordSpared(decode, names, w, keys[0], now, mid, k, base);
      FailsSpare(decode, names, mid, keys[1..], now, w', k, base);
    }
  }

  /** One of the failures is the transfer's own. */
  lemma {:induction false} FailsTake(decode: T.Decoder, names: P.Names, w: Receiver, keys: seq<Key>, now: int,
                                     w': Receiver, k: Key, base: T.State)
    requires Is(names, w, k, base) && Fails(decode, w, keys, now, w') && k in keys
    requires base.transfer.Some? && base.toQt == []
    ensures Is(names, w', k, base.(transfer := None, toQt := [T.Fail]))
    ensures RecordedUntil(w'.terminals, P.RecordKey(names, k), now + CACHE_LIFETIME)
    decreases |keys|
  {
    hide Is, Step, RecordedUntil, P.RecordKey;
    var mid :| Step(decode, w, FailIn(keys[0], now), mid) && Fails(decode, mid, keys[1..], now, w');
    if keys[0] == k {
      FailTakes(decode, names, w, now, mid, k, base);
      FailsSpare(decode, names, mid, keys[1..], now, w', k, base.(transfer := None, toQt := [T.Fail]));
    } else {
      FailSpares(decode, names, w, keys[0], now, mid, k, base);
      FailsTake(decode, names, mid, keys[1..], now, w', k, base);
    }
  }

  // ----- Only requests and failures wait -----

  lemma FailReports(decode: T.Decoder, w: Receiver, l: Key, now: int, w': Receiver)
    requires OnlyReports(w) && Step(decode, w, FailIn(l, now), w')
    ensures OnlyReports(w')
  {
    hide Remembered, CompletionId, T.TransferOk;
  }

  lemma {:induction false} FailsReport(decode: T.Decoder, w: Receiver, keys: seq<Key>, now: int, w': Receiver)
    requires OnlyReports(w) && Fails(decode, w, keys, now, w')
    ensures OnlyReports(w')
    decreases |keys|
  {
    hide Step, OnlyReports;
    if keys != [] {
      var mid :| Step(decode, w, FailIn(keys[0], now), mid) && Fails(decode, mid, keys[1..], now, w');
      FailReports(decode, w, keys[0], now, mid);
      FailsReport(decode, mid, keys[1..], now, w');
    }
  }

  lemma RecoveryReports(decode: T.Decoder, w: Receiver, p: Pass, order: seq<Key>, w': Receiver)
    requires Settled(w) && Step(decode, w, Recovery(p, order), w')
    ensures OnlyReports(w')
  {
    hide Remembered, Iterates, Decide, Decided, Asks, T.TransferOk;
    AsksAreRequests(w.transfers, order, p);
    DecidedOk(w, p);
    assert w'.toQt == if w.accepting then Asks(w.transfers, order, p.force, p.now, p.roster) else [];
  }

  /** What is run of them posts nothing and records nothing. */
  lemma ReportLeaves(decode: T.Decoder, owner: ParticipantKey, p: Pass, w: Receiver, c: Callback, w': Receiver)
    requires OnlyReports(w) && RestStep(owner, p, c) && Step(decode, w, c, w')
    ensures c.QtPostIn? && w.toQt != [] && w.toQt[0].Post? && OnlyReports(w') && w'.terminals == w.terminals
  {
    hide MayAsk, T.TransferOk, UiTransferId, Iterates;
  }

  // ----- The report -----

  /** The failure of the transfer is reported, if its session is current and it had been announced. */
  function Reported(s: T.State, session: bool): T.State {
    if session && s.ledger == Some(false) then s.(toQt := [], ledger := None, log := s.log + [T.Failed])
    else s.(toQt := [])
  }

  ghost predicate ReportedOrNot(names: P.Names, w: Receiver, k: Key, base: T.State, session: bool) {
    Is(names, w, k, base.(toQt := [T.Fail])) || Is(names, w, k, Reported(base, session))
  }

  /** Unless the head of the queue is the transfer's, nothing happens to it. */
  lemma RestSpares(decode: T.Decoder, names: P.Names, w: Receiver, c: Callback, w': Receiver, k: Key,
                   owner: ParticipantKey, p: Pass, base: T.State)
    requires Is(names, w, k, base) && RestStep(owner, p, c) && Step(decode, w, c, w') && !HeadIs(w, k)
    requires base.toStrand == [] && base.frames == [] && c.QtPostIn? && w.toQt != [] && w.toQt[0].Post?
    ensures Is(names, w', k, base)
  {
    hide Handle, P.Local, P.Consistent, P.KnownCallback, P.LocalEvent, Remembered, Iterates, TransfersOk, MayAsk,
         HeadIs, T.HandleOnQt;
    RestEvent(decode, names, w, c, owner, p, k);
    StepIsLocal(decode, names, w, c, w', k);
  }

  /** Its own failure at the head is reported. */
  lemma HeadReports(decode: T.Decoder, names: P.Names, w: Receiver, c: Callback, w': Receiver, k: Key,
                    owner: ParticipantKey, p: Pass, base: T.State)
    requires Is(names, w, k, base.(toQt := [T.Fail])) && RestStep(owner, p, c) && Step(decode, w, c, w')
    requires c.QtPostIn? && HeadIs(w, k)
    ensures Is(names, w', k, Reported(base, p.session))
  {
    hide Handle, P.Local, P.Consistent, P.KnownCallback, P.LocalEvent, Remembered, Iterates, TransfersOk, MayAsk,
         HeadIs;
    RestEvent(decode, names, w, c, owner, p, k);
    StepIsLocal(decode, names, w, c, w', k);
    ReportCurrency(names, w, c, k);
    assert [T.Fail][1..] == [];
  }

  lemma RestReports(decode: T.Decoder, names: P.Names, w: Receiver, c: Callback, w': Receiver, k: Key,
                    owner: ParticipantKey, p: Pass, base: T.State)
    requires ReportedOrNot(names, w, k, base, p.session) && RestStep(owner, p, c) && Step(decode, w, c, w')
    requires base.toStrand == [] && base.frames == []
    requires c.QtPostIn? && w.toQt != [] && w.toQt[0].Post?
    ensures ReportedOrNot(names, w', k, base, p.session)
  {
    hide Is, Step, RestStep, HeadIs;
    if Is(names, w, k, Reported(base, p.session)) {
      NoHead(names, w, k, Reported(base, p.session));
      RestSpares(decode, names, w, c, w', k, owner, p, Reported(base, p.session));
    } else if HeadIs(w, k) {
      HeadReports(decode, names, w, c, w', k, owner, p, base);
    } else {
      RestSpares(decode, names, w, c, w', k, owner, p, base.(toQt := [T.Fail]));
    }
  }

  lemma NoHead(names: P.Names, w: Receiver, k: Key, base: T.State)
    requires Is(names, w, k, base) && base.toQt == []
    ensures !HeadIs(w, k)
  {
    hide P.Local, P.Consistent, HeadIs;
    if HeadIs(w, k) { HeadIsLocal(names, w, k); }
  }

  lemma ReportCurrency(names: P.Names, w: Receiver, c: Callback, k: Key)
    requires c.QtPostIn? && Ready(w, c) && P.LocalEvent(names, w, c, k).RunOnQt?
    ensures P.LocalEvent(names, w, c, k).current.session == c.view.session
  {
    hide Iterates, TransfersOk;
  }

  lemma {:induction false} RestsReport(decode: T.Decoder, names: P.Names, w: Receiver, callbacks: seq<Callback>,
                                       w': Receiver, k: Key, owner: ParticipantKey, p: Pass, base: T.State)
    requires OnlyReports(w) && ReportedOrNot(names, w, k, base, p.session)
    requires base.toStrand == [] && base.frames == [] && Rests(decode, owner, p, w, callbacks, w')
    ensures Is(names, w', k, Reported(base, p.session)) && w'.terminals == w.terminals
    decreases |callbacks|
  {
    hide ReportedOrNot, OnlyReports, Step, RestStep, Is;
    if callbacks == [] {
      RestsReported(names, w, k, base, p.session);
    } else {
      var mid :| Step(decode, w, callbacks[0], mid) && Rests(decode, owner, p, mid, callbacks[1..], w');
      ReportLeaves(decode, owner, p, w, callbacks[0], mid);
      RestReports(decode, names, w, callbacks[0], mid, k, owner, p, base);
      RestsReport(decode, names, mid, callbacks[1..], w', k, owner, p, base);
    }
  }

  lemma RestsReported(names: P.Names, w: Receiver, k: Key, base: T.State, session: bool)
    requires Settled(w) && ReportedOrNot(names, w, k, base, session)
    ensures Is(names, w, k, Reported(base, session))
  {
    hide P.Consistent, P.RecordKey, UiTransferId;
  }

  // ----- The whole pass -----

  /** The strand's part of a pass leaves a lost transfer as it is. */
  lemma PassLeaves(decode: T.Decoder, names: P.Names, w: Receiver, p: Pass, order: seq<Key>, w': Receiver, k: Key)
    requires P.Consistent(names, w) && w.accepting && k in w.transfers && Lost(w.transfers[k], p)
    requires Step(decode, w, Recovery(p, order), w')
    ensures Is(names, w', k, P.Local(names, w, k))
    ensures k in GivenUp(w.transfers, order, p.force, p.now, p.roster)
  {
    hide P.Local, P.Consistent, Remembered, CompletionId, T.TransferOk, Asks, Lost, GivenUp, Decide;
    SameSession(names, w, k);
    DecisionMeaning(w.transfers[k], p);
    StepIsLocal(decode, names, w, Recovery(p, order), w', k);
    PassEvent(names, w, p, order, k);
    LostIsListed(w.transfers, order, p, k);
  }

  lemma Unannounced(names: P.Names, w: Receiver, k: Key, s: T.State)
    requires Is(names, w, k, s)
    ensures k in w.transfers <==> s.transfer.Some?
    ensures RR.SignalsOf(w, k) == s.log
    ensures Announced(w, k) <==> s.ledger.Some?
    ensures Announced(w, k) ==> Some(w.ledger[UiTransferId(k)].committed) == s.ledger
  {
    hide UiTransferId, P.RecordKey, P.Consistent;
  }

  /**
   A pass, up to the point where nothing waits, takes every lost transfer out of the table and records it. If it had
   been announced and not yet completed, and the session is still current, its failure is reported once and its entry
   goes; else nothing is reported.
   */
  lemma LostIsGivenUp(decode: T.Decoder, names: P.Names, p: Pass, w: Receiver, w': Receiver, k: Key)
    requires P.Consistent(names, w) && Settled(w) && w.accepting && k in w.transfers && Lost(w.transfers[k], p)
    requires PassRuns(decode, P.OwnerOf(names, k), p, w, w')
    ensures k !in w'.transfers
    ensures RecordedUntil(w'.terminals, P.RecordKey(names, k), p.now + CACHE_LIFETIME)
    ensures var due := p.session && Announced(w, k) && !w.ledger[UiTransferId(k)].committed;
            && RR.SignalsOf(w', k) == RR.SignalsOf(w, k) + (if due then [T.Failed] else [])
            && (Announced(w', k) <==> Announced(w, k) && !due)
  {
    hide P.Local, P.Consistent, Lost, Step, Fails, Rests, Is, RecordedUntil, Announced, GivenUp, ReportedOrNot,
         OnlyReports, P.RecordKey, UiTransferId, RR.SignalsOf;
    var owner, base := P.OwnerOf(names, k), P.Local(names, w, k);
    var order, mid, failed, callbacks :|
      && Step(decode, w, Recovery(p, order), mid)
      && Fails(decode, mid, GivenUp(w.transfers, order, p.force, p.now, p.roster), p.now, failed)
      && Rests(decode, owner, p, failed, callbacks, w');
    var keys := GivenUp(w.transfers, order, p.force, p.now, p.roster);
    PassLeaves(decode, names, w, p, order, mid, k);
    LocalDrained(names, w, k);
    FailsTake(decode, names, mid, keys, p.now, failed, k, base);
    RecoveryReports(decode, w, p, order, mid);
    FailsReport(decode, mid, keys, p.now, failed);
    var gone := base.(transfer := None);
    assert ReportedOrNot(names, failed, k, gone, p.session) by {
      assert Is(names, failed, k, gone.(toQt := [T.Fail]));
      EitherOr(names, failed, k, gone, p.session);
    }
    RestsReport(decode, names, failed, callbacks, w', k, owner, p, gone);
    SameSession(names, w, k);
    ItselfLocally(names, w, k);
    Unannounced(names, w, k, base);
    Unannounced(names, w', k, Reported(gone, p.session));
    assert base.log + [] == base.log;
  }

  lemma ItselfLocally(names: P.Names, w: Receiver, k: Key)
    requires P.Consistent(names, w) && k.session == w.session
    ensures Is(names, w, k, P.Local(names, w, k))
  {
    hide P.Local, P.Consistent;
  }

  lemma EitherOr(names: P.Names, w: Receiver, k: Key, base: T.State, session: bool)
    requires Is(names, w, k, base.(toQt := [T.Fail]))
    ensures ReportedOrNot(names, w, k, base, session)
  {
    hide Is;
  }

  // ----- The pass on the strand -----

  /** The request of a transfer that may be asked for, to its owner, for what it misses. */
  predicate RequestOf(transfers: map<Key, T.Transfer>, p: Pass, post: Post)
    requires forall k :: k in transfers ==> T.TransferOk(transfers[k])
  {
    && post.Post? && post.key in transfers
    && var t := transfers[post.key];
       Askable(t, p) && post.sender == t.owner && post.message == T.Request(Wanted(t))
  }

  /** The posts are the requests of those transfers, of all among these keys, once each. */
  ghost predicate RequestsOf(transfers: map<Key, T.Transfer>, keys: set<Key>, p: Pass, posts: seq<Post>)
    requires forall k :: k in transfers ==> T.TransferOk(transfers[k])
  {
    && (forall i :: 0 <= i < |posts| ==> RequestOf(transfers, p, posts[i]) && posts[i].key in keys)
    && (forall k :: k in keys && k in transfers && Askable(transfers[k], p) ==>
          exists i :: 0 <= i < |posts| && posts[i].Post? && posts[i].key == k)
    && (forall i, j :: 0 <= i < j < |posts| ==> posts[i] != posts[j])
  }

  /** One transfer more. */
  lemma RequestsMore(transfers: map<Key, T.Transfer>, keys: set<Key>, p: Pass, posts: seq<Post>, k: Key)
    requires forall l :: l in transfers ==> T.TransferOk(transfers[l])
    requires RequestsOf(transfers, keys, p, posts) && k !in keys
    ensures k !in transfers || !Askable(transfers[k], p) ==> RequestsOf(transfers, keys + {k}, p, posts)
    ensures k in transfers && Askable(transfers[k], p) ==>
              RequestsOf(transfers, keys + {k}, p,
                         posts + [Post(k, transfers[k].owner, T.Request(Wanted(transfers[k])))])
  {
    hide Wanted, Askable, T.TransferOk;
    if k in transfers && Askable(transfers[k], p) {
      var more := posts + [Post(k, transfers[k].owner, T.Request(Wanted(transfers[k])))];
      assert more[|posts|].key == k;
      assert forall i :: 0 <= i < |posts| ==> more[i] == posts[i] && more[i].key != k;
      forall l | l in keys + {k} && l in transfers && Askable(transfers[l], p)
        ensures exists i :: 0 <= i < |more| && more[i].Post? && more[i].key == l
      {
        if l != k {
          var i :| 0 <= i < |posts| && posts[i].Post? && posts[i].key == l;
          assert more[i].key == l;
        }
      }
    }
  }

  lemma {:induction false} AsksMeaning(transfers: map<Key, T.Transfer>, order: seq<Key>, p: Pass)
    requires forall k :: k in transfers ==> T.TransferOk(transfers[k])
    requires forall i, j :: 0 <= i < j < |order| ==> order[i] != order[j]
    ensures RequestsOf(transfers, (set k | k in order), p, Asks(transfers, order, p.force, p.now, p.roster))
    decreases |order|
  {
    hide Decide, Wanted, Askable, T.TransferOk, RequestsOf;
    if order == [] {
      NoRequests(transfers, p);
      assert (set k | k in order) == {};
    } else {
      var n := |order| - 1;
      var earlier, k := order[..n], order[n];
      AsksMeaning(transfers, earlier, p);
      assert k !in earlier && (set l | l in order) == (set l | l in earlier) + {k};
      if k in transfers { DecisionMeaning(transfers[k], p); }
      RequestsMore(transfers, (set l | l in earlier), p, Asks(transfers, earlier, p.force, p.now, p.roster), k);
    }
  }

  lemma NoRequests(transfers: map<Key, T.Transfer>, p: Pass)
    requires forall k :: k in transfers ==> T.TransferOk(transfers[k])
    ensures RequestsOf(transfers, {}, p, [])
  {
  }

  /**
   The pass on the strand, as long as that accepts data: exactly the expired records go; every transfer stays, for now,
   and one that is not lost has its two times set; and the requests of those that may be asked for are on their way.
   */
  lemma RecoveryMeaning(decode: T.Decoder, w: Receiver, p: Pass, order: seq<Key>, w': Receiver)
    requires Step(decode, w, Recovery(p, order), w')
    ensures if !w.accepting then w' == w
            else
              && (forall id :: id in w'.terminals <==> id in w.terminals && w.terminals[id].expiresAt > p.now)
              && (forall id :: id in w'.terminals ==> w'.terminals[id] == w.terminals[id])
              && w'.transfers.Keys == w.transfers.Keys
              && (forall k :: k in w.transfers ==>
                    var t := w.transfers[k];
                    w'.transfers[k]
                    == if Lost(t, p) then t
                       else t.(lastActive := if p.force && t.owner in p.roster.tickets then p.now else t.lastActive,
                               lastRecovery := if Askable(t, p) then p.now else t.lastRecovery))
              && |w'.toQt| >= |w.toQt| && w'.toQt[..|w.toQt|] == w.toQt
              && RequestsOf(w.transfers, w.transfers.Keys, p, w'.toQt[|w.toQt|..])
              && w' == w.(terminals := w'.terminals, transfers := w'.transfers, toQt := w'.toQt)
  {
    hide Decide, Wanted, Askable, Lost, T.TransferOk, Asks, Decided, RequestsOf;
    Unrecorded(Handle(decode, w, Recovery(p, order)).state.terminals, w'.terminals);
    if w.accepting {
      AsksMeaning(w.transfers, order, p);
      assert (set k | k in order) == w.transfers.Keys;
      assert w'.toQt[|w.toQt|..] == Asks(w.transfers, order, p.force, p.now, p.roster);
      forall k | k in w.transfers
        ensures Lost(w.transfers[k], p) ==>
                  Decided(w.transfers[k], DecisionOf(w.transfers[k], p), p.now) == w.transfers[k]
        ensures !Lost(w.transfers[k], p) ==>
                  var t := w.transfers[k];
                  Decided(t, DecisionOf(t, p), p.now)
                  == t.(lastActive := if p.force && t.owner in p.roster.tickets then p.now else t.lastActive,
                        lastRecovery := if Askable(t, p) then p.now else t.lastRecovery)
      {
        if Lost(w.transfers[k], p) { LostStays(w.transfers[k], p); } else { TimesAfter(w.transfers[k], p); }
      }
    }
  }

  lemma LostStays(t: T.Transfer, p: Pass)
    requires T.TransferOk(t) && Lost(t, p)
    ensures Decided(t, DecisionOf(t, p), p.now) == t
  {
    hide Wanted, Lost;
    DecisionMeaning(t, p);
  }
}
