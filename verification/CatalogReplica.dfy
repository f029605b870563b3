/** The publication catalog as an object: one snapshot, updated in place by every event. */
module CatalogReplica {
  import opened MediaKeys
  import opened Spec = PublicationCatalog

  /** SameParticipantState: two participants, compared publication by publication, tickets aside. */
  method SameParticipantState(left: Participant, right: Participant) returns (same: bool)
    ensures same <==> PlainParticipant(left) == PlainParticipant(right)
  {
    if left.key != right.key || left.name != right.name || left.speaking != right.speaking
      || left.level != right.level {
      return false;
    }
    if |left.publications| != |right.publications| { return false; }
    for index := 0 to |left.publications|
      invariant forall j :: 0 <= j < index ==>
                  PlainPublication(left.publications[j]) == PlainPublication(right.publications[j])
    {
      if PlainPublication(left.publications[index]) != PlainPublication(right.publications[index]) {
        assert PlainPublications(left.publications)[index] != PlainPublications(right.publications)[index];
        return false;
      }
    }
    return true;
  }

  lemma NextAccepted(announcements: seq<Announcement>, i: nat, owner: ParticipantKey, live: Tickets)
    requires i < |announcements|
    ensures var a := announcements[i];
            Accepted(announcements[i..], owner, live)
            == (if TrackActive(live, a) && a.key.participant == owner then [a] else [])
              + Accepted(announcements[i + 1..], owner, live)
  {
    assert announcements[i..][1..] == announcements[i + 1..];
  }

  lemma NextRemoved(ps: seq<Participant>, i: nat, key: ParticipantKey)
    requires i < |ps|
    ensures WithoutParticipant(ps[i..], key) == (if ps[i].key == key then [] else [ps[i]])
            + WithoutParticipant(ps[i + 1..], key)
    ensures WithoutConflicts(ps[i..], key) == (if Conflicts(ps[i], key) then [] else [ps[i]])
            + WithoutConflicts(ps[i + 1..], key)
  {
    assert ps[i..][1..] == ps[i + 1..];
  }

  lemma NoneRemoved(key: ParticipantKey)
    ensures WithoutParticipant([], key) == [] && WithoutConflicts([], key) == []
  {
  }

  lemma NoneAccepted(announcements: seq<Announcement>, owner: ParticipantKey, live: Tickets)
    requires announcements == []
    ensures Accepted(announcements, owner, live) == []
  {
  }

  class PublicationCatalog {
    const session: nat
    var generation: nat
    var revision: nat
    var participants: seq<Participant>
    var accepting: bool

    function View(): Catalog
      reads this
    {
      Catalog(session, generation, revision, participants, accepting)
    }

    constructor (session: nat)
      ensures View() == Empty(session)
    {
      this.session := session;
      generation, revision, participants, accepting := 0, 0, [], true;
    }

    /** std::find_if over the participants. */
    method PositionOf(key: ParticipantKey) returns (i: nat)
      ensures i == FindParticipant(participants, key)
    {
      i := 0;
      while i < |participants| && participants[i].key != key
        invariant i <= |participants|
        invariant FindParticipant(participants, key) == i + FindParticipant(participants[i..], key)
      {
        assert participants[i..][1..] == participants[i + 1..];
        i := i + 1;
      }
    }

    /** Find: the position of a publication within those of its owner. */
    method PublicationOf(publications: seq<Publication>, key: TrackKey) returns (j: nat)
      ensures j == FindPublication(publications, key)
    {
      j := 0;
      while j < |publications| && publications[j].key != key
        invariant j <= |publications|
        invariant FindPublication(publications, key) == j + FindPublication(publications[j..], key)
      {
        assert publications[j..][1..] == publications[j + 1..];
        j := j + 1;
      }
    }

    method HasMedia(key: TrackKey) returns (available: bool)
      ensures available == Available(participants, key)
    {
      var i := PositionOf(key.participant);
      if i == |participants| { return false; }
      var j := PublicationOf(participants[i].publications, key);
      return j < |participants[i].publications| && participants[i].publications[j].available;
    }

    /** The erase-remove loop of a departure. */
    method RemoveParticipant(key: ParticipantKey)
      modifies this`participants
      ensures participants == WithoutParticipant(old(participants), key)
    {
      hide WithoutParticipant;
      ghost var before := participants;
      var kept: seq<Participant> := [];
      for i := 0 to |participants|
        invariant participants == before
        invariant kept + WithoutParticipant(before[i..], key) == WithoutParticipant(before, key)
      {
        NextRemoved(before, i, key);
        if participants[i].key != key { kept := kept + [participants[i]]; }
      }
      NoneRemoved(key);
      participants := kept;
    }

    /** The erase-remove loop of a newcomer: whoever has its sid or its identity goes. */
    method RemoveConflicts(key: ParticipantKey)
      modifies this`participants
      ensures participants == WithoutConflicts(old(participants), key)
    {
      hide WithoutConflicts, Conflicts;
      ghost var before := participants;
      var kept: seq<Participant> := [];
      for i := 0 to |participants|
        invariant participants == before
        invariant kept + WithoutConflicts(before[i..], key) == WithoutConflicts(before, key)
      {
        NextRemoved(before, i, key);
        if !Conflicts(participants[i], key) { kept := kept + [participants[i]]; }
      }
      NoneRemoved(key);
      participants := kept;
    }

    method Changed()
      modifies this`revision
      ensures revision == NextRevision(old(revision))
    {
      revision := (revision + 1) % REVISIONS;
      if revision == 0 { revision := revision + 1; }
    }

    method InstallGeneration(g: nat) returns (changed: bool)
      modifies this`generation, this`participants
      ensures View() == Install(old(View()), g) && changed == (old(generation) != g)
    {
      if generation == g { return false; }
      generation, participants := g, [];
      return true;
    }

    method ProjectUpsert(normalize: Normalizer, e: Event, live: Tickets) returns (projected: Participant)
      ensures projected == Projected(normalize, participants, e, live)
    {
      hide Available, Project, TrackActive, Accepted, ProjectAll;
      var publications: seq<Publication> := [];
      ghost var accepted := Accepted(e.announcements, e.participant, live);
      ghost var done: seq<Announcement> := [];
      for i := 0 to |e.announcements|
        invariant accepted == done + Accepted(e.announcements[i..], e.participant, live)
        invariant |publications| == |done|
        invariant forall j :: 0 <= j < |done| ==>
                    publications[j] == Project(normalize, done[j], Available(participants, done[j].key))
      {
        var a := e.announcements[i];
        NextAccepted(e.announcements, i, e.participant, live);
        if TrackActive(live, a) && a.key.participant == e.participant {
          var available := HasMedia(a.key);
          publications := publications + [Project(normalize, a, available)];
          done := done + [a];
        }
      }
      NoneAccepted(e.announcements[|e.announcements|..], e.participant, live);
      assert done == accepted;
      assert publications == ProjectAll(normalize, participants, accepted);
      projected := Participant(e.participant, e.ticket,
                               if e.name == "" then e.participant.identity else e.name, e.speaking,
                               e.level, publications);
    }

    method ApplyUpsert(normalize: Normalizer, e: Event, live: Tickets) returns (changed: bool)
      modifies this`participants
      ensures UpsertChange(normalize, old(participants), e, live) == Change(participants, changed)
    {
      hide Projected, WithoutConflicts, PlainParticipant;
      var projected := ProjectUpsert(normalize, e, live);
      var i := PositionOf(e.participant);
      if i == |participants| {
        RemoveConflicts(e.participant);
        participants := participants + [projected];
        return true;
      }
      var same := SameParticipantState(participants[i], projected);
      participants := participants[i := projected];
      return !same;
    }

    method ApplyTrack(normalize: Normalizer, e: Event, live: Tickets) returns (outcome: Change)
      modifies this`participants
      ensures outcome == TrackChange(normalize, old(participants), e, live)
      ensures participants == if outcome.Change? then outcome.participants else old(participants)
    {
      hide Project, TrackActive, PlainPublication;
      var i := PositionOf(e.participant);
      if i == |participants| { return Stale; }
      var owner := PositionOf(e.track.key.participant);
      var j := 0;
      if owner < |participants| { j := PublicationOf(participants[owner].publications, e.track.key); }
      if owner == |participants| || j == |participants[owner].publications| {
        if !e.kind.TrackAvailable? || !TrackActive(live, e.track) { return Stale; }
        var publications := participants[i].publications + [Project(normalize, e.track, true)];
        participants := participants[i := participants[i].(publications := publications)];
        return Change(participants, true);
      }
      var publications := participants[owner].publications;
      var changed := true;
      if e.kind.TrackUnavailable? {
        changed := publications[j].available;
        publications := publications[j := publications[j].(available := false)];
      } else if !TrackActive(live, e.track) {
        return Stale;
      } else {
        var p := Project(normalize, e.track, e.kind.TrackAvailable? || publications[j].available);
        changed := PlainPublication(publications[j]) != PlainPublication(p);
        publications := publications[j := if changed then p else publications[j].(ticket := p.ticket)];
      }
      participants := participants[owner := participants[owner].(publications := publications)];
      return Change(participants, changed);
    }

    /** PublicationCatalog::Apply */
    method Apply(normalize: Normalizer, e: Event, live: Tickets) returns (result: Result)
      modifies this
      ensures (View(), result) == Spec.Apply(normalize, old(View()), e, live)
    {
      hide UpsertChange, TrackChange, WithoutParticipant, WithoutConflicts;
      if !accepting { return RejectedRetired; }
      if !Consumes(e.kind) || (e.isLocal && !e.kind.Upsert?) { return NoChange; }
      var g := NativeGeneration(e);
      if g == 0 { return RejectedInvalid; }
      if generation != 0 && g < generation { return RejectedStale; }
      if e.kind.Upsert? && !ParticipantActive(live, e.ticket, e.participant) { return RejectedStale; }
      if generation != 0 && g > generation && !e.kind.Upsert? { return RejectedStale; }
      var changed := InstallGeneration(g);
      if !e.isLocal {
        if e.kind.Departure? {
          var size := |participants|;
          RemoveParticipant(e.participant);
          changed := changed || |participants| != size;
        } else if e.kind.Upsert? {
          var upserted := ApplyUpsert(normalize, e, live);
          changed := changed || upserted;
        } else {
          var outcome := ApplyTrack(normalize, e, live);
          if outcome.Stale? { return RejectedStale; }
          changed := changed || outcome.changed;
        }
      }
      if !changed { return NoChange; }
      Changed();
      return Applied;
    }

    /** PublicationCatalog::Retire */
    method Retire()
      modifies this
      ensures View() == Spec.Retire(old(View()))
    {
      if !accepting { return; }
      accepting, participants := false, [];
      Changed();
    }
  }
}
