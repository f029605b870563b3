/**
 What each event does to the publication catalog (src/core/publication_catalog.cpp): which ones are considered,
 who leaves on a departure, what a participant looks like after an Upsert, and what a track event leaves of its
 publication.
 */
module CatalogEvents {
  import opened Options
  import opened MediaKeys
  import opened PublicationCatalog

  // ----- Which events are considered -----

  /** A ticket that is still active, for just this participant, and one for just this track. */
  predicate Vouched(live: Tickets, ticket: nat, key: ParticipantKey) {
    ticket in live.participants && live.participants[ticket] == key
  }

  predicate TrackVouched(live: Tickets, a: Announcement) {
    a.ticket in live.tracks && live.tracks[a.ticket] == a.key
  }

  /** An event about participants and their tracks. */
  predicate IsOfCatalog(kind: Kind) {
    !(kind.ConnectionQuality? || kind.ActiveSpeakers? || kind.DataReceived? || kind.TextStreamOpened?
      || kind.ByteStreamOpened?)
  }

  /** An event about one track. */
  predicate IsOfTrack(kind: Kind) {
    IsOfCatalog(kind) && !kind.Upsert? && !kind.Departure?
  }

  /** An event of this room or, for an Upsert under an active ticket, of a newer one. */
  predicate Considered(c: Catalog, e: Event, live: Tickets) {
    var g := NativeGeneration(e);
    && c.accepting && g != 0
    && IsOfCatalog(e.kind) && (e.isLocal ==> e.kind.Upsert?)
    && (c.generation == 0 || g == c.generation || (e.kind.Upsert? && g > c.generation))
    && (e.kind.Upsert? ==> Vouched(live, e.ticket, e.participant))
  }

  /**
   Any other event leaves the catalog as it is, and is told why. An event's room is the first of the three generations
   it carries that is not zero.
   */
  lemma RefusalMeaning(normalize: Normalizer, c: Catalog, e: Event, live: Tickets)
    ensures NativeGeneration(e) == if e.generation != 0 then e.generation
                                   else if e.participant.generation != 0 then e.participant.generation
                                   else e.track.key.participant.generation
    ensures Refusal(c, e, live).None? <==> Considered(c, e, live)
    ensures !Considered(c, e, live) ==>
              Apply(normalize, c, e, live)
              == (c, if !c.accepting then RejectedRetired
                     else if !IsOfCatalog(e.kind) || (e.isLocal && !e.kind.Upsert?) then NoChange
                     else if NativeGeneration(e) == 0 then RejectedInvalid
                     else RejectedStale)
  {
  }

  /** A considered event of somebody local changes no one, and is Applied exactly if it brings a new room. */
  lemma LocalMeaning(normalize: Normalizer, c: Catalog, e: Event, live: Tickets)
    requires Considered(c, e, live) && e.isLocal
    ensures var (c', result) := Apply(normalize, c, e, live);
            if c.generation == NativeGeneration(e) then c' == c && result == NoChange
            else result == Applied
                 && c' == c.(generation := NativeGeneration(e), participants := [], revision := c'.revision)
  {
  }

  // ----- Departures -----

  lemma {:induction false} WithoutOne(ps: seq<Participant>, key: ParticipantKey, i: nat)
    requires i < |ps| && ps[i].key == key && forall j :: 0 <= j < |ps| && j != i ==> ps[j].key != key
    ensures WithoutParticipant(ps, key) == ps[..i] + ps[i + 1..]
  {
    if i == 0 {
      WithoutNobody(ps[1..], key);
      assert ps[..0] + ps[1..] == ps[1..];
    } else {
      assert forall j :: 1 <= j < |ps| ==> ps[1..][j - 1] == ps[j];
      WithoutOne(ps[1..], key, i - 1);
      assert [ps[0]] + (ps[1..][..i - 1] + ps[1..][i..]) == ps[..i] + ps[i + 1..];
    }
  }

  lemma {:induction false} WithoutNobody(ps: seq<Participant>, key: ParticipantKey)
    requires forall j :: 0 <= j < |ps| ==> ps[j].key != key
    ensures WithoutParticipant(ps, key) == ps
  {
    if ps != [] { WithoutNobody(ps[1..], key); }
  }

  /**
   After a departure that is considered, a participant is there if and only if it was and has another key; all who stay
   are unaltered and in order. The answer is Applied if and only if the participant was there or the room is new.
   */
  lemma DepartureMeaning(normalize: Normalizer, c: Catalog, e: Event, live: Tickets)
    requires Valid(c) && Considered(c, e, live) && e.kind.Departure?
    ensures var (c', result) := Apply(normalize, c, e, live);
            && (forall p :: p in c'.participants <==> p in c.participants && p.key != e.participant)
            && (forall i :: 0 <= i < |c.participants| && c.participants[i].key == e.participant ==>
                  c'.participants == c.participants[..i] + c.participants[i + 1..])
            && ((forall p :: p in c.participants ==> p.key != e.participant) ==> c'.participants == c.participants)
            && (result == Applied <==>
                  c.generation != NativeGeneration(e) || exists p :: p in c.participants && p.key == e.participant)
            && (result != Applied ==> result == NoChange && c' == c)
            && c' == c.(generation := NativeGeneration(e), participants := c'.participants, revision := c'.revision)
  {
    hide WithoutParticipant, ParticipantOk;
    var ps, key := c.participants, e.participant;
    RefusalMeaning(normalize, c, e, live);
    WithoutParticipantMeaning(ps, key);
    if i :| 0 <= i < |ps| && ps[i].key == key {
      WithoutOne(ps, key, i);
      assert ps[i] in ps;
    } else {
      WithoutNobody(ps, key);
    }
  }

  // ----- Upserts -----

  /** The announcements that count are taken in their order. */
  lemma {:induction false} AcceptedMore(announcements: seq<Announcement>, a: Announcement, owner: ParticipantKey,
                                        live: Tickets)
    ensures Accepted(announcements + [a], owner, live)
         == Accepted(announcements, owner, live)
            + (if TrackVouched(live, a) && a.key.participant == owner then [a] else [])
  {
    if announcements == [] {
      assert [a][1..] == [];
    } else {
      assert (announcements + [a])[1..] == announcements[1..] + [a];
      AcceptedMore(announcements[1..], a, owner, live);
    }
  }

  /**
   An accepted Upsert of a remote participant leaves exactly one entry of its key. It is as announced, under the
   identity where no name is given; its publications are the active announcements of its own, in order, each available
   if the catalog had its media and it is announced without a fault. A known participant stays in its place, a new one
   comes last.
   */
  lemma UpsertOutcome(normalize: Normalizer, c: Catalog, e: Event, live: Tickets) returns (at: nat)
    requires Valid(c) && Considered(c, e, live) && e.kind.Upsert? && !e.isLocal
    ensures var (ps, after) := (if c.generation == NativeGeneration(e) then c.participants else [],
                                Apply(normalize, c, e, live).0.participants);
            var accepted := Accepted(e.announcements, e.participant, live);
            && at < |after| && (forall i :: 0 <= i < |after| && after[i].key == e.participant ==> i == at)
            && (if exists i :: 0 <= i < |ps| && ps[i].key == e.participant
                then |after| == |ps| && ps[at].key == e.participant && after == ps[at := after[at]]
                else at == |after| - 1)
            && var p := after[at];
               && p == Participant(e.participant, e.ticket, if e.name != "" then e.name else e.participant.identity,
                                   e.speaking, e.level, p.publications)
               && |p.publications| == |accepted|
               && forall j :: 0 <= j < |accepted| ==>
                    p.publications[j] == AsAnnounced(normalize, accepted[j],
                                                     Available(ps, accepted[j].key) && accepted[j].fault == NoFault)
  {
    hide AllOk, Conflicts, Refusal, WithoutConflicts, Available, Accepted, FindParticipant, ProjectAll;
    RefusalMeaning(normalize, c, e, live);
    UpsertApplied(normalize, c, e, live);
    var ps, q := Install(c, NativeGeneration(e)).participants, 0;
    var i := FindParticipant(ps, e.participant);
    NoneOk(NativeGeneration(e));
    if i < |ps| {
      at := i;
      OneEach(NativeGeneration(e), ps, e.participant);
    } else {
      WithoutConflictsKeeps(ps, e.participant);
      OwnConflict(e.participant);
      at := |WithoutConflicts(ps, e.participant)|;
    }
  }

  /** A publication as its announcement describes it. */
  function AsAnnounced(normalize: Normalizer, a: Announcement, available: bool): Publication {
    Publication(a.key, a.ticket, a.media.(layers := normalize(a.media.layers)), a.fault, available)
  }

  // ----- Track events -----

  /** The publication of a track within a list of participants: its owner and its place there. */
  predicate IsAt(ps: seq<Participant>, key: TrackKey, i: nat, j: nat) {
    && i < |ps| && ps[i].key == key.participant && j < |ps[i].publications| && ps[i].publications[j].key == key
    && forall k :: 0 <= k < j ==> ps[i].publications[k].key != key
  }

  lemma FoundAt(generation: nat, ps: seq<Participant>, key: TrackKey, i: nat, j: nat)
    requires AllOk(generation, ps) && IsAt(ps, key, i, j)
    ensures FindParticipant(ps, key.participant) == i && FindPublication(ps[i].publications, key) == j
  {
    hide ParticipantOk;
    OneEach(generation, ps, key.participant);
  }

  lemma SomebodyFound(ps: seq<Participant>, key: ParticipantKey)
    ensures FindParticipant(ps, key) < |ps| <==> exists p :: p in ps && p.key == key
  {
    var i := FindParticipant(ps, key);
    if i < |ps| { assert ps[i] in ps; }
    if p :| p in ps && p.key == key {
      var j :| 0 <= j < |ps| && ps[j] == p;
    }
  }

  /**
   A track event about a publication that is there: an unavailable track loses its media and nothing else; any other
   event, under an active ticket, leaves the publication as it announces it, with media exactly if it has no fault and
   is available now or was before. Nothing else changes. Without an active ticket it is stale.
   */
  lemma TrackOutcome(normalize: Normalizer, c: Catalog, e: Event, live: Tickets, i: nat, j: nat)
    requires Valid(c) && Considered(c, e, live) && IsOfTrack(e.kind)
    requires IsAt(c.participants, e.track.key, i, j) && exists p :: p in c.participants && p.key == e.participant
    ensures var (c', result) := Apply(normalize, c, e, live);
            var publications := c.participants[i].publications;
            var before := publications[j];
            if !e.kind.TrackUnavailable? && !TrackVouched(live, e.track) then c' == c && result == RejectedStale
            else
              var p := if e.kind.TrackUnavailable? then before.(available := false)
                       else AsAnnounced(normalize, e.track,
                                        (e.kind.TrackAvailable? || before.available) && e.track.fault == NoFault);
              && c'.participants == c.participants[i := c.participants[i].(publications := publications[j := p])]
              && c' == c.(participants := c'.participants, revision := c'.revision)
              && result == if PlainPublication(p) == PlainPublication(before) then NoChange else Applied
  {
    hide AllOk, FindParticipant, FindPublication, Refusal;
    RefusalMeaning(normalize, c, e, live);
    FoundAt(c.generation, c.participants, e.track.key, i, j);
    SomebodyFound(c.participants, e.participant);
    assert c.generation == NativeGeneration(e);
  }

  /**
   A track event about a publication that is not there: if the track becomes available under an active ticket, it comes
   last of its participant's, as announced; otherwise the event is stale.
   */
  lemma TrackAppears(normalize: Normalizer, c: Catalog, e: Event, live: Tickets, i: nat)
    requires Valid(c) && Considered(c, e, live) && IsOfTrack(e.kind)
    requires i < |c.participants| && c.participants[i].key == e.participant
    requires forall k, j :: !IsAt(c.participants, e.track.key, k, j)
    ensures var (c', result) := Apply(normalize, c, e, live);
            if !e.kind.TrackAvailable? || !TrackVouched(live, e.track) then c' == c && result == RejectedStale
            else
              var p := AsAnnounced(normalize, e.track, e.track.fault == NoFault);
              var owner := c.participants[i];
              && c'.participants == c.participants[i := owner.(publications := owner.publications + [p])]
              && c' == c.(participants := c'.participants, revision := c'.revision) && result == Applied
  {
    hide AllOk, Refusal;
    var ps, key := c.participants, e.track.key;
    RefusalMeaning(normalize, c, e, live);
    OneEach(c.generation, ps, e.participant);
    var owner := FindParticipant(ps, key.participant);
    assert owner < |ps| ==> !IsAt(ps, key, owner, FindPublication(ps[owner].publications, key));
  }

  /** A track event of nobody known is stale; it changes the catalog only if that knew no room yet. */
  lemma TrackOfNobody(normalize: Normalizer, c: Catalog, e: Event, live: Tickets)
    requires Valid(c) && Considered(c, e, live) && IsOfTrack(e.kind)
    requires forall p :: p in c.participants ==> p.key != e.participant
    ensures Apply(normalize, c, e, live) == (c.(generation := NativeGeneration(e)), RejectedStale)
  {
    hide AllOk, Refusal;
    RefusalMeaning(normalize, c, e, live);
    SomebodyFound(c.participants, e.participant);
  }
}
