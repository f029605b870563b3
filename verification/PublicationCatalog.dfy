/**
 The catalog of remote participants and their publications (src/core/publication_catalog.cpp): a
 replica driven by events that may come from an older room, about participants that may be gone.
 */
module PublicationCatalog {
  import opened Options
  import opened MediaKeys

  // ----- Data -----

  datatype TrackKey = TrackKey(participant: ParticipantKey, incarnation: nat, sid: string)

  /** PublishedVideoLayer */
  datatype Layer = Layer(quality: nat, width: nat, height: nat, rid: string)

  /** NormalizePublishedVideoLayers, which is not part of this model. */
  type Normalizer = seq<Layer> -> seq<Layer>

  /** The parts of a publication's state that are only copied. */
  datatype Media = Media(name: string, kind: nat, source: nat, muted: bool, stream: nat, allowed: bool,
                         width: nat, height: nat, layers: seq<Layer>)

  /** SubscriptionError; only whether there is one matters. */
  datatype Fault = NoFault | Fault(code: nat)

  /** PublicationSnapshotEvent */
  datatype Announcement = Announcement(key: TrackKey, ticket: nat, media: Media, fault: Fault)

  /** RemotePublicationInfo */
  datatype Publication = Publication(key: TrackKey, ticket: nat, media: Media, fault: Fault, available: bool)

  /** PublicationCatalogParticipant */
  datatype Participant = Participant(key: ParticipantKey, ticket: nat, name: string, speaking: bool, level: real,
                                     publications: seq<Publication>)

  /** The catalog: its snapshot, and whether it still accepts events. */
  datatype Catalog = Catalog(session: nat, generation: nat, revision: nat, participants: seq<Participant>,
                             accepting: bool)

  datatype Kind =
    | Upsert | Departure | TrackAvailable | TrackUnavailable | TrackMuted | TrackStreamState
    | TrackSubscriptionPermission | TrackSubscriptionError | ConnectionQuality | ActiveSpeakers | DataReceived
    | TextStreamOpened | ByteStreamOpened

  /** ParticipantEvent: its participant part, and its track part. */
  datatype Event = Event(kind: Kind, generation: nat, participant: ParticipantKey, ticket: nat, name: string,
                         speaking: bool, level: real, announcements: seq<Announcement>, isLocal: bool,
                         track: Announcement)

  /** The tickets whose state is still active, each with the key it was made for. */
  datatype Tickets = Tickets(participants: map<nat, ParticipantKey>, tracks: map<nat, TrackKey>)

  datatype Result = Applied | NoChange | RejectedStale | RejectedInvalid | RejectedRetired

  // ----- Comparisons and projections -----

  predicate ParticipantActive(live: Tickets, ticket: nat, key: ParticipantKey) {
    ticket in live.participants && live.participants[ticket] == key
  }

  predicate TrackActive(live: Tickets, a: Announcement) {
    a.ticket in live.tracks && live.tracks[a.ticket] == a.key
  }

  function NativeGeneration(e: Event): nat {
    if e.generation != 0 then e.generation
    else if e.participant.generation != 0 then e.participant.generation
    else e.track.key.participant.generation
  }

  predicate Consumes(kind: Kind) {
    kind.Upsert? || kind.Departure? || IsTrackEvent(kind)
  }

  predicate IsTrackEvent(kind: Kind) {
    kind.TrackAvailable? || kind.TrackUnavailable? || kind.TrackMuted? || kind.TrackStreamState?
    || kind.TrackSubscriptionPermission? || kind.TrackSubscriptionError?
  }

  /** A publication without its ticket: what the catalog compares. */
  function PlainPublication(p: Publication): Publication {
    p.(ticket := 0)
  }

  function PlainPublications(ps: seq<Publication>): (r: seq<Publication>)
    ensures |r| == |ps| && forall i :: 0 <= i < |ps| ==> r[i] == PlainPublication(ps[i])
  {
    if ps == [] then [] else [PlainPublication(ps[0])] + PlainPublications(ps[1..])
  }

  function PlainParticipant(p: Participant): Participant {
    p.(ticket := 0, publications := PlainPublications(p.publications))
  }

  function PlainParticipants(ps: seq<Participant>): (r: seq<Participant>)
    ensures |r| == |ps| && forall i :: 0 <= i < |ps| ==> r[i] == PlainParticipant(ps[i])
  {
    if ps == [] then [] else [PlainParticipant(ps[0])] + PlainParticipants(ps[1..])
  }

  /** The same snapshot, up to tickets. */
  predicate SameSnapshot(c: Catalog, d: Catalog) {
    c.(participants := PlainParticipants(c.participants)) == d.(participants := PlainParticipants(d.participants))
  }

  function Project(normalize: Normalizer, a: Announcement, available: bool): Publication {
    Publication(a.key, a.ticket, a.media.(layers := normalize(a.media.layers)), a.fault,
                available && a.fault == NoFault)
  }

  // ----- Lookups -----

  /** The position of a participant, the length of the list if it is not there. */
  function FindParticipant(ps: seq<Participant>, key: ParticipantKey): (i: nat)
    ensures i <= |ps| && (i < |ps| ==> ps[i].key == key) && forall j :: 0 <= j < i ==> ps[j].key != key
  {
    if ps == [] || ps[0].key == key then 0 else 1 + FindParticipant(ps[1..], key)
  }

  function FindPublication(ps: seq<Publication>, key: TrackKey): (i: nat)
    ensures i <= |ps| && (i < |ps| ==> ps[i].key == key) && forall j :: 0 <= j < i ==> ps[j].key != key
  {
    if ps == [] || ps[0].key == key then 0 else 1 + FindPublication(ps[1..], key)
  }

  /** Whether the catalog has media for a track. */
  function Available(ps: seq<Participant>, key: TrackKey): bool {
    var i := FindParticipant(ps, key.participant);
    i < |ps| && var j := FindPublication(ps[i].publications, key);
                j < |ps[i].publications| && ps[i].publications[j].available
  }

  // ----- Apply -----

  /** The revision is a uint64_t, and skips zero when it wraps around. */
  const REVISIONS := 0x1_0000_0000_0000_0000

  function NextRevision(revision: nat): nat {
    var next := (revision + 1) % REVISIONS;
    if next == 0 then 1 else next
  }

  /** InstallGeneration */
  function Install(c: Catalog, generation: nat): Catalog {
    if c.generation == generation then c else c.(generation := generation, participants := [])
  }

  /** The announcements of an Upsert that count: their tracks are active, and the participant's own. */
  function Accepted(announcements: seq<Announcement>, owner: ParticipantKey, live: Tickets): (r: seq<Announcement>)
    ensures forall j :: 0 <= j < |r| ==> r[j].key.participant == owner && TrackActive(live, r[j])
  {
    if announcements == [] then []
    else (if TrackActive(live, announcements[0]) && announcements[0].key.participant == owner
          then [announcements[0]] else [])
         + Accepted(announcements[1..], owner, live)
  }

  function ProjectAll(normalize: Normalizer, ps: seq<Participant>, accepted: seq<Announcement>): (r: seq<Publication>)
    ensures |r| == |accepted|
    ensures forall j :: 0 <= j < |r| ==> r[j] == Project(normalize, accepted[j], Available(ps, accepted[j].key))
  {
    if accepted == [] then []
    else [Project(normalize, accepted[0], Available(ps, accepted[0].key))] + ProjectAll(normalize, ps, accepted[1..])
  }

  /** The participant an Upsert describes. */
  function Projected(normalize: Normalizer, ps: seq<Participant>, e: Event, live: Tickets): Participant {
    Participant(e.participant, e.ticket, if e.name == "" then e.participant.identity else e.name, e.speaking, e.level,
                ProjectAll(normalize, ps, Accepted(e.announcements, e.participant, live)))
  }

  predicate Conflicts(p: Participant, key: ParticipantKey) {
    p.key.sid == key.sid || (key.identity != "" && p.key.identity == key.identity)
  }

  function WithoutConflicts(ps: seq<Participant>, key: ParticipantKey): seq<Participant> {
    if ps == [] then []
    else (if Conflicts(ps[0], key) then [] else [ps[0]]) + WithoutConflicts(ps[1..], key)
  }

  function WithoutParticipant(ps: seq<Participant>, key: ParticipantKey): seq<Participant> {
    if ps == [] then [] else (if ps[0].key == key then [] else [ps[0]]) + WithoutParticipant(ps[1..], key)
  }

  /** What a change does to the list, and whether it counts as one. */
  datatype Change = Change(participants: seq<Participant>, changed: bool) | Stale

  function UpsertChange(normalize: Normalizer, ps: seq<Participant>, e: Event, live: Tickets): Change {
    var p, i := Projected(normalize, ps, e, live), FindParticipant(ps, e.participant);
    if i == |ps| then Change(WithoutConflicts(ps, e.participant) + [p], true)
    else Change(ps[i := p], PlainParticipant(ps[i]) != PlainParticipant(p))
  }

  /** A publication set, or only its ticket renewed when nothing else differs. */
  function SetPublication(ps: seq<Publication>, j: nat, p: Publication): (seq<Publication>, bool)
    requires j < |ps|
  {
    if PlainPublication(ps[j]) != PlainPublication(p) then (ps[j := p], true)
    else (ps[j := ps[j].(ticket := p.ticket)], false)
  }

  function TrackChange(normalize: Normalizer, ps: seq<Participant>, e: Event, live: Tickets): Change {
    var i := FindParticipant(ps, e.participant);
    var owner := FindParticipant(ps, e.track.key.participant);
    if i == |ps| then Stale
    else if owner == |ps| || FindPublication(ps[owner].publications, e.track.key) == |ps[owner].publications| then
      if !e.kind.TrackAvailable? || !TrackActive(live, e.track) then Stale
      else Change(ps[i := ps[i].(publications := ps[i].publications + [Project(normalize, e.track, true)])], true)
    else
      var publications := ps[owner].publications;
      var j := FindPublication(publications, e.track.key);
      if e.kind.TrackUnavailable? then
        Change(ps[owner := ps[owner].(publications := publications[j := publications[j].(available := false)])],
               publications[j].available)
      else if !TrackActive(live, e.track) then Stale
      else
        var p := Project(normalize, e.track, e.kind.TrackAvailable? || publications[j].available);
        var (after, changed) := SetPublication(publications, j, p);
        Change(ps[owner := ps[owner].(publications := after)], changed)
  }

  /** What an event does to the participants, once its generation is installed. */
  function EventChange(normalize: Normalizer, ps: seq<Participant>, e: Event, live: Tickets): Change {
    if e.isLocal then Change(ps, false)
    else if e.kind.Departure? then
      Change(WithoutParticipant(ps, e.participant), |WithoutParticipant(ps, e.participant)| != |ps|)
    else if e.kind.Upsert? then UpsertChange(normalize, ps, e, live)
    else TrackChange(normalize, ps, e, live)
  }

  /** The answer to an event that is not considered at all. */
  function Refusal(c: Catalog, e: Event, live: Tickets): Option<Result> {
    var g := NativeGeneration(e);
    if !c.accepting then Some(RejectedRetired)
    else if !Consumes(e.kind) || (e.isLocal && !e.kind.Upsert?) then Some(NoChange)
    else if g == 0 then Some(RejectedInvalid)
    else if c.generation != 0 && g < c.generation then Some(RejectedStale)
    else if e.kind.Upsert? && !ParticipantActive(live, e.ticket, e.participant) then Some(RejectedStale)
    else if c.generation != 0 && g > c.generation && !e.kind.Upsert? then Some(RejectedStale)
    else None
  }

  /** PublicationCatalog::Apply */
  function Apply(normalize: Normalizer, c: Catalog, e: Event, live: Tickets): (Catalog, Result) {
    var refusal := Refusal(c, e, live);
    if refusal.Some? then (c, refusal.value)
    else
      var installed := Install(c, NativeGeneration(e));
      match EventChange(normalize, installed.participants, e, live)
      case Stale => (installed, RejectedStale)
      case Change(ps, changed) =>
        if changed || c.generation != installed.generation
        then (installed.(participants := ps, revision := NextRevision(c.revision)), Applied)
        else (installed.(participants := ps), NoChange)
  }

  /** PublicationCatalog::Retire */
  function Retire(c: Catalog): Catalog {
    if !c.accepting then c else c.(accepting := false, participants := [], revision := NextRevision(c.revision))
  }

  // ----- The structure every run keeps -----

  /**
   What the structure asks of an event: an Upsert of a remote participant comes under the generation of
   its key, and a track that becomes available is its participant's own, if its ticket is active at all.
   */
  predicate WellFormed(e: Event, live: Tickets) {
    && (e.kind.Upsert? && !e.isLocal ==> e.participant.generation == NativeGeneration(e))
    && (e.kind.TrackAvailable? && TrackActive(live, e.track) ==> e.track.key.participant == e.participant)
  }

  // ----- The events the room makes -----

  /** A default-constructed TrackKey under an empty ticket. */
  const NO_TICKET: nat := 0
  const NO_TRACK := Announcement(TrackKey(ParticipantKey(0, 0, "", ""), 0, ""), NO_TICKET,
                                 Media("", 0, 0, false, 0, true, 0, 0, []), NoFault)

  /** Room::MakeParticipantEventLocked: a participant's event names no track. */
  function ParticipantEvent(kind: Kind, key: ParticipantKey, ticket: nat, name: string, speaking: bool, level: real,
                            announcements: seq<Announcement>, isLocal: bool): Event
  {
    Event(kind, key.generation, key, ticket, name, speaking, level, announcements, isLocal, NO_TRACK)
  }

  /** Room::MakeTrackEventLocked: a track's event names it, unless its membership is gone. */
  function TrackEvent(e: Event, track: Option<Announcement>): Event {
    if track.None? then e else e.(track := track.value)
  }

  /** An event of the room: a participant's, or a track's that belongs to the participant. */
  ghost predicate FromRoom(e: Event) {
    exists key, ticket, name, speaking, level, announcements, track: Option<Announcement> ::
      IsRoomEvent(e, key, ticket, name, speaking, level, announcements, track)
  }

  predicate IsRoomEvent(e: Event, key: ParticipantKey, ticket: nat, name: string, speaking: bool, level: real,
                        announcements: seq<Announcement>, track: Option<Announcement>)
  {
    && (track.Some? ==> track.value.key.participant == key)
    && e == TrackEvent(ParticipantEvent(e.kind, key, ticket, name, speaking, level, announcements, e.isLocal), track)
  }

  /** Every event the room makes is well-formed; an empty ticket is never active. */
  lemma RoomEventsAreWellFormed(e: Event, live: Tickets)
    requires FromRoom(e) && NO_TICKET !in live.tracks
    ensures WellFormed(e, live)
  {
    var key, ticket, name, speaking, level, announcements, track: Option<Announcement> :|
      IsRoomEvent(e, key, ticket, name, speaking, level, announcements, track);
    assert track.None? ==> e.track == NO_TRACK;
  }

  predicate PublicationOk(owner: ParticipantKey, p: Publication) {
    p.key.participant == owner && (p.available ==> p.fault == NoFault)
  }

  predicate PublicationsOk(owner: ParticipantKey, ps: seq<Publication>) {
    forall j :: 0 <= j < |ps| ==> PublicationOk(owner, ps[j])
  }

  predicate ParticipantOk(generation: nat, p: Participant) {
    p.key.generation == generation && PublicationsOk(p.key, p.publications)
  }

  predicate Distinct(ps: seq<Participant>) {
    forall i, j :: 0 <= i < j < |ps| ==>
      ps[i].key.sid != ps[j].key.sid && (ps[j].key.identity != "" ==> ps[i].key.identity != ps[j].key.identity)
  }

  /** One participant per sid and per identity, all of one room, each with its own publications. */
  predicate AllOk(generation: nat, ps: seq<Participant>) {
    Distinct(ps) && forall i :: 0 <= i < |ps| ==> ParticipantOk(generation, ps[i])
  }

  predicate Valid(c: Catalog) {
    AllOk(c.generation, c.participants) && (c.generation == 0 ==> c.participants == [])
  }

  /** Some of a list's participants, in their order. */
  predicate Among(r: seq<Participant>, ps: seq<Participant>) {
    forall i :: 0 <= i < |r| ==> r[i] in ps
  }

  lemma {:induction false} WithoutConflictsMeaning(generation: nat, ps: seq<Participant>, key: ParticipantKey)
    requires AllOk(generation, ps)
    ensures var r := WithoutConflicts(ps, key);
            AllOk(generation, r) && Among(r, ps) && (forall i :: 0 <= i < |r| ==> !Conflicts(r[i], key))
  {
    hide Conflicts, ParticipantOk;
    if ps != [] {
      WithoutConflictsMeaning(generation, ps[1..], key);
    }
  }

  lemma {:induction false} WithoutParticipantOk(generation: nat, ps: seq<Participant>, key: ParticipantKey)
    requires AllOk(generation, ps)
    ensures AllOk(generation, WithoutParticipant(ps, key)) && Among(WithoutParticipant(ps, key), ps)
  {
    hide ParticipantOk;
    if ps != [] {
      WithoutParticipantOk(generation, ps[1..], key);
    }
  }

  /** Exactly the participant's own entry is gone. */
  lemma {:induction false} WithoutParticipantMeaning(ps: seq<Participant>, key: ParticipantKey)
    ensures forall p :: p in WithoutParticipant(ps, key) <==> p in ps && p.key != key
    ensures |WithoutParticipant(ps, key)| == |ps| ==> WithoutParticipant(ps, key) == ps
    ensures |WithoutParticipant(ps, key)| <= |ps|
  {
    if ps != [] {
      WithoutParticipantMeaning(ps[1..], key);
    }
  }

  lemma ProjectedOk(normalize: Normalizer, ps: seq<Participant>, e: Event, live: Tickets)
    ensures PublicationsOk(e.participant, Projected(normalize, ps, e, live).publications)
  {
    hide Available;
  }

  lemma UpsertKeeps(normalize: Normalizer, generation: nat, ps: seq<Participant>, e: Event, live: Tickets)
    requires AllOk(generation, ps) && e.participant.generation == generation
    ensures AllOk(generation, UpsertChange(normalize, ps, e, live).participants)
  {
    hide PublicationsOk, PlainParticipant, ProjectAll;
    ProjectedOk(normalize, ps, e, live);
    WithoutConflictsMeaning(generation, ps, e.participant);
  }

  lemma ReplaceKeeps(generation: nat, ps: seq<Participant>, i: nat, publications: seq<Publication>)
    requires AllOk(generation, ps) && i < |ps| && PublicationsOk(ps[i].key, publications)
    ensures AllOk(generation, ps[i := ps[i].(publications := publications)])
  {
    hide PublicationsOk;
  }

  lemma TrackKeeps(normalize: Normalizer, generation: nat, ps: seq<Participant>, e: Event, live: Tickets)
    requires AllOk(generation, ps) && IsTrackEvent(e.kind) && WellFormed(e, live)
    ensures var change := TrackChange(normalize, ps, e, live); change.Change? ==> AllOk(generation, change.participants)
  {
    hide AllOk, PlainPublication;
    var i, owner := FindParticipant(ps, e.participant), FindParticipant(ps, e.track.key.participant);
    var change := TrackChange(normalize, ps, e, live);
    if change.Change? {
      var at := if owner < |ps| && FindPublication(ps[owner].publications, e.track.key) < |ps[owner].publications|
                then owner else i;
      assert PublicationsOk(ps[at].key, ps[at].publications) by { OwnOk(generation, ps, at); }
      ReplaceKeeps(generation, ps, at, change.participants[at].publications);
    }
  }

  lemma OwnOk(generation: nat, ps: seq<Participant>, i: nat)
    requires AllOk(generation, ps) && i < |ps|
    ensures ParticipantOk(generation, ps[i])
  {
  }

  /** Every well-formed event keeps the structure, and no event takes the catalog back to an older room. */
  lemma ApplyKeeps(normalize: Normalizer, c: Catalog, e: Event, live: Tickets)
    requires Valid(c)
    ensures WellFormed(e, live) ==> Valid(Apply(normalize, c, e, live).0)
    ensures c.generation <= Apply(normalize, c, e, live).0.generation
  {
    hide AllOk, UpsertChange, TrackChange, WithoutParticipant, TrackActive;
    var installed := Install(c, NativeGeneration(e));
    assert AllOk(installed.generation, []) by { NoneOk(installed.generation); }
    if WellFormed(e, live) && Refusal(c, e, live).None? {
      WithoutParticipantOk(installed.generation, installed.participants, e.participant);
      if IsTrackEvent(e.kind) { TrackKeeps(normalize, installed.generation, installed.participants, e, live); }
      if e.kind.Upsert? && !e.isLocal { UpsertKeeps(normalize, installed.generation, installed.participants, e, live); }
    }
  }

  lemma NoneOk(generation: nat)
    ensures AllOk(generation, [])
  {
  }

  lemma RetireKeeps(c: Catalog)
    requires Valid(c)
    ensures Valid(Retire(c)) && Retire(c).generation == c.generation
  {
  }

  // ----- The revision tells of every change -----

  lemma PlainSame(ps: seq<Participant>, qs: seq<Participant>)
    requires |ps| == |qs| && forall i :: 0 <= i < |ps| ==> PlainParticipant(ps[i]) == PlainParticipant(qs[i])
    ensures PlainParticipants(ps) == PlainParticipants(qs)
  {
    hide PlainParticipant;
  }

  lemma PlainReplaced(ps: seq<Publication>, j: nat, p: Publication)
    requires j < |ps| && PlainPublication(ps[j]) == PlainPublication(p)
    ensures PlainPublications(ps[j := p]) == PlainPublications(ps)
  {
  }

  /** A change that does not count changes nothing but tickets. */
  lemma UncountedChange(normalize: Normalizer, ps: seq<Participant>, e: Event, live: Tickets)
    ensures var change := EventChange(normalize, ps, e, live);
            change.Change? && !change.changed ==> PlainParticipants(change.participants) == PlainParticipants(ps)
  {
    hide PlainPublications, PlainParticipants, Projected, Project, FindPublication, FindParticipant;
    var change := EventChange(normalize, ps, e, live);
    if change.Change? && !change.changed && !e.isLocal {
      if e.kind.Departure? {
        WithoutParticipantMeaning(ps, e.participant);
      } else if e.kind.Upsert? {
        PlainSame(ps, change.participants);
      } else {
        UncountedTrack(normalize, ps, e, live);
      }
    }
  }

  lemma UncountedTrack(normalize: Normalizer, ps: seq<Participant>, e: Event, live: Tickets)
    ensures var change := TrackChange(normalize, ps, e, live);
            change.Change? && !change.changed ==> PlainParticipants(change.participants) == PlainParticipants(ps)
  {
    hide PlainPublications, PlainParticipants, Project;
    var change := TrackChange(normalize, ps, e, live);
    if change.Change? && !change.changed {
      var owner := FindParticipant(ps, e.track.key.participant);
      var publications := ps[owner].publications;
      var j := FindPublication(publications, e.track.key);
      PlainReplaced(publications, j, change.participants[owner].publications[j]);
      PlainSame(ps, change.participants);
    }
  }

  /** A change that counts changes more than tickets. */
  lemma CountedChange(normalize: Normalizer, ps: seq<Participant>, e: Event, live: Tickets)
    ensures var change := EventChange(normalize, ps, e, live);
            change.Change? && change.changed ==> PlainParticipants(change.participants) != PlainParticipants(ps)
  {
    hide PlainPublications, PlainParticipants, Projected, Project, FindPublication, FindParticipant, TrackChange,
         WithoutConflicts, PlainParticipant;
    var change := EventChange(normalize, ps, e, live);
    if change.Change? && change.changed && !e.isLocal {
      var after := change.participants;
      if e.kind.Upsert? {
        var i := FindParticipant(ps, e.participant);
        ProjectedKey(normalize, ps, e, live);
        if i < |ps| { PlainDiffers(ps, after, i); } else { PlainNewcomer(ps, after); }
      } else if !e.kind.Departure? {
        CountedTrack(normalize, ps, e, live);
      }
    }
  }

  lemma PlainDiffers(ps: seq<Participant>, qs: seq<Participant>, i: nat)
    requires i < |ps| && i < |qs| && PlainParticipant(ps[i]) != PlainParticipant(qs[i])
    ensures PlainParticipants(ps) != PlainParticipants(qs)
  {
    hide PlainParticipant, PlainParticipants;
    assert PlainParticipants(ps)[i] != PlainParticipants(qs)[i];
  }

  lemma PlainNewcomer(ps: seq<Participant>, qs: seq<Participant>)
    requires qs != [] && forall i :: 0 <= i < |ps| ==> ps[i].key != qs[|qs| - 1].key
    ensures PlainParticipants(ps) != PlainParticipants(qs)
  {
    if |ps| == |qs| { PlainDiffers(ps, qs, |qs| - 1); }
  }

  lemma CountedTrack(normalize: Normalizer, ps: seq<Participant>, e: Event, live: Tickets)
    ensures var change := TrackChange(normalize, ps, e, live);
            change.Change? && change.changed ==> PlainParticipants(change.participants) != PlainParticipants(ps)
  {
    hide PlainPublications, PlainParticipants, Project;
    var change := TrackChange(normalize, ps, e, live);
    if change.Change? && change.changed {
      var i, owner := FindParticipant(ps, e.participant), FindParticipant(ps, e.track.key.participant);
      var at := if owner < |ps| && FindPublication(ps[owner].publications, e.track.key) < |ps[owner].publications|
                then owner else i;
      var one, two := ps[at].publications, change.participants[at].publications;
      if |one| == |two| {
        var j := FindPublication(one, e.track.key);
        assert PlainPublications(one)[j] != PlainPublications(two)[j];
      }
      PlainDiffers(ps, change.participants, at);
    }
  }

  /** A track event that reaches a catalog of no room yet: it installs its room, and is rejected. */
  predicate InstallsSilently(c: Catalog, e: Event) {
    c.accepting && c.generation == 0 && IsTrackEvent(e.kind) && !e.isLocal && NativeGeneration(e) != 0
  }

  /**
   Applied moves the revision on, and only when more than tickets has changed. Any other answer leaves the snapshot as
   it was, up to tickets, except for exactly the track events that come before the catalog knows its room.
   */
  lemma RevisionIsSound(normalize: Normalizer, c: Catalog, e: Event, live: Tickets)
    requires Valid(c) && c.revision < REVISIONS
    ensures var (c', result) := Apply(normalize, c, e, live);
            && (result == Applied ==>
                  && c'.revision == (if c.revision + 1 == REVISIONS then 1 else c.revision + 1)
                  && !SameSnapshot(c.(revision := c'.revision), c'))
            && (result != Applied ==> (SameSnapshot(c, c') <==> !InstallsSilently(c, e)))
            && (InstallsSilently(c, e) ==> result == RejectedStale && c' == c.(generation := NativeGeneration(e)))
  {
    hide AllOk, UpsertChange, WithoutParticipant, PlainParticipants;
    var installed := Install(c, NativeGeneration(e));
    UncountedChange(normalize, installed.participants, e, live);
    CountedChange(normalize, installed.participants, e, live);
    NobodyIsStale(normalize, e, live);
  }

  lemma NobodyIsStale(normalize: Normalizer, e: Event, live: Tickets)
    ensures TrackChange(normalize, [], e, live).Stale?
    ensures UpsertChange(normalize, [], e, live).Change?
  {
  }

  /** The model's witness: an empty catalog, rejecting a track event, has changed all the same. */
  lemma SilentInstall(normalize: Normalizer, session: nat, e: Event, live: Tickets)
    requires e.kind.TrackMuted? && !e.isLocal && e.generation == 7
    ensures var c := Catalog(session, 0, 0, [], true);
            var (c', result) := Apply(normalize, c, e, live);
            result == RejectedStale && c'.revision == 0 && c'.generation == 7 && !SameSnapshot(c, c')
  {
  }

  // ----- An Upsert twice -----

  function First(accepted: seq<Announcement>, key: TrackKey): (i: nat)
    ensures i <= |accepted| && (i < |accepted| ==> accepted[i].key == key)
    ensures forall j :: 0 <= j < i ==> accepted[j].key != key
  {
    if accepted == [] || accepted[0].key == key then 0 else 1 + First(accepted[1..], key)
  }

  /** No track is announced first with a fault and again without one, while the catalog has its media. */
  predicate Settles(ps: seq<Participant>, accepted: seq<Announcement>) {
    forall j :: 0 <= j < |accepted| && accepted[j].fault == NoFault && Available(ps, accepted[j].key) ==>
      First(accepted, accepted[j].key) <= j && accepted[First(accepted, accepted[j].key)].fault == NoFault
  }

  lemma FirstIsFound(normalize: Normalizer, ps: seq<Participant>, accepted: seq<Announcement>, key: TrackKey)
    ensures FindPublication(ProjectAll(normalize, ps, accepted), key) == First(accepted, key)
  {
    hide Available;
    var r := ProjectAll(normalize, ps, accepted);
    assert forall j :: 0 <= j < |r| ==> r[j].key == accepted[j].key;
  }

  /** Projecting again over one's own projection gives the same exactly if the announcements settle. */
  lemma ProjectTwice(normalize: Normalizer, ps: seq<Participant>, accepted: seq<Announcement>, owner: ParticipantKey,
                     qs: seq<Participant>, i: nat)
    requires i < |qs| && FindParticipant(qs, owner) == i && qs[i].publications == ProjectAll(normalize, ps, accepted)
    requires forall j :: 0 <= j < |accepted| ==> accepted[j].key.participant == owner
    ensures ProjectAll(normalize, qs, accepted) == ProjectAll(normalize, ps, accepted) <==> Settles(ps, accepted)
  {
    hide Available, ProjectAll;
    var one, two := ProjectAll(normalize, ps, accepted), ProjectAll(normalize, qs, accepted);
    forall j | 0 <= j < |accepted|
      ensures one[j] == two[j] <==>
              (accepted[j].fault == NoFault && Available(ps, accepted[j].key) ==>
                 First(accepted, accepted[j].key) <= j && accepted[First(accepted, accepted[j].key)].fault == NoFault)
    {
      var f := First(accepted, accepted[j].key);
      FirstIsFound(normalize, ps, accepted, accepted[j].key);
      OwnAvailable(qs, i, accepted[j].key);
      assert one[f] == Project(normalize, accepted[f], Available(ps, accepted[f].key));
    }
    if one == two {
    } else {
      var j :| 0 <= j < |accepted| && one[j] != two[j];
    }
  }

  lemma OwnAvailable(qs: seq<Participant>, i: nat, key: TrackKey)
    requires i < |qs| && FindParticipant(qs, key.participant) == i
    ensures var j := FindPublication(qs[i].publications, key);
            Available(qs, key) == (j < |qs[i].publications| && qs[i].publications[j].available)
  {
  }

  lemma FoundLast(ps: seq<Participant>, p: Participant)
    requires forall i :: 0 <= i < |ps| ==> ps[i].key != p.key
    ensures FindParticipant(ps + [p], p.key) == |ps|
  {
    assert (ps + [p])[|ps|] == p;
    assert forall i :: 0 <= i < |ps| ==> (ps + [p])[i] == ps[i];
  }

  /** Where an Upsert leaves its participant. */
  lemma UpsertPlaces(normalize: Normalizer, ps: seq<Participant>, e: Event, live: Tickets)
    requires exists generation: nat :: AllOk(generation, ps)
    ensures var after, i := UpsertChange(normalize, ps, e, live).participants, FindParticipant(ps, e.participant);
            var at := FindParticipant(after, e.participant);
            at < |after| && after[at] == Projected(normalize, ps, e, live)
  {
    hide Projected, Conflicts;
    OwnConflict(e.participant);
    ProjectedKey(normalize, ps, e, live);
    var generation: nat :| AllOk(generation, ps);
    var i := FindParticipant(ps, e.participant);
    if i == |ps| {
      WithoutConflictsMeaning(generation, ps, e.participant);
      FoundLast(WithoutConflicts(ps, e.participant), Projected(normalize, ps, e, live));
    } else {
      FoundReplaced(ps, i, Projected(normalize, ps, e, live));
    }
  }

  lemma FoundReplaced(ps: seq<Participant>, i: nat, p: Participant)
    requires i < |ps| && FindParticipant(ps, p.key) == i
    ensures FindParticipant(ps[i := p], p.key) == i
  {
    var qs := ps[i := p];
    assert qs[i] == p;
    assert forall j :: 0 <= j < i ==> qs[j] == ps[j];
  }

  /** An accepted Upsert of a remote participant, once its room is installed. */
  lemma UpsertApplied(normalize: Normalizer, c: Catalog, e: Event, live: Tickets)
    requires e.kind.Upsert? && !e.isLocal && Refusal(c, e, live).None?
    ensures var installed := Install(c, NativeGeneration(e));
            var change := UpsertChange(normalize, installed.participants, e, live);
            && change.Change?
            && Apply(normalize, c, e, live).0.participants == change.participants
            && Apply(normalize, c, e, live).0.generation == NativeGeneration(e) && c.accepting
            && Apply(normalize, c, e, live).0.accepting
            && (Apply(normalize, c, e, live).1 == NoChange <==> !change.changed && c.generation == NativeGeneration(e))
  {
    hide Projected, WithoutConflicts;
  }

  /**
   Applying an Upsert again changes nothing, exactly if its announcements settle: no track the catalog
   has media for is announced first with a fault and later without.
   */
  lemma UpsertAgain(normalize: Normalizer, c: Catalog, e: Event, live: Tickets)
    requires Valid(c) && e.kind.Upsert? && Refusal(c, e, live).None?
    ensures var installed, once := Install(c, NativeGeneration(e)), Apply(normalize, c, e, live).0;
            var accepted := Accepted(e.announcements, e.participant, live);
            Apply(normalize, once, e, live).1 == NoChange <==> e.isLocal || Settles(installed.participants, accepted)
  {
    hide AllOk, ProjectAll, Accepted, Settles, PlainPublications, Apply, UpsertChange;
    var installed, once := Install(c, NativeGeneration(e)), Apply(normalize, c, e, live).0;
    var accepted := Accepted(e.announcements, e.participant, live);
    NoneOk(installed.generation);
    if e.isLocal {
      LocalAgain(normalize, c, e, live);
    } else {
      UpsertApplied(normalize, c, e, live);
      UpsertApplied(normalize, once, e, live);
      var ps, qs := installed.participants, once.participants;
      UpsertPlaces(normalize, ps, e, live);
      var i := FindParticipant(qs, e.participant);
      ProjectTwice(normalize, ps, accepted, e.participant, qs, i);
      SamePlain(normalize, ps, qs, accepted);
      ReplacesSame(normalize, qs, e, live);
    }
  }

  lemma LocalAgain(normalize: Normalizer, c: Catalog, e: Event, live: Tickets)
    requires e.kind.Upsert? && e.isLocal && Refusal(c, e, live).None?
    ensures Apply(normalize, Apply(normalize, c, e, live).0, e, live).1 == NoChange
  {
  }

  /** An Upsert of somebody known counts if their projection differs from what is there. */
  lemma ReplacesSame(normalize: Normalizer, ps: seq<Participant>, e: Event, live: Tickets)
    requires FindParticipant(ps, e.participant) < |ps|
    ensures var change, i := UpsertChange(normalize, ps, e, live), FindParticipant(ps, e.participant);
            change.changed <==> PlainParticipant(ps[i]) != PlainParticipant(Projected(normalize, ps, e, live))
  {
    hide Projected, PlainParticipant;
  }

  /** Two projections of the same announcements are the same if they are the same without their tickets. */
  lemma SamePlain(normalize: Normalizer, ps: seq<Participant>, qs: seq<Participant>, accepted: seq<Announcement>)
    ensures var one, two := ProjectAll(normalize, ps, accepted), ProjectAll(normalize, qs, accepted);
            one == two <==> PlainPublications(one) == PlainPublications(two)
  {
    hide Available, ProjectAll, PlainPublications;
    var one, two := ProjectAll(normalize, ps, accepted), ProjectAll(normalize, qs, accepted);
    if PlainPublications(one) == PlainPublications(two) {
      forall j | 0 <= j < |one| ensures one[j] == two[j] {
        assert PlainPublications(one)[j] == PlainPublications(two)[j];
      }
    }
  }

  /** No two announcements are of one track. */
  predicate DistinctTracks(announcements: seq<Announcement>) {
    forall i, j :: 0 <= i < j < |announcements| ==> announcements[i].key != announcements[j].key
  }

  lemma DistinctSettles(ps: seq<Participant>, accepted: seq<Announcement>)
    requires DistinctTracks(accepted)
    ensures Settles(ps, accepted)
  {
    hide Available;
    forall j | 0 <= j < |accepted| ensures First(accepted, accepted[j].key) == j {
      assert forall i :: 0 <= i < j ==> accepted[i].key != accepted[j].key;
    }
  }

  lemma {:induction false} AcceptedDistinct(announcements: seq<Announcement>, owner: ParticipantKey, live: Tickets)
    requires DistinctTracks(announcements)
    ensures DistinctTracks(Accepted(announcements, owner, live))
    ensures forall a :: a in Accepted(announcements, owner, live) ==> a in announcements
  {
    hide TrackActive;
    if announcements != [] {
      AcceptedDistinct(announcements[1..], owner, live);
      assert forall i :: 1 <= i < |announcements| ==> announcements[1..][i - 1] == announcements[i];
      assert forall a :: a in announcements[1..] ==> a.key != announcements[0].key;
    }
  }

  /**
   The room announces each publication under an incarnation of its own, so its Upserts never name one
   track twice; re-applying one of those is always NoChange.
   */
  lemma RoomUpsertAgain(normalize: Normalizer, c: Catalog, e: Event, live: Tickets)
    requires Valid(c) && e.kind.Upsert? && Refusal(c, e, live).None? && DistinctTracks(e.announcements)
    ensures Apply(normalize, Apply(normalize, c, e, live).0, e, live).1 == NoChange
  {
    hide Apply, Valid, Refusal, Settles;
    AcceptedDistinct(e.announcements, e.participant, live);
    DistinctSettles(Install(c, NativeGeneration(e)).participants, Accepted(e.announcements, e.participant, live));
    UpsertAgain(normalize, c, e, live);
  }

  /** An Upsert that names one track twice, first with a fault and then without, of a catalog that has its media. */
  lemma UpsertUnsettled(normalize: Normalizer) returns (c: Catalog, e: Event, live: Tickets)
    ensures Valid(c) && FromRoom(e) && e.kind.Upsert? && !e.isLocal
    ensures var (once, first) := Apply(normalize, c, e, live);
            first == Applied && Apply(normalize, once, e, live).1 == Applied
    ensures !Settles(c.participants, Accepted(e.announcements, e.participant, live))
  {
    hide Project, Refusal, Apply, Settles, UpsertChange;
    var owner := ParticipantKey(1, 1, "sid", "id");
    var key, media := TrackKey(owner, 1, "track"), Media("", 0, 0, false, 0, true, 0, 0, []);
    var faulty, good := Announcement(key, 2, media, Fault(1)), Announcement(key, 2, media, NoFault);
    live := Tickets(map[1 := owner], map[2 := key]);
    c := Catalog(0, 1, 1, [Participant(owner, 1, "name", false, 0.0, [Project(normalize, good, true)])], true);
    e := ParticipantEvent(Upsert, owner, 1, "name", false, 0.0, [faulty, good], false);
    assert IsRoomEvent(e, owner, 1, "name", false, 0.0, [faulty, good], None);
    ProjectedMedia(normalize, good);
    assert Refusal(c, e, live).None? by { AcceptsUpsert(c, e, live); }
    AcceptsBoth(faulty, good, owner, live);
    var accepted := Accepted(e.announcements, owner, live);
    assert Available(c.participants, key);
    assert !Settles(c.participants, accepted) by { Unsettled(c.participants, accepted); }
    UpsertApplied(normalize, c, e, live);
    ReplacesSame(normalize, c.participants, e, live);
    assert |PlainParticipant(c.participants[0]).publications| == 1;
    assert |PlainParticipant(Projected(normalize, c.participants, e, live)).publications| == 2;
    UpsertAgain(normalize, c, e, live);
    UpsertAnswers(normalize, c, e, live);
    var once := Apply(normalize, c, e, live).0;
    AcceptsUpsert(once, e, live);
    UpsertAnswers(normalize, once, e, live);
  }

  lemma ProjectedMedia(normalize: Normalizer, a: Announcement)
    ensures var p := Project(normalize, a, true);
            p.key == a.key && p.fault == a.fault && (p.available <==> a.fault == NoFault)
  {
  }

  /** What an Upsert needs to be considered. */
  lemma AcceptsUpsert(c: Catalog, e: Event, live: Tickets)
    requires c.accepting && e.kind.Upsert? && e.generation != 0 && c.generation <= e.generation
    requires ParticipantActive(live, e.ticket, e.participant)
    ensures Refusal(c, e, live).None?
  {
  }

  lemma AcceptsBoth(a: Announcement, b: Announcement, owner: ParticipantKey, live: Tickets)
    requires TrackActive(live, a) && TrackActive(live, b) && a.key.participant == owner && b.key.participant == owner
    ensures Accepted([a, b], owner, live) == [a, b]
  {
    assert [a, b][1..] == [b];
    assert [b][1..] == [];
    assert Accepted([], owner, live) == [];
    assert Accepted([b], owner, live) == [b];
  }

  lemma Unsettled(ps: seq<Participant>, accepted: seq<Announcement>)
    requires |accepted| == 2 && accepted[0].key == accepted[1].key && Available(ps, accepted[1].key)
    requires accepted[0].fault != NoFault && accepted[1].fault == NoFault
    ensures !Settles(ps, accepted)
  {
    assert First(accepted, accepted[1].key) == 0;
  }

  lemma UpsertAnswers(normalize: Normalizer, c: Catalog, e: Event, live: Tickets)
    requires e.kind.Upsert? && !e.isLocal && Refusal(c, e, live).None?
    ensures Apply(normalize, c, e, live).1 == Applied || Apply(normalize, c, e, live).1 == NoChange
  {
    hide UpsertChange, Refusal;
    UpsertApplied(normalize, c, e, live);
  }

  // ----- Who is in the catalog -----

  /**
   An accepted Upsert of a remote participant: it is in the catalog as described; anyone else is there if
   and only if they were, and do not claim a newcomer's sid or identity.
   */
  lemma UpsertMeaning(normalize: Normalizer, c: Catalog, e: Event, live: Tickets, p: Participant)
    requires Valid(c) && e.kind.Upsert? && !e.isLocal && Refusal(c, e, live).None?
    ensures var ps, after := Install(c, NativeGeneration(e)).participants, Apply(normalize, c, e, live).0.participants;
            && (p.key == e.participant ==> (p in after <==> p == Projected(normalize, ps, e, live)))
            && (p.key != e.participant ==>
                  (p in after
                   <==> p in ps && (FindParticipant(ps, e.participant) < |ps| || !Conflicts(p, e.participant))))
  {
    hide AllOk, Projected, UpsertChange, Apply, Conflicts;
    var installed := Install(c, NativeGeneration(e));
    NoneOk(installed.generation);
    UpsertApplied(normalize, c, e, live);
    UpsertList(normalize, installed.generation, installed.participants, e, live, p);
  }

  lemma UpsertList(normalize: Normalizer, generation: nat, ps: seq<Participant>, e: Event, live: Tickets,
                   p: Participant)
    requires AllOk(generation, ps)
    ensures var after := UpsertChange(normalize, ps, e, live).participants;
            && (p.key == e.participant ==> (p in after <==> p == Projected(normalize, ps, e, live)))
            && (p.key != e.participant ==>
                  (p in after
                   <==> p in ps && (FindParticipant(ps, e.participant) < |ps| || !Conflicts(p, e.participant))))
  {
    hide Projected, ParticipantOk, Conflicts, WithoutConflicts, PlainParticipant;
    WithoutConflictsKeeps(ps, e.participant);
    OneEach(generation, ps, e.participant);
    OwnConflict(e.participant);
    ProjectedKey(normalize, ps, e, live);
    var i, q := FindParticipant(ps, e.participant), Projected(normalize, ps, e, live);
    if i < |ps| {
      assert ps[i := q][i] == q;
      if p in ps && p.key != e.participant {
        var j :| 0 <= j < |ps| && ps[j] == p;
        assert ps[i := q][j] == p;
      }
    }
  }

  lemma ProjectedKey(normalize: Normalizer, ps: seq<Participant>, e: Event, live: Tickets)
    ensures Projected(normalize, ps, e, live).key == e.participant
  {
  }

  lemma OwnConflict(key: ParticipantKey)
    ensures forall p: Participant :: p.key == key ==> Conflicts(p, key)
  {
  }

  lemma {:induction false} WithoutConflictsKeeps(ps: seq<Participant>, key: ParticipantKey)
    ensures forall p :: p in WithoutConflicts(ps, key) <==> p in ps && !Conflicts(p, key)
  {
    if ps != [] {
      WithoutConflictsKeeps(ps[1..], key);
    }
  }

  lemma OneEach(generation: nat, ps: seq<Participant>, key: ParticipantKey)
    requires AllOk(generation, ps)
    ensures forall j :: 0 <= j < |ps| && ps[j].key == key ==> j == FindParticipant(ps, key)
  {
  }

  /** Nobody enters the catalog but by a remote Upsert of their own. */
  lemma OnlyRemotesEnter(normalize: Normalizer, c: Catalog, e: Event, live: Tickets, p: Participant)
    requires Valid(c) && p in Apply(normalize, c, e, live).0.participants
    ensures (exists q :: q in c.participants && q.key == p.key)
            || (e.kind.Upsert? && !e.isLocal && p.key == e.participant)
  {
    hide AllOk, TrackChange, UpsertChange, WithoutParticipant, Projected;
    var installed := Install(c, NativeGeneration(e));
    NoneOk(installed.generation);
    var ps := installed.participants;
    if Refusal(c, e, live).None? && !e.isLocal {
      if e.kind.Departure? {
        WithoutParticipantMeaning(ps, e.participant);
      } else if e.kind.Upsert? {
        UpsertList(normalize, installed.generation, ps, e, live, p);
      } else {
        TrackKeys(normalize, ps, e, live);
      }
    }
  }

  lemma TrackKeys(normalize: Normalizer, ps: seq<Participant>, e: Event, live: Tickets)
    ensures var change := TrackChange(normalize, ps, e, live);
            change.Change? ==> |change.participants| == |ps|
                               && forall i :: 0 <= i < |ps| ==> change.participants[i].key == ps[i].key
  {
    hide Project, SetPublication;
  }

  /** What a track event that was not rejected says of its track's media. */
  function MediaAfter(e: Event, before: bool): bool {
    if e.kind.TrackUnavailable? then false
    else if e.kind.TrackAvailable? then e.track.fault == NoFault
    else before && e.track.fault == NoFault
  }

  lemma {:induction false} FoundSet(ps: seq<Publication>, j: nat, p: Publication, key: TrackKey)
    requires j < |ps| && p.key == ps[j].key && FindPublication(ps, p.key) == j
    ensures FindPublication(ps[j := p], key) == FindPublication(ps, key)
  {
    var qs, i := ps[j := p], FindPublication(ps, key);
    assert forall k :: 0 <= k < |ps| ==> qs[k].key == ps[k].key;
    assert forall k :: 0 <= k < i ==> qs[k].key != key;
  }

  lemma FoundPush(ps: seq<Publication>, p: Publication, key: TrackKey)
    requires FindPublication(ps, p.key) == |ps|
    ensures FindPublication(ps + [p], key)
         == if FindPublication(ps, key) < |ps| then FindPublication(ps, key)
            else if key == p.key then |ps| else |ps| + 1
  {
    var qs := ps + [p];
    assert qs[|ps|] == p;
    assert forall k :: 0 <= k < |ps| ==> qs[k] == ps[k];
  }

  lemma OwnerSet(ps: seq<Participant>, i: nat, publications: seq<Publication>, key: ParticipantKey)
    requires i < |ps|
    ensures FindParticipant(ps[i := ps[i].(publications := publications)], key) == FindParticipant(ps, key)
  {
    var qs := ps[i := ps[i].(publications := publications)];
    assert forall k :: 0 <= k < |ps| ==> qs[k].key == ps[k].key;
  }

  /** A track event that is not rejected decides its own track's media, and no other track's. */
  lemma TrackMeaning(normalize: Normalizer, ps: seq<Participant>, e: Event, live: Tickets, key: TrackKey)
    requires IsTrackEvent(e.kind) && WellFormed(e, live) && TrackChange(normalize, ps, e, live).Change?
    ensures var after := TrackChange(normalize, ps, e, live).participants;
            Available(after, key)
            == if key == e.track.key then MediaAfter(e, Available(ps, key)) else Available(ps, key)
  {
    hide FindParticipant, FindPublication;
    var i, owner := FindParticipant(ps, e.participant), FindParticipant(ps, e.track.key.participant);
    var after := TrackChange(normalize, ps, e, live).participants;
    var at := if owner < |ps| && FindPublication(ps[owner].publications, e.track.key) < |ps[owner].publications|
              then owner else i;
    var publications, j := ps[at].publications, FindPublication(ps[at].publications, e.track.key);
    OwnerSet(ps, at, after[at].publications, key.participant);
    if j == |publications| {
      FoundPush(publications, Project(normalize, e.track, true), key);
    } else {
      FoundSet(publications, j, after[at].publications[j], key);
    }
  }

  /** Retirement is final: the catalog is empty, refuses everything, and cannot be retired again. */
  lemma RetireIsFinal(normalize: Normalizer, c: Catalog, e: Event, live: Tickets)
    ensures var retired := Retire(c);
            && (c.accepting ==> retired.participants == [] && retired.revision == NextRevision(c.revision))
            && Apply(normalize, retired, e, live) == (retired, RejectedRetired) && Retire(retired) == retired
  {
  }

  // ----- Runs -----

  /** A step of a run: an event, with the tickets alive when it is applied, or the retirement. */
  datatype Step = Arrive(event: Event, live: Tickets) | Close

  function After(normalize: Normalizer, c: Catalog, steps: seq<Step>): Catalog {
    if steps == [] then c
    else
      var before, last := After(normalize, c, steps[..|steps| - 1]), steps[|steps| - 1];
      if last.Close? then Retire(before) else Apply(normalize, before, last.event, last.live).0
  }

  function Empty(session: nat): Catalog {
    Catalog(session, 0, 0, [], true)
  }

  predicate AllWellFormed(steps: seq<Step>) {
    forall i :: 0 <= i < |steps| && steps[i].Arrive? ==> WellFormed(steps[i].event, steps[i].live)
  }

  predicate EnteredBy(key: ParticipantKey, step: Step) {
    step.Arrive? && step.event.kind.Upsert? && !step.event.isLocal && step.event.participant == key
  }

  /**
   In every run of well-formed events: sids and identities are distinct, every participant and publication
   is of the catalog's room, media means no fault, rooms only get newer, and everybody in the catalog was
   announced by a remote Upsert.
   */
  lemma {:induction false} EveryCatalogIsValid(normalize: Normalizer, session: nat, steps: seq<Step>)
    requires AllWellFormed(steps)
    ensures var c := After(normalize, Empty(session), steps);
            && Valid(c)
            && (forall p :: p in c.participants ==> exists i :: 0 <= i < |steps| && EnteredBy(p.key, steps[i]))
            && (steps != [] ==> After(normalize, Empty(session), steps[..|steps| - 1]).generation <= c.generation)
    decreases |steps|
  {
    hide Valid, Apply, Retire, WellFormed;
    var c := After(normalize, Empty(session), steps);
    if steps == [] {
      assert Valid(c) by { EmptyIsValid(session); }
    } else {
      var earlier, last := steps[..|steps| - 1], steps[|steps| - 1];
      var before := After(normalize, Empty(session), earlier);
      EveryCatalogIsValid(normalize, session, earlier);
      if last.Close? {
        RetireKeeps(before);
        RetireEmpties(before);
      } else {
        ApplyKeeps(normalize, before, last.event, last.live);
      }
      forall p | p in c.participants ensures exists i :: 0 <= i < |steps| && EnteredBy(p.key, steps[i]) {
        if last.Arrive? {
          OnlyRemotesEnter(normalize, before, last.event, last.live, p);
          if EnteredBy(p.key, last) { assert EnteredBy(p.key, steps[|steps| - 1]); }
        }
      }
    }
  }

  /** So in every run of the room's own events. */
  lemma EveryRoomCatalogIsValid(normalize: Normalizer, session: nat, steps: seq<Step>)
    requires forall i :: 0 <= i < |steps| && steps[i].Arrive? ==>
               FromRoom(steps[i].event) && NO_TICKET !in steps[i].live.tracks
    ensures var c := After(normalize, Empty(session), steps);
            Valid(c) && forall p :: p in c.participants ==> exists i :: 0 <= i < |steps| && EnteredBy(p.key, steps[i])
  {
    hide Valid, FromRoom, WellFormed, After;
    forall i | 0 <= i < |steps| && steps[i].Arrive? ensures WellFormed(steps[i].event, steps[i].live) {
      RoomEventsAreWellFormed(steps[i].event, steps[i].live);
    }
    EveryCatalogIsValid(normalize, session, steps);
  }

  /** And somebody does enter: the first remote Upsert of a room fills an empty catalog. */
  lemma NewcomerEnters(normalize: Normalizer, session: nat, e: Event, live: Tickets)
    requires FromRoom(e) && e.kind.Upsert? && !e.isLocal && NativeGeneration(e) != 0
    requires ParticipantActive(live, e.ticket, e.participant)
    ensures var c := After(normalize, Empty(session), [Arrive(e, live)]);
            c.participants == [Projected(normalize, [], e, live)] && c.revision == 1
              && c.generation == NativeGeneration(e)
  {
    hide FromRoom, Projected;
    assert [Arrive(e, live)][..0] == [];
    assert After(normalize, Empty(session), []) == Empty(session);
    assert WithoutConflicts([], e.participant) + [Projected(normalize, [], e, live)]
           == [Projected(normalize, [], e, live)];
  }

  lemma EmptyIsValid(session: nat)
    ensures Valid(Empty(session))
  {
  }

  lemma RetireEmpties(c: Catalog)
    ensures forall p :: p in Retire(c).participants ==> p in c.participants
  {
  }
}
