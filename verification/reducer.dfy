/** The eight domain-message handlers of the application shell
    (App.tsx), each a pure transform of the participant list or of the
    event list, together with the invariants they keep and their
    idempotence under replay. */
module Reducer {
  import opened Common
  import opened Types

  // ---------------------------------------------------------------------
  // Queries and invariants
  // ---------------------------------------------------------------------

  /** `ps.some(p => p.id === id)` */
  predicate HasParticipant(ps: seq<Participant>, id: string)
  {
    exists i :: 0 <= i < |ps| && ps[i].id == id
  }

  /** `es.some(e => e.id === id)` */
  predicate HasEvent(es: seq<Event>, id: string)
  {
    exists i :: 0 <= i < |es| && es[i].id == id
  }

  predicate UniqueParticipantIds(ps: seq<Participant>)
  {
    forall i, j :: 0 <= i < j < |ps| ==> ps[i].id != ps[j].id
  }

  predicate UniqueEventIds(es: seq<Event>)
  {
    forall i, j :: 0 <= i < j < |es| ==> es[i].id != es[j].id
  }

  /** No two events of the list are active at once. */
  predicate AtMostOneActive(es: seq<Event>)
  {
    forall i, j :: 0 <= i < j < |es| ==> !(es[i].active && es[j].active)
  }

  // ---------------------------------------------------------------------
  // Participant handlers
  // ---------------------------------------------------------------------

  /** `handleLocationUpdate`: the participant with the update's id gets the
      new location and timestamp; nothing else changes. */
  function HandleLocationUpdate(ps: seq<Participant>, u: LocationUpdate): (r: seq<Participant>)
    ensures |r| == |ps|
    ensures forall i :: 0 <= i < |ps| && ps[i].id == u.participantId ==>
              && r[i].location == Some(u.location)
              && r[i].lastUpdate == Some(u.timestamp)
              && r[i].(location := ps[i].location, lastUpdate := ps[i].lastUpdate) == ps[i]
    ensures forall i :: 0 <= i < |ps| && ps[i].id != u.participantId ==> r[i] == ps[i]
    ensures !HasParticipant(ps, u.participantId) ==> r == ps
  {
    seq(|ps|, i requires 0 <= i < |ps| =>
      if ps[i].id == u.participantId
      then ps[i].(location := Some(u.location), lastUpdate := Some(u.timestamp))
      else ps[i])
  }

  /** `handlePanic`: the participant raises the alarm; its location is
      replaced only when the message carries one. */
  function HandlePanic(ps: seq<Participant>, d: PanicData): (r: seq<Participant>)
    ensures |r| == |ps|
    ensures forall i :: 0 <= i < |ps| && ps[i].id == d.participantId ==>
              && r[i].status == Panic
              && (d.location.Some? ==> r[i].location == d.location)
              && (d.location.None? ==> r[i].location == ps[i].location)
              && r[i].(status := ps[i].status, location := ps[i].location) == ps[i]
    ensures forall i :: 0 <= i < |ps| && ps[i].id != d.participantId ==> r[i] == ps[i]
    ensures !HasParticipant(ps, d.participantId) ==> r == ps
  {
    seq(|ps|, i requires 0 <= i < |ps| =>
      if ps[i].id == d.participantId
      then ps[i].(status := Panic, location := if d.location.Some? then d.location else ps[i].location)
      else ps[i])
  }

  /** `handlePanicCanceled`: the participant goes back to tracking; its
      location is left alone. */
  function HandlePanicCanceled(ps: seq<Participant>, participantId: string): (r: seq<Participant>)
    ensures |r| == |ps|
    ensures forall i :: 0 <= i < |ps| && ps[i].id == participantId ==>
              && r[i].status == Tracking
              && r[i].(status := ps[i].status) == ps[i]
    ensures forall i :: 0 <= i < |ps| && ps[i].id != participantId ==> r[i] == ps[i]
    ensures !HasParticipant(ps, participantId) ==> r == ps
  {
    seq(|ps|, i requires 0 <= i < |ps| =>
      if ps[i].id == participantId then ps[i].(status := Tracking) else ps[i])
  }

  /** `handleParticipantRegistered`: a participant whose id is already known
      is dropped; otherwise it is appended at the end. */
  function HandleParticipantRegistered(ps: seq<Participant>, p: Participant): (r: seq<Participant>)
    ensures HasParticipant(r, p.id)
    ensures HasParticipant(ps, p.id) ==> r == ps
    ensures !HasParticipant(ps, p.id) ==> |r| == |ps| + 1 && r[..|ps|] == ps && r[|ps|] == p
    ensures UniqueParticipantIds(ps) ==> UniqueParticipantIds(r)
  {
    if HasParticipant(ps, p.id) then ps
    else
      var r := ps + [p];
      assert r[|ps|].id == p.id;
      r
  }

  /** `handleParticipantLeft`: every participant with the id goes, the
      others stay in their order. */
  function HandleParticipantLeft(ps: seq<Participant>, participantId: string): (r: seq<Participant>)
    ensures !HasParticipant(r, participantId)
    ensures forall i :: 0 <= i < |r| ==> r[i] in ps
    ensures forall i :: 0 <= i < |ps| && ps[i].id != participantId ==> ps[i] in r
    ensures IsSubsequence(r, ps)
    ensures forall y {:trigger multiset(r)[y]} ::
              multiset(r)[y] == if y.id != participantId then multiset(ps)[y] else 0
    ensures !HasParticipant(ps, participantId) ==> r == ps
  {
    Filter((p: Participant) => p.id != participantId, ps)
  }

  // ---------------------------------------------------------------------
  // Event handlers
  // ---------------------------------------------------------------------

  /** `handleEventAdded`: a known id leaves the list as it is (the check is
      made before anything is deactivated); otherwise the event is appended,
      and when it is active every earlier event is switched off first. */
  function HandleEventAdded(es: seq<Event>, e: Event): (r: seq<Event>)
    ensures HasEvent(es, e.id) ==> r == es
    ensures !HasEvent(es, e.id) ==>
              && |r| == |es| + 1
              && r[|es|] == e
              && forall i :: 0 <= i < |es| ==>
                   && r[i].id == es[i].id
                   && r[i].name == es[i].name
                   && r[i].active == (es[i].active && !e.active)
  {
    if HasEvent(es, e.id) then es
    else if e.active then
      seq(|es|, i requires 0 <= i < |es| => es[i].(active := false)) + [e]
    else es + [e]
  }

  /** `handleEventUpdated`: every event with the id is replaced wholesale;
      when the incoming event is active every other event is switched off.
      An unknown id inserts nothing. */
  function HandleEventUpdated(es: seq<Event>, e: Event): (r: seq<Event>)
    ensures |r| == |es|
    ensures forall i :: 0 <= i < |es| && es[i].id == e.id ==> r[i] == e
    ensures forall i :: 0 <= i < |es| && es[i].id != e.id ==>
              && r[i].id == es[i].id
              && r[i].name == es[i].name
              && r[i].active == (es[i].active && !e.active)
  {
    seq(|es|, i requires 0 <= i < |es| =>
      if es[i].id == e.id then e
      else if e.active then es[i].(active := false)
      else es[i])
  }

  /** `handleEventDeleted`: every event with the id goes, the others stay in
      their order; nothing is deactivated or activated. */
  function HandleEventDeleted(es: seq<Event>, eventId: string): (r: seq<Event>)
    ensures !HasEvent(r, eventId)
    ensures forall i :: 0 <= i < |r| ==> r[i] in es
    ensures forall i :: 0 <= i < |es| && es[i].id != eventId ==> es[i] in r
    ensures IsSubsequence(r, es)
    ensures forall y {:trigger multiset(r)[y]} ::
              multiset(r)[y] == if y.id != eventId then multiset(es)[y] else 0
    ensures !HasEvent(es, eventId) ==> r == es
  {
    Filter((e: Event) => e.id != eventId, es)
  }

  // ---------------------------------------------------------------------
  // Invariants kept by the handlers
  // ---------------------------------------------------------------------

  /** The three `map`-shaped participant handlers keep every id in place. */
  lemma MappedHandlersKeepIds(ps: seq<Participant>, u: LocationUpdate, d: PanicData, id: string)
    ensures forall i :: 0 <= i < |ps| ==> HandleLocationUpdate(ps, u)[i].id == ps[i].id
    ensures forall i :: 0 <= i < |ps| ==> HandlePanic(ps, d)[i].id == ps[i].id
    ensures forall i :: 0 <= i < |ps| ==> HandlePanicCanceled(ps, id)[i].id == ps[i].id
  {
  }

  /** Removing participants keeps the remaining ids distinct. */
  lemma {:induction false} ParticipantLeftKeepsUnique(ps: seq<Participant>, participantId: string)
    requires UniqueParticipantIds(ps)
    ensures UniqueParticipantIds(HandleParticipantLeft(ps, participantId))
    decreases |ps|
  {
    if ps != [] {
      var rest := HandleParticipantLeft(ps[1..], participantId);
      ParticipantLeftKeepsUnique(ps[1..], participantId);
      if ps[0].id != participantId {
        assert HandleParticipantLeft(ps, participantId) == [ps[0]] + rest;
        forall j | 0 <= j < |rest|
          ensures rest[j].id != ps[0].id
        {
          assert rest[j] in ps[1..];
        }
      } else {
        assert HandleParticipantLeft(ps, participantId) == rest;
      }
    }
  }

  /** Removing events keeps the remaining ids distinct. */
  lemma {:induction false} EventDeletedKeepsUnique(es: seq<Event>, eventId: string)
    requires UniqueEventIds(es)
    ensures UniqueEventIds(HandleEventDeleted(es, eventId))
    decreases |es|
  {
    if es != [] {
      var rest := HandleEventDeleted(es[1..], eventId);
      EventDeletedKeepsUnique(es[1..], eventId);
      if es[0].id != eventId {
        assert HandleEventDeleted(es, eventId) == [es[0]] + rest;
        forall j | 0 <= j < |rest|
          ensures rest[j].id != es[0].id
        {
          assert rest[j] in es[1..];
        }
      } else {
        assert HandleEventDeleted(es, eventId) == rest;
      }
    }
  }

  /** Removing events cannot create a second active one. */
  lemma {:induction false} EventDeletedKeepsAtMostOneActive(es: seq<Event>, eventId: string)
    requires AtMostOneActive(es)
    ensures AtMostOneActive(HandleEventDeleted(es, eventId))
    decreases |es|
  {
    if es != [] {
      var rest := HandleEventDeleted(es[1..], eventId);
      EventDeletedKeepsAtMostOneActive(es[1..], eventId);
      if es[0].id != eventId {
        assert HandleEventDeleted(es, eventId) == [es[0]] + rest;
        if es[0].active {
          forall j | 0 <= j < |rest|
            ensures !rest[j].active
          {
            assert rest[j] in es[1..];
          }
        }
      } else {
        assert HandleEventDeleted(es, eventId) == rest;
      }
    }
  }

  /** Adding an event keeps ids distinct and at most one event active; an
      active newcomer that is really added is then the only active event. */
  lemma EventAddedKeepsInvariants(es: seq<Event>, e: Event)
    requires UniqueEventIds(es) && AtMostOneActive(es)
    ensures UniqueEventIds(HandleEventAdded(es, e))
    ensures AtMostOneActive(HandleEventAdded(es, e))
    ensures e.active && !HasEvent(es, e.id) ==>
              forall i :: 0 <= i < |es| + 1 ==> (HandleEventAdded(es, e)[i].active <==> i == |es|)
  {
    var r := HandleEventAdded(es, e);
    if !HasEvent(es, e.id) {
      forall i, j | 0 <= i < j < |r|
        ensures r[i].id != r[j].id
      {
        if j == |es| {
          assert es[i].id != e.id;
        }
      }
    }
  }

  /** Updating an event keeps ids distinct and at most one event active;
      an active update of a known id leaves exactly that event active. */
  lemma EventUpdatedKeepsInvariants(es: seq<Event>, e: Event)
    requires UniqueEventIds(es) && AtMostOneActive(es)
    ensures UniqueEventIds(HandleEventUpdated(es, e))
    ensures AtMostOneActive(HandleEventUpdated(es, e))
    ensures e.active ==>
              forall i :: 0 <= i < |es| ==> (HandleEventUpdated(es, e)[i].active <==> es[i].id == e.id)
  {
    var r := HandleEventUpdated(es, e);
    assert forall i :: 0 <= i < |es| ==> r[i].id == es[i].id;
  }

  // ---------------------------------------------------------------------
  // Idempotence under replay
  // ---------------------------------------------------------------------

  lemma LocationUpdateIdempotent(ps: seq<Participant>, u: LocationUpdate)
    ensures HandleLocationUpdate(HandleLocationUpdate(ps, u), u) == HandleLocationUpdate(ps, u)
  {
    var r := HandleLocationUpdate(ps, u);
    assert forall i :: 0 <= i < |ps| ==> r[i].id == ps[i].id;
  }

  lemma PanicIdempotent(ps: seq<Participant>, d: PanicData)
    ensures HandlePanic(HandlePanic(ps, d), d) == HandlePanic(ps, d)
  {
    var r := HandlePanic(ps, d);
    assert forall i :: 0 <= i < |ps| ==> r[i].id == ps[i].id;
  }

  lemma PanicCanceledIdempotent(ps: seq<Participant>, participantId: string)
    ensures HandlePanicCanceled(HandlePanicCanceled(ps, participantId), participantId)
         == HandlePanicCanceled(ps, participantId)
  {
    var r := HandlePanicCanceled(ps, participantId);
    assert forall i :: 0 <= i < |ps| ==> r[i].id == ps[i].id;
  }

  lemma ParticipantRegisteredIdempotent(ps: seq<Participant>, p: Participant)
    ensures HandleParticipantRegistered(HandleParticipantRegistered(ps, p), p)
         == HandleParticipantRegistered(ps, p)
  {
  }

  lemma ParticipantLeftIdempotent(ps: seq<Participant>, participantId: string)
    ensures HandleParticipantLeft(HandleParticipantLeft(ps, participantId), participantId)
         == HandleParticipantLeft(ps, participantId)
  {
  }

  lemma EventAddedIdempotent(es: seq<Event>, e: Event)
    ensures HandleEventAdded(HandleEventAdded(es, e), e) == HandleEventAdded(es, e)
  {
    var r := HandleEventAdded(es, e);
    if !HasEvent(es, e.id) {
      assert r[|es|].id == e.id;
    }
  }

  lemma EventUpdatedIdempotent(es: seq<Event>, e: Event)
    ensures HandleEventUpdated(HandleEventUpdated(es, e), e) == HandleEventUpdated(es, e)
  {
    var r := HandleEventUpdated(es, e);
    assert forall i :: 0 <= i < |es| ==> r[i].id == es[i].id;
  }

  lemma EventDeletedIdempotent(es: seq<Event>, eventId: string)
    ensures HandleEventDeleted(HandleEventDeleted(es, eventId), eventId) == HandleEventDeleted(es, eventId)
  {
  }
}
