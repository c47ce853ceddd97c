/** The application shell (App.tsx) around the reducer: the eight domain
    messages as one closed union, the pair of lists they fold into, the
    wiring of the eight handlers onto the transport client, and the
    outbound messages the user's actions produce. */
module Sync {
  import opened Common
  import opened Types
  import opened Reducer
  import opened Socket

  /** The state the shell owns: `events` and `participants`. */
  datatype Store = Store(events: seq<Event>, participants: seq<Participant>)

  /** The eight domain messages, each with its payload. */
  datatype Message =
    | LocationUpdated(update: LocationUpdate)
    | PanicRaised(panic: PanicData)
    | ParticipantRegistered(participant: Participant)
    | ParticipantLeft(participantId: string)
    | EventAdded(event: Event)
    | EventUpdated(event: Event)
    | EventDeleted(eventId: string)
    | PanicCanceled(participantId: string)

  /** The eight message kinds, in the order the shell subscribes to them. */
  datatype Kind = KLocationUpdate | KPanic | KParticipantRegistered | KParticipantLeft
                | KEventAdded | KEventUpdated | KEventDeleted | KCancelPanic

  const Kinds: seq<Kind> := [KLocationUpdate, KPanic, KParticipantRegistered, KParticipantLeft,
                             KEventAdded, KEventUpdated, KEventDeleted, KCancelPanic]

  function KindOf(m: Message): Kind
  {
    match m
    case LocationUpdated(_) => KLocationUpdate
    case PanicRaised(_) => KPanic
    case ParticipantRegistered(_) => KParticipantRegistered
    case ParticipantLeft(_) => KParticipantLeft
    case EventAdded(_) => KEventAdded
    case EventUpdated(_) => KEventUpdated
    case EventDeleted(_) => KEventDeleted
    case PanicCanceled(_) => KCancelPanic
  }

  /** The event name each kind travels under on the wire. */
  function WireName(k: Kind): string
  {
    match k
    case KLocationUpdate => "location-update"
    case KPanic => "panic"
    case KParticipantRegistered => "participant-registered"
    case KParticipantLeft => "participant-left"
    case KEventAdded => "event-added"
    case KEventUpdated => "event-updated"
    case KEventDeleted => "event-deleted"
    case KCancelPanic => "cancel-panic"
  }

  /** Distinct kinds travel under distinct names, so a name selects one
      handler of the shell. */
  lemma WireNamesDistinct(k1: Kind, k2: Kind)
    ensures WireName(k1) == WireName(k2) <==> k1 == k2
  {
  }

  predicate IsEventMessage(m: Message)
  {
    m.EventAdded? || m.EventUpdated? || m.EventDeleted?
  }

  /** The shell's invariants: ids unique in both lists, at most one event
      active. */
  predicate Valid(s: Store)
  {
    UniqueParticipantIds(s.participants) && UniqueEventIds(s.events) && AtMostOneActive(s.events)
  }

  /** The handler a message reaches; participant messages leave the events
      alone and event messages leave the participants alone. */
  function Apply(s: Store, m: Message): (r: Store)
    ensures IsEventMessage(m) ==> r.participants == s.participants
    ensures !IsEventMessage(m) ==> r.events == s.events
  {
    match m
    case LocationUpdated(u) => s.(participants := HandleLocationUpdate(s.participants, u))
    case PanicRaised(d) => s.(participants := HandlePanic(s.participants, d))
    case ParticipantRegistered(p) => s.(participants := HandleParticipantRegistered(s.participants, p))
    case ParticipantLeft(id) => s.(participants := HandleParticipantLeft(s.participants, id))
    case EventAdded(e) => s.(events := HandleEventAdded(s.events, e))
    case EventUpdated(e) => s.(events := HandleEventUpdated(s.events, e))
    case EventDeleted(id) => s.(events := HandleEventDeleted(s.events, id))
    case PanicCanceled(id) => s.(participants := HandlePanicCanceled(s.participants, id))
  }

  /** Folding a stream of messages, in arrival order. */
  function ApplyAll(s: Store, ms: seq<Message>): Store
    decreases |ms|
  {
    if ms == [] then s else ApplyAll(Apply(s, ms[0]), ms[1..])
  }

  /** Every message keeps the invariants. */
  lemma ApplyKeepsValid(s: Store, m: Message)
    requires Valid(s)
    ensures Valid(Apply(s, m))
  {
    match m
    case LocationUpdated(u) => MappedHandlersKeepIds(s.participants, u, PanicData("", None), "");
    case PanicRaised(d) => MappedHandlersKeepIds(s.participants, LocationUpdate("", Location(0.0, 0.0), 0), d, "");
    case PanicCanceled(id) => MappedHandlersKeepIds(s.participants, LocationUpdate("", Location(0.0, 0.0), 0), PanicData("", None), id);
    case ParticipantRegistered(p) =>
    case ParticipantLeft(id) => ParticipantLeftKeepsUnique(s.participants, id);
    case EventAdded(e) => EventAddedKeepsInvariants(s.events, e);
    case EventUpdated(e) => EventUpdatedKeepsInvariants(s.events, e);
    case EventDeleted(id) =>
      EventDeletedKeepsUnique(s.events, id);
      EventDeletedKeepsAtMostOneActive(s.events, id);
  }

  /** Whatever messages arrive, in whatever order and with whatever
      duplicates, the invariants hold after each of them. */
  lemma {:induction false} ApplyAllKeepsValid(s: Store, ms: seq<Message>)
    requires Valid(s)
    ensures Valid(ApplyAll(s, ms))
    decreases |ms|
  {
    if ms != [] {
      ApplyKeepsValid(s, ms[0]);
      ApplyAllKeepsValid(Apply(s, ms[0]), ms[1..]);
    }
  }

  /** A message delivered twice in a row has the effect of one delivery. */
  lemma ApplyIdempotent(s: Store, m: Message)
    ensures Apply(Apply(s, m), m) == Apply(s, m)
  {
    match m
    case LocationUpdated(u) => LocationUpdateIdempotent(s.participants, u);
    case PanicRaised(d) => PanicIdempotent(s.participants, d);
    case ParticipantRegistered(p) => ParticipantRegisteredIdempotent(s.participants, p);
    case ParticipantLeft(id) => ParticipantLeftIdempotent(s.participants, id);
    case EventAdded(e) => EventAddedIdempotent(s.events, e);
    case EventUpdated(e) => EventUpdatedIdempotent(s.events, e);
    case EventDeleted(id) => EventDeletedIdempotent(s.events, id);
    case PanicCanceled(id) => PanicCanceledIdempotent(s.participants, id);
  }

  // ---------------------------------------------------------------------
  // Scenarios
  // ---------------------------------------------------------------------

  /** How many participants carry the id. */
  function CountParticipants(ps: seq<Participant>, id: string): (n: nat)
    ensures n <= |ps|
    ensures n == 0 <==> !HasParticipant(ps, id)
  {
    if ps == [] then 0
    else
      var rest := CountParticipants(ps[1..], id);
      assert HasParticipant(ps, id) <==> ps[0].id == id || HasParticipant(ps[1..], id) by {
        if HasParticipant(ps, id) && ps[0].id != id {
          var i :| 0 <= i < |ps| && ps[i].id == id;
          assert ps[1..][i - 1].id == id;
        }
        if HasParticipant(ps[1..], id) {
          var i :| 0 <= i < |ps[1..]| && ps[1..][i].id == id;
          assert ps[i + 1].id == id;
        }
      }
      (if ps[0].id == id then 1 else 0) + rest
  }

  /** With unique ids, an id occurs at most once. */
  lemma {:induction false} UniqueCountsAtMostOne(ps: seq<Participant>, id: string)
    requires UniqueParticipantIds(ps)
    ensures CountParticipants(ps, id) <= 1
    decreases |ps|
  {
    if ps != [] {
      UniqueCountsAtMostOne(ps[1..], id);
      if ps[0].id == id {
        forall i | 0 <= i < |ps[1..]|
          ensures ps[1..][i].id != id
        {
          assert ps[1..][i] == ps[i + 1];
        }
      }
    }
  }

  /** Registering the same participant twice, starting from any valid
      store, leaves exactly one entry with its id. */
  lemma RegisterTwiceKeepsOne(s: Store, p: Participant)
    requires Valid(s)
    ensures CountParticipants(ApplyAll(s, [ParticipantRegistered(p), ParticipantRegistered(p)]).participants, p.id) == 1
  {
    var m := ParticipantRegistered(p);
    ApplyIdempotent(s, m);
    assert ApplyAll(s, [m, m]) == Apply(s, m) by {
      assert [m, m][1..] == [m];
      assert ApplyAll(Apply(s, m), [m]) == Apply(Apply(s, m), m);
    }
    ApplyKeepsValid(s, m);
    UniqueCountsAtMostOne(Apply(s, m).participants, p.id);
  }

  /** A panic with a location, then its cancellation: the participant ends
      up tracking again at the location the panic reported. */
  lemma PanicThenCancel(s: Store, i: nat, loc: Location)
    requires i < |s.participants|
    ensures var id := s.participants[i].id;
            var s1 := Apply(s, PanicRaised(PanicData(id, Some(loc))));
            var s2 := Apply(s1, PanicCanceled(id));
            && s1.participants[i].status == Panic && s1.participants[i].location == Some(loc)
            && s2.participants[i].status == Tracking && s2.participants[i].location == Some(loc)
  {
  }

  /** Two active events added one after the other: only the second stays
      active. */
  lemma TwoActiveEvents(n1: string, n2: string)
    ensures var s := ApplyAll(Store([], []), [EventAdded(Event("e1", n1, true)), EventAdded(Event("e2", n2, true))]);
            s.events == [Event("e1", n1, false), Event("e2", n2, true)]
  {
    var m1 := EventAdded(Event("e1", n1, true));
    var m2 := EventAdded(Event("e2", n2, true));
    var s1 := Apply(Store([], []), m1);
    assert s1.events == [Event("e1", n1, true)];
    assert !HasEvent(s1.events, "e2");
    var s2 := Apply(s1, m2);
    assert s2.events[0] == Event("e1", n1, false);
    assert s2.events == [Event("e1", n1, false), Event("e2", n2, true)];
    assert [m1, m2][1..] == [m2];
    assert ApplyAll(s1, [m2]) == ApplyAll(s2, []);
  }

  /** A location update for an id nobody has leaves everything unchanged. */
  lemma UnknownLocationUpdateIsNoOp(s: Store, u: LocationUpdate)
    requires !HasParticipant(s.participants, u.participantId)
    ensures Apply(s, LocationUpdated(u)) == s
  {
  }

  // ---------------------------------------------------------------------
  // Subscribing the handlers to the transport client
  // ---------------------------------------------------------------------

  /** The (name, handler) pairs the shell registers, one per kind. */
  function Subscriptions(ids: Kind -> HandlerId): (subs: seq<(string, HandlerId)>)
    ensures |subs| == |Kinds|
    ensures forall i :: 0 <= i < |Kinds| ==> subs[i] == (WireName(Kinds[i]), ids(Kinds[i]))
  {
    seq(|Kinds|, i requires 0 <= i < |Kinds| => (WireName(Kinds[i]), ids(Kinds[i])))
  }

  /** The handlers of `subs` registered under `name`, in order. */
  function HandlersFor(subs: seq<(string, HandlerId)>, name: string): seq<HandlerId>
  {
    if subs == [] then []
    else (if subs[0].0 == name then [subs[0].1] else []) + HandlersFor(subs[1..], name)
  }

  function OnAll<D>(c: Client<D>, subs: seq<(string, HandlerId)>): Client<D>
    decreases |subs|
  {
    if subs == [] then c else OnAll(On(c, subs[0].0, subs[0].1), subs[1..])
  }

  function OffAll<D>(c: Client<D>, subs: seq<(string, HandlerId)>): Client<D>
    decreases |subs|
  {
    if subs == [] then c else OffAll(Off(c, subs[0].0, subs[0].1), subs[1..])
  }

  /** Registering a batch touches only the listener record, and keeps the
      client well formed. */
  lemma {:induction false} OnAllFrame<D>(c: Client<D>, subs: seq<(string, HandlerId)>)
    ensures OnAll(c, subs).(listeners := c.listeners) == c
    ensures Wf(c) ==> Wf(OnAll(c, subs))
    decreases |subs|
  {
    if subs != [] {
      OnAllFrame(On(c, subs[0].0, subs[0].1), subs[1..]);
    }
  }

  /** Unregistering a batch touches only the listener record, and keeps the
      client well formed. */
  lemma {:induction false} OffAllFrame<D>(c: Client<D>, subs: seq<(string, HandlerId)>)
    ensures OffAll(c, subs).(listeners := c.listeners) == c
    ensures Wf(c) ==> Wf(OffAll(c, subs))
    decreases |subs|
  {
    if subs != [] {
      OffAllFrame(Off(c, subs[0].0, subs[0].1), subs[1..]);
    }
  }

  /** Removes each handler of `hs` in turn. */
  function RemoveEach(s: seq<HandlerId>, hs: seq<HandlerId>): seq<HandlerId>
    decreases |hs|
  {
    if hs == [] then s else RemoveEach(Remove(s, hs[0]), hs[1..])
  }

  /** Subscribing a list appends, under each name, that name's handlers. */
  lemma {:induction false} OnAllLookup<D>(c: Client<D>, subs: seq<(string, HandlerId)>, name: string)
    ensures Lookup(OnAll(c, subs), name) == Lookup(c, name) + HandlersFor(subs, name)
    decreases |subs|
  {
    if subs != [] {
      var c1 := On(c, subs[0].0, subs[0].1);
      OnAllLookup(c1, subs[1..], name);
      if subs[0].0 == name {
        OnStepSameName(c, subs, name);
      } else {
        OnStepOtherName(c, subs, name);
      }
    }
  }

  /** One step of `OnAllLookup` when the first subscription is for `name`. */
  lemma OnStepSameName<D>(c: Client<D>, subs: seq<(string, HandlerId)>, name: string)
    requires subs != [] && subs[0].0 == name
    ensures Lookup(On(c, subs[0].0, subs[0].1), name) + HandlersFor(subs[1..], name)
            == Lookup(c, name) + HandlersFor(subs, name)
  {
    var rest := HandlersFor(subs[1..], name);
    assert HandlersFor(subs, name) == [subs[0].1] + rest;
    assert (Lookup(c, name) + [subs[0].1]) + rest == Lookup(c, name) + ([subs[0].1] + rest);
  }

  /** One step of `OnAllLookup` when the first subscription is for another
      name. */
  lemma OnStepOtherName<D>(c: Client<D>, subs: seq<(string, HandlerId)>, name: string)
    requires subs != [] && subs[0].0 != name
    ensures Lookup(On(c, subs[0].0, subs[0].1), name) + HandlersFor(subs[1..], name)
            == Lookup(c, name) + HandlersFor(subs, name)
  {
    var c1 := On(c, subs[0].0, subs[0].1);
    assert Lookup(c1, name) == Lookup(c, name);
    assert HandlersFor(subs, name) == HandlersFor(subs[1..], name);
  }

  /** Unsubscribing a list removes, under each name, that name's handlers. */
  lemma {:induction false} OffAllLookup<D>(c: Client<D>, subs: seq<(string, HandlerId)>, name: string)
    ensures Lookup(OffAll(c, subs), name) == RemoveEach(Lookup(c, name), HandlersFor(subs, name))
    decreases |subs|
  {
    if subs != [] {
      var c1 := Off(c, subs[0].0, subs[0].1);
      OffAllLookup(c1, subs[1..], name);
      var hs := HandlersFor(subs, name);
      if subs[0].0 == name {
        assert Lookup(c1, name) == Remove(Lookup(c, name), subs[0].1);
        assert hs == [subs[0].1] + HandlersFor(subs[1..], name);
        assert hs[0] == subs[0].1 && hs[1..] == HandlersFor(subs[1..], name);
      } else {
        assert Lookup(c1, name) == Lookup(c, name);
        assert hs == HandlersFor(subs[1..], name);
      }
    }
  }

  /** Where a kind sits in `Kinds`. */
  function KindIndex(k: Kind): (i: nat)
    ensures i < |Kinds| && Kinds[i] == k
  {
    match k
    case KLocationUpdate => 0
    case KPanic => 1
    case KParticipantRegistered => 2
    case KParticipantLeft => 3
    case KEventAdded => 4
    case KEventUpdated => 5
    case KEventDeleted => 6
    case KCancelPanic => 7
  }

  lemma {:induction false} HandlersForNone(subs: seq<(string, HandlerId)>, name: string)
    requires forall j :: 0 <= j < |subs| ==> subs[j].0 != name
    ensures HandlersFor(subs, name) == []
    decreases |subs|
  {
    if subs != [] {
      HandlersForNone(subs[1..], name);
    }
  }

  lemma {:induction false} HandlersForOne(subs: seq<(string, HandlerId)>, name: string, i: nat)
    requires i < |subs| && subs[i].0 == name
    requires forall j :: 0 <= j < |subs| && j != i ==> subs[j].0 != name
    ensures HandlersFor(subs, name) == [subs[i].1]
    decreases |subs|
  {
    if i == 0 {
      HandlersForNone(subs[1..], name);
    } else {
      HandlersForOne(subs[1..], name, i - 1);
    }
  }

  /** Under each kind's name the subscription list holds exactly that
      kind's handler. */
  lemma SubscriptionsOfKind(ids: Kind -> HandlerId, k: Kind)
    ensures HandlersFor(Subscriptions(ids), WireName(k)) == [ids(k)]
  {
    var subs := Subscriptions(ids);
    var i := KindIndex(k);
    forall j | 0 <= j < |subs| && j != i
      ensures subs[j].0 != WireName(k)
    {
      WireNamesDistinct(Kinds[j], k);
    }
    HandlersForOne(subs, WireName(k), i);
  }

  /** A name no kind travels under has no subscription. */
  lemma SubscriptionsOfOtherName(ids: Kind -> HandlerId, name: string)
    requires forall k :: WireName(k) != name
    ensures HandlersFor(Subscriptions(ids), name) == []
  {
    var subs := Subscriptions(ids);
    forall j | 0 <= j < |subs|
      ensures subs[j].0 != name
    {
      assert subs[j].0 == WireName(Kinds[j]);
    }
    HandlersForNone(subs, name);
  }

  /** `useEffect` set-up (App.tsx): the eight handlers registered. Each
      kind's handler goes to the end of its name's list; every other name,
      and everything of the client but its listeners, is left alone. */
  function Mount<D>(c: Client<D>, ids: Kind -> HandlerId): (r: Client<D>)
    ensures forall k :: Lookup(r, WireName(k)) == Lookup(c, WireName(k)) + [ids(k)]
    ensures forall n :: (forall k :: WireName(k) != n) ==> Lookup(r, n) == Lookup(c, n)
    ensures r.(listeners := c.listeners) == c
    ensures Wf(c) ==> Wf(r)
  {
    var subs := Subscriptions(ids);
    var r := OnAll(c, subs);
    OnAllFrame(c, subs);
    assert forall k :: Lookup(r, WireName(k)) == Lookup(c, WireName(k)) + [ids(k)] by {
      forall k
        ensures Lookup(r, WireName(k)) == Lookup(c, WireName(k)) + [ids(k)]
      {
        OnAllLookup(c, subs, WireName(k));
        SubscriptionsOfKind(ids, k);
      }
    }
    assert forall n :: (forall k :: WireName(k) != n) ==> Lookup(r, n) == Lookup(c, n) by {
      forall n | forall k :: WireName(k) != n
        ensures Lookup(r, n) == Lookup(c, n)
      {
        OnAllLookup(c, subs, n);
        SubscriptionsOfOtherName(ids, n);
      }
    }
    r
  }

  /** `useEffect` clean-up: the same eight handlers unregistered. Every copy
      of each kind's handler leaves its name's list; every other name, and
      everything of the client but its listeners, is left alone. */
  function Unmount<D>(c: Client<D>, ids: Kind -> HandlerId): (r: Client<D>)
    ensures forall k :: Lookup(r, WireName(k)) == Remove(Lookup(c, WireName(k)), ids(k))
    ensures forall n :: (forall k :: WireName(k) != n) ==> Lookup(r, n) == Lookup(c, n)
    ensures r.(listeners := c.listeners) == c
    ensures Wf(c) ==> Wf(r)
  {
    var subs := Subscriptions(ids);
    var r := OffAll(c, subs);
    OffAllFrame(c, subs);
    assert forall k :: Lookup(r, WireName(k)) == Remove(Lookup(c, WireName(k)), ids(k)) by {
      forall k
        ensures Lookup(r, WireName(k)) == Remove(Lookup(c, WireName(k)), ids(k))
      {
        OffAllLookup(c, subs, WireName(k));
        SubscriptionsOfKind(ids, k);
        assert [ids(k)][1..] == [];
      }
    }
    assert forall n :: (forall k :: WireName(k) != n) ==> Lookup(r, n) == Lookup(c, n) by {
      forall n | forall k :: WireName(k) != n
        ensures Lookup(r, n) == Lookup(c, n)
      {
        OffAllLookup(c, subs, n);
        SubscriptionsOfOtherName(ids, n);
      }
    }
    r
  }

  /** Mounting and then unmounting leaves every name's handler list as it
      was, provided none of the shell's handlers was registered before. */
  lemma MountThenUnmount<D>(c: Client<D>, ids: Kind -> HandlerId, name: string)
    requires forall k :: ids(k) !in Lookup(c, WireName(k))
    ensures Lookup(Unmount(Mount(c, ids), ids), name) == Lookup(c, name)
  {
    if k :| WireName(k) == name {
      RemoveAppend(Lookup(c, name), [ids(k)], ids(k));
    }
  }

  // ---------------------------------------------------------------------
  // Outbound messages
  // ---------------------------------------------------------------------

  /** Emitting a message under its kind's name. */
  function Send(c: Client<Message>, m: Message): (r: Client<Message>)
    ensures Wf(c) ==> r.sent + r.queue == c.sent + c.queue + [Envelope(WireName(KindOf(m)), m)]
    ensures Wf(c) ==> Wf(r)
  {
    Emit(c, WireName(KindOf(m)), m)
  }

  /** `handleParticipantRegister`: the new participant starts tracking,
      without location or timestamp, under the id the caller generated. */
  function NewParticipant(id: string, reg: Registration): (p: Participant)
    ensures p.id == id && p.status == Tracking
    ensures p.name == reg.name && p.number == reg.number && p.eventId == reg.eventId
    ensures p.location.None? && p.lastUpdate.None?
  {
    Participant(id, reg.name, reg.number, reg.eventId, None, Tracking, None)
  }

  /** `addEvent`: the drafted event under the id the caller generated. */
  function NewEvent(id: string, draft: EventDraft): (e: Event)
    ensures e.id == id && e.name == draft.name && e.active == draft.active
  {
    Event(id, draft.name, draft.active)
  }

  /** A freshly registered participant, once its own message comes back,
      is in the list exactly once, tracking, in the chosen event. */
  lemma RegistrationRoundTrip(s: Store, id: string, reg: Registration)
    requires Valid(s) && !HasParticipant(s.participants, id)
    ensures var r := Apply(s, ParticipantRegistered(NewParticipant(id, reg)));
            && CountParticipants(r.participants, id) == 1
            && r.participants[|r.participants| - 1] == NewParticipant(id, reg)
  {
    var m := ParticipantRegistered(NewParticipant(id, reg));
    ApplyKeepsValid(s, m);
    UniqueCountsAtMostOne(Apply(s, m).participants, id);
  }

  /** `activeEvents`: the events offered to a registering participant. */
  function ActiveEvents(es: seq<Event>): (r: seq<Event>)
    ensures forall i :: 0 <= i < |r| ==> r[i].active && r[i] in es
    ensures forall i :: 0 <= i < |es| && es[i].active ==> es[i] in r
    ensures IsSubsequence(r, es)
    ensures forall y {:trigger multiset(r)[y]} :: multiset(r)[y] == if y.active then multiset(es)[y] else 0
    ensures AtMostOneActive(es) ==> |r| <= 1
  {
    var r := Filter((e: Event) => e.active, es);
    assert AtMostOneActive(es) ==> |r| <= 1 by {
      if AtMostOneActive(es) {
        ActiveFilterAtMostOne(es);
      }
    }
    r
  }

  lemma {:induction false} ActiveFilterAtMostOne(es: seq<Event>)
    requires AtMostOneActive(es)
    ensures |Filter((e: Event) => e.active, es)| <= 1
    decreases |es|
  {
    if es != [] {
      ActiveFilterAtMostOne(es[1..]);
    }
  }
}
