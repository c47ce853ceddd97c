/** The admin dashboard's derived views and its event form
    (components/AdminDashboard.tsx): which event is active, whose
    participants are shown, who is panicking, and what saving the form
    sends. */
module Dashboard {
  import opened Common
  import opened Types
  import opened Reducer
  import opened Strings
  import opened Sync

  // ---------------------------------------------------------------------
  // Derived views
  // ---------------------------------------------------------------------

  /** Position of the first active event, if any. */
  function FirstActive(es: seq<Event>): (r: Option<nat>)
    ensures r.None? <==> forall i :: 0 <= i < |es| ==> !es[i].active
    ensures r.Some? ==> r.value < |es| && es[r.value].active
    ensures r.Some? ==> forall j :: 0 <= j < r.value ==> !es[j].active
  {
    if es == [] then None
    else if es[0].active then Some(0)
    else
      match FirstActive(es[1..])
      case None => None
      case Some(k) => Some(k + 1)
  }

  /** `events.find(e => e.active)`: the first active event in list order. */
  function ActiveEvent(es: seq<Event>): (r: Option<Event>)
    ensures r.None? <==> forall i :: 0 <= i < |es| ==> !es[i].active
    ensures r.Some? ==> r.value.active && r.value in es
    ensures r.Some? ==> exists k :: 0 <= k < |es| && es[k] == r.value
                                  && forall j :: 0 <= j < k ==> !es[j].active
  {
    match FirstActive(es)
    case None => None
    case Some(k) => Some(es[k])
  }

  /** With at most one active event, the active event is that event, and it
      is the only entry of the list offered to registering participants. */
  lemma ActiveEventIsTheActiveOne(es: seq<Event>, i: nat)
    requires AtMostOneActive(es)
    requires i < |es| && es[i].active
    ensures ActiveEvent(es) == Some(es[i])
    ensures ActiveEvents(es) == [es[i]]
  {
    var k := FirstActive(es).value;
    assert k == i;
    var r := ActiveEvents(es);
    assert es[i] in r;
  }

  /** `participants.filter(p => p.eventId === activeEvent?.id)`: with no
      active event the comparison is with `undefined`, which no id equals. */
  function FilteredParticipants(ps: seq<Participant>, es: seq<Event>): (r: seq<Participant>)
    ensures ActiveEvent(es).None? ==> r == []
    ensures ActiveEvent(es).Some? ==>
              && (forall i :: 0 <= i < |r| ==> r[i].eventId == ActiveEvent(es).value.id)
              && (forall i :: 0 <= i < |ps| && ps[i].eventId == ActiveEvent(es).value.id ==> ps[i] in r)
    ensures forall i :: 0 <= i < |r| ==> r[i] in ps
    ensures IsSubsequence(r, ps)
    ensures forall y {:trigger multiset(r)[y]} ::
              multiset(r)[y] == if ActiveEvent(es).Some? && y.eventId == ActiveEvent(es).value.id
                                then multiset(ps)[y] else 0
  {
    var target := ActiveEvent(es);
    Filter((p: Participant) => target.Some? && p.eventId == target.value.id, ps)
  }

  /** `filteredParticipants.filter(p => p.status === 'panic')`. */
  function PanicParticipants(ps: seq<Participant>, es: seq<Event>): (r: seq<Participant>)
    ensures forall i :: 0 <= i < |r| ==> r[i].status == Panic && r[i] in FilteredParticipants(ps, es)
    ensures forall i :: 0 <= i < |FilteredParticipants(ps, es)| && FilteredParticipants(ps, es)[i].status == Panic
              ==> FilteredParticipants(ps, es)[i] in r
    ensures IsSubsequence(r, FilteredParticipants(ps, es))
    ensures forall y {:trigger multiset(r)[y]} ::
              multiset(r)[y] == if y.status == Panic then multiset(FilteredParticipants(ps, es))[y] else 0
  {
    Filter((p: Participant) => p.status == Panic, FilteredParticipants(ps, es))
  }

  /** A panic message about a participant of the active event puts it on
      the dashboard's alert list. */
  lemma PanicShows(ps: seq<Participant>, es: seq<Event>, i: nat, loc: Option<Location>)
    requires i < |ps|
    requires ActiveEvent(es).Some? && ps[i].eventId == ActiveEvent(es).value.id
    ensures HandlePanic(ps, PanicData(ps[i].id, loc))[i] in PanicParticipants(HandlePanic(ps, PanicData(ps[i].id, loc)), es)
  {
    var ps1 := HandlePanic(ps, PanicData(ps[i].id, loc));
    assert ps1[i].eventId == ps[i].eventId;
    var f1 := FilteredParticipants(ps1, es);
    assert ps1[i] in f1;
    var j :| 0 <= j < |f1| && f1[j] == ps1[i];
    assert f1[j].status == Panic;
  }

  /** After a cancel-panic message the participant is on no alert list. */
  lemma CancelClears(ps: seq<Participant>, es: seq<Event>, i: nat)
    requires i < |ps|
    ensures HandlePanicCanceled(ps, ps[i].id)[i] !in PanicParticipants(HandlePanicCanceled(ps, ps[i].id), es)
  {
  }

  // ---------------------------------------------------------------------
  // The event form
  // ---------------------------------------------------------------------

  /** The dashboard's form state: `isModalOpen` and `editingEvent`. */
  datatype DashboardUi = DashboardUi(modalOpen: bool, editing: Option<Event>)

  /** What saving the form asks the shell to do. */
  datatype SaveAction = UpdateEvent(event: Event) | AddEvent(draft: EventDraft)

  function OpenForCreate(ui: DashboardUi): (r: DashboardUi)
    ensures r.modalOpen && r.editing.None?
  {
    DashboardUi(true, None)
  }

  function OpenForEdit(ui: DashboardUi, e: Event): (r: DashboardUi)
    ensures r.modalOpen && r.editing == Some(e)
  {
    DashboardUi(true, Some(e))
  }

  function CloseModal(ui: DashboardUi): (r: DashboardUi)
    ensures !r.modalOpen && r.editing.None?
  {
    DashboardUi(false, None)
  }

  /** The form's fields when it opens: the edited event's, or blank. */
  function InitForm(editing: Option<Event>): (f: EventDraft)
    ensures editing.Some? ==> f.name == editing.value.name && f.active == editing.value.active
    ensures editing.None? ==> f.name == "" && !f.active
  {
    match editing
    case Some(e) => EventDraft(e.name, e.active)
    case None => EventDraft("", false)
  }

  /** `handleSaveEvent`: an edit keeps the edited event's id and takes name
      and active flag from the form; a creation passes the form without id. */
  function SaveEvent(editing: Option<Event>, form: EventDraft): (r: SaveAction)
    ensures r.UpdateEvent? <==> editing.Some?
    ensures r.UpdateEvent? ==>
              r.event.id == editing.value.id && r.event.name == form.name && r.event.active == form.active
    ensures r.AddEvent? ==> r.draft == form
  {
    match editing
    case Some(e) => UpdateEvent(e.(name := form.name, active := form.active))
    case None => AddEvent(form)
  }

  /** The message the shell emits for a save; a creation gets the id the
      shell generates. */
  function SaveMessage(a: SaveAction, freshId: string): (m: Message)
    ensures a.UpdateEvent? ==> m == EventUpdated(a.event)
    ensures a.AddEvent? ==>
              m.EventAdded? && m.event.id == freshId && m.event.name == a.draft.name && m.event.active == a.draft.active
  {
    match a
    case UpdateEvent(e) => EventUpdated(e)
    case AddEvent(d) => EventAdded(NewEvent(freshId, d))
  }

  datatype SubmitOutcome = SubmitOutcome(action: Option<SaveAction>, ui: DashboardUi)

  /** The form's submit handler: only a name that is not blank after
      trimming saves (the untrimmed name is what is saved) and closes. */
  function SubmitForm(ui: DashboardUi, form: EventDraft): (r: SubmitOutcome)
    ensures r.action.Some? <==> !IsBlank(form.name)
    ensures r.action.Some? ==> r.action.value == SaveEvent(ui.editing, form) && r.ui == CloseModal(ui)
    ensures r.action.None? ==> r.ui == ui
  {
    if Trim(form.name) != "" then SubmitOutcome(Some(SaveEvent(ui.editing, form)), CloseModal(ui))
    else SubmitOutcome(None, ui)
  }

  /** Opening an event for editing and saving without touching the form
      re-sends that very event. */
  lemma UnchangedEditResendsEvent(ui: DashboardUi, e: Event)
    requires !IsBlank(e.name)
    ensures var u := OpenForEdit(ui, e);
            SubmitForm(u, InitForm(u.editing)).action == Some(UpdateEvent(e))
  {
  }

  /** Saving an edit of a stored event, once the update comes back, leaves
      that event with the form's name and flag under its old id; when the
      form says active, it is then the dashboard's active event. */
  lemma EditReachesStore(s: Store, i: nat, form: EventDraft)
    requires Valid(s) && i < |s.events|
    ensures var m := SaveMessage(SaveEvent(Some(s.events[i]), form), "");
            var r := Apply(s, m);
            && r.events[i] == Event(s.events[i].id, form.name, form.active)
            && (form.active ==> ActiveEvent(r.events) == Some(r.events[i]))
  {
    var e := Event(s.events[i].id, form.name, form.active);
    var r := Apply(s, EventUpdated(e));
    EventUpdatedKeepsInvariants(s.events, e);
    if form.active {
      ActiveEventIsTheActiveOne(r.events, i);
    }
  }
}
