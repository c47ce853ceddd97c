/** The participant registration form (components/ParticipantRegister.tsx):
    the required-fields check of its submit handler and the submit button
    that is disabled while no event is offered. */
module Register {
  import opened Common
  import opened Types
  import opened Strings
  import opened Reducer
  import opened Sync
  import opened Dashboard

  /** The form's fields: name, participant number and the chosen event's id
      (`""` until one is chosen). */
  datatype RegisterForm = RegisterForm(name: string, number: string, selectedEventId: string)

  /** What a submit leaves behind: the error line shown under the form and
      the registration handed to the application, if any. */
  datatype SubmitResult = SubmitResult(error: string, registered: Option<Registration>)

  const RequiredFieldsError: string := "Todos los campos son obligatorios."

  /** `handleSubmit`: a blank name or number (after trimming) or no chosen
      event sets the error and registers nothing; otherwise the error is
      cleared and the fields go out as typed, untrimmed. */
  function Submit(f: RegisterForm): (r: SubmitResult)
    ensures r.registered.Some? <==> !IsBlank(f.name) && !IsBlank(f.number) && f.selectedEventId != ""
    ensures r.registered.Some? ==> r.registered.value == Registration(f.name, f.number, f.selectedEventId)
    ensures r.registered.None? ==> r.error == RequiredFieldsError
    ensures r.error == "" <==> r.registered.Some?
  {
    if Trim(f.name) == "" || Trim(f.number) == "" || f.selectedEventId == "" then
      SubmitResult(RequiredFieldsError, None)
    else
      SubmitResult("", Some(Registration(f.name, f.number, f.selectedEventId)))
  }

  /** The browser's check of the `required` select and inputs: an empty
      field, or the select still on its disabled `""` placeholder, blocks
      the submit. Whitespace counts as filled in. */
  predicate MissingRequired(f: RegisterForm)
  {
    f.name == "" || f.number == "" || f.selectedEventId == ""
  }

  /** Pressing the submit button with `offered` as the event list: the
      button is disabled while the list is empty, and the browser's form
      validation stops an empty required field before `handleSubmit` runs;
      otherwise the handler runs. Its error line is therefore reached only
      by a name or number made of whitespace alone. */
  function PressSubmit(offered: seq<Event>, f: RegisterForm): (r: Option<SubmitResult>)
    ensures r.None? <==> |offered| == 0 || f.name == "" || f.number == "" || f.selectedEventId == ""
    ensures r.Some? ==> r.value == Submit(f)
    ensures r.Some? && r.value.error != "" ==>
              (f.name != "" && IsBlank(f.name)) || (f.number != "" && IsBlank(f.number))
  {
    if |offered| == 0 || MissingRequired(f) then None else Some(Submit(f))
  }

  /** Surrounding whitespace never decides whether the form goes through,
      though it travels with the registration when it does. */
  lemma SubmitIgnoresSurroundingWhitespace(f: RegisterForm)
    ensures var g := f.(name := Trim(f.name), number := Trim(f.number));
            Submit(g).registered.Some? == Submit(f).registered.Some?
  {
    TrimIdempotent(f.name);
    TrimIdempotent(f.number);
  }

  /** With no active event the registration form offers nothing and no one
      can register. */
  lemma NoActiveEventNoRegistration(es: seq<Event>, f: RegisterForm)
    requires forall i :: 0 <= i < |es| ==> !es[i].active
    ensures PressSubmit(ActiveEvents(es), f).None?
  {
  }

  /** A participant who fills the form for the active event (whose id, like
      every generated one, is not empty) and gets a fresh id shows up, once the registration comes back, among the
      participants the dashboard lists for that event, and only once. */
  lemma RegistrationReachesDashboard(s: Store, f: RegisterForm, id: string, i: nat)
    requires Valid(s) && !HasParticipant(s.participants, id)
    requires i < |s.events| && s.events[i].active && f.selectedEventId == s.events[i].id
    requires s.events[i].id != ""
    requires !IsBlank(f.name) && !IsBlank(f.number)
    ensures var r := PressSubmit(ActiveEvents(s.events), f);
            && r.Some? && r.value.registered.Some?
            && var p := NewParticipant(id, r.value.registered.value);
               var s1 := Apply(s, ParticipantRegistered(p));
               && p in FilteredParticipants(s1.participants, s1.events)
               && CountParticipants(s1.participants, id) == 1
  {
    ActiveEventIsTheActiveOne(s.events, i);
    var reg := Registration(f.name, f.number, f.selectedEventId);
    assert Submit(f).registered == Some(reg);
    assert PressSubmit(ActiveEvents(s.events), f) == Some(Submit(f));
    var p := NewParticipant(id, reg);
    var s1 := Apply(s, ParticipantRegistered(p));
    RegistrationRoundTrip(s, id, reg);
    assert s1.events == s.events;
    assert s1.participants[|s1.participants| - 1] == p;
  }
}
