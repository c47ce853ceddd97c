/** The participant's tracking screen (components/ParticipantTracking.tsx):
    the two-step panic button and leaving the race. */
module Tracking {
  import opened Common
  import opened Types
  import opened Socket
  import opened Sync

  // ---------------------------------------------------------------------
  // The panic button
  // ---------------------------------------------------------------------

  /** `panicSent` and `isConfirmingPanic`. */
  datatype PanicUi = PanicUi(panicSent: bool, confirming: bool)

  const InitialUi: PanicUi := PanicUi(false, false)

  /** Neither sent nor confirming: the panic button and the stop-tracking
      button are on screen. */
  predicate Idle(ui: PanicUi)
  {
    !ui.panicSent && !ui.confirming
  }

  /** Asking for confirmation: the confirm and cancel buttons are on screen. */
  predicate Confirming(ui: PanicUi)
  {
    !ui.panicSent && ui.confirming
  }

  /** `handlePanicClick`. */
  function PanicClick(ui: PanicUi): (r: PanicUi)
    ensures r.confirming && r.panicSent == ui.panicSent
  {
    ui.(confirming := true)
  }

  /** `handleCancelPanic`: back out without sending anything. */
  function CancelPanic(ui: PanicUi): (r: PanicUi)
    ensures !r.confirming && r.panicSent == ui.panicSent
  {
    ui.(confirming := false)
  }

  /** The envelope a confirmed panic sends. */
  function PanicEnvelope(p: Participant): Envelope<Message>
  {
    Envelope("panic", PanicRaised(PanicData(p.id, p.location)))
  }

  /** `handleConfirmPanic`: one `panic` message with the participant's id and
      current location goes out, the alert counts as sent and the
      confirmation closes. */
  function ConfirmPanic(ui: PanicUi, p: Participant, c: Client<Message>): (r: (PanicUi, Client<Message>))
    ensures r.0.panicSent && !r.0.confirming
    ensures Wf(c) ==> r.1.sent + r.1.queue == c.sent + c.queue + [PanicEnvelope(p)]
    ensures Wf(c) ==> Wf(r.1)
    ensures r.1.(sent := c.sent, queue := c.queue) == c
  {
    (PanicUi(true, false), Send(c, PanicRaised(PanicData(p.id, p.location))))
  }

  /** `stopTracking` (App.tsx) as reached from this screen: announces that
      the participant left. */
  function StopTracking(c: Client<Message>, participantId: string): (r: Client<Message>)
    ensures Wf(c) ==> r.sent + r.queue == c.sent + c.queue + [Envelope("participant-left", ParticipantLeft(participantId))]
    ensures r.(sent := c.sent, queue := c.queue) == c
  {
    Send(c, ParticipantLeft(participantId))
  }

  /** The buttons of the panic area. */
  datatype Press = PressPanic | PressConfirm | PressCancel

  /** A button can be pressed only while it is rendered. */
  predicate Shown(ui: PanicUi, b: Press)
  {
    match b
    case PressPanic => Idle(ui)
    case PressConfirm => Confirming(ui)
    case PressCancel => Confirming(ui)
  }

  /** The screen and the client after a series of presses; None if some
      press was on a button that was not rendered. */
  function Presses(ui: PanicUi, p: Participant, c: Client<Message>, bs: seq<Press>): Option<(PanicUi, Client<Message>)>
    decreases |bs|
  {
    if bs == [] then Some((ui, c))
    else if !Shown(ui, bs[0]) then None
    else
      match bs[0]
      case PressPanic => Presses(PanicClick(ui), p, c, bs[1..])
      case PressCancel => Presses(CancelPanic(ui), p, c, bs[1..])
      case PressConfirm =>
        var (ui1, c1) := ConfirmPanic(ui, p, c);
        Presses(ui1, p, c1, bs[1..])
  }

  /** Whatever the participant presses, at most one panic message leaves
      the screen: it goes out exactly when the alert turns to sent, and a
      sent alert stays sent, which also hides the stop-tracking button for
      good. */
  lemma {:induction false} AtMostOnePanic(ui: PanicUi, p: Participant, c: Client<Message>, bs: seq<Press>)
    requires Wf(c)
    ensures var r := Presses(ui, p, c, bs);
            r.Some? ==>
              && r.value.1.sent + r.value.1.queue
                   == c.sent + c.queue + (if r.value.0.panicSent && !ui.panicSent then [PanicEnvelope(p)] else [])
              && (ui.panicSent ==> r.value.0.panicSent && !Idle(r.value.0))
    decreases |bs|
  {
    if bs != [] && Shown(ui, bs[0]) {
      match bs[0]
      case PressPanic => AtMostOnePanic(PanicClick(ui), p, c, bs[1..]);
      case PressCancel => AtMostOnePanic(CancelPanic(ui), p, c, bs[1..]);
      case PressConfirm =>
        var (ui1, c1) := ConfirmPanic(ui, p, c);
        AtMostOnePanic(ui1, p, c1, bs[1..]);
    }
  }
}
