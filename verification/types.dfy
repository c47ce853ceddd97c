/** The shared record shapes: participants, events (competitions, not
    messages) and the payloads of the domain messages that carry them. */
module Types {
  import opened Common

  /** A latitude/longitude pair. Nothing in the model computes with the
      coordinates; only equality and copying matter. */
  datatype Location = Location(lat: real, lng: real)

  datatype ParticipantStatus = Tracking | Panic | Finished

  datatype Participant = Participant(
    id: string,
    name: string,
    number: string,
    eventId: string,
    location: Option<Location>,
    status: ParticipantStatus,
    lastUpdate: Option<int>)

  datatype Event = Event(id: string, name: string, active: bool)

  /** Payload of a `location-update` message. */
  datatype LocationUpdate = LocationUpdate(participantId: string, location: Location, timestamp: int)

  /** Payload of a `panic` message: the location is optional. */
  datatype PanicData = PanicData(participantId: string, location: Option<Location>)

  /** What the registration form hands to the application: the participant
      fields the user chose. */
  datatype Registration = Registration(name: string, number: string, eventId: string)

  /** What the event form hands to the application: an event without id. */
  datatype EventDraft = EventDraft(name: string, active: bool)
}
