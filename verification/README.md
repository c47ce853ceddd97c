# Live sports tracker: a Dafny model of its client core

The application follows the participants of a race on a map. Participants
register for the active event on their phones, and their location is then
broadcast while they run. They can raise a panic alert and leave the race.
An organiser watches everyone from a dashboard, manages the events and
clears alerts. All clients share one WebSocket channel. Every client keeps
its own copy of two lists, the events and the participants, and folds eight
domain messages into them.

This project models that core as immutable datatypes and pure functions:

- `types.dfy` (module `Types`): the record shapes. These are a participant,
  an event (a competition, not a message), a location, and the payloads of
  the messages.
- `reducer.dfy` (module `Reducer`): the eight message handlers of the
  application shell. Each is a function from a list and a payload to a list.
  The module also holds the three invariants the handlers keep (unique
  participant ids, unique event ids, at most one active event) and their
  idempotence under replay.
- `sync.dfy` (module `Sync`): the shell around the handlers. It holds the
  union of the eight messages, folding a stream of them, wiring the
  handlers onto the transport client on mount and off it on unmount, and
  the outbound messages the user's actions produce, including the defaults
  of a new participant and the `activeEvents` list.
- `socket.dfy` (module `Socket`): the reconnecting transport client, a
  state record advanced by one pure step per stimulus (`on`, `off`, `emit`,
  the timer's `connect`, the socket's open, close and message events). The
  wire is an append-only log of sent envelopes. Frames arrive already
  decoded, as malformed or as a name with data.
- `dashboard.dfy` (module `Dashboard`): the organiser's derived views (the
  active event, its participants, the ones in panic) and the event form
  (its initial fields, the submit guard, and the edit/create merge).
- `tracking.dfy` (module `Tracking`): the participant's two-step panic
  button and leaving the race.
- `timeformat.dfy` (module `TimeFormat`): the `MM:SS` / `HH:MM:SS`
  elapsed-time formatter. Its partner is a reader of such clocks, and the
  model proves that reading a formatted time gives back the seconds.
- `register.dfy` (module `Register`): the registration form's
  required-fields check, the browser's validation of its `required`
  fields, and its submit button, which is disabled while no event is
  offered.
- `common.dfy` and `strings.dfy`: optional values, order-preserving
  filtering and removal, whitespace trimming as `String.prototype.trim`
  does it, and decimal rendering and zero padding of naturals.

### Behaviours of the code worth knowing

- The first reconnect delay after a successful open is 2000 ms. The
  interval starts at 1000 ms ("Start with 1 second", socket.ts:15), but
  `scheduleReconnect` doubles it before it waits (socket.ts:24-25).
- A handler that throws ends the dispatch of that frame, and the handlers
  after it do not run. One `try` wraps the whole `forEach` (socket.ts:55-65).
  Later frames are still dispatched.
- `event-added` checks for a duplicate id before it deactivates anything.
  An already known id therefore leaves the list exactly as it was, active
  flags included (App.tsx:73-75).
- `event-updated` with an unknown id inserts nothing. If the incoming event
  is active it still deactivates every event of the list (App.tsx:88-100).
- The registration form's error line is shown only for a name or number
  made of whitespace alone. The select and both inputs are `required`
  (components/ParticipantRegister.tsx:40, 62, 74), so the browser stops an
  empty field before `handleSubmit` runs.

## Model

| member | source | states |
|---|---|---|
| `Reducer.HandleLocationUpdate` | App.tsx:32-40 | The participant with the update's id gets exactly the new location and timestamp, and every other field stays. Every other participant is unchanged, the length is kept, and an unknown id leaves the list as it was. |
| `Reducer.HandlePanic` | App.tsx:42-54 | The matching participant turns to panic. Its location is replaced only when the payload carries one. No other field or participant changes, and an unknown id is a no-op. |
| `Reducer.HandlePanicCanceled` | App.tsx:106-112 | The matching participant goes back to tracking and keeps its location and every other field. Everyone else is unchanged, and an unknown id is a no-op. |
| `Reducer.HandleParticipantRegistered` | App.tsx:56-64 | A known id leaves the list unchanged. Otherwise the participant is appended at the end after the untouched old list. Either way the id is present afterwards, and unique ids stay unique. |
| `Reducer.HandleParticipantLeft` | App.tsx:66-68 | No participant with the id remains. Every other participant remains with all its copies, in the original order (a subsequence of the input). An unknown id leaves the list unchanged. |
| `Reducer.HandleEventAdded` | App.tsx:70-86 | A known id leaves the list unchanged, checked before any deactivation. Otherwise the event is appended, and each earlier event keeps id and name and stays active only if the newcomer is inactive. |
| `Reducer.HandleEventUpdated` | App.tsx:88-100 | The length is kept and every event with the id is replaced wholesale. Every other event keeps id and name and stays active only if the incoming event is inactive. An unknown id inserts nothing. |
| `Reducer.HandleEventDeleted` | App.tsx:102-104 | No event with the id remains. The others remain with all their copies, in order. An unknown id is a no-op. |
| `Reducer.MappedHandlersKeepIds` | App.tsx:32-54 | The location, panic and cancel-panic handlers never change the id at any position. |
| `Reducer.ParticipantLeftKeepsUnique` | App.tsx:66-68 | Removing participants keeps the remaining ids distinct. |
| `Reducer.EventDeletedKeepsUnique` | App.tsx:102-104 | Removing events keeps event ids distinct. |
| `Reducer.EventDeletedKeepsAtMostOneActive` | App.tsx:102-104 | Removing events never leaves two of them active. |
| `Reducer.EventAddedKeepsInvariants` | App.tsx:70-86 | Adding keeps ids unique and at most one event active. An active newcomer that is really added is then the only active event. |
| `Reducer.EventUpdatedKeepsInvariants` | App.tsx:88-100 | Updating keeps ids unique and at most one event active. An active update leaves active exactly the events carrying its id. |
| `Reducer.LocationUpdateIdempotent` | App.tsx:32-40 | Replaying the same location update gives the same list as applying it once. |
| `Reducer.PanicIdempotent` | App.tsx:42-54 | Replaying the same panic gives the same list. |
| `Reducer.PanicCanceledIdempotent` | App.tsx:106-112 | Replaying the same cancel-panic gives the same list. |
| `Reducer.ParticipantRegisteredIdempotent` | App.tsx:56-64 | Replaying the same registration gives the same list, with no duplicate. |
| `Reducer.ParticipantLeftIdempotent` | App.tsx:66-68 | Replaying the same leave gives the same list. |
| `Reducer.EventAddedIdempotent` | App.tsx:70-86 | Replaying the same event-added gives the same list. |
| `Reducer.EventUpdatedIdempotent` | App.tsx:88-100 | Replaying the same event-updated gives the same list. |
| `Reducer.EventDeletedIdempotent` | App.tsx:102-104 | Replaying the same event-deleted gives the same list. |
| `Sync.WireNamesDistinct` | App.tsx:114-121 | The eight wire names are pairwise distinct, so a name selects exactly one of the shell's handlers. |
| `Sync.Apply` | App.tsx:31-112 | Event messages leave the participants alone, and participant messages leave the events alone. |
| `Sync.ApplyKeepsValid` | App.tsx:31-112 | Every message, from any valid state, keeps unique participant ids, unique event ids and at most one active event. |
| `Sync.ApplyAllKeepsValid` | App.tsx:31-112 | Any stream of messages, duplicates included, keeps the three invariants. |
| `Sync.ApplyIdempotent` | App.tsx:31-112 | Any message delivered twice in a row has the effect of a single delivery. |
| `Sync.CountParticipants` | App.tsx:59 | The count of participants with an id is zero exactly when no participant has it. |
| `Sync.UniqueCountsAtMostOne` | App.tsx:56-64 | Under unique ids an id occurs at most once. |
| `Sync.RegisterTwiceKeepsOne` | App.tsx:56-64 | Registering the same participant twice leaves exactly one entry with its id. |
| `Sync.PanicThenCancel` | App.tsx:42-54 | A panic with a location followed by its cancel leaves the participant tracking at the reported location. |
| `Sync.TwoActiveEvents` | App.tsx:78-80 | Two active events added in turn leave the first inactive and the second active. |
| `Sync.UnknownLocationUpdateIsNoOp` | App.tsx:32-40 | A location update for an unknown id changes nothing in the store. |
| `Sync.Subscriptions` | App.tsx:114-121 | The shell subscribes one handler per kind, under that kind's wire name, in a fixed order. |
| `Sync.OnAllLookup` | socket.ts:86-91 | Subscribing a list of pairs appends, under each name, exactly that name's handlers in list order. |
| `Sync.OnAllFrame` | socket.ts:86-91 | Subscribing a list of pairs changes nothing of the client but its listeners, and keeps it well formed. |
| `Sync.OffAllFrame` | socket.ts:94-98 | Unsubscribing a list changes nothing of the client but its listeners, and keeps it well formed. |
| `Sync.OffAllLookup` | socket.ts:94-98 | Unsubscribing a list removes, under each name, each of that name's handlers in turn. |
| `Sync.KindIndex` | App.tsx:114-121 | Every kind has a position in the subscription order. |
| `Sync.HandlersForNone` | App.tsx:114-121 | Pairs that all carry other names subscribe nothing under a name. |
| `Sync.HandlersForOne` | App.tsx:114-121 | Pairs where exactly one carries the name subscribe exactly that pair's handler under it. |
| `Sync.SubscriptionsOfKind` | App.tsx:114-121 | Under each kind's wire name the shell subscribes exactly that kind's handler. |
| `Sync.SubscriptionsOfOtherName` | App.tsx:114-121 | A name no kind travels under gets no subscription. |
| `Sync.Mount` | App.tsx:114-121 | Mounting appends each kind's handler at the end of its name's list, and leaves every name no kind travels under as it was. Nothing of the client but its listeners changes, and a well-formed client stays well formed. |
| `Sync.Unmount` | App.tsx:124-133 | Unmounting removes every copy of each kind's handler from its name's list, and leaves every other name as it was. Nothing of the client but its listeners changes, and a well-formed client stays well formed. |
| `Sync.MountThenUnmount` | App.tsx:124-133 | Mounting then unmounting restores every name's list, when none of the shell's handlers was registered before. |
| `Sync.Send` | App.tsx:201 | A user action emits its message under the kind's wire name. Sent log plus queue grow by exactly that envelope, and the client invariant is kept. |
| `Sync.NewParticipant` | App.tsx:195-200 | A new participant has the generated id, status tracking, the form's name, number and event, and no location or timestamp. |
| `Sync.NewEvent` | App.tsx:221-227 | A new event has the generated id and the draft's name and active flag. |
| `Sync.RegistrationRoundTrip` | App.tsx:195-204 | Once a registration with a fresh id comes back, the participant is in the list exactly once, as its last entry. |
| `Sync.ActiveEvents` | App.tsx:241 | The offered events are exactly the active ones of the list, with all their copies, in list order. Under the invariant there is at most one. |
| `Sync.ActiveFilterAtMostOne` | App.tsx:241 | With at most one active event, filtering for active keeps at most one. |
| `Socket.On` | socket.ts:86-91 | The handler is appended to the name's list, which is created if absent, so a second registration adds a second copy. Other names and all other fields are unchanged. |
| `Socket.Off` | socket.ts:94-98 | Every occurrence of the handler leaves the name's list. Every other handler keeps all its copies, in order. A handler not in the list, or an unknown name, changes nothing. Other names are untouched. |
| `Socket.Emit` | socket.ts:101-110 | When connected with a socket the envelope goes to the wire, otherwise to the end of the queue. Sent log plus queue always grow by exactly that envelope, and nothing else changes. |
| `Socket.Connect` | socket.ts:32-42 | No new socket while the current one is open or connecting. Otherwise one new connecting socket. |
| `Socket.New` | socket.ts:11-21 | The constructed client has one connecting socket, no listeners, nothing queued or sent, and satisfies the invariant. |
| `Socket.OnOpen` | socket.ts:45-52 | Open makes the client connected and resets the interval to 1000. The queue goes to the wire in FIFO order after what was sent, and the queue is then empty. |
| `Socket.NextInterval` | socket.ts:23-25 | The next delay is the doubled interval up to 15000, and exactly 30000 above it. From any interval within bounds it lies in [2000, 30000]. |
| `Socket.OnClose` | socket.ts:75-82 | Close disconnects and drops the socket. The next interval is kept and also scheduled as the reconnect delay. |
| `Socket.RunHandlers` | socket.ts:55-65 | The handlers that run are a prefix of the list, at least one when the list is non-empty. Only the last may throw, and a short prefix ends at a throwing handler. |
| `Socket.Deliver` | socket.ts:54-66 | A malformed frame, an empty name or a name without a list runs nothing. Otherwise the name's handlers run in registration order until one throws. |
| `Socket.OffUndoesOn` | socket.ts:86-98 | `off` after `on` removes every copy of the handler, and restores the list when the handler was not in it before. |
| `Socket.RunHandlersNoThrow` | socket.ts:61 | When no handler throws, every registered handler runs, in order. |
| `Socket.RunHandlersFirstThrow` | socket.ts:55-65 | When the k-th handler is the first to throw, exactly the first k+1 handlers run. |
| `Socket.DeliverAllAppend` | socket.ts:54-66 | Frames are dispatched independently: what later frames run does not depend on earlier ones. |
| `Socket.MalformedFrameIgnored` | socket.ts:63-65 | A malformed frame anywhere in a stream is swallowed with no effect on the other frames. |
| `Socket.EmitAll` | socket.ts:101-110 | Emitting a list changes only the sent log and the queue. |
| `Socket.EmitAllWhileDisconnected` | socket.ts:105-108 | While disconnected, emits are queued in order and nothing reaches the wire. |
| `Socket.EmitAllWhileConnected` | socket.ts:103-104 | While connected with a socket, emits reach the wire in order. |
| `Socket.QueuedBeforeLater` | socket.ts:45-52 | Messages emitted while connecting reach the wire right after those already queued and before anything emitted after the open. |
| `Socket.Step` | socket.ts:19-110 | Each modelled stimulus keeps the client invariant. An open needs a connecting socket, a close needs a held socket, and the caller's calls and the timer are always accepted. |
| `Socket.RunKeepsWf` | socket.ts:19-110 | Every run keeps the invariant: interval in [1000, 30000], connected exactly when open, nothing queued while connected, every delay in [2000, 30000]. |
| `Socket.RunFromNewKeepsWf` | socket.ts:19-21 | Every run from a freshly constructed client keeps the invariant. |
| `Socket.BackoffSchedule` | socket.ts:23-30 | The schedule of k failures has k delays. |
| `Socket.BackoffFrom` | socket.ts:23-30 | After j failures since a reset the interval is min(30000, 1000·2^j), and each further failure schedules the next such term. |
| `Socket.BackoffAfterOpen` | socket.ts:45-48 | After an open, consecutive failures schedule exactly the backoff schedule. |
| `Socket.BackoffScheduleValues` | socket.ts:15-30 | The schedule begins 2000, 4000, 8000, 16000, 30000, 30000. |
| `Dashboard.FirstActive` | components/AdminDashboard.tsx:175 | It finds the first position with an active event, or none exactly when no event is active. |
| `Dashboard.ActiveEvent` | components/AdminDashboard.tsx:175 | The result is an active event at a position with no active event before it, that is, the first active event in list order. It is none exactly when no event is active. |
| `Dashboard.ActiveEventIsTheActiveOne` | components/AdminDashboard.tsx:175 | Under the invariant the dashboard's active event is the one active event, and it is the only event offered for registration. |
| `Dashboard.FilteredParticipants` | components/AdminDashboard.tsx:176 | The shown participants are exactly those of the active event, with all their copies, in original order. With no active event the list is empty. |
| `Dashboard.PanicParticipants` | components/AdminDashboard.tsx:177 | The alert list is exactly the shown participants in panic, with all their copies, a subsequence of the shown list. |
| `Dashboard.PanicShows` | components/AdminDashboard.tsx:176-177 | A panic from a participant of the active event puts it on the alert list. |
| `Dashboard.CancelClears` | components/AdminDashboard.tsx:177 | After a cancel-panic the participant is on no alert list. |
| `Dashboard.OpenForCreate` | components/AdminDashboard.tsx:146-149 | Opening for creation shows the modal with no edited event. |
| `Dashboard.OpenForEdit` | components/AdminDashboard.tsx:151-154 | Opening for editing shows the modal with that event. |
| `Dashboard.CloseModal` | components/AdminDashboard.tsx:156-159 | Closing hides the modal and forgets the edited event. |
| `Dashboard.InitForm` | components/AdminDashboard.tsx:84-92 | The form starts with the edited event's name and flag, or empty and inactive. |
| `Dashboard.SaveEvent` | components/AdminDashboard.tsx:161-167 | Saving while editing keeps the id and takes name and flag from the form. Saving while creating passes the form without an id. |
| `Dashboard.SaveMessage` | App.tsx:221-231 | An edit goes out as event-updated with the merged event. A creation goes out as event-added under the generated id. |
| `Dashboard.SubmitForm` | components/AdminDashboard.tsx:96-102 | The form saves and closes exactly when the name is not blank after trimming, and it saves the untrimmed name. Otherwise nothing changes. |
| `Dashboard.UnchangedEditResendsEvent` | components/AdminDashboard.tsx:84-102 | Opening an event for editing and saving it untouched re-sends that very event. |
| `Dashboard.EditReachesStore` | components/AdminDashboard.tsx:161-167 | Once a saved edit comes back, the event keeps its id with the form's name and flag. If the form says active, it becomes the dashboard's active event. |
| `TimeFormat.FormatTime` | components/ParticipantTracking.tsx:30-43 | The clock has the five characters of `MM:SS` exactly when the count is under an hour; from an hour on the hours field makes it longer. |
| `TimeFormat.FormatTimeRoundTrip` | components/ParticipantTracking.tsx:30-43 | Reading the formatted clock back gives exactly the seconds that were formatted, for every input: the rendering loses nothing. |
| `TimeFormat.TimeParts` | components/ParticipantTracking.tsx:31-33 | Hours, minutes and seconds recombine to the input. Minutes and seconds are below 60, and hours are positive exactly from 3600 seconds on. |
| `TimeFormat.Pad2` | components/ParticipantTracking.tsx:35-39 | A padded field has at least two characters, and exactly two below 100. |
| `TimeFormat.Pad2Digits` | components/ParticipantTracking.tsx:35-39 | A padded field is all digits and reads back as the number: padding never truncates. |
| `TimeFormat.FormatTimeUnderAnHour` | components/ParticipantTracking.tsx:35-42 | Below an hour the clock is exactly `MM:SS`: five characters, a colon in the middle, two digits reading the whole minutes before it and two digits reading the leftover seconds after it. |
| `TimeFormat.FormatTimeFromAnHour` | components/ParticipantTracking.tsx:31-41 | From an hour on the clock is `HH:MM:SS`: at least eight characters, with hours, minutes and seconds such that hours·3600 + minutes·60 + seconds is the count and minutes and seconds are below 60; the hours in full before the first colon, then two digits reading the minutes and two digits reading the seconds. |
| `TimeFormat.ParseField` | components/ParticipantTracking.tsx:35-36 | A field reads as a number exactly when it is all digits, with its decimal value. |
| `TimeFormat.ShortClockRoundTrip` | components/ParticipantTracking.tsx:42 | An `MM:SS` clock built from two two-digit fields reads back as its seconds. |
| `TimeFormat.LongClockRoundTrip` | components/ParticipantTracking.tsx:40 | An `HH:MM:SS` clock with an hours field of two or more digits reads back as its seconds. |
| `TimeFormat.ClockRoundTrip` | components/ParticipantTracking.tsx:35-42 | A clock of padded fields, with hours shown only when positive, reads back as its seconds. |
| `Tracking.PanicClick` | components/ParticipantTracking.tsx:45-47 | Pressing panic enters confirmation and does not change whether an alert was sent. |
| `Tracking.CancelPanic` | components/ParticipantTracking.tsx:55-57 | Cancel leaves confirmation without sending anything. |
| `Tracking.ConfirmPanic` | components/ParticipantTracking.tsx:49-53 | Confirming sends exactly one panic envelope with the participant's id and location, marks the alert sent and closes confirmation. Nothing else of the client changes. |
| `Tracking.StopTracking` | App.tsx:210-212 | Leaving sends exactly one participant-left envelope with the id. |
| `Tracking.AtMostOnePanic` | components/ParticipantTracking.tsx:45-57 | Over any series of presses on rendered buttons, a panic goes out exactly when the alert turns to sent, and at most once. A sent alert stays sent and hides the stop-tracking button (line 126) for good. |
| `Register.Submit` | components/ParticipantRegister.tsx:16-24 | A registration goes out exactly when name and number are non-blank after trimming and an event is chosen. It carries the untrimmed fields. A rejection sets the required-fields error, and exactly one of error and registration happens. |
| `Register.PressSubmit` | components/ParticipantRegister.tsx:31-81 | Pressing submit does nothing exactly when no event is offered (the disabled button) or a required field is empty (the browser's validation of the `required` select and inputs). Otherwise it runs the submit handler, whose error line is then reached only by a name or number made of whitespace alone. |
| `Register.SubmitIgnoresSurroundingWhitespace` | components/ParticipantRegister.tsx:18 | Trimming name and number beforehand never changes whether the form goes through. |
| `Register.NoActiveEventNoRegistration` | App.tsx:241 | With no active event nothing is offered and no registration can be submitted. |
| `Register.RegistrationReachesDashboard` | components/ParticipantRegister.tsx:22-23 | A valid form for the active event yields a registration. Once it comes back, the participant appears exactly once and is among those the dashboard shows. |
| `Strings.Trim` | components/ParticipantRegister.tsx:18 | The result is a slice of the input with only whitespace cut off before and after it. It is empty exactly for blank input, and otherwise starts and ends with a non-whitespace character. |
| `Strings.TrimIdempotent` | components/ParticipantRegister.tsx:18 | Trimming twice is trimming once. |
| `Strings.NatToString` | components/ParticipantTracking.tsx:35 | `String(n)` is a non-empty digit string without a leading zero, and has one digit exactly below ten. |
| `Strings.NatToStringValue` | components/ParticipantTracking.tsx:35 | `String(n)` reads back as n. |
| `Strings.PadStart` | components/ParticipantTracking.tsx:35-36 | Padding fills on the left up to the width and keeps the string as its suffix. Strings already at least that wide are returned as they are. |
| `Strings.ZeroPadValue` | components/ParticipantTracking.tsx:35-36 | Zero-padding a digit string keeps its decimal value. |
| `Common.Filter` | App.tsx:67 | The kept elements are exactly those satisfying the predicate, each with all its copies, in original order. |
| `Common.Remove` | socket.ts:96 | Every occurrence of the value goes, and every other value keeps all its copies, in order. |
| `Common.RemoveAppend` | socket.ts:96 | Removing from a concatenation is removing from each part. |

## Left out

- WebSocket I/O, `JSON.stringify` / `JSON.parse` and `console` logging. Frames arrive already decoded, and the wire is a log of envelopes.
- The `onerror` callback (socket.ts:68-73). It only logs.
- The server URL. It is a constant with no behaviour.
- Timers. A reconnect is the delay value it schedules, and the timer's later `connect()` is a separate stimulus. Elapsed time and the one-second ticker of the tracking screen are not modelled; `formatTime` takes the seconds as input.
- The geolocation effect (App.tsx:137-188). It is browser sensor and interval plumbing.
- `Date.now()` ids and timestamps. They are nondeterministic, so ids and timestamps are inputs.
- `Register.RegistrationReachesDashboard`: requires the chosen event's id to be non-empty. Generated ids never are, but the lemma does not cover a hand-made event with an empty id, which the empty "no event chosen" value would shadow.
- Latitude and longitude. They are two reals that are only copied and compared.
- The Leaflet map and its markers. They are a wrapper over an external library.
- The admin login screen.
- JSX rendering, React hooks and context. The `window.confirm` dialogs of stop-tracking and event deletion are taken as answered yes.
- React's deferred state updaters. Each handler is applied as a function of the current list.
- Name collisions between a message name and `Object.prototype` members in the listener record. The record is a map from names to lists.
- Handlers calling `on` or `off` while a frame is being dispatched. Handlers are identities; their effects are a `throws` predicate.
- Socket.Step: no stimulus takes the socket to the CLOSING state. The browser enters it, while `isConnected` is still true, before it fires the close event. In that window `emit` hands the envelope to `send` on a closing socket, which discards it: it is neither sent nor queued. The model's invariant, that the client is connected exactly when its socket is open, and its claim that every emit ends up in the sent log or the queue, hold only for runs without that window.
- Malformed payloads. Every message is assumed to carry a payload of the right shape. In the source a frame with a known name and a wrong payload (for example an `event-added` whose data is `null`) passes the dispatch of socket.ts:54-66. The handler then throws inside a React state updater (App.tsx:71-85), which runs outside the `try`, so the error is not swallowed.
- A stale close event from a socket the client no longer holds. The close event and the open event require a held socket and a connecting socket respectively, as the browser fires them.
- The navigation and `currentParticipantId` reset of `stopTracking` (App.tsx:214-218). Only its outbound message is modelled.
- The event select (components/ParticipantRegister.tsx:34-46) offers only ids of the listed events. The form's chosen id is an input.
- `TimeFormat.ParseTime` and its parts are the partner reader for the formatter. They are not in the source.
