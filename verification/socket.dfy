/** The reconnecting transport client (`SocketClient` in socket.ts) as a
    state record advanced by one pure step function per stimulus: the
    caller's `on`, `off`, `emit`, the reconnect timer's `connect`, and the
    socket's open, close and message events.

    Handlers are modelled by identity (`HandlerId`, standing for the
    reference equality `off` uses); what a handler does with the data is
    outside this module, except whether it throws, which `Deliver` takes as
    a parameter. The wire is an append-only log of sent envelopes. */
module Socket {
  import opened Common

  /** `WebSocket.readyState` of the socket the client holds. */
  datatype ReadyState = Connecting | Open | Closing | Closed

  /** Identity of a registered handler function. */
  type HandlerId = nat

  /** The `{event, data}` object `emit` serialises. */
  datatype Envelope<D> = Envelope(event: string, data: D)

  /** An inbound frame after `JSON.parse`: either it did not parse, or it
      is an object with an `event` name (empty when absent or falsy) and a
      `data` value. */
  datatype Frame<D> = Malformed | Msg(event: string, data: D)

  datatype Client<D> = Client(
    ws: Option<ReadyState>,                  // `this.ws`, None for null
    listeners: map<string, seq<HandlerId>>,  // `this.listeners`
    connected: bool,                         // `this.isConnected`
    queue: seq<Envelope<D>>,                 // `this.messageQueue`
    interval: int,                           // `this.reconnectInterval`
    sent: seq<Envelope<D>>,                  // every envelope handed to a socket's `send`
    sockets: nat,                            // number of sockets created so far
    delays: seq<int>)                        // every reconnect delay scheduled so far

  const InitialInterval: int := 1000
  const MaxInterval: int := 30000

  /** The field initialisers, before the constructor's `connect()`. */
  function Fresh<D>(): Client<D>
  {
    Client(None, map[], false, [], InitialInterval, [], 0, [])
  }

  /** The states every stimulus keeps: the backoff interval stays within
      its bounds, the client counts as connected exactly when its socket is
      open, nothing waits in the queue while connected, and every delay ever
      scheduled lies in [2000, 30000]. */
  predicate Wf<D>(c: Client<D>)
  {
    && InitialInterval <= c.interval <= MaxInterval
    && (c.connected <==> c.ws == Some(Open))
    && (c.connected ==> c.queue == [])
    && forall i :: 0 <= i < |c.delays| ==> 2 * InitialInterval <= c.delays[i] <= MaxInterval
  }

  /** The handlers registered under `name`, in registration order; an
      absent entry reads as no handlers. */
  function Lookup<D>(c: Client<D>, name: string): seq<HandlerId>
  {
    if name in c.listeners then c.listeners[name] else []
  }

  // ---------------------------------------------------------------------
  // Caller-side operations
  // ---------------------------------------------------------------------

  /** `on(event, handler)`: append the handler to the name's list, creating
      the list if there is none; registering it again adds a second copy. */
  function On<D>(c: Client<D>, name: string, h: HandlerId): (r: Client<D>)
    ensures Lookup(r, name) == Lookup(c, name) + [h]
    ensures forall n :: n != name ==> Lookup(r, n) == Lookup(c, n)
    ensures r.(listeners := c.listeners) == c
    ensures Wf(c) ==> Wf(r)
  {
    var existing := if name in c.listeners then c.listeners[name] else [];
    c.(listeners := c.listeners[name := existing + [h]])
  }

  /** `off(event, handler)`: drop every occurrence of the handler from the
      name's list, keeping the other handlers in order; an unknown name is
      left alone. */
  function Off<D>(c: Client<D>, name: string, h: HandlerId): (r: Client<D>)
    ensures h !in Lookup(r, name)
    ensures IsSubsequence(Lookup(r, name), Lookup(c, name))
    ensures forall i :: 0 <= i < |Lookup(c, name)| && Lookup(c, name)[i] != h ==> Lookup(c, name)[i] in Lookup(r, name)
    ensures forall y :: y != h ==> multiset(Lookup(r, name))[y] == multiset(Lookup(c, name))[y]
    ensures h !in Lookup(c, name) ==> Lookup(r, name) == Lookup(c, name)
    ensures forall n :: n != name ==> Lookup(r, n) == Lookup(c, n)
    ensures name !in c.listeners ==> r == c
    ensures r.(listeners := c.listeners) == c
    ensures Wf(c) ==> Wf(r)
  {
    if name in c.listeners then c.(listeners := c.listeners[name := Remove(c.listeners[name], h)])
    else c
  }

  /** `emit(event, data)`: send at once when connected with a socket,
      otherwise queue the envelope at the end; it never fails. */
  function Emit<D>(c: Client<D>, name: string, data: D): (r: Client<D>)
    ensures Wf(c) ==> r.sent + r.queue == c.sent + c.queue + [Envelope(name, data)]
    ensures c.connected && c.ws.Some? ==> r.sent == c.sent + [Envelope(name, data)] && r.queue == c.queue
    ensures !(c.connected && c.ws.Some?) ==> r.queue == c.queue + [Envelope(name, data)] && r.sent == c.sent
    ensures r.(sent := c.sent, queue := c.queue) == c
    ensures Wf(c) ==> Wf(r)
  {
    if c.connected && c.ws.Some? then c.(sent := c.sent + [Envelope(name, data)])
    else c.(queue := c.queue + [Envelope(name, data)])
  }

  // ---------------------------------------------------------------------
  // Connection life cycle
  // ---------------------------------------------------------------------

  /** `connect()`: create a new socket unless the current one is open or
      still connecting. */
  function Connect<D>(c: Client<D>): (r: Client<D>)
    ensures c.ws == Some(Open) || c.ws == Some(Connecting) ==> r == c
    ensures !(c.ws == Some(Open) || c.ws == Some(Connecting)) ==>
              r.ws == Some(Connecting) && r.sockets == c.sockets + 1
    ensures r.ws == Some(Open) || r.ws == Some(Connecting)
    ensures r.(ws := c.ws, sockets := c.sockets) == c
    ensures Wf(c) ==> Wf(r)
  {
    if c.ws.Some? && (c.ws.value == Open || c.ws.value == Connecting) then c
    else c.(ws := Some(Connecting), sockets := c.sockets + 1)
  }

  /** The client as constructed: the constructor calls `connect()`. */
  function New<D>(): (r: Client<D>)
    ensures Wf(r)
    ensures r.ws == Some(Connecting) && r.sockets == 1 && !r.connected
    ensures r.listeners == map[] && r.queue == [] && r.sent == [] && r.delays == []
  {
    Connect(Fresh())
  }

  /** The socket's `open` event (the browser fires it only on a connecting
      socket): connected, backoff reset, and the queue flushed in FIFO
      order before it is emptied. */
  function OnOpen<D>(c: Client<D>): (r: Client<D>)
    requires c.ws == Some(Connecting)
    ensures r.connected && r.ws == Some(Open)
    ensures r.interval == InitialInterval
    ensures r.sent == c.sent + c.queue && r.queue == []
    ensures r.(ws := c.ws, connected := c.connected, interval := c.interval,
               sent := c.sent, queue := c.queue) == c
    ensures Wf(c) ==> Wf(r)
  {
    c.(ws := Some(Open), connected := true, interval := InitialInterval,
       sent := c.sent + c.queue, queue := [])
  }

  /** `scheduleReconnect`: the doubled interval, capped; it is computed
      before any wait, so the first delay after a reset is already 2000. */
  function NextInterval(interval: int): (t: int)
    ensures t <= MaxInterval
    ensures InitialInterval <= interval <= MaxInterval ==> 2 * InitialInterval <= t <= MaxInterval
    ensures interval <= MaxInterval / 2 ==> t == 2 * interval
    ensures interval > MaxInterval / 2 ==> t == MaxInterval
  {
    Min(MaxInterval, interval * 2)
  }

  /** The socket's `close` event (fired only for a socket the client holds):
      disconnected, socket cleared, and a reconnect scheduled after the
      next backoff interval, which is also kept as the new interval. */
  function OnClose<D>(c: Client<D>): (r: Client<D>)
    requires c.ws.Some?
    ensures !r.connected && r.ws.None?
    ensures r.interval == NextInterval(c.interval)
    ensures r.delays == c.delays + [r.interval]
    ensures r.(ws := c.ws, connected := c.connected, interval := c.interval, delays := c.delays) == c
    ensures Wf(c) ==> Wf(r)
  {
    var t := NextInterval(c.interval);
    c.(ws := None, connected := false, interval := t, delays := c.delays + [t])
  }

  // ---------------------------------------------------------------------
  // Inbound dispatch
  // ---------------------------------------------------------------------

  /** The handlers of `hs` that run, in order, for one frame: one `try`
      wraps the whole `forEach`, so the first handler that throws is the
      last one to run. */
  function RunHandlers<D>(hs: seq<HandlerId>, data: D, throws: (HandlerId, D) -> bool): (r: seq<HandlerId>)
    ensures |r| <= |hs| && r == hs[..|r|]
    ensures hs != [] ==> r != []
    ensures forall i :: 0 <= i < |r| - 1 ==> !throws(r[i], data)
    ensures |r| < |hs| ==> throws(r[|r| - 1], data)
  {
    if hs == [] then []
    else if throws(hs[0], data) then [hs[0]]
    else
      var rest := RunHandlers(hs[1..], data, throws);
      assert hs[1..][..|rest|] == hs[1..|rest| + 1];
      [hs[0]] + rest
  }

  /** The socket's `message` event: a malformed frame, a falsy event name or
      a name without a handler list runs nothing; otherwise the name's
      handlers receive the data in registration order until one throws.
      The exception is swallowed and the client state is left as it was. */
  function Deliver<D>(c: Client<D>, f: Frame<D>, throws: (HandlerId, D) -> bool): (r: seq<HandlerId>)
    ensures f.Malformed? ==> r == []
    ensures f.Msg? && (f.event == "" || f.event !in c.listeners) ==> r == []
    ensures f.Msg? && f.event != "" && f.event in c.listeners ==>
              r == RunHandlers(c.listeners[f.event], f.data, throws)
  {
    match f
    case Malformed => []
    case Msg(name, data) =>
      if name != "" && name in c.listeners then RunHandlers(c.listeners[name], data, throws)
      else []
  }

  /** The handler runs caused by a sequence of frames, frame after frame. */
  function DeliverAll<D>(c: Client<D>, fs: seq<Frame<D>>, throws: (HandlerId, D) -> bool): seq<HandlerId>
  {
    if fs == [] then [] else Deliver(c, fs[0], throws) + DeliverAll(c, fs[1..], throws)
  }

  // ---------------------------------------------------------------------
  // Properties relating several stimuli
  // ---------------------------------------------------------------------

  /** `off` undoes `on`: registering a handler and then unregistering it
      leaves the name's list as it was when the handler was not in it, and
      otherwise without any copy of the handler. */
  lemma OffUndoesOn<D>(c: Client<D>, name: string, h: HandlerId)
    ensures Lookup(Off(On(c, name, h), name, h), name) == Remove(Lookup(c, name), h)
    ensures h !in Lookup(c, name) ==> Lookup(Off(On(c, name, h), name, h), name) == Lookup(c, name)
  {
    RemoveAppend(Lookup(c, name), [h], h);
  }

  /** If no handler throws, every registered handler runs, in order. */
  lemma {:induction false} RunHandlersNoThrow<D>(hs: seq<HandlerId>, data: D, throws: (HandlerId, D) -> bool)
    requires forall i :: 0 <= i < |hs| ==> !throws(hs[i], data)
    ensures RunHandlers(hs, data, throws) == hs
    decreases |hs|
  {
    if hs != [] {
      RunHandlersNoThrow(hs[1..], data, throws);
    }
  }

  /** If the handler at position `k` is the first that throws, exactly the
      handlers up to and including it run. */
  lemma {:induction false} RunHandlersFirstThrow<D>(hs: seq<HandlerId>, data: D, throws: (HandlerId, D) -> bool, k: nat)
    requires k < |hs| && throws(hs[k], data)
    requires forall i :: 0 <= i < k ==> !throws(hs[i], data)
    ensures RunHandlers(hs, data, throws) == hs[..k + 1]
    decreases k
  {
    if k > 0 {
      RunHandlersFirstThrow(hs[1..], data, throws, k - 1);
      assert hs[..k + 1] == [hs[0]] + hs[1..][..k];
    }
  }

  /** Frames are independent: what a later frame runs does not depend on
      whether an earlier one was malformed or had a throwing handler. */
  lemma {:induction false} DeliverAllAppend<D>(c: Client<D>, fs: seq<Frame<D>>, gs: seq<Frame<D>>, throws: (HandlerId, D) -> bool)
    ensures DeliverAll(c, fs + gs, throws) == DeliverAll(c, fs, throws) + DeliverAll(c, gs, throws)
    decreases |fs|
  {
    if fs == [] {
      assert fs + gs == gs;
    } else {
      assert (fs + gs)[1..] == fs[1..] + gs;
      DeliverAllAppend(c, fs[1..], gs, throws);
    }
  }

  /** A malformed frame anywhere in the stream is swallowed without effect. */
  lemma MalformedFrameIgnored<D>(c: Client<D>, fs: seq<Frame<D>>, gs: seq<Frame<D>>, throws: (HandlerId, D) -> bool)
    ensures DeliverAll(c, fs + [Malformed] + gs, throws) == DeliverAll(c, fs + gs, throws)
  {
    DeliverAllAppend(c, fs + [Malformed], gs, throws);
    DeliverAllAppend(c, fs, [Malformed], throws);
    DeliverAllAppend(c, fs, gs, throws);
    assert DeliverAll(c, [Malformed], throws) == [];
    assert DeliverAll(c, fs + [Malformed], throws) == DeliverAll(c, fs, throws);
  }

  /** Emitting a list of envelopes one after another. */
  function EmitAll<D>(c: Client<D>, ms: seq<Envelope<D>>): (r: Client<D>)
    ensures r.(sent := c.sent, queue := c.queue) == c
    decreases |ms|
  {
    if ms == [] then c else EmitAll(Emit(c, ms[0].event, ms[0].data), ms[1..])
  }

  /** While the client is not connected, emits go to the end of the queue
      in order and nothing reaches the wire. */
  lemma {:induction false} EmitAllWhileDisconnected<D>(c: Client<D>, ms: seq<Envelope<D>>)
    requires !c.connected
    ensures EmitAll(c, ms).queue == c.queue + ms
    ensures EmitAll(c, ms).sent == c.sent
    ensures EmitAll(c, ms).(queue := c.queue) == c
    decreases |ms|
  {
    if ms != [] {
      EmitAllWhileDisconnected(Emit(c, ms[0].event, ms[0].data), ms[1..]);
      assert c.queue + [ms[0]] + ms[1..] == c.queue + ms;
    }
  }

  /** While the client is connected, emits go straight to the wire in order. */
  lemma {:induction false} EmitAllWhileConnected<D>(c: Client<D>, ms: seq<Envelope<D>>)
    requires c.connected && c.ws.Some?
    ensures EmitAll(c, ms).sent == c.sent + ms
    ensures EmitAll(c, ms).(sent := c.sent) == c
    decreases |ms|
  {
    if ms != [] {
      EmitAllWhileConnected(Emit(c, ms[0].event, ms[0].data), ms[1..]);
      assert c.sent + [ms[0]] + ms[1..] == c.sent + ms;
    }
  }

  /** Queue ordering: messages emitted while the socket is connecting reach
      the wire, in their order, right after what was already queued and
      before anything emitted once the socket is open. */
  lemma QueuedBeforeLater<D>(c: Client<D>, before: seq<Envelope<D>>, after: seq<Envelope<D>>)
    requires c.ws == Some(Connecting) && !c.connected
    ensures EmitAll(OnOpen(EmitAll(c, before)), after).sent == c.sent + c.queue + before + after
    ensures EmitAll(OnOpen(EmitAll(c, before)), after).queue == []
  {
    EmitAllWhileDisconnected(c, before);
    var o := OnOpen(EmitAll(c, before));
    EmitAllWhileConnected(o, after);
  }

  // ---------------------------------------------------------------------
  // Arbitrary runs
  // ---------------------------------------------------------------------

  /** Everything that can happen to a client: the caller's calls, the
      reconnect timer firing, and the socket's open and close events. */
  datatype Stimulus<D> =
    | CallOn(name: string, h: HandlerId)
    | CallOff(name: string, h: HandlerId)
    | CallEmit(name: string, data: D)
    | TimerFired
    | SocketOpened
    | SocketClosed

  /** The client after one stimulus; None when the browser cannot produce
      that socket event in the current state (an `open` for a socket that is
      not connecting, a `close` with no socket held). */
  function Step<D>(c: Client<D>, s: Stimulus<D>): (r: Option<Client<D>>)
    ensures s.SocketOpened? ==> (r.Some? <==> c.ws == Some(Connecting))
    ensures s.SocketClosed? ==> (r.Some? <==> c.ws.Some?)
    ensures !s.SocketOpened? && !s.SocketClosed? ==> r.Some?
    ensures Wf(c) && r.Some? ==> Wf(r.value)
  {
    match s
    case CallOn(name, h) => Some(On(c, name, h))
    case CallOff(name, h) => Some(Off(c, name, h))
    case CallEmit(name, data) => Some(Emit(c, name, data))
    case TimerFired => Some(Connect(c))
    case SocketOpened => if c.ws == Some(Connecting) then Some(OnOpen(c)) else None
    case SocketClosed => if c.ws.Some? then Some(OnClose(c)) else None
  }

  /** The client after a run of stimuli, or None if some stimulus of the
      run could not have happened. */
  function Run<D>(c: Client<D>, ss: seq<Stimulus<D>>): Option<Client<D>>
    decreases |ss|
  {
    if ss == [] then Some(c)
    else match Step(c, ss[0])
      case None => None
      case Some(c1) => Run(c1, ss[1..])
  }

  /** Every possible run from a freshly constructed client keeps the
      invariant: in particular every reconnect delay ever scheduled lies in
      [2000, 30000] and nothing stays queued while connected. */
  lemma {:induction false} RunKeepsWf<D>(c: Client<D>, ss: seq<Stimulus<D>>)
    requires Wf(c)
    ensures Run(c, ss).Some? ==> Wf(Run(c, ss).value)
    decreases |ss|
  {
    if ss != [] {
      var r := Step(c, ss[0]);
      if r.Some? {
        RunKeepsWf(r.value, ss[1..]);
      }
    }
  }

  /** The constructed client satisfies the invariant, so every run from it
      does. */
  lemma RunFromNewKeepsWf<D>(ss: seq<Stimulus<D>>)
    ensures Run(New<D>(), ss).Some? ==> Wf(Run(New<D>(), ss).value)
  {
    RunKeepsWf(New<D>(), ss);
  }

  // ---------------------------------------------------------------------
  // Reconnect backoff
  // ---------------------------------------------------------------------

  function Pow2(k: nat): nat
  {
    if k == 0 then 1 else 2 * Pow2(k - 1)
  }

  /** The interval after `k` consecutive failures since the last reset. */
  function IntervalAfter(k: nat): int
  {
    Min(MaxInterval, InitialInterval * Pow2(k))
  }

  /** The delays of `k` consecutive failed attempts after a reset:
      2000, 4000, 8000, 16000, 30000, 30000, ... */
  function BackoffSchedule(k: nat): (s: seq<int>)
    ensures |s| == k
  {
    seq(k, i requires 0 <= i < k => IntervalAfter(i + 1))
  }

  /** `k` reconnect attempts that each fail: the timer's `connect()`, then
      the new socket's `close` event. */
  function FailedAttempts<D>(c: Client<D>, k: nat): Client<D>
    decreases k
  {
    if k == 0 then c else FailedAttempts(OnClose(Connect(c)), k - 1)
  }

  /** After `j` failures the interval is the capped doubling; each further
      failure schedules the next term of the schedule. */
  lemma {:induction false} BackoffFrom<D>(c: Client<D>, j: nat, k: nat)
    requires c.interval == IntervalAfter(j)
    ensures FailedAttempts(c, k).interval == IntervalAfter(j + k)
    ensures FailedAttempts(c, k).delays == c.delays + seq(k, i requires 0 <= i < k => IntervalAfter(j + i + 1))
    decreases k
  {
    if k > 0 {
      var c1 := OnClose(Connect(c));
      assert c1.interval == IntervalAfter(j + 1) by {
        assert Pow2(j + 1) == 2 * Pow2(j);
      }
      BackoffFrom(c1, j + 1, k - 1);
      var tail := seq(k - 1, i requires 0 <= i < k - 1 => IntervalAfter(j + 1 + i + 1));
      var whole := seq(k, i requires 0 <= i < k => IntervalAfter(j + i + 1));
      assert whole == [IntervalAfter(j + 1)] + tail;
    }
  }

  /** Once a socket has opened, consecutive failures schedule exactly the
      backoff schedule, starting at 2000. */
  lemma BackoffAfterOpen<D>(c: Client<D>, k: nat)
    requires c.ws == Some(Connecting)
    ensures FailedAttempts(OnOpen(c), k).delays == c.delays + BackoffSchedule(k)
  {
    BackoffFrom(OnOpen(c), 0, k);
    assert BackoffSchedule(k) == seq(k, i requires 0 <= i < k => IntervalAfter(0 + i + 1));
  }

  /** The first six delays of the schedule. */
  lemma BackoffScheduleValues()
    ensures BackoffSchedule(6) == [2000, 4000, 8000, 16000, 30000, 30000]
  {
    assert Pow2(1) == 2 && Pow2(2) == 4 && Pow2(3) == 8 && Pow2(4) == 16
        && Pow2(5) == 32 && Pow2(6) == 64;
  }
}
