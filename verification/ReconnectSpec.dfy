/** The reconnect, preflight and pause machine of `createConnection` in
    src/client.js, as functions from one state to the next.

    Sockets are never deleted from the state, and a preflight run stays in it
    until its continuation has run, so the late events of replaced ones can
    still be delivered. A timer leaves the state when it fires or is cleared.
    Stores notify their subscribers synchronously,
    and a subscriber may call back into the connection: a `Hook` is any finite
    tree of such calls. */
module ReconnectSpec {
  import opened Options

  datatype Ready = Connecting | Open | Closing | Closed

  datatype Outcome = Accepted | Unauthorized | Throttled | Transient

  datatype CloseClass = TerminalClose | ThrottleClose | RetryClose

  datatype Status = StatusConnecting | StatusOpen | StatusSuspended | StatusDisconnected | StatusFailed

  datatype Failure = AuthFailure | AuthThrottle | TerminalFailure | DrainFailure | ThrottleFailure | RetryFailure | Exhausted

  /** `canConnect` is false during server-side rendering without a URL;
      `authTarget` says whether the preflight has a URL to ask;
      `maxAttempts` is `None` for the default of no limit; `closesOnPerma` says
      whether a subscriber of the permanent-close store calls `close` when it
      turns true, which it does once in the life of a connection. By then the
      connection is closed or terminal, so a pause or resume would do nothing. */
  datatype Config = Config(canConnect: bool, authPath: bool, authTarget: bool, maxAttempts: Option<nat>,
                           closesOnPerma: bool)

  /** `sockets` is the ready state of every socket ever opened. `retries` holds
      the armed reconnect timers with the generation each captured; `deadlines`
      the armed handshake timers, each named by the one socket it belongs to;
      `auths` the preflight runs still to continue, each named by the
      generation it captured (no two runs share one). */
  datatype State = State(
    cfg: Config,
    sockets: seq<Ready>,
    retries: map<nat, nat>,
    nextRetry: nat,
    deadlines: set<nat>,
    auths: set<nat>,
    ws: Option<nat>,
    reconnectTimer: Option<nat>,
    socketAttemptTimer: Option<nat>,
    authInFlight: Option<nat>,
    generation: nat,
    offline: bool,
    closed: bool,
    terminal: bool,
    attempt: nat,
    backoff: nat,
    reserved: bool,
    advisory: Option<int>,
    status: Status,
    failure: Option<Failure>)

  /** A call a store subscriber makes into the connection, with the calls its
      own two notifications provoke, and the call that follows it. */
  datatype Hook = Quiet | Then(call: Call, first: Hook, second: Hook, next: Hook)
  datatype Call = CallClose | CallPause | CallResume(opens: bool)

  ghost function Size(h: Hook): nat
  {
    match h
    case Quiet => 0
    case Then(_, a, b, n) => 1 + Size(a) + Size(b) + Size(n)
  }

  function ClassifyCloseCode(code: int): CloseClass
  {
    if code == 1008 || code == 4401 || code == 4403 then TerminalClose
    else if code == 4429 then ThrottleClose
    else RetryClose
  }

  predicate Active(s: State) { !s.closed && !s.terminal && !s.offline }

  predicate Current(s: State, generation: nat) { generation == s.generation && Active(s) }

  predicate SocketIs(s: State, ready: Ready)
  {
    s.ws.Some? && s.ws.value < |s.sockets| && s.sockets[s.ws.value] == ready
  }

  function Max(a: nat, b: nat): nat { if a >= b then a else b }

  // ---------------------------------------------------------------------
  // Building blocks

  function HangUp(sockets: seq<Ready>, sock: Option<nat>): seq<Ready>
  {
    if sock.Some? && sock.value < |sockets| && sockets[sock.value] in {Connecting, Open}
    then sockets[sock.value := Closing]
    else sockets
  }

  /** `clearTimer` on a handshake timer handle. */
  function Disarmed(deadlines: set<nat>, timer: Option<nat>): set<nat>
  {
    if timer.Some? then deadlines - {timer.value} else deadlines
  }

  /** `sock.close()`: the close event comes later. */
  function CloseSocket(s: State, sock: Option<nat>): State
  {
    s.(sockets := HangUp(s.sockets, sock))
  }

  /** The attempt is over and its socket let go of. */
  function Unplug(s: State, refund: bool): State
  {
    ClearReconnect(CancelAttempt(s), refund).(ws := None)
  }

  /** A replaced socket is forgotten before the new attempt is announced. */
  function Forget(s: State): State
  {
    if s.ws.None? then s
    else s.(ws := None, deadlines := Disarmed(s.deadlines, s.socketAttemptTimer),
            socketAttemptTimer := None, status := StatusDisconnected)
  }

  function CancelAttempt(s: State): State
  {
    s.(generation := s.generation + 1, authInFlight := None,
       deadlines := Disarmed(s.deadlines, s.socketAttemptTimer), socketAttemptTimer := None)
  }

  function ClearReconnect(s: State, refund: bool): State
  {
    var back := if refund && s.reserved && s.attempt > 0 then 1 else 0;
    s.(
      retries := if s.reconnectTimer.Some? then s.retries - {s.reconnectTimer.value} else s.retries,
      reconnectTimer := None,
      attempt := s.attempt - back,
      backoff := if s.backoff > 0 then s.backoff - back else 0,
      reserved := false)
  }

  function DisconnectSocket(s: State): State
  {
    if s.ws.None? then s
    else CloseSocket(s, s.ws).(status := if Active(s) then StatusDisconnected else s.status)
  }

  function Close(s: State): State
  {
    CloseSocket(Unplug(s.(closed := true), false), s.ws).(failure := None, status := StatusFailed)
  }

  /** Terminal: the permanent-close store turns true before the cause is set. */
  function GiveUp(s: State, cause: Failure): State
  {
    var told := if s.cfg.closesOnPerma then Close(s.(terminal := true)) else s.(terminal := true);
    told.(failure := Some(cause), status := StatusFailed)
  }

  function ScheduleReconnect(s: State, dispersed: bool): State
  {
    if !Active(s) || s.reconnectTimer.Some? then s
    else if s.cfg.maxAttempts.Some? && s.attempt >= s.cfg.maxAttempts.value then
      GiveUp(s, Exhausted)
    else
      var counted := if dispersed then s
                     else s.(attempt := s.attempt + 1, backoff := s.backoff + 1, reserved := true);
      counted.(retries := s.retries[s.nextRetry := s.generation],
               nextRetry := s.nextRetry + 1,
               reconnectTimer := Some(s.nextRetry))
  }

  /** `opens` is false when the WebSocket constructor throws. */
  function OpenSocket(s: State, opens: bool): State
  {
    if !opens then ScheduleReconnect(s.(reserved := false), false)
    else
      s.(sockets := s.sockets + [Connecting],
         deadlines := s.deadlines + {|s.sockets|},
         ws := Some(|s.sockets|),
         socketAttemptTimer := Some(|s.sockets|))
  }

  function BeginAuth(s: State): State
  {
    s.(auths := s.auths + {s.generation},
       authInFlight := if s.cfg.authTarget then Some(s.generation) else s.authInFlight)
  }

  // ---------------------------------------------------------------------
  // The public calls, with what their notifications provoke

  function Notify(s: State, h: Hook): State
    decreases Size(h), 0
  {
    match h
    case Quiet => s
    case Then(call, a, b, n) =>
      var after := match call
        case CallClose => Close(s)
        case CallPause => Pause(s, a, b)
        case CallResume(opens) => Resume(s, opens, a, b);
      Notify(after, n)
  }

  function DoConnect(s: State, opens: bool, h1: Hook, h2: Hook): State
    decreases Size(h1) + Size(h2), 3
  {
    if !Active(s) || !s.cfg.canConnect then s
    else if SocketIs(s, Connecting) || SocketIs(s, Open) then s
    else if s.authInFlight.Some? then s
    else Attempt(s, opens, h1, h2)
  }

  /** A new generation, in which a replaced socket is forgotten and reported. */
  function Dropped(s: State, h: Hook): State
    decreases Size(h), 1
  {
    var begun := Forget(s.(generation := s.generation + 1));
    if s.ws.None? then begun else Notify(begun, h)
  }

  /** What the subscribers leave of a new generation. */
  function Attempt(s: State, opens: bool, h1: Hook, h2: Hook): State
    decreases Size(h1) + Size(h2), 2
  {
    var dropped := Dropped(s, h1);
    if !Current(dropped, s.generation + 1) then dropped else Announce(dropped, opens, h2)
  }

  /** Report `connecting`, and dial if nothing has intervened. */
  function Announce(s: State, opens: bool, h: Hook): State
    decreases Size(h), 1
  {
    var announced := Notify(s.(status := StatusConnecting), h);
    if !Current(announced, s.generation) then announced
    else if announced.cfg.authPath then BeginAuth(announced)
    else OpenSocket(announced, opens)
  }

  function PauseBegin(s: State): State
  {
    Unplug(s.(offline := true), true).(advisory := None, status := StatusDisconnected)
  }

  function Pause(s: State, h1: Hook, h2: Hook): State
    decreases Size(h1) + Size(h2), 2
  {
    if !Active(s) || !s.cfg.canConnect then s
    else
      var told := Notify(PauseBegin(s), h1);
      CloseSocket(if told.offline && !told.closed && !told.terminal
                  then Notify(told.(failure := None), h2) else told, s.ws)
  }

  function Resume(s: State, opens: bool, h1: Hook, h2: Hook): State
    decreases Size(h1) + Size(h2), 4
  {
    if s.closed || s.terminal || !s.offline then s
    else DoConnect(s.(offline := false), opens, h1, h2)
  }

  // ---------------------------------------------------------------------
  // Socket, timer, preflight and browser events

  predicate OpenEventDue(s: State, id: nat) { id < |s.sockets| && s.sockets[id] == Connecting }

  predicate CloseEventDue(s: State, id: nat) { id < |s.sockets| && s.sockets[id] != Closed }

  /** What `onopen` and `onclose` do before they ask whether the socket is
      still the current one. */
  function Settle(s: State, id: nat, ready: Ready): State
    requires id < |s.sockets|
  {
    s.(sockets := s.sockets[id := ready],
       deadlines := s.deadlines - {id},
       socketAttemptTimer := if s.socketAttemptTimer == Some(id) then None else s.socketAttemptTimer)
  }

  function OnOpen(s: State, id: nat, hidden: bool, h1: Hook, h2: Hook): State
  {
    if !OpenEventDue(s, id) then s
    else
      var settled := Settle(s, id, Open);
      if settled.ws != Some(id) then settled
      else
        var told := Notify(settled.(reserved := false, attempt := 0, backoff := 0,
                                    advisory := None, failure := None), h1);
        if told.ws != Some(id) then told
        else Notify(told.(status := if hidden then StatusSuspended else StatusOpen), h2)
  }

  /** What a retrying outcome does to the backoff once the first notification
      left the attempt current. */
  datatype Backoff = Keep | Reset | JumpAhead

  function Rebase(s: State, how: Backoff): State
  {
    match how
    case Keep => s
    case Reset => s.(attempt := 0, backoff := 0)
    case JumpAhead => s.(backoff := Max(s.backoff, 5))
  }

  /** The common tail of the retrying outcomes: report, re-check, report,
      re-check, arm the timer. A drain (`Reset`) rolls its own delay. */
  function Retire(s: State, failure: Failure, how: Backoff, h1: Hook, h2: Hook): State
  {
    Requeue(Notify(s.(failure := Some(failure)), h1), s.generation, how, h2)
  }

  function Requeue(s: State, mine: nat, how: Backoff, h: Hook): State
  {
    if !Current(s, mine) then s
    else Rearm(Notify(Rebase(s, how).(status := StatusDisconnected), h), mine, how == Reset)
  }

  function Rearm(s: State, mine: nat, dispersed: bool): State
  {
    if Current(s, mine) then ScheduleReconnect(s, dispersed) else s
  }

  function OnClose(s: State, id: nat, code: int, now: int, h1: Hook, h2: Hook): State
  {
    if !CloseEventDue(s, id) then s
    else
      var settled := Settle(s, id, Closed);
      if settled.ws != Some(id) then settled
      else
        OnLost(settled.(reserved := false, ws := None), code, now, h1, h2)
  }

  /** The current socket is gone. */
  function OnLost(s: State, code: int, now: int, h1: Hook, h2: Hook): State
  {
    if s.closed then s.(failure := None, status := StatusFailed)
    else if ClassifyCloseCode(code) == TerminalClose then
      GiveUp(s, TerminalFailure)
    else if s.advisory.Some? && now < s.advisory.value then
      Retire(s.(advisory := None), DrainFailure, Reset, h1, h2)
    else OnDropped(s.(advisory := None), ClassifyCloseCode(code) == ThrottleClose, h1, h2)
  }

  function OnDropped(s: State, throttled: bool, h1: Hook, h2: Hook): State
  {
    if throttled then Retire(Rebase(s, JumpAhead), ThrottleFailure, Keep, h1, h2)
    else Retire(s, RetryFailure, Keep, h1, h2)
  }

  function OnAuth(s: State, run: nat, outcome: Outcome, opens: bool, h1: Hook, h2: Hook): State
  {
    if run !in s.auths then s
    else
      var settled := s.(auths := s.auths - {run},
                        authInFlight := if s.authInFlight == Some(run) then None else s.authInFlight);
      if !Current(settled, run) then settled else OnCurrentAuth(settled, outcome, opens, h1, h2)
  }

  function OnCurrentAuth(s: State, outcome: Outcome, opens: bool, h1: Hook, h2: Hook): State
  {
    match outcome
    case Accepted => OpenSocket(s, opens)
    case Unauthorized => GiveUp(s.(reserved := false), AuthFailure)
    case Throttled => Retire(s.(reserved := false), AuthThrottle, JumpAhead, h1, h2)
    case Transient => Retire(s.(reserved := false), AuthFailure, Keep, h1, h2)
  }

  function OnRetryTimer(s: State, t: nat, opens: bool, h1: Hook, h2: Hook): State
  {
    if t !in s.retries then s
    else
      var fired := s.(retries := s.retries - {t});
      if s.retries[t] != s.generation then fired
      else DoConnect(fired.(reconnectTimer := None), opens, h1, h2)
  }

  function OnHandshakeTimer(s: State, id: nat): State
  {
    if id !in s.deadlines then s
    else
      var fired := s.(deadlines := s.deadlines - {id});
      if s.ws == Some(id) && SocketIs(s, Connecting) then DisconnectSocket(fired) else fired
  }

  /** The peer starts the closing handshake: the browser changes the ready
      state, and no handler runs until the close event. */
  function OnPeerClosing(s: State, id: nat): State
  {
    if id < |s.sockets| && s.sockets[id] == Open
    then s.(sockets := s.sockets[id := Closing])
    else s
  }

  function OnDrainAdvisory(s: State, id: nat, afterMs: int, windowMs: int, now: int): State
  {
    if s.ws != Some(id) || windowMs <= 0 then s
    else s.(advisory := Some(now + (if afterMs > 0 then afterMs else 0) + windowMs + 5000))
  }

  /** `gap` says the suspend detector saw a sleep the socket may not have survived. */
  function OnHidden(s: State, gap: bool): State
  {
    if !Active(s) || !SocketIs(s, Open) then s
    else if gap then DisconnectSocket(s.(attempt := 0, backoff := 0))
    else s.(status := StatusSuspended)
  }

  function OnVisible(s: State, gap: bool, opens: bool, h1: Hook, h2: Hook): State
  {
    if !Active(s) then s
    else if SocketIs(s, Open) then
      if gap then DisconnectSocket(s.(attempt := 0, backoff := 0)) else s.(status := StatusOpen)
    else DoConnect(ClearReconnect(s.(attempt := 0, backoff := 0), false), opens, h1, h2)
  }

  function OnOffline(s: State): State
  {
    if !Active(s) then s
    else if SocketIs(s, Open) || SocketIs(s, Connecting) then DisconnectSocket(s)
    else s.(status := StatusDisconnected)
  }

  function OnOnline(s: State, opens: bool, h1: Hook, h2: Hook): State
  {
    if !Active(s) || SocketIs(s, Open) then s
    else DoConnect(ClearReconnect(s.(attempt := 0, backoff := 0), false), opens, h1, h2)
  }

  /** `silent` says the activity check found the socket silent or slept through. */
  function OnActivityTick(s: State, silent: bool): State
  {
    if Active(s) && SocketIs(s, Open) && silent then DisconnectSocket(s) else s
  }

  // ---------------------------------------------------------------------
  // Runs

  datatype Event =
    | SocketOpened(id: nat, hidden: bool, h1: Hook, h2: Hook)
    | SocketClosed(id: nat, code: int, now: int, h1: Hook, h2: Hook)
    | AuthSettled(run: nat, outcome: Outcome, opens: bool, h1: Hook, h2: Hook)
    | RetryFired(t: nat, opens: bool, h1: Hook, h2: Hook)
    | HandshakeFired(id: nat)
    | PeerClosing(id: nat)
    | DrainAdvisory(id: nat, afterMs: int, windowMs: int, now: int)
    | PageHidden(gap: bool)
    | PageVisible(gap: bool, opens: bool, h1: Hook, h2: Hook)
    | WentOffline
    | WentOnline(opens: bool, h1: Hook, h2: Hook)
    | ActivityTick(silent: bool)
    | CalledPause(h1: Hook, h2: Hook)
    | CalledResume(opens: bool, h1: Hook, h2: Hook)
    | CalledClose

  function Step(s: State, e: Event): State
  {
    match e
    case SocketOpened(id, hidden, h1, h2) => OnOpen(s, id, hidden, h1, h2)
    case SocketClosed(id, code, now, h1, h2) => OnClose(s, id, code, now, h1, h2)
    case AuthSettled(run, outcome, opens, h1, h2) => OnAuth(s, run, outcome, opens, h1, h2)
    case RetryFired(t, opens, h1, h2) => OnRetryTimer(s, t, opens, h1, h2)
    case HandshakeFired(id) => OnHandshakeTimer(s, id)
    case PeerClosing(id) => OnPeerClosing(s, id)
    case DrainAdvisory(id, afterMs, windowMs, now) => OnDrainAdvisory(s, id, afterMs, windowMs, now)
    case PageHidden(gap) => OnHidden(s, gap)
    case PageVisible(gap, opens, h1, h2) => OnVisible(s, gap, opens, h1, h2)
    case WentOffline => OnOffline(s)
    case WentOnline(opens, h1, h2) => OnOnline(s, opens, h1, h2)
    case ActivityTick(silent) => OnActivityTick(s, silent)
    case CalledPause(h1, h2) => Pause(s, h1, h2)
    case CalledResume(opens, h1, h2) => Resume(s, opens, h1, h2)
    case CalledClose => Close(s)
  }

  function Run(s: State, events: seq<Event>): State
    decreases |events|
  {
    if events == [] then s else Run(Step(s, events[0]), events[1..])
  }

  function Fresh(cfg: Config): State
  {
    State(cfg, [], map[], 0, {}, {}, None, None, None, None, 0, false, false, false, 0, 0, false,
          None, StatusDisconnected, None)
  }

  /** Creating a connection dials at once. */
  function Created(cfg: Config, opens: bool, h1: Hook, h2: Hook): State
  {
    DoConnect(Fresh(cfg), opens, h1, h2)
  }
}
