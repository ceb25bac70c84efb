/** What every run of the reconnect machine keeps: exactly one thing drives the
    next attempt while the connection is wanted, nothing does once it is not,
    and the retry budget holds. */
module ReconnectProofs {
  import opened Options
  import opened ReconnectSpec

  // ---------------------------------------------------------------------
  // The invariant

  ghost predicate AuthPending(s: State) { s.generation in s.auths }

  /** The handles point at what they say they do, and no timer is armed that
      the connection has forgotten. */
  ghost predicate HandlesOk(s: State)
  {
    && (s.ws.Some? ==> s.ws.value < |s.sockets| && s.sockets[s.ws.value] != Closed)
    && (s.authInFlight.Some? ==> s.authInFlight.value == s.generation && AuthPending(s))
    && (forall g :: g in s.auths ==> g <= s.generation)
    && s.retries == (if s.reconnectTimer.Some? then map[s.reconnectTimer.value := s.generation] else map[])
    && (s.socketAttemptTimer.Some? ==> s.socketAttemptTimer == s.ws)
    && (s.deadlines == {} || DeadlineArmed(s))
    && (SocketIs(s, Connecting) ==> DeadlineArmed(s))
  }

  /** The one armed handshake deadline belongs to the current socket. */
  ghost predicate DeadlineArmed(s: State)
  {
    s.ws.Some? && s.socketAttemptTimer == s.ws && s.deadlines == {s.ws.value}
  }

  ghost predicate Idle(s: State)
  {
    s.ws.None? && s.reconnectTimer.None? && !AuthPending(s) && s.authInFlight.None?
  }

  /** At most one driver, and none at all unless the connection is wanted. */
  ghost predicate Exclusive(s: State)
  {
    && !(s.ws.Some? && s.reconnectTimer.Some?)
    && !(s.ws.Some? && AuthPending(s))
    && !(s.reconnectTimer.Some? && AuthPending(s))
    && (!Active(s) ==> Idle(s))
    && (!s.cfg.canConnect ==> Idle(s) && !s.offline)
  }

  ghost predicate BudgetOk(s: State)
  {
    && (s.cfg.maxAttempts.Some? ==> s.attempt <= s.cfg.maxAttempts.value)
    && s.attempt <= s.backoff
    && (s.reserved ==> s.attempt >= 1)
    && (SocketIs(s, Open) ==> !s.reserved)
  }

  /** `failed` means closed by the caller or given up, and the failure says which;
      only a close from inside the giving up keeps the cause. */
  ghost predicate ReportOk(s: State)
  {
    && (s.status == StatusFailed <==> s.closed || s.terminal)
    && (s.closed && s.failure.Some? ==> s.terminal && s.cfg.closesOnPerma)
    && (s.terminal && !s.closed ==> s.failure.Some?)
    && (s.terminal ==> s.cfg.canConnect)
  }

  ghost predicate Safe(s: State)
  {
    HandlesOk(s) && Exclusive(s) && BudgetOk(s) && ReportOk(s)
  }

  /** Something will produce the next event: a socket whose close event is
      still due, an armed retry, or a preflight. */
  ghost predicate Driven(s: State)
  {
    Active(s) && s.cfg.canConnect ==> s.ws.Some? || s.reconnectTimer.Some? || AuthPending(s)
  }

  ghost predicate Inv(s: State) { Safe(s) && Driven(s) }

  /** How a later state relates to an earlier one. */
  ghost predicate Extends(s: State, t: State)
  {
    && t.cfg == s.cfg
    && |s.sockets| <= |t.sockets|
    && s.generation <= t.generation
    && (t.ws.Some? ==> t.ws == s.ws || t.ws.value >= |s.sockets|)
    && (s.closed ==> t.closed)
    && (s.terminal ==> t.terminal)
  }

  /** Nothing happened, or a new generation began and the socket was let go of. */
  ghost predicate Follows(s: State, t: State)
  {
    Extends(s, t) && (t == s || (s.generation < t.generation && (t.ws.Some? ==> t.ws.value >= |s.sockets|)))
  }

  /** A refund returns at most what the last reservation took. */
  lemma Refunding(s: State, refund: bool)
    requires BudgetOk(s)
    ensures BudgetOk(Unplug(s, refund))
  {
  }

  /** Cancelling the attempt and the retry disarms every timer. */
  lemma Unplugging(s: State, refund: bool)
    requires HandlesOk(s)
    ensures var t := Unplug(s, refund); HandlesOk(t) && Idle(t)
  {
    assert Unplug(s, refund).retries == map[];
    assert Unplug(s, refund).deadlines == {};
  }

  lemma CloseKeeps(s: State)
    requires Safe(s)
    ensures Inv(Close(s)) && Follows(s, Close(s))
  {
    var closing := s.(closed := true);
    Unplugging(closing, false);
    Refunding(closing, false);
  }

  lemma CloseSocketKeeps(s: State, sock: Option<nat>)
    requires Safe(s)
    requires sock.Some? ==> sock != s.ws
    ensures Safe(CloseSocket(s, sock))
    ensures Driven(s) ==> Driven(CloseSocket(s, sock))
  {
  }

  /** Giving up ends the connection for the given cause, which a close from the
      permanent-close store does not clear. */
  lemma GiveUpKeeps(s: State, cause: Failure)
    requires Safe(s) && Idle(s) && Active(s) && s.cfg.canConnect
    ensures Inv(GiveUp(s, cause)) && Extends(s, GiveUp(s, cause))
    ensures var t := GiveUp(s, cause);
            t.terminal && t.failure == Some(cause) && (t.closed <==> s.cfg.closesOnPerma)
  {
    Unplugging(s.(terminal := true, closed := true), false);
    Refunding(s.(terminal := true, closed := true), false);
  }

  lemma ScheduleKeeps(s: State, dispersed: bool)
    requires Safe(s) && s.cfg.canConnect && !s.reserved
    requires s.ws.None? && !AuthPending(s)
    ensures Inv(ScheduleReconnect(s, dispersed)) && Extends(s, ScheduleReconnect(s, dispersed))
  {
    if Active(s) && s.reconnectTimer.None? { GiveUpKeeps(s, Exhausted); }
  }

  lemma OpenSocketKeeps(s: State, opens: bool)
    requires Safe(s) && Active(s) && s.cfg.canConnect && Idle(s)
    ensures Inv(OpenSocket(s, opens)) && Extends(s, OpenSocket(s, opens))
  {
    if !opens { ScheduleKeeps(s.(reserved := false), false); }
  }

  lemma NotifyKeeps(s: State, h: Hook)
    requires Safe(s)
    ensures Safe(Notify(s, h)) && Follows(s, Notify(s, h))
    ensures Notify(s, h) == s || Driven(Notify(s, h))
    decreases Size(h), 0
  {
    match h
    case Quiet =>
    case Then(call, a, b, n) =>
      var after := match call
        case CallClose => Close(s)
        case CallPause => Pause(s, a, b)
        case CallResume(opens) => Resume(s, opens, a, b);
      match call {
        case CallClose => CloseKeeps(s);
        case CallPause => PauseKeeps(s, a, b);
        case CallResume(opens) => ResumeKeeps(s, opens, a, b);
      }
      NotifyKeeps(after, n);
  }

  lemma PauseBeginKeeps(s: State)
    requires Safe(s) && Active(s) && s.cfg.canConnect
    ensures Safe(PauseBegin(s)) && Idle(PauseBegin(s)) && Follows(s, PauseBegin(s))
  {
    var pausing := s.(offline := true);
    Unplugging(pausing, true);
    Refunding(pausing, true);
  }

  lemma PauseKeeps(s: State, h1: Hook, h2: Hook)
    requires Safe(s)
    ensures Safe(Pause(s, h1, h2)) && Follows(s, Pause(s, h1, h2))
    ensures Pause(s, h1, h2) == s || Driven(Pause(s, h1, h2))
    decreases Size(h1) + Size(h2), 2
  {
    if Active(s) && s.cfg.canConnect {
      var before := PauseBegin(s);
      PauseBeginKeeps(s);
      NotifyKeeps(before, h1);
      var told := Notify(before, h1);
      if told.offline && !told.closed && !told.terminal {
        NotifyKeeps(told.(failure := None), h2);
        PauseEndKeeps(s, before, told, Notify(told.(failure := None), h2));
      } else {
        PauseEndKeeps(s, before, told, told);
      }
    }
  }

  lemma PauseEndKeeps(s: State, before: State, told: State, quiet: State)
    requires Safe(s) && Follows(s, before) && s.generation < before.generation && before.ws.None?
    requires Extends(before, told) && Extends(told, quiet) && Inv(quiet)
    ensures Inv(CloseSocket(quiet, s.ws)) && Follows(s, CloseSocket(quiet, s.ws))
  {
    CloseSocketKeeps(quiet, s.ws);
  }

  lemma ForgetKeeps(s: State)
    requires Safe(s) && s.reconnectTimer.None? && s.authInFlight.None? && Active(s) && s.cfg.canConnect
    ensures var t := Forget(s.(generation := s.generation + 1));
            Safe(t) && Idle(t) && Follows(s, t)
  {
    var t := Forget(s.(generation := s.generation + 1));
    assert t.deadlines == {};
  }

  /** Where an attempt begins from: nothing else is under way. */
  ghost predicate MayDial(s: State)
  {
    && Active(s) && s.cfg.canConnect && s.reconnectTimer.None? && s.authInFlight.None?
    && !SocketIs(s, Connecting) && !SocketIs(s, Open)
  }

  lemma DoConnectKeeps(s: State, opens: bool, h1: Hook, h2: Hook)
    requires Safe(s) && s.reconnectTimer.None?
    ensures Inv(DoConnect(s, opens, h1, h2)) && Follows(s, DoConnect(s, opens, h1, h2))
    decreases Size(h1) + Size(h2), 3
  {
    if MayDial(s) { AttemptKeeps(s, opens, h1, h2); }
  }

  lemma DropKeeps(s: State, h: Hook)
    requires Safe(s) && MayDial(s)
    ensures Safe(Dropped(s, h)) && Follows(s, Dropped(s, h)) && s.generation < Dropped(s, h).generation
    ensures if Current(Dropped(s, h), s.generation + 1) then Idle(Dropped(s, h)) else Driven(Dropped(s, h))
    ensures s.ws.Some? && Current(Dropped(s, h), s.generation + 1) ==> Dropped(s, h).status == StatusDisconnected
    decreases Size(h), 1
  {
    ForgetKeeps(s);
    NotifyKeeps(Forget(s.(generation := s.generation + 1)), h);
  }

  lemma AttemptKeeps(s: State, opens: bool, h1: Hook, h2: Hook)
    requires Safe(s) && MayDial(s)
    ensures Inv(Attempt(s, opens, h1, h2)) && Follows(s, Attempt(s, opens, h1, h2))
    ensures s.generation < Attempt(s, opens, h1, h2).generation
    decreases Size(h1) + Size(h2), 2
  {
    DropKeeps(s, h1);
    var dropped := Dropped(s, h1);
    if Current(dropped, s.generation + 1) { AnnounceKeeps(dropped, opens, h2); }
    assert Attempt(s, opens, h1, h2) ==
             if Current(dropped, s.generation + 1) then Announce(dropped, opens, h2) else dropped;
  }

  lemma AnnounceKeeps(s: State, opens: bool, h: Hook)
    requires Safe(s) && Idle(s) && Active(s) && s.cfg.canConnect
    ensures Inv(Announce(s, opens, h)) && Extends(s, Announce(s, opens, h))
    decreases Size(h), 1
  {
    var announcing := s.(status := StatusConnecting);
    NotifyKeeps(announcing, h);
    var announced := Notify(announcing, h);
    if Current(announced, s.generation) {
      assert announced == announcing;
      DialKeeps(announcing, opens);
    }
  }

  lemma DialKeeps(s: State, opens: bool)
    requires Safe(s) && Idle(s) && Active(s) && s.cfg.canConnect
    ensures s.cfg.authPath ==> Inv(BeginAuth(s)) && Extends(s, BeginAuth(s))
    ensures !s.cfg.authPath ==> Inv(OpenSocket(s, opens)) && Extends(s, OpenSocket(s, opens))
  {
    OpenSocketKeeps(s, opens);
  }

  lemma ResumeKeeps(s: State, opens: bool, h1: Hook, h2: Hook)
    requires Safe(s)
    ensures Safe(Resume(s, opens, h1, h2)) && Follows(s, Resume(s, opens, h1, h2))
    ensures Resume(s, opens, h1, h2) == s || Driven(Resume(s, opens, h1, h2))
    decreases Size(h1) + Size(h2), 4
  {
    if !s.closed && !s.terminal && s.offline {
      DoConnectKeeps(s.(offline := false), opens, h1, h2);
    }
  }

  // ---------------------------------------------------------------------
  // Events

  /** Rebasing the backoff touches nothing that drives the connection. */
  lemma RebaseKeeps(s: State, how: Backoff)
    requires Safe(s) && Active(s) && Idle(s) && !s.reserved
    ensures var t := Rebase(s, how).(status := StatusDisconnected);
            Safe(t) && Active(t) && Idle(t) && !t.reserved && Extends(s, t) && t.generation == s.generation && t.cfg == s.cfg
  {
  }

  lemma RequeueKeeps(s: State, how: Backoff, h: Hook)
    requires Safe(s) && Active(s) && s.cfg.canConnect && Idle(s) && !s.reserved
    ensures Inv(Requeue(s, s.generation, how, h)) && Extends(s, Requeue(s, s.generation, how, h))
  {
    var dropping := Rebase(s, how).(status := StatusDisconnected);
    RebaseKeeps(s, how);
    NotifyKeeps(dropping, h);
    if Current(Notify(dropping, h), s.generation) { ScheduleKeeps(dropping, how == Reset); }
  }

  lemma RetireKeeps(s: State, failure: Failure, how: Backoff, h1: Hook, h2: Hook)
    requires Safe(s) && Active(s) && s.cfg.canConnect && Idle(s) && !s.reserved
    ensures Inv(Retire(s, failure, how, h1, h2)) && Extends(s, Retire(s, failure, how, h1, h2))
  {
    var telling := s.(failure := Some(failure));
    NotifyKeeps(telling, h1);
    if Current(Notify(telling, h1), s.generation) { RequeueKeeps(telling, how, h2); }
  }

  /** Settling a socket that is not, or no longer, the current one. */
  lemma SettleStale(s: State, id: nat, ready: Ready)
    requires Inv(s) && CloseEventDue(s, id) && s.ws != Some(id) && ready != Connecting
    ensures Inv(Settle(s, id, ready)) && Extends(s, Settle(s, id, ready))
  {
  }

  lemma OnOpenKeeps(s: State, id: nat, hidden: bool, h1: Hook, h2: Hook)
    requires Inv(s)
    ensures Inv(OnOpen(s, id, hidden, h1, h2)) && Extends(s, OnOpen(s, id, hidden, h1, h2))
  {
    if OpenEventDue(s, id) {
      if s.ws != Some(id) {
        SettleStale(s, id, Open);
      } else {
        var accepted := Settle(s, id, Open).(reserved := false, attempt := 0, backoff := 0,
                                           advisory := None, failure := None);
        assert accepted.deadlines == {};
        assert Safe(accepted);
        NotifyKeeps(accepted, h1);
        var told := Notify(accepted, h1);
        if told.ws == Some(id) {
          NotifyKeeps(told.(status := if hidden then StatusSuspended else StatusOpen), h2);
        }
      }
    }
  }

  lemma OnLostKeeps(s: State, code: int, now: int, h1: Hook, h2: Hook)
    requires Safe(s) && Active(s) && s.cfg.canConnect && Idle(s) && !s.reserved
    ensures Inv(OnLost(s, code, now, h1, h2)) && Extends(s, OnLost(s, code, now, h1, h2))
  {
    var lost := s.(advisory := None);
    if ClassifyCloseCode(code) == TerminalClose {
      GiveUpKeeps(s, TerminalFailure);
    } else if s.advisory.Some? && now < s.advisory.value {
      RetireKeeps(lost, DrainFailure, Reset, h1, h2);
    } else if ClassifyCloseCode(code) == ThrottleClose {
      RetireKeeps(Rebase(lost, JumpAhead), ThrottleFailure, Keep, h1, h2);
    } else {
      RetireKeeps(lost, RetryFailure, Keep, h1, h2);
    }
  }

  lemma LosingSocketIdles(s: State, id: nat)
    requires Inv(s) && CloseEventDue(s, id) && s.ws == Some(id)
    ensures var gone := Settle(s, id, Closed).(reserved := false, ws := None);
            Safe(gone) && Active(gone) && gone.cfg.canConnect && Idle(gone) && Extends(s, gone)
  {
    assert Settle(s, id, Closed).deadlines == {};
  }

  lemma OnCloseKeeps(s: State, id: nat, code: int, now: int, h1: Hook, h2: Hook)
    requires Inv(s)
    ensures Inv(OnClose(s, id, code, now, h1, h2)) && Extends(s, OnClose(s, id, code, now, h1, h2))
  {
    if CloseEventDue(s, id) {
      if s.ws != Some(id) {
        SettleStale(s, id, Closed);
      } else {
        LosingSocketIdles(s, id);
        OnLostKeeps(Settle(s, id, Closed).(reserved := false, ws := None), code, now, h1, h2);
      }
    }
  }

  lemma SettledAuth(s: State, run: nat)
    requires Inv(s) && run in s.auths
    ensures var settled := s.(auths := s.auths - {run},
                              authInFlight := if s.authInFlight == Some(run) then None else s.authInFlight);
            Extends(s, settled)
            && if Current(settled, run) then Safe(settled) && Idle(settled) && settled.cfg.canConnect else Inv(settled)
  {
  }

  lemma CurrentAuthKeeps(s: State, outcome: Outcome, opens: bool, h1: Hook, h2: Hook)
    requires Safe(s) && Active(s) && s.cfg.canConnect && Idle(s)
    ensures Inv(OnCurrentAuth(s, outcome, opens, h1, h2)) && Extends(s, OnCurrentAuth(s, outcome, opens, h1, h2))
  {
    match outcome
    case Accepted => OpenSocketKeeps(s, opens);
    case Unauthorized => GiveUpKeeps(s.(reserved := false), AuthFailure);
    case Throttled => RetireKeeps(s.(reserved := false), AuthThrottle, JumpAhead, h1, h2);
    case Transient => RetireKeeps(s.(reserved := false), AuthFailure, Keep, h1, h2);
  }

  lemma OnAuthKeeps(s: State, run: nat, outcome: Outcome, opens: bool, h1: Hook, h2: Hook)
    requires Inv(s)
    ensures Inv(OnAuth(s, run, outcome, opens, h1, h2)) && Extends(s, OnAuth(s, run, outcome, opens, h1, h2))
  {
    if run in s.auths {
      var settled := s.(auths := s.auths - {run},
                        authInFlight := if s.authInFlight == Some(run) then None else s.authInFlight);
      SettledAuth(s, run);
      if Current(settled, run) { CurrentAuthKeeps(settled, outcome, opens, h1, h2); }
    }
  }

  lemma RetryTimerKeeps(s: State, t: nat, opens: bool, h1: Hook, h2: Hook)
    requires Inv(s)
    ensures Inv(OnRetryTimer(s, t, opens, h1, h2)) && Extends(s, OnRetryTimer(s, t, opens, h1, h2))
  {
    if t in s.retries {
      var fired := s.(retries := s.retries - {t}, reconnectTimer := None);
      assert fired.retries == map[];
      assert Safe(fired);
      DoConnectKeeps(fired, opens, h1, h2);
    }
  }

  lemma DisconnectKeeps(s: State)
    requires Inv(s)
    ensures Inv(DisconnectSocket(s)) && Extends(s, DisconnectSocket(s))
  {
  }

  /** Only a connecting socket needs its deadline. */
  lemma DisarmKeeps(s: State)
    requires Inv(s) && !SocketIs(s, Connecting)
    ensures Inv(s.(deadlines := {})) && Extends(s, s.(deadlines := {}))
  {
  }

  lemma FiredDeadline(s: State, id: nat)
    requires Inv(s) && id in s.deadlines
    ensures s.ws == Some(id) && s.deadlines - {id} == {}
    ensures SocketIs(s, Connecting) ==>
              !SocketIs(DisconnectSocket(s), Connecting) &&
              OnHandshakeTimer(s, id) == DisconnectSocket(s).(deadlines := {})
  {
  }

  lemma HandshakeTimerKeeps(s: State, id: nat)
    requires Inv(s)
    ensures Inv(OnHandshakeTimer(s, id)) && Extends(s, OnHandshakeTimer(s, id))
  {
    if id in s.deadlines {
      FiredDeadline(s, id);
      if SocketIs(s, Connecting) {
        DisconnectKeeps(s);
        DisarmKeeps(DisconnectSocket(s));
      } else {
        DisarmKeeps(s);
      }
    }
  }

  lemma BrowserKeeps(s: State, flag: bool, opens: bool, h1: Hook, h2: Hook)
    requires Inv(s)
    ensures Inv(OnVisible(s, flag, opens, h1, h2)) && Extends(s, OnVisible(s, flag, opens, h1, h2))
    ensures Inv(OnOnline(s, opens, h1, h2)) && Extends(s, OnOnline(s, opens, h1, h2))
  {
    if Active(s) && !SocketIs(s, Open) {
      var cleared := ClearReconnect(s.(attempt := 0, backoff := 0), false);
      assert cleared.retries == map[];
      assert Safe(cleared);
      DoConnectKeeps(cleared, opens, h1, h2);
    }
  }

  lemma PageEventsKeep(s: State, flag: bool)
    requires Inv(s)
    ensures Inv(OnHidden(s, flag)) && Extends(s, OnHidden(s, flag))
    ensures Inv(OnOffline(s)) && Extends(s, OnOffline(s))
    ensures Inv(OnActivityTick(s, flag)) && Extends(s, OnActivityTick(s, flag))
  {
    DisconnectKeeps(s);
    if Active(s) && SocketIs(s, Open) { DisconnectKeeps(s.(attempt := 0, backoff := 0)); }
  }

  lemma PeerEventsKeep(s: State, id: nat, afterMs: int, windowMs: int, now: int)
    requires Inv(s)
    ensures Inv(OnPeerClosing(s, id)) && Extends(s, OnPeerClosing(s, id))
    ensures Inv(OnDrainAdvisory(s, id, afterMs, windowMs, now))
    ensures Extends(s, OnDrainAdvisory(s, id, afterMs, windowMs, now))
  {
  }

  /** The caller's own calls. */
  ghost predicate IsCall(e: Event) { e.CalledPause? || e.CalledResume? || e.CalledClose? }

  lemma CallKeeps(s: State, e: Event)
    requires Inv(s) && IsCall(e)
    ensures Inv(Step(s, e)) && Extends(s, Step(s, e))
  {
    match e
    case CalledPause(h1, h2) => PauseKeeps(s, h1, h2);
    case CalledResume(opens, h1, h2) => ResumeKeeps(s, opens, h1, h2);
    case CalledClose => CloseKeeps(s);
  }

  lemma SocketStepKeeps(s: State, e: Event)
    requires Inv(s)
    requires e.SocketOpened? || e.SocketClosed? || e.HandshakeFired? || e.PeerClosing? || e.DrainAdvisory?
    ensures Inv(Step(s, e)) && Extends(s, Step(s, e))
  {
    match e
    case SocketOpened(id, hidden, h1, h2) => OnOpenKeeps(s, id, hidden, h1, h2);
    case SocketClosed(id, code, now, h1, h2) => OnCloseKeeps(s, id, code, now, h1, h2);
    case HandshakeFired(id) => HandshakeTimerKeeps(s, id);
    case PeerClosing(id) => PeerEventsKeep(s, id, 0, 0, 0);
    case DrainAdvisory(id, afterMs, windowMs, now) => PeerEventsKeep(s, id, afterMs, windowMs, now);
  }

  lemma BrowserStepKeeps(s: State, e: Event)
    requires Inv(s)
    requires e.PageHidden? || e.PageVisible? || e.WentOffline? || e.WentOnline? || e.ActivityTick?
    ensures Inv(Step(s, e)) && Extends(s, Step(s, e))
  {
    match e
    case PageHidden(gap) => PageEventsKeep(s, gap);
    case PageVisible(gap, opens, h1, h2) => BrowserKeeps(s, gap, opens, h1, h2);
    case WentOffline => PageEventsKeep(s, true);
    case WentOnline(opens, h1, h2) => BrowserKeeps(s, true, opens, h1, h2);
    case ActivityTick(silent) => PageEventsKeep(s, silent);
  }

  lemma StepKeeps(s: State, e: Event)
    requires Inv(s)
    ensures Inv(Step(s, e)) && Extends(s, Step(s, e))
  {
    if e.AuthSettled? {
      OnAuthKeeps(s, e.run, e.outcome, e.opens, e.h1, e.h2);
    } else if e.RetryFired? {
      RetryTimerKeeps(s, e.t, e.opens, e.h1, e.h2);
    } else if e.CalledPause? || e.CalledResume? || e.CalledClose? {
      CallKeeps(s, e);
    } else if e.PageHidden? || e.PageVisible? || e.WentOffline? || e.WentOnline? || e.ActivityTick? {
      BrowserStepKeeps(s, e);
    } else {
      SocketStepKeeps(s, e);
    }
  }

  // ---------------------------------------------------------------------
  // Main results

  /** How many things would produce the next attempt or the end of this one:
      a socket whose close event is still due, a retry armed for the current
      attempt, a preflight of the current attempt. */
  ghost function Drivers(s: State): nat
  {
    (if s.ws.Some? && s.ws.value < |s.sockets| && s.sockets[s.ws.value] != Closed then 1 else 0)
    + (if s.reconnectTimer.Some? && s.retries == map[s.reconnectTimer.value := s.generation] then 1 else 0)
    + (if s.generation in s.auths then 1 else 0)
  }

  lemma RunKeeps(s: State, events: seq<Event>)
    requires Inv(s)
    ensures Inv(Run(s, events))
    decreases |events|
  {
    if events != [] {
      StepKeeps(s, events[0]);
      RunKeeps(Step(s, events[0]), events[1..]);
    }
  }

  lemma CreatedIsInv(cfg: Config, opens: bool, h1: Hook, h2: Hook)
    ensures Inv(Created(cfg, opens, h1, h2)) && Created(cfg, opens, h1, h2).cfg == cfg
  {
    DoConnectKeeps(Fresh(cfg), opens, h1, h2);
  }

  /** Never stuck, never doubled, never revived: in every reachable state a
      wanted connection has exactly one driver, every other one has none and no
      armed timer, and a socket that is still connecting has its deadline armed. */
  lemma ExactlyOneDriver(cfg: Config, opens: bool, h1: Hook, h2: Hook, events: seq<Event>)
    ensures var s := Run(Created(cfg, opens, h1, h2), events);
            && Drivers(s) == (if Active(s) && s.cfg.canConnect then 1 else 0)
            && (SocketIs(s, Connecting) ==> s.ws.value in s.deadlines)
            && (!Active(s) ==> s.ws.None? && s.retries == map[] && s.deadlines == {})
  {
    CreatedIsInv(cfg, opens, h1, h2);
    RunKeeps(Created(cfg, opens, h1, h2), events);
  }

  /** The retry budget holds over every run, and a reserved retry was counted. */
  lemma RetryBudget(cfg: Config, opens: bool, h1: Hook, h2: Hook, events: seq<Event>)
    ensures var s := Run(Created(cfg, opens, h1, h2), events);
            && (s.cfg.maxAttempts.Some? ==> s.attempt <= s.cfg.maxAttempts.value)
            && s.attempt <= s.backoff
            && (s.reserved ==> s.attempt >= 1 && !SocketIs(s, Open))
            && (s.status == StatusFailed <==> s.closed || s.terminal)
            && (s.status == StatusFailed && s.failure.None? ==> s.closed)
            && (s.closed && s.failure.Some? ==> s.terminal && s.cfg.closesOnPerma)
  {
    CreatedIsInv(cfg, opens, h1, h2);
    RunKeeps(Created(cfg, opens, h1, h2), events);
  }

  lemma RunKeepsConfig(s: State, events: seq<Event>)
    requires Inv(s)
    ensures Run(s, events).cfg == s.cfg
    decreases |events|
  {
    if events != [] {
      StepKeeps(s, events[0]);
      RunKeepsConfig(Step(s, events[0]), events[1..]);
    }
  }

  /** The first outcome can be the giving up. */
  function FirstRefusal(cfg: Config): Event
  {
    if cfg.authPath then AuthSettled(1, Unauthorized, true, Quiet, Quiet)
    else SocketClosed(0, 1008, 0, Quiet, Quiet)
  }

  lemma ClosedWhileGivingUp(cfg: Config)
    requires cfg.canConnect && cfg.closesOnPerma
    ensures var s := Run(Created(cfg, true, Quiet, Quiet), [FirstRefusal(cfg)]); s.closed && s.failure.Some?
  {
    var s := Created(cfg, true, Quiet, Quiet);
    var e := FirstRefusal(cfg);
    assert [e][1..] == [] && Run(Step(s, e), []) == Step(s, e);
    assert Active(s) && s.generation == 1;
    if cfg.authPath {
      assert 1 in s.auths;
    } else {
      assert s.ws == Some(0) && s.sockets == [Connecting];
      assert CloseEventDue(s, 0);
    }
  }

  /** A closed connection never shows a failure cause exactly when it can never
      give up, or no permanent-close subscriber closes it as it does. */
  lemma ClosedHasNoCauseExactly(cfg: Config)
    ensures (forall opens: bool, h1: Hook, h2: Hook, events: seq<Event> ::
               var s := Run(Created(cfg, opens, h1, h2), events); s.closed ==> s.failure.None?)
            <==> !cfg.canConnect || !cfg.closesOnPerma
  {
    forall opens: bool, h1: Hook, h2: Hook, events: seq<Event> | !cfg.canConnect || !cfg.closesOnPerma
      ensures var s := Run(Created(cfg, opens, h1, h2), events); s.closed ==> s.failure.None?
    {
      CreatedIsInv(cfg, opens, h1, h2);
      RunKeeps(Created(cfg, opens, h1, h2), events);
      RunKeepsConfig(Created(cfg, opens, h1, h2), events);
    }
    if cfg.canConnect && cfg.closesOnPerma { ClosedWhileGivingUp(cfg); }
  }

  ghost predicate Ended(s: State) { s.closed || s.terminal }

  lemma EndedStepIsInert(s: State, e: Event)
    requires Inv(s) && Ended(s)
    ensures var t := Step(s, e);
            Ended(t) && |t.sockets| == |s.sockets| && t.status == StatusFailed
  {
    StepKeeps(s, e);
  }

  /** Once closed or terminal, whatever still arrives, no socket is ever opened
      again and the connection stays failed with nothing armed. */
  lemma EndedIsFinal(s: State, events: seq<Event>)
    requires Inv(s) && Ended(s)
    ensures var t := Run(s, events);
            Ended(t) && |t.sockets| == |s.sockets| && t.status == StatusFailed && Drivers(t) == 0
    decreases |events|
  {
    if events != [] {
      StepKeeps(s, events[0]);
      EndedStepIsInert(s, events[0]);
      EndedIsFinal(Step(s, events[0]), events[1..]);
    }
  }

  /** Late events of a replaced socket touch nothing but the record that they
      happened. */
  lemma LateSocketEventsAreInert(s: State, id: nat, code: int, afterMs: int, windowMs: int, now: int, hidden: bool,
                                 h1: Hook, h2: Hook)
    requires Inv(s) && s.ws != Some(id)
    ensures OpenEventDue(s, id) ==> OnOpen(s, id, hidden, h1, h2) == s.(sockets := s.sockets[id := Open])
    ensures CloseEventDue(s, id) ==> OnClose(s, id, code, now, h1, h2) == s.(sockets := s.sockets[id := Closed])
    ensures OnHandshakeTimer(s, id) == s && OnDrainAdvisory(s, id, afterMs, windowMs, now) == s
  {
    assert s.deadlines - {id} == s.deadlines;
  }

  /** So do late preflights and timers. */
  lemma LateRunsAreInert(s: State, run: nat, outcome: Outcome, opens: bool, h1: Hook, h2: Hook)
    requires Inv(s)
    ensures run != s.generation ==> OnAuth(s, run, outcome, opens, h1, h2) == s.(auths := s.auths - {run})
    ensures s.reconnectTimer != Some(run) ==> OnRetryTimer(s, run, opens, h1, h2) == s
  {
    if run !in s.auths { assert s.auths - {run} == s.auths; }
  }

  function PauseCycles(s: State, n: nat): State
  {
    if n == 0 then s else Resume(Pause(PauseCycles(s, n - 1), Quiet, Quiet), true, Quiet, Quiet)
  }

  lemma OnePauseCycle(s: State)
    requires Inv(s) && Active(s) && s.cfg.canConnect
    ensures var t := Resume(Pause(s, Quiet, Quiet), true, Quiet, Quiet);
            var refund := if s.reserved then 1 else 0;
            && Inv(t) && Active(t) && t.cfg.canConnect && !t.reserved
            && t.attempt == s.attempt - refund && t.backoff == s.backoff - refund
  {
    PauseKeeps(s, Quiet, Quiet);
    var paused := Pause(s, Quiet, Quiet);
    assert paused.attempt == s.attempt - (if s.reserved then 1 else 0);
    assert paused.backoff == s.backoff - (if s.reserved then 1 else 0);
    ResumeKeeps(paused, true, Quiet, Quiet);
  }

  /** Pausing and resuming any number of times spends nothing: the one retry
      reserved when the cycles began is given back, once. */
  lemma {:induction false} PauseCyclesSpendNothing(s: State, n: nat)
    requires Inv(s) && Active(s) && s.cfg.canConnect && n > 0
    ensures var t := PauseCycles(s, n);
            var refund := if s.reserved then 1 else 0;
            && Inv(t) && Active(t) && t.cfg.canConnect && !t.reserved
            && t.attempt == s.attempt - refund && t.backoff == s.backoff - refund
    decreases n
  {
    if n > 1 { PauseCyclesSpendNothing(s, n - 1); }
    OnePauseCycle(PauseCycles(s, n - 1));
  }
}
