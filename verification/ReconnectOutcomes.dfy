/** What each outcome leaves when no store subscriber calls back: the retry, the
    budget and the report, by close code, drain advice and preflight result, and
    what a dial starts. */
module ReconnectOutcomes {
  import opened Options
  import opened ReconnectSpec
  import opened ReconnectProofs

  /** The connection has ended for the given cause; a permanent-close subscriber
      that closes has closed it as well. */
  ghost predicate EndsFor(s: State, t: State, cause: Failure)
  {
    && t.terminal && t.failure == Some(cause) && t.status == StatusFailed && (t.closed <==> s.cfg.closesOnPerma)
    && t.retries == map[] && t.deadlines == {} && t.ws.None? && Drivers(t) == 0 && |t.sockets| == |s.sockets|
    && !t.reserved
  }

  /** One retry is armed for the current attempt, with this much of the budget
      used; a counted retry can be given back. */
  ghost predicate WaitsWith(s: State, t: State, attempt: nat, backoff: nat, counted: bool)
  {
    && t.retries == map[s.nextRetry := s.generation] && t.reconnectTimer == Some(s.nextRetry) && t.nextRetry > s.nextRetry
    && t.generation == s.generation && t.ws.None? && !t.terminal && !t.closed && |t.sockets| == |s.sockets|
    && t.attempt == attempt && t.backoff == backoff && t.reserved == counted
  }

  /** The next counted retry, or the end of the budget. */
  ghost predicate Reschedules(s: State, t: State, attempt: nat, backoff: nat)
  {
    if s.cfg.maxAttempts == Some(attempt) then EndsFor(s, t, Exhausted)
    else WaitsWith(s, t, attempt + 1, backoff + 1, true)
  }

  /** The same after an outcome that is reported first. */
  ghost predicate Retires(s: State, t: State, cause: Failure, attempt: nat, backoff: nat)
  {
    Reschedules(s, t, attempt, backoff) && (!t.terminal ==> t.failure == Some(cause) && t.status == StatusDisconnected)
  }

  /** A retry that starts the budget over and does not count. */
  ghost predicate StartsOver(s: State, t: State, cause: Failure)
  {
    if s.cfg.maxAttempts == Some(0) then EndsFor(s, t, Exhausted)
    else WaitsWith(s, t, 0, 0, false) && t.failure == Some(cause) && t.status == StatusDisconnected
  }

  ghost predicate Lost(s: State) { Safe(s) && Active(s) && s.cfg.canConnect && Idle(s) && !s.reserved }

  lemma GivingUp(s: State, cause: Failure)
    requires Lost(s)
    ensures EndsFor(s, GiveUp(s, cause), cause)
  {
    GiveUpKeeps(s, cause);
    assert s.deadlines == {};
  }

  lemma Scheduling(s: State)
    requires Lost(s)
    ensures Reschedules(s, ScheduleReconnect(s, false), s.attempt, s.backoff)
  {
    if s.cfg.maxAttempts == Some(s.attempt) { GivingUp(s, Exhausted); }
  }

  lemma Rescheduling(s: State)
    requires Lost(s) && s.attempt == 0 && s.backoff == 0
    ensures var t := ScheduleReconnect(s, true);
            if s.cfg.maxAttempts == Some(0) then EndsFor(s, t, Exhausted)
            else WaitsWith(s, t, 0, 0, false) && t.failure == s.failure && t.status == s.status
  {
    if s.cfg.maxAttempts == Some(0) { GivingUp(s, Exhausted); }
  }

  /** What is told and rebased before the retry is scheduled. */
  ghost function Told(s: State, cause: Failure, attempt: nat, backoff: nat): State
  {
    s.(failure := Some(cause), attempt := attempt, backoff := backoff, status := StatusDisconnected)
  }

  lemma RetiringCounted(s: State, cause: Failure, how: Backoff)
    requires Lost(s) && how != Reset
    ensures Retires(s, Retire(s, cause, how, Quiet, Quiet), cause, s.attempt,
                    if how == JumpAhead && s.backoff < 5 then 5 else s.backoff)
  {
    var backoff := if how == JumpAhead && s.backoff < 5 then 5 else s.backoff;
    var told := Told(s, cause, s.attempt, backoff);
    Scheduling(told);
    assert Retire(s, cause, how, Quiet, Quiet) == ScheduleReconnect(told, false);
  }

  lemma RetiringAfresh(s: State, cause: Failure)
    requires Lost(s)
    ensures StartsOver(s, Retire(s, cause, Reset, Quiet, Quiet), cause)
  {
    var told := Told(s, cause, 0, 0);
    Rescheduling(told);
    assert Retire(s, cause, Reset, Quiet, Quiet) == ScheduleReconnect(told, true);
  }

  // ---------------------------------------------------------------------
  // A close

  /** 1008, 4401 and 4403 end the connection. Otherwise fresh drain advice starts
      the budget over and arms a retry that does not count; without it 4429 jumps
      ahead in the backoff, and every other code takes one step of it. */
  ghost predicate LosesByCode(s: State, t: State, code: int, now: int)
  {
    if code in {1008, 4401, 4403} then EndsFor(s, t, TerminalFailure)
    else if s.advisory.Some? && now < s.advisory.value then StartsOver(s, t, DrainFailure)
    else if code == 4429 then Retires(s, t, ThrottleFailure, s.attempt, if s.backoff < 5 then 5 else s.backoff)
    else Retires(s, t, RetryFailure, s.attempt, s.backoff)
  }

  lemma LostByCode(s: State, code: int, now: int)
    requires Lost(s)
    ensures LosesByCode(s, OnLost(s, code, now, Quiet, Quiet), code, now)
  {
    var untold := s.(advisory := None);
    if code in {1008, 4401, 4403} {
      GivingUp(s, TerminalFailure);
    } else if s.advisory.Some? && now < s.advisory.value {
      RetiringAfresh(untold, DrainFailure);
    } else if code == 4429 {
      RetiringCounted(Rebase(untold, JumpAhead), ThrottleFailure, Keep);
    } else {
      RetiringCounted(untold, RetryFailure, Keep);
    }
  }

  lemma ClosedByCode(s: State, id: nat, code: int, now: int)
    requires Inv(s) && CloseEventDue(s, id) && s.ws == Some(id)
    ensures var t := OnClose(s, id, code, now, Quiet, Quiet);
            LosesByCode(s, t, code, now) && (t.failure == Some(TerminalFailure) <==> code in {1008, 4401, 4403})
  {
    LosingSocketIdles(s, id);
    LostByCode(Settle(s, id, Closed).(reserved := false, ws := None), code, now);
  }

  // ---------------------------------------------------------------------
  // A preflight

  /** What a dial with nothing under way starts: a socket with its deadline armed,
      or the next retry when the constructor throws. */
  ghost predicate Opens(s: State, t: State, opens: bool)
  {
    if opens then
      && t.sockets == s.sockets + [Connecting] && t.ws == Some(|s.sockets|) && t.deadlines == {|s.sockets|}
      && t.retries == map[] && t.generation == s.generation && t.attempt == s.attempt && t.backoff == s.backoff
    else Reschedules(s, t, s.attempt, s.backoff)
  }

  lemma Opening(s: State, opens: bool)
    requires Safe(s) && Active(s) && s.cfg.canConnect && Idle(s)
    ensures Opens(s, OpenSocket(s, opens), opens)
  {
    if opens { assert s.deadlines == {}; } else { Scheduling(s.(reserved := false)); }
  }

  /** A preflight that was accepted opens the socket, a refused one ends the
      connection, a throttled one jumps ahead in the backoff and any other failure
      takes one step of it. */
  ghost predicate PreflightsBy(s: State, t: State, outcome: Outcome, opens: bool)
  {
    match outcome
    case Accepted => Opens(s, t, opens)
    case Unauthorized => EndsFor(s, t, AuthFailure)
    case Throttled => Retires(s, t, AuthThrottle, s.attempt, if s.backoff < 5 then 5 else s.backoff)
    case Transient => Retires(s, t, AuthFailure, s.attempt, s.backoff)
  }

  lemma CurrentPreflight(s: State, outcome: Outcome, opens: bool)
    requires Safe(s) && Active(s) && s.cfg.canConnect && Idle(s)
    ensures PreflightsBy(s, OnCurrentAuth(s, outcome, opens, Quiet, Quiet), outcome, opens)
  {
    var lost := s.(reserved := false);
    match outcome
    case Accepted => Opening(s, opens);
    case Unauthorized => GivingUp(lost, AuthFailure);
    case Throttled => RetiringCounted(lost, AuthThrottle, JumpAhead);
    case Transient => RetiringCounted(lost, AuthFailure, Keep);
  }

  lemma PreflightedBy(s: State, outcome: Outcome, opens: bool)
    requires Inv(s) && Active(s) && s.generation in s.auths
    ensures PreflightsBy(s, OnAuth(s, s.generation, outcome, opens, Quiet, Quiet), outcome, opens)
  {
    SettledAuth(s, s.generation);
    CurrentPreflight(s.(auths := s.auths - {s.generation},
                        authInFlight := if s.authInFlight == Some(s.generation) then None else s.authInFlight),
                     outcome, opens);
  }

  // ---------------------------------------------------------------------
  // A dial

  /** A new generation, announced, and its preflight or its socket. */
  ghost predicate Dials(s: State, t: State, opens: bool)
  {
    var begun := s.(generation := s.generation + 1);
    if s.cfg.authPath then
      && t.generation == begun.generation && t.auths == s.auths + {begun.generation}
      && t.authInFlight == (if s.cfg.authTarget then Some(begun.generation) else None)
      && t.sockets == s.sockets && t.ws.None? && t.retries == map[] && t.deadlines == {}
      && t.attempt == s.attempt && t.backoff == s.backoff && t.status == StatusConnecting
    else Opens(begun, t, opens) && (opens ==> t.status == StatusConnecting)
  }

  /** The state a quiet dial announces itself from. */
  ghost function Begun(s: State): State
  {
    Forget(s.(generation := s.generation + 1)).(status := StatusConnecting)
  }

  lemma BegunIsIdle(s: State)
    requires Safe(s) && MayDial(s)
    ensures Safe(Begun(s)) && Idle(Begun(s)) && Active(Begun(s)) && Begun(s).deadlines == {} && Begun(s).retries == map[]
  {
    ForgetKeeps(s);
  }

  lemma QuietDial(s: State, opens: bool)
    requires Safe(s) && MayDial(s)
    ensures DoConnect(s, opens, Quiet, Quiet) ==
              if s.cfg.authPath then BeginAuth(Begun(s)) else OpenSocket(Begun(s), opens)
  {
  }

  /** A closing socket is replaced. */
  lemma Dialling(s: State, opens: bool)
    requires Safe(s) && MayDial(s)
    ensures Dials(s, DoConnect(s, opens, Quiet, Quiet), opens)
  {
    BegunIsIdle(s);
    QuietDial(s, opens);
    if !s.cfg.authPath { Opening(Begun(s), opens); }
  }

  lemma CreatedDials(cfg: Config, opens: bool)
    requires cfg.canConnect
    ensures Dials(Fresh(cfg), Created(cfg, opens, Quiet, Quiet), opens)
  {
    Dialling(Fresh(cfg), opens);
  }

  lemma ResumedDials(s: State, opens: bool)
    requires Inv(s) && s.offline && !s.closed && !s.terminal
    ensures Dials(s.(offline := false), Resume(s, opens, Quiet, Quiet), opens)
  {
    Dialling(s.(offline := false), opens);
  }

  lemma RetryDials(s: State, timer: nat, opens: bool)
    requires Inv(s) && s.reconnectTimer == Some(timer)
    ensures Dials(s, OnRetryTimer(s, timer, opens, Quiet, Quiet), opens)
  {
    var fired := s.(retries := s.retries - {timer}, reconnectTimer := None);
    assert fired.retries == map[];
    Dialling(fired, opens);
  }

  /** A page or browser that comes back dials with a fresh budget, unless a socket
      is opening or open or a preflight is out. */
  lemma ReturnDials(s: State, gap: bool, opens: bool)
    requires Inv(s) && Active(s) && s.cfg.canConnect && s.authInFlight.None?
    requires !SocketIs(s, Connecting) && !SocketIs(s, Open)
    ensures var rested := s.(attempt := 0, backoff := 0);
            && Dials(rested, OnVisible(s, gap, opens, Quiet, Quiet), opens)
            && Dials(rested, OnOnline(s, opens, Quiet, Quiet), opens)
  {
    var cleared := ClearReconnect(s.(attempt := 0, backoff := 0), false);
    assert cleared.retries == map[];
    Dialling(cleared, opens);
  }

  // ---------------------------------------------------------------------
  // Every notification is heard

  /** A subscriber that closes the connection. */
  const CLOSES: Hook := Then(CallClose, Quiet, Quiet, Quiet)

  lemma ClosingHook(s: State)
    ensures Notify(s, CLOSES) == Close(s) && Close(s).closed
  {
    assert Notify(Close(s), Quiet) == Close(s);
  }

  lemma DropIsHeard(s: State)
    ensures s.ws.Some? ==> Dropped(s, CLOSES).closed
    ensures s.ws.None? ==> Dropped(s, CLOSES) == Dropped(s, Quiet)
  {
    ClosingHook(Forget(s.(generation := s.generation + 1)));
  }

  lemma AnnounceIsHeard(s: State, opens: bool)
    ensures Announce(s, opens, CLOSES).closed
  {
    ClosingHook(s.(status := StatusConnecting));
  }

  lemma AttemptIsHeard(s: State, opens: bool)
    requires Safe(s) && MayDial(s)
    ensures Attempt(s, opens, Quiet, CLOSES).closed
    ensures s.ws.Some? ==> Attempt(s, opens, CLOSES, Quiet).closed
    ensures s.ws.None? ==> Attempt(s, opens, CLOSES, Quiet) == Attempt(s, opens, Quiet, Quiet)
  {
    DropIsHeard(s);
    AnnounceIsHeard(Dropped(s, Quiet), opens);
  }

  /** Closing at the announcement of an attempt closes; so it does at the report
      that a socket was replaced, which is made exactly when one was. */
  lemma DialIsHeard(s: State, opens: bool)
    requires Safe(s) && MayDial(s)
    ensures DoConnect(s, opens, Quiet, CLOSES).closed
    ensures s.ws.Some? ==> DoConnect(s, opens, CLOSES, Quiet).closed
    ensures s.ws.None? ==> DoConnect(s, opens, CLOSES, Quiet) == DoConnect(s, opens, Quiet, Quiet)
  {
    AttemptIsHeard(s, opens);
  }

  /** Both reports of an accepted socket are heard. */
  lemma OpenIsHeard(s: State, id: nat, hidden: bool)
    requires Inv(s) && OpenEventDue(s, id) && s.ws == Some(id)
    ensures OnOpen(s, id, hidden, CLOSES, Quiet).closed && OnOpen(s, id, hidden, Quiet, CLOSES).closed
  {
    var accepted := Settle(s, id, Open).(reserved := false, attempt := 0, backoff := 0, advisory := None, failure := None);
    ClosingHook(accepted);
    ClosingHook(accepted.(status := if hidden then StatusSuspended else StatusOpen));
  }

  lemma RetireIsHeard(s: State, cause: Failure, how: Backoff)
    requires Lost(s)
    ensures Retire(s, cause, how, CLOSES, Quiet).closed && Retire(s, cause, how, Quiet, CLOSES).closed
  {
    var telling := s.(failure := Some(cause));
    ClosingHook(telling);
    ClosingHook(Rebase(telling, how).(status := StatusDisconnected));
  }

  /** So are both reports of a close that is retried. */
  lemma CloseIsHeard(s: State, id: nat, code: int, now: int)
    requires Inv(s) && CloseEventDue(s, id) && s.ws == Some(id) && code !in {1008, 4401, 4403}
    ensures OnClose(s, id, code, now, CLOSES, Quiet).closed && OnClose(s, id, code, now, Quiet, CLOSES).closed
  {
    LosingSocketIdles(s, id);
    var gone := Settle(s, id, Closed).(reserved := false, ws := None, advisory := None);
    RetireIsHeard(gone, DrainFailure, Reset);
    RetireIsHeard(Rebase(gone, JumpAhead), ThrottleFailure, Keep);
    RetireIsHeard(gone, RetryFailure, Keep);
  }

  /** And of a preflight that is retried. */
  lemma PreflightIsHeard(s: State, outcome: Outcome, opens: bool)
    requires Inv(s) && Active(s) && s.generation in s.auths && outcome in {Throttled, Transient}
    ensures OnAuth(s, s.generation, outcome, opens, CLOSES, Quiet).closed
    ensures OnAuth(s, s.generation, outcome, opens, Quiet, CLOSES).closed
  {
    SettledAuth(s, s.generation);
    var lost := s.(auths := s.auths - {s.generation},
                   authInFlight := if s.authInFlight == Some(s.generation) then None else s.authInFlight, reserved := false);
    RetireIsHeard(lost, AuthThrottle, JumpAhead);
    RetireIsHeard(lost, AuthFailure, Keep);
  }

  /** And both of a pause. */
  lemma PauseIsHeard(s: State)
    requires Safe(s) && Active(s) && s.cfg.canConnect
    ensures Pause(s, CLOSES, Quiet).closed && Pause(s, Quiet, CLOSES).closed
  {
    var begun := PauseBegin(s);
    ClosingHook(begun);
    ClosingHook(begun.(failure := None));
  }

  /** A subscriber's pause and resume are obeyed, and so is the call that follows. */
  lemma HookIsObeyed(s: State, call: Call, opens: bool)
    requires Safe(s)
    ensures Active(s) && s.cfg.canConnect ==> Notify(s, Then(CallPause, Quiet, Quiet, Quiet)).offline
    ensures s.offline && !s.closed && !s.terminal ==> !Notify(s, Then(CallResume(opens), Quiet, Quiet, Quiet)).offline
    ensures Notify(s, Then(call, Quiet, Quiet, CLOSES)).closed
  {
    if Active(s) && s.cfg.canConnect { PausingHook(s); }
    if s.offline && !s.closed && !s.terminal { ResumingHook(s, opens); }
    var after := match call
      case CallClose => Close(s)
      case CallPause => Pause(s, Quiet, Quiet)
      case CallResume(opens) => Resume(s, opens, Quiet, Quiet);
    ClosingHook(after);
  }

  lemma PausingHook(s: State)
    requires Safe(s) && Active(s) && s.cfg.canConnect
    ensures Notify(s, Then(CallPause, Quiet, Quiet, Quiet)).offline
  {
    var t := Pause(s, Quiet, Quiet);
    assert t.offline && Notify(t, Quiet) == t;
  }

  lemma ResumingHook(s: State, opens: bool)
    requires Safe(s) && s.offline && !s.closed && !s.terminal
    ensures !Notify(s, Then(CallResume(opens), Quiet, Quiet, Quiet)).offline
  {
    var online := s.(offline := false);
    QuietDial(online, opens);
    var t := Resume(s, opens, Quiet, Quiet);
    assert Notify(t, Quiet) == t;
  }
}
