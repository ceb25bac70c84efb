/** The connection object of src/client.js: its mutable fields, and one method
    for each internal step, public call and event. The internal steps are proved
    against the function of the same name in `ReconnectSpec`; the calls and
    events also keep the object valid and obey the laws of `ReconnectLaws`. */
module ConnectionObject {
  import opened Options
  import opened Spec = ReconnectSpec
  import opened ReconnectProofs
  import opened ReconnectOutcomes
  import opened ReconnectLaws

  /** Outside the connection: sockets, armed timers and running preflights. */
  datatype Outside = Outside(sockets: seq<Ready>, retries: map<nat, nat>, nextRetry: nat, deadlines: set<nat>,
                             auths: set<nat>)

  /** The handles the closures of `createConnection` share. */
  datatype Held = Held(ws: Option<nat>, reconnectTimer: Option<nat>, socketAttemptTimer: Option<nat>,
                       authInFlight: Option<nat>, generation: nat)

  datatype Stops = Stops(offline: bool, closed: bool, terminal: bool)

  datatype Budget = Budget(attempt: nat, backoff: nat, reserved: bool)

  datatype Report = Report(advisory: Option<int>, status: Status, failure: Option<Failure>)

  class Connection {
    const cfg: Config
    var env: Outside
    var held: Held
    var stop: Stops
    var budget: Budget
    var report: Report

    function View(): State
      reads this
    {
      State(cfg, env.sockets, env.retries, env.nextRetry, env.deadlines, env.auths,
            held.ws, held.reconnectTimer, held.socketAttemptTimer, held.authInFlight, held.generation,
            stop.offline, stop.closed, stop.terminal, budget.attempt, budget.backoff, budget.reserved,
            report.advisory, report.status, report.failure)
    }

    /** Handles match what they name, drivers are exclusive, the retry budget and
        the report hold, and a wanted connection is driven. */
    ghost predicate Valid()
      reads this
    {
      Inv(View())
    }

    /** A new connection is wanted, so it starts out driven. */
    constructor (config: Config, opens: bool, h1: Hook, h2: Hook)
      ensures Valid() && View() == Created(config, opens, h1, h2)
      ensures Drivers(View()) == if Active(View()) && config.canConnect then 1 else 0
      ensures config.canConnect && h1.Quiet? && h2.Quiet? ==> Dials(Fresh(config), View(), opens)
    {
      CreatedIsInv(config, opens, h1, h2);
      if config.canConnect { CreatedDials(config, opens); }
      cfg := config;
      env := Outside([], map[], 0, {}, {});
      held := Held(None, None, None, None, 0);
      stop := Stops(false, false, false);
      budget := Budget(0, 0, false);
      report := Report(None, StatusDisconnected, None);
      new;
      DoConnect(opens, h1, h2);
    }

    method CloseSocket(sock: Option<nat>)
      modifies this
      ensures View() == Spec.CloseSocket(old(View()), sock)
    {
      if sock.Some? && sock.value < |env.sockets| && env.sockets[sock.value] in {Connecting, Open} {
        env := env.(sockets := env.sockets[sock.value := Closing]);
      }
    }

    method CancelAttempt()
      modifies this
      ensures View() == Spec.CancelAttempt(old(View()))
    {
      held := held.(generation := held.generation + 1);
      held := held.(authInFlight := None);
      if held.socketAttemptTimer.Some? { env := env.(deadlines := env.deadlines - {held.socketAttemptTimer.value}); }
      held := held.(socketAttemptTimer := None);
    }

    method ClearReconnect(refund: bool)
      modifies this
      ensures View() == Spec.ClearReconnect(old(View()), refund)
    {
      if held.reconnectTimer.Some? { env := env.(retries := env.retries - {held.reconnectTimer.value}); }
      held := held.(reconnectTimer := None);
      if refund && budget.reserved && budget.attempt > 0 {
        budget := budget.(attempt := budget.attempt - 1);
        if budget.backoff > 0 { budget := budget.(backoff := budget.backoff - 1); }
      }
      budget := budget.(reserved := false);
    }

    method DisconnectSocket()
      modifies this
      ensures View() == Spec.DisconnectSocket(old(View()))
    {
      if held.ws.None? { return; }
      CloseSocket(held.ws);
      if !stop.closed && !stop.terminal && !stop.offline { report := report.(status := StatusDisconnected); }
    }

    /** The permanent-close store is told before the cause is set. */
    method GiveUp(cause: Failure)
      modifies this
      ensures View() == Spec.GiveUp(old(View()), cause)
    {
      ghost var ending := View().(terminal := true);
      stop := stop.(terminal := true);
      assert View() == ending;
      if cfg.closesOnPerma { Shut(); }
      assert View() == if cfg.closesOnPerma then Spec.Close(ending) else ending;
      ReportFailed(Some(cause));
    }

    /** The cause is set before the status. */
    method ReportFailed(cause: Option<Failure>)
      modifies this
      ensures View() == old(View()).(failure := cause, status := StatusFailed)
    {
      report := report.(failure := cause);
      report := report.(status := StatusFailed);
    }

    method ScheduleReconnect(dispersed: bool)
      modifies this
      ensures View() == Spec.ScheduleReconnect(old(View()), dispersed)
    {
      if stop.closed || stop.terminal || stop.offline || held.reconnectTimer.Some? { return; }
      if cfg.maxAttempts.Some? && budget.attempt >= cfg.maxAttempts.value {
        GiveUp(Exhausted);
        return;
      }
      if !dispersed {
        budget := Budget(budget.attempt + 1, budget.backoff + 1, true);
      }
      held := held.(reconnectTimer := Some(env.nextRetry));
      env := env.(retries := env.retries[env.nextRetry := held.generation]);
      env := env.(nextRetry := env.nextRetry + 1);
    }

    method OpenSocket(opens: bool)
      modifies this
      ensures View() == Spec.OpenSocket(old(View()), opens)
    {
      if !opens {
        budget := budget.(reserved := false);
        ScheduleReconnect(false);
        return;
      }
      var sock := |env.sockets|;
      env := env.(sockets := env.sockets + [Connecting]);
      held := held.(ws := Some(sock));
      env := env.(deadlines := env.deadlines + {sock});
      held := held.(socketAttemptTimer := Some(sock));
    }

    method Notify(h: Hook)
      modifies this
      ensures View() == Spec.Notify(old(View()), h)
      decreases Size(h), 0
    {
      match h
      case Quiet =>
      case Then(call, first, second, next) =>
        match call {
          case CallClose => Shut();
          case CallPause => SimulateOffline(first, second);
          case CallResume(opens) => ResumeOnline(opens, first, second);
        }
        Notify(next);
    }

    method Forget()
      modifies this
      ensures View() == Spec.Forget(old(View()))
    {
      if held.ws.None? { return; }
      held := held.(ws := None);
      if held.socketAttemptTimer.Some? { env := env.(deadlines := env.deadlines - {held.socketAttemptTimer.value}); }
      held := held.(socketAttemptTimer := None);
      report := report.(status := StatusDisconnected);
    }

    method DoConnect(opens: bool, h1: Hook, h2: Hook)
      modifies this
      ensures View() == Spec.DoConnect(old(View()), opens, h1, h2)
      decreases Size(h1) + Size(h2), 3
    {
      if stop.closed || stop.terminal || stop.offline { return; }
      if !cfg.canConnect { return; }
      if SocketIs(View(), Connecting) || SocketIs(View(), Open) { return; }
      if held.authInFlight.Some? { return; }
      Attempt(opens, h1, h2);
    }

    /** A new generation, in which a replaced socket is forgotten and reported. */
    method Drop(h: Hook)
      modifies this
      ensures View() == Dropped(old(View()), h)
      decreases Size(h), 1
    {
      var replacing := held.ws.Some?;
      held := held.(generation := held.generation + 1);
      Forget();
      if replacing { Notify(h); }
    }

    /** What the subscribers leave of a new generation. */
    method Attempt(opens: bool, h1: Hook, h2: Hook)
      modifies this
      ensures View() == Spec.Attempt(old(View()), opens, h1, h2)
      decreases Size(h1) + Size(h2), 2
    {
      var mine := held.generation + 1;
      Drop(h1);
      if !Current(View(), mine) { return; }
      Announce(opens, h2);
    }

    method Announce(opens: bool, h: Hook)
      modifies this
      ensures View() == Spec.Announce(old(View()), opens, h)
      decreases Size(h), 1
    {
      var mine := held.generation;
      report := report.(status := StatusConnecting);
      Notify(h);
      if !Current(View(), mine) { return; }
      if cfg.authPath {
        env := env.(auths := env.auths + {held.generation});
        if cfg.authTarget { held := held.(authInFlight := Some(held.generation)); }
        return;
      }
      OpenSocket(opens);
    }

    /** What a pause does before it tells anyone. */
    method BeginPause() returns (sock: Option<nat>)
      modifies this
      ensures View() == PauseBegin(old(View())) && sock == old(held.ws)
    {
      stop := stop.(offline := true);
      CancelAttempt();
      ClearReconnect(true);
      report := report.(advisory := None);
      sock := held.ws;
      held := held.(ws := None);
      report := report.(status := StatusDisconnected);
    }

    /** Called by a subscriber too, in the middle of another step. On a valid object: unless a subscriber
        intervenes nothing is left driving, and at most the one reserved retry comes back. */
    method SimulateOffline(h1: Hook, h2: Hook)
      modifies this
      ensures View() == Spec.Pause(old(View()), h1, h2)
      ensures old(Valid()) ==> Lawful(old(View()), View()) && Pauses(old(View()), View(), h1.Quiet? && h2.Quiet?)
      decreases Size(h1) + Size(h2), 2
    {
      if Valid() {
        PauseIsLawful(View(), h1, h2);
        PausePauses(View(), h1, h2);
      }
      if stop.closed || stop.terminal || stop.offline { return; }
      if !cfg.canConnect { return; }
      ghost var begun := PauseBegin(View());
      var sock := BeginPause();
      assert View() == begun;
      Notify(h1);
      if stop.offline && !stop.closed && !stop.terminal {
        report := report.(failure := None);
        Notify(h2);
      }
      CloseSocket(sock);
    }

    /** On a valid object a paused connection dials at once. */
    method ResumeOnline(opens: bool, h1: Hook, h2: Hook)
      modifies this
      ensures View() == Spec.Resume(old(View()), opens, h1, h2)
      ensures old(Valid()) ==> Lawful(old(View()), View()) && Resumes(old(View()), View(), opens, h1.Quiet? && h2.Quiet?)
      decreases Size(h1) + Size(h2), 4
    {
      if Valid() {
        ResumeIsLawful(View(), opens, h1, h2);
        ResumeDials(View(), opens, h1, h2);
      }
      if stop.closed || stop.terminal || !stop.offline { return; }
      stop := stop.(offline := false);
      DoConnect(opens, h1, h2);
    }

    /** Final, with nothing armed and no failure cause, even from the middle of another step. */
    method Close()
      modifies this
      ensures View() == Spec.Close(old(View()))
      ensures old(Safe(View())) ==> Closes(old(View()), View())
    {
      if Safe(View()) { CloseCloses(View()); }
      Shut();
    }

    /** What a close does, whoever calls it. */
    method Shut()
      modifies this
      ensures View() == Spec.Close(old(View()))
    {
      stop := stop.(closed := true);
      CancelAttempt();
      ClearReconnect(false);
      var sock := held.ws;
      held := held.(ws := None);
      CloseSocket(sock);
      ReportFailed(None);
    }

    method Settle(id: nat, ready: Ready)
      requires id < |env.sockets|
      modifies this
      ensures View() == Spec.Settle(old(View()), id, ready)
    {
      env := env.(sockets := env.sockets[id := ready]);
      env := env.(deadlines := env.deadlines - {id});
      if held.socketAttemptTimer == Some(id) { held := held.(socketAttemptTimer := None); }
    }

    /** Neither the last attempts nor their failures count any more. */
    method StartAfresh()
      modifies this`budget, this`report
      ensures View() == old(View()).(reserved := false, attempt := 0, backoff := 0, advisory := None, failure := None)
    {
      budget := budget.(reserved := false);
      budget := budget.(attempt := 0, backoff := 0);
      report := report.(advisory := None);
      report := report.(failure := None);
    }

    /** A replaced socket changes nothing else; the current one starts a fresh budget. */
    method OnOpen(id: nat, hidden: bool, h1: Hook, h2: Hook)
      requires Valid()
      modifies this
      ensures Valid() && View() == Spec.OnOpen(old(View()), id, hidden, h1, h2)
      ensures Lawful(old(View()), View()) && Accepts(old(View()), View(), id, hidden)
    {
      OpenAccepts(View(), id, hidden, h1, h2);
      if !OpenEventDue(View(), id) { return; }
      Settle(id, Open);
      if held.ws != Some(id) { return; }
      ghost var accepted := View().(reserved := false, attempt := 0, backoff := 0, advisory := None, failure := None);
      StartAfresh();
      assert View() == accepted;
      Notify(h1);
      if held.ws != Some(id) { return; }
      report := report.(status := if hidden then StatusSuspended else StatusOpen);
      Notify(h2);
    }

    method Retire(cause: Failure, how: Backoff, h1: Hook, h2: Hook)
      modifies this
      ensures View() == Spec.Retire(old(View()), cause, how, h1, h2)
    {
      var mine := held.generation;
      report := report.(failure := Some(cause));
      Notify(h1);
      Requeue(mine, how, h2);
    }

    method Requeue(mine: nat, how: Backoff, h: Hook)
      modifies this
      ensures View() == Spec.Requeue(old(View()), mine, how, h)
    {
      if !Current(View(), mine) { return; }
      Rebase(how);
      report := report.(status := StatusDisconnected);
      Notify(h);
      Rearm(mine, how == Reset);
    }

    method Rearm(mine: nat, dispersed: bool)
      modifies this
      ensures View() == Spec.Rearm(old(View()), mine, dispersed)
    {
      if Current(View(), mine) { ScheduleReconnect(dispersed); }
    }

    method Rebase(how: Backoff)
      modifies this
      ensures View() == Spec.Rebase(old(View()), how)
    {
      match how
      case Keep =>
      case Reset => budget := budget.(attempt := 0, backoff := 0);
      case JumpAhead => if budget.backoff < 5 { budget := budget.(backoff := 5); }
    }

    /** A replaced socket changes nothing else; the current one is let go of. */
    method OnClose(id: nat, code: int, now: int, h1: Hook, h2: Hook)
      requires Valid()
      modifies this
      ensures Valid() && View() == Spec.OnClose(old(View()), id, code, now, h1, h2)
      ensures Lawful(old(View()), View()) && Loses(old(View()), View(), id, code, now, h1.Quiet? && h2.Quiet?)
    {
      CloseLoses(View(), id, code, now, h1, h2);
      if !CloseEventDue(View(), id) { return; }
      Settle(id, Closed);
      if held.ws != Some(id) { return; }
      budget := budget.(reserved := false);
      held := held.(ws := None);
      OnLost(code, now, h1, h2);
    }

    method OnLost(code: int, now: int, h1: Hook, h2: Hook)
      modifies this
      ensures View() == Spec.OnLost(old(View()), code, now, h1, h2)
    {
      if stop.closed {
        ReportFailed(None);
        return;
      }
      var cause := ClassifyCloseCode(code);
      if cause == TerminalClose {
        GiveUp(TerminalFailure);
        return;
      }
      var stashed := report.advisory;
      report := report.(advisory := None);
      if stashed.Some? && now < stashed.value {
        Retire(DrainFailure, Reset, h1, h2);
        return;
      }
      OnDropped(cause == ThrottleClose, h1, h2);
    }

    method OnDropped(throttled: bool, h1: Hook, h2: Hook)
      modifies this
      ensures View() == Spec.OnDropped(old(View()), throttled, h1, h2)
    {
      if throttled {
        Rebase(JumpAhead);
        Retire(ThrottleFailure, Keep, h1, h2);
      } else {
        Retire(RetryFailure, Keep, h1, h2);
      }
    }

    method ForgetPreflight(run: nat)
      modifies this`env, this`held
      ensures var s := old(View());
              View() == s.(auths := s.auths - {run},
                           authInFlight := if s.authInFlight == Some(run) then None else s.authInFlight)
    {
      env := env.(auths := env.auths - {run});
      if held.authInFlight == Some(run) { held := held.(authInFlight := None); }
    }

    /** An earlier attempt's preflight is forgotten; a refusal ends the connection. */
    method OnAuth(run: nat, outcome: Outcome, opens: bool, h1: Hook, h2: Hook)
      requires Valid()
      modifies this
      ensures Valid() && View() == Spec.OnAuth(old(View()), run, outcome, opens, h1, h2)
      ensures Lawful(old(View()), View())
      ensures Preflights(old(View()), View(), run, outcome, opens, h1.Quiet? && h2.Quiet?)
    {
      AuthPreflights(View(), run, outcome, opens, h1, h2);
      if run !in env.auths { return; }
      ForgetPreflight(run);
      if !Current(View(), run) { return; }
      OnCurrentAuth(outcome, opens, h1, h2);
    }

    method OnCurrentAuth(outcome: Outcome, opens: bool, h1: Hook, h2: Hook)
      modifies this
      ensures View() == Spec.OnCurrentAuth(old(View()), outcome, opens, h1, h2)
    {
      if outcome == Accepted {
        OpenSocket(opens);
        return;
      }
      budget := budget.(reserved := false);
      match outcome {
        case Unauthorized => GiveUp(AuthFailure);
        case Throttled => Retire(AuthThrottle, JumpAhead, h1, h2);
        case Transient => Retire(AuthFailure, Keep, h1, h2);
      }
    }

    /** A forgotten retry does nothing; the armed one begins a new attempt. */
    method OnRetryTimer(t: nat, opens: bool, h1: Hook, h2: Hook)
      requires Valid()
      modifies this
      ensures Valid() && View() == Spec.OnRetryTimer(old(View()), t, opens, h1, h2)
      ensures Lawful(old(View()), View()) && Retries(old(View()), View(), t, opens, h1.Quiet? && h2.Quiet?)
    {
      TimerRetries(View(), t, opens, h1, h2);
      if t !in env.retries { return; }
      var captured := env.retries[t];
      env := env.(retries := env.retries - {t});
      if captured != held.generation { return; }
      held := held.(reconnectTimer := None);
      DoConnect(opens, h1, h2);
    }

    /** Only the current socket, still connecting, is given up on. */
    method OnHandshakeTimer(id: nat)
      requires Valid()
      modifies this
      ensures Valid() && View() == Spec.OnHandshakeTimer(old(View()), id)
      ensures Lawful(old(View()), View()) && GivesUpHandshake(old(View()), View(), id)
    {
      HandshakeGivesUp(View(), id);
      if id !in env.deadlines { return; }
      env := env.(deadlines := env.deadlines - {id});
      if held.ws == Some(id) && SocketIs(View(), Connecting) { DisconnectSocket(); }
    }

    /** Nothing but the ready state changes. */
    method OnPeerClosing(id: nat)
      requires Valid()
      modifies this
      ensures Valid() && View() == Spec.OnPeerClosing(old(View()), id)
      ensures Lawful(old(View()), View())
      ensures held == old(held) && stop == old(stop) && budget == old(budget) && report == old(report)
      ensures id < |env.sockets| && old(env.sockets)[id] == Open ==> env.sockets == old(env.sockets)[id := Closing]
      ensures id >= |env.sockets| || old(env.sockets)[id] != Open ==> env == old(env)
    {
      StepIsLawful(View(), PeerClosing(id));
      if id < |env.sockets| && env.sockets[id] == Open { env := env.(sockets := env.sockets[id := Closing]); }
    }

    /** Only the current socket's advice is kept, and it outlasts the window it announces. */
    method OnDrainAdvisory(id: nat, afterMs: int, windowMs: int, now: int)
      requires Valid()
      modifies this
      ensures Valid() && View() == Spec.OnDrainAdvisory(old(View()), id, afterMs, windowMs, now)
      ensures Lawful(old(View()), View()) && Advises(old(View()), View(), id, afterMs, windowMs, now)
    {
      AdvisoryAdvises(View(), id, afterMs, windowMs, now);
      if held.ws != Some(id) { return; }
      if windowMs > 0 {
        var after := if afterMs > 0 then afterMs else 0;
        report := report.(advisory := Some(now + after + windowMs + 5000));
      }
    }

    /** A live socket is suspended, or dropped after a sleep; nothing is dialled. */
    method OnHidden(gap: bool)
      requires Valid()
      modifies this
      ensures Valid() && View() == Spec.OnHidden(old(View()), gap)
      ensures Lawful(old(View()), View()) && Undialled(old(View()), View())
      ensures old(Active(View()) && SocketIs(View(), Open)) ==>
                report.status == if gap then StatusDisconnected else StatusSuspended
    {
      HiddenPage(View(), gap);
      if stop.closed || stop.terminal || stop.offline { return; }
      if SocketIs(View(), Open) {
        if gap {
          budget := budget.(attempt := 0, backoff := 0);
          DisconnectSocket();
          return;
        }
        report := report.(status := StatusSuspended);
      }
    }

    /** The retry that waits is forgotten, and the dial has a fresh budget. */
    method Redial(opens: bool, h1: Hook, h2: Hook)
      modifies this
      ensures View() ==
                Spec.DoConnect(Spec.ClearReconnect(old(View()).(attempt := 0, backoff := 0), false), opens, h1, h2)
    {
      budget := budget.(attempt := 0, backoff := 0);
      ClearReconnect(false);
      DoConnect(opens, h1, h2);
    }

    /** The page comes back to an open socket: it is live again, or after a sleep dropped. */
    method Surface(gap: bool)
      modifies this
      ensures View() == if gap then Spec.DisconnectSocket(old(View()).(attempt := 0, backoff := 0))
                        else old(View()).(status := StatusOpen)
    {
      if gap {
        budget := budget.(attempt := 0, backoff := 0);
        DisconnectSocket();
      } else {
        report := report.(status := StatusOpen);
      }
    }

    /** Without a socket or a preflight the page coming back dials at once. */
    method OnVisible(gap: bool, opens: bool, h1: Hook, h2: Hook)
      requires Valid()
      modifies this
      ensures Valid() && View() == Spec.OnVisible(old(View()), gap, opens, h1, h2)
      ensures Lawful(old(View()), View()) && Revives(old(View()), View(), opens, h1.Quiet? && h2.Quiet?)
      ensures Surfaces(old(View()), View(), gap)
    {
      VisibleIsLawful(View(), gap, opens, h1, h2);
      VisibleRevives(View(), gap, opens, h1, h2);
      if stop.closed || stop.terminal || stop.offline { return; }
      if SocketIs(View(), Open) {
        Surface(gap);
        return;
      }
      Redial(opens, h1, h2);
    }

    /** The drop is reported at once and no live socket is left. */
    method OnOffline()
      requires Valid()
      modifies this
      ensures Valid() && View() == Spec.OnOffline(old(View()))
      ensures Lawful(old(View()), View()) && Undialled(old(View()), View())
      ensures Active(View()) ==>
                report.status == StatusDisconnected && !SocketIs(View(), Open) && !SocketIs(View(), Connecting)
    {
      OfflineBrowser(View());
      if stop.closed || stop.terminal || stop.offline { return; }
      if SocketIs(View(), Open) || SocketIs(View(), Connecting) {
        DisconnectSocket();
      } else {
        report := report.(status := StatusDisconnected);
      }
    }

    /** Without a socket or a preflight the browser coming back dials at once. */
    method OnOnline(opens: bool, h1: Hook, h2: Hook)
      requires Valid()
      modifies this
      ensures Valid() && View() == Spec.OnOnline(old(View()), opens, h1, h2)
      ensures Lawful(old(View()), View()) && Revives(old(View()), View(), opens, h1.Quiet? && h2.Quiet?)
    {
      OnlineIsLawful(View(), opens, h1, h2);
      OnlineRevives(View(), opens, h1, h2);
      if stop.closed || stop.terminal || stop.offline { return; }
      if SocketIs(View(), Open) { return; }
      Redial(opens, h1, h2);
    }

    /** A silent socket is dropped; nothing else is touched. */
    method OnActivityTick(silent: bool)
      requires Valid()
      modifies this
      ensures Valid() && View() == Spec.OnActivityTick(old(View()), silent)
      ensures Lawful(old(View()), View()) && Undialled(old(View()), View())
      ensures old(Active(View()) && SocketIs(View(), Open)) && silent ==>
                SocketIs(View(), Closing) && report.status == StatusDisconnected
    {
      SilentSocket(View(), silent);
      if stop.closed || stop.terminal || stop.offline { return; }
      if SocketIs(View(), Open) && silent { DisconnectSocket(); }
    }

    // ---------------------------------------------------------------------
    // Every event of the machine

    /** Any event, however it comes: the object runs the machine, so what holds of
        all its runs holds of the object. */
    method Handle(e: Event)
      requires Valid()
      modifies this
      ensures Valid() && View() == Step(old(View()), e) && Lawful(old(View()), View())
    {
      StepIsLawful(View(), e);
      if e.SocketOpened? || e.SocketClosed? || e.HandshakeFired? || e.PeerClosing? || e.DrainAdvisory? {
        HandleSocket(e);
      } else if e.AuthSettled? || e.RetryFired? || e.CalledPause? || e.CalledResume? || e.CalledClose? {
        HandleCall(e);
      } else {
        HandleBrowser(e);
      }
    }

    method HandleSocket(e: Event)
      requires Valid() && (e.SocketOpened? || e.SocketClosed? || e.HandshakeFired? || e.PeerClosing? || e.DrainAdvisory?)
      modifies this
      ensures View() == Step(old(View()), e)
    {
      match e
      case SocketOpened(id, hidden, h1, h2) => OnOpen(id, hidden, h1, h2);
      case SocketClosed(id, code, now, h1, h2) => OnClose(id, code, now, h1, h2);
      case HandshakeFired(id) => OnHandshakeTimer(id);
      case PeerClosing(id) => OnPeerClosing(id);
      case DrainAdvisory(id, afterMs, windowMs, now) => OnDrainAdvisory(id, afterMs, windowMs, now);
    }

    method HandleCall(e: Event)
      requires Valid() && (e.AuthSettled? || e.RetryFired? || e.CalledPause? || e.CalledResume? || e.CalledClose?)
      modifies this
      ensures View() == Step(old(View()), e)
    {
      match e
      case AuthSettled(run, outcome, opens, h1, h2) => OnAuth(run, outcome, opens, h1, h2);
      case RetryFired(t, opens, h1, h2) => OnRetryTimer(t, opens, h1, h2);
      case CalledPause(h1, h2) => SimulateOffline(h1, h2);
      case CalledResume(opens, h1, h2) => ResumeOnline(opens, h1, h2);
      case CalledClose => Close();
    }

    method HandleBrowser(e: Event)
      requires Valid() && (e.PageHidden? || e.PageVisible? || e.WentOffline? || e.WentOnline? || e.ActivityTick?)
      modifies this
      ensures View() == Step(old(View()), e)
    {
      match e
      case PageHidden(gap) => OnHidden(gap);
      case PageVisible(gap, opens, h1, h2) => OnVisible(gap, opens, h1, h2);
      case WentOffline => OnOffline();
      case WentOnline(opens, h1, h2) => OnOnline(opens, h1, h2);
      case ActivityTick(silent) => OnActivityTick(silent);
    }

    /** A whole run of events, one after the other. */
    method Play(events: seq<Event>)
      requires Valid()
      modifies this
      ensures Valid() && View() == Run(old(View()), events)
      decreases |events|
    {
      if |events| == 0 { return; }
      Handle(events[0]);
      Play(events[1..]);
    }
  }
}
