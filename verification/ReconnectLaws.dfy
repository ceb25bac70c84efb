/** What each event and call may do to a connection that meets the invariant,
    whatever store subscribers call back meanwhile. */
module ReconnectLaws {
  import opened Options
  import opened ReconnectSpec
  import opened ReconnectProofs
  import opened ReconnectOutcomes

  /** The invariant holds again, generations and sockets only grow, an ending is
      final, and an ended connection opens no socket. */
  ghost predicate Lawful(s: State, t: State)
  {
    && Inv(t) && Extends(s, t)
    && (Ended(s) ==> |t.sockets| == |s.sockets| && t.status == StatusFailed)
  }

  lemma StepIsLawful(s: State, e: Event)
    requires Inv(s)
    ensures Lawful(s, Step(s, e))
  {
    StepKeeps(s, e);
    if Ended(s) { EndedStepIsInert(s, e); }
  }

  /** Nothing but the ready state of one socket changed. */
  ghost predicate OnlySocket(s: State, t: State, id: nat, ready: Ready)
    requires id < |s.sockets|
  {
    t == s.(sockets := s.sockets[id := ready])
  }

  /** A replaced socket that opens changes nothing else; the current one, if it is
      still current afterwards, was accepted with a fresh budget and no failure. */
  ghost predicate Accepts(s: State, t: State, id: nat, hidden: bool)
  {
    && (OpenEventDue(s, id) && s.ws != Some(id) ==> OnlySocket(s, t, id, Open))
    && (OpenEventDue(s, id) && s.ws == Some(id) == t.ws ==>
          && t.attempt == 0 && t.backoff == 0 && !t.reserved && t.failure.None? && t.advisory.None?
          && t.status == if hidden then StatusSuspended else StatusOpen)
  }

  lemma OpenAccepts(s: State, id: nat, hidden: bool, h1: Hook, h2: Hook)
    requires Inv(s)
    ensures Lawful(s, OnOpen(s, id, hidden, h1, h2)) && Accepts(s, OnOpen(s, id, hidden, h1, h2), id, hidden)
  {
    StepIsLawful(s, SocketOpened(id, hidden, h1, h2));
    if OpenEventDue(s, id) {
      if s.ws == Some(id) {
        OpenAcceptsCurrent(s, id, hidden, h1, h2);
      } else {
        LateSocketEventsAreInert(s, id, 0, 0, 0, 0, hidden, h1, h2);
      }
    }
  }

  lemma OpenAcceptsCurrent(s: State, id: nat, hidden: bool, h1: Hook, h2: Hook)
    requires Inv(s) && OpenEventDue(s, id) && s.ws == Some(id)
    ensures Accepts(s, OnOpen(s, id, hidden, h1, h2), id, hidden)
  {
    var accepted := Settle(s, id, Open).(reserved := false, attempt := 0, backoff := 0, advisory := None, failure := None);
    assert accepted.deadlines == {};
    assert Safe(accepted);
    NotifyKeeps(accepted, h1);
    var told := Notify(accepted, h1);
    if told.ws == Some(id) {
      assert told == accepted;
      NotifyKeeps(told.(status := if hidden then StatusSuspended else StatusOpen), h2);
    }
  }

  /** A replaced socket that closes changes nothing else; the current one is let
      go of, for good on 1008, 4401 and 4403, and unless a subscriber intervenes
      the code and the drain advice decide what follows. */
  ghost predicate Loses(s: State, t: State, id: nat, code: int, now: int, quiet: bool)
  {
    && (CloseEventDue(s, id) && s.ws != Some(id) ==> OnlySocket(s, t, id, Closed))
    && (CloseEventDue(s, id) && s.ws == Some(id) ==>
          && t.ws != Some(id) && (code in {1008, 4401, 4403} ==> t.terminal && t.failure == Some(TerminalFailure))
          && (quiet ==> LosesByCode(s, t, code, now)))
  }

  lemma CloseLoses(s: State, id: nat, code: int, now: int, h1: Hook, h2: Hook)
    requires Inv(s)
    ensures Lawful(s, OnClose(s, id, code, now, h1, h2))
    ensures Loses(s, OnClose(s, id, code, now, h1, h2), id, code, now, h1.Quiet? && h2.Quiet?)
  {
    StepIsLawful(s, SocketClosed(id, code, now, h1, h2));
    if CloseEventDue(s, id) {
      if s.ws == Some(id) {
        CurrentCloseLoses(s, id, code, now, h1, h2);
        if h1.Quiet? && h2.Quiet? { ClosedByCode(s, id, code, now); }
      } else {
        LateSocketEventsAreInert(s, id, code, 0, 0, now, false, h1, h2);
      }
    }
  }

  lemma CurrentCloseLoses(s: State, id: nat, code: int, now: int, h1: Hook, h2: Hook)
    requires Inv(s) && CloseEventDue(s, id) && s.ws == Some(id)
    ensures var t := OnClose(s, id, code, now, h1, h2);
            t.ws != Some(id) && (code in {1008, 4401, 4403} ==> t.terminal && t.failure == Some(TerminalFailure))
  {
    var gone := Settle(s, id, Closed).(reserved := false, ws := None);
    LosingSocketIdles(s, id);
    OnLostKeeps(gone, code, now, h1, h2);
    if code in {1008, 4401, 4403} { GiveUpKeeps(gone, TerminalFailure); }
  }

  /** A preflight of an earlier attempt is forgotten; a refused one ends the
      connection; unless a subscriber intervenes the outcome decides what follows. */
  ghost predicate Preflights(s: State, t: State, run: nat, outcome: Outcome, opens: bool, quiet: bool)
  {
    && (run != s.generation ==> t == s.(auths := s.auths - {run}))
    && (run == s.generation && run in s.auths && outcome == Unauthorized ==> t.terminal && t.failure == Some(AuthFailure))
    && (run == s.generation && run in s.auths && quiet ==> PreflightsBy(s, t, outcome, opens))
  }

  lemma AuthPreflights(s: State, run: nat, outcome: Outcome, opens: bool, h1: Hook, h2: Hook)
    requires Inv(s)
    ensures Lawful(s, OnAuth(s, run, outcome, opens, h1, h2))
    ensures Preflights(s, OnAuth(s, run, outcome, opens, h1, h2), run, outcome, opens, h1.Quiet? && h2.Quiet?)
  {
    StepIsLawful(s, AuthSettled(run, outcome, opens, h1, h2));
    LateRunsAreInert(s, run, outcome, opens, h1, h2);
    if run == s.generation && run in s.auths && h1.Quiet? && h2.Quiet? { PreflightedBy(s, outcome, opens); }
    if run == s.generation && run in s.auths && outcome == Unauthorized {
      SettledAuth(s, run);
      GiveUpKeeps(s.(auths := s.auths - {run}, authInFlight := if s.authInFlight == Some(run) then None else s.authInFlight,
                     reserved := false), AuthFailure);
    }
  }

  /** A forgotten retry does nothing; the armed one dials. */
  ghost predicate Retries(s: State, t: State, timer: nat, opens: bool, quiet: bool)
  {
    && (s.reconnectTimer != Some(timer) ==> t == s)
    && (s.reconnectTimer == Some(timer) ==> s.generation < t.generation && (quiet ==> Dials(s, t, opens)))
  }

  lemma TimerRetries(s: State, timer: nat, opens: bool, h1: Hook, h2: Hook)
    requires Inv(s)
    ensures Lawful(s, OnRetryTimer(s, timer, opens, h1, h2))
    ensures Retries(s, OnRetryTimer(s, timer, opens, h1, h2), timer, opens, h1.Quiet? && h2.Quiet?)
  {
    StepIsLawful(s, RetryFired(timer, opens, h1, h2));
    LateRunsAreInert(s, timer, Accepted, opens, h1, h2);
    if s.reconnectTimer == Some(timer) {
      var fired := s.(retries := s.retries - {timer}, reconnectTimer := None);
      assert fired.retries == map[];
      assert Safe(fired);
      DialBegins(fired, opens, h1, h2);
      if h1.Quiet? && h2.Quiet? { RetryDials(s, timer, opens); }
    }
  }

  /** An attempt with nothing under way begins at once. */
  lemma DialBegins(s: State, opens: bool, h1: Hook, h2: Hook)
    requires Safe(s) && Active(s) && s.cfg.canConnect && s.reconnectTimer.None? && s.authInFlight.None? && s.ws.None?
    ensures s.generation < DoConnect(s, opens, h1, h2).generation
  {
    AttemptKeeps(s, opens, h1, h2);
  }

  /** Only the current socket, still connecting, is given up on. */
  ghost predicate GivesUpHandshake(s: State, t: State, id: nat)
  {
    && (s.ws != Some(id) || !SocketIs(s, Connecting) ==> t == s.(deadlines := s.deadlines - {id}))
    && (s.ws == Some(id) && SocketIs(s, Connecting) ==>
          t.ws == Some(id) && SocketIs(t, Closing) && t.status == StatusDisconnected && t.attempt == s.attempt)
  }

  lemma HandshakeGivesUp(s: State, id: nat)
    requires Inv(s)
    ensures Lawful(s, OnHandshakeTimer(s, id)) && GivesUpHandshake(s, OnHandshakeTimer(s, id), id)
  {
    StepIsLawful(s, HandshakeFired(id));
    if SocketIs(s, Connecting) { assert DeadlineArmed(s) && s.ws.value in s.deadlines; }
    if id !in s.deadlines { assert s.deadlines - {id} == s.deadlines; }
  }

  /** Only the current socket's advice is kept, and only the advice changes; it
      holds for the announced delay and window and five seconds more. */
  ghost predicate Advises(s: State, t: State, id: nat, afterMs: int, windowMs: int, now: int)
  {
    && (s.ws != Some(id) || windowMs <= 0 ==> t == s)
    && (s.ws == Some(id) && windowMs > 0 ==>
          t == s.(advisory := Some(now + (if afterMs > 0 then afterMs else 0) + windowMs + 5000)))
  }

  lemma AdvisoryAdvises(s: State, id: nat, afterMs: int, windowMs: int, now: int)
    requires Inv(s)
    ensures var t := OnDrainAdvisory(s, id, afterMs, windowMs, now); Lawful(s, t) && Advises(s, t, id, afterMs, windowMs, now)
  {
    StepIsLawful(s, DrainAdvisory(id, afterMs, windowMs, now));
  }

  /** An event that never dials: sockets, generation and retry budget stay, or
      the budget is reset. */
  ghost predicate Undialled(s: State, t: State)
  {
    && |t.sockets| == |s.sockets| && t.ws == s.ws && t.generation == s.generation && t.retries == s.retries
    && (t.attempt == s.attempt || t.attempt == 0)
  }

  /** A live socket on a hidden page is suspended, or dropped after a sleep. */
  lemma HiddenPage(s: State, gap: bool)
    requires Inv(s)
    ensures var t := OnHidden(s, gap);
            && Lawful(s, t) && Undialled(s, t) && (!(Active(s) && SocketIs(s, Open)) ==> t == s)
            && (Active(s) && SocketIs(s, Open) ==> t.status == if gap then StatusDisconnected else StatusSuspended)
            && (Active(s) && SocketIs(s, Open) && gap ==> SocketIs(t, Closing) && t.attempt == 0 && t.backoff == 0)
  {
    PageEventsKeep(s, gap);
  }

  /** The browser losing its route is reported at once. */
  lemma OfflineBrowser(s: State)
    requires Inv(s)
    ensures var t := OnOffline(s);
            && Lawful(s, t) && Undialled(s, t) && (!Active(s) ==> t == s)
            && (Active(s) ==> t.status == StatusDisconnected && !SocketIs(t, Open) && !SocketIs(t, Connecting))
  {
    PageEventsKeep(s, true);
  }

  /** A silent socket is dropped; nothing else is touched. */
  lemma SilentSocket(s: State, silent: bool)
    requires Inv(s)
    ensures var t := OnActivityTick(s, silent);
            && Lawful(s, t) && Undialled(s, t)
            && (if Active(s) && SocketIs(s, Open) && silent then SocketIs(t, Closing) && t.status == StatusDisconnected
                else t == s)
  {
    PageEventsKeep(s, silent);
  }

  /** Without a socket or a preflight the page or browser coming back dials at
      once, with a fresh budget; a closing socket is replaced. */
  ghost predicate Revives(s: State, t: State, opens: bool, quiet: bool)
  {
    && (!Active(s) ==> t == s)
    && (Active(s) && s.cfg.canConnect && s.ws.None? && s.authInFlight.None? ==> s.generation < t.generation)
    && (quiet && Active(s) && s.cfg.canConnect && s.authInFlight.None? && !SocketIs(s, Connecting) && !SocketIs(s, Open) ==>
          Dials(s.(attempt := 0, backoff := 0), t, opens))
  }

  /** An open socket is found live again when the page comes back, or dropped with
      a fresh budget after a sleep. */
  ghost predicate Surfaces(s: State, t: State, gap: bool)
  {
    Active(s) && SocketIs(s, Open) ==>
      if gap then SocketIs(t, Closing) && t.status == StatusDisconnected && t.attempt == 0 && t.backoff == 0 && t.ws == s.ws
      else t == s.(status := StatusOpen)
  }

  lemma ReturningDials(s: State, opens: bool, h1: Hook, h2: Hook)
    requires Inv(s) && Active(s) && s.cfg.canConnect && s.ws.None? && s.authInFlight.None?
    ensures var cleared := ClearReconnect(s.(attempt := 0, backoff := 0), false);
            s.generation < DoConnect(cleared, opens, h1, h2).generation
  {
    var cleared := ClearReconnect(s.(attempt := 0, backoff := 0), false);
    assert cleared.retries == map[];
    assert Safe(cleared);
    DialBegins(cleared, opens, h1, h2);
  }

  lemma VisibleIsLawful(s: State, gap: bool, opens: bool, h1: Hook, h2: Hook)
    requires Inv(s)
    ensures Lawful(s, OnVisible(s, gap, opens, h1, h2))
  {
    BrowserKeeps(s, gap, opens, h1, h2);
  }

  lemma VisibleRevives(s: State, gap: bool, opens: bool, h1: Hook, h2: Hook)
    requires Inv(s)
    ensures Revives(s, OnVisible(s, gap, opens, h1, h2), opens, h1.Quiet? && h2.Quiet?)
    ensures Surfaces(s, OnVisible(s, gap, opens, h1, h2), gap)
  {
    if h1.Quiet? && h2.Quiet? && Active(s) && s.cfg.canConnect && s.authInFlight.None?
       && !SocketIs(s, Connecting) && !SocketIs(s, Open) {
      ReturnDials(s, gap, opens);
    }
    if Active(s) && s.cfg.canConnect && s.ws.None? && s.authInFlight.None? { ReturningDials(s, opens, h1, h2); }
  }

  lemma OnlineIsLawful(s: State, opens: bool, h1: Hook, h2: Hook)
    requires Inv(s)
    ensures Lawful(s, OnOnline(s, opens, h1, h2))
  {
    BrowserKeeps(s, true, opens, h1, h2);
  }

  lemma OnlineRevives(s: State, opens: bool, h1: Hook, h2: Hook)
    requires Inv(s)
    ensures Revives(s, OnOnline(s, opens, h1, h2), opens, h1.Quiet? && h2.Quiet?)
    ensures Active(s) && SocketIs(s, Open) ==> OnOnline(s, opens, h1, h2) == s
  {
    if h1.Quiet? && h2.Quiet? && Active(s) && s.cfg.canConnect && s.authInFlight.None?
       && !SocketIs(s, Connecting) && !SocketIs(s, Open) {
      ReturnDials(s, false, opens);
    }
    if Active(s) && s.cfg.canConnect && s.ws.None? && s.authInFlight.None? { ReturningDials(s, opens, h1, h2); }
  }

  /** A pause does nothing to a connection that is not wanted; otherwise, unless a
      subscriber intervenes, it leaves no driver and gives back at most the one
      reserved retry. */
  ghost predicate Pauses(s: State, t: State, quiet: bool)
  {
    && (!Active(s) || !s.cfg.canConnect ==> t == s)
    && (quiet && Active(s) && s.cfg.canConnect ==>
          && t.offline && !Ended(t) && Drivers(t) == 0 && t.deadlines == {} && t.failure.None?
          && t.attempt == s.attempt - (if s.reserved then 1 else 0)
          && t.backoff == s.backoff - (if s.reserved then 1 else 0)
          && t.status == StatusDisconnected && t.advisory.None? && !Live(t, s.ws))
  }

  /** The socket has not begun to close. */
  ghost predicate Live(s: State, sock: Option<nat>)
  {
    sock.Some? && sock.value < |s.sockets| && s.sockets[sock.value] in {Connecting, Open}
  }

  lemma PauseIsLawful(s: State, h1: Hook, h2: Hook)
    requires Inv(s)
    ensures Lawful(s, Pause(s, h1, h2))
  {
    PauseKeeps(s, h1, h2);
  }

  lemma PausePauses(s: State, h1: Hook, h2: Hook)
    requires Inv(s)
    ensures Pauses(s, Pause(s, h1, h2), h1.Quiet? && h2.Quiet?)
  {
  }

  /** Resuming dials at once, whatever subscribers do then. */
  ghost predicate Resumes(s: State, t: State, opens: bool, quiet: bool)
  {
    if s.offline && !Ended(s) then s.generation < t.generation && (quiet ==> Dials(s.(offline := false), t, opens))
    else t == s
  }

  lemma ResumeIsLawful(s: State, opens: bool, h1: Hook, h2: Hook)
    requires Inv(s)
    ensures Lawful(s, Resume(s, opens, h1, h2))
  {
    ResumeKeeps(s, opens, h1, h2);
  }

  lemma ResumeDials(s: State, opens: bool, h1: Hook, h2: Hook)
    requires Inv(s)
    ensures Resumes(s, Resume(s, opens, h1, h2), opens, h1.Quiet? && h2.Quiet?)
  {
    if s.offline && !Ended(s) {
      DialBegins(s.(offline := false), opens, h1, h2);
      if h1.Quiet? && h2.Quiet? { ResumedDials(s, opens); }
    }
  }

  /** Final, with nothing driving or armed, and no failure cause; no socket was opened. */
  ghost predicate Closes(s: State, t: State)
  {
    && Inv(t) && t.closed && Drivers(t) == 0 && t.retries == map[] && t.deadlines == {}
    && t.status == StatusFailed && t.failure.None? && |t.sockets| == |s.sockets|
    && !Live(t, s.ws) && t.attempt == s.attempt && t.backoff == s.backoff
  }

  lemma CloseCloses(s: State)
    requires Safe(s)
    ensures Closes(s, Close(s))
  {
    CloseKeeps(s);
  }
}
