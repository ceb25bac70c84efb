/** An accept that overlooks an event endangers the saved offset: some
    continuation takes it past a number that is never settled. */
module RecoveryDanger {
  import opened Options
  import opened RecoverySpec
  import opened RecoveryProofs
  import opened RecoveryLoss

  /** The saved offset has passed a number that was never settled. */
  ghost predicate Passed(w: World)
  {
    w.client.last.Some? && exists n: nat :: 1 <= n <= w.client.last.value && n !in w.settled
  }

  /** An outstanding recovery is on the wire, being replayed, or answered. */
  ghost predicate Awaited(w: World)
  {
    w.connected && w.client.pending.Some? ==>
      || w.client.pending.value.ref in w.answered
      || (w.replaying.Some? && w.replaying.value.ref == w.client.pending.value.ref)
      || exists i: nat :: i < |w.toServer| && w.toServer[i].ref == w.client.pending.value.ref
  }

  lemma SendAwaits(w: World, r: Request)
    requires Awaited(w)
    ensures Awaited(Send(w, r))
  {
    var t := Send(w, r);
    assert t.toServer[|w.toServer|] == r;
    if w.client.pending.Some? && w.connected {
      if i: nat :| i < |w.toServer| && w.toServer[i].ref == w.client.pending.value.ref {
        assert t.toServer[i].ref == w.client.pending.value.ref;
      }
    }
  }

  lemma AnswerAwaits(w: World)
    requires Awaited(w)
    ensures Awaited(Accepted(w)) && Awaited(DeniedBy(w))
  {
    if w.toServer != [] && w.client.pending.Some? && w.connected {
      if i: nat :| 0 < i < |w.toServer| && w.toServer[i].ref == w.client.pending.value.ref {
        assert w.toServer[1..][i - 1].ref == w.client.pending.value.ref;
      }
    }
  }

  lemma ConnectAwaits(w: World)
    requires Awaited(w)
    ensures Awaited(Connected(w))
  {
    if !w.connected && w.wanted {
      SendAwaits(w.(client := w.client.(pending := None), connected := true, answered := Below(w.nextRef),
                    nextRef := w.nextRef + 1), Request(w.nextRef, w.client.last));
    }
  }

  lemma PlainAwaits(w: World, wanted: bool, waiting: nat)
    requires Awaited(w)
    ensures Awaited(SendPlain(w.(wanted := wanted, waiting := waiting)))
  {
    SendAwaits(w.(wanted := wanted, waiting := waiting, nextRef := w.nextRef + 1), Request(w.nextRef, None));
  }

  lemma ReceiveAwaits(w: World)
    requires Awaited(w)
    ensures Awaited(Received(w))
  {
  }

  lemma ReplayAwaits(w: World, inline: bool)
    requires Awaited(w)
    ensures Awaited(Replayed(w, inline))
  {
  }

  lemma MarkAwaits(w: World, upTo: nat, ref: nat, accepted: bool)
    requires Awaited(w)
    ensures Awaited(Marked(w, upTo)) && Awaited(Repeated(w, ref, accepted))
  {
  }

  lemma SendStepAwaits(w: World, e: Event)
    requires Awaited(w) && (e.Connect? || e.Mount? || e.DrainPlain? || e.SendRetry?)
    ensures Awaited(Step(w, e))
  {
    match e
    case Connect => ConnectAwaits(w);
    case Mount(permit) => PlainAwaits(w, true, w.waiting);
    case DrainPlain => if w.waiting > 0 { PlainAwaits(w, w.wanted, w.waiting - 1); }
    case SendRetry => if w.retry.Some? { SendAwaits(w.(retry := None), w.retry.value); }
  }

  lemma ServerStepAwaits(w: World, e: Event)
    requires Awaited(w)
    requires e.ServerAccepts? || e.ServerDenies? || e.ServerReplays? || e.ServerMarks? || e.ServerRepeats?
    ensures Awaited(Step(w, e))
  {
    match e
    case ServerAccepts => AnswerAwaits(w);
    case ServerDenies => AnswerAwaits(w);
    case ServerReplays(inline) => ReplayAwaits(w, inline);
    case ServerMarks(upTo) => MarkAwaits(w, upTo, 0, true);
    case ServerRepeats(ref, accepted) => MarkAwaits(w, 0, ref, accepted);
  }

  lemma LocalStepAwaits(w: World, e: Event)
    requires Awaited(w) && (e.Disconnect? || e.CaptureRetry? || e.Publish?)
    ensures Awaited(Step(w, e))
  {
  }

  lemma StepAwaits(w: World, e: Event)
    requires Awaited(w)
    ensures Awaited(Step(w, e))
  {
    if e.Receive? {
      ReceiveAwaits(w);
    } else if e.Disconnect? || e.CaptureRetry? || e.Publish? {
      LocalStepAwaits(w, e);
    } else if e.Connect? || e.Mount? || e.DrainPlain? || e.SendRetry? {
      SendStepAwaits(w, e);
    } else {
      ServerStepAwaits(w, e);
    }
  }

  lemma {:induction false} RunAwaits(w: World, events: seq<Event>)
    requires Awaited(w)
    ensures Awaited(Run(w, events))
    decreases |events|
  {
    if events != [] {
      StepAwaits(w, events[0]);
      RunAwaits(Step(w, events[0]), events[1..]);
    }
  }

  // ---------------------------------------------------------------------
  // The continuation

  ghost predicate OnlyAnswers(w: World) { forall f :: f in w.toClient ==> f.Ack? || f.Denied? }

  /** An open connection with the topic enrolled, nothing replayed, only answers on
      the way and nothing held back. */
  ghost predicate Quiet(w: World)
  {
    && w.connected && w.enrolled && w.replaying.None? && OnlyAnswers(w) && Awaited(w)
    && (w.client.pending.Some? ==> w.client.pending.value.highest.None?)
  }

  /** The offset, what was published and what was settled stay. */
  ghost predicate Standing(w: World, t: World)
  {
    Quiet(t) && t.client.last == w.client.last && t.head == w.head && t.settled == w.settled
  }

  /** The server takes nothing on along the way, so nothing more is overlooked. */
  ghost predicate NoAccepts(events: seq<Event>) { forall e :: e in events ==> !e.ServerAccepts? }

  lemma {:induction false} NoAcceptsIsCareful(w: World, events: seq<Event>)
    requires NoAccepts(events)
    ensures Careful(w, events)
    decreases |events|
  {
    if events != [] {
      assert events[0] in events;
      NoAcceptsIsCareful(Step(w, events[0]), events[1..]);
    }
  }

  lemma RunOne(w: World, e: Event)
    ensures Run(w, [e]) == Step(w, e)
  {
    assert [e][1..] == [] && Run(Step(w, e), []) == Step(w, e);
  }

  lemma DenyStands(w: World)
    requires Quiet(w) && w.toServer != []
    ensures var t := Step(w, ServerDenies); Standing(w, t) && |t.toServer| == |w.toServer| - 1
  {
    StepAwaits(w, ServerDenies);
  }

  /** The server refuses everything asked. */
  lemma {:induction false} DenyAll(w: World) returns (more: seq<Event>)
    requires Quiet(w)
    ensures var t := Run(w, more); Standing(w, t) && t.toServer == []
    ensures NoAccepts(more)
    decreases |w.toServer|
  {
    if w.toServer == [] {
      more := [];
    } else {
      DenyStands(w);
      var rest := DenyAll(Step(w, ServerDenies));
      more := [ServerDenies] + rest;
      assert more[1..] == rest;
    }
  }

  lemma ReceiveStands(w: World)
    requires Quiet(w) && w.toServer == [] && w.toClient != []
    ensures var t := Step(w, Receive); Standing(w, t) && t.toServer == [] && |t.toClient| == |w.toClient| - 1
  {
    var f := w.toClient[0];
    assert f in w.toClient && Carried(f) == {};
    assert w.settled + Carried(f) == w.settled;
    StepAwaits(w, Receive);
  }

  /** The client reads everything on its way. */
  lemma {:induction false} ReadAll(w: World) returns (more: seq<Event>)
    requires Quiet(w) && w.toServer == []
    ensures var t := Run(w, more); Standing(w, t) && t.toServer == [] && t.toClient == []
    ensures NoAccepts(more)
    decreases |w.toClient|
  {
    if w.toClient == [] {
      more := [];
    } else {
      ReceiveStands(w);
      var rest := ReadAll(Step(w, Receive));
      more := [Receive] + rest;
      assert more[1..] == rest;
    }
  }

  /** A second refusal ends a recovery that was answered. */
  lemma EndRecovery(w: World) returns (more: seq<Event>)
    requires Quiet(w) && w.toServer == [] && w.toClient == []
    ensures var t := Run(w, more); Standing(w, t) && t.toClient == [] && t.client.pending.None?
    ensures NoAccepts(more)
  {
    if w.client.pending.None? {
      more := [];
    } else {
      var ref := w.client.pending.value.ref;
      more := [ServerRepeats(ref, false), Receive];
      RunTwo(w, ServerRepeats(ref, false), Receive);
      var told := Step(w, ServerRepeats(ref, false));
      assert told.toClient == [Denied(ref)];
      StepAwaits(w, ServerRepeats(ref, false));
      StepAwaits(told, Receive);
      assert w.settled + Carried(Denied(ref)) == w.settled;
    }
  }

  lemma NextEventIsSent(w: World)
    requires Quiet(w) && w.toClient == []
    ensures var t := Step(w, Publish);
            t.toClient == [Live(w.head + 1)] && t.connected && t.client == w.client && t.settled == w.settled
  {
  }

  lemma NextEventIsRead(w: World, n: nat, hole: nat)
    requires w.connected && w.client.pending.None? && w.toClient == [Live(n)]
    requires 1 <= hole < n && hole !in w.settled
    ensures Passed(Step(w, Receive))
  {
    var t := Step(w, Receive);
    assert t.client.last.Some? && n <= t.client.last.value && t.settled == w.settled + {n};
    assert hole !in t.settled;
  }

  /** With nothing outstanding the next event takes the offset past every hole. */
  lemma NextEventPasses(w: World, n: nat)
    requires Quiet(w) && w.toClient == [] && w.client.pending.None? && 1 <= n <= w.head && n !in w.settled
    ensures Passed(Run(w, [Publish, Receive]))
  {
    NextEventIsSent(w);
    NextEventIsRead(Step(w, Publish), w.head + 1, n);
    RunTwo(w, Publish, Receive);
  }

  lemma AcceptQuiets(w: World)
    requires Inv(w) && Awaited(w) && Overlooks(w)
    ensures var t := Step(w, ServerAccepts); Quiet(t) && t.head == w.head && t.settled == w.settled
  {
    StepAwaits(w, ServerAccepts);
  }

  /** From every state that meets the invariant and where the accept overlooks an
      event, that accept has a continuation that makes the saved offset unsafe. */
  lemma OverlookingEndangers(w: World) returns (more: seq<Event>)
    requires Inv(w) && Awaited(w) && Overlooks(w)
    ensures Passed(Run(w, [ServerAccepts] + more)) && NoAccepts(more)
  {
    var n: nat :| 1 <= n <= w.head && n !in w.settled;
    AcceptQuiets(w);
    RunOne(w, ServerAccepts);
    var w1 := Step(w, ServerAccepts);
    var deny := DenyAll(w1);
    var w2 := Run(w1, deny);
    var read := ReadAll(w2);
    var w3 := Run(w2, read);
    var end := EndRecovery(w3);
    var w4 := Run(w3, end);
    NextEventPasses(w4, n);
    RunMore(w1, deny, read);
    RunMore(w1, deny + read, end);
    RunMore(w1, deny + read + end, [Publish, Receive]);
    more := deny + read + end + [Publish, Receive];
    RunMore(w, [ServerAccepts], more);
  }

  // ---------------------------------------------------------------------
  // Both halves

  /** The next accept of a careful run is safe in every careful future exactly when
      it overlooks nothing. */
  lemma AcceptIsSafeExactly(head: nat, events: seq<Event>)
    requires Careful(Start(head), events)
    ensures var w := Run(Start(head), events);
            Overlooks(w) <==> exists more: seq<Event> ::
              Passed(Run(w, [ServerAccepts] + more)) && Careful(Step(w, ServerAccepts), more)
  {
    StartIsInv(head);
    RunKeeps(Start(head), events);
    RunAwaits(Start(head), events);
    var w := Run(Start(head), events);
    if Overlooks(w) {
      var more := OverlookingEndangers(w);
      NoAcceptsIsCareful(Step(w, ServerAccepts), more);
    } else {
      forall more: seq<Event> | Careful(Step(w, ServerAccepts), more)
        ensures !Passed(Run(w, [ServerAccepts] + more))
      {
        StepKeeps(w, ServerAccepts);
        RunKeeps(Step(w, ServerAccepts), more);
        RunMore(w, [ServerAccepts], more);
        RunOne(w, ServerAccepts);
      }
    }
  }
}
