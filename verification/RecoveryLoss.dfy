/** How a topic that stays subscribed loses an event: by a plain subscribe that
    waited out its connection, or by coming back without an offset. And which
    runs cannot. */
module RecoveryLoss {
  import opened Options
  import opened RecoverySpec
  import opened RecoveryProofs

  // ---------------------------------------------------------------------
  // Runs that cannot lose an event

  /** The step sends a request that asks for no history. */
  ghost predicate SendsPlain(w: World, e: Event)
  {
    var t := Step(w, e);
    |t.toServer| > |w.toServer| && t.toServer[|t.toServer| - 1].offset.None?
  }

  /** No plain request leaves for a topic that was enrolled before and is not now. */
  ghost predicate Prompt(w: World, events: seq<Event>)
    decreases |events|
  {
    || events == []
    || (!(SendsPlain(w, events[0]) && w.begun && !w.enrolled) && Prompt(Step(w, events[0]), events[1..]))
  }

  /** Until it is enrolled again, every request on the wire presents an offset. */
  ghost predicate AsksForAll(w: World)
  {
    w.begun && !w.enrolled ==> forall i: nat :: i < |w.toServer| ==> w.toServer[i].offset.Some?
  }

  lemma PromptKeeps(w: World, e: Event)
    requires Inv(w) && AsksForAll(w) && !(SendsPlain(w, e) && w.begun && !w.enrolled)
    ensures !Overlooks(w) && AsksForAll(Step(w, e))
  {
  }

  lemma {:induction false} PromptIsCareful(w: World, events: seq<Event>)
    requires Inv(w) && AsksForAll(w) && Prompt(w, events)
    ensures Careful(w, events)
    decreases |events|
  {
    if events != [] {
      PromptKeeps(w, events[0]);
      StepKeeps(w, events[0]);
      PromptIsCareful(Step(w, events[0]), events[1..]);
    }
  }

  /** A run in which a topic enrolled once always asks for its history never
      leaves a hole. */
  lemma PromptRunsLoseNothing(head: nat, events: seq<Event>)
    requires Prompt(Start(head), events)
    ensures Careful(Start(head), events) && !LeavesHole(Start(head), events)
  {
    StartIsInv(head);
    PromptIsCareful(Start(head), events);
    SilentLossExactly(head, events);
  }

  // ---------------------------------------------------------------------
  // A run that loses an event

  lemma {:induction false} RunMore(w: World, events: seq<Event>, more: seq<Event>)
    ensures Run(w, events + more) == Run(Run(w, events), more)
    decreases |events|
  {
    if events == [] {
      assert events + more == more;
    } else {
      RunMore(Step(w, events[0]), events[1..], more);
      assert (events + more)[1..] == events[1..] + more;
    }
  }

  lemma RunThree(w: World, a: Event, b: Event, c: Event)
    ensures Run(w, [a, b, c]) == Step(Step(Step(w, a), b), c)
  {
    assert [a, b, c][1..] == [b, c] && [b, c][1..] == [c] && [c][1..] == [];
    assert Run(Step(Step(w, a), b), [c]) == Run(Step(Step(Step(w, a), b), c), []);
    assert Run(Step(w, a), [b, c]) == Run(Step(Step(w, a), b), [c]);
  }

  /** The first subscribe waits for a permit while its connection drops. */
  const STARVED_MOUNT: seq<Event> := [Connect, Mount(false), Disconnect]
  /** The next connection asks plain and event 1 is published. */
  const ENROLLED: seq<Event> := [Connect, ServerAccepts, Publish]
  /** The event sets the offset, and this connection drops too. */
  const OFFSET_SET: seq<Event> := [Receive, Receive, Disconnect]
  /** Event 2 is published; the recovery from offset 1 is refused. */
  const REFUSED: seq<Event> := [Publish, Connect, ServerDenies]
  /** A window lets the old subscribe out, and the server takes it. */
  const STALE_DRAIN: seq<Event> := [Receive, DrainPlain, ServerAccepts]
  /** Event 3 arrives and moves the offset. */
  const NEXT_EVENT: seq<Event> := [Publish, Receive, Receive]

  /** What the run needs to know of a state; event 2 is never settled in it. */
  ghost predicate At(w: World, client: Tracker, nextRef: nat, waiting: nat, toServer: seq<Request>, toClient: seq<Frame>,
                     head: nat)
  {
    && w.client == client && w.nextRef == nextRef && w.wanted && w.waiting == waiting
    && w.toServer == toServer && w.toClient == toClient && w.head == head
    && w.retry.None? && w.replaying.None? && 2 !in w.settled
  }

  ghost predicate Down(w: World, last: Option<nat>, nextRef: nat, head: nat)
  {
    At(w, Tracker(last, None), nextRef, 1, [], [], head) && !w.connected && !w.enrolled
  }

  lemma AfterStarvedMount()
    ensures Down(Run(Start(0), STARVED_MOUNT), None, 1, 0)
  {
    RunThree(Start(0), Connect, Mount(false), Disconnect);
  }

  lemma AfterEnrolled(w: World)
    requires Down(w, None, 1, 0)
    ensures var t := Run(w, ENROLLED);
            At(t, Tracker(None, None), 2, 1, [], [Ack(1), Live(1)], 1) && t.connected && t.enrolled && t.begun
  {
    RunThree(w, Connect, ServerAccepts, Publish);
    var t := Step(w, Connect);
    assert t.toServer == [Request(1, None)];
    var u := Step(t, ServerAccepts);
    assert u.toServer == [] && u.toClient == [Ack(1)];
    assert Step(u, Publish).toClient == [Ack(1), Live(1)];
  }

  lemma AfterOffset(w: World)
    requires At(w, Tracker(None, None), 2, 1, [], [Ack(1), Live(1)], 1) && w.connected && w.enrolled && w.begun
    ensures Down(Run(w, OFFSET_SET), Some(1), 2, 1) && Run(w, OFFSET_SET).begun
  {
    RunThree(w, Receive, Receive, Disconnect);
    var t := Step(w, Receive);
    assert t.toClient == [Live(1)];
  }

  lemma AfterRefused(w: World)
    requires Down(w, Some(1), 2, 1) && w.begun
    ensures var t := Run(w, REFUSED);
            At(t, Tracker(Some(1), Some(Pending(2, None))), 3, 1, [], [Denied(2)], 2)
            && t.connected && !t.enrolled && t.begun
  {
    RunThree(w, Publish, Connect, ServerDenies);
    var t := Step(Step(w, Publish), Connect);
    assert t.toServer == [Request(2, Some(1))];
    var u := Step(t, ServerDenies);
    assert u.toServer == [] && u.toClient == [Denied(2)];
  }

  lemma AfterStaleDrain(w: World)
    requires At(w, Tracker(Some(1), Some(Pending(2, None))), 3, 1, [], [Denied(2)], 2)
    requires w.connected && !w.enrolled && w.begun
    ensures var t := Run(w, STALE_DRAIN);
            At(t, Tracker(Some(1), None), 4, 0, [], [Ack(3)], 2) && t.connected && t.enrolled
    ensures Overlooks(Step(Step(w, Receive), DrainPlain))
  {
    RunThree(w, Receive, DrainPlain, ServerAccepts);
    var heard := Step(w, Receive);
    assert At(heard, Tracker(Some(1), None), 3, 1, [], [], 2);
    var drained := Step(heard, DrainPlain);
    assert At(drained, Tracker(Some(1), None), 4, 0, [Request(3, None)], [], 2);
    assert 1 < 2 <= drained.head && 2 !in drained.settled;
    var t := Step(drained, ServerAccepts);
    assert t.toServer == [] && t.toClient == [Ack(3)];
  }

  lemma AfterNextEvent(w: World)
    requires At(w, Tracker(Some(1), None), 4, 0, [], [Ack(3)], 2) && w.connected && w.enrolled
    ensures var t := Run(w, NEXT_EVENT);
            At(t, Tracker(Some(3), None), 4, 0, [], [], 3) && t.connected && t.enrolled
  {
    RunThree(w, Publish, Receive, Receive);
    var t := Step(w, Publish);
    assert t.toClient == [Ack(3), Live(3)];
    assert Step(t, Receive).toClient == [Live(3)];
  }

  /** A topic that stays subscribed loses event 2: the offset ends at 3, nothing
      is outstanding, and 2 was neither dispatched nor declared lost. */
  lemma StaleSubscribeLosesAnEvent()
    ensures var w := Run(Start(0), STARVED_MOUNT + ENROLLED + OFFSET_SET + REFUSED + STALE_DRAIN + NEXT_EVENT);
            && w.client == Tracker(Some(3), None) && w.head == 3 && 2 !in w.settled
            && w.wanted && w.enrolled && w.toClient == [] && w.toServer == [] && w.replaying.None?
            && w.retry.None? && w.waiting == 0
  {
    var w0 := Start(0);
    RunMore(w0, STARVED_MOUNT, ENROLLED);
    RunMore(w0, STARVED_MOUNT + ENROLLED, OFFSET_SET);
    RunMore(w0, STARVED_MOUNT + ENROLLED + OFFSET_SET, REFUSED);
    RunMore(w0, STARVED_MOUNT + ENROLLED + OFFSET_SET + REFUSED, STALE_DRAIN);
    RunMore(w0, STARVED_MOUNT + ENROLLED + OFFSET_SET + REFUSED + STALE_DRAIN, NEXT_EVENT);
    AfterStarvedMount();
    var w1 := Run(w0, STARVED_MOUNT);
    AfterEnrolled(w1);
    var w2 := Run(w1, ENROLLED);
    AfterOffset(w2);
    var w3 := Run(w2, OFFSET_SET);
    AfterRefused(w3);
    var w4 := Run(w3, REFUSED);
    AfterStaleDrain(w4);
    AfterNextEvent(Run(w4, STALE_DRAIN));
  }

  // ---------------------------------------------------------------------
  // Coming back without an offset

  lemma RunTwo(w: World, a: Event, b: Event)
    ensures Run(w, [a, b]) == Step(Step(w, a), b)
  {
    assert [a, b][1..] == [b] && [b][1..] == [];
    assert Run(Step(w, a), [b]) == Run(Step(Step(w, a), b), []);
  }

  /** A subscribed topic between connections, enrolled before, with no offset; the
      next event was never settled. */
  ghost predicate Adrift(w: World)
  {
    && !w.connected && !w.enrolled && w.toServer == [] && w.toClient == [] && w.retry.None? && w.replaying.None?
    && w.wanted && w.begun && w.client.last.None? && w.head + 1 !in w.settled
  }

  /** An event while it is down, the reconnect, and an event after. */
  const MISSED: seq<Event> := [Publish, Connect, ServerAccepts] + [Receive, Publish, Receive]

  /** From any such state the event published meanwhile is lost: the resubscribe
      asks for no history, and the next event takes the offset past the gap. */
  lemma ReturningWithoutOffsetLoses(w: World)
    requires Adrift(w)
    ensures var t := Run(w, MISSED);
            && t.client == Tracker(Some(w.head + 2), None) && w.head + 1 !in t.settled
            && t.enrolled && t.toServer == [] && t.toClient == [] && t.replaying.None? && t.retry.None?
  {
    RunMore(w, [Publish, Connect, ServerAccepts], [Receive, Publish, Receive]);
    RunThree(w, Publish, Connect, ServerAccepts);
    var asked := Step(Step(w, Publish), Connect);
    assert asked.toServer == [Request(w.nextRef, None)] && asked.toClient == [];
    var taken := Step(asked, ServerAccepts);
    assert taken.toServer == [] && taken.toClient == [Ack(w.nextRef)] && taken.settled == w.settled;
    RunThree(taken, Receive, Publish, Receive);
    var heard := Step(taken, Receive);
    assert heard.toClient == [] && heard.client == Tracker(None, None);
    var live := Step(heard, Publish);
    assert live.toClient == [Live(w.head + 2)];
  }

  /** Enrolled, and dropped before any event. */
  const NO_EVENT_YET: seq<Event> := [Connect, Mount(true), ServerAccepts] + [Receive, Disconnect]
  /** Enrolled, one event, and a marker that declares only that event lost. */
  const INVALIDATED: seq<Event> :=
    [Connect, Mount(true), ServerAccepts] + [Publish, Receive, Receive] + [ServerMarks(1), Receive, Disconnect]

  lemma AfterMount()
    ensures var w := Run(Start(0), [Connect, Mount(true), ServerAccepts]);
            && w.client == Tracker(None, None) && w.nextRef == 2 && w.connected && w.wanted && w.begun && w.enrolled
            && w.toServer == [] && w.toClient == [Ack(1)] && w.retry.None? && w.replaying.None? && w.head == 0
            && w.settled == {}
  {
    RunThree(Start(0), Connect, Mount(true), ServerAccepts);
    var asked := Step(Step(Start(0), Connect), Mount(true));
    assert asked.toServer == [Request(1, None)] && asked.toClient == [];
    var w := Step(asked, ServerAccepts);
    assert w.toServer == [] && w.toClient == [Ack(1)];
  }

  /** A drop before the first event: event 1 is lost, and the offset ends at 2. */
  lemma LostBeforeTheFirstEvent()
    ensures var t := Run(Start(0), NO_EVENT_YET + MISSED); t.client == Tracker(Some(2), None) && 1 !in t.settled
  {
    AfterMount();
    var w := Run(Start(0), [Connect, Mount(true), ServerAccepts]);
    RunMore(Start(0), [Connect, Mount(true), ServerAccepts], [Receive, Disconnect]);
    RunTwo(w, Receive, Disconnect);
    RunMore(Start(0), NO_EVENT_YET, MISSED);
    assert Step(w, Receive).settled == {};
    ReturningWithoutOffsetLoses(Run(Start(0), NO_EVENT_YET));
  }

  lemma AfterFirstEvent(w: World)
    requires w.client == Tracker(None, None) && w.nextRef == 2 && w.connected && w.wanted && w.begun && w.enrolled
    requires w.toServer == [] && w.toClient == [Ack(1)] && w.retry.None? && w.replaying.None? && w.head == 0
    requires w.settled == {}
    ensures var t := Run(w, [Publish, Receive, Receive]);
            t == w.(client := Tracker(Some(1), None), toClient := [], head := 1, settled := {1})
  {
    RunThree(w, Publish, Receive, Receive);
    var live := Step(w, Publish);
    assert live.toClient == [Ack(1), Live(1)];
    var heard := Step(live, Receive);
    assert heard.toClient == [Live(1)] && heard.settled == {} && heard.client == w.client;
    assert Step(heard, Receive).settled == {1};
  }

  lemma AfterMarker(w: World)
    requires w.client == Tracker(Some(1), None) && w.connected && w.wanted && w.begun && w.enrolled && w.head == 1
    requires w.toServer == [] && w.toClient == [] && w.retry.None? && w.replaying.None? && w.settled == {1}
    ensures var t := Run(w, [ServerMarks(1), Receive, Disconnect]); Adrift(t) && t.head == 1
  {
    RunThree(w, ServerMarks(1), Receive, Disconnect);
    var marked := Step(w, ServerMarks(1));
    assert marked.toClient == [Marker(1)];
    var heard := Step(marked, Receive);
    assert heard.client == Tracker(None, None) && 2 !in heard.settled;
  }

  /** A drop after a marker took the offset: event 2, which the marker did not
      cover, is lost, and the offset ends at 3. */
  lemma LostAfterAMarker()
    ensures var t := Run(Start(0), INVALIDATED + MISSED); t.client == Tracker(Some(3), None) && 2 !in t.settled
  {
    var mount, event, marker := [Connect, Mount(true), ServerAccepts], [Publish, Receive, Receive],
      [ServerMarks(1), Receive, Disconnect];
    AfterMount();
    RunMore(Start(0), mount, event);
    AfterFirstEvent(Run(Start(0), mount));
    RunMore(Start(0), mount + event, marker);
    AfterMarker(Run(Start(0), mount + event));
    RunMore(Start(0), INVALIDATED, MISSED);
    ReturningWithoutOffsetLoses(Run(Start(0), INVALIDATED));
  }
}
