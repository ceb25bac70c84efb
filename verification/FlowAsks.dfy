/** When a window asks for more permits, and when a send may go out, over every
    run. */
module FlowAsks {
  import opened FlowSpec
  import opened FlowProofs

  /** A send made under an active window and not dropped: the permits it left, when
      it was made, and whether it had to wait. */
  datatype Moment = Moment(left: int, at: int, queued: bool)

  /** A run with the deadline of its window and the sends made since it came. */
  datatype Watched = Watched(h: History, deadline: int, sends: seq<Moment>)

  function Watch(w: Watched, e: Event): Watched
  {
    var h := Step(w.h, e);
    match e
    case LeaseAccepted => w.(h := h)
    case Submitted(_, _) =>
      var verdict := h.verdicts[|w.h.verdicts|];
      w.(h := h,
         sends := if w.h.flow.active && verdict != Dropped
                  then w.sends + [Moment(h.granted - h.spent, h.clock, verdict == Queued)] else w.sends)
    case Window(_, ttlMs, _) => Watched(h, h.clock + ttlMs, [])
  }

  function Follow(w: Watched, events: seq<Event>): Watched
    decreases |events|
  {
    if events == [] then w else Follow(Watch(w, events[0]), events[1..])
  }

  function From(now: int): Watched { Watched(Start(now), 0, []) }

  /** It waited, or it left 64 permits or fewer, or the deadline had come. */
  ghost predicate RunsLow(m: Moment, deadline: int)
  {
    m.queued || m.left <= 64 || m.at >= deadline
  }

  ghost predicate SomeRanLow(w: Watched)
  {
    exists i :: 0 <= i < |w.sends| && RunsLow(w.sends[i], w.deadline)
  }

  ghost predicate WatchOk(w: Watched)
  {
    && w.h.flow.expiresAt == w.deadline
    && (w.h.flow.replenishSent <==> SomeRanLow(w))
    && (!w.h.flow.active ==> w.h.granted == 0 && w.h.spent == 0)
  }

  lemma {:induction false} FollowRuns(w: Watched, events: seq<Event>)
    ensures Follow(w, events).h == Run(w.h, events)
    decreases |events|
  {
    if events != [] { FollowRuns(Watch(w, events[0]), events[1..]); }
  }

  lemma OneMore(w: Watched, m: Moment)
    ensures SomeRanLow(w.(sends := w.sends + [m])) <==> SomeRanLow(w) || RunsLow(m, w.deadline)
  {
    var more := w.sends + [m];
    assert more[|w.sends|] == m;
    if i :| 0 <= i < |w.sends| && RunsLow(w.sends[i], w.deadline) { assert more[i] == w.sends[i]; }
  }

  lemma SubmitWatches(w: Watched, now: int, open: bool)
    requires Inv(w.h) && WatchOk(w)
    ensures WatchOk(Watch(w, Submitted(now, open)))
  {
    var t := Watch(w, Submitted(now, open));
    var clock := Later(w.h.clock, now);
    var verdict := VerdictOf(w.h.flow, clock);
    assert t.h.verdicts[|w.h.verdicts|] == verdict;
    if w.h.flow.active && verdict != Dropped {
      OneMore(w.(h := t.h), Moment(t.h.granted - t.h.spent, t.h.clock, verdict == Queued));
    }
  }

  lemma WindowWatches(w: Watched, count: int, ttlMs: int, now: int)
    requires Inv(w.h) && WatchOk(w)
    ensures WatchOk(Watch(w, Window(count, ttlMs, now)))
  {
    var clock := Later(w.h.clock, now);
    DrainIsFifo(w.h.flow.(active := true, expiresAt := clock + ttlMs, avail := count, replenishSent := false));
  }

  lemma {:induction false} FollowWatches(w: Watched, events: seq<Event>)
    requires Inv(w.h) && WatchOk(w)
    ensures Inv(Follow(w, events).h) && WatchOk(Follow(w, events))
    decreases |events|
  {
    if events != [] {
      RunKeeps(w.h, [events[0]]);
      assert [events[0]][1..] == [] && Run(Step(w.h, events[0]), []) == Step(w.h, events[0]);
      match events[0] {
        case LeaseAccepted =>
        case Submitted(now, open) => SubmitWatches(w, now, open);
        case Window(count, ttlMs, now) => WindowWatches(w, count, ttlMs, now);
      }
      FollowWatches(Watch(w, events[0]), events[1..]);
    }
  }

  /** Over every run on an open socket: the window has asked for more exactly when
      some send since it came had to wait, left 64 permits or fewer, or was made
      when the deadline had come. */
  lemma AsksExactly(now: int, events: seq<Event>)
    ensures var w := Follow(From(now), events);
            && w.h == Run(Start(now), events)
            && (w.h.open ==>
                  (w.h.reports != [] <==>
                     exists i :: 0 <= i < |w.sends|
                                 && (w.sends[i].queued || w.sends[i].left <= 64 || w.sends[i].at >= w.deadline)))
  {
    FollowRuns(From(now), events);
    FollowWatches(From(now), events);
    var w := Follow(From(now), events);
    assert forall i :: 0 <= i < |w.sends| ==>
             (RunsLow(w.sends[i], w.deadline) <==>
              w.sends[i].queued || w.sends[i].left <= 64 || w.sends[i].at >= w.deadline);
  }

  /** Over every run: a send goes out at once exactly when no window governs the
      connection yet, or the current one has a permit left and its deadline has
      not come. */
  lemma SendsExactly(now: int, events: seq<Event>, later: int, open: bool)
    ensures var w := Follow(From(now), events);
            var clock, t := Later(w.h.clock, later), Step(w.h, Submitted(later, open));
            if !w.h.flow.active || (w.h.granted - w.h.spent > 0 && clock < w.deadline)
            then t.ran == w.h.ran + [|w.h.verdicts|]
            else t.ran == w.h.ran
  {
    FollowWatches(From(now), events);
    var h := Follow(From(now), events).h;
    assert h.ran + [] == h.ran;
  }

  /** A window governs from the first one on, or from the lease. */
  lemma {:induction false} GovernedExactly(h: History, events: seq<Event>)
    ensures Run(h, events).flow.active <==> h.flow.active || exists e :: e in events && !e.Submitted?
    decreases |events|
  {
    if events != [] {
      var next := Step(h, events[0]);
      GovernedExactly(next, events[1..]);
      OneStepGoverns(h, events[0]);
      assert events == [events[0]] + events[1..];
    }
  }

  lemma OneStepGoverns(h: History, e: Event)
    ensures Step(h, e).flow.active <==> h.flow.active || !e.Submitted?
  {
    match e
    case LeaseAccepted =>
    case Submitted(now, open) =>
    case Window(count, ttlMs, now) => WindowConserves(h.flow, count, ttlMs, Later(h.clock, now));
  }
}
