/** What every run of the flow-control window keeps, with a clock that never
    runs backwards. */
module FlowProofs {
  import opened FlowSpec

  datatype Event = LeaseAccepted | Submitted(now: int, open: bool) | Window(count: int, ttlMs: int, now: int)

  /** A run so far: the verdict on each submission in order, the sends that ran
      in order, what the current window granted and how much of it was spent,
      and the depths it reported. `open` holds while every send was made with
      the socket open, as both callers check. */
  datatype History = History(flow: Flow, clock: int, verdicts: seq<Verdict>, ran: seq<nat>,
                             granted: int, spent: nat, reports: seq<nat>, open: bool)

  function Later(clock: int, now: int): int { if now > clock then now else clock }

  function Step(h: History, e: Event): History
  {
    match e
    case LeaseAccepted => h.(flow := h.flow.(active := true))
    case Submitted(now, open) =>
      var clock := Later(h.clock, now);
      var verdict := VerdictOf(h.flow, clock);
      var turn := Submit(h.flow, |h.verdicts|, clock, open);
      h.(flow := turn.flow, clock := clock, verdicts := h.verdicts + [verdict], ran := h.ran + turn.ran,
         spent := if h.flow.active && verdict == Sent then h.spent + 1 else h.spent,
         reports := h.reports + turn.told, open := h.open && open)
    case Window(count, ttlMs, now) =>
      var clock := Later(h.clock, now);
      var turn := ApplyWindow(h.flow, count, ttlMs, clock);
      h.(flow := turn.flow, clock := clock, ran := h.ran + turn.ran,
         granted := count, spent := |turn.ran|, reports := [])
  }

  function Run(h: History, events: seq<Event>): History
    decreases |events|
  {
    if events == [] then h else Run(Step(h, events[0]), events[1..])
  }

  function Start(now: int): History
  {
    History(Flow(false, 0, 0, [], false, false, 0), now, [], [], 0, 0, [], true)
  }

  /** The submissions that were not dropped, in submission order. */
  function Kept(verdicts: seq<Verdict>): seq<nat>
  {
    if verdicts == [] then []
    else
      var last := |verdicts| - 1;
      Kept(verdicts[..last]) + (if verdicts[last] == Dropped then [] else [last])
  }

  /** Only the first report of a window may be zero, and each later one is at
      least twice the one before. */
  ghost predicate Doubling(reports: seq<nat>)
  {
    && (forall i :: 0 <= i < |reports| ==> reports[i] <= MAX_QUEUE)
    && (forall i :: 0 < i < |reports| ==> reports[i] >= 1 && reports[i] >= 2 * reports[i - 1])
  }

  ghost predicate QueueOk(h: History)
  {
    && h.ran + h.flow.queue == Kept(h.verdicts)
    && |h.flow.queue| <= MAX_QUEUE
    && (h.flow.queue != [] ==> h.flow.active && !Fresh(h.flow, h.clock))
    && (h.flow.degraded <==> h.flow.queue != [])
  }

  ghost predicate BudgetOk(h: History)
  {
    && h.flow.avail == h.granted - h.spent
    && (h.spent > 0 ==> h.spent <= h.granted)
  }

  /** Whether or not the socket was open. */
  ghost predicate MarksOk(h: History)
  {
    && Doubling(h.reports)
    && (!h.flow.replenishSent ==> h.reports == [])
    && (h.reports != [] ==> h.reports[|h.reports| - 1] <= h.flow.reported)
  }

  ghost predicate ReportsOk(h: History)
  {
    h.open ==>
      && (h.flow.replenishSent <==> h.reports != [])
      && (h.reports != [] ==> h.flow.reported == h.reports[|h.reports| - 1] <= |h.flow.queue|)
  }

  ghost predicate Inv(h: History) { QueueOk(h) && BudgetOk(h) && MarksOk(h) && ReportsOk(h) }

  lemma {:induction false} DrainIsFifo(f: Flow)
    ensures var t := Drain(f);
            && t.ran + t.flow.queue == f.queue
            && t.flow == f.(queue := t.flow.queue, avail := f.avail - |t.ran|)
            && (t.flow.avail <= 0 || t.flow.queue == [])
            && (t.ran != [] ==> t.flow.avail >= 0)
    decreases |f.queue|
  {
    if f.avail > 0 && f.queue != [] {
      DrainIsFifo(f.(queue := f.queue[1..], avail := f.avail - 1));
    }
  }

  /** A fresh window loses and reorders nothing, and what still waits after it has
      no permit left. */
  lemma WindowConserves(f: Flow, count: int, ttlMs: int, now: int)
    ensures var t := ApplyWindow(f, count, ttlMs, now);
            && t.ran + t.flow.queue == f.queue && t.flow.active && t.flow.avail == count - |t.ran|
            && (t.flow.queue != [] ==> t.flow.avail <= 0)
            && (t.flow.degraded <==> t.flow.queue != [] && f.degraded)
  {
    DrainIsFifo(f.(active := true, expiresAt := now + ttlMs, avail := count, replenishSent := false));
  }

  lemma KeptMore(verdicts: seq<Verdict>, verdict: Verdict)
    ensures Kept(verdicts + [verdict]) == Kept(verdicts) + (if verdict == Dropped then [] else [|verdicts|])
  {
    assert (verdicts + [verdict])[..|verdicts|] == verdicts;
  }

  /** What neither report changes. */
  ghost predicate SameSends(f: Flow, g: Flow)
  {
    && g.active == f.active && g.avail == f.avail && g.expiresAt == f.expiresAt
    && g.queue == f.queue && g.degraded == f.degraded
  }

  lemma ReportsKeepSends(f: Flow, now: int, open: bool)
    ensures SameSends(f, MaybeReplenish(f, now, open).flow) && MaybeReplenish(f, now, open).ran == []
    ensures SameSends(f, ReportDeeper(f, open).flow) && ReportDeeper(f, open).ran == []
  {
  }

  lemma SentTurn(f: Flow, send: nat, now: int, open: bool)
    requires VerdictOf(f, now) == Sent
    ensures var t := Submit(f, send, now, open);
            t.ran == [send] && SameSends(if f.active then f.(avail := f.avail - 1) else f, t.flow)
  {
    ReportsKeepSends(f.(avail := f.avail - 1), now, open);
  }

  lemma QueuedTurn(f: Flow, send: nat, now: int, open: bool)
    requires VerdictOf(f, now) == Queued
    ensures var t := Submit(f, send, now, open);
            t.ran == [] && SameSends(f.(queue := f.queue + [send], degraded := true), t.flow)
  {
    var queued := f.(queue := f.queue + [send], degraded := true);
    ReportsKeepSends(queued, now, open);
    ReportsKeepSends(MaybeReplenish(queued, now, open).flow, now, open);
  }

  lemma SendKeepsQueue(h: History, now: int, open: bool)
    requires Inv(h) && VerdictOf(h.flow, Later(h.clock, now)) == Sent
    ensures QueueOk(Step(h, Submitted(now, open))) && BudgetOk(Step(h, Submitted(now, open)))
  {
    KeptMore(h.verdicts, Sent);
    SentTurn(h.flow, |h.verdicts|, Later(h.clock, now), open);
    var t := Step(h, Submitted(now, open));
    assert h.flow.queue == [] == t.flow.queue;
    assert t.ran == h.ran + [|h.verdicts|] && h.ran + [] == h.ran;
  }

  lemma QueueKeepsQueue(h: History, now: int, open: bool)
    requires Inv(h) && VerdictOf(h.flow, Later(h.clock, now)) == Queued
    ensures QueueOk(Step(h, Submitted(now, open))) && BudgetOk(Step(h, Submitted(now, open)))
  {
    KeptMore(h.verdicts, Queued);
    QueuedTurn(h.flow, |h.verdicts|, Later(h.clock, now), open);
    var t := Step(h, Submitted(now, open));
    assert t.ran == h.ran && t.flow.queue == h.flow.queue + [|h.verdicts|];
    assert h.ran + (h.flow.queue + [|h.verdicts|]) == (h.ran + h.flow.queue) + [|h.verdicts|];
  }

  lemma DropKeepsQueue(h: History, now: int, open: bool)
    requires Inv(h) && VerdictOf(h.flow, Later(h.clock, now)) == Dropped
    ensures QueueOk(Step(h, Submitted(now, open))) && BudgetOk(Step(h, Submitted(now, open)))
  {
    KeptMore(h.verdicts, Dropped);
    assert Step(h, Submitted(now, open)).ran == h.ran;
  }

  lemma SubmitKeepsQueue(h: History, now: int, open: bool)
    requires Inv(h)
    ensures QueueOk(Step(h, Submitted(now, open))) && BudgetOk(Step(h, Submitted(now, open)))
  {
    match VerdictOf(h.flow, Later(h.clock, now))
    case Sent => SendKeepsQueue(h, now, open);
    case Queued => QueueKeepsQueue(h, now, open);
    case Dropped => DropKeepsQueue(h, now, open);
  }

  /** On an open socket the mark is the last depth reported, and asking once
      settles that the window asked. */
  lemma AskReports(f: Flow, now: int)
    ensures var t := MaybeReplenish(f, now, true);
            if t.told == [] then t.flow == f
            else t.told == [|f.queue|] && t.flow.reported == |f.queue| && t.flow.replenishSent && !f.replenishSent
  {
  }

  lemma DeeperReports(f: Flow)
    ensures var t := ReportDeeper(f, true);
            if t.told == [] then t.flow == f
            else t.told == [|f.queue|] && t.flow == f.(reported := |f.queue|)
  {
  }

  lemma SendKeepsReports(h: History, now: int)
    requires Inv(h) && h.open && VerdictOf(h.flow, Later(h.clock, now)) == Sent
    ensures ReportsOk(Step(h, Submitted(now, true)))
  {
    assert h.flow.queue == [];
    AskReports(h.flow.(avail := h.flow.avail - 1), Later(h.clock, now));
    assert h.reports + [] == h.reports;
  }

  lemma QueueKeepsReports(h: History, now: int)
    requires Inv(h) && h.open && VerdictOf(h.flow, Later(h.clock, now)) == Queued
    ensures ReportsOk(Step(h, Submitted(now, true)))
  {
    var queued := h.flow.(queue := h.flow.queue + [|h.verdicts|], degraded := true);
    var asked := MaybeReplenish(queued, Later(h.clock, now), true);
    AskReports(queued, Later(h.clock, now));
    DeeperReports(asked.flow);
    var deeper := ReportDeeper(asked.flow, true);
    assert asked.flow.replenishSent;
    assert Step(h, Submitted(now, true)).reports == h.reports + (asked.told + deeper.told);
    assert h.reports + ([] + []) == h.reports;
  }

  lemma SubmitKeepsReports(h: History, now: int, open: bool)
    requires Inv(h)
    ensures ReportsOk(Step(h, Submitted(now, open)))
  {
    if h.open && open {
      match VerdictOf(h.flow, Later(h.clock, now))
      case Sent => SendKeepsReports(h, now);
      case Queued => QueueKeepsReports(h, now);
      case Dropped => assert h.reports + [] == h.reports;
    }
  }

  /** One submission reports at most one depth; past the window's first it is at
      least twice the mark, and the mark never drops. */
  lemma OneReport(f: Flow, send: nat, now: int, open: bool)
    requires |f.queue| <= MAX_QUEUE
    ensures var t := Submit(f, send, now, open);
            && (f.replenishSent ==> t.flow.replenishSent)
            && (t.told == [] || t.told == [t.flow.reported])
            && (t.told != [] ==> t.flow.replenishSent && t.flow.reported <= MAX_QUEUE)
            && (t.told != [] && f.replenishSent ==> t.flow.reported >= 1 && t.flow.reported >= 2 * f.reported)
            && (f.replenishSent ==> t.flow.reported >= f.reported)
  {
  }

  /** What one submission reports, to the frame: a send that goes out under an
      active window asks once it leaves 64 permits or fewer or is the window's last
      in time; one that waits reports the new depth if the window has not asked, or
      has reported nothing, or the backlog has doubled. Nothing is told on a closed
      socket or by a send that is dropped. */
  lemma ToldExactly(f: Flow, send: nat, now: int, open: bool)
    ensures var told, depth := Submit(f, send, now, open).told, |f.queue|;
            && (VerdictOf(f, now) == Sent ==>
                  told == if open && f.active && !f.replenishSent && (depth > 0 || f.avail <= 65 || now >= f.expiresAt)
                          then [depth] else [])
            && (VerdictOf(f, now) == Queued ==>
                  told == if open && (!f.replenishSent || f.reported == 0 || depth + 1 >= 2 * f.reported)
                          then [depth + 1] else [])
            && (VerdictOf(f, now) == Dropped ==> told == [])
  {
  }

  lemma DoublingMore(reports: seq<nat>, depth: nat)
    requires Doubling(reports) && depth <= MAX_QUEUE
    requires reports != [] ==> depth >= 1 && depth >= 2 * reports[|reports| - 1]
    ensures Doubling(reports + [depth])
  {
  }

  lemma SubmitKeepsMarks(h: History, now: int, open: bool)
    requires Inv(h)
    ensures MarksOk(Step(h, Submitted(now, open)))
  {
    var turn := Submit(h.flow, |h.verdicts|, Later(h.clock, now), open);
    OneReport(h.flow, |h.verdicts|, Later(h.clock, now), open);
    if turn.told != [] {
      DoublingMore(h.reports, turn.flow.reported);
    } else {
      assert h.reports + turn.told == h.reports;
    }
  }

  lemma WindowKeepsQueue(h: History, count: int, ttlMs: int, now: int)
    requires QueueOk(h)
    ensures QueueOk(Step(h, Window(count, ttlMs, now)))
  {
    var t := ApplyWindow(h.flow, count, ttlMs, Later(h.clock, now));
    WindowConserves(h.flow, count, ttlMs, Later(h.clock, now));
    assert h.ran + (t.ran + t.flow.queue) == (h.ran + t.ran) + t.flow.queue;
  }

  lemma WindowKeeps(h: History, count: int, ttlMs: int, now: int)
    requires Inv(h)
    ensures Inv(Step(h, Window(count, ttlMs, now)))
  {
    WindowKeepsQueue(h, count, ttlMs, now);
    var clock := Later(h.clock, now);
    var start := h.flow.(active := true, expiresAt := clock + ttlMs, avail := count, replenishSent := false);
    DrainIsFifo(start);
  }

  lemma RunKeeps(h: History, events: seq<Event>)
    requires Inv(h)
    ensures Inv(Run(h, events))
    decreases |events|
  {
    if events != [] {
      match events[0] {
        case LeaseAccepted =>
        case Submitted(now, open) =>
          SubmitKeepsQueue(h, now, open);
          SubmitKeepsMarks(h, now, open);
          SubmitKeepsReports(h, now, open);
        case Window(count, ttlMs, now) => WindowKeeps(h, count, ttlMs, now);
      }
      RunKeeps(Step(h, events[0]), events[1..]);
    }
  }

  // ---------------------------------------------------------------------
  // Main results

  /** Over every run: the sends that ran, followed by those still queued, are
      the submissions minus the dropped ones in submission order; a window
      never lets out more than it granted; a backlog means there is no fresh
      permit, and `degraded` says exactly that there is a backlog. */
  lemma SendsAreConserved(now: int, events: seq<Event>)
    ensures var h := Run(Start(now), events);
            && h.ran + h.flow.queue == Kept(h.verdicts)
            && (h.spent == 0 || h.spent <= h.granted)
            && (h.flow.queue != [] ==> !Fresh(h.flow, h.clock))
            && (h.flow.degraded <==> h.flow.queue != [])
  {
    RunKeeps(Start(now), events);
  }

  /** A send is dropped exactly when 256 are queued, and queued or dropped only for
      want of a fresh permit. */
  lemma DroppedOnlyWhenFull(now: int, events: seq<Event>, later: int)
    ensures var h := Run(Start(now), events);
            var clock := Later(h.clock, later);
            && (VerdictOf(h.flow, clock) == Dropped <==> |h.flow.queue| == 256)
            && (VerdictOf(h.flow, clock) == Sent ==> h.flow.queue == [])
  {
    RunKeeps(Start(now), events);
  }

  ghost predicate Ascending(s: seq<nat>)
  {
    forall i, j :: 0 <= i < j < |s| ==> s[i] < s[j]
  }

  /** Kept submissions are strictly increasing: no send runs twice or early. */
  lemma {:induction false} KeptIsOrdered(verdicts: seq<Verdict>)
    ensures Ascending(Kept(verdicts))
    ensures forall k: nat :: k in Kept(verdicts) <==> k < |verdicts| && verdicts[k] != Dropped
  {
    if verdicts != [] {
      var last := |verdicts| - 1;
      KeptIsOrdered(verdicts[..last]);
      var before := Kept(verdicts[..last]);
      assert Kept(verdicts) == before + (if verdicts[last] == Dropped then [] else [last]);
      forall i | 0 <= i < |before| ensures before[i] < last {
        assert before[i] in before;
      }
    }
  }

  /** 1, 2, 4, ... */
  function Pow2(n: nat): nat { if n == 0 then 1 else 2 * Pow2(n - 1) }

  lemma {:induction false} DoublingGrows(reports: seq<nat>, i: nat)
    requires Doubling(reports) && 0 < i < |reports|
    ensures reports[i] >= Pow2(i - 1) && (reports[0] > 0 ==> reports[i] >= Pow2(i))
  {
    if i > 1 { DoublingGrows(reports, i - 1); }
  }

  ghost function Nonzero(reports: seq<nat>): nat
  {
    if reports == [] then 0 else (if reports[0] > 0 then 1 else 0) + Nonzero(reports[1..])
  }

  lemma FewReports(reports: seq<nat>)
    requires Doubling(reports)
    ensures Nonzero(reports) <= 9 && |reports| - Nonzero(reports) <= 1
  {
    if reports != [] {
      AllNonzero(reports[1..]);
      assert Pow2(9) == 512 by { assert Pow2(5) == 32; }
      if |reports| > 10 { DoublingGrows(reports, 10); }
      if |reports| > 9 { DoublingGrows(reports, 9); }
    }
  }

  lemma AllNonzero(reports: seq<nat>)
    requires forall i :: 0 <= i < |reports| ==> reports[i] > 0
    ensures Nonzero(reports) == |reports|
  {
  }

  /** A window reports a depth of zero at most once and a positive depth at most
      nine times. */
  lemma FewReportsPerWindow(now: int, events: seq<Event>)
    ensures var h := Run(Start(now), events);
            Nonzero(h.reports) <= 9 && |h.reports| - Nonzero(h.reports) <= 1
  {
    RunKeeps(Start(now), events);
    FewReports(Run(Start(now), events).reports);
  }

  /** After every send that queues the backlog is less than twice the depth last
      reported, and that depth is within the backlog exactly when this send
      reported it as the window's first or the old one was not above the new
      depth; it always is while sends are made on an open socket. */
  lemma ReportedDepthTracksBacklog(now: int, events: seq<Event>, later: int, open: bool)
    ensures var h := Run(Start(now), events);
            VerdictOf(h.flow, Later(h.clock, later)) == Queued ==>
              var t := Step(h, Submitted(later, open)).flow;
              && |t.queue| < 2 * t.reported
              && (t.reported <= |t.queue| <==> (!h.flow.replenishSent && open) || h.flow.reported <= |h.flow.queue| + 1)
              && (h.open && open ==> t.reported <= |t.queue|)
  {
    RunKeeps(Start(now), events);
    var h := Run(Start(now), events);
    var clock := Later(h.clock, later);
    if VerdictOf(h.flow, clock) == Queued { BacklogMarkExactly(h.flow, |h.verdicts|, clock, open); }
  }

  /** For any window, however it came about: the mark after a queued send is
      below the backlog exactly when that send re-based it or the old mark was
      not above the new depth. */
  lemma BacklogMarkExactly(f: Flow, send: nat, now: int, open: bool)
    requires VerdictOf(f, now) == Queued
    ensures var t := Submit(f, send, now, open).flow;
            && |t.queue| < 2 * t.reported
            && (t.reported <= |t.queue| <==> (!f.replenishSent && open) || f.reported <= |f.queue| + 1)
  {
  }

  /** Two sends are reported as they queue and drained; the next one queues on a
      socket that is no longer open. */
  const STALE_MARK: seq<Event> :=
    [LeaseAccepted, Submitted(0, true), Submitted(0, true), Window(2, 1, 0), Submitted(1, false)]

  /** A send queued while the socket is not open can leave the mark above the
      backlog: at the end of that run it is 2 over a backlog of 1. */
  lemma ClosedSocketLeavesStaleMark()
    ensures var h := Run(Start(0), STALE_MARK); h.flow.reported == 2 && |h.flow.queue| == 1
  {
    RunFive(Start(0), STALE_MARK);
    var h3 := Step(Step(Step(Start(0), LeaseAccepted), Submitted(0, true)), Submitted(0, true));
    TwoQueued();
    DrainedAgain(h3);
    QueuedUnseen(Step(h3, Window(2, 1, 0)));
  }

  lemma TwoQueued()
    ensures var h := Step(Step(Step(Start(0), LeaseAccepted), Submitted(0, true)), Submitted(0, true));
            h.flow == Flow(true, 0, 0, [0, 1], true, true, 2) && h.clock == 0 && |h.verdicts| == 2
  {
    var h := Step(Start(0), LeaseAccepted);
    assert h.flow == Flow(true, 0, 0, [], false, false, 0);
    var h' := Step(h, Submitted(0, true));
    assert h'.flow == Flow(true, 0, 0, [0], true, true, 1) && |h'.verdicts| == 1;
    assert [0] + [1] == [0, 1];
  }

  lemma DrainedAgain(h: History)
    requires h.flow == Flow(true, 0, 0, [0, 1], true, true, 2) && h.clock == 0
    ensures var t := Step(h, Window(2, 1, 0));
            t.flow == Flow(true, 0, 1, [], false, false, 2) && t.clock == 0 && t.verdicts == h.verdicts
  {
    DrainIsFifo(Flow(true, 2, 1, [0, 1], true, false, 2));
  }

  lemma QueuedUnseen(h: History)
    requires h.flow == Flow(true, 0, 1, [], false, false, 2) && h.clock == 0
    ensures var t := Step(h, Submitted(1, false)); t.flow.reported == 2 && |t.flow.queue| == 1
  {
  }

  lemma RunFive(h: History, events: seq<Event>)
    requires |events| == 5
    ensures Run(h, events) == Step(Step(Step(Step(Step(h, events[0]), events[1]), events[2]), events[3]), events[4])
  {
    var h1 := Step(h, events[0]);
    var h2 := Step(h1, events[1]);
    var h3 := Step(h2, events[2]);
    var h4 := Step(h3, events[3]);
    assert Run(h, events) == Run(h1, events[1..]);
    assert events[1..][1..] == events[2..] && Run(h1, events[1..]) == Run(h2, events[2..]);
    assert events[2..][1..] == events[3..] && Run(h2, events[2..]) == Run(h3, events[3..]);
    assert events[3..][1..] == events[4..] && Run(h3, events[3..]) == Run(h4, events[4..]);
    assert events[4..][1..] == [] && Run(h4, events[4..]) == Run(Step(h4, events[4]), []);
  }
}
