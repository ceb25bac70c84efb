/** The flow-control fields of src/client.js and the methods that update them.
    `ran` is every flow-controlled send that went out, in order, and `told` the
    backlog depth of every `request-n` frame. */
module FlowWindow {
  import opened Spec = FlowSpec
  import opened FlowProofs

  class Window {
    var active: bool
    var avail: int
    var expiresAt: int
    var queue: seq<nat>
    var degraded: bool
    var replenishSent: bool
    var reported: nat
    var ran: seq<nat>
    var told: seq<nat>

    function View(): Flow
      reads this
    {
      Flow(active, avail, expiresAt, queue, degraded, replenishSent, reported)
    }

    /** The queue is bounded, and degraded says exactly that there is one. */
    ghost predicate Valid()
      reads this
    {
      |queue| <= MAX_QUEUE && (degraded <==> queue != []) && (queue != [] ==> active)
    }

    /** Sends wait only for want of a fresh permit. */
    ghost predicate Starved(now: int)
      reads this
    {
      queue != [] ==> !Fresh(View(), now)
    }

    /** Time alone brings no permit. */
    lemma StarvesOn(now: int, later: int)
      requires Starved(now) && now <= later
      ensures Starved(later)
    {
    }

    constructor ()
      ensures Valid() && forall now :: Starved(now)
      ensures View() == Flow(false, 0, 0, [], false, false, 0) && ran == [] && told == []
    {
      active, avail, expiresAt, queue := false, 0, 0, [];
      degraded, replenishSent, reported, ran, told := false, false, 0, [], [];
    }

    method LeaseAccepted()
      requires Valid()
      modifies this`active
      ensures Valid() && View() == old(View()).(active := true)
    {
      active := true;
    }

    /** At most one request in a window, with the backlog as it stands: as soon as
        there is one, or 64 permits or fewer are left, or they have expired. */
    method MaybeReplenish(now: int, open: bool)
      modifies this
      ensures var t := Spec.MaybeReplenish(old(View()), now, open);
              View() == t.flow && ran == old(ran) + t.ran && told == old(told) + t.told
      ensures ran == old(ran) && queue == old(queue) && avail == old(avail) && degraded == old(degraded)
      ensures told == old(told) || told == old(told) + [|queue|]
      ensures old(replenishSent) ==> told == old(told)
      ensures active && queue != [] ==> replenishSent
      ensures active && !old(replenishSent) ==> (replenishSent <==> queue != [] || avail <= 64 || now >= expiresAt)
      ensures told != old(told) <==> open && replenishSent && !old(replenishSent)
      ensures !active ==> View() == old(View())
    {
      if !active { return; }
      if replenishSent { return; }
      if |queue| > 0 || !Fresh(View(), now) || avail <= LOW_WATER {
        replenishSent := true;
        if open {
          reported := |queue|;
          told := told + [|queue|];
        }
      }
    }

    /** Afterwards the backlog is less than twice the mark; a report means it had
        at least doubled. */
    method ReportDeeperBacklog(open: bool)
      modifies this
      ensures var t := ReportDeeper(old(View()), open);
              View() == t.flow && ran == old(ran) + t.ran && told == old(told) + t.told
      ensures ran == old(ran) && queue == old(queue) && avail == old(avail) && degraded == old(degraded)
      ensures queue != [] ==> |queue| < 2 * reported
      ensures told == old(told) || (told == old(told) + [|queue|] && |queue| >= 2 * old(reported))
    {
      var depth := |queue|;
      if depth == 0 { return; }
      if reported != 0 && depth < reported * 2 { return; }
      reported := depth;
      if open { told := told + [depth]; }
    }

    /** The send is kept behind those before it, unless the queue is full. Sends
        waited for want of a permit at some earlier time, so they still do. */
    method Send(send: nat, ghost since: int, now: int, open: bool) returns (sent: bool)
      requires Valid() && since <= now && Starved(since)
      modifies this
      ensures Valid() && Starved(now)
      ensures ran + queue == old(ran + queue) + if |old(queue)| == MAX_QUEUE then [] else [send]
      ensures |told| <= |old(told)| + 1
      ensures var t := Submit(old(View()), send, now, open);
              View() == t.flow && ran == old(ran) + t.ran && told == old(told) + t.told
      ensures sent <==> !old(active) || (old(avail) > 0 && now < old(expiresAt))
      ensures sent <==> ran == old(ran) + [send]
    {
      StarvesOn(since, now);
      if !active {
        ran := ran + [send];
        return true;
      }
      if Fresh(View(), now) {
        avail := avail - 1;
        ran := ran + [send];
        MaybeReplenish(now, open);
        return true;
      }
      if |queue| < MAX_QUEUE {
        Regroup(ran, queue, [send]);
        queue := queue + [send];
        degraded := true;
        MaybeReplenish(now, open);
        ReportDeeperBacklog(open);
        return false;
      }
      degraded := true;
      return false;
    }

    /** No send is lost or overtaken, and what still waits has no permit left. */
    method ApplyWindow(count: int, ttlMs: int, now: int)
      requires Valid()
      modifies this
      ensures Valid() && forall clock :: Starved(clock)
      ensures ran + queue == old(ran + queue) && (avail <= 0 || queue == [])
      ensures active && !replenishSent && expiresAt == now + ttlMs && avail == count - (|ran| - |old(ran)|)
      ensures var t := Spec.ApplyWindow(old(View()), count, ttlMs, now);
              View() == t.flow && ran == old(ran) + t.ran && told == old(told) + t.told
    {
      WindowConserves(View(), count, ttlMs, now);
      ghost var t := Spec.ApplyWindow(View(), count, ttlMs, now);
      Refresh(count, ttlMs, now);
      DrainQueue();
      if |queue| == 0 { degraded := false; }
      assert ran == old(ran) + t.ran && View() == t.flow;
      Regroup(old(ran), t.ran, queue);
    }

    lemma Regroup(before: seq<nat>, moved: seq<nat>, rest: seq<nat>)
      ensures (before + moved) + rest == before + (moved + rest)
    {
    }

    method Refresh(count: int, ttlMs: int, now: int)
      modifies this`active, this`expiresAt, this`avail, this`replenishSent
      ensures View() == old(View()).(active := true, expiresAt := now + ttlMs, avail := count, replenishSent := false)
    {
      active := true;
      expiresAt := now + ttlMs;
      avail := count;
      replenishSent := false;
    }

    /** The queue goes out oldest first, one permit each, until one side runs out. */
    method DrainQueue()
      modifies this`queue, this`avail, this`ran
      ensures var t := Drain(old(View())); View() == t.flow && ran == old(ran) + t.ran
    {
      ghost var start := View();
      while avail > 0 && |queue| > 0
        invariant Drain(View()).flow == Drain(start).flow
        invariant ran + Drain(View()).ran == old(ran) + Drain(start).ran
        decreases |queue|
      {
        ran := ran + [queue[0]];
        queue, avail := queue[1..], avail - 1;
      }
    }
  }
}
