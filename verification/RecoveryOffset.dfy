/** The saved offset from below: it is exactly the greatest number that counts
    among what the client asked for and read, over every run. */
module RecoveryOffset {
  import opened Options
  import opened RecoverySpec

  /** What reaches one topic's tracker: a recovery request, a numbered event, a
      marker, an answer, or the loss of the connection or the subscription. */
  datatype Input = Asks(ref: nat, offset: nat) | Reads(seqNo: nat) | Marks | Answers(to: int, accepted: bool) | Forgets

  function Tracked(t: Tracker, x: Input): Tracker
  {
    match x
    case Asks(ref, offset) => Ask(t, ref, offset)
    case Reads(n) => Deliver(t, n)
    case Marks => Invalidate(t)
    case Answers(to, accepted) => Finish(t, to, accepted)
    case Forgets => t.(pending := None)
  }

  function Track(log: seq<Input>): Tracker
  {
    if log == [] then Tracker(None, None) else Tracked(Track(log[..|log| - 1]), log[|log| - 1])
  }

  // ---------------------------------------------------------------------
  // What counts

  /** Nothing after input `i` set the offset anew. */
  ghost predicate Stands(log: seq<Input>, i: nat)
  {
    forall k :: i < k < |log| ==> !log[k].Asks? && !log[k].Marks?
  }

  ghost predicate Ends(x: Input, ref: nat)
  {
    x.Asks? || x.Forgets? || (x.Answers? && x.to == ref)
  }

  /** The request at `j` is still unanswered when input `k` comes. */
  ghost predicate Awaits(log: seq<Input>, j: nat, k: nat)
  {
    j < k <= |log| && log[j].Asks? && forall i :: j < i < k ==> !Ends(log[i], log[j].ref)
  }

  /** Input `c` accepts the request that event `i` was held back for. */
  ghost predicate Releases(log: seq<Input>, i: nat, c: nat)
  {
    i < c < |log| && exists j: nat :: Awaits(log, j, i) && Awaits(log, j, c) && log[c] == Answers(log[j].ref, true)
  }

  /** An event counts at once, or if it came while a recovery was outstanding,
      when that recovery was accepted. */
  ghost predicate Counts(log: seq<Input>, i: nat)
  {
    && i < |log| && log[i].Reads?
    && ((exists j: nat :: Awaits(log, j, i)) ==> exists c: nat :: Releases(log, i, c))
  }

  /** Number `n` belongs to the offset: it was asked from, or counted, since. */
  ghost predicate Supports(log: seq<Input>, i: nat, n: nat)
  {
    && i < |log| && Stands(log, i)
    && ((log[i].Asks? && log[i].offset == n) || (Counts(log, i) && log[i].seqNo == n))
  }

  /** `last` is the greatest number that belongs to the offset, if there is one. */
  ghost predicate IsGreatest(log: seq<Input>, last: Option<nat>)
  {
    && (last.Some? ==> exists i: nat :: Supports(log, i, last.value))
    && (forall i: nat, n: nat :: Supports(log, i, n) ==> last.Some? && n <= last.value)
  }

  /** A recovery is outstanding exactly when its request is unanswered. */
  ghost predicate PendingOk(log: seq<Input>, pending: Option<Pending>)
  {
    && (pending.Some? ==> exists j: nat :: Awaits(log, j, |log|) && log[j].ref == pending.value.ref)
    && (forall j: nat :: Awaits(log, j, |log|) ==> pending.Some? && log[j].ref == pending.value.ref)
  }

  /** An event read since the offset was last set anew. */
  ghost predicate Recent(log: seq<Input>, i: nat) { i < |log| && Stands(log, i) && log[i].Reads? }

  /** The mark held back is the greatest of the events read since. */
  ghost predicate HeldOk(log: seq<Input>, pending: Option<Pending>)
  {
    pending.Some? ==>
      && (pending.value.highest.Some? ==> exists i: nat :: Recent(log, i) && log[i].seqNo == pending.value.highest.value)
      && (forall i: nat :: Recent(log, i) ==> pending.value.highest.Some? && log[i].seqNo <= pending.value.highest.value)
  }

  ghost predicate Kept(log: seq<Input>, t: Tracker)
  {
    IsGreatest(log, t.last) && PendingOk(log, t.pending) && HeldOk(log, t.pending)
  }

  // ---------------------------------------------------------------------
  // One more input

  lemma AwaitsBefore(log: seq<Input>, x: Input, j: nat, k: nat)
    requires k <= |log|
    ensures Awaits(log + [x], j, k) <==> Awaits(log, j, k)
  {
    var more := log + [x];
    if Awaits(log, j, k) { assert forall i :: j < i < k ==> more[i] == log[i]; }
    if Awaits(more, j, k) { assert forall i :: j < i < k ==> log[i] == more[i]; }
  }

  lemma AwaitsAfter(log: seq<Input>, x: Input, j: nat)
    ensures Awaits(log + [x], j, |log| + 1) <==>
              (j == |log| && x.Asks?) || (Awaits(log, j, |log|) && !Ends(x, log[j].ref))
  {
    var more := log + [x];
    assert more[|log|] == x;
    if Awaits(more, j, |log| + 1) && j < |log| {
      AwaitsBefore(log, x, j, |log|);
      assert Awaits(more, j, |log|);
    }
    if Awaits(log, j, |log|) { AwaitsBefore(log, x, j, |log|); }
  }

  lemma StandsBefore(log: seq<Input>, x: Input, i: nat)
    requires i < |log|
    ensures Stands(log + [x], i) <==> Stands(log, i) && !x.Asks? && !x.Marks?
  {
    var more := log + [x];
    assert more[|log|] == x;
    if Stands(more, i) { assert forall k :: i < k < |log| ==> more[k] == log[k]; }
    if Stands(log, i) { assert forall k :: i < k < |log| ==> more[k] == log[k]; }
  }

  lemma ReleasesBefore(log: seq<Input>, x: Input, i: nat, c: nat)
    requires c < |log|
    ensures Releases(log + [x], i, c) <==> Releases(log, i, c)
  {
    var more := log + [x];
    if i < c {
      forall j: nat ensures Awaits(more, j, i) && Awaits(more, j, c) <==> Awaits(log, j, i) && Awaits(log, j, c) {
        AwaitsBefore(log, x, j, i);
        AwaitsBefore(log, x, j, c);
      }
    }
  }

  /** Only the acceptance of the outstanding recovery makes an earlier event count. */
  lemma CountsBefore(log: seq<Input>, x: Input, i: nat)
    requires i < |log| && !Releases(log + [x], i, |log|)
    ensures Counts(log + [x], i) <==> Counts(log, i)
  {
    var more := log + [x];
    forall j: nat ensures Awaits(more, j, i) <==> Awaits(log, j, i) { AwaitsBefore(log, x, j, i); }
    forall c: nat | c < |log| ensures Releases(more, i, c) <==> Releases(log, i, c) { ReleasesBefore(log, x, i, c); }
    if Counts(more, i) && exists j: nat :: Awaits(log, j, i) {
      var j: nat :| Awaits(log, j, i);
      assert Awaits(more, j, i);
      var c: nat :| Releases(more, i, c);
      assert c != |log|;
    }
    if Counts(log, i) && exists j: nat :: Awaits(more, j, i) {
      var j: nat :| Awaits(more, j, i);
      assert Awaits(log, j, i);
      var c: nat :| Releases(log, i, c);
      assert Releases(more, i, c);
    }
  }

  /** At most one request is unanswered at any time. */
  lemma OneAwaits(log: seq<Input>, j: nat, k: nat, at: nat)
    requires Awaits(log, j, at) && Awaits(log, k, at)
    ensures j == k
  {
    if j < k { assert Ends(log[k], log[j].ref); }
    if k < j { assert Ends(log[j], log[k].ref); }
  }

  /** While a recovery is outstanding every event read since was held back for it
      and none of them counts. */
  lemma HeldBack(log: seq<Input>, j: nat, i: nat)
    requires Awaits(log, j, |log|) && Recent(log, i)
    ensures j < i && Awaits(log, j, i) && !Counts(log, i)
  {
    assert Awaits(log, j, i);
    if c: nat :| Releases(log, i, c) {
      var k: nat :| Awaits(log, k, i) && Awaits(log, k, c) && log[c] == Answers(log[k].ref, true);
      OneAwaits(log, j, k, i);
      assert Ends(log[c], log[j].ref);
    }
  }

  // ---------------------------------------------------------------------
  // Every input keeps it

  lemma AskKeeps(log: seq<Input>, ref: nat, offset: nat)
    ensures Kept(log + [Asks(ref, offset)], Tracker(Some(offset), Some(Pending(ref, None))))
  {
    var x := Asks(ref, offset);
    var more, n := log + [x], |log|;
    assert more[n] == x && Stands(more, n) && Supports(more, n, offset);
    forall i: nat | i < n ensures !Stands(more, i) { StandsBefore(log, x, i); }
    forall j: nat ensures Awaits(more, j, |more|) <==> j == n { AwaitsAfter(log, x, j); }
    assert Awaits(more, n, |more|) && more[n].ref == ref;
  }

  lemma MarkKeeps(log: seq<Input>, t: Tracker)
    requires Kept(log, t)
    ensures Kept(log + [Marks], Invalidate(t))
  {
    var more, n := log + [Marks], |log|;
    assert more[n] == Marks;
    forall i: nat | i < n ensures !Stands(more, i) { StandsBefore(log, Marks, i); }
    forall j: nat ensures Awaits(more, j, |more|) <==> Awaits(log, j, n) { AwaitsAfter(log, Marks, j); }
    PendingStays(log, Marks, t.pending, Invalidate(t).pending);
  }

  lemma PendingStays(log: seq<Input>, x: Input, before: Option<Pending>, after: Option<Pending>)
    requires PendingOk(log, before) && (before.Some? <==> after.Some?)
    requires before.Some? ==> after.value.ref == before.value.ref
    requires forall j: nat :: Awaits(log + [x], j, |log + [x]|) <==> Awaits(log, j, |log|)
    ensures PendingOk(log + [x], after)
  {
    var more := log + [x];
    forall j: nat | Awaits(log, j, |log|) ensures more[j] == log[j] {}
    if before.Some? {
      var j: nat :| Awaits(log, j, |log|) && log[j].ref == before.value.ref;
      assert Awaits(more, j, |more|) && more[j].ref == after.value.ref;
    }
  }

  /** With no recovery outstanding the event counts at once. */
  lemma ReadCounts(log: seq<Input>, t: Tracker, n: nat)
    requires Kept(log, t) && t.pending.None?
    ensures Kept(log + [Reads(n)], Deliver(t, n))
  {
    var x := Reads(n);
    var more, k := log + [x], |log|;
    assert more[k] == x && Stands(more, k);
    forall j: nat ensures !Awaits(more, j, k) { AwaitsBefore(log, x, j, k); }
    assert Counts(more, k) && Supports(more, k, n);
    forall j: nat ensures !Awaits(more, j, |more|) { AwaitsAfter(log, x, j); }
    forall i: nat, m: nat | i < k ensures Supports(more, i, m) <==> Supports(log, i, m) { SupportsBefore(log, x, i, m); }
  }

  /** Nothing but an acceptance changes what an earlier input is worth. */
  lemma SupportsBefore(log: seq<Input>, x: Input, i: nat, m: nat)
    requires i < |log| && !x.Asks? && !x.Marks? && !Releases(log + [x], i, |log|)
    ensures Supports(log + [x], i, m) <==> Supports(log, i, m)
  {
    assert (log + [x])[i] == log[i];
    StandsBefore(log, x, i);
    CountsBefore(log, x, i);
  }

  /** While a recovery is outstanding the event is held back. */
  lemma ReadIsHeld(log: seq<Input>, t: Tracker, n: nat)
    requires Kept(log, t) && t.pending.Some?
    ensures Kept(log + [Reads(n)], Deliver(t, n))
  {
    var x := Reads(n);
    var more, k := log + [x], |log|;
    assert more[k] == x && Stands(more, k) && Recent(more, k);
    forall j: nat ensures Awaits(more, j, |more|) <==> Awaits(log, j, k) { AwaitsAfter(log, x, j); }
    PendingStays(log, x, t.pending, Deliver(t, n).pending);
    var j: nat :| Awaits(log, j, k);
    AwaitsBefore(log, x, j, k);
    assert !Counts(more, k);
    forall i: nat, m: nat | i < k ensures Supports(more, i, m) <==> Supports(log, i, m) { SupportsBefore(log, x, i, m); }
    RecentBefore(log, x);
  }

  lemma RecentBefore(log: seq<Input>, x: Input)
    requires !x.Asks? && !x.Marks?
    ensures forall i: nat :: i < |log| ==> (Recent(log + [x], i) <==> Recent(log, i))
  {
    forall i: nat | i < |log| ensures Recent(log + [x], i) <==> Recent(log, i) {
      assert (log + [x])[i] == log[i];
      StandsBefore(log, x, i);
    }
  }

  /** An answer that does not match changes nothing. */
  lemma OtherAnswerKeeps(log: seq<Input>, t: Tracker, to: int, accepted: bool)
    requires Kept(log, t) && (t.pending.None? || to != t.pending.value.ref)
    ensures Kept(log + [Answers(to, accepted)], t)
  {
    var x := Answers(to, accepted);
    var more, k := log + [x], |log|;
    forall j: nat ensures Awaits(more, j, |more|) <==> Awaits(log, j, k) { AwaitsAfter(log, x, j); }
    PendingStays(log, x, t.pending, t.pending);
    NothingReleased(log, x, t.pending);
    assert more[k] == x;
    forall i: nat, m: nat ensures Supports(more, i, m) <==> Supports(log, i, m) {
      if i < k { SupportsBefore(log, x, i, m); }
    }
    RecentBefore(log, x);
  }

  lemma NothingReleased(log: seq<Input>, x: Input, pending: Option<Pending>)
    requires PendingOk(log, pending) && (x.Answers? && x.accepted ==> pending.None? || x.to != pending.value.ref)
    ensures forall i: nat :: !Releases(log + [x], i, |log|)
  {
    var more := log + [x];
    assert more[|log|] == x;
    forall j: nat | Awaits(more, j, |log|) ensures Awaits(log, j, |log|) && more[j] == log[j] {
      AwaitsBefore(log, x, j, |log|);
    }
  }

  /** A refusal and a lost connection end the recovery and release nothing. */
  lemma EndKeeps(log: seq<Input>, t: Tracker, x: Input)
    requires Kept(log, t) && (x.Forgets? || (t.pending.Some? && x == Answers(t.pending.value.ref, false)))
    ensures Kept(log + [x], t.(pending := None))
  {
    var more, k := log + [x], |log|;
    assert more[k] == x;
    NothingReleased(log, x, t.pending);
    forall j: nat ensures !Awaits(more, j, |more|) { AwaitsAfter(log, x, j); }
    forall i: nat, m: nat ensures Supports(more, i, m) <==> Supports(log, i, m) {
      if i < k { SupportsBefore(log, x, i, m); }
    }
  }

  /** An acceptance releases everything held back for it. */
  lemma ReleasedCount(log: seq<Input>, x: Input, j: nat, i: nat)
    requires Awaits(log, j, |log|) && x == Answers(log[j].ref, true) && Recent(log, i)
    ensures Counts(log + [x], i) && Stands(log + [x], i)
  {
    var more := log + [x];
    HeldBack(log, j, i);
    AwaitsBefore(log, x, j, i);
    AwaitsBefore(log, x, j, |log|);
    assert more[|log|] == x && more[j] == log[j] && more[i] == log[i];
    assert Releases(more, i, |log|);
    StandsBefore(log, x, i);
  }

  /** Afterwards the offset rests on the request and on everything read since. */
  lemma SupportsReleased(log: seq<Input>, x: Input, j: nat, i: nat, m: nat)
    requires Awaits(log, j, |log|) && x == Answers(log[j].ref, true)
    ensures Supports(log + [x], i, m) <==> Supports(log, i, m) || (Recent(log, i) && log[i].seqNo == m)
  {
    var more := log + [x];
    assert more[|log|] == x;
    if i < |log| {
      assert more[i] == log[i];
      StandsBefore(log, x, i);
      if Recent(log, i) { ReleasedCount(log, x, j, i); }
    }
  }

  lemma AcceptKeeps(log: seq<Input>, t: Tracker)
    requires Kept(log, t) && t.pending.Some?
    ensures Kept(log + [Answers(t.pending.value.ref, true)], Finish(t, t.pending.value.ref, true))
  {
    var x := Answers(t.pending.value.ref, true);
    var more, k, done := log + [x], |log|, Finish(t, t.pending.value.ref, true);
    var j: nat :| Awaits(log, j, k) && log[j].ref == t.pending.value.ref;
    forall l: nat ensures !Awaits(more, l, |more|) { AwaitsAfter(log, x, l); }
    forall i: nat, m: nat
      ensures Supports(more, i, m) <==> Supports(log, i, m) || (Recent(log, i) && log[i].seqNo == m)
    {
      SupportsReleased(log, x, j, i, m);
    }
    var highest := t.pending.value.highest;
    if highest.Some? {
      var i: nat :| Recent(log, i) && log[i].seqNo == highest.value;
      assert Supports(more, i, highest.value);
    }
    if t.last.Some? {
      var i: nat :| Supports(log, i, t.last.value);
      assert Supports(more, i, t.last.value);
    }
  }

  // ---------------------------------------------------------------------
  // Main results

  lemma InputKeeps(log: seq<Input>, t: Tracker, x: Input)
    requires Kept(log, t)
    ensures Kept(log + [x], Tracked(t, x))
  {
    match x
    case Asks(ref, offset) => AskKeeps(log, ref, offset);
    case Reads(n) => if t.pending.Some? { ReadIsHeld(log, t, n); } else { ReadCounts(log, t, n); }
    case Marks => MarkKeeps(log, t);
    case Answers(to, accepted) =>
      if t.pending.None? || to != t.pending.value.ref {
        OtherAnswerKeeps(log, t, to, accepted);
      } else if accepted {
        AcceptKeeps(log, t);
      } else {
        EndKeeps(log, t, x);
      }
    case Forgets => EndKeeps(log, t, x);
  }

  /** After any inputs the saved offset is exactly the greatest number that was
      asked from or counted since it was last set anew, and none when there is no
      such number; a recovery is outstanding exactly while its request is
      unanswered. */
  lemma {:induction false} OffsetIsGreatest(log: seq<Input>)
    ensures IsGreatest(log, Track(log).last) && PendingOk(log, Track(log).pending) && HeldOk(log, Track(log).pending)
    decreases |log|
  {
    if log != [] {
      var init, x := log[..|log| - 1], log[|log| - 1];
      OffsetIsGreatest(init);
      InputKeeps(init, Track(init), x);
      assert init + [x] == log;
    }
  }

  // ---------------------------------------------------------------------
  // Whole recoveries

  function AllRead(seqNos: seq<nat>): seq<Input>
  {
    seq(|seqNos|, i requires 0 <= i < |seqNos| => Reads(seqNos[i]))
  }

  lemma TrackMore(log: seq<Input>, x: Input)
    ensures Track(log + [x]) == Tracked(Track(log), x)
  {
    assert (log + [x])[..|log|] == log;
  }

  /** While the answer is out the offset stays at what was asked, and the greatest
      event read is held back. */
  lemma {:induction false} HoldingBack(before: seq<Input>, ref: nat, offset: nat, seqNos: seq<nat>)
    ensures var t := Track(before + [Asks(ref, offset)] + AllRead(seqNos));
            && t.last == Some(offset) && t.pending.Some? && t.pending.value.ref == ref
            && (t.pending.value.highest.Some? <==> seqNos != [])
            && (seqNos != [] ==> t.pending.value.highest.value in seqNos)
            && forall n :: n in seqNos ==> n <= t.pending.value.highest.value
    decreases |seqNos|
  {
    var asked := before + [Asks(ref, offset)];
    if seqNos == [] {
      TrackMore(before, Asks(ref, offset));
      assert asked + AllRead([]) == asked;
    } else {
      var init, n := seqNos[..|seqNos| - 1], seqNos[|seqNos| - 1];
      HoldingBack(before, ref, offset, init);
      TrackMore(asked + AllRead(init), Reads(n));
      assert asked + AllRead(seqNos) == asked + AllRead(init) + [Reads(n)];
      assert seqNos == init + [n];
    }
  }

  /** Accepted, a recovery leaves the greatest of the offset asked and the events
      read meanwhile; refused, the offset asked. */
  lemma WholeRecovery(before: seq<Input>, ref: nat, offset: nat, seqNos: seq<nat>, accepted: bool)
    ensures var t := Track(before + [Asks(ref, offset)] + AllRead(seqNos) + [Answers(ref, accepted)]);
            && t.pending.None? && t.last.Some?
            && (!accepted ==> t.last.value == offset)
            && (accepted ==> (t.last.value == offset || t.last.value in seqNos)
                             && offset <= t.last.value && forall n :: n in seqNos ==> n <= t.last.value)
  {
    HoldingBack(before, ref, offset, seqNos);
    TrackMore(before + [Asks(ref, offset)] + AllRead(seqNos), Answers(ref, accepted));
  }

  // ---------------------------------------------------------------------
  // In the whole system

  function Brings(f: Frame): seq<Input>
  {
    match f
    case Live(n) => [Reads(n)]
    case Replay(_) => []
    case Marker(_) => [Marks]
    case Ack(ref) => [Answers(ref, true)]
    case Denied(ref) => [Answers(ref, false)]
  }

  function Resumes(ref: nat, offset: Option<nat>): seq<Input>
  {
    if offset.Some? then [Asks(ref, offset.value)] else []
  }

  /** What one step of the system brings the client. */
  function Inputs(w: World, e: Event): seq<Input>
  {
    if e.Connect? && !w.connected then [Forgets] + (if w.wanted then Resumes(w.nextRef, w.client.last) else [])
    else if e.SendRetry? && w.retry.Some? then Resumes(w.retry.value.ref, w.retry.value.offset)
    else if e.Receive? && w.toClient != [] then Brings(w.toClient[0])
    else []
  }

  /** What a whole run brought it. */
  function AllInputs(w: World, events: seq<Event>): seq<Input>
    decreases |events|
  {
    if events == [] then [] else Inputs(w, events[0]) + AllInputs(Step(w, events[0]), events[1..])
  }

  lemma NoInput(log: seq<Input>)
    ensures log + [] == log
  {
  }

  lemma FrameTracks(w: World)
    requires w.toClient != []
    ensures var xs := Brings(w.toClient[0]); Received(w).client == if xs == [] then w.client else Tracked(w.client, xs[0])
  {
  }

  lemma ReceiveTracks(w: World, log: seq<Input>)
    requires w.client == Track(log)
    ensures Received(w).client == Track(log + Inputs(w, Receive))
  {
    NoInput(log);
    if w.toClient != [] {
      var xs := Brings(w.toClient[0]);
      FrameTracks(w);
      if xs != [] {
        TrackMore(log, xs[0]);
        assert xs == [xs[0]];
      }
    }
  }

  lemma SendTracks(w: World, r: Request, log: seq<Input>)
    requires w.client == Track(log)
    ensures Send(w, r).client == Track(log + Resumes(r.ref, r.offset))
  {
    if r.offset.Some? { TrackMore(log, Asks(r.ref, r.offset.value)); }
    NoInput(log);
  }

  lemma ConnectTracks(w: World, log: seq<Input>)
    requires w.client == Track(log)
    ensures Connected(w).client == Track(log + Inputs(w, Connect))
  {
    if !w.connected {
      var open := w.(client := w.client.(pending := None), connected := true, answered := Below(w.nextRef));
      TrackMore(log, Forgets);
      if w.wanted {
        SendTracks(open.(nextRef := w.nextRef + 1), Request(w.nextRef, w.client.last), log + [Forgets]);
        assert log + Inputs(w, Connect) == log + [Forgets] + Resumes(w.nextRef, w.client.last);
      }
    }
    NoInput(log);
    NoInput([Forgets]);
  }

  lemma QuietStep(w: World, e: Event)
    requires !e.Connect? && !e.SendRetry? && !e.Receive?
    ensures Step(w, e).client == w.client
  {
  }

  lemma StepTracks(w: World, e: Event, log: seq<Input>)
    requires w.client == Track(log)
    ensures Step(w, e).client == Track(log + Inputs(w, e))
  {
    NoInput(log);
    if e.Receive? {
      ReceiveTracks(w, log);
    } else if e.Connect? {
      ConnectTracks(w, log);
    } else if e.SendRetry? {
      if w.retry.Some? { SendTracks(w.(retry := None), w.retry.value, log); }
    } else {
      QuietStep(w, e);
    }
  }

  lemma Regroup(log: seq<Input>, first: seq<Input>, rest: seq<Input>)
    ensures log + (first + rest) == log + first + rest
  {
  }

  lemma {:induction false} RunTracks(w: World, events: seq<Event>, log: seq<Input>)
    requires w.client == Track(log)
    ensures Run(w, events).client == Track(log + AllInputs(w, events))
    decreases |events|
  {
    if events == [] {
      NoInput(log);
    } else {
      var next := Step(w, events[0]);
      StepTracks(w, events[0], log);
      RunTracks(next, events[1..], log + Inputs(w, events[0]));
      Regroup(log, Inputs(w, events[0]), AllInputs(next, events[1..]));
    }
  }

  /** Nothing is asked between connections. */
  ghost predicate Silent(w: World) { !w.connected ==> w.toServer == [] && w.retry.None? }

  ghost predicate DidMount(events: seq<Event>) { exists e :: e in events && e.Mount? }

  lemma {:induction false} WantedSinceMount(w: World, events: seq<Event>)
    requires Silent(w)
    ensures var t := Run(w, events);
            (t.wanted <==> w.wanted || DidMount(events)) && Silent(t)
    decreases |events|
  {
    if events != [] {
      WantedStep(w, events[0]);
      WantedSinceMount(Step(w, events[0]), events[1..]);
      assert events == [events[0]] + events[1..];
      if events[0].Mount? { assert events[0] in events; }
    }
  }

  lemma WantedStep(w: World, e: Event)
    requires Silent(w)
    ensures var t := Step(w, e); (t.wanted <==> w.wanted || e.Mount?) && Silent(t)
  {
  }

  /** Over every run: a topic once mounted is asked for on every new connection,
      from the offset held, and is the only thing asked for. */
  lemma ConnectAsksExactly(head: nat, events: seq<Event>)
    ensures var w := Run(Start(head), events);
            !w.connected ==>
              var t := Step(w, Connect);
              && t.connected
              && t.toServer == if DidMount(events) then [Request(w.nextRef, w.client.last)] else []
  {
    WantedSinceMount(Start(head), events);
  }

  /** Over every run of client, server and channel the saved offset is exactly the
      greatest number that counts. */
  lemma RunOffsetIsGreatest(head: nat, events: seq<Event>)
    ensures var w, log := Run(Start(head), events), AllInputs(Start(head), events);
            IsGreatest(log, w.client.last) && PendingOk(log, w.client.pending)
  {
    RunTracks(Start(head), events, []);
    assert [] + AllInputs(Start(head), events) == AllInputs(Start(head), events);
    OffsetIsGreatest(AllInputs(Start(head), events));
  }
}
