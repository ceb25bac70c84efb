/** What the recovery protocol gets done: a gap-fill that is let run is sent and
    read to its end and leaves the recovery complete, and a retry asks again. */
module RecoveryProgress {
  import opened Options
  import opened RecoverySpec

  /** The rest of a gap-fill and its answer. */
  function Rest(next: nat, upTo: nat, ref: nat, inline: bool): seq<Frame>
    decreases upTo + 1 - next
  {
    if next > upTo then [Ack(ref)]
    else [if inline then Live(next) else Replay(next)] + Rest(next + 1, upTo, ref, inline)
  }

  lemma {:induction false} RestIsGapAndAnswer(next: nat, upTo: nat, ref: nat, inline: bool)
    requires next <= upTo + 1
    ensures var rest, n := Rest(next, upTo, ref, inline), upTo + 1 - next;
            && |rest| == n + 1 && rest[n] == Ack(ref)
            && forall i :: 0 <= i < n ==> rest[i] == if inline then Live(next + i) else Replay(next + i)
    decreases upTo + 1 - next
  {
    if next <= upTo { RestIsGapAndAnswer(next + 1, upTo, ref, inline); }
  }

  function Again(e: Event, n: nat): seq<Event> { if n == 0 then [] else [e] + Again(e, n - 1) }

  lemma RunMore(w: World, e: Event, n: nat)
    requires n > 0
    ensures Run(w, Again(e, n)) == Run(Step(w, e), Again(e, n - 1))
  {
    assert Again(e, n)[1..] == Again(e, n - 1);
  }

  lemma RunNone(w: World, e: Event)
    ensures Run(w, Again(e, 0)) == w
  {
  }

  /** What a gap-fill leaves alone. */
  ghost predicate Filling(w: World, t: World)
  {
    t.client == w.client && t.settled == w.settled && t.enrolled == w.enrolled && t.head == w.head
  }

  lemma OneSent(w: World, inline: bool)
    requires w.replaying.Some? && w.replaying.value.next <= w.replaying.value.upTo
    ensures var r, t := w.replaying.value, Step(w, ServerReplays(inline));
            && Filling(w, t) && t.replaying == Some(r.(next := r.next + 1))
            && t.toClient == w.toClient + [if inline then Live(r.next) else Replay(r.next)]
  {
  }

  lemma AnswerSent(w: World, inline: bool)
    requires w.replaying.Some? && w.replaying.value.next > w.replaying.value.upTo
    ensures var r, t := w.replaying.value, Step(w, ServerReplays(inline));
            && Filling(w, t) && t.replaying.None? && r.ref in t.answered && t.toClient == w.toClient + [Ack(r.ref)]
  {
  }

  lemma RestMore(sent: seq<Frame>, next: nat, upTo: nat, ref: nat, inline: bool)
    requires next <= upTo
    ensures sent + [if inline then Live(next) else Replay(next)] + Rest(next + 1, upTo, ref, inline)
              == sent + Rest(next, upTo, ref, inline)
  {
  }

  /** Once it has been let run, a gap-fill has sent every event from the one after
      the offset up to the head it started from, in order, and then its answer. */
  lemma {:induction false} GapFillIsSent(w: World, inline: bool)
    requires w.replaying.Some? && w.replaying.value.next <= w.replaying.value.upTo + 1
    ensures var r := w.replaying.value;
            var t := Run(w, Again(ServerReplays(inline), r.upTo + 2 - r.next));
            && Filling(w, t) && t.replaying.None? && r.ref in t.answered
            && t.toClient == w.toClient + Rest(r.next, r.upTo, r.ref, inline)
    decreases w.replaying.value.upTo + 1 - w.replaying.value.next
  {
    var r, e := w.replaying.value, ServerReplays(inline);
    RunMore(w, e, r.upTo + 2 - r.next);
    if r.next <= r.upTo {
      OneSent(w, inline);
      GapFillIsSent(Step(w, e), inline);
      RestMore(w.toClient, r.next, r.upTo, r.ref, inline);
    } else {
      AnswerSent(w, inline);
      RunNone(Step(w, e), e);
    }
  }

  /** An accepted recovery is filled from the event after the offset it presents. */
  lemma AcceptedIsFilled(w: World)
    requires w.toServer != [] && w.replaying.None? && w.toServer[0].offset.Some?
    ensures var r, t := w.toServer[0], Step(w, ServerAccepts);
            && t.replaying == Some(Replaying(r.ref, r.offset.value + 1, w.head)) && t.enrolled
            && t.toServer == w.toServer[1..] && t.toClient == w.toClient && t.client == w.client
            && t.settled == w.settled && t.head == w.head
  {
  }

  /** A rate-limited topic is asked for again with the offset held when the retry
      was prepared. */
  lemma RetryAsks(w: World)
    requires w.connected && w.wanted
    ensures var t := Step(Step(w, CaptureRetry), SendRetry);
            t.toServer == w.toServer + [Request(w.nextRef, w.client.last)] && t.nextRef == w.nextRef + 1 && t.retry.None?
  {
  }

  // ---------------------------------------------------------------------
  // A recovery from beginning to end

  /** next, ..., upTo */
  function Between(next: nat, upTo: nat): set<nat>
    requires next > 0
  {
    UpTo(upTo) - UpTo(next - 1)
  }

  /** The highest event held back once everything before `next` was read. */
  function Held(offset: nat, next: nat, inline: bool): Option<nat>
  {
    if inline && next > offset + 1 then Some(next - 1) else None
  }

  /** What reading leaves alone. */
  ghost predicate Reading(w: World, t: World)
  {
    t.replaying == w.replaying && t.enrolled == w.enrolled && t.head == w.head
  }

  lemma BetweenMore(settled: set<nat>, next: nat, upTo: nat)
    requires 0 < next <= upTo
    ensures settled + {next} + Between(next + 1, upTo) == settled + Between(next, upTo)
  {
  }

  lemma BetweenNone(settled: set<nat>, upTo: nat)
    ensures settled + Between(upTo + 1, upTo) == settled
  {
  }

  lemma OneRead(w: World, offset: nat, next: nat, upTo: nat, ref: nat, inline: bool)
    requires offset < next <= upTo && w.toClient == Rest(next, upTo, ref, inline)
    requires w.client == Tracker(Some(offset), Some(Pending(ref, Held(offset, next, inline))))
    ensures var t := Step(w, Receive);
            && t.toClient == Rest(next + 1, upTo, ref, inline) && t.settled == w.settled + {next}
            && t.client == Tracker(Some(offset), Some(Pending(ref, Held(offset, next + 1, inline))))
            && Reading(w, t)
  {
  }

  lemma AnswerRead(w: World, offset: nat, next: nat, ref: nat, inline: bool)
    requires offset < next && w.toClient == [Ack(ref)]
    requires w.client == Tracker(Some(offset), Some(Pending(ref, Held(offset, next, inline))))
    ensures var t := Step(w, Receive);
            && t.toClient == [] && t.settled == w.settled
            && t.client == Tracker(Some(if inline then next - 1 else offset), None)
            && Reading(w, t)
  {
    assert w.settled + Carried(Ack(ref)) == w.settled;
  }

  /** The client reads a gap-fill to its answer. */
  lemma {:induction false} RestIsRead(w: World, offset: nat, next: nat, upTo: nat, ref: nat, inline: bool)
    requires offset < next <= upTo + 1 && w.toClient == Rest(next, upTo, ref, inline)
    requires w.client == Tracker(Some(offset), Some(Pending(ref, Held(offset, next, inline))))
    ensures var t := Run(w, Again(Receive, upTo + 2 - next));
            && t.toClient == [] && t.settled == w.settled + Between(next, upTo)
            && t.client == Tracker(Some(if inline then upTo else offset), None)
            && Reading(w, t)
    decreases upTo + 1 - next
  {
    RunMore(w, Receive, upTo + 2 - next);
    if next <= upTo {
      OneRead(w, offset, next, upTo, ref, inline);
      RestIsRead(Step(w, Receive), offset, next + 1, upTo, ref, inline);
      BetweenMore(w.settled, next, upTo);
    } else {
      AnswerRead(w, offset, next, ref, inline);
      RunNone(Step(w, Receive), Receive);
      BetweenNone(w.settled, upTo);
    }
  }

  lemma NothingBefore(frames: seq<Frame>)
    ensures [] + frames == frames
  {
  }

  /** An accepted request brings the whole gap and its answer. */
  lemma GapArrives(w: World, ref: nat, offset: nat, inline: bool)
    requires offset <= w.head && w.toServer == [Request(ref, Some(offset))] && w.toClient == [] && w.replaying.None?
    ensures var t := Run(Step(w, ServerAccepts), Again(ServerReplays(inline), w.head + 1 - offset));
            && t.toClient == Rest(offset + 1, w.head, ref, inline) && t.client == w.client && t.settled == w.settled
            && t.enrolled && t.replaying.None? && t.head == w.head
  {
    AcceptedIsFilled(w);
    GapFillIsSent(Step(w, ServerAccepts), inline);
    NothingBefore(Rest(offset + 1, w.head, ref, inline));
  }

  /** A recovery that is accepted, filled and read is complete: every event after
      the offset presented is settled, nothing is held back or outstanding, and
      the offset has moved on when the gap came as events of the topic. */
  lemma RecoveryCompletes(w: World, ref: nat, offset: nat, inline: bool)
    requires w.client == Tracker(Some(offset), Some(Pending(ref, None))) && offset <= w.head
    requires w.toServer == [Request(ref, Some(offset))] && w.toClient == [] && w.replaying.None?
    ensures var n := w.head + 1 - offset;
            var t := Run(Run(Step(w, ServerAccepts), Again(ServerReplays(inline), n)), Again(Receive, n));
            && t.client == Tracker(Some(if inline then w.head else offset), None)
            && t.settled == w.settled + Between(offset + 1, w.head)
            && t.enrolled && t.toClient == [] && t.replaying.None? && t.head == w.head
  {
    GapArrives(w, ref, offset, inline);
    var filled := Run(Step(w, ServerAccepts), Again(ServerReplays(inline), w.head + 1 - offset));
    RestIsRead(filled, offset, offset + 1, w.head, ref, inline);
  }
}
