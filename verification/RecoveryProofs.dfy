/** The saved offset is safe under every interleaving of live events, gap-fills,
    markers, stale answers, denials, retries and reconnects. */
module RecoveryProofs {
  import opened Options
  import opened RecoverySpec

  /** Every sequence number up to `k` is settled. */
  ghost predicate Covered(settled: set<nat>, k: nat)
  {
    forall n: nat :: 1 <= n <= k ==> n in settled
  }

  /** What will be settled once the first `i` frames have been read. */
  ghost predicate Known(settled: set<nat>, frames: seq<Frame>, i: nat, n: nat)
    requires i <= |frames|
  {
    n in settled || exists j: nat :: j < i && n in Carried(frames[j])
  }

  ghost predicate KnownUpTo(settled: set<nat>, frames: seq<Frame>, i: nat, k: int)
    requires i <= |frames|
  {
    forall n: nat :: 1 <= n <= k ==> Known(settled, frames, i, n)
  }

  predicate Answers(f: Frame, ref: nat) { f == Ack(ref) || f == Denied(ref) }

  ghost predicate Unanswered(frames: seq<Frame>, i: nat, ref: nat)
    requires i <= |frames|
  {
    forall j: nat :: j < i ==> !Answers(frames[j], ref)
  }

  /** The offset itself. */
  ghost predicate OffsetsOk(w: World)
  {
    && (w.client.last.Some? ==> Covered(w.settled, w.client.last.value))
    && (w.client.pending.Some? ==> w.asked.Some? && (w.client.last.None? || w.client.last == w.asked))
    && (forall i: nat :: i < |w.toServer| && w.toServer[i].offset.Some? ==> Covered(w.settled, w.toServer[i].offset.value))
    && (w.retry.Some? && w.retry.value.offset.Some? ==> Covered(w.settled, w.retry.value.offset.value))
  }

  /** Refs are told apart, and recoveries are numbered in the order they are
      sent and answered; a plain subscribe may come between any two. */
  ghost predicate OrderOk(w: World)
  {
    && (forall i: nat, j: nat :: i < j < |w.toServer| ==>
          && w.toServer[i].ref != w.toServer[j].ref
          && (w.toServer[i].offset.Some? && w.toServer[j].offset.Some? ==> w.toServer[i].ref < w.toServer[j].ref))
    && (forall i: nat :: i < |w.toServer| ==>
          && w.toServer[i].ref < w.nextRef && w.toServer[i].ref !in w.answered
          && (w.toServer[i].offset.None? && w.client.pending.Some? ==> w.toServer[i].ref != w.client.pending.value.ref))
    && (w.client.pending.Some? ==> w.client.pending.value.ref < w.nextRef)
    && (forall a :: a in w.answered ==> a < w.nextRef)
    && (forall f :: f in w.toClient && (f.Ack? || f.Denied?) ==> f.ref in w.answered)
  }

  ghost predicate RetryOk(w: World)
  {
    w.retry.Some? ==>
      && w.retry.value.ref < w.nextRef && w.retry.value.ref !in w.answered
      && (w.replaying.Some? ==> w.replaying.value.ref < w.retry.value.ref)
      && (w.client.pending.Some? ==> w.client.pending.value.ref < w.retry.value.ref)
      && (forall i: nat :: i < |w.toServer| ==>
            && w.toServer[i].ref != w.retry.value.ref
            && (w.toServer[i].offset.Some? ==> w.toServer[i].ref < w.retry.value.ref))
  }

  ghost predicate ReplayOk(w: World)
  {
    w.replaying.Some? ==>
      && w.replaying.value.ref < w.nextRef && w.replaying.value.ref !in w.answered
      && w.replaying.value.upTo <= w.head
      && (forall i: nat :: i < |w.toServer| ==>
            && w.toServer[i].ref != w.replaying.value.ref
            && (w.toServer[i].offset.Some? ==> w.replaying.value.ref < w.toServer[i].ref))
  }

  /** A recovery the server has not answered is one the client still waits for. */
  ghost predicate WaitsOk(w: World)
  {
    && (forall i: nat :: i < |w.toServer| && w.toServer[i].offset.Some? ==>
          w.client.pending.Some? && w.toServer[i].ref <= w.client.pending.value.ref
          && w.client.pending.value.ref !in w.answered)
    && (w.replaying.Some? ==>
          w.client.pending.Some? && w.replaying.value.ref <= w.client.pending.value.ref
          && w.client.pending.value.ref !in w.answered)
  }

  /** A live event is read either with everything before it settled, or while a
      recovery is outstanding. */
  ghost predicate LiveOk(w: World)
  {
    forall i: nat :: i < |w.toClient| && w.toClient[i].Live? ==>
      && w.toClient[i].seqNo <= w.head
      && (KnownUpTo(w.settled, w.toClient, i, w.toClient[i].seqNo - 1)
          || (w.client.pending.Some? && Unanswered(w.toClient, i, w.client.pending.value.ref)))
  }

  /** When the awaited acknowledgement is read, everything held back by then is settled. */
  ghost predicate AckOk(w: World)
  {
    && (w.client.pending.Some? && w.client.pending.value.highest.Some? ==> w.client.pending.value.highest.value <= w.head)
    && (w.client.pending.Some? ==> forall i: nat :: i < |w.toClient| && w.toClient[i] == Ack(w.client.pending.value.ref) ==>
          && (w.client.pending.value.highest.Some? ==>
                KnownUpTo(w.settled, w.toClient, i, w.client.pending.value.highest.value))
          && (forall j: nat :: j < i && w.toClient[j].Live? ==> KnownUpTo(w.settled, w.toClient, i, w.toClient[j].seqNo)))
  }

  /** What an enrolled client has been or will be told. */
  ghost predicate StreamOk(w: World)
  {
    w.enrolled ==> forall n: nat :: 1 <= n <= w.head ==>
      Known(w.settled, w.toClient, |w.toClient|, n)
      || (w.replaying.Some? && w.replaying.value.next <= n <= w.replaying.value.upTo)
  }

  /** Before enrolment only answers arrive, so nothing moves the offset. */
  ghost predicate ColdOk(w: World)
  {
    && (!w.connected ==>
          !w.enrolled && w.toServer == [] && w.toClient == [] && w.retry.None? && w.answered == {})
    && (!w.enrolled ==>
          && w.replaying.None?
          && (forall f :: f in w.toClient ==> f.Ack? || f.Denied?)
          && (w.connected && w.client.pending.Some? ==> w.client.pending.value.highest.None?))
  }

  /** Offsets, refs and who waits for what. */
  ghost predicate Orderly(w: World)
  {
    OffsetsOk(w) && OrderOk(w) && RetryOk(w) && ReplayOk(w) && WaitsOk(w) && ColdOk(w)
  }

  /** What the stream brings. */
  ghost predicate Flowing(w: World) { LiveOk(w) && AckOk(w) && StreamOk(w) }

  ghost predicate Inv(w: World) { Orderly(w) && Flowing(w) }

  // ---------------------------------------------------------------------
  // The channel

  lemma Appending(settled: set<nat>, frames: seq<Frame>, f: Frame)
    ensures forall i: nat, n: nat :: i <= |frames| && Known(settled, frames, i, n) ==> Known(settled, frames + [f], i, n)
    ensures forall n: nat {:trigger Known(settled, frames + [f], |frames + [f]|, n)} ::
              Known(settled, frames, |frames|, n) || n in Carried(f) ==> Known(settled, frames + [f], |frames + [f]|, n)
  {
    var longer := frames + [f];
    assert longer[|frames|] == f;
    forall i: nat, n: nat | i <= |frames| && Known(settled, frames, i, n)
      ensures Known(settled, longer, i, n) && Known(settled, longer, |longer|, n)
    {
      if n !in settled {
        var j: nat :| j < i && n in Carried(frames[j]);
        assert longer[j] == frames[j];
      }
    }
  }

  lemma Popping(settled: set<nat>, frames: seq<Frame>, i: nat, k: int)
    requires 0 < i <= |frames| && KnownUpTo(settled, frames, i, k)
    ensures KnownUpTo(settled + Carried(frames[0]), frames[1..], i - 1, k)
  {
    var more, rest, at := settled + Carried(frames[0]), frames[1..], i - 1;
    forall n: nat | 1 <= n <= k
      ensures Known(more, rest, at, n)
    {
      assert Known(settled, frames, i, n);
      if n !in more {
        var j: nat :| j < i && n in Carried(frames[j]);
        assert rest[j - 1] == frames[j];
      }
    }
  }

  lemma StartIsInv(head: nat)
    ensures Inv(Start(head))
  {
  }

  lemma ConnectKeeps(w: World)
    requires Inv(w)
    ensures Inv(Step(w, Connect))
  {
  }

  lemma DisconnectKeeps(w: World)
    requires Inv(w)
    ensures Inv(Step(w, Disconnect))
  {
  }

  lemma CaptureKeeps(w: World)
    requires Inv(w)
    ensures Inv(Step(w, CaptureRetry))
  {
  }

  /** A plain subscribe changes nothing the client keeps. */
  lemma SendPlainKeeps(w: World)
    requires Inv(w) && w.connected
    ensures Inv(SendPlain(w))
  {
    assert Orderly(SendPlain(w));
  }

  /** Neither the wish nor what waits for a permit is part of the invariant. */
  lemma WishKeeps(w: World, wanted: bool, waiting: nat)
    requires Inv(w)
    ensures Inv(w.(wanted := wanted, waiting := waiting))
  {
  }

  lemma MountKeeps(w: World, permit: bool)
    requires Inv(w)
    ensures Inv(Mounted(w, permit))
  {
    if !w.wanted {
      WishKeeps(w, true, w.waiting);
      WishKeeps(w, true, w.waiting + 1);
      if w.connected && permit { SendPlainKeeps(w.(wanted := true, waiting := w.waiting)); }
    }
  }

  lemma DrainKeeps(w: World)
    requires Inv(w) && w.connected && w.waiting > 0
    ensures Inv(SendPlain(w.(waiting := w.waiting - 1)))
  {
    WishKeeps(w, w.wanted, w.waiting - 1);
    SendPlainKeeps(w.(wanted := w.wanted, waiting := w.waiting - 1));
  }

  /** The state once the retry has left. */
  function Retried(w: World): World
    requires w.retry.Some?
  {
    Send(w.(retry := None), w.retry.value)
  }

  lemma SendRetryKeeps(w: World)
    requires Inv(w) && w.retry.Some?
    ensures Inv(Retried(w))
  {
    SendRetryKeepsOffsets(w);
    SendRetryKeepsOrder(w);
    SendRetryKeepsStream(w);
  }

  lemma SendRetryKeepsOffsets(w: World)
    requires Inv(w) && w.retry.Some?
    ensures var t := Retried(w); OffsetsOk(t) && WaitsOk(t) && ColdOk(t)
  {
  }

  lemma SendRetryKeepsOrder(w: World)
    requires Inv(w) && w.retry.Some?
    ensures var t := Retried(w); OrderOk(t) && RetryOk(t) && ReplayOk(t)
  {
  }

  lemma SendRetryKeepsStream(w: World)
    requires Inv(w) && w.retry.Some?
    ensures Flowing(Retried(w))
  {
    if w.retry.value.offset.Some? {
      assert forall f :: f in w.toClient ==> !Answers(f, w.retry.value.ref);
    }
  }

  lemma PublishKeeps(w: World)
    requires Inv(w)
    ensures Inv(Step(w, Publish))
  {
    PublishKeepsOrder(w);
    if w.enrolled {
      PublishReachesStream(w);
      PublishKeepsLives(w);
      PublishKeepsAcks(w);
    }
  }

  lemma PublishKeepsOrder(w: World)
    requires Inv(w)
    ensures Orderly(Step(w, Publish))
  {
    var t := Step(w, Publish);
    assert forall f :: f in t.toClient && (f.Ack? || f.Denied?) ==> f in w.toClient;
  }

  lemma PublishKeepsLives(w: World)
    requires Inv(w) && w.enrolled
    ensures LiveOk(Step(w, Publish))
  {
    var t := Step(w, Publish);
    Appending(w.settled, w.toClient, Live(w.head + 1));
    forall i: nat | i < |t.toClient| && t.toClient[i].Live?
      ensures t.toClient[i].seqNo <= t.head
      ensures KnownUpTo(t.settled, t.toClient, i, t.toClient[i].seqNo - 1)
              || (t.client.pending.Some? && Unanswered(t.toClient, i, t.client.pending.value.ref))
    {
      if i < |w.toClient| {
        assert t.toClient[i] == w.toClient[i];
        if KnownUpTo(w.settled, w.toClient, i, w.toClient[i].seqNo - 1) {
          Lengthening(w.settled, w.toClient, Live(w.head + 1), i, w.toClient[i].seqNo - 1);
        }
      } else if w.replaying.None? {
        StreamCovers(w, w.head);
        Lengthening(w.settled, w.toClient, Live(w.head + 1), i, w.head);
      } else {
        assert forall f :: f in w.toClient ==> !Answers(f, w.client.pending.value.ref);
      }
    }
  }

  lemma PublishKeepsAcks(w: World)
    requires Inv(w) && w.enrolled
    ensures AckOk(Step(w, Publish))
  {
    var t := Step(w, Publish);
    if t.client.pending.Some? {
      var p := t.client.pending.value;
      forall i: nat | i < |t.toClient| && t.toClient[i] == Ack(p.ref)
        ensures p.highest.Some? ==> KnownUpTo(t.settled, t.toClient, i, p.highest.value)
        ensures forall j: nat :: j < i && t.toClient[j].Live? ==> KnownUpTo(t.settled, t.toClient, i, t.toClient[j].seqNo)
      {
        assert w.toClient[i] == Ack(p.ref);
        if p.highest.Some? { Lengthening(w.settled, w.toClient, Live(w.head + 1), i, p.highest.value); }
        forall j: nat | j < i && t.toClient[j].Live?
          ensures KnownUpTo(t.settled, t.toClient, i, t.toClient[j].seqNo)
        {
          assert t.toClient[j] == w.toClient[j];
          Lengthening(w.settled, w.toClient, Live(w.head + 1), i, w.toClient[j].seqNo);
        }
      }
    }
  }

  lemma PublishReachesStream(w: World)
    requires Inv(w) && w.enrolled
    ensures StreamOk(Step(w, Publish))
  {
    Appending(w.settled, w.toClient, Live(w.head + 1));
  }

  lemma AcceptKeeps(w: World)
    requires Inv(w) && !Overlooks(w)
    ensures Inv(Step(w, ServerAccepts))
  {
    if w.toServer != [] && w.replaying.None? {
      if w.toServer[0].offset.Some? {
        AcceptRecoveryKeeps(w);
      } else {
        AcceptPlainKeepsClient(w);
        AcceptPlainKeepsStream(w);
      }
    }
  }

  lemma AcceptRecoveryKeeps(w: World)
    requires Inv(w) && w.toServer != [] && w.replaying.None? && w.toServer[0].offset.Some?
    ensures Inv(Accepted(w))
  {
    assert Covered(w.settled, w.toServer[0].offset.value);
  }

  lemma AcceptPlainKeepsClient(w: World)
    requires Inv(w) && w.toServer != [] && w.replaying.None? && w.toServer[0].offset.None?
    ensures Orderly(Accepted(w))
  {
  }

  lemma AcceptPlainKeepsStream(w: World)
    requires Inv(w) && w.toServer != [] && w.replaying.None? && w.toServer[0].offset.None? && !Overlooks(w)
    ensures Flowing(Accepted(w))
  {
    var t := Accepted(w);
    Appending(w.settled, w.toClient, Ack(w.toServer[0].ref));
    forall i: nat, n: nat | i <= |w.toClient| && Known(w.settled, w.toClient, i, n)
      ensures Known(t.settled, t.toClient, i, n)
    {
      assert Known(w.settled, t.toClient, i, n);
    }
    forall n: nat | 1 <= n <= w.head ensures Known(t.settled, t.toClient, |t.toClient|, n) {
      if w.enrolled {
        assert Known(w.settled, w.toClient, |w.toClient|, n);
        assert Known(w.settled, t.toClient, |t.toClient|, n);
      }
    }
  }

  /** The accept leaves an event behind exactly when it overlooks one. */
  lemma HoleExactly(w: World)
    requires Inv(w)
    ensures !StreamOk(Accepted(w)) <==> Overlooks(w)
  {
    if Overlooks(w) {
      var n: nat :| 1 <= n <= w.head && n !in w.settled;
      var t := Accepted(w);
      forall j: nat | j < |t.toClient| ensures n !in Carried(t.toClient[j]) {
        if j < |w.toClient| { assert w.toClient[j] in w.toClient; }
      }
      assert !Known(t.settled, t.toClient, |t.toClient|, n);
    } else {
      AcceptKeeps(w);
    }
  }

  lemma DenyKeeps(w: World)
    requires Inv(w)
    ensures Inv(Step(w, ServerDenies))
  {
    DenyKeepsClient(w);
    DenyKeepsStream(w);
  }

  lemma DenyKeepsClient(w: World)
    requires Inv(w)
    ensures Orderly(DeniedBy(w))
  {
  }

  lemma DenyKeepsStream(w: World)
    requires Inv(w)
    ensures Flowing(DeniedBy(w))
  {
    if w.toServer != [] { Appending(w.settled, w.toClient, Denied(w.toServer[0].ref)); }
  }

  lemma ReplayKeeps(w: World, inline: bool)
    requires Inv(w)
    ensures Inv(Step(w, ServerReplays(inline)))
  {
    if w.replaying.Some? {
      if w.replaying.value.next > w.replaying.value.upTo {
        ReplayEndKeeps(w, inline);
      } else if inline {
        ReplayInlineKeeps(w);
      } else {
        ReplayAsideKeeps(w);
      }
    }
  }

  lemma ReplayEndKeeps(w: World, inline: bool)
    requires Inv(w) && w.replaying.Some? && w.replaying.value.next > w.replaying.value.upTo
    ensures Inv(Replayed(w, inline))
  {
    ReplayEndKeepsOrder(w, inline);
    ReplayEndKeepsStream(w, inline);
  }

  lemma ReplayEndKeepsOrder(w: World, inline: bool)
    requires Inv(w) && w.replaying.Some? && w.replaying.value.next > w.replaying.value.upTo
    ensures Orderly(Replayed(w, inline))
  {
  }

  lemma ReplayEndKeepsStream(w: World, inline: bool)
    requires Inv(w) && w.replaying.Some? && w.replaying.value.next > w.replaying.value.upTo
    ensures Flowing(Replayed(w, inline))
  {
    Appending(w.settled, w.toClient, Ack(w.replaying.value.ref));
  }

  lemma ReplayAsideKeeps(w: World)
    requires Inv(w) && w.replaying.Some? && w.replaying.value.next <= w.replaying.value.upTo
    ensures Inv(Replayed(w, false))
  {
    Appending(w.settled, w.toClient, Replay(w.replaying.value.next));
  }

  /** An event of the gap-fill comes after everything before it. */
  lemma ReplayInlineKeeps(w: World)
    requires Inv(w) && w.replaying.Some? && w.replaying.value.next <= w.replaying.value.upTo
    ensures Inv(Replayed(w, true))
  {
    var r := w.replaying.value;
    Appending(w.settled, w.toClient, Live(r.next));
    forall n: nat | 1 <= n <= r.next - 1 ensures Known(w.settled, w.toClient, |w.toClient|, n) {}
    Lengthening(w.settled, w.toClient, Live(r.next), |w.toClient|, r.next - 1);
  }

  lemma MarkKeeps(w: World, upTo: nat)
    requires Inv(w)
    ensures Inv(Step(w, ServerMarks(upTo)))
  {
    MarkKeepsOrder(w, upTo);
    MarkKeepsStream(w, upTo);
  }

  lemma MarkKeepsOrder(w: World, upTo: nat)
    requires Inv(w)
    ensures Orderly(Marked(w, upTo))
  {
  }

  lemma MarkKeepsStream(w: World, upTo: nat)
    requires Inv(w)
    ensures Flowing(Marked(w, upTo))
  {
    Appending(w.settled, w.toClient, Marker(upTo));
  }

  lemma RepeatKeeps(w: World, ref: nat, accepted: bool)
    requires Inv(w)
    ensures Inv(Step(w, ServerRepeats(ref, accepted)))
  {
    var t := Repeated(w, ref, accepted);
    if t != w {
      RepeatKeepsStream(w, ref, accepted);
      RepeatKeepsAcks(w, ref, accepted);
      RepeatKeepsOrder(w, ref, accepted);
    }
  }

  lemma RepeatKeepsOrder(w: World, ref: nat, accepted: bool)
    requires Inv(w)
    ensures Orderly(Repeated(w, ref, accepted))
  {
  }

  lemma RepeatKeepsStream(w: World, ref: nat, accepted: bool)
    requires Inv(w)
    ensures var t := Repeated(w, ref, accepted); LiveOk(t) && StreamOk(t)
  {
    var f := if accepted then Ack(ref) else Denied(ref);
    var t := Repeated(w, ref, accepted);
    if t != w {
      Appending(w.settled, w.toClient, f);
      forall i: nat | i < |t.toClient| && t.toClient[i].Live?
        ensures t.toClient[i].seqNo <= t.head
        ensures KnownUpTo(t.settled, t.toClient, i, t.toClient[i].seqNo - 1)
                || (t.client.pending.Some? && Unanswered(t.toClient, i, t.client.pending.value.ref))
      {
        assert t.toClient[i] == w.toClient[i];
        if KnownUpTo(w.settled, w.toClient, i, w.toClient[i].seqNo - 1) {
          Lengthening(w.settled, w.toClient, f, i, w.toClient[i].seqNo - 1);
        }
      }
    }
  }

  lemma Lengthening(settled: set<nat>, frames: seq<Frame>, f: Frame, i: nat, k: int)
    requires i <= |frames| && KnownUpTo(settled, frames, i, k)
    ensures KnownUpTo(settled, frames + [f], i, k)
  {
    Appending(settled, frames, f);
    forall n: nat | 1 <= n <= k ensures Known(settled, frames + [f], i, n) { assert Known(settled, frames, i, n); }
  }

  /** When nothing is being replayed, everything published is on its way. */
  lemma StreamCovers(w: World, k: int)
    requires StreamOk(w) && w.enrolled && w.replaying.None? && k <= w.head
    ensures KnownUpTo(w.settled, w.toClient, |w.toClient|, k)
  {
  }

  lemma RepeatKeepsAcks(w: World, ref: nat, accepted: bool)
    requires Inv(w)
    ensures AckOk(Repeated(w, ref, accepted))
  {
    var f := if accepted then Ack(ref) else Denied(ref);
    var t := Repeated(w, ref, accepted);
    if t != w && t.client.pending.Some? {
      var p := t.client.pending.value;
      forall i: nat | i < |t.toClient| && t.toClient[i] == Ack(p.ref)
        ensures p.highest.Some? ==> KnownUpTo(t.settled, t.toClient, i, p.highest.value)
        ensures forall j: nat :: j < i && t.toClient[j].Live? ==> KnownUpTo(t.settled, t.toClient, i, t.toClient[j].seqNo)
      {
        if p.highest.Some? { RepeatKeepsMark(w, f, p.ref, i, p.highest.value); }
        forall j: nat | j < i && t.toClient[j].Live?
          ensures KnownUpTo(t.settled, t.toClient, i, t.toClient[j].seqNo)
        {
          assert t.toClient[j] == w.toClient[j];
          RepeatKeepsMark(w, f, p.ref, i, t.toClient[j].seqNo);
        }
      }
    }
  }

  /** A mark an acknowledgement has to cover stays covered. */
  lemma RepeatKeepsMark(w: World, f: Frame, ref: nat, i: nat, mark: nat)
    requires Inv(w) && w.client.pending.Some? && ref == w.client.pending.value.ref
    requires i <= |w.toClient| && (if i < |w.toClient| then w.toClient[i] == Ack(ref)
                                   else f == Ack(ref) && ref in w.answered)
    requires w.client.pending.value.highest == Some(mark)
             || exists j: nat :: j < i && w.toClient[j].Live? && w.toClient[j].seqNo == mark
    requires w.connected
    ensures KnownUpTo(w.settled, w.toClient + [f], i, mark)
  {
    if i == |w.toClient| {
      if w.client.pending.value.highest != Some(mark) {
        var j: nat :| j < i && w.toClient[j].Live? && w.toClient[j].seqNo == mark;
        assert w.toClient[j] in w.toClient;
      }
      assert w.enrolled && mark <= w.head;
      StreamCovers(w, mark);
    }
    Lengthening(w.settled, w.toClient, f, i, mark);
  }

  lemma ReceiveKeeps(w: World)
    requires Inv(w)
    ensures Inv(Step(w, Receive))
  {
    if w.toClient != [] {
      ReceivedLives(w);
      ReceivedAcks(w);
      ReceivedStream(w);
      ReceivedOffsets(w);
      ReceivedOrder(w);
    }
  }

  lemma ReceivedOrder(w: World)
    requires Inv(w) && w.toClient != []
    ensures var t := Received(w); OrderOk(t) && RetryOk(t) && ReplayOk(t) && WaitsOk(t) && ColdOk(t)
  {
    var t := Received(w);
    assert w.toClient[0] in w.toClient;
    assert forall f :: f in t.toClient ==> f in w.toClient;
  }

  lemma ReceivedLives(w: World)
    requires Inv(w) && w.toClient != []
    ensures LiveOk(Received(w))
  {
    var t := Received(w);
    forall i: nat | i < |t.toClient| && t.toClient[i].Live?
      ensures t.toClient[i].seqNo <= t.head
      ensures KnownUpTo(t.settled, t.toClient, i, t.toClient[i].seqNo - 1)
              || (t.client.pending.Some? && Unanswered(t.toClient, i, t.client.pending.value.ref))
    {
      assert t.toClient[i] == w.toClient[i + 1];
      if KnownUpTo(w.settled, w.toClient, i + 1, t.toClient[i].seqNo - 1) {
        Popping(w.settled, w.toClient, i + 1, t.toClient[i].seqNo - 1);
      } else {
        var ref := w.client.pending.value.ref;
        assert !Answers(w.toClient[0], ref);
        forall j: nat | j < i ensures !Answers(t.toClient[j], ref) {
          assert t.toClient[j] == w.toClient[j + 1];
        }
      }
    }
  }

  lemma ReceivedAcks(w: World)
    requires Inv(w) && w.toClient != []
    ensures AckOk(Received(w))
  {
    var t := Received(w);
    if t.client.pending.Some? {
      var p := t.client.pending.value;
      forall i: nat | i < |t.toClient| && t.toClient[i] == Ack(p.ref)
        ensures p.highest.Some? ==> KnownUpTo(t.settled, t.toClient, i, p.highest.value)
        ensures forall j: nat :: j < i && t.toClient[j].Live? ==> KnownUpTo(t.settled, t.toClient, i, t.toClient[j].seqNo)
      {
        assert w.toClient[i + 1] == Ack(w.client.pending.value.ref);
        forall j: nat | j < i && t.toClient[j].Live?
          ensures KnownUpTo(t.settled, t.toClient, i, t.toClient[j].seqNo)
        {
          assert t.toClient[j] == w.toClient[j + 1];
          Popping(w.settled, w.toClient, i + 1, t.toClient[j].seqNo);
        }
        if p.highest.Some? {
          Popping(w.settled, w.toClient, i + 1, p.highest.value);
        }
      }
    }
  }

  lemma ReceivedStream(w: World)
    requires Inv(w) && w.toClient != []
    ensures StreamOk(Received(w))
  {
    var t := Received(w);
    if w.enrolled {
      forall n: nat | 1 <= n <= w.head && Known(w.settled, w.toClient, |w.toClient|, n)
        ensures Known(t.settled, t.toClient, |t.toClient|, n)
      {
        if n !in t.settled {
          var j: nat :| j < |w.toClient| && n in Carried(w.toClient[j]);
          assert t.toClient[j - 1] == w.toClient[j];
        }
      }
    }
  }

  lemma ReceivedOffsets(w: World)
    requires Inv(w) && w.toClient != []
    ensures OffsetsOk(Received(w))
  {
    var t := Received(w);
    match w.toClient[0]
    case Live(n) =>
      if w.client.pending.None? {
        assert w.toClient[0].seqNo == n && KnownUpTo(w.settled, w.toClient, 0, n - 1);
        forall k: nat | 1 <= k <= n ensures k in t.settled {
          assert k < n ==> Known(w.settled, w.toClient, 0, k);
        }
      }
    case Ack(ref) =>
      if w.client.pending.Some? && w.client.pending.value.ref == ref && w.client.pending.value.highest.Some? {
        var h := w.client.pending.value.highest.value;
        assert KnownUpTo(w.settled, w.toClient, 0, h);
        forall k: nat | 1 <= k <= h ensures k in t.settled {
          assert Known(w.settled, w.toClient, 0, k);
        }
      }
    case _ =>
  }

  // ---------------------------------------------------------------------
  // Main results

  lemma StepKeeps(w: World, e: Event)
    requires Inv(w) && !(e.ServerAccepts? && Overlooks(w))
    ensures Inv(Step(w, e))
  {
    match e
    case Connect => ConnectKeeps(w);
    case Disconnect => DisconnectKeeps(w);
    case Mount(permit) => MountKeeps(w, permit);
    case DrainPlain => if w.connected && w.waiting > 0 { DrainKeeps(w); }
    case CaptureRetry => CaptureKeeps(w);
    case SendRetry => if w.retry.Some? { SendRetryKeeps(w); }
    case Receive => ReceiveKeeps(w);
    case Publish => PublishKeeps(w);
    case ServerAccepts => AcceptKeeps(w);
    case ServerDenies => DenyKeeps(w);
    case ServerReplays(inline) => ReplayKeeps(w, inline);
    case ServerMarks(upTo) => MarkKeeps(w, upTo);
    case ServerRepeats(ref, accepted) => RepeatKeeps(w, ref, accepted);
  }

  lemma RunKeeps(w: World, events: seq<Event>)
    requires Inv(w) && Careful(w, events)
    ensures Inv(Run(w, events))
    decreases |events|
  {
    if events != [] {
      StepKeeps(w, events[0]);
      RunKeeps(Step(w, events[0]), events[1..]);
    }
  }

  /** Unless an accept overlooks an event, the saved offset never passes a
      sequence number that was neither dispatched nor given up, and while a
      recovery is unanswered it is the offset presented or was cleared by a
      marker. */
  lemma SavedOffsetIsSafe(head: nat, events: seq<Event>)
    requires Careful(Start(head), events)
    ensures var w := Run(Start(head), events);
            && (w.client.last.Some? ==> forall n: nat :: 1 <= n <= w.client.last.value ==> n in w.settled)
            && (w.client.pending.Some? ==> w.client.last.None? || w.client.last == w.asked)
  {
    StartIsInv(head);
    RunKeeps(Start(head), events);
  }

  /** In such a run nothing is lost in silence: once every frame is read and
      nothing is outstanding, an enrolled client has settled every event
      published. */
  lemma DrainedMeansSettled(head: nat, events: seq<Event>)
    requires Careful(Start(head), events)
    ensures var w := Run(Start(head), events);
            w.enrolled && w.toClient == [] && w.replaying.None? ==> forall n: nat :: 1 <= n <= w.head ==> n in w.settled
  {
    StartIsInv(head);
    RunKeeps(Start(head), events);
    var w := Run(Start(head), events);
    if w.enrolled && w.toClient == [] && w.replaying.None? {
      forall n: nat | 1 <= n <= w.head
        ensures n in w.settled
      {
        assert Known(w.settled, w.toClient, |w.toClient|, n);
      }
    }
  }

  /** At some point along the run the server streams to the client with an event
      neither settled nor on its way. */
  ghost predicate LeavesHole(w: World, events: seq<Event>)
  {
    exists k: nat :: k <= |events| && !StreamOk(Run(w, events[..k]))
  }

  /** A run leaves a hole in the stream exactly when one of its accepts overlooks
      an event. */
  lemma {:induction false} HolesExactly(w: World, events: seq<Event>)
    requires Inv(w)
    ensures LeavesHole(w, events) <==> !Careful(w, events)
    decreases |events|
  {
    assert events[..0] == [] && StreamOk(Run(w, events[..0]));
    if events != [] {
      var rest, next := events[1..], Step(w, events[0]);
      forall k: nat | k <= |rest| ensures Run(w, events[..k + 1]) == Run(next, rest[..k]) {
        assert events[..k + 1][1..] == rest[..k];
      }
      if events[0].ServerAccepts? && Overlooks(w) {
        HoleExactly(w);
        assert !StreamOk(Run(w, events[..1]));
      } else {
        StepKeeps(w, events[0]);
        HolesExactly(next, rest);
        if k: nat :| k <= |rest| && !StreamOk(Run(next, rest[..k])) { assert !StreamOk(Run(w, events[..k + 1])); }
        if k: nat :| k <= |events| && !StreamOk(Run(w, events[..k])) { assert !StreamOk(Run(next, rest[..k - 1])); }
      }
    }
  }

  /** The same from the start. */
  lemma SilentLossExactly(head: nat, events: seq<Event>)
    ensures LeavesHole(Start(head), events) <==> !Careful(Start(head), events)
  {
    StartIsInv(head);
    HolesExactly(Start(head), events);
  }
}
