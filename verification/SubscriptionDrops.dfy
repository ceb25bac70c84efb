/** What a full permit queue drops, exactly, and what asks for it again. */
module SubscriptionDrops {
  import opened Options
  import opened Partition
  import opened SubscriptionSpec
  import opened SubscriptionProofs

  // ---------------------------------------------------------------------
  // What a full queue drops

  /** Batch `i` is the last of the topic's, none of them found a permit, and this
      one found the queue full. */
  ghost predicate RefusedLast(s: Subs, batches: seq<seq<string>>, permits: seq<bool>, topic: string, i: nat)
    requires |permits| == |batches|
  {
    && i < |batches| && topic in batches[i]
    && (forall j :: i < j < |batches| ==> topic !in batches[j])
    && (forall j :: 0 <= j < |batches| && topic in batches[j] ==> !permits[j])
    && |OfferAll(s, batches[..i], permits[..i]).queue| >= MAX_QUEUED
  }

  lemma OffersKeepQueueFrom(s: Subs, batches: seq<seq<string>>, permits: seq<bool>, i: nat)
    requires |permits| == |batches| && i <= |batches|
    ensures |OfferAll(s, batches[..i], permits[..i]).queue| <= |OfferAll(s, batches, permits).queue|
    decreases |batches| - i
  {
    if i == |batches| {
      assert batches[..i] == batches && permits[..i] == permits;
    } else {
      assert batches[..i + 1][..i] == batches[..i] && permits[..i + 1][..i] == permits[..i];
      OffersKeepQueueFrom(s, batches, permits, i + 1);
    }
  }

  /** Offering one more batch, from how things stood before it. */
  lemma RefusedMore(s: Subs, batches: seq<seq<string>>, permits: seq<bool>, topic: string)
    requires |permits| == |batches| > 0
    requires var n := |batches| - 1; topic !in batches[n]
    ensures (exists i: nat :: RefusedLast(s, batches, permits, topic, i)) <==>
              var n := |batches| - 1; exists i: nat :: RefusedLast(s, batches[..n], permits[..n], topic, i)
  {
    var n := |batches| - 1;
    forall i: nat | i < n ensures RefusedLast(s, batches, permits, topic, i)
                                  == RefusedLast(s, batches[..n], permits[..n], topic, i)
    {
      assert batches[..n][..i] == batches[..i] && permits[..n][..i] == permits[..i];
      if RefusedLast(s, batches[..n], permits[..n], topic, i) {
        forall j | 0 <= j < |batches| && topic in batches[j] ensures j <= i && !permits[j] {
          assert batches[..n][j] == batches[j] && permits[..n][j] == permits[j];
        }
      }
    }
    if i: nat :| RefusedLast(s, batches, permits, topic, i) { assert i < n; }
  }

  lemma {:induction false} OffersDropExactly(s: Subs, batches: seq<seq<string>>, permits: seq<bool>, topic: string)
    requires |permits| == |batches| && topic in s.subscribed && topic !in s.managed
    requires topic !in s.dropped && topic !in s.member
    ensures var u := OfferAll(s, batches, permits);
            && (topic in u.member <==> exists j :: 0 <= j < |batches| && topic in batches[j] && permits[j])
            && (topic in u.dropped <==> exists i: nat :: RefusedLast(s, batches, permits, topic, i))
    decreases |batches|
  {
    if batches != [] {
      var n := |batches| - 1;
      var p := OfferAll(s, batches[..n], permits[..n]);
      OffersDropExactly(s, batches[..n], permits[..n], topic);
      OffersKeepQueue(s, batches[..n], permits[..n]);
      assert topic in p.member <==> exists j :: 0 <= j < n && topic in batches[j] && permits[j];
      if topic !in batches[n] {
        RefusedMore(s, batches, permits, topic);
      } else if permits[n] {
        assert topic in batches[n] && permits[n];
      } else if |p.queue| < MAX_QUEUED {
        if i: nat :| RefusedLast(s, batches[..n], permits[..n], topic, i) {
          OffersKeepQueueFrom(s, batches[..n], permits[..n], i);
        }
        assert forall i: nat :: RefusedLast(s, batches, permits, topic, i) ==> i == n;
      } else {
        if topic !in p.member { assert RefusedLast(s, batches, permits, topic, n); }
      }
    }
  }

  /** A topic becomes dropped exactly in a microtask on an open socket whose last
      batch with the topic finds 256 batches queued and no permit, none of the
      topic's batches having been sent. */
  lemma DroppedExactly(s: Subs, e: Event, topic: string)
    requires Inv(s) && topic !in s.dropped
    ensures topic in Step(s, e).dropped <==>
              && e.Microtask? && s.open && s.pending.Some?
              && topic in s.subscribed && topic !in s.managed && topic !in s.member
              && var batches := Batches(s.pending.value, e.quote);
                 exists i: nat :: RefusedLast(s.(pending := None), batches, seq(|batches|, e.permits), topic, i)
  {
    if e.Microtask? && s.open && s.pending.Some? {
      var cleared, batches := s.(pending := None), Batches(s.pending.value, e.quote);
      var permits := seq(|batches|, e.permits);
      OffersDropOnlyUnheld(cleared, batches, permits, topic);
      if topic in s.subscribed && topic !in s.managed && topic !in s.member {
        OffersDropExactly(cleared, batches, permits, topic);
      }
    }
  }

  lemma {:induction false} OffersDropOnlyUnheld(s: Subs, batches: seq<seq<string>>, permits: seq<bool>, topic: string)
    requires |permits| == |batches| && topic !in s.dropped
    ensures topic in OfferAll(s, batches, permits).dropped ==>
              topic in s.subscribed && topic !in s.managed && topic !in s.member
    decreases |batches|
  {
    if batches != [] {
      var n := |batches| - 1;
      OffersDropOnlyUnheld(s, batches[..n], permits[..n], topic);
      OffersKeepQueue(s, batches[..n], permits[..n]);
    }
  }

  // ---------------------------------------------------------------------
  // What asks for a dropped topic again

  /** An older batch that still holds the topic is let out. */
  ghost predicate OlderBatchLeaves(s: Subs, e: Event, topic: string)
  {
    e.PermitArrived? && s.queue != [] && topic in s.queue[0]
  }

  lemma {:induction false} OffersIgnoreOthers(s: Subs, batches: seq<seq<string>>, permits: seq<bool>, topic: string)
    requires |permits| == |batches| && forall i :: 0 <= i < |batches| ==> topic !in batches[i]
    ensures var u := OfferAll(s, batches, permits);
            (topic in u.member <==> topic in s.member) && (topic in u.dropped <==> topic in s.dropped)
    decreases |batches|
  {
    if batches != [] { OffersIgnoreOthers(s, batches[..|batches| - 1], permits[..|batches| - 1], topic); }
  }

  lemma {:induction false} FlattenedHolds(batches: seq<seq<string>>, i: nat, topic: string)
    requires i < |batches| && topic in batches[i]
    ensures topic in Flatten(batches)
    decreases |batches|
  {
    if i < |batches| - 1 { FlattenedHolds(batches[..|batches| - 1], i, topic); }
  }

  lemma MicrotaskIgnoresDropped(s: Subs, quote: string -> string, permits: int -> bool, topic: string)
    requires Inv(s) && s.open && topic in s.dropped
    ensures topic !in Flush(s, quote, permits).member && topic in Flush(s, quote, permits).dropped
  {
    if s.pending.Some? {
      var batch := s.pending.value;
      var batches := Batches(batch, quote);
      BatchesHoldAll(batch, quote);
      forall i | 0 <= i < |batches| ensures topic !in batches[i] {
        if topic in batches[i] { FlattenedHolds(batches, i, topic); }
      }
      OffersIgnoreOthers(s.(pending := None), batches, seq(|batches|, permits), topic);
    }
  }

  /** A dropped topic reaches the server in one step exactly when an older batch
      with it is let out or a socket opens; it stops being dropped exactly then,
      or when its last holder lets go. */
  lemma AskedAgainExactly(s: Subs, e: Event, topic: string)
    requires Inv(s) && s.open && Wanted(s, topic) && topic in s.dropped
    ensures topic in Step(s, e).member <==> e.SocketOpened? || OlderBatchLeaves(s, e, topic)
    ensures topic !in Step(s, e).dropped <==>
              || e.SocketOpened? || OlderBatchLeaves(s, e, topic)
              || (e == DidRelease(topic) && s.refs[topic] == 1) || e == DidUnsubscribe(topic)
  {
    if e.Microtask? { MicrotaskIgnoresDropped(s, e.quote, e.permits, topic); }
  }

  /** Letting go and subscribing again puts it in the next batch. */
  lemma ChurnAsksAgain(s: Subs, topic: string)
    requires Inv(s) && s.open && Wanted(s, topic) && topic in s.dropped
    ensures var u := Subscribe(Unsubscribe(s, topic), topic);
            topic !in u.dropped && u.pending.Some? && topic in u.pending.value && Wanted(u, topic)
  {
  }

  // ---------------------------------------------------------------------
  // A run that drops a wanted topic

  lemma {:induction false} RunMore(s: Subs, events: seq<Event>, more: seq<Event>)
    ensures Run(s, events + more) == Run(Run(s, events), more)
    decreases |events|
  {
    if events == [] {
      assert events + more == more;
    } else {
      RunMore(Step(s, events[0]), events[1..], more);
      assert (events + more)[1..] == events[1..] + more;
    }
  }

  /** A microtask that finds no permit. */
  function Starved(quote: string -> string): Event { Microtask(quote, (i: int) => false) }

  /** `n` topics come and go while no permit does. */
  function Churn(n: nat, quote: string -> string): seq<Event>
  {
    if n == 0 then [] else Churn(n - 1, quote) + [DidSubscribe("a"), Starved(quote), DidRelease("a")]
  }

  /** An open connection with nothing wanted and `n` batches queued. */
  function Queued(n: nat): Subs
  {
    Subs(map[], {}, {}, None, true, seq(n, i => ["a"]), {}, {})
  }

  lemma SubscribeStarved(n: nat, topic: string, quote: string -> string)
    requires !IsSystem(topic)
    ensures var s := Queued(n);
            Flush(Subscribe(s, topic), quote, (i: int) => false) ==
              s.(refs := map[topic := 1], subscribed := {topic},
                 queue := if n < MAX_QUEUED then s.queue + [[topic]] else s.queue,
                 dropped := if n < MAX_QUEUED then {} else {topic})
  {
    var s := Queued(n);
    var subscribed := Subscribe(s, topic);
    assert subscribed.refs == map[topic := 1] && subscribed.subscribed == {topic};
    assert subscribed.pending == Some([topic]) by { assert [] + [topic] == [topic]; }
    var permits := seq(1, (i: int) => false);
    var cleared := subscribed.(pending := None);
    assert OfferAll(cleared, [[topic]], permits) == Offer(cleared, [topic], false) by {
      assert [[topic]][..0] == [] && permits[..0] == [];
      assert OfferAll(cleared, [[topic]][..0], permits[..0]) == cleared;
    }
    assert Elements([topic]) == {topic};
    assert {} + (({topic} * {topic}) - {} - {}) == {topic};
  }

  lemma ChurnOnce(n: nat, quote: string -> string)
    requires n < MAX_QUEUED
    ensures Run(Queued(n), [DidSubscribe("a"), Starved(quote), DidRelease("a")]) == Queued(n + 1)
  {
    var s := Queued(n);
    var events := [DidSubscribe("a"), Starved(quote), DidRelease("a")];
    SubscribeStarved(n, "a", quote);
    var flushed := Flush(Subscribe(s, "a"), quote, (i: int) => false);
    assert flushed == Step(Step(s, events[0]), events[1]);
    assert Release(flushed, "a") == Queued(n + 1) by {
      assert flushed.refs - {"a"} == map[];
      assert s.queue + [["a"]] == Queued(n + 1).queue;
    }
    assert events[1..] == [Starved(quote), DidRelease("a")] && events[1..][1..] == [DidRelease("a")];
    assert Run(flushed, [DidRelease("a")]) == Run(Release(flushed, "a"), []);
    assert Run(Step(s, events[0]), [Starved(quote), DidRelease("a")]) == Run(flushed, [DidRelease("a")]);
  }

  lemma {:induction false} ChurnFills(n: nat, quote: string -> string)
    requires n <= MAX_QUEUED
    ensures Run(Queued(0), Churn(n, quote)) == Queued(n)
    decreases n
  {
    if n > 0 {
      ChurnFills(n - 1, quote);
      RunMore(Queued(0), Churn(n - 1, quote), [DidSubscribe("a"), Starved(quote), DidRelease("a")]);
      ChurnOnce(n - 1, quote);
    }
  }

  /** A queued subscribe can be lost while the socket stays open: after 256
      subscribes that found no permit, the next topic is wanted, dropped, and
      neither pending nor in any queued batch. */
  lemma FullQueueForgetsATopic(quote: string -> string)
    ensures var s := Run(Start({}), [SocketOpened] + Churn(256, quote) + [DidSubscribe("t"), Starved(quote)]);
            && s.open && Wanted(s, "t") && "t" in s.dropped && "t" !in s.member
            && s.pending.None? && forall i :: 0 <= i < |s.queue| ==> "t" !in s.queue[i]
  {
    RunMore(Start({}), [SocketOpened], Churn(256, quote));
    RunMore(Start({}), [SocketOpened] + Churn(256, quote), [DidSubscribe("t"), Starved(quote)]);
    assert Run(Start({}), [SocketOpened]) == Queued(0) by {
      assert Queued(0).queue == [];
      assert Run(Opened(Start({})), []) == Opened(Start({}));
    }
    ChurnFills(256, quote);
    SubscribeStarved(256, "t", quote);
    var s := Queued(256);
    var subscribed := Subscribe(s, "t");
    assert Run(s, [DidSubscribe("t"), Starved(quote)]) == Run(subscribed, [Starved(quote)]);
    assert Run(subscribed, [Starved(quote)]) == Run(Step(subscribed, Starved(quote)), []);
  }
}
