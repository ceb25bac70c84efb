/** Server membership converges to what the application wants, through any
    churn of subscribes, releases, marks, permits and reconnects. */
module SubscriptionProofs {
  import opened Options
  import opened Partition
  import opened Chunker
  import opened SubscriptionSpec

  /** Where a wanted topic can be: asked for, about to be, waiting, or dropped. */
  ghost predicate Accounted(s: Subs, topic: string)
  {
    || topic in s.member
    || (s.pending.Some? && topic in s.pending.value)
    || (exists i :: 0 <= i < |s.queue| && topic in s.queue[i])
    || topic in s.dropped
  }

  ghost predicate CountsOk(s: Subs)
  {
    && (forall t :: t in s.refs ==> s.refs[t] >= 1)
    && (forall t :: t in s.subscribed ==> t in s.refs && !IsSystem(t))
    && (forall t :: t in s.refs && !IsSystem(t) && t !in s.managed ==> t in s.subscribed)
  }

  ghost predicate MembersOk(s: Subs)
  {
    && s.member <= s.subscribed
    && s.dropped <= s.subscribed
    && (!s.open ==> s.member == {})
    && s.dropped !! s.member
    && (s.pending.Some? ==> forall t :: t in s.pending.value ==> t !in s.dropped)
  }

  ghost predicate AllAccounted(s: Subs)
  {
    s.open ==> forall t :: t in s.subscribed && t !in s.managed ==> Accounted(s, t)
  }

  ghost predicate Inv(s: Subs) { CountsOk(s) && MembersOk(s) && AllAccounted(s) }

  lemma SubscribeKeeps(s: Subs, topic: string)
    requires Inv(s)
    ensures Inv(Subscribe(s, topic))
  {
    var u := Subscribe(s, topic);
    assert forall t :: Accounted(s, t) ==> Accounted(u, t);
  }

  lemma ReleaseKeeps(s: Subs, topic: string)
    requires Inv(s)
    ensures Inv(Release(s, topic)) && Inv(Unsubscribe(s, topic))
  {
    assert forall t :: t != topic && Accounted(s, t) ==> Accounted(Release(s, topic), t);
    assert forall t :: t != topic && Accounted(s, t) ==> Accounted(Unsubscribe(s, topic), t);
  }

  /** What remains to be placed once some topics have left their place. */
  ghost predicate AccountedBut(s: Subs, loose: set<string>)
  {
    s.open ==> forall t :: t in s.subscribed && t !in s.managed && t !in loose ==> Accounted(s, t)
  }

  lemma OfferPlaces(s: Subs, batch: seq<string>, permit: bool, loose: set<string>)
    requires CountsOk(s) && MembersOk(s) && s.open && s.pending.None? && AccountedBut(s, loose)
    ensures var u := Offer(s, batch, permit);
            CountsOk(u) && MembersOk(u) && AccountedBut(u, loose - Elements(batch))
            && u.open && u.pending.None? && u.subscribed == s.subscribed && u.managed == s.managed
  {
    var u := Offer(s, batch, permit);
    forall t | t in u.subscribed && t !in u.managed && t !in loose - Elements(batch)
      ensures Accounted(u, t)
    {
      if t in batch {
        if !permit && |s.queue| < MAX_QUEUED { assert t in u.queue[|s.queue|]; }
      } else {
        assert Accounted(s, t);
        if i :| 0 <= i < |s.queue| && t in s.queue[i] { assert u.queue[i] == s.queue[i]; }
      }
    }
  }

  lemma {:induction false} OfferAllPlaces(s: Subs, batches: seq<seq<string>>, permits: seq<bool>, loose: set<string>)
    requires CountsOk(s) && MembersOk(s) && s.open && s.pending.None? && AccountedBut(s, loose)
    requires |permits| == |batches|
    ensures var u := OfferAll(s, batches, permits);
            CountsOk(u) && MembersOk(u) && AccountedBut(u, loose - Elements(Flatten(batches)))
            && u.open && u.pending.None?
    decreases |batches|
  {
    if batches != [] {
      var last := |batches| - 1;
      OfferAllPlaces(s, batches[..last], permits[..last], loose);
      var before := Elements(Flatten(batches[..last]));
      OfferPlaces(OfferAll(s, batches[..last], permits[..last]), batches[last], permits[last], loose - before);
      assert loose - before - Elements(batches[last]) == loose - Elements(Flatten(batches));
    } else {
      assert loose - Elements([]) == loose;
    }
  }

  /** The batches of a microtask hold exactly what was pending. */
  lemma BatchesHoldAll(batch: seq<string>, quote: string -> string)
    ensures Flatten(Batches(batch, quote)) == batch
  {
    PackIsOptimal(batch, Sizes(quote, map[]));
    if |batch| == 1 { assert Flatten([batch]) == Flatten([]) + batch by { assert [batch][..0] == []; } }
  }

  /** They are as few as the limits allow, and a lone topic is sent as it is. */
  lemma BatchesAreOptimal(batch: seq<string>, quote: string -> string)
    ensures Optimal(Batches(batch, quote), batch, Sizes(quote, map[]))
  {
    var size := Sizes(quote, map[]);
    PackIsOptimal(batch, size);
    if |batch| == 1 {
      assert [batch][..0] == [] && Flatten([]) + batch == batch;
      GreedyIsOptimal([batch], batch, size);
    }
  }

  lemma TakingBatchLoosens(s: Subs)
    requires Inv(s) && s.pending.Some?
    ensures var cleared := s.(pending := None);
            CountsOk(cleared) && MembersOk(cleared) && AccountedBut(cleared, Elements(s.pending.value))
  {
    var cleared := s.(pending := None);
    forall t | t in s.subscribed && t !in s.managed && t !in s.pending.value && s.open ensures Accounted(cleared, t) {
      assert Accounted(s, t);
    }
  }

  lemma FlushKeeps(s: Subs, quote: string -> string, permits: int -> bool)
    requires Inv(s)
    ensures Inv(Flush(s, quote, permits))
  {
    if s.pending.Some? && s.open {
      var batch := s.pending.value;
      var batches := Batches(batch, quote);
      TakingBatchLoosens(s);
      BatchesHoldAll(batch, quote);
      OfferAllPlaces(s.(pending := None), batches, seq(|batches|, permits), Elements(batch));
      assert Elements(batch) - Elements(batch) == {};
    }
  }

  lemma PermitKeeps(s: Subs)
    requires Inv(s)
    ensures Inv(Permit(s))
  {
    if s.open && s.queue != [] {
      var u := Permit(s);
      forall t | t in u.subscribed && t !in u.managed
        ensures Accounted(u, t)
      {
        assert Accounted(s, t);
        if i :| 0 < i < |s.queue| && t in s.queue[i] { assert u.queue[i - 1] == s.queue[i]; }
      }
    }
  }

  lemma StepKeeps(s: Subs, e: Event)
    requires Inv(s)
    ensures Inv(Step(s, e))
  {
    match e
    case DidSubscribe(t) => SubscribeKeeps(s, t);
    case DidRelease(t) => ReleaseKeeps(s, t);
    case DidUnsubscribe(t) => ReleaseKeeps(s, t);
    case DidManage(t) => assert forall u :: Accounted(s, u) ==> Accounted(Step(s, e), u);
    case Microtask(quote, permits) => FlushKeeps(s, quote, permits);
    case PermitArrived => PermitKeeps(s);
    case SocketOpened => assert forall u :: u in s.subscribed && u !in s.managed ==> Accounted(Opened(s), u);
    case SocketClosed =>
  }

  lemma RunKeeps(s: Subs, events: seq<Event>)
    requires Inv(s)
    ensures Inv(Run(s, events))
    decreases |events|
  {
    if events != [] {
      StepKeeps(s, events[0]);
      RunKeeps(Step(s, events[0]), events[1..]);
    }
  }

  // ---------------------------------------------------------------------
  // Main results

  /** A topic some holder wants and the client may subscribe itself. */
  predicate Wanted(s: Subs, topic: string)
  {
    topic in s.refs && !IsSystem(topic) && topic !in s.managed
  }

  /** Over every run: what the client asks for itself are exactly the topics that
      have a holder, are not managed by the server and do not start with two
      underscores; a topic that does is never asked for. */
  lemma AsksForExactly(managed: set<string>, events: seq<Event>, topic: string)
    ensures var s, reserved := Run(Start(managed), events), |topic| >= 2 && topic[0] == '_' && topic[1] == '_';
            && (topic in s.subscribed - s.managed <==> topic in s.refs && topic !in s.managed && !reserved)
            && (reserved ==> topic !in s.subscribed && topic !in s.member && topic !in s.dropped)
  {
    RunKeeps(Start(managed), events);
    assert IsSystem(topic) <==> |topic| >= 2 && topic[0] == '_' && topic[1] == '_';
  }

  /** A subscribe asks for the topic exactly when the socket is open and it is the
      first holder of a topic the client asks for itself. */
  lemma SubscribeAsksExactly(s: Subs, topic: string)
    requires Inv(s)
    ensures var t := Subscribe(s, topic);
            if s.open && topic !in s.refs && !IsSystem(topic) && topic !in s.managed
            then t.pending == Some((if s.pending.Some? then s.pending.value else []) + [topic])
            else t.pending == s.pending
  {
  }

  /** While the socket is open the server holds nothing that has no holder, and
      every wanted topic is on the server, in the pending batch, in a batch
      waiting for a permit, or was dropped by a full queue. */
  lemma MembershipIsAccountedFor(managed: set<string>, events: seq<Event>)
    ensures var s := Run(Start(managed), events);
            && (forall t :: t in s.member ==> t in s.refs)
            && (s.open ==> forall t :: Wanted(s, t) ==> Accounted(s, t))
  {
    RunKeeps(Start(managed), events);
  }

  /** Once the batch, the queue and the drops are empty, the server holds every
      wanted topic. */
  lemma QuiescenceIsConvergence(managed: set<string>, events: seq<Event>)
    ensures var s := Run(Start(managed), events);
            s.open && s.pending.None? && s.queue == [] && s.dropped == {} ==>
              forall t :: Wanted(s, t) ==> t in s.member
  {
    RunKeeps(Start(managed), events);
    var s := Run(Start(managed), events);
    if s.open && s.pending.None? && s.queue == [] && s.dropped == {} {
      forall t | Wanted(s, t) ensures t in s.member { assert Accounted(s, t); }
    }
  }

  lemma {:induction false} OffersKeepQueue(s: Subs, batches: seq<seq<string>>, permits: seq<bool>)
    requires |permits| == |batches|
    ensures var u := OfferAll(s, batches, permits);
            && |s.queue| <= |u.queue| && u.subscribed == s.subscribed && u.managed == s.managed && s.member <= u.member
            && u.pending == s.pending && u.open == s.open
    decreases |batches|
  {
    if batches != [] { OffersKeepQueue(s, batches[..|batches| - 1], permits[..|batches| - 1]); }
  }

  /** After a microtask nothing is pending, so what is wanted is sent, waits or
      was dropped. */
  lemma FlushTakes(s: Subs, quote: string -> string, permits: int -> bool)
    requires Inv(s)
    ensures var u := Flush(s, quote, permits);
            u.pending.None? && (u.open ==> forall t :: Wanted(u, t) ==> Accounted(u, t))
  {
    FlushKeeps(s, quote, permits);
    if s.pending.Some? && s.open {
      var batches := Batches(s.pending.value, quote);
      OffersKeepQueue(s.(pending := None), batches, seq(|batches|, permits));
    }
  }
}
