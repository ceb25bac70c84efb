/** The holders of a topic, counted over whole runs. */
module SubscriptionCounts {
  import opened Options
  import opened SubscriptionSpec
  import opened SubscriptionProofs

  /** Subscribes minus releases of the topic. */
  function Balance(events: seq<Event>, topic: string): int
  {
    if events == [] then 0
    else
      var rest := Balance(events[1..], topic);
      if events[0] == DidSubscribe(topic) then rest + 1
      else if events[0] == DidRelease(topic) then rest - 1
      else rest
  }

  /** Nobody forces the topic off. */
  ghost predicate Unforced(events: seq<Event>, topic: string)
  {
    DidUnsubscribe(topic) !in events
  }

  function Holders(s: Subs, topic: string): nat { if topic in s.refs then s.refs[topic] else 0 }

  /** What a start with `held` holders leaves to the events from position `k` on. */
  ghost predicate Leaves(events: seq<Event>, topic: string, held: nat, k: nat, count: int)
  {
    && k <= |events| && Unforced(events[k..], topic)
    && count == Balance(events[k..], topic) + if k == 0 then held else 0
  }

  /** `count` is the greatest number left by any end of the run. */
  ghost predicate IsCount(events: seq<Event>, topic: string, held: nat, count: nat)
  {
    && (exists k: nat :: Leaves(events, topic, held, k, count))
    && (forall k: nat, c: int :: Leaves(events, topic, held, k, c) ==> c <= count)
  }

  lemma StepHolders(s: Subs, e: Event, topic: string)
    requires Inv(s)
    ensures Holders(Step(s, e), topic) ==
              if e == DidSubscribe(topic) then Holders(s, topic) + 1
              else if e == DidRelease(topic) then (if Holders(s, topic) > 0 then Holders(s, topic) - 1 else 0)
              else if e == DidUnsubscribe(topic) then 0
              else Holders(s, topic)
  {
    match e
    case Microtask(quote, permits) => FlushKeepsRefs(s, quote, permits);
    case _ =>
  }

  lemma {:induction false} OffersKeepRefs(s: Subs, batches: seq<seq<string>>, permits: seq<bool>)
    requires |permits| == |batches|
    ensures OfferAll(s, batches, permits).refs == s.refs
    decreases |batches|
  {
    if batches != [] { OffersKeepRefs(s, batches[..|batches| - 1], permits[..|batches| - 1]); }
  }

  lemma FlushKeepsRefs(s: Subs, quote: string -> string, permits: int -> bool)
    ensures Flush(s, quote, permits).refs == s.refs
  {
    if s.pending.Some? && s.open {
      var batches := Batches(s.pending.value, quote);
      OffersKeepRefs(s.(pending := None), batches, seq(|batches|, permits));
    }
  }

  /** An end of the rest is an end of the whole. */
  lemma LeavesLater(events: seq<Event>, topic: string, held: nat, next: nat, k: nat, c: int)
    requires events != [] && k > 0
    ensures Leaves(events, topic, held, k + 1, c) <==> Leaves(events[1..], topic, next, k, c)
  {
    if k < |events| { assert events[1..][k..] == events[k + 1..]; }
  }

  /** The whole run is an end of itself, unless its first event forces the topic off. */
  lemma LeavesNow(events: seq<Event>, topic: string, held: nat, c: int)
    requires events != []
    ensures Leaves(events, topic, held, 0, c) <==>
              events[0] != DidUnsubscribe(topic) && Unforced(events[1..], topic) && c == Balance(events, topic) + held
    ensures Leaves(events, topic, held, 1, c) <==> Unforced(events[1..], topic) && c == Balance(events[1..], topic)
    ensures Leaves(events[1..], topic, held, 0, c) <==>
              Unforced(events[1..], topic) && c == Balance(events[1..], topic) + held
  {
    assert events[0..] == events && events[1..][0..] == events[1..];
    assert events == [events[0]] + events[1..];
  }

  /** How many hold the topic after one event. */
  function After(held: nat, e: Event, topic: string): nat
  {
    if e == DidSubscribe(topic) then held + 1
    else if e == DidRelease(topic) then (if held > 0 then held - 1 else 0)
    else if e == DidUnsubscribe(topic) then 0
    else held
  }

  lemma CountReached(events: seq<Event>, topic: string, held: nat, count: nat, k: nat)
    requires events != [] && Leaves(events[1..], topic, After(held, events[0], topic), k, count)
    ensures exists j: nat :: Leaves(events, topic, held, j, count)
  {
    if k > 0 {
      LeavesLater(events, topic, held, After(held, events[0], topic), k, count);
    } else {
      LeavesNow(events, topic, held, count);
      LeavesNow(events, topic, After(held, events[0], topic), count);
      if events[0] == DidUnsubscribe(topic) || (events[0] == DidRelease(topic) && held == 0) {
        assert Leaves(events, topic, held, 1, count);
      } else {
        assert Leaves(events, topic, held, 0, count);
      }
    }
  }

  lemma CountBounds(events: seq<Event>, topic: string, held: nat, count: nat, k: nat, c: int)
    requires events != [] && IsCount(events[1..], topic, After(held, events[0], topic), count)
    requires Leaves(events, topic, held, k, c)
    ensures c <= count
  {
    var next := After(held, events[0], topic);
    if k > 1 {
      LeavesLater(events, topic, held, next, k - 1, c);
    } else {
      var rest := Balance(events[1..], topic) + next;
      LeavesNow(events, topic, held, c);
      LeavesNow(events, topic, next, rest);
      assert Leaves(events[1..], topic, next, 0, rest);
    }
  }

  lemma CountStep(events: seq<Event>, topic: string, held: nat, count: nat)
    requires events != [] && IsCount(events[1..], topic, After(held, events[0], topic), count)
    ensures IsCount(events, topic, held, count)
  {
    var k: nat :| Leaves(events[1..], topic, After(held, events[0], topic), k, count);
    CountReached(events, topic, held, count, k);
    forall k: nat, c: int | Leaves(events, topic, held, k, c) ensures c <= count {
      CountBounds(events, topic, held, count, k, c);
    }
  }

  lemma {:induction false} HoldersAre(s: Subs, events: seq<Event>, topic: string)
    requires Inv(s)
    ensures IsCount(events, topic, Holders(s, topic), Holders(Run(s, events), topic))
    decreases |events|
  {
    if events == [] {
      assert events[0..] == [] && Leaves(events, topic, Holders(s, topic), 0, Holders(s, topic));
    } else {
      StepKeeps(s, events[0]);
      StepHolders(s, events[0], topic);
      HoldersAre(Step(s, events[0]), events[1..], topic);
      CountStep(events, topic, Holders(s, topic), Holders(Run(s, events), topic));
    }
  }

  // ---------------------------------------------------------------------
  // Main results

  /** Over every run the holders of a topic are the most subscribes over releases
      in any end of the run in which nobody forces it off. */
  lemma HoldersAreCounted(marked: set<string>, events: seq<Event>, topic: string)
    ensures var s := Run(Start(marked), events);
            && (exists k: nat :: k <= |events| && Unforced(events[k..], topic)
                                 && Holders(s, topic) == Balance(events[k..], topic))
            && (forall k: nat :: k <= |events| && Unforced(events[k..], topic) ==>
                                 Balance(events[k..], topic) <= Holders(s, topic))
  {
    HoldersAre(Start(marked), events, topic);
    var count := Holders(Run(Start(marked), events), topic);
    forall k: nat | k <= |events| && Unforced(events[k..], topic) ensures Balance(events[k..], topic) <= count {
      assert Leaves(events, topic, 0, k, Balance(events[k..], topic));
    }
    var k: nat :| Leaves(events, topic, 0, k, count);
    assert Unforced(events[k..], topic) && count == Balance(events[k..], topic);
  }

  /** So once every end of the run has released the topic as often as it
      subscribed, nobody holds it, the client does not want it, and the server
      does not have it from this client. */
  lemma ReleasedIsGone(marked: set<string>, events: seq<Event>, topic: string)
    requires forall k: nat :: k <= |events| && Unforced(events[k..], topic) ==> Balance(events[k..], topic) <= 0
    ensures var s := Run(Start(marked), events);
            topic !in s.refs && topic !in s.subscribed && topic !in s.member && topic !in s.dropped
  {
    HoldersAreCounted(marked, events, topic);
    RunKeeps(Start(marked), events);
  }
}
