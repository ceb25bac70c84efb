/** The subscription fields of src/client.js and the methods that update them,
    proved against `SubscriptionSpec`. `member` and `dropped` record what the
    frames did. */
module Subscriptions {
  import opened Options
  import opened Chunker
  import opened Spec = SubscriptionSpec
  import opened SubscriptionProofs

  lemma OneBatch(s: Subs, batch: seq<string>, permits: int -> bool)
    ensures OfferAll(s, [batch], seq(1, permits)) == Spec.Offer(s, batch, permits(0))
  {
    assert [batch][..0] == [] && seq(1, permits)[..0] == [];
  }

  class SubscriptionTable {
    var refs: map<string, nat>
    var subscribed: set<string>
    var managed: set<string>
    var pending: Option<seq<string>>
    var open: bool
    var queue: seq<seq<string>>
    var member: set<string>
    var dropped: set<string>

    function View(): Subs
      reads this
    {
      Subs(refs, subscribed, managed, pending, open, queue, member, dropped)
    }

    /** Counts, membership and placement agree. */
    ghost predicate Valid()
      reads this
    {
      Inv(View())
    }

    constructor (marked: set<string>)
      ensures View() == Start(marked) && Valid() && !open && refs == map[] && managed == marked
    {
      refs, subscribed, managed, pending := map[], {}, marked, None;
      open, queue, member, dropped := false, [], {}, {};
    }

    /** One more holder; a topic the client subscribes itself is placed. */
    method Subscribe(topic: string)
      requires Valid()
      modifies this
      ensures Valid() && View() == Step(old(View()), DidSubscribe(topic))
      ensures topic in refs && refs[topic] == 1 + if topic in old(refs) then old(refs[topic]) else 0
      ensures open && Wanted(View(), topic) ==> Accounted(View(), topic)
      ensures !open || topic in old(refs) ==> pending == old(pending)
    {
      SubscribeKeeps(View(), topic);
      var count := if topic in refs then refs[topic] else 0;
      refs := refs[topic := count + 1];
      if count > 0 { return; }
      if IsSystem(topic) || topic in managed { return; }
      subscribed := subscribed + {topic};
      if !open { return; }
      if pending.None? { pending := Some([]); }
      pending := Some(pending.value + [topic]);
    }

    /** One holder fewer; after the last nothing of the topic is left. */
    method Release(topic: string)
      requires Valid()
      modifies this
      ensures Valid() && View() == Step(old(View()), DidRelease(topic))
      ensures topic in refs <==> topic in old(refs) && old(refs[topic]) > 1
      ensures topic in refs ==> refs[topic] == old(refs[topic]) - 1
      ensures topic !in refs ==> topic !in subscribed && topic !in managed && topic !in member && topic !in dropped
    {
      ReleaseKeeps(View(), topic);
      var count := if topic in refs then refs[topic] else 0;
      if count <= 1 {
        refs := refs - {topic};
        DoUnsubscribe(topic);
      } else {
        refs := refs[topic := count - 1];
      }
    }

    /** Whatever the count, nothing of the topic is left. */
    method Unsubscribe(topic: string)
      requires Valid()
      modifies this
      ensures Valid() && View() == Step(old(View()), DidUnsubscribe(topic))
      ensures topic !in refs && topic !in subscribed && topic !in managed && topic !in member && topic !in dropped
    {
      ReleaseKeeps(View(), topic);
      refs := refs - {topic};
      DoUnsubscribe(topic);
    }

    method DoUnsubscribe(topic: string)
      modifies this
      ensures View() == Spec.DoUnsubscribe(old(View()), topic)
    {
      managed := managed - {topic};
      subscribed := subscribed - {topic};
      dropped := dropped - {topic};
      if IsSystem(topic) { return; }
      if open { member := member - {topic}; }
    }

    method SendBatch(batch: seq<string>)
      modifies this
      ensures View() == Spec.SendBatch(old(View()), batch)
    {
      var wanted := (Elements(batch) * subscribed) - managed;
      member := member + wanted;
      dropped := dropped - wanted;
    }

    method Offer(batch: seq<string>, permit: bool)
      modifies this
      ensures View() == Spec.Offer(old(View()), batch, permit)
    {
      if permit {
        SendBatch(batch);
      } else if |queue| < MAX_QUEUED {
        queue := queue + [batch];
      } else {
        dropped := dropped + ((Elements(batch) * subscribed) - managed - member);
      }
    }

    /** The batch is taken; every topic of it that is still wanted is sent, waits,
        or was dropped by a full queue. */
    method FlushPendingSubscribes(quote: string -> string, permits: int -> bool)
      requires Valid()
      modifies this
      ensures Valid() && View() == Step(old(View()), Microtask(quote, permits))
      ensures pending.None? && (open ==> forall t :: Wanted(View(), t) ==> Accounted(View(), t))
    {
      FlushKeeps(View(), quote, permits);
      FlushTakes(View(), quote, permits);
      var waiting := pending;
      pending := None;
      if waiting.None? { return; }
      if !open { return; }
      var batch := waiting.value;
      if |batch| == 1 {
        OneBatch(View(), batch, permits);
        Offer(batch, permits(0));
        return;
      }
      var batches := ChunkTopicsForBatch(batch, quote);
      OfferEach(batches, permits);
    }

    method OfferEach(batches: seq<seq<string>>, permits: int -> bool)
      modifies this
      ensures View() == OfferAll(old(View()), batches, seq(|batches|, permits))
    {
      ghost var start, grants := View(), seq(|batches|, permits);
      for i := 0 to |batches|
        invariant View() == OfferAll(start, batches[..i], grants[..i])
      {
        assert batches[..i + 1][..i] == batches[..i] && grants[..i + 1][..i] == grants[..i];
        Offer(batches[i], permits(i));
      }
      assert batches[..|batches|] == batches && grants[..|batches|] == grants;
    }

    /** The oldest waiting batch goes, and with it every topic of it still wanted. */
    method PermitArrived()
      requires Valid()
      modifies this
      ensures Valid() && View() == Step(old(View()), Event.PermitArrived)
      ensures old(open) && old(queue) != [] ==>
                forall t :: t in old(queue)[0] && Wanted(old(View()), t) ==> t in member && t !in dropped
    {
      PermitKeeps(View());
      if !open || |queue| == 0 { return; }
      var batch := queue[0];
      queue := queue[1..];
      SendBatch(batch);
    }

    /** The new connection is asked for exactly the topics wanted. */
    method OnOpen()
      requires Valid()
      modifies this
      ensures Valid() && View() == Step(old(View()), SocketOpened)
      ensures dropped == {} && forall t :: t in member <==> Wanted(View(), t)
    {
      StepKeeps(View(), SocketOpened);
      open := true;
      member := subscribed - managed;
      dropped := {};
    }

    /** The connection takes its membership with it and leaves every wish. */
    method OnClose()
      requires Valid()
      modifies this
      ensures Valid() && View() == Step(old(View()), SocketClosed)
      ensures member == {} && forall t :: Wanted(View(), t) == Wanted(old(View()), t)
    {
      StepKeeps(View(), SocketClosed);
      open := false;
      member := {};
    }

    /** The topic is no longer the client's to ask for; no other topic changes. */
    method SetTopicManaged(topic: string)
      requires Valid()
      modifies this
      ensures Valid() && View() == Step(old(View()), DidManage(topic)) && managed == old(managed) + {topic}
      ensures !Wanted(View(), topic) && forall t :: t != topic ==> Wanted(View(), t) == Wanted(old(View()), t)
    {
      StepKeeps(View(), DidManage(topic));
      managed := managed + {topic};
    }
  }
}
