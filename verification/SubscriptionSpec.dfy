/** Ref-counted subscriptions and their microtask batching in src/client.js,
    together with the membership the server holds for this connection. */
module SubscriptionSpec {
  import opened Options
  import opened Partition
  import opened Chunker

  const MAX_QUEUED := 256

  /** `pending` is the microtask batch, `queue` the batches waiting for a
      permit. `member` is what the frames of the current connection made of the
      server's membership, and `dropped` the topics whose last batch met a full
      queue when the server did not hold them. */
  datatype Subs = Subs(refs: map<string, nat>, subscribed: set<string>, managed: set<string>,
                       pending: Option<seq<string>>, open: bool, queue: seq<seq<string>>,
                       member: set<string>, dropped: set<string>)

  predicate IsSystem(topic: string) { "__" <= topic }

  function Elements(items: seq<string>): set<string> { set t | t in items }

  function Subscribe(s: Subs, topic: string): Subs
  {
    var count := if topic in s.refs then s.refs[topic] else 0;
    var counted := s.(refs := s.refs[topic := count + 1]);
    if count > 0 || IsSystem(topic) || topic in s.managed then counted
    else
      counted.(subscribed := s.subscribed + {topic},
               pending := if !s.open then s.pending
                          else Some((if s.pending.Some? then s.pending.value else []) + [topic]))
  }

  function DoUnsubscribe(s: Subs, topic: string): Subs
  {
    s.(managed := s.managed - {topic}, subscribed := s.subscribed - {topic}, dropped := s.dropped - {topic},
       member := if s.open && !IsSystem(topic) then s.member - {topic} else s.member)
  }

  function Release(s: Subs, topic: string): Subs
  {
    if topic !in s.refs || s.refs[topic] <= 1 then DoUnsubscribe(s.(refs := s.refs - {topic}), topic)
    else s.(refs := s.refs[topic := s.refs[topic] - 1])
  }

  function Unsubscribe(s: Subs, topic: string): Subs
  {
    DoUnsubscribe(s.(refs := s.refs - {topic}), topic)
  }

  /** A subscribe frame names the topics of its batch that are still wanted. */
  function SendBatch(s: Subs, batch: seq<string>): Subs
  {
    var wanted := (Elements(batch) * s.subscribed) - s.managed;
    s.(member := s.member + wanted, dropped := s.dropped - wanted)
  }

  /** One flow-controlled batch, with or without a permit. */
  function Offer(s: Subs, batch: seq<string>, permit: bool): Subs
  {
    if permit then SendBatch(s, batch)
    else if |s.queue| < MAX_QUEUED then s.(queue := s.queue + [batch])
    else s.(dropped := s.dropped + ((Elements(batch) * s.subscribed) - s.managed - s.member))
  }

  function OfferAll(s: Subs, batches: seq<seq<string>>, permits: seq<bool>): Subs
    requires |permits| == |batches|
  {
    if batches == [] then s
    else
      var last := |batches| - 1;
      Offer(OfferAll(s, batches[..last], permits[..last]), batches[last], permits[last])
  }

  function Batches(batch: seq<string>, quote: string -> string): seq<seq<string>>
  {
    if |batch| == 1 then [batch] else Chunks(Pack(batch, Sizes(quote, map[])))
  }

  /** The microtask; `permits` says which of its batches find a fresh permit. */
  function Flush(s: Subs, quote: string -> string, permits: int -> bool): Subs
  {
    var cleared := s.(pending := None);
    if s.pending.None? || !s.open then cleared
    else
      var batches := Batches(s.pending.value, quote);
      OfferAll(cleared, batches, seq(|batches|, permits))
  }

  /** A fresh permit lets the oldest waiting batch go. */
  function Permit(s: Subs): Subs
  {
    if !s.open || s.queue == [] then s else SendBatch(s.(queue := s.queue[1..]), s.queue[0])
  }

  /** The socket opened: everything the client may subscribe itself is asked for again. */
  function Opened(s: Subs): Subs
  {
    s.(open := true, member := s.subscribed - s.managed, dropped := {})
  }

  function Closed(s: Subs): Subs { s.(open := false, member := {}) }

  datatype Event =
    | DidSubscribe(topic: string)
    | DidRelease(topic: string)
    | DidUnsubscribe(topic: string)
    | DidManage(topic: string)
    | Microtask(quote: string -> string, permits: int -> bool)
    | PermitArrived
    | SocketOpened
    | SocketClosed

  function Step(s: Subs, e: Event): Subs
  {
    match e
    case DidSubscribe(t) => Subscribe(s, t)
    case DidRelease(t) => Release(s, t)
    case DidUnsubscribe(t) => Unsubscribe(s, t)
    case DidManage(t) => s.(managed := s.managed + {t})
    case Microtask(quote, permits) => Flush(s, quote, permits)
    case PermitArrived => Permit(s)
    case SocketOpened => Opened(s)
    case SocketClosed => Closed(s)
  }

  function Run(s: Subs, events: seq<Event>): Subs
    decreases |events|
  {
    if events == [] then s else Run(Step(s, events[0]), events[1..])
  }

  function Start(managed: set<string>): Subs
  {
    Subs(map[], {}, managed, None, false, [], {}, {})
  }
}
