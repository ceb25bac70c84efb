/** Gap recovery for one topic: the saved offset and the outstanding recovery of
    src/client.js, and the whole system of one client and one server that the
    offset has to be safe in. */
module RecoverySpec {
  import opened Options

  /** An outstanding recovery, and the highest live sequence number held back. */
  datatype Pending = Pending(ref: nat, highest: Option<nat>)

  /** What the client keeps about a topic: `lastSeenSeqs` and `pendingRecoveries`. */
  datatype Tracker = Tracker(last: Option<nat>, pending: Option<Pending>)

  function Raise(mark: Option<nat>, seqNo: nat): Option<nat>
  {
    if mark.None? || seqNo > mark.value then Some(seqNo) else mark
  }

  /** A recovery frame went out. */
  function Ask(t: Tracker, ref: nat, offset: nat): Tracker
  {
    Tracker(Some(offset), Some(Pending(ref, None)))
  }

  /** An answer arrived. */
  function Finish(t: Tracker, ref: int, accepted: bool): Tracker
  {
    if t.pending.None? || ref != t.pending.value.ref then t
    else if accepted && t.pending.value.highest.Some? then
      Tracker(Raise(t.last, t.pending.value.highest.value), None)
    else t.(pending := None)
  }

  /** A sequenced event arrived. */
  function Deliver(t: Tracker, seqNo: nat): Tracker
  {
    if t.pending.Some?
    then t.(pending := Some(t.pending.value.(highest := Raise(t.pending.value.highest, seqNo))))
    else t.(last := Raise(t.last, seqNo))
  }

  /** A marker declared the history lost. */
  function Invalidate(t: Tracker): Tracker
  {
    Tracker(None, if t.pending.Some? then Some(t.pending.value.(highest := None)) else None)
  }

  // ---------------------------------------------------------------------
  // The system

  /** Server to client. `Marker(upTo)` stands for every marker that invalidates
      the offset (truncated, gap, rehydrate, denied, a truncated end); the
      server means the history up to and including `upTo`. `Replay` is one
      message of a gap-fill. */
  datatype Frame = Live(seqNo: nat) | Replay(seqNo: nat) | Marker(upTo: nat) | Ack(ref: nat) | Denied(ref: nat)

  /** A subscribe request; `offset` is its `recover` field. */
  datatype Request = Request(ref: nat, offset: Option<nat>)

  /** A gap-fill under way: `next..upTo` still to be sent. */
  datatype Replaying = Replaying(ref: nat, next: nat, upTo: nat)

  /** `retry` is the rate-limit retry waiting for a permit, and `waiting` counts
      the plain subscribes that do; the first is dropped with its connection, the
      others are not. `asked` is the offset the outstanding recovery presented;
      `answered` the refs the server is done with on this connection, earlier
      ones included; `settled` the sequence numbers that were dispatched to the
      application, declared lost by a marker the client read, or published
      before the topic was first enrolled; `begun` says that it was. */
  datatype World = World(
    client: Tracker, nextRef: nat, retry: Option<Request>, asked: Option<nat>,
    wanted: bool, waiting: nat,
    connected: bool, toServer: seq<Request>, toClient: seq<Frame>,
    head: nat, begun: bool, enrolled: bool, replaying: Option<Replaying>, answered: set<nat>,
    settled: set<nat>)

  /** 0, ..., n - 1 */
  function Below(n: nat): (s: set<nat>)
    ensures forall k: nat :: k in s <==> k < n
  {
    if n == 0 then {} else Below(n - 1) + {n - 1}
  }

  /** 1, ..., n */
  function UpTo(n: nat): (s: set<nat>)
    ensures forall k: nat :: k in s <==> 1 <= k <= n
  {
    if n == 0 then {} else UpTo(n - 1) + {n}
  }

  function Carried(f: Frame): set<nat>
  {
    match f
    case Live(n) => {n}
    case Replay(n) => {n}
    case Marker(n) => UpTo(n)
    case Ack(_) => {}
    case Denied(_) => {}
  }

  /** `Mount` is the first subscribe; without a permit it waits for one.
      `DrainPlain` is a window that lets it out, on whatever connection is open
      by then. A gap-fill comes `inline`, as numbered events of the topic, or on
      the replay topic. */
  datatype Event =
    | Connect
    | Disconnect
    | Mount(permit: bool)
    | DrainPlain
    | CaptureRetry
    | SendRetry
    | Receive
    | Publish
    | ServerAccepts
    | ServerDenies
    | ServerReplays(inline: bool)
    | ServerMarks(upTo: nat)
    | ServerRepeats(ref: nat, accepted: bool)

  /** A recovery-tagged or plain subscribe leaves the client. */
  function Send(w: World, r: Request): World
  {
    w.(client := if r.offset.Some? then Ask(w.client, r.ref, r.offset.value) else w.client,
       asked := if r.offset.Some? then r.offset else w.asked,
       toServer := w.toServer + [r])
  }

  /** The socket opened: a wanted topic is resubscribed with the offset it holds. */
  function Connected(w: World): World
  {
    if w.connected then w
    else
      var open := w.(client := w.client.(pending := None), connected := true, answered := Below(w.nextRef));
      if !w.wanted then open else Send(open.(nextRef := w.nextRef + 1), Request(w.nextRef, w.client.last))
  }

  function SendPlain(w: World): World
  {
    Send(w.(nextRef := w.nextRef + 1), Request(w.nextRef, None))
  }

  function Mounted(w: World, permit: bool): World
  {
    if w.wanted then w
    else if !w.connected then w.(wanted := true)
    else if permit then SendPlain(w.(wanted := true))
    else w.(wanted := true, waiting := w.waiting + 1)
  }

  function Disconnected(w: World): World
  {
    w.(connected := false, retry := None, toServer := [], toClient := [], enrolled := false, replaying := None,
       answered := {})
  }

  function Received(w: World): World
  {
    if w.toClient == [] then w
    else
      var f := w.toClient[0];
      var client := match f
        case Live(n) => Deliver(w.client, n)
        case Replay(_) => w.client
        case Marker(_) => Invalidate(w.client)
        case Ack(ref) => Finish(w.client, ref, true)
        case Denied(ref) => Finish(w.client, ref, false);
      w.(client := client, toClient := w.toClient[1..], settled := w.settled + Carried(f))
  }

  /** The server answers a topic's requests one at a time and in order. */
  function Accepted(w: World): World
  {
    if w.toServer == [] || w.replaying.Some? then w
    else
      var r := w.toServer[0];
      var taken := w.(toServer := w.toServer[1..], begun := true, enrolled := true);
      if r.offset.Some? then taken.(replaying := Some(Replaying(r.ref, r.offset.value + 1, w.head)))
      else taken.(toClient := w.toClient + [Ack(r.ref)], answered := w.answered + {r.ref},
                  settled := if w.begun then w.settled else w.settled + UpTo(w.head))
  }

  /** Accepting now would start the live stream again, without a gap-fill, past an
      event that was never settled. */
  ghost predicate Overlooks(w: World)
  {
    && w.toServer != [] && w.replaying.None? && w.toServer[0].offset.None? && !w.enrolled
    && w.begun && exists n: nat :: 1 <= n <= w.head && n !in w.settled
  }

  function DeniedBy(w: World): World
  {
    if w.toServer == [] || w.replaying.Some? then w
    else
      w.(toServer := w.toServer[1..], toClient := w.toClient + [Denied(w.toServer[0].ref)],
         answered := w.answered + {w.toServer[0].ref})
  }

  /** One gap-fill message, or the answer once the gap is filled. */
  function Replayed(w: World, inline: bool): World
  {
    if w.replaying.None? then w
    else
      var r := w.replaying.value;
      if r.next <= r.upTo
      then w.(toClient := w.toClient + [if inline then Live(r.next) else Replay(r.next)],
              replaying := Some(r.(next := r.next + 1)))
      else w.(toClient := w.toClient + [Ack(r.ref)], replaying := None, answered := w.answered + {r.ref})
  }

  function Marked(w: World, upTo: nat): World
  {
    if !w.enrolled || upTo > w.head then w
    else
      w.(toClient := w.toClient + [Marker(upTo)],
         replaying := if w.replaying.Some? && w.replaying.value.next <= upTo
                      then Some(w.replaying.value.(next := upTo + 1)) else w.replaying)
  }

  /** A second answer to a request already answered, or one from before. */
  function Repeated(w: World, ref: nat, accepted: bool): World
  {
    if !w.connected || ref !in w.answered then w
    else w.(toClient := w.toClient + [if accepted then Ack(ref) else Denied(ref)])
  }

  function Step(w: World, e: Event): World
  {
    match e
    case Connect => Connected(w)
    case Disconnect => Disconnected(w)
    case Mount(permit) => Mounted(w, permit)
    case DrainPlain => if w.connected && w.waiting > 0 then SendPlain(w.(waiting := w.waiting - 1)) else w
    case CaptureRetry =>
      if w.connected && w.wanted then w.(retry := Some(Request(w.nextRef, w.client.last)), nextRef := w.nextRef + 1) else w
    case SendRetry => if w.retry.Some? then Send(w.(retry := None), w.retry.value) else w
    case Receive => Received(w)
    case Publish =>
      w.(head := w.head + 1, toClient := if w.enrolled then w.toClient + [Live(w.head + 1)] else w.toClient)
    case ServerAccepts => Accepted(w)
    case ServerDenies => DeniedBy(w)
    case ServerReplays(inline) => Replayed(w, inline)
    case ServerMarks(upTo) => Marked(w, upTo)
    case ServerRepeats(ref, accepted) => Repeated(w, ref, accepted)
  }

  function Run(w: World, events: seq<Event>): World
    decreases |events|
  {
    if events == [] then w else Run(Step(w, events[0]), events[1..])
  }

  /** No accept along the run overlooks an event. */
  ghost predicate Careful(w: World, events: seq<Event>)
    decreases |events|
  {
    events == [] || (!(events[0].ServerAccepts? && Overlooks(w)) && Careful(Step(w, events[0]), events[1..]))
  }

  /** A topic nobody has subscribed to yet, while `head` events exist. */
  function Start(head: nat): World
  {
    World(Tracker(None, None), 1, None, None, false, 0, false, [], [], head, false, false, None, {}, {})
  }
}
