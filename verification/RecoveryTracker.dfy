/** The recovery maps of src/client.js and the methods that update them, proved
    topic by topic against `RecoverySpec`, and against all the calls so far. */
module RecoveryTracker {
  import opened Options
  import opened RecoverySpec
  import opened RecoveryOffset

  /** An inbound event envelope; `seqNo` is its `seq` when it carries one,
      `truncated` and `epoch` come from its data. */
  datatype Message = Message(topic: string, event: string, seqNo: Option<nat>, truncated: bool, epoch: Option<nat>)

  /** One entry of a `recover` map. */
  datatype Resume = Resume(offset: nat, epoch: Option<nat>)

  const REPLAY := "__replay:"

  predicate IsMarker(m: Message)
  {
    && m.seqNo.None?
    && (m.event in {"truncated", "rehydrate", "gap", "denied"} || (m.event == "end" && m.truncated))
    && REPLAY <= m.topic
  }

  /** What one message does to one topic. */
  function Dispatched(t: Tracker, topic: string, m: Message): Tracker
  {
    if m.seqNo.Some? then
      if m.topic == topic then Deliver(t, m.seqNo.value) else t
    else if IsMarker(m) && m.topic[|REPLAY|..] == topic then Invalidate(t)
    else t
  }

  // ---------------------------------------------------------------------
  // What the calls so far mean for one topic

  datatype Call =
    | DidReset
    | DidUnsubscribe(topic: string)
    | DidSend(ref: nat, recover: map<string, Resume>)
    | DidFinish(topic: string, to: int, accepted: bool)
    | DidDispatch(m: Message)

  /** A message of the replay topic that declares the history lost. */
  predicate Invalidates(m: Message, topic: string)
  {
    && m.topic == "__replay:" + topic
    && (|| m.event == "truncated" || m.event == "rehydrate" || m.event == "gap" || m.event == "denied"
        || (m.event == "end" && m.truncated))
  }

  function Hears(call: Call, topic: string): seq<Input>
  {
    match call
    case DidReset => [Forgets]
    case DidUnsubscribe(t) => if t == topic then [Forgets] else []
    case DidSend(ref, recover) => if topic in recover then [Asks(ref, recover[topic].offset)] else []
    case DidFinish(t, to, accepted) => if t == topic then [Answers(to, accepted)] else []
    case DidDispatch(m) =>
      if m.seqNo.Some? then (if m.topic == topic then [Reads(m.seqNo.value)] else [])
      else if Invalidates(m, topic) then [Marks]
      else []
  }

  function Heard(calls: seq<Call>, topic: string): seq<Input>
  {
    if calls == [] then [] else Heard(calls[..|calls| - 1], topic) + Hears(calls[|calls| - 1], topic)
  }

  lemma HeardMore(calls: seq<Call>, call: Call, topic: string)
    ensures Heard(calls + [call], topic) == Heard(calls, topic) + Hears(call, topic)
  {
    assert (calls + [call])[..|calls|] == calls;
  }

  /** One more call moves the tracker by what the topic hears. */
  lemma CallTracks(calls: seq<Call>, call: Call, topic: string)
    ensures Track(Heard(calls + [call], topic)) ==
              if Hears(call, topic) == [] then Track(Heard(calls, topic))
              else Tracked(Track(Heard(calls, topic)), Hears(call, topic)[0])
  {
    HeardMore(calls, call, topic);
    var xs := Hears(call, topic);
    if xs == [] {
      NoInput(Heard(calls, topic));
    } else {
      TrackMore(Heard(calls, topic), xs[0]);
      assert xs == [xs[0]];
    }
  }

  /** The replay prefix is cut off exactly. */
  lemma MarkerIsHeard(m: Message, topic: string)
    ensures IsMarker(m) && m.topic[|REPLAY|..] == topic <==> m.seqNo.None? && Invalidates(m, topic)
  {
    if REPLAY <= m.topic { assert m.topic == REPLAY + m.topic[|REPLAY|..]; }
    assert (REPLAY + topic)[|REPLAY|..] == topic;
  }

  /** The sequence numbers of one topic among the messages, in order. */
  function Numbers(ms: seq<Message>, topic: string): seq<nat>
  {
    if ms == [] then []
    else
      Numbers(ms[..|ms| - 1], topic) + Numbered(ms[|ms| - 1], topic)
  }

  /** What one numbered message of the topic adds. */
  function Numbered(m: Message, topic: string): seq<nat>
  {
    if m.topic == topic && m.seqNo.Some? then [m.seqNo.value] else []
  }

  function AllDispatched(ms: seq<Message>): seq<Call>
  {
    seq(|ms|, i requires 0 <= i < |ms| => DidDispatch(ms[i]))
  }

  lemma DispatchedMore(calls: seq<Call>, ms: seq<Message>, m: Message)
    ensures calls + AllDispatched(ms + [m]) == calls + AllDispatched(ms) + [DidDispatch(m)]
  {
  }

  lemma NumbersMore(ms: seq<Message>, m: Message, topic: string)
    ensures Numbers(ms + [m], topic) == Numbers(ms, topic) + Numbered(m, topic)
  {
    assert (ms + [m])[..|ms|] == ms;
  }

  lemma ReadMore(log: seq<Input>, numbers: seq<nat>, m: Message, topic: string)
    requires m.seqNo.None? ==> !Invalidates(m, topic)
    ensures log + AllRead(numbers) + Hears(DidDispatch(m), topic) == log + AllRead(numbers + Numbered(m, topic))
  {
    if m.topic == topic && m.seqNo.Some? {
      assert AllRead(numbers + [m.seqNo.value]) == AllRead(numbers) + [Reads(m.seqNo.value)];
    } else {
      assert numbers + [] == numbers;
    }
  }

  lemma HeardDispatchedMore(calls: seq<Call>, ms: seq<Message>, m: Message, topic: string)
    requires m.seqNo.None? ==> !Invalidates(m, topic)
    requires Heard(calls + AllDispatched(ms), topic) == Heard(calls, topic) + AllRead(Numbers(ms, topic))
    ensures Heard(calls + AllDispatched(ms + [m]), topic) == Heard(calls, topic) + AllRead(Numbers(ms + [m], topic))
  {
    DispatchedMore(calls, ms, m);
    NumbersMore(ms, m, topic);
    HeardMore(calls + AllDispatched(ms), DidDispatch(m), topic);
    ReadMore(Heard(calls, topic), Numbers(ms, topic), m, topic);
  }

  lemma {:induction false} HeardDispatched(calls: seq<Call>, ms: seq<Message>, topic: string)
    requires forall m :: m in ms && m.seqNo.None? ==> !Invalidates(m, topic)
    ensures Heard(calls + AllDispatched(ms), topic) == Heard(calls, topic) + AllRead(Numbers(ms, topic))
    decreases |ms|
  {
    if ms == [] {
      assert calls + AllDispatched(ms) == calls;
      NoInput(Heard(calls, topic));
    } else {
      var init, m := ms[..|ms| - 1], ms[|ms| - 1];
      assert m in ms && ms == init + [m];
      HeardDispatched(calls, init, topic);
      HeardDispatchedMore(calls, init, m, topic);
    }
  }

  /** A recovery frame, any messages that do not invalidate the topic, and the
      answer: accepted, it leaves the greatest of the offset asked and the topic's
      numbers; refused, the offset asked. */
  lemma RecoveredOffset(calls: seq<Call>, topic: string, ref: nat, recover: map<string, Resume>, ms: seq<Message>,
                        accepted: bool)
    requires topic in recover && forall m :: m in ms && m.seqNo.None? ==> !Invalidates(m, topic)
    ensures var all := calls + [DidSend(ref, recover)] + AllDispatched(ms) + [DidFinish(topic, ref, accepted)];
            var t := Track(Heard(all, topic));
            var offset, numbers := recover[topic].offset, Numbers(ms, topic);
            && t.pending.None? && t.last.Some?
            && (!accepted ==> t.last.value == offset)
            && (accepted ==> (t.last.value == offset || t.last.value in numbers)
                             && offset <= t.last.value && forall n :: n in numbers ==> n <= t.last.value)
  {
    var sent := calls + [DidSend(ref, recover)];
    HeardMore(calls, DidSend(ref, recover), topic);
    HeardDispatched(sent, ms, topic);
    HeardMore(sent + AllDispatched(ms), DidFinish(topic, ref, accepted), topic);
    WholeRecovery(Heard(calls, topic), ref, recover[topic].offset, Numbers(ms, topic), accepted);
  }

  class Trackers {
    var lastSeenSeqs: map<string, nat>
    var pendingRecoveries: map<string, Pending>
    var lastSeenEpochs: map<string, nat>
    ghost var calls: seq<Call>

    /** Every topic stands where the calls so far put it. */
    ghost predicate Valid()
      reads this
    {
      forall topic :: Of(topic) == Track(Heard(calls, topic))
    }

    function Of(topic: string): Tracker
      reads this
    {
      Tracker(if topic in lastSeenSeqs then Some(lastSeenSeqs[topic]) else None,
              if topic in pendingRecoveries then Some(pendingRecoveries[topic]) else None)
    }

    constructor ()
      ensures Valid() && calls == [] && forall topic :: Of(topic) == Tracker(None, None)
    {
      lastSeenSeqs, pendingRecoveries, lastSeenEpochs, calls := map[], map[], map[], [];
    }

    /** The part of `doConnect` that forgets the recoveries of the last socket. */
    method Reset()
      requires Valid()
      modifies this`pendingRecoveries, this`calls
      ensures Valid() && calls == old(calls) + [DidReset]
      ensures forall topic :: Of(topic) == old(Of(topic)).(pending := None)
    {
      pendingRecoveries := map[];
      Record(DidReset);
    }

    /** `call` has moved every topic as it should. */
    ghost method Record(call: Call)
      requires forall topic ::
                 Of(topic) == (if Hears(call, topic) == [] then Track(Heard(calls, topic))
                               else Tracked(Track(Heard(calls, topic)), Hears(call, topic)[0]))
      modifies this`calls
      ensures Valid() && calls == old(calls) + [call]
    {
      forall topic ensures Of(topic) == Track(Heard(calls + [call], topic)) { CallTracks(calls, call, topic); }
      calls := calls + [call];
    }

    /** The saved offset of a topic is the greatest number that counts, and its
        recovery is outstanding while the request is unanswered. */
    lemma SavedOffset(topic: string)
      requires Valid()
      ensures IsGreatest(Heard(calls, topic), Of(topic).last) && PendingOk(Heard(calls, topic), Of(topic).pending)
    {
      OffsetIsGreatest(Heard(calls, topic));
    }

    method Unsubscribe(topic: string)
      requires Valid()
      modifies this`pendingRecoveries, this`calls
      ensures Valid() && calls == old(calls) + [DidUnsubscribe(topic)]
      ensures forall t :: Of(t) == if t == topic then old(Of(t)).(pending := None) else old(Of(t))
    {
      pendingRecoveries := pendingRecoveries - {topic};
      Record(DidUnsubscribe(topic));
    }

    /** `open` says the socket is open; otherwise nothing is sent or recorded. */
    method SendRecoveryFrame(open: bool, ref: nat, recover: map<string, Resume>) returns (sent: bool)
      requires Valid()
      modifies this`pendingRecoveries, this`lastSeenSeqs, this`calls
      ensures Valid() && calls == old(calls) + (if open then [DidSend(ref, recover)] else [])
      ensures sent == open
      ensures forall topic :: Of(topic) ==
                if open && topic in recover then Ask(old(Of(topic)), ref, recover[topic].offset) else old(Of(topic))
    {
      if !open { return false; }
      Present(ref, recover);
      Record(DidSend(ref, recover));
      return true;
    }

    method Present(ref: nat, recover: map<string, Resume>)
      modifies this`pendingRecoveries, this`lastSeenSeqs
      ensures forall topic :: Of(topic) ==
                if topic in recover then Ask(old(Of(topic)), ref, recover[topic].offset) else old(Of(topic))
    {
      var left := recover.Keys;
      while left != {}
        invariant left <= recover.Keys
        invariant forall topic :: Of(topic) ==
                    if topic in recover && topic !in left then Ask(old(Of(topic)), ref, recover[topic].offset)
                    else old(Of(topic))
        decreases |left|
      {
        var topic :| topic in left;
        pendingRecoveries := pendingRecoveries[topic := Pending(ref, None)];
        lastSeenSeqs := lastSeenSeqs[topic := recover[topic].offset];
        left := left - {topic};
      }
    }

    method FinishRecovery(topic: string, ref: int, accepted: bool)
      requires Valid()
      modifies this`pendingRecoveries, this`lastSeenSeqs, this`calls
      ensures Valid() && calls == old(calls) + [DidFinish(topic, ref, accepted)]
      ensures forall t :: Of(t) == if t == topic then Finish(old(Of(t)), ref, accepted) else old(Of(t))
    {
      Settle(topic, ref, accepted);
      Record(DidFinish(topic, ref, accepted));
    }

    method Settle(topic: string, ref: int, accepted: bool)
      modifies this`pendingRecoveries, this`lastSeenSeqs
      ensures forall t :: Of(t) == if t == topic then Finish(old(Of(t)), ref, accepted) else old(Of(t))
    {
      if topic !in pendingRecoveries || ref != pendingRecoveries[topic].ref { return; }
      var pending := pendingRecoveries[topic];
      pendingRecoveries := pendingRecoveries - {topic};
      if accepted && pending.highest.Some? {
        if topic !in lastSeenSeqs || pending.highest.value > lastSeenSeqs[topic] {
          lastSeenSeqs := lastSeenSeqs[topic := pending.highest.value];
        }
      }
    }

    /** A `subscribed` acknowledgement also reports the topic's generation. */
    method OnSubscribed(topic: string, ref: int, epoch: Option<nat>)
      requires Valid()
      modifies this
      ensures Valid() && calls == old(calls) + [DidFinish(topic, ref, true)]
      ensures forall t :: Of(t) == if t == topic then Finish(old(Of(t)), ref, true) else old(Of(t))
      ensures lastSeenEpochs == if epoch.Some? then old(lastSeenEpochs)[topic := epoch.value] else old(lastSeenEpochs)
    {
      FinishRecovery(topic, ref, true);
      if epoch.Some? { lastSeenEpochs := lastSeenEpochs[topic := epoch.value]; }
    }

    /** The bookkeeping of `dispatchEvent`. */
    method Dispatch(m: Message)
      requires Valid()
      modifies this
      ensures Valid() && calls == old(calls) + [DidDispatch(m)]
      ensures forall t :: Of(t) == Dispatched(old(Of(t)), t, m)
      ensures lastSeenEpochs ==
                if IsMarker(m) && m.event == "rehydrate" && m.epoch.Some?
                then old(lastSeenEpochs)[m.topic[|REPLAY|..] := m.epoch.value] else old(lastSeenEpochs)
    {
      TrackMessage(m);
      forall topic ensures Dispatched(old(Of(topic)), topic, m) ==
                             (if Hears(DidDispatch(m), topic) == [] then old(Of(topic))
                              else Tracked(old(Of(topic)), Hears(DidDispatch(m), topic)[0]))
      {
        MarkerIsHeard(m, topic);
      }
      Record(DidDispatch(m));
    }

    method TrackMessage(m: Message)
      modifies this`lastSeenSeqs, this`pendingRecoveries, this`lastSeenEpochs
      ensures forall t :: Of(t) == Dispatched(old(Of(t)), t, m)
      ensures lastSeenEpochs ==
                if IsMarker(m) && m.event == "rehydrate" && m.epoch.Some?
                then old(lastSeenEpochs)[m.topic[|REPLAY|..] := m.epoch.value] else old(lastSeenEpochs)
    {
      if m.seqNo.Some? {
        var n := m.seqNo.value;
        if m.topic in pendingRecoveries {
          var pending := pendingRecoveries[m.topic];
          if pending.highest.None? || n > pending.highest.value {
            pendingRecoveries := pendingRecoveries[m.topic := pending.(highest := Some(n))];
          }
        } else if m.topic !in lastSeenSeqs || n > lastSeenSeqs[m.topic] {
          lastSeenSeqs := lastSeenSeqs[m.topic := n];
        }
      } else if IsMarker(m) {
        var base := m.topic[|REPLAY|..];
        lastSeenSeqs := lastSeenSeqs - {base};
        if base in pendingRecoveries {
          pendingRecoveries := pendingRecoveries[base := pendingRecoveries[base].(highest := None)];
        }
        if m.event == "rehydrate" && m.epoch.Some? {
          lastSeenEpochs := lastSeenEpochs[base := m.epoch.value];
        }
      }
    }

    /** The entry a resubscription of `topic` carries in its `recover` map. */
    function ResumeOf(topic: string): (r: Option<Resume>)
      reads this
      ensures r.Some? <==> Of(topic).last.Some?
      ensures r.Some? ==> Of(topic).last == Some(r.value.offset)
      ensures r.Some? ==> (r.value.epoch.Some? <==> topic in lastSeenEpochs)
      ensures r.Some? && topic in lastSeenEpochs ==> r.value.epoch.value == lastSeenEpochs[topic]
    {
      if topic in lastSeenSeqs then
        Some(Resume(lastSeenSeqs[topic], if topic in lastSeenEpochs then Some(lastSeenEpochs[topic]) else None))
      else None
    }
  }
}
