/** The two subscribe-batch chunkers of src/client.js, with the bytes of the
    frames they are for. A character stands for one UTF-8 byte of the text
    `JSON.stringify` would give. */
module Chunker {
  import opened Options
  import opened Text
  import opened Partition
  import opened RecoveryTracker

  /** The decimal digits of a number. */
  function Decimal(n: nat): string { Digits(n, 10, false) }

  const OFFSET_KEY := "{\"offset\":"
  const EPOCH_KEY := ",\"epoch\":"

  /** `{"offset":o}` or `{"offset":o,"epoch":e}` */
  function EntryText(r: Resume): string { OFFSET_KEY + (Decimal(r.offset) + EpochText(r.epoch)) }

  function EpochText(epoch: Option<nat>): string
  {
    (if epoch.Some? then EPOCH_KEY + Decimal(epoch.value) else "") + "}"
  }

  // ---------------------------------------------------------------------
  // An entry shows both its numbers

  /** How many decimal digits a text starts with. */
  function LeadDigits(s: string): (n: nat)
    ensures n <= |s|
  {
    if s == "" || DigitValue(s[0]) >= 10 then 0 else 1 + LeadDigits(s[1..])
  }

  /** An entry as a JSON reader finds it. */
  function ReadEntry(s: string): Option<Resume>
  {
    if OFFSET_KEY <= s then ReadNumbers(s[|OFFSET_KEY|..]) else None
  }

  function ReadNumbers(s: string): Option<Resume>
  {
    var n := LeadDigits(s);
    ReadEpoch(Value(s[..n], 10), s[n..])
  }

  function ReadEpoch(offset: nat, s: string): Option<Resume>
  {
    if s == "}" then Some(Resume(offset, None))
    else if EPOCH_KEY <= s && s[|s| - 1] == '}' then
      Some(Resume(offset, Some(Value(s[|EPOCH_KEY|..|s| - 1], 10))))
    else None
  }

  lemma {:induction false} LeadDigitsAre(digits: string, tail: string)
    requires forall i :: 0 <= i < |digits| ==> DigitValue(digits[i]) < 10
    requires tail != "" && DigitValue(tail[0]) >= 10
    ensures LeadDigits(digits + tail) == |digits|
    decreases |digits|
  {
    if digits == "" {
      assert digits + tail == tail;
    } else {
      LeadDigitsAre(digits[1..], tail);
      assert (digits + tail)[1..] == digits[1..] + tail;
    }
  }

  lemma EpochReadsBack(offset: nat, epoch: Option<nat>)
    ensures ReadEpoch(offset, EpochText(epoch)) == Some(Resume(offset, epoch))
  {
    if epoch.Some? {
      var digits := Decimal(epoch.value);
      ValueOfDigits(epoch.value, 10, false);
      var s := EpochText(epoch);
      assert s == EPOCH_KEY + digits + "}" && s[0] == ',';
      assert s[|EPOCH_KEY|..|s| - 1] == digits;
    }
  }

  lemma NumbersReadBack(offset: nat, tail: string)
    requires tail != "" && DigitValue(tail[0]) >= 10
    ensures ReadNumbers(Decimal(offset) + tail) == ReadEpoch(offset, tail)
  {
    var digits := Decimal(offset);
    DigitsAreNumeral(offset, 10, false);
    ValueOfDigits(offset, 10, false);
    LeadDigitsAre(digits, tail);
    assert (digits + tail)[..|digits|] == digits && (digits + tail)[|digits|..] == tail;
  }

  lemma KeyIsCut(key: string, rest: string)
    ensures key <= key + rest && (key + rest)[|key|..] == rest
  {
  }

  lemma EpochStarts(epoch: Option<nat>)
    ensures EpochText(epoch) != "" && DigitValue(EpochText(epoch)[0]) >= 10
  {
  }

  /** The text of an entry shows its offset and its epoch. */
  lemma EntryReadsBack(r: Resume)
    ensures ReadEntry(EntryText(r)) == Some(r)
  {
    KeyIsCut(OFFSET_KEY, Decimal(r.offset) + EpochText(r.epoch));
    EpochStarts(r.epoch);
    NumbersReadBack(r.offset, EpochText(r.epoch));
    EpochReadsBack(r.offset, r.epoch);
  }

  /** What one topic adds to a frame: its quoted name, its entry in the
      `recover` map if it is tracked, and their separators. */
  function EntryBytes(topic: string, quote: string -> string, tracked: map<string, Resume>): nat
  {
    |quote(topic)| + 1
    + (if topic in tracked then |quote(topic) + ":" + EntryText(tracked[topic])| + 1 else 0)
  }

  function Sizes(quote: string -> string, tracked: map<string, Resume>): string -> nat
  {
    t => EntryBytes(t, quote, tracked)
  }

  lemma PlainSize(t: string, quote: string -> string)
    ensures Sizes(quote, map[])(t) == |quote(t)| + 1
  {
  }

  method ChunkTopicsForBatch(topics: seq<string>, quote: string -> string) returns (out: seq<seq<string>>)
    ensures out == Chunks(Pack(topics, Sizes(quote, map[])))
    ensures Optimal(out, topics, Sizes(quote, map[]))
  {
    ghost var size := Sizes(quote, map[]);
    out := [];
    var chunk: seq<string> := [];
    var chunkBytes := ENVELOPE_BYTES;
    for i := 0 to |topics|
      invariant chunkBytes == ENVELOPE_BYTES + Total(chunk, size)
      invariant Packing(out, chunk) == Pack(topics[..i], size)
    {
      var t := topics[i];
      var entryBytes := |quote(t)| + 1;
      PlainSize(t, quote);
      PackNext(topics, i, size);
      if |chunk| > 0 && (|chunk| >= MAX_TOPICS || chunkBytes + entryBytes > MAX_BYTES) {
        out := out + [chunk];
        chunk := [];
        chunkBytes := ENVELOPE_BYTES;
      }
      Extending(chunk, t, size);
      chunk := chunk + [t];
      chunkBytes := chunkBytes + entryBytes;
    }
    assert topics[..|topics|] == topics;
    PackIsOptimal(topics, size);
    if |chunk| > 0 { out := out + [chunk]; }
  }

  /** A resubscribe chunk; `recover` is `None` where the source has null. */
  datatype Chunk = Chunk(topics: seq<string>, recover: Option<map<string, Resume>>)

  function TopicsOf(chunks: seq<Chunk>): seq<seq<string>>
  {
    if chunks == [] then [] else TopicsOf(chunks[..|chunks| - 1]) + [chunks[|chunks| - 1].topics]
  }

  /** The wire topics the client may resubscribe itself. */
  function Unmanaged(topics: seq<string>, managed: set<string>): seq<string>
  {
    if topics == [] then []
    else
      var before, t := Unmanaged(topics[..|topics| - 1], managed), topics[|topics| - 1];
      if t in managed then before else before + [t]
  }

  lemma PackMore(topics: seq<string>, i: nat, managed: set<string>, size: string -> nat)
    requires i < |topics|
    ensures var before := Pack(Unmanaged(topics[..i], managed), size);
            Pack(Unmanaged(topics[..i + 1], managed), size) ==
              if topics[i] in managed then before else Place(before, topics[i], size)
  {
    assert topics[..i + 1][..i] == topics[..i];
    var more := Unmanaged(topics[..i + 1], managed);
    if topics[i] !in managed { assert more[..|more| - 1] == Unmanaged(topics[..i], managed); }
  }

  /** `recover` holds exactly the tracked topics of the chunk, with their entries. */
  ghost predicate RecoversExactly(c: Chunk, tracked: map<string, Resume>)
  {
    && (c.recover.None? <==> forall t :: t in c.topics ==> t !in tracked)
    && (c.recover.Some? ==>
          && (forall t :: t in c.recover.value <==> t in c.topics && t in tracked)
          && (forall t :: t in c.recover.value ==> c.recover.value[t] == tracked[t]))
  }

  ghost predicate AllRecoverExactly(chunks: seq<Chunk>, tracked: map<string, Resume>)
  {
    forall i :: 0 <= i < |chunks| ==> RecoversExactly(chunks[i], tracked)
  }

  /** The entries of a chunk, gathered as its topics are added. */
  function RecoverOf(topics: seq<string>, tracked: map<string, Resume>): Option<map<string, Resume>>
  {
    if topics == [] then None
    else
      var before, t := RecoverOf(topics[..|topics| - 1], tracked), topics[|topics| - 1];
      if t !in tracked then before
      else Some((if before.None? then map[] else before.value)[t := tracked[t]])
  }

  function Attach(chunks: seq<seq<string>>, tracked: map<string, Resume>): seq<Chunk>
  {
    if chunks == [] then []
    else
      var last := |chunks| - 1;
      Attach(chunks[..last], tracked) + [Chunk(chunks[last], RecoverOf(chunks[last], tracked))]
  }

  lemma {:induction false} RecoverOfIsExact(topics: seq<string>, tracked: map<string, Resume>)
    ensures RecoversExactly(Chunk(topics, RecoverOf(topics, tracked)), tracked)
    decreases |topics|
  {
    if topics != [] {
      var init, t := topics[..|topics| - 1], topics[|topics| - 1];
      RecoverOfIsExact(init, tracked);
      assert forall u :: u in topics <==> u in init || u == t;
    }
  }

  lemma {:induction false} AttachIsExact(chunks: seq<seq<string>>, tracked: map<string, Resume>)
    ensures TopicsOf(Attach(chunks, tracked)) == chunks
    ensures AllRecoverExactly(Attach(chunks, tracked), tracked)
    decreases |chunks|
  {
    if chunks != [] {
      var last := |chunks| - 1;
      AttachIsExact(chunks[..last], tracked);
      RecoverOfIsExact(chunks[last], tracked);
      var all := Attach(chunks, tracked);
      assert all[..|all| - 1] == Attach(chunks[..last], tracked);
    }
  }

  lemma AttachMore(closed: seq<seq<string>>, chunk: seq<string>, tracked: map<string, Resume>)
    ensures Attach(closed + [chunk], tracked) == Attach(closed, tracked) + [Chunk(chunk, RecoverOf(chunk, tracked))]
  {
    assert (closed + [chunk])[..|closed|] == closed;
  }

  lemma RecoverMore(chunk: seq<string>, t: string, tracked: map<string, Resume>)
    ensures var before := RecoverOf(chunk, tracked);
            RecoverOf(chunk + [t], tracked) ==
              if t !in tracked then before else Some((if before.None? then map[] else before.value)[t := tracked[t]])
  {
    assert (chunk + [t])[..|chunk|] == chunk;
  }

  lemma Concluded(closed: seq<seq<string>>, chunk: seq<string>, items: seq<string>, tracked: map<string, Resume>,
                  size: string -> nat)
    requires Packing(closed, chunk) == Pack(items, size)
    ensures var out := Attach(Chunks(Packing(closed, chunk)), tracked);
            Optimal(TopicsOf(out), items, size) && AllRecoverExactly(out, tracked)
  {
    PackIsOptimal(items, size);
    AttachIsExact(Chunks(Packing(closed, chunk)), tracked);
  }

  method ChunkResubscribe(topics: seq<string>, managed: set<string>, tracked: map<string, Resume>, quote: string -> string)
    returns (out: seq<Chunk>)
    ensures Optimal(TopicsOf(out), Unmanaged(topics, managed), Sizes(quote, tracked))
    ensures AllRecoverExactly(out, tracked)
  {
    ghost var size := Sizes(quote, tracked);
    out := [];
    ghost var closed: seq<seq<string>> := [];
    var chunk: seq<string> := [];
    var recover: Option<map<string, Resume>> := None;
    var chunkBytes := ENVELOPE_BYTES;
    for i := 0 to |topics|
      invariant chunkBytes == ENVELOPE_BYTES + Total(chunk, size)
      invariant Packing(closed, chunk) == Pack(Unmanaged(topics[..i], managed), size)
      invariant out == Attach(closed, tracked) && recover == RecoverOf(chunk, tracked)
    {
      var t := topics[i];
      PackMore(topics, i, managed, size);
      if t in managed { continue; }
      var entryBytes := |quote(t)| + 1;
      if t in tracked {
        entryBytes := entryBytes + |quote(t) + ":" + EntryText(tracked[t])| + 1;
      }
      if |chunk| > 0 && (|chunk| >= MAX_TOPICS || chunkBytes + entryBytes > MAX_BYTES) {
        AttachMore(closed, chunk, tracked);
        closed := closed + [chunk];
        out := out + [Chunk(chunk, recover)];
        chunk := [];
        recover := None;
        chunkBytes := ENVELOPE_BYTES;
      }
      Extending(chunk, t, size);
      RecoverMore(chunk, t, tracked);
      chunk := chunk + [t];
      if t in tracked {
        recover := Some((if recover.None? then map[] else recover.value)[t := tracked[t]]);
      }
      chunkBytes := chunkBytes + entryBytes;
    }
    assert topics[..|topics|] == topics;
    Concluded(closed, chunk, Unmanaged(topics, managed), tracked, size);
    if |chunk| > 0 {
      AttachMore(closed, chunk, tracked);
      out := out + [Chunk(chunk, recover)];
    }
  }

  // ---------------------------------------------------------------------
  // The frame a chunk is sent as

  /** The parts separated by commas. */
  function Joined(parts: seq<string>): string
  {
    if parts == [] then ""
    else
      var last := |parts| - 1;
      if last == 0 then parts[0] else Joined(parts[..last]) + "," + parts[last]
  }

  function Quoted(topics: seq<string>, quote: string -> string): seq<string>
  {
    if topics == [] then []
    else Quoted(topics[..|topics| - 1], quote) + [quote(topics[|topics| - 1])]
  }

  function Entries(topics: seq<string>, tracked: map<string, Resume>, quote: string -> string): seq<string>
  {
    if topics == [] then []
    else
      var before, t := Entries(topics[..|topics| - 1], tracked, quote), topics[|topics| - 1];
      if t in tracked then before + [quote(t) + ":" + EntryText(tracked[t])] else before
  }

  /** The text of a subscribe-batch frame. */
  function FrameText(topics: seq<string>, ref: nat, tracked: map<string, Resume>, quote: string -> string): string
  {
    var entries := Entries(topics, tracked, quote);
    "{\"type\":\"subscribe-batch\",\"topics\":[" + Joined(Quoted(topics, quote)) + "],\"ref\":" + Decimal(ref)
    + (if entries == [] then "" else ",\"recover\":{" + Joined(entries) + "}") + "}"
  }

  lemma JoinedMore(parts: seq<string>, p: string)
    ensures |Joined(parts + [p])| == (if parts == [] then 0 else |Joined(parts)| + 1) + |p|
  {
    assert (parts + [p])[..|parts|] == parts;
  }

  /** The budget counts every byte of both lists and their separators. */
  lemma {:induction false} BytesAreCounted(topics: seq<string>, tracked: map<string, Resume>, quote: string -> string)
    requires topics != []
    ensures var entries := Entries(topics, tracked, quote);
            Total(topics, Sizes(quote, tracked)) ==
              |Joined(Quoted(topics, quote))| + 1 + (if entries == [] then 0 else |Joined(entries)| + 1)
    decreases |topics|
  {
    var init, t := topics[..|topics| - 1], topics[|topics| - 1];
    JoinedMore(Quoted(init, quote), quote(t));
    if t in tracked { JoinedMore(Entries(init, tracked, quote), quote(t) + ":" + EntryText(tracked[t])); }
    if init != [] {
      BytesAreCounted(init, tracked, quote);
      assert Quoted(init, quote) != [];
    }
  }

  function Pow10(k: nat): nat { if k == 0 then 1 else 10 * Pow10(k - 1) }

  lemma {:induction false} DecimalLength(n: nat, k: nat)
    requires 1 <= k && n < Pow10(k)
    ensures |Decimal(n)| <= k
  {
    if n >= 10 { DecimalLength(n / 10, k - 1); }
  }

  /** A chunk of several topics is sent in a frame below the server's ceiling,
      for every ref a counter in a double can reach. */
  lemma FramesStayBelowCeiling(topics: seq<string>, ref: nat, tracked: map<string, Resume>, quote: string -> string)
    requires |topics| > 1 && Fits(topics, Sizes(quote, tracked))
    requires ref <= 9_007_199_254_740_992
    ensures |FrameText(topics, ref, tracked, quote)| < 8192
  {
    BytesAreCounted(topics, tracked, quote);
    assert Pow10(16) == 10_000_000_000_000_000 by { assert Pow10(8) == 1_0000_0000; }
    DecimalLength(ref, 16);
  }

  lemma TwoJoined(a: string, b: string)
    ensures Joined([a, b]) == a + "," + b && Joined([a]) == a
  {
    assert [a, b][..1] == [a];
  }

  lemma TwoListed(a: string, b: string, tracked: map<string, Resume>, quote: string -> string)
    ensures Quoted([a, b], quote) == [quote(a), quote(b)]
    ensures Entries([a, b], tracked, quote) ==
              (if a in tracked then [quote(a) + ":" + EntryText(tracked[a])] else [])
              + (if b in tracked then [quote(b) + ":" + EntryText(tracked[b])] else [])
  {
    assert [a, b][..1] == [a] && [a][..0] == [];
    assert Quoted([a], quote) == [quote(a)];
    assert Entries([a], tracked, quote) == if a in tracked then [quote(a) + ":" + EntryText(tracked[a])] else [];
  }

  /** The frame of two topics with nothing to recover, as it goes out. */
  lemma FrameOfTwo(a: string, b: string, quote: string -> string)
    ensures FrameText([a, b], 7, map[], quote) ==
              "{\"type\":\"subscribe-batch\",\"topics\":[" + (quote(a) + "," + quote(b)) + "],\"ref\":" + "7" + "" + "}"
  {
    TwoListed(a, b, map[], quote);
    TwoJoined(quote(a), quote(b));
    assert Decimal(7) == "7";
  }

  /** The same with the second to recover. */
  lemma RecoveryFrameOfTwo(a: string, b: string, r: Resume, quote: string -> string)
    requires a != b
    ensures FrameText([a, b], 7, map[b := r], quote) ==
              "{\"type\":\"subscribe-batch\",\"topics\":[" + (quote(a) + "," + quote(b)) + "],\"ref\":" + "7"
              + (",\"recover\":{" + (quote(b) + ":" + EntryText(r)) + "}") + "}"
  {
    TwoListed(a, b, map[b := r], quote);
    TwoJoined(quote(a), quote(b));
    TwoJoined(quote(b) + ":" + EntryText(r), "");
    assert Decimal(7) == "7";
  }

  lemma EntriesAsSent()
    ensures EntryText(Resume(5, None)) == "{\"offset\":5}"
    ensures EntryText(Resume(5, Some(2))) == "{\"offset\":5,\"epoch\":2}"
  {
    assert Decimal(5) == "5" && Decimal(2) == "2";
  }
}
