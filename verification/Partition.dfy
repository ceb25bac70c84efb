/** Contiguous partitions of a sequence under the batch limits of src/client.js,
    and why filling each chunk greedily gives the fewest. */
module Partition {
  const ENVELOPE_BYTES := 50
  const MAX_BYTES := 8000
  const MAX_TOPICS := 200

  function Total<T>(items: seq<T>, size: T -> nat): nat
  {
    if items == [] then 0 else Total(items[..|items| - 1], size) + size(items[|items| - 1])
  }

  function Flatten<T>(chunks: seq<seq<T>>): seq<T>
  {
    if chunks == [] then [] else Flatten(chunks[..|chunks| - 1]) + chunks[|chunks| - 1]
  }

  /** One chunk is within the limits; a single item may exceed the byte limit. */
  predicate Fits<T>(items: seq<T>, size: T -> nat)
  {
    1 <= |items| <= MAX_TOPICS && (|items| == 1 || ENVELOPE_BYTES + Total(items, size) <= MAX_BYTES)
  }

  ghost predicate AllFit<T>(chunks: seq<seq<T>>, size: T -> nat)
  {
    forall i :: 0 <= i < |chunks| ==> Fits(chunks[i], size)
  }

  /** No chunk could have taken the first item of the next one. */
  ghost predicate Tight<T>(chunks: seq<seq<T>>, size: T -> nat)
    requires AllFit(chunks, size)
  {
    forall i :: 0 < i < |chunks| ==> !Fits(chunks[i - 1] + chunks[i][..1], size)
  }

  /** Chunks partition `items` in order within the limits, and no other way of
      doing so has fewer. */
  ghost predicate Optimal<T(!new)>(chunks: seq<seq<T>>, items: seq<T>, size: T -> nat)
  {
    && AllFit(chunks, size) && Flatten(chunks) == items
    && forall other :: AllFit(other, size) && Flatten(other) == items ==> |chunks| <= |other|
  }

  lemma {:induction false} TotalOfTake<T>(items: seq<T>, hi: nat, size: T -> nat)
    requires hi <= |items|
    ensures Total(items[..hi], size) <= Total(items, size)
    decreases |items|
  {
    if hi == |items| {
      assert items[..hi] == items;
    } else {
      var init := items[..|items| - 1];
      TotalOfTake(init, hi, size);
      assert init[..hi] == items[..hi];
    }
  }

  lemma {:induction false} TotalOfDrop<T>(items: seq<T>, lo: nat, size: T -> nat)
    requires lo <= |items|
    ensures Total(items[lo..], size) <= Total(items, size)
    decreases |items|
  {
    if lo < |items| {
      var init, rest := items[..|items| - 1], items[lo..];
      TotalOfDrop(init, lo, size);
      assert rest[..|rest| - 1] == init[lo..] && rest[|rest| - 1] == items[|items| - 1];
    }
  }

  lemma TotalOfSlice<T>(items: seq<T>, lo: nat, hi: nat, size: T -> nat)
    requires lo <= hi <= |items|
    ensures Total(items[lo..hi], size) <= Total(items, size)
  {
    TotalOfTake(items, hi, size);
    TotalOfDrop(items[..hi], lo, size);
    assert items[..hi][lo..] == items[lo..hi];
  }

  lemma SliceFits<T>(items: seq<T>, lo: nat, hi: nat, size: T -> nat)
    requires lo < hi <= |items| && Fits(items, size)
    ensures Fits(items[lo..hi], size)
  {
    TotalOfSlice(items, lo, hi, size);
  }

  /** Where chunk `k` ends. */
  ghost function End<T>(chunks: seq<seq<T>>, k: nat): nat
    requires k <= |chunks|
  {
    |Flatten(chunks[..k])|
  }

  lemma SliceOfFront<T>(front: seq<T>, last: seq<T>, a: nat, b: nat)
    requires a <= b <= |front|
    ensures (front + last)[a..b] == front[a..b]
    ensures (front + last)[|front|..|front| + |last|] == last
  {
  }

  lemma {:induction false} Locate<T>(chunks: seq<seq<T>>, k: nat)
    requires k < |chunks|
    ensures End(chunks, k) + |chunks[k]| == End(chunks, k + 1) <= |Flatten(chunks)|
    ensures Flatten(chunks)[End(chunks, k)..End(chunks, k + 1)] == chunks[k]
    decreases |chunks|
  {
    var init, last := chunks[..|chunks| - 1], chunks[|chunks| - 1];
    assert Flatten(chunks) == Flatten(init) + last;
    if k < |init| {
      Locate(init, k);
      assert init[..k] == chunks[..k] && init[..k + 1] == chunks[..k + 1];
      SliceOfFront(Flatten(init), last, End(init, k), End(init, k + 1));
    } else {
      assert chunks[..k] == init && chunks[..k + 1] == chunks;
      SliceOfFront(Flatten(init), last, 0, 0);
    }
  }

  lemma Adjoin<T>(all: seq<T>, a: nat, b: nat, c: nat)
    requires a <= b < c <= |all|
    ensures all[a..b + 1] == all[a..b] + all[b..c][..1]
  {
  }

  lemma Straddle<T>(chunks: seq<seq<T>>, k: nat)
    requires 0 < k < |chunks| && |chunks[k]| > 0
    ensures End(chunks, k) + 1 <= |Flatten(chunks)| && End(chunks, k - 1) + |chunks[k - 1]| == End(chunks, k)
    ensures Flatten(chunks)[End(chunks, k - 1)..End(chunks, k) + 1] == chunks[k - 1] + chunks[k][..1]
  {
    Locate(chunks, k - 1);
    Locate(chunks, k);
    Adjoin(Flatten(chunks), End(chunks, k - 1), End(chunks, k), End(chunks, k + 1));
  }

  /** A chunk that starts no later than the greedy one ends no later: otherwise it
      would hold the greedy chunk and the item that did not fit. */
  lemma CannotOverrun<T>(chunks: seq<seq<T>>, other: seq<seq<T>>, size: T -> nat, k: nat)
    requires AllFit(chunks, size) && Tight(chunks, size) && AllFit(other, size) && Flatten(chunks) == Flatten(other)
    requires 0 < k < |chunks| && k <= |other| && End(other, k - 1) <= End(chunks, k - 1)
    ensures End(other, k) <= End(chunks, k)
  {
    Locate(other, k - 1);
    if End(other, k) > End(chunks, k) {
      Straddle(chunks, k);
      InnerSliceFits(Flatten(other), End(other, k - 1), End(other, k), End(chunks, k - 1), End(chunks, k) + 1, size);
      assert false;
    }
  }

  /** Greedy chunks stay ahead of any others. */
  lemma {:induction false} StaysAhead<T>(chunks: seq<seq<T>>, other: seq<seq<T>>, size: T -> nat, k: nat)
    requires AllFit(chunks, size) && Tight(chunks, size) && AllFit(other, size)
    requires Flatten(chunks) == Flatten(other)
    requires k <= |chunks| && k <= |other|
    ensures End(other, k) <= End(chunks, k)
    decreases k
  {
    if k > 0 {
      StaysAhead(chunks, other, size, k - 1);
      if k == |chunks| {
        Locate(other, k - 1);
        assert chunks[..k] == chunks;
      } else {
        CannotOverrun(chunks, other, size, k);
      }
    }
  }

  lemma InnerSliceFits<T>(all: seq<T>, from: nat, to: nat, start: nat, stop: nat, size: T -> nat)
    requires from <= start < stop <= to <= |all| && Fits(all[from..to], size)
    ensures Fits(all[start..stop], size)
  {
    var part, inner := all[from..to], all[start..stop];
    forall i | 0 <= i < |inner| ensures part[start - from..stop - from][i] == inner[i] {
      assert part[start - from + i] == all[start + i];
    }
    assert part[start - from..stop - from] == inner;
    SliceFits(all[from..to], start - from, stop - from, size);
  }

  lemma GreedyIsOptimal<T(!new)>(chunks: seq<seq<T>>, items: seq<T>, size: T -> nat)
    requires AllFit(chunks, size) && Tight(chunks, size) && Flatten(chunks) == items
    ensures Optimal(chunks, items, size)
  {
    forall other | AllFit(other, size) && Flatten(other) == items
      ensures |chunks| <= |other|
    {
      if |other| < |chunks| {
        StaysAhead(chunks, other, size, |other|);
        assert other[..|other|] == other;
        Locate(chunks, |other|);
        assert false;
      }
    }
  }

  // ---------------------------------------------------------------------
  // One pass that fills a chunk until the next item does not fit

  /** `out` is closed, `chunk` is being filled, and together they hold `items`. */
  ghost predicate Filling<T>(out: seq<seq<T>>, chunk: seq<T>, items: seq<T>, size: T -> nat)
  {
    && Flatten(out) + chunk == items
    && AllFit(out, size) && Tight(out, size)
    && (chunk == [] ==> out == [])
    && (chunk != [] ==> Fits(chunk, size))
    && (chunk != [] && out != [] ==> !Fits(out[|out| - 1] + chunk[..1], size))
  }

  lemma Extending<T>(chunk: seq<T>, t: T, size: T -> nat)
    ensures Total(chunk + [t], size) == Total(chunk, size) + size(t)
    ensures Fits(chunk + [t], size) <==>
              |chunk| == 0 || (|chunk| < MAX_TOPICS && ENVELOPE_BYTES + Total(chunk, size) + size(t) <= MAX_BYTES)
  {
    assert (chunk + [t])[..|chunk|] == chunk;
  }

  lemma Added<T>(out: seq<seq<T>>, chunk: seq<T>, items: seq<T>, t: T, size: T -> nat)
    requires Filling(out, chunk, items, size) && Fits(chunk + [t], size)
    ensures Filling(out, chunk + [t], items + [t], size)
  {
    if chunk != [] { assert (chunk + [t])[..1] == chunk[..1]; }
    assert Flatten(out) + (chunk + [t]) == items + [t];
  }

  lemma Closed<T>(out: seq<seq<T>>, chunk: seq<T>, items: seq<T>, size: T -> nat)
    requires Filling(out, chunk, items, size) && chunk != []
    ensures AllFit(out + [chunk], size) && Tight(out + [chunk], size) && Flatten(out + [chunk]) == items
  {
    assert (out + [chunk])[..|out|] == out;
  }

  lemma Cut<T>(out: seq<seq<T>>, chunk: seq<T>, items: seq<T>, t: T, size: T -> nat)
    requires Filling(out, chunk, items, size) && chunk != [] && !Fits(chunk + [t], size)
    ensures Filling(out + [chunk], [t], items + [t], size)
  {
    Closed(out, chunk, items, size);
    Extending([], t, size);
    assert [t][..1] == [t];
    assert [] + [t] == [t];
  }

  predicate Full<T>(chunk: seq<T>, more: nat, size: T -> nat)
  {
    |chunk| > 0 && (|chunk| >= MAX_TOPICS || ENVELOPE_BYTES + Total(chunk, size) + more > MAX_BYTES)
  }

  datatype Packing<T> = Packing(closed: seq<seq<T>>, chunk: seq<T>)

  /** The pass, one item at a time. */
  function Pack<T>(items: seq<T>, size: T -> nat): Packing<T>
  {
    if items == [] then Packing([], [])
    else
      var last := |items| - 1;
      Place(Pack(items[..last], size), items[last], size)
  }

  function Place<T>(p: Packing<T>, t: T, size: T -> nat): Packing<T>
  {
    if Full(p.chunk, size(t), size) then Packing(p.closed + [p.chunk], [t])
    else Packing(p.closed, p.chunk + [t])
  }

  function Chunks<T>(p: Packing<T>): seq<seq<T>>
  {
    if p.chunk == [] then p.closed else p.closed + [p.chunk]
  }

  lemma PackNext<T>(items: seq<T>, i: nat, size: T -> nat)
    requires i < |items|
    ensures Pack(items[..i + 1], size) == Place(Pack(items[..i], size), items[i], size)
  {
    assert items[..i + 1][..i] == items[..i];
  }

  lemma PlaceFills<T>(p: Packing<T>, items: seq<T>, t: T, size: T -> nat)
    requires Filling(p.closed, p.chunk, items, size)
    ensures Filling(Place(p, t, size).closed, Place(p, t, size).chunk, items + [t], size)
  {
    Extending(p.chunk, t, size);
    if Full(p.chunk, size(t), size) {
      Cut(p.closed, p.chunk, items, t, size);
    } else {
      Added(p.closed, p.chunk, items, t, size);
    }
  }

  lemma FrontAndLast<T>(items: seq<T>)
    requires items != []
    ensures items == items[..|items| - 1] + [items[|items| - 1]]
  {
  }

  lemma {:induction false} PackFills<T>(items: seq<T>, size: T -> nat)
    ensures Filling(Pack(items, size).closed, Pack(items, size).chunk, items, size)
    decreases |items|
  {
    if items != [] {
      var front, last := items[..|items| - 1], items[|items| - 1];
      PackFills(front, size);
      PlaceFills(Pack(front, size), front, last, size);
      FrontAndLast(items);
    }
  }

  /** The limits of a chunk: 200 topics, and 8000 bytes with an envelope of 50,
      which a single topic may exceed. */
  lemma FitsExactly<T>(items: seq<T>, size: T -> nat)
    ensures Fits(items, size) <==> |items| == 1 || (1 < |items| <= 200 && 50 + Total(items, size) <= 8000)
  {
  }

  lemma PackIsOptimal<T(!new)>(items: seq<T>, size: T -> nat)
    ensures Optimal(Chunks(Pack(items, size)), items, size)
  {
    PackFills(items, size);
    var p := Pack(items, size);
    if p.chunk != [] { Closed(p.closed, p.chunk, items, size); }
    GreedyIsOptimal(Chunks(p), items, size);
  }
}
