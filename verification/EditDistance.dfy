/** Option-key suggestions of src/config-guards.js: a bounded Levenshtein
    distance over two rows, and the nearest documented key. Texts are sequences
    of UTF-16 code units, as JavaScript indexes them. */
module EditDistance {
  import opened Options
  import opened Utf8

  type Text = seq<Unit>

  function Min(x: nat, y: nat): nat { if x <= y then x else y }

  /** The recursive distance between two texts, last units first. */
  function Lev(a: Text, b: Text): nat
    decreases |a| + |b|
  {
    if a == [] then |b|
    else if b == [] then |a|
    else
      var a', b' := a[..|a| - 1], b[..|b| - 1];
      var cost := if a[|a| - 1] == b[|b| - 1] then 0 else 1;
      Min(Min(Lev(a', b) + 1, Lev(a, b') + 1), Lev(a', b') + cost)
  }

  // ---------------------------------------------------------------------
  // The distance is the fewest edits

  datatype Edit = Keep | Delete | Insert | Replace

  /** The edits, read from the last unit back, turn `a` into `b`. */
  ghost predicate Transforms(edits: seq<Edit>, a: Text, b: Text)
  {
    if edits == [] then a == [] && b == []
    else
      var before := edits[..|edits| - 1];
      match edits[|edits| - 1]
      case Keep => a != [] && b != [] && a[|a| - 1] == b[|b| - 1] && Transforms(before, a[..|a| - 1], b[..|b| - 1])
      case Delete => a != [] && Transforms(before, a[..|a| - 1], b)
      case Insert => b != [] && Transforms(before, a, b[..|b| - 1])
      case Replace => a != [] && b != [] && Transforms(before, a[..|a| - 1], b[..|b| - 1])
  }

  function Cost(edits: seq<Edit>): nat
  {
    if edits == [] then 0 else Cost(edits[..|edits| - 1]) + if edits[|edits| - 1] == Keep then 0 else 1
  }

  /** Every way of editing `a` into `b` costs at least the distance. */
  lemma {:induction false} NoScriptIsShorter(edits: seq<Edit>, a: Text, b: Text)
    requires Transforms(edits, a, b)
    ensures Lev(a, b) <= Cost(edits)
    decreases |edits|
  {
    if edits != [] {
      var before := edits[..|edits| - 1];
      match edits[|edits| - 1]
      case Keep => NoScriptIsShorter(before, a[..|a| - 1], b[..|b| - 1]);
      case Delete =>
        NoScriptIsShorter(before, a[..|a| - 1], b);
        DropOne(a, b);
      case Insert =>
        NoScriptIsShorter(before, a, b[..|b| - 1]);
        DropOne(a, b);
      case Replace => NoScriptIsShorter(before, a[..|a| - 1], b[..|b| - 1]);
    }
  }

  lemma DropOne(a: Text, b: Text)
    ensures a != [] ==> Lev(a, b) <= Lev(a[..|a| - 1], b) + 1
    ensures b != [] ==> Lev(a, b) <= Lev(a, b[..|b| - 1]) + 1
  {
  }

  lemma AppendEdit(edits: seq<Edit>, e: Edit, a: Text, b: Text)
    requires match e
             case Keep => a != [] && b != [] && a[|a| - 1] == b[|b| - 1] && Transforms(edits, a[..|a| - 1], b[..|b| - 1])
             case Delete => a != [] && Transforms(edits, a[..|a| - 1], b)
             case Insert => b != [] && Transforms(edits, a, b[..|b| - 1])
             case Replace => a != [] && b != [] && Transforms(edits, a[..|a| - 1], b[..|b| - 1])
    ensures Transforms(edits + [e], a, b) && Cost(edits + [e]) == Cost(edits) + if e == Keep then 0 else 1
  {
    assert (edits + [e])[..|edits|] == edits;
  }

  /** Some way of editing `a` into `b` costs exactly the distance. */
  lemma {:induction false} SomeScriptIsThatShort(a: Text, b: Text) returns (edits: seq<Edit>)
    ensures Transforms(edits, a, b) && Cost(edits) == Lev(a, b)
    decreases |a| + |b|
  {
    if a == [] && b == [] {
      edits := [];
    } else if a == [] || (b != [] && Lev(a, b) == Lev(a, b[..|b| - 1]) + 1) {
      edits := SomeScriptIsThatShort(a, b[..|b| - 1]);
      AppendEdit(edits, Insert, a, b);
      edits := edits + [Insert];
    } else if b == [] || Lev(a, b) == Lev(a[..|a| - 1], b) + 1 {
      edits := SomeScriptIsThatShort(a[..|a| - 1], b);
      AppendEdit(edits, Delete, a, b);
      edits := edits + [Delete];
    } else {
      var e := if a[|a| - 1] == b[|b| - 1] then Keep else Replace;
      edits := SomeScriptIsThatShort(a[..|a| - 1], b[..|b| - 1]);
      AppendEdit(edits, e, a, b);
      edits := edits + [e];
    }
  }

  // ---------------------------------------------------------------------
  // The two shortcuts

  /** The distance is at least the difference in length. */
  lemma {:induction false} LengthsBound(a: Text, b: Text)
    ensures |a| - |b| <= Lev(a, b) && |b| - |a| <= Lev(a, b)
    decreases |a| + |b|
  {
    if a != [] && b != [] {
      LengthsBound(a[..|a| - 1], b);
      LengthsBound(a, b[..|b| - 1]);
      LengthsBound(a[..|a| - 1], b[..|b| - 1]);
    }
  }

  /** The distance between the first `i` units of `a` and the first `j` of `b`. */
  function Between(a: Text, b: Text, i: nat, j: nat): nat
    requires i <= |a| && j <= |b|
    decreases i + j
  {
    if i == 0 then j
    else if j == 0 then i
    else
      var cost := if a[i - 1] == b[j - 1] then 0 else 1;
      Min(Min(Between(a, b, i - 1, j) + 1, Between(a, b, i, j - 1) + 1), Between(a, b, i - 1, j - 1) + cost)
  }

  lemma TakeTwice(a: Text, i: nat)
    requires 0 < i <= |a|
    ensures a[..i] != [] && a[..i][..|a[..i]| - 1] == a[..i - 1] && a[..i][|a[..i]| - 1] == a[i - 1]
  {
  }

  lemma BetweenIsLevStep(a: Text, b: Text, i: nat, j: nat)
    requires 0 < i <= |a| && 0 < j <= |b|
    requires Between(a, b, i - 1, j) == Lev(a[..i - 1], b[..j])
    requires Between(a, b, i, j - 1) == Lev(a[..i], b[..j - 1])
    requires Between(a, b, i - 1, j - 1) == Lev(a[..i - 1], b[..j - 1])
    ensures Between(a, b, i, j) == Lev(a[..i], b[..j])
  {
    TakeTwice(a, i);
    TakeTwice(b, j);
  }

  lemma {:induction false} BetweenIsLev(a: Text, b: Text, i: nat, j: nat)
    requires i <= |a| && j <= |b|
    ensures Between(a, b, i, j) == Lev(a[..i], b[..j])
    decreases i + j
  {
    if i > 0 && j > 0 {
      BetweenIsLev(a, b, i - 1, j);
      BetweenIsLev(a, b, i, j - 1);
      BetweenIsLev(a, b, i - 1, j - 1);
      BetweenIsLevStep(a, b, i, j);
    }
  }

  lemma WholeIsLev(a: Text, b: Text)
    ensures Between(a, b, |a|, |b|) == Lev(a, b)
  {
    BetweenIsLev(a, b, |a|, |b|);
    assert a[..|a|] == a && b[..|b|] == b;
  }

  lemma BetweenStep(a: Text, b: Text, i: nat, j: nat, bound: nat)
    requires 0 < i <= |a| && 0 < j <= |b|
    requires Between(a, b, i - 1, j) > bound && Between(a, b, i, j - 1) > bound && Between(a, b, i - 1, j - 1) > bound
    ensures Between(a, b, i, j) > bound
  {
  }

  ghost predicate RowPasses(a: Text, b: Text, i: nat, bound: nat)
    requires i <= |a|
  {
    forall j: nat :: j <= |b| ==> Between(a, b, i, j) > bound
  }

  lemma FirstColumn(a: Text, b: Text, i: nat)
    requires i <= |a|
    ensures Between(a, b, i, 0) == i
  {
  }

  lemma PassedAt(a: Text, b: Text, i: nat, bound: nat, j: nat)
    requires i <= |a| && j <= |b| && RowPasses(a, b, i, bound)
    ensures Between(a, b, i, j) > bound
  {
  }

  lemma FirstEntryPasses(a: Text, b: Text, i: nat, bound: nat)
    requires i < |a| && RowPasses(a, b, i, bound)
    ensures Between(a, b, i + 1, 0) > bound
  {
    PassedAt(a, b, i, bound, 0);
    FirstColumn(a, b, i);
    FirstColumn(a, b, i + 1);
  }

  lemma LaterEntryPasses(a: Text, b: Text, i: nat, bound: nat, j: nat)
    requires i < |a| && 0 < j <= |b| && RowPasses(a, b, i, bound) && Between(a, b, i + 1, j - 1) > bound
    ensures Between(a, b, i + 1, j) > bound
  {
    PassedAt(a, b, i, bound, j);
    PassedAt(a, b, i, bound, j - 1);
    BetweenStep(a, b, i + 1, j, bound);
  }

  lemma {:induction false} NextEntryPasses(a: Text, b: Text, i: nat, bound: nat, j: nat)
    requires i < |a| && j <= |b| && RowPasses(a, b, i, bound)
    ensures Between(a, b, i + 1, j) > bound
  {
    if j == 0 {
      FirstEntryPasses(a, b, i, bound);
    } else {
      NextEntryPasses(a, b, i, bound, j - 1);
      LaterEntryPasses(a, b, i, bound, j);
    }
  }

  /** Once every entry of a row passes the bound, so does every later one. */
  lemma {:induction false} RowsNeverShrink(a: Text, b: Text, i: nat, bound: nat, later: nat)
    requires i <= later <= |a| && RowPasses(a, b, i, bound)
    ensures RowPasses(a, b, later, bound)
    decreases later
  {
    if later > i {
      RowsNeverShrink(a, b, i, bound, later - 1);
      forall j: nat | j <= |b| ensures Between(a, b, later, j) > bound {
        NextEntryPasses(a, b, later - 1, bound, j);
      }
    }
  }

  /** `row` holds the distances of the first `i` units of `a` to the beginnings
      of `b`. */
  ghost predicate IsRow(a: Text, b: Text, i: nat, row: seq<nat>)
    requires i <= |a| && |row| <= |b| + 1
  {
    forall j: nat :: j < |row| ==> row[j] == Between(a, b, i, j)
  }

  method NextRow(a: Text, b: Text, i: nat, previous: seq<nat>) returns (row: seq<nat>, rowMin: nat)
    requires 0 < i <= |a| && |previous| == |b| + 1 && IsRow(a, b, i - 1, previous)
    ensures |row| == |b| + 1 && IsRow(a, b, i, row)
    ensures forall j: nat :: j <= |b| ==> rowMin <= row[j]
  {
    row, rowMin := [i], i;
    for j := 1 to |b| + 1
      invariant |row| == j && IsRow(a, b, i, row)
      invariant forall k: nat :: k < j ==> rowMin <= row[k]
    {
      var cost := if a[i - 1] == b[j - 1] then 0 else 1;
      var value := Min(Min(previous[j] + 1, row[j - 1] + 1), previous[j - 1] + cost);
      assert value == Between(a, b, i, j);
      row := row + [value];
      if value < rowMin { rowMin := value; }
    }
  }

  /** The length test and the row test give up only when the distance is past
      the bound; otherwise the distance is exact. */
  method BoundedEditDistance(a: Text, b: Text, bound: nat) returns (r: Option<nat>)
    ensures r == if Lev(a, b) <= bound then Some(Lev(a, b)) else None
  {
    LengthsBound(a, b);
    if |a| - |b| > bound || |b| - |a| > bound { return None; }
    WholeIsLev(a, b);
    var previous: seq<nat> := seq(|b| + 1, i => i);
    for i := 1 to |a| + 1
      invariant |previous| == |b| + 1 && IsRow(a, b, i - 1, previous)
    {
      var row, rowMin := NextRow(a, b, i, previous);
      if rowMin > bound {
        RowsNeverShrink(a, b, i, bound, |a|);
        PassedAt(a, b, |a|, bound, |b|);
        return None;
      }
      previous := row;
    }
    return if previous[|b|] <= bound then Some(previous[|b|]) else None;
  }

  // ---------------------------------------------------------------------
  // The nearest documented key

  function Distance(lower: Text -> Text, key: Text, candidate: Text): nat { Lev(lower(key), lower(candidate)) }

  /** A documented key that can be suggested for a misspelling. */
  ghost predicate Near(lower: Text -> Text, key: Text, candidate: Text)
  {
    |candidate| >= 4 && Distance(lower, key, candidate) <= 2
  }

  /** `known[m]` is the first of the nearest among the first `upto` keys. */
  ghost predicate FirstNearest(lower: Text -> Text, key: Text, known: seq<Text>, upto: nat, m: nat)
  {
    && m < upto <= |known| && Near(lower, key, known[m])
    && (forall i :: 0 <= i < upto && Near(lower, key, known[i])
          ==> Distance(lower, key, known[m]) <= Distance(lower, key, known[i]))
    && (forall i :: 0 <= i < m && Near(lower, key, known[i])
          ==> Distance(lower, key, known[m]) < Distance(lower, key, known[i]))
  }

  ghost predicate FirstCaseMatch(lower: Text -> Text, key: Text, known: seq<Text>, m: nat)
  {
    m < |known| && lower(known[m]) == lower(key) && forall i :: 0 <= i < m ==> lower(known[i]) != lower(key)
  }

  ghost predicate CaseMatch(lower: Text -> Text, key: Text, known: seq<Text>)
  {
    exists i :: 0 <= i < |known| && lower(known[i]) == lower(key)
  }

  /** A key that differs only in case wins; then the first nearest within two
      edits, between names of four units or more; otherwise nothing. */
  method SuggestOptionKey(key: Text, known: seq<Text>, lower: Text -> Text) returns (r: Option<Text>)
    ensures CaseMatch(lower, key, known) ==>
              exists m: nat :: FirstCaseMatch(lower, key, known, m) && r == Some(known[m])
    ensures !CaseMatch(lower, key, known) ==>
              if |key| >= 4 && exists i :: 0 <= i < |known| && Near(lower, key, known[i])
              then exists m: nat :: FirstNearest(lower, key, known, |known|, m) && r == Some(known[m])
              else r == None
  {
    for i := 0 to |known|
      invariant forall j :: 0 <= j < i ==> lower(known[j]) != lower(key)
    {
      if lower(known[i]) == lower(key) {
        assert FirstCaseMatch(lower, key, known, i);
        return Some(known[i]);
      }
    }
    if |key| < 4 { return None; }
    r := Nearest(key, known, lower);
  }

  method Nearest(key: Text, known: seq<Text>, lower: Text -> Text) returns (best: Option<Text>)
    ensures if exists i :: 0 <= i < |known| && Near(lower, key, known[i])
            then exists m: nat :: FirstNearest(lower, key, known, |known|, m) && best == Some(known[m])
            else best == None
  {
    best := None;
    var bestDistance := 3;
    ghost var m: nat := 0;
    for i := 0 to |known|
      invariant best.None? ==> bestDistance == 3 && forall j :: 0 <= j < i ==> !Near(lower, key, known[j])
      invariant best.Some? ==> FirstNearest(lower, key, known, i, m) && best == Some(known[m])
      invariant best.Some? ==> bestDistance == Distance(lower, key, known[m])
    {
      if |known[i]| < 4 { continue; }
      var distance := BoundedEditDistance(lower(key), lower(known[i]), 2);
      if distance.Some? && distance.value < bestDistance {
        best, bestDistance, m := Some(known[i]), distance.value, i;
      }
    }
  }
}
