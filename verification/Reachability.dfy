/** The orphan search of scripts/check-source-reachability.js. The module walk and
    the import scan are inputs: `files` in walk order, and what each imports. */
module Reachability {
  import opened Options
  import opened Utf8
  import opened SizeGuard

  type Modules = map<string, seq<string>>

  // ---------------------------------------------------------------------
  // Import paths

  /** Each file of the path is a module and imports the next. */
  ghost predicate IsPath(modules: Modules, p: seq<string>)
  {
    && p != []
    && (forall i :: 0 <= i < |p| ==> p[i] in modules)
    && (forall i :: 0 <= i < |p| - 1 ==> p[i + 1] in modules[p[i]])
  }

  ghost predicate Leads(modules: Modules, from: string, file: string)
  {
    exists p :: IsPath(modules, p) && p[0] == from && p[|p| - 1] == file
  }

  ghost predicate Reaches(modules: Modules, entries: set<string>, file: string)
  {
    exists entry :: entry in entries && Leads(modules, entry, file)
  }

  /** Everything a module of `inner` imports is in `outer`, if it is a module. */
  ghost predicate Closed(modules: Modules, inner: set<string>, outer: set<string>)
  {
    forall x, t :: x in inner && x in modules && t in modules[x] && t in modules ==> t in outer
  }

  lemma LeadsToItself(modules: Modules, file: string)
    requires file in modules
    ensures Leads(modules, file, file)
  {
    assert IsPath(modules, [file]);
  }

  lemma LeadsOn(modules: Modules, from: string, target: string, file: string)
    requires from in modules && target in modules[from] && Leads(modules, target, file)
    ensures Leads(modules, from, file)
  {
    var p :| IsPath(modules, p) && p[0] == target && p[|p| - 1] == file;
    var q := [from] + p;
    forall i | 0 <= i < |q| - 1 ensures q[i + 1] in modules[q[i]] {
      if i > 0 { assert q[i] == p[i - 1] && q[i + 1] == p[i]; }
    }
    assert IsPath(modules, q);
  }

  /** A closed set that holds the entries holds everything they lead to. */
  lemma {:induction false} PathStaysInside(modules: Modules, inside: set<string>, p: seq<string>)
    requires IsPath(modules, p) && p[0] in inside && Closed(modules, inside, inside)
    ensures p[|p| - 1] in inside
    decreases |p|
  {
    if |p| > 1 {
      var q := p[..|p| - 1];
      forall i | 0 <= i < |q| - 1 ensures q[i + 1] in modules[q[i]] { assert p[i + 1] in modules[p[i]]; }
      PathStaysInside(modules, inside, q);
      assert p[|p| - 1] in modules[p[|p| - 2]] && q[|q| - 1] == p[|p| - 2];
    }
  }

  lemma ClosedIsComplete(modules: Modules, entries: set<string>, reachable: set<string>)
    requires Closed(modules, reachable, reachable)
    requires forall e :: e in entries && e in modules ==> e in reachable
    ensures forall file :: Reaches(modules, entries, file) ==> file in reachable
  {
    forall file | Reaches(modules, entries, file) ensures file in reachable {
      var entry :| entry in entries && Leads(modules, entry, file);
      var p :| IsPath(modules, p) && p[0] == entry && p[|p| - 1] == file;
      PathStaysInside(modules, reachable, p);
    }
  }

  class Search {
    const modules: Modules
    var reachable: set<string>

    constructor (modules: Modules)
      ensures this.modules == modules && reachable == {}
    {
      this.modules := modules;
      reachable := {};
    }

    /** Adds only what `file` leads to, and everything the added modules import.
        Cycles end because the modules not yet visited run out. */
    method Visit(file: string)
      modifies this
      ensures old(reachable) <= reachable && (file in modules ==> file in reachable)
      ensures forall x :: x in reachable - old(reachable) ==> x in modules && Leads(modules, file, x)
      ensures Closed(modules, reachable - old(reachable), reachable)
      decreases modules.Keys - reachable
    {
      if file in reachable || file !in modules { return; }
      ghost var before := reachable;
      reachable := reachable + {file};
      var targets := modules[file];
      LeadsToItself(modules, file);
      for i := 0 to |targets|
        invariant before + {file} <= reachable
        invariant forall j :: 0 <= j < i && targets[j] in modules ==> targets[j] in reachable
        invariant forall x :: x in reachable - before ==> x in modules && Leads(modules, file, x)
        invariant Closed(modules, reachable - before - {file}, reachable)
      {
        ghost var already := reachable;
        assert modules.Keys - reachable < modules.Keys - before by {
          assert file in modules.Keys - before && file !in modules.Keys - reachable;
        }
        Visit(targets[i]);
        forall x | x in reachable - already ensures Leads(modules, file, x) { LeadsOn(modules, file, targets[i], x); }
        assert Closed(modules, reachable - before - {file}, reachable);
      }
    }
  }

  // ---------------------------------------------------------------------
  // Entries

  /** The `exports` field: strings in any nesting of objects and lists. */
  datatype Exports = Text(text: string) | Node(children: seq<Exports>) | Other

  function Texts(value: Exports): set<string>
  {
    match value
    case Text(s) => {s}
    case Node(children) => AllTexts(children)
    case Other => {}
  }

  function AllTexts(values: seq<Exports>): set<string>
  {
    if values == [] then {} else AllTexts(values[..|values| - 1]) + Texts(values[|values| - 1])
  }

  predicate Relative(s: string) { |s| >= 2 && s[..2] == "./" }

  /** The exported module files, as `normalize` spells their paths. */
  function Exported(texts: set<string>, modules: Modules, normalize: string -> string): set<string>
  {
    set s | s in texts && Relative(s) && normalize(s) in modules :: normalize(s)
  }

  /** What stands at a position in the nesting. */
  ghost function At(value: Exports, path: seq<nat>): Option<Exports>
    decreases |path|
  {
    if path == [] then Some(value)
    else if value.Node? && path[0] < |value.children| then At(value.children[path[0]], path[1..])
    else None
  }

  lemma TextAt(value: Exports, s: string) returns (path: seq<nat>)
    requires s in Texts(value)
    ensures At(value, path) == Some(Text(s))
    decreases value, 0
  {
    match value
    case Text(_) => path := [];
    case Node(children) =>
      var i := TextAmong(children, s);
      var rest := TextAt(children[i], s);
      path := [i] + rest;
      assert path[1..] == rest;
  }

  lemma {:induction false} TextAmong(values: seq<Exports>, s: string) returns (i: nat)
    requires s in AllTexts(values)
    ensures i < |values| && s in Texts(values[i])
    decreases |values|
  {
    var n := |values| - 1;
    if s in Texts(values[n]) { i := n; } else { i := TextAmong(values[..n], s); }
  }

  lemma {:induction false} AmongTexts(values: seq<Exports>, i: nat, s: string)
    requires i < |values| && s in Texts(values[i])
    ensures s in AllTexts(values)
    decreases |values|
  {
    var n := |values| - 1;
    if i < n { AmongTexts(values[..n], i, s); }
  }

  lemma {:induction false} TextHeard(value: Exports, path: seq<nat>, s: string)
    requires At(value, path) == Some(Text(s))
    ensures s in Texts(value)
    decreases |path|
  {
    if path != [] {
      TextHeard(value.children[path[0]], path[1..], s);
      AmongTexts(value.children, path[0], s);
    }
  }

  /** A file is exported exactly when it is a module that some text of the exports
      field names, at any nesting, as a path starting with a dot and a slash. */
  lemma ExportedExactly(value: Exports, modules: Modules, normalize: string -> string, file: string)
    ensures file in Exported(Texts(value), modules, normalize) <==>
              && file in modules
              && exists path, s :: At(value, path) == Some(Text(s)) && |s| >= 2 && s[0] == '.' && s[1] == '/'
                                   && normalize(s) == file
  {
    if file in Exported(Texts(value), modules, normalize) {
      var s :| s in Texts(value) && Relative(s) && normalize(s) in modules && normalize(s) == file;
      var path := TextAt(value, s);
      assert s[0] == s[..2][0] && s[1] == s[..2][1];
    }
    if file in modules {
      forall path, s | At(value, path) == Some(Text(s)) && |s| >= 2 && s[0] == '.' && s[1] == '/' && normalize(s) == file
        ensures file in Exported(Texts(value), modules, normalize)
      {
        TextHeard(value, path, s);
        assert s[..2] == "./";
      }
    }
  }

  class Collector {
    const modules: Modules
    var entries: set<string>

    constructor (modules: Modules)
      ensures this.modules == modules && entries == {}
    {
      this.modules := modules;
      entries := {};
    }

    method Collect(value: Exports, normalize: string -> string)
      modifies this
      ensures entries == old(entries) + Exported(Texts(value), modules, normalize)
      decreases value
    {
      match value
      case Text(s) =>
        if Relative(s) {
          var file := normalize(s);
          if file in modules { entries := entries + {file}; }
        }
      case Node(children) =>
        for i := 0 to |children|
          invariant entries == old(entries) + Exported(AllTexts(children[..i]), modules, normalize)
        {
          assert children[..i + 1][..i] == children[..i];
          Collect(children[i], normalize);
        }
        assert children[..|children|] == children;
      case Other =>
    }
  }

  // ---------------------------------------------------------------------
  // Order of the report

  /** The UTF-16 code units of a character: itself, or a surrogate pair. */
  function CharUnits(c: char): (units: seq<Unit>)
    ensures units != []
  {
    var v := c as int;
    if v < 0x10000 then [v] else [0xD800 + (v - 0x10000) / 1024, 0xDC00 + (v - 0x10000) % 1024]
  }

  function Units(s: string): seq<Unit>
  {
    if s == "" then [] else CharUnits(s[0]) + Units(s[1..])
  }

  /** The units are those of the text: a decoder reads its characters back. */
  lemma {:induction false} UnitsDecode(s: string)
    ensures |Decode(Units(s))| == |s| && forall i :: 0 <= i < |s| ==> Decode(Units(s))[i] == s[i] as int
    decreases |s|
  {
    if s != "" {
      UnitsDecode(s[1..]);
      FirstCharDecodes(s[0], Units(s[1..]));
    }
  }

  lemma FirstCharDecodes(c: char, rest: seq<Unit>)
    ensures Decode(CharUnits(c) + rest) == [c as int] + Decode(rest)
  {
    var units := CharUnits(c) + rest;
    if |CharUnits(c)| == 2 { assert units[2..] == rest; } else { assert units[1..] == rest; }
  }

  /** String order by code unit. */
  predicate Leq(a: string, b: string) { Before(Units(a), Units(b)) }

  predicate Before(a: seq<Unit>, b: seq<Unit>)
  {
    a == [] || (b != [] && (a[0] < b[0] || (a[0] == b[0] && Before(a[1..], b[1..]))))
  }

  lemma {:induction false} BeforeTotal(a: seq<Unit>, b: seq<Unit>)
    ensures Before(a, b) || Before(b, a)
    ensures Before(a, b) && Before(b, a) ==> a == b
  {
    if a != [] && b != [] {
      BeforeTotal(a[1..], b[1..]);
      if a[0] == b[0] && a[1..] == b[1..] { assert a == [a[0]] + a[1..] == b; }
    }
  }

  lemma {:induction false} BeforeTransitive(a: seq<Unit>, b: seq<Unit>, c: seq<Unit>)
    requires Before(a, b) && Before(b, c)
    ensures Before(a, c)
  {
    if a != [] && a[0] == b[0] && b[0] == c[0] { BeforeTransitive(a[1..], b[1..], c[1..]); }
  }

  /** Equal first units mean equal first characters, a surrogate being none. */
  lemma FirstCharIsRead(a: string, b: string)
    requires a != "" && b != "" && Units(a) == Units(b)
    ensures a[0] == b[0] && Units(a[1..]) == Units(b[1..])
  {
    var s, t := CharUnits(a[0]), CharUnits(b[0]);
    assert Units(a)[0] == s[0] && Units(b)[0] == t[0];
    assert |s| == 2 ==> Units(a)[1] == s[1];
    assert |t| == 2 ==> Units(b)[1] == t[1];
    assert Units(a)[|s|..] == Units(a[1..]) && Units(b)[|t|..] == Units(b[1..]);
  }

  lemma {:induction false} UnitsAreRead(a: string, b: string)
    requires Units(a) == Units(b)
    ensures a == b
  {
    if a != "" && b != "" {
      FirstCharIsRead(a, b);
      UnitsAreRead(a[1..], b[1..]);
      assert a == [a[0]] + a[1..] == b;
    }
  }

  lemma LeqTotal(a: string, b: string)
    ensures Leq(a, b) || Leq(b, a)
    ensures Leq(a, b) && Leq(b, a) ==> a == b
  {
    BeforeTotal(Units(a), Units(b));
    if Units(a) == Units(b) { UnitsAreRead(a, b); }
  }

  lemma LeqTransitive(a: string, b: string, c: string)
    requires Leq(a, b) && Leq(b, c)
    ensures Leq(a, c)
  {
    BeforeTransitive(Units(a), Units(b), Units(c));
  }

  ghost predicate Ordered(s: seq<string>)
  {
    forall i, j :: 0 <= i < j < |s| ==> Leq(s[i], s[j])
  }

  function Insert(x: string, s: seq<string>): (r: seq<string>)
    ensures multiset(r) == multiset(s) + multiset{x}
  {
    if s == [] then [x]
    else
      assert s == s[..|s| - 1] + [s[|s| - 1]];
      if Leq(s[|s| - 1], x) then s + [x] else Insert(x, s[..|s| - 1]) + [s[|s| - 1]]
  }

  lemma AppendOrdered(s: seq<string>, x: string)
    requires Ordered(s) && forall y :: y in s ==> Leq(y, x)
    ensures Ordered(s + [x])
  {
  }

  /** Everything is at most the last. */
  lemma LastIsGreatest(s: seq<string>, y: string)
    requires Ordered(s) && y in s
    ensures Leq(y, s[|s| - 1])
  {
    LeqTotal(y, y);
  }

  lemma InsertedAre(x: string, s: seq<string>, y: string)
    requires y in Insert(x, s)
    ensures y == x || y in s
  {
    assert y in multiset(Insert(x, s));
  }

  lemma {:induction false} InsertOrdered(x: string, s: seq<string>)
    requires Ordered(s)
    ensures Ordered(Insert(x, s))
    decreases |s|
  {
    if s != [] {
      var front, last := s[..|s| - 1], s[|s| - 1];
      if Leq(last, x) {
        forall y | y in s ensures Leq(y, x) {
          LastIsGreatest(s, y);
          LeqTransitive(y, last, x);
        }
        AppendOrdered(s, x);
      } else {
        InsertOrdered(x, front);
        LeqTotal(last, x);
        forall y | y in Insert(x, front) ensures Leq(y, last) {
          InsertedAre(x, front, y);
          if y != x { LastIsGreatest(s, y); }
        }
        AppendOrdered(Insert(x, front), last);
      }
    }
  }

  /** `sort()`. */
  function Sorted(s: seq<string>): (r: seq<string>)
    ensures multiset(r) == multiset(s)
  {
    if s == [] then []
    else
      assert s == s[..|s| - 1] + [s[|s| - 1]];
      Insert(s[|s| - 1], Sorted(s[..|s| - 1]))
  }

  lemma {:induction false} SortedIsOrdered(s: seq<string>)
    ensures Ordered(Sorted(s))
    decreases |s|
  {
    if s != [] {
      SortedIsOrdered(s[..|s| - 1]);
      InsertOrdered(s[|s| - 1], Sorted(s[..|s| - 1]));
    }
  }

  // ---------------------------------------------------------------------
  // The check

  datatype Extra = Extra(file: string, reason: Option<string>)

  datatype Outcome =
    | NoModules
    | NoEntries
    | EntryWithoutReason(file: string)
    | EntryMissing(file: string)
    | Report(orphans: seq<string>, scanned: nat)

  /** Why a declared entry is refused, if it is; the reason is looked at first. */
  function Refusal(e: Extra, modules: Modules, blank: string -> bool): Option<Outcome>
  {
    if e.reason.None? || blank(e.reason.value) then Some(EntryWithoutReason(e.file))
    else if e.file !in modules then Some(EntryMissing(e.file))
    else None
  }

  ghost predicate Unexplained(e: Extra, blank: string -> bool) { e.reason.None? || blank(e.reason.value) }

  /** A declared entry needs a reason and has to be a module. */
  ghost predicate Refused(e: Extra, modules: Modules, blank: string -> bool)
  {
    Unexplained(e, blank) || e.file !in modules
  }

  ghost predicate FirstRefusal(extras: seq<Extra>, modules: Modules, blank: string -> bool, k: nat, r: Outcome)
  {
    && k < |extras| && Refused(extras[k], modules, blank)
    && r == (if Unexplained(extras[k], blank) then EntryWithoutReason(extras[k].file) else EntryMissing(extras[k].file))
    && forall i :: 0 <= i < k ==> !Refused(extras[i], modules, blank)
  }

  function ExtraFiles(extras: seq<Extra>): set<string> { set e | e in extras :: e.file }

  ghost predicate Listing(files: seq<string>, modules: Modules)
  {
    && (forall f :: f in files <==> f in modules)
    && (forall i, j :: 0 <= i < j < |files| ==> files[i] != files[j])
  }

  method FindOrphans(files: seq<string>, modules: Modules, exports: Exports, normalize: string -> string,
                     extras: seq<Extra>, blank: string -> bool) returns (r: Outcome)
    requires Listing(files, modules)
    ensures var exported := Exported(Texts(exports), modules, normalize);
            if files == [] then r == NoModules
            else if exported == {} then r == NoEntries
            else if exists i :: 0 <= i < |extras| && Refused(extras[i], modules, blank)
            then exists k: nat :: FirstRefusal(extras, modules, blank, k, r)
            else
              && r.Report? && r.scanned == |files| && Ordered(r.orphans)
              && forall f :: multiset(r.orphans)[f] ==
                   if f in modules && !Reaches(modules, exported + ExtraFiles(extras), f) then 1 else 0
  {
    if |files| == 0 { return NoModules; }
    var collector := new Collector(modules);
    collector.Collect(exports, normalize);
    var entries := collector.entries;
    if entries == {} { return NoEntries; }
    ghost var exported := entries;
    for k := 0 to |extras|
      invariant forall i :: 0 <= i < k ==> !Refused(extras[i], modules, blank)
      invariant entries == exported + ExtraFiles(extras[..k])
    {
      var refusal := Refusal(extras[k], modules, blank);
      if refusal.Some? {
        assert FirstRefusal(extras, modules, blank, k, refusal.value);
        return refusal.value;
      }
      entries := entries + {extras[k].file};
      assert extras[..k + 1] == extras[..k] + [extras[k]];
    }
    assert extras[..|extras|] == extras;
    var reachable := ReachableFrom(modules, entries);
    var orphans := Unreached(files, modules, reachable);
    return Report(orphans, |files|);
  }

  /** The sorted complement, each module once. */
  method Unreached(files: seq<string>, modules: Modules, reachable: set<string>) returns (orphans: seq<string>)
    requires Listing(files, modules)
    ensures Ordered(orphans)
    ensures forall f :: multiset(orphans)[f] == if f in modules && f !in reachable then 1 else 0
  {
    var kept: seq<string> := [];
    for i := 0 to |files|
      invariant forall f :: multiset(kept)[f] == if f in files[..i] && f !in reachable then 1 else 0
    {
      assert files[i] !in files[..i] && files[..i + 1] == files[..i] + [files[i]];
      if files[i] !in reachable { kept := kept + [files[i]]; }
    }
    assert files[..|files|] == files;
    SortedIsOrdered(kept);
    orphans := Sorted(kept);
  }

  /** After every entry is visited, exactly the modules with an import path from
      an entry have been reached. */
  method ReachableFrom(modules: Modules, entries: set<string>) returns (reachable: set<string>)
    ensures forall f :: f in reachable <==> Reaches(modules, entries, f)
  {
    var search := new Search(modules);
    var left := entries;
    while left != {}
      invariant search.modules == modules && left <= entries
      invariant forall e :: e in entries - left && e in modules ==> e in search.reachable
      invariant forall x :: x in search.reachable ==> Reaches(modules, entries, x)
      invariant Closed(modules, search.reachable, search.reachable)
      decreases |left|
    {
      var entry :| entry in left;
      ghost var before := search.reachable;
      search.Visit(entry);
      assert Closed(modules, search.reachable, search.reachable);
      left := left - {entry};
    }
    reachable := search.reachable;
    ClosedIsComplete(modules, entries, reachable);
  }
}
