/** The IPv6 literal parser of src/safe-url.js. */
module Ipv6 {
  import opened Options
  import opened Text

  // ---------------------------------------------------------------------
  // What the parser computes

  /** The text up to a zone id. */
  function BeforeZone(s: string): string
  {
    if s == "" || s[0] == '%' then "" else [s[0]] + BeforeZone(s[1..])
  }

  /** `s.split('::')`: leftmost, without overlap. */
  function SplitDouble(s: string): (halves: seq<string>)
    ensures |halves| > 0
    decreases |s|
  {
    if |s| < 2 then [s]
    else if s[0] == ':' && s[1] == ':' then [""] + SplitDouble(s[2..])
    else
      var rest := SplitDouble(s[1..]);
      [[s[0]] + rest[0]] + rest[1..]
  }

  /** One to four hexadecimal digits. */
  function HexToken(tok: string): Option<nat>
  {
    if 1 <= |tok| <= 4 && IsNumeral(tok, 16) then Some(Value(tok, 16)) else None
  }

  /** One octet of a dotted tail: one to three decimal digits, at most 255. */
  function Octet(part: string): Option<nat>
  {
    if 1 <= |part| <= 3 && IsNumeral(part, 10) && Value(part, 10) <= 255 then Some(Value(part, 10)) else None
  }

  function Octets(parts: seq<string>): Option<nat>
  {
    if parts == [] then Some(0)
    else
      var before, last := Octets(parts[..|parts| - 1]), Octet(parts[|parts| - 1]);
      if before.Some? && last.Some? then Some(before.value * 256 + last.value) else None
  }

  function Quad(tail: string): Option<nat>
  {
    var parts := Split(tail, '.');
    if |parts| != 4 then None else Octets(parts)
  }

  function Hexes(tokens: seq<string>): Option<seq<nat>>
  {
    if tokens == [] then Some([])
    else
      var before, last := Hexes(tokens[..|tokens| - 1]), HexToken(tokens[|tokens| - 1]);
      if before.Some? && last.Some? then Some(before.value + [last.value]) else None
  }

  /** The last token of a run may be a dotted quad, worth two groups. */
  function LastToken(tok: string): Option<seq<nat>>
  {
    if '.' !in tok then
      var v := HexToken(tok);
      if v.Some? then Some([v.value]) else None
    else
      var v := Quad(tok);
      if v.Some? then Some([v.value / 65536 % 65536, v.value % 65536]) else None
  }

  function Tokens(tokens: seq<string>): Option<seq<nat>>
    requires tokens != []
  {
    var before, last := Hexes(tokens[..|tokens| - 1]), LastToken(tokens[|tokens| - 1]);
    if before.Some? && last.Some? then Some(before.value + last.value) else None
  }

  function Run(run: string): Option<seq<nat>>
  {
    if run == "" then Some([]) else Tokens(Split(run, ':'))
  }

  function ZeroGroups(k: nat): (g: seq<nat>)
    ensures |g| == k
    ensures forall i :: 0 <= i < k ==> g[i] == 0
  {
    seq(k, i => 0)
  }

  function Fill(head: seq<nat>, tail: seq<nat>): Option<seq<nat>>
  {
    if |head| + |tail| > 8 then None else Some(head + ZeroGroups(8 - |head| - |tail|) + tail)
  }

  function Parse(host: string): Option<seq<nat>> { ParseText(BeforeZone(host)) }

  function ParseText(text: string): Option<seq<nat>>
  {
    var halves := SplitDouble(text);
    if |halves| > 2 then None
    else if |halves| == 2 then
      var head, tail := Run(halves[0]), Run(halves[1]);
      if head.None? || tail.None? then None else Fill(head.value, tail.value)
    else
      var groups := Run(text);
      if groups.None? || |groups.value| != 8 then None else groups
  }

  // ---------------------------------------------------------------------
  // The parser

  method ParseDottedQuadTail(tail: string) returns (r: Option<nat>)
    ensures r == Quad(tail)
  {
    var parts := Split(tail, '.');
    if |parts| != 4 { return None; }
    var addr: nat := 0;
    for i := 0 to |parts|
      invariant Octets(parts[..i]) == Some(addr)
    {
      assert parts[..i + 1][..i] == parts[..i];
      if !(1 <= |parts[i]| <= 3 && IsNumeral(parts[i], 10)) {
        OctetsFail(parts, i);
        return None;
      }
      var n := Value(parts[i], 10);
      if n > 255 {
        OctetsFail(parts, i);
        return None;
      }
      addr := addr * 256 + n;
    }
    assert parts[..|parts|] == parts;
    return Some(addr);
  }

  lemma {:induction false} OctetsFail(parts: seq<string>, i: nat)
    requires i < |parts| && Octet(parts[i]).None?
    ensures Octets(parts).None?
    decreases |parts|
  {
    if i < |parts| - 1 { OctetsFail(parts[..|parts| - 1], i); }
  }

  lemma {:induction false} HexesFail(tokens: seq<string>, i: nat)
    requires i < |tokens| && HexToken(tokens[i]).None?
    ensures Hexes(tokens).None?
    decreases |tokens|
  {
    if i < |tokens| - 1 { HexesFail(tokens[..|tokens| - 1], i); }
  }

  lemma TokensFail(tokens: seq<string>, i: nat)
    requires i < |tokens| && if i < |tokens| - 1 then HexToken(tokens[i]).None? else LastToken(tokens[i]).None?
    ensures Tokens(tokens).None?
  {
    if i < |tokens| - 1 { HexesFail(tokens[..|tokens| - 1], i); }
  }

  lemma DottedIsNoHex(tok: string)
    requires '.' in tok
    ensures HexToken(tok).None?
  {
    var i :| 0 <= i < |tok| && tok[i] == '.';
    assert DigitValue(tok[i]) == 16;
  }

  method ExpandRun(run: string) returns (r: Option<seq<nat>>)
    ensures r == Run(run)
  {
    if |run| == 0 { return Some([]); }
    var tokens := Split(run, ':');
    var groups: seq<nat> := [];
    for i := 0 to |tokens|
      invariant i < |tokens| ==> Hexes(tokens[..i]) == Some(groups)
      invariant i == |tokens| ==> Tokens(tokens) == Some(groups)
    {
      assert tokens[..i + 1][..i] == tokens[..i];
      var tok := tokens[i];
      if '.' in tok {
        DottedIsNoHex(tok);
        if i != |tokens| - 1 {
          TokensFail(tokens, i);
          return None;
        }
        var v4 := ParseDottedQuadTail(tok);
        if v4.None? { return None; }
        groups := groups + [v4.value / 65536 % 65536, v4.value % 65536];
      } else {
        var value := HexToken(tok);
        if value.None? {
          TokensFail(tokens, i);
          return None;
        }
        groups := groups + [value.value];
      }
    }
    return Some(groups);
  }

  method ParseIpv6(host: string) returns (r: Option<seq<nat>>)
    ensures r == Parse(host)
  {
    var text := BeforeZone(host);
    var halves := SplitDouble(text);
    if |halves| > 2 { return None; }
    if |halves| == 2 {
      var head := ExpandRun(halves[0]);
      var tail := ExpandRun(halves[1]);
      if head.None? || tail.None? { return None; }
      var used := |head.value| + |tail.value|;
      if used > 8 { return None; }
      return Some(head.value + ZeroGroups(8 - used) + tail.value);
    }
    var groups := ExpandRun(text);
    if groups.None? || |groups.value| != 8 { return None; }
    return groups;
  }

  // ---------------------------------------------------------------------
  // The grammar, apart from the parser

  ghost predicate SpellsQuad(tok: string, o: seq<nat>)
  {
    && |o| == 4
    && exists parts :: |parts| == 4 && tok == Join(parts, '.')
                       && forall i :: 0 <= i < 4 ==> Octet(parts[i]) == Some(o[i])
  }

  ghost predicate SpellsHexes(tokens: seq<string>, g: seq<nat>)
  {
    |tokens| == |g| && forall i :: 0 <= i < |g| ==> HexToken(tokens[i]) == Some(g[i])
  }

  /** A dotted quad spells two groups. */
  ghost predicate SpellsPair(tok: string, hi: nat, lo: nat)
  {
    exists o: seq<nat> :: SpellsQuad(tok, o) && hi == o[0] * 256 + o[1] && lo == o[2] * 256 + o[3]
  }

  ghost predicate SpellsMixed(tokens: seq<string>, g: seq<nat>)
    requires tokens != []
  {
    var n := |tokens| - 1;
    |g| == n + 2 && SpellsHexes(tokens[..n], g[..n]) && SpellsPair(tokens[n], g[n], g[n + 1])
  }

  /** Colon-separated hexadecimal groups, the last two possibly as a dotted quad. */
  ghost predicate SpellsTokens(tokens: seq<string>, g: seq<nat>)
    requires tokens != []
  {
    SpellsHexes(tokens, g) || SpellsMixed(tokens, g)
  }

  ghost predicate SpellsRun(run: string, g: seq<nat>)
  {
    if run == "" then g == []
    else exists tokens: seq<string> :: tokens != [] && run == Join(tokens, ':') && SpellsTokens(tokens, g)
  }

  /** Eight groups in full, or two runs around a `::` that stands for the zeros. */
  ghost predicate Spells(text: string, g: seq<nat>)
  {
    || (|g| == 8 && SpellsRun(text, g))
    || exists head, tail, i: nat, j: nat :: text == head + "::" + tail && Compressed(head, tail, g, i, j)
  }

  ghost predicate Compressed(head: string, tail: string, g: seq<nat>, i: nat, j: nat)
  {
    && |g| == 8 && i <= j <= 8
    && SpellsRun(head, g[..i]) && SpellsRun(tail, g[j..])
    && forall k :: i <= k < j ==> g[k] == 0
  }
}
