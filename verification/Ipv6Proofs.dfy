/** The IPv6 parser reads exactly the literals of its grammar. */
module Ipv6Proofs {
  import opened Options
  import opened Text
  import opened Ipv6

  // ---------------------------------------------------------------------
  // Splitting on the double colon

  ghost predicate NoDouble(s: string)
  {
    forall i :: 0 <= i < |s| - 1 ==> s[i] != ':' || s[i + 1] != ':'
  }

  lemma {:induction false} SplitWithoutDouble(s: string)
    requires NoDouble(s)
    ensures SplitDouble(s) == [s]
    decreases |s|
  {
    if |s| >= 2 {
      assert s[0] != ':' || s[1] != ':';
      assert forall i :: 0 <= i < |s[1..]| ==> s[1..][i] == s[i + 1];
      SplitWithoutDouble(s[1..]);
      assert s == [s[0]] + s[1..];
    }
  }

  lemma {:induction false} SplitAtDouble(head: string, tail: string)
    requires NoDouble(head) && (head != "" ==> head[|head| - 1] != ':')
    ensures SplitDouble(head + "::" + tail) == [head] + SplitDouble(tail)
    decreases |head|
  {
    var s := head + "::" + tail;
    if head == "" {
      assert s[2..] == tail;
    } else {
      var rest := head[1..];
      assert forall i :: 0 <= i < |rest| ==> rest[i] == head[i + 1];
      SplitAtDouble(rest, tail);
      assert s[1..] == rest + "::" + tail;
      assert head == [head[0]] + rest;
      assert s[0] != ':' || s[1] != ':';
    }
  }

  ghost predicate Rejoins(halves: seq<string>, s: string)
  {
    (|halves| == 1 ==> halves == [s]) && (|halves| == 2 ==> s == halves[0] + "::" + halves[1])
  }

  lemma RejoinsShifted(rest: seq<string>, s: string)
    requires s != "" && |rest| > 0 && Rejoins(rest, s[1..])
    ensures Rejoins([[s[0]] + rest[0]] + rest[1..], s)
  {
    assert s == [s[0]] + s[1..];
    if |rest| == 2 { assert s == [s[0]] + rest[0] + "::" + rest[1]; }
  }

  lemma {:induction false} OneOrTwoHalves(s: string)
    ensures Rejoins(SplitDouble(s), s)
    decreases |s|
  {
    if |s| >= 2 {
      if s[0] == ':' && s[1] == ':' {
        OneOrTwoHalves(s[2..]);
        assert s == "" + "::" + s[2..];
      } else {
        OneOrTwoHalves(s[1..]);
        RejoinsShifted(SplitDouble(s[1..]), s);
      }
    }
  }

  // ---------------------------------------------------------------------
  // Dotted quads

  lemma {:induction false} OctetsAre(parts: seq<string>, v: nat)
    requires |parts| == 4
    ensures Octets(parts) == Some(v) <==>
              && (forall i :: 0 <= i < 4 ==> Octet(parts[i]).Some?)
              && v == Octet(parts[0]).value * 16777216 + Octet(parts[1]).value * 65536
                      + Octet(parts[2]).value * 256 + Octet(parts[3]).value
  {
    var p3, p2, p1 := parts[..3], parts[..2], parts[..1];
    assert p3[..2] == p2 && p2[..1] == p1 && p1[..0] == [];
    assert Octets(p1) == Octet(parts[0]);
    assert Octets(p2).Some? <==> Octets(p1).Some? && Octet(parts[1]).Some?;
    assert Octets(p3).Some? <==> Octets(p2).Some? && Octet(parts[2]).Some?;
  }

  lemma OctetChars(part: string)
    requires Octet(part).Some?
    ensures forall i :: 0 <= i < |part| ==> '0' <= part[i] <= '9'
  {
    forall i | 0 <= i < |part| ensures '0' <= part[i] <= '9' { assert DigitValue(part[i]) < 10; }
  }

  /** The value of a quad is that of its four octets, so its halves are two groups. */
  lemma QuadIsSpelled(tok: string, hi: nat, lo: nat)
    ensures (Quad(tok).Some? && hi == Quad(tok).value / 65536 % 65536 && lo == Quad(tok).value % 65536)
            <==> SpellsPair(tok, hi, lo)
  {
    if Quad(tok).Some? && hi == Quad(tok).value / 65536 % 65536 && lo == Quad(tok).value % 65536 {
      ReadQuadIsSpelled(tok, Quad(tok).value);
    }
    if SpellsPair(tok, hi, lo) {
      var o: seq<nat> :| SpellsQuad(tok, o) && hi == o[0] * 256 + o[1] && lo == o[2] * 256 + o[3];
      var v := o[0] * 16777216 + o[1] * 65536 + o[2] * 256 + o[3];
      SpelledQuad(tok, o, v);
      Halves(o[0], o[1], o[2], o[3], v);
    }
  }

  lemma ReadQuadIsSpelled(tok: string, v: nat)
    requires Quad(tok) == Some(v)
    ensures SpellsPair(tok, v / 65536 % 65536, v % 65536)
  {
    var parts := Split(tok, '.');
    JoinOfSplit(tok, '.');
    OctetsAre(parts, v);
    var o := [Octet(parts[0]).value, Octet(parts[1]).value, Octet(parts[2]).value, Octet(parts[3]).value];
    Halves(o[0], o[1], o[2], o[3], v);
    assert SpellsQuad(tok, o);
  }

  lemma SpelledPair(tok: string, hi: nat, lo: nat)
    requires SpellsPair(tok, hi, lo)
    ensures tok != "" && '.' in tok && ':' !in tok && '%' !in tok && hi < 65536 && lo < 65536
  {
    var o: seq<nat> :| SpellsQuad(tok, o) && hi == o[0] * 256 + o[1] && lo == o[2] * 256 + o[3];
    SpelledQuad(tok, o, o[0] * 16777216 + o[1] * 65536 + o[2] * 256 + o[3]);
  }

  lemma SpelledQuad(tok: string, o: seq<nat>, v: nat)
    requires |o| == 4 && SpellsQuad(tok, o) && v == o[0] * 16777216 + o[1] * 65536 + o[2] * 256 + o[3]
    ensures Quad(tok) == Some(v) && '.' in tok && ':' !in tok && '%' !in tok
    ensures forall i :: 0 <= i < 4 ==> o[i] < 256
  {
    var parts :| |parts| == 4 && tok == Join(parts, '.') && forall i :: 0 <= i < 4 ==> Octet(parts[i]) == Some(o[i]);
    forall i | 0 <= i < 4 ensures '.' !in parts[i] && ':' !in parts[i] && '%' !in parts[i] && o[i] < 256 {
      assert Octet(parts[i]) == Some(o[i]);
      OctetChars(parts[i]);
    }
    SplitOfJoin(parts, '.');
    OctetsAre(parts, v);
    JoinLacks(parts, '.', ':');
    JoinLacks(parts, '.', '%');
  }

  lemma {:induction false} JoinLacks(parts: seq<string>, sep: char, c: char)
    requires |parts| > 0 && c != sep && Free(parts, c)
    ensures c !in Join(parts, sep)
    decreases |parts|
  {
    if |parts| > 1 { JoinLacks(parts[1..], sep, c); }
  }

  lemma Halves(a: nat, b: nat, c: nat, d: nat, v: nat)
    requires a < 256 && b < 256 && c < 256 && d < 256 && v == a * 16777216 + b * 65536 + c * 256 + d
    ensures v / 65536 % 65536 == a * 256 + b && v % 65536 == c * 256 + d
  {
    assert v == (a * 256 + b) * 65536 + (c * 256 + d);
  }

  // ---------------------------------------------------------------------
  // Tokens and runs

  lemma HexTokenChars(tok: string)
    requires HexToken(tok).Some?
    ensures tok != "" && '.' !in tok && ':' !in tok && '%' !in tok && HexToken(tok).value < 65536
  {
    forall i | 0 <= i < |tok| ensures tok[i] !in {'.', ':', '%'} { assert DigitValue(tok[i]) < 16; }
    ValueBound(tok, 16, Power(16, |tok|));
    assert Power(16, 2) == 256 && Power(16, 3) == 4096 && Power(16, 4) == 65536;
  }

  lemma {:induction false} HexesAreSpelled(tokens: seq<string>, g: seq<nat>)
    ensures Hexes(tokens) == Some(g) <==> SpellsHexes(tokens, g)
    decreases |tokens|
  {
    var n := |tokens| - 1;
    if tokens == [] {
      assert |g| == 0 ==> g == [];
    } else if |g| > 0 {
      HexesAreSpelled(tokens[..n], g[..|g| - 1]);
      assert g == g[..|g| - 1] + [g[|g| - 1]];
      if SpellsHexes(tokens, g) {
        assert SpellsHexes(tokens[..n], g[..n]);
        assert HexToken(tokens[n]) == Some(g[n]);
      }
      if Hexes(tokens) == Some(g) {
        assert Hexes(tokens[..n]) == Some(g[..|g| - 1]);
        assert |g| == |tokens|;
        forall i | 0 <= i < |g| ensures HexToken(tokens[i]) == Some(g[i]) {
          if i < n {
            assert tokens[..n][i] == tokens[i];
            assert g[..n][i] == g[i];
          }
        }
      }
    }
  }

  lemma TokensAreSpelled(tokens: seq<string>, g: seq<nat>)
    requires tokens != []
    ensures Tokens(tokens) == Some(g) <==> SpellsTokens(tokens, g)
  {
    if Tokens(tokens) == Some(g) { ReadTokensAreSpelled(tokens, g); }
    if SpellsHexes(tokens, g) { SpelledHexesAreRead(tokens, g); }
    if SpellsMixed(tokens, g) { SpelledMixedIsRead(tokens, g); }
  }

  lemma SpelledHexesAreRead(tokens: seq<string>, g: seq<nat>)
    requires tokens != [] && SpellsHexes(tokens, g)
    ensures Tokens(tokens) == Some(g)
  {
    var n := |tokens| - 1;
    assert g == g[..n] + [g[n]];
    assert HexToken(tokens[n]) == Some(g[n]);
    HexTokenChars(tokens[n]);
    HexesAreSpelled(tokens[..n], g[..n]);
  }

  lemma SpelledPairIsRead(tok: string, hi: nat, lo: nat)
    requires SpellsPair(tok, hi, lo)
    ensures LastToken(tok) == Some([hi, lo])
  {
    QuadIsSpelled(tok, hi, lo);
    SpelledPair(tok, hi, lo);
  }

  lemma TokensOf(tokens: seq<string>, before: seq<nat>, last: seq<nat>)
    requires tokens != []
    requires Hexes(tokens[..|tokens| - 1]) == Some(before) && LastToken(tokens[|tokens| - 1]) == Some(last)
    ensures Tokens(tokens) == Some(before + last)
  {
  }

  lemma MixedParts(tokens: seq<string>, g: seq<nat>)
    requires tokens != [] && SpellsMixed(tokens, g)
    ensures var n := |tokens| - 1;
            && |g| == n + 2 && g == g[..n] + [g[n], g[n + 1]]
            && SpellsHexes(tokens[..n], g[..n]) && SpellsPair(tokens[n], g[n], g[n + 1])
  {
  }

  lemma SpelledMixedIsRead(tokens: seq<string>, g: seq<nat>)
    requires tokens != [] && SpellsMixed(tokens, g)
    ensures Tokens(tokens) == Some(g)
  {
    var n := |tokens| - 1;
    MixedParts(tokens, g);
    HexesAreSpelled(tokens[..n], g[..n]);
    SpelledPairIsRead(tokens[n], g[n], g[n + 1]);
    TokensOf(tokens, g[..n], [g[n], g[n + 1]]);
  }

  lemma ReadTokensAreSpelled(tokens: seq<string>, g: seq<nat>)
    requires tokens != [] && Tokens(tokens) == Some(g)
    ensures SpellsTokens(tokens, g)
  {
    var n := |tokens| - 1;
    var before, last := Hexes(tokens[..n]).value, LastToken(tokens[n]).value;
    HexesAreSpelled(tokens[..n], before);
    assert g[..n] == before && g[n..] == last;
    assert g[n] == last[0];
    if '.' in tokens[n] {
      assert g[n + 1] == last[1];
      QuadIsSpelled(tokens[n], g[n], g[n + 1]);
    } else {
      forall i | 0 <= i < |g| ensures HexToken(tokens[i]) == Some(g[i]) {
        if i < n { assert tokens[..n][i] == tokens[i] && before[i] == g[i]; }
      }
    }
  }

  ghost predicate CleanToken(tok: string) { tok != "" && ':' !in tok && '%' !in tok }

  lemma SpelledHexesAreClean(tokens: seq<string>, g: seq<nat>)
    requires SpellsHexes(tokens, g)
    ensures forall i :: 0 <= i < |tokens| ==> CleanToken(tokens[i])
    ensures forall k :: 0 <= k < |g| ==> g[k] < 65536
  {
    forall i | 0 <= i < |tokens| ensures CleanToken(tokens[i]) && g[i] < 65536 {
      assert HexToken(tokens[i]) == Some(g[i]);
      HexTokenChars(tokens[i]);
    }
  }

  lemma SpelledTokensAreClean(tokens: seq<string>, g: seq<nat>)
    requires tokens != [] && SpellsTokens(tokens, g)
    ensures forall i :: 0 <= i < |tokens| ==> CleanToken(tokens[i])
    ensures forall k :: 0 <= k < |g| ==> g[k] < 65536
  {
    if SpellsHexes(tokens, g) {
      SpelledHexesAreClean(tokens, g);
    } else {
      var n := |tokens| - 1;
      SpelledHexesAreClean(tokens[..n], g[..n]);
      SpelledPair(tokens[n], g[n], g[n + 1]);
      forall i | 0 <= i < |tokens| ensures CleanToken(tokens[i]) {
        if i < n { assert CleanToken(tokens[..n][i]); }
      }
      forall k | 0 <= k < |g| ensures g[k] < 65536 {
        if k < n { assert g[..n][k] < 65536; }
      }
    }
  }

  /** Nothing in a run can be taken for a `::` or a zone id. */
  ghost predicate Clean(run: string)
  {
    NoDouble(run) && '%' !in run && (run != "" ==> run[0] != ':' && run[|run| - 1] != ':')
  }

  lemma {:induction false} JoinIsClean(tokens: seq<string>)
    requires |tokens| > 0
    requires forall i :: 0 <= i < |tokens| ==> CleanToken(tokens[i])
    ensures Join(tokens, ':') != "" && Clean(Join(tokens, ':'))
    decreases |tokens|
  {
    var first := tokens[0];
    if |tokens| > 1 {
      JoinIsClean(tokens[1..]);
      var rest := Join(tokens[1..], ':');
      var run := first + [':'] + rest;
      forall i | 0 <= i < |run| - 1 ensures run[i] != ':' || run[i + 1] != ':' {
        if i < |first| {
          assert run[i] == first[i];
        } else if i == |first| {
          assert run[i + 1] == rest[0];
        } else {
          assert run[i] == rest[i - |first| - 1] && run[i + 1] == rest[i - |first|];
        }
      }
      assert run[0] == first[0] && run[|run| - 1] == rest[|rest| - 1];
    }
  }

  lemma RunIsSpelled(run: string, g: seq<nat>)
    ensures Run(run) == Some(g) <==> SpellsRun(run, g)
    ensures SpellsRun(run, g) ==> Clean(run) && forall k :: 0 <= k < |g| ==> g[k] < 65536
  {
    if run != "" {
      if Run(run) == Some(g) {
        var tokens := Split(run, ':');
        JoinOfSplit(run, ':');
        TokensAreSpelled(tokens, g);
      }
      if SpellsRun(run, g) {
        var tokens: seq<string> :| tokens != [] && run == Join(tokens, ':') && SpellsTokens(tokens, g);
        SpelledTokensAreClean(tokens, g);
        JoinIsClean(tokens);
        SplitOfJoin(tokens, ':');
        TokensAreSpelled(tokens, g);
      }
    }
  }

  // ---------------------------------------------------------------------
  // The theorem

  /** The part before the first percent sign is what is read. */
  lemma {:induction false} ZoneIsCut(host: string)
    ensures var text := BeforeZone(host);
            '%' !in text && (host == text || exists zone :: host == text + "%" + zone)
  {
    if host != "" && host[0] != '%' {
      var rest := BeforeZone(host[1..]);
      ZoneIsCut(host[1..]);
      assert host == [host[0]] + host[1..];
      if host[1..] != rest {
        var zone :| host[1..] == rest + "%" + zone;
        assert host == [host[0]] + rest + "%" + zone;
      }
    } else if host != "" {
      assert host == "" + "%" + host[1..];
    }
  }

  lemma {:induction false} NoZoneToCut(text: string)
    requires '%' !in text
    ensures BeforeZone(text) == text
  {
    if text != "" {
      NoZoneToCut(text[1..]);
      assert text == [text[0]] + text[1..];
    }
  }

  lemma ReadIsSpelled(host: string, g: seq<nat>)
    requires Parse(host) == Some(g)
    ensures Spells(BeforeZone(host), g)
  {
    var text := BeforeZone(host);
    var halves := SplitDouble(text);
    OneOrTwoHalves(text);
    if |halves| == 2 {
      var head, tail := Run(halves[0]).value, Run(halves[1]).value;
      RunIsSpelled(halves[0], head);
      RunIsSpelled(halves[1], tail);
      var i, j := |head|, 8 - |tail|;
      assert g[..i] == head && g[j..] == tail;
      assert Compressed(halves[0], halves[1], g, i, j);
    } else {
      RunIsSpelled(text, g);
    }
  }

  lemma SpelledIsRead(text: string, g: seq<nat>)
    requires Spells(text, g)
    ensures ParseText(text) == Some(g) && IsAddress(g)
  {
    if |g| == 8 && SpellsRun(text, g) {
      RunIsSpelled(text, g);
      SplitWithoutDouble(text);
    } else {
      var head, tail, i: nat, j: nat :| text == head + "::" + tail && Compressed(head, tail, g, i, j);
      CompressedIsRead(head, tail, g, i, j);
    }
  }

  lemma HalvesAreRead(head: string, tail: string)
    requires Clean(head) && Clean(tail) && Run(head).Some? && Run(tail).Some?
    ensures ParseText(head + "::" + tail) == Fill(Run(head).value, Run(tail).value)
  {
    SplitAtDouble(head, tail);
    SplitWithoutDouble(tail);
  }

  lemma FillIsCompressed(g: seq<nat>, i: nat, j: nat)
    requires |g| == 8 && i <= j <= 8 && forall k :: i <= k < j ==> g[k] == 0
    ensures Fill(g[..i], g[j..]) == Some(g)
  {
    assert g == g[..i] + ZeroGroups(j - i) + g[j..];
  }

  lemma CompressedIsRead(head: string, tail: string, g: seq<nat>, i: nat, j: nat)
    requires Compressed(head, tail, g, i, j)
    ensures ParseText(head + "::" + tail) == Some(g) && IsAddress(g)
  {
    RunIsSpelled(head, g[..i]);
    RunIsSpelled(tail, g[j..]);
    HalvesAreRead(head, tail);
    FillIsCompressed(g, i, j);
    CompressedIsAddress(head, tail, g, i, j);
  }

  lemma CompressedIsAddress(head: string, tail: string, g: seq<nat>, i: nat, j: nat)
    requires Compressed(head, tail, g, i, j)
    ensures IsAddress(g)
  {
    RunIsSpelled(head, g[..i]);
    RunIsSpelled(tail, g[j..]);
    forall k | 0 <= k < 8 ensures g[k] < 65536 {
      if k < i {
        assert g[k] == g[..i][k];
      } else if k >= j {
        assert g[k] == g[j..][k - j];
      }
    }
  }

  ghost predicate IsAddress(g: seq<nat>)
  {
    |g| == 8 && forall k :: 0 <= k < 8 ==> g[k] < 65536
  }

  /** The parser accepts exactly the literals of the grammar, up to a zone id,
      and gives the groups they spell: always eight values below 2^16. */
  lemma ParsesExactlySpellings(host: string, g: seq<nat>)
    ensures Parse(host) == Some(g) <==> Spells(BeforeZone(host), g)
    ensures Parse(host) == Some(g) ==> IsAddress(g)
  {
    if Parse(host) == Some(g) { ReadIsSpelled(host, g); }
    if Spells(BeforeZone(host), g) { SpelledIsRead(BeforeZone(host), g); }
  }
}
