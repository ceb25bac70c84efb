/** Host and address literals of src/safe-url.js. Letter case is the ASCII one;
    no other character lowers to one that the parsers or the names use. */
module Hosts {
  import opened Options
  import opened Text
  import Ipv4
  import Ipv6
  import opened Ipv6Proofs
  import opened Nat64
  import opened Addresses

  function LowerChar(c: char): char { if 'A' <= c <= 'Z' then (c as int + 32) as char else c }

  function Lower(s: string): (r: string)
    ensures |r| == |s|
  {
    seq(|s|, i requires 0 <= i < |s| => LowerChar(s[i]))
  }

  const UPPER := "ABCDEFGHIJKLMNOPQRSTUVWXYZ"
  const LOWER := "abcdefghijklmnopqrstuvwxyz"

  /** Each of the 26 capitals becomes its small letter; no other character changes. */
  lemma LowersExactly(c: char)
    ensures c in UPPER ==> exists i :: 0 <= i < 26 && UPPER[i] == c && LowerChar(c) == LOWER[i]
    ensures c !in UPPER ==> LowerChar(c) == c
  {
    if 'A' <= c <= 'Z' {
      var i := c as int - 'A' as int;
      assert UPPER[i] == c && LOWER[i] == LowerChar(c);
    }
  }

  /** Lower case, without one trailing dot. */
  function Normalised(s: string): string
  {
    if s != "" && s[|s| - 1] == '.' then Lower(s[..|s| - 1]) else Lower(s)
  }

  predicate Bracketed(s: string) { |s| >= 2 && s[0] == '[' && s[|s| - 1] == ']' }

  /** `s.slice(1, -1)`. */
  function Inner(s: string): string { if |s| < 2 then "" else s[1..|s| - 1] }

  ghost predicate Usable(nat64: Option<Declared>)
  {
    nat64.Some? ==> IsAddress(nat64.value.groups) && IsLength(nat64.value.len)
  }

  datatype HostVerdict = Passes | Blocked(reason: Ipv4.Reason) | BadLiteral | Name(host: string)

  function OfReason(r: Option<Ipv4.Reason>): HostVerdict { if r.Some? then Blocked(r.value) else Passes }

  function ClassifyHost(hostname: string, nat64: Option<Declared>): HostVerdict
    requires Usable(nat64)
  {
    var host := Normalised(hostname);
    if host == "" then Passes
    else if Bracketed(host) then
      var groups := Ipv6.Parse(Inner(host));
      if groups.None? then BadLiteral
      else
        ParsesExactlySpellings(Inner(host), groups.value);
        OfReason(Classify6(groups.value, nat64))
    else if host == "localhost" then Blocked(Ipv4.Loopback)
    else if host == "metadata.google.internal" || host == "metadata" then Blocked(Ipv4.Metadata)
    else
      var v4 := Ipv4.Parse(host);
      if v4.Some? then OfReason(Ipv4.Classify(v4.value)) else Name(host)
  }

  datatype Verdict = Safe | Range(reason: Ipv4.Reason) | ParseError | NotAnIp

  /** A bare IPv6 literal gets its brackets. */
  function HostOf(ip: string): string
  {
    if ':' in ip && ip[0] != '[' then "[" + ip + "]" else ip
  }

  function ClassifyAddress(ip: string, nat64: Option<Declared>): Verdict
    requires Usable(nat64)
  {
    ClassifyLiteral(HostOf(ip), nat64)
  }

  function ClassifyLiteral(host: string, nat64: Option<Declared>): Verdict
    requires Usable(nat64)
  {
    match ClassifyHost(host, nat64)
    case Passes =>
      var bare := if host != "" && host[0] == '[' then Inner(host) else host;
      if bare == "" then NotAnIp
      else if Ipv4.Parse(bare).Some? || Ipv6.Parse(bare).Some? then Safe else NotAnIp
    case Blocked(reason) => Range(reason)
    case BadLiteral => ParseError
    case Name(_) => NotAnIp
  }

  // ---------------------------------------------------------------------
  // Letter case changes no literal

  ghost predicate Lowered(parts: seq<string>, lower: seq<string>)
  {
    |lower| == |parts| && forall i :: 0 <= i < |parts| ==> lower[i] == Lower(parts[i])
  }

  lemma LowerTail(s: string)
    requires s != ""
    ensures Lower(s) == [LowerChar(s[0])] + Lower(s[1..]) && Lower(s)[1..] == Lower(s[1..])
  {
  }

  lemma LoweredShifted(c: char, parts: seq<string>, lower: seq<string>)
    requires |parts| > 0 && Lowered(parts, lower)
    ensures Lowered([[c] + parts[0]] + parts[1..], [[LowerChar(c)] + lower[0]] + lower[1..])
  {
    assert Lower([c] + parts[0]) == [LowerChar(c)] + Lower(parts[0]);
  }

  lemma {:induction false} SplitLower(s: string, c: char)
    requires c in {':', '.'}
    ensures Lowered(Split(s, c), Split(Lower(s), c))
  {
    if s != "" {
      LowerTail(s);
      SplitLower(s[1..], c);
      LoweredShifted(s[0], Split(s[1..], c), Split(Lower(s[1..]), c));
    }
  }

  lemma {:induction false} SplitDoubleLower(s: string)
    ensures Lowered(Ipv6.SplitDouble(s), Ipv6.SplitDouble(Lower(s)))
    decreases |s|
  {
    if |s| >= 2 {
      LowerTail(s);
      if s[0] == ':' && s[1] == ':' {
        SplitDoubleLower(s[2..]);
        assert Lower(s)[2..] == Lower(s[2..]);
      } else {
        SplitDoubleLower(s[1..]);
        LoweredShifted(s[0], Ipv6.SplitDouble(s[1..]), Ipv6.SplitDouble(Lower(s[1..])));
      }
    }
  }

  lemma {:induction false} BeforeZoneLower(s: string)
    ensures Ipv6.BeforeZone(Lower(s)) == Lower(Ipv6.BeforeZone(s))
  {
    if s != "" && s[0] != '%' {
      LowerTail(s);
      BeforeZoneLower(s[1..]);
      var rest := Ipv6.BeforeZone(s[1..]);
      assert Lower([s[0]] + rest) == [LowerChar(s[0])] + Lower(rest);
    }
  }

  lemma DigitLower(c: char)
    ensures DigitValue(LowerChar(c)) == DigitValue(c)
  {
  }

  lemma {:induction false} NumeralLower(s: string, base: nat)
    ensures IsNumeral(Lower(s), base) == IsNumeral(s, base)
    ensures Value(Lower(s), base) == Value(s, base)
    decreases |s|
  {
    forall i | 0 <= i < |s| ensures DigitValue(Lower(s)[i]) == DigitValue(s[i]) { DigitLower(s[i]); }
    if s != "" {
      NumeralLower(s[..|s| - 1], base);
      assert Lower(s)[..|s| - 1] == Lower(s[..|s| - 1]);
    }
    if IsNumeral(Lower(s), base) {
      forall i | 0 <= i < |s| ensures DigitValue(s[i]) < base { assert DigitValue(Lower(s)[i]) < base; }
    }
  }

  lemma LowerDrop(s: string, k: nat, base: nat)
    requires k <= |s|
    ensures IsNumeral(Lower(s)[k..], base) == IsNumeral(s[k..], base)
    ensures Value(Lower(s)[k..], base) == Value(s[k..], base)
  {
    assert Lower(s)[k..] == Lower(s[k..]);
    NumeralLower(s[k..], base);
  }

  lemma MarkersLower(part: string)
    requires part != ""
    ensures Lower(part)[0] == '0' <==> part[0] == '0'
    ensures '1' <= Lower(part)[0] <= '9' <==> '1' <= part[0] <= '9'
    ensures |part| >= 2 ==> (Lower(part)[1] in {'x', 'X'} <==> part[1] in {'x', 'X'})
    ensures Lower(part) == "0" <==> part == "0"
  {
    assert part == "0" <==> |part| == 1 && part[0] == '0';
    assert Lower(part) == "0" <==> |part| == 1 && Lower(part)[0] == '0';
  }

  lemma PartLower(part: string)
    ensures Ipv4.PartValue(Lower(part)) == Ipv4.PartValue(part)
  {
    if part != "" {
      MarkersLower(part);
      NumeralLower(part, 10);
      if |part| >= 2 {
        LowerDrop(part, 1, 8);
        LowerDrop(part, 2, 16);
      }
    }
  }

  lemma {:induction false} NumbersLower(parts: seq<string>, lower: seq<string>)
    requires Lowered(parts, lower)
    ensures Ipv4.Numbers(lower) == Ipv4.Numbers(parts)
    decreases |parts|
  {
    if parts != [] {
      NumbersLower(parts[..|parts| - 1], lower[..|parts| - 1]);
      PartLower(parts[|parts| - 1]);
    }
  }

  lemma Ipv4Lower(s: string)
    ensures Ipv4.Parse(Lower(s)) == Ipv4.Parse(s)
  {
    SplitLower(s, '.');
    NumbersLower(Split(s, '.'), Split(Lower(s), '.'));
  }

  lemma {:induction false} OctetsLower(parts: seq<string>, lower: seq<string>)
    requires Lowered(parts, lower)
    ensures Ipv6.Octets(lower) == Ipv6.Octets(parts)
    decreases |parts|
  {
    if parts != [] {
      OctetsLower(parts[..|parts| - 1], lower[..|parts| - 1]);
      NumeralLower(parts[|parts| - 1], 10);
    }
  }

  lemma {:induction false} HexesLower(tokens: seq<string>, lower: seq<string>)
    requires Lowered(tokens, lower)
    ensures Ipv6.Hexes(lower) == Ipv6.Hexes(tokens)
    decreases |tokens|
  {
    if tokens != [] {
      HexesLower(tokens[..|tokens| - 1], lower[..|tokens| - 1]);
      NumeralLower(tokens[|tokens| - 1], 16);
    }
  }

  lemma LastTokenLower(tok: string)
    ensures Ipv6.LastToken(Lower(tok)) == Ipv6.LastToken(tok)
  {
    assert '.' in Lower(tok) <==> '.' in tok by {
      if '.' in tok {
        var i :| 0 <= i < |tok| && tok[i] == '.';
        assert Lower(tok)[i] == '.';
      }
    }
    NumeralLower(tok, 16);
    SplitLower(tok, '.');
    OctetsLower(Split(tok, '.'), Split(Lower(tok), '.'));
  }

  lemma RunLower(run: string)
    ensures Ipv6.Run(Lower(run)) == Ipv6.Run(run)
  {
    if run != "" {
      var tokens, lower := Split(run, ':'), Split(Lower(run), ':');
      var n := |tokens| - 1;
      SplitLower(run, ':');
      HexesLower(tokens[..n], lower[..n]);
      LastTokenLower(tokens[n]);
    }
  }

  lemma Ipv6Lower(s: string)
    ensures Ipv6.Parse(Lower(s)) == Ipv6.Parse(s)
  {
    var text := Ipv6.BeforeZone(s);
    BeforeZoneLower(s);
    SplitDoubleLower(text);
    var halves := Ipv6.SplitDouble(text);
    RunLower(text);
    RunLower(halves[0]);
    if |halves| == 2 { RunLower(halves[1]); }
  }

  // ---------------------------------------------------------------------
  // Exactly the public literals are safe

  ghost predicate PublicV4(s: string)
  {
    Ipv4.Parse(s).Some? && Ipv4.Classify(Ipv4.Parse(s).value).None?
  }

  ghost predicate PublicV6(s: string, nat64: Option<Declared>)
    requires Usable(nat64)
  {
    var g := Ipv6.Parse(s);
    g.Some? && |g.value| == 8 && Classify6(g.value, nat64).None?
  }

  /** An IPv4 literal, a bare or a bracketed IPv6 literal; a dot after the
      bracket is let through only behind a zone id. */
  ghost predicate PublicLiteral(ip: string, nat64: Option<Declared>)
    requires Usable(nat64)
  {
    || PublicV4(ip)
    || (ip != "" && ip[0] != '[' && PublicV6(ip, nat64))
    || (Bracketed(ip) && PublicV6(Inner(ip), nat64))
    || (&& ip != "" && ip[|ip| - 1] == '.' && Bracketed(ip[..|ip| - 1])
        && '%' in Inner(ip[..|ip| - 1]) && PublicV6(Inner(ip[..|ip| - 1]), nat64))
  }

  /** Neither an IPv6 literal nor one of the blocked names reads as IPv4. */
  lemma V4Chars(s: string)
    requires Ipv4.Parse(s).Some?
    ensures s != "" && '0' <= s[0] <= '9' && ':' !in s && s[|s| - 1] != '.'
  {
    var parts := Split(s, '.');
    Ipv4.NumbersLength(parts);
    JoinOfSplit(s, '.');
    forall i | 0 <= i < |parts|
      ensures parts[i] != "" && '0' <= parts[i][0] <= '9' && ':' !in parts[i] && '.' !in parts[i]
    {
      Ipv4.PartChars(parts[i]);
      Ipv4.PartLacks(parts[i], ':');
      Ipv4.PartLacks(parts[i], '.');
    }
    JoinLacks(parts, '.', ':');
    JoinEndsWithLast(parts, '.');
    assert s[0] == parts[0][0];
  }

  lemma BeforeZoneIsPrefix(s: string)
    ensures forall c :: c in Ipv6.BeforeZone(s) ==> c in s
  {
    ZoneIsCut(s);
  }

  /** Without a colon there are at most two groups. */
  lemma V6NeedsColon(s: string)
    requires Ipv6.Parse(s).Some?
    ensures ':' in s
  {
    var text := Ipv6.BeforeZone(s);
    if ':' !in s {
      BeforeZoneIsPrefix(s);
      SplitWithoutDouble(text);
      SplitOfOne(text, ':');
    }
  }

  /** No closing bracket can be read, except in a zone id. */
  lemma V6ClosingBracket(s: string)
    ensures '%' in s ==> Ipv6.Parse(s + "]") == Ipv6.Parse(s)
    ensures '%' !in s ==> Ipv6.Parse(s + "]").None?
  {
    if '%' in s {
      ZoneIsFixed(s, "]");
    } else {
      NoZoneToCut(s + "]");
      if Ipv6.Parse(s + "]").Some? { SpelledEndsInDigit(s + "]", Ipv6.Parse(s + "]").value); }
    }
  }

  lemma {:induction false} ZoneIsFixed(s: string, more: string)
    requires '%' in s
    ensures Ipv6.BeforeZone(s + more) == Ipv6.BeforeZone(s)
  {
    if s[0] != '%' {
      ZoneIsFixed(s[1..], more);
      assert (s + more)[1..] == s[1..] + more;
    }
  }

  lemma SpelledEndsInDigit(text: string, g: seq<nat>)
    requires Ipv6.ParseText(text) == Some(g) && text != ""
    ensures text[|text| - 1] != ']'
  {
    var halves := Ipv6.SplitDouble(text);
    OneOrTwoHalves(text);
    if |halves| == 2 {
      RunEndsInDigit(halves[1]);
    } else {
      RunEndsInDigit(text);
    }
  }

  lemma RunEndsInDigit(run: string)
    requires Ipv6.Run(run).Some?
    ensures run != "" ==> run[|run| - 1] != ']'
  {
    if run != "" {
      var tokens := Split(run, ':');
      var last := tokens[|tokens| - 1];
      JoinOfSplit(run, ':');
      JoinEndsWithLast(tokens, ':');
      if '.' in last {
        var parts := Split(last, '.');
        JoinOfSplit(last, '.');
        JoinEndsWithLast(parts, '.');
        var part := parts[3];
        assert Ipv6.Octet(part).Some?;
        assert DigitValue(part[|part| - 1]) < 10;
      } else {
        assert DigitValue(last[|last| - 1]) < 16;
      }
    }
  }

  lemma {:induction false} JoinEndsWithLast(parts: seq<string>, sep: char)
    requires |parts| > 0 && parts[|parts| - 1] != ""
    ensures var s, last := Join(parts, sep), parts[|parts| - 1];
            s != "" && s[|s| - 1] == last[|last| - 1]
    decreases |parts|
  {
    if |parts| > 1 { JoinEndsWithLast(parts[1..], sep); }
  }

  lemma BracketedPasses(host: string, nat64: Option<Declared>)
    requires Usable(nat64) && Bracketed(Normalised(host))
    ensures ClassifyHost(host, nat64) == Passes <==> PublicV6(Inner(Normalised(host)), nat64)
    ensures !ClassifyHost(host, nat64).Name?
  {
    var g := Ipv6.Parse(Inner(Normalised(host)));
    if g.Some? { ParsesExactlySpellings(Inner(Normalised(host)), g.value); }
  }

  lemma PublicLower(s: string, nat64: Option<Declared>)
    requires Usable(nat64)
    ensures PublicV6(Lower(s), nat64) == PublicV6(s, nat64) && PublicV4(Lower(s)) == PublicV4(s)
  {
    Ipv4Lower(s);
    Ipv6Lower(s);
  }

  lemma BareLiteral(ip: string, nat64: Option<Declared>)
    requires Usable(nat64) && ':' in ip && ip[0] != '['
    ensures ClassifyAddress(ip, nat64) == Safe <==> PublicV6(ip, nat64)
  {
    var host := "[" + ip + "]";
    assert Normalised(host) == Lower(host) && Bracketed(Lower(host));
    assert Inner(Lower(host)) == Lower(ip) && Inner(host) == ip;
    BracketedPasses(host, nat64);
    PublicLower(ip, nat64);
  }

  lemma BracketsLower(ip: string)
    requires Bracketed(ip)
    ensures Normalised(ip) == Lower(ip) && Bracketed(Lower(ip)) && Inner(Lower(ip)) == Lower(Inner(ip))
  {
    var n := |ip| - 1;
    assert Lower(ip)[0] == LowerChar(ip[0]) && Lower(ip)[n] == LowerChar(ip[n]);
    forall i | 0 <= i < n - 1 ensures Lower(ip)[1..n][i] == Lower(ip[1..n])[i] {}
  }

  lemma BracketedLiteral(ip: string, nat64: Option<Declared>)
    requires Usable(nat64) && Bracketed(ip)
    ensures ClassifyAddress(ip, nat64) == Safe <==> PublicV6(Inner(ip), nat64)
  {
    BracketsLower(ip);
    BracketedPasses(ip, nat64);
    PublicLower(Inner(ip), nat64);
    if PublicV6(Inner(ip), nat64) { V6NeedsColon(Inner(ip)); }
  }

  /** What is checked again is the literal with its closing bracket left on. */
  lemma DottedInner(ip: string, literal: string)
    requires ip != "" && ip[|ip| - 1] == '.' && literal == ip[..|ip| - 1] && Bracketed(literal)
    ensures Normalised(ip) == Lower(literal) && Bracketed(Lower(literal))
    ensures Inner(Lower(literal)) == Lower(Inner(literal)) && Inner(ip) == Inner(literal) + "]"
    ensures HostOf(ip) == ip && ip[0] == '['
  {
  }

  lemma ClosingBracketIsNoV4(s: string)
    ensures ':' in s ==> Ipv4.Parse(s + "]").None?
  {
    if Ipv4.Parse(s + "]").Some? { V4Chars(s + "]"); }
  }

  /** The dot goes before the literal is classified, but comes back when the
      input is checked again; only a zone id hides the bracket left behind. */
  lemma DottedBracketLiteral(ip: string, nat64: Option<Declared>)
    requires Usable(nat64) && ip != "" && ip[|ip| - 1] == '.' && Bracketed(ip[..|ip| - 1])
    ensures ClassifyAddress(ip, nat64) == Safe <==>
              '%' in Inner(ip[..|ip| - 1]) && PublicV6(Inner(ip[..|ip| - 1]), nat64)
  {
    var inner := Inner(ip[..|ip| - 1]);
    DottedInner(ip, ip[..|ip| - 1]);
    BracketedPasses(ip, nat64);
    PublicLower(inner, nat64);
    V6ClosingBracket(inner);
    ClosingBracketIsNoV4(inner);
    if PublicV6(inner, nat64) { V6NeedsColon(inner); }
  }

  /** An opening bracket without its closing one leaves a name. */
  lemma OpenBracketIsName(host: string, nat64: Option<Declared>)
    requires Usable(nat64)
    requires var h := Normalised(host); h != "" && h[0] == '[' && h[|h| - 1] != ']'
    ensures ClassifyHost(host, nat64).Name?
  {
    if Ipv4.Parse(Normalised(host)).Some? { V4Chars(Normalised(host)); }
  }

  lemma OpenBracketIsNoLiteral(ip: string, nat64: Option<Declared>)
    requires Usable(nat64) && ip != "" && ip[0] == '[' && !Bracketed(ip)
    requires !(ip[|ip| - 1] == '.' && Bracketed(ip[..|ip| - 1]))
    ensures ClassifyAddress(ip, nat64) != Safe
  {
    var h := Normalised(ip);
    assert h[0] == '[' && h[|h| - 1] == LowerChar(ip[|h| - 1]);
    OpenBracketIsName(ip, nat64);
  }

  /** A host without brackets passes exactly when it is empty or public IPv4. */
  lemma UnbracketedPasses(host: string, nat64: Option<Declared>)
    requires Usable(nat64)
    requires var h := Normalised(host); h == "" || h[0] != '['
    ensures ClassifyHost(host, nat64) == Passes <==> Normalised(host) == "" || PublicV4(Normalised(host))
    ensures ClassifyHost(host, nat64) != BadLiteral
  {
    if Ipv4.Parse(Normalised(host)).Some? { V4Chars(Normalised(host)); }
  }

  lemma NameOrV4(ip: string, nat64: Option<Declared>)
    requires Usable(nat64) && ':' !in ip && (ip == "" || ip[0] != '[')
    ensures ClassifyAddress(ip, nat64) == Safe <==> PublicV4(ip)
  {
    var h := Normalised(ip);
    assert h != "" ==> h[0] == LowerChar(ip[0]);
    UnbracketedPasses(ip, nat64);
    if Ipv6.Parse(ip).Some? { V6NeedsColon(ip); }
    if Ipv4.Parse(ip).Some? { V4Chars(ip); }
    if ip != "" && ip[|ip| - 1] != '.' { PublicLower(ip, nat64); }
  }

  /** An address passes exactly when it is a public literal: a name, a malformed
      literal and the empty string never do. */
  lemma SafeIsPublicLiteral(ip: string, nat64: Option<Declared>)
    requires Usable(nat64)
    ensures ClassifyAddress(ip, nat64) == Safe <==> PublicLiteral(ip, nat64)
  {
    if Ipv4.Parse(ip).Some? { V4Chars(ip); }
    if Ipv6.Parse(ip).Some? { V6NeedsColon(ip); }
    if ip == "" || (':' !in ip && ip[0] != '[') {
      NameOrV4(ip, nat64);
    } else if ip[0] != '[' {
      BareLiteral(ip, nat64);
    } else if Bracketed(ip) {
      BracketedLiteral(ip, nat64);
    } else if ip[|ip| - 1] == '.' && Bracketed(ip[..|ip| - 1]) {
      DottedBracketLiteral(ip, nat64);
    } else {
      OpenBracketIsNoLiteral(ip, nat64);
    }
  }

  /** Every spelling of an IPv4 address gets that address's verdict. */
  lemma EverySpellingIsClassifiedAlike(ip: string, addr: nat, nat64: Option<Declared>)
    requires Usable(nat64) && Ipv4.Parse(ip) == Some(addr)
    ensures ClassifyAddress(ip, nat64) == if Ipv4.Classify(addr).Some? then Range(Ipv4.Classify(addr).value) else Safe
  {
    V4Chars(ip);
    Ipv4Lower(ip);
    V4Chars(Lower(ip));
    assert Normalised(ip) == Lower(ip) && Lower(ip)[0] == LowerChar(ip[0]);
  }

  /** The same public IPv4 literal with the root dot is safe as a host and no
      IP at all as an address. */
  lemma RootDotDivides(ip: string, addr: nat, nat64: Option<Declared>)
    requires Usable(nat64) && Ipv4.Parse(ip) == Some(addr) && Ipv4.Classify(addr).None?
    ensures ClassifyHost(ip + ".", nat64) == Passes && ClassifyAddress(ip + ".", nat64) == NotAnIp
  {
    V4Chars(ip);
    Ipv4Lower(ip);
    V4Chars(Lower(ip));
    var host := ip + ".";
    assert host[..|host| - 1] == ip;
    assert Normalised(host) == Lower(ip) && Lower(ip)[0] == LowerChar(ip[0]);
    assert ':' !in host && host[0] != '[';
    NameOrV4(host, nat64);
    if Ipv4.Parse(host).Some? { V4Chars(host); }
  }

  // ---------------------------------------------------------------------
  // The other verdicts

  lemma NormalisedDot(host: string)
    requires host != "" && host[|host| - 1] != '.'
    ensures Normalised(host) == Lower(host) && Normalised(host + ".") == Lower(host)
  {
    assert (host + ".")[..|host|] == host;
  }

  lemma ColonLower(s: string)
    ensures ':' in s ==> ':' in Lower(s)
  {
    if i :| 0 <= i < |s| && s[i] == ':' { assert Lower(s)[i] == ':'; }
  }

  lemma NamedHost(host: string)
    requires Lower(host) in {"localhost", "metadata", "metadata.google.internal"}
    ensures HostOf(host) == host && HostOf(host + ".") == host + "."
    ensures Normalised(host) == Lower(host) && Normalised(host + ".") == Lower(host)
  {
    var h := Lower(host);
    assert h[|h| - 1] == LowerChar(host[|h| - 1]);
    NormalisedDot(host);
    ColonLower(host);
    assert ':' !in h;
  }

  lemma NamedVerdict(host: string, nat64: Option<Declared>)
    requires Usable(nat64) && Normalised(host) in {"localhost", "metadata", "metadata.google.internal"}
    ensures ClassifyHost(host, nat64) == Blocked(if Normalised(host) == "localhost" then Ipv4.Loopback else Ipv4.Metadata)
  {
  }

  /** The three blocked names, in any case, with or without the root dot, as a
      host and as an address. */
  lemma BlockedNames(host: string, nat64: Option<Declared>)
    requires Usable(nat64) && Lower(host) in {"localhost", "metadata", "metadata.google.internal"}
    ensures var reason := if Lower(host) == "localhost" then Ipv4.Loopback else Ipv4.Metadata;
            && ClassifyHost(host, nat64) == Blocked(reason) && ClassifyHost(host + ".", nat64) == Blocked(reason)
            && ClassifyAddress(host, nat64) == Range(reason) && ClassifyAddress(host + ".", nat64) == Range(reason)
  {
    NamedHost(host);
    NamedVerdict(host, nat64);
    NamedVerdict(host + ".", nat64);
  }

  /** Any other host is a name exactly when it is no literal. */
  lemma NamesAreTheRest(host: string, nat64: Option<Declared>)
    requires Usable(nat64)
    ensures var h := Normalised(host);
            ClassifyHost(host, nat64) == Name(h) <==>
              && h != "" && !Bracketed(h) && h !in {"localhost", "metadata", "metadata.google.internal"}
              && Ipv4.Parse(h).None?
    ensures ClassifyHost(host, nat64).Name? ==> ClassifyHost(host, nat64) == Name(Normalised(host))
  {
  }

  ghost function VerdictOn(reason: Option<Ipv4.Reason>): Verdict
  {
    if reason.Some? then Range(reason.value) else Safe
  }

  /** A bracketed IPv6 literal gets the verdict of its address, and is malformed
      exactly when it does not parse. */
  lemma BracketedVerdict(ip: string, nat64: Option<Declared>)
    requires Usable(nat64) && Bracketed(ip)
    ensures var g := Ipv6.Parse(Inner(ip));
            if g.None? then ClassifyAddress(ip, nat64) == ParseError
            else |g.value| == 8 && ClassifyAddress(ip, nat64) == VerdictOn(Classify6(g.value, nat64))
  {
    BracketsLower(ip);
    Ipv6Lower(Inner(ip));
    var g := Ipv6.Parse(Inner(ip));
    if g.Some? {
      ParsesExactlySpellings(Inner(ip), g.value);
      V6NeedsColon(Inner(ip));
    }
  }

  lemma BareHost(ip: string)
    requires ':' in ip && ip[0] != '['
    ensures var host := "[" + ip + "]"; Bracketed(host) && Inner(host) == ip && HostOf(ip) == host && HostOf(host) == host
  {
  }

  lemma BareIsBracketed(ip: string, host: string, nat64: Option<Declared>)
    requires Usable(nat64) && ':' in ip && ip[0] != '[' && host == "[" + ip + "]"
    ensures Bracketed(host) && Inner(host) == ip && ClassifyAddress(ip, nat64) == ClassifyAddress(host, nat64)
  {
    BareHost(ip);
  }

  /** So does a bare one. */
  lemma BareVerdict(ip: string, nat64: Option<Declared>)
    requires Usable(nat64) && ':' in ip && ip[0] != '['
    ensures var g := Ipv6.Parse(ip);
            if g.None? then ClassifyAddress(ip, nat64) == ParseError
            else |g.value| == 8 && ClassifyAddress(ip, nat64) == VerdictOn(Classify6(g.value, nat64))
  {
    var host := "[" + ip + "]";
    BareIsBracketed(ip, host, nat64);
    BracketedVerdict(host, nat64);
  }
}
