/** Every way to print an address reads back as that address. */
module Ipv6Printing {
  import opened Options
  import opened Text
  import opened Ipv6
  import opened Ipv6Proofs

  /** How one hexadecimal group is written. */
  datatype GroupStyle = GroupStyle(zeros: nat, upper: bool)

  function HexText(v: nat, style: GroupStyle): string { Zeros(style.zeros) + Digits(v, 16, style.upper) }

  /** A group has four digits at most, leading zeros included. */
  ghost predicate StylesFit(g: seq<nat>, styles: seq<GroupStyle>)
  {
    |styles| == |g| && forall k :: 0 <= k < |g| ==> |HexText(g[k], styles[k])| <= 4
  }

  function HexTokens(g: seq<nat>, styles: seq<GroupStyle>): seq<string>
    requires |styles| == |g|
  {
    seq(|g|, k requires 0 <= k < |g| => HexText(g[k], styles[k]))
  }

  /** Two groups as a dotted quad. */
  function DottedText(hi: nat, lo: nat): string
  {
    Join([Digits(hi / 256, 10, false), Digits(hi % 256, 10, false),
          Digits(lo / 256, 10, false), Digits(lo % 256, 10, false)], '.')
  }

  function RunTokens(g: seq<nat>, styles: seq<GroupStyle>, dotted: bool): (tokens: seq<string>)
    requires |styles| == |g| && (dotted ==> |g| >= 2)
  {
    var n := |g| - 2;
    if dotted then HexTokens(g[..n], styles[..n]) + [DottedText(g[n], g[n + 1])] else HexTokens(g, styles)
  }

  function RunText(g: seq<nat>, styles: seq<GroupStyle>, dotted: bool): string
    requires |styles| == |g| && (dotted ==> |g| >= 2)
  {
    if g == [] then "" else Join(RunTokens(g, styles, dotted), ':')
  }

  /** The groups from `i` to `j` written as `::`, or none of them. */
  datatype Cut = Full | Compress(i: nat, j: nat)

  ghost predicate CanCut(g: seq<nat>, cut: Cut, dotted: bool)
    requires |g| == 8
  {
    cut.Compress? ==> cut.i <= cut.j <= 8 && (dotted ==> cut.j <= 6) && forall k :: cut.i <= k < cut.j ==> g[k] == 0
  }

  function Print(g: seq<nat>, styles: seq<GroupStyle>, cut: Cut, dotted: bool): string
    requires |g| == 8 == |styles|
    requires cut.Compress? ==> cut.i <= cut.j <= 8 && (dotted ==> cut.j <= 6)
  {
    match cut
    case Full => RunText(g, styles, dotted)
    case Compress(i, j) => RunText(g[..i], styles[..i], false) + "::" + RunText(g[j..], styles[j..], dotted)
  }

  lemma HexTextReads(v: nat, style: GroupStyle)
    requires |HexText(v, style)| <= 4
    ensures HexToken(HexText(v, style)) == Some(v)
  {
    var digits := Digits(v, 16, style.upper);
    DigitsAreNumeral(v, 16, style.upper);
    ValueOfDigits(v, 16, style.upper);
    ValuePadded(style.zeros, digits, 16);
  }

  /** Without leading zeros every group fits. */
  lemma GroupsFit(v: nat, upper: bool)
    requires v < 65536
    ensures |HexText(v, GroupStyle(0, upper))| <= 4
  {
    var digits := Digits(v, 16, upper);
    assert v / 16 < 4096 && v / 16 / 16 < 256 && v / 16 / 16 / 16 < 16;
    if v >= 16 {
      assert digits == Digits(v / 16, 16, upper) + [Digit(v % 16, upper)];
      if v / 16 >= 16 {
        assert |Digits(v / 16, 16, upper)| == |Digits(v / 16 / 16, 16, upper)| + 1;
        assert |Digits(v / 16 / 16, 16, upper)| <= 2;
      }
    }
  }

  lemma DecimalOctet(n: nat)
    requires n < 256
    ensures Octet(Digits(n, 10, false)) == Some(n)
  {
    DigitsAreNumeral(n, 10, false);
    ValueOfDigits(n, 10, false);
    if n >= 10 {
      assert n / 10 < 26 && n / 10 / 10 < 10;
      assert |Digits(n / 10, 10, false)| <= 2;
    }
  }

  lemma DottedSpells(hi: nat, lo: nat)
    requires hi < 65536 && lo < 65536
    ensures SpellsPair(DottedText(hi, lo), hi, lo)
  {
    var o := [hi / 256, hi % 256, lo / 256, lo % 256];
    var parts := [Digits(o[0], 10, false), Digits(o[1], 10, false), Digits(o[2], 10, false), Digits(o[3], 10, false)];
    forall i | 0 <= i < 4 ensures Octet(parts[i]) == Some(o[i]) { DecimalOctet(o[i]); }
    assert DottedText(hi, lo) == Join(parts, '.');
    assert SpellsQuad(DottedText(hi, lo), o);
    assert hi == o[0] * 256 + o[1] && lo == o[2] * 256 + o[3];
  }

  lemma HexTokensSpell(g: seq<nat>, styles: seq<GroupStyle>)
    requires StylesFit(g, styles)
    ensures SpellsHexes(HexTokens(g, styles), g)
  {
    forall k | 0 <= k < |g| ensures HexToken(HexTokens(g, styles)[k]) == Some(g[k]) { HexTextReads(g[k], styles[k]); }
  }

  lemma DottedRunSpells(g: seq<nat>, styles: seq<GroupStyle>)
    requires |styles| == |g| >= 2
    requires StylesFit(g, styles) && forall k :: 0 <= k < |g| ==> g[k] < 65536
    ensures SpellsMixed(RunTokens(g, styles, true), g)
  {
    var n := |g| - 2;
    var tokens := RunTokens(g, styles, true);
    forall k | 0 <= k < n ensures |HexText(g[..n][k], styles[..n][k])| <= 4 {
      assert |HexText(g[k], styles[k])| <= 4;
    }
    HexTokensSpell(g[..n], styles[..n]);
    DottedSpells(g[n], g[n + 1]);
    assert tokens[..n] == HexTokens(g[..n], styles[..n]) && tokens[n] == DottedText(g[n], g[n + 1]);
    assert |tokens| == n + 1;
  }

  lemma RunSpells(g: seq<nat>, styles: seq<GroupStyle>, dotted: bool)
    requires |styles| == |g| && (dotted ==> |g| >= 2)
    requires StylesFit(g, styles) && forall k :: 0 <= k < |g| ==> g[k] < 65536
    ensures SpellsRun(RunText(g, styles, dotted), g)
  {
    if g != [] {
      var tokens := RunTokens(g, styles, dotted);
      if dotted {
        DottedRunSpells(g, styles);
      } else {
        HexTokensSpell(g, styles);
      }
      assert tokens != [] && SpellsTokens(tokens, g);
      SpelledTokensAreClean(tokens, g);
      JoinIsClean(tokens);
    }
  }

  /** Any run of zero groups compressed, any leading zeros, either letter case,
      the last two groups dotted or not: the text reads back as the address. */
  lemma PrintRoundTrip(g: seq<nat>, styles: seq<GroupStyle>, cut: Cut, dotted: bool)
    requires IsAddress(g) && StylesFit(g, styles) && CanCut(g, cut, dotted)
    ensures Parse(Print(g, styles, cut, dotted)) == Some(g)
  {
    var text := Print(g, styles, cut, dotted);
    match cut
    case Full =>
      RunSpells(g, styles, dotted);
      RunIsSpelled(text, g);
      NoZoneToCut(text);
      ParsesExactlySpellings(text, g);
    case Compress(i, j) =>
      var head, tail := RunText(g[..i], styles[..i], false), RunText(g[j..], styles[j..], dotted);
      RunSpells(g[..i], styles[..i], false);
      RunSpells(g[j..], styles[j..], dotted);
      RunIsSpelled(head, g[..i]);
      RunIsSpelled(tail, g[j..]);
      assert Compressed(head, tail, g, i, j);
      CompressedIsRead(head, tail, g, i, j);
      NoZoneToCut(text);
  }

  /** Every address has a printing, without leading zeros in either case, that
      reads back as it. */
  lemma EveryAddressPrints(g: seq<nat>, upper: bool)
    requires IsAddress(g)
    ensures var styles := seq(8, i => GroupStyle(0, upper));
            StylesFit(g, styles) && Parse(Print(g, styles, Full, false)) == Some(g)
  {
    var styles := seq(8, i => GroupStyle(0, upper));
    forall k | 0 <= k < 8 ensures |HexText(g[k], styles[k])| <= 4 { GroupsFit(g[k], upper); }
    PrintRoundTrip(g, styles, Full, false);
  }
}
