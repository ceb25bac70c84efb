/** The tokens of an IPv6 literal are exactly the hexadecimal and decimal numerals
    of bounded length, whatever the case of their letters. */
module Ipv6Grammar {
  import opened Options
  import opened Text
  import opened Ipv6
  import opened Hosts
  import opened Ipv4Grammar

  /** The digits of a number behind some zeros, in lower case. */
  ghost predicate Padded(s: string, n: nat, base: nat)
    requires 2 <= base <= 16
  {
    exists zeros: nat :: s == Zeros(zeros) + Digits(n, base, false)
  }

  lemma NumeralIsPaddedExactly(s: string, n: nat, base: nat)
    requires 2 <= base <= 16
    ensures IsNumeral(s, base) && Value(s, base) == n <==> Padded(Lower(s), n, base)
  {
    NumeralLower(s, base);
    if IsNumeral(s, base) && Value(s, base) == n {
      LowerTwice(s);
      assert Lower(s)[0..] == Lower(s);
      TailDigits(Lower(s), 0, base);
      var zeros := NumeralIsPadded(Lower(s), base);
    }
    if zeros: nat :| Lower(s) == Zeros(zeros) + Digits(n, base, false) {
      DigitsAreNumeral(n, base, false);
      ValueOfDigits(n, base, false);
      ValuePadded(zeros, Digits(n, base, false), base);
    }
  }

  /** A group is one to four characters that spell it in hexadecimal. */
  lemma HexTokenIsSpelled(tok: string, n: nat)
    ensures HexToken(tok) == Some(n) <==> 1 <= |tok| <= 4 && Padded(Lower(tok), n, 16)
  {
    NumeralIsPaddedExactly(tok, n, 16);
  }

  /** An octet of a dotted tail is one to three characters that spell a number up
      to 255 in decimal. */
  lemma OctetIsSpelled(part: string, n: nat)
    ensures Octet(part) == Some(n) <==> 1 <= |part| <= 3 && n <= 255 && Padded(Lower(part), n, 10)
  {
    NumeralIsPaddedExactly(part, n, 10);
  }
}
