/** The dotted parts of an IPv4 address are exactly the numerals of three styles,
    whatever the case of their letters. */
module Ipv4Grammar {
  import opened Options
  import opened Text
  import opened Ipv4
  import opened Hosts

  ghost predicate LowerDigits(s: string, base: nat)
    requires base <= 16
  {
    forall i :: 0 <= i < |s| ==> DigitValue(s[i]) < base && s[i] == Digit(DigitValue(s[i]), false)
  }

  lemma DigitOfLower(c: char)
    requires DigitValue(c) < 16 && c == LowerChar(c)
    ensures c == Digit(DigitValue(c), false)
  {
  }

  lemma ZerosMore(k: nat)
    ensures Zeros(k) + "0" == Zeros(k + 1)
  {
    ZerosAreZeros(k);
    ZerosAreZeros(k + 1);
  }

  lemma QuotientOf(q: nat, d: nat, base: nat)
    requires d < base
    ensures (q * base + d) / base == q && (q * base + d) % base == d
  {
    Remainders(q, d, base, (q * base + d) / base, (q * base + d) % base);
  }

  /** Quotient and remainder are unique. */
  lemma Remainders(q: nat, d: nat, base: nat, r: int, e: int)
    requires d < base && 0 <= e < base && q * base + d == r * base + e
    ensures q == r && d == e
  {
    var diff := q - r;
    assert diff * base == e - d by { Distribute(q, r, base); }
    if diff > 0 { Above(diff, base); }
    if diff < 0 { Above(-diff, base); Negate(diff, base); }
  }

  lemma Distribute(q: int, r: int, base: int)
    ensures (q - r) * base == q * base - r * base
  {
  }

  lemma Negate(x: int, y: int)
    ensures (-x) * y == -(x * y)
  {
  }

  lemma Above(x: int, y: int)
    requires x >= 1 && y >= 0
    ensures x * y >= y
  {
  }

  lemma DigitsStep(v: nat, d: nat, base: nat)
    requires 2 <= base <= 16 && v > 0 && d < base
    ensures Digits(v * base + d, base, false) == Digits(v, base, false) + [Digit(d, false)]
  {
    QuotientOf(v, d, base);
    Above(v, base);
  }

  lemma PaddedStep(init: string, c: char, zeros: nat, v: nat, base: nat) returns (more: nat)
    requires 2 <= base <= 16 && DigitValue(c) < base && c == Digit(DigitValue(c), false)
    requires init == Zeros(zeros) + Digits(v, base, false)
    ensures init + [c] == Zeros(more) + Digits(v * base + DigitValue(c), base, false)
  {
    var d := DigitValue(c);
    if v > 0 {
      DigitsStep(v, d, base);
      more := zeros;
      assert init + [c] == Zeros(zeros) + (Digits(v, base, false) + [c]);
    } else {
      ZerosMore(zeros);
      more := zeros + 1;
      assert Digits(0, base, false) == "0" && Digits(d, base, false) == [c];
    }
  }

  lemma OneDigit(c: char, base: nat)
    requires 2 <= base <= 16 && DigitValue(c) < base && c == Digit(DigitValue(c), false)
    ensures [c] == Zeros(0) + Digits(Value([c], base), base, false)
  {
    ValueMore("", c, base);
    assert "" + [c] == [c];
    assert Value([c], base) == DigitValue(c);
  }

  lemma PaddedMore(init: string, c: char, before: nat, base: nat) returns (zeros: nat)
    requires 2 <= base <= 16 && DigitValue(c) < base && c == Digit(DigitValue(c), false)
    requires init == Zeros(before) + Digits(Value(init, base), base, false)
    ensures init + [c] == Zeros(zeros) + Digits(Value(init + [c], base), base, false)
  {
    ValueMore(init, c, base);
    zeros := PaddedStep(init, c, before, Value(init, base), base);
  }

  /** A numeral is the digits of its value behind some zeros. */
  lemma {:induction false} NumeralIsPadded(s: string, base: nat) returns (zeros: nat)
    requires 2 <= base <= 16 && s != "" && LowerDigits(s, base)
    ensures s == Zeros(zeros) + Digits(Value(s, base), base, false)
    decreases |s|
  {
    var init, c := s[..|s| - 1], s[|s| - 1];
    assert s == init + [c];
    if init == "" {
      assert s == [c];
      OneDigit(c, base);
      zeros := 0;
    } else {
      var before := NumeralIsPadded(init, base);
      zeros := PaddedMore(init, c, before, base);
    }
  }

  // ---------------------------------------------------------------------
  // Parts

  /** Decimal without leading zeros, octal behind `0`, hexadecimal behind `0x`,
      the last two with any further zeros; letters in lower case. */
  ghost predicate Spelled(part: string, n: nat)
  {
    || part == Digits(n, 10, false)
    || (exists zeros: nat :: part == "0" + (Zeros(zeros) + Digits(n, 8, false)))
    || (exists zeros: nat :: part == "0x" + (Zeros(zeros) + Digits(n, 16, false)))
  }

  lemma SpelledIsRead(part: string, n: nat)
    requires Spelled(part, n)
    ensures PartValue(part) == Some(n)
  {
    if part == Digits(n, 10, false) {
      DecimalRoundTrip(n);
    } else if zeros: nat :| part == "0" + (Zeros(zeros) + Digits(n, 8, false)) {
      OctalRoundTrip(n, zeros);
    } else {
      var zeros: nat :| part == "0x" + (Zeros(zeros) + Digits(n, 16, false));
      HexRoundTrip(n, zeros, false, false);
    }
  }

  lemma TailDigits(part: string, k: nat, base: nat)
    requires base <= 16 && k <= |part| && part == Lower(part) && IsNumeral(part[k..], base)
    ensures LowerDigits(part[k..], base)
  {
    forall i | 0 <= i < |part[k..]| ensures part[k..][i] == Digit(DigitValue(part[k..][i]), false) {
      assert part[k..][i] == part[k + i] == Lower(part)[k + i];
      DigitOfLower(part[k + i]);
    }
  }

  lemma HexIsSpelled(part: string)
    requires part == Lower(part) && |part| >= 3 && part[0] == '0' && part[1] in {'x', 'X'} && IsNumeral(part[2..], 16)
    ensures Spelled(part, Value(part[2..], 16))
  {
    TailDigits(part, 2, 16);
    var zeros := NumeralIsPadded(part[2..], 16);
    assert Lower(part)[1] == 'x';
    assert part == "0x" + part[2..];
  }

  lemma OctalIsSpelled(part: string)
    requires part == Lower(part) && |part| >= 2 && part[0] == '0' && IsNumeral(part[1..], 8)
    ensures Spelled(part, Value(part[1..], 8))
  {
    TailDigits(part, 1, 8);
    var zeros := NumeralIsPadded(part[1..], 8);
    assert part == "0" + part[1..];
  }

  lemma LeadingZero(part: string, zeros: nat, digits: string)
    requires part != "" && part == Zeros(zeros) + digits
    ensures zeros > 0 ==> part[0] == '0'
  {
    ZerosAreZeros(zeros);
  }

  lemma DecimalIsSpelled(part: string)
    requires part == Lower(part) && |part| >= 1 && '1' <= part[0] <= '9' && IsNumeral(part, 10)
    ensures Spelled(part, Value(part, 10))
  {
    assert part[0..] == part;
    TailDigits(part, 0, 10);
    var zeros := NumeralIsPadded(part, 10);
    LeadingZero(part, zeros, Digits(Value(part, 10), 10, false));
    assert zeros == 0 && Zeros(0) + Digits(Value(part, 10), 10, false) == Digits(Value(part, 10), 10, false);
  }

  lemma ReadIsSpelled(part: string)
    requires part == Lower(part) && PartValue(part).Some?
    ensures Spelled(part, PartValue(part).value)
  {
    if |part| >= 3 && part[0] == '0' && part[1] in {'x', 'X'} && IsNumeral(part[2..], 16) {
      HexIsSpelled(part);
    } else if |part| >= 2 && part[0] == '0' && IsNumeral(part[1..], 8) {
      OctalIsSpelled(part);
    } else if part == "0" {
      assert Digits(0, 10, false) == "0";
    } else {
      DecimalIsSpelled(part);
    }
  }

  lemma LowerTwice(s: string)
    ensures Lower(Lower(s)) == Lower(s)
  {
  }

  /** A part has a value exactly when, up to case, it spells it. */
  lemma PartIsSpelled(part: string, n: nat)
    ensures PartValue(part) == Some(n) <==> Spelled(Lower(part), n)
  {
    PartLower(part);
    if PartValue(part) == Some(n) {
      LowerTwice(part);
      ReadIsSpelled(Lower(part));
    }
    if Spelled(Lower(part), n) { SpelledIsRead(Lower(part), n); }
  }

  /** A text reads as an address exactly when it is one to four dotted parts that
      spell its fields, the last one filling the remaining bytes. */
  lemma AddressIsSpelled(host: string, addr: nat)
    ensures Parse(host) == Some(addr) <==>
              && addr < SPACE
              && exists parts: seq<string> ::
                   && 1 <= |parts| <= 4 && host == Join(parts, '.')
                   && forall i :: 0 <= i < |parts| ==> Spelled(Lower(parts[i]), Field(addr, |parts|, i))
  {
    ParsesExactlySpellings(host, addr);
    forall parts: seq<string> | 1 <= |parts| <= 4
      ensures Spells(parts, addr) <==>
                forall i :: 0 <= i < |parts| ==> Spelled(Lower(parts[i]), Field(addr, |parts|, i))
    {
      forall i | 0 <= i < |parts| ensures PartValue(parts[i]) == Some(Field(addr, |parts|, i)) <==>
                                            Spelled(Lower(parts[i]), Field(addr, |parts|, i))
      {
        PartIsSpelled(parts[i], Field(addr, |parts|, i));
      }
    }
  }
}
