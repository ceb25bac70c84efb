/** Splitting, joining and numerals, as JavaScript's `split`, `join` and
    `parseInt` treat them. */
module Text {
  /** `s.split(c)`: never empty. */
  function Split(s: string, c: char): (parts: seq<string>)
    ensures |parts| > 0
  {
    if s == "" then [""]
    else
      var rest := Split(s[1..], c);
      if s[0] == c then [""] + rest else [[s[0]] + rest[0]] + rest[1..]
  }

  function Join(parts: seq<string>, c: char): string
    requires |parts| > 0
  {
    if |parts| == 1 then parts[0] else parts[0] + [c] + Join(parts[1..], c)
  }

  ghost predicate Free(parts: seq<string>, c: char)
  {
    forall i :: 0 <= i < |parts| ==> c !in parts[i]
  }

  lemma {:induction false} JoinOfSplit(s: string, c: char)
    ensures Join(Split(s, c), c) == s && Free(Split(s, c), c)
  {
    if s != "" {
      JoinOfSplit(s[1..], c);
      var rest := Split(s[1..], c);
      if s[0] == c {
        assert ([""] + rest)[1..] == rest;
      } else {
        assert ([[s[0]] + rest[0]] + rest[1..])[1..] == rest[1..];
      }
    }
  }

  lemma {:induction false} SplitOfOne(s: string, c: char)
    requires c !in s
    ensures Split(s, c) == [s]
  {
    if s != "" {
      SplitOfOne(s[1..], c);
      assert s == [s[0]] + s[1..];
    }
  }

  lemma {:induction false} SplitAtFirst(head: string, tail: string, c: char)
    requires c !in head
    ensures Split(head + [c] + tail, c) == [head] + Split(tail, c)
  {
    var s := head + [c] + tail;
    if head == "" {
      assert s[1..] == tail;
    } else {
      SplitAtFirst(head[1..], tail, c);
      assert s[1..] == head[1..] + [c] + tail;
      assert head == [head[0]] + head[1..];
    }
  }

  lemma {:induction false} SplitOfJoin(parts: seq<string>, c: char)
    requires |parts| > 0 && Free(parts, c)
    ensures Split(Join(parts, c), c) == parts
    decreases |parts|
  {
    if |parts| == 1 {
      SplitOfOne(parts[0], c);
    } else {
      SplitOfJoin(parts[1..], c);
      SplitAtFirst(parts[0], Join(parts[1..], c), c);
      assert parts == [parts[0]] + parts[1..];
    }
  }

  // ---------------------------------------------------------------------
  // Numerals

  /** 16 for a character that is no digit in any base up to 16. */
  function DigitValue(c: char): (d: nat)
    ensures d <= 16
  {
    if '0' <= c <= '9' then c as int - '0' as int
    else if 'a' <= c <= 'f' then c as int - 'a' as int + 10
    else if 'A' <= c <= 'F' then c as int - 'A' as int + 10
    else 16
  }

  /** One or more digits of the base. */
  predicate IsNumeral(s: string, base: nat)
  {
    |s| > 0 && forall i :: 0 <= i < |s| ==> DigitValue(s[i]) < base
  }

  /** `parseInt` of a string of digits. */
  function Value(s: string, base: nat): nat
  {
    if s == "" then 0 else Value(s[..|s| - 1], base) * base + DigitValue(s[|s| - 1])
  }

  function Digit(d: nat, upper: bool): char
    requires d < 16
  {
    if d < 10 then ('0' as int + d) as char
    else if upper then ('A' as int + d - 10) as char
    else ('a' as int + d - 10) as char
  }

  /** The digits of `n` without leading zeros. */
  function Digits(n: nat, base: nat, upper: bool): (s: string)
    requires 2 <= base <= 16
    ensures |s| > 0
    decreases n
  {
    if n < base then [Digit(n, upper)] else Digits(n / base, base, upper) + [Digit(n % base, upper)]
  }

  function Zeros(k: nat): string { if k == 0 then "" else "0" + Zeros(k - 1) }

  lemma Quotient(n: nat, base: nat)
    requires base > 0
    ensures n == n / base * base + n % base
    ensures n >= base ==> n / base > 0
  {
  }

  lemma DigitRoundTrip(d: nat, upper: bool)
    requires d < 16
    ensures DigitValue(Digit(d, upper)) == d
  {
  }

  lemma ValueMore(init: string, c: char, base: nat)
    ensures Value(init + [c], base) == Value(init, base) * base + DigitValue(c)
  {
    assert (init + [c])[..|init|] == init;
  }

  lemma NumeralStep(init: string, n: nat, base: nat, upper: bool)
    requires IsNumeral(init, base) && 2 <= base <= 16
    ensures var s := init + [Digit(n % base, upper)]; IsNumeral(s, base) && s[0] == init[0]
  {
    DigitRoundTrip(n % base, upper);
  }

  lemma {:induction false} DigitsAreNumeral(n: nat, base: nat, upper: bool)
    requires 2 <= base <= 16
    ensures IsNumeral(Digits(n, base, upper), base)
    ensures n > 0 ==> DigitValue(Digits(n, base, upper)[0]) > 0
    decreases n
  {
    if n < base {
      DigitRoundTrip(n, upper);
    } else {
      Quotient(n, base);
      DigitsAreNumeral(n / base, base, upper);
      NumeralStep(Digits(n / base, base, upper), n, base, upper);
    }
  }

  lemma ValueStep(init: string, n: nat, base: nat, upper: bool)
    requires 2 <= base <= 16 && Value(init, base) == n / base
    ensures Value(init + [Digit(n % base, upper)], base) == n
  {
    Quotient(n, base);
    DigitRoundTrip(n % base, upper);
    ValueMore(init, Digit(n % base, upper), base);
  }

  lemma ValueOfDigit(n: nat, base: nat, upper: bool)
    requires n < base <= 16
    ensures Value([Digit(n, upper)], base) == n
  {
    DigitRoundTrip(n, upper);
    ValueMore("", Digit(n, upper), base);
    assert "" + [Digit(n, upper)] == [Digit(n, upper)];
  }

  lemma {:induction false} ValueOfDigits(n: nat, base: nat, upper: bool)
    requires 2 <= base <= 16
    ensures Value(Digits(n, base, upper), base) == n
    decreases n
  {
    if n < base {
      ValueOfDigit(n, base, upper);
    } else {
      Quotient(n, base);
      ValueOfDigits(n / base, base, upper);
      ValueStep(Digits(n / base, base, upper), n, base, upper);
    }
  }

  /** Leading zeros change nothing. */
  lemma {:induction false} ValuePadded(zeros: nat, s: string, base: nat)
    requires base > 0
    ensures Value(Zeros(zeros) + s, base) == Value(s, base)
    ensures IsNumeral(s, base) ==> IsNumeral(Zeros(zeros) + s, base)
    decreases |s|
  {
    ZerosAreZeros(zeros);
    if s == "" {
      ValueOfZeros(zeros, base);
      assert Zeros(zeros) + s == Zeros(zeros);
    } else {
      var init := s[..|s| - 1];
      ValuePadded(zeros, init, base);
      var all := Zeros(zeros) + s;
      assert all[..|all| - 1] == Zeros(zeros) + init;
    }
  }

  lemma {:induction false} ZerosAreZeros(k: nat)
    ensures |Zeros(k)| == k && forall i :: 0 <= i < k ==> Zeros(k)[i] == '0'
  {
    if k > 0 { ZerosAreZeros(k - 1); }
  }

  lemma {:induction false} ValueOfZeros(k: nat, base: nat)
    ensures Value(Zeros(k), base) == 0
  {
    ZerosAreZeros(k);
    if k > 0 {
      ZerosAreZeros(k - 1);
      assert Zeros(k)[..k - 1] == Zeros(k - 1);
      ValueOfZeros(k - 1, base);
    }
  }

  lemma OneMoreDigit(v: nat, d: nat, bound: nat, base: nat)
    requires v < bound && d < base
    ensures v * base + d < bound * base
  {
    assert (v + 1) * base <= bound * base;
  }

  lemma {:induction false} ValueBound(s: string, base: nat, bound: nat)
    requires IsNumeral(s, base) && bound == Power(base, |s|)
    ensures Value(s, base) < bound
    decreases |s|
  {
    if |s| > 1 {
      ValueBound(s[..|s| - 1], base, Power(base, |s| - 1));
      OneMoreDigit(Value(s[..|s| - 1], base), DigitValue(s[|s| - 1]), Power(base, |s| - 1), base);
    } else {
      assert s[..0] == "" && Power(base, 1) == base;
    }
  }

  function Power(base: nat, k: nat): nat { if k == 0 then 1 else Power(base, k - 1) * base }
}
