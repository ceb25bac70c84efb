/** The six layouts in which RFC 6052 (section 2.2) embeds an IPv4 address, as
    src/safe-url.js reads them. */
module Nat64 {
  import opened Text
  import opened Ipv6Proofs

  predicate IsLength(len: nat) { len in {32, 40, 48, 56, 64, 96} }

  // ---------------------------------------------------------------------
  // The reader and the two tests

  /** The IPv4 address embedded at one prefix length. */
  function ReadAt(g: seq<nat>, len: nat): nat
    requires |g| == 8
  {
    if len == 32 then g[2] * 65536 + g[3]
    else if len == 40 then g[2] % 256 * 16777216 + g[3] * 256 + g[4] % 256
    else if len == 48 then g[3] * 65536 + g[4] % 256 * 256 + g[5] / 256
    else if len == 56 then g[3] % 256 * 16777216 + g[4] % 256 * 65536 + g[5]
    else if len == 64 then g[4] % 256 * 16777216 + g[5] * 256 + g[6] / 256
    else g[6] * 65536 + g[7]
  }

  /** `x >>> k`. */
  function Shift(x: nat, k: nat): nat { if k == 0 then x else Shift(x, k - 1) / 2 }

  /** Bit `b` of the 128, the most significant first. */
  predicate Bit(g: seq<nat>, b: nat)
    requires |g| == 8 && b < 128
  {
    Shift(g[b / 16], 15 - b % 16) % 2 == 1
  }

  /** The first bit after the embedded address. */
  function SuffixStart(len: nat): nat { if len == 96 then 128 else if len == 64 then 104 else len + 40 }

  predicate SuffixDirty(g: seq<nat>, len: nat)
    requires |g| == 8
  {
    exists b :: SuffixStart(len) <= b < 128 && Bit(g, b)
  }

  method CheckSuffix(g: seq<nat>, len: nat) returns (dirty: bool)
    requires |g| == 8
    ensures dirty <==> SuffixDirty(g, len)
  {
    var bit := SuffixStart(len);
    while bit < 128
      invariant forall b :: SuffixStart(len) <= b < bit && b < 128 ==> !Bit(g, b)
    {
      if Bit(g, bit) { return true; }
      bit := bit + 1;
    }
    return false;
  }

  /** The two addresses agree on the first `len` bits. */
  predicate InPrefix(g: seq<nat>, prefix: seq<nat>, len: nat)
    requires |g| == 8 && |prefix| == 8 && len <= 128
  {
    forall b :: 0 <= b < len ==> (Bit(g, b) <==> Bit(prefix, b))
  }

  /** `x` under a mask of its `rest` high bits out of sixteen. */
  function Masked(x: nat, rest: nat): nat
    requires rest <= 16
  {
    Shift(x, 16 - rest) * Power(2, 16 - rest)
  }

  method CheckPrefix(g: seq<nat>, prefix: seq<nat>, len: nat) returns (inside: bool)
    requires IsAddress(g) && IsAddress(prefix) && len <= 128
    ensures inside <==> InPrefix(g, prefix, len)
  {
    var whole := len / 16;
    for i := 0 to whole
      invariant InPrefix(g, prefix, 16 * i)
    {
      GroupBits(g, prefix, i, 16);
      if g[i] != prefix[i] { return false; }
    }
    var rest := len % 16;
    if rest != 0 {
      GroupBits(g, prefix, whole, rest);
      if Masked(g[whole], rest) != Masked(prefix[whole], rest) { return false; }
    }
    return true;
  }

  lemma {:induction false} ShiftOut(x: nat, k: nat)
    ensures x < Power(2, k) ==> Shift(x, k) == 0
    ensures Shift(x, k) <= x
    decreases k
  {
    if k > 0 {
      ShiftOut(x / 2, k - 1);
      ShiftMore(x, k - 1);
    }
  }

  lemma {:induction false} ShiftMore(x: nat, k: nat)
    ensures Shift(x / 2, k) == Shift(x, k + 1)
  {
    if k > 0 { ShiftMore(x, k - 1); }
  }

  /** The bits from `k` up decide what a shift by `k` leaves. */
  lemma {:induction false} HighBits(x: nat, y: nat, k: nat)
    requires x < 65536 && y < 65536 && k <= 16
    ensures Shift(x, k) == Shift(y, k) <==> forall i :: k <= i < 16 ==> Shift(x, i) % 2 == Shift(y, i) % 2
    decreases 16 - k
  {
    if k == 16 {
      assert Power(2, 4) == 16 && Power(2, 8) == 256 && Power(2, 12) == 4096 && Power(2, 16) == 65536;
      ShiftOut(x, 16);
      ShiftOut(y, 16);
    } else {
      HighBits(x, y, k + 1);
      assert Shift(x, k + 1) == Shift(x, k) / 2 && Shift(y, k + 1) == Shift(y, k) / 2;
    }
  }

  lemma {:induction false} PowerPositive(k: nat)
    ensures Power(2, k) > 0
  {
    if k > 0 { PowerPositive(k - 1); }
  }

  lemma SameProduct(x: nat, y: nat, m: nat)
    requires m > 0
    ensures x * m == y * m <==> x == y
  {
  }

  /** The high `rest` bits of group `i` agree exactly when the masked groups do. */
  lemma GroupBits(g: seq<nat>, prefix: seq<nat>, i: nat, rest: nat)
    requires IsAddress(g) && IsAddress(prefix) && i < 8 && 0 < rest <= 16
    ensures Masked(g[i], rest) == Masked(prefix[i], rest) <==>
              forall b :: 16 * i <= b < 16 * i + rest ==> (Bit(g, b) <==> Bit(prefix, b))
    ensures rest == 16 ==> (Masked(g[i], rest) == Masked(prefix[i], rest) <==> g[i] == prefix[i])
  {
    var x, y := g[i], prefix[i];
    PowerPositive(16 - rest);
    SameProduct(Shift(x, 16 - rest), Shift(y, 16 - rest), Power(2, 16 - rest));
    HighBits(x, y, 16 - rest);
    if Shift(x, 16 - rest) == Shift(y, 16 - rest) {
      forall b | 16 * i <= b < 16 * i + rest ensures Bit(g, b) <==> Bit(prefix, b) {
        assert b / 16 == i && 16 - rest <= 15 - b % 16;
        assert Shift(x, 15 - b % 16) % 2 == Shift(y, 15 - b % 16) % 2;
      }
    } else {
      var k :| 16 - rest <= k < 16 && Shift(x, k) % 2 != Shift(y, k) % 2;
      var b := 16 * i + 15 - k;
      assert b / 16 == i && b % 16 == 15 - k;
      assert Bit(g, b) != Bit(prefix, b);
    }
  }
}
