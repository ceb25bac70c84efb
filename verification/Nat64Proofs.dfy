/** Reading and embedding are inverse at each of the six prefix lengths. */
module Nat64Proofs {
  import opened Text
  import opened Ipv4
  import opened Ipv6Proofs
  import opened Nat64

  // ---------------------------------------------------------------------
  // The layout table of RFC 6052, in octets

  function Byte(g: seq<nat>, k: nat): nat
    requires |g| == 8 && k < 16
  {
    if k % 2 == 0 then g[k / 2] / 256 else g[k / 2] % 256
  }

  /** Where octet `k` of the IPv4 address goes: straight after the prefix,
      stepping over octet 8 (bits 64 to 71) unless the prefix covers it. */
  function Position(len: nat, k: nat): nat
  {
    var p := len / 8 + k;
    if len < 96 && p >= 8 then p + 1 else p
  }

  function OctetOf(addr: nat, k: nat): nat
    requires k < 4
  {
    addr / Pow256(3 - k) % 256
  }

  /** `g` is `prefix`, the four octets of `addr`, and zeros everywhere else. */
  ghost predicate IsEmbedding(g: seq<nat>, prefix: seq<nat>, len: nat, addr: nat)
    requires |g| == 8 && |prefix| == 8 && IsLength(len)
  {
    && (forall b :: 0 <= b < len / 8 ==> Byte(g, b) == Byte(prefix, b))
    && (forall k :: 0 <= k < 4 ==> Byte(g, Position(len, k)) == OctetOf(addr, k))
    && (forall b :: len / 8 <= b < 16 && b > Position(len, 3) ==> Byte(g, b) == 0)
    && (len < 96 ==> Byte(g, 8) == 0)
  }

  /** The octets after the prefix, in order. */
  function Tail(len: nat, addr: nat, b: nat): nat
  {
    var k := b as int - len / 8 - (if len < 96 && b > 8 then 1 else 0);
    if (len < 96 && b == 8) || k < 0 || k > 3 then 0 else OctetOf(addr, k)
  }

  function Embed(prefix: seq<nat>, len: nat, addr: nat): (g: seq<nat>)
    requires |prefix| == 8
    ensures |g| == 8
  {
    seq(8, i requires 0 <= i < 8 =>
      (if 2 * i < len / 8 then Byte(prefix, 2 * i) else Tail(len, addr, 2 * i)) * 256
      + (if 2 * i + 1 < len / 8 then Byte(prefix, 2 * i + 1) else Tail(len, addr, 2 * i + 1)))
  }

  lemma EmbedBytes(prefix: seq<nat>, len: nat, addr: nat, b: nat)
    requires IsAddress(prefix) && addr < SPACE && b < 16
    ensures Byte(Embed(prefix, len, addr), b) == if b < len / 8 then Byte(prefix, b) else Tail(len, addr, b)
  {
    var i := b / 2;
    var hi := if 2 * i < len / 8 then Byte(prefix, 2 * i) else Tail(len, addr, 2 * i);
    var lo := if 2 * i + 1 < len / 8 then Byte(prefix, 2 * i + 1) else Tail(len, addr, 2 * i + 1);
    assert prefix[i] < 65536;
    assert hi < 256 && lo < 256;
    assert Embed(prefix, len, addr)[i] == hi * 256 + lo;
    assert (hi * 256 + lo) / 256 == hi && (hi * 256 + lo) % 256 == lo;
  }

  lemma TailAtPosition(len: nat, addr: nat, k: nat)
    requires IsLength(len) && k < 4
    ensures len / 8 <= Position(len, k) < 16 && Tail(len, addr, Position(len, k)) == OctetOf(addr, k)
  {
  }

  lemma TailAfter(len: nat, addr: nat, b: nat)
    requires IsLength(len) && b < 16
    ensures b > Position(len, 3) ==> Tail(len, addr, b) == 0
    ensures len < 96 && b == 8 ==> Tail(len, addr, b) == 0
  {
  }

  lemma EmbedIsAddress(prefix: seq<nat>, len: nat, addr: nat)
    requires IsAddress(prefix) && addr < SPACE
    ensures IsAddress(Embed(prefix, len, addr))
  {
    var g := Embed(prefix, len, addr);
    forall i | 0 <= i < 8 ensures g[i] < 65536 {
      EmbedBytes(prefix, len, addr, 2 * i);
      assert prefix[i] < 65536;
      assert g[i] / 256 == Byte(g, 2 * i);
    }
  }

  lemma EmbedIsEmbedding(prefix: seq<nat>, len: nat, addr: nat)
    requires IsAddress(prefix) && addr < SPACE && IsLength(len)
    ensures IsEmbedding(Embed(prefix, len, addr), prefix, len, addr)
  {
    var g := Embed(prefix, len, addr);
    forall b | 0 <= b < len / 8 ensures Byte(g, b) == Byte(prefix, b) { EmbedBytes(prefix, len, addr, b); }
    forall k | 0 <= k < 4 ensures Byte(g, Position(len, k)) == OctetOf(addr, k) {
      TailAtPosition(len, addr, k);
      EmbedBytes(prefix, len, addr, Position(len, k));
    }
    forall b | len / 8 <= b < 16 && b > Position(len, 3) ensures Byte(g, b) == 0 {
      TailAfter(len, addr, b);
      EmbedBytes(prefix, len, addr, b);
    }
    if len < 96 {
      TailAfter(len, addr, 8);
      EmbedBytes(prefix, len, addr, 8);
    }
  }

  // ---------------------------------------------------------------------
  // The tests by octets

  lemma Shifts(x: nat)
    ensures Shift(x, 0) == x && Shift(x, 1) == x / 2
    ensures Shift(x, 2) == Shift(x, 1) / 2 && Shift(x, 3) == Shift(x, 2) / 2 && Shift(x, 4) == Shift(x, 3) / 2
    ensures Shift(x, 5) == Shift(x, 4) / 2 && Shift(x, 6) == Shift(x, 5) / 2 && Shift(x, 7) == Shift(x, 6) / 2
    ensures Shift(x, 8) == Shift(x, 7) / 2
  {
    assert Shift(x, 1) == Shift(x, 0) / 2;
  }

  lemma ShiftEight(x: nat)
    ensures Shift(x, 8) == x / 256
  {
    Shifts(x);
  }

  lemma {:induction false} ShiftZero(k: nat)
    ensures Shift(0, k) == 0
  {
    if k > 0 { ShiftZero(k - 1); }
  }

  lemma PrefixByGroups(g: seq<nat>, prefix: seq<nat>, len: nat)
    requires IsAddress(g) && IsAddress(prefix) && len <= 128 && len % 8 == 0
    ensures InPrefix(g, prefix, len) <==>
              && (forall i :: 0 <= i < len / 16 ==> g[i] == prefix[i])
              && (len % 16 == 8 ==> g[len / 16] / 256 == prefix[len / 16] / 256)
  {
    forall i | 0 <= i < len / 16
      ensures g[i] == prefix[i] <==> forall b :: 16 * i <= b < 16 * i + 16 ==> (Bit(g, b) <==> Bit(prefix, b))
    {
      GroupBits(g, prefix, i, 16);
    }
    var w := len / 16;
    if len % 16 == 8 {
      GroupBits(g, prefix, w, 8);
      PowerPositive(8);
      SameProduct(Shift(g[w], 8), Shift(prefix[w], 8), Power(2, 8));
      ShiftEight(g[w]);
      ShiftEight(prefix[w]);
    }
    if (forall i :: 0 <= i < w ==> g[i] == prefix[i]) && (len % 16 == 8 ==> g[w] / 256 == prefix[w] / 256) {
      forall b | 0 <= b < len ensures Bit(g, b) <==> Bit(prefix, b) {
        var i := b / 16;
        assert i < w ==> g[i] == prefix[i];
      }
    }
  }

  lemma LowByteBits(x: nat)
    ensures x % 256 == 0 <==> forall k :: 0 <= k < 8 ==> Shift(x, k) % 2 == 0
  {
    Shifts(x);
    if forall k :: 0 <= k < 8 ==> Shift(x, k) % 2 == 0 {
      assert Shift(x, 4) == 16 * Shift(x, 8);
      assert x == 16 * Shift(x, 4);
    }
    if x % 256 == 0 { LowByteZero(x, x / 256); }
  }

  lemma LowByteZero(x: nat, q: nat)
    requires x == 256 * q
    ensures forall k :: 0 <= k < 8 ==> Shift(x, k) % 2 == 0
  {
    Shifts(x);
    assert Shift(x, 1) == 128 * q && Shift(x, 2) == 64 * q && Shift(x, 3) == 32 * q && Shift(x, 4) == 16 * q;
    assert Shift(x, 5) == 8 * q && Shift(x, 6) == 4 * q && Shift(x, 7) == 2 * q;
  }

  /** The low `low` bits of group `i` are all zero. */
  lemma ZeroGroupBits(g: seq<nat>, i: nat, low: nat)
    requires IsAddress(g) && i < 8 && low in {8, 16}
    ensures (if low == 8 then g[i] % 256 == 0 else g[i] == 0) <==>
              forall b :: 16 * i + 16 - low <= b < 16 * i + 16 ==> !Bit(g, b)
  {
    var x := g[i];
    if low == 8 {
      LowByteBits(x);
    } else {
      HighBits(x, 0, 0);
      forall k | 0 <= k < 16 ensures Shift(0, k) == 0 { ShiftZero(k); }
    }
    if forall k :: 0 <= k < low ==> Shift(x, k) % 2 == 0 {
      forall b | 16 * i + 16 - low <= b < 16 * i + 16 ensures !Bit(g, b) {
        assert Shift(x, 15 - b % 16) % 2 == 0;
      }
    } else {
      var k :| 0 <= k < low && Shift(x, k) % 2 != 0;
      var b := 16 * i + 15 - k;
      assert b / 16 == i && b % 16 == 15 - k;
      assert Bit(g, b);
    }
  }

  lemma SuffixByGroups(g: seq<nat>, len: nat)
    requires IsAddress(g) && IsLength(len)
    ensures var start := SuffixStart(len);
            !SuffixDirty(g, len) <==>
              && (start % 16 == 8 ==> g[start / 16] % 256 == 0)
              && (forall i :: (start + 15) / 16 <= i < 8 ==> g[i] == 0)
  {
    var start := SuffixStart(len);
    var w := (start + 15) / 16;
    forall i | w <= i < 8 ensures g[i] == 0 <==> forall b :: 16 * i <= b < 16 * i + 16 ==> !Bit(g, b) {
      ZeroGroupBits(g, i, 16);
    }
    if start % 16 == 8 { ZeroGroupBits(g, start / 16, 8); }
    if (start % 16 == 8 ==> g[start / 16] % 256 == 0) && (forall i :: w <= i < 8 ==> g[i] == 0) {
      forall b | start <= b < 128 ensures !Bit(g, b) {
        var i := b / 16;
        assert i >= w ==> g[i] == 0;
      }
    }
  }

  lemma HalvesOfGroup(x: nat, y: nat)
    ensures x == y <==> x / 256 == y / 256 && x % 256 == y % 256
  {
  }

  /** The masked comparison is octet equality over the prefix. */
  lemma PrefixByOctets(g: seq<nat>, prefix: seq<nat>, len: nat)
    requires IsAddress(g) && IsAddress(prefix) && IsLength(len)
    ensures InPrefix(g, prefix, len) <==> forall b :: 0 <= b < len / 8 ==> Byte(g, b) == Byte(prefix, b)
  {
    PrefixByGroups(g, prefix, len);
    if forall b :: 0 <= b < len / 8 ==> Byte(g, b) == Byte(prefix, b) {
      forall i | 0 <= i < len / 16 ensures g[i] == prefix[i] {
        assert Byte(g, 2 * i) == Byte(prefix, 2 * i) && Byte(g, 2 * i + 1) == Byte(prefix, 2 * i + 1);
        HalvesOfGroup(g[i], prefix[i]);
      }
      if len % 16 == 8 {
        assert Byte(g, len / 8 - 1) == Byte(prefix, len / 8 - 1);
      }
    }
    if InPrefix(g, prefix, len) {
      forall b | 0 <= b < len / 8 ensures Byte(g, b) == Byte(prefix, b) {
        assert b / 2 < len / 16 ==> g[b / 2] == prefix[b / 2];
      }
    }
  }

  /** The suffix scan is octet-wise. */
  lemma SuffixByOctets(g: seq<nat>, len: nat)
    requires IsAddress(g) && IsLength(len)
    ensures !SuffixDirty(g, len) <==> forall b :: SuffixStart(len) / 8 <= b < 16 ==> Byte(g, b) == 0
  {
    SuffixByGroups(g, len);
    var start := SuffixStart(len);
    var w := (start + 15) / 16;
    if forall b :: start / 8 <= b < 16 ==> Byte(g, b) == 0 {
      forall i | w <= i < 8 ensures g[i] == 0 {
        assert Byte(g, 2 * i) == 0 && Byte(g, 2 * i + 1) == 0;
        HalvesOfGroup(g[i], 0);
      }
      if start % 16 == 8 {
        assert Byte(g, start / 8) == 0;
      }
    }
    if !SuffixDirty(g, len) {
      forall b | start / 8 <= b < 16 ensures Byte(g, b) == 0 {
        assert b / 2 >= w ==> g[b / 2] == 0;
      }
    }
  }

  lemma SuffixOctet(len: nat, b: nat)
    requires IsLength(len) && b < 16
    ensures SuffixStart(len) / 8 <= b <==> len / 8 <= b && b > Position(len, 3) && !(len < 96 && b == 8)
  {
  }

  /** The suffix starts straight after the last embedded octet, or after the
      reserved octet when that comes next. */
  lemma SuffixFollows(g: seq<nat>, len: nat)
    requires IsAddress(g) && IsLength(len)
    ensures !SuffixDirty(g, len) <==>
              forall b :: len / 8 <= b < 16 && b > Position(len, 3) && !(len < 96 && b == 8) ==> Byte(g, b) == 0
  {
    SuffixByOctets(g, len);
    if !SuffixDirty(g, len) {
      forall b | len / 8 <= b < 16 && b > Position(len, 3) && !(len < 96 && b == 8) ensures Byte(g, b) == 0 {
        SuffixOctet(len, b);
      }
    } else {
      var b :| SuffixStart(len) / 8 <= b < 16 && Byte(g, b) != 0;
      SuffixOctet(len, b);
    }
  }

  // ---------------------------------------------------------------------
  // Reading and embedding

  function OctetSum(g: seq<nat>, p: nat, q: nat, r: nat, t: nat): nat
    requires |g| == 8 && p < 16 && q < 16 && r < 16 && t < 16
  {
    Byte(g, p) * 16777216 + Byte(g, q) * 65536 + Byte(g, r) * 256 + Byte(g, t)
  }

  lemma GroupByOctets(g: seq<nat>, i: nat)
    requires |g| == 8 && i < 8
    ensures g[i] == Byte(g, 2 * i) * 256 + Byte(g, 2 * i + 1)
  {
  }

  lemma ReadByOctets(g: seq<nat>, len: nat)
    requires IsAddress(g) && IsLength(len)
    ensures ReadAt(g, len) == OctetSum(g, Position(len, 0), Position(len, 1), Position(len, 2), Position(len, 3))
  {
    if len == 32 {
      GroupByOctets(g, 2);
      GroupByOctets(g, 3);
      assert ReadAt(g, len) == OctetSum(g, 4, 5, 6, 7);
    } else if len == 40 {
      GroupByOctets(g, 3);
      assert ReadAt(g, len) == OctetSum(g, 5, 6, 7, 9);
    } else if len == 48 {
      GroupByOctets(g, 3);
      assert ReadAt(g, len) == OctetSum(g, 6, 7, 9, 10);
    } else if len == 56 {
      GroupByOctets(g, 5);
      assert ReadAt(g, len) == OctetSum(g, 7, 9, 10, 11);
    } else if len == 64 {
      GroupByOctets(g, 5);
      assert ReadAt(g, len) == OctetSum(g, 9, 10, 11, 12);
    } else {
      GroupByOctets(g, 6);
      GroupByOctets(g, 7);
      assert ReadAt(g, len) == OctetSum(g, 12, 13, 14, 15);
    }
  }

  lemma BytesAreSmall(g: seq<nat>, k: nat)
    requires IsAddress(g) && k < 16
    ensures Byte(g, k) < 256
  {
    assert g[k / 2] < 65536;
  }

  /** At every length the reading is the four octets of the layout table. */
  lemma ReadIsLayout(g: seq<nat>, len: nat)
    requires IsAddress(g) && IsLength(len)
    ensures ReadAt(g, len) < SPACE
    ensures forall k :: 0 <= k < 4 ==> OctetOf(ReadAt(g, len), k) == Byte(g, Position(len, k))
  {
    ReadByOctets(g, len);
    var b0, b1 := Byte(g, Position(len, 0)), Byte(g, Position(len, 1));
    var b2, b3 := Byte(g, Position(len, 2)), Byte(g, Position(len, 3));
    forall k | 0 <= k < 4 ensures Byte(g, Position(len, k)) < 256 { BytesAreSmall(g, Position(len, k)); }
    FourBytes(b0, b1, b2, b3, ReadAt(g, len));
    forall k | 0 <= k < 4 ensures OctetOf(ReadAt(g, len), k) == Byte(g, Position(len, k)) {}
  }

  lemma SameOctets(x: nat, y: nat)
    requires x < SPACE && y < SPACE && forall k :: 0 <= k < 4 ==> OctetOf(x, k) == OctetOf(y, k)
    ensures x == y
  {
    OctetsAdd(x);
    OctetsAdd(y);
    assert OctetOf(x, 0) == OctetOf(y, 0) && OctetOf(x, 1) == OctetOf(y, 1);
    assert OctetOf(x, 2) == OctetOf(y, 2) && OctetOf(x, 3) == OctetOf(y, 3);
  }

  lemma OctetsAdd(x: nat)
    requires x < SPACE
    ensures x == OctetOf(x, 0) * 16777216 + OctetOf(x, 1) * 65536 + OctetOf(x, 2) * 256 + OctetOf(x, 3)
  {
    BytesAdd(x);
  }

  /** An address is the embedding of `addr` exactly when it is inside the prefix,
      its reserved octet is zero (below /96), its suffix is clean, and the
      reading is `addr`. */
  lemma EmbeddingIsExact(g: seq<nat>, prefix: seq<nat>, len: nat, addr: nat)
    requires IsAddress(g) && IsAddress(prefix) && IsLength(len) && addr < SPACE
    ensures IsEmbedding(g, prefix, len, addr) <==>
              && InPrefix(g, prefix, len) && !SuffixDirty(g, len) && (len < 96 ==> g[4] / 256 == 0)
              && ReadAt(g, len) == addr
  {
    PrefixByOctets(g, prefix, len);
    SuffixFollows(g, len);
    ReadIsLayout(g, len);
    if IsEmbedding(g, prefix, len, addr) { SameOctets(ReadAt(g, len), addr); }
  }

  lemma EmbeddingIsUnique(g: seq<nat>, h: seq<nat>, prefix: seq<nat>, len: nat, addr: nat)
    requires IsAddress(g) && IsAddress(h) && |prefix| == 8 && IsLength(len)
    requires IsEmbedding(g, prefix, len, addr) && IsEmbedding(h, prefix, len, addr)
    ensures g == h
  {
    forall b | 0 <= b < 16 ensures Byte(g, b) == Byte(h, b) {
      if len / 8 <= b <= Position(len, 3) && !(len < 96 && b == 8) {
        var k := b - len / 8 - (if len < 96 && b > 8 then 1 else 0);
        assert b == Position(len, k);
        assert Byte(g, Position(len, k)) == OctetOf(addr, k);
      }
    }
    forall i | 0 <= i < 8 ensures g[i] == h[i] {
      assert Byte(g, 2 * i) == Byte(h, 2 * i) && Byte(g, 2 * i + 1) == Byte(h, 2 * i + 1);
      HalvesOfGroup(g[i], h[i]);
    }
  }

  /** Embedding and reading are inverse: what is embedded is read back, and a
      conformant address is the embedding of what is read from it. */
  lemma EmbeddingIsBijective(prefix: seq<nat>, len: nat)
    requires IsAddress(prefix) && IsLength(len)
    ensures forall addr: nat :: addr < SPACE ==> ReadAt(Embed(prefix, len, addr), len) == addr
    ensures forall g :: IsAddress(g) && InPrefix(g, prefix, len) && !SuffixDirty(g, len) && (len < 96 ==> g[4] / 256 == 0)
                        ==> g == Embed(prefix, len, ReadAt(g, len))
  {
    forall addr: nat | addr < SPACE ensures ReadAt(Embed(prefix, len, addr), len) == addr {
      EmbedIsAddress(prefix, len, addr);
      EmbedIsEmbedding(prefix, len, addr);
      EmbeddingIsExact(Embed(prefix, len, addr), prefix, len, addr);
    }
    forall g | IsAddress(g) && InPrefix(g, prefix, len) && !SuffixDirty(g, len) && (len < 96 ==> g[4] / 256 == 0)
      ensures g == Embed(prefix, len, ReadAt(g, len))
    {
      var addr := ReadAt(g, len);
      ReadIsLayout(g, len);
      EmbedIsAddress(prefix, len, addr);
      EmbedIsEmbedding(prefix, len, addr);
      EmbeddingIsExact(g, prefix, len, addr);
      EmbeddingIsUnique(g, Embed(prefix, len, addr), prefix, len, addr);
    }
  }
}
