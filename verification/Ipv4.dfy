/** Permissive IPv4 text and the IPv4 ranges of src/safe-url.js. Numerals are
    naturals: a double that has lost precision is beyond every range test. */
module Ipv4 {
  import opened Options
  import opened Text

  const SPACE := 0x1_0000_0000

  /** 256 to the power `k`. */
  function Pow256(k: nat): nat
    requires k <= 4
  {
    if k == 0 then 1 else if k == 1 then 256 else if k == 2 then 65536 else if k == 3 then 16777216 else SPACE
  }

  /** One dotted part: hexadecimal, octal, `0` or decimal. */
  function PartValue(part: string): Option<nat>
  {
    if |part| >= 3 && part[0] == '0' && part[1] in {'x', 'X'} && IsNumeral(part[2..], 16) then Some(Value(part[2..], 16))
    else if |part| >= 2 && part[0] == '0' && IsNumeral(part[1..], 8) then Some(Value(part[1..], 8))
    else if part == "0" then Some(0)
    else if |part| >= 1 && '1' <= part[0] <= '9' && IsNumeral(part, 10) then Some(Value(part, 10))
    else None
  }

  function Numbers(parts: seq<string>): Option<seq<nat>>
  {
    if parts == [] then Some([])
    else
      var before, last := Numbers(parts[..|parts| - 1]), PartValue(parts[|parts| - 1]);
      if before.Some? && last.Some? then Some(before.value + [last.value]) else None
  }

  function LeadSum(nums: seq<nat>): nat
    requires |nums| <= 3
  {
    if nums == [] then 0 else LeadSum(nums[..|nums| - 1]) + nums[|nums| - 1] * Pow256(4 - |nums|)
  }

  /** The unsigned 32-bit result; the remainder is taken only past the range. */
  function Wrap(addr: nat): nat { if addr < SPACE then addr else addr % SPACE }

  function Assemble(nums: seq<nat>): Option<nat>
    requires 1 <= |nums| <= 4
  {
    var lead, last := nums[..|nums| - 1], nums[|nums| - 1];
    if last >= Pow256(4 - |lead|) || exists i :: 0 <= i < |lead| && lead[i] > 255 then None
    else Some(Wrap(last + LeadSum(lead)))
  }

  function Parse(host: string): Option<nat>
  {
    var parts := Split(host, '.');
    if host == "" || |parts| > 4 then None
    else
      var nums := Numbers(parts);
      if nums.None? then None else NumbersLength(parts); Assemble(nums.value)
  }

  lemma {:induction false} NumbersLength(parts: seq<string>)
    ensures Numbers(parts).Some? <==> forall i :: 0 <= i < |parts| ==> PartValue(parts[i]).Some?
    ensures Numbers(parts).Some? ==>
              |Numbers(parts).value| == |parts|
              && forall i :: 0 <= i < |parts| ==> PartValue(parts[i]) == Some(Numbers(parts).value[i])
    decreases |parts|
  {
    if parts != [] { NumbersLength(parts[..|parts| - 1]); }
  }

  method ParseIpv4(host: string) returns (r: Option<nat>)
    ensures r == Parse(host)
  {
    if |host| == 0 { return None; }
    var parts := Split(host, '.');
    if |parts| > 4 { return None; }
    NumbersLength(parts);
    var nums: seq<nat> := [];
    for i := 0 to |parts|
      invariant |nums| == i && Numbers(parts[..i]) == Some(nums)
    {
      assert parts[..i + 1][..i] == parts[..i];
      var value := PartValue(parts[i]);
      if value.None? { return None; }
      nums := nums + [value.value];
    }
    assert parts[..|parts|] == parts;
    r := Combine(nums);
  }

  /** The last part fills every remaining byte, each leading part one. */
  method Combine(nums: seq<nat>) returns (r: Option<nat>)
    requires 1 <= |nums| <= 4
    ensures r == Assemble(nums)
  {
    var last := nums[|nums| - 1];
    if last >= Pow256(4 - (|nums| - 1)) { return None; }
    var lead := nums[..|nums| - 1];
    var addr := last;
    for i := 0 to |lead|
      invariant forall j :: 0 <= j < i ==> lead[j] <= 255
      invariant addr == last + LeadSum(lead[..i])
    {
      if lead[i] > 255 { return None; }
      assert lead[..i + 1][..i] == lead[..i];
      addr := addr + lead[i] * Pow256(3 - i);
    }
    assert lead[..|lead|] == lead;
    return Some(if addr < SPACE then addr else addr % SPACE);
  }

  // ---------------------------------------------------------------------
  // Every spelling means the same address

  /** The value of part `i` of `k` in any spelling of `addr`. */
  function Field(addr: nat, k: nat, i: nat): nat
    requires i < k <= 4
  {
    if i == k - 1 then addr % Pow256(5 - k) else addr / Pow256(3 - i) % 256
  }

  ghost predicate Spells(parts: seq<string>, addr: nat)
  {
    && 1 <= |parts| <= 4
    && forall i :: 0 <= i < |parts| ==> PartValue(parts[i]) == Some(Field(addr, |parts|, i))
  }

  lemma FourBytes(a: nat, b: nat, c: nat, d: nat, addr: nat)
    requires a <= 255 && b <= 255 && c <= 255 && d <= 255 && addr == a * 16777216 + b * 65536 + c * 256 + d
    ensures addr < SPACE && a == addr / 16777216 % 256 && b == addr / 65536 % 256
    ensures c == addr / 256 % 256 && d == addr % 256
  {
    assert addr / 256 == a * 65536 + b * 256 + c;
    assert addr / 65536 == a * 256 + b;
    assert addr / 16777216 == a;
  }

  lemma BytesAdd(addr: nat)
    requires addr < SPACE
    ensures addr == addr / 16777216 % 256 * 16777216 + addr / 65536 % 256 * 65536 + addr / 256 % 256 * 256 + addr % 256
  {
    var high := addr / 65536;
    assert high == addr / 16777216 % 256 * 256 + high % 256;
    assert addr % 65536 == addr / 256 % 256 * 256 + addr % 256;
  }

  lemma ThreeParts(a: nat, b: nat, d: nat, addr: nat)
    ensures (a <= 255 && b <= 255 && d < 65536 && addr == a * 16777216 + b * 65536 + d)
            <==> (addr < SPACE && a == addr / 16777216 % 256 && b == addr / 65536 % 256 && d == addr % 65536)
  {
  }

  lemma TwoParts(a: nat, d: nat, addr: nat)
    ensures (a <= 255 && d < 16777216 && addr == a * 16777216 + d)
            <==> (addr < SPACE && a == addr / 16777216 % 256 && d == addr % 16777216)
  {
  }

  lemma LeadSums(nums: seq<nat>)
    requires |nums| <= 3
    ensures |nums| == 0 ==> LeadSum(nums) == 0
    ensures |nums| == 1 ==> LeadSum(nums) == nums[0] * 16777216
    ensures |nums| == 2 ==> LeadSum(nums) == nums[0] * 16777216 + nums[1] * 65536
    ensures |nums| == 3 ==> LeadSum(nums) == nums[0] * 16777216 + nums[1] * 65536 + nums[2] * 256
  {
    if |nums| > 0 { LeadSums(nums[..|nums| - 1]); }
  }

  /** A part past its range makes the address unreadable; otherwise the sum is
      in range, and the wrap changes nothing. */
  lemma NeverWraps(nums: seq<nat>)
    requires 1 <= |nums| <= 4 && Assemble(nums).Some?
    ensures var lead := nums[..|nums| - 1]; Assemble(nums) == Some(nums[|nums| - 1] + LeadSum(lead))
    ensures Assemble(nums).value < SPACE
  {
    var lead := nums[..|nums| - 1];
    LeadSums(lead);
    assert forall i :: 0 <= i < |lead| ==> lead[i] <= 255;
  }

  lemma {:induction false} FieldsAssemble(nums: seq<nat>, addr: nat)
    requires 1 <= |nums| <= 4 && addr < SPACE && forall i :: 0 <= i < |nums| ==> nums[i] == Field(addr, |nums|, i)
    ensures Assemble(nums) == Some(addr)
  {
    var lead := nums[..|nums| - 1];
    LeadSums(lead);
    assert forall i :: 0 <= i < |lead| ==> lead[i] <= 255;
    if |nums| == 2 {
      TwoParts(nums[0], nums[1], addr);
    } else if |nums| == 3 {
      ThreeParts(nums[0], nums[1], nums[2], addr);
    } else if |nums| == 4 {
      BytesAdd(addr);
    }
  }

  lemma AssembledFields(nums: seq<nat>, addr: nat)
    requires 1 <= |nums| <= 4 && Assemble(nums) == Some(addr)
    ensures addr < SPACE && forall i :: 0 <= i < |nums| ==> nums[i] == Field(addr, |nums|, i)
  {
    NeverWraps(nums);
    var lead := nums[..|nums| - 1];
    LeadSums(lead);
    assert forall i :: 0 <= i < |lead| ==> lead[i] == nums[i] <= 255;
    if |nums| == 2 {
      TwoParts(nums[0], nums[1], addr);
    } else if |nums| == 3 {
      ThreeParts(nums[0], nums[1], nums[2], addr);
    } else if |nums| == 4 {
      FourBytes(nums[0], nums[1], nums[2], nums[3], addr);
    }
  }

  /** A part holds digits and an `x`, and starts with a decimal digit. */
  lemma PartChars(part: string)
    requires PartValue(part).Some?
    ensures part != "" && '0' <= part[0] <= '9'
    ensures forall i :: 0 <= i < |part| ==> DigitValue(part[i]) < 16 || part[i] in {'x', 'X'}
  {
    forall i | 0 <= i < |part| ensures DigitValue(part[i]) < 16 || part[i] in {'x', 'X'} {
      if i >= 2 { assert part[2..][i - 2] == part[i]; }
      if i >= 1 { assert part[1..][i - 1] == part[i]; }
    }
  }

  lemma PartLacks(part: string, c: char)
    requires PartValue(part).Some? && DigitValue(c) == 16 && c !in {'x', 'X'}
    ensures c !in part
  {
    PartChars(part);
  }

  /** `Parse` accepts exactly the spellings of an address, and gives that address. */
  lemma ParsesExactlySpellings(host: string, addr: nat)
    ensures Parse(host) == Some(addr) <==>
              addr < SPACE && exists parts :: |parts| > 0 && host == Join(parts, '.') && Spells(parts, addr)
  {
    if Parse(host) == Some(addr) {
      var parts := Split(host, '.');
      JoinOfSplit(host, '.');
      NumbersLength(parts);
      AssembledFields(Numbers(parts).value, addr);
      assert Spells(parts, addr);
    }
    if addr < SPACE {
      forall parts | |parts| > 0 && host == Join(parts, '.') && Spells(parts, addr)
        ensures Parse(host) == Some(addr)
      {
        forall i | 0 <= i < |parts| ensures '.' !in parts[i] && parts[i] != "" {
          PartChars(parts[i]);
          PartLacks(parts[i], '.');
        }
        SplitOfJoin(parts, '.');
        NumbersLength(parts);
        FieldsAssemble(Numbers(parts).value, addr);
      }
    }
  }

  datatype Style = Decimal | Octal(zeros: nat) | Hex(zeros: nat, upperX: bool, upper: bool)

  /** A numeral as a person might write it. */
  function Numeral(n: nat, style: Style): string
  {
    match style
    case Decimal => Digits(n, 10, false)
    case Octal(zeros) => "0" + (Zeros(zeros) + Digits(n, 8, false))
    case Hex(zeros, upperX, upper) => (if upperX then "0X" else "0x") + (Zeros(zeros) + Digits(n, 16, upper))
  }

  lemma DecimalRoundTrip(n: nat)
    ensures PartValue(Digits(n, 10, false)) == Some(n)
  {
    var s := Digits(n, 10, false);
    DigitsAreNumeral(n, 10, false);
    ValueOfDigits(n, 10, false);
    if n > 0 {
      assert DigitValue(s[0]) > 0;
      assert '1' <= s[0] <= '9';
    }
  }

  lemma OctalRoundTrip(n: nat, zeros: nat)
    ensures PartValue("0" + (Zeros(zeros) + Digits(n, 8, false))) == Some(n)
  {
    var digits := Zeros(zeros) + Digits(n, 8, false);
    DigitsAreNumeral(n, 8, false);
    ValueOfDigits(n, 8, false);
    ValuePadded(zeros, Digits(n, 8, false), 8);
    LeadingZeroIsOctal(digits);
  }

  lemma LeadingZeroIsOctal(digits: string)
    requires IsNumeral(digits, 8)
    ensures PartValue("0" + digits) == Some(Value(digits, 8))
  {
    var s := "0" + digits;
    assert s[1..] == digits && s[1] == digits[0];
    assert s[1] !in {'x', 'X'} by { assert DigitValue(digits[0]) < 8; }
  }

  lemma HexRoundTrip(n: nat, zeros: nat, upperX: bool, upper: bool)
    ensures PartValue((if upperX then "0X" else "0x") + (Zeros(zeros) + Digits(n, 16, upper))) == Some(n)
  {
    var digits := Digits(n, 16, upper);
    DigitsAreNumeral(n, 16, upper);
    ValueOfDigits(n, 16, upper);
    ValuePadded(zeros, digits, 16);
    var s := (if upperX then "0X" else "0x") + (Zeros(zeros) + digits);
    assert s[2..] == Zeros(zeros) + digits;
  }

  lemma NumeralRoundTrip(n: nat, style: Style)
    ensures PartValue(Numeral(n, style)) == Some(n)
  {
    match style
    case Decimal => DecimalRoundTrip(n);
    case Octal(zeros) => OctalRoundTrip(n, zeros);
    case Hex(zeros, upperX, upper) => HexRoundTrip(n, zeros, upperX, upper);
  }

  /** The address in `|styles|` parts, each in its own style. */
  function Print(addr: nat, styles: seq<Style>): seq<string>
    requires 1 <= |styles| <= 4
  {
    seq(|styles|, i requires 0 <= i < |styles| => Numeral(Field(addr, |styles|, i), styles[i]))
  }

  lemma PrintRoundTrip(addr: nat, styles: seq<Style>)
    requires addr < SPACE && 1 <= |styles| <= 4
    ensures Parse(Join(Print(addr, styles), '.')) == Some(addr)
  {
    var parts := Print(addr, styles);
    forall i | 0 <= i < |parts| ensures PartValue(parts[i]) == Some(Field(addr, |parts|, i)) {
      NumeralRoundTrip(Field(addr, |styles|, i), styles[i]);
    }
    ParsesExactlySpellings(Join(parts, '.'), addr);
  }

  // ---------------------------------------------------------------------
  // Ranges

  datatype Reason = Loopback | LinkLocal | Metadata | Rfc1918 | Unspecified | Ula | Cgnat | Benchmark | Multicast
                  | Reserved

  function Classify(addr: nat): Option<Reason>
  {
    var a, b, c, d := addr / 16777216 % 256, addr / 65536 % 256, addr / 256 % 256, addr % 256;
    if a == 169 && b == 254 && c == 169 && d == 254 then Some(Metadata)
    else if a == 0 then Some(Unspecified)
    else if a == 127 then Some(Loopback)
    else if a == 169 && b == 254 then Some(LinkLocal)
    else if a == 10 then Some(Rfc1918)
    else if a == 172 && 16 <= b <= 31 then Some(Rfc1918)
    else if a == 192 && b == 168 then Some(Rfc1918)
    else if a == 100 && 64 <= b <= 127 then Some(Cgnat)
    else if a == 198 && (b == 18 || b == 19) then Some(Benchmark)
    else if a == 192 && b == 0 && c == 0 then Some(Reserved)
    else if 224 <= a <= 239 then Some(Multicast)
    else if a >= 240 then Some(Reserved)
    else None
  }

  /** The `2^bits` addresses that share everything above the low `bits` bits. */
  datatype Block = Block(base: nat, bits: nat, reason: Reason)

  /** The published blocks, most specific first. */
  const BLOCKS: seq<Block> := [
    Block(0xA9FEA9FE, 0, Metadata),     // 169.254.169.254/32
    Block(0x00000000, 24, Unspecified), // 0.0.0.0/8
    Block(0x7F000000, 24, Loopback),    // 127.0.0.0/8
    Block(0xA9FE0000, 16, LinkLocal),   // 169.254.0.0/16
    Block(0x0A000000, 24, Rfc1918),     // 10.0.0.0/8
    Block(0xAC100000, 20, Rfc1918),     // 172.16.0.0/12
    Block(0xC0A80000, 16, Rfc1918),     // 192.168.0.0/16
    Block(0x64400000, 22, Cgnat),       // 100.64.0.0/10
    Block(0xC6120000, 17, Benchmark),   // 198.18.0.0/15
    Block(0xC0000000, 8, Reserved),     // 192.0.0.0/24
    Block(0xE0000000, 28, Multicast),   // 224.0.0.0/4
    Block(0xF0000000, 28, Reserved)]    // 240.0.0.0/4

  predicate InBlock(b: Block, addr: nat)
  {
    b.base <= addr < b.base + Power(2, b.bits)
  }

  /** The reason of the first block, from the `k`th on, that holds the address. */
  function FirstBlock(k: nat, addr: nat): Option<Reason>
    decreases |BLOCKS| - k
  {
    if k >= |BLOCKS| then None
    else if InBlock(BLOCKS[k], addr) then Some(BLOCKS[k].reason)
    else FirstBlock(k + 1, addr)
  }

  lemma PowersOfTwo()
    ensures Power(2, 0) == 1 && Power(2, 8) == 256 && Power(2, 16) == 65536 && Power(2, 17) == 131072
    ensures Power(2, 20) == 1048576 && Power(2, 22) == 4194304 && Power(2, 24) == 16777216 && Power(2, 28) == 268435456
  {
    assert Power(2, 4) == 16;
    assert Power(2, 12) == 4096;
    assert Power(2, 14) == 16384;
    assert Power(2, 18) == 262144;
    assert Power(2, 26) == 67108864;
  }

  /** The octet test of each block, in the order of the table. */
  predicate OctetTest(k: nat, a: nat, b: nat, c: nat, d: nat)
  {
    match k
    case 0 => a == 169 && b == 254 && c == 169 && d == 254
    case 1 => a == 0
    case 2 => a == 127
    case 3 => a == 169 && b == 254
    case 4 => a == 10
    case 5 => a == 172 && 16 <= b <= 31
    case 6 => a == 192 && b == 168
    case 7 => a == 100 && 64 <= b <= 127
    case 8 => a == 198 && (b == 18 || b == 19)
    case 9 => a == 192 && b == 0 && c == 0
    case 10 => 224 <= a <= 239
    case _ => a >= 240
  }

  lemma BlockIsOctetTest(k: nat, addr: nat, a: nat, b: nat, c: nat, d: nat)
    requires k < |BLOCKS| && a < 256 && b < 256 && c < 256 && d < 256
    requires addr == a * 16777216 + b * 65536 + c * 256 + d
    ensures InBlock(BLOCKS[k], addr) <==> OctetTest(k, a, b, c, d)
  {
    PowersOfTwo();
  }

  /** The octet tests are the published blocks: the reason is that of the most
      specific block holding the address, and there is none exactly outside them. */
  lemma ClassifiesByBlock(addr: nat)
    requires addr < SPACE
    ensures Classify(addr) == FirstBlock(0, addr)
    ensures Classify(addr).None? <==> forall k :: 0 <= k < |BLOCKS| ==> !InBlock(BLOCKS[k], addr)
  {
    BytesAdd(addr);
    LastBlocks(addr);
    var a, b, c, d := addr / 16777216 % 256, addr / 65536 % 256, addr / 256 % 256, addr % 256;
    forall k | 0 <= k < 6 ensures InBlock(BLOCKS[k], addr) <==> OctetTest(k, a, b, c, d) {
      BlockIsOctetTest(k, addr, a, b, c, d);
    }
    FirstBlockIsNone(0, addr);
    FirstBlockSkips(0, addr);
    FirstBlockSkips(3, addr);
  }

  lemma FirstBlockSkips(k: nat, addr: nat)
    requires k + 3 <= |BLOCKS|
    ensures FirstBlock(k, addr) ==
              if InBlock(BLOCKS[k], addr) then Some(BLOCKS[k].reason)
              else if InBlock(BLOCKS[k + 1], addr) then Some(BLOCKS[k + 1].reason)
              else if InBlock(BLOCKS[k + 2], addr) then Some(BLOCKS[k + 2].reason)
              else FirstBlock(k + 3, addr)
  {
    assert FirstBlock(k + 2, addr) ==
             if InBlock(BLOCKS[k + 2], addr) then Some(BLOCKS[k + 2].reason) else FirstBlock(k + 3, addr);
  }

  /** The tail of the octet tests. */
  lemma LastBlocks(addr: nat)
    requires addr < SPACE
    ensures var a, b, c := addr / 16777216 % 256, addr / 65536 % 256, addr / 256 % 256;
            FirstBlock(6, addr) ==
              if a == 192 && b == 168 then Some(Rfc1918)
              else if a == 100 && 64 <= b <= 127 then Some(Cgnat)
              else if a == 198 && (b == 18 || b == 19) then Some(Benchmark)
              else if a == 192 && b == 0 && c == 0 then Some(Reserved)
              else if 224 <= a <= 239 then Some(Multicast)
              else if a >= 240 then Some(Reserved) else None
  {
    BytesAdd(addr);
    var a, b, c, d := addr / 16777216 % 256, addr / 65536 % 256, addr / 256 % 256, addr % 256;
    forall k | 6 <= k < 12 ensures InBlock(BLOCKS[k], addr) <==> OctetTest(k, a, b, c, d) {
      BlockIsOctetTest(k, addr, a, b, c, d);
    }
    FirstBlockSkips(6, addr);
    FirstBlockSkips(9, addr);
  }

  lemma {:induction false} FirstBlockIsNone(k: nat, addr: nat)
    ensures FirstBlock(k, addr).None? <==> forall j :: k <= j < |BLOCKS| ==> !InBlock(BLOCKS[j], addr)
    decreases |BLOCKS| - k
  {
    if k < |BLOCKS| { FirstBlockIsNone(k + 1, addr); }
  }
}
