/** The inbound size guard of src/client.js: the byte length of a string from
    its UTF-16 code units, measured only where the unit count cannot decide. */
module SizeGuard {
  import opened Utf8

  const CAP := 1048576

  ghost predicate IsHigh(u: Unit) { 0xD800 <= u <= 0xDBFF }
  ghost predicate IsLow(u: Unit) { 0xDC00 <= u <= 0xDFFF }

  /** The code point of a surrogate pair. */
  ghost function Pair(high: int, low: int): int { 0x10000 + (high - 0xD800) * 1024 + (low - 0xDC00) }

  /** The text of a string; a lone surrogate stands for U+FFFD. */
  ghost function Decode(units: seq<Unit>): (cps: seq<nat>)
    ensures IsText(cps)
    decreases |units|
  {
    if units == [] then []
    else if IsHigh(units[0]) && |units| > 1 && IsLow(units[1]) then
      [Pair(units[0], units[1])] + Decode(units[2..])
    else [if IsHigh(units[0]) || IsLow(units[0]) then 0xFFFD else units[0]] + Decode(units[1..])
  }

  ghost function ByteLength(units: seq<Unit>): nat { |EncodeAll(Decode(units))| }

  lemma FirstPair(units: seq<Unit>)
    requires |units| > 1 && IsHigh(units[0]) && IsLow(units[1])
    ensures ByteLength(units) == 4 + ByteLength(units[2..])
  {
    var c: nat := Pair(units[0], units[1]);
    assert Decode(units)[1..] == Decode(units[2..]) && Decode(units)[0] == c;
    assert |Encode(c)| == 4;
  }

  lemma FirstUnit(units: seq<Unit>)
    requires units != [] && !(IsHigh(units[0]) && |units| > 1 && IsLow(units[1]))
    ensures ByteLength(units) ==
              (if units[0] < 0x80 then 1 else if units[0] < 0x800 then 2 else 3) + ByteLength(units[1..])
  {
    assert Decode(units)[1..] == Decode(units[1..]);
  }

  method Utf8ByteLength(s: seq<Unit>) returns (bytes: nat)
    ensures bytes == ByteLength(s)
  {
    bytes := 0;
    var i := 0;
    assert s[0..] == s;
    while i < |s|
      invariant i <= |s| && bytes + ByteLength(s[i..]) == ByteLength(s)
    {
      var c := s[i];
      assert s[i..][1..] == s[i + 1..];
      if c < 0x80 {
        FirstUnit(s[i..]);
        bytes := bytes + 1;
      } else if c < 0x800 {
        FirstUnit(s[i..]);
        bytes := bytes + 2;
      } else if 0xD800 <= c <= 0xDBFF && i + 1 < |s| && 0xDC00 <= s[i + 1] < 0xE000 {
        assert s[i..][2..] == s[i + 2..];
        FirstPair(s[i..]);
        bytes := bytes + 4;
        i := i + 1;
      } else {
        FirstUnit(s[i..]);
        bytes := bytes + 3;
      }
      i := i + 1;
    }
    assert s[|s|..] == [];
  }

  /** Between one and three bytes to the unit, lone surrogates included. */
  lemma {:induction false} UnitsBoundBytes(units: seq<Unit>)
    ensures |units| <= ByteLength(units) <= 3 * |units|
    decreases |units|
  {
    if units != [] {
      if IsHigh(units[0]) && |units| > 1 && IsLow(units[1]) {
        FirstPair(units);
        UnitsBoundBytes(units[2..]);
      } else {
        FirstUnit(units);
        UnitsBoundBytes(units[1..]);
      }
    }
  }

  /** A frame is dropped exactly when its encoding is over the cap, though most
      frames are never measured. */
  method DropsFrame(data: seq<Unit>) returns (dropped: bool)
    ensures dropped <==> |EncodeAll(Decode(data))| > CAP
  {
    UnitsBoundBytes(data);
    var units := |data|;
    if units > CAP { return true; }
    if units * 3 > CAP {
      var bytes := Utf8ByteLength(data);
      if bytes > CAP { return true; }
    }
    return false;
  }
}
