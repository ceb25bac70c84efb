/** The byte scanner of scripts/check-source-bytes.js, and what it means for
    the text the bytes encode. */
module SourceBytes {
  import opened Utf8

  datatype Hit = Hit(line: nat, code: nat)

  const LIMIT := 8

  // ---------------------------------------------------------------------
  // The scanner

  datatype Sequence = Sequence(code: nat, bytes: seq<Byte>)

  /** The refused three-byte code points. */
  const INVISIBLE: seq<Sequence> := [
    Sequence(0x200B, [0xE2, 0x80, 0x8B]),
    Sequence(0x2028, [0xE2, 0x80, 0xA8]),
    Sequence(0x2029, [0xE2, 0x80, 0xA9]),
    Sequence(0xFEFF, [0xEF, 0xBB, 0xBF])]

  predicate Starts(bs: seq<Byte>, s: Sequence)
  {
    |bs| >= 3 == |s.bytes| && bs[0] == s.bytes[0] && bs[1] == s.bytes[1] && bs[2] == s.bytes[2]
  }

  /** The refused three-byte code point at the front of `bs`, or 0. */
  function Invisible(bs: seq<Byte>): nat
  {
    if Starts(bs, INVISIBLE[0]) then 0x200B
    else if Starts(bs, INVISIBLE[1]) then 0x2028
    else if Starts(bs, INVISIBLE[2]) then 0x2029
    else if Starts(bs, INVISIBLE[3]) then 0xFEFF
    else 0
  }

  method InvisibleAt(bytes: seq<Byte>, i: nat) returns (code: nat)
    requires i <= |bytes|
    ensures code == Invisible(bytes[i..])
  {
    ghost var bs := bytes[i..];
    for k := 0 to |INVISIBLE|
      invariant k > 0 ==> !Starts(bs, INVISIBLE[0])
      invariant k > 1 ==> !Starts(bs, INVISIBLE[1])
      invariant k > 2 ==> !Starts(bs, INVISIBLE[2])
      invariant k > 3 ==> !Starts(bs, INVISIBLE[3])
    {
      var s := INVISIBLE[k].bytes;
      if i + 2 < |bytes| && bytes[i] == s[0] && bytes[i + 1] == s[1] && bytes[i + 2] == s[2] {
        return INVISIBLE[k].code;
      }
    }
    return 0;
  }

  /** What the scanner makes of the front of the bytes: nothing, a newline, or a
      refused code point of so many bytes. */
  datatype Step = Skip | Newline | Found(code: nat, size: nat)

  function Next(bs: seq<Byte>): (s: Step)
    requires bs != []
    ensures s.Found? ==> 1 <= s.size <= |bs|
  {
    var b := bs[0];
    if b == 0x0A then Newline
    else if b == 0x09 then Skip
    else if b == 0x0D then if |bs| > 1 && bs[1] == 0x0A then Skip else Found(b, 1)
    else if b < 0x20 || b == 0x7F then Found(b, 1)
    else if b == 0xC2 && |bs| > 1 && 0x80 <= bs[1] <= 0x9F then Found(bs[1], 2)
    else if (b == 0xE2 || b == 0xEF) && Invisible(bs) != 0 then Found(Invisible(bs), 3)
    else Skip
  }

  /** Every hit in the bytes, without the limit. */
  function Scan(bs: seq<Byte>, line: nat): seq<Hit>
    decreases |bs|
  {
    if bs == [] then []
    else
      var s := Next(bs);
      if s.Found? then [Hit(line, s.code)] + Scan(bs[s.size..], line)
      else Scan(bs[1..], if s.Newline? then line + 1 else line)
  }

  function Min(a: nat, b: nat): nat { if a <= b then a else b }

  function FirstEight(hits: seq<Hit>): seq<Hit> { hits[..Min(LIMIT, |hits|)] }

  lemma ScanFrom(bytes: seq<Byte>, i: nat, line: nat)
    requires i < |bytes|
    ensures var s := Next(bytes[i..]);
            Scan(bytes[i..], line) ==
              if s.Found? then [Hit(line, s.code)] + Scan(bytes[i + s.size..], line)
              else Scan(bytes[i + 1..], if s.Newline? then line + 1 else line)
  {
    assert bytes[i..][1..] == bytes[i + 1..];
    if Next(bytes[i..]).Found? {
      var size := Next(bytes[i..]).size;
      assert bytes[i..][size..] == bytes[i + size..];
    }
  }

  lemma OneMoreHit(before: seq<Hit>, hit: Hit, after: seq<Hit>)
    ensures before + ([hit] + after) == (before + [hit]) + after
  {
  }

  method ControlCharacters(bytes: seq<Byte>) returns (hits: seq<Hit>)
    ensures hits == FirstEight(Scan(bytes, 1))
    ensures hits <= Scan(bytes, 1) && (|hits| == 8 || (|hits| < 8 && hits == Scan(bytes, 1)))
  {
    hits := [];
    var line, i := 1, 0;
    assert bytes[0..] == bytes;
    while i < |bytes|
      invariant i <= |bytes| && |hits| < LIMIT
      invariant hits + Scan(bytes[i..], line) == Scan(bytes, 1)
    {
      ScanFrom(bytes, i, line);
      var byte := bytes[i];
      if byte == 0x0A {
        line, i := line + 1, i + 1;
        continue;
      }
      if byte == 0x09 {
        i := i + 1;
        continue;
      }
      var code, size;
      if byte == 0x0D {
        if i + 1 < |bytes| && bytes[i + 1] == 0x0A {
          i := i + 1;
          continue;
        }
        code, size := byte, 1;
      } else if byte < 0x20 || byte == 0x7F {
        code, size := byte, 1;
      } else if byte == 0xC2 && i + 1 < |bytes| && 0x80 <= bytes[i + 1] <= 0x9F {
        code, size := bytes[i + 1], 2;
      } else if byte == 0xE2 || byte == 0xEF {
        var invisible := InvisibleAt(bytes, i);
        if invisible == 0 {
          i := i + 1;
          continue;
        }
        code, size := invisible, 3;
      } else {
        i := i + 1;
        continue;
      }
      assert Next(bytes[i..]) == Found(code, size);
      OneMoreHit(hits, Hit(line, code), Scan(bytes[i + size..], line));
      hits := hits + [Hit(line, code)];
      i := i + size;
      if |hits| >= LIMIT { return; }
    }
  }

  // ---------------------------------------------------------------------
  // What the scan means

  ghost predicate IsInvisible(c: nat) { c == 0x200B || c == 0x2028 || c == 0x2029 || c == 0xFEFF }

  /** A control character other than tab, newline and the CR of a CRLF, or one of
      the invisible code points. */
  ghost predicate Refused(cps: seq<nat>, i: nat)
    requires i < |cps|
  {
    var c := cps[i];
    || (c < 0x20 && c != 0x09 && c != 0x0A && !(c == 0x0D && i + 1 < |cps| && cps[i + 1] == 0x0A))
    || 0x7F <= c <= 0x9F
    || IsInvisible(c)
  }

  /** The refused code points of the text, each with its line number. */
  ghost function Refusals(cps: seq<nat>, line: nat): seq<Hit>
  {
    if cps == [] then []
    else
      var rest := Refusals(cps[1..], if cps[0] == 0x0A then line + 1 else line);
      if Refused(cps, 0) then [Hit(line, cps[0])] + rest else rest
  }

  lemma SkipContinuation(b: Byte, rest: seq<Byte>, line: nat)
    requires 0x80 <= b <= 0xBF
    ensures Scan([b] + rest, line) == Scan(rest, line)
  {
    assert ([b] + rest)[1..] == rest;
  }

  /** A newline is never part of a longer encoding. */
  lemma NewlineFirst(cps: seq<nat>)
    requires IsText(cps)
    ensures EncodeAll(cps) != [] && EncodeAll(cps)[0] == 0x0A <==> cps != [] && cps[0] == 0x0A
  {
    if cps != [] { assert EncodeAll(cps)[0] == Encode(cps[0])[0]; }
  }

  lemma ScanOne(c: nat, rest: seq<Byte>, line: nat)
    requires c < 0x80
    ensures Scan([c] + rest, line) ==
              if c == 0x0A then Scan(rest, line + 1)
              else if c == 0x0D && rest != [] && rest[0] == 0x0A then Scan(rest, line)
              else if (c < 0x20 && c != 0x09) || c == 0x7F then [Hit(line, c)] + Scan(rest, line)
              else Scan(rest, line)
  {
    assert ([c] + rest)[1..] == rest;
  }

  lemma ScanTwo(c: nat, rest: seq<Byte>, line: nat)
    requires 0x80 <= c < 0x800
    ensures Scan(Encode(c) + rest, line) == if c <= 0x9F then [Hit(line, c)] + Scan(rest, line) else Scan(rest, line)
  {
    var bs := Encode(c) + rest;
    assert bs[1..] == [bs[1]] + rest && bs[2..] == rest;
    SkipContinuation(bs[1], rest, line);
  }

  lemma ScanThree(c: nat, rest: seq<Byte>, line: nat)
    requires 0x800 <= c < 0x10000 && IsScalar(c)
    ensures Scan(Encode(c) + rest, line) == if IsInvisible(c) then [Hit(line, c)] + Scan(rest, line) else Scan(rest, line)
  {
    var bs := Encode(c) + rest;
    assert bs[..3] == Encode(c) && bs[3..] == rest;
    InvisibleIsEncoded(c);
    assert bs[1..] == [bs[1]] + ([bs[2]] + rest);
    SkipContinuation(bs[1], [bs[2]] + rest, line);
    SkipContinuation(bs[2], rest, line);
  }

  lemma ThreeBytes(c: nat)
    requires 0x800 <= c < 0x10000
    ensures c == c / 4096 * 4096 + c / 64 % 64 * 64 + c % 64
  {
  }

  /** The byte table holds the encodings of the refused code points. */
  lemma InvisibleIsEncoded(c: nat)
    requires 0x800 <= c < 0x10000 && IsScalar(c)
    ensures Encode(c) == [0xE2, 0x80, 0x8B] <==> c == 0x200B
    ensures Encode(c) == [0xE2, 0x80, 0xA8] <==> c == 0x2028
    ensures Encode(c) == [0xE2, 0x80, 0xA9] <==> c == 0x2029
    ensures Encode(c) == [0xEF, 0xBB, 0xBF] <==> c == 0xFEFF
  {
    ThreeBytes(c);
    var s := Encode(c);
    assert s[0] == 0xE0 + c / 4096 && s[1] == 0x80 + c / 64 % 64 && s[2] == 0x80 + c % 64;
  }

  lemma ScanFour(c: nat, rest: seq<Byte>, line: nat)
    requires 0x10000 <= c && IsScalar(c)
    ensures Scan(Encode(c) + rest, line) == Scan(rest, line)
  {
    var bs := Encode(c) + rest;
    assert bs[1..] == [bs[1]] + ([bs[2]] + ([bs[3]] + rest));
    SkipContinuation(bs[1], [bs[2]] + ([bs[3]] + rest), line);
    SkipContinuation(bs[2], [bs[3]] + rest, line);
    SkipContinuation(bs[3], rest, line);
  }

  /** The byte scan of encoded text finds exactly the refused code points, in
      order and on their lines. */
  lemma {:induction false} ScanIsRefusals(cps: seq<nat>, line: nat)
    requires IsText(cps)
    ensures Scan(EncodeAll(cps), line) == Refusals(cps, line)
    decreases |cps|
  {
    if cps != [] {
      var c, rest := cps[0], cps[1..];
      assert IsScalar(c);
      ScanIsRefusals(rest, if c == 0x0A then line + 1 else line);
      NewlineFirst(rest);
      assert rest != [] ==> rest[0] == cps[1];
      if c < 0x80 {
        ScanOne(c, EncodeAll(rest), line);
      } else if c < 0x800 {
        ScanTwo(c, EncodeAll(rest), line);
      } else if c < 0x10000 {
        ScanThree(c, EncodeAll(rest), line);
      } else {
        ScanFour(c, EncodeAll(rest), line);
      }
    }
  }

  /** How many newlines come before code point `i`. */
  ghost function Newlines(cps: seq<nat>, i: nat): nat
    requires i <= |cps|
  {
    if i == 0 then 0 else (if cps[0] == 0x0A then 1 else 0) + Newlines(cps[1..], i - 1)
  }

  ghost predicate HitAt(cps: seq<nat>, line: nat, h: Hit, i: nat)
  {
    i < |cps| && Refused(cps, i) && h == Hit(line + Newlines(cps, i), cps[i])
  }

  /** A hit is listed exactly when some code point is refused, with the number of
      newlines before it as its line. */
  lemma {:induction false} RefusalsAreExact(cps: seq<nat>, line: nat, h: Hit)
    ensures h in Refusals(cps, line) <==> exists i: nat :: HitAt(cps, line, h, i)
    decreases |cps|
  {
    if cps != [] {
      var rest, next := cps[1..], if cps[0] == 0x0A then line + 1 else line;
      RefusalsAreExact(rest, next, h);
      forall i: nat | i < |rest| ensures HitAt(rest, next, h, i) == HitAt(cps, line, h, i + 1) {
        assert rest[i] == cps[i + 1] && Refused(rest, i) == Refused(cps, i + 1);
      }
      if Refused(cps, 0) && h == Hit(line, cps[0]) { assert HitAt(cps, line, h, 0); }
      if i: nat :| HitAt(cps, line, h, i) {
        if i > 0 { assert HitAt(rest, next, h, i - 1); }
      }
      if i: nat :| HitAt(rest, next, h, i) {
        assert HitAt(cps, line, h, i + 1);
      }
    }
  }
}
