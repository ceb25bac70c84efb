/** The text of a declared NAT64 prefix, as src/safe-url.js parses it. */
module Declarations {
  import opened Options
  import Ipv6
  import opened Ipv6Proofs
  import opened Nat64
  import opened Addresses
  import opened Hosts

  /** `s.lastIndexOf('/')` */
  function LastSlash(s: string): (r: Option<nat>)
    ensures r.Some? ==> r.value < |s| && s[r.value] == '/' && '/' !in s[r.value + 1..]
    ensures r.None? ==> '/' !in s
  {
    if s == "" then None
    else if s[|s| - 1] == '/' then Some(|s| - 1)
    else
      var r := LastSlash(s[..|s| - 1]);
      assert r.Some? ==> s[r.value + 1..] == s[..|s| - 1][r.value + 1..] + [s[|s| - 1]];
      assert s == s[..|s| - 1] + [s[|s| - 1]];
      r
  }

  /** One leading and one trailing bracket go, each on its own. */
  function Unbracketed(s: string): string
  {
    var rest := if s != "" && s[0] == '[' then s[1..] else s;
    if rest != "" && rest[|rest| - 1] == ']' then rest[..|rest| - 1] else rest
  }

  /** The six lengths, written exactly so. */
  function LengthText(len: nat): string
    requires IsLength(len)
  {
    if len == 32 then "32" else if len == 40 then "40" else if len == 48 then "48"
    else if len == 56 then "56" else if len == 64 then "64" else "96"
  }

  function LengthOf(text: string): (len: Option<nat>)
    ensures len.Some? <==> text in {"32", "40", "48", "56", "64", "96"}
    ensures len.Some? ==> IsLength(len.value)
  {
    if text == "32" then Some(32) else if text == "40" then Some(40) else if text == "48" then Some(48)
    else if text == "56" then Some(56) else if text == "64" then Some(64) else if text == "96" then Some(96) else None
  }

  function ParsePrefix(spec: string): Option<Declared>
  {
    var slash := LastSlash(spec);
    if slash.None? then None
    else
      var len := LengthOf(spec[slash.value + 1..]);
      var groups := Ipv6.Parse(Unbracketed(spec[..slash.value]));
      if len.None? || groups.None? then None else Some(Declared(groups.value, len.value))
  }

  lemma {:induction false} LastSlashIs(text: string, tail: string)
    requires '/' !in tail
    ensures LastSlash(text + "/" + tail) == Some(|text|)
    decreases |tail|
  {
    var s := text + "/" + tail;
    if tail == "" {
      assert s == text + "/";
    } else {
      var init := tail[..|tail| - 1];
      LastSlashIs(text, init);
      assert s[..|s| - 1] == text + "/" + init && s[|s| - 1] == tail[|tail| - 1];
      assert tail[|tail| - 1] in tail;
    }
  }

  lemma LengthIsWritten(text: string)
    requires LengthOf(text).Some?
    ensures text == LengthText(LengthOf(text).value)
  {
  }

  lemma LengthIsRead(len: nat)
    requires IsLength(len)
    ensures LengthOf(LengthText(len)) == Some(len) && '/' !in LengthText(len)
  {
  }

  ghost predicate Written(spec: string, text: string, d: Declared)
  {
    IsLength(d.len) && spec == text + "/" + LengthText(d.len) && Ipv6.Parse(Unbracketed(text)) == Some(d.groups)
  }

  lemma CutAtSlash(spec: string, i: nat)
    requires i < |spec| && spec[i] == '/'
    ensures spec == spec[..i] + "/" + spec[i + 1..]
  {
  }

  lemma ReadIsWritten(spec: string, d: Declared)
    requires ParsePrefix(spec) == Some(d)
    ensures Written(spec, spec[..LastSlash(spec).value], d)
  {
    var slash := LastSlash(spec).value;
    LengthIsWritten(spec[slash + 1..]);
    CutAtSlash(spec, slash);
  }

  lemma ReadIsUsable(spec: string, d: Declared)
    requires ParsePrefix(spec) == Some(d)
    ensures Usable(Some(d))
  {
    ParsesExactlySpellings(Unbracketed(spec[..LastSlash(spec).value]), d.groups);
  }

  lemma WrittenIsRead(spec: string, text: string, d: Declared)
    requires Written(spec, text, d)
    ensures ParsePrefix(spec) == Some(d)
  {
    var tail := LengthText(d.len);
    LengthIsRead(d.len);
    LastSlashIs(text, tail);
    assert spec[..|text|] == text && spec[|text| + 1..] == tail;
  }

  /** A declaration is read if and only if it is an IPv6 literal, in brackets or
      not, a slash, and one of the six lengths written exactly; what is read is
      always fit for the classifier. */
  lemma DeclarationIsExact(spec: string, d: Declared)
    ensures ParsePrefix(spec) == Some(d) <==> exists text :: Written(spec, text, d)
    ensures ParsePrefix(spec) == Some(d) ==> Usable(Some(d))
  {
    if ParsePrefix(spec) == Some(d) {
      ReadIsWritten(spec, d);
      ReadIsUsable(spec, d);
    }
    if text :| Written(spec, text, d) { WrittenIsRead(spec, text, d); }
  }

  /** A bracket goes from either end, and nothing else does. */
  lemma BracketsGo(s: string)
    requires s == "" || (s[0] != '[' && s[|s| - 1] != ']')
    ensures Unbracketed(s) == s && Unbracketed("[" + s + "]") == s
    ensures Unbracketed("[" + s) == s && Unbracketed(s + "]") == s
  {
    assert ("[" + s + "]")[1..] == s + "]" && (s + "]")[..|s|] == s && ("[" + s)[1..] == s;
  }
}
