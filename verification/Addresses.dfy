/** Classification of IPv6 addresses, IPv4-embedding forms included, as in
    src/safe-url.js. Masks of high bits are written as ranges. */
module Addresses {
  import opened Options
  import opened Ipv4
  import opened Ipv6Proofs
  import opened Nat64
  import opened Nat64Proofs

  /** The prefix an operator says its translator uses. */
  datatype Declared = Declared(groups: seq<nat>, len: nat)

  /** The low 32 bits. */
  function Low(g: seq<nat>): nat
    requires |g| == 8
  {
    g[6] * 65536 + g[7]
  }

  predicate ZeroHigh(g: seq<nat>)
    requires |g| == 8
  {
    g[0] == 0 && g[1] == 0 && g[2] == 0 && g[3] == 0 && g[4] == 0
  }

  function Classify6(g: seq<nat>, nat64: Option<Declared>): Option<Reason>
    requires |g| == 8
    requires nat64.Some? ==> |nat64.value.groups| == 8 && IsLength(nat64.value.len)
  {
    if ZeroHigh(g) && g[5] == 0xffff then Classify(Low(g))
    else if ZeroHigh(g) && g[5] == 0 && Low(g) > 1 && Classify(Low(g)).Some? then Classify(Low(g))
    else if ZeroHigh(g) && g[5] == 0 && Low(g) == 0 then Some(Unspecified)
    else if ZeroHigh(g) && g[5] == 0 && g[6] == 0 && g[7] == 1 then Some(Loopback)
    else if g == [0xfd00, 0x0ec2, 0, 0, 0, 0, 0, 0x0254] then Some(Metadata)
    else if g[0] == 0 && g[1] == 0 && g[2] == 0 && g[3] == 0 && g[4] == 0xffff && g[5] == 0 then Classify(Low(g))
    else if 0xfc00 <= g[0] < 0xfe00 then Some(Ula)
    else if 0xfe80 <= g[0] < 0xfec0 then Some(LinkLocal)
    else if 0xfec0 <= g[0] < 0xff00 then Some(Ula)
    else if 0xff00 <= g[0] then Some(Multicast)
    else Transition(g, nat64)
  }

  function Transition(g: seq<nat>, nat64: Option<Declared>): Option<Reason>
    requires |g| == 8
    requires nat64.Some? ==> |nat64.value.groups| == 8 && IsLength(nat64.value.len)
  {
    if nat64.Some? && InPrefix(g, nat64.value.groups, nat64.value.len) then
      var declared := Classify(ReadAt(g, nat64.value.len));
      if declared.Some? then declared
      else if g[4] / 256 != 0 || SuffixDirty(g, nat64.value.len) then Some(Reserved)
      else Tunnel(g)
    else if g[0] == 0x64 && g[1] == 0xff9b then Undeclared(g)
    else Tunnel(g)
  }

  /** 6to4, Teredo and ISATAP. */
  function Tunnel(g: seq<nat>): Option<Reason>
    requires |g| == 8
  {
    var sixToFour := Classify(g[1] * 65536 + g[2]);
    if g[0] == 0x2002 && sixToFour.Some? then sixToFour
    else if g[0] == 0x2001 && g[1] == 0 then Some(Reserved)
    else if g[4] in {0, 0x200} && g[5] == 0x5efe then Classify(Low(g))
    else None
  }

  // ---------------------------------------------------------------------
  // 64:ff9b::/32 without a declared prefix

  const LENGTHS: seq<nat> := [32, 40, 48, 56, 64, 96]

  predicate Padding(v: nat) { v / 16777216 % 256 == 0 }

  predicate AllPadding(g: seq<nat>)
    requires |g| == 8
  {
    forall k :: 0 <= k < |LENGTHS| ==> Padding(ReadAt(g, LENGTHS[k]))
  }

  /** The reason of the first reading, from the `k`th on, that counts and is not public. */
  function FirstReading(g: seq<nat>, k: nat): Option<Reason>
    requires |g| == 8 && k <= |LENGTHS|
    decreases |LENGTHS| - k
  {
    if k == |LENGTHS| then None
    else
      var v := ReadAt(g, LENGTHS[k]);
      if (AllPadding(g) || !Padding(v)) && Classify(v).Some? then Classify(v) else FirstReading(g, k + 1)
  }

  function Undeclared(g: seq<nat>): Option<Reason>
    requires |g| == 8
  {
    if FirstReading(g, 0).Some? then FirstReading(g, 0)
    else if g[3] == 0 && g[4] == 0 && g[5] == 0 && g[6] == 0 && g[7] == 0 then Some(Unspecified)
    else if g[4] / 256 != 0 then Some(Reserved)
    else None
  }

  method ClassifyUndeclared(g: seq<nat>) returns (r: Option<Reason>)
    requires |g| == 8
    ensures r == Undeclared(g)
  {
    var readings: seq<nat> := [];
    var allPadding := true;
    for k := 0 to |LENGTHS|
      invariant |readings| == k && forall i :: 0 <= i < k ==> readings[i] == ReadAt(g, LENGTHS[i])
      invariant allPadding <==> forall i :: 0 <= i < k ==> Padding(ReadAt(g, LENGTHS[i]))
    {
      readings := readings + [ReadAt(g, LENGTHS[k])];
      allPadding := allPadding && Padding(ReadAt(g, LENGTHS[k]));
    }
    for k := 0 to |readings|
      invariant FirstReading(g, 0) == FirstReading(g, k)
    {
      if allPadding || !Padding(readings[k]) {
        var reason := Classify(readings[k]);
        if reason.Some? { return reason; }
      }
    }
    if g[3] == 0 && g[4] == 0 && g[5] == 0 && g[6] == 0 && g[7] == 0 { return Some(Unspecified); }
    if g[4] / 256 != 0 { return Some(Reserved); }
    return None;
  }

  ghost predicate Counts(g: seq<nat>, k: nat)
    requires |g| == 8 && k < |LENGTHS|
  {
    AllPadding(g) || !Padding(ReadAt(g, LENGTHS[k]))
  }

  lemma {:induction false} FirstReadingIsNone(g: seq<nat>, k: nat)
    requires |g| == 8 && k <= |LENGTHS|
    ensures FirstReading(g, k).None? <==>
              forall i :: k <= i < |LENGTHS| && Counts(g, i) ==> Classify(ReadAt(g, LENGTHS[i])).None?
    decreases |LENGTHS| - k
  {
    if k < |LENGTHS| {
      FirstReadingIsNone(g, k + 1);
      assert Counts(g, k) <==> AllPadding(g) || !Padding(ReadAt(g, LENGTHS[k]));
    }
  }

  lemma PaddingIsUnspecified(v: nat)
    requires Padding(v)
    ensures Classify(v).Some?
  {
  }

  lemma LengthIndex(len: nat) returns (k: nat)
    requires IsLength(len)
    ensures k < |LENGTHS| && LENGTHS[k] == len
  {
    k := if len == 32 then 0 else if len == 40 then 1 else if len == 48 then 2 else if len == 56 then 3
         else if len == 64 then 4 else 5;
  }

  lemma LengthAt(k: nat)
    requires k < |LENGTHS|
    ensures IsLength(LENGTHS[k])
  {
  }

  ghost predicate InWellKnown(g: seq<nat>)
    requires |g| == 8
  {
    g[0] == 0x64 && g[1] == 0xff9b
  }

  ghost predicate SomeDestination(g: seq<nat>)
    requires |g| == 8
  {
    exists len :: IsLength(len) && !Padding(ReadAt(g, len))
  }

  ghost predicate DestinationsPublic(g: seq<nat>)
    requires |g| == 8
  {
    forall len :: IsLength(len) && !Padding(ReadAt(g, len)) ==> Classify(ReadAt(g, len)).None?
  }

  lemma ReadingsPass(g: seq<nat>)
    requires |g| == 8 && FirstReading(g, 0).None?
    ensures SomeDestination(g) && DestinationsPublic(g)
  {
    FirstReadingIsNone(g, 0);
    assert Counts(g, 0) ==> Classify(ReadAt(g, LENGTHS[0])).None?;
    if AllPadding(g) { PaddingIsUnspecified(ReadAt(g, LENGTHS[0])); }
    var k :| 0 <= k < |LENGTHS| && !Padding(ReadAt(g, LENGTHS[k]));
    LengthAt(k);
    forall len | IsLength(len) && !Padding(ReadAt(g, len)) ensures Classify(ReadAt(g, len)).None? {
      var i := LengthIndex(len);
      assert Counts(g, i);
    }
  }

  lemma PassingReadings(g: seq<nat>)
    requires |g| == 8 && SomeDestination(g) && DestinationsPublic(g)
    ensures FirstReading(g, 0).None?
  {
    FirstReadingIsNone(g, 0);
    var len :| IsLength(len) && !Padding(ReadAt(g, len));
    var k := LengthIndex(len);
    forall i | 0 <= i < |LENGTHS| && Counts(g, i) ensures Classify(ReadAt(g, LENGTHS[i])).None? { LengthAt(i); }
  }

  /** No declared prefix covers the address. */
  ghost predicate Uncovered(g: seq<nat>, nat64: Option<Declared>)
    requires |g| == 8
  {
    nat64.Some? ==> |nat64.value.groups| == 8 && IsLength(nat64.value.len)
                    && !InPrefix(g, nat64.value.groups, nat64.value.len)
  }

  lemma UncoveredBranch(g: seq<nat>, nat64: Option<Declared>)
    requires IsAddress(g) && InWellKnown(g) && Uncovered(g, nat64)
    ensures Classify6(g, nat64) == Undeclared(g)
  {
  }

  lemma TailIsZero(g: seq<nat>)
    requires |g| == 8
    ensures g[3] == 0 && g[4] == 0 && g[5] == 0 && g[6] == 0 && g[7] == 0 <==> forall i :: 3 <= i < 8 ==> g[i] == 0
  {
  }

  lemma UndeclaredPasses(g: seq<nat>)
    requires IsAddress(g)
    ensures Undeclared(g).None? <==>
              && FirstReading(g, 0).None? && g[4] / 256 == 0
              && !(g[3] == 0 && g[4] == 0 && g[5] == 0 && g[6] == 0 && g[7] == 0)
  {
  }

  /** An address under 64:ff9b::/32 outside the declared prefix passes exactly when
      its reserved octet is zero, groups 3 to 7 are not all zero, some reading has
      a leading octet, and every reading with one is public; nothing else about
      it matters. */
  lemma UndeclaredIsExact(g: seq<nat>, nat64: Option<Declared>)
    requires IsAddress(g) && InWellKnown(g) && Uncovered(g, nat64)
    ensures Classify6(g, nat64).None? <==>
              && g[4] / 256 == 0
              && (exists i :: 3 <= i < 8 && g[i] != 0)
              && SomeDestination(g) && DestinationsPublic(g)
  {
    UncoveredBranch(g, nat64);
    UndeclaredPasses(g);
    TailIsZero(g);
    if FirstReading(g, 0).None? { ReadingsPass(g); }
    if SomeDestination(g) && DestinationsPublic(g) { PassingReadings(g); }
  }

  /** Whatever the unused bits hold, an address that some length reads as a
      blocked destination with a leading octet is blocked. */
  lemma NoLengthIsSmuggled(g: seq<nat>, nat64: Option<Declared>, len: nat)
    requires IsAddress(g) && InWellKnown(g) && Uncovered(g, nat64) && IsLength(len)
    requires !Padding(ReadAt(g, len)) && Classify(ReadAt(g, len)).Some?
    ensures Classify6(g, nat64).Some?
  {
    UndeclaredIsExact(g, nat64);
  }

  // ---------------------------------------------------------------------
  // Under a declared prefix

  /** Unique or site local, link-local or multicast. */
  ghost predicate Local(first: nat) { 0xfc00 <= first < 0xfe00 || 0xfe80 <= first }

  /** A prefix with no meaning of its own: not below ::/32, 6to4, Teredo, unique or
      site local, link-local or multicast. */
  ghost predicate Plain(prefix: seq<nat>)
    requires |prefix| == 8
  {
    && !Local(prefix[0]) && prefix[0] != 0x2002
    && !(prefix[0] == 0 && prefix[1] == 0) && !(prefix[0] == 0x2001 && prefix[1] == 0)
  }

  /** A public address whose /56 embedding looks like an ISATAP identifier. */
  ghost predicate MimicsIsatap(len: nat, addr: nat) { len == 56 && addr % 16777216 == 0x5efe }

  lemma DeclaredBranch(g: seq<nat>, d: Declared)
    requires IsAddress(g) && IsAddress(d.groups) && IsLength(d.len) && Plain(d.groups)
    requires InPrefix(g, d.groups, d.len)
    ensures Classify6(g, Some(d)) ==
              if Classify(ReadAt(g, d.len)).Some? then Classify(ReadAt(g, d.len))
              else if g[4] / 256 != 0 || SuffixDirty(g, d.len) then Some(Reserved)
              else if g[4] == 0 && g[5] == 0x5efe then Classify(Low(g))
              else None
    ensures Plain(g)
  {
    PrefixByGroups(g, d.groups, d.len);
    assert g[0] == d.groups[0] && g[1] == d.groups[1];
  }

  /** A clean suffix leaves these groups zero. */
  lemma CleanGroups(g: seq<nat>, len: nat)
    requires IsAddress(g) && IsLength(len) && !SuffixDirty(g, len)
    ensures len <= 40 ==> g[5] == 0
    ensures len == 48 ==> g[5] % 256 == 0
    ensures len == 56 ==> Low(g) == 0
  {
    SuffixByGroups(g, len);
  }

  lemma MimicReading(g: seq<nat>)
    requires IsAddress(g) && g[4] / 256 == 0
    ensures MimicsIsatap(56, ReadAt(g, 56)) <==> g[4] == 0 && g[5] == 0x5efe
  {
    assert ReadAt(g, 56) % 16777216 == g[4] * 65536 + g[5];
  }

  /** When a clean address under the declared prefix carries a public IPv4
      address, the ISATAP test bites only on the /56 mimic. */
  lemma IsatapUnderDeclared(g: seq<nat>, len: nat)
    requires IsAddress(g) && IsLength(len) && !SuffixDirty(g, len) && g[4] / 256 == 0
    requires Classify(ReadAt(g, len)).None?
    ensures g[4] == 0 && g[5] == 0x5efe && Classify(Low(g)).Some? <==> MimicsIsatap(len, ReadAt(g, len))
    ensures MimicsIsatap(len, ReadAt(g, len)) ==> Classify(Low(g)) == Some(Unspecified)
  {
    CleanGroups(g, len);
    if len == 56 {
      MimicReading(g);
    } else if len == 64 && g[4] == 0 {
      LeadingZeroIsPadding(g);
    }
  }

  lemma LeadingZeroIsPadding(g: seq<nat>)
    requires IsAddress(g) && g[4] == 0
    ensures Classify(ReadAt(g, 64)).Some?
  {
    assert Padding(ReadAt(g, 64));
    PaddingIsUnspecified(ReadAt(g, 64));
  }

  /** Under a declared prefix an address passes exactly when it is the RFC 6052
      embedding of a public IPv4 address, its reserved octet is zero, and it is
      not the one /56 shape that reads as ISATAP. */
  lemma DeclaredIsExact(g: seq<nat>, d: Declared)
    requires IsAddress(g) && IsAddress(d.groups) && IsLength(d.len) && Plain(d.groups)
    requires InPrefix(g, d.groups, d.len)
    ensures Classify6(g, Some(d)).None? <==>
              exists addr: nat ::
                && addr < SPACE && g == Embed(d.groups, d.len, addr) && g[4] / 256 == 0
                && Classify(addr).None? && !MimicsIsatap(d.len, addr)
  {
    DeclaredBranch(g, d);
    ReadIsLayout(g, d.len);
    EmbeddingIsBijective(d.groups, d.len);
    var read := ReadAt(g, d.len);
    if Classify6(g, Some(d)).None? {
      IsatapUnderDeclared(g, d.len);
      assert g == Embed(d.groups, d.len, read);
    }
    forall addr: nat | addr < SPACE && g == Embed(d.groups, d.len, addr) && g[4] / 256 == 0
                       && Classify(addr).None? && !MimicsIsatap(d.len, addr)
      ensures Classify6(g, Some(d)).None?
    {
      EmbedIsEmbedding(d.groups, d.len, addr);
      EmbeddingIsExact(g, d.groups, d.len, addr);
      IsatapUnderDeclared(g, d.len);
    }
  }

  /** An embedding is classified as the IPv4 address it carries; of the public
      ones, those under a prefix with a reserved octet set and those that mimic
      ISATAP are refused. */
  lemma EmbeddedIsClassifiedAsCarried(d: Declared, addr: nat)
    requires IsAddress(d.groups) && IsLength(d.len) && Plain(d.groups) && addr < SPACE
    ensures var g := Embed(d.groups, d.len, addr);
            Classify6(g, Some(d)) ==
              if Classify(addr).Some? then Classify(addr)
              else if d.len == 96 && d.groups[4] / 256 != 0 then Some(Reserved)
              else if MimicsIsatap(d.len, addr) then Some(Unspecified)
              else None
  {
    var g := Embed(d.groups, d.len, addr);
    EmbedIsAddress(d.groups, d.len, addr);
    EmbedIsEmbedding(d.groups, d.len, addr);
    EmbeddingIsExact(g, d.groups, d.len, addr);
    EmbedBytes(d.groups, d.len, addr, 8);
    assert Byte(g, 8) == g[4] / 256;
    DeclaredBranch(g, d);
    if Classify(addr).None? && g[4] / 256 == 0 { IsatapUnderDeclared(g, d.len); }
  }

  /** 8.0.94.254 is such an address. */
  lemma PublicMimic() returns (addr: nat)
    ensures addr < SPACE && Classify(addr).None? && MimicsIsatap(56, addr)
  {
    addr := 0x08005efe;
  }

  lemma MimicIsEmbedded(prefix: seq<nat>, addr: nat)
    requires IsAddress(prefix) && addr < SPACE && MimicsIsatap(56, addr)
    ensures var g := Embed(prefix, 56, addr);
            && IsAddress(g) && InPrefix(g, prefix, 56) && !SuffixDirty(g, 56) && ReadAt(g, 56) == addr
            && g[4] == 0 && g[5] == 0x5efe && Low(g) == 0
  {
    var g := Embed(prefix, 56, addr);
    EmbedIsAddress(prefix, 56, addr);
    EmbedIsEmbedding(prefix, 56, addr);
    EmbeddingIsExact(g, prefix, 56, addr);
    CleanGroups(g, 56);
    MimicReading(g);
  }

  /** Declaring the exact prefix does not end every refusal of a public
      destination: every /56 refuses the public mimics, as unspecified unless the
      prefix itself means something. */
  lemma DeclaredStillRefusesAPublicAddress(prefix: seq<nat>)
    requires IsAddress(prefix)
    ensures exists addr: nat ::
              && addr < SPACE && Classify(addr).None?
              && var r := Classify6(Embed(prefix, 56, addr), Some(Declared(prefix, 56)));
                 r.Some? && (Plain(prefix) ==> r == Some(Unspecified))
  {
    var addr := PublicMimic();
    MimicIsEmbedded(prefix, addr);
    if Plain(prefix) { EmbeddedIsClassifiedAsCarried(Declared(prefix, 56), addr); }
    MimicIsRefused(Embed(prefix, 56, addr), Declared(prefix, 56));
  }

  lemma MimicIsRefused(g: seq<nat>, d: Declared)
    requires IsAddress(g) && |d.groups| == 8 && d.len == 56 && InPrefix(g, d.groups, 56)
    requires g[4] == 0 && g[5] == 0x5efe && Low(g) == 0
    ensures Classify6(g, Some(d)).Some?
  {
    assert Classify(0) == Some(Unspecified);
    assert Tunnel(g).Some?;
  }

  // ---------------------------------------------------------------------
  // Under a prefix that means something else as well

  /** The mapped and the translated form, which are unwrapped before anything else. */
  ghost predicate Unwrapped(g: seq<nat>)
    requires |g| == 8
  {
    g[0] == 0 && g[1] == 0 && g[2] == 0 && g[3] == 0
    && ((g[4] == 0 && g[5] == 0xffff) || (g[4] == 0xffff && g[5] == 0))
  }

  /** A declaration outside 64:ff9b::/32 only ever adds refusals: an address
      inside passes exactly when it would without the declaration and, unless it
      is an unwrapped form, is the embedding of a public IPv4 address with a zero
      reserved octet. */
  lemma DeclaredElsewhereIsExact(g: seq<nat>, d: Declared)
    requires IsAddress(g) && IsAddress(d.groups) && IsLength(d.len) && InPrefix(g, d.groups, d.len)
    requires !InWellKnown(g)
    ensures Classify6(g, Some(d)).None? <==>
              && Classify6(g, None).None?
              && (Unwrapped(g) || exists addr: nat ::
                    && addr < SPACE && g == Embed(d.groups, d.len, addr) && g[4] / 256 == 0 && Classify(addr).None?)
  {
    if !Unwrapped(g) && Classify6(g, None).None? {
      assert Classify6(g, Some(d)) == Transition(g, Some(d)) && Tunnel(g).None?;
      ReadIsLayout(g, d.len);
      EmbeddingIsBijective(d.groups, d.len);
      if Classify6(g, Some(d)).None? {
        assert g == Embed(d.groups, d.len, ReadAt(g, d.len));
      }
      forall addr: nat | addr < SPACE && g == Embed(d.groups, d.len, addr) && g[4] / 256 == 0 && Classify(addr).None?
        ensures Classify6(g, Some(d)).None?
      {
        EmbedIsEmbedding(d.groups, d.len, addr);
        EmbeddingIsExact(g, d.groups, d.len, addr);
      }
    }
  }

  /** Behind a local, multicast or Teredo prefix no destination passes. */
  lemma LocalPrefixRefusesAll(g: seq<nat>, d: Declared)
    requires IsAddress(g) && IsAddress(d.groups) && IsLength(d.len) && InPrefix(g, d.groups, d.len)
    requires Local(d.groups[0]) || (d.groups[0] == 0x2001 && d.groups[1] == 0)
    ensures Classify6(g, Some(d)).Some?
  {
    PrefixByGroups(g, d.groups, d.len);
    assert g[0] == d.groups[0] && g[1] == d.groups[1];
    if !Local(g[0]) { assert Tunnel(g).Some?; }
  }

  // ---------------------------------------------------------------------
  // The other embedding forms

  ghost predicate Readable(nat64: Option<Declared>)
  {
    nat64.Some? ==> IsAddress(nat64.value.groups) && IsLength(nat64.value.len)
  }

  lemma UnwrappedForm(g: seq<nat>, nat64: Option<Declared>)
    requires IsAddress(g) && Unwrapped(g) && Readable(nat64)
    ensures Classify6(g, nat64) == Classify(Low(g))
  {
  }

  /** What a declaration makes of a compatible form. */
  lemma CompatibleTransition(g: seq<nat>, nat64: Option<Declared>)
    requires IsAddress(g) && ZeroHigh(g) && g[5] == 0 && Readable(nat64) && Classify(Low(g)).None?
    ensures Transition(g, nat64) ==
              if nat64.Some? && nat64.value.len < 96 && InPrefix(g, nat64.value.groups, nat64.value.len)
              then Some(Unspecified)
              else None
  {
    if nat64.Some? && nat64.value.len < 96 { CompatibleReading(g, nat64.value.len); }
  }

  lemma CompatibleReading(g: seq<nat>, len: nat)
    requires IsAddress(g) && ZeroHigh(g) && g[5] == 0 && IsLength(len) && len < 96
    ensures Classify(ReadAt(g, len)) == Some(Unspecified)
  {
    assert Padding(ReadAt(g, len));
  }

  lemma CompatibleForm(g: seq<nat>, nat64: Option<Declared>)
    requires IsAddress(g) && ZeroHigh(g) && g[5] == 0 && Readable(nat64)
    ensures Classify6(g, nat64) ==
              if Low(g) == 1 then Some(Loopback)
              else if Classify(Low(g)).Some? then Classify(Low(g))
              else Transition(g, nat64)
  {
    assert Classify(0) == Some(Unspecified);
  }

  /** The mapped and the translated form classify as the IPv4 address inside,
      whatever is declared. So does the compatible form, apart from `::1`, except
      that a declared prefix of fewer than 96 zero bits refuses every public
      address: it reads one in 0.0.0.0/8. */
  lemma EmbeddedFormsAgree(hi: nat, lo: nat, nat64: Option<Declared>)
    requires hi < 65536 && lo < 65536 && Readable(nat64)
    ensures Classify6([0, 0, 0, 0, 0, 0xffff, hi, lo], nat64) == Classify(hi * 65536 + lo)
    ensures Classify6([0, 0, 0, 0, 0xffff, 0, hi, lo], nat64) == Classify(hi * 65536 + lo)
    ensures var g := [0, 0, 0, 0, 0, 0, hi, lo];
            Classify6(g, nat64) ==
              if hi == 0 && lo == 1 then Some(Loopback)
              else if Classify(hi * 65536 + lo).Some? then Classify(hi * 65536 + lo)
              else if nat64.Some? && nat64.value.len < 96 && InPrefix(g, nat64.value.groups, nat64.value.len)
              then Some(Unspecified)
              else None
  {
    UnwrappedForm([0, 0, 0, 0, 0, 0xffff, hi, lo], nat64);
    UnwrappedForm([0, 0, 0, 0, 0xffff, 0, hi, lo], nat64);
    var g := [0, 0, 0, 0, 0, 0, hi, lo];
    CompatibleForm(g, nat64);
    if Classify(Low(g)).None? { CompatibleTransition(g, nat64); }
  }
}
