/** IPv6 addresses that no declared prefix covers, classified by a table of native
    blocks and by the IPv4 addresses they carry. */
module AddressTable {
  import opened Options
  import opened Ipv4
  import opened Ipv6Proofs
  import opened Nat64
  import opened Addresses

  /** The groups as one number, the most significant first. */
  function Number(g: seq<nat>): nat
  {
    if g == [] then 0 else Number(g[..|g| - 1]) * 65536 + g[|g| - 1]
  }

  /** `size` addresses from `base` on. */
  datatype Block6 = Block6(base: nat, size: nat, reason: Reason)

  /** The native blocks, most specific first. */
  const NATIVE: seq<Block6> := [
    Block6(0x00000000000000000000000000000000, 1, Unspecified),                                // ::/128
    Block6(0x00000000000000000000000000000001, 1, Loopback),                                   // ::1/128
    Block6(0xFD000EC2000000000000000000000254, 1, Metadata),                                   // fd00:ec2::254/128
    Block6(0xFC000000000000000000000000000000, 0x02000000000000000000000000000000, Ula),       // fc00::/7
    Block6(0xFE800000000000000000000000000000, 0x00400000000000000000000000000000, LinkLocal), // fe80::/10
    Block6(0xFEC00000000000000000000000000000, 0x00400000000000000000000000000000, Ula),       // fec0::/10
    Block6(0xFF000000000000000000000000000000, 0x01000000000000000000000000000000, Multicast), // ff00::/8
    Block6(0x20010000000000000000000000000000, 0x00000001000000000000000000000000, Reserved)]  // 2001::/32

  predicate InBlock6(b: Block6, g: seq<nat>) { b.base <= Number(g) < b.base + b.size }

  /** The reason of the first native block, from the `k`th on, that holds the address. */
  function NativeFrom(k: nat, g: seq<nat>): Option<Reason>
    decreases |NATIVE| - k
  {
    if k >= |NATIVE| then None
    else if InBlock6(NATIVE[k], g) then Some(NATIVE[k].reason)
    else NativeFrom(k + 1, g)
  }

  function Native(g: seq<nat>): Option<Reason> { NativeFrom(0, g) }

  /** The ways to carry an IPv4 address outside 64:ff9b::/32. */
  datatype Form = Mapped | Compatible | Translated | SixToFour | Isatap

  predicate HasForm(g: seq<nat>, form: Form)
    requires |g| == 8
  {
    match form
    case Mapped => g[..6] == [0, 0, 0, 0, 0, 0xffff]
    case Compatible => g[..6] == [0, 0, 0, 0, 0, 0]
    case Translated => g[..6] == [0, 0, 0, 0, 0xffff, 0]
    case SixToFour => g[0] == 0x2002
    case Isatap => g[4..6] == [0, 0x5efe] || g[4..6] == [0x200, 0x5efe]
  }

  /** The address carried: in groups 1 and 2 of 6to4, otherwise in the last two. */
  function CarriedBy(g: seq<nat>, form: Form): nat
    requires |g| == 8
  {
    if form == SixToFour then g[1] * 65536 + g[2] else g[6] * 65536 + g[7]
  }

  ghost predicate CarriesPublic(g: seq<nat>)
    requires |g| == 8
  {
    forall form :: HasForm(g, form) ==> Classify(CarriedBy(g, form)).None?
  }

  /** What lets an address under 64:ff9b::/32 pass. */
  ghost predicate PassesWellKnown(g: seq<nat>)
    requires |g| == 8
  {
    g[4] / 256 == 0 && (exists i :: 3 <= i < 8 && g[i] != 0) && SomeDestination(g) && DestinationsPublic(g)
  }

  // ---------------------------------------------------------------------
  // The blocks as group tests

  lemma NumberOfEight(g: seq<nat>)
    requires IsAddress(g)
    ensures Number(g) == g[0] * 0x10000000000000000000000000000 + g[1] * 0x1000000000000000000000000
                         + g[2] * 0x100000000000000000000 + g[3] * 0x10000000000000000
                         + g[4] * 0x1000000000000 + g[5] * 0x100000000 + g[6] * 0x10000 + g[7]
  {
    NumberOfFour(g);
    var a, b, c, d := g[..5], g[..6], g[..7], g[..4];
    assert g[..7][..6] == b && b[..5] == a && a[..4] == d;
    assert Number(a) == Number(d) * 65536 + g[4];
    assert Number(b) == Number(a) * 65536 + g[5];
    assert Number(c) == Number(b) * 65536 + g[6];
    assert Number(g) == Number(c) * 65536 + g[7];
  }

  lemma NumberOfFour(g: seq<nat>)
    requires |g| == 8
    ensures Number(g[..4]) == g[0] * 0x1000000000000 + g[1] * 0x100000000 + g[2] * 0x10000 + g[3]
  {
    var a, b, c, d := g[..1], g[..2], g[..3], g[..4];
    assert d[..3] == c && c[..2] == b && b[..1] == a && a[..0] == [];
    assert Number(a) == g[0];
    assert Number(b) == Number(a) * 65536 + g[1];
    assert Number(c) == Number(b) * 65536 + g[2];
    assert Number(d) == Number(c) * 65536 + g[3];
  }

  /** The group test of each block, in the order of the table. */
  predicate GroupTest(k: nat, g: seq<nat>)
    requires |g| == 8
  {
    match k
    case 0 => g == [0, 0, 0, 0, 0, 0, 0, 0]
    case 1 => g == [0, 0, 0, 0, 0, 0, 0, 1]
    case 2 => g == [0xfd00, 0x0ec2, 0, 0, 0, 0, 0, 0x0254]
    case 3 => 0xfc00 <= g[0] < 0xfe00
    case 4 => 0xfe80 <= g[0] < 0xfec0
    case 5 => 0xfec0 <= g[0] < 0xff00
    case 6 => 0xff00 <= g[0]
    case _ => g[0] == 0x2001 && g[1] == 0
  }

  lemma WideBlocks(k: nat, g: seq<nat>)
    requires IsAddress(g) && 3 <= k < |NATIVE|
    ensures InBlock6(NATIVE[k], g) <==> GroupTest(k, g)
  {
    NumberOfEight(g);
  }

  lemma {:induction false} NumberIsRead(g: seq<nat>, h: seq<nat>)
    requires |g| == |h| && (forall i :: 0 <= i < |g| ==> g[i] < 65536 && h[i] < 65536) && Number(g) == Number(h)
    ensures g == h
    decreases |g|
  {
    if g != [] {
      var n := |g| - 1;
      assert g[n] == h[n] && Number(g[..n]) == Number(h[..n]);
      NumberIsRead(g[..n], h[..n]);
      assert g == g[..n] + [g[n]] && h == h[..n] + [h[n]];
    }
  }

  lemma SingleBlocks(k: nat, g: seq<nat>)
    requires IsAddress(g) && k < 3
    ensures InBlock6(NATIVE[k], g) <==> GroupTest(k, g)
  {
    var h := if k == 0 then [0, 0, 0, 0, 0, 0, 0, 0] else if k == 1 then [0, 0, 0, 0, 0, 0, 0, 1]
             else [0xfd00, 0x0ec2, 0, 0, 0, 0, 0, 0x0254];
    NumberOfEight(h);
    if Number(g) == Number(h) { NumberIsRead(g, h); }
  }

  lemma BlockIsGroupTest(k: nat, g: seq<nat>)
    requires IsAddress(g) && k < |NATIVE|
    ensures InBlock6(NATIVE[k], g) <==> GroupTest(k, g)
  {
    if k < 3 { SingleBlocks(k, g); } else { WideBlocks(k, g); }
  }

  lemma NativeSkips(k: nat, g: seq<nat>)
    requires IsAddress(g) && k + 1 < |NATIVE|
    ensures NativeFrom(k, g) ==
              if GroupTest(k, g) then Some(NATIVE[k].reason)
              else if GroupTest(k + 1, g) then Some(NATIVE[k + 1].reason)
              else NativeFrom(k + 2, g)
  {
    BlockIsGroupTest(k, g);
    BlockIsGroupTest(k + 1, g);
    assert NativeFrom(k + 1, g) ==
             if InBlock6(NATIVE[k + 1], g) then Some(NATIVE[k + 1].reason) else NativeFrom(k + 2, g);
  }

  /** What the blocks come to, group by group. */
  function ByGroups(g: seq<nat>): Option<Reason>
    requires |g| == 8
  {
    if GroupTest(0, g) then Some(Unspecified)
    else if GroupTest(1, g) then Some(Loopback)
    else if GroupTest(2, g) then Some(Metadata)
    else if GroupTest(3, g) then Some(Ula)
    else if GroupTest(4, g) then Some(LinkLocal)
    else if GroupTest(5, g) then Some(Ula)
    else if GroupTest(6, g) then Some(Multicast)
    else if GroupTest(7, g) then Some(Reserved)
    else None
  }

  lemma NativeIsByGroups(g: seq<nat>)
    requires IsAddress(g)
    ensures Native(g) == ByGroups(g)
  {
    NativeSkips(0, g);
    NativeSkips(2, g);
    NativeSkips(4, g);
    NativeSkips(6, g);
  }

  // ---------------------------------------------------------------------
  // The classifier, range by range and form by form

  lemma NativeReason(g: seq<nat>)
    requires IsAddress(g) && ByGroups(g).Some?
    ensures Classify6(g, None) == ByGroups(g)
  {
    assert Classify(0) == Some(Unspecified);
  }

  lemma UnwrappedReason(g: seq<nat>)
    requires IsAddress(g) && ByGroups(g).None?
    requires HasForm(g, Mapped) || HasForm(g, Compatible) || HasForm(g, Translated)
    ensures Classify6(g, None) == Classify(CarriedBy(g, Mapped))
  {
    var high := g[..6];
    assert g[0] == high[0] && g[1] == high[1] && g[2] == high[2] && g[3] == high[3] && g[4] == high[4] && g[5] == high[5];
    if Low(g) <= 1 {
      assert g[6] == 0;
      assert g == [0, 0, 0, 0, g[4], g[5], 0, g[7]];
    }
  }

  /** No native block and no unwrapped form. */
  ghost predicate Plainly(g: seq<nat>)
    requires |g| == 8
  {
    ByGroups(g).None? && !HasForm(g, Mapped) && !HasForm(g, Compatible) && !HasForm(g, Translated)
  }

  lemma FormByGroups(g: seq<nat>)
    requires |g| == 8
    ensures HasForm(g, Mapped) <==> ZeroHigh(g) && g[5] == 0xffff
    ensures HasForm(g, Compatible) <==> ZeroHigh(g) && g[5] == 0
    ensures HasForm(g, Translated) <==> g[0] == 0 && g[1] == 0 && g[2] == 0 && g[3] == 0 && g[4] == 0xffff && g[5] == 0
    ensures HasForm(g, Isatap) <==> g[4] in {0, 0x200} && g[5] == 0x5efe
  {
    var high := g[..6];
    assert g[0] == high[0] && g[1] == high[1] && g[2] == high[2] && g[3] == high[3] && g[4] == high[4] && g[5] == high[5];
    var id := g[4..6];
    assert g[4] == id[0] && g[5] == id[1];
  }

  lemma PlainIsTunnel(g: seq<nat>)
    requires IsAddress(g) && Plainly(g)
    ensures Classify6(g, None) == if InWellKnown(g) then Undeclared(g) else Tunnel(g)
  {
    FormByGroups(g);
  }

  /** 6to4 first; a public one leaves the ISATAP identifier to be looked at. */
  lemma TunnelReason(g: seq<nat>)
    requires IsAddress(g) && Plainly(g) && !InWellKnown(g)
    ensures var six, isatap := Classify(CarriedBy(g, SixToFour)), Classify(CarriedBy(g, Isatap));
            Classify6(g, None) ==
              if HasForm(g, SixToFour) && six.Some? then six
              else if HasForm(g, Isatap) then isatap
              else None
  {
    FormByGroups(g);
    PlainIsTunnel(g);
  }

  // ---------------------------------------------------------------------
  // Main results

  /** Outside every declared prefix an address passes exactly when it is in no
      native block and, under 64:ff9b::/32, passes the translation rules, or
      elsewhere carries only public IPv4 addresses. */
  lemma PassesExactly(g: seq<nat>)
    requires IsAddress(g)
    ensures Classify6(g, None).None? <==>
              Native(g).None? && if InWellKnown(g) then PassesWellKnown(g) else CarriesPublic(g)
  {
    NativeIsByGroups(g);
    FormByGroups(g);
    if ByGroups(g).Some? {
      NativeReason(g);
    } else if InWellKnown(g) {
      UndeclaredIsExact(g, None);
    } else if !Plainly(g) {
      UnwrappedReason(g);
      OnlyUnwrapped(g);
    } else {
      TunnelReason(g);
      assert HasForm(g, SixToFour) && CarriesPublic(g) ==> Classify(CarriedBy(g, SixToFour)).None?;
      assert HasForm(g, Isatap) && CarriesPublic(g) ==> Classify(CarriedBy(g, Isatap)).None?;
    }
  }

  /** An unwrapped form carries one address and no other. */
  lemma OnlyUnwrapped(g: seq<nat>)
    requires |g| == 8 && (HasForm(g, Mapped) || HasForm(g, Compatible) || HasForm(g, Translated))
    ensures CarriesPublic(g) <==> Classify(CarriedBy(g, Mapped)).None?
  {
    FormByGroups(g);
    assert !HasForm(g, SixToFour) && !HasForm(g, Isatap);
    forall form | HasForm(g, form) ensures CarriedBy(g, form) == CarriedBy(g, Mapped) {}
  }

  /** The reason: that of the most specific native block; otherwise that of the
      address an unwrapped form carries; otherwise that of a 6to4 address, and
      failing that of an ISATAP one. */
  lemma ReasonExactly(g: seq<nat>)
    requires IsAddress(g)
    ensures Native(g).Some? ==> Classify6(g, None) == Native(g)
    ensures Native(g).None? && (HasForm(g, Mapped) || HasForm(g, Compatible) || HasForm(g, Translated)) ==>
              Classify6(g, None) == Classify(CarriedBy(g, Mapped))
    ensures Native(g).None? && HasForm(g, SixToFour) && Classify(CarriedBy(g, SixToFour)).Some? ==>
              Classify6(g, None) == Classify(CarriedBy(g, SixToFour))
    ensures Native(g).None? && HasForm(g, Isatap) && !InWellKnown(g)
            && (HasForm(g, SixToFour) ==> Classify(CarriedBy(g, SixToFour)).None?) ==>
              Classify6(g, None) == Classify(CarriedBy(g, Isatap))
  {
    NativeIsByGroups(g);
    FormByGroups(g);
    if ByGroups(g).Some? {
      NativeReason(g);
    } else if !Plainly(g) {
      UnwrappedReason(g);
    } else if !InWellKnown(g) {
      TunnelReason(g);
    }
  }

  lemma {:induction false} FirstReadingIs(g: seq<nat>, k: nat, i: nat)
    requires |g| == 8 && k <= i < |LENGTHS| && Counts(g, i) && Classify(ReadAt(g, LENGTHS[i])).Some?
    requires forall j :: k <= j < i && Counts(g, j) ==> Classify(ReadAt(g, LENGTHS[j])).None?
    ensures FirstReading(g, k) == Classify(ReadAt(g, LENGTHS[i]))
    decreases i - k
  {
    assert Counts(g, k) <==> AllPadding(g) || !Padding(ReadAt(g, LENGTHS[k]));
    if k < i { FirstReadingIs(g, k + 1, i); }
  }

  /** Under 64:ff9b::/32 the reason is that of the shortest length whose reading
      counts and is blocked; failing that the address is unspecified when groups 3
      to 7 are zero, and reserved when the reserved octet is not. */
  lemma WellKnownReason(g: seq<nat>, i: nat)
    requires IsAddress(g) && InWellKnown(g)
    ensures i < |LENGTHS| && Counts(g, i) && Classify(ReadAt(g, LENGTHS[i])).Some?
            && (forall j :: 0 <= j < i && Counts(g, j) ==> Classify(ReadAt(g, LENGTHS[j])).None?) ==>
              Classify6(g, None) == Classify(ReadAt(g, LENGTHS[i]))
    ensures (forall j :: 0 <= j < |LENGTHS| && Counts(g, j) ==> Classify(ReadAt(g, LENGTHS[j])).None?) ==>
              Classify6(g, None) == if forall k :: 3 <= k < 8 ==> g[k] == 0 then Some(Unspecified)
                                    else if g[4] / 256 != 0 then Some(Reserved) else None
  {
    UncoveredBranch(g, None);
    TailIsZero(g);
    if i < |LENGTHS| && Counts(g, i) && Classify(ReadAt(g, LENGTHS[i])).Some?
       && forall j :: 0 <= j < i && Counts(g, j) ==> Classify(ReadAt(g, LENGTHS[j])).None? {
      FirstReadingIs(g, 0, i);
    }
    FirstReadingIsNone(g, 0);
  }

  /** A declaration that does not cover the address changes nothing. */
  lemma UncoveredIsUndeclared(g: seq<nat>, nat64: Option<Declared>)
    requires IsAddress(g) && Uncovered(g, nat64)
    ensures Classify6(g, nat64) == Classify6(g, None)
  {
  }
}
