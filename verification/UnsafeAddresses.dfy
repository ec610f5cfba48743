/** The address ranges of src/domain/protocols.ts in terms of the eight groups of an address,
    as its comments and the standards name them. */
module UnsafeAddresses {
  import opened Common
  import opened Bits
  import opened Ipv6
  import opened Cidr
  import Ipv6Print

  /** The address begins with these groups. */
  predicate Starts(g: seq<nat>, first: seq<nat>) {
    first <= g
  }

  /** The named networks: IPv4-compatible (with :: and ::1), IPv4-mapped, NAT64 and its local
      use, unique-local, link-local, multicast, documentation, ORCHID, benchmarking and
      discard-only addresses. */
  predicate InNamedNetwork(g: seq<nat>)
    requires |g| == 8
  {
    || Starts(g, [0, 0, 0, 0, 0, 0])
    || Starts(g, [0, 0, 0, 0, 0, 0xffff])
    || Starts(g, [0x64, 0xff9b, 0, 0, 0, 0])
    || Starts(g, [0x64, 0xff9b, 1])
    || 0xfc00 <= g[0] < 0xfe00
    || 0xfe80 <= g[0] < 0xfec0
    || 0xff00 <= g[0]
    || Starts(g, [0x2001, 0x0db8])
    || (g[0] == 0x2001 && 0x0010 <= g[1] < 0x0020)
    || Starts(g, [0x2001, 2, 0])
    || Starts(g, [0x0100, 0, 0, 0])
  }

  lemma DivideOff(x: nat, g: nat, p: nat)
    requires p > 0 && g < 0x1_0000
    ensures (x * 0x1_0000 + g) / (0x1_0000 * p) == x / p
  {
    var q, r := x / p, x % p;
    assert x == p * q + r;
    assert x * 0x1_0000 + g == (0x1_0000 * p) * q + (r * 0x1_0000 + g);
    QuotientIs(x * 0x1_0000 + g, 0x1_0000 * p, q, r * 0x1_0000 + g);
  }

  /** Shifting all but the first k groups out leaves the value of those. */
  lemma {:induction false} FirstGroups(g: seq<nat>, k: nat)
    requires SixteenBits(g) && k <= |g|
    ensures GroupsValue(g) / Pow2(16 * (|g| - k)) == GroupsValue(g[..k])
    decreases |g| - k
  {
    if k == |g| {
      assert g[..k] == g;
    } else {
      var last := |g| - 1;
      var init := g[..last];
      assert init[..k] == g[..k];
      FirstGroups(init, k);
      Pow2Sum(16, 16 * (last - k));
      Pow2Sixteen();
      assert 16 * (|g| - k) == 16 + 16 * (last - k);
      DivideOff(GroupsValue(init), g[last], Pow2(16 * (last - k)));
    }
  }

  lemma DivideTwice(v: nat, p: nat, q: nat)
    requires p > 0 && q > 0
    ensures v / (p * q) == v / p / q
  {
    DivideTwiceOf(v, p, q, v / p, v % p, v / p / q, v / p % q);
  }

  lemma DivideTwiceOf(v: nat, p: nat, q: nat, a: nat, b: nat, c: nat, d: nat)
    requires v == p * a + b && a == q * c + d && b < p && d < q
    ensures v / (p * q) == c
  {
    Regroup(p, q, c, d);
    StaysBelow(p, q, d, b);
    QuotientIs(v, p * q, c, p * d + b);
  }

  lemma Regroup(p: nat, q: nat, c: nat, d: nat)
    ensures p * (q * c + d) == (p * q) * c + p * d
  {
  }

  lemma StaysBelow(p: nat, q: nat, d: nat, b: nat)
    requires b < p && d < q
    ensures p * d + b < p * q
  {
    assert p * q == p * d + p * (q - d);
    ScaleGrows(p, q - d);
  }

  /** The top `16 * k - drop` bits. */
  lemma TopBitsOfGroups(g: seq<nat>, k: nat, drop: nat)
    requires |g| == 8 && SixteenBits(g) && 0 < k <= 8 && drop <= 16
    ensures TopBits(GroupsValue(g), 16 * k - drop) == GroupsValue(g[..k]) / Pow2(drop)
  {
    FirstGroups(g, k);
    Pow2Sum(16 * (8 - k), drop);
    assert 128 - (16 * k - drop) == 16 * (8 - k) + drop;
    hide Pow2, GroupsValue;
    DivideTwice(GroupsValue(g), Pow2(16 * (8 - k)), Pow2(drop));
  }

  lemma ValueOf(g: seq<nat>)
    requires |g| == 8
    ensures GroupsValue(g[..1]) == g[0] && GroupsValue(g[..2]) == g[0] * 0x1_0000 + g[1]
    ensures GroupsValue(g[..3]) == GroupsValue(g[..2]) * 0x1_0000 + g[2]
    ensures GroupsValue(g[..4]) == GroupsValue(g[..3]) * 0x1_0000 + g[3]
    ensures GroupsValue(g[..5]) == GroupsValue(g[..4]) * 0x1_0000 + g[4]
    ensures GroupsValue(g[..6]) == GroupsValue(g[..5]) * 0x1_0000 + g[5]
    ensures GroupsValue(g[..7]) == GroupsValue(g[..6]) * 0x1_0000 + g[6]
    ensures GroupsValue(g) == GroupsValue(g[..7]) * 0x1_0000 + g[7]
  {
    forall k: nat | 0 < k <= 8
      ensures GroupsValue(g[..k]) == GroupsValue(g[..k - 1]) * 0x1_0000 + g[k - 1]
    {
      assert g[..k][..k - 1] == g[..k - 1] && g[..k][k - 1] == g[k - 1];
    }
    assert g[..8] == g && g[..0] == [];
    assert GroupsValue(g[..1]) == GroupsValue(g[..0]) * 0x1_0000 + g[0];
  }

  /** Entry `i` of the table, by the value of its first groups. */
  ghost predicate InEntry(value: nat, i: nat)
    requires i < |UNSAFE_IPV6|
  {
    Contains(Ipv6Range(UNSAFE_IPV6[i].value, UNSAFE_IPV6[i].bits), value)
  }

  lemma EntryIsTopBits(value: nat, i: nat)
    requires i < |UNSAFE_IPV6|
    ensures var entry := UNSAFE_IPV6[i];
            InEntry(value, i) <==> TopBits(value, entry.bits) == TopBits(entry.value, entry.bits)
  {
    hide Ipv6Range, Pow2, TopBits, Contains;
    PrefixesFit(i);
    RangeIsTopBits(UNSAFE_IPV6[i].value, UNSAFE_IPV6[i].bits, value);
  }

  lemma {:induction false} SameFirst(g: seq<nat>, c: seq<nat>, k: nat)
    requires SixteenBits(g) && SixteenBits(c) && k <= |g| && k <= |c|
    ensures GroupsValue(g[..k]) == GroupsValue(c[..k]) <==> forall i :: 0 <= i < k ==> g[i] == c[i]
  {
    if k > 0 {
      SameFirst(g, c, k - 1);
      assert g[..k][..k - 1] == g[..k - 1] && c[..k][..k - 1] == c[..k - 1];
      assert g[..k][k - 1] == g[k - 1] && c[..k][k - 1] == c[k - 1];
      LastDigit(GroupsValue(g[..k - 1]), g[k - 1], GroupsValue(c[..k - 1]), c[k - 1]);
    }
  }

  lemma LastDigit(x: nat, a: nat, y: nat, b: nat)
    requires a < 0x1_0000 && b < 0x1_0000
    ensures x * 0x1_0000 + a == y * 0x1_0000 + b <==> x == y && a == b
  {
  }

  /** The table's entries as groups, in its order. */
  const ENTRIES: seq<seq<nat>> := [
    [0, 0, 0, 0, 0, 0, 0, 0],
    [0, 0, 0, 0, 0, 0, 0, 1],
    [0, 0, 0, 0, 0, 0, 0, 0],
    [0, 0, 0, 0, 0, 0xffff, 0, 0],
    [0x64, 0xff9b, 0, 0, 0, 0, 0, 0],
    [0x64, 0xff9b, 1, 0, 0, 0, 0, 0],
    [0xfc00, 0, 0, 0, 0, 0, 0, 0],
    [0xfe80, 0, 0, 0, 0, 0, 0, 0],
    [0xff00, 0, 0, 0, 0, 0, 0, 0],
    [0x2001, 0x0db8, 0, 0, 0, 0, 0, 0],
    [0x2001, 0x0010, 0, 0, 0, 0, 0, 0],
    [0x2001, 0x0002, 0, 0, 0, 0, 0, 0],
    [0x0100, 0, 0, 0, 0, 0, 0, 0]]

  lemma EntryValue(i: nat)
    requires i < |UNSAFE_IPV6|
    ensures |ENTRIES| == |UNSAFE_IPV6| && |ENTRIES[i]| == 8 && SixteenBits(ENTRIES[i])
    ensures GroupsValue(ENTRIES[i]) == UNSAFE_IPV6[i].value
  {
    ValueOf(ENTRIES[i]);
    hide GroupsValue;
  }

  /** An address is in an entry when its first groups, short of the dropped bits, are. */
  lemma EntryByGroups(g: seq<nat>, i: nat, k: nat, drop: nat)
    requires |g| == 8 && SixteenBits(g) && i < |UNSAFE_IPV6|
    requires 0 < k <= 8 && drop <= 16 && UNSAFE_IPV6[i].bits == 16 * k - drop
    ensures |ENTRIES| == |UNSAFE_IPV6| && |ENTRIES[i]| == 8
    ensures InEntry(GroupsValue(g), i)
            <==> GroupsValue(g[..k]) / Pow2(drop) == GroupsValue(ENTRIES[i][..k]) / Pow2(drop)
  {
    hide GroupsValue, Pow2, TopBits, InEntry;
    EntryValue(i);
    EntryIsTopBits(GroupsValue(g), i);
    TopBitsOfGroups(g, k, drop);
    TopBitsOfGroups(ENTRIES[i], k, drop);
  }

  /** The same for an entry of whole groups. */
  lemma WholeEntry(g: seq<nat>, i: nat, first: seq<nat>)
    requires |g| == 8 && SixteenBits(g) && i < |UNSAFE_IPV6| && |UNSAFE_IPV6| == |ENTRIES|
    requires 0 < |first| <= 8 && UNSAFE_IPV6[i].bits == 16 * |first| && first <= ENTRIES[i]
    ensures InEntry(GroupsValue(g), i) <==> Starts(g, first)
  {
    assert Pow2(0) == 1;
    hide GroupsValue, Pow2, InEntry;
    var k := |first|;
    EntryByGroups(g, i, k, 0);
    EntryValue(i);
    SameFirst(g, ENTRIES[i], k);
    assert forall j :: 0 <= j < k ==> first[j] == ENTRIES[i][j];
    assert Starts(g, first) <==> forall j :: 0 <= j < k ==> g[j] == first[j];
  }

  lemma SameQuotient(x: nat, c: nat, q: nat, size: nat)
    requires size > 0 && c == size * q
    ensures x / size == c / size <==> c <= x < c + size
  {
    QuotientIs(c, size, q, 0);
    var r := x % size;
    assert x == size * (x / size) + r;
    if c <= x < c + size { QuotientIs(x, size, q, x - c); }
  }

  /** And for one that ends within its first group. */
  lemma SplitFirst(g: seq<nat>, i: nat, drop: nat, q: nat)
    requires |g| == 8 && SixteenBits(g) && i < |UNSAFE_IPV6| && |UNSAFE_IPV6| == |ENTRIES| && |ENTRIES[i]| == 8
    requires drop <= 16 && UNSAFE_IPV6[i].bits == 16 - drop && ENTRIES[i][0] == Pow2(drop) * q
    ensures InEntry(GroupsValue(g), i) <==> ENTRIES[i][0] <= g[0] < ENTRIES[i][0] + Pow2(drop)
  {
    EntryByGroups(g, i, 1, drop);
    FirstTwo(g);
    FirstTwo(ENTRIES[i]);
    hide GroupsValue, Pow2, InEntry;
    SameQuotient(g[0], ENTRIES[i][0], q, Pow2(drop));
  }

  /** Or within its second. */
  lemma SplitSecond(g: seq<nat>, i: nat, drop: nat, q: nat, value: nat, entry: nat)
    requires |g| == 8 && SixteenBits(g) && i < |UNSAFE_IPV6| && |UNSAFE_IPV6| == |ENTRIES| && |ENTRIES[i]| == 8
    requires drop <= 16 && UNSAFE_IPV6[i].bits == 32 - drop && entry == Pow2(drop) * q
    requires value == GroupsValue(g[..2]) && entry == GroupsValue(ENTRIES[i][..2])
    ensures InEntry(GroupsValue(g), i) <==> entry <= value < entry + Pow2(drop)
  {
    hide GroupsValue, Pow2, InEntry;
    EntryByGroups(g, i, 2, drop);
    SameQuotient(value, entry, q, Pow2(drop));
  }

  lemma FirstTwo(g: seq<nat>)
    requires |g| == 8
    ensures GroupsValue(g[..1]) == g[0] && GroupsValue(g[..2]) == g[0] * 0x1_0000 + g[1]
  {
    ValueOf(g);
    hide GroupsValue;
  }

  lemma FirstFive(g: seq<nat>)
    requires |g| == 8 && SixteenBits(g)
    ensures InEntry(GroupsValue(g), 2) <==> Starts(g, [0, 0, 0, 0, 0, 0])
    ensures InEntry(GroupsValue(g), 0) || InEntry(GroupsValue(g), 1) ==> Starts(g, [0, 0, 0, 0, 0, 0])
    ensures InEntry(GroupsValue(g), 3) <==> Starts(g, [0, 0, 0, 0, 0, 0xffff])
    ensures InEntry(GroupsValue(g), 4) <==> Starts(g, [0x64, 0xff9b, 0, 0, 0, 0])
  {
    hide InEntry, GroupsValue, SixteenBits;
    WholeEntry(g, 0, [0, 0, 0, 0, 0, 0, 0, 0]);
    WholeEntry(g, 1, [0, 0, 0, 0, 0, 0, 0, 1]);
    WholeEntry(g, 2, [0, 0, 0, 0, 0, 0]);
    WholeEntry(g, 3, [0, 0, 0, 0, 0, 0xffff]);
    WholeEntry(g, 4, [0x64, 0xff9b, 0, 0, 0, 0]);
    assert [0, 0, 0, 0, 0, 0] <= [0, 0, 0, 0, 0, 0, 0, 0] && [0, 0, 0, 0, 0, 0] <= [0, 0, 0, 0, 0, 0, 0, 1];
  }

  lemma LastFour(g: seq<nat>)
    requires |g| == 8 && SixteenBits(g)
    ensures InEntry(GroupsValue(g), 5) <==> Starts(g, [0x64, 0xff9b, 1])
    ensures InEntry(GroupsValue(g), 9) <==> Starts(g, [0x2001, 0x0db8])
    ensures InEntry(GroupsValue(g), 11) <==> Starts(g, [0x2001, 2, 0])
    ensures InEntry(GroupsValue(g), 12) <==> Starts(g, [0x0100, 0, 0, 0])
  {
    hide InEntry, GroupsValue, SixteenBits;
    WholeEntry(g, 5, [0x64, 0xff9b, 1]);
    WholeEntry(g, 9, [0x2001, 0x0db8]);
    WholeEntry(g, 11, [0x2001, 2, 0]);
    WholeEntry(g, 12, [0x0100, 0, 0, 0]);
  }

  lemma SplitEntries(g: seq<nat>)
    requires |g| == 8 && SixteenBits(g)
    ensures InEntry(GroupsValue(g), 6) <==> 0xfc00 <= g[0] < 0xfe00
    ensures InEntry(GroupsValue(g), 7) <==> 0xfe80 <= g[0] < 0xfec0
    ensures InEntry(GroupsValue(g), 8) <==> 0xff00 <= g[0]
  {
    SmallPowers();
    hide InEntry, GroupsValue, Pow2;
    SplitFirst(g, 6, 9, 0x7e);
    SplitFirst(g, 7, 6, 0x3fa);
    SplitFirst(g, 8, 8, 0xff);
    assert g[0] < 0x1_0000;
  }

  lemma OrchidEntry(g: seq<nat>)
    requires |g| == 8 && SixteenBits(g)
    ensures InEntry(GroupsValue(g), 10) <==> g[0] == 0x2001 && 0x0010 <= g[1] < 0x0020
  {
    SmallPowers();
    hide InEntry, GroupsValue, Pow2;
    FirstTwo(g);
    FirstTwo(ENTRIES[10]);
    SplitSecond(g, 10, 4, 0x200_1001, g[0] * 0x1_0000 + g[1], 0x2001_0010);
    assert g[1] < 0x1_0000;
  }

  lemma SmallPowers()
    ensures Pow2(4) == 16 && Pow2(6) == 64 && Pow2(8) == 256 && Pow2(9) == 512
  {
    Pow2Eight();
    assert Pow2(4) == 16 && Pow2(6) == 64;
  }

  /** The table holds exactly the addresses of the named networks. */
  lemma RangesAreNamedNetworks(g: seq<nat>)
    requires |g| == 8 && SixteenBits(g)
    ensures InUnsafeRange(GroupsValue(g), |UNSAFE_IPV6|) <==> InNamedNetwork(g)
  {
    FirstFive(g);
    LastFour(g);
    SplitEntries(g);
    OrchidEntry(g);
    EntriesInTurn(GroupsValue(g));
    hide InEntry, GroupsValue, InUnsafeRange, Starts;
  }

  /** The thirteen entries one by one. */
  lemma EntriesInTurn(value: nat)
    ensures |UNSAFE_IPV6| == 13
    ensures InUnsafeRange(value, |UNSAFE_IPV6|) <==>
            || InEntry(value, 0) || InEntry(value, 1) || InEntry(value, 2) || InEntry(value, 3) || InEntry(value, 4)
            || InEntry(value, 5) || InEntry(value, 6) || InEntry(value, 7) || InEntry(value, 8) || InEntry(value, 9)
            || InEntry(value, 10) || InEntry(value, 11) || InEntry(value, 12)
  {
    RangeHasEntry(value);
    hide InEntry, InUnsafeRange;
  }

  lemma RangeHasEntry(value: nat)
    ensures InUnsafeRange(value, |UNSAFE_IPV6|) <==> exists i :: 0 <= i < |UNSAFE_IPV6| && InEntry(value, i)
  {
    hide Ipv6Range, Contains;
    if InUnsafeRange(value, |UNSAFE_IPV6|) {
      var i :| 0 <= i < |UNSAFE_IPV6| && Contains(Ipv6Range(UNSAFE_IPV6[i].value, UNSAFE_IPV6[i].bits), value);
      assert InEntry(value, i);
    }
  }
}
