/** CIDR ranges over address values (src/domain/protocols.ts). */
module Cidr {
  import opened Common
  import opened Bits

  datatype Range = Range(lo: nat, hi: nat)

  lemma BlockStart(p: nat, f: nat)
    requires f > 0
    ensures 0 <= p % f <= p && (p - p % f) % f == 0
  {
    assert p == f * (p / f) + p % f;
    QuotientIs(p - p % f, f, p / f, 0);
  }

  /** `ipv6Range`: `prefix & mask` clears the free low bits, `lo | (2^free - 1)` sets them. */
  function Ipv6Range(prefix: nat, bits: nat): Range
    requires bits <= 128
  {
    var free := 128 - bits;
    Pow2Climbs(free, 128);
    var lo := And(prefix, Pow2(128) - Pow2(free));
    Range(lo, Or(lo, Pow2(free) - 1))
  }

  /** On a value of 128 bits the masks give the block of `2^free` addresses it lies in. */
  lemma RangeIsBlock(prefix: nat, bits: nat)
    requires bits <= 128 && prefix < Pow2(128)
    ensures var size := Pow2(128 - bits);
            0 <= prefix % size <= prefix
            && Ipv6Range(prefix, bits) == Range(prefix - prefix % size, prefix - prefix % size + (size - 1))
  {
    hide Pow2, And, Or;
    BlockStart(prefix, Pow2(128 - bits));
    AndHigh(prefix, 128, 128 - bits);
    OrLow(prefix - prefix % Pow2(128 - bits), 128 - bits);
  }

  /** The top `bits` of the 128 bits of `value`. */
  function TopBits(value: nat, bits: nat): int
    requires bits <= 128
  {
    value / Pow2(128 - bits)
  }

  predicate Contains(range: Range, value: nat) {
    range.lo <= value <= range.hi
  }

  lemma DivisionBracket(p: nat, v: nat, f: nat)
    requires f > 0
    ensures p - p % f <= v <= p - p % f + (f - 1) <==> v / f == p / f
  {
    var q, w := p / f, v / f;
    assert p == f * q + p % f && v == f * w + v % f;
    if w < q {
      assert f * w + f <= f * q by { assert f * (w + 1) <= f * q; }
    } else if w > q {
      assert f * q + f <= f * w by { assert f * (q + 1) <= f * w; }
    }
  }

  /** `ipv6Range(p, n)` contains exactly the values whose top n bits are those of p, for
      every p that 32 hexadecimal digits can write. */
  lemma RangeIsTopBits(prefix: nat, bits: nat, value: nat)
    requires bits <= 128 && prefix < Pow2(128)
    ensures Contains(Ipv6Range(prefix, bits), value) <==> TopBits(value, bits) == TopBits(prefix, bits)
  {
    RangeIsBlock(prefix, bits);
    hide Ipv6Range, Pow2;
    DivisionBracket(prefix, value, Pow2(128 - bits));
  }

  datatype Prefix = Prefix(value: nat, bits: nat)

  const UNSAFE_IPV6: seq<Prefix> := [
    Prefix(0, 128),
    Prefix(1, 128),
    Prefix(0, 96),
    Prefix(0xffff_0000_0000, 96),
    Prefix(0x0064_ff9b_0000_0000_0000_0000_0000_0000, 96),
    Prefix(0x0064_ff9b_0001_0000_0000_0000_0000_0000, 48),
    Prefix(0xfc00_0000_0000_0000_0000_0000_0000_0000, 7),
    Prefix(0xfe80_0000_0000_0000_0000_0000_0000_0000, 10),
    Prefix(0xff00_0000_0000_0000_0000_0000_0000_0000, 8),
    Prefix(0x2001_0db8_0000_0000_0000_0000_0000_0000, 32),
    Prefix(0x2001_0010_0000_0000_0000_0000_0000_0000, 28),
    Prefix(0x2001_0002_0000_0000_0000_0000_0000_0000, 48),
    Prefix(0x0100_0000_0000_0000_0000_0000_0000_0000, 64)]

  /** Networks of IPv4 by their comment in the source: value of the first address, bits. */
  const UNSAFE_IPV4: seq<Prefix> := [
    Prefix(0x00000000, 8), Prefix(0x0a000000, 8), Prefix(0x64400000, 10), Prefix(0x7f000000, 8), Prefix(0xa9fe0000, 16),
    Prefix(0xac100000, 12), Prefix(0xc0000000, 24), Prefix(0xc0000200, 24), Prefix(0xc0a80000, 16),
        Prefix(0xc6120000, 15),
    Prefix(0xc6336400, 24), Prefix(0xcb007100, 24), Prefix(0xe0000000, 3)]

  /** `isUnsafeIpv4`, as the source compares. */
  predicate UnsafeIpv4(value: nat) {
    || value < 0x01000000
    || 0x0a000000 <= value < 0x0b000000
    || 0x64400000 <= value < 0x64800000
    || 0x7f000000 <= value < 0x80000000
    || 0xa9fe0000 <= value < 0xa9ff0000
    || 0xac100000 <= value < 0xac200000
    || 0xc0000000 <= value < 0xc0000100
    || 0xc0000200 <= value < 0xc0000300
    || 0xc0a80000 <= value < 0xc0a90000
    || 0xc6120000 <= value < 0xc6140000
    || 0xc6336400 <= value < 0xc6336500
    || 0xcb007100 <= value < 0xcb007200
    || value >= 0xe0000000
  }

  function Embedded(value: nat): Option<nat> {
    if value < 0x1_0000_0000 then Some(value)
    else if value / 0x1_0000_0000 == 0xffff || value / 0x1_0000_0000 == 0x64ff9b then Some(value % 0x1_0000_0000)
    else None
  }

  /** `embeddedIpv4` in the source's own operations: shifting and masking by 32 bits. */
  lemma EmbeddedByMask(value: nat)
    ensures Embedded(value)
            == (if value < Pow2(32) then Some(value)
                else if ShiftRight(value, 32) == 0xffff || ShiftRight(value, 32) == 0x64ff9b then
                  Some(And(value, Pow2(32) - 1))
                else None)
  {
    hide And, ShiftRight, Pow2;
    Pow2ThirtyTwo();
    AndLow(value, 32);
    ShiftRightIsQuotient(value, 32);
  }

  predicate InUnsafeRange(value: nat, count: nat)
    requires count <= |UNSAFE_IPV6|
  {
    exists i :: 0 <= i < count && Contains(Ipv6Range(UNSAFE_IPV6[i].value, UNSAFE_IPV6[i].bits), value)
  }

  /** The loop and the embedded check of `isUnsafeIpv6`. */
  method IsUnsafeIpv6(value: nat) returns (unsafe: bool)
    ensures unsafe <==>
            || InUnsafeRange(value, |UNSAFE_IPV6|)
            || (Embedded(value).Some? && UnsafeIpv4(Embedded(value).value))
  {
    hide Ipv6Range, UnsafeIpv4, Embedded;
    var next := 0;
    while next < |UNSAFE_IPV6|
      invariant 0 <= next <= |UNSAFE_IPV6| && !InUnsafeRange(value, next)
    {
      var range := Ipv6Range(UNSAFE_IPV6[next].value, UNSAFE_IPV6[next].bits);
      if range.lo <= value && value <= range.hi {
        assert Contains(range, value);
        return true;
      }
      next := next + 1;
    }
    var embedded := Embedded(value);
    return embedded.Some? && UnsafeIpv4(embedded.value);
  }

  lemma PrefixesFit(i: nat)
    requires i < |UNSAFE_IPV6|
    ensures UNSAFE_IPV6[i].value < Pow2(128)
  {
    Pow2OneTwentyEight();
    hide Pow2;
  }

  lemma InRangeAt(value: nat, i: nat)
    requires i < |UNSAFE_IPV6|
    requires TopBits(value, UNSAFE_IPV6[i].bits) == TopBits(UNSAFE_IPV6[i].value, UNSAFE_IPV6[i].bits)
    ensures InUnsafeRange(value, |UNSAFE_IPV6|)
  {
    hide Ipv6Range, Pow2, TopBits;
    PrefixesFit(i);
    RangeIsTopBits(UNSAFE_IPV6[i].value, UNSAFE_IPV6[i].bits, value);
  }

  /** The embedded-address check adds to the ranges only values of the form
      ::64:ff9b:a.b.c.d. IPv4-compatible and IPv4-mapped values are in a range already, and
      a value of the NAT64 network 64:ff9b::/96 never reaches the check as one: its upper
      96 bits are not the number the code compares with. */
  lemma EmbeddedCheckAdds(value: nat)
    requires Embedded(value).Some? && value / 0x1_0000_0000 != 0x64ff9b
    ensures InUnsafeRange(value, |UNSAFE_IPV6|)
  {
    Pow2ThirtyTwo();
    hide Pow2, InUnsafeRange, Ipv6Range;
    if value < 0x1_0000_0000 {
      assert UNSAFE_IPV6[2] == Prefix(0, 96);
      assert TopBits(value, 96) == 0 == TopBits(0, 96);
      InRangeAt(value, 2);
    } else {
      assert UNSAFE_IPV6[3] == Prefix(0xffff_0000_0000, 96);
      assert TopBits(0xffff_0000_0000, 96) == 0xffff;
      InRangeAt(value, 3);
    }
  }

  lemma Nat64IsNotEmbedded(value: nat)
    requires TopBits(value, 96) == TopBits(0x0064_ff9b_0000_0000_0000_0000_0000_0000, 96)
    ensures Embedded(value).None? && InUnsafeRange(value, |UNSAFE_IPV6|)
  {
    Pow2ThirtyTwo();
    hide Pow2, InUnsafeRange, Ipv6Range;
    assert UNSAFE_IPV6[4] == Prefix(0x0064_ff9b_0000_0000_0000_0000_0000_0000, 96);
    InRangeAt(value, 4);
    assert TopBits(0x0064_ff9b_0000_0000_0000_0000_0000_0000, 96) == 0x64_ff9b_0000_0000_0000_0000;
  }

  /** `2^(32 - bits)`, the size of an IPv4 network. */
  function NetSize(bits: nat): nat
    requires bits <= 32
  {
    Pow2(32 - bits)
  }

  predicate InNetwork(value: nat, network: Prefix)
    requires network.bits <= 32
  {
    value / NetSize(network.bits) == network.value / NetSize(network.bits)
  }

  lemma NetSizes()
    ensures NetSize(8) == 0x100_0000 && NetSize(10) == 0x40_0000 && NetSize(16) == 0x1_0000 && NetSize(12) == 0x10_0000
    ensures NetSize(24) == 0x100 && NetSize(15) == 0x2_0000 && NetSize(3) == 0x2000_0000
  {
    Pow2Eight();
    Pow2Sixteen();
    Pow2Sum(16, 8);
    Pow2Sum(16, 6);
    Pow2Sum(16, 4);
    Pow2Sum(16, 1);
    Pow2Sum(24, 5);
    assert Pow2(1) == 2 && Pow2(4) == 16 && Pow2(5) == 32 && Pow2(6) == 64;
  }

  /** The comparisons of `isUnsafeIpv4` are exactly the networks its comments name. */
  lemma UnsafeIpv4IsNetworks(value: nat)
    requires value < 0x1_0000_0000
    ensures UnsafeIpv4(value) <==> exists i :: 0 <= i < |UNSAFE_IPV4| && InNetwork(value, UNSAFE_IPV4[i])
  {
    NetSizes();
    hide NetSize;
    if UnsafeIpv4(value) {
      var i := if value < 0x01000000 then 0 else if value < 0x0b000000 then 1 else if value < 0x64800000 then 2
               else if value < 0x80000000 then 3 else if value < 0xa9ff0000 then 4 else if value < 0xac200000 then 5
               else if value < 0xc0000100 then 6 else if value < 0xc0000300 then 7 else if value < 0xc0a90000 then 8
               else if value < 0xc6140000 then 9 else if value < 0xc6336500 then 10 else if value < 0xcb007200 then 11
                 else 12;
      assert InNetwork(value, UNSAFE_IPV4[i]);
    }
  }
}
