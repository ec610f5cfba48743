/** The 64-bit FNV-1a digest of src/domain/cache.ts: two rounds per code unit, low byte
    first, printed as sixteen hexadecimal digits. */
module Digest {
  import opened Bits
  import opened Text

  const FNV64_OFFSET: nat := 0xcbf29ce484222325
  const FNV64_PRIME: nat := 0x100000001b3
  const TWO64: nat := 0x1_0000_0000_0000_0000

  function Mix(hash: nat, byte: nat): nat {
    Xor(hash, byte) * FNV64_PRIME % TWO64
  }

  function MixUnit(hash: nat, unit: Unit): nat {
    Mix(Mix(hash, unit % 0x100), unit / 0x100)
  }

  function Fnv64(hash: nat, input: Str): nat
    decreases |input|
  {
    if input == [] then hash else Fnv64(MixUnit(hash, input[0]), input[1..])
  }

  const MASK64: nat := 0xffff_ffff_ffff_ffff

  lemma MaskIsRemainder(v: nat)
    ensures And(v, MASK64) == v % TWO64
  {
    Pow2SixtyFour();
    AndLow(v, 64);
  }

  /** The two rounds of one code unit, with the masks and the shift of the source. */
  lemma RoundsAreMix(hash: nat, code: Unit)
    ensures var first := And(Xor(hash, And(code, 0xff)) * FNV64_PRIME, MASK64);
            And(Xor(first, ShiftRight(code, 8)) * FNV64_PRIME, MASK64) == MixUnit(hash, code)
  {
    hide And, Xor, ShiftRight, Pow2;
    Pow2Eight();
    AndLow(code, 8);
    ShiftRightIsQuotient(code, 8);
    var first := Mix(hash, code % 0x100);
    MaskIsRemainder(Xor(hash, code % 0x100) * FNV64_PRIME);
    MaskIsRemainder(Xor(first, code / 0x100) * FNV64_PRIME);
  }

  /** The loop of `fnv1a64`. */
  method Fnv1a64(input: Str) returns (digest: Str)
    ensures digest == Hex16(Fnv64(FNV64_OFFSET, input))
  {
    var hash: nat := FNV64_OFFSET;
    var i := 0;
    while i < |input|
      invariant 0 <= i <= |input|
      invariant Fnv64(hash, input[i..]) == Fnv64(FNV64_OFFSET, input)
    {
      assert input[i..][1..] == input[i + 1..];
      var code := input[i];
      RoundsAreMix(hash, code);
      hide Mix, Xor, And, ShiftRight;
      hash := Xor(hash, And(code, 0xff));
      hash := And(hash * FNV64_PRIME, MASK64);
      hash := Xor(hash, ShiftRight(code, 8));
      hash := And(hash * FNV64_PRIME, MASK64);
      i := i + 1;
    }
    return Hex16(hash);
  }

  // ------------------------------------------------------------ one round loses nothing

  /** The inverse of the prime modulo 2^64, and the quotient of their product. */
  const PRIME_INVERSE: int := 0xce965057aff6957b
  const INVERSE_QUOTIENT: int := 0xce9650590f

  lemma TimesPrimeInjective(x: nat, y: nat)
    requires y <= x < TWO64
    requires x * FNV64_PRIME % TWO64 == y * FNV64_PRIME % TWO64
    ensures x == y
  {
    var m := x * FNV64_PRIME / TWO64 - y * FNV64_PRIME / TWO64;
    var d := x - y;
    assert d * FNV64_PRIME == m * TWO64;
    assert FNV64_PRIME * PRIME_INVERSE == INVERSE_QUOTIENT * TWO64 + 1;
    var t := m * PRIME_INVERSE - d * INVERSE_QUOTIENT;
    assert d == t * TWO64;
    assert 0 <= d < TWO64;
  }

  lemma XorCommutes(a: nat, b: nat)
    ensures Xor(a, b) == Xor(b, a)
    decreases a + b
  {
    if a != 0 || b != 0 { XorCommutes(a / 2, b / 2); }
  }

  lemma XorBelow64(hash: nat, byte: nat)
    requires hash < TWO64 && byte < 0x100
    ensures Xor(hash, byte) < TWO64
  {
    Pow2SixtyFour();
    XorBelow(hash, byte, 64);
  }

  lemma MixInjective(a: nat, b: nat, byte: nat)
    requires a < TWO64 && b < TWO64 && byte < 0x100 && Mix(a, byte) == Mix(b, byte)
    ensures a == b
  {
    var x, y := Xor(a, byte), Xor(b, byte);
    XorBelow64(a, byte);
    XorBelow64(b, byte);
    if x >= y { TimesPrimeInjective(x, y); } else { TimesPrimeInjective(y, x); }
    XorCommutes(a, byte);
    XorCommutes(b, byte);
    XorInjective(byte, a, b);
  }

  lemma XorKeepsHigh(hash: nat, byte: nat)
    requires byte < 0x100
    ensures Xor(hash, byte) / 0x100 == hash / 0x100
  {
    Pow2Eight();
    var high, low := hash / 0x100, hash % 0x100;
    XorLow(high, low, byte, 8);
    ShiftIsTimes(high, 8);
    XorBelow(low, byte, 8);
    assert hash == high * 0x100 + low;
  }

  /** From one state, different bytes in the first round cannot be repaired by any choice
      of bytes in the second. */
  lemma FirstByteMatters(hash: nat, a: nat, b: nat, c: nat, d: nat)
    requires hash < TWO64 && a < 0x100 && b < 0x100 && c < 0x100 && d < 0x100
    requires Xor(Mix(hash, a), c) == Xor(Mix(hash, b), d)
    ensures Xor(hash, a) == Xor(hash, b)
  {
    var x, y := Xor(hash, a), Xor(hash, b);
    XorKeepsHigh(hash, a);
    XorKeepsHigh(hash, b);
    var p, q := Mix(hash, a), Mix(hash, b);
    XorKeepsHigh(p, c);
    XorKeepsHigh(q, d);
    hide Xor;
    assert p / 0x100 == q / 0x100;
    ShortDifference(x, y, p, q);
  }

  lemma ShortDifference(x: nat, y: nat, p: nat, q: nat)
    requires x / 0x100 == y / 0x100 && p / 0x100 == q / 0x100
    requires p == x * FNV64_PRIME % TWO64 && q == y * FNV64_PRIME % TWO64
    ensures x == y
  {
    var d, e := x - y, p - q;
    var m := x * FNV64_PRIME / TWO64 - y * FNV64_PRIME / TWO64;
    assert -0x100 < d < 0x100 && -0x100 < e < 0x100;
    assert d * FNV64_PRIME - e == m * TWO64;
    assert m == 0;
  }

  lemma MixBelow(hash: nat, byte: nat)
    ensures Mix(hash, byte) < TWO64
  {
  }

  lemma UnitsDiffer(hash: nat, u: Unit, v: Unit)
    requires hash < TWO64 && u != v
    ensures MixUnit(hash, u) != MixUnit(hash, v)
  {
    assert u == 0x100 * (u / 0x100) + u % 0x100 && v == 0x100 * (v / 0x100) + v % 0x100;
    if MixUnit(hash, u) == MixUnit(hash, v) {
      var p, q := Mix(hash, u % 0x100), Mix(hash, v % 0x100);
      MixBelow(hash, u % 0x100);
      MixBelow(hash, v % 0x100);
      MixCollision(p, u / 0x100, q, v / 0x100);
      FirstByteMatters(hash, u % 0x100, v % 0x100, u / 0x100, v / 0x100);
      XorInjective(hash, u % 0x100, v % 0x100);
      XorInjective(p, u / 0x100, v / 0x100);
    }
  }

  lemma MixCollision(p: nat, a: nat, q: nat, b: nat)
    requires p < TWO64 && q < TWO64 && a < 0x100 && b < 0x100 && Mix(p, a) == Mix(q, b)
    ensures Xor(p, a) == Xor(q, b)
  {
    XorBelow64(p, a);
    XorBelow64(q, b);
    if Xor(p, a) >= Xor(q, b) {
      TimesPrimeInjective(Xor(p, a), Xor(q, b));
    } else {
      TimesPrimeInjective(Xor(q, b), Xor(p, a));
    }
  }

  lemma MixUnitInjective(a: nat, b: nat, unit: Unit)
    requires a < TWO64 && b < TWO64 && MixUnit(a, unit) == MixUnit(b, unit)
    ensures a == b
  {
    MixBelow(a, unit % 0x100);
    MixBelow(b, unit % 0x100);
    MixInjective(Mix(a, unit % 0x100), Mix(b, unit % 0x100), unit / 0x100);
    MixInjective(a, b, unit % 0x100);
  }

  lemma {:induction false} Fnv64Below(hash: nat, input: Str)
    requires hash < TWO64
    ensures Fnv64(hash, input) < TWO64
    decreases |input|
  {
    if input != [] {
      MixBelow(Mix(hash, input[0] % 0x100), input[0] / 0x100);
      Fnv64Below(MixUnit(hash, input[0]), input[1..]);
    }
  }

  lemma {:induction false} Fnv64Append(hash: nat, a: Str, b: Str)
    ensures Fnv64(hash, a + b) == Fnv64(Fnv64(hash, a), b)
    decreases |a|
  {
    hide MixUnit;
    if a == [] {
      assert a + b == b;
    } else {
      assert (a + b)[1..] == a[1..] + b;
      Fnv64Append(MixUnit(hash, a[0]), a[1..], b);
    }
  }

  lemma {:induction false} Fnv64Injective(a: nat, b: nat, input: Str)
    requires a < TWO64 && b < TWO64 && Fnv64(a, input) == Fnv64(b, input)
    ensures a == b
    decreases |input|
  {
    if input != [] {
      MixBelow(Mix(a, input[0] % 0x100), input[0] / 0x100);
      MixBelow(Mix(b, input[0] % 0x100), input[0] / 0x100);
      Fnv64Injective(MixUnit(a, input[0]), MixUnit(b, input[0]), input[1..]);
      MixUnitInjective(a, b, input[0]);
    }
  }

  // ------------------------------------------------------------ hexadecimal

  const HEX_DIGITS: Str := [
    0x30, 0x31, 0x32, 0x33, 0x34, 0x35, 0x36, 0x37, 0x38, 0x39, 0x61, 0x62, 0x63, 0x64, 0x65, 0x66]

  /** `hash.toString(16)`. */
  function ToString16(n: nat): Str {
    if n < 16 then [HEX_DIGITS[n]] else ToString16(n / 16) + [HEX_DIGITS[n % 16]]
  }

  /** `padStart(width, "0")`. */
  function PadStart(s: Str, width: nat): Str
    decreases width - |s|
  {
    if |s| >= width then s else PadStart([HEX_DIGITS[0]] + s, width)
  }

  function Hex16(n: nat): Str {
    PadStart(ToString16(n), 16)
  }

  function DigitValue(unit: Unit): int {
    if 0x30 <= unit <= 0x39 then unit - 0x30 else if 0x61 <= unit <= 0x66 then unit - 0x61 + 10 else 0
  }

  function HexValue(s: Str): int {
    if s == [] then 0 else HexValue(s[..|s| - 1]) * 16 + DigitValue(s[|s| - 1])
  }

  ghost predicate AllHex(s: Str) {
    forall i :: 0 <= i < |s| ==> s[i] in HEX_DIGITS
  }

  lemma DigitReads(d: nat)
    requires d < 16
    ensures DigitValue(HEX_DIGITS[d]) == d && HEX_DIGITS[d] in HEX_DIGITS
  {
  }

  lemma {:induction false} ToString16Reads(n: nat, width: nat)
    requires width > 0 && n < Pow2(4 * width)
    ensures HexValue(ToString16(n)) == n && AllHex(ToString16(n)) && |ToString16(n)| <= width
  {
    if n < 16 {
      DigitReads(n);
      assert ToString16(n)[..0] == [];
    } else {
      assert Pow2(4 * width) == 16 * Pow2(4 * (width - 1)) by {
        assert Pow2(4) == 16;
        Pow2Sum(4, 4 * (width - 1));
      }
      if width == 1 { assert Pow2(0) == 1; }
      ToString16Reads(n / 16, width - 1);
      DigitReads(n % 16);
      var s := ToString16(n);
      assert s[..|s| - 1] == ToString16(n / 16);
    }
  }

  lemma {:induction false} LeadingZero(s: Str)
    ensures HexValue([HEX_DIGITS[0]] + s) == HexValue(s)
  {
    var z := [HEX_DIGITS[0]] + s;
    if s == [] {
      assert z[..0] == [];
      DigitReads(0);
    } else {
      LeadingZero(s[..|s| - 1]);
      assert z[..|z| - 1] == [HEX_DIGITS[0]] + s[..|s| - 1];
    }
  }

  lemma {:induction false} PadReads(s: Str, width: nat)
    requires AllHex(s) && |s| <= width
    ensures |PadStart(s, width)| == width && AllHex(PadStart(s, width)) && HexValue(PadStart(s, width)) == HexValue(s)
    decreases width - |s|
  {
    if |s| < width {
      LeadingZero(s);
      DigitReads(0);
      PadReads([HEX_DIGITS[0]] + s, width);
    }
  }

  /** A digest prints as exactly sixteen hexadecimal digits that read back as its value. */
  lemma HexRoundTrip(n: nat)
    requires n < TWO64
    ensures |Hex16(n)| == 16 && AllHex(Hex16(n)) && HexValue(Hex16(n)) == n
  {
    Pow2SixtyFour();
    ToString16Reads(n, 16);
    PadReads(ToString16(n), 16);
  }

  /** The digest has sixteen hexadecimal digits, and two inputs of equal length that differ
      in exactly one code unit never share it. */
  lemma DigestSeparatesOneUnit(before: Str, u: Unit, v: Unit, after: Str)
    requires u != v
    ensures |Hex16(Fnv64(FNV64_OFFSET, before + [u] + after))| == 16
    ensures Hex16(Fnv64(FNV64_OFFSET, before + [u] + after)) != Hex16(Fnv64(FNV64_OFFSET, before + [v] + after))
  {
    var hash := Fnv64(FNV64_OFFSET, before);
    Fnv64Below(FNV64_OFFSET, before);
    OneUnit(hash, u);
    OneUnit(hash, v);
    Fnv64Append(FNV64_OFFSET, before, [u]);
    Fnv64Append(FNV64_OFFSET, before, [v]);
    Fnv64Append(FNV64_OFFSET, before + [u], after);
    Fnv64Append(FNV64_OFFSET, before + [v], after);
    UnitsDiffer(hash, u, v);
    Fnv64Below(hash, [u]);
    Fnv64Below(hash, [v]);
    Fnv64Below(MixUnit(hash, u), after);
    Fnv64Below(MixUnit(hash, v), after);
    hide MixUnit, Hex16, Fnv64;
    if Fnv64(MixUnit(hash, u), after) == Fnv64(MixUnit(hash, v), after) {
      Fnv64Injective(MixUnit(hash, u), MixUnit(hash, v), after);
    }
    HexRoundTrip(Fnv64(MixUnit(hash, u), after));
    HexRoundTrip(Fnv64(MixUnit(hash, v), after));
  }

  lemma OneUnit(hash: nat, unit: Unit)
    ensures Fnv64(hash, [unit]) == MixUnit(hash, unit)
  {
    assert [unit][1..] == [];
  }
}
