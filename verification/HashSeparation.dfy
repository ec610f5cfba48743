/** The 32-bit hash behind rendezvous scores and sticky windows tells apart what differs in
    one code unit: no key and no id is left out of it. */
module HashSeparation {
  import opened Bits
  import opened Text
  import opened Rendezvous
  import Selector

  const PRIME_INVERSE: int := 0x359c449b
  const INVERSE_QUOTIENT: int := 0x359c99

  lemma TimesPrimeInjective(x: nat, y: nat)
    requires y <= x < TWO32
    requires x * FNV32_PRIME % TWO32 == y * FNV32_PRIME % TWO32
    ensures x == y
  {
    var m := x * FNV32_PRIME / TWO32 - y * FNV32_PRIME / TWO32;
    var d := x - y;
    assert d * FNV32_PRIME == m * TWO32;
    assert FNV32_PRIME * PRIME_INVERSE == INVERSE_QUOTIENT * TWO32 + 1;
    var t := m * PRIME_INVERSE - d * INVERSE_QUOTIENT;
    assert d == t * TWO32;
    assert 0 <= d < TWO32;
  }

  lemma XorBelow32(hash: nat, unit: Unit)
    requires hash < TWO32
    ensures Xor(hash, unit) < TWO32
  {
    Pow2ThirtyTwo();
    XorBelow(hash, unit, 32);
  }

  lemma MixBelow(hash: nat, unit: Unit)
    ensures Mix(hash, unit) < TWO32
  {
    hide Xor;
  }

  lemma SameMix(a: nat, u: Unit, b: nat, v: Unit)
    requires a < TWO32 && b < TWO32 && Mix(a, u) == Mix(b, v)
    ensures Xor(a, u) == Xor(b, v)
  {
    XorBelow32(a, u);
    XorBelow32(b, v);
    var x, y := Xor(a, u), Xor(b, v);
    hide Xor;
    if x >= y { TimesPrimeInjective(x, y); } else { TimesPrimeInjective(y, x); }
  }

  lemma {:induction false} XorCommutes(a: nat, b: nat)
    ensures Xor(a, b) == Xor(b, a)
    decreases a + b
  {
    if a != 0 || b != 0 { XorCommutes(a / 2, b / 2); }
  }

  lemma {:induction false} HashAppends(hash: nat, a: Str, b: Str)
    ensures Fnv32(hash, a + b) == Fnv32(Fnv32(hash, a), b)
    decreases |a|
  {
    hide Mix;
    if a == [] {
      assert a + b == b;
    } else {
      assert (a + b)[1..] == a[1..] + b;
      HashAppends(Mix(hash, a[0]), a[1..], b);
    }
  }

  lemma {:induction false} HashBelow(hash: nat, input: Str)
    requires hash < TWO32
    ensures Fnv32(hash, input) < TWO32
    decreases |input|
  {
    if input != [] {
      MixBelow(hash, input[0]);
      HashBelow(Mix(hash, input[0]), input[1..]);
    }
  }

  lemma {:induction false} HashInjective(a: nat, b: nat, input: Str)
    requires a < TWO32 && b < TWO32 && Fnv32(a, input) == Fnv32(b, input)
    ensures a == b
    decreases |input|
  {
    if input != [] {
      var u := input[0];
      MixBelow(a, u);
      MixBelow(b, u);
      HashInjective(Mix(a, u), Mix(b, u), input[1..]);
      SameMix(a, u, b, u);
      XorCommutes(a, u);
      XorCommutes(b, u);
      XorInjective(u, a, b);
    }
  }

  /** Inputs that differ in exactly one code unit never share a hash. */
  lemma HashSeparatesOneUnit(before: Str, u: Unit, v: Unit, after: Str)
    requires u != v
    ensures Fnv32(FNV32_OFFSET, before + [u] + after) != Fnv32(FNV32_OFFSET, before + [v] + after)
  {
    var hash := Fnv32(FNV32_OFFSET, before);
    HashBelow(FNV32_OFFSET, before);
    HashSplits(before, u, after);
    HashSplits(before, v, after);
    MixBelow(hash, u);
    MixBelow(hash, v);
    hide Fnv32, Mix;
    if Fnv32(Mix(hash, u), after) == Fnv32(Mix(hash, v), after) {
      HashInjective(Mix(hash, u), Mix(hash, v), after);
      SameMix(hash, u, hash, v);
      XorInjective(hash, u, v);
    }
  }

  lemma HashSplits(before: Str, u: Unit, after: Str)
    ensures Fnv32(FNV32_OFFSET, before + [u] + after) == Fnv32(Mix(Fnv32(FNV32_OFFSET, before), u), after)
  {
    HashAppends(FNV32_OFFSET, before, [u] + after);
    assert before + [u] + after == before + ([u] + after);
    assert ([u] + after)[1..] == after;
    hide Mix;
  }

  /** Every code unit of the id counts for its score, and every one of the key. */
  lemma ScoreSeparates(key: Str, id: Str, before: Str, u: Unit, v: Unit, after: Str)
    requires u != v
    ensures Score(key, before + [u] + after) != Score(key, before + [v] + after)
    ensures Score(before + [u] + after, id) != Score(before + [v] + after, id)
  {
    HashSeparatesOneUnit(key + [0] + before, u, v, after);
    HashSeparatesOneUnit(before, u, v, after + [0] + id);
    forall x
      ensures key + [0] + (before + [x] + after) == key + [0] + before + [x] + after
      ensures before + [x] + after + [0] + id == before + [x] + (after + [0] + id)
    {
    }
    hide Fnv32;
  }

  /** The start of a sticky window, before it is taken modulo the number of accounts, counts
      every code unit of the affinity and of the provider. */
  lemma StickyHashSeparates(affinity: Str, provider: Str, before: Str, u: Unit, v: Unit, after: Str)
    requires u != v
    ensures Selector.StickyHash(affinity, before + [u] + after) != Selector.StickyHash(affinity, before + [v] + after)
    ensures Selector.StickyHash(before + [u] + after, provider) != Selector.StickyHash(before + [v] + after, provider)
  {
    HashSeparatesOneUnit(affinity + [0x3A] + before, u, v, after);
    HashSeparatesOneUnit(before, u, v, after + [0x3A] + provider);
    forall x
      ensures affinity + [0x3A] + (before + [x] + after) == affinity + [0x3A] + before + [x] + after
      ensures before + [x] + after + [0x3A] + provider == before + [x] + (after + [0x3A] + provider)
    {
    }
    hide Fnv32;
  }
}
