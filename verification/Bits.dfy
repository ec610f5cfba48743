/** Bitwise operations on natural numbers, and powers of two. */
module Bits {

  function Xor(a: nat, b: nat): nat
    decreases a + b
  {
    if a == 0 && b == 0 then 0 else 2 * Xor(a / 2, b / 2) + (if a % 2 == b % 2 then 0 else 1)
  }

  function Pow2(n: nat): (p: nat)
    ensures p > 0
  {
    if n == 0 then 1 else 2 * Pow2(n - 1)
  }

  lemma XorDigit(a: nat, i: nat, b: nat, j: nat)
    requires i < 2 && j < 2
    ensures Xor(2 * a + i, 2 * b + j) == 2 * Xor(a, b) + (if i == j then 0 else 1)
  {
    var x, y := 2 * a + i, 2 * b + j;
    assert x / 2 == a && x % 2 == i && y / 2 == b && y % 2 == j;
    if x == 0 && y == 0 { assert Xor(0, 0) == 0; }
  }

  lemma XorParity(a: nat, b: nat)
    ensures Xor(a, b) % 2 == (a + b) % 2
  {
    var x, y, i, j := a / 2, b / 2, a % 2, b % 2;
    assert a == 2 * x + i && b == 2 * y + j;
    XorDigit(x, i, y, j);
    hide Xor;
    DigitParity(Xor(x, y), x, i, y, j);
    assert Xor(a, b) % 2 == (a + b) % 2;
  }

  lemma DigitParity(p: nat, x: nat, i: nat, y: nat, j: nat)
    requires i < 2 && j < 2
    ensures (2 * p + (if i == j then 0 else 1)) % 2 == (2 * x + i + (2 * y + j)) % 2
  {
  }

  lemma {:induction false} XorBelow(a: nat, b: nat, n: nat)
    requires a < Pow2(n) && b < Pow2(n)
    ensures Xor(a, b) < Pow2(n)
  {
    if n > 0 { XorBelow(a / 2, b / 2, n - 1); }
  }

  lemma SameDigits(p: nat, q: nat, i: nat, j: nat, k: nat)
    requires i < 2 && j < 2 && k < 2
    requires 2 * p + (if i == j then 0 else 1) == 2 * q + (if i == k then 0 else 1)
    ensures j == k && p == q
  {
  }

  lemma {:induction false} XorInjective(a: nat, b: nat, c: nat)
    requires Xor(a, b) == Xor(a, c)
    ensures b == c
    decreases a + b + c
  {
    if a > 0 || b > 0 || c > 0 {
      var x, y, z := a / 2, b / 2, c / 2;
      var i, j, k := a % 2, b % 2, c % 2;
      assert a == 2 * x + i && b == 2 * y + j && c == 2 * z + k;
      hide Xor;
      XorDigit(x, i, y, j);
      XorDigit(x, i, z, k);
      SameDigits(Xor(x, y), Xor(x, z), i, j, k);
      XorInjective(x, y, z);
    }
  }

  function Shift(a: nat, n: nat): nat {
    if n == 0 then a else 2 * Shift(a, n - 1)
  }

  lemma TwiceTimes(p: nat, q: nat)
    ensures (2 * p) * q == 2 * (p * q) && q * (2 * p) == 2 * (q * p)
  {
  }

  lemma {:induction false} ShiftIsTimes(a: nat, n: nat)
    ensures Shift(a, n) == a * Pow2(n)
  {
    if n > 0 {
      ShiftIsTimes(a, n - 1);
      TwiceTimes(Pow2(n - 1), a);
      assert Pow2(n) == 2 * Pow2(n - 1);
      hide Pow2;
    }
  }

  lemma XorLowDigit(h: nat, x: nat, i: nat, y: nat, j: nat)
    requires i < 2 && j < 2 && Xor(h + x, y) == h + Xor(x, y)
    ensures Xor(2 * h + (2 * x + i), 2 * y + j) == 2 * h + Xor(2 * x + i, 2 * y + j)
  {
    XorDigit(h + x, i, y, j);
    XorDigit(x, i, y, j);
    hide Xor;
    assert 2 * h + (2 * x + i) == 2 * (h + x) + i;
  }

  /** Exclusive or with fewer than `2^n` only touches the low n bits. */
  lemma {:induction false} XorLow(high: nat, low: nat, b: nat, n: nat)
    requires low < Pow2(n) && b < Pow2(n)
    ensures Xor(Shift(high, n) + low, b) == Shift(high, n) + Xor(low, b)
    decreases n
  {
    if n == 0 {
      XorZero(high);
    } else {
      var h := Shift(high, n - 1);
      var x, y, i, j := low / 2, b / 2, low % 2, b % 2;
      assert low == 2 * x + i && b == 2 * y + j && x < Pow2(n - 1) && y < Pow2(n - 1);
      hide Xor;
      XorLow(high, x, y, n - 1);
      hide Pow2;
      XorLowDigit(h, x, i, y, j);
      assert Shift(high, n) == 2 * h;
      hide Shift;
    }
  }

  lemma {:induction false} XorZero(a: nat)
    ensures Xor(a, 0) == a
  {
    if a > 0 { XorZero(a / 2); }
  }

  lemma Pow2Eight()
    ensures Pow2(8) == 0x100
  {
    assert Pow2(2) == 4 && Pow2(4) == 16 && Pow2(6) == 64;
  }

  lemma Pow2Sixteen()
    ensures Pow2(16) == 0x1_0000
  {
    Pow2Eight();
    Pow2Sum(8, 8);
  }

  lemma Pow2ThirtyTwo()
    ensures Pow2(32) == 0x1_0000_0000
  {
    Pow2Sixteen();
    Pow2Sum(16, 16);
  }

  lemma Pow2SixtyFour()
    ensures Pow2(64) == 0x1_0000_0000_0000_0000
  {
    Pow2ThirtyTwo();
    Pow2Sum(32, 32);
  }

  lemma {:induction false} Pow2Sum(m: nat, n: nat)
    ensures Pow2(m + n) == Pow2(m) * Pow2(n)
  {
    if m > 0 {
      Pow2Sum(m - 1, n);
      var p, q := Pow2(m - 1), Pow2(n);
      assert Pow2(m) == 2 * p && Pow2(m + n) == 2 * Pow2(m - 1 + n);
      hide Pow2;
      TwiceTimes(p, q);
    }
  }

  lemma Pow2OneTwentyEight()
    ensures Pow2(128) == 0x1_0000_0000_0000_0000_0000_0000_0000_0000
  {
    Pow2SixtyFour();
    Pow2Sum(64, 64);
  }

  lemma {:induction false} Pow2Climbs(a: nat, b: nat)
    requires a <= b
    ensures Pow2(a) <= Pow2(b)
  {
    if a < b { Pow2Climbs(a, b - 1); }
  }

  // ------------------------------------------------------------ masks

  function And(a: nat, b: nat): nat
    decreases a + b
  {
    if a == 0 && b == 0 then 0 else 2 * And(a / 2, b / 2) + (if a % 2 == 1 && b % 2 == 1 then 1 else 0)
  }

  function Or(a: nat, b: nat): nat
    decreases a + b
  {
    if a == 0 && b == 0 then 0 else 2 * Or(a / 2, b / 2) + (if a % 2 == 1 || b % 2 == 1 then 1 else 0)
  }

  lemma AndDigit(a: nat, i: nat, b: nat, j: nat)
    requires i < 2 && j < 2
    ensures And(2 * a + i, 2 * b + j) == 2 * And(a, b) + i * j
  {
    var x, y := 2 * a + i, 2 * b + j;
    assert x / 2 == a && x % 2 == i && y / 2 == b && y % 2 == j;
    if x == 0 && y == 0 { assert And(0, 0) == 0; }
  }

  lemma OrDigit(a: nat, i: nat, b: nat, j: nat)
    requires i < 2 && j < 2
    ensures Or(2 * a + i, 2 * b + j) == 2 * Or(a, b) + (if i == 1 || j == 1 then 1 else 0)
  {
    var x, y := 2 * a + i, 2 * b + j;
    assert x / 2 == a && x % 2 == i && y / 2 == b && y % 2 == j;
    if x == 0 && y == 0 { assert Or(0, 0) == 0; }
  }

  lemma RemainderDigit(x: nat, i: nat, p: nat)
    requires i < 2 && p > 0
    ensures (2 * x + i) % (2 * p) == 2 * (x % p) + i && (2 * x + i) / (2 * p) == x / p
  {
    var q, r := x / p, x % p;
    assert x == p * q + r;
    assert 2 * x + i == (2 * p) * q + (2 * r + i) by { assert (2 * p) * q == 2 * (p * q); }
    QuotientIs(2 * x + i, 2 * p, q, 2 * r + i);
  }

  lemma ScaleGrows(n: int, d: int)
    requires n >= 0
    ensures d >= 1 ==> n * d >= n
    ensures d <= 0 ==> n * d <= 0
    ensures d <= -1 ==> n * d <= -n
  {
    if d >= 1 {
      assert n * d == n + n * (d - 1);
    } else if d <= -1 {
      assert n * d == -n - n * (-d - 1);
    }
  }

  lemma QuotientIs(x: nat, p: nat, q: int, r: nat)
    requires p > 0 && x == p * q + r && r < p
    ensures x / p == q && x % p == r
  {
    var d := x / p - q;
    assert p * d == p * (x / p) - p * q;
    ScaleGrows(p, d);
  }

  lemma AndLowStep(x: nat, i: nat, p: nat)
    requires i < 2 && p > 0 && And(x, p - 1) == x % p
    ensures And(2 * x + i, 2 * p - 1) == (2 * x + i) % (2 * p)
  {
    AndDigit(x, i, p - 1, 1);
    RemainderDigit(x, i, p);
    hide And;
    assert 2 * p - 1 == 2 * (p - 1) + 1;
  }

  /** `v & (2^n - 1)` is the remainder. */
  lemma {:induction false} AndLow(v: nat, n: nat)
    ensures And(v, Pow2(n) - 1) == v % Pow2(n)
  {
    hide And;
    if n == 0 {
      AndZero(v);
    } else {
      AndLow(v / 2, n - 1);
      AndLowStep(v / 2, v % 2, Pow2(n - 1));
    }
  }

  lemma {:induction false} AndZero(v: nat)
    ensures And(v, 0) == 0
  {
    if v > 0 { AndZero(v / 2); }
  }

  lemma AndHighStep(x: nat, i: nat, w: nat, p: nat)
    requires i < 2 && 0 < p <= w && And(x, w - p) == x - x % p
    ensures And(2 * x + i, 2 * w - 2 * p) == 2 * x + i - (2 * x + i) % (2 * p)
  {
    AndDigit(x, i, w - p, 0);
    RemainderDigit(x, i, p);
    hide And;
    assert 2 * w - 2 * p == 2 * (w - p) + 0;
  }

  lemma AndAll(v: nat, width: nat)
    requires v < Pow2(width)
    ensures And(v, Pow2(width) - 1) == v
  {
    hide And, Pow2;
    AndLow(v, width);
    BelowIsItself(v, Pow2(width));
  }

  lemma BelowIsItself(v: nat, p: nat)
    requires v < p
    ensures v % p == v
  {
  }

  /** Clearing the low `free` of `width` bits. */
  lemma {:induction false} AndHigh(v: nat, width: nat, free: nat)
    requires free <= width && v < Pow2(width)
    ensures Pow2(free) <= Pow2(width) && And(v, Pow2(width) - Pow2(free)) == v - v % Pow2(free)
  {
    hide And;
    Pow2Climbs(free, width);
    if free == 0 {
      AndAll(v, width);
      assert Pow2(free) == 1;
    } else {
      AndHigh(v / 2, width - 1, free - 1);
      AndHighStep(v / 2, v % 2, Pow2(width - 1), Pow2(free - 1));
    }
  }

  lemma {:induction false} OrZero(v: nat)
    ensures Or(v, 0) == v
  {
    if v > 0 { OrZero(v / 2); }
  }

  /** Setting the low `free` bits where they are clear. */
  lemma {:induction false} OrLow(v: nat, free: nat)
    requires v % Pow2(free) == 0
    ensures Or(v, Pow2(free) - 1) == v + (Pow2(free) - 1)
  {
    if free == 0 {
      OrZero(v);
    } else {
      var x, i, p := v / 2, v % 2, Pow2(free - 1);
      hide Or;
      RemainderDigit(x, i, p);
      assert v == 2 * x + i && i == 0 && x % p == 0;
      OrLow(x, free - 1);
      OrDigit(x, 0, p - 1, 1);
      assert Pow2(free) - 1 == 2 * (p - 1) + 1;
      hide Pow2;
    }
  }

  /** Or-ing the n bits that a shift to the left made free is adding. */
  lemma {:induction false} OrJoins(high: nat, low: nat, n: nat)
    requires low < Pow2(n)
    ensures Or(Shift(high, n), low) == Shift(high, n) + low
  {
    hide Or;
    if n == 0 {
      OrZero(high);
    } else {
      var h, x, i := Shift(high, n - 1), low / 2, low % 2;
      OrJoins(high, x, n - 1);
      OrDigit(h, 0, x, i);
      assert low == 2 * x + i;
    }
  }

  function ShiftRight(a: nat, n: nat): nat {
    if n == 0 then a else ShiftRight(a / 2, n - 1)
  }

  lemma HalfQuotient(a: nat, p: nat)
    requires p > 0
    ensures a / 2 / p == a / (2 * p)
  {
    RemainderDigit(a / 2, a % 2, p);
  }

  lemma {:induction false} ShiftRightIsQuotient(a: nat, n: nat)
    ensures ShiftRight(a, n) == a / Pow2(n)
  {
    if n > 0 {
      ShiftRightIsQuotient(a / 2, n - 1);
      HalfQuotient(a, Pow2(n - 1));
    }
  }
}
