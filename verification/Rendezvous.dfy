/** Deterministic rendezvous ordering (src/domain/routing.ts). */
module Rendezvous {
  import opened Bits
  import opened Text

  const FNV32_OFFSET: nat := 0x811c9dc5
  const FNV32_PRIME: nat := 0x01000193
  const TWO32: nat := 0x1_0000_0000

  /** One round: `hash ^= unit; hash = Math.imul(hash, prime)`, read as an unsigned word. */
  function Mix(hash: nat, unit: Unit): nat {
    Xor(hash, unit) * FNV32_PRIME % TWO32
  }

  /** FNV-1a over code units. */
  function Fnv32(hash: nat, input: Str): nat
    decreases |input|
  {
    if input == [] then hash else Fnv32(Mix(hash, input[0]), input[1..])
  }

  function Score(key: Str, id: Str): nat {
    Fnv32(FNV32_OFFSET, key + [0] + id)
  }

  method RendezvousScore(key: Str, id: Str) returns (score: nat)
    ensures score == Score(key, id) && score < TWO32
  {
    var hash: nat := FNV32_OFFSET;
    var input := key + [0] + id;
    var index := 0;
    while index < |input|
      invariant 0 <= index <= |input| && hash < TWO32
      invariant Fnv32(hash, input[index..]) == Fnv32(FNV32_OFFSET, input)
    {
      assert input[index..][1..] == input[index + 1..];
      hash := Mix(hash, input[index]);
      index := index + 1;
    }
    return hash;
  }

  /** Higher score first, then smaller id. */
  predicate Before(key: Str, a: Str, b: Str) {
    Score(key, a) > Score(key, b) || (Score(key, a) == Score(key, b) && Less(a, b))
  }

  lemma BeforeIsTotal(key: Str, a: Str, b: Str)
    ensures a == b || Before(key, a, b) || Before(key, b, a)
    ensures !(Before(key, a, b) && Before(key, b, a)) && !Before(key, a, a)
  {
    LessIsTotal(a, b);
    LessIsIrreflexive(a);
  }

  lemma BeforeIsTransitive(key: Str, a: Str, b: Str, c: Str)
    requires !Before(key, b, a) && !Before(key, c, b)
    ensures !Before(key, c, a)
  {
    LessIsTotal(a, b);
    LessIsTotal(b, c);
    LessIsTotal(a, c);
    if Less(c, a) && Less(a, b) { LessIsTransitive(c, a, b); }
    if Less(b, c) && Less(c, a) { LessIsTransitive(b, c, a); }
  }

  /** `[...items].sort(...)`: the built-in sort is stable, so it is this insertion sort. */
  function OrderBy<T>(key: Str, items: seq<T>, idOf: T -> Str): seq<T> {
    if items == [] then [] else Insert(key, items[0], OrderBy(key, items[1..], idOf), idOf)
  }

  function Insert<T>(key: Str, item: T, sorted: seq<T>, idOf: T -> Str): seq<T> {
    if sorted == [] || !Before(key, idOf(sorted[0]), idOf(item)) then [item] + sorted
    else [sorted[0]] + Insert(key, item, sorted[1..], idOf)
  }

  ghost predicate Sorted<T>(key: Str, items: seq<T>, idOf: T -> Str) {
    forall i, j :: 0 <= i < j < |items| ==> !Before(key, idOf(items[j]), idOf(items[i]))
  }

  ghost predicate DistinctIds<T>(items: seq<T>, idOf: T -> Str) {
    forall i, j :: 0 <= i < j < |items| ==> idOf(items[i]) != idOf(items[j])
  }

  lemma {:induction false} InsertSorts<T>(key: Str, item: T, sorted: seq<T>, idOf: T -> Str)
    requires Sorted(key, sorted, idOf)
    ensures Sorted(key, Insert(key, item, sorted, idOf), idOf)
    ensures multiset(Insert(key, item, sorted, idOf)) == multiset(sorted) + multiset{item}
  {
    hide Before;
    var out := Insert(key, item, sorted, idOf);
    if sorted == [] {
    } else if !Before(key, idOf(sorted[0]), idOf(item)) {
      forall j | 0 <= j < |sorted|
        ensures !Before(key, idOf(sorted[j]), idOf(item))
      {
        if j > 0 { BeforeIsTransitive(key, idOf(item), idOf(sorted[0]), idOf(sorted[j])); }
      }
    } else {
      var rest := Insert(key, item, sorted[1..], idOf);
      InsertSorts(key, item, sorted[1..], idOf);
      assert sorted == [sorted[0]] + sorted[1..];
      forall j | 0 <= j < |rest|
        ensures !Before(key, idOf(rest[j]), idOf(sorted[0]))
      {
        assert rest[j] in multiset(rest);
        BeforeIsTotal(key, idOf(item), idOf(sorted[0]));
        if rest[j] != item {
          assert rest[j] in multiset(sorted[1..]);
          var k :| 0 <= k < |sorted[1..]| && sorted[1..][k] == rest[j];
          assert sorted[k + 1] == rest[j];
        }
      }
    }
  }

  /** The order is a permutation of the items, sorted by score and then id. */
  lemma {:induction false} OrderBySorts<T>(key: Str, items: seq<T>, idOf: T -> Str)
    ensures multiset(OrderBy(key, items, idOf)) == multiset(items)
    ensures Sorted(key, OrderBy(key, items, idOf), idOf)
  {
    if items != [] {
      OrderBySorts(key, items[1..], idOf);
      InsertSorts(key, items[0], OrderBy(key, items[1..], idOf), idOf);
      assert items == [items[0]] + items[1..];
    }
  }

  lemma TwiceInBag<T>(b: seq<T>, i: nat, j: nat)
    requires i < j < |b| && b[i] == b[j]
    ensures multiset(b)[b[i]] >= 2
  {
    assert b == b[..i] + [b[i]] + (b[i + 1..j] + [b[j]] + b[j + 1..]);
    assert b[j] in b[i + 1..j] + [b[j]] + b[j + 1..];
  }

  lemma DistinctPermutes<T>(a: seq<T>, b: seq<T>, idOf: T -> Str)
    requires multiset(a) == multiset(b) && DistinctIds(a, idOf)
    ensures DistinctIds(b, idOf)
  {
    forall i, j | 0 <= i < j < |b|
      ensures idOf(b[i]) != idOf(b[j])
    {
      if b[i] == b[j] {
        TwiceInBag(b, i, j);
        OnceOnly(a, b[i], idOf);
      } else {
        assert b[i] in multiset(b) && b[j] in multiset(b);
        assert b[i] in multiset(a) && b[j] in multiset(a);
        var p :| 0 <= p < |a| && a[p] == b[i];
        var q :| 0 <= q < |a| && a[q] == b[j];
      }
    }
  }

  lemma {:induction false} OnceOnly<T>(a: seq<T>, x: T, idOf: T -> Str)
    requires DistinctIds(a, idOf)
    ensures multiset(a)[x] <= 1
  {
    if a != [] {
      OnceOnly(a[1..], x, idOf);
      assert a == [a[0]] + a[1..];
      assert forall k :: 0 <= k < |a[1..]| ==> a[1..][k] == a[k + 1];
      assert a[0] == x ==> x !in a[1..];
    }
  }

  lemma TailsAgree<T>(key: Str, a: seq<T>, b: seq<T>, idOf: T -> Str)
    requires multiset(a) == multiset(b) && a != [] && b != [] && a[0] == b[0]
    requires DistinctIds(a, idOf) && Sorted(key, a, idOf) && Sorted(key, b, idOf)
    ensures multiset(a[1..]) == multiset(b[1..]) && DistinctIds(a[1..], idOf)
    ensures Sorted(key, a[1..], idOf) && Sorted(key, b[1..], idOf)
  {
    hide Before;
    assert DistinctIds(a[1..], idOf) && Sorted(key, a[1..], idOf) && Sorted(key, b[1..], idOf);
    hide DistinctIds, Sorted;
    TailBag(a);
    TailBag(b);
  }

  lemma TailBag<T>(a: seq<T>)
    requires a != []
    ensures multiset(a[1..]) == multiset(a) - multiset{a[0]}
  {
    assert a == [a[0]] + a[1..];
  }

  lemma {:induction false} SortedIsUnique<T>(key: Str, a: seq<T>, b: seq<T>, idOf: T -> Str)
    requires multiset(a) == multiset(b) && DistinctIds(a, idOf)
    requires Sorted(key, a, idOf) && Sorted(key, b, idOf)
    ensures a == b
  {
    assert |multiset(a)| == |a| && |multiset(b)| == |b|;
    if a != [] {
      HeadsAgree(key, a, b, idOf);
      TailsAgree(key, a, b, idOf);
      hide Sorted, DistinctIds;
      SortedIsUnique(key, a[1..], b[1..], idOf);
      assert a == [a[0]] + a[1..] && b == [b[0]] + b[1..];
    }
  }

  lemma HeadsAgree<T>(key: Str, a: seq<T>, b: seq<T>, idOf: T -> Str)
    requires multiset(a) == multiset(b) && DistinctIds(a, idOf) && a != [] && b != []
    requires Sorted(key, a, idOf) && Sorted(key, b, idOf)
    ensures a[0] == b[0]
  {
    assert a[0] in multiset(b) && b[0] in multiset(a);
    var p :| 0 <= p < |b| && b[p] == a[0];
    var q :| 0 <= q < |a| && a[q] == b[0];
    BeforeIsTotal(key, idOf(a[0]), idOf(b[0]));
  }

  /** Items with distinct ids come out in an order that does not depend on the input order. */
  lemma OrderIgnoresInputOrder<T>(key: Str, a: seq<T>, b: seq<T>, idOf: T -> Str)
    requires multiset(a) == multiset(b) && DistinctIds(a, idOf)
    ensures OrderBy(key, a, idOf) == OrderBy(key, b, idOf)
  {
    OrderBySorts(key, a, idOf);
    OrderBySorts(key, b, idOf);
    DistinctPermutes(a, OrderBy(key, a, idOf), idOf);
    SortedIsUnique(key, OrderBy(key, a, idOf), OrderBy(key, b, idOf), idOf);
  }

  function Filter<T>(items: seq<T>, keep: T -> bool): seq<T> {
    if items == [] then []
    else (if keep(items[0]) then [items[0]] else []) + Filter(items[1..], keep)
  }

  lemma {:induction false} FilterPrepend<T>(x: T, rest: seq<T>, keep: T -> bool)
    ensures Filter([x] + rest, keep) == (if keep(x) then [x] else []) + Filter(rest, keep)
  {
    assert ([x] + rest)[1..] == rest;
  }

  lemma {:induction false} FilterIn<T>(items: seq<T>, keep: T -> bool)
    ensures forall i :: 0 <= i < |Filter(items, keep)| ==>
              && Filter(items, keep)[i] in items
              && keep(Filter(items, keep)[i])
  {
    if items != [] { FilterIn(items[1..], keep); }
  }

  lemma {:induction false} InsertFilters<T>(key: Str, item: T, sorted: seq<T>, idOf: T -> Str, keep: T -> bool)
    requires Sorted(key, sorted, idOf)
    ensures Filter(Insert(key, item, sorted, idOf), keep) ==
            if keep(item) then Insert(key, item, Filter(sorted, keep), idOf) else Filter(sorted, keep)
  {
    if sorted == [] || !Before(key, idOf(sorted[0]), idOf(item)) {
      FilterPrepend(item, sorted, keep);
      var kept := Filter(sorted, keep);
      if kept != [] {
        FilterIn(sorted, keep);
        var k :| 0 <= k < |sorted| && sorted[k] == kept[0];
        if k > 0 { BeforeIsTransitive(key, idOf(item), idOf(sorted[0]), idOf(sorted[k])); }
      }
    } else {
      InsertFilters(key, item, sorted[1..], idOf, keep);
      FilterPrepend(sorted[0], Insert(key, item, sorted[1..], idOf), keep);
      if keep(sorted[0]) {
        var kept := Filter(sorted[1..], keep);
        assert Filter(sorted, keep) == [sorted[0]] + kept;
        assert ([sorted[0]] + kept)[1..] == kept;
      } else {
        assert [] + Filter(sorted[1..], keep) == Filter(sorted[1..], keep);
        assert [] + Filter(Insert(key, item, sorted[1..], idOf), keep)
            == Filter(Insert(key, item, sorted[1..], idOf), keep);
      }
    }
  }

  /** Ordering commutes with filtering: removing members leaves the relative order of the
      rest as it was. */
  lemma {:induction false} OrderCommutesWithFilter<T>(key: Str, items: seq<T>, idOf: T -> Str, keep: T -> bool)
    ensures OrderBy(key, Filter(items, keep), idOf) == Filter(OrderBy(key, items, idOf), keep)
  {
    if items != [] {
      OrderCommutesWithFilter(key, items[1..], idOf, keep);
      OrderBySorts(key, items[1..], idOf);
      InsertFilters(key, items[0], OrderBy(key, items[1..], idOf), idOf, keep);
      if keep(items[0]) {
        assert ([items[0]] + Filter(items[1..], keep))[1..] == Filter(items[1..], keep);
      } else {
        assert [] + Filter(items[1..], keep) == Filter(items[1..], keep);
      }
    }
  }
}
