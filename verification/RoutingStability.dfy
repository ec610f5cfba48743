/** Failover order of round-robin combos (src/domain/routing.ts) under membership change:
    taking members away moves none of the others. */
module RoutingStability {
  import opened Common
  import opened Text
  import opened Rendezvous
  import opened Routing

  // ------------------------------------------------------------ keys in order

  function KeySeq(models: seq<Model>): (keys: seq<Str>)
    ensures |keys| == |models| && forall i :: 0 <= i < |models| ==> keys[i] == KeyOf(models[i])
  {
    if models == [] then [] else [KeyOf(models[0])] + KeySeq(models[1..])
  }

  function Same(key: Str): Str { key }

  lemma {:induction false} InsertByKey(key: Str, m: Model, sorted: seq<Model>)
    ensures KeySeq(Insert(key, m, sorted, KeyOf)) == Insert(key, KeyOf(m), KeySeq(sorted), Same)
  {
    hide Before, KeyOf;
    if sorted != [] {
      var keys := KeySeq(sorted);
      assert keys[0] == KeyOf(sorted[0]) && keys[1..] == KeySeq(sorted[1..]);
      InsertByKey(key, m, sorted[1..]);
      assert ([sorted[0]] + Insert(key, m, sorted[1..], KeyOf))[1..] == Insert(key, m, sorted[1..], KeyOf);
    }
    assert ([m] + sorted)[1..] == sorted;
  }

  /** Ordering the models orders their keys. */
  lemma {:induction false} OrderByKey(key: Str, models: seq<Model>)
    ensures KeySeq(OrderBy(key, models, KeyOf)) == OrderBy(key, KeySeq(models), Same)
  {
    if models != [] {
      OrderByKey(key, models[1..]);
      InsertByKey(key, models[0], OrderBy(key, models[1..], KeyOf));
      assert KeySeq(models)[1..] == KeySeq(models[1..]);
    }
  }

  lemma DistinctTail<T>(items: seq<T>, idOf: T -> Str)
    requires items != [] && DistinctIds(items, idOf)
    ensures DistinctIds(items[1..], idOf) && forall x :: x in items[1..] ==> idOf(x) != idOf(items[0])
  {
    forall x | x in items[1..]
      ensures idOf(x) != idOf(items[0])
    {
      var k :| 0 <= k < |items[1..]| && items[1..][k] == x;
      assert items[k + 1] == x;
    }
  }

  lemma DistinctCons<T>(x: T, rest: seq<T>, idOf: T -> Str)
    requires DistinctIds(rest, idOf) && forall y :: y in rest ==> idOf(y) != idOf(x)
    ensures DistinctIds([x] + rest, idOf)
  {
  }

  lemma {:induction false} FilterDistinct<T>(items: seq<T>, idOf: T -> Str, keep: T -> bool)
    requires DistinctIds(items, idOf)
    ensures DistinctIds(Filter(items, keep), idOf)
  {
    if items == [] { return; }
    var rest := Filter(items[1..], keep);
    assert [] + rest == rest;
    assert Filter(items, keep) == if keep(items[0]) then [items[0]] + rest else rest;
    hide Filter, DistinctIds;
    DistinctTail(items, idOf);
    FilterDistinct(items[1..], idOf, keep);
    FilterIn(items[1..], keep);
    DistinctCons(items[0], rest, idOf);
    assert DistinctIds(Filter(items, keep), idOf);
  }

  lemma {:induction false} FilterHas<T>(items: seq<T>, keep: T -> bool, x: T)
    requires x in items && keep(x)
    ensures x in Filter(items, keep)
  {
    if items[0] != x {
      assert x in items[1..];
      FilterHas(items[1..], keep, x);
    }
  }

  lemma SameMembersSameBag<T>(a: seq<T>, b: seq<T>, idOf: T -> Str)
    requires DistinctIds(a, idOf) && DistinctIds(b, idOf)
    requires (forall i :: 0 <= i < |a| ==> a[i] in b) && forall i :: 0 <= i < |b| ==> b[i] in a
    ensures multiset(a) == multiset(b)
  {
    forall x | x in multiset(a) || x in multiset(b)
      ensures multiset(a)[x] == multiset(b)[x]
    {
      MemberBoth(a, b, x);
      OnceOnly(a, x, idOf);
      OnceOnly(b, x, idOf);
      assert (x in a <==> x in multiset(a)) && (x in b <==> x in multiset(b));
    }
  }

  lemma MemberBoth<T>(a: seq<T>, b: seq<T>, x: T)
    requires (forall i :: 0 <= i < |a| ==> a[i] in b) && forall i :: 0 <= i < |b| ==> b[i] in a
    ensures x in a <==> x in b
  {
    if x in a {
      var i :| 0 <= i < |a| && a[i] == x;
    }
    if x in b {
      var i :| 0 <= i < |b| && b[i] == x;
    }
  }

  lemma KeysAreDistinct(models: seq<Model>)
    ensures DistinctIds(KeySeq(Unique(models)), Same)
    ensures forall k :: k in KeySeq(Unique(models)) <==> k in Keys(models)
  {
    UniqueFacts(models);
    var unique := Unique(models);
    hide Unique, KeyOf;
    forall k | k in KeySeq(unique)
      ensures k in Keys(models)
    {
      var i :| 0 <= i < |unique| && KeySeq(unique)[i] == k;
      assert KeyOf(unique[i]) == k;
    }
    forall k | k in Keys(models)
      ensures k in KeySeq(unique)
    {
      var i :| 0 <= i < |unique| && KeyOf(unique[i]) == k;
      assert KeySeq(unique)[i] == k;
    }
  }

  // ------------------------------------------------------------ expansions

  /** Two round-robin expansions under one order key, the second over targets the first one
      has too: the second lists exactly its own target keys, in the order in which the first
      lists them. */
  lemma FailoverKeysAreStable(c: Combo, d: Combo, rc: seq<ChainResult>, rd: seq<ChainResult>,
                              affinity: Option<Affinity>)
    requires c.roundRobin && d.roundRobin && OrderKey(c, affinity) == OrderKey(d, affinity)
    requires Keys(Flatten(rd)) <= Keys(Flatten(rc))
    ensures KeySeq(Expand(d, rd, affinity)) == Filter(KeySeq(Expand(c, rc, affinity)), k => k in Keys(Flatten(rd)))
  {
    var key := OrderKey(c, affinity);
    var mc, md := Flatten(rc), Flatten(rd);
    var kc, kd := KeySeq(Unique(mc)), KeySeq(Unique(md));
    var keep := k => k in Keys(md);
    KeysAreDistinct(mc);
    KeysAreDistinct(md);
    OrderByKey(key, Unique(mc));
    OrderByKey(key, Unique(md));
    OrderCommutesWithFilter(key, kc, Same, keep);
    KeptKeys(kc, kd, keep);
    OrderIgnoresInputOrder(key, Filter(kc, keep), kd, Same);
    FilterAgrees(OrderBy(key, kc, Same), keep, k => k in Keys(Flatten(rd)));
  }

  lemma KeptKeys(kc: seq<Str>, kd: seq<Str>, keep: Str -> bool)
    requires DistinctIds(kc, Same) && DistinctIds(kd, Same)
    requires (forall k :: keep(k) <==> k in kd) && forall k :: k in kd ==> k in kc
    ensures DistinctIds(Filter(kc, keep), Same) && multiset(Filter(kc, keep)) == multiset(kd)
  {
    FilterDistinct(kc, Same, keep);
    FilterIn(kc, keep);
    forall i | 0 <= i < |kd|
      ensures kd[i] in Filter(kc, keep)
    {
      FilterHas(kc, keep, kd[i]);
    }
    SameMembersSameBag(Filter(kc, keep), kd, Same);
  }

  lemma {:induction false} FilterAgrees<T(!new)>(items: seq<T>, a: T -> bool, b: T -> bool)
    requires forall x :: a(x) == b(x)
    ensures Filter(items, a) == Filter(items, b)
  {
    if items != [] { FilterAgrees(items[1..], a, b); }
  }

  /** No two of the models share a key. */
  ghost predicate KeysDetermine(models: seq<Model>) {
    forall a, b :: a in models && b in models && KeyOf(a) == KeyOf(b) ==> a == b
  }

  /** Provider ids without a slash make keys unambiguous. */
  lemma SlashFreeKeysDetermine(models: seq<Model>)
    requires forall m :: m in models ==> SLASH !in m.providerId
    ensures KeysDetermine(models)
  {
    forall a, b | a in models && b in models && KeyOf(a) == KeyOf(b)
      ensures a == b
    {
      IndexOfFirst(a.providerId, SLASH, a.modelId);
      IndexOfFirst(b.providerId, SLASH, b.modelId);
      assert a.providerId == KeyOf(a)[..|a.providerId|] && b.providerId == KeyOf(b)[..|b.providerId|];
      assert a.modelId == KeyOf(a)[|a.providerId| + 1..] && b.modelId == KeyOf(b)[|b.providerId| + 1..];
    }
  }

  /** With slashes in provider ids two targets can share a key, and then only one is kept. The
      ids the program uses, built-in ones and slugs of letters, digits and hyphens, have none. */
  lemma SlashesShareKeys()
    ensures var a, b := Model([1], [2, SLASH, 3]), Model([1, SLASH, 2], [3]);
            a != b && KeyOf(a) == KeyOf(b) && Unique([a, b]) == [a]
  {
    var a, b := Model([1], [2, SLASH, 3]), Model([1, SLASH, 2], [3]);
    assert KeyOf(a) == [1, SLASH, 2, SLASH, 3] && KeyOf(b) == [1, SLASH, 2, SLASH, 3];
    assert [a, b][..1] == [a] && [a][..0] == [];
    assert KeyOf([a][0]) in Keys([a]);
    assert Unique([a]) == [] + [a] == [a];
  }

  /** Failover order of round-robin combos is stable under membership change: the combo over
      fewer targets gives exactly the larger one's candidates that it still has, in the same
      order. */
  lemma RoundRobinStable(c: Combo, d: Combo, rc: seq<ChainResult>, rd: seq<ChainResult>, affinity: Option<Affinity>)
    requires c.roundRobin && d.roundRobin && OrderKey(c, affinity) == OrderKey(d, affinity)
    requires KeysDetermine(Flatten(rc)) && forall m :: m in Flatten(rd) ==> m in Flatten(rc)
    ensures Expand(d, rd, affinity) == Filter(Expand(c, rc, affinity), m => m in Flatten(rd))
  {
    var key := OrderKey(c, affinity);
    var mc, md := Flatten(rc), Flatten(rd);
    var keep := m => m in md;
    UniqueFacts(mc);
    UniqueFacts(md);
    OrderCommutesWithFilter(key, Unique(mc), KeyOf, keep);
    KeptModels(mc, md, keep);
    OrderIgnoresInputOrder(key, Filter(Unique(mc), keep), Unique(md), KeyOf);
    FilterAgrees(OrderBy(key, Unique(mc), KeyOf), keep, m => m in Flatten(rd));
  }

  /** When keys determine models, dropping repeated keys loses no model. */
  lemma UniqueKeepsModels(models: seq<Model>, all: seq<Model>, m: Model)
    requires KeysDetermine(all) && (forall x :: x in models ==> x in all) && m in models
    ensures m in Unique(models)
  {
    UniqueFacts(models);
    var i :| 0 <= i < |models| && models[i] == m;
    assert KeyOf(m) in Keys(models);
    var j :| 0 <= j < |Unique(models)| && KeyOf(Unique(models)[j]) == KeyOf(m);
    assert Unique(models)[j] in models;
  }

  lemma KeptModels(mc: seq<Model>, md: seq<Model>, keep: Model -> bool)
    requires KeysDetermine(mc) && (forall m :: m in md ==> m in mc) && forall m :: keep(m) <==> m in md
    ensures DistinctIds(Filter(Unique(mc), keep), KeyOf) && multiset(Filter(Unique(mc), keep)) == multiset(Unique(md))
  {
    UniqueFacts(mc);
    UniqueFacts(md);
    FilterDistinct(Unique(mc), KeyOf, keep);
    FilterIn(Unique(mc), keep);
    var kept, rest := Filter(Unique(mc), keep), Unique(md);
    forall i | 0 <= i < |kept|
      ensures kept[i] in rest
    {
      UniqueKeepsModels(md, mc, kept[i]);
    }
    forall i | 0 <= i < |rest|
      ensures rest[i] in kept
    {
      assert rest[i] in md;
      UniqueKeepsModels(mc, mc, rest[i]);
      FilterHas(Unique(mc), keep, rest[i]);
    }
    SameMembersSameBag(kept, rest, KeyOf);
  }

  // ------------------------------------------------------------ resolutions

  /** The configuration with other members in one combo. */
  function WithMembers(config: Config, name: Str, models: seq<Str>): Config
    requires name in config.combos
  {
    config.(combos := config.combos[name := config.combos[name].(models := models)])
  }

  ghost predicate NoneLeadsTo(config: Config, names: seq<Str>, target: Str, hops: nat) {
    forall b :: b in names ==> !Reaches(config, b, target, hops)
  }

  /** Names that do not lead to the combo resolve as before. */
  lemma {:induction false} OthersResolveAsBefore(config: Config, affinity: Option<Affinity>, name: Str,
                                                 models: seq<Str>, other: Str, depth: nat)
    requires name in config.combos
    requires depth <= MAX_DEPTH ==> !Reaches(config, other, name, MAX_DEPTH - depth)
    ensures Resolve(WithMembers(config, name, models), affinity, other, depth)
            == Resolve(config, affinity, other, depth)
    decreases MAX_DEPTH + 1 - depth, 0, 0
  {
    hide Expand, Parse;
    if depth <= MAX_DEPTH && !Parse(other, config.prefixes).Qualified? {
      assert other != name;
      if other in config.aliases {
        assert Hop(config, other, config.aliases[other]);
        OthersResolveAsBefore(config, affinity, name, models, config.aliases[other], depth + 1);
      }
      if other in config.combos {
        var members := config.combos[other].models;
        if depth < MAX_DEPTH {
          forall b | b in members
            ensures !Reaches(config, b, name, MAX_DEPTH - depth - 1)
          {
            assert Hop(config, other, b);
          }
          assert NoneLeadsTo(config, members, name, MAX_DEPTH - depth - 1);
        }
        OthersResolveAllAsBefore(config, affinity, name, models, members, depth + 1);
      }
    }
  }

  lemma {:induction false} OthersResolveAllAsBefore(config: Config, affinity: Option<Affinity>, name: Str,
                                                    models: seq<Str>, others: seq<Str>, depth: nat)
    requires name in config.combos
    requires depth <= MAX_DEPTH + 1
    requires depth <= MAX_DEPTH ==> NoneLeadsTo(config, others, name, MAX_DEPTH - depth)
    ensures ResolveAll(WithMembers(config, name, models), affinity, others, depth)
            == ResolveAll(config, affinity, others, depth)
    decreases MAX_DEPTH + 1 - depth, 1, |others|
  {
    hide Resolve, Reaches;
    if others != [] {
      assert others[|others| - 1] in others && forall b :: b in others[..|others| - 1] ==> b in others;
      OthersResolveAllAsBefore(config, affinity, name, models, others[..|others| - 1], depth);
      OthersResolveAsBefore(config, affinity, name, models, others[|others| - 1], depth);
    }
  }

  lemma {:induction false} FlattenHas(results: seq<ChainResult>, i: nat, m: Model)
    requires i < |results| && m in Targets(results[i])
    ensures m in Flatten(results)
  {
    if i < |results| - 1 { FlattenHas(results[..|results| - 1], i, m); }
  }

  lemma FewerNamesFewerTargets(config: Config, affinity: Option<Affinity>, names: seq<Str>, fewer: seq<Str>, depth: nat)
    requires forall b :: b in fewer ==> b in names
    ensures forall m :: m in Flatten(ResolveAll(config, affinity, fewer, depth)) ==>
            m in Flatten(ResolveAll(config, affinity, names, depth))
  {
    hide Resolve;
    var less, more := ResolveAll(config, affinity, fewer, depth), ResolveAll(config, affinity, names, depth);
    forall m | m in Flatten(less)
      ensures m in Flatten(more)
    {
      var i := FlattenMember(less, m);
      ResolveAllAt(config, affinity, fewer, depth, i);
      assert fewer[i] in names;
      var j :| 0 <= j < |names| && names[j] == fewer[i];
      ResolveAllAt(config, affinity, names, depth, j);
      FlattenHas(more, j, m);
    }
  }

  lemma KeysOfFewer(less: seq<Model>, more: seq<Model>)
    requires forall m :: m in less ==> m in more
    ensures Keys(less) <= Keys(more)
  {
    forall k | k in Keys(less)
      ensures k in Keys(more)
    {
      var i :| 0 <= i < |less| && KeyOf(less[i]) == k;
      assert less[i] in less && less[i] in more;
      var j :| 0 <= j < |more| && more[j] == less[i];
    }
  }

  lemma ComboResolves(config: Config, affinity: Option<Affinity>, name: Str)
    requires name in config.combos && name !in config.aliases && !Parse(name, config.prefixes).Qualified?
    ensures Targets(ResolveModelChain(config, affinity, name))
            == Expand(config.combos[name], ResolveAll(config, affinity, config.combos[name].models, 1), affinity)
  {
    hide Expand, Parse;
  }

  /** Resolving a round-robin combo after members were taken out of its definition (or
      reordered, or repeated): the candidates are exactly what the remaining members resolve
      to, and they come in the order they had before. Remaining members must not lead back to
      the combo, and no alias of the same name may be tried first. */
  lemma RemovalKeepsFailoverOrder(config: Config, affinity: Option<Affinity>, name: Str, fewer: seq<Str>)
    requires name in config.combos && config.combos[name].roundRobin
    requires name !in config.aliases && !Parse(name, config.prefixes).Qualified?
    requires (forall b :: b in fewer ==> b in config.combos[name].models)
             && NoneLeadsTo(config, fewer, name, MAX_DEPTH - 1)
    ensures var before := Targets(ResolveModelChain(config, affinity, name));
            var after := Targets(ResolveModelChain(WithMembers(config, name, fewer), affinity, name));
            var left := Flatten(ResolveAll(config, affinity, fewer, 1));
            && Keys(after) == Keys(left)
            && KeySeq(after) == Filter(KeySeq(before), k => k in Keys(left))
            && (KeysDetermine(Flatten(ResolveAll(config, affinity, config.combos[name].models, 1))) ==>
                  after == Filter(before, m => m in left))
  {
    hide Expand, Parse, Resolve, ResolveAll, Reaches;
    var changed := WithMembers(config, name, fewer);
    var c, d := config.combos[name], changed.combos[name];
    ComboResolves(config, affinity, name);
    ComboResolves(changed, affinity, name);
    OthersResolveAllAsBefore(config, affinity, name, fewer, fewer, 1);
    var rc, rd := ResolveAll(config, affinity, c.models, 1), ResolveAll(config, affinity, fewer, 1);
    FewerNamesFewerTargets(config, affinity, c.models, fewer, 1);
    KeysOfFewer(Flatten(rd), Flatten(rc));
    ExpandFacts(d, rd, affinity);
    FailoverKeysAreStable(c, d, rc, rd, affinity);
    if KeysDetermine(Flatten(rc)) { RoundRobinStable(c, d, rc, rd, affinity); }
  }
}
