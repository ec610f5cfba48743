/** Model reference resolution (src/domain/routing.ts): provider prefixes, then aliases,
    then combos, with a recursion cap over configurations that may be cyclic. */
module Routing {
  import opened Common
  import opened Text
  import opened Rendezvous

  const SLASH: Unit := 0x2F
  const COLON: Unit := 0x3A
  const COMBO_PREFIX: Str := [0x63, 0x6F, 0x6D, 0x62, 0x6F, COLON]
  const MAX_DEPTH := 8

  datatype Model = Model(providerId: Str, modelId: Str)

  datatype Affinity = Affinity(space: Str, value: Str)

  datatype Combo = Combo(id: Str, models: seq<Str>, roundRobin: bool, stickyLimit: int)

  datatype Config = Config(prefixes: map<Str, Str>, aliases: map<Str, Str>, combos: map<Str, Combo>)

  datatype Parsed = Qualified(model: Model) | Unqualified | Invalid

  datatype ChainResult = One(model: Model) | Many(candidates: seq<Model>) | Unresolved

  function KeyOf(model: Model): Str {
    model.providerId + [SLASH] + model.modelId
  }

  function Parse(name: Str, prefixes: map<Str, Str>): Parsed {
    var slash := IndexOf(name, SLASH);
    if slash == -1 then Unqualified
    else if slash == 0 || slash + 1 == |name| then Invalid
    else if name[..slash] in prefixes then Qualified(Model(prefixes[name[..slash]], name[slash + 1..]))
    else Invalid
  }

  /** `prefix/model` with a known prefix reads as that prefix's provider and the model id,
      whatever slashes the model id has. */
  lemma QualifiedReading(prefixes: map<Str, Str>, prefix: Str, modelId: Str)
    requires SLASH !in prefix && prefix != [] && modelId != [] && prefix in prefixes
    ensures Parse(prefix + [SLASH] + modelId, prefixes) == Qualified(Model(prefixes[prefix], modelId))
  {
    var joined := prefix + [SLASH] + modelId;
    IndexOfFirst(prefix, SLASH, modelId);
    assert joined[..|prefix|] == prefix && joined[|prefix| + 1..] == modelId;
  }

  /** Nothing else reads as qualified: the prefix is what stands before the first slash. */
  lemma QualifiedOnlyByPrefix(name: Str, prefixes: map<Str, Str>) returns (prefix: Str, modelId: Str)
    requires Parse(name, prefixes).Qualified?
    ensures name == prefix + [SLASH] + modelId && SLASH !in prefix && prefix != [] && modelId != []
    ensures prefix in prefixes && Parse(name, prefixes).model == Model(prefixes[prefix], modelId)
  {
    var slash := IndexOf(name, SLASH);
    prefix, modelId := name[..slash], name[slash + 1..];
  }

  // ------------------------------------------------------------ combos

  function Targets(result: ChainResult): seq<Model> {
    match result
    case One(model) => [model]
    case Many(candidates) => candidates
    case Unresolved => []
  }

  function Flatten(results: seq<ChainResult>): seq<Model> {
    if results == [] then [] else Flatten(results[..|results| - 1]) + Targets(results[|results| - 1])
  }

  function Keys(models: seq<Model>): set<Str> {
    set i | 0 <= i < |models| :: KeyOf(models[i])
  }

  /** First occurrences by key. */
  function Unique(models: seq<Model>): seq<Model> {
    if models == [] then []
    else
      var init := models[..|models| - 1];
      var last := models[|models| - 1];
      if KeyOf(last) in Keys(init) then Unique(init) else Unique(init) + [last]
  }

  function OrderKey(combo: Combo, affinity: Option<Affinity>): Str {
    if combo.stickyLimit > 0 && affinity.Some? then affinity.value.space + [COLON] + affinity.value.value
    else COMBO_PREFIX + combo.id
  }

  function Expand(combo: Combo, results: seq<ChainResult>, affinity: Option<Affinity>): seq<Model> {
    var unique := Unique(Flatten(results));
    if combo.roundRobin then OrderBy(OrderKey(combo, affinity), unique, KeyOf) else unique
  }

  lemma PrefixStep<T>(s: seq<T>, n: nat)
    requires n < |s|
    ensures s[..n + 1] == s[..n] + [s[n]] && s[..n + 1][..n] == s[..n] && s[..|s|] == s
  {
  }

  /** The filter over `seen` keys. */
  method DropSeen(members: seq<Model>) returns (unique: seq<Model>)
    ensures unique == Unique(members)
  {
    var seen: set<Str> := {};
    unique := [];
    for next := 0 to |members|
      invariant seen == Keys(members[..next])
      invariant unique == Unique(members[..next])
    {
      PrefixStep(members, next);
      KeysAppend(members[..next], members[next]);
      if KeyOf(members[next]) !in seen {
        seen := seen + {KeyOf(members[next])};
        unique := unique + [members[next]];
      }
      assert seen == Keys(members[..next + 1]);
    }
    assert members[..|members|] == members;
  }

  /** The loop that collects what the members resolved to. */
  method CollectMembers(results: seq<ChainResult>) returns (members: seq<Model>)
    ensures members == Flatten(results)
  {
    members := [];
    for next := 0 to |results|
      invariant members == Flatten(results[..next])
    {
      PrefixStep(results, next);
      members := members + Targets(results[next]);
    }
    assert results[..|results|] == results;
  }

  /** `expandCombo`, over the results its members resolve to. */
  method ExpandCombo(combo: Combo, results: seq<ChainResult>, affinity: Option<Affinity>)
      returns (candidates: seq<Model>)
    ensures candidates == Expand(combo, results, affinity)
  {
    var members := CollectMembers(results);
    candidates := DropSeen(members);
    if combo.roundRobin { candidates := OrderBy(OrderKey(combo, affinity), candidates, KeyOf); }
  }

  lemma KeysAppend(models: seq<Model>, last: Model)
    ensures Keys(models + [last]) == Keys(models) + {KeyOf(last)}
  {
    var all := models + [last];
    assert all[|models|] == last;
    assert forall i :: 0 <= i < |models| ==> all[i] == models[i];
    assert forall k :: k in Keys(models) ==> exists i :: 0 <= i < |models| && KeyOf(all[i]) == k;
  }

  lemma {:induction false} UniqueFacts(models: seq<Model>)
    ensures DistinctIds(Unique(models), KeyOf)
    ensures Keys(Unique(models)) == Keys(models)
    ensures forall m :: m in Unique(models) ==> m in models
  {
    if models != [] {
      var init, last := models[..|models| - 1], models[|models| - 1];
      UniqueFacts(init);
      assert models == init + [last];
      KeysAppend(init, last);
      if KeyOf(last) !in Keys(init) {
        KeysAppend(Unique(init), last);
        assert forall i :: 0 <= i < |Unique(init)| ==> KeyOf(Unique(init)[i]) in Keys(Unique(init));
      }
    }
  }

  /** A combo's candidates have pairwise different keys, and exactly the keys its members
      resolved to: nothing invented, nothing lost. */
  lemma ExpandFacts(combo: Combo, results: seq<ChainResult>, affinity: Option<Affinity>)
    ensures var out := Expand(combo, results, affinity);
            DistinctIds(out, KeyOf) && Keys(out) == Keys(Flatten(results))
                && forall m :: m in out ==> m in Flatten(results)
  {
    var unique := Unique(Flatten(results));
    UniqueFacts(Flatten(results));
    if combo.roundRobin {
      var out := Expand(combo, results, affinity);
      OrderBySorts(OrderKey(combo, affinity), unique, KeyOf);
      DistinctPermutes(unique, out, KeyOf);
      assert forall m :: m in out <==> m in multiset(out);
      assert forall m :: m in unique <==> m in multiset(unique);
      SameMembersSameKeys(out, unique);
    }
  }

  lemma SameMembersSameKeys(a: seq<Model>, b: seq<Model>)
    requires forall m :: m in a <==> m in b
    ensures Keys(a) == Keys(b)
  {
    forall k | k in Keys(a)
      ensures k in Keys(b)
    {
      var i :| 0 <= i < |a| && KeyOf(a[i]) == k;
      assert a[i] in b;
    }
    forall k | k in Keys(b)
      ensures k in Keys(a)
    {
      var i :| 0 <= i < |b| && KeyOf(b[i]) == k;
      assert b[i] in a;
    }
  }

  // ------------------------------------------------------------ the resolver

  function Resolve(config: Config, affinity: Option<Affinity>, name: Str, depth: nat): ChainResult
    decreases MAX_DEPTH + 1 - depth, 0, 0
  {
    if depth > MAX_DEPTH then Unresolved
    else
      var parsed := Parse(name, config.prefixes);
      if parsed.Qualified? then One(parsed.model)
      else
        var viaAlias := if name in config.aliases then Resolve(config, affinity, config.aliases[name], depth + 1)
            else Unresolved;
        if !viaAlias.Unresolved? then viaAlias
        else if name !in config.combos || depth >= MAX_DEPTH - 1 then Unresolved
        else
          var combo := config.combos[name];
          var candidates := Expand(combo, ResolveAll(config, affinity, combo.models, depth + 1), affinity);
          if candidates == [] then Unresolved else Many(candidates)
  }

  function ResolveAll(config: Config, affinity: Option<Affinity>, names: seq<Str>,
                      depth: nat): (results: seq<ChainResult>)
    ensures |results| == |names|
    decreases MAX_DEPTH + 1 - depth, 1, |names|
  {
    if names == [] then []
    else
      ResolveAll(config, affinity, names[..|names| - 1], depth)
      + [Resolve(config, affinity, names[|names| - 1], depth)]
  }

  /** `resolveModelChain`. */
  function ResolveModelChain(config: Config, affinity: Option<Affinity>, name: Str): ChainResult {
    Resolve(config, affinity, name, 0)
  }

  lemma {:induction false} ResolveAllAt(config: Config, affinity: Option<Affinity>, names: seq<Str>, depth: nat, i: nat)
    requires i < |names|
    ensures ResolveAll(config, affinity, names, depth)[i] == Resolve(config, affinity, names[i], depth)
  {
    if i < |names| - 1 { ResolveAllAt(config, affinity, names[..|names| - 1], depth, i); }
  }

  lemma {:induction false} FlattenMember(results: seq<ChainResult>, m: Model) returns (i: nat)
    requires m in Flatten(results)
    ensures i < |results| && m in Targets(results[i])
  {
    if m in Targets(results[|results| - 1]) {
      i := |results| - 1;
    } else {
      i := FlattenMember(results[..|results| - 1], m);
    }
  }

  // ------------------------------------------------------------ soundness of the targets

  /** One reference hop: from a name that is not qualified to its alias target or to a
      member of its combo. */
  ghost predicate Hop(config: Config, a: Str, b: Str) {
    && !Parse(a, config.prefixes).Qualified?
    && ((a in config.aliases && b == config.aliases[a]) || (a in config.combos && b in config.combos[a].models))
  }

  ghost predicate Reaches(config: Config, a: Str, b: Str, hops: nat)
    decreases hops
  {
    a == b || (hops > 0 && exists c :: Hop(config, a, c) && Reaches(config, c, b, hops - 1))
  }

  ghost predicate Reads(config: Config, name: Str, hops: nat, m: Model) {
    exists n :: Reaches(config, name, n, hops) && Parse(n, config.prefixes) == Qualified(m)
  }

  lemma ReadsThrough(config: Config, a: Str, b: Str, hops: nat, m: Model)
    requires Hop(config, a, b) && Reads(config, b, hops, m)
    ensures Reads(config, a, hops + 1, m)
  {
    var n :| Reaches(config, b, n, hops) && Parse(n, config.prefixes) == Qualified(m);
    assert Reaches(config, a, n, hops + 1);
  }

  /** Every target of a resolution is the prefix-qualified reading of a name reachable from
      the input in at most eight hops. */
  lemma {:induction false} TargetsAreReachable(config: Config, affinity: Option<Affinity>, name: Str, depth: nat,
                                               m: Model)
    requires m in Targets(Resolve(config, affinity, name, depth))
    ensures depth <= MAX_DEPTH && Reads(config, name, MAX_DEPTH - depth, m)
    decreases MAX_DEPTH + 1 - depth
  {
    hide Expand, IndexOf;
    if Parse(name, config.prefixes).Qualified? {
      assert Reaches(config, name, name, MAX_DEPTH - depth);
    } else if name in config.aliases && !Resolve(config, affinity, config.aliases[name], depth + 1).Unresolved? {
      AliasWins(config, affinity, name, depth);
      TargetsAreReachable(config, affinity, config.aliases[name], depth + 1, m);
      ReadsThrough(config, name, config.aliases[name], MAX_DEPTH - depth - 1, m);
    } else {
      var i := ComboTargetSource(config, affinity, name, depth, m);
      var member := config.combos[name].models[i];
      TargetsAreReachable(config, affinity, member, depth + 1, m);
      ReadsThrough(config, name, member, MAX_DEPTH - depth - 1, m);
    }
  }

  lemma AliasWins(config: Config, affinity: Option<Affinity>, name: Str, depth: nat)
    requires !Parse(name, config.prefixes).Qualified? && name in config.aliases
    requires depth <= MAX_DEPTH && !Resolve(config, affinity, config.aliases[name], depth + 1).Unresolved?
    ensures Resolve(config, affinity, name, depth) == Resolve(config, affinity, config.aliases[name], depth + 1)
  {
  }

  lemma ComboExpands(config: Config, affinity: Option<Affinity>, name: Str, depth: nat, m: Model)
    requires !Parse(name, config.prefixes).Qualified?
    requires name in config.aliases ==> Resolve(config, affinity, config.aliases[name], depth + 1).Unresolved?
    requires m in Targets(Resolve(config, affinity, name, depth))
    ensures depth <= MAX_DEPTH && name in config.combos
    ensures var combo := config.combos[name];
            m in Expand(combo, ResolveAll(config, affinity, combo.models, depth + 1), affinity)
  {
    hide Expand, Parse, ResolveAll;
  }

  lemma ComboTargetSource(config: Config, affinity: Option<Affinity>, name: Str, depth: nat, m: Model) returns (i: nat)
    requires !Parse(name, config.prefixes).Qualified?
    requires name in config.aliases ==> Resolve(config, affinity, config.aliases[name], depth + 1).Unresolved?
    requires m in Targets(Resolve(config, affinity, name, depth))
    ensures depth <= MAX_DEPTH && name in config.combos && i < |config.combos[name].models|
    ensures m in Targets(Resolve(config, affinity, config.combos[name].models[i], depth + 1))
  {
    ComboExpands(config, affinity, name, depth, m);
    hide Resolve, ResolveAll, Expand, Parse;
    var combo := config.combos[name];
    var results := ResolveAll(config, affinity, combo.models, depth + 1);
    ExpandFacts(combo, results, affinity);
    i := FlattenMember(results, m);
    ResolveAllAt(config, affinity, combo.models, depth + 1, i);
  }

  /** A combo result is never empty and never names a target twice. */
  lemma {:induction false} ComboResultsAreDistinct(config: Config, affinity: Option<Affinity>, name: Str, depth: nat)
    ensures var r := Resolve(config, affinity, name, depth);
            r.Many? ==> r.candidates != [] && DistinctIds(r.candidates, KeyOf)
    decreases MAX_DEPTH + 1 - depth
  {
    hide Expand, Parse;
    if depth <= MAX_DEPTH && !Parse(name, config.prefixes).Qualified? {
      if name in config.aliases && !Resolve(config, affinity, config.aliases[name], depth + 1).Unresolved? {
        ComboResultsAreDistinct(config, affinity, config.aliases[name], depth + 1);
      } else if name in config.combos && depth < MAX_DEPTH - 1 {
        var combo := config.combos[name];
        ExpandFacts(combo, ResolveAll(config, affinity, combo.models, depth + 1), affinity);
      }
    }
  }

  // ------------------------------------------------------------ the cap

  /** Every reference path out of `name` has at most `hops` hops. */
  ghost predicate Bounded(config: Config, name: Str, hops: nat)
    decreases hops
  {
    forall b :: Hop(config, name, b) ==> hops > 0 && Bounded(config, b, hops - 1)
  }

  /** The resolver without a depth limit, on names whose reference paths are finite. */
  ghost function Unlimited(config: Config, affinity: Option<Affinity>, name: Str, hops: nat): ChainResult
    requires Bounded(config, name, hops)
    decreases hops, 0, 0
  {
    var parsed := Parse(name, config.prefixes);
    if parsed.Qualified? then One(parsed.model)
    else
      var viaAlias :=
        if name in config.aliases then
          assert Hop(config, name, config.aliases[name]);
          Unlimited(config, affinity, config.aliases[name], hops - 1)
        else Unresolved;
      if !viaAlias.Unresolved? then viaAlias
      else if name !in config.combos then Unresolved
      else
        var combo := config.combos[name];
        assert forall b :: b in combo.models ==> Hop(config, name, b);
        var results :=
          if combo.models == [] then []
          else
            assert combo.models[0] in combo.models;
            UnlimitedAll(config, affinity, combo.models, hops - 1);
        var candidates := Expand(combo, results, affinity);
        if candidates == [] then Unresolved else Many(candidates)
  }

  ghost function UnlimitedAll(config: Config, affinity: Option<Affinity>, names: seq<Str>,
                              hops: nat): (results: seq<ChainResult>)
    requires forall b :: b in names ==> Bounded(config, b, hops)
    ensures |results| == |names|
    decreases hops, 1, |names|
  {
    if names == [] then []
    else
      UnlimitedAll(config, affinity, names[..|names| - 1], hops)
      + [Unlimited(config, affinity, names[|names| - 1], hops)]
  }

  /** When every reference path out of the name has at most `7 - depth` hops, the cap changes
      nothing. */
  lemma {:induction false} CapIsInvisible(config: Config, affinity: Option<Affinity>, name: Str, depth: nat, hops: nat)
    requires Bounded(config, name, hops) && depth + hops <= MAX_DEPTH - 1
    ensures Resolve(config, affinity, name, depth) == Unlimited(config, affinity, name, hops)
    decreases hops, 0, 0
  {
    hide Expand, Parse;
    if !Parse(name, config.prefixes).Qualified? {
      if name in config.aliases {
        assert Hop(config, name, config.aliases[name]);
        CapIsInvisible(config, affinity, config.aliases[name], depth + 1, hops - 1);
      }
      if name in config.combos {
        var models := config.combos[name].models;
        assert forall b :: b in models ==> Hop(config, name, b);
        if models != [] {
          assert models[0] in models;
          CapIsInvisibleAll(config, affinity, models, depth + 1, hops - 1);
        }
      }
      CapStep(config, affinity, name, depth, hops);
    }
  }

  lemma CapStep(config: Config, affinity: Option<Affinity>, name: Str, depth: nat, hops: nat)
    requires Bounded(config, name, hops) && depth + hops <= MAX_DEPTH - 1
    requires !Parse(name, config.prefixes).Qualified?
    requires name in config.aliases ==>
               && hops > 0 && Bounded(config, config.aliases[name], hops - 1)
               && Resolve(config, affinity, config.aliases[name], depth + 1)
                 == Unlimited(config, affinity, config.aliases[name], hops - 1)
    requires name in config.combos && config.combos[name].models != [] ==>
               && hops > 0 && (forall b :: b in config.combos[name].models ==> Bounded(config, b, hops - 1))
               && ResolveAll(config, affinity, config.combos[name].models, depth + 1)
                  == UnlimitedAll(config, affinity, config.combos[name].models, hops - 1)
    ensures Resolve(config, affinity, name, depth) == Unlimited(config, affinity, name, hops)
  {
    hide Expand, Parse;
    if name in config.combos && config.combos[name].models == [] {
      NoMembers(config.combos[name], affinity);
    }
  }

  lemma NoMembers(combo: Combo, affinity: Option<Affinity>)
    ensures Expand(combo, [], affinity) == []
  {
  }

  lemma {:induction false} CapIsInvisibleAll(config: Config, affinity: Option<Affinity>, names: seq<Str>, depth: nat,
                                             hops: nat)
    requires forall b :: b in names ==> Bounded(config, b, hops)
    requires depth + hops <= MAX_DEPTH - 1
    ensures ResolveAll(config, affinity, names, depth) == UnlimitedAll(config, affinity, names, hops)
    decreases hops, 1, |names|
  {
    hide Expand, Parse;
    if names != [] {
      CapIsInvisibleAll(config, affinity, names[..|names| - 1], depth, hops);
      CapIsInvisible(config, affinity, names[|names| - 1], depth, hops);
    }
  }

  /** `resolveModelChain` equals the resolver without a limit on every name whose reference
      paths have at most seven hops, cycles elsewhere in the configuration included. */
  lemma SevenHopsSuffice(config: Config, affinity: Option<Affinity>, name: Str)
    requires Bounded(config, name, 7)
    ensures ResolveModelChain(config, affinity, name) == Unlimited(config, affinity, name, 7)
  {
    CapIsInvisible(config, affinity, name, 0, 7);
  }
}
