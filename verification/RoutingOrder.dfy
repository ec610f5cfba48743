/** In which order the candidates of a combo come (src/domain/routing.ts), and which of the
    three readings of a name wins. */
module RoutingOrder {
  import opened Common
  import opened Text
  import opened Rendezvous
  import opened Routing

  // ------------------------------------------------------------ definition order

  /** No earlier target has the key of target `i`. */
  ghost predicate FirstOfKey(models: seq<Model>, i: nat)
    requires i < |models|
  {
    forall j :: 0 <= j < i ==> KeyOf(models[j]) != KeyOf(models[i])
  }

  ghost predicate Climbing(places: seq<nat>, end: nat) {
    && (forall k :: 0 <= k < |places| ==> places[k] < end)
    && forall j, k :: 0 <= j < k < |places| ==> places[j] < places[k]
  }

  /** `out` are the targets at `places`, which are all the places where a key first occurs,
      from left to right. */
  ghost predicate FirstsInOrder(models: seq<Model>, places: seq<nat>, out: seq<Model>) {
    && |places| == |out| && Climbing(places, |models|)
    && (forall k :: 0 <= k < |places| ==> FirstOfKey(models, places[k]) && out[k] == models[places[k]])
    && forall i :: 0 <= i < |models| && FirstOfKey(models, i) ==> i in places
  }

  lemma FirstsGrow(init: seq<Model>, last: Model, places: seq<nat>, out: seq<Model>)
    requires FirstsInOrder(init, places, out)
    ensures var all := init + [last];
            if KeyOf(last) in Keys(init) then FirstsInOrder(all, places, out)
            else FirstsInOrder(all, places + [|init|], out + [last])
  {
    var all := init + [last];
    forall i | 0 <= i < |init|
      ensures FirstOfKey(all, i) <==> FirstOfKey(init, i)
    {
      assert forall j :: 0 <= j <= i ==> all[j] == init[j];
    }
    assert FirstOfKey(all, |init|) <==> KeyOf(last) !in Keys(init) by { LastIsFirst(init, last); }
    hide FirstOfKey, KeyOf;
    var more := places + [|init|];
    assert forall i :: i in more <==> i in places || i == |init|;
  }

  lemma LastIsFirst(init: seq<Model>, last: Model)
    ensures FirstOfKey(init + [last], |init|) <==> KeyOf(last) !in Keys(init)
  {
    var all := init + [last];
    assert forall j :: 0 <= j < |init| ==> all[j] == init[j];
    if KeyOf(last) in Keys(init) {
      var j :| 0 <= j < |init| && KeyOf(init[j]) == KeyOf(last);
      assert KeyOf(all[j]) == KeyOf(all[|init|]);
    }
    hide KeyOf;
  }

  lemma {:induction false} UniqueInOrder(models: seq<Model>) returns (places: seq<nat>)
    ensures FirstsInOrder(models, places, Unique(models))
  {
    if models == [] { return []; }
    var init, last := models[..|models| - 1], models[|models| - 1];
    assert models == init + [last];
    places := UniqueInOrder(init);
    FirstsGrow(init, last, places, Unique(init));
    hide FirstsInOrder;
    if KeyOf(last) !in Keys(init) { places := places + [|init|]; }
    assert FirstsInOrder(models, places, Unique(models));
  }

  /** The candidates of a fallback combo come in the order in which their keys first occur
      among what its members resolve to. */
  lemma FallbackKeepsOrder(combo: Combo, results: seq<ChainResult>, affinity: Option<Affinity>)
      returns (places: seq<nat>)
    requires !combo.roundRobin
    ensures FirstsInOrder(Flatten(results), places, Expand(combo, results, affinity))
  {
    places := UniqueInOrder(Flatten(results));
  }

  /** "combo:" */
  const COMBO: Str := [0x63, 0x6F, 0x6D, 0x62, 0x6F, 0x3A]

  /** The candidates of a round-robin combo come by falling score, under the affinity when the
      combo is sticky and there is one, and under the combo's own id otherwise; equal scores by
      key. */
  lemma RoundRobinFallsByScore(combo: Combo, results: seq<ChainResult>, affinity: Option<Affinity>, i: nat, j: nat)
    requires combo.roundRobin && i < j < |Expand(combo, results, affinity)|
    ensures var out := Expand(combo, results, affinity);
            var key := if affinity == None || combo.stickyLimit <= 0 then COMBO + combo.id
                       else affinity.value.space + [COLON] + affinity.value.value;
            var first, second := KeyOf(out[i]), KeyOf(out[j]);
            || Score(key, first) > Score(key, second)
            || (Score(key, first) == Score(key, second) && !Less(second, first))
  {
    OrderBySorts(OrderKey(combo, affinity), Unique(Flatten(results)), KeyOf);
    hide Score, KeyOf, Unique, Flatten;
  }

  // ------------------------------------------------------------ which reading wins

  /** The qualified reading of a name wins over any alias or combo of that name. */
  lemma QualifiedWins(config: Config, affinity: Option<Affinity>, prefix: Str, modelId: Str)
    requires SLASH !in prefix && prefix != [] && modelId != [] && prefix in config.prefixes
    ensures ResolveModelChain(config, affinity, prefix + [SLASH] + modelId)
            == One(Model(config.prefixes[prefix], modelId))
  {
    QualifiedReading(config.prefixes, prefix, modelId);
    hide Parse;
  }

  lemma NoneResolved(config: Config, affinity: Option<Affinity>, names: seq<Str>, depth: nat)
    requires depth <= MAX_DEPTH
    requires forall i :: 0 <= i < |names| ==> Parse(names[i], config.prefixes).Qualified?
    ensures forall i :: 0 <= i < |names| ==>
              ResolveAll(config, affinity, names, depth)[i] == One(Parse(names[i], config.prefixes).model)
  {
    forall i | 0 <= i < |names|
      ensures ResolveAll(config, affinity, names, depth)[i] == One(Parse(names[i], config.prefixes).model)
    {
      ResolveAllAt(config, affinity, names, depth, i);
      hide ResolveAll, Parse;
    }
  }

  /** An alias that resolves wins over a combo of the same name. */
  lemma AliasBeforeCombo(config: Config, affinity: Option<Affinity>, name: Str)
    requires !Parse(name, config.prefixes).Qualified? && name in config.aliases
    requires Parse(config.aliases[name], config.prefixes).Qualified?
    ensures ResolveModelChain(config, affinity, name) == One(Parse(config.aliases[name], config.prefixes).model)
  {
    hide Parse, Expand;
  }

  /** The name is no alias, or one whose target is nothing at all. */
  predicate NoLiveAlias(config: Config, name: Str) {
    name in config.aliases ==>
      var target := config.aliases[name];
      !Parse(target, config.prefixes).Qualified? && target !in config.aliases && target !in config.combos
  }

  /** A name that is neither qualified nor a live alias nor a combo is not resolved. */
  lemma NothingElseResolves(config: Config, affinity: Option<Affinity>, name: Str)
    requires !Parse(name, config.prefixes).Qualified? && NoLiveAlias(config, name) && name !in config.combos
    ensures ResolveModelChain(config, affinity, name) == Unresolved
  {
    hide Parse, Expand;
  }

  function Models(config: Config, names: seq<Str>): (models: seq<Model>)
    requires forall i :: 0 <= i < |names| ==> Parse(names[i], config.prefixes).Qualified?
    ensures |models| == |names|
    ensures forall i :: 0 <= i < |names| ==> models[i] == Parse(names[i], config.prefixes).model
  {
    seq(|names|, i requires 0 <= i < |names| => Parse(names[i], config.prefixes).model)
  }

  lemma {:induction false} FlattenOnes(results: seq<ChainResult>, models: seq<Model>)
    requires |results| == |models| && forall i :: 0 <= i < |results| ==> results[i] == One(models[i])
    ensures Flatten(results) == models
  {
    if results != [] {
      var last := |results| - 1;
      FlattenOnes(results[..last], models[..last]);
      assert models == models[..last] + [models[last]];
    }
  }

  /** A fallback combo of qualified members with different targets gives exactly their targets,
      in definition order, even behind an alias of its name that leads nowhere. */
  lemma FallbackComboInOrder(config: Config, affinity: Option<Affinity>, name: Str)
    requires !Parse(name, config.prefixes).Qualified? && NoLiveAlias(config, name) && name in config.combos
    requires !config.combos[name].roundRobin && config.combos[name].models != []
    requires forall i :: 0 <= i < |config.combos[name].models| ==>
               Parse(config.combos[name].models[i], config.prefixes).Qualified?
    requires DistinctIds(Models(config, config.combos[name].models), KeyOf)
    ensures ResolveModelChain(config, affinity, name) == Many(Models(config, config.combos[name].models))
  {
    hide OrderBy;
    var combo := config.combos[name];
    var models, results := Models(config, combo.models), ResolveAll(config, affinity, combo.models, 1);
    NoneResolved(config, affinity, combo.models, 1);
    FlattenOnes(results, models);
    var places := FallbackKeepsOrder(combo, results, affinity);
    AllFirst(models, places, Expand(combo, results, affinity));
    hide Parse, Expand, ResolveAll;
  }

  lemma AllFirst(models: seq<Model>, places: seq<nat>, out: seq<Model>)
    requires DistinctIds(models, KeyOf) && FirstsInOrder(models, places, out)
    ensures out == models
  {
    hide KeyOf;
    assert forall i :: 0 <= i < |models| ==> FirstOfKey(models, i);
    hide FirstOfKey;
    EveryPlace(places, |models|);
  }

  /** Climbing places that include all below `end` are just those. */
  lemma {:induction false} EveryPlace(places: seq<nat>, end: nat)
    requires Climbing(places, end) && forall i :: 0 <= i < end ==> i in places
    ensures |places| == end && forall k :: 0 <= k < end ==> places[k] == k
  {
    if end == 0 {
      assert places == [];
    } else {
      var last := |places| - 1;
      assert end - 1 in places;
      assert places[last] < end && forall j :: 0 <= j < last ==> places[j] < places[last];
      var init := places[..last];
      forall i | 0 <= i < end - 1
        ensures i in init
      {
        assert i in places;
        var j :| 0 <= j < |places| && places[j] == i;
        assert init[j] == i;
      }
      EveryPlace(init, end - 1);
    }
  }
}
