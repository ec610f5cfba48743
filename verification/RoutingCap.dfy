/** How tight the recursion cap of src/domain/routing.ts is. */
module RoutingCap {
  import opened Common
  import opened Text
  import opened Routing

  const TARGET := Model([0x50], [0x4D])

  /** Seven aliases in a row, then a combo of one qualified name. */
  function LongChain(): Config {
    Config(map[[0x70] := [0x50]], map[[0] := [1], [1] := [2], [2] := [3], [3] := [4], [4] := [5], [5] := [6],
                                    [6] := [7]],
           map[[7] := Combo([0x63], [[0x70, SLASH, 0x4D]], false, 0)])
  }

  const LEAF: Str := [0x70, SLASH, 0x4D]

  lemma LeafResolves(depth: nat)
    requires depth <= MAX_DEPTH
    ensures Parse(LEAF, LongChain().prefixes) == Qualified(TARGET)
    ensures Bounded(LongChain(), LEAF, 0) && Unlimited(LongChain(), None, LEAF, 0) == One(TARGET)
  {
    assert LEAF == [0x70] + [SLASH] + [0x4D];
    QualifiedReading(LongChain().prefixes, [0x70], [0x4D]);
  }

  lemma LinkIsNotQualified(i: nat)
    requires i <= 7
    ensures !Parse([i], LongChain().prefixes).Qualified?
    ensures i < 7 ==> [i] in LongChain().aliases && LongChain().aliases[[i]] == [i + 1] && [i] !in LongChain().combos
    ensures i == 7 ==>
            && [i] !in LongChain().aliases && [i] in LongChain().combos
            && LongChain().combos[[i]].models == [LEAF]
  {
    assert IndexOf([i], SLASH) == -1;
  }

  lemma OneTarget(combo: Combo)
    requires !combo.roundRobin
    ensures Expand(combo, [One(TARGET)], None) == [TARGET]
  {
    assert [One(TARGET)][..0] == [] && [TARGET][..0] == [];
    assert Flatten([One(TARGET)]) == [] + [TARGET] == [TARGET];
    assert Unique([TARGET]) == [TARGET];
  }

  lemma LeavesResolve()
    ensures forall name :: name in [LEAF] ==> Bounded(LongChain(), name, 0)
    ensures UnlimitedAll(LongChain(), None, [LEAF], 0) == [One(TARGET)]
  {
    LeafResolves(0);
    hide Parse, LongChain, Unlimited, Bounded;
    assert [LEAF][..0] == [];
    assert UnlimitedAll(LongChain(), None, [], 0) == [];
  }

  lemma ComboEnd()
    ensures Bounded(LongChain(), [7], 1)
    ensures Resolve(LongChain(), None, [7], 7).Unresolved?
    ensures Unlimited(LongChain(), None, [7], 1) == Many([TARGET])
  {
    LinkIsNotQualified(7);
    LeavesResolve();
    OneTarget(LongChain().combos[[7]]);
    assert !LongChain().combos[[7]].roundRobin;
    hide Parse, Expand, UnlimitedAll, LongChain;
  }

  lemma {:induction false} AlongTheChain(i: nat)
    requires i <= 7
    ensures Bounded(LongChain(), [i], 8 - i)
    ensures Resolve(LongChain(), None, [i], i).Unresolved?
    ensures Unlimited(LongChain(), None, [i], 8 - i) == Many([TARGET])
    decreases 7 - i
  {
    hide IndexOf, Expand;
    if i == 7 {
      ComboEnd();
    } else {
      LinkIsNotQualified(i);
      AlongTheChain(i + 1);
    }
  }

  /** With eight hops the cap can show: a combo reached over seven aliases is reported as
      unresolved although its member is a qualified name. */
  lemma EightHopsMayNotSuffice()
    ensures Bounded(LongChain(), [0], 8)
    ensures ResolveModelChain(LongChain(), None, [0]) == Unresolved
    ensures Unlimited(LongChain(), None, [0], 8) == Many([TARGET])
  {
    AlongTheChain(0);
  }
}
