/** Round robin over accounts that are given back in time (src/auth/credentials.ts): over runs
    of choosing, committing and releasing, in any order and for any number of providers. */
module Rotation {
  import Bits
  import opened Common
  import opened Text
  import opened Selector

  /** What the choices of one provider pick, in a run. */
  function PicksOf(s: State, steps: seq<Step>, provider: Str): seq<string>
    decreases |steps|
  {
    if steps == [] then []
    else
      var step := steps[0];
      var t := if Enabled(s, step) then Apply(s, step) else s;
      (if Enabled(s, step) && step.Choose? && step.provider == provider then
         [RoundRobinPick(step.pool, CursorOf(s, provider), s.loads)]
       else [])
      + PicksOf(t, steps[1..], provider)
  }

  ghost predicate AllIdleNow(pool: seq<string>, loads: Loads) {
    forall i :: 0 <= i < |pool| ==> Tally(loads, pool[i]) == 0
  }

  /** The provider's choices are all made from this pool, with every account of it idle. */
  ghost predicate IdleAtEachChoice(s: State, steps: seq<Step>, provider: Str, pool: seq<string>)
    decreases |steps|
  {
    steps == [] ||
    (var step := steps[0];
     && (step.Choose? && step.provider == provider ==> step.pool == pool && AllIdleNow(pool, s.loads))
     && IdleAtEachChoice(if Enabled(s, step) then Apply(s, step) else s, steps[1..], provider, pool))
  }

  ghost predicate GoRound(picks: seq<string>, pool: seq<string>, start: nat)
    requires pool != []
  {
    forall k :: 0 <= k < |picks| ==> picks[k] == pool[(start + k) % |pool|]
  }

  lemma OnePickOn(start: nat, k: nat, n: nat)
    requires n > 0
    ensures ((start + 1) % n + k) % n == (start + 1 + k) % n
  {
    var q, r := (start + 1) / n, (start + 1) % n;
    assert start + 1 == n * q + r;
    var p, m := (r + k) / n, (r + k) % n;
    assert r + k == n * p + m;
    assert start + 1 + k == n * (q + p) + m;
    Bits.QuotientIs(start + 1 + k, n, q + p, m);
  }

  lemma GoRoundCons(pool: seq<string>, start: nat, rest: seq<string>)
    requires pool != [] && GoRound(rest, pool, (start + 1) % |pool|)
    ensures GoRound([pool[start % |pool|]] + rest, pool, start)
  {
    var picks := [pool[start % |pool|]] + rest;
    forall k | 0 <= k < |picks|
      ensures picks[k] == pool[(start + k) % |pool|]
    {
      if k > 0 {
        OnePickOn(start, k - 1, |pool|);
        assert picks[k] == rest[k - 1];
      }
    }
  }

  lemma IdleChoice(s: State, provider: Str, pool: seq<string>)
    requires |pool| > 1 && AllIdleNow(pool, s.loads)
    ensures RoundRobinPick(pool, CursorOf(s, provider), s.loads) == pool[CursorOf(s, provider) % |pool|]
    ensures CursorOf(Apply(s, Choose(provider, pool)), provider) == (CursorOf(s, provider) + 1) % |pool|
  {
    AllIdle(pool, s.loads);
    hide Idle;
  }

  lemma OtherSteps(s: State, step: Step, provider: Str)
    requires Enabled(s, step) && !(step.Choose? && step.provider == provider)
    ensures CursorOf(Apply(s, step), provider) == CursorOf(s, provider)
  {
  }

  /** Whatever is committed and released in between, and whatever other providers do: while
      every account is idle again at each choice, pick k of a provider is the account k places
      on from its cursor. */
  lemma {:induction false} IdlePoolsRotate(s: State, steps: seq<Step>, provider: Str, pool: seq<string>)
    requires |pool| > 1 && IdleAtEachChoice(s, steps, provider, pool)
    ensures GoRound(PicksOf(s, steps, provider), pool, CursorOf(s, provider))
    decreases |steps|
  {
    hide GoRound, CursorOf, RoundRobinPick, Apply, AllIdleNow;
    if steps == [] {
      NoPicksGoRound(pool, CursorOf(s, provider));
      return;
    }
    var step := steps[0];
    var t := if Enabled(s, step) then Apply(s, step) else s;
    IdlePoolsRotate(t, steps[1..], provider, pool);
    var rest := PicksOf(t, steps[1..], provider);
    assert [] + rest == rest;
    if step.Choose? && step.provider == provider {
      IdleChoice(s, provider, pool);
      GoRoundCons(pool, CursorOf(s, provider), rest);
    } else if Enabled(s, step) {
      OtherSteps(s, step, provider);
    }
    assert GoRound(PicksOf(s, steps, provider), pool, CursorOf(s, provider));
  }

  lemma NoPicksGoRound(pool: seq<string>, start: nat)
    requires pool != []
    ensures GoRound([], pool, start)
  {
  }

  /** A provider's first choice is the first account of its pool. */
  lemma FirstChoiceIsFirst(steps: seq<Step>, provider: Str, pool: seq<string>)
    requires |pool| > 1 && IdleAtEachChoice(State(map[], map[], map[], map[]), steps, provider, pool)
    requires PicksOf(State(map[], map[], map[], map[]), steps, provider) != []
    ensures PicksOf(State(map[], map[], map[], map[]), steps, provider)[0] == pool[0]
  {
    IdlePoolsRotate(State(map[], map[], map[], map[]), steps, provider, pool);
    hide PicksOf, IdleAtEachChoice;
  }

  /** So any n picks in a row, n being the size of the pool, include every account. */
  lemma EveryAccountHasItsTurn(s: State, steps: seq<Step>, provider: Str, pool: seq<string>, from: nat, p: nat)
      returns (k: nat)
    requires |pool| > 1 && IdleAtEachChoice(s, steps, provider, pool) && p < |pool|
    requires from + |pool| <= |PicksOf(s, steps, provider)|
    ensures from <= k < from + |pool| && PicksOf(s, steps, provider)[k] == pool[p]
  {
    IdlePoolsRotate(s, steps, provider, pool);
    hide PicksOf, IdleAtEachChoice, CursorOf;
    var n, start := |pool|, CursorOf(s, provider) + from;
    k := from + (p + n - start % n) % n;
    WindowPlace(p, start, n);
    assert CursorOf(s, provider) + k == start + (p + n - start % n) % n;
  }
}
