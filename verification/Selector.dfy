/** Account selection (`CredentialSelector` in src/auth/credentials.ts): sticky windows,
    idle-aware round robin, and the in-flight counters. */
module Selector {
  import Bits
  import opened Common
  import opened Text
  import opened Rendezvous
  import OAuth

  // ------------------------------------------------------------ the sticky window

  /** `stableCredentialHash(affinity:provider)`, the same FNV-1a as the rendezvous score. */
  function StickyHash(affinity: Str, provider: Str): nat {
    Fnv32(FNV32_OFFSET, affinity + [0x3A] + provider)
  }

  /** The limit after `Math.round`, clamped to 1..100; 0 when there is none. */
  function StickyLimit(limit: Option<int>): (n: nat)
    ensures n <= 100 && (limit.Some? <==> n > 0)
  {
    match limit
    case None => 0
    case Some(x) => if x < 1 then 1 else if x > 100 then 100 else x
  }

  function StickyPool(eligible: seq<string>, limit: Option<int>, affinity: Str, provider: Str): seq<string> {
    var n := StickyLimit(limit);
    if n > 0 && affinity != [] && |eligible| >= n then
      seq(n, offset requires 0 <= offset < n => eligible[(StickyHash(affinity, provider) + offset) % |eligible|])
    else eligible
  }

  /** Stickiness needs a limit, a key, and as many eligible accounts as the limit; without one of
      these the pool is all that are eligible. A limit from 1 to 100 counts as it is. */
  lemma NoStickiness(eligible: seq<string>, limit: Option<int>, affinity: Str, provider: Str)
    ensures limit.None? || affinity == [] ==> StickyPool(eligible, limit, affinity, provider) == eligible
    ensures limit.Some? && 1 <= limit.value <= 100 ==> StickyLimit(limit) == limit.value
    ensures limit.Some? && limit.value > 100 ==> StickyLimit(limit) == 100
    ensures limit.Some? && limit.value < 1 ==> StickyLimit(limit) == 1
    ensures |eligible| < StickyLimit(limit) ==> StickyPool(eligible, limit, affinity, provider) == eligible
  {
  }

  ghost predicate DistinctIds(s: seq<string>) {
    forall i, j :: 0 <= i < j < |s| ==> s[i] != s[j]
  }

  ghost function Members(s: seq<string>): set<string> {
    set id | id in s
  }

  lemma WindowStepsDiffer(h: nat, i: nat, j: nat, n: nat)
    requires i < j < n
    ensures (h + i) % n != (h + j) % n
  {
    var a, b := (h + i) / n, (h + j) / n;
    var d := b - a;
    assert n * d == n * b - n * a;
    Bits.ScaleGrows(n, d);
  }

  /** With stickiness in force the pool is a cyclic window of exactly the limit: that many
      different eligible accounts, starting at a place that depends on key and provider
      only. */
  lemma StickyPoolIsWindow(eligible: seq<string>, limit: Option<int>, affinity: Str, provider: Str)
    requires DistinctIds(eligible) && limit.Some? && affinity != [] && |eligible| >= StickyLimit(limit)
    ensures var pool := StickyPool(eligible, limit, affinity, provider);
            && |pool| == StickyLimit(limit) && DistinctIds(pool)
            && (forall i :: 0 <= i < |pool| ==> pool[i] in eligible)
            && (forall i :: 0 <= i < |pool| ==> pool[i] == eligible[(StickyHash(affinity, provider) + i) % |eligible|])
  {
    var pool := StickyPool(eligible, limit, affinity, provider);
    var h, n := StickyHash(affinity, provider), |eligible|;
    hide StickyHash;
    forall i, j | 0 <= i < j < |pool|
      ensures pool[i] != pool[j]
    {
      WindowStepsDiffer(h, i, j, n);
    }
  }

  // ------------------------------------------------------------ one pick

  type Loads = map<string, nat>

  function Idle(pool: seq<string>, loads: Loads): (idle: seq<string>)
    ensures |idle| <= |pool|
  {
    if pool == [] then []
    else (if Tally(loads, pool[0]) == 0 then [pool[0]] else []) + Idle(pool[1..], loads)
  }

  /** The pool the cursor indexes: the idle accounts if there are any. */
  function Candidates(pool: seq<string>, loads: Loads): (c: seq<string>)
    requires pool != []
    ensures c != []
  {
    if Idle(pool, loads) != [] then Idle(pool, loads) else pool
  }

  function RoundRobinPick(pool: seq<string>, cursor: nat, loads: Loads): string
    requires pool != []
  {
    var candidates := Candidates(pool, loads);
    candidates[cursor % |candidates|]
  }

  function NextCursor(pool: seq<string>, cursor: nat, loads: Loads): nat
    requires pool != []
  {
    (cursor + 1) % |Candidates(pool, loads)|
  }

  function PriorityPick(eligible: seq<string>, loads: Loads): Option<string> {
    var idle := Idle(eligible, loads);
    if idle != [] then Some(idle[0]) else if eligible != [] then Some(eligible[0]) else None
  }

  function Track(loads: Loads, id: string): Loads {
    loads[id := Tally(loads, id) + 1]
  }

  function Untrack(loads: Loads, id: string): Loads {
    var next := Tally(loads, id) - 1;
    if next > 0 then loads[id := next] else loads - {id}
  }

  // ------------------------------------------------------------ sequences of picks

  /** The picks of `count` selections in a row, each tracked, none released. */
  function Picks(pool: seq<string>, cursor: nat, loads: Loads, count: nat): (picks: seq<string>)
    requires pool != []
    ensures |picks| == count
    decreases count
  {
    if count == 0 then []
    else
      var id := RoundRobinPick(pool, cursor, loads);
      [id] + Picks(pool, NextCursor(pool, cursor, loads), Track(loads, id), count - 1)
  }

  lemma PicksStep(pool: seq<string>, cursor: nat, loads: Loads, count: nat)
    requires pool != [] && count > 0
    ensures var id := RoundRobinPick(pool, cursor, loads);
            Picks(pool, cursor, loads, count)
            == [id] + Picks(pool, NextCursor(pool, cursor, loads), Track(loads, id), count - 1)
  {
    hide NextCursor, RoundRobinPick, Track;
  }

  lemma {:induction false} IdleMembers(pool: seq<string>, loads: Loads)
    ensures forall id :: id in Idle(pool, loads) <==> id in pool && Tally(loads, id) == 0
  {
    if pool != [] { IdleMembers(pool[1..], loads); }
  }

  lemma {:induction false} IdleIgnores(pool: seq<string>, loads: Loads, id: string)
    requires id !in pool
    ensures Idle(pool, Track(loads, id)) == Idle(pool, loads)
  {
    if pool != [] { IdleIgnores(pool[1..], loads, id); }
  }

  lemma {:induction false} IdleShrinks(pool: seq<string>, loads: Loads, id: string)
    requires DistinctIds(pool) && id in Idle(pool, loads)
    ensures |Idle(pool, Track(loads, id))| == |Idle(pool, loads)| - 1
    ensures id !in Idle(pool, Track(loads, id))
    ensures Members(Idle(pool, Track(loads, id))) <= Members(Idle(pool, loads))
  {
    IdleMembers(pool, loads);
    IdleMembers(pool, Track(loads, id));
    if pool[0] == id {
      assert id !in pool[1..];
      IdleIgnores(pool[1..], loads, id);
    } else {
      IdleMembers(pool[1..], loads);
      IdleShrinks(pool[1..], loads, id);
    }
  }

  /** Different accounts, all of them among `idle`. */
  ghost predicate DistinctAmong(picks: seq<string>, idle: seq<string>) {
    DistinctIds(picks) && Members(picks) <= Members(idle)
  }

  lemma ConsDistinct(id: string, rest: seq<string>, idle: seq<string>, fewer: seq<string>)
    requires DistinctAmong(rest, fewer)
    requires id in idle && id !in fewer && Members(fewer) <= Members(idle)
    ensures DistinctAmong([id] + rest, idle)
  {
    var all := [id] + rest;
    forall i, j | 0 <= i < j < |all|
      ensures all[i] != all[j]
    {
      assert all[j] in Members(rest);
      if i > 0 { assert all[i] == rest[i - 1] && all[j] == rest[j - 1]; }
    }
  }

  lemma NoPicks(pool: seq<string>, cursor: nat, loads: Loads)
    requires pool != []
    ensures DistinctAmong(Picks(pool, cursor, loads, 0), Idle(pool, loads))
  {
    assert Picks(pool, cursor, loads, 0) == [];
  }

  lemma PickIsIdle(pool: seq<string>, cursor: nat, loads: Loads)
    requires pool != [] && Idle(pool, loads) != []
    ensures RoundRobinPick(pool, cursor, loads) in Idle(pool, loads)
  {
  }

  /** While enough accounts are idle, consecutive picks are different idle accounts, from
      every starting cursor. */
  lemma {:induction false} IdlePicksAreDistinct(pool: seq<string>, cursor: nat, loads: Loads, count: nat)
    requires pool != [] && DistinctIds(pool) && count <= |Idle(pool, loads)|
    ensures DistinctAmong(Picks(pool, cursor, loads, count), Idle(pool, loads))
    decreases count
  {
    hide *;
    if count == 0 {
      NoPicks(pool, cursor, loads);
      return;
    }
    PicksStep(pool, cursor, loads, count);
    var id, cursor' := RoundRobinPick(pool, cursor, loads), NextCursor(pool, cursor, loads);
    var loads' := Track(loads, id);
    PickIsIdle(pool, cursor, loads);
    IdleShrinks(pool, loads, id);
    IdlePicksAreDistinct(pool, cursor', loads', count - 1);
    ConsDistinct(id, Picks(pool, cursor', loads', count - 1), Idle(pool, loads), Idle(pool, loads'));
  }

  lemma {:induction false} AllIdle(pool: seq<string>, loads: Loads)
    requires forall i :: 0 <= i < |pool| ==> Tally(loads, pool[i]) == 0
    ensures Idle(pool, loads) == pool
  {
    if pool != [] { AllIdle(pool[1..], loads); }
  }

  /** Over an idle pool of n accounts, n selections without a release pick every account
      exactly once, whatever the cursor was. */
  lemma FirstRoundCoversPool(pool: seq<string>, cursor: nat, loads: Loads)
    requires pool != [] && DistinctIds(pool)
    requires forall i :: 0 <= i < |pool| ==> Tally(loads, pool[i]) == 0
    ensures DistinctIds(Picks(pool, cursor, loads, |pool|))
    ensures multiset(Picks(pool, cursor, loads, |pool|)) == multiset(pool)
  {
    AllIdle(pool, loads);
    hide Picks, Idle;
    IdlePicksAreDistinct(pool, cursor, loads, |pool|);
    DistinctCover(Picks(pool, cursor, loads, |pool|), pool);
  }

  lemma {:induction false} DistinctCount(s: seq<string>)
    requires DistinctIds(s)
    ensures |Members(s)| == |s| && multiset(s) == multiset(Members(s))
  {
    if s == [] {
      assert Members(s) == {};
    } else {
      var front, last := s[..|s| - 1], s[|s| - 1];
      assert s == front + [last];
      DistinctCount(front);
      assert Members(s) == Members(front) + {last};
    }
  }

  lemma DistinctCover(a: seq<string>, b: seq<string>)
    requires DistinctIds(a) && DistinctIds(b) && |a| == |b| && Members(a) <= Members(b)
    ensures multiset(a) == multiset(b)
  {
    DistinctCount(a);
    DistinctCount(b);
    assert Members(b) == Members(a) + (Members(b) - Members(a));
    assert |Members(b) - Members(a)| == 0;
  }

  ghost predicate AllBusy(pool: seq<string>, loads: Loads) {
    forall i :: 0 <= i < |pool| ==> Tally(loads, pool[i]) > 0
  }

  lemma NoneIdle(pool: seq<string>, loads: Loads)
    requires AllBusy(pool, loads)
    ensures Idle(pool, loads) == []
  {
    IdleMembers(pool, loads);
    if Idle(pool, loads) != [] { assert Idle(pool, loads)[0] in Idle(pool, loads); }
  }

  lemma BusyPick(pool: seq<string>, cursor: nat, loads: Loads)
    requires pool != [] && AllBusy(pool, loads)
    ensures RoundRobinPick(pool, cursor, loads) == pool[cursor % |pool|]
    ensures NextCursor(pool, cursor, loads) == (cursor + 1) % |pool|
    ensures AllBusy(pool, Track(loads, RoundRobinPick(pool, cursor, loads)))
  {
    NoneIdle(pool, loads);
  }

  /** Once every account is busy the picks walk the pool in order and repeat with its size:
      pick number k is the account at `cursor + k`, the loads notwithstanding. */
  lemma {:induction false} BusyPicksAreCyclic(pool: seq<string>, cursor: nat, loads: Loads, count: nat, k: nat)
    requires pool != [] && AllBusy(pool, loads) && k < count
    ensures Picks(pool, cursor, loads, count)[k] == pool[(cursor + k) % |pool|]
    decreases count
  {
    hide *;
    PicksStep(pool, cursor, loads, count);
    var id, cursor' := RoundRobinPick(pool, cursor, loads), NextCursor(pool, cursor, loads);
    var loads' := Track(loads, id);
    BusyPick(pool, cursor, loads);
    if k > 0 {
      BusyPicksAreCyclic(pool, cursor', loads', count - 1, k - 1);
      WrapAgain(cursor, k, |pool|);
    }
  }

  lemma WrapAgain(cursor: nat, k: nat, n: nat)
    requires n > 0 && k > 0
    ensures ((cursor + 1) % n + (k - 1)) % n == (cursor + k) % n
  {
    var q := (cursor + 1) / n;
    assert cursor + 1 == n * q + (cursor + 1) % n;
    var r := (cursor + 1) % n + (k - 1);
    assert cursor + k == n * q + r;
    ModShift(r, q, n);
  }

  lemma {:induction false} ModShift(r: nat, q: nat, n: nat)
    requires n > 0
    ensures (n * q + r) % n == r % n
    decreases q
  {
    if q > 0 {
      ModShift(r, q - 1, n);
      var x := n * (q - 1) + r;
      assert n * q + r == x + n;
      assert (x + n) % n == x % n by {
        assert x + n == n * (x / n + 1) + x % n;
        Bits.QuotientIs(x + n, n, x / n + 1, x % n);
      }
    }
  }

  lemma BusyPicksRepeat(pool: seq<string>, cursor: nat, loads: Loads, count: nat, k: nat)
    requires pool != [] && AllBusy(pool, loads) && k + |pool| < count
    ensures Picks(pool, cursor, loads, count)[k + |pool|] == Picks(pool, cursor, loads, count)[k]
  {
    hide *;
    BusyPicksAreCyclic(pool, cursor, loads, count, k);
    BusyPicksAreCyclic(pool, cursor, loads, count, k + |pool|);
    ModShift(cursor + k, 1, |pool|);
    assert cursor + (k + |pool|) == |pool| * 1 + (cursor + k);
  }

  /** The fallback is not least-loaded: of two busy accounts the one with five requests in
      flight is picked before the one with one. */
  lemma BusyPickIgnoresLoad()
    ensures exists loads: Loads :: AllBusy(["a", "b"], loads) && Tally(loads, "a") > Tally(loads, "b")
                                   && RoundRobinPick(["a", "b"], 0, loads) == "a"
  {
    var loads: Loads := map["a" := 5, "b" := 1];
    var pool := ["a", "b"];
    assert "a" != "b";
    assert AllBusy(pool, loads);
    NoneIdle(pool, loads);
    assert RoundRobinPick(pool, 0, loads) == "a";
  }

  // ------------------------------------------------------------ is stickiness kept

  /** The account `select` chooses. The cursor is used only on a pool of more than one;
      otherwise the sticky pool plays no part. */
  function Choice(pool: seq<string>, eligible: seq<string>, cursor: nat, loads: Loads, roundRobin: bool)
    : Option<string>
  {
    if roundRobin && |pool| > 1 then Some(RoundRobinPick(pool, cursor, loads)) else PriorityPick(eligible, loads)
  }

  /** The place of the first idle account, or 0 when all are busy. */
  function FirstIdle(eligible: seq<string>, loads: Loads): (p: nat)
    ensures eligible != [] ==> p < |eligible| && PriorityPick(eligible, loads) == Some(eligible[p])
  {
    if Idle(eligible, loads) == [] || Tally(loads, eligible[0]) == 0 then 0 else FirstIdle(eligible[1..], loads) + 1
  }

  /** Counted from the start of the window, place `p` of `n` is one of the first `limit`. */
  predicate InWindow(p: nat, start: nat, n: nat, limit: nat)
    requires n > 0
  {
    (p + n - start % n) % n < limit
  }

  lemma WindowPlace(p: nat, start: nat, n: nat)
    requires p < n
    ensures (start + (p + n - start % n) % n) % n == p
  {
    var q, r := start / n, start % n;
    assert start == n * q + r;
    if p >= r {
      Bits.QuotientIs(p + n - r, n, 1, p - r);
      Bits.QuotientIs(start + (p - r), n, q, p);
    } else {
      Bits.QuotientIs(p + n - r, n, 0, p + n - r);
      assert start + (p + n - r) == n * (q + 1) + p;
      Bits.QuotientIs(start + (p + n - r), n, q + 1, p);
    }
  }

  ghost predicate StickyInForce(eligible: seq<string>, limit: Option<int>, affinity: Str) {
    limit.Some? && affinity != [] && |eligible| >= StickyLimit(limit)
  }

  lemma InPoolIff(eligible: seq<string>, limit: Option<int>, affinity: Str, provider: Str, p: nat)
    requires DistinctIds(eligible) && StickyInForce(eligible, limit, affinity) && p < |eligible|
    ensures eligible[p] in StickyPool(eligible, limit, affinity, provider)
            <==> InWindow(p, StickyHash(affinity, provider), |eligible|, StickyLimit(limit))
  {
    var pool := StickyPool(eligible, limit, affinity, provider);
    var start, n := StickyHash(affinity, provider), |eligible|;
    var place := (p + n - start % n) % n;
    StickyPoolIsWindow(eligible, limit, affinity, provider);
    WindowPlace(p, start, n);
    hide StickyPool, StickyHash, StickyLimit;
    if place < |pool| { assert pool[place] == eligible[p]; }
    if eligible[p] in pool {
      var i :| 0 <= i < |pool| && pool[i] == eligible[p];
      if i < place { WindowStepsDiffer(start, i, place, n); }
    }
  }

  lemma {:induction false} IdleAreMembers(pool: seq<string>, loads: Loads)
    ensures forall id :: id in Idle(pool, loads) ==> id in pool
  {
    if pool != [] { IdleAreMembers(pool[1..], loads); }
  }

  /** With stickiness in force, the chosen account is one of the sticky pool exactly when the
      round robin is used, or the first idle eligible account (the first of all when none is
      idle) happens to lie in the window. */
  lemma ChoiceStaysInPoolIff(eligible: seq<string>, limit: Option<int>, affinity: Str, provider: Str, cursor: nat,
                             loads: Loads, roundRobin: bool)
    requires DistinctIds(eligible) && StickyInForce(eligible, limit, affinity)
    ensures var pool := StickyPool(eligible, limit, affinity, provider);
            var chosen := Choice(pool, eligible, cursor, loads, roundRobin);
            && chosen.Some?
            && (chosen.value in pool <==>
                || (roundRobin && StickyLimit(limit) > 1)
                || InWindow(FirstIdle(eligible, loads), StickyHash(affinity, provider), |eligible|, StickyLimit(limit)))
  {
    var pool := StickyPool(eligible, limit, affinity, provider);
    StickyPoolIsWindow(eligible, limit, affinity, provider);
    InPoolIff(eligible, limit, affinity, provider, FirstIdle(eligible, loads));
    IdleAreMembers(pool, loads);
    hide StickyPool, StickyHash, Idle, InWindow;
  }

  lemma MixParity(hash: nat, unit: Unit)
    ensures Rendezvous.Mix(hash, unit) % 2 == (hash + unit) % 2
  {
    var x := Bits.Xor(hash, unit);
    Bits.XorParity(hash, unit);
    hide Bits.Xor;
    OddTimes(x, 0x80_00c9);
    EvenModulus(x * FNV32_PRIME, 0x8000_0000);
  }

  lemma OddTimes(x: nat, h: nat)
    ensures (x * (2 * h + 1)) % 2 == x % 2
  {
    assert x * (2 * h + 1) == 2 * (x * h) + x;
  }

  lemma EvenModulus(y: nat, h: nat)
    requires h > 0
    ensures y % (2 * h) % 2 == y % 2
  {
    Bits.RemainderDigit(y / 2, y % 2, h);
  }

  lemma {:induction false} HashParity(hash: nat, input: Str)
    ensures input == [] ==> Fnv32(hash, input) == hash
    ensures input != [] ==> Fnv32(hash, input) == Fnv32(Rendezvous.Mix(hash, input[0]), input[1..])
    ensures input != [] ==> Rendezvous.Mix(hash, input[0]) % 2 == (hash + input[0]) % 2
  {
    if input != [] { MixParity(hash, input[0]); }
    hide Rendezvous.Mix;
  }

  lemma OddHash()
    ensures StickyHash([0x62], [0x70]) % 2 == 1
  {
    hide Rendezvous.Mix, Fnv32;
    var input: Str := [0x62, 0x3A, 0x70];
    assert [0x62] + [0x3A] + [0x70] == input;
    HashParity(FNV32_OFFSET, input);
    var one := Rendezvous.Mix(FNV32_OFFSET, 0x62);
    assert input[1..] == [0x3A, 0x70];
    HashParity(one, [0x3A, 0x70]);
    var two := Rendezvous.Mix(one, 0x3A);
    assert [0x3A, 0x70][1..] == [0x70];
    HashParity(two, [0x70]);
    assert [0x70][1..] == [];
    HashParity(Rendezvous.Mix(two, 0x70), []);
  }

  /** A sticky pool of one is not used: of two idle accounts the pool is the second, and the
      round robin takes the first. */
  lemma StickyPoolOfOneIsIgnored()
    ensures var pool := StickyPool(["a", "b"], Some(1), [0x62], [0x70]);
            pool == ["b"] && Choice(pool, ["a", "b"], 0, map[], true) == Some("a")
  {
    OddHash();
    hide StickyHash, RoundRobinPick;
    assert StickyPool(["a", "b"], Some(1), [0x62], [0x70])[0] == "b";
  }

  // ------------------------------------------------------------ counters over every run

  /** `statics` counts the selections of static secrets, which get no lease entry. */
  datatype State = State(cursors: map<Str, nat>, loads: Loads, leases: map<nat, string>, statics: map<string, nat>)

  datatype Step =
    | Choose(provider: Str, pool: seq<string>)
    | Commit(id: string, lease: Option<nat>)
    | Release(released: nat)

  predicate Enabled(s: State, step: Step) {
    match step
    case Choose(_, pool) => |pool| > 1
    case Commit(_, lease) => lease.Some? ==> lease.value !in s.leases
    case Release(_) => true
  }

  function CursorOf(s: State, provider: Str): nat {
    if provider in s.cursors then s.cursors[provider] else 0
  }

  function Apply(s: State, step: Step): State
    requires Enabled(s, step)
  {
    match step
    case Choose(provider, pool) => s.(cursors := s.cursors[provider :=
      NextCursor(pool, CursorOf(s, provider), s.loads)])
    case Commit(id, Some(lease)) => s.(loads := Track(s.loads, id), leases := s.leases[lease := id])
    case Commit(id, None) => s.(loads := Track(s.loads, id), statics := s.statics[id := Tally(s.statics, id) + 1])
    case Release(lease) =>
      if lease !in s.leases then s
      else s.(loads := Untrack(s.loads, s.leases[lease]), leases := s.leases - {lease})
  }

  function Run(s: State, steps: seq<Step>): State
    decreases |steps|
  {
    if steps == [] then s else Run(if Enabled(s, steps[0]) then Apply(s, steps[0]) else s, steps[1..])
  }

  ghost predicate Balanced(s: State) {
    && (forall id :: Tally(s.loads, id) == |OAuth.LeasesOf(s.leases, id)| + Tally(s.statics, id))
    && (forall id :: id in s.loads ==> s.loads[id] > 0)
  }

  lemma CommitKeepsBalance(s: State, id: string, lease: Option<nat>)
    requires Balanced(s) && Enabled(s, Commit(id, lease))
    ensures Balanced(Apply(s, Commit(id, lease)))
  {
    var t := Apply(s, Commit(id, lease));
    forall x
      ensures Tally(t.loads, x) == |OAuth.LeasesOf(t.leases, x)| + Tally(t.statics, x)
    {
      assert Tally(s.loads, x) == |OAuth.LeasesOf(s.leases, x)| + Tally(s.statics, x);
      if lease.Some? { OAuth.LeaseAdds(s.leases, lease.value, id, x); }
    }
  }

  lemma ReleaseKeepsBalance(s: State, lease: nat)
    requires Balanced(s) && lease in s.leases
    ensures Balanced(Apply(s, Release(lease)))
  {
    var t := Apply(s, Release(lease));
    var id := s.leases[lease];
    assert s.leases == t.leases[lease := id];
    forall x
      ensures Tally(t.loads, x) == |OAuth.LeasesOf(t.leases, x)| + Tally(t.statics, x)
    {
      assert Tally(s.loads, x) == |OAuth.LeasesOf(s.leases, x)| + Tally(s.statics, x);
      OAuth.LeaseAdds(t.leases, lease, id, x);
    }
  }

  lemma {:induction false} RunKeepsBalance(s: State, steps: seq<Step>)
    requires Balanced(s)
    ensures Balanced(Run(s, steps))
    decreases |steps|
  {
    if steps != [] {
      var step := steps[0];
      if Enabled(s, step) {
        if step.Commit? { CommitKeepsBalance(s, step.id, step.lease); }
        if step.Release? && step.released in s.leases { ReleaseKeepsBalance(s, step.released); }
        assert step.Choose? ==> Balanced(Apply(s, step)) by { assert step.Choose? ==> Apply(s, step).loads == s.loads; }
        hide Balanced, Enabled;
        RunKeepsBalance(Apply(s, step), steps[1..]);
      } else {
        RunKeepsBalance(s, steps[1..]);
      }
    }
  }

  /** Whatever the interleaving of choices, commits and releases, an account's in-flight
      count is its outstanding leases plus every static-secret selection ever made of it: the
      latter are never given back, so the account never looks idle again. */
  lemma InFlightCountsLeasesAndStatics(steps: seq<Step>, id: string)
    ensures var s := Run(State(map[], map[], map[], map[]), steps);
            && Tally(s.loads, id) == |OAuth.LeasesOf(s.leases, id)| + Tally(s.statics, id)
            && (id in s.loads <==> Tally(s.loads, id) > 0)
  {
    var start := State(map[], map[], map[], map[]);
    forall x: string
      ensures OAuth.LeasesOf(start.leases, x) == {}
    {
    }
    RunKeepsBalance(start, steps);
  }

  // ------------------------------------------------------------ the class

  class CredentialSelector {
    var leases: map<nat, string>
    var roundRobinCursor: map<Str, nat>
    var inFlightByAccount: Loads
    ghost var statics: map<string, nat>

    ghost function View(): State
      reads this
    {
      State(roundRobinCursor, inFlightByAccount, leases, statics)
    }

    constructor ()
      ensures View() == State(map[], map[], map[], map[])
    {
      leases, roundRobinCursor, inFlightByAccount, statics := map[], map[], map[], map[];
    }

    /** The synchronous part of `select`: pools, pick and cursor. */
    method ChooseAccount(provider: Str, key: Str, eligible: seq<string>, limit: Option<int>, roundRobin: bool)
      returns (chosen: Option<string>)
      modifies this`roundRobinCursor
      ensures var pool := StickyPool(eligible, limit, key, provider);
              && chosen == Choice(pool, eligible, CursorOf(old(View()), provider), inFlightByAccount, roundRobin)
              && View() == if roundRobin && |pool| > 1 then Apply(old(View()), Choose(provider, pool)) else old(View())
    {
      hide StickyPool, Idle;
      var pool := StickyPool(eligible, limit, key, provider);
      if roundRobin && |pool| > 1 {
        var cursor := if provider in roundRobinCursor then roundRobinCursor[provider] else 0;
        var idle := Idle(pool, inFlightByAccount);
        var candidates := if |idle| > 0 then idle else pool;
        chosen := Some(candidates[cursor % |candidates|]);
        roundRobinCursor := roundRobinCursor[provider := (cursor + 1) % |candidates|];
      } else {
        var idle := Idle(eligible, inFlightByAccount);
        chosen := if |idle| > 0 then Some(idle[0]) else if |eligible| > 0 then Some(eligible[0]) else None;
      }
    }

    /** The tail of `select`, after the secret was obtained; only OAuth accounts bring a
        lease. */
    method CommitSelection(id: string, lease: Option<nat>)
      requires Enabled(View(), Commit(id, lease))
      modifies this
      ensures View() == Apply(old(View()), Commit(id, lease))
    {
      if lease.Some? {
        leases := leases[lease.value := id];
      } else {
        statics := statics[id := Tally(statics, id) + 1];
      }
      inFlightByAccount := inFlightByAccount[id := Tally(inFlightByAccount, id) + 1];
    }

    method ReleaseSelection(lease: nat)
      modifies this
      ensures View() == Apply(old(View()), Release(lease))
    {
      if lease !in leases { return; }
      var id := leases[lease];
      leases := leases - {lease};
      var next := Tally(inFlightByAccount, id) - 1;
      if next > 0 {
        inFlightByAccount := inFlightByAccount[id := next];
      } else {
        inFlightByAccount := inFlightByAccount - {id};
      }
    }
  }
}
