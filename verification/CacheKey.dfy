/** What the cache key of src/domain/cache.ts depends on: every code unit of the stable prefix
    and of the tools. */
module CacheKey {
  import opened Common
  import opened Text
  import opened Digest
  import opened Cache

  /** What stands before and after part `i` of joined parts does not depend on the part. */
  lemma {:induction false} JoinAround(parts: seq<Str>, i: nat) returns (left: Str, right: Str)
    requires i < |parts|
    ensures forall part: Str :: Join(parts[i := part], 0) == left + part + right
  {
    if |parts| == 1 {
      left, right := [], [];
      forall part: Str
        ensures Join(parts[i := part], 0) == left + part + right
      {
        assert parts[i := part] == [part];
      }
    } else if i == 0 {
      left, right := [], [0] + Join(parts[1..], 0);
      forall part: Str
        ensures Join(parts[i := part], 0) == left + part + right
      {
        JoinStep(parts[i := part]);
        assert parts[i := part][1..] == parts[1..];
        assert part + [0] + Join(parts[1..], 0) == [] + part + right;
      }
    } else {
      var l, r := JoinAround(parts[1..], i - 1);
      left, right := parts[0] + [0] + l, r;
      forall part: Str
        ensures Join(parts[i := part], 0) == left + part + right
      {
        JoinStep(parts[i := part]);
        assert parts[i := part][1..] == parts[1..][i - 1 := part];
        assert parts[0] + [0] + (l + part + r) == left + part + right;
      }
    }
  }

  lemma JoinStep(parts: seq<Str>)
    requires |parts| > 1
    ensures Join(parts, 0) == parts[0] + [0] + Join(parts[1..], 0)
  {
  }

  /** The parts the key is made from: the texts of the prefix, then the tools. */
  function KeyParts(request: Request, looksStable: Stability): seq<Str> {
    TextsOf(LeadingRun(BlockSections(request.messages, looksStable)), request.messages)
    + if request.tools.Some? then [request.tools.value] else []
  }

  lemma PartsSeparate(parts: seq<Str>, i: nat, before: Str, u: Unit, v: Unit, after: Str)
    requires i < |parts| && u != v
    ensures Hex16(Fnv64(FNV64_OFFSET, Join(parts[i := before + [u] + after], 0)))
            != Hex16(Fnv64(FNV64_OFFSET, Join(parts[i := before + [v] + after], 0)))
  {
    hide Hex16, Fnv64, Join;
    var left, right := JoinAround(parts, i);
    Regroup(left, before, u, after, right);
    Regroup(left, before, v, after, right);
    DigestSeparatesOneUnit(left + before, u, v, after + right);
    assert Join(parts[i := before + [u] + after], 0) == left + before + [u] + (after + right);
    assert Join(parts[i := before + [v] + after], 0) == left + before + [v] + (after + right);
  }

  lemma Regroup(left: Str, before: Str, unit: Unit, after: Str, right: Str)
    ensures left + (before + [unit] + after) + right == left + before + [unit] + (after + right)
  {
  }

  /** Two requests whose prefix texts and tools agree but for one code unit have different
      cache keys. */
  lemma KeySeparatesOneUnit(a: Request, b: Request, looksStable: Stability, i: nat, before: Str, u: Unit, v: Unit,
                            after: Str)
    requires PlanOf(a, looksStable).end.Some? && PlanOf(b, looksStable).end.Some? && u != v
    requires i < |KeyParts(a, looksStable)| && KeyParts(a, looksStable)[i] == before + [u] + after
    requires KeyParts(b, looksStable) == KeyParts(a, looksStable)[i := before + [v] + after]
    ensures ApplyCachePlan(a, PlanOf(a, looksStable)).cacheKey.Some?
    ensures ApplyCachePlan(a, PlanOf(a, looksStable)).cacheKey != ApplyCachePlan(b, PlanOf(b, looksStable)).cacheKey
  {
    var parts := KeyParts(a, looksStable);
    PartsSeparate(parts, i, before, u, v, after);
    assert parts[i := before + [u] + after] == parts;
    KeyIsOfParts(a, looksStable);
    KeyIsOfParts(b, looksStable);
    ApplyChangesOneFlag(a, looksStable);
    ApplyChangesOneFlag(b, looksStable);
    hide PlanOf, KeyParts, ApplyCachePlan, Hex16, Fnv64, Join;
  }

  /** The key is a digest of those parts alone. */
  lemma KeyIsOfParts(request: Request, looksStable: Stability)
    requires PlanOf(request, looksStable).end.Some?
    ensures PlanOf(request, looksStable).fingerprint
            == Some(Hex16(Fnv64(FNV64_OFFSET, Join(KeyParts(request, looksStable), 0))))
  {
    hide LeadingRun, BlockSections, TextsOf, Hex16, Fnv64, Join, Marked;
  }
}
