/** The Model Studio session store (src/console/model-studio.ts): sessions in insertion order
    under a time to live, a session count and two byte limits. A session's size and the clock
    are inputs. */
module Studio {
  import opened Common

  datatype Session = Session(id: string, updatedAt: int, bytes: nat)

  type Positive = n: nat | n >= 1 witness 1

  datatype Limits = Limits(maxSessions: Positive, maxSessionBytes: nat, maxTotalBytes: nat, ttl: nat)

  ghost predicate Distinct(ss: seq<Session>) {
    forall i, j :: 0 <= i < j < |ss| ==> ss[i].id != ss[j].id
  }

  function Sum(ss: seq<Session>): nat {
    if ss == [] then 0 else ss[0].bytes + Sum(ss[1..])
  }

  function Lookup(ss: seq<Session>, id: string): Option<Session> {
    if ss == [] then None else if ss[0].id == id then Some(ss[0]) else Lookup(ss[1..], id)
  }

  function Without(ss: seq<Session>, id: string): (left: seq<Session>)
    ensures |left| <= |ss|
  {
    if ss == [] then [] else (if ss[0].id == id then [] else [ss[0]]) + Without(ss[1..], id)
  }

  function Live(ss: seq<Session>, cutoff: int): (left: seq<Session>)
    ensures |left| <= |ss|
  {
    if ss == [] then [] else (if ss[0].updatedAt < cutoff then [] else [ss[0]]) + Live(ss[1..], cutoff)
  }

  /** The least recently updated session, the earliest stored among equals. */
  function OldestIndex(ss: seq<Session>): (oldest: nat)
    requires ss != []
    ensures oldest < |ss|
    ensures forall i :: 0 <= i < |ss| ==> ss[oldest].updatedAt <= ss[i].updatedAt
    ensures forall i :: 0 <= i < oldest ==> ss[oldest].updatedAt < ss[i].updatedAt
  {
    var last := |ss| - 1;
    if last == 0 then 0
    else
      var best := OldestIndex(ss[..last]);
      assert forall i :: 0 <= i < last ==> ss[..last][i] == ss[i];
      if ss[last].updatedAt < ss[best].updatedAt then last else best
  }

  predicate Fits(limits: Limits, ss: seq<Session>, bytes: nat) {
    |ss| < limits.maxSessions && Sum(ss) + bytes <= limits.maxTotalBytes
  }

  lemma {:induction false} WithoutPresent(ss: seq<Session>, i: nat)
    requires i < |ss| && Distinct(ss)
    ensures Sum(ss) == Sum(Without(ss, ss[i].id)) + ss[i].bytes && |Without(ss, ss[i].id)| == |ss| - 1
  {
    if i == 0 {
      forall j | 0 <= j < |ss[1..]|
        ensures ss[1..][j].id != ss[0].id
      {
        assert ss[1..][j] == ss[j + 1];
      }
      WithoutAbsent(ss[1..], ss[0].id);
      assert Without(ss, ss[0].id) == [] + ss[1..] == ss[1..];
    } else {
      var rest := ss[1..];
      assert rest[i - 1] == ss[i] && ss[0].id != ss[i].id && Distinct(rest);
      hide Distinct;
      WithoutPresent(rest, i - 1);
      var left := Without(ss, ss[i].id);
      assert left[0] == ss[0] && left[1..] == Without(rest, ss[i].id);
    }
  }

  lemma {:induction false} WithoutAbsent(ss: seq<Session>, id: string)
    requires forall i :: 0 <= i < |ss| ==> ss[i].id != id
    ensures Without(ss, id) == ss
  {
    if ss != [] { WithoutAbsent(ss[1..], id); }
  }

  /** The eviction loop: out goes the oldest, until the new session fits or nothing is left. */
  function Evict(limits: Limits, ss: seq<Session>, bytes: nat): (kept: seq<Session>)
    requires Distinct(ss)
    ensures |kept| <= |ss|
    decreases |ss|
  {
    if Fits(limits, ss, bytes) || ss == [] then ss
    else
      var i := OldestIndex(ss);
      WithoutPresent(ss, i);
      WithoutIsPart(ss, ss[i].id);
      Evict(limits, Without(ss, ss[i].id), bytes)
  }

  /** `storeSession`: whether it stored, and the sessions it leaves. */
  function Store(limits: Limits, ss: seq<Session>, session: Session, now: int): (bool, seq<Session>)
    requires Distinct(ss)
  {
    if session.bytes > limits.maxSessionBytes then (false, ss)
    else Settle(limits, Evict(limits, Rivals(limits, ss, session.id, now), session.bytes), session)
  }

  function Settle(limits: Limits, kept: seq<Session>, session: Session): (bool, seq<Session>) {
    if Fits(limits, kept, session.bytes) then (true, kept + [session]) else (false, kept)
  }

  /** The sessions that compete for room with a new one: those still alive, other than its
      own earlier version. */
  function Rivals(limits: Limits, ss: seq<Session>, id: string, now: int): (rivals: seq<Session>)
    ensures Distinct(ss) ==> Distinct(rivals)
  {
    var live := Live(ss, now - limits.ttl);
    LiveIsPart(ss, now - limits.ttl);
    WithoutIsPart(live, id);
    Without(live, id)
  }

  // ------------------------------------------------------------ parts of a store

  ghost predicate Part(part: seq<Session>, whole: seq<Session>) {
    && Sum(part) <= Sum(whole) && |part| <= |whole|
    && (Distinct(whole) ==> Distinct(part))
    && forall s :: s in part ==> s in whole
  }

  lemma {:induction false} WithoutMembers(ss: seq<Session>, id: string)
    ensures forall s :: s in Without(ss, id) <==> s in ss && s.id != id
  {
    if ss != [] {
      WithoutMembers(ss[1..], id);
      assert ss == [ss[0]] + ss[1..];
    }
  }

  lemma {:induction false} WithoutIsPart(ss: seq<Session>, id: string)
    ensures Part(Without(ss, id), ss)
  {
    if ss == [] { return; }
    WithoutIsPart(ss[1..], id);
    hide Part;
    ConsKeepsPart(Without(ss[1..], id), ss);
    assert [] + Without(ss[1..], id) == Without(ss[1..], id);
  }

  lemma {:induction false} LiveMembers(ss: seq<Session>, cutoff: int)
    ensures forall s :: s in Live(ss, cutoff) <==> s in ss && s.updatedAt >= cutoff
  {
    if ss != [] {
      LiveMembers(ss[1..], cutoff);
      assert ss == [ss[0]] + ss[1..];
    }
  }

  lemma {:induction false} LiveIsPart(ss: seq<Session>, cutoff: int)
    ensures Part(Live(ss, cutoff), ss)
  {
    if ss == [] { return; }
    LiveIsPart(ss[1..], cutoff);
    hide Part;
    ConsKeepsPart(Live(ss[1..], cutoff), ss);
    assert [] + Live(ss[1..], cutoff) == Live(ss[1..], cutoff);
  }

  lemma ConsKeepsPart(part: seq<Session>, ss: seq<Session>)
    requires ss != [] && Part(part, ss[1..])
    ensures Part(part, ss) && Part([ss[0]] + part, ss)
  {
    var whole := [ss[0]] + part;
    assert Sum(whole) == ss[0].bytes + Sum(part) by { assert whole[1..] == part; }
    if Distinct(ss) {
      assert Distinct(ss[1..]);
      forall i, j | 0 <= i < j < |whole|
        ensures whole[i].id != whole[j].id
      {
        assert whole[j] == part[j - 1] && part[j - 1] in ss[1..];
        if i > 0 { assert whole[i] == part[i - 1]; }
      }
    }
  }

  lemma PartOfPart(a: seq<Session>, b: seq<Session>, c: seq<Session>)
    requires Part(a, b) && Part(b, c)
    ensures Part(a, c)
  {
  }

  // ------------------------------------------------------------ the eviction loop

  /** What the loop throws out is never newer than anything it keeps. */
  lemma {:induction false} EvictsOldestFirst(limits: Limits, ss: seq<Session>, bytes: nat)
    requires Distinct(ss)
    ensures Part(Evict(limits, ss, bytes), ss)
    ensures OlderGoFirst(ss, Evict(limits, ss, bytes))
    decreases |ss|
  {
    if !Fits(limits, ss, bytes) && ss != [] {
      var i := OldestIndex(ss);
      WithoutPresent(ss, i);
      var rest := Without(ss, ss[i].id);
      WithoutIsPart(ss, ss[i].id);
      WithoutMembers(ss, ss[i].id);
      EvictsOldestFirst(limits, rest, bytes);
      var kept := Evict(limits, rest, bytes);
      PartOfPart(kept, rest, ss);
      hide Evict, Without, OldestIndex, Fits, Sum;
      OldestGoesFirst(ss, i, rest, kept);
    }
  }

  ghost predicate OlderGoFirst(ss: seq<Session>, kept: seq<Session>) {
    forall gone, stays :: gone in ss && gone !in kept && stays in kept ==> gone.updatedAt <= stays.updatedAt
  }

  lemma OldestGoesFirst(ss: seq<Session>, i: nat, rest: seq<Session>, kept: seq<Session>)
    requires i < |ss| && (forall j :: 0 <= j < |ss| ==> ss[i].updatedAt <= ss[j].updatedAt)
    requires forall s :: s in rest <==> s in ss && s.id != ss[i].id
    requires Distinct(ss) && Part(kept, ss) && OlderGoFirst(rest, kept)
    ensures OlderGoFirst(ss, kept)
  {
    forall gone, stays | gone in ss && gone !in kept && stays in kept
      ensures gone.updatedAt <= stays.updatedAt
    {
      var j :| 0 <= j < |ss| && ss[j] == gone;
      assert stays in ss;
      if gone.id == ss[i].id { assert j == i; } else { assert gone in rest; }
    }
  }

  /** The sessions without the `k` oldest, taken out one after the other. */
  function WithoutOldest(ss: seq<Session>, k: nat): (left: seq<Session>)
    requires k <= |ss| && Distinct(ss)
    ensures |left| == |ss| - k && Distinct(left)
    decreases k
  {
    if k == 0 then ss
    else
      var i := OldestIndex(ss);
      WithoutPresent(ss, i);
      WithoutIsPart(ss, ss[i].id);
      WithoutOldest(Without(ss, ss[i].id), k - 1)
  }

  ghost predicate FitsOnlyAt(limits: Limits, ss: seq<Session>, bytes: nat, k: nat)
    requires k <= |ss| && Distinct(ss)
  {
    && (forall j :: 0 <= j < k ==> !Fits(limits, WithoutOldest(ss, j), bytes))
    && (k < |ss| ==> Fits(limits, WithoutOldest(ss, k), bytes))
  }

  /** `kept` is left when the k oldest of `ss` are gone, and k is the smallest number that
      makes room, or all there are. */
  ghost predicate JustEnoughGo(limits: Limits, ss: seq<Session>, bytes: nat, kept: seq<Session>, k: nat) {
    Distinct(ss) && k <= |ss| && kept == WithoutOldest(ss, k) && FitsOnlyAt(limits, ss, bytes, k)
  }

  lemma NoneNeedGo(limits: Limits, ss: seq<Session>, bytes: nat)
    requires Distinct(ss) && (Fits(limits, ss, bytes) || ss == [])
    ensures Evict(limits, ss, bytes) == ss && JustEnoughGo(limits, ss, bytes, ss, 0)
  {
    hide Fits;
  }

  lemma OldestGoes(limits: Limits, ss: seq<Session>, bytes: nat)
    requires Distinct(ss) && !Fits(limits, ss, bytes) && ss != []
    ensures var rest := Without(ss, ss[OldestIndex(ss)].id);
            Distinct(rest) && |rest| == |ss| - 1 && Evict(limits, ss, bytes) == Evict(limits, rest, bytes)
  {
    var i := OldestIndex(ss);
    WithoutPresent(ss, i);
    WithoutIsPart(ss, ss[i].id);
    hide Fits, Without, OldestIndex, Distinct;
  }

  lemma OneMoreGoes(limits: Limits, ss: seq<Session>, rest: seq<Session>, bytes: nat, kept: seq<Session>, k: nat)
    requires Distinct(ss) && ss != [] && !Fits(limits, ss, bytes)
    requires rest == Without(ss, ss[OldestIndex(ss)].id) && |rest| == |ss| - 1
    requires JustEnoughGo(limits, rest, bytes, kept, k)
    ensures JustEnoughGo(limits, ss, bytes, kept, k + 1)
  {
    hide Fits, Without, OldestIndex, Distinct;
    forall j | 0 <= j < k + 1
      ensures !Fits(limits, WithoutOldest(ss, j), bytes)
    {
      if j > 0 { assert WithoutOldest(ss, j) == WithoutOldest(rest, j - 1); }
    }
    assert WithoutOldest(ss, k + 1) == WithoutOldest(rest, k);
  }

  /** The loop throws out no more than it must. Unless it throws out all sessions, the new one
      then fits. */
  lemma {:induction false} EvictsNoMoreThanNeeded(limits: Limits, ss: seq<Session>, bytes: nat) returns (k: nat)
    requires Distinct(ss)
    ensures JustEnoughGo(limits, ss, bytes, Evict(limits, ss, bytes), k)
    decreases |ss|
  {
    hide Fits, Without, OldestIndex, Distinct, Evict, JustEnoughGo;
    if Fits(limits, ss, bytes) || ss == [] {
      NoneNeedGo(limits, ss, bytes);
      return 0;
    }
    OldestGoes(limits, ss, bytes);
    var rest := Without(ss, ss[OldestIndex(ss)].id);
    k := EvictsNoMoreThanNeeded(limits, rest, bytes);
    OneMoreGoes(limits, ss, rest, bytes, Evict(limits, rest, bytes), k);
    k := k + 1;
    assert JustEnoughGo(limits, ss, bytes, Evict(limits, ss, bytes), k);
  }

  /** The loop ends with room exactly when the new session fits an empty store. */
  lemma {:induction false} EvictMakesRoomIff(limits: Limits, ss: seq<Session>, bytes: nat)
    requires Distinct(ss)
    ensures Fits(limits, Evict(limits, ss, bytes), bytes) <==> bytes <= limits.maxTotalBytes
    ensures bytes > limits.maxTotalBytes ==> Evict(limits, ss, bytes) == []
    decreases |ss|
  {
    if !Fits(limits, ss, bytes) && ss != [] {
      var i := OldestIndex(ss);
      WithoutPresent(ss, i);
      WithoutIsPart(ss, ss[i].id);
      EvictMakesRoomIff(limits, Without(ss, ss[i].id), bytes);
    }
  }

  // ------------------------------------------------------------ storing

  ghost predicate Bounded(limits: Limits, ss: seq<Session>) {
    && Distinct(ss)
    && |ss| <= limits.maxSessions && Sum(ss) <= limits.maxTotalBytes
    && forall s :: s in ss ==> s.bytes <= limits.maxSessionBytes
  }

  lemma {:induction false} SumAppends(ss: seq<Session>, s: Session)
    ensures Sum(ss + [s]) == Sum(ss) + s.bytes
  {
    if ss == [] {
      assert [s][1..] == [] && ss + [s] == [s];
    } else {
      SumAppends(ss[1..], s);
      assert (ss + [s])[1..] == ss[1..] + [s];
    }
  }

  lemma PartIsBounded(limits: Limits, part: seq<Session>, ss: seq<Session>)
    requires Bounded(limits, ss) && Part(part, ss)
    ensures Bounded(limits, part)
  {
  }

  lemma RivalsArePart(limits: Limits, ss: seq<Session>, id: string, now: int)
    ensures Part(Rivals(limits, ss, id, now), ss)
    ensures forall s :: s in Rivals(limits, ss, id, now) <==> s in ss && s.updatedAt >= now - limits.ttl && s.id != id
  {
    var live := Live(ss, now - limits.ttl);
    LiveIsPart(ss, now - limits.ttl);
    LiveMembers(ss, now - limits.ttl);
    WithoutIsPart(live, id);
    WithoutMembers(live, id);
    hide Part, Live, Without;
    PartOfPart(Without(live, id), live, ss);
  }

  /** After the rivals' `k` oldest went, the new session stands last. */
  ghost predicate MadeWay(limits: Limits, rivals: seq<Session>, session: Session, after: seq<Session>, k: nat) {
    var kept := |after| - 1;
    kept >= 0 && after[kept] == session && JustEnoughGo(limits, rivals, session.bytes, after[..kept], k)
  }

  /** When a session is stored, and what becomes of the store: too large on its own, nothing
      changes; larger than the whole budget, everything goes and it is not stored either;
      otherwise it is stored last, and of its rivals just as many of the oldest made way for
      it as it took. */
  lemma StoreOutcome(limits: Limits, ss: seq<Session>, session: Session, now: int)
    requires Bounded(limits, ss)
    ensures var (stored, after) := Store(limits, ss, session, now);
            && Bounded(limits, after)
            && (stored <==> session.bytes <= limits.maxSessionBytes && session.bytes <= limits.maxTotalBytes)
            && (session.bytes > limits.maxSessionBytes ==> after == ss)
            && (limits.maxTotalBytes < session.bytes <= limits.maxSessionBytes ==> after == [])
            && (stored ==> exists k :: MadeWay(limits, Rivals(limits, ss, session.id, now), session, after, k))
            && (stored ==> exists kept :: after == kept + [session] && Part(kept, ss)
                                          && OlderGoFirst(Rivals(limits, ss, session.id, now), kept))
  {
    if session.bytes > limits.maxSessionBytes { return; }
    RivalsArePart(limits, ss, session.id, now);
    var rivals := Rivals(limits, ss, session.id, now);
    var kept := Evict(limits, rivals, session.bytes);
    EvictMakesRoomIff(limits, rivals, session.bytes);
    EvictsOldestFirst(limits, rivals, session.bytes);
    PartOfPart(kept, rivals, ss);
    PartIsBounded(limits, kept, ss);
    var k := EvictsNoMoreThanNeeded(limits, rivals, session.bytes);
    assert Store(limits, ss, session, now) == Settle(limits, kept, session);
    assert (kept + [session])[..|kept|] == kept;
    assert MadeWay(limits, rivals, session, kept + [session], k);
    hide Evict, Store, Rivals, MadeWay, OlderGoFirst;
    if Fits(limits, kept, session.bytes) { AppendIsBounded(limits, kept, session); }
  }

  lemma AppendIsBounded(limits: Limits, kept: seq<Session>, session: Session)
    requires Bounded(limits, kept) && Fits(limits, kept, session.bytes) && session.bytes <= limits.maxSessionBytes
    requires forall s :: s in kept ==> s.id != session.id
    ensures Bounded(limits, kept + [session])
  {
    SumAppends(kept, session);
    forall i, j | 0 <= i < j < |kept + [session]|
      ensures (kept + [session])[i].id != (kept + [session])[j].id
    {
      assert (kept + [session])[i] == kept[i];
    }
  }
}
