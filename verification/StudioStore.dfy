/** Runs of the Model Studio store, what a patch tells its caller, and the store as the
    module-level state the source updates in place. */
module StudioStore {
  import opened Common
  import opened Studio

  datatype Op =
    | Create(session: Session, now: int)
    | Patch(id: string, bytes: nat, now: int)    // `bytes` is the size after the patch
    | Delete(id: string)
    | Look(now: int)                             // get and list

  function AfterPatch(limits: Limits, ss: seq<Session>, id: string, bytes: nat, now: int)
    : (Option<Session>, seq<Session>)
    requires Distinct(ss)
  {
    LiveIsPart(ss, now - limits.ttl);
    PatchLive(limits, Live(ss, now - limits.ttl), id, bytes, now)
  }

  function PatchLive(limits: Limits, live: seq<Session>, id: string, bytes: nat, now: int)
    : (Option<Session>, seq<Session>)
    requires Distinct(live)
  {
    match Lookup(live, id)
    case None => (None, live)
    case Some(existing) =>
      var updated := Session(id, now, bytes);
      var (stored, after) := Store(limits, live, updated, now);
      (Some(if stored then updated else existing), after)
  }

  function Apply(limits: Limits, ss: seq<Session>, op: Op): seq<Session>
    requires Distinct(ss)
  {
    match op
    case Create(session, now) => Store(limits, ss, session, now).1
    case Patch(id, bytes, now) => AfterPatch(limits, ss, id, bytes, now).1
    case Delete(id) => Without(ss, id)
    case Look(now) => Live(ss, now - limits.ttl)
  }

  lemma ApplyKeepsBounds(limits: Limits, ss: seq<Session>, op: Op)
    requires Bounded(limits, ss)
    ensures Bounded(limits, Apply(limits, ss, op))
  {
    hide Store, Part, Live, Without, Lookup;
    match op
    case Create(session, now) => StoreOutcome(limits, ss, session, now);
    case Patch(id, bytes, now) =>
      var live := Live(ss, now - limits.ttl);
      LiveIsPart(ss, now - limits.ttl);
      PartIsBounded(limits, live, ss);
      StoreOutcome(limits, live, Session(id, now, bytes), now);
    case Delete(id) =>
      WithoutIsPart(ss, id);
      PartIsBounded(limits, Without(ss, id), ss);
    case Look(now) =>
      LiveIsPart(ss, now - limits.ttl);
      PartIsBounded(limits, Live(ss, now - limits.ttl), ss);
  }

  function Run(limits: Limits, ss: seq<Session>, ops: seq<Op>): seq<Session>
    requires Bounded(limits, ss)
    decreases |ops|
  {
    if ops == [] then ss
    else
      ApplyKeepsBounds(limits, ss, ops[0]);
      Run(limits, Apply(limits, ss, ops[0]), ops[1..])
  }

  /** Whatever is created, patched, deleted and looked up, at whatever times: no more sessions
      than allowed, no more bytes in all than allowed, none too large on its own, no id
      twice. */
  lemma {:induction false} RunsStayBounded(limits: Limits, ss: seq<Session>, ops: seq<Op>)
    requires Bounded(limits, ss)
    ensures Bounded(limits, Run(limits, ss, ops))
    decreases |ops|
  {
    if ops == [] { return; }
    hide Apply, Bounded;
    ApplyKeepsBounds(limits, ss, ops[0]);
    RunsStayBounded(limits, Apply(limits, ss, ops[0]), ops[1..]);
  }

  lemma {:induction false} LookupFinds(ss: seq<Session>, id: string)
    ensures Lookup(ss, id).None? <==> forall s :: s in ss ==> s.id != id
    ensures Lookup(ss, id).Some? ==> Lookup(ss, id).value in ss && Lookup(ss, id).value.id == id
  {
    if ss != [] {
      LookupFinds(ss[1..], id);
      assert ss == [ss[0]] + ss[1..];
    }
  }

  lemma {:induction false} LookupLast(ss: seq<Session>, s: Session)
    requires forall x :: x in ss ==> x.id != s.id
    ensures Lookup(ss + [s], s.id) == Some(s)
  {
    if ss == [] {
      assert ss + [s] == [s];
    } else {
      LookupLast(ss[1..], s);
      assert (ss + [s])[1..] == ss[1..] + [s] && (ss + [s])[0] == ss[0];
      assert ss[0] in ss;
    }
  }

  lemma NothingFound(id: string)
    ensures Lookup([], id) == None
  {
  }

  lemma StoreRefuses(limits: Limits, ss: seq<Session>, session: Session, now: int)
    requires Bounded(limits, ss)
    ensures var (stored, after) := Store(limits, ss, session, now);
            && (stored <==> session.bytes <= limits.maxSessionBytes && session.bytes <= limits.maxTotalBytes)
            && (!stored ==> after == if session.bytes > limits.maxSessionBytes then ss else [])
  {
    hide Store, Bounded, MadeWay, OlderGoFirst, Rivals, Part;
    StoreOutcome(limits, ss, session, now);
  }

  /** What a patch hands back is what the store then holds. */
  predicate TellsTheTruth(id: string, outcome: (Option<Session>, seq<Session>)) {
    Lookup(outcome.1, id) == outcome.0
  }

  lemma HandedBackIsKept(limits: Limits, live: seq<Session>, existing: Session, updated: Session, now: int)
    requires Bounded(limits, live) && Lookup(live, updated.id) == Some(existing)
    ensures var (stored, after) := Store(limits, live, updated, now);
            Lookup(after, updated.id) == Some(if stored then updated else existing)
            <==> !(limits.maxTotalBytes < updated.bytes <= limits.maxSessionBytes)
  {
    StoreRefuses(limits, live, updated, now);
    if Store(limits, live, updated, now).0 { StoredIsFound(limits, live, updated, now); }
    NothingFound(updated.id);
    hide Store, Lookup, Bounded;
  }

  /** What a patch hands back is what the store holds afterwards, unless the patched session
      is within the limit for one session and above the one for all: then the whole store has
      been emptied for nothing, and the old session handed back is gone as well. */
  lemma PatchTellsTheTruthIff(limits: Limits, ss: seq<Session>, id: string, bytes: nat, now: int)
    requires Bounded(limits, ss)
    ensures var outcome := AfterPatch(limits, ss, id, bytes, now);
            outcome.0.Some? ==>
              (TellsTheTruth(id, outcome) <==> !(limits.maxTotalBytes < bytes <= limits.maxSessionBytes))
  {
    hide TellsTheTruth;
    var live := Live(ss, now - limits.ttl);
    LiveIsPart(ss, now - limits.ttl);
    PartIsBounded(limits, live, ss);
    PatchOfLive(limits, live, id, bytes, now);
    hide PatchLive, Live, Part, Lookup;
  }

  lemma PatchOfLive(limits: Limits, live: seq<Session>, id: string, bytes: nat, now: int)
    requires Bounded(limits, live)
    ensures var outcome := PatchLive(limits, live, id, bytes, now);
            outcome.0.Some? ==>
              (TellsTheTruth(id, outcome) <==> !(limits.maxTotalBytes < bytes <= limits.maxSessionBytes))
  {
    if Lookup(live, id).Some? {
      HandedBackIsKept(limits, live, Lookup(live, id).value, Session(id, now, bytes), now);
    }
    hide Store, Lookup, Bounded;
  }

  /** Such a store: one session of a million bytes, patched to 1.1 million with one MiB in all.
      The patch hands the old session back and the store is empty. */
  lemma PatchCanEmptyTheStore(id: string)
    ensures var limits := Limits(2, 2_097_152, 1_048_576, 60_000);
            var ss := Run(limits, [], [Create(Session(id, 0, 1_000_000), 0)]);
            ss == [Session(id, 0, 1_000_000)] && AfterPatch(limits, ss, id, 1_100_000, 1)
                == (Some(Session(id, 0, 1_000_000)), [])
  {
    var limits, session := Limits(2, 2_097_152, 1_048_576, 60_000), Session(id, 0, 1_000_000);
    var ss, create := [session], Create(session, 0);
    FirstIsStored(limits, session, 0);
    hide Store;
    assert [create][1..] == [];
    assert Apply(limits, [], create) == ss;
    assert Run(limits, [], [create]) == Run(limits, ss, []) == ss;
    hide Run, Apply;
    assert ss[1..] == [] && Live(ss, -59_999) == [session] + Live([], -59_999) == ss;
    assert Lookup(ss, id) == Some(session);
    hide Live, Lookup;
    StoreRefuses(limits, ss, Session(id, 1, 1_100_000), 1);
    assert PatchLive(limits, ss, id, 1_100_000, 1) == (Some(session), []);
  }

  lemma FirstIsStored(limits: Limits, session: Session, now: int)
    requires limits.maxSessions > 0 && session.bytes <= limits.maxSessionBytes && session.bytes <= limits.maxTotalBytes
    ensures Store(limits, [], session, now) == (true, [session]) && Bounded(limits, [session])
  {
    assert Rivals(limits, [], session.id, now) == [];
    SumAppends([], session);
    assert [] + [session] == [session];
  }

  /** A session that was stored is found under its id. */
  lemma StoredIsFound(limits: Limits, ss: seq<Session>, session: Session, now: int)
    requires Bounded(limits, ss) && Store(limits, ss, session, now).0
    ensures Lookup(Store(limits, ss, session, now).1, session.id) == Some(session)
  {
    RivalsArePart(limits, ss, session.id, now);
    var rivals := Rivals(limits, ss, session.id, now);
    EvictsOldestFirst(limits, rivals, session.bytes);
    LookupLast(Evict(limits, rivals, session.bytes), session);
  }

  /** Nothing older than the time to live is ever found by a lookup. */
  lemma LookNeverFindsExpired(limits: Limits, ss: seq<Session>, id: string, now: int)
    requires Bounded(limits, ss)
    ensures var found := Lookup(Apply(limits, ss, Look(now)), id);
            && (found.Some? ==> found.value in ss && found.value.id == id && found.value.updatedAt >= now - limits.ttl)
            && (found.None? ==> forall s :: s in ss && s.id == id ==> s.updatedAt < now - limits.ttl)
  {
    LiveMembers(ss, now - limits.ttl);
    LookupFinds(Live(ss, now - limits.ttl), id);
    hide Live, Lookup, Bounded;
  }

  // ------------------------------------------------------------ the store

  /** The oldest of the sessions other than one. */
  function Oldest(ss: seq<Session>, exclude: string): Option<Session> {
    var others := Without(ss, exclude);
    if others == [] then None else Some(others[OldestIndex(others)])
  }

  class SessionStore {
    const limits: Limits
    var sessions: seq<Session>
    var sessionBytes: map<string, nat>
    var totalSessionBytes: int

    /** The bookkeeping agrees with the sessions. */
    ghost predicate Consistent()
      reads this
    {
      Distinct(sessions) && Books()
    }

    /** The byte total and the sizes match the sessions. */
    ghost predicate Books()
      reads this
    {
      && totalSessionBytes == Sum(sessions)
      && (forall s :: s in sessions ==> s.id in sessionBytes && sessionBytes[s.id] == s.bytes)
      && (forall id :: id in sessionBytes ==> Lookup(sessions, id).Some?)
    }

    constructor (limits: Limits)
      ensures Consistent() && this.limits == limits && sessions == []
    {
      this.limits, sessions, sessionBytes, totalSessionBytes := limits, [], map[], 0;
    }

    method RemoveSession(id: string)
      requires Consistent()
      modifies this
      ensures Consistent() && sessions == Without(old(sessions), id)
    {
      var bytes := if id in sessionBytes then sessionBytes[id] else 0;
      RemovalAccounts(sessions, sessionBytes, id);
      WithoutIsPart(sessions, id);
      WithoutMembers(sessions, id);
      ghost var before := sessions;
      hide Sum, Without;
      sessions := Without(sessions, id);
      sessionBytes := sessionBytes - {id};
      var left := totalSessionBytes - bytes;
      totalSessionBytes := if left > 0 then left else 0;
      forall x | x in sessionBytes
        ensures Lookup(sessions, x).Some?
      {
        LookupFinds(before, x);
        LookupFinds(sessions, x);
      }
    }

    method EvictExpired(now: int)
      requires Consistent()
      modifies this
      ensures Consistent() && sessions == Live(old(sessions), now - limits.ttl)
    {
      hide Live, Without, Books, Distinct;
      var cutoff := now - limits.ttl;
      var snapshot := sessions;
      var i := 0;
      ExpiryEnds(snapshot, cutoff);
      while i < |snapshot|
        invariant i <= |snapshot| && Consistent()
        invariant sessions == Live(snapshot[..i], cutoff) + snapshot[i..]
      {
        ExpiryStep(snapshot, i, cutoff);
        if snapshot[i].updatedAt < cutoff {
          RemoveSession(snapshot[i].id);
        }
        i := i + 1;
      }
    }

    method OldestSessionId(exclude: string) returns (oldest: Option<string>)
      ensures var best := Oldest(sessions, exclude); oldest == if best.Some? then Some(best.value.id) else None
    {
      var best: Option<Session> := None;
      var i := 0;
      while i < |sessions|
        invariant i <= |sessions|
        invariant best == Oldest(sessions[..i], exclude)
      {
        hide *;
        var session := sessions[i];
        OldestStep(sessions[..i], session, exclude);
        assert sessions[..i + 1] == sessions[..i] + [session];
        if session.id != exclude {
          if best.None? || session.updatedAt < best.value.updatedAt { best := Some(session); }
        }
        i := i + 1;
      }
      assert sessions[..|sessions|] == sessions;
      oldest := if best.Some? then Some(best.value.id) else None;
    }

    /** The eviction loop of `storeSession`. */
    method MakeRoom(id: string, bytes: nat) returns (room: bool)
      requires Consistent() && Free(sessions, id)
      modifies this
      ensures Consistent() && Free(sessions, id) && Distinct(old(sessions))
      ensures sessions == Evict(limits, old(sessions), bytes)
      ensures room <==> Fits(limits, sessions, bytes)
    {
      ghost var before := sessions;
      while |sessions| >= limits.maxSessions || totalSessionBytes + bytes > limits.maxTotalBytes
        invariant Consistent() && Distinct(before) && Evict(limits, sessions, bytes) == Evict(limits, before, bytes)
        invariant Free(sessions, id)
        decreases |sessions|
      {
        WithoutAbsent(sessions, id);
        hide Sum, Without, Lookup, OldestIndex, Evict;
        var oldest := OldestSessionId(id);
        if oldest.None? {
          EvictStops(limits, sessions, bytes);
          return false;
        }
        WithoutMembers(sessions, oldest.value);
        EvictStep(limits, sessions, bytes);
        RemoveSession(oldest.value);
      }
      EvictStops(limits, sessions, bytes);
      room := true;
    }

    method StoreSession(session: Session, now: int) returns (stored: bool)
      requires Consistent()
      modifies this
      ensures Consistent()
      ensures (stored, sessions) == Store(limits, old(sessions), session, now)
    {
      hide Rivals, Evict, Lookup, Fits, Books;
      if session.bytes > limits.maxSessionBytes { return false; }
      stored := Prepare(session.id, session.bytes, now);
      if stored { Append(session); }
    }

    /** The middle of `storeSession`: out with the expired sessions, the session's own earlier
        version, and as many of the oldest as it takes. */
    method Prepare(id: string, bytes: nat, now: int) returns (room: bool)
      requires Consistent()
      modifies this
      ensures Consistent() && Free(sessions, id)
      ensures var rivals := Rivals(limits, old(sessions), id, now);
              && Distinct(rivals) && sessions == Evict(limits, rivals, bytes)
              && (room <==> Fits(limits, sessions, bytes))
    {
      RivalsAreFree(limits, sessions, id, now);
      hide Live, Without, Evict, Fits, Free, Books, Distinct;
      EvictExpired(now);
      RemoveSession(id);
      room := MakeRoom(id, bytes);
    }

    /** The end of `storeSession`, once there is room. */
    method Append(session: Session)
      requires Consistent() && Free(sessions, session.id)
      modifies this
      ensures Consistent() && sessions == old(sessions) + [session]
    {
      SumAppends(sessions, session);
      ghost var before := sessions;
      sessions := sessions + [session];
      sessionBytes := sessionBytes[session.id := session.bytes];
      totalSessionBytes := totalSessionBytes + session.bytes;
      hide Sum;
      forall i, j | 0 <= i < j < |sessions|
        ensures sessions[i].id != sessions[j].id
      {
        assert sessions[i] == before[i] && before[i] in before;
      }
      forall x | x in sessionBytes
        ensures Lookup(sessions, x).Some?
      {
        LookupFinds(before, x);
        LookupFinds(sessions, x);
        assert session in sessions;
      }
    }

    method PatchSession(id: string, bytes: nat, now: int) returns (patched: Option<Session>)
      requires Consistent()
      modifies this
      ensures Consistent()
      ensures (patched, sessions) == AfterPatch(limits, old(sessions), id, bytes, now)
    {
      EvictExpired(now);
      var existing := Lookup(sessions, id);
      if existing.None? { return None; }
      var updated := Session(id, now, bytes);
      var stored := StoreSession(updated, now);
      patched := if stored then Some(updated) else existing;
    }

    method DeleteSession(id: string) returns (deleted: bool)
      requires Consistent()
      modifies this
      ensures Consistent() && sessions == Without(old(sessions), id)
      ensures deleted <==> Lookup(old(sessions), id).Some?
    {
      if Lookup(sessions, id).None? {
        LookupFinds(sessions, id);
        WithoutAbsent(sessions, id);
        return false;
      }
      RemoveSession(id);
      return true;
    }
  }

  lemma RemovalAccounts(ss: seq<Session>, sizes: map<string, nat>, id: string)
    requires Distinct(ss) && forall s :: s in ss ==> s.id in sizes && sizes[s.id] == s.bytes
    requires forall x :: x in sizes ==> Lookup(ss, x).Some?
    ensures Sum(ss) == Sum(Without(ss, id)) + if id in sizes then sizes[id] else 0
  {
    LookupFinds(ss, id);
    if id in sizes {
      var i :| 0 <= i < |ss| && ss[i].id == id;
      WithoutPresent(ss, i);
    } else {
      WithoutAbsent(ss, id);
    }
  }

  ghost predicate Free(ss: seq<Session>, id: string) {
    forall s :: s in ss ==> s.id != id
  }

  lemma RivalsAreFree(limits: Limits, ss: seq<Session>, id: string, now: int)
    ensures Free(Rivals(limits, ss, id, now), id)
  {
    RivalsArePart(limits, ss, id, now);
    hide Rivals;
  }

  lemma EvictStops(limits: Limits, ss: seq<Session>, bytes: nat)
    requires Distinct(ss) && (Fits(limits, ss, bytes) || ss == [])
    ensures Evict(limits, ss, bytes) == ss
  {
  }

  lemma EvictStep(limits: Limits, ss: seq<Session>, bytes: nat)
    requires Distinct(ss) && !Fits(limits, ss, bytes) && ss != []
    ensures var left := Without(ss, ss[OldestIndex(ss)].id);
            Distinct(left) && |left| < |ss| && Evict(limits, ss, bytes) == Evict(limits, left, bytes)
  {
    WithoutPresent(ss, OldestIndex(ss));
    WithoutIsPart(ss, ss[OldestIndex(ss)].id);
  }

  lemma LiveStep(ss: seq<Session>, cutoff: int)
    requires ss != []
    ensures Live(ss, cutoff) == (if ss[0].updatedAt < cutoff then [] else [ss[0]]) + Live(ss[1..], cutoff)
  {
  }

  lemma {:induction false} LiveAppends(ss: seq<Session>, s: Session, cutoff: int)
    ensures Live(ss + [s], cutoff) == Live(ss, cutoff) + if s.updatedAt < cutoff then [] else [s]
  {
    LiveStep(ss + [s], cutoff);
    if ss == [] {
      assert (ss + [s])[1..] == [] && ss + [s] == [s];
      return;
    }
    LiveStep(ss, cutoff);
    hide Live;
    LiveAppends(ss[1..], s, cutoff);
    assert (ss + [s])[1..] == ss[1..] + [s] && (ss + [s])[0] == ss[0];
  }

  lemma WithoutStep(ss: seq<Session>, id: string)
    requires ss != []
    ensures Without(ss, id) == (if ss[0].id == id then [] else [ss[0]]) + Without(ss[1..], id)
  {
  }

  lemma {:induction false} WithoutAppends(ss: seq<Session>, s: Session, id: string)
    ensures Without(ss + [s], id) == Without(ss, id) + if s.id == id then [] else [s]
  {
    WithoutStep(ss + [s], id);
    if ss == [] {
      assert (ss + [s])[1..] == [] && ss + [s] == [s];
      return;
    }
    WithoutStep(ss, id);
    hide Without;
    WithoutAppends(ss[1..], s, id);
    assert (ss + [s])[1..] == ss[1..] + [s] && (ss + [s])[0] == ss[0];
  }

  /** Before the expiry loop, and after it. */
  lemma ExpiryEnds(snapshot: seq<Session>, cutoff: int)
    ensures Live(snapshot[..0], cutoff) + snapshot[0..] == snapshot
    ensures Live(snapshot[..|snapshot|], cutoff) + snapshot[|snapshot|..] == Live(snapshot, cutoff)
  {
    assert snapshot[..0] == [] && snapshot[..|snapshot|] == snapshot && snapshot[|snapshot|..] == [];
  }

  /** One turn of the expiry loop. */
  lemma ExpiryStep(snapshot: seq<Session>, i: nat, cutoff: int)
    requires i < |snapshot| && Distinct(Live(snapshot[..i], cutoff) + snapshot[i..])
    ensures var now := Live(snapshot[..i], cutoff) + snapshot[i..];
            Live(snapshot[..i + 1], cutoff) + snapshot[i + 1..]
            == if snapshot[i].updatedAt < cutoff then Without(now, snapshot[i].id) else now
  {
    var done, s, rest := Live(snapshot[..i], cutoff), snapshot[i], snapshot[i + 1..];
    assert snapshot[..i + 1] == snapshot[..i] + [s];
    LiveAppends(snapshot[..i], s, cutoff);
    assert snapshot[i..] == [s] + rest;
    assert done + snapshot[i..] == done + [s] + rest;
    if s.updatedAt < cutoff {
      WithoutMiddle(done, s, rest);
      assert done + [] + rest == done + rest;
    }
  }

  lemma {:induction false} WithoutMiddle(a: seq<Session>, s: Session, b: seq<Session>)
    requires Distinct(a + [s] + b)
    ensures Without(a + [s] + b, s.id) == a + b
  {
    var all := a + [s] + b;
    WithoutStep(all, s.id);
    if a == [] {
      assert all[1..] == b;
      forall j | 0 <= j < |b|
        ensures b[j].id != s.id
      {
        assert all[1 + j] == b[j];
      }
      WithoutAbsent(b, s.id);
    } else {
      assert all[|a|] == s && all[0] == a[0];
      assert all[1..] == a[1..] + [s] + b && Distinct(all[1..]);
      hide Without, Distinct;
      WithoutMiddle(a[1..], s, b);
    }
  }

  /** One turn of the search for the oldest session. */
  lemma OldestStep(ss: seq<Session>, s: Session, exclude: string)
    ensures var best := Oldest(ss, exclude);
            Oldest(ss + [s], exclude)
            == if s.id != exclude && (best.None? || s.updatedAt < best.value.updatedAt) then Some(s) else best
  {
    var others, more := Without(ss, exclude), Without(ss + [s], exclude);
    WithoutAppends(ss, s, exclude);
    hide Without;
    if s.id != exclude {
      assert more[..|more| - 1] == others && more[|more| - 1] == s;
    } else {
      assert more == others;
    }
  }
}
