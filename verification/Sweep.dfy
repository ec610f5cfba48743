/** The recovery sweep (src/app/recovery-sweep.ts) over the stores of account health and
    model locks, and those stores as the objects the source updates in place. */
module Sweep {
  import opened Common
  import opened Health
  import opened Cooldown

  predicate CooldownOver(r: Record, now: int) {
    r.status.CoolingDown? && r.disabledUntil.Some? && now as real >= r.disabledUntil.value
  }

  /** What an undisturbed sweep leaves: expired cooldowns healthy, expired locks gone. */
  function SweptRecords(records: Records, now: int): Records {
    map a | a in records ::
      if CooldownOver(records[a], now) then SuccessRecord(Some(records[a]), records[a].provider) else records[a]
  }

  function SweptLocks(locks: Locks, now: int): Locks {
    map key | key in locks && locks[key].retryAt > now :: locks[key]
  }

  /** After a sweep no record is past its cooldown and no lock past its time, and nothing else is
      gone. */
  lemma NothingExpiredStays(records: Records, locks: Locks, now: int)
    ensures SweptRecords(records, now).Keys == records.Keys
    ensures forall a :: a in SweptRecords(records, now) ==>
              var r := SweptRecords(records, now)[a];
              r.status.CoolingDown? ==> r.disabledUntil.None? || (now as real) < r.disabledUntil.value
    ensures forall key :: key in locks ==> (key in SweptLocks(locks, now) <==> !(locks[key].retryAt <= now))
    ensures forall key :: key in SweptLocks(locks, now) ==> key in locks && SweptLocks(locks, now)[key] == locks[key]
  {
  }

  /** Every account and every model, at every time from the sweep on, is exactly as eligible
      after the sweep as it would have been without it: the sweep is only housekeeping. */
  lemma SweepKeepsEligibility(records: Records, locks: Locks, now: int, c: Candidate, model: Option<string>, t: int)
    requires t >= now
    ensures Eligible(SweptRecords(records, now), SweptLocks(locks, now), c, model, t) <==>
            Eligible(records, locks, c, model, t)
  {
    if model.Some? { SweepKeepsLocked(locks, now, c.account, model.value, t); }
    hide Locked;
    if c.account in records { SweepKeepsView(records, now, c.account, t); }
  }

  lemma SweepKeepsLocked(locks: Locks, now: int, account: string, model: string, t: int)
    requires t >= now
    ensures Locked(SweptLocks(locks, now), account, model, t) <==> Locked(locks, account, model, t)
  {
    var swept := SweptLocks(locks, now);
    if Locked(locks, account, model, t) {
      var key :| key in locks && locks[key].account == account && locks[key].model == model && locks[key].retryAt > t;
      assert key in swept && swept[key] == locks[key];
    }
  }

  /** The health view routing derives is the same too, message and retry time included. */
  lemma SweepKeepsView(records: Records, now: int, account: string, t: int)
    requires t >= now && account in records
    ensures account in SweptRecords(records, now)
            && Derive(SweptRecords(records, now)[account], t) == Derive(records[account], t)
  {
  }

  /** Before the sweep's own time the statement is false: a record that was cooling then is
      healthy now, so the sweep must not run ahead of the clock. */
  lemma SweepAheadOfTheClock(records: Records, locks: Locks, now: int, c: Candidate, t: int)
    requires t < now && c.enabled && c.quotaAvailable && c.account in records && SaneRecord(records[c.account])
    ensures Eligible(SweptRecords(records, now), SweptLocks(locks, now), c, None, t)
            != Eligible(records, locks, c, None, t)
            <==> CooldownOver(records[c.account], now) && t < records[c.account].retryAt.value
  {
    var r := records[c.account];
    AllowedFromRetryTime(r, t);
    WrittenRecordsAreSane(Some(r), r.provider, Failure(None, "", ""), 0.0, 0);
    AllowedFromRetryTime(SuccessRecord(Some(r), r.provider), t);
    if r.disabledUntil.Some? { ReachedInIso(r.disabledUntil.value, now); }
    hide Derive, HealthAllows, IsoTime;
  }

  /** The sweep lists first and writes later. Whatever record is there when its write lands,
      the write is harmless from `now` on exactly when that record's cooldown is over by then
      as well; a failure recorded in between loses its cooldown. */
  lemma LateRecoveryIsHarmlessIff(previous: Option<Record>, current: Record, provider: string, now: int)
    requires SaneRecord(current)
    ensures (forall t :: t >= now ==>
              (HealthAllows(Derive(SuccessRecord(previous, provider), t), t) <==> HealthAllows(Derive(current, t), t)))
            <==> current.retryAt.None? || current.retryAt.value <= now
  {
    var written := SuccessRecord(previous, provider);
    WrittenRecordsAreSane(previous, provider, Failure(None, "", ""), 0.0, 0);
    forall t
      ensures HealthAllows(Derive(written, t), t)
      ensures HealthAllows(Derive(current, t), t) <==> current.retryAt.None? || t >= current.retryAt.value
    {
      AllowedFromRetryTime(written, t);
      AllowedFromRetryTime(current, t);
    }
    hide Derive, HealthAllows, SaneRecord;
    if current.retryAt.Some? && current.retryAt.value > now {
      assert !HealthAllows(Derive(current, now), now);
      assert HealthAllows(Derive(written, now), now);
    }
  }

  lemma EligibleOnlyAfterTheLast(account: string, f: Failure)
    ensures var start, fail := StartSuccess(1, account, "p"), StartFailure(2, account, "p", true, f, 100.0, 20);
            && Enabled(EMPTY, start)
            && var s1 := Apply(EMPTY, start);
            && Enabled(s1, fail)
            && var s2 := Apply(s1, fail);
            && Enabled(s2, Finish(2))
            && var s3 := Apply(s2, Finish(2));
            && Enabled(s3, Finish(1)) && !Eligible(s3.records, s3.locks, Candidate(account, true, true), None, 21)
            && var s4 := Apply(s3, Finish(1));
            Eligible(s4.records, s4.locks, Candidate(account, true, true), None, 21)
  {
  }

  /** Such a run: the account starts cooling until 120 while the sweep of time 20 is between
      its read and its write, and is eligible again at 21. */
  lemma SweepCanEraseAFreshCooldown(account: string, f: Failure)
    ensures var steps := [StartSuccess(1, account, "p"), StartFailure(2, account, "p", true, f, 100.0, 20), Finish(2),
            Finish(1)];
            && Eligible(Run(EMPTY, steps).records, Run(EMPTY, steps).locks, Candidate(account, true, true), None, 21)
            && !Eligible(Run(EMPTY, steps[..3]).records, Run(EMPTY, steps[..3]).locks, Candidate(account, true, true),
              None, 21)
  {
    var start, fail := StartSuccess(1, account, "p"), StartFailure(2, account, "p", true, f, 100.0, 20);
    var steps := [start, fail, Finish(2), Finish(1)];
    EligibleOnlyAfterTheLast(account, f);
    var s1 := Apply(EMPTY, start);
    var s2 := Apply(s1, fail);
    var s3 := Apply(s2, Finish(2));
    var s4 := Apply(s3, Finish(1));
    hide Apply, Enabled, Eligible;
    assert steps[1..] == [fail, Finish(2), Finish(1)] && steps[1..][1..] == [Finish(2), Finish(1)]
        && steps[1..][1..][1..] == [Finish(1)];
    assert Run(s4, []) == s4 && Run(s3, [Finish(1)]) == s4;
    assert Run(s2, [Finish(2), Finish(1)]) == s4 && Run(s1, [fail, Finish(2), Finish(1)]) == s4;
    var short := steps[..3];
    assert short == [start, fail, Finish(2)];
    assert short[1..] == [fail, Finish(2)] && short[1..][1..] == [Finish(2)];
    assert Run(s3, []) == s3 && Run(s2, [Finish(2)]) == s3 && Run(s1, [fail, Finish(2)]) == s3;
  }

  /** The same for locks: the sweep lists the expired ones first and deletes them later, by
      account and model. The deletion is harmless from `now` on exactly when the lock it finds
      has expired by then as well; a lock renewed in between is lost. */
  lemma LateUnlockIsHarmlessIff(s: State, account: string, model: string, now: int)
    requires SaneStores(s)
    ensures var key := LockKey(account, model);
            var left := Apply(s, Unlock(account, model)).locks;
            (forall a, m, t :: t >= now ==> (Locked(left, a, m, t) <==> Locked(s.locks, a, m, t)))
            <==> key !in s.locks || s.locks[key].retryAt <= now
  {
    var key := LockKey(account, model);
    var left := Apply(s, Unlock(account, model)).locks;
    assert left == s.locks - {key};
    hide LockKey, Apply;
    if key in s.locks && s.locks[key].retryAt > now {
      var lock := s.locks[key];
      assert Locked(s.locks, lock.account, lock.model, now);
      assert !Locked(left, lock.account, lock.model, now);
    } else {
      forall a, m, t | t >= now
        ensures Locked(left, a, m, t) <==> Locked(s.locks, a, m, t)
      {
        OthersStayLocked(s.locks, left, key, a, m, t);
      }
    }
  }

  lemma OthersStayLocked(locks: Locks, left: Locks, key: string, account: string, model: string, t: int)
    requires left == locks - {key} && (key in locks ==> locks[key].retryAt <= t)
    ensures Locked(left, account, model, t) <==> Locked(locks, account, model, t)
  {
    if Locked(locks, account, model, t) {
      var k :| k in locks && locks[k].account == account && locks[k].model == model && locks[k].retryAt > t;
      assert k in left && left[k] == locks[k];
    }
  }

  lemma RunJoins(s: State, step: Step, steps: seq<Step>)
    ensures Run(s, [step] + steps) == Run(if Enabled(s, step) then Apply(s, step) else s, steps)
  {
    assert ([step] + steps)[1..] == steps;
    hide Apply, Enabled;
  }

  /** Such a run: a lock until 10 is listed as expired by the sweep of time 20, renewed until
      120 at the same time, and deleted. */
  lemma SweepCanEraseAFreshLock(account: string, model: string, f: Failure)
    ensures var before := Run(EMPTY, [StartLock(1, account, model, true, f, 10.0, 0), Finish(1)]);
            var renewed := Run(before, [StartLock(2, account, model, true, f, 100.0, 20), Finish(2)]);
            var swept := Run(renewed, [Unlock(account, model)]);
            var key := LockKey(account, model);
            && key in before.locks && before.locks[key].retryAt <= 20
            && Locked(renewed.locks, account, model, 21) && !Locked(swept.locks, account, model, 21)
  {
    var key := LockKey(account, model);
    var first := StartLock(1, account, model, true, f, 10.0, 0);
    var second := StartLock(2, account, model, true, f, 100.0, 20);
    hide LockKey;
    var before := LocksOnce(EMPTY, first);
    var renewed := LocksOnce(before, second);
    assert renewed.locks[key].retryAt == 120;
    RunJoins(renewed, Unlock(account, model), []);
    assert [Unlock(account, model)] + [] == [Unlock(account, model)];
  }

  /** A lock call with nothing in between. */
  lemma LocksOnce(s: State, start: Step) returns (t: State)
    requires s.pending == map[] && start.StartLock? && start.retryable && start.delay > 0.0
    ensures t == Run(s, [start, Finish(start.call)]) && t.pending == map[]
    ensures var count := StoredLockCount(s, start.account, start.model);
            t.locks == s.locks[LockKey(start.account, start.model) :=
                         Lock(start.account, start.model, IsoTime(start.now as real + start.delay), start.failure,
                              NextFailureCount(count))]
  {
    var begun := Apply(s, start);
    t := Apply(begun, Finish(start.call));
    assert begun.pending == map[start.call := begun.pending[start.call]];
    assert begun.pending - {start.call} == map[];
    hide LockKey, StoredLockCount;
    RunJoins(s, start, [Finish(start.call)]);
    RunJoins(begun, Finish(start.call), []);
    assert [start] + [Finish(start.call)] == [start, Finish(start.call)];
    assert [Finish(start.call)] + [] == [Finish(start.call)];
    assert Run(t, []) == t;
  }

  // ------------------------------------------------------------ one lock, one model

  ghost predicate NoColon(s: string) {
    ':' !in s
  }

  lemma ColonIsFirst(a: string, m: string, b: string, n: string)
    requires NoColon(a) && LockKey(a, m) == LockKey(b, n)
    ensures |a| <= |b|
  {
    forall i | 0 <= i < |a|
      ensures LockKey(a, m)[i] != ':'
    {
      assert LockKey(a, m)[i] == a[i];
    }
    assert LockKey(b, n)[|b|] == ':';
  }

  /** Without colons in account ids the key determines account and model. */
  lemma KeysAreInjective(a: string, m: string, b: string, n: string)
    ensures NoColon(a) && NoColon(b) && LockKey(a, m) == LockKey(b, n) ==> a == b && m == n
  {
    if NoColon(a) && NoColon(b) && LockKey(a, m) == LockKey(b, n) {
      ColonIsFirst(a, m, b, n);
      ColonIsFirst(b, n, a, m);
      assert a == LockKey(a, m)[..|a|] && b == LockKey(b, n)[..|b|];
      assert m == LockKey(a, m)[|a| + 1..] && n == LockKey(b, n)[|b| + 1..];
    }
  }

  /** Locking one model leaves every other account and model as they were, exactly when the
      new lock does not take the place of a live lock of theirs; with no colon in account ids
      that cannot happen. */
  lemma LockTouchesOnlyItsModel(s: State, lock: Lock, account: string, model: string, t: int)
    requires SaneStores(s) && (account != lock.account || model != lock.model)
    ensures var locks := s.locks[LockKey(lock.account, lock.model) := lock];
            (Locked(locks, account, model, t) <==> Locked(s.locks, account, model, t))
            <==> !(LockKey(account, model) == LockKey(lock.account, lock.model) && Locked(s.locks, account, model, t))
    ensures NoColon(account) && NoColon(lock.account) ==>
            (Locked(s.locks[LockKey(lock.account, lock.model) := lock], account, model, t) <==>
                Locked(s.locks, account, model, t))
  {
    var key := LockKey(lock.account, lock.model);
    var locks := s.locks[key := lock];
    KeysAreInjective(account, model, lock.account, lock.model);
    LockedByKey(s, account, model, t);
    hide LockKey, NoColon;
    if Locked(s.locks, account, model, t) && LockKey(account, model) != key {
      assert LockKey(account, model) in locks;
    }
  }

  /** With a colon in an account id the memory store can mistake one pair for another: a run
      in which the lock of account "a" displaces the live lock of account "a:b". */
  lemma ColonsCollide(f: Failure)
    ensures var before := Run(EMPTY, [StartLock(1, "a:b", "c", true, f, 100.0, 0), Finish(1)]);
            var after := Run(before, [StartLock(2, "a", "b:c", true, f, 100.0, 1), Finish(2)]);
            && LockKey("a:b", "c") == LockKey("a", "b:c")
            && Locked(before.locks, "a:b", "c", 50) && !Locked(after.locks, "a:b", "c", 50)
  {
    assert LockKey("a:b", "c") == "a:b:c" && LockKey("a", "b:c") == "a:b:c";
    assert "a:b" != "a";
    hide LockKey;
    var before := LocksOnce(EMPTY, StartLock(1, "a:b", "c", true, f, 100.0, 0));
    var after := LocksOnce(before, StartLock(2, "a", "b:c", true, f, 100.0, 1));
    var key := LockKey("a:b", "c");
    assert before.locks[key].account == "a:b" && before.locks[key].model == "c" && before.locks[key].retryAt == 100;
    assert after.locks.Keys == {key};
  }

  // ------------------------------------------------------------ the objects

  /** Health manager, lock manager and sweep over the memory stores, each call undisturbed. */
  class AccountHealthManager {
    var records: Records
    var locks: Locks

    constructor ()
      ensures records == map[] && locks == map[]
    {
      records, locks := map[], map[];
    }

    function Previous(account: string): Option<Record>
      reads this
    {
      if account in records then Some(records[account]) else None
    }

    method RecordFailure(account: string, provider: string, retryable: bool, failure: Failure, delay: Delay, now: int)
      returns (record: Option<Record>)
      modifies this`records
      ensures !retryable ==> record.None? && records == old(records)
      ensures retryable ==> record == Some(FailureRecord(old(Previous(account)), provider, failure, delay, now))
                            && records == old(records)[account := record.value]
      ensures retryable ==> forall t ::
                && Derive(record.value, t) == ViewAfter(failure, delay, now, t)
                && (HealthAllows(Derive(record.value, t), t) <==> delay == 0.0 || t >= IsoTime(now as real + delay))
    {
      if !retryable { return None; }
      var previous := Previous(account);
      var failureCount := CountOf(previous) + 1;
      if failureCount > MAX_FAILURES { failureCount := MAX_FAILURES; }
      var disabledUntil := if delay > 0.0 then Some(now as real + delay) else None;
      var status := if disabledUntil.Some? then CoolingDown else Failing;
      var r := Record(provider, status, Some(failure), Some(now), IsoOf(disabledUntil), disabledUntil, failureCount,
          GenerationOf(previous) + 1);
      records := records[account := r];
      forall t
        ensures Derive(r, t) == ViewAfter(failure, delay, now, t)
        ensures HealthAllows(Derive(r, t), t) <==> delay == 0.0 || t >= IsoTime(now as real + delay)
      {
        RecordShows(previous, provider, failure, delay, now, t);
      }
      return Some(r);
    }

    method RecordSuccess(account: string, provider: string)
      modifies this`records
      ensures records == old(records)[account := SuccessRecord(old(Previous(account)), provider)]
    {
      var previous := Previous(account);
      records := records[account := Record(provider, Healthy, None, None, None, None, 0, GenerationOf(previous) + 1)];
    }

    method RecordModelLock(account: string, model: string, retryable: bool, failure: Failure, delay: Delay, now: int)
      modifies this`locks
      ensures !retryable || delay == 0.0 ==> locks == old(locks)
      ensures retryable && delay > 0.0 ==>
              var key := LockKey(account, model);
              var count := if key in old(locks) then old(locks)[key].failureCount else 0;
              var until := IsoTime(now as real + delay);
              locks == old(locks)[key := Lock(account, model, until, failure, NextFailureCount(count))]
    {
      if !retryable { return; }
      var key := LockKey(account, model);
      var count := (if key in locks then locks[key].failureCount else 0) + 1;
      if count > MAX_FAILURES { count := MAX_FAILURES; }
      if delay == 0.0 { return; }
      locks := locks[key := Lock(account, model, IsoTime(now as real + delay), failure, count)];
    }

    method ClearModelLock(account: string, model: string)
      modifies this`locks
      ensures locks == old(locks) - {LockKey(account, model)}
    {
      locks := locks - {LockKey(account, model)};
    }

    /** The first half of `sweep`: the expired cooldowns of the listing. */
    method SweepAccounts(now: int)
      modifies this`records
      ensures records == SweptRecords(old(records), now)
    {
      ghost var before := records;
      var expired := set a | a in records && CooldownOver(records[a], now);
      var swept: set<string> := {};
      while expired != {}
        invariant records.Keys == before.Keys
        invariant expired + swept == (set a | a in before && CooldownOver(before[a], now)) && expired !! swept
        invariant forall a :: a in before ==>
                    records[a] == if a in swept then SuccessRecord(Some(before[a]), before[a].provider) else before[a]
        decreases expired
      {
        var a :| a in expired;
        RecordSuccess(a, records[a].provider);
        expired, swept := expired - {a}, swept + {a};
      }
    }

    /** The second half: the expired locks. */
    method SweepModelLocks(now: int)
      requires forall key :: key in locks ==> key == LockKey(locks[key].account, locks[key].model)
      modifies this`locks
      ensures locks == SweptLocks(old(locks), now)
    {
      ghost var held := locks;
      hide LockKey;
      var stale := set key | key in locks && locks[key].retryAt <= now;
      var done: set<string> := {};
      while stale != {}
        invariant stale + done == (set key | key in held && held[key].retryAt <= now)
        invariant locks == held - done && stale !! done
        decreases stale
      {
        var key :| key in stale;
        ClearModelLock(locks[key].account, locks[key].model);
        stale, done := stale - {key}, done + {key};
      }
    }

    /** `sweep` with nothing interleaved: the two listings and the writes they lead to. */
    method Sweep(now: int)
      requires forall key :: key in locks ==> key == LockKey(locks[key].account, locks[key].model)
      modifies this
      ensures records == SweptRecords(old(records), now)
      ensures locks == SweptLocks(old(locks), now)
    {
      SweepAccounts(now);
      SweepModelLocks(now);
    }
  }
}
