/** What a recorded failure means for an account (src/auth/credentials.ts): how long it keeps
    the account or one model of it out, what the health view says meanwhile, and how failures
    add up, over runs in which other calls read and write in between. */
module Cooldown {
  import opened Common
  import opened Health

  // ------------------------------------------------------------ runs in parts

  lemma {:induction false} RunsOn(s: State, a: seq<Step>, b: seq<Step>)
    ensures Run(s, a + b) == Run(Run(s, a), b)
    decreases |a|
  {
    if a == [] {
      assert a + b == b;
    } else {
      assert (a + b)[1..] == a[1..] + b && (a + b)[0] == a[0];
      hide Apply, Enabled;
      RunsOn(if Enabled(s, a[0]) then Apply(s, a[0]) else s, a[1..], b);
    }
  }

  lemma OneStep(s: State, step: Step)
    ensures Run(s, [step]) == if Enabled(s, step) then Apply(s, step) else s
  {
    assert [step][1..] == [];
    hide Apply, Enabled;
    var t := if Enabled(s, step) then Apply(s, step) else s;
    assert Run(t, []) == t;
  }

  /** A call keeps what it read until it finishes. */
  lemma {:induction false} PendingStays(s: State, steps: seq<Step>, call: nat)
    requires call in s.pending && Finish(call) !in steps
    ensures call in Run(s, steps).pending && Run(s, steps).pending[call] == s.pending[call]
    decreases |steps|
  {
    if steps != [] {
      var t := if Enabled(s, steps[0]) then Apply(s, steps[0]) else s;
      assert steps[0] in steps && steps[0] != Finish(call);
      if Enabled(s, steps[0]) { StepKeepsPending(s, steps[0], call); }
      hide Apply, Enabled;
      PendingStays(t, steps[1..], call);
    }
  }

  lemma StepKeepsPending(s: State, step: Step, call: nat)
    requires call in s.pending && step != Finish(call) && Enabled(s, step)
    ensures call in Apply(s, step).pending && Apply(s, step).pending[call] == s.pending[call]
  {
    hide LockKey, FailureRecord, SuccessRecord;
  }

  lemma StepWrites(s: State, step: Step, account: string)
    requires Enabled(s, step)
    ensures var t := Apply(s, step);
            && Writes(s, account) <= Writes(t, account)
            && (Writes(t, account) == Writes(s, account) ==> Stored(t, account) == Stored(s, account))
  {
    hide LockKey, FailureRecord, SuccessRecord;
  }

  /** While an account is not written, its record stays. */
  lemma {:induction false} UnwrittenStays(s: State, steps: seq<Step>, account: string)
    ensures Writes(s, account) <= Writes(Run(s, steps), account)
    ensures var t := Run(s, steps);
            Writes(t, account) == Writes(s, account) ==> Stored(t, account) == Stored(s, account)
    decreases |steps|
  {
    if steps != [] {
      var t := if Enabled(s, steps[0]) then Apply(s, steps[0]) else s;
      if Enabled(s, steps[0]) { StepWrites(s, steps[0], account); }
      hide Apply, Enabled, Writes, Stored;
      UnwrittenStays(t, steps[1..], account);
    }
  }

  // ------------------------------------------------------------ an account

  /** The view of an account from a retryable failure on: cooling down until the delay counted
      from the failure is over, and then healthy; without a delay, failing but usable. */
  function ViewAfter(failure: Failure, delay: Delay, now: int, t: int): HealthView {
    if delay == 0.0 then HealthView(Failing, Some(failure), Some(now), None)
    else if t as real < now as real + delay then
      HealthView(CoolingDown, Some(failure), Some(now), Some(IsoTime(now as real + delay)))
    else HealthView(Healthy, None, None, None)
  }

  lemma RecordShows(previous: Option<Record>, provider: string, failure: Failure, delay: Delay, now: int, t: int)
    ensures var r := FailureRecord(previous, provider, failure, delay, now);
            && Derive(r, t) == ViewAfter(failure, delay, now, t)
            && (HealthAllows(Derive(r, t), t) <==> delay == 0.0 || t >= IsoTime(now as real + delay))
  {
    WrittenRecordsAreSane(previous, provider, failure, delay, now);
    AllowedFromRetryTime(FailureRecord(previous, provider, failure, delay, now), t);
    hide HealthAllows, SaneRecord, IsoTime;
  }

  /** A retryable failure at `now` with a delay, in any run: from its write on, and until the
      account's next write, an enabled account with quota may be used, models aside, exactly from
      the end of the delay on, cut to a millisecond; with no delay always. The health view says
      so, with the failure. */
  lemma FailureKeepsOut(before: seq<Step>, call: nat, account: string, provider: string, failure: Failure,
                        delay: Delay, now: int, meanwhile: seq<Step>, after: seq<Step>, t: int)
    requires call !in Run(EMPTY, before).pending && Finish(call) !in meanwhile
    requires var written := Run(EMPTY, before + [StartFailure(call, account, provider, true, failure, delay, now)]
                                       + meanwhile + [Finish(call)]);
             Writes(Run(written, after), account) == Writes(written, account)
    ensures var written := Run(EMPTY, before + [StartFailure(call, account, provider, true, failure, delay, now)]
                                      + meanwhile + [Finish(call)]);
            var s := Run(written, after);
            && account in s.records
            && Derive(s.records[account], t) == ViewAfter(failure, delay, now, t)
            && (Eligible(s.records, s.locks, Candidate(account, true, true), None, t)
                <==> delay == 0.0 || t >= IsoTime(now as real + delay))
  {
    var start := StartFailure(call, account, provider, true, failure, delay, now);
    var s0 := Run(EMPTY, before);
    RunsOn(EMPTY, before, [start]);
    OneStep(s0, start);
    var s1 := Run(EMPTY, before + [start]);
    RunsOn(EMPTY, before + [start], meanwhile);
    PendingStays(s1, meanwhile, call);
    var s2 := Run(s1, meanwhile);
    RunsOn(EMPTY, before + [start] + meanwhile, [Finish(call)]);
    OneStep(s2, Finish(call));
    var written := Run(EMPTY, before + [start] + meanwhile + [Finish(call)]);
    hide Run;
    FinishedFailure(s2, call);
    UnwrittenStays(written, after, account);
    RecordShows(Stored(s0, account), provider, failure, delay, now, t);
    hide Apply, Derive, HealthAllows, FailureRecord, Writes;
  }

  lemma FinishedFailure(s: State, call: nat)
    requires call in s.pending && s.pending[call].Fail?
    ensures var op := s.pending[call];
            Stored(Apply(s, Finish(call)), op.account)
            == Some(FailureRecord(op.previous, op.provider, op.failure, op.delay, op.now))
  {
    hide FailureRecord;
  }

  // ------------------------------------------------------------ one model of an account

  /** No step after this one writes or deletes the lock. */
  ghost predicate LeavesLock(s: State, steps: seq<Step>, key: string)
    decreases |steps|
  {
    steps == [] ||
    (var t := if Enabled(s, steps[0]) then Apply(s, steps[0]) else s;
     key in t.locks && key in s.locks && t.locks[key] == s.locks[key] && LeavesLock(t, steps[1..], key))
  }

  lemma {:induction false} LockStays(s: State, steps: seq<Step>, key: string)
    requires key in s.locks && LeavesLock(s, steps, key)
    ensures key in Run(s, steps).locks && Run(s, steps).locks[key] == s.locks[key]
    decreases |steps|
  {
    if steps != [] {
      hide Apply, Enabled;
      LockStays(if Enabled(s, steps[0]) then Apply(s, steps[0]) else s, steps[1..], key);
    }
  }

  /** A retryable failure with a delay locks the model it happened on, in any run: from the
      lock's write on, and until it is written again or deleted, the model of that account is
      locked exactly before the end of the delay, with one failure more than the lock had when the
      call read it. */
  lemma LockKeepsModelOut(before: seq<Step>, call: nat, account: string, model: string, failure: Failure,
                          delay: Delay, now: int, meanwhile: seq<Step>, after: seq<Step>, t: int)
    requires call !in Run(EMPTY, before).pending && Finish(call) !in meanwhile && delay > 0.0
    requires var written := Run(EMPTY, before + [StartLock(call, account, model, true, failure, delay, now)]
                                       + meanwhile + [Finish(call)]);
             LeavesLock(written, after, LockKey(account, model))
    ensures var written := Run(EMPTY, before + [StartLock(call, account, model, true, failure, delay, now)]
                                      + meanwhile + [Finish(call)]);
            var s := Run(written, after);
            && LockKey(account, model) in s.locks
            && s.locks[LockKey(account, model)].failureCount
               == Min(255, 1 + (var first := Run(EMPTY, before).locks;
                                if LockKey(account, model) in first then first[LockKey(account, model)].failureCount
                                else 0))
            && Locked(s.locks, account, model, t) == (t < IsoTime(now as real + delay))
            && (t < IsoTime(now as real + delay) ==>
                  !Eligible(s.records, s.locks, Candidate(account, true, true), Some(model), t))
  {
    var start, key := StartLock(call, account, model, true, failure, delay, now), LockKey(account, model);
    var s0 := Run(EMPTY, before);
    RunsOn(EMPTY, before, [start]);
    OneStep(s0, start);
    var s1 := Run(EMPTY, before + [start]);
    RunsOn(EMPTY, before + [start], meanwhile);
    PendingStays(s1, meanwhile, call);
    var s2 := Run(s1, meanwhile);
    RunsOn(EMPTY, before + [start] + meanwhile, [Finish(call)]);
    OneStep(s2, Finish(call));
    var all := before + [start] + meanwhile + [Finish(call)];
    var written := Run(EMPTY, all);
    RunKeepsStores(EMPTY, all + after);
    RunsOn(EMPTY, all, after);
    hide Run;
    FinishedLock(s2, call);
    LockStays(written, after, key);
    var s := Run(written, after);
    LockedByKey(s, account, model, t);
    hide Apply, SaneStores, LeavesLock, LockKey, Locked, IsoTime;
  }

  lemma FinishedLock(s: State, call: nat)
    requires call in s.pending && s.pending[call].LockModel? && s.pending[call].delay > 0.0
    ensures var op := s.pending[call];
            var key, locks := LockKey(op.account, op.model), Apply(s, Finish(call)).locks;
            key in locks && locks[key].account == op.account && locks[key].model == op.model
            && locks[key].retryAt == IsoTime(op.now as real + op.delay)
            && locks[key].failureCount == Min(255, op.count + 1)
  {
    hide LockKey, IsoTime;
  }

  // ------------------------------------------------------------ how failures add up

  /** The failures of an account written since its last success. */
  function Streak(s: State, steps: seq<Step>, account: string, count: nat): nat
    decreases |steps|
  {
    if steps == [] then count
    else
      var step := steps[0];
      var written := Enabled(s, step) && step.Finish? && !s.pending[step.call].LockModel?
                     && s.pending[step.call].account == account;
      Streak(if Enabled(s, step) then Apply(s, step) else s, steps[1..], account,
             if !written then count else if s.pending[step.call].Fail? then count + 1 else 0)
  }

  /** A call that read an account after its last write holds the record that is stored. */
  ghost predicate ReadsUpToDate(s: State, account: string) {
    forall call :: call in s.pending && !s.pending[call].LockModel? && s.pending[call].account == account ==>
      && s.pending[call].seen <= Writes(s, account)
      && (s.pending[call].seen == Writes(s, account) ==> s.pending[call].previous == Stored(s, account))
  }

  ghost predicate CountsStreak(s: State, account: string, count: nat) {
    CountOf(Stored(s, account)) == Min(MAX_FAILURES, count)
  }

  lemma StepReadsUpToDate(s: State, step: Step, account: string)
    requires ReadsUpToDate(s, account) && Enabled(s, step)
    ensures ReadsUpToDate(Apply(s, step), account)
  {
    hide LockKey, FailureRecord, SuccessRecord, StoredLockCount;
    StepWrites(s, step, account);
  }

  lemma StepCountsStreak(s: State, step: Step, account: string, count: nat)
    requires ReadsUpToDate(s, account) && Enabled(s, step) && CountsStreak(s, account, count)
    requires !Overlaps(s, step, account)
    ensures var written := step.Finish? && !s.pending[step.call].LockModel? && s.pending[step.call].account == account;
            CountsStreak(Apply(s, step), account,
                         if !written then count else if s.pending[step.call].Fail? then count + 1 else 0)
  {
    hide LockKey, StoredLockCount, IsoTime, IsoOf;
  }

  lemma {:induction false} RunCountsStreak(s: State, steps: seq<Step>, account: string, count: nat)
    requires ReadsUpToDate(s, account) && CountsStreak(s, account, count) && NoOverlap(s, steps, account)
    ensures CountsStreak(Run(s, steps), account, Streak(s, steps, account, count))
    decreases |steps|
  {
    if steps == [] { return; }
    var step := steps[0];
    var t := if Enabled(s, step) then Apply(s, step) else s;
    if Enabled(s, step) {
      StepReadsUpToDate(s, step, account);
      StepCountsStreak(s, step, account, count);
    }
    var written := Enabled(s, step) && step.Finish? && !s.pending[step.call].LockModel?
                   && s.pending[step.call].account == account;
    var next := if !written then count else if s.pending[step.call].Fail? then count + 1 else 0;
    hide ReadsUpToDate, CountsStreak, Apply, Overlaps;
    RunCountsStreak(t, steps[1..], account, next);
    assert CountsStreak(Run(s, steps), account, Streak(s, steps, account, count));
  }

  /** While no two calls on an account overlap, its failure count is the number of failures
      since its last success, up to 255. */
  lemma FailureCountIsStreak(steps: seq<Step>, account: string)
    requires NoOverlap(EMPTY, steps, account)
    ensures CountOf(Stored(Run(EMPTY, steps), account)) == Min(255, Streak(EMPTY, steps, account, 0))
  {
    RunCountsStreak(EMPTY, steps, account, 0);
  }
}
