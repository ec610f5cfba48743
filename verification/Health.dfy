/** Account health and per-model locks (`AccountHealthManager` and the memory stores in
    src/auth/credentials.ts, `deriveRouteHealth` in src/traffic/network.ts) and the recovery
    sweep over both (src/app/recovery-sweep.ts). Times are milliseconds; the cooldown policy is
    whatever delay a step brings; it may be fractional, as jitter makes it. */
module Health {
  import opened Common

  datatype Status = Healthy | Failing | CoolingDown | Disabled

  datatype Failure = Failure(statusCode: Option<int>, kind: string, message: string)

  /** `retryAt` is the ISO form of `disabledUntil`, cut to a whole millisecond. */
  datatype Record = Record(
    provider: string, status: Status, failure: Option<Failure>, occurredAt: Option<int>,
    retryAt: Option<int>, disabledUntil: Option<real>, failureCount: nat, generation: nat)

  datatype Lock = Lock(account: string, model: string, retryAt: int, failure: Failure, failureCount: nat)

  /** The view routing sees, derived at some time. */
  datatype HealthView = HealthView(status: Status, failure: Option<Failure>, occurredAt: Option<int>,
    retryAt: Option<int>)

  type Records = map<string, Record>
  type Locks = map<string, Lock>

  type Delay = d: real | d >= 0.0 witness 0.0

  const MAX_FAILURES := 255

  /** `Date.parse(new Date(ms).toISOString())`: a date drops the fraction. */
  function IsoTime(ms: real): (whole: int)
    ensures ms >= 0.0 ==> whole as real <= ms < (whole + 1) as real
    ensures ms < 0.0 ==> (whole - 1) as real < ms <= whole as real
  {
    if ms >= 0.0 then ms.Floor else -(-ms).Floor
  }

  function IsoOf(ms: Option<real>): Option<int> {
    if ms.Some? then Some(IsoTime(ms.value)) else None
  }

  /** A whole number of milliseconds reaches a time no sooner than its ISO form. */
  lemma ReachedInIso(ms: real, t: int)
    ensures t as real >= ms ==> t >= IsoTime(ms)
  {
  }

  function NextFailureCount(previous: nat): nat {
    if previous + 1 < MAX_FAILURES then previous + 1 else MAX_FAILURES
  }

  function CountOf(previous: Option<Record>): nat {
    if previous.Some? then previous.value.failureCount else 0
  }

  function GenerationOf(previous: Option<Record>): nat {
    if previous.Some? then previous.value.generation else 0
  }

  function FailureRecord(previous: Option<Record>, provider: string, failure: Failure, delay: Delay, now: int): Record {
    var until := if delay > 0.0 then Some(now as real + delay) else None;
    Record(provider, if delay > 0.0 then CoolingDown else Failing, Some(failure), Some(now), IsoOf(until), until,
           NextFailureCount(CountOf(previous)), GenerationOf(previous) + 1)
  }

  function SuccessRecord(previous: Option<Record>, provider: string): Record {
    Record(provider, Healthy, None, None, None, None, 0, GenerationOf(previous) + 1)
  }

  function Derive(r: Record, t: int): HealthView {
    var cooling := r.disabledUntil.Some? && t as real < r.disabledUntil.value;
    var status := if cooling then CoolingDown
                  else if r.status.Disabled? then Disabled
                  else if r.status.Failing? then Failing
                  else Healthy;
    var active := cooling || !status.Healthy?;
    HealthView(status, if active then r.failure else None, if active then r.occurredAt else None,
               if cooling then r.retryAt else None)
  }

  // ------------------------------------------------------------ eligibility

  predicate HealthAllows(v: HealthView, t: int) {
    !v.status.Disabled? && (v.status.CoolingDown? ==> v.retryAt.Some? && t >= v.retryAt.value)
  }

  /** The memory store's key: account and model around a colon. */
  function LockKey(account: string, model: string): string {
    account + [':'] + model
  }

  /** A candidate's lock map lists the locks whose record names the account, by model. */
  predicate Locked(locks: Locks, account: string, model: string, t: int) {
    exists key :: key in locks && locks[key].account == account && locks[key].model == model && locks[key].retryAt > t
  }

  datatype Candidate = Candidate(account: string, enabled: bool, quotaAvailable: bool)

  predicate Eligible(records: Records, locks: Locks, c: Candidate, model: Option<string>, t: int) {
    && c.enabled && c.quotaAvailable
    && (c.account in records ==> HealthAllows(Derive(records[c.account], t), t))
    && (model.Some? ==> !Locked(locks, c.account, model.value, t))
  }

  // ------------------------------------------------------------ every run, await by await

  /** A call between its read of the store and its write. `seen` is the number of writes the
      account had had when the call read it. */
  datatype Op =
    | Fail(account: string, provider: string, failure: Failure, delay: Delay, now: int, previous: Option<Record>,
        seen: nat)
    | Succeed(account: string, provider: string, previous: Option<Record>, seen: nat)
    | LockModel(account: string, model: string, failure: Failure, delay: Delay, now: int, count: nat)

  /** `writes` is history: how many health records each account has been written. */
  datatype State = State(records: Records, locks: Locks, pending: map<nat, Op>, writes: map<string, nat>)

  datatype Step =
    | StartFailure(call: nat, account: string, provider: string, retryable: bool, failure: Failure, delay: Delay,
        now: int)
    | StartSuccess(call: nat, account: string, provider: string)
    | StartLock(call: nat, account: string, model: string, retryable: bool, failure: Failure, delay: Delay, now: int)
    | Finish(call: nat)
    | Unlock(account: string, model: string)

  function Writes(s: State, account: string): nat {
    if account in s.writes then s.writes[account] else 0
  }

  function Stored(s: State, account: string): Option<Record> {
    if account in s.records then Some(s.records[account]) else None
  }

  function StoredLockCount(s: State, account: string, model: string): nat {
    var key := LockKey(account, model);
    if key in s.locks then s.locks[key].failureCount else 0
  }

  predicate Enabled(s: State, step: Step) {
    match step
    case Finish(call) => call in s.pending
    case Unlock(_, _) => true
    case _ => step.call !in s.pending
  }

  function Put(s: State, account: string, record: Record): State {
    s.(records := s.records[account := record], writes := s.writes[account := Writes(s, account) + 1])
  }

  /** The write half of a call. A lock with no delay is not written. */
  function Complete(s: State, op: Op): State {
    match op
    case Fail(account, provider, failure, delay, now, previous, _) =>
      Put(s, account, FailureRecord(previous, provider, failure, delay, now))
    case Succeed(account, provider, previous, _) => Put(s, account, SuccessRecord(previous, provider))
    case LockModel(account, model, failure, delay, now, count) =>
      if delay == 0.0 then s
      else s.(locks := s.locks[LockKey(account, model) :=
        Lock(account, model, IsoTime(now as real + delay), failure, NextFailureCount(count))])
  }

  function Apply(s: State, step: Step): State
    requires Enabled(s, step)
  {
    match step
    case StartFailure(call, account, provider, retryable, failure, delay, now) =>
      if !retryable then s
      else s.(pending := s.pending[call := Fail(account, provider, failure, delay, now, Stored(s, account),
        Writes(s, account))])
    case StartSuccess(call, account, provider) =>
      s.(pending := s.pending[call := Succeed(account, provider, Stored(s, account), Writes(s, account))])
    case StartLock(call, account, model, retryable, failure, delay, now) =>
      if !retryable then s
      else s.(pending := s.pending[call := LockModel(account, model, failure, delay, now,
        StoredLockCount(s, account, model))])
    case Finish(call) => Complete(s, s.pending[call]).(pending := s.pending - {call})
    case Unlock(account, model) => s.(locks := s.locks - {LockKey(account, model)})
  }

  function Run(s: State, steps: seq<Step>): State
    decreases |steps|
  {
    if steps == [] then s else Run(if Enabled(s, steps[0]) then Apply(s, steps[0]) else s, steps[1..])
  }

  const EMPTY := State(map[], map[], map[], map[])

  ghost predicate SaneRecord(r: Record) {
    && r.failureCount <= MAX_FAILURES
    && (r.status.CoolingDown? <==> r.retryAt.Some?)
    && r.retryAt == IsoOf(r.disabledUntil)
    && !r.status.Disabled?
    && (r.status.Healthy? <==> r.failureCount == 0)
    && (r.status.Healthy? <==> r.failure.None?)
  }

  ghost predicate SaneStores(s: State) {
    && (forall a :: a in s.records ==> SaneRecord(s.records[a]))
    && (forall key :: key in s.locks ==> key == LockKey(s.locks[key].account, s.locks[key].model)
                                         && 0 < s.locks[key].failureCount <= MAX_FAILURES)
  }

  lemma WrittenRecordsAreSane(previous: Option<Record>, provider: string, failure: Failure, delay: Delay, now: int)
    ensures SaneRecord(FailureRecord(previous, provider, failure, delay, now))
    ensures SaneRecord(SuccessRecord(previous, provider))
  {
  }

  lemma CompleteKeepsStores(s: State, op: Op)
    requires SaneStores(s)
    ensures SaneStores(Complete(s, op))
  {
    hide SaneRecord, LockKey, FailureRecord, SuccessRecord;
    match op
    case Fail(_, provider, failure, delay, now, previous, _) =>
      WrittenRecordsAreSane(previous, provider, failure, delay, now);
    case Succeed(_, provider, previous, _) => WrittenRecordsAreSane(previous, provider, Failure(None, "", ""), 0.0, 0);
    case LockModel(_, _, _, _, _, _) =>
  }

  lemma StepKeepsStores(s: State, step: Step)
    requires SaneStores(s) && Enabled(s, step)
    ensures SaneStores(Apply(s, step))
  {
    if step.Finish? {
      CompleteKeepsStores(s, s.pending[step.call]);
    }
    hide SaneRecord, LockKey, Complete;
  }

  lemma {:induction false} RunKeepsStores(s: State, steps: seq<Step>)
    requires SaneStores(s)
    ensures SaneStores(Run(s, steps))
    decreases |steps|
  {
    if steps == [] { return; }
    if Enabled(s, steps[0]) { StepKeepsStores(s, steps[0]); }
    hide SaneStores;
    RunKeepsStores(if Enabled(s, steps[0]) then Apply(s, steps[0]) else s, steps[1..]);
  }

  /** Over every interleaving of the reads and writes of failures, successes, locks and
      sweeps: a record's failure count never passes 255 and is zero exactly when it is
      healthy, and it is cooling down exactly when a retry time is set. */
  lemma RecordsStaySane(steps: seq<Step>, account: string)
    requires account in Run(EMPTY, steps).records
    ensures SaneRecord(Run(EMPTY, steps).records[account])
  {
    RunKeepsStores(EMPTY, steps);
  }

  lemma LockedByKey(s: State, account: string, model: string, t: int)
    requires SaneStores(s)
    ensures var key := LockKey(account, model);
            Locked(s.locks, account, model, t)
            <==> (key in s.locks && s.locks[key].account == account && s.locks[key].model == model
                  && s.locks[key].retryAt > t)
  {
  }

  /** When an account can be used, in closed form: it is enabled, has quota, its cooldown (if
      any) has run out, to the millisecond of its ISO form, and so has the model's lock (if
      any). Nothing else ever keeps it out, and no failure keeps it out for good. */
  lemma EligibleExactlyWhenTimeIsUp(steps: seq<Step>, c: Candidate, model: Option<string>, t: int)
    ensures var s := Run(EMPTY, steps);
            Eligible(s.records, s.locks, c, model, t) <==>
            && c.enabled && c.quotaAvailable
            && (c.account in s.records ==>
                  || s.records[c.account].retryAt.None?
                  || t >= s.records[c.account].retryAt.value)
            && (model.Some? ==>
                  forall key ::
                    (key in s.locks && s.locks[key].account == c.account && s.locks[key].model == model.value) ==>
                      t >= s.locks[key].retryAt)
  {
    var s := Run(EMPTY, steps);
    if c.account in s.records {
      RecordsStaySane(steps, c.account);
      AllowedFromRetryTime(s.records[c.account], t);
    }
    hide Run, SaneRecord, Derive, HealthAllows;
  }

  lemma AllowedFromRetryTime(r: Record, t: int)
    requires SaneRecord(r)
    ensures HealthAllows(Derive(r, t), t) <==> r.retryAt.None? || t >= r.retryAt.value
  {
    if r.disabledUntil.Some? { ReachedInIso(r.disabledUntil.value, t); }
    hide IsoTime;
  }

  /** `isRecordUsable`, the other question the code asks of a record. */
  predicate RecordUsable(r: Record, t: int) {
    match r.status
    case Disabled => false
    case CoolingDown => r.disabledUntil.None? || t as real >= r.disabledUntil.value
    case _ => true
  }

  /** The two questions differ in one millisecond at most: the last one of a cooldown that
      ends at a fraction, in which the account is eligible and its record not yet usable. */
  lemma UsableLagsIff(r: Record, t: int)
    requires SaneRecord(r)
    ensures HealthAllows(Derive(r, t), t) != RecordUsable(r, t)
            <==> r.retryAt == Some(t) && t as real < r.disabledUntil.value
  {
    AllowedFromRetryTime(r, t);
    if r.disabledUntil.Some? { ReachedInIso(r.disabledUntil.value, t); }
    hide Derive, HealthAllows;
  }

  /** A disabled record keeps its account out, whatever the time, once no cooldown runs. */
  lemma DisabledStaysOut(r: Record, t: int)
    requires r.status.Disabled?
    ensures !RecordUsable(r, t)
    ensures r.disabledUntil.None? ==> !HealthAllows(Derive(r, t), t)
  {
  }

  /** Such a record: a delay of 45000.5 ms counted from 0. */
  lemma UsableCanLag(f: Failure)
    ensures var r := FailureRecord(None, "p", f, 45000.5, 0);
            SaneRecord(r) && HealthAllows(Derive(r, 45000), 45000) && !RecordUsable(r, 45000)
  {
    WrittenRecordsAreSane(None, "p", f, 45000.5, 0);
    UsableLagsIff(FailureRecord(None, "p", f, 45000.5, 0), 45000);
  }

  // ------------------------------------------------------------ generations

  predicate Overlaps(s: State, step: Step, account: string) {
    step.Finish? && step.call in s.pending && !s.pending[step.call].LockModel?
        && s.pending[step.call].account == account
    && s.pending[step.call].seen < Writes(s, account)
  }

  /** No call wrote the account after another write had landed since its read. */
  predicate NoOverlap(s: State, steps: seq<Step>, account: string)
    decreases |steps|
  {
    steps == [] || (!Overlaps(s, steps[0], account)
                    && NoOverlap(if Enabled(s, steps[0]) then Apply(s, steps[0]) else s, steps[1..], account))
  }

  ghost predicate OpSeen(s: State, op: Op, account: string) {
    !op.LockModel? && op.account == account ==>
      && GenerationOf(op.previous) <= op.seen <= Writes(s, account)
      && (op.seen == Writes(s, account) ==> GenerationOf(op.previous) == GenerationOf(Stored(s, account)))
  }

  ghost predicate Counted(s: State, account: string) {
    && GenerationOf(Stored(s, account)) <= Writes(s, account)
    && forall call :: call in s.pending ==> OpSeen(s, s.pending[call], account)
  }

  ghost predicate UpToDate(s: State, account: string) {
    GenerationOf(Stored(s, account)) == Writes(s, account)
  }

  lemma CompleteKeepsCounted(s: State, op: Op, account: string)
    requires Counted(s, account) && OpSeen(s, op, account)
    ensures Counted(Complete(s, op), account) && Complete(s, op).pending == s.pending
    ensures UpToDate(Complete(s, op), account)
            <==> UpToDate(s, account) && !(!op.LockModel? && op.account == account && op.seen < Writes(s, account))
  {
    hide LockKey, NextFailureCount, CountOf;
    var t := Complete(s, op);
    if op.LockModel? || op.account != account {
      assert Writes(t, account) == Writes(s, account) && Stored(t, account) == Stored(s, account);
    } else {
      assert Writes(t, account) == Writes(s, account) + 1;
      assert GenerationOf(Stored(t, account)) == GenerationOf(op.previous) + 1;
    }
    assert t.pending == s.pending;
    hide Complete;
    forall call | call in t.pending
      ensures OpSeen(t, t.pending[call], account)
    {
      assert OpSeen(s, s.pending[call], account);
    }
  }

  lemma StepKeepsCounted(s: State, step: Step, account: string)
    requires Counted(s, account) && Enabled(s, step)
    ensures Counted(Apply(s, step), account)
    ensures UpToDate(Apply(s, step), account) <==> UpToDate(s, account) && !Overlaps(s, step, account)
  {
    hide LockKey, StoredLockCount, Complete;
    if step.Finish? {
      CompleteKeepsCounted(s, s.pending[step.call], account);
    }
  }

  lemma {:induction false} RunCounts(s: State, steps: seq<Step>, account: string)
    requires Counted(s, account)
    ensures var t := Run(s, steps);
            && GenerationOf(Stored(t, account)) <= Writes(t, account)
            && (UpToDate(t, account) <==> UpToDate(s, account) && NoOverlap(s, steps, account))
    decreases |steps|
  {
    if steps == [] { return; }
    if Enabled(s, steps[0]) { StepKeepsCounted(s, steps[0], account); }
    hide Counted, UpToDate, Apply, Stored, Writes, GenerationOf, Overlaps;
    RunCounts(if Enabled(s, steps[0]) then Apply(s, steps[0]) else s, steps[1..], account);
  }

  /** An account's generation is the number of its writes, so that it grows with every write,
      exactly when no two of its calls overlapped: reading and writing a record are separated
      by an await, and a call that writes over another's write repeats its generation. */
  lemma GenerationCountsWrites(steps: seq<Step>, account: string)
    ensures var s := Run(EMPTY, steps);
            && GenerationOf(Stored(s, account)) <= Writes(s, account)
            && (GenerationOf(Stored(s, account)) == Writes(s, account) <==> NoOverlap(EMPTY, steps, account))
  {
    RunCounts(EMPTY, steps, account);
  }

  /** Two overlapping failures: two writes, generation and failure count one. */
  lemma OverlapLosesAFailure(account: string, f: Failure)
    ensures var s := Run(EMPTY, [StartFailure(1, account, "p", true, f, 10.0, 0),
            StartFailure(2, account, "p", true, f, 10.0, 0), Finish(1), Finish(2)]);
            && Writes(s, account) == 2
            && Stored(s, account).Some? && s.records[account].generation == 1 && s.records[account].failureCount == 1
  {
    var a, b := StartFailure(1, account, "p", true, f, 10.0, 0), StartFailure(2, account, "p", true, f, 10.0, 0);
    var steps := [a, b, Finish(1), Finish(2)];
    assert steps[1..] == [b, Finish(1), Finish(2)];
    assert steps[1..][1..] == [Finish(1), Finish(2)];
    assert steps[1..][1..][1..] == [Finish(2)];
    var s1 := Apply(EMPTY, a);
    var s2 := Apply(s1, b);
    var s3 := Apply(s2, Finish(1));
    var s4 := Apply(s3, Finish(2));
    assert Run(s4, []) == s4;
    assert Run(s3, [Finish(2)]) == s4;
    assert Run(s2, [Finish(1), Finish(2)]) == s4;
    assert Run(s1, [b, Finish(1), Finish(2)]) == s4;
  }
}
