/** What a run of the failover engine delivers and how it ends: which events reach the
    consumer, and where a thrown error comes from. */
module RecoveryEndings {
  import opened Common
  import opened StreamContract
  import opened Recovery
  import opened RecoverySafety
  import opened RetrySafety

  // ------------------------------------------------------------ the error of a run

  /** What is thrown after attempt `failed` when the failure hook is told `told`, something
      meaningful was shown or not, and the decision is taken at reading `n`: the failure itself
      when it may not be retried, or else what the hook or the wait throws. */
  ghost predicate Explains(env: Env, failed: nat, told: nat, shown: bool, n: nat, e: Failure) {
    exists error :: FailsBy(env, failed, error) && Stops(env, error, told, shown, n, e)
  }

  predicate Stops(env: Env, error: Failure, told: nat, shown: bool, n: nat, e: Failure) {
    if told >= env.maxAttempts || shown || !env.shouldRetry(error, n) || env.aborted(n) then e == error
    else match env.onFailure(told)
      case Raise(x) => e == x
      case Proceed => env.wait(told + 1) == Raise(e)
  }

  /** The readings made before the last attempt of a phase, or before its stream is read. */
  function LastClock(at: Spot, attempts: seq<nat>): nat {
    if attempts == [] then at.clock else AttemptClock(at, |attempts| - 1)
  }

  /** An error thrown after `last` was attempted: seen at `clock` readings and later. */
  ghost predicate Accounts(env: Env, last: nat, told: nat, shown: bool, clock: nat, e: Failure) {
    match env.attempt(last)
    case NonStream(_) => e == NOT_A_STREAM
    case Streaming(_) =>
      (e == CLIENT_ABORTED && env.aborted(clock)) || Explains(env, last, told, shown, clock + 1, e)
    case Rejected(_) =>
      (e == CLIENT_ABORTED && env.aborted(clock + 1)) || Explains(env, last, told, shown, clock, e)
  }

  ghost predicate AccountsFor(env: Env, at: Spot, t: StreamTrace) {
    && (at.phase.Attempting? ==> t.log.attempts != [])
    && (t.ending.Threw? ==>
          var attempts, e := t.log.attempts, t.ending.error;
          var shown := at.shown || AnyMeaningful(t.log.delivered);
          if attempts == [] then
            if at.phase.Reading? then Accounts(env, at.phase.attempt, at.index, shown, at.clock, e)
            else e == CLIENT_ABORTED && env.aborted(at.clock)
          else
            var last := attempts[|attempts| - 1];
            Accounts(env, last, last, shown, LastClock(at, attempts), e))
  }

  lemma LastTurnAccounts(env: Env, at: Spot)
    requires Fits(env, at) && FromAttempt(env, at) && TurnOf(env, at).Over?
    ensures var turn := TurnOf(env, at); AccountsFor(env, at, StreamTrace(turn.log, turn.ending))
  {
    if at.phase.Reading? {
      var read := Consume(at.phase.events, at.phase.attempt, 0, at.pulls);
      if read.exit.Lost? { LostReading(env, at.phase.events, at.phase.attempt, at.pulls); }
    } else if at.phase.Attempting? && env.attempt(at.index).Rejected? {
      assert FailsBy(env, at.index, env.attempt(at.index).error);
    }
    hide Consume, AnyMeaningful, FailsBy, FailsQuietly;
  }

  lemma NothingFirst(delivered: seq<Tagged>)
    ensures [] + delivered == delivered && !AnyMeaningful([])
  {
  }

  lemma ReadShows(env: Env, at: Spot)
    requires Fits(env, at) && TurnOf(env, at).Continue?
    ensures var turn := TurnOf(env, at);
            turn.next.shown == (at.shown || AnyMeaningful(turn.log.delivered))
            && (!at.phase.Reading? ==> turn.log.delivered == [])
  {
    hide Consume, Judge;
  }

  /** From a read stream, or the loop top, the next attempt accounts for the same ending. */
  lemma AccountsFrom(env: Env, at: Spot, next: Spot, rest: StreamTrace, t: StreamTrace)
    requires next.phase.Attempting? && AccountsFor(env, next, rest)
    requires if at.phase.Reading? then next.clock == at.clock + 2 else at.phase.AtLoopTop? && next.clock == at.clock + 1
    requires t.log.attempts == rest.log.attempts && t.ending == rest.ending
    requires (at.shown || AnyMeaningful(t.log.delivered)) == (next.shown || AnyMeaningful(rest.log.delivered))
    ensures AccountsFor(env, at, t)
  {
    hide Accounts, AnyMeaningful;
  }

  lemma AccountsAfterReading(env: Env, at: Spot, turn: Turn, rest: StreamTrace)
    requires Fits(env, at) && !at.phase.Attempting? && turn == TurnOf(env, at) && turn.Continue?
    requires AccountsFor(env, turn.next, rest)
    ensures AccountsFor(env, at, StreamPrefix(turn.log, rest))
  {
    TurnMoves(env, at);
    ReadShows(env, at);
    MeaningfulJoin(turn.log.delivered, rest.log.delivered);
    hide TurnOf, AccountsFor, AnyMeaningful;
    assert [] + rest.log.attempts == rest.log.attempts;
    AccountsFrom(env, at, turn.next, rest, StreamPrefix(turn.log, rest));
    hide StreamPrefix;
  }

  lemma AccountsFromAttempt(env: Env, at: Spot, next: Spot, rest: StreamTrace, t: StreamTrace)
    requires at.phase.Attempting? && AccountsFor(env, next, rest) && next.shown == at.shown
    requires if next.phase.Reading? then
               && env.attempt(at.index).Streaming? && next.phase.attempt == at.index == next.index
               && next.clock == at.clock
             else env.attempt(at.index).Rejected? && next.phase.AtLoopTop? && next.clock == at.clock + 1
    requires t.log.attempts == [at.index] + rest.log.attempts && t.ending == rest.ending
    requires AnyMeaningful(t.log.delivered) == AnyMeaningful(rest.log.delivered)
    ensures AccountsFor(env, at, t)
  {
    hide Explains, AnyMeaningful;
    if rest.log.attempts == [] {
      assert t.log.attempts == [at.index];
    } else {
      LastOf(at.index, rest.log.attempts);
      hide Accounts;
    }
  }

  lemma AccountsAfterAttempt(env: Env, at: Spot, turn: Turn, rest: StreamTrace)
    requires Fits(env, at) && at.phase.Attempting? && turn == TurnOf(env, at) && turn.Continue?
    requires AccountsFor(env, turn.next, rest)
    ensures AccountsFor(env, at, StreamPrefix(turn.log, rest))
  {
    TurnMoves(env, at);
    ReadShows(env, at);
    NothingFirst(rest.log.delivered);
    hide TurnOf, AccountsFor, AnyMeaningful;
    AccountsFromAttempt(env, at, turn.next, rest, StreamPrefix(turn.log, rest));
    hide StreamPrefix;
  }

  lemma {:induction false} DriveAccounts(env: Env, at: Spot)
    requires Fits(env, at) && FromAttempt(env, at)
    ensures AccountsFor(env, at, Drive(env, at))
    decreases env.maxAttempts - at.index, Rank(at.phase)
  {
    var turn := TurnOf(env, at);
    match turn {
      case Over(_, _) =>
        LastTurnAccounts(env, at);
        hide TurnOf, AccountsFor;
      case Continue(_, next) =>
        TurnFromAttempt(env, at);
        hide TurnOf, AccountsFor, FromAttempt, StreamPrefix;
        DriveAccounts(env, next);
        var rest := Drive(env, next);
        if at.phase.Attempting? {
          AccountsAfterAttempt(env, at, turn, rest);
        } else {
          AccountsAfterReading(env, at, turn, rest);
        }
        assert AccountsFor(env, at, Drive(env, at));
    }
  }

  /** An error thrown before the stream, after the attempts `index` to `index + made - 1`. */
  ghost predicate CallAccounts(env: Env, index: nat, made: nat, e: Failure) {
    var next := index + made;
    || (e == EXHAUSTED && made == 0 && next >= env.maxAttempts)
    || (e == CLIENT_ABORTED && next < env.maxAttempts && env.aborted(2 * next))
    || (made > 0 && env.attempt(next - 1).Rejected? && CallStops(env, env.attempt(next - 1).error, next, e))
  }

  /** After attempt `next - 1` failed with `error`: the hook's or the wait's error, or the
      failure itself when it may not be retried. */
  predicate CallStops(env: Env, error: Failure, next: nat, e: Failure)
    requires next > 0
  {
    match env.onFailure(next - 1)
    case Raise(x) => e == x
    case Proceed =>
      if next >= env.maxAttempts || !env.shouldRetry(error, 2 * next - 1) then e == error
      else env.wait(next) == Raise(e)
  }

  ghost predicate CallEnding(env: Env, index: nat, t: CallTrace) {
    var made := |t.log.attempts|;
    match t.outcome
    case CallThrew(e) => CallAccounts(env, index, made, e)
    case CallAnswered(body) => made > 0 && env.attempt(index + made - 1) == NonStream(body)
    case CallStreaming(events, i) => made > 0 && i == index + made - 1 && env.attempt(i) == Streaming(events)
  }

  lemma CallEndingAfter(env: Env, index: nat, rest: CallTrace)
    requires CallEnding(env, index + 1, rest) && index + 1 < env.maxAttempts
    ensures CallEnding(env, index, CallPrefix(RetriedLog(index), rest))
  {
    hide CallStops;
    assert |[index] + rest.log.attempts| == 1 + |rest.log.attempts|;
  }

  lemma {:induction false} CallEndsSo(env: Env, index: nat)
    ensures CallEnding(env, index, Call(env, index))
    decreases env.maxAttempts - index
  {
    if Retried(env, index) {
      CallUnfolds(env, index);
      MoreAfter(env, index);
      hide Call, CallEnding, Retried, RetriedLog;
      CallEndsSo(env, index + 1);
      CallEndingAfter(env, index, Call(env, index + 1));
    }
  }

  /** In every run the ending is accounted for by the last attempt. A non-stream answer is
      its answer. An error thrown before the stream is its failure, unless the failure hook or
      the wait threw, an abort was seen, or nothing may be attempted. An error thrown inside the
      stream is its failure, and then it may not be retried, unless the hook or the wait threw,
      an abort was seen, or it was no stream. */
  lemma EndingIsAccountedFor(env: Env, pulls: nat)
    ensures var run := Whole(env, pulls);
            var attempts := run.log.attempts;
            match run.ending
            case FailedBeforeStream(e) => CallAccounts(env, 0, |attempts|, e)
            case Answered(body) => attempts != [] && env.attempt(attempts[|attempts| - 1]) == NonStream(body)
            case NeverPulled => pulls == 0 && HandedOver(env).Some?
            case Streamed(ending) =>
              && attempts != []
              && var last := attempts[|attempts| - 1];
                 ending.Threw? ==>
                   Accounts(env, last, if HandedOver(env) == Some(last) then last + 1 else last,
                            !NoOutput(run.log.delivered), 2 * |attempts|, ending.error)
  {
    NoOutputIs(Whole(env, pulls).log.delivered);
    hide NoOutput;
    hide Call, Drive, Then, CallAccounts, Accounts, AnyMeaningful, AccountsFor, InOrder, CallInOrder, CallLeaves;
    CallEndsSo(env, 0);
    CallCountsUp(env, 0);
    CallLeavesLittle(env, 0);
    var call := Call(env, 0);
    LastIsCounted(env, call);
    if call.outcome.CallStreaming? && pulls > 0 {
      var at := Opened(call.outcome, pulls);
      DriveAccounts(env, at);
      DriveInOrder(env, at);
      StreamAccounts(env, call, at, Drive(env, at));
      ThenParts(call.log, Drive(env, at).log);
      hide CallEnding;
    }
  }

  lemma LastIsCounted(env: Env, call: CallTrace)
    requires CallInOrder(env, 0, call)
    ensures var attempts := call.log.attempts; attempts != [] ==> attempts[|attempts| - 1] == |attempts| - 1
  {
  }

  lemma ThenParts(a: Log, b: Log)
    ensures Then(a, b).attempts == a.attempts + b.attempts && Then(a, b).delivered == a.delivered + b.delivered
  {
  }

  lemma StreamAccounts(env: Env, call: CallTrace, at: Spot, t: StreamTrace)
    requires call.outcome.CallStreaming? && at == Opened(call.outcome, at.pulls)
    requires CallInOrder(env, 0, call) && CallLeaves(0, call) && InOrder(env, at, t.log) && AccountsFor(env, at, t)
    ensures var attempts, index := call.log.attempts + t.log.attempts, call.outcome.index;
            && attempts != []
            && var last := attempts[|attempts| - 1];
               t.ending.Threw? ==>
                 Accounts(env, last, if last == index then last + 1 else last,
                          AnyMeaningful(call.log.delivered + t.log.delivered), 2 * |attempts|, t.ending.error)
  {
    NothingFirst(t.log.delivered);
    CallEnds(env, call);
    hide Accounts, AnyMeaningful;
    AttemptsOf(call.log.attempts, t.log.attempts);
  }

  // ------------------------------------------------------------ what is delivered

  /** How many of the events come from attempt `a`. */
  function CountFrom(delivered: seq<Tagged>, a: nat): nat {
    if delivered == [] then 0
    else CountFrom(delivered[..|delivered| - 1], a) + (if delivered[|delivered| - 1].attempt == a then 1 else 0)
  }

  /** Event `p` is the next one of its attempt's stream. */
  ghost predicate IsNext(env: Env, delivered: seq<Tagged>, p: nat)
    requires p < |delivered|
  {
    var a := delivered[p].attempt;
    env.attempt(a).Streaming? && IsShown(env.attempt(a).events, a, CountFrom(delivered[..p], a), delivered[p])
  }

  ghost predicate InStreamOrder(env: Env, delivered: seq<Tagged>) {
    forall p :: 0 <= p < |delivered| ==> IsNext(env, delivered, p)
  }

  lemma {:induction false} CountJoins(x: seq<Tagged>, y: seq<Tagged>, a: nat)
    ensures CountFrom(x + y, a) == CountFrom(x, a) + CountFrom(y, a)
  {
    if y == [] {
      assert x + y == x;
    } else {
      var all, last := x + y, |y| - 1;
      assert all[..|all| - 1] == x + y[..last] && all[|all| - 1] == y[last];
      CountJoins(x, y[..last], a);
    }
  }

  lemma {:induction false} CountNone(x: seq<Tagged>, a: nat)
    requires forall i :: 0 <= i < |x| ==> x[i].attempt != a
    ensures CountFrom(x, a) == 0
  {
    if x != [] { CountNone(x[..|x| - 1], a); }
  }

  lemma {:induction false} CountAll(x: seq<Tagged>, a: nat)
    requires forall i :: 0 <= i < |x| ==> x[i].attempt == a
    ensures CountFrom(x, a) == |x|
  {
    if x != [] { CountAll(x[..|x| - 1], a); }
  }

  lemma InStreamOrderJoins(env: Env, x: seq<Tagged>, y: seq<Tagged>)
    requires InStreamOrder(env, x) && InStreamOrder(env, y)
    requires forall i, j :: 0 <= i < |x| && 0 <= j < |y| ==> x[i].attempt != y[j].attempt
    ensures InStreamOrder(env, x + y)
  {
    var all := x + y;
    forall p | 0 <= p < |all|
      ensures IsNext(env, all, p)
    {
      if p < |x| {
        assert IsNext(env, x, p) && all[..p] == x[..p];
      } else {
        var q := p - |x|;
        assert IsNext(env, y, q) && all[..p] == x + y[..q] && all[p] == y[q];
        CountJoins(x, y[..q], y[q].attempt);
        CountNone(x, y[q].attempt);
      }
    }
  }

  lemma ReadInStreamOrder(env: Env, events: nat -> StreamStep, attempt: nat, pulls: nat)
    requires pulls > 0 && env.attempt(attempt) == Streaming(events)
    ensures var delivered := Consume(events, attempt, 0, pulls).delivered;
            InStreamOrder(env, delivered) && forall i :: 0 <= i < |delivered| ==> delivered[i].attempt == attempt
  {
    ConsumeFacts(events, attempt, 0, pulls);
    ConsumeReadsOn(events, attempt, 0, pulls);
    var delivered := Consume(events, attempt, 0, pulls).delivered;
    hide Consume;
    forall p | 0 <= p < |delivered|
      ensures IsNext(env, delivered, p)
    {
      assert IsShown(events, attempt, 0 + p, delivered[p]);
      CountAll(delivered[..p], attempt);
    }
  }

  /** The events come, in order, from the streams of the attempts made from here on, or from
      the one at hand. */
  ghost predicate Relays(env: Env, at: Spot, log: Log) {
    && InStreamOrder(env, log.delivered)
    && forall i :: 0 <= i < |log.delivered| ==>
         || log.delivered[i].attempt >= NextIndex(at)
         || (at.phase.Reading? && log.delivered[i].attempt == at.phase.attempt)
  }

  lemma TurnRelays(env: Env, at: Spot, rest: Log)
    requires Fits(env, at) && FromAttempt(env, at)
    ensures var turn := TurnOf(env, at);
            if turn.Over? then Relays(env, at, turn.log)
            else Relays(env, turn.next, rest) ==> Relays(env, at, Then(turn.log, rest))
  {
    var turn := TurnOf(env, at);
    if at.phase.Reading? { ReadInStreamOrder(env, at.phase.events, at.phase.attempt, at.pulls); }
    NothingFirst(rest.delivered);
    if turn.Continue? {
      TurnMoves(env, at);
      ReadShows(env, at);
      if Relays(env, turn.next, rest) && at.phase.Reading? {
        ReadThenRelays(env, at, turn.log.delivered, turn.next, rest);
      }
    }
    hide Consume, Judge, InStreamOrder;
  }

  lemma ReadThenRelays(env: Env, at: Spot, read: seq<Tagged>, next: Spot, rest: Log)
    requires at.phase.Reading? && at.phase.attempt <= at.index && next.phase.Attempting? && next.index == at.index + 1
    requires InStreamOrder(env, read) && forall i :: 0 <= i < |read| ==> read[i].attempt == at.phase.attempt
    requires Relays(env, next, rest)
    ensures InStreamOrder(env, read + rest.delivered)
    ensures forall i :: 0 <= i < |read + rest.delivered| ==>
              var a := (read + rest.delivered)[i].attempt; a >= NextIndex(at) || a == at.phase.attempt
  {
    InStreamOrderJoins(env, read, rest.delivered);
    hide InStreamOrder;
  }

  lemma {:induction false} DriveRelays(env: Env, at: Spot)
    requires Fits(env, at) && FromAttempt(env, at)
    ensures Relays(env, at, Drive(env, at).log)
    decreases env.maxAttempts - at.index, Rank(at.phase)
  {
    var turn := TurnOf(env, at);
    TurnFromAttempt(env, at);
    hide TurnOf, Relays, Then, FromAttempt;
    TurnRelays(env, at, if turn.Continue? then Drive(env, turn.next).log else QUIET);
    if turn.Continue? { DriveRelays(env, turn.next); }
    assert Relays(env, at, Drive(env, at).log);
  }

  /** What the consumer is shown in a run are the streams of its attempts from their first
      event on: nothing is skipped, repeated, reordered or made up. */
  lemma DeliversStreamsInOrder(env: Env, pulls: nat)
    ensures InStreamOrder(env, Whole(env, pulls).log.delivered)
  {
    CallStreamIsAttempts(env, 0);
    CallLeavesLittle(env, 0);
    hide Call, Drive, InStreamOrder;
    assert InStreamOrder(env, []) by { NoneDelivered(env); }
    var call := Call(env, 0);
    if call.outcome.CallStreaming? && pulls > 0 {
      var at := Opened(call.outcome, pulls);
      DriveRelays(env, at);
      NothingFirst(Drive(env, at).log.delivered);
    }
  }

  lemma NoneDelivered(env: Env)
    ensures InStreamOrder(env, [])
  {
  }
}
