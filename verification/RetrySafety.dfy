/** Why the failover engine goes on and why it stops: over every run, each attempt that is
    followed by another failed in a way that may be retried, and an error thrown at the end is
    accounted for by the last attempt. */
module RetrySafety {
  import opened Common
  import opened StreamContract
  import opened Recovery
  import opened RecoverySafety

  // ------------------------------------------------------------ how an attempt fails

  /** The stream goes as far as `n` without a terminal event and is then lost by `error`. */
  ghost predicate LostAt(events: nat -> StreamStep, n: nat, error: Failure) {
    && (forall k :: 0 <= k < n ==> events(k).Emit? && !IsTerminal(events(k).event))
    && IsLost(events, n, error)
  }

  ghost predicate QuietUpTo(events: nat -> StreamStep, n: nat) {
    forall k :: 0 <= k < n ==> events(k).Emit? && !IsOutput(events(k).event)
  }

  /** Attempt `i` fails with `error`: it rejects, or its stream is lost. */
  ghost predicate FailsBy(env: Env, i: nat, error: Failure) {
    match env.attempt(i)
    case Rejected(e) => e == error
    case NonStream(_) => false
    case Streaming(events) => exists n :: LostAt(events, n, error)
  }

  /** And, if a stream, before it showed anything meaningful. */
  ghost predicate FailsQuietly(env: Env, i: nat, error: Failure) {
    match env.attempt(i)
    case Rejected(e) => e == error
    case NonStream(_) => false
    case Streaming(events) => exists n :: LostAt(events, n, error) && QuietUpTo(events, n)
  }

  /** Reading a stream shows its events one after the other from `pos` on, and is lost by what
      comes next. */
  ghost predicate ReadsOn(events: nat -> StreamStep, attempt: nat, pos: nat, c: Consumption) {
    && (forall k :: 0 <= k < |c.delivered| ==> IsShown(events, attempt, pos + k, c.delivered[k]))
    && (c.exit.Lost? ==> IsLost(events, pos + |c.delivered|, c.exit.error))
  }

  ghost predicate IsShown(events: nat -> StreamStep, attempt: nat, pos: nat, shown: Tagged) {
    events(pos).Emit? && shown == Tagged(attempt, events(pos).event)
  }

  /** The stream breaks at this position, or ends too early. */
  ghost predicate IsLost(events: nat -> StreamStep, pos: nat, error: Failure) {
    events(pos) == Broken(error) || (events(pos) == Finished && error == STREAM_TRUNCATED)
  }

  lemma OneMoreRead(events: nat -> StreamStep, attempt: nat, pos: nat, rest: Consumption, c: Consumption)
    requires events(pos).Emit? && ReadsOn(events, attempt, pos + 1, rest)
    requires c.delivered == [Tagged(attempt, events(pos).event)] + rest.delivered && c.exit == rest.exit
    ensures ReadsOn(events, attempt, pos, c)
  {
    assert pos + |c.delivered| == pos + 1 + |rest.delivered|;
    forall k | 0 <= k < |c.delivered|
      ensures IsShown(events, attempt, pos + k, c.delivered[k])
    {
      if k > 0 { assert IsShown(events, attempt, pos + 1 + (k - 1), rest.delivered[k - 1]); }
    }
  }

  lemma {:induction false} ConsumeReadsOn(events: nat -> StreamStep, attempt: nat, pos: nat, pulls: nat)
    requires pulls > 0
    ensures ReadsOn(events, attempt, pos, Consume(events, attempt, pos, pulls))
    decreases pulls
  {
    if events(pos).Emit? && pulls > 1 && !IsTerminal(events(pos).event) {
      ConsumeReadsOn(events, attempt, pos + 1, pulls - 1);
      var c, rest := Consume(events, attempt, pos, pulls), Consume(events, attempt, pos + 1, pulls - 1);
      assert c.delivered == [Tagged(attempt, events(pos).event)] + rest.delivered && c.exit == rest.exit;
      hide Consume;
      OneMoreRead(events, attempt, pos, rest, c);
    }
  }

  lemma LostReading(env: Env, events: nat -> StreamStep, attempt: nat, pulls: nat)
    requires pulls > 0 && env.attempt(attempt) == Streaming(events)
    requires Consume(events, attempt, 0, pulls).exit.Lost?
    ensures var c := Consume(events, attempt, 0, pulls);
            FailsBy(env, attempt, c.exit.error)
            && (!AnyMeaningful(c.delivered) ==> FailsQuietly(env, attempt, c.exit.error))
  {
    ConsumeReadsOn(events, attempt, 0, pulls);
    ConsumeFacts(events, attempt, 0, pulls);
    var c := Consume(events, attempt, 0, pulls);
    hide Consume;
    forall k | 0 <= k < |c.delivered|
      ensures events(k).Emit? && !IsTerminal(events(k).event)
      ensures !AnyMeaningful(c.delivered) ==> !IsOutput(events(k).event)
    {
      assert IsShown(events, attempt, 0 + k, c.delivered[k]);
    }
    assert LostAt(events, |c.delivered|, c.exit.error);
  }

  // ------------------------------------------------------------ every retry was allowed

  /** A stream at hand is that of its attempt, which is not a later one. */
  ghost predicate FromAttempt(env: Env, at: Spot) {
    at.phase.Reading? ==> env.attempt(at.phase.attempt) == Streaming(at.phase.events) && at.phase.attempt <= at.index
  }

  lemma TurnFromAttempt(env: Env, at: Spot)
    requires Fits(env, at) && FromAttempt(env, at)
    ensures TurnOf(env, at).Continue? ==> FromAttempt(env, TurnOf(env, at).next)
  {
    hide Consume, Judge;
  }

  /** The number of readings before the j-th attempt made from here on. */
  function AttemptClock(at: Spot, j: nat): nat {
    at.clock + 2 * j + match at.phase case Reading(_, _) => 2 case AtLoopTop => 1 case Attempting => 0
  }

  /** The generator may go from attempt `failed` to attempt `next`, made after `t` readings:
      the first failed with nothing meaningful shown, the decision said yes with no abort in
      sight, and neither the hook nor the wait threw. */
  ghost predicate MayHop(env: Env, failed: nat, next: nat, t: nat) {
    var n := if env.attempt(failed).Streaming? then t - 1 else t - 2;
    && 0 <= n && 0 < next <= env.maxAttempts
    && (exists error :: FailsQuietly(env, failed, error) && env.shouldRetry(error, n))
    && !env.aborted(n) && !env.aborted(t - 1)
    && env.onFailure(next - 1).Proceed? && env.wait(next).Proceed?
  }

  ghost predicate Hops(env: Env, at: Spot, attempts: seq<nat>) {
    && (at.phase.AtLoopTop? && attempts != [] ==> !env.aborted(at.clock))
    && (at.phase.Reading? && attempts != [] ==> MayHop(env, at.phase.attempt, attempts[0], AttemptClock(at, 0)))
    && forall j :: 0 < j < |attempts| ==> MayHop(env, attempts[j - 1], attempts[j], AttemptClock(at, j))
  }

  /** The turn from a lost stream, or a rejected attempt, to the next one. */
  lemma TurnMayHop(env: Env, at: Spot)
    requires Fits(env, at) && FromAttempt(env, at) && TurnOf(env, at).Continue?
    ensures var next := TurnOf(env, at).next;
            && (at.phase.Reading? ==> MayHop(env, at.phase.attempt, at.index + 1, at.clock + 2))
            && (at.phase.AtLoopTop? ==> !env.aborted(at.clock))
            && (at.phase.Attempting? && next.phase.AtLoopTop? && !env.aborted(at.clock + 1) ==>
                  MayHop(env, at.index, at.index + 1, at.clock + 2))
  {
    if at.phase.Reading? {
      var read := Consume(at.phase.events, at.phase.attempt, 0, at.pulls);
      if read.exit.Lost? { LostReading(env, at.phase.events, at.phase.attempt, at.pulls); }
    } else if at.phase.Attempting? && env.attempt(at.index).Rejected? {
      assert FailsQuietly(env, at.index, env.attempt(at.index).error);
    }
    hide Consume, AnyMeaningful, FailsBy;
    hide LostAt, QuietUpTo;
  }

  lemma HopsFromReading(env: Env, at: Spot, next: Spot, rest: seq<nat>)
    requires at.phase.Reading? && next.phase.Attempting? && next.clock == at.clock + 2
    requires Hops(env, next, rest) && CountsUp(rest, at.index + 1)
    requires MayHop(env, at.phase.attempt, at.index + 1, at.clock + 2)
    ensures Hops(env, at, rest)
  {
    hide MayHop;
    assert forall j: nat :: AttemptClock(at, j) == AttemptClock(next, j);
  }

  lemma HopsFromTop(env: Env, at: Spot, next: Spot, rest: seq<nat>)
    requires at.phase.AtLoopTop? && next.phase.Attempting? && next.clock == at.clock + 1 && !env.aborted(at.clock)
    requires Hops(env, next, rest)
    ensures Hops(env, at, rest)
  {
    hide MayHop;
    assert forall j: nat :: AttemptClock(at, j) == AttemptClock(next, j);
  }

  lemma HopsFromAttempt(env: Env, at: Spot, next: Spot, rest: seq<nat>)
    requires at.phase.Attempting? && Hops(env, next, rest)
    requires if next.phase.Reading? then next.phase.attempt == at.index && next.clock == at.clock
             else next.phase.AtLoopTop? && next.clock == at.clock + 1 && CountsUp(rest, at.index + 1)
    requires next.phase.AtLoopTop? && !env.aborted(at.clock + 1) ==> MayHop(env, at.index, at.index + 1, at.clock + 2)
    ensures Hops(env, at, [at.index] + rest)
  {
    hide MayHop;
    var attempts := [at.index] + rest;
    forall j | 0 < j < |attempts|
      ensures MayHop(env, attempts[j - 1], attempts[j], AttemptClock(at, j))
    {
      assert attempts[j] == rest[j - 1] && AttemptClock(at, j) == AttemptClock(next, j - 1);
      if j > 1 { assert attempts[j - 1] == rest[j - 2]; }
    }
  }

  lemma TurnHops(env: Env, at: Spot, rest: seq<nat>)
    requires Fits(env, at) && FromAttempt(env, at) && TurnOf(env, at).Continue?
    requires var next := TurnOf(env, at).next; Hops(env, next, rest) && CountsUp(rest, NextIndex(next))
    ensures Hops(env, at, TurnOf(env, at).log.attempts + rest)
  {
    var turn := TurnOf(env, at);
    TurnMayHop(env, at);
    TurnMoves(env, at);
    hide TurnOf, Hops, MayHop, CountsUp;
    assert [] + rest == rest;
    match at.phase {
      case Reading(_, _) => HopsFromReading(env, at, turn.next, rest);
      case AtLoopTop => HopsFromTop(env, at, turn.next, rest);
      case Attempting => HopsFromAttempt(env, at, turn.next, rest);
    }
  }

  /** Where a turn that goes on leads. */
  lemma TurnMoves(env: Env, at: Spot)
    requires Fits(env, at) && TurnOf(env, at).Continue?
    ensures var turn := TurnOf(env, at);
            var next := turn.next;
            match at.phase
            case Reading(_, _) =>
              && turn.log.attempts == [] && next.phase.Attempting? && next.index == at.index + 1
              && next.clock == at.clock + 2
            case AtLoopTop =>
              && turn.log.attempts == [] && next.phase.Attempting? && next.index == at.index
              && next.clock == at.clock + 1
            case Attempting =>
              && turn.log.attempts == [at.index]
              && if next.phase.Reading? then
                   && env.attempt(at.index) == Streaming(next.phase.events)
                   && next.phase.attempt == at.index == next.index && next.clock == at.clock
                 else
                   && env.attempt(at.index).Rejected? && next.phase.AtLoopTop? && next.index == at.index + 1
                   && next.clock == at.clock + 1
  {
    hide Consume, AnyMeaningful;
  }

  lemma {:induction false} DriveHops(env: Env, at: Spot)
    requires Fits(env, at) && FromAttempt(env, at)
    ensures Hops(env, at, Drive(env, at).log.attempts)
    decreases env.maxAttempts - at.index, Rank(at.phase)
  {
    var turn := TurnOf(env, at);
    match turn {
      case Over(_, _) =>
        LastTurnHops(env, at);
      case Continue(_, next) =>
        TurnFromAttempt(env, at);
        hide TurnOf, Hops, FromAttempt;
        DriveHops(env, next);
        DriveInOrder(env, next);
        TurnHops(env, at, Drive(env, next).log.attempts);
        assert Hops(env, at, Drive(env, at).log.attempts);
    }
  }

  lemma LastTurnHops(env: Env, at: Spot)
    requires Fits(env, at) && TurnOf(env, at).Over?
    ensures Hops(env, at, TurnOf(env, at).log.attempts)
  {
    hide Consume, Judge, AnyMeaningful, MayHop;
  }

  /** Before the stream, attempt p follows attempt p - 1 when that one was rejected, the
      decision said yes, no abort is seen, and neither the hook nor the wait threw. */
  ghost predicate MayFollow(env: Env, p: nat) {
    && 0 < p < env.maxAttempts && env.attempt(p - 1).Rejected?
    && env.shouldRetry(env.attempt(p - 1).error, 2 * p - 1) && !env.aborted(2 * p)
    && env.onFailure(p - 1).Proceed? && env.wait(p).Proceed?
  }

  ghost predicate CallFollows(env: Env, index: nat, attempts: seq<nat>) {
    && (attempts != [] ==> !env.aborted(2 * index))
    && forall p :: index < p < index + |attempts| ==> MayFollow(env, p)
  }

  lemma CallFollowsAfter(env: Env, index: nat, rest: seq<nat>)
    requires !env.aborted(2 * index) && CallFollows(env, index + 1, rest)
    requires !env.aborted(2 * (index + 1)) ==> MayFollow(env, index + 1)
    ensures CallFollows(env, index, [index] + rest)
  {
    hide MayFollow;
  }

  lemma {:induction false} CallAllFollow(env: Env, index: nat)
    ensures CallFollows(env, index, Call(env, index).log.attempts)
    decreases env.maxAttempts - index
  {
    if Retried(env, index) {
      CallUnfolds(env, index);
      assert !env.aborted(2 * (index + 1)) ==> MayFollow(env, index + 1);
      hide Call, CallFollows, Retried, MayFollow;
      assert !env.aborted(2 * index) by { SeenNoAbort(env, index); }
      MoreAfter(env, index);
      CallAllFollow(env, index + 1);
      CallFollowsAfter(env, index, Call(env, index + 1).log.attempts);
      assert CallFollows(env, index, Call(env, index).log.attempts);
    }
  }

  lemma SeenNoAbort(env: Env, index: nat)
    requires Retried(env, index)
    ensures !env.aborted(2 * index)
  {
  }

  /** Attempt number p of a run may follow the one before it. */
  ghost predicate FollowsAllowed(env: Env, attempts: seq<nat>, p: nat)
    requires 0 < p < |attempts|
  {
    if HandedOver(env).Some? && p > HandedOver(env).value then MayHop(env, attempts[p - 1], attempts[p], 2 * p + 2)
    else MayFollow(env, p)
  }

  /** In every run, each attempt that is followed by another one failed, with an error for
      which the retry decision said yes, and, if a stream, before it had shown anything
      meaningful. No abort was seen in between, and neither hook nor wait threw. */
  lemma RetriesAreAllowed(env: Env, pulls: nat)
    ensures var attempts := Whole(env, pulls).log.attempts;
            forall p :: 0 < p < |attempts| ==> FollowsAllowed(env, attempts, p)
  {
    CallCountsUp(env, 0);
    CallAllFollow(env, 0);
    CallStreamIsAttempts(env, 0);
    hide Call, Drive, MayHop, MayFollow;
    var call := Call(env, 0);
    var attempts := Whole(env, pulls).log.attempts;
    if call.outcome.CallStreaming? && pulls > 0 {
      var at := Opened(call.outcome, pulls);
      DriveHops(env, at);
      HopsInRun(env, call, at, Drive(env, at).log.attempts);
      hide Hops, CallFollows, CallInOrder, FollowsAllowed;
    }
  }

  lemma HopsInRun(env: Env, call: CallTrace, at: Spot, stream: seq<nat>)
    requires call.outcome.CallStreaming? && call == Call(env, 0) && at == Opened(call.outcome, at.pulls)
    requires CallInOrder(env, 0, call) && CallFollows(env, 0, call.log.attempts) && Hops(env, at, stream)
    ensures var attempts := call.log.attempts + stream;
            forall p :: 0 < p < |attempts| ==> FollowsAllowed(env, attempts, p)
  {
    hide Call, MayHop, MayFollow, CountsUp;
    var attempts, index := call.log.attempts + stream, call.outcome.index;
    assert |call.log.attempts| == index + 1 && call.log.attempts[index] == index by { CallEnds(env, call); }
    forall p | 0 < p < |attempts|
      ensures FollowsAllowed(env, attempts, p)
    {
      if p > index {
        var j := p - index - 1;
        assert attempts[p] == stream[j] && AttemptClock(at, j) == 2 * p + 2;
        if j > 0 { assert attempts[p - 1] == stream[j - 1]; }
      }
    }
  }

  lemma CallEnds(env: Env, call: CallTrace)
    requires call.outcome.CallStreaming? && CallInOrder(env, 0, call)
    ensures |call.log.attempts| == call.outcome.index + 1 && call.log.attempts[call.outcome.index] == call.outcome.index
  {
  }

  lemma {:induction false} CallStreamIsAttempts(env: Env, index: nat)
    ensures var t := Call(env, index);
            t.outcome.CallStreaming? ==> env.attempt(t.outcome.index) == Streaming(t.outcome.events)
    decreases env.maxAttempts - index
  {
    if Retried(env, index) {
      CallUnfolds(env, index);
      CallStreamIsAttempts(env, index + 1);
    }
  }

  /** So when the decision always says no there is one attempt at most, and none after an
      abort that was there from the start. */
  lemma NoRetryWithoutDecision(env: Env, pulls: nat)
    ensures (forall error: Failure, n: nat :: !env.shouldRetry(error, n)) ==> |Whole(env, pulls).log.attempts| <= 1
  {
    RetriesAreAllowed(env, pulls);
    hide Whole, HandedOver;
    var attempts := Whole(env, pulls).log.attempts;
    if |attempts| > 1 { assert FollowsAllowed(env, attempts, 1); }
  }

  /** The stream stops without a terminal event and without an error. */
  ghost predicate EndsEarly(events: nat -> StreamStep) {
    exists n: nat :: events(n) == Finished && forall k: nat :: k < n ==> events(k).Emit?
  }

  lemma OneLoss(events: nat -> StreamStep, error: Failure)
    requires EndsEarly(events) && exists n: nat :: LostAt(events, n, error)
    ensures error == STREAM_TRUNCATED
  {
    var n: nat :| LostAt(events, n, error);
    var m: nat :| events(m) == Finished && forall k: nat :: k < m ==> events(k).Emit?;
    assert IsLost(events, n, error);
    assert !events(m).Emit? && !events(n).Emit?;
  }

  /** With the engine's own decision, which asks whether the error is retryable, an attempt is
      followed by another only after a retryable error. A stream that just ends is not such an
      error: its attempt is the last. */
  lemma OnlyRetryableIsRetried(env: Env, pulls: nat, p: nat)
    requires forall error: Failure, n: nat :: env.shouldRetry(error, n) ==> error.retryable
    requires 0 < p < |Whole(env, pulls).log.attempts|
    ensures var failed := Whole(env, pulls).log.attempts[p - 1];
            && (exists error: Failure :: FailsBy(env, failed, error) && error.retryable)
            && !(env.attempt(failed).Streaming? && EndsEarly(env.attempt(failed).events))
  {
    RetriesAreAllowed(env, pulls);
    AttemptsCountUp(env, pulls);
    hide Whole, HandedOver;
    var attempts := Whole(env, pulls).log.attempts;
    assert FollowsAllowed(env, attempts, p);
    var failed := attempts[p - 1];
    match env.attempt(failed) {
      case Streaming(events) =>
        var error: Failure :| FailsQuietly(env, failed, error) && error.retryable;
        if EndsEarly(events) { OneLoss(events, error); }
      case Rejected(error) =>
        assert FailsBy(env, failed, error);
      case NonStream(_) =>
    }
  }
}
