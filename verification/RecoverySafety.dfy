/** What the failover engine guarantees over every run: for all environments, all streams,
    and every number of pulls after which the consumer leaves. */
module RecoverySafety {
  import Bits
  import opened Common
  import opened StreamContract
  import opened Recovery

  datatype RunEnding =
    | FailedBeforeStream(error: Failure)
    | Answered(body: string)
    | NeverPulled
    | Streamed(ending: Ending)

  datatype Run = Run(log: Log, cleanups: nat, ending: RunEnding)

  /** The generator as `recoverCall` hands it over: one index and two readings further. */
  function Opened(outcome: CallOutcome, pulls: nat): Spot
    requires outcome.CallStreaming?
  {
    Spot(Reading(outcome.events, outcome.index), outcome.index + 1, false, 2 * outcome.index + 2, pulls)
  }

  /** `recoverCall` followed by a consumer making `pulls` pulls on the stream it returned.
      A generator that is never pulled never starts, so its `finally` never runs. */
  function Whole(env: Env, pulls: nat): Run {
    var call := Call(env, 0);
    match call.outcome
    case CallThrew(error) => Run(call.log, call.cleanups, FailedBeforeStream(error))
    case CallAnswered(body) => Run(call.log, call.cleanups, Answered(body))
    case CallStreaming(_, _) =>
      if pulls == 0 then Run(call.log, call.cleanups, NeverPulled)
      else
        var stream := Drive(env, Opened(call.outcome, pulls));
        Run(Then(call.log, stream.log), call.cleanups + 1, Streamed(stream.ending))
  }

  // ------------------------------------------------------------ order and budget

  /** `from`, `from + 1`, and so on. */
  ghost predicate CountsUp(s: seq<nat>, from: int) {
    forall k :: 0 <= k < |s| ==> s[k] == from + k
  }

  lemma CountsUpPrepend(x: nat, s: seq<nat>)
    requires CountsUp(s, x + 1)
    ensures CountsUp([x] + s, x) && CountsUp([x], x) && |[x] + s| == |s| + 1
  {
  }

  /** The attempts of a call before the stream, one after the other. */
  ghost predicate CallInOrder(env: Env, index: nat, t: CallTrace) {
    var made, max := |t.log.attempts|, env.maxAttempts;
    && CountsUp(t.log.attempts, index) && CountsUp(t.log.waits, index + 1)
    && made - 1 <= |t.log.waits| <= made
    && (if t.outcome.CallStreaming? then t.outcome.index == index + made - 1 && |t.log.waits| == made - 1
        else index < max ==> index + made <= max && index + |t.log.waits| < max)
    && (index >= max ==> made == 0 && t.log.waits == [])
  }

  lemma CallInOrderAfter(env: Env, index: nat, rest: CallTrace)
    requires index + 1 < env.maxAttempts && CallInOrder(env, index + 1, rest)
    ensures CallInOrder(env, index, CallPrefix(RetriedLog(index), rest))
  {
    CountsUpPrepend(index, rest.log.attempts);
    CountsUpPrepend(index + 1, rest.log.waits);
    hide CountsUp;
  }

  lemma {:induction false} CallCountsUp(env: Env, index: nat)
    ensures CallInOrder(env, index, Call(env, index))
    decreases env.maxAttempts - index
  {
    if Retried(env, index) {
      CallUnfolds(env, index);
      hide Call, CallInOrder, Retried, RetriedLog;
      assert index + 1 < env.maxAttempts by { MoreAfter(env, index); }
      CallCountsUp(env, index + 1);
      CallInOrderAfter(env, index, Call(env, index + 1));
    }
  }

  lemma MoreAfter(env: Env, index: nat)
    requires Retried(env, index)
    ensures index + 1 < env.maxAttempts
  {
  }

  /** What a call before the stream leaves out of the log, and whom its hook was told of. */
  ghost predicate CallLeaves(index: nat, t: CallTrace) {
    var made := |t.log.attempts|;
    && t.log.delivered == [] && t.log.pulled == []
    && t.log.handedOff == (if t.outcome.CallStreaming? then [t.outcome.index] else [])
    && (forall k :: 0 <= k < |t.log.blamed| ==> t.log.blamed[k] == Blame(index + k, index + k))
    && |t.log.blamed| <= made
    && (t.outcome.CallStreaming? ==> |t.log.blamed| == made - 1)
  }

  lemma CallLeavesAfter(index: nat, rest: CallTrace)
    requires CallLeaves(index + 1, rest)
    ensures CallLeaves(index, CallPrefix(RetriedLog(index), rest))
  {
    var blamed := [Blame(index, index)] + rest.log.blamed;
    assert forall k :: 0 < k < |blamed| ==> blamed[k] == rest.log.blamed[k - 1];
    assert CallPrefix(RetriedLog(index), rest).log.blamed == blamed;
  }

  lemma {:induction false} CallLeavesLittle(env: Env, index: nat)
    ensures CallLeaves(index, Call(env, index))
    decreases env.maxAttempts - index
  {
    if Retried(env, index) {
      CallUnfolds(env, index);
      MoreAfter(env, index);
      hide Call, CallLeaves, Retried, RetriedLog;
      CallLeavesLittle(env, index + 1);
      CallLeavesAfter(index, Call(env, index + 1));
    }
  }

  /** The lowest index the generator may still attempt. */
  function NextIndex(at: Spot): nat {
    if at.phase.Reading? then at.index + 1 else at.index
  }

  ghost predicate InOrder(env: Env, at: Spot, log: Log) {
    && CountsUp(log.attempts, NextIndex(at)) && CountsUp(log.waits, at.index + 1)
    && at.index + |log.waits| <= env.maxAttempts
    && |log.attempts| <= |log.waits| + (if at.phase.Reading? then 0 else 1)
  }

  /** The four ways a turn can go on: with what it logs and where it leads. */
  ghost predicate GoesOn(env: Env, at: Spot, turn: Turn)
    requires turn.Continue?
  {
    var log, next := turn.log, turn.next;
    match at.phase
    case Reading(_, _) =>
      log.attempts == [] && log.waits == [at.index + 1] && next.phase.Attempting? && next.index == at.index + 1
    case AtLoopTop => log.attempts == [] && log.waits == [] && next.phase.Attempting? && next.index == at.index
    case Attempting =>
      && log.attempts == [at.index]
      && if next.phase.Reading? then log.waits == [] && next.index == at.index
         else log.waits == [at.index + 1] && next.phase.AtLoopTop? && next.index == at.index + 1
  }

  lemma TurnGoesOn(env: Env, at: Spot)
    requires Fits(env, at)
    ensures var turn := TurnOf(env, at);
            if turn.Over? then InOrder(env, at, turn.log) else GoesOn(env, at, turn)
  {
    hide Consume, AnyMeaningful;
  }

  lemma TurnInOrder(env: Env, at: Spot, turn: Turn, rest: Log)
    requires turn.Continue? && GoesOn(env, at, turn) && InOrder(env, turn.next, rest)
    ensures InOrder(env, at, Then(turn.log, rest))
  {
    hide CountsUp;
    assert [] + rest.attempts == rest.attempts && [] + rest.waits == rest.waits;
    if turn.log.attempts != [] { CountsUpPrepend(at.index, rest.attempts); }
    if turn.log.waits != [] { CountsUpPrepend(at.index + 1, rest.waits); }
  }

  lemma {:induction false} DriveInOrder(env: Env, at: Spot)
    requires Fits(env, at)
    ensures InOrder(env, at, Drive(env, at).log)
    decreases env.maxAttempts - at.index, Rank(at.phase)
  {
    var turn := TurnOf(env, at);
    TurnGoesOn(env, at);
    hide TurnOf, InOrder, GoesOn, Then;
    if turn.Continue? {
      DriveInOrder(env, turn.next);
      TurnInOrder(env, at, turn, Drive(env, turn.next).log);
    }
  }

  /** The indices attempted when the stream was handed over at `index`: all up to it, and from
      `index + 2` on. */
  ghost predicate SkipsOne(attempts: seq<nat>, index: int) {
    forall k :: 0 <= k < |attempts| ==> attempts[k] == if k <= index then k else k + 1
  }

  lemma CountsThenSkips(a: seq<nat>, b: seq<nat>, index: nat)
    requires CountsUp(a, 0) && CountsUp(b, index + 2) && |a| == index + 1
    ensures SkipsOne(a + b, index)
  {
  }

  /** The index up to which a run counts without a gap: that of the stream handed over before
      the generator took over, if there was one. */
  function HandedOver(env: Env): Option<nat> {
    var outcome := Call(env, 0).outcome;
    if outcome.CallStreaming? then Some(outcome.index) else None
  }

  /** The k-th attempt of a run has index k, up to the one whose stream was handed over; the
      code restarts behind that one and increments before it attempts, so from there on the
      k-th attempt has index k + 1. */
  lemma AttemptsCountUp(env: Env, pulls: nat)
    ensures var attempts := Whole(env, pulls).log.attempts;
            match HandedOver(env)
            case None => CountsUp(attempts, 0)
            case Some(index) => index < |attempts| && SkipsOne(attempts, index)
  {
    CallCountsUp(env, 0);
    hide Call, Drive;
    var call := Call(env, 0);
    if call.outcome.CallStreaming? && pulls > 0 {
      DriveInOrder(env, Opened(call.outcome, pulls));
      var stream := Drive(env, Opened(call.outcome, pulls)).log;
      CountsThenSkips(call.log.attempts, stream.attempts, call.outcome.index);
      hide CountsUp, SkipsOne;
    }
  }

  /** So the index after the one whose stream was handed over is never attempted. */
  lemma FirstRetryIndexSkipped(env: Env, pulls: nat)
    requires HandedOver(env).Some?
    ensures HandedOver(env).value + 1 !in Whole(env, pulls).log.attempts
  {
    AttemptsCountUp(env, pulls);
    hide Whole, HandedOver;
  }

  ghost predicate Increasing(s: seq<nat>) {
    forall i, j :: 0 <= i < j < |s| ==> s[i] < s[j]
  }

  ghost predicate WithinBudget(log: Log, max: int) {
    && |log.attempts| <= max
    && Increasing(log.attempts)
    && (forall i :: 0 <= i < |log.attempts| ==> log.attempts[i] <= max)
    && |log.attempts| - 1 <= |log.waits| <= max - 1
  }

  lemma AttemptsIncrease(env: Env, pulls: nat)
    ensures Increasing(Whole(env, pulls).log.attempts)
  {
    AttemptsCountUp(env, pulls);
    hide Whole, HandedOver;
  }

  /** Before and inside the stream together there are at most `maxAttempts` attempts, at
      strictly increasing indices that never exceed `maxAttempts`, separated by waits of
      which there are at most `maxAttempts - 1`. */
  lemma AttemptBudget(env: Env, pulls: nat)
    requires env.maxAttempts >= 1
    ensures WithinBudget(Whole(env, pulls).log, env.maxAttempts)
  {
    AttemptsIncrease(env, pulls);
    AttemptsCountUp(env, pulls);
    hide Increasing;
    CallCountsUp(env, 0);
    hide Call, Drive;
    var call := Call(env, 0);
    if call.outcome.CallStreaming? && pulls > 0 { DriveInOrder(env, Opened(call.outcome, pulls)); }
    hide CountsUp;
  }

  // ------------------------------------------------------------ whom the hook is told of

  /** Inside the generator the hook is told of the attempt that failed, except the first time,
      when it is told the index the generator stands at. */
  ghost predicate Blames(at: Spot, log: Log) {
    && (forall k :: 0 <= k < |log.blamed| ==>
          log.blamed[k] == Blame(if at.phase.Reading? && k == 0 then at.phase.attempt else at.index + k, at.index + k))
    && |log.blamed| <= |log.attempts| + (if at.phase.Reading? then 1 else 0)
  }

  /** The generator has taken the stream from its own attempt. */
  ghost predicate OwnStream(at: Spot) {
    at.phase.Reading? ==> at.phase.attempt == at.index
  }

  lemma BlamesPrepend(blame: Blame, rest: seq<Blame>, index: nat)
    requires blame.told == index && forall k :: 0 <= k < |rest| ==> rest[k] == Blame(index + 1 + k, index + 1 + k)
    ensures forall k :: 0 <= k < |[blame] + rest| ==>
              ([blame] + rest)[k] == Blame(if k == 0 then blame.failed else index + k, index + k)
  {
  }

  /** A turn calls the hook at most once, and when it goes on just when it moves the index. */
  lemma TurnBlamesOnce(env: Env, at: Spot)
    requires Fits(env, at)
    ensures var turn := TurnOf(env, at);
            var failed := if at.phase.Reading? then at.phase.attempt else at.index;
            && (turn.log.blamed == [] || turn.log.blamed == [Blame(failed, at.index)])
            && turn.log.attempts == (if at.phase.Attempting? then [at.index] else [])
            && (turn.log.blamed != [] ==> !at.phase.AtLoopTop?)
            && (turn.Continue? ==>
                  && (turn.next.phase.Reading? ==> at.phase.Attempting? && turn.next.phase.attempt == at.index)
                  && turn.next.index == at.index + |turn.log.blamed|
                  && (turn.next.phase.Reading? <==> at.phase.Attempting? && turn.log.blamed == [])
                  && (at.phase.Reading? ==> turn.log.blamed != []))
  {
    hide Consume, AnyMeaningful;
  }

  /** What a turn that goes on calls the hook with, and the spot it goes to. */
  ghost predicate BlamesOnce(at: Spot, log: Log, next: Spot) {
    var failed := if at.phase.Reading? then at.phase.attempt else at.index;
    && (log.blamed == [] || log.blamed == [Blame(failed, at.index)])
    && log.attempts == (if at.phase.Attempting? then [at.index] else [])
    && (log.blamed != [] ==> !at.phase.AtLoopTop?)
    && (next.phase.Reading? ==> at.phase.Attempting? && next.phase.attempt == at.index)
    && next.index == at.index + |log.blamed|
    && (next.phase.Reading? <==> at.phase.Attempting? && log.blamed == [])
    && (at.phase.Reading? ==> log.blamed != [])
  }

  lemma BlamesThen(at: Spot, log: Log, next: Spot, rest: Log)
    requires BlamesOnce(at, log, next) && OwnStream(next) && Blames(next, rest)
    ensures Blames(at, Then(log, rest))
  {
    var all := Then(log, rest);
    assert |all.attempts| == |log.attempts| + |rest.attempts| && all.blamed == log.blamed + rest.blamed;
    hide Then;
    if log.blamed == [] {
      assert all.blamed == rest.blamed;
    } else {
      assert all.blamed == [log.blamed[0]] + rest.blamed;
      BlamesPrepend(log.blamed[0], rest.blamed, at.index);
    }
    assert Blames(at, all);
  }

  lemma TurnBlames(env: Env, at: Spot, rest: Log)
    requires Fits(env, at)
    ensures var turn := TurnOf(env, at);
            if turn.Over? then Blames(at, turn.log)
            else OwnStream(turn.next) && (Blames(turn.next, rest) ==> Blames(at, Then(turn.log, rest)))
  {
    var turn := TurnOf(env, at);
    TurnBlamesOnce(env, at);
    hide TurnOf, Then;
    if turn.Continue? && Blames(turn.next, rest) {
      BlamesThen(at, turn.log, turn.next, rest);
    }
  }

  lemma {:induction false} DriveBlames(env: Env, at: Spot)
    requires Fits(env, at)
    ensures Blames(at, Drive(env, at).log)
    decreases env.maxAttempts - at.index, Rank(at.phase)
  {
    var turn := TurnOf(env, at);
    hide TurnOf, Blames, Then;
    TurnBlames(env, at, if turn.Continue? then Drive(env, turn.next).log else QUIET);
    if turn.Continue? { DriveBlames(env, turn.next); }
  }

  /** Each call of the failure hook is told of the attempt that failed, with one exception:
      of the stream handed over before the generator took over, it is told an index that is
      never attempted. */
  lemma HookIsTold(env: Env, pulls: nat)
    ensures var log := Whole(env, pulls).log;
            forall k :: 0 <= k < |log.blamed| ==>
              var blame := log.blamed[k];
              && blame.failed in log.attempts
              && blame.told == blame.failed + (if HandedOver(env) == Some(blame.failed) then 1 else 0)
              && (blame.told in log.attempts <==> blame.told == blame.failed)
  {
    AttemptsCountUp(env, pulls);
    CallCountsUp(env, 0);
    CallLeavesLittle(env, 0);
    hide Call, Drive;
    var call, log := Call(env, 0), Whole(env, pulls).log;
    if call.outcome.CallStreaming? && pulls > 0 {
      var at := Opened(call.outcome, pulls);
      DriveBlames(env, at);
      DriveInOrder(env, at);
      var stream := Drive(env, at).log;
      forall k | 0 <= k < |log.blamed|
        ensures ToldOf(log, log.blamed[k], Some(call.outcome.index))
      {
        BlameInRun(call, stream, at, k);
      }
    } else {
      forall k | 0 <= k < |log.blamed|
        ensures ToldOf(log, log.blamed[k], HandedOver(env))
      {
        assert log.attempts[k] == k;
        assert log.blamed[k] == Blame(k, k);
      }
    }
    hide CallInOrder, CallLeaves, Blames, InOrder, CountsUp, SkipsOne;
  }

  ghost predicate ToldOf(log: Log, blame: Blame, handedOver: Option<nat>) {
    && blame.failed in log.attempts
    && blame.told == blame.failed + (if handedOver == Some(blame.failed) then 1 else 0)
    && (blame.told in log.attempts <==> blame.told == blame.failed)
  }

  lemma BlameInRun(call: CallTrace, stream: Log, at: Spot, k: nat)
    requires call.outcome.CallStreaming? && at == Opened(call.outcome, at.pulls)
    requires CallLeaves(0, call) && Blames(at, stream) && |call.log.attempts| == call.outcome.index + 1
    requires SkipsOne(call.log.attempts + stream.attempts, call.outcome.index)
    requires k < |call.log.blamed + stream.blamed|
    ensures ToldOf(Then(call.log, stream), (call.log.blamed + stream.blamed)[k], Some(call.outcome.index))
  {
    var index, attempts := call.outcome.index, call.log.attempts + stream.attempts;
    var blame := (call.log.blamed + stream.blamed)[k];
    assert index + 1 !in attempts;
    if k < index {
      assert blame == call.log.blamed[k] == Blame(k, k) && attempts[k] == k;
    } else {
      var j := k - index;
      assert blame == stream.blamed[j];
      if j == 0 {
        assert blame == Blame(index, index + 1) && attempts[index] == index;
      } else {
        assert blame == Blame(index + 1 + j, index + 1 + j) && attempts[index + j] == index + 1 + j;
      }
    }
  }

  /** A call of the hook that is told of another attempt than the one that failed. */
  ghost predicate Misled(blamed: seq<Blame>) {
    exists k :: 0 <= k < |blamed| && blamed[k].told != blamed[k].failed
  }

  lemma MisledByStream(call: seq<Blame>, stream: seq<Blame>, index: nat)
    requires forall k :: 0 <= k < |call| ==> call[k] == Blame(k, k)
    requires forall k :: 0 <= k < |stream| ==>
               stream[k] == Blame(if k == 0 then index else index + 1 + k, index + 1 + k)
    ensures Misled(call + stream) <==> stream != []
  {
    if stream != [] { assert (call + stream)[|call|] == stream[0]; }
  }

  lemma NotMisledByCall(call: seq<Blame>)
    requires forall k :: 0 <= k < |call| ==> call[k] == Blame(k, k)
    ensures !Misled(call)
  {
  }

  /** The exception occurs exactly when that stream is read, is lost before anything
      meaningful, and may be retried. */
  lemma HookIsMisledIff(env: Env, pulls: nat)
    ensures Misled(Whole(env, pulls).log.blamed) <==>
            && HandedOver(env).Some? && pulls > 0
            && LostAndRetried(env, Opened(Call(env, 0).outcome, pulls))
  {
    CallLeavesLittle(env, 0);
    hide Call, Drive, Misled, LostAndRetried;
    var call := Call(env, 0);
    if call.outcome.CallStreaming? && pulls > 0 {
      var at := Opened(call.outcome, pulls);
      DriveBlames(env, at);
      FirstBlame(env, at);
      MisledByStream(call.log.blamed, Drive(env, at).log.blamed, call.outcome.index);
    } else {
      NotMisledByCall(call.log.blamed);
    }
  }

  /** The stream at hand is read, breaks off or ends early, and the failure may be retried. */
  ghost predicate LostAndRetried(env: Env, at: Spot)
    requires Fits(env, at) && at.phase.Reading?
  {
    var read := Consume(at.phase.events, at.phase.attempt, 0, at.pulls);
    && !env.aborted(at.clock) && read.exit.Lost? && !at.shown && !AnyMeaningful(read.delivered)
    && at.index < env.maxAttempts && env.shouldRetry(read.exit.error, at.clock + 1) && !env.aborted(at.clock + 1)
  }

  lemma FirstBlame(env: Env, at: Spot)
    requires Fits(env, at) && at.phase.Reading?
    ensures Drive(env, at).log.blamed != [] <==> LostAndRetried(env, at)
  {
    hide Consume, AnyMeaningful;
    var turn := TurnOf(env, at);
    assert turn.Continue? ==> turn.log.blamed != [];
    assert turn.log.blamed != [] <==> LostAndRetried(env, at);
    hide TurnOf, LostAndRetried;
  }

  // ------------------------------------------------------------ no splicing

  lemma {:induction false} ConsumeFacts(events: nat -> StreamStep, attempt: nat, pos: nat, pulls: nat)
    requires pulls > 0
    ensures var c := Consume(events, attempt, pos, pulls);
            && (forall i :: 0 <= i < |c.delivered| ==> c.delivered[i].attempt == attempt)
            && (forall i :: 0 <= i < |c.delivered| - 1 ==> !IsTerminal(c.delivered[i].event))
            && (c.exit.SawTerminal? ==> c.delivered != [] && IsTerminal(c.delivered[|c.delivered| - 1].event))
            && (c.exit.Lost? ==> !AnyTerminal(c.delivered))
            && |c.delivered| + c.pulls == pulls
            && (c.exit.ConsumerLeft? <==> c.pulls == 0)
    decreases pulls
  {
    if events(pos).Emit? && pulls > 1 && !IsTerminal(events(pos).event) {
      ConsumeFacts(events, attempt, pos + 1, pulls - 1);
    }
  }

  /** Text, thinking and the pieces of tool calls. */
  ghost predicate IsOutput(event: StreamEvent) {
    event.TextDelta? || event.ThinkingDelta? || event.ToolCallStart? || event.ToolCallDelta?
  }

  ghost predicate MeaningfulFrom(delivered: seq<Tagged>, owner: nat) {
    forall i :: 0 <= i < |delivered| && IsOutput(delivered[i].event) ==> delivered[i].attempt == owner
  }

  /** No output among these. */
  ghost predicate NoOutput(delivered: seq<Tagged>) {
    forall i :: 0 <= i < |delivered| ==> !IsOutput(delivered[i].event)
  }

  lemma NoOutputIs(delivered: seq<Tagged>)
    ensures NoOutput(delivered) <==> !AnyMeaningful(delivered)
  {
    if AnyMeaningful(delivered) {
      var i :| 0 <= i < |delivered| && IsMeaningful(delivered[i].event);
      assert IsOutput(delivered[i].event);
    } else {
      assert forall i :: 0 <= i < |delivered| ==> !IsMeaningful(delivered[i].event);
    }
  }

  function Last(s: seq<nat>, default: nat): nat {
    if s == [] then default else s[|s| - 1]
  }

  lemma SpliceJoin(a: seq<Tagged>, b: seq<Tagged>, owner: nat)
    requires MeaningfulFrom(a, owner) && MeaningfulFrom(b, owner)
    ensures MeaningfulFrom(a + b, owner)
  {
  }

  /** Everything meaningful comes from the last attempt, or from `owner` when there is none;
      and once something meaningful was shown there is none. */
  ghost predicate OneSource(at: Spot, owner: nat, log: Log) {
    MeaningfulFrom(log.delivered, Last(log.attempts, owner)) && (at.shown ==> log.attempts == [])
  }

  ghost predicate Owns(at: Spot, owner: nat) {
    if at.phase.Reading? then owner == at.phase.attempt else !at.shown
  }

  lemma TurnHasOneSource(env: Env, at: Spot, owner: nat, rest: Log) returns (next: nat)
    requires Fits(env, at) && Owns(at, owner)
    ensures var turn := TurnOf(env, at);
            if turn.Over? then OneSource(at, owner, turn.log)
            else
              && Owns(turn.next, next)
              && (OneSource(turn.next, next, rest) ==> OneSource(at, owner, Then(turn.log, rest)))
  {
    var turn := TurnOf(env, at);
    next := Last(turn.log.attempts, owner);
    if at.phase.Reading? { ConsumeFacts(at.phase.events, at.phase.attempt, 0, at.pulls); }
    hide Consume, Judge;
    if turn.Continue? && OneSource(turn.next, next, rest) {
      LastJoin(turn.log.attempts, rest.attempts, owner);
      assert MeaningfulFrom(turn.log.delivered, Last(rest.attempts, next));
      SpliceJoin(turn.log.delivered, rest.delivered, Last(rest.attempts, next));
      assert [] + rest.attempts == rest.attempts;
    }
  }

  lemma {:induction false} DriveHasOneSource(env: Env, at: Spot, owner: nat)
    requires Fits(env, at) && Owns(at, owner)
    ensures OneSource(at, owner, Drive(env, at).log)
    decreases env.maxAttempts - at.index, Rank(at.phase)
  {
    var turn := TurnOf(env, at);
    hide TurnOf, OneSource, Owns, Then;
    var next := TurnHasOneSource(env, at, owner, if turn.Continue? then Drive(env, turn.next).log else QUIET);
    if turn.Continue? { DriveHasOneSource(env, turn.next, next); }
  }

  /** Every text, thinking and tool-call delta the consumer sees in a run comes from one
      attempt, the last one that was made. */
  lemma NoSplice(env: Env, pulls: nat)
    ensures var log := Whole(env, pulls).log;
            && (log.delivered != [] ==> log.attempts != [])
            && MeaningfulFrom(log.delivered, Last(log.attempts, 0))
  {
    CallCountsUp(env, 0);
    CallLeavesLittle(env, 0);
    hide Call, Drive;
    var call := Call(env, 0);
    if call.outcome.CallStreaming? && pulls > 0 {
      var at := Opened(call.outcome, pulls);
      DriveHasOneSource(env, at, call.outcome.index);
      var stream := Drive(env, at).log;
      NothingPrepended(stream.delivered);
      LastJoin(call.log.attempts, stream.attempts, 0);
    }
  }

  lemma LastJoin(a: seq<nat>, b: seq<nat>, default: nat)
    ensures Last(a + b, default) == Last(b, Last(a, default))
  {
    if b == [] { assert a + b == a; }
  }

  // ------------------------------------------------------------ how a stream ends

  function Events(delivered: seq<Tagged>): (events: seq<StreamEvent>)
    ensures |events| == |delivered| && forall i :: 0 <= i < |events| ==> events[i] == delivered[i].event
  {
    seq(|delivered|, i requires 0 <= i < |delivered| => delivered[i].event)
  }

  ghost predicate EndsWell(events: seq<StreamEvent>, ending: Ending, pulls: nat) {
    && StopsAtTerminal(events)
    && (ending.Returned? ==> events != [] && IsTerminal(events[|events| - 1]))
    && (ending.Threw? ==> forall i :: 0 <= i < |events| ==> !IsTerminal(events[i]))
    && (ending.Cancelled? <==> |events| == pulls)
    && |events| <= pulls
  }

  lemma TurnEndsWell(env: Env, at: Spot, rest: StreamTrace)
    requires Fits(env, at)
    ensures var turn := TurnOf(env, at);
            if turn.Over? then EndsWell(Events(turn.log.delivered), turn.ending, at.pulls)
            else EndsWell(Events(rest.log.delivered), rest.ending, turn.next.pulls) ==>
              EndsWell(Events(turn.log.delivered + rest.log.delivered), rest.ending, at.pulls)
  {
    var turn := TurnOf(env, at);
    if at.phase.Reading? { ConsumeFacts(at.phase.events, at.phase.attempt, 0, at.pulls); }
    hide Consume, Judge, AnyMeaningful;
    if turn.Continue? && EndsWell(Events(rest.log.delivered), rest.ending, turn.next.pulls) {
      assert |turn.log.delivered| + turn.next.pulls == at.pulls && !AnyTerminal(turn.log.delivered);
      EndsWellAfter(turn.log.delivered, rest, at.pulls);
    }
  }

  lemma {:induction false} DriveEndsWell(env: Env, at: Spot)
    requires Fits(env, at)
    ensures EndsWell(Events(Drive(env, at).log.delivered), Drive(env, at).ending, at.pulls)
    decreases env.maxAttempts - at.index, Rank(at.phase)
  {
    var turn := TurnOf(env, at);
    hide TurnOf, EndsWell, Events;
    TurnEndsWell(env, at, if turn.Continue? then Drive(env, turn.next) else StreamTrace(QUIET, Returned));
    if turn.Continue? {
      DriveEndsWell(env, turn.next);
    }
  }

  lemma EndsWellAfter(delivered: seq<Tagged>, rest: StreamTrace, pulls: nat)
    requires !AnyTerminal(delivered) && |delivered| <= pulls
    requires EndsWell(Events(rest.log.delivered), rest.ending, pulls - |delivered|)
    ensures EndsWell(Events(delivered + rest.log.delivered), rest.ending, pulls)
  {
    var all := Events(delivered + rest.log.delivered);
    assert forall i :: 0 <= i < |delivered| ==> all[i] == delivered[i].event && !IsTerminal(all[i]);
    assert all == Events(delivered) + Events(rest.log.delivered);
  }

  lemma NothingPrepended(delivered: seq<Tagged>)
    ensures [] + delivered == delivered
  {
  }

  /** A stream returns normally only right after its first `message_stop`, throws only
      before any `message_stop`, and is otherwise left by its consumer. */
  lemma StreamEnding(env: Env, pulls: nat)
    requires Whole(env, pulls).ending.Streamed?
    ensures EndsWell(Events(Whole(env, pulls).log.delivered), Whole(env, pulls).ending.ending, pulls)
  {
    CallLeavesLittle(env, 0);
    hide Call, Drive, EndsWell, Events;
    var at := Opened(Call(env, 0).outcome, pulls);
    DriveEndsWell(env, at);
    NothingPrepended(Drive(env, at).log.delivered);
    assert Whole(env, pulls).log.delivered == Drive(env, at).log.delivered;
    assert EndsWell(Events(Whole(env, pulls).log.delivered), Whole(env, pulls).ending.ending, pulls);
  }

  /** What a client is sent for an upstream that was drained: one error terminal is added
      when the upstream never produced a terminal of its own. */
  function WithTerminal(upstream: seq<StreamEvent>): seq<StreamEvent> {
    if exists i :: 0 <= i < |upstream| && IsTerminal(upstream[i]) then upstream else upstream + [MessageStop(Error)]
  }

  /** The loop of `appendTerminalError`. */
  method AppendTerminalError(upstream: seq<StreamEvent>) returns (events: seq<StreamEvent>)
    ensures events == WithTerminal(upstream)
  {
    var terminal := false;
    events := [];
    for next := 0 to |upstream|
      invariant events == upstream[..next]
      invariant terminal == exists i :: 0 <= i < next && IsTerminal(upstream[i])
    {
      if IsTerminal(upstream[next]) { terminal := true; }
      events := events + [upstream[next]];
    }
    if !terminal { events := events + [MessageStop(Error)]; }
  }

  /** A drained stream as the client sees it carries exactly one `message_stop`, and it is
      the last event. */
  lemma DrainedStreamHasOneTerminal(env: Env, pulls: nat)
    requires Whole(env, pulls).ending.Streamed? && !Whole(env, pulls).ending.ending.Cancelled?
    ensures var shown := WithTerminal(Events(Whole(env, pulls).log.delivered));
            shown != [] && forall i :: 0 <= i < |shown| ==> (IsTerminal(shown[i]) <==> i == |shown| - 1)
  {
    hide Call, Drive;
    StreamEnding(env, pulls);
  }

  // ------------------------------------------------------------ clean-up and hand-over

  /** The first index from `i` on that is not followed by another one. */
  function DecidedAt(env: Env, i: nat): (n: nat)
    ensures i <= n
    decreases env.maxAttempts - i
  {
    if Retried(env, i) then DecidedAt(env, i + 1) else i
  }

  predicate Made(env: Env, i: nat) {
    i < env.maxAttempts && !env.aborted(2 * i)
  }

  /** What the failure hook, or else the wait it leads to, throws after attempt `i`. */
  function RaisedAfter(env: Env, i: nat): Option<Failure> {
    if !Made(env, i) || !env.attempt(i).Rejected? then None
    else match env.onFailure(i)
      case Raise(x) => Some(x)
      case Proceed =>
        if env.shouldRetry(env.attempt(i).error, 2 * i + 1) && i + 1 < env.maxAttempts && env.wait(i + 1).Raise? then
          Some(env.wait(i + 1).error)
        else None
  }

  lemma {:induction false} CallIsDecided(env: Env, i: nat)
    ensures var n := DecidedAt(env, i);
            var t, u := Call(env, i), Call(env, n);
            t.cleanups == u.cleanups && t.outcome == u.outcome && !Retried(env, n)
    decreases env.maxAttempts - i
  {
    if Retried(env, i) {
      CallUnfolds(env, i);
      hide Call, Retried;
      CallIsDecided(env, i + 1);
    }
  }

  lemma DecidedCleanups(env: Env, n: nat)
    requires !Retried(env, n)
    ensures var t := Call(env, n);
            && t.cleanups == (if RaisedAfter(env, n).Some? || t.outcome.CallStreaming? then 0 else 1)
            && (t.outcome.CallStreaming? <==> Made(env, n) && env.attempt(n).Streaming?)
            && (RaisedAfter(env, n).Some? ==> t.outcome == CallThrew(RaisedAfter(env, n).value))
  {
  }

  /** The request's clean-up stack is run at most once by the engine. It is missed exactly
      when the decisive attempt before the stream, the first one not followed by another,
      fails with the failure hook or the back-off wait throwing, or hands over a stream that
      is never pulled. */
  lemma CleanupRunsOnce(env: Env, pulls: nat)
    ensures var run, n := Whole(env, pulls), DecidedAt(env, 0);
            && run.cleanups <= 1
            && (run.cleanups == 0 <==>
              || RaisedAfter(env, n).Some?
              || (Made(env, n) && env.attempt(n).Streaming? && pulls == 0))
            && (RaisedAfter(env, n).Some? ==> run.ending == FailedBeforeStream(RaisedAfter(env, n).value))
            && (run.ending.NeverPulled? <==> Made(env, n) && env.attempt(n).Streaming? && pulls == 0)
  {
    CallIsDecided(env, 0);
    DecidedCleanups(env, DecidedAt(env, 0));
    hide Call, Drive, DecidedAt, RaisedAfter;
  }

  /** Such an environment: the first attempt fails and so does the hook told about it. */
  lemma CleanupCanBeMissed(error: Failure, thrown: Failure)
    ensures exists env: Env ::
              && env.maxAttempts == 1 && env.attempt(0) == Rejected(error) && env.onFailure(0) == Raise(thrown)
              && Whole(env, 1).cleanups == 0 && Whole(env, 1).ending == FailedBeforeStream(thrown)
  {
    var env := Env(1, (n: nat) => Rejected(error), (n: nat) => false, (f: Failure, n: nat) => true,
                   (n: nat) => Raise(thrown), (n: nat) => Proceed);
    assert Call(env, 0) == CallTrace(QUIET.(attempts := [0], blamed := [Blame(0, 0)]), 0, CallThrew(thrown));
    assert Whole(env, 1).cleanups == 0;
  }

  /** Every stream an attempt handed over was also pulled, except possibly the last. */
  ghost predicate AllButLastPulled(handedOff: seq<nat>, pulled: seq<nat>) {
    handedOff == pulled || (handedOff != [] && handedOff[..|handedOff| - 1] == pulled)
  }

  ghost predicate NeverAborted(env: Env) {
    forall n: nat :: !env.aborted(n)
  }

  /** The reading of the abort signal that comes before the stream of the last attempt is
      read, when a phase that starts at `clock` makes `made` attempts. */
  function ReadingTime(phase: Phase, clock: nat, made: nat): nat
    requires made > 0 || phase.Reading?
  {
    match phase
    case Reading(_, _) => clock + 2 * made
    case AtLoopTop => clock + 2 * made - 1
    case Attempting => clock + 2 * made - 2
  }

  /** The last stream is at hand and the abort signal is seen before it is read. */
  predicate AbortedBeforeReading(env: Env, phase: Phase, clock: nat, attempts: seq<nat>) {
    if attempts == [] then phase.Reading? && env.aborted(clock)
    else env.attempt(attempts[|attempts| - 1]).Streaming? && env.aborted(ReadingTime(phase, clock, |attempts|))
  }

  function InHand(phase: Phase): seq<nat> {
    if phase.Reading? then [phase.attempt] else []
  }

  lemma LastOf(x: nat, rest: seq<nat>)
    requires rest != []
    ensures ([x] + rest)[|[x] + rest| - 1] == rest[|rest| - 1] && [] + rest == rest
  {
  }

  /** Every stream that was in hand or handed over is pulled, except possibly the last, and
      that one exactly when the signal is seen before it is read. */
  ghost predicate PullsStreams(env: Env, phase: Phase, clock: nat, t: StreamTrace) {
    var handedOff := InHand(phase) + t.log.handedOff;
    && AllButLastPulled(handedOff, t.log.pulled)
    && (handedOff != t.log.pulled <==> AbortedBeforeReading(env, phase, clock, t.log.attempts))
    && (handedOff != t.log.pulled ==> t.ending == Threw(CLIENT_ABORTED))
    && (phase.Attempting? ==> t.log.attempts != [])
  }

  lemma PulledPrepend(attempt: nat, handedOff: seq<nat>, pulled: seq<nat>)
    requires AllButLastPulled(handedOff, pulled)
    ensures AllButLastPulled([attempt] + handedOff, [attempt] + pulled)
    ensures [attempt] + handedOff == [attempt] + pulled <==> handedOff == pulled
  {
    if handedOff != [] {
      assert ([attempt] + handedOff)[..|handedOff|] == [attempt] + handedOff[..|handedOff| - 1];
    }
    assert ([attempt] + handedOff)[1..] == handedOff;
    assert ([attempt] + pulled)[1..] == pulled;
  }

  /** One attempt further back, the decisive reading is the same. */
  lemma SameReading(env: Env, phase: Phase, clock: nat, index: nat, rest: seq<nat>)
    requires phase.Reading? ==> env.attempt(index).Streaming?
    requires phase.AtLoopTop? ==> clock > 0 && !env.attempt(index).Streaming?
    requires !phase.Attempting?
    ensures AbortedBeforeReading(env, Attempting, if phase.Reading? then clock else clock - 1, [index] + rest)
            == AbortedBeforeReading(env, phase, clock, rest)
  {
    if rest == [] {
      assert [index] + rest == [index];
    } else {
      LastOf(index, rest);
    }
  }

  lemma ReadGoesOn(env: Env, at: Spot)
    requires Fits(env, at) && at.phase.Reading? && TurnOf(env, at).Continue?
    ensures var turn := TurnOf(env, at);
            && turn.next.phase.Attempting? && turn.next.clock == at.clock + 2
            && turn.log.attempts == [] && turn.log.handedOff == [] && turn.log.pulled == [at.phase.attempt]
  {
    hide Consume, Judge, AnyMeaningful;
  }

  lemma PullsAfterReading(env: Env, phase: Phase, clock: nat, rest: StreamTrace, t: StreamTrace)
    requires phase.Reading? && PullsStreams(env, Attempting, clock + 2, rest)
    requires t.log.handedOff == rest.log.handedOff && t.log.pulled == [phase.attempt] + rest.log.pulled
    requires t.log.attempts == rest.log.attempts && t.ending == rest.ending
    ensures PullsStreams(env, phase, clock, t)
  {
    hide AllButLastPulled;
    assert [] + rest.log.handedOff == rest.log.handedOff;
    PulledPrepend(phase.attempt, rest.log.handedOff, rest.log.pulled);
  }

  lemma ReadThenMore(env: Env, at: Spot, turn: Turn, rest: StreamTrace)
    requires Fits(env, at) && at.phase.Reading? && turn == TurnOf(env, at) && turn.Continue?
    requires PullsStreams(env, turn.next.phase, turn.next.clock, rest)
    ensures PullsStreams(env, at.phase, at.clock, StreamPrefix(turn.log, rest))
  {
    ReadGoesOn(env, at);
    hide TurnOf, PullsStreams;
    assert [] + rest.log.handedOff == rest.log.handedOff && [] + rest.log.attempts == rest.log.attempts;
    PullsAfterReading(env, at.phase, at.clock, rest, StreamPrefix(turn.log, rest));
    hide StreamPrefix;
  }

  lemma AttemptThenMore(env: Env, at: Spot, turn: Turn, rest: StreamTrace)
    requires Fits(env, at) && at.phase.Attempting? && turn == TurnOf(env, at) && turn.Continue?
    requires PullsStreams(env, turn.next.phase, turn.next.clock, rest)
    ensures PullsStreams(env, at.phase, at.clock, StreamPrefix(turn.log, rest))
  {
    hide AllButLastPulled, Judge;
    assert [] + rest.log.pulled == rest.log.pulled && [] + rest.log.handedOff == rest.log.handedOff;
    assert [] + ([at.index] + rest.log.handedOff) == [at.index] + rest.log.handedOff;
    SameReading(env, turn.next.phase, turn.next.clock, at.index, rest.log.attempts);
    hide AbortedBeforeReading;
  }

  lemma TopThenMore(env: Env, clock: nat, rest: StreamTrace)
    requires PullsStreams(env, Attempting, clock + 1, rest)
    ensures PullsStreams(env, AtLoopTop, clock, StreamPrefix(QUIET, rest))
  {
    ThenQuiet(rest.log);
    hide AllButLastPulled, Then;
  }

  lemma LastTurnPulls(env: Env, at: Spot)
    requires Fits(env, at) && TurnOf(env, at).Over?
    ensures var turn := TurnOf(env, at); PullsStreams(env, at.phase, at.clock, StreamTrace(turn.log, turn.ending))
  {
    hide Consume, Judge, AnyMeaningful;
    if at.phase.Reading? { assert [at.phase.attempt] + [] == [at.phase.attempt] && [at.phase.attempt][..0] == []; }
  }

  lemma {:induction false} DrivePullsStreams(env: Env, at: Spot)
    requires Fits(env, at)
    ensures PullsStreams(env, at.phase, at.clock, Drive(env, at))
    decreases env.maxAttempts - at.index, Rank(at.phase)
  {
    hide PullsStreams, StreamPrefix;
    var turn := TurnOf(env, at);
    match turn {
      case Over(_, _) =>
        LastTurnPulls(env, at);
      case Continue(log, next) =>
        DrivePullsStreams(env, next);
        var rest := Drive(env, next);
        match at.phase {
          case Reading(_, _) => ReadThenMore(env, at, turn, rest);
          case AtLoopTop => TopThenMore(env, at.clock, rest);
          case Attempting => AttemptThenMore(env, at, turn, rest);
        }
        hide TurnOf;
    }
  }

  /** The stream of the last attempt of a run is never read: nobody pulls, or the reading of
      the abort signal that follows that attempt is true. */
  predicate LeavesUnread(env: Env, attempts: seq<nat>, pulls: nat) {
    && attempts != [] && env.attempt(attempts[|attempts| - 1]).Streaming?
    && (pulls == 0 || env.aborted(2 * |attempts|))
  }

  /** The last attempt of a call streams exactly when the call hands a stream over. */
  ghost predicate LastDecides(env: Env, t: CallTrace) {
    if t.log.attempts == [] then !t.outcome.CallStreaming?
    else t.outcome.CallStreaming? <==> env.attempt(t.log.attempts[|t.log.attempts| - 1]).Streaming?
  }

  lemma LastDecidesAfter(env: Env, index: nat, rest: CallTrace)
    requires !env.attempt(index).Streaming? && LastDecides(env, rest)
    ensures LastDecides(env, CallPrefix(RetriedLog(index), rest))
  {
    if rest.log.attempts != [] {
      LastOf(index, rest.log.attempts);
    } else {
      assert [index] + [] == [index];
    }
  }

  lemma {:induction false} CallLastDecides(env: Env, index: nat)
    ensures LastDecides(env, Call(env, index))
    decreases env.maxAttempts - index
  {
    if Retried(env, index) {
      CallUnfolds(env, index);
      hide Call, LastDecides, RetriedLog;
      CallLastDecides(env, index + 1);
      LastDecidesAfter(env, index, Call(env, index + 1));
    }
  }

  lemma AttemptsOf(a: seq<nat>, b: seq<nat>)
    requires a != []
    ensures (a + b)[|a + b| - 1] == if b == [] then a[|a| - 1] else b[|b| - 1]
  {
  }

  lemma CallThenStream(env: Env, call: CallTrace, stream: StreamTrace, pulls: nat)
    requires CallInOrder(env, 0, call) && CallLeaves(0, call) && LastDecides(env, call)
    requires call.outcome.CallStreaming? && pulls > 0
    requires PullsStreams(env, Opened(call.outcome, pulls).phase, Opened(call.outcome, pulls).clock, stream)
    ensures var log := Then(call.log, stream.log);
            && AllButLastPulled(log.handedOff, log.pulled)
            && (log.handedOff != log.pulled <==> LeavesUnread(env, log.attempts, pulls))
            && (log.handedOff != log.pulled ==> stream.ending == Threw(CLIENT_ABORTED) && !NeverAborted(env))
  {
    hide AllButLastPulled, CountsUp;
    assert |call.log.attempts| == call.outcome.index + 1;
    assert [] + stream.log.pulled == stream.log.pulled;
    AttemptsOf(call.log.attempts, stream.log.attempts);
  }

  lemma CallAlone(env: Env, call: CallTrace, pulls: nat)
    requires CallLeaves(0, call) && LastDecides(env, call) && (call.outcome.CallStreaming? ==> pulls == 0)
    ensures AllButLastPulled(call.log.handedOff, call.log.pulled)
    ensures call.log.handedOff != call.log.pulled <==> LeavesUnread(env, call.log.attempts, pulls)
    ensures call.log.handedOff != call.log.pulled <==> call.outcome.CallStreaming?
  {
    if call.outcome.CallStreaming? { assert [call.outcome.index][..0] == []; }
  }

  /** Every stream handed over by an attempt is pulled, and so reaches its own clean-up,
      except possibly the last one. That one is left unread exactly when the last attempt
      made handed it over and then nobody pulls, or the abort signal is set at the very next
      reading, number twice the attempts made. */
  lemma EveryStreamIsPulled(env: Env, pulls: nat)
    ensures var run := Whole(env, pulls);
            && AllButLastPulled(run.log.handedOff, run.log.pulled)
            && (run.log.handedOff != run.log.pulled <==> LeavesUnread(env, run.log.attempts, pulls))
            && (run.log.handedOff != run.log.pulled ==>
                  run.ending == NeverPulled || (run.ending == Streamed(Threw(CLIENT_ABORTED)) && !NeverAborted(env)))
            && (run.ending == NeverPulled ==> run.log.handedOff != run.log.pulled)
  {
    hide Call, Drive, CallInOrder, CallLeaves, LastDecides, PullsStreams, AllButLastPulled, LeavesUnread, Then;
    CallCountsUp(env, 0);
    CallLeavesLittle(env, 0);
    CallLastDecides(env, 0);
    var call := Call(env, 0);
    if call.outcome.CallStreaming? && pulls > 0 {
      var at := Opened(call.outcome, pulls);
      DrivePullsStreams(env, at);
      CallThenStream(env, call, Drive(env, at), pulls);
    } else {
      CallAlone(env, call, pulls);
    }
  }

  // ------------------------------------------------------------ retries do happen

  /** Nothing outside the upstream itself stands in the way of a retry. */
  ghost predicate Benign(env: Env) {
    && NeverAborted(env)
    && (forall error: Failure, n: nat :: env.shouldRetry(error, n))
    && (forall n: nat :: env.onFailure(n).Proceed?)
    && (forall n: nat :: env.wait(n).Proceed?)
    && (forall n: nat :: !env.attempt(n).NonStream?)
  }

  lemma MeaningfulJoin(a: seq<Tagged>, b: seq<Tagged>)
    ensures AnyMeaningful(a + b) == (AnyMeaningful(a) || AnyMeaningful(b))
  {
    assert forall i :: 0 <= i < |a| ==> (a + b)[i] == a[i];
    assert forall i :: 0 <= i < |b| ==> (a + b)[|a| + i] == b[i];
  }

  /** Giving up with nothing meaningful shown comes after an attempt at the end of the budget. */
  ghost predicate UsesBudget(env: Env, at: Spot, before: nat, t: StreamTrace) {
    t.ending.Threw? && !at.shown && !AnyMeaningful(t.log.delivered) ==>
      Last(t.log.attempts, before) + 1 >= env.maxAttempts
  }

  lemma TurnUsesBudget(env: Env, at: Spot, before: nat, rest: StreamTrace) returns (next: nat)
    requires Fits(env, at) && Benign(env) && (at.phase.Reading? ==> before + 1 >= at.index)
    ensures var turn := TurnOf(env, at);
            if turn.Over? then UsesBudget(env, at, before, StreamTrace(turn.log, turn.ending))
            else && (turn.next.phase.Reading? ==> next + 1 >= turn.next.index)
                 && (UsesBudget(env, turn.next, next, rest) ==>
                       UsesBudget(env, at, before, StreamPrefix(turn.log, rest)))
  {
    var turn := TurnOf(env, at);
    next := Last(turn.log.attempts, before);
    hide Consume, AnyMeaningful;
    if turn.Continue? {
      MeaningfulJoin(turn.log.delivered, rest.log.delivered);
      LastJoin(turn.log.attempts, rest.log.attempts, before);
      NothingPrepended(rest.log.delivered);
    }
  }

  lemma {:induction false} DriveUsesBudget(env: Env, at: Spot, before: nat)
    requires Fits(env, at) && Benign(env) && (at.phase.Reading? ==> before + 1 >= at.index)
    ensures UsesBudget(env, at, before, Drive(env, at))
    decreases env.maxAttempts - at.index, Rank(at.phase)
  {
    var turn := TurnOf(env, at);
    hide TurnOf, UsesBudget, Benign, StreamPrefix;
    var next := TurnUsesBudget(env, at, before,
                               if turn.Continue? then Drive(env, turn.next) else StreamTrace(QUIET, Returned));
    if turn.Continue? { DriveUsesBudget(env, turn.next, next); }
  }

  lemma {:induction false} CallUsesBudget(env: Env, index: nat)
    requires Benign(env) && index < env.maxAttempts
    ensures var t := Call(env, index);
            t.outcome.CallThrew? ==> t.log.attempts != [] && Last(t.log.attempts, 0) + 1 >= env.maxAttempts
    decreases env.maxAttempts - index
  {
    if Retried(env, index) {
      CallUnfolds(env, index);
      hide Call, Benign;
      CallUsesBudget(env, index + 1);
      LastJoin([index], Call(env, index + 1).log.attempts, 0);
    }
  }

  /** When only the upstream fails, giving up has used the budget up, whether before a stream
      or inside one with nothing meaningful shown: the last attempt had index
      `maxAttempts - 1` or more. */
  lemma BudgetIsUsedUp(env: Env, pulls: nat)
    requires Benign(env)
    ensures var run := Whole(env, pulls);
            run.ending.FailedBeforeStream?
            || (run.ending.Streamed? && run.ending.ending.Threw? && NoOutput(run.log.delivered)) ==>
              Last(run.log.attempts, 0) + 1 >= env.maxAttempts && (env.maxAttempts >= 1 ==> run.log.attempts != [])
  {
    CallCountsUp(env, 0);
    CallLeavesLittle(env, 0);
    if env.maxAttempts >= 1 { CallUsesBudget(env, 0); }
    NoOutputIs(Whole(env, pulls).log.delivered);
    hide Call, Drive, Benign, AnyMeaningful, NoOutput;
    var call := Call(env, 0);
    if call.outcome.CallStreaming? && pulls > 0 {
      var at := Opened(call.outcome, pulls);
      DriveUsesBudget(env, at, call.outcome.index);
      var stream := Drive(env, at).log;
      NothingPrepended(stream.delivered);
      LastJoin(call.log.attempts, stream.attempts, 0);
    }
  }

  /** One environment shows three things at once. Two attempts are allowed, the first stream
      breaks at once, the hook is told of index 1, the second attempt has index 2, and an abort
      seen right after its stream was taken leaves that stream unread. */
  lemma AbortLeavesStreamUnread(lost: Failure)
    ensures exists env: Env :: env.maxAttempts == 2 && SkipsAndLeaves(Whole(env, 1).log)
  {
    var broken := (n: nat) => Broken(lost);
    var env := Env(2, (n: nat) => Streaming(broken), (n: nat) => n == 4, (f: Failure, n: nat) => true,
                   (n: nat) => Proceed, (n: nat) => Proceed);
    assert Breaks(env, broken, lost);
    BrokenRun(env, broken, lost);
    hide Breaks, Whole;
    assert env.maxAttempts == 2 && SkipsAndLeaves(Whole(env, 1).log);
  }

  /** Attempts 0 and 2, the hook told of 1, both streams handed over and one pulled. */
  ghost predicate SkipsAndLeaves(log: Log) {
    && log.attempts == [0, 2] && log.blamed == [Blame(0, 1)]
    && log.handedOff == [0, 2] && log.pulled == [0]
  }

  /** Two attempts, every stream breaking at once, and an abort seen at the fifth reading. */
  ghost predicate Breaks(env: Env, broken: nat -> StreamStep, lost: Failure) {
    && env.maxAttempts == 2 && (forall n: nat :: env.aborted(n) <==> n == 4)
    && (forall n: nat :: env.attempt(n) == Streaming(broken)) && (forall n: nat :: broken(n) == Broken(lost))
    && (forall n: nat :: env.onFailure(n) == Proceed) && (forall n: nat :: env.wait(n) == Proceed)
    && (forall n: nat :: env.shouldRetry(lost, n))
  }

  lemma FirstTurn(env: Env, broken: nat -> StreamStep, lost: Failure)
    requires Breaks(env, broken, lost)
    ensures Call(env, 0) == CallTrace(QUIET.(attempts := [0], handedOff := [0]), 0, CallStreaming(broken, 0))
    ensures TurnOf(env, Spot(Reading(broken, 0), 1, false, 2, 1))
            == Continue(Log([], [], [2], [], [0], [Blame(0, 1)]), Spot(Attempting, 2, false, 4, 1))
  {
    assert Consume(broken, 0, 0, 1) == Consumption([], Lost(lost), 1);
    hide Consume;
  }

  lemma LastTurns(env: Env, broken: nat -> StreamStep, lost: Failure)
    requires Breaks(env, broken, lost)
    ensures Drive(env, Spot(Attempting, 2, false, 4, 1))
            == StreamTrace(Log([], [2], [], [2], [], []), Threw(CLIENT_ABORTED))
  {
    var second, third := Spot(Attempting, 2, false, 4, 1), Spot(Reading(broken, 2), 2, false, 4, 1);
    assert TurnOf(env, second) == Continue(Log([], [2], [], [2], [], []), third);
    assert TurnOf(env, third) == Over(QUIET, Threw(CLIENT_ABORTED));
    hide TurnOf, Breaks;
    ThenQuiet(Log([], [2], [], [2], [], []));
    hide Then;
    assert Drive(env, third) == StreamTrace(QUIET, Threw(CLIENT_ABORTED));
  }

  lemma BrokenRun(env: Env, broken: nat -> StreamStep, lost: Failure)
    requires Breaks(env, broken, lost)
    ensures Whole(env, 1).log == Log([], [0, 2], [2], [0, 2], [0], [Blame(0, 1)])
  {
    hide Call, TurnOf;
    assert env.maxAttempts == 2;
    FirstTurn(env, broken, lost);
    LastTurns(env, broken, lost);
    hide Breaks;
    var first, second := Spot(Reading(broken, 0), 1, false, 2, 1), Spot(Attempting, 2, false, 4, 1);
    var rest := Drive(env, second);
    assert Drive(env, first) == StreamPrefix(Log([], [], [2], [], [0], [Blame(0, 1)]), rest);
    hide Drive;
  }

  // ------------------------------------------------------------ the wait

  function BaseDelay(retryIndex: nat): int { Min(2000, 50 * Bits.Pow2(Min(retryIndex, 6))) }

  /** The delay of `waitBeforeRetry`; `random` is the value of Math.random(). */
  function Delay(retryAt: RetryAt, retryIndex: nat, nowMs: int, random: real): int {
    match retryAt
    case At(ms) => Max(0, Min(5000, ms - nowMs))
    case _ =>
      var base := BaseDelay(retryIndex);
      base + (random * Min(50, Max(1, base / 4)) as real).Floor
  }

  lemma BaseDelayClimbs(i: nat, j: nat)
    requires i <= j
    ensures 50 <= BaseDelay(i) <= BaseDelay(j) <= 2000
  {
    assert Bits.Pow2(0) == 1 && Bits.Pow2(1) == 2 && Bits.Pow2(2) == 4;
    assert Bits.Pow2(3) == 8 && Bits.Pow2(4) == 16;
    assert Bits.Pow2(5) == 32 && Bits.Pow2(6) == 64;
  }

  lemma JitterIsBounded(random: real, width: int)
    requires 0.0 <= random < 1.0 && width >= 1
    ensures 0 <= (random * width as real).Floor < width
  {
    assert random * width as real <= 1.0 * width as real;
    assert random * width as real != width as real;
  }

  /** Every wait is between 0 and 5000 ms. Without a usable Retry-After it is at least the
      back-off of its retry index and less than 50 ms longer, so it never exceeds 2049 ms. */
  lemma DelayIsBounded(retryAt: RetryAt, retryIndex: nat, nowMs: int, random: real)
    requires 0.0 <= random < 1.0
    ensures 0 <= Delay(retryAt, retryIndex, nowMs, random) <= 5000
    ensures !retryAt.At? ==>
              BaseDelay(retryIndex) <= Delay(retryAt, retryIndex, nowMs, random) < BaseDelay(retryIndex) + 50
  {
    BaseDelayClimbs(0, retryIndex);
    hide BaseDelay;
    if !retryAt.At? {
      var width := Min(50, Max(1, BaseDelay(retryIndex) / 4));
      JitterIsBounded(random, width);
      assert Delay(retryAt, retryIndex, nowMs, random) == BaseDelay(retryIndex) + (random * width as real).Floor;
      assert width <= 50;
    }
  }

  /** The back-off starts at 50 ms and doubles with every retry until it reaches 2000 ms. */
  lemma BackoffDoubles(i: nat)
    ensures BaseDelay(0) == 50
    ensures BaseDelay(i + 1) == if 2 * BaseDelay(i) <= 2000 then 2 * BaseDelay(i) else 2000
  {
    assert Bits.Pow2(0) == 1 && Bits.Pow2(1) == 2 && Bits.Pow2(2) == 4;
    assert Bits.Pow2(3) == 8 && Bits.Pow2(4) == 16;
    assert Bits.Pow2(5) == 32 && Bits.Pow2(6) == 64;
  }

  /** A usable Retry-After is waited for to the millisecond, but no longer than 5000 ms and not at
      all when it is over. Otherwise what chance adds to the back-off is nothing at best, no more
      than a quarter of it, and no less for a larger number. */
  lemma DelayFollows(retryAt: RetryAt, retryIndex: nat, nowMs: int, random: real, larger: real)
    requires 0.0 <= random <= larger < 1.0
    ensures retryAt.At? ==>
              var delay := Delay(retryAt, retryIndex, nowMs, random);
              if retryAt.ms <= nowMs then delay == 0
              else if retryAt.ms <= nowMs + 5000 then nowMs + delay == retryAt.ms
              else delay == 5000
    ensures !retryAt.At? ==>
              && Delay(retryAt, retryIndex, nowMs, 0.0) == BaseDelay(retryIndex)
              && 4 * (Delay(retryAt, retryIndex, nowMs, random) - BaseDelay(retryIndex)) <= BaseDelay(retryIndex)
              && Delay(retryAt, retryIndex, nowMs, random) <= Delay(retryAt, retryIndex, nowMs, larger)
  {
    BaseDelayClimbs(0, retryIndex);
    hide BaseDelay;
    if !retryAt.At? {
      var width := Min(50, Max(1, BaseDelay(retryIndex) / 4));
      JitterIsBounded(random, width);
      JitterGrows(random, larger, width);
      assert 0.0 * width as real == 0.0;
      assert Delay(retryAt, retryIndex, nowMs, 0.0) == BaseDelay(retryIndex) + (0.0 * width as real).Floor;
      assert Delay(retryAt, retryIndex, nowMs, random) == BaseDelay(retryIndex) + (random * width as real).Floor;
      assert Delay(retryAt, retryIndex, nowMs, larger) == BaseDelay(retryIndex) + (larger * width as real).Floor;
    }
  }

  lemma JitterGrows(random: real, larger: real, width: int)
    requires 0.0 <= random <= larger && width >= 1
    ensures (random * width as real).Floor <= (larger * width as real).Floor
  {
    assert random * width as real <= larger * width as real;
  }
}
