/** The failover engine of src/app/recovery.ts: `recoverCall` retries attempts before a
    stream exists, `recoverableEvents` retries inside the stream while nothing meaningful
    has been shown, and `appendTerminalError` (src/app/response.ts) closes the stream.

    The world is an `Env` of answers: what attempt number i does, what each reading of the
    abort signal and each retry decision says, whether the failure hook or the back-off
    wait raises. A stream is a function from position to step, so it may be endless; the
    consumer is the number of pulls it makes before it walks away. */
module Recovery {
  import opened Common
  import opened StreamContract

  datatype RetryAt = Absent | Unparseable | At(ms: int)

  datatype Failure = Failure(kind: string, retryable: bool, retryAt: RetryAt)

  const CLIENT_ABORTED := Failure("client_aborted", false, Absent)
  const STREAM_TRUNCATED := Failure("stream_truncated", false, Absent)
  const NOT_A_STREAM := Failure("provider_protocol_error", false, Absent)
  const EXHAUSTED := Failure("internal_error", false, Absent)

  datatype StreamStep = Emit(event: StreamEvent) | Finished | Broken(error: Failure)

  datatype AttemptOutcome =
    | Rejected(error: Failure)
    | NonStream(body: string)
    | Streaming(events: nat -> StreamStep)

  datatype Hook = Proceed | Raise(error: Failure)

  datatype Env = Env(
    maxAttempts: int,
    attempt: nat -> AttemptOutcome,
    aborted: nat -> bool,
    shouldRetry: (Failure, nat) -> bool,
    onFailure: nat -> Hook,
    wait: nat -> Hook)

  datatype Tagged = Tagged(attempt: nat, event: StreamEvent)

  /** A call of the failure hook: the attempt that failed, and the index the hook is told. */
  datatype Blame = Blame(failed: nat, told: nat)

  /** What the outside sees of a run, in order. `handedOff` are the attempts that returned
      a stream, `pulled` those whose stream was pulled at least once, and so reached its
      own clean-up when it was left. */
  datatype Log = Log(
    delivered: seq<Tagged>,
    attempts: seq<nat>,
    waits: seq<nat>,
    handedOff: seq<nat>,
    pulled: seq<nat>,
    blamed: seq<Blame>)

  const QUIET := Log([], [], [], [], [], [])

  function Then(a: Log, b: Log): Log {
    Log(a.delivered + b.delivered, a.attempts + b.attempts, a.waits + b.waits,
        a.handedOff + b.handedOff, a.pulled + b.pulled, a.blamed + b.blamed)
  }

  lemma ThenAssociative(a: Log, b: Log, c: Log)
    ensures Then(Then(a, b), c) == Then(a, Then(b, c))
  {
    assert (a.delivered + b.delivered) + c.delivered == a.delivered + (b.delivered + c.delivered);
    assert (a.attempts + b.attempts) + c.attempts == a.attempts + (b.attempts + c.attempts);
    assert (a.waits + b.waits) + c.waits == a.waits + (b.waits + c.waits);
    assert (a.handedOff + b.handedOff) + c.handedOff == a.handedOff + (b.handedOff + c.handedOff);
    assert (a.pulled + b.pulled) + c.pulled == a.pulled + (b.pulled + c.pulled);
    assert (a.blamed + b.blamed) + c.blamed == a.blamed + (b.blamed + c.blamed);
  }

  lemma ThenQuiet(a: Log)
    ensures Then(QUIET, a) == a == Then(a, QUIET)
  {
  }

  // ------------------------------------------------------------ before the stream

  datatype CallOutcome =
    | CallThrew(error: Failure)
    | CallAnswered(body: string)
    | CallStreaming(events: nat -> StreamStep, index: nat)

  datatype CallTrace = CallTrace(log: Log, cleanups: nat, outcome: CallOutcome)

  function CallPrefix(log: Log, rest: CallTrace): CallTrace {
    CallTrace(Then(log, rest.log), rest.cleanups, rest.outcome)
  }

  /** The loop from `index` on. Attempt i looks at the abort signal at reading 2i and, if it
      fails, at the retry decision at reading 2i + 1. */
  function Call(env: Env, index: nat): (trace: CallTrace)
    ensures trace.outcome.CallStreaming? ==> index <= trace.outcome.index < env.maxAttempts
    decreases env.maxAttempts - index
  {
    if index >= env.maxAttempts then CallTrace(QUIET, 1, CallThrew(EXHAUSTED))
    else if env.aborted(2 * index) then CallTrace(QUIET, 1, CallThrew(CLIENT_ABORTED))
    else
      var tried := QUIET.(attempts := [index]);
      match env.attempt(index)
      case NonStream(body) => CallTrace(tried, 1, CallAnswered(body))
      case Streaming(events) => CallTrace(tried.(handedOff := [index]), 0, CallStreaming(events, index))
      case Rejected(error) =>
        var blamed := tried.(blamed := [Blame(index, index)]);
        match env.onFailure(index)
        case Raise(x) => CallTrace(blamed, 0, CallThrew(x))
        case Proceed =>
          if !env.shouldRetry(error, 2 * index + 1) || index + 1 >= env.maxAttempts then
            CallTrace(blamed, 1, CallThrew(error))
          else
            var waited := blamed.(waits := [index + 1]);
            match env.wait(index + 1)
            case Raise(x) => CallTrace(waited, 0, CallThrew(x))
            case Proceed => CallPrefix(waited, Call(env, index + 1))
  }

  /** Attempt `i` fails and is followed by attempt `i + 1`. */
  predicate Retried(env: Env, i: nat) {
    && i + 1 < env.maxAttempts && !env.aborted(2 * i) && env.attempt(i).Rejected?
    && env.onFailure(i).Proceed? && env.shouldRetry(env.attempt(i).error, 2 * i + 1) && env.wait(i + 1).Proceed?
  }

  /** All that such an attempt leaves in the log. */
  function RetriedLog(i: nat): Log {
    QUIET.(attempts := [i], waits := [i + 1], blamed := [Blame(i, i)])
  }

  lemma CallUnfolds(env: Env, index: nat)
    requires Retried(env, index)
    ensures Call(env, index) == CallPrefix(RetriedLog(index), Call(env, index + 1))
  {
  }

  lemma LogAppends(log: Log, attempt: seq<nat>, wait: seq<nat>, handedOff: seq<nat>, blame: seq<Blame>)
    ensures Then(log, QUIET.(attempts := attempt, waits := wait, handedOff := handedOff, blamed := blame))
            == log.(attempts := log.attempts + attempt, waits := log.waits + wait,
                    handedOff := log.handedOff + handedOff, blamed := log.blamed + blame)
  {
    assert log.delivered + [] == log.delivered && log.pulled + [] == log.pulled;
  }

  /** The loop of `recoverCall`. */
  method RecoverCall(env: Env) returns (trace: CallTrace)
    ensures trace == Call(env, 0)
  {
    var log := QUIET;
    var lastError: Option<Failure> := None;
    var index := 0;
    ThenQuiet(Call(env, 0).log);
    while index < env.maxAttempts
      invariant index > 0 ==> index < env.maxAttempts
      invariant index == 0 ==> lastError == None
      invariant Call(env, 0) == CallPrefix(log, Call(env, index))
    {
      ghost var before := log;
      ThenQuiet(log);
      if env.aborted(2 * index) {
        return CallTrace(log, 1, CallThrew(CLIENT_ABORTED));
      }
      log := log.(attempts := log.attempts + [index]);
      LogAppends(before, [index], [], [], []);
      match env.attempt(index) {
        case NonStream(body) =>
          return CallTrace(log, 1, CallAnswered(body));
        case Streaming(events) =>
          log := log.(handedOff := log.handedOff + [index]);
          LogAppends(before, [index], [], [index], []);
          return CallTrace(log, 0, CallStreaming(events, index));
        case Rejected(error) =>
          lastError := Some(error);
          log := log.(blamed := log.blamed + [Blame(index, index)]);
          LogAppends(before, [index], [], [], [Blame(index, index)]);
          match env.onFailure(index) {
            case Raise(x) => return CallTrace(log, 0, CallThrew(x));
            case Proceed =>
          }
          if !env.shouldRetry(error, 2 * index + 1) || index + 1 >= env.maxAttempts {
            return CallTrace(log, 1, CallThrew(error));
          }
          log := log.(waits := log.waits + [index + 1]);
          LogAppends(before, [index], [index + 1], [], [Blame(index, index)]);
          match env.wait(index + 1) {
            case Raise(x) => return CallTrace(log, 0, CallThrew(x));
            case Proceed =>
          }
          CallUnfolds(env, index);
          ThenAssociative(before, RetriedLog(index), Call(env, index + 1).log);
      }
      index := index + 1;
    }
    ThenQuiet(log);
    return CallTrace(log, 1, CallThrew(lastError.GetOr(EXHAUSTED)));
  }

  // ------------------------------------------------------------ inside the stream

  datatype Exit = SawTerminal | Lost(error: Failure) | ConsumerLeft

  datatype Consumption = Consumption(delivered: seq<Tagged>, exit: Exit, pulls: nat)

  /** Reads one attempt's stream from `pos`, with `pulls` pulls left to the consumer. */
  function Consume(events: nat -> StreamStep, attempt: nat, pos: nat, pulls: nat): (c: Consumption)
    requires pulls > 0
    ensures c.exit.Lost? ==> c.pulls > 0
    decreases pulls
  {
    match events(pos)
    case Finished => Consumption([], Lost(STREAM_TRUNCATED), pulls)
    case Broken(error) => Consumption([], Lost(error), pulls)
    case Emit(event) =>
      var shown := [Tagged(attempt, event)];
      if pulls == 1 then Consumption(shown, ConsumerLeft, 0)
      else if IsTerminal(event) then Consumption(shown, SawTerminal, pulls - 1)
      else
        var rest := Consume(events, attempt, pos + 1, pulls - 1);
        Consumption(shown + rest.delivered, rest.exit, rest.pulls)
  }

  predicate AnyMeaningful(delivered: seq<Tagged>) {
    exists i :: 0 <= i < |delivered| && IsMeaningful(delivered[i].event)
  }

  predicate AnyTerminal(delivered: seq<Tagged>) {
    exists i :: 0 <= i < |delivered| && IsTerminal(delivered[i].event)
  }

  lemma AnyAfterAppend(delivered: seq<Tagged>, last: Tagged)
    ensures AnyMeaningful(delivered + [last]) == (AnyMeaningful(delivered) || IsMeaningful(last.event))
    ensures AnyTerminal(delivered + [last]) == (AnyTerminal(delivered) || IsTerminal(last.event))
  {
    var all := delivered + [last];
    assert all[|delivered|] == last;
    assert forall i :: 0 <= i < |delivered| ==> all[i] == delivered[i];
  }

  /** Where the generator is: about to read a stream, back at the loop top after a failed
      attempt, or about to make an attempt. Only the first two look at the abort signal. */
  datatype Phase =
    | Reading(events: nat -> StreamStep, attempt: nat)
    | AtLoopTop
    | Attempting

  datatype Ending = Returned | Threw(error: Failure) | Cancelled

  datatype StreamTrace = StreamTrace(log: Log, ending: Ending)

  function StreamPrefix(log: Log, rest: StreamTrace): StreamTrace {
    StreamTrace(Then(log, rest.log), rest.ending)
  }

  /** The verdict on a failure inside the stream at `index`: stop with an error (after having
      called the hook and started a wait or not), or make the next attempt. */
  datatype Verdict = Stop(error: Failure, hooked: bool, waits: seq<nat>) | Again(hooked: bool, waits: seq<nat>)

  predicate MayRetry(env: Env, error: Failure, index: nat, shown: bool, clock: nat) {
    index < env.maxAttempts && !shown && env.shouldRetry(error, clock) && !env.aborted(clock)
  }

  function Judge(env: Env, error: Failure, index: nat, shown: bool, clock: nat): (verdict: Verdict)
    ensures verdict.hooked <==> MayRetry(env, error, index, shown, clock)
    ensures verdict.Again? ==> verdict.hooked && verdict.waits == [index + 1]
    ensures verdict.waits == [] || (verdict.hooked && verdict.waits == [index + 1])
  {
    if !MayRetry(env, error, index, shown, clock) then Stop(error, false, [])
    else
      match env.onFailure(index)
      case Raise(x) => Stop(x, true, [])
      case Proceed =>
        match env.wait(index + 1)
        case Raise(x) => Stop(x, true, [index + 1])
        case Proceed => Again(true, [index + 1])
  }

  function Rank(phase: Phase): nat {
    match phase case Reading(_, _) => 0 case Attempting => 1 case AtLoopTop => 2
  }

  /** The generator's state between two turns: its phase, the index, whether anything
      meaningful was shown, the number of readings made and of pulls left. */
  datatype Spot = Spot(phase: Phase, index: nat, shown: bool, clock: nat, pulls: nat)

  predicate Fits(env: Env, at: Spot) {
    at.index <= env.maxAttempts && at.pulls > 0
  }

  /** One turn: the generator ends, or it goes on from the next state. */
  datatype Turn = Over(log: Log, ending: Ending) | Continue(log: Log, next: Spot)

  /** What follows the failure of attempt `failed`, once the retry decision is due. */
  function AfterFailure(env: Env, log: Log, failed: nat, error: Failure, at: Spot, next: Phase): Turn {
    var verdict := Judge(env, error, at.index, at.shown, at.clock);
    var log := log.(waits := verdict.waits, blamed := if verdict.hooked then [Blame(failed, at.index)] else []);
    if verdict.Stop? then Over(log, Threw(verdict.error))
    else Continue(log, at.(phase := next, index := at.index + 1, clock := at.clock + 1))
  }

  /** The `if (events !== null)` half of the loop body. */
  function ReadTurn(env: Env, at: Spot): Turn
    requires Fits(env, at) && at.phase.Reading?
  {
    var Reading(events, attempt) := at.phase;
    var read := Consume(events, attempt, 0, at.pulls);
    var log := QUIET.(delivered := read.delivered, pulled := [attempt]);
    match read.exit
    case SawTerminal => Over(log, Returned)
    case ConsumerLeft => Over(log, Cancelled)
    case Lost(error) =>
      var shown := at.shown || AnyMeaningful(read.delivered);
      var after := at.(shown := shown, clock := at.clock + 1, pulls := read.pulls);
      AfterFailure(env, log, attempt, error, after, Attempting)
  }

  /** The `await attempt(index)` half. */
  function AttemptTurn(env: Env, at: Spot): Turn {
    var log := QUIET.(attempts := [at.index]);
    match env.attempt(at.index)
    case NonStream(_) => Over(log, Threw(NOT_A_STREAM))
    case Streaming(events) => Continue(log.(handedOff := [at.index]), at.(phase := Reading(events, at.index)))
    case Rejected(error) => AfterFailure(env, log, at.index, error, at, AtLoopTop)
  }

  function TurnOf(env: Env, at: Spot): (turn: Turn)
    requires Fits(env, at)
    ensures turn.Continue? ==>
              && Fits(env, turn.next) && at.index <= turn.next.index
              && (turn.next.index == at.index ==> Rank(turn.next.phase) < Rank(at.phase))
  {
    match at.phase
    case Reading(_, _) => if env.aborted(at.clock) then Over(QUIET, Threw(CLIENT_ABORTED)) else ReadTurn(env, at)
    case AtLoopTop =>
      if env.aborted(at.clock) then Over(QUIET, Threw(CLIENT_ABORTED))
      else Continue(QUIET, at.(phase := Attempting, clock := at.clock + 1))
    case Attempting => AttemptTurn(env, at)
  }

  function Drive(env: Env, at: Spot): StreamTrace
    requires Fits(env, at)
    decreases env.maxAttempts - at.index, Rank(at.phase)
  {
    match TurnOf(env, at)
    case Over(log, ending) => StreamTrace(log, ending)
    case Continue(log, next) => StreamPrefix(log, Drive(env, next))
  }

  lemma Reassociate(a: seq<Tagged>, x: Tagged, b: seq<Tagged>)
    ensures a + ([x] + b) == (a + [x]) + b
  {
  }

  /** `trackStream` under the consumer's `for await`: reads until the stream is left, and
      keeps the two lifecycle flags. */
  method TrackStream(events: nat -> StreamStep, attempt: nat, pulls: nat)
    returns (read: Consumption, meaningful: bool, terminal: bool)
    requires pulls > 0
    ensures read == Consume(events, attempt, 0, pulls)
    ensures meaningful == AnyMeaningful(read.delivered)
    ensures terminal == AnyTerminal(read.delivered)
    ensures read.exit.Lost? ==> !terminal
  {
    var delivered: seq<Tagged> := [];
    var pos, left := 0, pulls;
    meaningful, terminal := false, false;
    while true
      invariant left > 0 && !terminal
      invariant meaningful == AnyMeaningful(delivered)
      invariant !AnyTerminal(delivered)
      invariant Consume(events, attempt, 0, pulls) ==
                var rest := Consume(events, attempt, pos, left);
                Consumption(delivered + rest.delivered, rest.exit, rest.pulls)
      decreases left
    {
      hide IsMeaningful, IsTerminal, AnyMeaningful, AnyTerminal;
      assert delivered + [] == delivered;
      match events(pos) {
        case Finished => return Consumption(delivered, Lost(STREAM_TRUNCATED), left), meaningful, terminal;
        case Broken(error) => return Consumption(delivered, Lost(error), left), meaningful, terminal;
        case Emit(event) =>
          if IsMeaningful(event) { meaningful := true; }
          if IsTerminal(event) { terminal := true; }
          AnyAfterAppend(delivered, Tagged(attempt, event));
          ghost var before := delivered;
          delivered := delivered + [Tagged(attempt, event)];
          if left == 1 { return Consumption(delivered, ConsumerLeft, 0), meaningful, terminal; }
          if IsTerminal(event) { return Consumption(delivered, SawTerminal, left - 1), meaningful, terminal; }
          Reassociate(before, Tagged(attempt, event), Consume(events, attempt, pos + 1, left - 1).delivered);
      }
      pos, left := pos + 1, left - 1;
    }
  }

  function Extended(log: Log, turn: Turn): Turn {
    turn.(log := Then(log, turn.log))
  }

  /** A turn taken after `log` leaves the rest of the run to what follows it. */
  ghost predicate TurnMatches(env: Env, at: Spot, log: Log, turn: Turn)
    requires Fits(env, at)
  {
    var whole := StreamPrefix(log, Drive(env, at));
    match turn
    case Over(log', ending) => whole == StreamTrace(log', ending)
    case Continue(log', next) =>
      && Fits(env, next) && at.index <= next.index
      && (next.index == at.index ==> Rank(next.phase) < Rank(at.phase))
      && whole == StreamPrefix(log', Drive(env, next))
  }

  lemma ExtendedMatches(env: Env, at: Spot, log: Log)
    requires Fits(env, at)
    ensures TurnMatches(env, at, log, Extended(log, TurnOf(env, at)))
  {
    var turn := TurnOf(env, at);
    if turn.Continue? { ThenAssociative(log, turn.log, Drive(env, turn.next).log); }
    hide TurnOf, Then;
  }

  /** The `if (events !== null)` half of the loop body. */
  method ReadHalf(env: Env, at: Spot, log: Log) returns (turn: Turn)
    requires Fits(env, at) && at.phase.Reading? && !env.aborted(at.clock)
    ensures TurnMatches(env, at, log, turn)
    ensures turn.Continue? ==> turn.next.phase.Attempting?
  {
    ExtendedMatches(env, at, log);
    var read, meaningful, terminal := TrackStream(at.phase.events, at.phase.attempt, at.pulls);
    hide AnyMeaningful, AnyTerminal, Consume, Then, TurnMatches;
    var step := QUIET.(delivered := read.delivered, pulled := [at.phase.attempt]);
    match read.exit {
      case SawTerminal => turn := Over(Then(log, step), Returned);
      case ConsumerLeft => turn := Over(Then(log, step), Cancelled);
      case Lost(failure) =>
        var verdict := Judge(env, failure, at.index, at.shown || meaningful || terminal, at.clock + 1);
        step := step.(waits := verdict.waits,
                      blamed := if verdict.hooked then [Blame(at.phase.attempt, at.index)] else []);
        if verdict.Stop? {
          turn := Over(Then(log, step), Threw(verdict.error));
        } else {
          turn := Continue(Then(log, step),
                           Spot(Attempting, at.index + 1, at.shown || meaningful, at.clock + 2, read.pulls));
        }
    }
  }

  /** The `await attempt(index)` half of the loop body. */
  method AttemptHalf(env: Env, at: Spot, log: Log) returns (turn: Turn)
    requires Fits(env, at) && at.phase.Attempting?
    ensures TurnMatches(env, at, log, turn)
    ensures turn.Continue? ==> !turn.next.phase.Attempting?
  {
    ExtendedMatches(env, at, log);
    hide Then, TurnMatches;
    var step := QUIET.(attempts := [at.index]);
    match env.attempt(at.index) {
      case NonStream(_) => turn := Over(Then(log, step), Threw(NOT_A_STREAM));
      case Streaming(events) =>
        turn := Continue(Then(log, step.(handedOff := [at.index])), at.(phase := Reading(events, at.index)));
      case Rejected(failure) =>
        var verdict := Judge(env, failure, at.index, at.shown, at.clock);
        step := step.(waits := verdict.waits, blamed := if verdict.hooked then [Blame(at.index, at.index)] else []);
        if verdict.Stop? {
          turn := Over(Then(log, step), Threw(verdict.error));
        } else {
          turn := Continue(Then(log, step), at.(phase := AtLoopTop, index := at.index + 1, clock := at.clock + 1));
        }
    }
  }

  /** The generator `recoverableEvents` over the stream of attempt `attempt`, run for `pulls`
      pulls of its consumer. */
  method RecoverableEvents(env: Env, initial: nat -> StreamStep, attempt: nat, startIndex: nat, startClock: nat,
                           pulls: nat)
    returns (trace: StreamTrace)
    requires startIndex <= env.maxAttempts && pulls > 0
    ensures trace == Drive(env, Spot(Reading(initial, attempt), startIndex, false, startClock, pulls))
  {
    var log := QUIET;
    var at := Spot(Reading(initial, attempt), startIndex, false, startClock, pulls);
    ghost var whole := Drive(env, at);
    ThenQuiet(whole.log);
    while true
      invariant Fits(env, at) && !at.phase.Attempting?
      invariant whole == StreamPrefix(log, Drive(env, at))
      decreases env.maxAttempts - at.index, Rank(at.phase)
    {
      ThenQuiet(log);
      if env.aborted(at.clock) { return StreamTrace(log, Threw(CLIENT_ABORTED)); }
      if at.phase.Reading? {
        var turn := ReadHalf(env, at, log);
        if turn.Over? { return StreamTrace(turn.log, turn.ending); }
        log, at := turn.log, turn.next;
      } else {
        var next := at.(phase := Attempting, clock := at.clock + 1);
        ThenQuiet(Drive(env, next).log);
        at := next;
      }
      hide Drive, Then;
      var turn := AttemptHalf(env, at, log);
      if turn.Over? { return StreamTrace(turn.log, turn.ending); }
      log, at := turn.log, turn.next;
    }
  }
}
