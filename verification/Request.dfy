/** `runProxyRequest` (src/app/request.ts): settling the admission lease and the in-flight
    counter around the failover engine, and the leases of all attempts of a request. */
module Request {
  import Bits
  import opened Common
  import opened Recovery
  import opened RecoverySafety
  import opened Leases

  // ------------------------------------------------------------ admission and in-flight

  datatype Admission = NotAsked | Refused | Admitted
  datatype Engine = EngineThrew | EngineAnswered | EngineStreamed
  datatype Settlement = Released | Committed

  /** Where the body of the request throws, and what the engine came back with. */
  datatype RequestScript = RequestScript(
    normalizeThrows: bool,
    admission: Admission,
    routesThrow: bool,
    engine: Engine,
    presentationThrows: bool)

  predicate HoldsLease(script: RequestScript) {
    !script.normalizeThrows && script.admission.Admitted?
  }

  predicate EngineRuns(script: RequestScript) {
    !script.normalizeThrows && !script.admission.Refused? && !script.routesThrow
  }

  predicate HandsStreamOff(script: RequestScript) {
    EngineRuns(script) && script.engine.EngineStreamed? && !script.presentationThrows
  }

  class ProxyRequest {
    var admissionLease: bool
    var admissionSettled: bool
    var settlements: seq<Settlement>
    var inFlight: int

    constructor ()
      ensures !admissionLease && !admissionSettled && settlements == [] && inFlight == 0
    {
      admissionLease, admissionSettled, settlements, inFlight := false, false, [], 0;
    }

    method SettleAdmission(how: Settlement)
      modifies this`admissionSettled, this`settlements
      ensures admissionSettled == (old(admissionSettled) || admissionLease)
      ensures settlements == old(settlements) + if admissionLease && !old(admissionSettled) then [how] else []
    {
      if admissionSettled || !admissionLease {
        assert settlements + [] == settlements;
        return;
      }
      admissionSettled := true;
      settlements := settlements + [how];
    }

    /** The try body; false when it throws. */
    method Body(script: RequestScript) returns (completed: bool)
      requires !admissionLease && !admissionSettled && settlements == []
      modifies this`admissionLease, this`admissionSettled, this`settlements
      ensures admissionLease == HoldsLease(script)
      ensures admissionSettled == (settlements != [])
      ensures settlements ==
                if HoldsLease(script) && EngineRuns(script) && script.engine.EngineAnswered? then [Committed] else []
      ensures completed <==> EngineRuns(script) && !script.engine.EngineThrew? && !script.presentationThrows
    {
      if script.normalizeThrows { return false; }
      if script.admission.Refused? { return false; }
      admissionLease := script.admission.Admitted?;
      if script.routesThrow || script.engine.EngineThrew? { return false; }
      if script.engine.EngineAnswered? { SettleAdmission(Committed); }
      return !script.presentationThrows;
    }

    /** try, catch and finally. */
    method Run(script: RequestScript)
      requires !admissionLease && !admissionSettled && settlements == []
      modifies this
      ensures admissionLease == HoldsLease(script) && admissionSettled == (settlements != [])
      ensures inFlight == old(inFlight) + if HandsStreamOff(script) then 1 else 0
      ensures settlements == if !HoldsLease(script) || HandsStreamOff(script) then []
                             else if EngineRuns(script) && script.engine.EngineAnswered? then [Committed]
                               else [Released]
    {
      inFlight := inFlight + 1;
      var completed := Body(script);
      if !completed { SettleAdmission(Released); }
      if !(completed && script.engine.EngineStreamed?) { inFlight := inFlight - 1; }
    }

    /** The `finally` of the presented stream, reached when it was pulled at least once. */
    method StreamFinally()
      modifies this`inFlight, this`admissionSettled, this`settlements
      ensures inFlight == old(inFlight) - 1
      ensures settlements == old(settlements) + if admissionLease && !old(admissionSettled) then [Committed] else []
    {
      SettleAdmission(Committed);
      inFlight := inFlight - 1;
    }
  }

  /** A request and, when it hands a stream off that is read, the end of that stream: the
      lease is settled exactly once if there is one, and the in-flight counter is back where
      it was, in every case but a handed-off stream nobody reads. */
  method Serve(script: RequestScript, streamRead: bool) returns (settlements: seq<Settlement>, inFlight: int)
    ensures HandsStreamOff(script) && !streamRead ==> settlements == [] && inFlight == 1
    ensures !(HandsStreamOff(script) && !streamRead) ==>
            && inFlight == 0
            && |settlements| == if HoldsLease(script) then 1 else 0
    ensures settlements != [] ==>
              (settlements[0].Committed? <==>
               && EngineRuns(script)
               && (script.engine.EngineAnswered? || HandsStreamOff(script)))
    ensures inFlight == if !script.normalizeThrows && !script.admission.Refused? && !script.routesThrow
                           && script.engine.EngineStreamed? && !script.presentationThrows && !streamRead then 1 else 0
    ensures script.normalizeThrows || !script.admission.Admitted? ==> settlements == []
    ensures !script.normalizeThrows && script.admission.Admitted? ==>
              && (script.routesThrow || script.engine.EngineThrew? ==> settlements == [Released])
              && (!script.routesThrow && script.engine.EngineAnswered? ==> settlements == [Committed])
              && (!script.routesThrow && script.engine.EngineStreamed? && script.presentationThrows ==>
                    settlements == [Released])
              && (!script.routesThrow && script.engine.EngineStreamed? && !script.presentationThrows && streamRead ==>
                    settlements == [Committed])
  {
    var request := new ProxyRequest();
    request.Run(script);
    if HandsStreamOff(script) && streamRead { request.StreamFinally(); }
    return request.settlements, request.inFlight;
  }

  // ------------------------------------------------------------ the leases of all attempts

  /** `scripts(i)` is what attempt i of the environment meets inside its closure. */
  ghost predicate Describes(scripts: nat -> Script, env: Env) {
    forall i: nat :: env.attempt(i).Streaming? <==> ReachesCall(scripts(i)) && scripts(i).call.CallStream?
  }

  function Streams(env: Env, attempts: seq<nat>): seq<nat> {
    if attempts == [] then []
    else (if env.attempt(attempts[0]).Streaming? then [attempts[0]] else []) + Streams(env, attempts[1..])
  }

  lemma StreamsPrepend(env: Env, x: nat, rest: seq<nat>)
    ensures Streams(env, [x] + rest) == (if env.attempt(x).Streaming? then [x] else []) + Streams(env, rest)
  {
    assert ([x] + rest)[1..] == rest;
  }

  lemma {:induction false} StreamsJoin(env: Env, a: seq<nat>, b: seq<nat>)
    ensures Streams(env, a + b) == Streams(env, a) + Streams(env, b)
  {
    if a == [] {
      assert a + b == b && [] + Streams(env, b) == Streams(env, b);
    } else {
      StreamsPrepend(env, a[0], a[1..]);
      StreamsPrepend(env, a[0], a[1..] + b);
      StreamsJoin(env, a[1..], b);
      hide Streams;
      assert [a[0]] + a[1..] == a && [a[0]] + (a[1..] + b) == a + b;
    }
  }

  lemma {:induction false} StreamsMembers(env: Env, attempts: seq<nat>)
    requires Increasing(attempts)
    ensures Increasing(Streams(env, attempts))
    ensures forall i :: i in Streams(env, attempts) <==> i in attempts && env.attempt(i).Streaming?
  {
    if attempts != [] {
      var rest := attempts[1..];
      assert forall k :: 0 <= k < |rest| ==> rest[k] == attempts[k + 1];
      StreamsMembers(env, rest);
      assert forall i :: i in attempts <==> i == attempts[0] || i in rest;
      assert forall i :: i in rest ==> attempts[0] < i;
      StreamsPrepend(env, attempts[0], rest);
      assert [attempts[0]] + rest == attempts;
      IncreasingPrepend(attempts[0], Streams(env, rest));
      assert [] + Streams(env, rest) == Streams(env, rest);
    }
  }

  lemma IncreasingPrepend(x: nat, rest: seq<nat>)
    requires Increasing(rest) && forall i :: i in rest ==> x < i
    ensures Increasing([x] + rest)
  {
    forall i, j | 0 <= i < j < |[x] + rest|
      ensures ([x] + rest)[i] < ([x] + rest)[j]
    {
      assert ([x] + rest)[j] == rest[j - 1] && rest[j - 1] in rest;
    }
  }

  lemma {:induction false} CallHandsOverStreams(env: Env, index: nat)
    ensures Call(env, index).log.handedOff == Streams(env, Call(env, index).log.attempts)
    decreases env.maxAttempts - index
  {
    StreamsPrepend(env, index, []);
    assert [index] + [] == [index];
    if Retried(env, index) {
      CallUnfolds(env, index);
      var rest := Call(env, index + 1).log;
      StreamsPrepend(env, index, rest.attempts);
      assert [] + rest.handedOff == rest.handedOff && [] + Streams(env, rest.attempts) == Streams(env, rest.attempts);
      hide Call, Streams;
      CallHandsOverStreams(env, index + 1);
    }
  }

  lemma TurnHandsOverStreams(env: Env, at: Spot)
    requires Fits(env, at)
    ensures var turn := TurnOf(env, at); turn.log.handedOff == Streams(env, turn.log.attempts)
  {
    StreamsPrepend(env, at.index, []);
    assert [at.index] + [] == [at.index];
    hide Consume, Judge;
  }

  lemma {:induction false} DriveHandsOverStreams(env: Env, at: Spot)
    requires Fits(env, at)
    ensures Drive(env, at).log.handedOff == Streams(env, Drive(env, at).log.attempts)
    decreases env.maxAttempts - at.index, Rank(at.phase)
  {
    var turn := TurnOf(env, at);
    TurnHandsOverStreams(env, at);
    hide TurnOf, Streams;
    if turn.Continue? {
      DriveHandsOverStreams(env, turn.next);
      StreamsJoin(env, turn.log.attempts, Drive(env, turn.next).log.attempts);
    }
  }

  lemma WholeHandsOverStreams(env: Env, pulls: nat)
    ensures Whole(env, pulls).log.handedOff == Streams(env, Whole(env, pulls).log.attempts)
  {
    CallHandsOverStreams(env, 0);
    hide Call, Drive, Streams;
    var call := Call(env, 0);
    if call.outcome.CallStreaming? && pulls > 0 {
      var at := Opened(call.outcome, pulls);
      DriveHandsOverStreams(env, at);
      StreamsJoin(env, call.log.attempts, Drive(env, at).log.attempts);
    }
  }

  /** Attempt `i` of a run returned everything it took, in reverse order. */
  ghost predicate Settled(run: Run, scripts: nat -> Script, i: nat) {
    GivenBack(scripts(i), i in run.log.pulled, {}) == Reverse(Taken(scripts(i)))
  }

  /** With releases that do not throw, every attempt of a run returns everything it took,
      except when the last attempt made handed over a stream that is then left unread: nobody
      pulls, or the abort signal is set at the next reading. That attempt, and no other, is
      then left with what it took. */
  lemma EveryAttemptSettles(env: Env, pulls: nat, scripts: nat -> Script)
    requires env.maxAttempts >= 1 && Describes(scripts, env)
    ensures var run := Whole(env, pulls);
            && ((forall i :: i in run.log.attempts ==> Settled(run, scripts, i)) <==>
              !LeavesUnread(env, run.log.attempts, pulls))
            && (forall i :: i in run.log.attempts && !Settled(run, scripts, i) ==>
              i == run.log.attempts[|run.log.attempts| - 1])
            && (pulls > 0 && NeverAborted(env) ==> forall i :: i in run.log.attempts ==> Settled(run, scripts, i))
  {
    hide Call, Drive;
    var run := Whole(env, pulls);
    EveryStreamIsPulled(env, pulls);
    WholeHandsOverStreams(env, pulls);
    AttemptsIncrease(env, pulls);
    StreamsMembers(env, run.log.attempts);
    forall i | i in run.log.attempts
      ensures Settled(run, scripts, i) <==> !(env.attempt(i).Streaming? && i !in run.log.pulled)
    {
      AttemptLedger(scripts(i), i in run.log.pulled, {});
    }
    if run.log.handedOff != run.log.pulled {
      LastUnread(run.log.handedOff, run.log.pulled);
      LastStreams(env, run.log.attempts);
    }
  }

  /** When the last attempt hands over a stream, that is the last stream. */
  lemma LastStreams(env: Env, attempts: seq<nat>)
    requires attempts != [] && env.attempt(attempts[|attempts| - 1]).Streaming?
    ensures Last(Streams(env, attempts), 0) == attempts[|attempts| - 1]
  {
    var front, last := attempts[..|attempts| - 1], attempts[|attempts| - 1];
    assert attempts == front + [last];
    StreamsJoin(env, front, [last]);
    StreamsPrepend(env, last, []);
    assert [last] + [] == [last];
  }

  lemma LastUnread(handedOff: seq<nat>, pulled: seq<nat>)
    requires AllButLastPulled(handedOff, pulled) && handedOff != pulled
    requires Increasing(handedOff)
    ensures handedOff != [] && Last(handedOff, 0) in handedOff && Last(handedOff, 0) !in pulled
    ensures forall i :: i in handedOff && i !in pulled ==> i == Last(handedOff, 0)
  {
    assert forall k :: 0 <= k < |handedOff| - 1 ==> handedOff[k] == pulled[k] && handedOff[k] in pulled;
  }

  // ------------------------------------------------------------ the candidates of the attempts

  /** `candidates[index % candidates.length]`. */
  function CandidateAt(index: nat, candidates: nat): nat
    requires candidates > 0
  {
    index % candidates
  }

  lemma NextRemainder(x: nat, n: nat)
    requires n > 0
    ensures (x + 1) % n == x % n <==> n == 1
    ensures (x + 2) % n == x % n <==> n == 1 || n == 2
  {
    StepRemainder(x, n, 1);
    if n >= 2 { StepRemainder(x, n, 2); }
  }

  lemma StepRemainder(x: nat, n: nat, d: nat)
    requires 0 < d <= n
    ensures (x + d) % n == x % n <==> d == n
  {
    var q, r := x / n, x % n;
    assert x == n * q + r;
    if r + d < n {
      Bits.QuotientIs(x + d, n, q, r + d);
    } else {
      assert n * (q + 1) == n * q + n;
      Bits.QuotientIs(x + d, n, q + 1, r + d - n);
    }
  }

  /** The k-th attempt of a run goes to candidate k, counted round the list, and to candidate
      k + 1 from the first retry inside a stream on. So a retry goes to the very candidate that
      just failed exactly when there is no other, or when there are two and it is that first
      retry inside a stream. */
  lemma RetriesGoRound(env: Env, pulls: nat, candidates: nat)
    requires candidates > 0
    ensures var attempts := Whole(env, pulls).log.attempts;
            && (forall k :: 0 <= k < |attempts| ==>
                  CandidateAt(attempts[k], candidates)
                  == CandidateAt(if InGenerator(env, k) then k + 1 else k, candidates))
            && (forall k :: 0 < k < |attempts| ==>
                  (CandidateAt(attempts[k], candidates) == CandidateAt(attempts[k - 1], candidates) <==>
                   candidates == 1 || (candidates == 2 && InGenerator(env, k) && !InGenerator(env, k - 1))))
  {
    AttemptsCountUp(env, pulls);
    hide Whole, HandedOver;
    var attempts := Whole(env, pulls).log.attempts;
    forall k | 0 < k < |attempts|
      ensures CandidateAt(attempts[k], candidates) == CandidateAt(attempts[k - 1], candidates) <==>
              candidates == 1 || (candidates == 2 && InGenerator(env, k) && !InGenerator(env, k - 1))
    {
      NextRemainder(attempts[k - 1], candidates);
    }
  }

  /** Attempt number k is made by the generator, after a stream was handed over. */
  predicate InGenerator(env: Env, k: int) {
    HandedOver(env).Some? && k > HandedOver(env).value
  }

  /** The failure hook looks its candidate up by the index it is told. It blames the candidate
      that failed, except for a stream lost that was handed over before the generator took
      over: then, unless there is only one, it blames the next candidate, and finds no
      selection recorded for the attempt. */
  lemma RightCandidateIsBlamedIff(env: Env, pulls: nat, candidates: nat)
    requires candidates > 0
    ensures var log := Whole(env, pulls).log;
            forall k :: 0 <= k < |log.blamed| ==>
              var blame := log.blamed[k];
              && (CandidateAt(blame.told, candidates) == CandidateAt(blame.failed, candidates) <==>
                  candidates == 1 || HandedOver(env) != Some(blame.failed))
              && (blame.told in log.attempts <==> HandedOver(env) != Some(blame.failed))
  {
    HookIsTold(env, pulls);
    hide Whole, HandedOver;
    var log := Whole(env, pulls).log;
    forall k | 0 <= k < |log.blamed|
      ensures CandidateAt(log.blamed[k].told, candidates) == CandidateAt(log.blamed[k].failed, candidates) <==>
              candidates == 1 || HandedOver(env) != Some(log.blamed[k].failed)
    {
      NextRemainder(log.blamed[k].failed, candidates);
    }
  }
}
