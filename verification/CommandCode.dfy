/** The Command Code decoder behind the failover engine: what its streams look like to the
    consumer of src/app/recovery.ts. */
module CommandCode {
  import opened Common
  import opened StreamContract
  import opened Recovery
  import opened RecoverySafety
  import opened RetrySafety
  import opened Ndjson

  /** A decoded body as the stream the engine reads; `cut` is the error of a body that was cut
      off by an abort or by a read that failed. */
  function AsStream(output: Output, cut: Failure): nat -> StreamStep {
    (n: nat) =>
      if n < |output.events| then Emit(output.events[n])
      else if output.end.Ended? then Finished
      else Broken(if output.end.AbortSeen? then cut else Failure("provider_protocol_error", false, Absent))
  }

  /** A Command Code stream: a body decoded to its end, or as far as it came before the decoder
      saw an abort or its next read failed, with whatever error. */
  ghost predicate CommandCodeStream(events: nat -> StreamStep, json: Json) {
    exists text, cut: Failure ::
      events == AsStream(DecodeText(json, text), cut) || events == AsStream(DecodeAborted(json, text), cut)
  }

  /** No usage event comes from an attempt that answered with a Command Code stream. */
  ghost predicate NoUsage(delivered: seq<Tagged>, env: Env, json: Json) {
    forall i :: 0 <= i < |delivered| && delivered[i].event.UsageReport? ==>
      var from := env.attempt(delivered[i].attempt); !(from.Streaming? && CommandCodeStream(from.events, json))
  }

  ghost predicate AllFrom(delivered: seq<Tagged>, attempt: nat) {
    forall i :: 0 <= i < |delivered| ==> delivered[i].attempt == attempt
  }

  ghost predicate Plain(delivered: seq<Tagged>) {
    forall i :: 0 <= i < |delivered| ==> !delivered[i].event.UsageReport?
  }

  lemma LostByErrorLine(env: Env, i: nat, output: Output, cut: Failure, error: Failure)
    requires output.end.FailedLine? && env.attempt(i) == Streaming(AsStream(output, cut)) && FailsBy(env, i, error)
    ensures !error.retryable
  {
    var n: nat :| LostAt(AsStream(output, cut), n, error);
    assert AsStream(output, cut)(|output.events|) == Broken(Failure("provider_protocol_error", false, Absent));
  }

  /** A line that reports an error ends the run: under the engine's own decision, which asks
      whether an error is retryable, the attempt that read it is the last. */
  lemma ErrorLinesAreNotRetried(env: Env, json: Json, text: string, cut: Failure, pulls: nat, p: nat)
    requires forall error: Failure, n: nat :: env.shouldRetry(error, n) ==> error.retryable
    requires DecodeText(json, text).end.FailedLine? && p < |Whole(env, pulls).log.attempts|
    requires env.attempt(Whole(env, pulls).log.attempts[p]) == Streaming(AsStream(DecodeText(json, text), cut))
    ensures p == |Whole(env, pulls).log.attempts| - 1
  {
    hide Whole, DecodeText, FailsBy;
    var failed := Whole(env, pulls).log.attempts[p];
    forall error: Failure | FailsBy(env, failed, error)
      ensures !error.retryable
    {
      LostByErrorLine(env, failed, DecodeText(json, text), cut, error);
    }
    if p + 1 < |Whole(env, pulls).log.attempts| { OnlyRetryableIsRetried(env, pulls, p + 1); }
  }

  lemma {:induction false} ConsumeIsTagged(events: nat -> StreamStep, attempt: nat, pos: nat, pulls: nat)
    requires pulls > 0
    ensures AllFrom(Consume(events, attempt, pos, pulls).delivered, attempt)
    decreases pulls
  {
    if events(pos).Emit? && pulls > 1 && !IsTerminal(events(pos).event) {
      ConsumeIsTagged(events, attempt, pos + 1, pulls - 1);
    }
  }

  /** Usage is emitted right after a `message_stop`, and the engine stops reading at the
      first `message_stop`. */
  lemma {:induction false} ConsumeSkipsUsage(output: Output, cut: Failure, attempt: nat, pos: nat, pulls: nat)
    requires pulls > 0 && UsageAfterStop(output.events)
    requires 0 < pos <= |output.events| ==> !IsTerminal(output.events[pos - 1])
    ensures Plain(Consume(AsStream(output, cut), attempt, pos, pulls).delivered)
    decreases pulls
  {
    if pos < |output.events| && pulls > 1 && !IsTerminal(output.events[pos]) {
      ConsumeSkipsUsage(output, cut, attempt, pos + 1, pulls - 1);
    }
  }

  lemma PrefixKeepsUsageAfterStop(a: seq<StreamEvent>, b: seq<StreamEvent>)
    requires a <= b && UsageAfterStop(b)
    ensures UsageAfterStop(a)
  {
    assert forall i :: 0 <= i < |a| ==> a[i] == b[i];
  }

  lemma StreamSkipsUsage(env: Env, json: Json, events: nat -> StreamStep, attempt: nat, pulls: nat)
    requires pulls > 0 && env.attempt(attempt) == Streaming(events)
    ensures NoUsage(Consume(events, attempt, 0, pulls).delivered, env, json)
  {
    ConsumeIsTagged(events, attempt, 0, pulls);
    if CommandCodeStream(events, json) {
      var text, cut: Failure :|
        events == AsStream(DecodeText(json, text), cut) || events == AsStream(DecodeAborted(json, text), cut);
      hide AsStream, DecodeText, DecodeAborted, Consume;
      DecodedUsageAfterStop(json, text);
      AbortedIsPrefix(json, text, "");
      assert text + "" == text;
      PrefixKeepsUsageAfterStop(DecodeAborted(json, text).events, DecodeText(json, text).events);
      if events == AsStream(DecodeText(json, text), cut) {
        ConsumeSkipsUsage(DecodeText(json, text), cut, attempt, 0, pulls);
      } else {
        ConsumeSkipsUsage(DecodeAborted(json, text), cut, attempt, 0, pulls);
      }
      hide CommandCodeStream;
    }
  }

  lemma NoUsageJoins(a: seq<Tagged>, b: seq<Tagged>, env: Env, json: Json)
    requires NoUsage(a, env, json) && NoUsage(b, env, json)
    ensures NoUsage(a + b, env, json) && NoUsage([], env, json) && [] + b == b
  {
    hide CommandCodeStream;
  }

  lemma TurnSkipsUsage(env: Env, json: Json, at: Spot)
    requires Fits(env, at) && FromAttempt(env, at)
    ensures NoUsage(TurnOf(env, at).log.delivered, env, json)
    ensures TurnOf(env, at).Continue? ==> FromAttempt(env, TurnOf(env, at).next)
  {
    if at.phase.Reading? { StreamSkipsUsage(env, json, at.phase.events, at.phase.attempt, at.pulls); }
    hide Consume, Judge, CommandCodeStream;
  }

  lemma {:induction false} DriveSkipsUsage(env: Env, json: Json, at: Spot)
    requires Fits(env, at) && FromAttempt(env, at)
    ensures NoUsage(Drive(env, at).log.delivered, env, json)
    decreases env.maxAttempts - at.index, Rank(at.phase)
  {
    var turn := TurnOf(env, at);
    TurnSkipsUsage(env, json, at);
    hide TurnOf, NoUsage;
    if turn.Continue? {
      DriveSkipsUsage(env, json, turn.next);
      NoUsageJoins(turn.log.delivered, Drive(env, turn.next).log.delivered, env, json);
    }
  }

  /** Composition of decoder and engine: in any run, with whatever other providers among its
      attempts, the usage a Command Code stream reports never reaches the consumer. */
  lemma UsageNeverReachesConsumer(env: Env, json: Json, pulls: nat)
    ensures NoUsage(Whole(env, pulls).log.delivered, env, json)
  {
    CallLeavesLittle(env, 0);
    CallStreamIsAttempts(env, 0);
    hide Call, Drive, CommandCodeStream;
    var call := Call(env, 0);
    if call.outcome.CallStreaming? && pulls > 0 {
      var at := Opened(call.outcome, pulls);
      DriveSkipsUsage(env, json, at);
      NoUsageJoins(call.log.delivered, Drive(env, at).log.delivered, env, json);
    }
  }
}
