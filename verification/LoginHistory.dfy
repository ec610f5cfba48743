/** What moves an interactive login from one status to the next (src/auth/oauth-sessions.ts):
    each change of status, each poll and each exchange has its reason, at every step and over
    whole runs. */
module LoginHistory {
  import opened Common
  import opened OAuthSessions

  /** The session takes this status in the step. */
  ghost predicate Takes(s: State, t: State, session: nat, status: Status) {
    && session in s.records && session in t.records
    && s.records[session].status != status && t.records[session].status == status
  }

  /** A poll of the session returned this, or threw. */
  ghost predicate Polled(s: State, step: Step, session: nat, reply: PollReply) {
    step.EndPoll? && step.call in s.pending && s.pending[step.call] == Polling(session) && step.reply == reply
  }

  /** The exchange of the session's code returned a token set, or threw. */
  ghost predicate Exchanged(s: State, step: Step, session: nat, ok: bool) {
    step.EndExchange? && step.call in s.pending && s.pending[step.call] == Exchange(session) && step.ok == ok
  }

  /** Somebody asks for, or polls, a listed login that has run out. */
  ghost predicate FoundLate(s: State, step: Step, session: nat) {
    && (step.Get? || step.BeginPoll?) && step.session == session
    && session in s.listed && session in s.records && step.now >= s.records[session].expires
  }

  /** A callback reaches a listed login that still waits for its user. */
  ghost predicate CalledBack(s: State, step: Step, session: nat) {
    && step.BeginComplete? && step.session == session && session in s.listed && session in s.records
    && step.now < s.records[session].expires && s.records[session].status == Waiting
  }

  /** The callback carries a code and the login's own one-time state, which is still good for
      its provider. */
  ghost predicate Authorised(s: State, step: Step, session: nat) {
    && CalledBack(s, step, session)
    && step.callback.error == None && step.callback.state == Some(s.records[session].state)
    && step.callback.code.Some? && step.callback.code.value != [] && step.exchangeable
    && s.records[session].state in s.store.states
    && s.store.states[s.records[session].state].provider == s.records[session].provider
    && step.now < s.store.states[s.records[session].state].expires
  }

  lemma BothKeepStore(s: State, call: nat, session: nat)
    requires session in s.records
    ensures SetStatus(s, session, Failed).store == s.store && BeginExchange(s, call, session).store == s.store
    ensures s.(store := s.store) == s
  {
  }

  lemma CompletionOfWaiting(s: State, step: Step, consumed: (bool, Store))
    requires step.BeginComplete? && CalledBack(s, step, step.session)
    requires consumed == Consume(s.store, s.records[step.session].state, s.records[step.session].provider, step.now)
    ensures CompleteOf(s, step.call, step.session, step.callback, step.exchangeable, step.now) ==
              if step.callback.error.Some? || step.callback.state != Some(s.records[step.session].state) then
                SetStatus(s, step.session, Failed)
              else if !consumed.0 || step.callback.code.None? || step.callback.code.value == []
                      || !step.exchangeable then
                SetStatus(s.(store := consumed.1), step.session, Failed)
              else BeginExchange(s.(store := consumed.1), step.call, step.session)
  {
    hide Consume, SetStatus, BeginExchange, WithoutKey;
  }

  lemma AuthorisedIs(limits: Limits, s: State, step: Step, consumed: (bool, Store))
    requires StoreOk(limits, s.store) && step.BeginComplete? && CalledBack(s, step, step.session)
    requires consumed == Consume(s.store, s.records[step.session].state, s.records[step.session].provider, step.now)
    ensures Authorised(s, step, step.session) <==>
              step.callback.error.None? && step.callback.state == Some(s.records[step.session].state)
              && consumed.0 && step.callback.code.Some? && step.callback.code.value != [] && step.exchangeable
  {
    var record := s.records[step.session];
    StatesWorkOnce(limits, s.store, record.state, record.provider, step.now, step.now);
    hide Consume, StoreOk;
  }

  lemma NotCalledBack(s: State, step: Step)
    requires step.BeginComplete? && !CalledBack(s, step, step.session)
    ensures var t := CompleteOf(s, step.call, step.session, step.callback, step.exchangeable, step.now);
            t == s.(listed := t.listed)
  {
    hide Consume, SetStatus, BeginExchange, WithoutKey;
  }

  /** What a callback does, by case. */
  lemma CompletionIs(limits: Limits, s: State, step: Step)
    requires StoreOk(limits, s.store) && step.BeginComplete?
    ensures var t := CompleteOf(s, step.call, step.session, step.callback, step.exchangeable, step.now);
            var u := s.(store := t.store);
            if CalledBack(s, step, step.session) then
              t == if Authorised(s, step, step.session) then BeginExchange(u, step.call, step.session)
                   else SetStatus(u, step.session, Failed)
            else t == s.(listed := t.listed)
  {
    if !CalledBack(s, step, step.session) {
      NotCalledBack(s, step);
    } else {
      var consumed := Consume(s.store, s.records[step.session].state, s.records[step.session].provider, step.now);
      hide Consume, CompleteOf, SetStatus, BeginExchange, StoreOk, Authorised, CalledBack;
      CompletionOfWaiting(s, step, consumed);
      AuthorisedIs(limits, s, step, consumed);
      BothKeepStore(s, step.call, step.session);
      BothKeepStore(s.(store := consumed.1), step.call, step.session);
    }
  }

  lemma CallbackMoves(limits: Limits, s: State, step: Step, session: nat)
    requires StoreOk(limits, s.store) && Enabled(s, step) && step.BeginComplete? && session in s.records
    ensures var t := Apply(limits, s, step);
            && session in t.records
            && t.records[session] == s.records[session].(status :=
                 if !CalledBack(s, step, session) then s.records[session].status
                 else if Authorised(s, step, session) then Exchanging else Failed)
  {
    CompletionIs(limits, s, step);
    hide CompleteOf, StoreOk, Add;
  }

  lemma OtherStatus(limits: Limits, s: State, step: Step, session: nat)
    requires Enabled(s, step) && !step.BeginComplete? && session in s.records
    ensures var t := Apply(limits, s, step);
            && session in t.records
            && t.records[session].status ==
                 if step == Cancel(session) && session in s.listed && s.records[session].status == Waiting then
                   Cancelled
                 else if FoundLate(s, step, session) || Polled(s, step, session, Lapsed) then Expired
                 else if Polled(s, step, session, Ready) || Exchanged(s, step, session, true) then Completed
                 else if Polled(s, step, session, Refused) || Exchanged(s, step, session, false) then Failed
                 else s.records[session].status
  {
    hide Reserve, Consume, Unexpired, Shrink, WithoutKey;
  }

  lemma OtherMoves(limits: Limits, s: State, step: Step, session: nat)
    requires Enabled(s, step) && !step.BeginComplete? && session in s.records
    ensures var t := Apply(limits, s, step);
            && session in t.records
            && (Takes(s, t, session, Cancelled) <==>
                  step == Cancel(session) && session in s.listed && s.records[session].status == Waiting)
            && (Takes(s, t, session, Expired) <==>
                  (s.records[session].status != Expired
                   && (FoundLate(s, step, session) || Polled(s, step, session, Lapsed))))
            && (Takes(s, t, session, Completed) <==>
                  (s.records[session].status != Completed
                   && (Polled(s, step, session, Ready) || Exchanged(s, step, session, true))))
            && (Takes(s, t, session, Failed) <==>
                  (s.records[session].status != Failed
                   && (Polled(s, step, session, Refused) || Exchanged(s, step, session, false))))
            && !Takes(s, t, session, Exchanging) && !Takes(s, t, session, Waiting)
  {
    OtherStatus(limits, s, step, session);
    hide Apply;
  }

  /** A login is cancelled only while it waits, expires only when asked for after its time or
      when its provider says so, completes only when its own poll or exchange brings a token
      set, and fails only by these or by a callback that may not begin an exchange; and each
      of these causes has its effect. */
  lemma StatusHasItsReason(limits: Limits, s: State, step: Step, session: nat)
    requires StoreOk(limits, s.store) && Enabled(s, step) && session in s.records
    ensures var t := Apply(limits, s, step);
            var status := s.records[session].status;
            && session in t.records
            && (Takes(s, t, session, Cancelled) <==>
                  step == Cancel(session) && session in s.listed && status == Waiting)
            && (Takes(s, t, session, Expired) <==>
                  (status != Expired
                   && (FoundLate(s, step, session) || Polled(s, step, session, Lapsed))))
            && (Takes(s, t, session, Completed) <==>
                  (status != Completed
                   && (Polled(s, step, session, Ready) || Exchanged(s, step, session, true))))
            && (Takes(s, t, session, Exchanging) <==> Authorised(s, step, session))
            && (Takes(s, t, session, Failed) <==>
                  (status != Failed
                   && (Polled(s, step, session, Refused) || Exchanged(s, step, session, false)
                   || (CalledBack(s, step, session) && !Authorised(s, step, session)))))
            && !Takes(s, t, session, Waiting)
  {
    hide Apply, StoreOk;
    if step.BeginComplete? {
      CallbackMoves(limits, s, step, session);
    } else {
      OtherMoves(limits, s, step, session);
    }
  }

  /** Nothing but its status and its token set ever changes on a login; the token set comes
      with the answer that completes it and is never lost. */
  lemma RecordIsKept(limits: Limits, s: State, step: Step, session: nat)
    requires StoreOk(limits, s.store) && Enabled(s, step) && session in s.records
    ensures var t := Apply(limits, s, step);
            && session in t.records
            && t.records[session].(status := Waiting, hasToken := false) ==
                 s.records[session].(status := Waiting, hasToken := false)
            && (t.records[session].hasToken <==>
                  (s.records[session].hasToken
                   || Polled(s, step, session, Ready) || Exchanged(s, step, session, true)))
  {
    if step.BeginComplete? {
      hide Apply, StoreOk;
      CallbackMoves(limits, s, step, session);
    } else {
      hide Reserve, Consume, Unexpired, Shrink, WithoutKey;
    }
  }

  /** A new login waits for its user, without a token set, until the earlier of what its
      provider and the manager allow. */
  lemma StartBegins(limits: Limits, s: State, step: Step)
    requires step.Start? && Enabled(s, step)
    ensures var t := Apply(limits, s, step);
            && step.session in t.listed && step.session in t.records
            && var record := t.records[step.session];
            && (record.provider, record.state, record.created) == (step.provider, step.state, step.now)
            && record.status == Waiting && !record.hasToken
            && record.expires <= step.driverExpires && record.expires <= step.now + limits.ttl
            && (record.expires == step.driverExpires || record.expires == step.now + limits.ttl)
            && t.pending == s.pending && t.exchanges == s.exchanges
            && (forall id :: id in s.records && id != step.session ==>
                  id in t.records && t.records[id] == s.records[id])
  {
    hide Reserve, Unexpired, Shrink;
    var t := Apply(limits, s, step);
    assert t.listed[|t.listed| - 1] == step.session;
  }

  /** Starting a login unlists every expired one, then the oldest of the rest, exactly as many
      as the limit asks for, and lists nothing else anew. */
  lemma StartMakesRoom(limits: Limits, s: State, step: Step) returns (alive: set<nat>, left: seq<nat>)
    requires step.Start? && Enabled(s, step) && forall id :: id in s.listed ==> id in s.records
    ensures Apply(limits, s, step).listed == left + [step.session] && |left| < limits.maxSessions
    ensures forall id :: id in alive <==> id in s.listed && s.records[id].expires > step.now
    ensures forall id :: id in left ==> id in alive
    ensures |left| < limits.maxSessions - 1 ==> forall id :: id in alive ==> id in left
    ensures forall gone, kept :: gone in alive && gone !in left && kept in left ==>
              s.records[gone].created <= s.records[kept].created
  {
    var order := Unexpired(s.listed, ExpiresOf(s.records, step.now), step.now);
    var created := CreatedOf(s.records);
    alive := set id | id in order;
    left := Shrink(order, created, limits.maxSessions);
    assert forall id :: id in order <==> id in s.listed && s.records[id].expires > step.now;
    hide Unexpired;
    ShrinkDropsOldest(order, created, limits.maxSessions);
    assert Apply(limits, s, step).listed == left + [step.session];
    hide Apply;
    if |left| < limits.maxSessions - 1 {
      assert left == order;
    }
    hide Shrink;
    forall gone, kept | gone in alive && gone !in left && kept in left
      ensures s.records[gone].created <= s.records[kept].created
    {
      assert created(gone) <= created(kept);
    }
  }

  /** A poll goes out exactly for a listed login, in time and waiting, whose provider can be
      polled; a code exchange exactly on an authorised callback. Each ends with its answer. */
  lemma CallsHaveTheirReason(limits: Limits, s: State, step: Step, call: nat, session: nat)
    requires StoreOk(limits, s.store) && Enabled(s, step)
    ensures var t := Apply(limits, s, step);
            && (call in t.pending && t.pending[call] == Polling(session) <==>
                  if call in s.pending then s.pending[call] == Polling(session) && !Answers(step, call)
                  else && step.BeginPoll? && step.call == call && step.session == session && step.pollable
                       && session in s.listed && session in s.records && step.now < s.records[session].expires
                       && s.records[session].status == Waiting)
            && (call in t.pending && t.pending[call] == Exchange(session) <==>
                  if call in s.pending then s.pending[call] == Exchange(session) && !Answers(step, call)
                  else step.BeginComplete? && step.call == call && Authorised(s, step, session))
  {
    if step.BeginComplete? {
      CompletionCalls(limits, s, step, call, session);
    } else {
      hide Reserve, Consume, Unexpired, Shrink, WithoutKey;
    }
  }

  predicate Answers(step: Step, call: nat) {
    (step.EndPoll? || step.EndExchange?) && step.call == call
  }

  lemma CompletionCalls(limits: Limits, s: State, step: Step, call: nat, session: nat)
    requires StoreOk(limits, s.store) && Enabled(s, step) && step.BeginComplete?
    ensures Apply(limits, s, step).pending ==
              if Authorised(s, step, step.session) then s.pending[step.call := Exchange(step.session)] else s.pending
  {
    CompletionIs(limits, s, step);
    hide CompleteOf, StoreOk, Add, Authorised, CalledBack;
  }

  /** A callback that comes too late takes the login off the list, and changes nothing else. */
  lemma LateCallbackUnlists(limits: Limits, s: State, step: Step)
    requires Enabled(s, step) && step.BeginComplete? && step.session in s.listed && step.session in s.records
    requires step.now >= s.records[step.session].expires
    ensures var t := Apply(limits, s, step);
            && t == s.(listed := t.listed)
            && forall id :: id in t.listed <==> id in s.listed && id != step.session
  {
  }

  // ------------------------------------------------------------ over whole runs

  lemma {:induction false} RunSplits(limits: Limits, s: State, steps: seq<Step>, i: nat)
    requires i < |steps|
    ensures var u := if Enabled(s, steps[0]) then Apply(limits, s, steps[0]) else s;
            Run(limits, s, steps) == Run(limits, u, steps[1..])
            && (i > 0 ==> Run(limits, s, steps[..i]) == Run(limits, u, steps[1..][..i - 1]))
  {
    hide Apply, Enabled;
    if i > 0 { assert steps[..i][1..] == steps[1..][..i - 1]; }
  }

  lemma OneMoreExchange(limits: Limits, s: State, step: Step, session: nat)
    requires StoreOk(limits, s.store) && Enabled(s, step)
    ensures Tally(Apply(limits, s, step).exchanges, session) ==
              Tally(s.exchanges, session) + if Authorised(s, step, session) then 1 else 0
  {
    if step.BeginComplete? {
      CompletionIs(limits, s, step);
      hide CompleteOf, StoreOk;
    } else {
      hide Reserve, Consume, Unexpired, Shrink, WithoutKey;
    }
  }

  /** No code is exchanged unasked: over every run, a login whose code was exchanged had an
      authorised callback, at a moment when it was listed, in time and waiting. */
  lemma {:induction false} ExchangesWereAuthorised(limits: Limits, s: State, steps: seq<Step>, session: nat)
      returns (i: nat)
    requires StoreOk(limits, s.store) && SessionsOk(limits, s)
    requires Tally(Run(limits, s, steps).exchanges, session) > Tally(s.exchanges, session)
    ensures i < |steps| && Authorised(Run(limits, s, steps[..i]), steps[i], session)
    decreases |steps|
  {
    hide StoreOk, SessionsOk, Apply, Authorised;
    assert steps != [];
    if Enabled(s, steps[0]) {
      StepKeeps(limits, s, steps[0]);
      OneMoreExchange(limits, s, steps[0], session);
    }
    if Enabled(s, steps[0]) && Authorised(s, steps[0], session) {
      i := 0;
      assert steps[..0] == [];
    } else {
      var u := if Enabled(s, steps[0]) then Apply(limits, s, steps[0]) else s;
      var j := ExchangesWereAuthorised(limits, u, steps[1..], session);
      i := j + 1;
      RunSplits(limits, s, steps, i);
      assert Run(limits, s, steps[..i]) == Run(limits, u, steps[1..][..j]);
    }
  }

  /** Every token set was asked for: over every run, a login that has one got it from a poll
      or an exchange of its own, at a step of the run. */
  lemma {:induction false} TokensWereAnswered(limits: Limits, s: State, steps: seq<Step>, session: nat)
      returns (i: nat)
    requires StoreOk(limits, s.store) && SessionsOk(limits, s)
    requires session in s.records ==> !s.records[session].hasToken
    requires session in Run(limits, s, steps).records && Run(limits, s, steps).records[session].hasToken
    ensures i < |steps|
    ensures var u := Run(limits, s, steps[..i]);
            Polled(u, steps[i], session, Ready) || Exchanged(u, steps[i], session, true)
    decreases |steps|
  {
    assert steps != [];
    hide StoreOk, SessionsOk, Apply, Polled, Exchanged;
    var u := OneStepToken(limits, s, steps[0], session);
    if session in u.records && u.records[session].hasToken {
      i := 0;
      assert steps[..0] == [];
    } else {
      var j := TokensWereAnswered(limits, u, steps[1..], session);
      i := j + 1;
      RunSplits(limits, s, steps, i);
      assert Run(limits, s, steps[..i]) == Run(limits, u, steps[1..][..j]);
    }
  }

  lemma OneStepToken(limits: Limits, s: State, step: Step, session: nat) returns (u: State)
    requires StoreOk(limits, s.store) && SessionsOk(limits, s)
    requires session in s.records ==> !s.records[session].hasToken
    ensures u == if Enabled(s, step) then Apply(limits, s, step) else s
    ensures StoreOk(limits, u.store) && SessionsOk(limits, u)
    ensures session in u.records && u.records[session].hasToken ==>
              Polled(s, step, session, Ready) || Exchanged(s, step, session, true)
  {
    hide StoreOk, SessionsOk, Apply, Polled, Exchanged;
    u := s;
    if Enabled(s, step) {
      u := Apply(limits, s, step);
      StepKeeps(limits, s, step);
      if session in s.records {
        RecordIsKept(limits, s, step, session);
      } else {
        NewHasNoToken(limits, s, step, session);
      }
    }
  }

  lemma NewHasNoToken(limits: Limits, s: State, step: Step, session: nat)
    requires Enabled(s, step) && session !in s.records
    ensures var t := Apply(limits, s, step); session in t.records ==> !t.records[session].hasToken
  {
    hide Reserve, Consume, Unexpired, Shrink, WithoutKey;
  }
}
