/** Where tokens come from: over every run of the refresh coordinator, what calls, refreshes,
    the token store and leases owe to the answers of the outside. */
module OAuthHistory {
  import opened Common
  import opened OAuth

  // ------------------------------------------------------------ expiry

  /** A stored token that is used as it is: it never expires, or not within the margin, or it
      could not be refreshed anyway. */
  predicate StillGood(token: Token, nowMs: int, skewMs: int) {
    match token.expiresAtMs
    case None => true
    case Some(end) => end > nowMs + skewMs || token.refreshToken == None
  }

  lemma {:induction false} RunAppends(s: State, a: seq<Step>, last: Step)
    ensures Run(s, a + [last]) == var t := Run(s, a); if Enabled(t, last) then Apply(t, last) else t
    decreases |a|
  {
    if a == [] {
      assert a + [last] == [last] && [last][1..] == [];
    } else {
      assert (a + [last])[1..] == a[1..] + [last] && (a + [last])[0] == a[0];
      hide Apply, Enabled;
      RunAppends(if Enabled(s, a[0]) then Apply(s, a[0]) else s, a[1..], last);
    }
  }

  /** The call waits for `q`, the one open refresh of its account. */
  ghost predicate WaitsForTheOne(t: State, call: nat, account: Account, q: nat) {
    && call in t.callers && t.callers[call] == Waiting(account, q)
    && q in t.refreshes && t.refreshes[q].account == account && Open(t.refreshes[q])
    && forall p :: p in t.refreshes && t.refreshes[p].account == account && Open(t.refreshes[p]) ==> p == q
  }

  /** In every run, a call that reads the store goes on in one of three ways: with the stored
      token while that is still good; or else with the refresh of its account that is open
      already, if there is one; or else with a refresh it starts. */
  lemma ResumeTakesItsTurn(before: seq<Step>, call: nat, cached: Option<Token>, nowMs: int, skewMs: int,
                           newRefresh: nat)
    requires Enabled(Run(START, before), Resume(call, cached, nowMs, skewMs, newRefresh))
    ensures var s := Run(START, before);
            var t := Run(START, before + [Resume(call, cached, nowMs, skewMs, newRefresh)]);
            var account := s.callers[call].account;
            if cached.Some? && StillGood(cached.value, nowMs, skewMs) then
              t.callers == s.callers[call := UsedCached(account, cached.value)] && t.refreshes == s.refreshes
            else if exists p :: p in s.refreshes && s.refreshes[p].account == account && Open(s.refreshes[p]) then
              t.refreshes == s.refreshes && exists q :: WaitsForTheOne(t, call, account, q)
            else
              && t.refreshes == s.refreshes[newRefresh := Refresh(account, Refreshing)]
              && WaitsForTheOne(t, call, account, newRefresh)
  {
    var s, step := Run(START, before), Resume(call, cached, nowMs, skewMs, newRefresh);
    StartHoldsInv();
    RunKeepsInv(START, before);
    RunAppends(START, before, step);
    assert Run(START, before + [step]) == ResumeOf(s, call, cached, nowMs, skewMs, newRefresh);
    hide Run, CallersJoin, Counted, ReleasedOnce;
    ResumeInState(s, call, cached, nowMs, skewMs, newRefresh);
  }

  lemma ResumeInState(s: State, call: nat, cached: Option<Token>, nowMs: int, skewMs: int, newRefresh: nat)
    requires SingleFlight(s) && Enabled(s, Resume(call, cached, nowMs, skewMs, newRefresh))
    ensures var t := ResumeOf(s, call, cached, nowMs, skewMs, newRefresh);
            var account := s.callers[call].account;
            if cached.Some? && StillGood(cached.value, nowMs, skewMs) then
              t.callers == s.callers[call := UsedCached(account, cached.value)] && t.refreshes == s.refreshes
            else if exists p :: p in s.refreshes && s.refreshes[p].account == account && Open(s.refreshes[p]) then
              t.refreshes == s.refreshes && exists q :: WaitsForTheOne(t, call, account, q)
            else
              && t.refreshes == s.refreshes[newRefresh := Refresh(account, Refreshing)]
              && WaitsForTheOne(t, call, account, newRefresh)
  {
    hide SameLeases;
    RefreshStarts(s, call, cached, nowMs, skewMs, newRefresh);
    var t, account := ResumeOf(s, call, cached, nowMs, skewMs, newRefresh), s.callers[call].account;
    if account in t.inflight && t.callers[call].Waiting? {
      assert WaitsForTheOne(t, call, account, t.inflight[account]);
    }
  }

  // ------------------------------------------------------------ causes

  /** The call read this token from the store while it was good. */
  ghost predicate ReadGood(history: seq<Step>, call: nat, token: Token) {
    exists nowMs, skewMs, newRefresh ::
      Resume(call, Some(token), nowMs, skewMs, newRefresh) in history && StillGood(token, nowMs, skewMs)
  }

  ghost predicate CallersCaused(s: State, history: seq<Step>) {
    && (forall c :: c in s.callers && s.callers[c].UsedCached? ==> ReadGood(history, c, s.callers[c].token))
    && (forall c :: c in s.callers ==> Call(c, s.callers[c].account) in history)
  }

  /** What the refresher and the token store replied is what a refresh holds. */
  ghost predicate PhaseCaused(history: seq<Step>, r: nat, phase: Phase) {
    match phase
    case Refreshing => true
    case Storing(token) => RefresherReplies(r, Fresh(token)) in history
    case Settled(Fresh(token), _) =>
      RefresherReplies(r, Fresh(token)) in history && StoreReplies(r, None) in history
    case Settled(Failed(error), _) =>
      RefresherReplies(r, Failed(error)) in history || StoreReplies(r, Some(error)) in history
  }

  ghost predicate RefreshesCaused(s: State, history: seq<Step>) {
    forall r :: r in s.refreshes ==> PhaseCaused(history, r, s.refreshes[r].phase)
  }

  /** A refresh of the account brought this token. */
  ghost predicate BroughtBy(s: State, account: Account, token: Token, r: nat) {
    r in s.refreshes && s.refreshes[r].account == account && s.refreshes[r].phase.Settled?
    && s.refreshes[r].phase.outcome == Fresh(token)
  }

  ghost predicate StoreCaused(s: State) {
    && (forall a :: a in s.store ==> exists r :: BroughtBy(s, a, s.store[a], r))
    && (forall r :: r in s.refreshes && s.refreshes[r].phase.Settled? && s.refreshes[r].phase.outcome.Fresh? ==>
          s.refreshes[r].account in s.store)
  }

  ghost predicate LeaseTaken(s: State, history: seq<Step>, lease: nat, account: Account) {
    exists c :: Lease(c, lease) in history && c in s.callers && s.callers[c].account == account
  }

  ghost predicate LeasesCaused(s: State, history: seq<Step>) {
    forall l :: l in s.leases ==> LeaseTaken(s, history, l, s.leases[l])
  }

  /** What a step can do to the calls. */
  ghost predicate CallMoves(s: State, t: State, step: Step, c: nat)
    requires c in t.callers
  {
    || (c in s.callers && t.callers[c] == s.callers[c])
    || (step.Call? && step == Call(c, t.callers[c].account) && t.callers[c].Reading?)
    || (c in s.callers && t.callers[c].account == s.callers[c].account
        && (t.callers[c].UsedCached? ==>
              && step.Resume? && step.call == c && step.cached == Some(t.callers[c].token)
              && StillGood(t.callers[c].token, step.nowMs, step.skewMs)))
  }

  lemma CallersMove(s: State, step: Step)
    requires Enabled(s, step)
    ensures forall c :: c in Apply(s, step).callers ==> CallMoves(s, Apply(s, step), step, c)
    ensures s.callers.Keys <= Apply(s, step).callers.Keys
  {
    hide SameLeases;
    match step
    case Call(_, _) =>
    case Resume(_, _, _, _, _) =>
    case Deliver(_) =>
    case _ =>
      OthersKeepCallers(s, step);
      hide Apply;
  }

  lemma CallersStayCaused(s: State, history: seq<Step>, step: Step)
    requires CallersCaused(s, history) && Enabled(s, step)
    ensures CallersCaused(Apply(s, step), history + [step])
    ensures var t := Apply(s, step);
            forall c :: c in s.callers ==> c in t.callers && t.callers[c].account == s.callers[c].account
  {
    var t, longer := Apply(s, step), history + [step];
    CallersMove(s, step);
    assert step in longer;
    hide Apply, Enabled;
    forall c | c in s.callers
      ensures c in t.callers && t.callers[c].account == s.callers[c].account
    {
      assert CallMoves(s, t, step, c);
      assert Call(c, s.callers[c].account) in history;
    }
    forall c | c in t.callers
      ensures t.callers[c].UsedCached? ==> ReadGood(longer, c, t.callers[c].token)
      ensures Call(c, t.callers[c].account) in longer
    {
      assert CallMoves(s, t, step, c);
      if c in s.callers && s.callers[c] == t.callers[c] && t.callers[c].UsedCached? {
        ReadGoodStays(history, step, c, t.callers[c].token);
      }
    }
    hide ReadGood, CallMoves;
  }

  lemma ReadGoodStays(history: seq<Step>, step: Step, call: nat, token: Token)
    requires ReadGood(history, call, token)
    ensures ReadGood(history + [step], call, token)
  {
    var nowMs, skewMs, newRefresh :|
      Resume(call, Some(token), nowMs, skewMs, newRefresh) in history && StillGood(token, nowMs, skewMs);
    assert Resume(call, Some(token), nowMs, skewMs, newRefresh) in history + [step];
  }

  lemma PhaseStaysCaused(history: seq<Step>, step: Step, r: nat, phase: Phase)
    requires PhaseCaused(history, r, phase)
    ensures PhaseCaused(history + [step], r, phase)
  {
  }

  /** What a step can do to a refresh. */
  ghost predicate PhaseMoves(s: State, t: State, step: Step, r: nat)
    requires r in t.refreshes
  {
    var phase := t.refreshes[r].phase;
    || (r in s.refreshes && phase == s.refreshes[r].phase)
    || (r !in s.refreshes && phase.Refreshing?)
    || (step == RefresherReplies(r, if phase.Storing? then Fresh(phase.token)
                                    else if phase.Settled? then phase.outcome else Failed(""))
        && (phase.Storing? || (phase.Settled? && phase.outcome.Failed?)))
    || (r in s.refreshes && s.refreshes[r].phase.Storing? && phase.Settled? && step.StoreReplies? && step.refresh == r
        && match phase.outcome
           case Fresh(token) => step.error == None && token == s.refreshes[r].phase.token
           case Failed(e) => step.error == Some(e))
    || (r in s.refreshes && s.refreshes[r].phase.Settled? && phase.Settled?
        && phase.outcome == s.refreshes[r].phase.outcome)
  }

  lemma PhasesMove(s: State, step: Step)
    requires Enabled(s, step)
    ensures forall r :: r in Apply(s, step).refreshes ==> PhaseMoves(s, Apply(s, step), step, r)
  {
    hide SameLeases;
    match step
    case Resume(_, _, _, _, _) =>
    case RefresherReplies(_, _) =>
    case StoreReplies(_, _) =>
    case HandlersRun(_) =>
    case _ =>
      OthersKeepRefreshes(s, step);
      hide Apply;
  }

  lemma RefreshesStayCaused(s: State, history: seq<Step>, step: Step)
    requires RefreshesCaused(s, history) && Enabled(s, step)
    ensures RefreshesCaused(Apply(s, step), history + [step])
  {
    var t := Apply(s, step);
    PhasesMove(s, step);
    hide Apply, Enabled;
    forall r | r in t.refreshes
      ensures PhaseCaused(history + [step], r, t.refreshes[r].phase)
    {
      assert PhaseMoves(s, t, step, r);
      if r in s.refreshes { PhaseStaysCaused(history, step, r, s.refreshes[r].phase); }
      assert step in history + [step];
    }
    hide PhaseCaused, PhaseMoves;
  }

  lemma StoreStaysCaused(s: State, step: Step)
    requires StoreCaused(s) && Enabled(s, step)
    ensures StoreCaused(Apply(s, step))
  {
    var t := Apply(s, step);
    StepsKeepOutcomes(s, step);
    StoreMoves(s, step);
    PhasesMove(s, step);
    if step.StoreReplies? { assert step.refresh in s.refreshes; }
    hide Apply, Enabled;
    forall a | a in t.store
      ensures exists r :: BroughtBy(t, a, t.store[a], r)
    {
      if step.StoreReplies? && step.error.None? && s.refreshes[step.refresh].account == a {
        assert BroughtBy(t, a, t.store[a], step.refresh);
      } else {
        var r :| BroughtBy(s, a, s.store[a], r);
        assert BroughtBy(t, a, t.store[a], r);
      }
    }
    forall r | r in t.refreshes && t.refreshes[r].phase.Settled? && t.refreshes[r].phase.outcome.Fresh?
      ensures t.refreshes[r].account in t.store
    {
      assert PhaseMoves(s, t, step, r);
    }
    hide OutcomesStay, BroughtBy;
  }

  lemma StoreMoves(s: State, step: Step)
    requires Enabled(s, step)
    ensures var t := Apply(s, step);
            if step.StoreReplies? && step.error.None? then
              var account, token := s.refreshes[step.refresh].account, s.refreshes[step.refresh].phase.token;
              t.store == s.store[account := token] && BroughtBy(t, account, token, step.refresh)
            else t.store == s.store
  {
    hide SameLeases;
  }

  lemma LeasesStayCaused(s: State, history: seq<Step>, step: Step)
    requires LeasesCaused(s, history) && CallersCaused(s, history) && Enabled(s, step)
    ensures LeasesCaused(Apply(s, step), history + [step])
  {
    var t, longer := Apply(s, step), history + [step];
    CallersStayCaused(s, history, step);
    if !step.Lease? && !(step.Release? && step.lease in s.leases) { OthersKeepLeases(s, step); }
    hide CallersCaused;
    forall l | l in t.leases
      ensures LeaseTaken(t, longer, l, t.leases[l])
    {
      if step.Lease? && step.lease == l {
        assert step in longer && step == Lease(step.call, l);
      } else {
        assert l in s.leases && t.leases[l] == s.leases[l];
        var c :| Lease(c, l) in history && c in s.callers && s.callers[c].account == s.leases[l];
        assert Lease(c, l) in longer;
      }
    }
  }

  ghost predicate Caused(s: State, history: seq<Step>) {
    CallersCaused(s, history) && RefreshesCaused(s, history) && StoreCaused(s) && LeasesCaused(s, history)
  }

  lemma {:induction false} RunIsCaused(steps: seq<Step>)
    ensures Caused(Run(START, steps), steps)
    decreases |steps|
  {
    if steps == [] {
      return;
    }
    var before, last := steps[..|steps| - 1], steps[|steps| - 1];
    assert steps == before + [last];
    RunIsCaused(before);
    RunAppends(START, before, last);
    var s := Run(START, before);
    hide Run;
    if Enabled(s, last) {
      CallersStayCaused(s, before, last);
      RefreshesStayCaused(s, before, last);
      StoreStaysCaused(s, last);
      LeasesStayCaused(s, before, last);
    } else {
      CausedStays(s, before, last);
    }
  }

  lemma CausedStays(s: State, history: seq<Step>, step: Step)
    requires Caused(s, history)
    ensures Caused(s, history + [step])
  {
    var longer := history + [step];
    forall c | c in s.callers && s.callers[c].UsedCached?
      ensures ReadGood(longer, c, s.callers[c].token)
    {
      ReadGoodStays(history, step, c, s.callers[c].token);
    }
    forall r | r in s.refreshes
      ensures PhaseCaused(longer, r, s.refreshes[r].phase)
    {
      PhaseStaysCaused(history, step, r, s.refreshes[r].phase);
    }
    forall l | l in s.leases
      ensures LeaseTaken(s, longer, l, s.leases[l])
    {
      var c :| Lease(c, l) in history && c in s.callers && s.callers[c].account == s.leases[l];
      assert Lease(c, l) in longer;
    }
    hide ReadGood, PhaseCaused, LeaseTaken;
  }

  /** In every run, a call that ended with the stored token read it while it was still good. */
  lemma CachedTokensWereGood(steps: seq<Step>, call: nat)
    requires call in Run(START, steps).callers && Run(START, steps).callers[call].UsedCached?
    ensures ReadGood(steps, call, Run(START, steps).callers[call].token)
  {
    RunIsCaused(steps);
  }

  /** In every run, a call that joined a refresh holds what that refresh's refresher replied,
      stored before anyone got it, or the error that the refresher or the store replied; and
      the store holds for each account a token one of its refreshes brought. */
  lemma OutcomesHaveCauses(steps: seq<Step>)
    ensures var s := Run(START, steps);
            && (forall c :: c in s.callers && s.callers[c].Joined? ==>
                  PhaseCaused(steps, s.callers[c].refresh, Settled(s.callers[c].outcome, false)))
            && (forall r :: r in s.refreshes ==> PhaseCaused(steps, r, s.refreshes[r].phase))
            && StoreCaused(s)
  {
    RunIsCaused(steps);
    StartHoldsInv();
    RunKeepsInv(START, steps);
    var s := Run(START, steps);
    hide Run;
    forall c | c in s.callers && s.callers[c].Joined?
      ensures PhaseCaused(steps, s.callers[c].refresh, Settled(s.callers[c].outcome, false))
    {
      assert PhaseCaused(steps, s.callers[c].refresh, s.refreshes[s.callers[c].refresh].phase);
    }
    hide PhaseCaused;
  }

  /** A new lease may be taken for just those calls that ended with a token. */
  lemma LeaseNeedsToken(s: State, call: nat, lease: nat)
    requires call in s.callers && lease !in s.issued
    ensures Enabled(s, Lease(call, lease)) <==>
            match s.callers[call]
            case Reading(_) => false
            case Waiting(_, _) => false
            case UsedCached(_, _) => true
            case Joined(_, _, outcome) => outcome.Fresh?
  {
  }

  /** In every run, an outstanding lease is on the account of the call that took it. */
  lemma LeasesAreOfTheirCalls(steps: seq<Step>, lease: nat)
    requires lease in Run(START, steps).leases
    ensures LeaseTaken(Run(START, steps), steps, lease, Run(START, steps).leases[lease])
  {
    RunIsCaused(steps);
  }
}
