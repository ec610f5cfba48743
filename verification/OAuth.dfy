/** Single-flight token refresh and refcounted leases (`OAuthCoordinator` in
    src/auth/credentials.ts). Each stretch of code between two awaits is one atomic step;
    the order of steps is arbitrary. */
module OAuth {
  import opened Common

  type Account = string

  datatype Token = Token(accessToken: string, expiresAtMs: Option<int>, refreshToken: Option<string>)

  datatype Outcome = Fresh(token: Token) | Failed(error: string)

  /** A pending promise of `refreshAndStore`: at the refresher, at the store, settled. Its
      `then` handlers run once, some time after it settled. */
  datatype Phase = Refreshing | Storing(token: Token) | Settled(outcome: Outcome, handled: bool)

  datatype Refresh = Refresh(account: Account, phase: Phase)

  /** A call of `ensureFresh`: reading the store, waiting for a refresh, or over. */
  datatype Caller =
    | Reading(account: Account)
    | Waiting(account: Account, refresh: nat)
    | UsedCached(account: Account, token: Token)
    | Joined(account: Account, refresh: nat, outcome: Outcome)

  datatype State = State(
    store: map<Account, Token>,
    inflight: map<Account, nat>,
    refreshes: map<nat, Refresh>,
    callers: map<nat, Caller>,
    leases: map<nat, Account>,
    refcounts: map<Account, nat>,
    issued: set<nat>,
    released: seq<nat>)

  const START := State(map[], map[], map[], map[], map[], map[], {}, [])

  predicate Usable(cached: Option<Token>, nowMs: int, skewMs: int) {
    cached.Some? && (cached.value.expiresAtMs.None? || cached.value.expiresAtMs.value - nowMs > skewMs
        || cached.value.refreshToken.None?)
  }

  datatype Step =
    | Call(call: nat, account: Account)
    | Resume(call: nat, cached: Option<Token>, nowMs: int, skewMs: int, newRefresh: nat)
    | RefresherReplies(refresh: nat, reply: Outcome)
    | StoreReplies(refresh: nat, error: Option<string>)
    | HandlersRun(refresh: nat)
    | Deliver(call: nat)
    | Lease(call: nat, lease: nat)
    | Release(lease: nat)

  /** The token a finished call holds, if it did not fail. */
  function TokenOf(caller: Caller): Option<Token> {
    match caller
    case UsedCached(_, token) => Some(token)
    case Joined(_, _, Fresh(token)) => Some(token)
    case _ => None
  }

  predicate Enabled(s: State, step: Step) {
    match step
    case Call(call, _) => call !in s.callers
    case Resume(call, _, _, _, newRefresh) => call in s.callers && s.callers[call].Reading?
      && newRefresh !in s.refreshes
    case RefresherReplies(r, _) => r in s.refreshes && s.refreshes[r].phase.Refreshing?
    case StoreReplies(r, _) => r in s.refreshes && s.refreshes[r].phase.Storing?
    case HandlersRun(r) => r in s.refreshes && s.refreshes[r].phase.Settled? && !s.refreshes[r].phase.handled
    case Deliver(call) =>
      call in s.callers && s.callers[call].Waiting?
      && s.callers[call].refresh in s.refreshes && s.refreshes[s.callers[call].refresh].phase.Settled?
    case Lease(call, lease) => call in s.callers && TokenOf(s.callers[call]).Some? && lease !in s.issued
    case Release(_) => true
  }

  predicate SameLeases(s: State, t: State) {
    t.leases == s.leases && t.refcounts == s.refcounts && t.issued == s.issued && t.released == s.released
  }

  function SetPhase(s: State, r: nat, phase: Phase): (t: State)
    requires r in s.refreshes
    ensures SameLeases(s, t) && t.callers == s.callers
  {
    s.(refreshes := s.refreshes[r := s.refreshes[r].(phase := phase)])
  }

  function Without<K, V>(m: map<K, V>, key: K): map<K, V> { m - {key} }

  function ReleaseOf(s: State, lease: nat): (t: State)
    ensures t.callers == s.callers && t.refreshes == s.refreshes && t.inflight == s.inflight
    ensures lease !in s.leases ==> t == s
  {
    if lease !in s.leases then s
    else
      var account := s.leases[lease];
      var current := if account in s.refcounts then s.refcounts[account] else 1;
      s.(leases := Without(s.leases, lease),
         refcounts := if current <= 1 then Without(s.refcounts, account) else s.refcounts[account := current - 1],
         released := s.released + [lease])
  }

  function ResumeOf(s: State, call: nat, cached: Option<Token>, nowMs: int, skewMs: int, newRefresh: nat): (t: State)
    requires call in s.callers
    ensures SameLeases(s, t)
  {
    var account := s.callers[call].account;
    if Usable(cached, nowMs, skewMs) then s.(callers := s.callers[call := UsedCached(account, cached.value)])
    else if account in s.inflight then s.(callers := s.callers[call := Waiting(account, s.inflight[account])])
    else s.(callers := s.callers[call := Waiting(account, newRefresh)],
            refreshes := s.refreshes[newRefresh := Refresh(account, Refreshing)],
            inflight := s.inflight[account := newRefresh])
  }

  function RefresherOf(s: State, r: nat, reply: Outcome): (t: State)
    requires r in s.refreshes
    ensures SameLeases(s, t) && t.callers == s.callers
  {
    match reply
    case Fresh(token) => SetPhase(s, r, Storing(token))
    case Failed(error) => SetPhase(s, r, Settled(Failed(error), false))
  }

  function StoreOf(s: State, r: nat, error: Option<string>): (t: State)
    requires r in s.refreshes && s.refreshes[r].phase.Storing?
    ensures SameLeases(s, t) && t.callers == s.callers
  {
    match error
    case Some(e) => SetPhase(s, r, Settled(Failed(e), false))
    case None =>
      var token := s.refreshes[r].phase.token;
      SetPhase(s.(store := s.store[s.refreshes[r].account := token]), r, Settled(Fresh(token), false))
  }

  function HandlersOf(s: State, r: nat): (t: State)
    requires r in s.refreshes && s.refreshes[r].phase.Settled?
    ensures SameLeases(s, t) && t.callers == s.callers
  {
    SetPhase(s.(inflight := Without(s.inflight, s.refreshes[r].account)), r, s.refreshes[r].phase.(handled := true))
  }

  function DeliverOf(s: State, call: nat): (t: State)
    requires call in s.callers && s.callers[call].Waiting?
    requires s.callers[call].refresh in s.refreshes && s.refreshes[s.callers[call].refresh].phase.Settled?
    ensures SameLeases(s, t) && t.refreshes == s.refreshes && t.inflight == s.inflight
  {
    var Waiting(account, r) := s.callers[call];
    s.(callers := s.callers[call := Joined(account, r, s.refreshes[r].phase.outcome)])
  }

  function LeaseOf(s: State, call: nat, lease: nat): (t: State)
    requires call in s.callers
    ensures t.callers == s.callers && t.refreshes == s.refreshes && t.inflight == s.inflight
  {
    var account := s.callers[call].account;
    s.(leases := s.leases[lease := account],
       refcounts := s.refcounts[account := Tally(s.refcounts, account) + 1],
       issued := s.issued + {lease})
  }

  function Apply(s: State, step: Step): State
    requires Enabled(s, step)
  {
    match step
    case Call(call, account) => s.(callers := s.callers[call := Reading(account)])
    case Resume(call, cached, nowMs, skewMs, newRefresh) => ResumeOf(s, call, cached, nowMs, skewMs, newRefresh)
    case RefresherReplies(r, reply) => RefresherOf(s, r, reply)
    case StoreReplies(r, error) => StoreOf(s, r, error)
    case HandlersRun(r) => HandlersOf(s, r)
    case Deliver(call) => DeliverOf(s, call)
    case Lease(call, lease) => LeaseOf(s, call, lease)
    case Release(lease) => ReleaseOf(s, lease)
  }

  /** A run: the steps that are possible when their turn comes. */
  function Run(s: State, steps: seq<Step>): State
    decreases |steps|
  {
    if steps == [] then s else Run(if Enabled(s, steps[0]) then Apply(s, steps[0]) else s, steps[1..])
  }

  // ------------------------------------------------------------ the invariant

  /** The promise is registered and its handlers have not run. */
  predicate Open(refresh: Refresh) {
    !(refresh.phase.Settled? && refresh.phase.handled)
  }

  ghost predicate SingleFlight(s: State) {
    && (forall r :: r in s.refreshes && Open(s.refreshes[r]) ==>
          s.refreshes[r].account in s.inflight && s.inflight[s.refreshes[r].account] == r)
    && (forall a :: a in s.inflight ==>
          s.inflight[a] in s.refreshes && Open(s.refreshes[s.inflight[a]]) && s.refreshes[s.inflight[a]].account == a)
  }

  ghost predicate CallersJoin(s: State) {
    forall c :: c in s.callers ==> Joins(s.callers[c], s.refreshes)
  }

  function LeasesOf(leases: map<nat, Account>, account: Account): set<nat> {
    set l | l in leases && leases[l] == account
  }

  ghost predicate Counted(s: State) {
    && (forall a :: a in s.refcounts ==> s.refcounts[a] > 0)
    && (forall a :: Tally(s.refcounts, a) == |LeasesOf(s.leases, a)|)
  }

  function Ids(s: seq<nat>): set<nat> { set i | 0 <= i < |s| :: s[i] }

  ghost predicate Distinct(s: seq<nat>) {
    forall i, j :: 0 <= i < j < |s| ==> s[i] != s[j]
  }

  ghost predicate ReleasedOnce(s: State) {
    && s.leases.Keys !! Ids(s.released)
    && s.issued == s.leases.Keys + Ids(s.released)
    && Distinct(s.released)
  }

  ghost predicate Inv(s: State) {
    SingleFlight(s) && CallersJoin(s) && Counted(s) && ReleasedOnce(s)
  }

  /** A refresh that stays open moves to another phase. */
  lemma PhaseChanges(s: State, r: nat, phase: Phase)
    requires SingleFlight(s) && r in s.refreshes && Open(s.refreshes[r]) && Open(Refresh(s.refreshes[r].account, phase))
    ensures SingleFlight(SetPhase(s, r, phase))
  {
  }

  lemma RefreshStarts(s: State, call: nat, cached: Option<Token>, nowMs: int, skewMs: int, r: nat)
    requires SingleFlight(s) && Enabled(s, Resume(call, cached, nowMs, skewMs, r))
    ensures SingleFlight(ResumeOf(s, call, cached, nowMs, skewMs, r))
  {
    hide SameLeases, SingleFlight;
    var account, t := s.callers[call].account, ResumeOf(s, call, cached, nowMs, skewMs, r);
    if t.inflight == s.inflight {
      SameRefreshes(s, t);
    } else {
      TakesOff(s, t, account, r);
    }
  }

  lemma TakesOff(s: State, t: State, account: Account, r: nat)
    requires SingleFlight(s) && account !in s.inflight && r !in s.refreshes
    requires t.refreshes == s.refreshes[r := Refresh(account, Refreshing)] && t.inflight == s.inflight[account := r]
    ensures SingleFlight(t)
  {
    forall o | o in t.refreshes && Open(t.refreshes[o])
      ensures t.refreshes[o].account in t.inflight && t.inflight[t.refreshes[o].account] == o
    {
      if o != r { assert t.refreshes[o] == s.refreshes[o]; }
    }
  }

  lemma RefreshLeaves(s: State, r: nat)
    requires SingleFlight(s) && Enabled(s, HandlersRun(r))
    ensures SingleFlight(HandlersOf(s, r))
  {
  }

  lemma SameRefreshes(s: State, t: State)
    requires SingleFlight(s) && s.refreshes == t.refreshes && s.inflight == t.inflight
    ensures SingleFlight(t)
  {
  }

  lemma OthersKeepRefreshes(s: State, step: Step)
    requires Enabled(s, step) && (step.Call? || step.Deliver? || step.Lease? || step.Release?)
    ensures Apply(s, step).refreshes == s.refreshes && Apply(s, step).inflight == s.inflight
  {
    hide DeliverOf, LeaseOf, ReleaseOf;
  }

  lemma OthersKeepLeases(s: State, step: Step)
    requires Enabled(s, step) && !step.Lease? && !(step.Release? && step.lease in s.leases)
    ensures SameLeases(s, Apply(s, step))
  {
    hide ResumeOf, RefresherOf, StoreOf, HandlersOf, DeliverOf, ReleaseOf, SetPhase;
  }

  lemma RefresherKeepsFlight(s: State, r: nat, reply: Outcome)
    requires SingleFlight(s) && Enabled(s, RefresherReplies(r, reply))
    ensures SingleFlight(RefresherOf(s, r, reply))
  {
    hide SingleFlight, SameLeases;
    PhaseChanges(s, r, RefresherOf(s, r, reply).refreshes[r].phase);
  }

  lemma StoreKeepsFlight(s: State, r: nat, error: Option<string>)
    requires SingleFlight(s) && Enabled(s, StoreReplies(r, error))
    ensures SingleFlight(StoreOf(s, r, error))
  {
    hide SingleFlight, SameLeases;
    var phase := StoreOf(s, r, error).refreshes[r].phase;
    PhaseChanges(s, r, phase);
    SameRefreshes(SetPhase(s, r, phase), StoreOf(s, r, error));
  }

  lemma KeepsSingleFlight(s: State, step: Step)
    requires SingleFlight(s) && Enabled(s, step)
    ensures SingleFlight(Apply(s, step))
  {
    match step {
      case Resume(call, cached, nowMs, skewMs, r) =>
        hide SingleFlight, ResumeOf, SameLeases;
        RefreshStarts(s, call, cached, nowMs, skewMs, r);
      case RefresherReplies(r, reply) =>
        hide SingleFlight, SameLeases, RefresherOf;
        RefresherKeepsFlight(s, r, reply);
      case StoreReplies(r, error) =>
        hide SingleFlight, SameLeases, StoreOf;
        StoreKeepsFlight(s, r, error);
      case HandlersRun(r) =>
        hide SingleFlight, HandlersOf, SameLeases;
        RefreshLeaves(s, r);
      case _ =>
        hide SingleFlight, Apply;
        OthersKeepRefreshes(s, step);
        SameRefreshes(s, Apply(s, step));
    }
  }

  /** Refreshes keep their account, and once settled their outcome. */
  ghost predicate OutcomesStay(s: State, t: State) {
    forall r :: r in s.refreshes ==>
      && r in t.refreshes && t.refreshes[r].account == s.refreshes[r].account
      && (s.refreshes[r].phase.Settled? ==>
        && t.refreshes[r].phase.Settled?
        && t.refreshes[r].phase.outcome == s.refreshes[r].phase.outcome)
  }

  lemma ResumeKeepsOutcomes(s: State, call: nat, cached: Option<Token>, nowMs: int, skewMs: int, r: nat)
    requires call in s.callers && r !in s.refreshes
    ensures OutcomesStay(s, ResumeOf(s, call, cached, nowMs, skewMs, r))
  {
  }

  lemma PhaseKeepsOutcomes(s: State, t: State, r: nat, phase: Phase)
    requires r in s.refreshes && t.refreshes == SetPhase(s, r, phase).refreshes
    requires s.refreshes[r].phase.Settled? ==> phase.Settled? && phase.outcome == s.refreshes[r].phase.outcome
    ensures OutcomesStay(s, t)
  {
  }

  lemma StepsKeepOutcomes(s: State, step: Step)
    requires Enabled(s, step)
    ensures OutcomesStay(s, Apply(s, step))
  {
    hide OutcomesStay;
    match step {
      case Resume(call, cached, nowMs, skewMs, r) =>
        hide ResumeOf;
        ResumeKeepsOutcomes(s, call, cached, nowMs, skewMs, r);
        assert OutcomesStay(s, Apply(s, step));
      case RefresherReplies(r, reply) =>
        PhaseKeepsOutcomes(s, RefresherOf(s, r, reply), r, if reply.Fresh? then Storing(reply.token)
            else Settled(reply, false));
        hide RefresherOf;
        assert OutcomesStay(s, Apply(s, step));
      case StoreReplies(r, error) =>
        PhaseKeepsOutcomes(s, StoreOf(s, r, error), r,
                           Settled(if error.Some? then Failed(error.value)
                               else Fresh(s.refreshes[r].phase.token), false));
        hide StoreOf;
        assert OutcomesStay(s, Apply(s, step));
      case HandlersRun(r) =>
        PhaseKeepsOutcomes(s, HandlersOf(s, r), r, s.refreshes[r].phase.(handled := true));
        hide HandlersOf;
        assert OutcomesStay(s, Apply(s, step));
      case _ =>
        OthersKeepRefreshes(s, step);
        SameKeepsOutcomes(s, Apply(s, step));
        hide Apply;
        assert OutcomesStay(s, Apply(s, step));
    }
  }

  lemma SameKeepsOutcomes(s: State, t: State)
    requires t.refreshes == s.refreshes
    ensures OutcomesStay(s, t)
  {
  }

  ghost predicate Joins(caller: Caller, refreshes: map<nat, Refresh>) {
    match caller
    case Waiting(a, r) => r in refreshes && refreshes[r].account == a
    case Joined(a, r, outcome) =>
      r in refreshes && refreshes[r].account == a && refreshes[r].phase.Settled?
          && refreshes[r].phase.outcome == outcome
    case _ => true
  }

  ghost predicate OnlyJoiners(s: State, t: State) {
    forall c :: c in t.callers ==> (c in s.callers && t.callers[c] == s.callers[c]) || Joins(t.callers[c], t.refreshes)
  }

  lemma CallersKeepJoining(s: State, t: State)
    requires CallersJoin(s) && OutcomesStay(s, t) && OnlyJoiners(s, t)
    ensures CallersJoin(t)
  {
  }

  lemma KeepsCallersJoin(s: State, step: Step)
    requires SingleFlight(s) && CallersJoin(s) && Enabled(s, step)
    ensures CallersJoin(Apply(s, step))
  {
    StepsKeepOutcomes(s, step);
    NewCallerJoins(s, step);
    hide CallersJoin, Enabled, Apply, SingleFlight, OutcomesStay, OnlyJoiners;
    CallersKeepJoining(s, Apply(s, step));
  }

  lemma OthersKeepCallers(s: State, step: Step)
    requires Enabled(s, step) && !step.Call? && !step.Resume? && !step.Deliver?
    ensures Apply(s, step).callers == s.callers
  {
    hide RefresherOf, StoreOf, HandlersOf, LeaseOf, ReleaseOf;
  }

  lemma ResumedCallerJoins(s: State, call: nat, cached: Option<Token>, nowMs: int, skewMs: int, r: nat)
    requires SingleFlight(s) && Enabled(s, Resume(call, cached, nowMs, skewMs, r))
    ensures OnlyJoiners(s, ResumeOf(s, call, cached, nowMs, skewMs, r))
  {
    hide SameLeases;
  }

  lemma NewCallerJoins(s: State, step: Step)
    requires SingleFlight(s) && CallersJoin(s) && Enabled(s, step)
    ensures OnlyJoiners(s, Apply(s, step))
  {
    match step {
      case Call(_, _) =>
        hide SingleFlight, SameLeases, CallersJoin;
      case Resume(call, cached, nowMs, skewMs, r) =>
        ResumedCallerJoins(s, call, cached, nowMs, skewMs, r);
        hide SameLeases, CallersJoin, SingleFlight, OnlyJoiners, ResumeOf;
        assert Apply(s, step) == ResumeOf(s, call, cached, nowMs, skewMs, r);
      case Deliver(call) =>
        hide SingleFlight, SameLeases, ReleaseOf;
        assert Apply(s, step) == DeliverOf(s, call);
        assert Joins(s.callers[call], s.refreshes);
      case _ =>
        OthersKeepCallers(s, step);
        hide Apply, Joins;
    }
  }

  lemma LeaseAdds(leases: map<nat, Account>, lease: nat, account: Account, a: Account)
    requires lease !in leases
    ensures |LeasesOf(leases[lease := account], a)| == |LeasesOf(leases, a)| + if a == account then 1 else 0
  {
    var more := leases[lease := account];
    if a == account {
      assert LeasesOf(more, a) == LeasesOf(leases, a) + {lease};
    } else {
      assert LeasesOf(more, a) == LeasesOf(leases, a);
    }
  }

  lemma LeaseCounted(s: State, call: nat, lease: nat)
    requires Counted(s) && ReleasedOnce(s) && Enabled(s, Lease(call, lease))
    ensures Counted(LeaseOf(s, call, lease))
  {
    var t := LeaseOf(s, call, lease);
    forall a
      ensures Tally(t.refcounts, a) == |LeasesOf(t.leases, a)|
    {
      LeaseAdds(s.leases, lease, s.callers[call].account, a);
      assert Tally(s.refcounts, a) == |LeasesOf(s.leases, a)|;
    }
  }

  lemma ReleaseCounted(s: State, lease: nat)
    requires Counted(s) && lease in s.leases
    ensures Counted(ReleaseOf(s, lease))
  {
    var t := ReleaseOf(s, lease);
    var account := s.leases[lease];
    assert s.leases == t.leases[lease := account];
    LeaseAdds(t.leases, lease, account, account);
    assert Tally(s.refcounts, account) == |LeasesOf(s.leases, account)|;
    forall a
      ensures Tally(t.refcounts, a) == |LeasesOf(t.leases, a)|
    {
      LeaseAdds(t.leases, lease, account, a);
      assert Tally(s.refcounts, a) == |LeasesOf(s.leases, a)|;
    }
  }

  lemma SameCounts(s: State, t: State)
    requires Counted(s) && s.leases == t.leases && s.refcounts == t.refcounts
    ensures Counted(t)
  {
  }

  lemma KeepsCounted(s: State, step: Step)
    requires Counted(s) && ReleasedOnce(s) && Enabled(s, step)
    ensures Counted(Apply(s, step))
  {
    hide Counted, ReleasedOnce, LeaseOf, ReleaseOf;
    if step.Lease? {
      LeaseCounted(s, step.call, step.lease);
    } else if step.Release? && step.lease in s.leases {
      ReleaseCounted(s, step.lease);
    } else {
      OthersKeepLeases(s, step);
      hide Apply;
      SameCounts(s, Apply(s, step));
    }
  }

  lemma IdsAppend(s: seq<nat>, x: nat)
    ensures Ids(s + [x]) == Ids(s) + {x}
  {
    var t := s + [x];
    assert t[|s|] == x;
    assert forall i :: 0 <= i < |s| ==> t[i] == s[i];
    assert forall y :: y in Ids(s) ==> y in Ids(t);
  }

  lemma ReleaseIsOnce(s: State, lease: nat)
    requires ReleasedOnce(s) && lease in s.leases
    ensures ReleasedOnce(ReleaseOf(s, lease))
  {
    IdsAppend(s.released, lease);
    assert forall i :: 0 <= i < |s.released| ==> s.released[i] in Ids(s.released);
    hide Ids;
  }

  lemma KeepsReleasedOnce(s: State, step: Step)
    requires ReleasedOnce(s) && Enabled(s, step)
    ensures ReleasedOnce(Apply(s, step))
  {
    hide Ids;
    if step.Release? && step.lease in s.leases {
      ReleaseIsOnce(s, step.lease);
    } else if step.Lease? {
      assert Apply(s, step) == LeaseOf(s, step.call, step.lease);
    } else {
      OthersKeepLeases(s, step);
      hide Apply;
    }
  }

  lemma {:induction false} RunKeepsInv(s: State, steps: seq<Step>)
    requires Inv(s)
    ensures Inv(Run(s, steps))
    decreases |steps|
  {
    hide SingleFlight, CallersJoin, Counted, ReleasedOnce, Enabled, Apply;
    if steps != [] {
      if Enabled(s, steps[0]) {
        KeepsSingleFlight(s, steps[0]);
        KeepsCallersJoin(s, steps[0]);
        KeepsCounted(s, steps[0]);
        KeepsReleasedOnce(s, steps[0]);
        RunKeepsInv(Apply(s, steps[0]), steps[1..]);
      } else {
        RunKeepsInv(s, steps[1..]);
      }
    }
  }

  lemma StartHoldsInv()
    ensures Inv(START)
  {
    assert Ids([]) == {};
    forall a: Account
      ensures LeasesOf(START.leases, a) == {}
    {
    }
  }

  // ------------------------------------------------------------ over every interleaving

  /** At any time an account has at most one refresh that is not settled. */
  lemma AtMostOneUnsettledRefresh(steps: seq<Step>, r: nat, q: nat)
    requires var s := Run(START, steps);
             r in s.refreshes && q in s.refreshes && s.refreshes[r].account == s.refreshes[q].account
             && !s.refreshes[r].phase.Settled? && !s.refreshes[q].phase.Settled?
    ensures r == q
  {
    StartHoldsInv();
    RunKeepsInv(START, steps);
  }

  /** Calls that joined one refresh all got its one outcome, for their own account. */
  lemma JoinersShareTheOutcome(steps: seq<Step>, c: nat, d: nat)
    requires var s := Run(START, steps);
             c in s.callers && d in s.callers && s.callers[c].Joined? && s.callers[d].Joined?
             && s.callers[c].refresh == s.callers[d].refresh
    ensures var s := Run(START, steps);
            && s.callers[c].outcome == s.callers[d].outcome
            && s.callers[c].account == s.callers[d].account
  {
    StartHoldsInv();
    RunKeepsInv(START, steps);
  }

  /** An account's reference count is the number of its outstanding lease ids, and accounts
      without leases have no entry. */
  lemma RefcountsCountLeases(steps: seq<Step>, account: Account)
    ensures var s := Run(START, steps);
            Tally(s.refcounts, account) == |LeasesOf(s.leases, account)|
            && (account in s.refcounts <==> LeasesOf(s.leases, account) != {})
  {
    StartHoldsInv();
    RunKeepsInv(START, steps);
  }

  /** A lease id is outstanding or released, never both, and it is released successfully
      exactly once: a release succeeds just when the id is outstanding. */
  lemma LeasesReleaseOnce(steps: seq<Step>, lease: nat)
    ensures var s := Run(START, steps);
            && (lease in s.issued <==> lease in s.leases || lease in s.released)
            && !(lease in s.leases && lease in s.released)
            && multiset(s.released)[lease] <= 1
            && (Apply(s, Release(lease)).released == s.released + [lease] <==> lease in s.leases)
  {
    StartHoldsInv();
    RunKeepsInv(START, steps);
    var s := Run(START, steps);
    DistinctOnce(s.released, lease);
    assert lease in s.released <==> lease in Ids(s.released);
  }

  lemma {:induction false} DistinctOnce(s: seq<nat>, x: nat)
    requires Distinct(s)
    ensures multiset(s)[x] <= 1
  {
    if s != [] {
      DistinctOnce(s[1..], x);
      assert s == [s[0]] + s[1..];
      assert forall k :: 0 <= k < |s[1..]| ==> s[1..][k] == s[k + 1];
      assert s[0] == x ==> x !in s[1..];
    }
  }

  // ------------------------------------------------------------ the class

  /** The coordinator's fields; promises and pending calls, which the runtime keeps, are
      fields of the model. */
  class OAuthCoordinator {
    var store: map<Account, Token>
    var inflight: map<Account, nat>
    var leases: map<nat, Account>
    var refcounts: map<Account, nat>
    var refreshes: map<nat, Refresh>
    var callers: map<nat, Caller>
    ghost var issued: set<nat>
    ghost var released: seq<nat>

    ghost function View(): State
      reads this
    {
      State(store, inflight, refreshes, callers, leases, refcounts, issued, released)
    }

    constructor ()
      ensures View() == START
    {
      store, inflight, leases, refcounts, refreshes, callers := map[], map[], map[], map[], map[], map[];
      issued, released := {}, [];
    }

    /** `ensureFresh` after its store read. */
    method ResumeCall(call: nat, cached: Option<Token>, nowMs: int, skewMs: int, newRefresh: nat)
      requires Enabled(View(), Resume(call, cached, nowMs, skewMs, newRefresh))
      modifies this
      ensures View() == Apply(old(View()), Resume(call, cached, nowMs, skewMs, newRefresh))
    {
      var account := callers[call].account;
      if cached.Some? && (IsFresh(cached.value, nowMs, skewMs) || cached.value.refreshToken.None?) {
        callers := callers[call := UsedCached(account, cached.value)];
        return;
      }
      if account in inflight {
        callers := callers[call := Waiting(account, inflight[account])];
        return;
      }
      refreshes := refreshes[newRefresh := Refresh(account, Refreshing)];
      inflight := inflight[account := newRefresh];
      callers := callers[call := Waiting(account, newRefresh)];
    }

    static predicate IsFresh(token: Token, nowMs: int, skewMs: int) {
      token.expiresAtMs.None? || token.expiresAtMs.value - nowMs > skewMs
    }

    /** The `then` handlers of a refresh. */
    method RunHandlers(refresh: nat)
      requires Enabled(View(), HandlersRun(refresh))
      modifies this
      ensures View() == Apply(old(View()), HandlersRun(refresh))
    {
      inflight := inflight - {refreshes[refresh].account};
      refreshes := refreshes[refresh := refreshes[refresh].(phase := refreshes[refresh].phase.(handled := true))];
    }

    /** The tail of `lease`. */
    method AcquireLease(call: nat, lease: nat)
      requires Enabled(View(), Lease(call, lease))
      modifies this
      ensures View() == Apply(old(View()), Lease(call, lease))
    {
      var account := callers[call].account;
      leases := leases[lease := account];
      refcounts := refcounts[account := (if account in refcounts then refcounts[account] else 0) + 1];
      issued := issued + {lease};
    }

    method ReleaseLease(lease: nat) returns (ok: bool)
      modifies this
      ensures View() == Apply(old(View()), Release(lease)) && ok == (lease in old(leases))
    {
      if lease !in leases { return false; }
      var account := leases[lease];
      leases := leases - {lease};
      var current := if account in refcounts then refcounts[account] else 1;
      if current <= 1 {
        refcounts := refcounts - {account};
      } else {
        refcounts := refcounts[account := current - 1];
      }
      released := released + [lease];
      return true;
    }
  }
}
