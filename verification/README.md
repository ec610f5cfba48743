# Wokroute: verified models of the proxy's core

Wokroute is an AI proxy: it resolves a model name to provider targets, picks an account, calls
the provider, fails over when the provider fails, and streams the answer back. This Dafny project
models the parts of it that carry invariants over many steps and proves what they guarantee.
`dafny verify dfyconfig.toml` checks everything.

| files | models |
|---|---|
| `Streams`, `Recovery`, `RecoverySafety` | the failover engine: retries before and inside a stream, the retry wait, the terminal event |
| `RetrySafety`, `RecoveryEndings` | why the engine goes on, why it stops, and what it delivers |
| `Leases`, `Request` | the clean-up stack, the leases of one attempt, admission settling, all attempts of a request |
| `OAuth`, `OAuthHistory` | single-flight token refresh, refcounted leases, and where tokens come from |
| `Selector`, `Rotation` | sticky and round-robin account selection, and rotation over runs with releases |
| `Health`, `Cooldown`, `Sweep` | account cooldowns, per-model locks, what a failure means for an account, the recovery sweep |
| `OAuthSessions`, `LoginHistory` | interactive OAuth logins, their one-time states, and what moves a login on |
| `Common`, `Text`, `Bits` | shared definitions: options, strings and `split`, bitwise operations |
| `Rendezvous`, `HashSeparation`, `HashVectors` | rendezvous ordering, what its hash tells apart, and published hash values |
| `Routing`, `RoutingOrder`, `RoutingCap`, `RoutingStability` | model references, combos and the order of their candidates, the recursion cap, failover order under membership change |
| `Cache`, `CacheSections`, `CacheKey`, `Digest` | prompt-cache sections and planning, the plan's key and its 64-bit digest |
| `Decimal`, `TokenSaver`, `TokenFilters`, `TokenPipeline`, `TokenSaverLaws` | the compressing filters, what they keep and cut, and their application to a request |
| `Ndjson`, `NdjsonContent`, `CommandCode` | the NDJSON stream decoder, what its events carry, and the decoder composed with the failover engine |
| `Ipv6`, `Ipv6Print`, `Cidr`, `UnsafeAddresses` | the IPv6 text parser, addresses printed from numbers and read back, the address ranges and the networks they are |
| `LogStream`, `LogStreamRuns`, `LogHub`, `LogClients` | the console log fan-out |
| `Studio`, `StudioStore` | the byte-budgeted Model Studio store |
| `Transitions`, `TransitionStore` | the bounded store of route switches |
| `Snapshot`, `SnapshotCache` | the routing snapshot and its revision-keyed cache |

Asynchronous code is modelled await by await: the code between two awaits is one step, and the
theorems hold for every order of steps. Where a method of the source loops or changes state, a
method here does the same and is proved equal to a function; the theorems are about that function.
Times, fresh ids, provider replies, random numbers and stored rows are inputs.

What the code does differently from what one might expect, with the theorem that pins it down:

- The first retry inside a stream skips an attempt index (`AttemptsCountUp`,
  `FirstRetryIndexSkipped`). So with two candidates that retry goes back to the one that just failed
  (`RetriesGoRound`), and the failure hook is told of an index that is never attempted: it blames the
  next candidate and finds no account or proxy to record the failure for (`HookIsTold`,
  `HookIsMisledIff`, `RightCandidateIsBlamedIff`).
- The comment at src/app/recovery.ts:198-199 promises that the clean-up stack is released exactly once.
  It never runs twice; it is missed exactly when the decisive attempt before the stream fails and
  the failure hook or the back-off wait throws, or when it hands over a stream that is never pulled
  (`CleanupRunsOnce`, `CleanupCanBeMissed`). In the first case the request's own catch runs it.
- A stream that is never pulled keeps its leases. Only the last stream of a run can be left so, and
  it is exactly when nobody pulls, or when the abort signal is set at the reading right after the
  last attempt handed it over (`EveryStreamIsPulled`, `AbortLeavesStreamUnread`,
  `EveryAttemptSettles`).
- A stream that just ends, with nothing shown and no error, is not retried under the engine's own
  decision: the error made for it is not retryable (`OnlyRetryableIsRetried`).
- The comment at src/auth/credentials.ts:733 promises the least-loaded account when all are busy;
  the pick is plain round robin (`BusyPickIgnoresLoad`). Selections of static secrets are never
  given back, so such an account never looks idle again (`InFlightCountsLeasesAndStatics`).
- A sticky limit of one has no effect: the pool of one account is not used, and the first idle
  eligible account is taken (`ChoiceStaysInPoolIff`, `StickyPoolOfOneIsIgnored`).
- A cooldown that ends at a fraction of a millisecond is over for `isAccountEligible` one reading
  before it is for `isRecordUsable` (`UsableLagsIff`, `UsableCanLag`).
- Reading and writing a health record are two awaits apart, so overlapping failures lose counts
  (`GenerationCountsWrites`, `OverlapLosesAFailure`) and a sweep can erase a fresh cooldown
  (`LateRecoveryIsHarmlessIff`, `SweepCanEraseAFreshCooldown`) or a renewed lock
  (`LateUnlockIsHarmlessIff`, `SweepCanEraseAFreshLock`).
- The memory lock store joins account and model with a colon, so ids with colons can collide
  (`LockTouchesOnlyItsModel`, `ColonsCollide`); the durable store keys by two columns and cannot.
- A cancelled login can still complete when a poll is in flight (`CancelIsFinalIff`).
- Eight hops through aliases and combos can hit the recursion cap; seven never do
  (`SevenHopsSuffice`, `EightHopsMayNotSuffice`).
- Usage that the Command Code decoder emits after `message_stop` never reaches the consumer of the
  failover engine (`UsageNeverReachesConsumer`).
- The IPv6 parser accepts a dotted quad written before "::" and a "::" that stands for no group
  (`EarlyQuadIsAccepted`). The embedded-address check compares with `0x64ff9b` after shifting out
  32 bits, which is `::64:ff9b:0:0/96`, not the NAT64 network `64:ff9b::/96` (`EmbeddedCheckAdds`).
- A Model Studio session above the total budget but within its own limit empties the store and is
  not stored; a patch then hands back a session that is gone (`StoreOutcome`,
  `PatchTellsTheTruthIff`, `PatchCanEmptyTheStore`).
- The transition store evicts the first route of the first scope, which need not be the oldest
  (`OldestMakesWayIff`, `YoungerMakesWay`), and a limit of zero still keeps one route
  (`LimitHoldsIff`).
- Account batch operations do not move the routing revision; lookups are stale afterwards exactly
  when the batch flips an account of a provider that is not custom, or deletes one that is not just
  a custom provider's stand-in (`BatchIsStaleIff`, `DeletionIsStaleIff`, `BatchLeavesLookupsStale`).
- A clear of the console log drops the rows a client had not received yet, rows written after the
  deletion included (`ClearLosesWhatWaits`, `ClearCanLoseANewRow`).

## Model

| member | source | states |
|---|---|---|
| `Recovery.RecoverCall` | src/app/recovery.ts:201-251 | The pre-stream retry loop computes `Call`, the recursive reading of the loop the theorems use: attempts, waits, clean-up runs and the outcome |
| `Recovery.TrackStream` | src/app/recovery.ts:69-80 | Reading a stream under the consumer stops at the first terminal event, loss or departure, and the two lifecycle flags say exactly whether a meaningful or terminal event was delivered |
| `Recovery.ReadHalf` | src/app/recovery.ts:280-299 | One turn of the generator's read half matches one step of `Drive` |
| `Recovery.AttemptHalf` | src/app/recovery.ts:300-315 | One turn of the generator's attempt half matches one step of `Drive` |
| `Recovery.RecoverableEvents` | src/app/recovery.ts:274-320 | The whole generator, for any number of pulls, computes `Drive`; its loop has a termination measure |
| `RetrySafety.RetriesAreAllowed` | src/app/recovery.ts:207-316 | In every run, each attempt followed by another failed, if a stream before it showed anything meaningful, with an error the retry decision said yes to at its reading, with no abort seen and neither hook nor wait throwing |
| `RetrySafety.NoRetryWithoutDecision` | src/app/recovery.ts:204 | When the retry decision always says no, at most one attempt is made |
| `RetrySafety.OnlyRetryableIsRetried` | src/app/recovery.ts:130-204 | Under the engine's own decision only retryable errors are followed by another attempt, and a stream that just ends is not one |
| `RecoveryEndings.EndingIsAccountedFor` | src/app/recovery.ts:201-316 | In every run a thrown error is the last attempt's failure, which then may not be retried, or the hook's or the wait's error, or an abort seen at its reading; an answer is the last attempt's |
| `RecoveryEndings.DeliversStreamsInOrder` | src/app/recovery.ts:69-80 | What the consumer sees are the streams of the attempts from their first event on, nothing skipped, repeated or reordered |
| `RecoverySafety.AttemptBudget` | src/app/recovery.ts:201-251 | Attempts before and inside the stream together are at most `maxAttempts`, at strictly increasing indices not above `maxAttempts`, with at most `maxAttempts - 1` waits |
| `RecoverySafety.FirstRetryIndexSkipped` | src/app/recovery.ts:236-302 | The index after the one whose stream was handed over is never attempted |
| `RecoverySafety.AttemptsCountUp` | src/app/recovery.ts:207-302 | The k-th attempt of a run has index k, and index k + 1 behind the attempt whose stream was handed over first |
| `RecoverySafety.HookIsTold` | src/app/recovery.ts:220-307 | Every call of the failure hook is told the index of the attempt that failed, except that for the first stream handed over it is told the next one, which is never attempted |
| `RecoverySafety.HookIsMisledIff` | src/app/recovery.ts:294-297 | That exception occurs exactly when the first stream is read, lost before anything meaningful, and may be retried |
| `RecoverySafety.NoSplice` | src/app/recovery.ts:69-80 | All text, thinking and tool-call deltas the consumer sees come from one attempt, the last one made |
| `RecoverySafety.StreamEnding` | src/app/recovery.ts:274-320 | A stream returns normally only right after its first `message_stop`, throws only before any, and is otherwise left by its consumer |
| `RecoverySafety.AppendTerminalError` | src/app/response.ts:102-113 | The loop adds one error terminal exactly when the upstream had none |
| `RecoverySafety.DrainedStreamHasOneTerminal` | src/app/response.ts:102-113 | Engine and writer composed: a drained stream carries exactly one `message_stop`, as its last event |
| `RecoverySafety.CleanupRunsOnce` | src/app/recovery.ts:201-251 | Clean-up runs at most once, and is missed exactly when the first attempt not followed by another fails with the failure hook or the wait throwing, or hands over a stream that is never pulled |
| `RecoverySafety.CleanupCanBeMissed` | src/app/recovery.ts:216-226 | A concrete environment in which a throwing failure hook makes the engine miss the clean-up |
| `RecoverySafety.EveryStreamIsPulled` | src/app/recovery.ts:274-316 | Every handed-over stream is pulled except possibly the last, and that one is left unread exactly when the last attempt made handed it over and then nobody pulls or the abort signal is set at the next reading |
| `RecoverySafety.AbortLeavesStreamUnread` | src/app/recovery.ts:280-297 | A concrete environment with attempts 0 and 2, the hook told of 1, and the replacement stream taken and never read |
| `RecoverySafety.BudgetIsUsedUp` | src/app/recovery.ts:201-316 | When only the upstream fails, giving up without anything meaningful shown, before or inside a stream, means the attempt budget was used up |
| `RecoverySafety.BaseDelayClimbs` | src/app/recovery.ts:147-153 | The back-off never decreases with the retry index and stays between 50 and 2000 ms |
| `RecoverySafety.DelayIsBounded` | src/app/recovery.ts:147-153 | Every wait is within 0 to 5000 ms; without a usable Retry-After it exceeds the back-off by less than 50 ms |
| `RecoverySafety.BackoffDoubles` | src/app/recovery.ts:151 | The back-off starts at 50 ms and doubles until it reaches 2000 ms |
| `RecoverySafety.DelayFollows` | src/app/recovery.ts:147-153 | A usable Retry-After is waited for to the millisecond, up to 5000 ms; otherwise chance adds at most a quarter of the back-off, nothing at its smallest |
| `Leases.UnwoundIsReversePrefix` | src/domain/contracts.ts:604-624 | Unwinding returns handles in reverse order, each at most once, and all of them exactly when none below the first taken throws |
| `Leases.RaisesIffReleaseThrows` | src/domain/contracts.ts:604-624 | Unwinding raises exactly when a release it reaches throws |
| `Leases.CleanupStack.Run` | src/domain/contracts.ts:604-624 | Running the stack releases everything once, last added first; a second run does nothing |
| `Leases.ProviderStream.Close` | src/app/request.ts:321-328 | The stream wrapper's `finally` returns the in-flight mark and then the stack |
| `Leases.Select` | src/app/request.ts:256-285 | The two selections register exactly the leases they obtained and stop at the first failure |
| `Leases.Attempt` | src/app/request.ts:226-342 | However the attempt closure leaves, it took `Taken`, and unless it hands a stream off it has unwound exactly that |
| `Leases.AttemptLedger` | src/app/request.ts:226-342 | Over an attempt's whole life everything taken comes back at most once in reverse order, and all of it exactly when a handed-off stream is read (releases not throwing) |
| `Leases.TakenOneByOne` | src/app/request.ts:226-320 | What an attempt takes, one after the other, and the step at which a refusal ends it |
| `Leases.LiveThrough` | src/app/request.ts:226-342 | The attempt closure followed by the end of its stream takes `Taken` and gives back `GivenBack` |
| `Request.ProxyRequest.Run` | src/app/request.ts:472-514 | try, catch and finally settle the admission lease unless a stream was handed off, and count the request in flight exactly then |
| `Request.ProxyRequest.StreamFinally` | src/app/request.ts:378-400 | The end of the presented stream settles an unsettled lease and takes the request out of the count |
| `Request.Serve` | src/app/request.ts:163-168 | The admission lease is settled exactly once and the in-flight counter balances, in every case but a handed-off stream nobody reads |
| `Request.EveryAttemptSettles` | src/app/request.ts:226-342 | Engine and attempts composed: every attempt of a run returns everything, except exactly when the last one hands over a stream that is left unread; then that attempt alone keeps what it took |
| `Request.WholeHandsOverStreams` | src/app/recovery.ts:201-316 | The streams handed over in a run are exactly those of its attempts that answered with a stream |
| `Request.RetriesGoRound` | src/app/request.ts:227 | For every number of candidates, which candidate each attempt of a run goes to, and that a retry goes to the one that just failed exactly when there is one, or there are two and it is the first retry inside a stream |
| `Request.RightCandidateIsBlamedIff` | src/app/request.ts:352-355 | The failure hook blames the candidate that failed, and finds its selection, exactly unless it was the first stream handed over that was lost |
| `OAuth.AtMostOneUnsettledRefresh` | src/auth/credentials.ts:436-457 | Over every interleaving an account has at most one refresh that is not settled |
| `OAuth.JoinersShareTheOutcome` | src/auth/credentials.ts:436-457 | All calls that joined one refresh get its one outcome, for their own account |
| `OAuthHistory.ResumeTakesItsTurn` | src/auth/credentials.ts:436-457 | In every run a call goes on with the stored token exactly while that has no expiry, outlives the margin or cannot be refreshed; otherwise it waits for its account's one open refresh, started by it if there was none |
| `OAuthHistory.CachedTokensWereGood` | src/auth/credentials.ts:436-443 | In every run a call that ended with the stored token read it while it was still good |
| `OAuthHistory.OutcomesHaveCauses` | src/auth/credentials.ts:436-457 | In every run the outcome of a refresh is what its refresher replied, stored before anyone got it, or an error one of the two replied |
| `OAuthHistory.LeasesAreOfTheirCalls` | src/auth/credentials.ts:459-466 | In every run an outstanding lease is on the account of the call that took it |
| `OAuthHistory.LeaseNeedsToken` | src/auth/credentials.ts:459-466 | A lease is taken only by a call that has its token |
| `OAuth.RefcountsCountLeases` | src/auth/credentials.ts:459-480 | An account's refcount is the number of its outstanding lease ids, and there are no zero entries |
| `OAuth.LeasesReleaseOnce` | src/auth/credentials.ts:468-476 | Each lease id is released successfully exactly once: a release succeeds just when the id is outstanding |
| `OAuth.OAuthCoordinator.ResumeCall` | src/auth/credentials.ts:436-457 | `ensureFresh` after its store read: the cached token, the refresh in flight, or a new refresh |
| `OAuth.OAuthCoordinator.RunHandlers` | src/auth/credentials.ts:444-456 | Settling a refresh takes its account out of the in-flight map |
| `OAuth.OAuthCoordinator.AcquireLease` | src/auth/credentials.ts:459-466 | A lease adds its id and raises the refcount by one |
| `OAuth.OAuthCoordinator.ReleaseLease` | src/auth/credentials.ts:468-476 | A release removes the id and lowers the refcount, dropping it at zero; an unknown id changes nothing and is reported |
| `Selector.StickyPoolIsWindow` | src/auth/credentials.ts:722-728 | The sticky pool is exactly `stickyLimit` different eligible accounts, a cyclic window from a hash of key and provider |
| `Selector.NoStickiness` | src/auth/credentials.ts:718-728 | Stickiness needs a limit, an affinity and as many eligible accounts as the limit, which counts between 1 and 100 |
| `Selector.IdlePicksAreDistinct` | src/auth/credentials.ts:730-741 | While enough accounts are idle, consecutive picks without a release are different idle accounts, from every cursor |
| `Selector.FirstRoundCoversPool` | src/auth/credentials.ts:730-741 | n picks over n idle accounts pick each exactly once, from every cursor |
| `Rotation.IdlePoolsRotate` | src/auth/credentials.ts:730-741 | In every run of choices, commits and releases in which the pool is idle again at each choice, pick k is the account at cursor + k |
| `Rotation.EveryAccountHasItsTurn` | src/auth/credentials.ts:730-741 | So any n picks in a row over a pool of n include every account |
| `Rotation.FirstChoiceIsFirst` | src/auth/credentials.ts:734-740 | A provider's first pick is the first account of its pool |
| `Selector.BusyPicksAreCyclic` | src/auth/credentials.ts:736-741 | Once all are busy, pick k is the account at cursor + k, whatever the loads |
| `Selector.BusyPicksRepeat` | src/auth/credentials.ts:736-741 | Once all are busy, the picks repeat with the size of the pool |
| `Selector.BusyPickIgnoresLoad` | src/auth/credentials.ts:733-738 | A concrete pool in which the busier account is picked |
| `Selector.ChoiceStaysInPoolIff` | src/auth/credentials.ts:722-747 | The chosen account is one of the sticky pool exactly when round robin runs over more than one, or the first idle eligible account lies in the window |
| `Selector.StickyPoolOfOneIsIgnored` | src/auth/credentials.ts:730-747 | A concrete pool of one whose account is idle and not chosen |
| `Selector.InFlightCountsLeasesAndStatics` | src/auth/credentials.ts:778-808 | Over every run an account's in-flight count is its outstanding leases plus every static selection ever made of it |
| `Selector.CredentialSelector.ChooseAccount` | src/auth/credentials.ts:718-747 | Pools, pick and cursor update of `select` |
| `Selector.CredentialSelector.CommitSelection` | src/auth/credentials.ts:776-783 | Only OAuth selections are recorded as leases; every selection is counted in flight |
| `Selector.CredentialSelector.ReleaseSelection` | src/auth/credentials.ts:802-808 | A release undoes one recorded selection and ignores other ids |
| `Health.RecordsStaySane` | src/auth/credentials.ts:240-281 | Over every interleaving of reads and writes: failure count at most 255 and zero exactly when healthy, cooling down exactly when a retry time is set, which is the end of the cooldown cut to a millisecond |
| `Health.EligibleExactlyWhenTimeIsUp` | src/auth/credentials.ts:626-653 | In every reachable state an account is eligible exactly when enabled, with quota, and past its retry time and the model's lock |
| `Cooldown.FailureKeepsOut` | src/auth/credentials.ts:240-262 | In every run, from the write of a failure at t with delay d until the next write, the account may be used exactly from t + d on (always when d is 0), and its health view says so |
| `Cooldown.LockKeepsModelOut` | src/auth/credentials.ts:307-329 | In every run, from the write of a model lock until it is rewritten or deleted, the model of that account is locked exactly before the end of the delay, and each renewal counts one failure more |
| `Cooldown.FailureCountIsStreak` | src/auth/credentials.ts:240-281 | While no two calls on an account overlap, its failure count is the number of failures since its last success, up to 255 |
| `Health.DisabledStaysOut` | src/traffic/network.ts:473-481 | A record marked disabled is never usable |
| `Health.UsableLagsIff` | src/traffic/network.ts:473-481 | Eligibility and `isRecordUsable` differ exactly in the last, fractional millisecond of a cooldown |
| `Health.UsableCanLag` | src/domain/rate-limit.ts:117 | A concrete record with a fractional delay on which they differ |
| `Health.GenerationCountsWrites` | src/auth/credentials.ts:240-281 | The generation equals the number of writes exactly when no two calls on the account overlapped, and never exceeds it |
| `Health.OverlapLosesAFailure` | src/auth/credentials.ts:243-259 | Two overlapping failures leave generation and failure count one |
| `Sweep.SweepKeepsEligibility` | src/app/recovery-sweep.ts:59-88 | An undisturbed sweep at `now` changes the eligibility of no account and no model at any later time |
| `Sweep.SweepKeepsView` | src/traffic/network.ts:483-500 | The derived health view is the same before and after the sweep at every later time |
| `Sweep.NothingExpiredStays` | src/app/recovery-sweep.ts:59-88 | After an undisturbed sweep no cooldown and no lock that was over at its time is left |
| `Sweep.SweepAheadOfTheClock` | src/app/recovery-sweep.ts:69-75 | Before `now`, eligibility changes exactly for accounts whose cooldown the sweep ended |
| `Sweep.LateRecoveryIsHarmlessIff` | src/app/recovery-sweep.ts:69-75 | A sweep's delayed write is harmless exactly when the record it overwrites is past its cooldown too |
| `Sweep.SweepCanEraseAFreshCooldown` | src/app/recovery-sweep.ts:59-75 | A run in which a sweep makes an account eligible that started cooling meanwhile |
| `Sweep.LateUnlockIsHarmlessIff` | src/app/recovery-sweep.ts:77-87 | A sweep's delayed deletion of a lock is harmless exactly when the lock it finds has expired too |
| `Sweep.SweepCanEraseAFreshLock` | src/app/recovery-sweep.ts:77-87 | A run in which a sweep deletes a lock renewed meanwhile |
| `Sweep.KeysAreInjective` | src/auth/credentials.ts:75-85 | Without colons in account ids the lock key determines account and model |
| `Sweep.LockTouchesOnlyItsModel` | src/auth/credentials.ts:300-330 | Locking a model changes no other account or model, exactly unless it displaces a live lock with the same key |
| `Sweep.ColonsCollide` | src/auth/credentials.ts:75-85 | A run in which the memory store lets one account's lock displace the live lock of another |
| `Sweep.AccountHealthManager.RecordFailure` | src/auth/credentials.ts:240-262 | Non-retryable errors change nothing; others write the next record and return it, which keeps the account out exactly until the delay from now is over |
| `Sweep.AccountHealthManager.RecordSuccess` | src/auth/credentials.ts:264-281 | A success writes a healthy record of the next generation |
| `Sweep.AccountHealthManager.RecordModelLock` | src/auth/credentials.ts:307-329 | A lock is written exactly for retryable errors with a delay |
| `Sweep.AccountHealthManager.Sweep` | src/app/recovery-sweep.ts:59-88 | The two listings and the loops of writes produce exactly the swept stores |
| `OAuthSessions.OneExchangePerLogin` | src/auth/oauth-sessions.ts:281-345 | Over every interleaving: at most one code exchange per session, both maps within their limits, no state consumed more often than created |
| `OAuthSessions.WaitingIsLeftForGood` | src/auth/oauth-sessions.ts:223-345 | A login that left "waiting for user" never returns to it |
| `LoginHistory.StatusHasItsReason` | src/auth/oauth-sessions.ts:223-345 | What moves a login to each status, in both directions: cancelled only while waiting, expired when looked at or polled too late or by its provider, completed by its own poll or exchange, failed by these or by a callback that may not begin an exchange |
| `LoginHistory.RecordIsKept` | src/auth/oauth-sessions.ts:223-345 | Nothing but status and token set changes on a login; the token set comes with the answer that completes it and stays |
| `LoginHistory.StartBegins` | src/auth/oauth-sessions.ts:158-221 | A new login waits, without a token set, until the earlier of what its provider and the manager allow |
| `LoginHistory.StartMakesRoom` | src/auth/oauth-sessions.ts:181-183 | Starting a login unlists every expired one, then the oldest of the rest, as many as the limit asks for |
| `LoginHistory.CallsHaveTheirReason` | src/auth/oauth-sessions.ts:247-345 | A poll goes out exactly for a listed, live, waiting login that can be polled, a code exchange exactly on an authorised callback, and each ends with its answer |
| `LoginHistory.LateCallbackUnlists` | src/auth/oauth-sessions.ts:281-288 | A callback after the end of a login takes it off the list and changes nothing else |
| `LoginHistory.ExchangesWereAuthorised` | src/auth/oauth-sessions.ts:281-345 | Over every run a login whose code was exchanged had an authorised callback while it was listed, live and waiting |
| `LoginHistory.TokensWereAnswered` | src/auth/oauth-sessions.ts:247-345 | Over every run a login with a token set got it from a poll or an exchange of its own |
| `OAuthSessions.CancelIsFinalIff` | src/auth/oauth-sessions.ts:231-272 | A cancelled login can never be revived exactly when no poll or exchange of it is in flight |
| `OAuthSessions.CancelledLoginCompletes` | src/auth/oauth-sessions.ts:247-272 | A run in which a cancelled login completes |
| `OAuthSessions.ExchangeBeginsIff` | src/auth/oauth-sessions.ts:281-330 | A completion begins its code exchange exactly for a listed, live, waiting login whose callback has no error, the login's own state and a code, while that state is good |
| `OAuthSessions.StatesWorkOnce` | src/auth/oauth-state.ts:57-66 | A state is accepted exactly when created for the provider and not expired, and never a second time |
| `OAuthSessions.ReserveKeeps` | src/auth/oauth-state.ts:39-55 | Creating a state keeps the store within its limit, and no state consumed more often than created |
| `OAuthSessions.ReserveMakesRoom` | src/auth/oauth-state.ts:39-55 | Creating a state drops every expired one, then the oldest of the rest, exactly as many as the limit asks for, and holds the new state and the kept ones with their records |
| `OAuthSessions.ConsumeKeeps` | src/auth/oauth-state.ts:57-66 | Consuming a state keeps the store within its limit, and no state consumed more often than created |
| `OAuthSessions.ConsumeRemoves` | src/auth/oauth-state.ts:57-66 | Consuming a state removes it, valid or not, together with every expired one, and touches no other; it counts as consumed just when it was good |
| `Rendezvous.RendezvousScore` | src/domain/routing.ts:21-29 | The loop computes the 32-bit FNV-1a score |
| `Rendezvous.OrderBySorts` | src/domain/routing.ts:36-49 | The order is a permutation sorted by descending score and then id |
| `Rendezvous.OrderIgnoresInputOrder` | src/domain/routing.ts:36-49 | With distinct ids the order does not depend on the input order |
| `Rendezvous.OrderCommutesWithFilter` | src/domain/routing.ts:36-49 | Removing members leaves the relative order of the rest unchanged |
| `HashSeparation.ScoreSeparates` | src/domain/routing.ts:21-29 | Every code unit of the id and of the key counts for the score: changing one changes it |
| `HashSeparation.StickyHashSeparates` | src/auth/credentials.ts:725 | Every code unit of the affinity and of the provider counts for the start of the sticky window |
| `HashVectors.ScoresStartAsPublished` | src/domain/routing.ts:21-29 | The 32-bit hash of "a" is the published FNV-1a value |
| `Routing.QualifiedReading` | src/domain/routing.ts:116-142 | `prefix/model` with a known prefix reads as that provider's model, whatever slashes the model has |
| `Routing.QualifiedOnlyByPrefix` | src/domain/routing.ts:116-142 | Nothing else reads as qualified |
| `Routing.DropSeen` | src/domain/routing.ts:157-172 | The loop over seen keys keeps first occurrences |
| `Routing.CollectMembers` | src/domain/routing.ts:157-172 | The loop collects what the members resolved to, in order |
| `Routing.ExpandCombo` | src/domain/routing.ts:157-186 | The expansion of a combo over its members' results |
| `Routing.ExpandFacts` | src/domain/routing.ts:157-186 | A combo's candidates have distinct keys, exactly those its members resolved to |
| `RoutingOrder.FallbackKeepsOrder` | src/domain/routing.ts:157-182 | A fallback combo's candidates come in the order in which their keys first occur among what its members resolve to |
| `RoutingOrder.FallbackComboInOrder` | src/domain/routing.ts:195-225 | A fallback combo of qualified members with different targets resolves to exactly them, in definition order |
| `RoutingOrder.RoundRobinFallsByScore` | src/domain/routing.ts:182-186 | A round-robin combo's candidates come by falling score, under the affinity if sticky and under the combo's id otherwise, equal scores by key |
| `RoutingOrder.QualifiedWins` | src/domain/routing.ts:195-205 | A qualified name resolves to its target whatever aliases and combos there are |
| `RoutingOrder.AliasBeforeCombo` | src/domain/routing.ts:206-215 | An alias that resolves wins over a combo of the same name |
| `RoutingOrder.NothingElseResolves` | src/domain/routing.ts:195-225 | A name that is none of the three is unresolved |
| `RoutingStability.RoundRobinStable` | src/domain/routing.ts:174-186 | Two round-robin expansions under one order key, the second over some of the first one's targets: the second is the first without the other targets, in the same order (keys determining targets) |
| `RoutingStability.FailoverKeysAreStable` | src/domain/routing.ts:157-186 | The same for target keys, whatever the targets |
| `RoutingStability.RemovalKeepsFailoverOrder` | src/domain/routing.ts:195-225 | Resolving a round-robin combo after members were taken out of its definition: what the remaining members resolve to, in the order it had before |
| `RoutingStability.OthersResolveAsBefore` | src/domain/routing.ts:195-225 | Changing the members of a combo changes the resolution of no name that does not lead to it |
| `RoutingStability.SlashFreeKeysDetermine` | src/domain/routing.ts:174-180 | Without slashes in provider ids a key determines its target |
| `RoutingStability.SlashesShareKeys` | src/domain/routing.ts:174-180 | Two different targets with one key, of which only the first is kept; it takes a slash in a provider id, and those the program uses have none |
| `Routing.TargetsAreReachable` | src/domain/routing.ts:195-225 | Every target is the prefix-qualified reading of a name reachable from the input |
| `Routing.ComboResultsAreDistinct` | src/domain/routing.ts:195-225 | A combo result is not empty and has no duplicates |
| `Routing.SevenHopsSuffice` | src/domain/routing.ts:195-225 | With reference paths of at most seven hops the result equals that of the resolver without a limit |
| `Routing.CapIsInvisible` | src/domain/routing.ts:195-225 | The same at every depth of the recursion |
| `RoutingCap.EightHopsMayNotSuffice` | src/domain/routing.ts:195-225 | A configuration with eight hops on which the cap shows |
| `Cache.MarkCacheSections` | src/domain/cache.ts:58-90 | The nested loops compute the sections, tools section included |
| `Cache.CountInstructions` | src/domain/cache.ts:171-178 | The loop counts the leading instruction sections |
| `Cache.SectionsListBlocks` | src/domain/cache.ts:58-90 | The block sections list every block once, in reading order, with its own stability |
| `Cache.EveryBlockIsListed` | src/domain/cache.ts:58-90 | Every block of the request has a section |
| `CacheSections.SectionsTellAll` | src/domain/cache.ts:58-90 | The marked sections tell of every block once, in order, its kind by role and place, its stability and its size; the tools section stands right behind the leading system and developer sections |
| `Cache.ToolsPositionIsIrrelevant` | src/domain/cache.ts:115-154 | Wherever the tools section is put, planning skips it |
| `Cache.ScanPrefix` | src/domain/cache.ts:115-140 | The prefix loop finds the end and the texts of the maximal leading run of stable cacheable blocks |
| `Cache.BuildCachePlan` | src/domain/cache.ts:115-154 | The loop computes the plan of the request |
| `Cache.PlanCoversStablePrefix` | src/domain/cache.ts:115-154 | Every block up to the plan's end is stable |
| `Cache.PlanIsMaximal` | src/domain/cache.ts:115-154 | No longer prefix is stable |
| `Cache.ApplyChangesOneFlag` | src/domain/cache.ts:92-113 | Applying a plan changes the cache key and one block's flag, nothing else |
| `Cache.PlanSurvivesApplication` | src/domain/cache.ts:92-154 | Planning again after applying gives the same plan |
| `Cache.LaterMessagesDoNotMatter` | src/domain/cache.ts:115-154 | Messages after a block that closed the prefix change neither the end nor the key |
| `CacheKey.KeySeparatesOneUnit` | src/domain/cache.ts:141-147 | Requests whose stable prefix and tools differ in one code unit get different cache keys |
| `CacheSections.KeyPartsAre` | src/domain/cache.ts:115-144 | The key is made from the texts of all blocks up to the end of the plan, in reading order, and then the tools |
| `Digest.Fnv1a64` | src/domain/cache.ts:200-212 | The loop, with the masks and the shift of the source, computes the 64-bit FNV-1a digest, two rounds per code unit |
| `Digest.HexRoundTrip` | src/domain/cache.ts:200-212 | The digest prints as sixteen hexadecimal digits that read back as its value |
| `Digest.DigestSeparatesOneUnit` | src/domain/cache.ts:200-212 | Inputs of equal length that differ in exactly one code unit never share a digest |
| `HashVectors.DigestsStartAsPublished` | src/domain/cache.ts:200-212 | The 64-bit hash of the bytes of "fo" is the published FNV-1a value |
| `Digest.TimesPrimeInjective` | src/domain/cache.ts:200-212 | A round of the digest is injective: multiplying by the prime modulo 2^64 can be undone |
| `TokenSaver.GenericFits` | src/domain/token-saver.ts:21-28 | A text over the limit and shorter than 10^23 is cut to at most the limit |
| `TokenSaver.GenericShortens` | src/domain/token-saver.ts:21-28 | A text over the limit gets strictly shorter, whatever its length |
| `TokenSaver.GenericKeepsEnds` | src/domain/token-saver.ts:21-28 | Kept are the first seven tenths of the limit and the end, 80 characters short of it together; the note says how much is missing |
| `TokenSaverLaws.NewlinesSplitLines` | src/domain/token-saver.ts:26 | The count of lines in the note is one less than the lines of what was cut |
| `TokenSaver.RunDedupLog` | src/domain/token-saver.ts:96-101 | The loop computes the deduplicated log |
| `TokenSaver.DedupIsLossless` | src/domain/token-saver.ts:96-101 | Expanding the notes restores the lines exactly when no line reads as a note without repeating its predecessor |
| `TokenSaver.DedupLogIsLossless` | src/domain/token-saver.ts:96-101 | The same on whole texts without lines of note form |
| `TokenSaverLaws.DedupLeavesNoRepeats` | src/domain/token-saver.ts:96-101 | Every run of equal lines comes out as one line, with one note when there were more |
| `TokenSaverLaws.NoteReads` | src/domain/token-saver.ts:98 | How a note reads, for one line and for several |
| `TokenFilters.RunReadNumbered` | src/domain/token-saver.ts:76-84 | The two greedy loops compute `readNumbered` |
| `TokenFilters.HeadAndTailNeverOverlap` | src/domain/token-saver.ts:76-84 | Over the limit the greedy head and tail never overlap, so the clamp at zero never acts |
| `TokenFilters.ReadNumberedShape` | src/domain/token-saver.ts:76-84 | The note counts exactly the lines between head and tail, at least one |
| `TokenFilters.ReadNumberedFits` | src/domain/token-saver.ts:76-84 | The result fits the limit, for the limits in use |
| `TokenSaverLaws.HeadAndTailAreLongest` | src/domain/token-saver.ts:80-82 | The head is the longest run of first lines within 60% of the limit, the tail the longest run of last lines within 30% |
| `TokenFilters.HunkEnd` | src/domain/token-saver.ts:30-43 | The inner loop finds the end of the hunk |
| `TokenFilters.CollectPieces` | src/domain/token-saver.ts:30-43 | The outer loop computes the pieces of the compressed diff |
| `TokenFilters.RunGitDiff` | src/domain/token-saver.ts:30-43 | The whole of the git-diff filter |
| `TokenFilters.GitDiffFollows` | src/domain/token-saver.ts:30-43 | The compressed diff loses only the middles of long hunks, keeps every header in place, and its notes count exactly what they stand for |
| `TokenSaverLaws.HunksKeepTheirEnds` | src/domain/token-saver.ts:30-43 | A hunk of more than eleven lines keeps its header, its first and its last five lines around the count of the others; a shorter one is kept whole |
| `TokenSaverLaws.NoHunksKeepAll` | src/domain/token-saver.ts:34 | Lines outside hunks are kept |
| `TokenSaverLaws.GitDiffFits` | src/domain/token-saver.ts:42-43 | The result fits the limit, and is cut no further when the shortened hunks fit |
| `TokenPipeline.SmartTruncate` | src/domain/token-saver.ts:103-118 | The candidate loop takes the first filter that is detected, allowed and shortens |
| `TokenSaverLaws.FirstSuitableWins` | src/domain/token-saver.ts:103-118 | Texts below 500 characters are left alone; of the filters in their order the first wins that recognises the first 1024 characters, is allowed and shortens; what none takes is cut exactly when over the limit |
| `TokenSaverLaws.LongTextsAreCut` | src/domain/token-saver.ts:103-118 | A text over the limit comes out within it, unless the git-status, tree, grep or dedup-log filter took it, and always shorter |
| `TokenPipeline.TruncateNeverLengthens` | src/domain/token-saver.ts:103-118 | A text stays exactly as it is or gets strictly shorter |
| `TokenPipeline.WithinLimitOnlyDedup` | src/domain/token-saver.ts:103-118 | Within the limit nothing is cut; at most the text is deduplicated, and unless one of its lines has the form of a note, reading the notes back restores it |
| `TokenPipeline.TokenSaverFrame` | src/domain/token-saver.ts:120-137 | Only tool results change, each kept or strictly shortened; counts, roles, other blocks and the last `2 * keepLastTurns` messages are unchanged |
| `TokenSaverLaws.OldResultsAreSaved` | src/domain/token-saver.ts:120-137 | Every tool result before the last six, four or two messages is truncated at 8000, 4000 or 2000 characters, by quality; later ones stay |
| `Ndjson.DecodeNdjson` | src/providers/commandcode.ts:102-120 | The output depends on the concatenated text only: any chunking yields the line-by-line decoding of the whole text, or of what had arrived at an abort |
| `Ndjson.AbortedIsPrefix` | src/providers/commandcode.ts:102-120 | An abort loses exactly a tail of the events |
| `Ndjson.ToolCallsAreDisciplined` | src/providers/commandcode.ts:87-100 | Each tool call starts at most once and every delta follows its start |
| `Ndjson.DecodedUsageAfterStop` | src/providers/commandcode.ts:87-100 | Every usage report directly follows a `message_stop` |
| `NdjsonContent.ContentIsKept` | src/providers/commandcode.ts:87-120 | Over a whole body the text, the arguments and name of each call, the stop reasons and the usage shown are those its lines sent, in order, up to a line that throws |
| `NdjsonContent.FinishReasonsMap` | src/providers/commandcode.ts:85 | Which finish reasons become which stop reasons |
| `NdjsonContent.UsageReads` | src/providers/commandcode.ts:98 | Which fields of a usage record become which token counts |
| `NdjsonContent.TrimCutsBlanks` | src/providers/commandcode.ts:114 | Trimming a line takes exactly the white space of ECMAScript off its ends |
| `NdjsonContent.NothingEmptyIsSent` | src/providers/commandcode.ts:92-95 | No empty text and no call without an id is sent; an empty delta only by a line that gives a whole call |
| `CommandCode.UsageNeverReachesConsumer` | src/app/recovery.ts:74-80 | Decoder and engine composed: the usage a Command Code stream reports, whether its body ends, is cut by an abort or by a failed read, never reaches the consumer, in any run and whatever other providers take part |
| `CommandCode.ErrorLinesAreNotRetried` | src/providers/commandcode.ts:99 | Under the engine's own decision an attempt whose body has a line that throws is the last of its run |
| `Ipv6.Ipv6ToBigInt` | src/domain/protocols.ts:451-494 | The parser's loops, with the shift and the or of the source, compute the value of the parsed groups |
| `Ipv6.PushGroups` | src/domain/protocols.ts:465-490 | The group loops assemble left, zero and right groups |
| `Ipv6.ParseInvertsPrinting` | src/domain/protocols.ts:451-494 | The parser inverts joining the parts of every form in section 2.2 of RFC 4291 |
| `Ipv6Print.PrintedAddressReadsBack` | src/domain/protocols.ts:433-494 | Any eight groups, printed with any sufficient number of digits of either case per group, any run of zero groups left to "::" and the last two groups in hexadecimal or as a dotted quad, are read back group by group |
| `Ipv6Print.PrintedValueReadsBack` | src/domain/protocols.ts:451-494 | Every value below 2^128, printed in any of these forms, is what the parser returns |
| `Ipv6Print.FullFormIsEnough` | src/domain/protocols.ts:451-494 | Every value has such a form: four digits in each group |
| `Ipv6Print.HexPrintReads` | src/domain/protocols.ts:433-436 | A group printed in hexadecimal, either case and any leading zeros, reads back as its number |
| `Ipv6Print.OctetPrintReads` | src/domain/protocols.ts:438-449 | An octet printed in decimal with leading zeros reads back as its number |
| `Ipv6Print.OctetsAre` | src/domain/protocols.ts:438-449 | An octet is one to three decimal digits that make at most 255 |
| `Ipv6Print.HextetsAre` | src/domain/protocols.ts:433-436 | A group is one to four hexadecimal digits of either case |
| `Ipv6.AcceptedIsSpelling` | src/domain/protocols.ts:451-494 | Everything accepted is one of those forms, or one with the quad written before the "::" |
| `Ipv6.EarlyQuadIsAccepted` | src/domain/protocols.ts:451-494 | A quad before the "::" is accepted and counts as the last two groups |
| `Ipv6.ValueBelow128` | src/domain/protocols.ts:451-494 | Accepted values are below 2^128 |
| `Cidr.RangeIsTopBits` | src/domain/protocols.ts:392-398 | `ipv6Range(p, n)`, with the mask and the or of the source, contains exactly the values whose top n bits are those of p, for every p of 128 bits |
| `Cidr.RangeIsBlock` | src/domain/protocols.ts:392-398 | Masking and or-ing a prefix of 128 bits give the first and last address of its block |
| `Cidr.EmbeddedByMask` | src/domain/protocols.ts:425-431 | The embedded address in the shifting and masking of the source |
| `Bits.AndHigh` | src/domain/protocols.ts:395-396 | And-ing with `2^w - 2^f` clears the low f bits of a w-bit value |
| `Bits.OrLow` | src/domain/protocols.ts:397 | Or-ing with `2^f - 1` fills the low f bits |
| `Bits.OrJoins` | src/domain/protocols.ts:490-493 | Or-ing n bits onto a value shifted left by n is adding them |
| `Bits.ShiftRightIsQuotient` | src/domain/protocols.ts:427 | Shifting right by n is dividing by 2^n |
| `Cidr.IsUnsafeIpv6` | src/domain/protocols.ts:416-431 | The loop over the ranges and the embedded check decide exactly membership in one of them |
| `Cidr.EmbeddedCheckAdds` | src/domain/protocols.ts:416-431 | The embedded check adds to the ranges only values of the form ::64:ff9b:a.b.c.d |
| `Cidr.UnsafeIpv4IsNetworks` | src/domain/protocols.ts:369-384 | The comparisons are exactly the networks their comments name |
| `Cidr.Nat64IsNotEmbedded` | src/domain/protocols.ts:425-431 | A value of the NAT64 network is never read as an embedded IPv4 address |
| `UnsafeAddresses.RangesAreNamedNetworks` | src/domain/protocols.ts:400-414 | In terms of the eight groups of an address, the table holds exactly the networks its comments name |
| `LogStream.TickServesEveryClient` | src/console/streams.ts:90-116 | The shared query serves every client as its own query would: the next rows above its watermark, in order, and what is left is exactly the rest |
| `LogStream.TickSkipsClientIff` | src/console/streams.ts:90-116 | A client with waiting rows gets none exactly when the slowest client is a whole batch behind it |
| `LogClients.BatchIsBounded` | src/storage/runtime/runtime.ts:1208-1214 | A tick reads as many of the oldest rows above the slowest watermark as there are, up to 200 and up to a batch for each client |
| `LogClients.RowIsSentIff` | src/console/streams.ts:76-88 | An open client is sent a row exactly when its frame fits, and is past the row either way |
| `LogStream.TickShrinksBacklog` | src/console/streams.ts:90-116 | Every tick takes a batch off the backlog of the slowest client |
| `LogStream.TicksCatchUp` | src/console/streams.ts:90-116 | Enough ticks for the slowest client bring every client up to date |
| `LogStreamRuns.EveryRowOnceInOrder` | src/console/streams.ts:90-147 | Over every run of writes, deletions, ticks, joins, leaves and clears: each client is offered its due rows once, in order, without a gap, and an open one is sent those that fit |
| `LogStreamRuns.DueIsWhatWasWritten` | src/console/streams.ts:90-116 | With nothing deleted or cleared, what is due is exactly what was written since |
| `LogStreamRuns.ClearLosesWhatWaits` | src/console/streams.ts:138-147 | A clear drops exactly the rows a client had waiting |
| `LogStreamRuns.ClearCanLoseANewRow` | src/console/streams.ts:138-147 | A run in which a row written after the deletion never reaches a client |
| `LogClients.ClientsStayWithinLimit` | src/console/streams.ts:163-191 | Over every run the clients stay within their limit and their ids apart |
| `LogClients.ComingAndGoing` | src/console/streams.ts:153-191 | A client comes in exactly while there is room, at the newest row; leaving takes out that client and no other |
| `LogHub.InitSnapshot` | src/console/streams.ts:192-206 | The shrink loop leaves the longest run of newest rows that fits, or an error exactly when the newest alone does not fit |
| `LogClients.InitBytesAreSum` | src/console/streams.ts:192-193 | The init event is its envelope, its rows, and a comma between two rows |
| `LogHub.ConsoleLogStreamHub.Tick` | src/console/streams.ts:90-116 | The loops of the tick compute it for all clients |
| `LogHub.ConsoleLogStreamHub.Serve` | src/console/streams.ts:107-114 | The inner loop over the rows, for one client |
| `LogHub.ConsoleLogStreamHub.SlowestWatermark` | src/console/streams.ts:95-99 | The loop finds the smallest watermark |
| `LogHub.ConsoleLogStreamHub.Attach` | src/console/streams.ts:163-191 | A client joins at the newest row, exactly while there is room |
| `LogHub.ConsoleLogStreamHub.Detach` | src/console/streams.ts:153-159 | A client that leaves is removed, and no other |
| `LogHub.ConsoleLogStreamHub.BroadcastClear` | src/console/streams.ts:138-147 | The loop raises every watermark to the newest row |
| `Studio.EvictsOldestFirst` | src/console/model-studio.ts:125-139 | What the eviction loop throws out is never newer than what it keeps |
| `Studio.EvictsNoMoreThanNeeded` | src/console/model-studio.ts:125-139 | The loop throws out the k oldest sessions, where k is the smallest number that makes room |
| `Studio.EvictMakesRoomIff` | src/console/model-studio.ts:125-139 | The loop ends with room exactly when the new session fits an empty store |
| `Studio.StoreOutcome` | src/console/model-studio.ts:125-139 | When a session is stored and what becomes of the store, in all three cases; a stored session displaced the smallest number of oldest rivals that made room |
| `StudioStore.RunsStayBounded` | src/console/model-studio.ts:102-139 | Over every run: session count, total bytes and single sizes within their limits, no id twice |
| `StudioStore.PatchTellsTheTruthIff` | src/console/model-studio.ts:174-189 | A patch returns what the store then holds, exactly unless the session is above the total budget and within its own |
| `StudioStore.PatchCanEmptyTheStore` | src/console/model-studio.ts:174-189 | A patch that hands back the old session and leaves the store empty |
| `StudioStore.StoredIsFound` | src/console/model-studio.ts:125-139 | A stored session is found under its id |
| `StudioStore.LookNeverFindsExpired` | src/console/model-studio.ts:109-114 | A lookup finds a live session and never an expired one |
| `StudioStore.SessionStore.RemoveSession` | src/console/model-studio.ts:102-107 | Removal keeps the byte total equal to the sum over sessions |
| `StudioStore.SessionStore.EvictExpired` | src/console/model-studio.ts:109-114 | The loop removes exactly the expired sessions |
| `StudioStore.SessionStore.OldestSessionId` | src/console/model-studio.ts:116-123 | The loop finds the oldest session other than the excluded one |
| `StudioStore.SessionStore.MakeRoom` | src/console/model-studio.ts:130-134 | The eviction loop terminates and keeps the books |
| `StudioStore.SessionStore.StoreSession` | src/console/model-studio.ts:125-139 | The whole of `storeSession` |
| `StudioStore.SessionStore.PatchSession` | src/console/model-studio.ts:174-189 | The whole of `patchStudioSession` |
| `StudioStore.SessionStore.DeleteSession` | src/console/model-studio.ts:191-195 | Deleting removes the session and says whether there was one |
| `Transitions.RunsKeepTheBooks` | src/console/route-transitions.ts:30-76 | Over every run the counter is the number of routes, no scope map is empty, and each ring holds the last events since its route was last inserted |
| `Transitions.LimitHoldsIff` | src/console/route-transitions.ts:57-76 | The route limit holds over every run exactly when it is at least one |
| `Transitions.RecordAppends` | src/console/route-transitions.ts:57-76 | A recorded event is the latest of its route |
| `Transitions.OthersAreUntouched` | src/console/route-transitions.ts:45-76 | Every other route is left as it was, except the one that makes way in a full store |
| `Transitions.OldestMakesWayIff` | src/console/route-transitions.ts:45-55 | Recording a new route in a full store removes exactly one other route, the first of the first scope, which is the oldest of all exactly when no other scope has an older first route |
| `Transitions.YoungerMakesWay` | src/console/route-transitions.ts:45-55 | A run in which a younger route is evicted before an older one |
| `TransitionStore.LatestIsRecorded` | src/console/route-transitions.ts:78-81 | Right after a record, the store reports that event |
| `TransitionStore.MemoryRouteTransitionStore.EvictOldest` | src/console/route-transitions.ts:45-55 | The walk over the scopes evicts and counts one route |
| `TransitionStore.MemoryRouteTransitionStore.Record` | src/console/route-transitions.ts:57-76 | The whole of `record` |
| `Snapshot.BuildAccounts` | src/app/routing-snapshot.ts:129-150 | The loops fill the account map with exactly the rows of each provider, all active and never none for a custom one |
| `Snapshot.BuildPrefixes` | src/app/routing-snapshot.ts:80-111 | The loops fill the prefix map |
| `Snapshot.PrefixOwner` | src/app/routing-snapshot.ts:80-111 | Who owns a prefix: the last adapter registering it by id, else the first with a built-in model under it, else the first with a stored one |
| `Snapshot.OwnIdsResolve` | src/app/routing-snapshot.ts:80-111 | No model name takes a provider's own id away from it |
| `Snapshot.CustomProvidersAreReady` | src/app/routing-snapshot.ts:136-149 | A custom provider always has an account, and all its accounts are active |
| `Snapshot.KnownModelsAre` | src/app/routing-snapshot.ts:96-111 | Known are exactly the stored models of the adapters that have any |
| `SnapshotCache.LookupsAreFresh` | src/app/routing-snapshot.ts:63-75 | Over every interleaving of tracked mutations, lookups and late publications, a lookup gets the snapshot of the configuration at its call |
| `SnapshotCache.LookupBuildsOnce` | src/app/routing-snapshot.ts:66-73 | A lookup builds exactly when no snapshot of the current revision is cached, and the next one reuses what it built |
| `SnapshotCache.OlderBuildOverwrites` | src/app/routing-snapshot.ts:63-75 | A run in which an older build overwrites the cached slot, harmlessly |
| `SnapshotCache.BatchIsStaleIff` | src/app/composition.ts:301-318 | After a batch that switches accounts, lookups are stale exactly when a current snapshot was cached and a non-custom account flipped |
| `SnapshotCache.DeletionIsStaleIff` | src/app/composition.ts:301-318 | After a batch that deletes accounts, lookups are stale exactly when a current snapshot was cached and a deleted account showed: its provider is not custom, or its rows do not look like the stand-in |
| `SnapshotCache.BatchLeavesLookupsStale` | src/app/composition.ts:301-318 | A run in which a lookup after a batch still reports the account the batch switched off |
| `SnapshotCache.RouteSnapshotCache.BeginGet` | src/app/routing-snapshot.ts:66-72 | The first half of `get`: the cached snapshot, or a fresh build |
| `SnapshotCache.RouteSnapshotCache.EndGet` | src/app/routing-snapshot.ts:66-72 | The second half: the built snapshot is cached |

## Left out

- Network, SSE transport, timers, SQLite, clocks, random numbers and cryptography: their answers are inputs. `JSON.parse`, `JSON.stringify`, `TextDecoder` and the regular expressions of the filters and of cache stability are parameters; the text decoder is taken to yield the concatenated text.
- `Array.prototype.sort` is taken to be stable, as ECMAScript requires, and modelled as insertion sort. `rankAccountCandidates` is left out because it orders ids with `localeCompare`; selection starts from the ranked, eligible accounts.
- The lifecycle object's `close` callbacks and telemetry hooks of the engine: they carry no decision.
- The filters `gitStatus`, `tree` and `grep` are functions of the text given as parameters, bounded only by the rule that accepts a shorter result.
- `cooldownDelayMs` and its jitter: every failure brings its delay. Health rows written from the console and quota windows are not part of this model.
- Keep-alive pings of the console log stream, and an enqueue that throws in the middle of a batch: a client breaks between two steps.
- The freebuff and custom adapters, the other provider adapters, the message codecs and the dashboard views: each is short branching over one call.
- OAuthSessions.OneExchangePerLogin: the login manager and the state store are modelled on values, as steps over their maps, not as classes; session records that left the map stay reachable to the calls that hold them, as in the source.
- OAuth.OAuthCoordinator.ResumeCall: promises and pending calls, which the runtime keeps, are fields of the model; token expiry uses the times the caller passes in.
- Health.RecordsStaySane: the class `Sweep.AccountHealthManager` covers undisturbed calls; interleaved calls are the steps of `Health`, on values.
- TokenSaver.GenericFits: stated for limits of at least 267 characters, below which the note alone can exceed the limit; the limits in use are 2000 and more.
- TokenSaver.GenericShortens: stated for limits from 267 to 10000 characters, which covers the limits in use.
- TokenSaverLaws.GitDiffFits: stated for limits of at least 267 characters and texts below 10^21, which covers the limits in use.
- TokenSaverLaws.LongTextsAreCut: stated for limits of at least 2000 characters and texts below 10^21, as used.
- TokenSaverLaws.DedupLeavesNoRepeats: stated for logs without lines of note form, which alone could be taken for notes.
- TokenFilters.ReadNumberedFits: stated for limits of at least 2000 characters and texts below 10^23, as used.
- Cidr.Ipv6Range: the prefixes are given as numbers; reading them from 32 hexadecimal digits is the runtime's `BigInt`.
- RoutingStability.RoundRobinStable: compares whole targets, so it asks that no two of them share a key; without that `FailoverKeysAreStable` compares their keys.
- RoutingStability.RemovalKeepsFailoverOrder: the remaining members must not lead back to the combo within the recursion cap; a combo that contains itself changes what they resolve to.
- StudioStore.SessionStore.StoreSession: a session's size in bytes is given, not measured; times are numbers, so comparing them stands for comparing ISO timestamps.
- Snapshot.BuildAccounts: rows carry the fields routing reads; combos come with their strategy already normalized.
- Selector.StickyPoolIsWindow: requires distinct ids among the eligible accounts, which are primary keys in the source.
