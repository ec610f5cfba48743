/** Interactive OAuth logins (src/auth/oauth-sessions.ts) over the one-time state store
    (src/auth/oauth-state.ts), await by await. A poll or an exchange holds on to its session
    record across its await, whether or not the session is still listed by then. */
module OAuthSessions {
  import opened Common

  datatype Status = Waiting | Exchanging | Completed | Failed | Cancelled | Expired

  datatype Session = Session(provider: string, state: string, created: int, expires: int, device: bool,
    status: Status, hasToken: bool)

  datatype StateRecord = StateRecord(provider: string, created: int, expires: int)

  datatype Op = Polling(session: nat) | Exchange(session: nat)

  datatype PollReply = Pending | Ready | Lapsed | Refused

  datatype Callback = Callback(code: Option<string>, state: Option<string>, error: Option<string>)

  type Positive = n: nat | n >= 1 witness 1

  datatype Limits = Limits(maxSessions: Positive, ttl: nat, maxStates: Positive, stateTtl: nat)

  /** The one-time states. `order` lists them in insertion order; `reserved` and `consumed`
      are history: how often each state was created and consumed. */
  datatype Store = Store(states: map<string, StateRecord>, order: seq<string>, reserved: map<string, nat>,
    consumed: map<string, nat>)

  /** `records` are all session objects ever made, `listed` the ids in the sessions map in
      insertion order; `exchanges` is history: the exchanges begun per session. */
  datatype State = State(records: map<nat, Session>, listed: seq<nat>, store: Store, pending: map<nat, Op>,
    exchanges: map<nat, nat>)

  datatype Step =
    | Start(session: nat, provider: string, state: string, device: bool, driverExpires: int, now: int)
    | Get(session: nat, now: int)
    | Cancel(session: nat)
    | BeginPoll(call: nat, session: nat, pollable: bool, now: int)
    | EndPoll(call: nat, reply: PollReply)
    | BeginComplete(call: nat, session: nat, callback: Callback, exchangeable: bool, now: int)
    | EndExchange(call: nat, ok: bool)

  function Add<K>(counts: map<K, nat>, key: K): map<K, nat> {
    counts[key := Tally(counts, key) + 1]
  }

  // ------------------------------------------------------------ the two bounded maps

  /** Keys whose entry is due by `now` are dropped. */
  function Unexpired<K(!new,==)>(order: seq<K>, expires: K -> int, now: int): (left: seq<K>)
    ensures |left| <= |order| && forall k :: k in left <==> k in order && expires(k) > now
  {
    if order == [] then []
    else (if expires(order[0]) <= now then [] else [order[0]]) + Unexpired(order[1..], expires, now)
  }

  /** The entry created first, the earliest inserted among equals. */
  function OldestAt<K(!new)>(order: seq<K>, created: K -> int): (i: nat)
    requires order != []
    ensures i < |order| && forall j :: 0 <= j < |order| ==> created(order[i]) <= created(order[j])
    ensures forall j :: 0 <= j < i ==> created(order[i]) < created(order[j])
  {
    var last := |order| - 1;
    if last == 0 then 0
    else
      var best := OldestAt(order[..last], created);
      assert forall j :: 0 <= j < last ==> order[..last][j] == order[j];
      if created(order[last]) < created(order[best]) then last else best
  }

  /** `while (size >= limit) evictOldest()`. */
  function Shrink<K(!new)>(order: seq<K>, created: K -> int, limit: Positive): (left: seq<K>)
    ensures |left| < limit && forall k :: k in left ==> k in order
    decreases |order|
  {
    if |order| < limit then order
    else var i := OldestAt(order, created); Shrink(order[..i] + order[i + 1..], created, limit)
  }

  function WithoutKey<K(!new,==)>(order: seq<K>, key: K): (left: seq<K>)
    ensures |left| <= |order| && forall k :: k in left <==> k in order && k != key
  {
    if order == [] then [] else (if order[0] == key then [] else [order[0]]) + WithoutKey(order[1..], key)
  }

  function ExpiresOf(records: map<nat, Session>, now: int): nat -> int {
    id => if id in records then records[id].expires else now
  }

  function CreatedOf(records: map<nat, Session>): nat -> int {
    id => if id in records then records[id].created else 0
  }

  function StateExpires(states: map<string, StateRecord>, now: int): string -> int {
    key => if key in states then states[key].expires else now
  }

  function StateCreated(states: map<string, StateRecord>): string -> int {
    key => if key in states then states[key].created else 0
  }

  function Keep(s: Store, order: seq<string>): Store {
    s.(order := order, states := map key | key in s.states && key in order :: s.states[key])
  }

  function SweepStates(s: Store, now: int): Store {
    Keep(s, Unexpired(s.order, StateExpires(s.states, now), now))
  }

  /** `OAuthStateManager.create`. */
  function Reserve(limits: Limits, s: Store, state: string, provider: string, now: int): Store {
    var swept := SweepStates(s, now);
    Insert(Keep(swept, Shrink(swept.order, StateCreated(swept.states), limits.maxStates)), state,
        StateRecord(provider, now, now + limits.stateTtl))
  }

  function Insert(s: Store, state: string, record: StateRecord): Store {
    Store(s.states[state := record], if state in s.order then s.order else s.order + [state],
          Add(s.reserved, state), s.consumed)
  }

  predicate ValidState(s: Store, state: string, provider: string, now: int) {
    state in s.states && s.states[state].provider == provider && s.states[state].expires > now
  }

  /** `OAuthStateManager.consume`: a state that is found is gone, valid or not. */
  function Consume(s: Store, state: string, provider: string, now: int): (bool, Store) {
    var swept := SweepStates(s, now);
    (ValidState(swept, state, provider, now), Remove(swept, state, ValidState(swept, state, provider, now)))
  }

  function Remove(s: Store, state: string, consumed: bool): Store {
    var gone := Keep(s, WithoutKey(s.order, state));
    if consumed then gone.(consumed := Add(gone.consumed, state)) else gone
  }

  // ------------------------------------------------------------ steps

  predicate Enabled(s: State, step: Step) {
    match step
    case Start(session, _, _, _, _, _) => session !in s.records
    case BeginPoll(call, _, _, _) => call !in s.pending
    case BeginComplete(call, _, _, _, _) => call !in s.pending
    case EndPoll(call, _) => call in s.pending && s.pending[call].Polling? && s.pending[call].session in s.records
    case EndExchange(call, _) => call in s.pending && s.pending[call].Exchange? && s.pending[call].session in s.records
    case _ => true
  }

  function SetStatus(s: State, session: nat, status: Status): State
    requires session in s.records
  {
    var record := s.records[session];
    s.(records := s.records[session := record.(status := status, hasToken := record.hasToken || status.Completed?)])
  }

  predicate Due(s: State, session: nat, now: int) {
    session in s.records && s.records[session].expires <= now
  }

  predicate Listed(s: State, session: nat) {
    session in s.listed && session in s.records
  }

  function StartOf(limits: Limits, s: State, step: Step): State
    requires step.Start?
  {
    var Start(session, provider, state, device, driverExpires, now) := step;
    var alive := Unexpired(s.listed, ExpiresOf(s.records, now), now);
    var expires := if driverExpires < now + limits.ttl then driverExpires else now + limits.ttl;
    s.(store := Reserve(limits, s.store, state, provider, now),
       listed := Shrink(alive, CreatedOf(s.records), limits.maxSessions) + [session],
       records := s.records[session := Session(provider, state, now, expires, device, Waiting, false)])
  }

  function PollOf(s: State, call: nat, session: nat, pollable: bool, now: int): State {
    if !Listed(s, session) then s
    else if Due(s, session, now) then SetStatus(s, session, Expired)
    else if !s.records[session].status.Waiting? || !pollable then s
    else s.(pending := s.pending[call := Polling(session)])
  }

  function PolledOf(s: State, call: nat, session: nat, reply: PollReply): State
    requires session in s.records
  {
    var done := s.(pending := s.pending - {call});
    match reply
    case Pending => done
    case Ready => SetStatus(done, session, Completed)
    case Lapsed => SetStatus(done, session, Expired)
    case Refused => SetStatus(done, session, Failed)
  }

  function CompleteOf(s: State, call: nat, session: nat, callback: Callback, exchangeable: bool, now: int): State {
    if !Listed(s, session) then s
    else if Due(s, session, now) then s.(listed := WithoutKey(s.listed, session))
    else
      var record := s.records[session];
      if !record.status.Waiting? then s
      else if callback.error.Some? || callback.state != Some(record.state) then SetStatus(s, session, Failed)
      else
        var (valid, store) := Consume(s.store, record.state, record.provider, now);
        var t := s.(store := store);
        if !valid || callback.code.None? || callback.code.value == [] || !exchangeable then
          SetStatus(t, session, Failed)
        else BeginExchange(t, call, session)
  }

  function BeginExchange(s: State, call: nat, session: nat): State
    requires session in s.records
  {
    SetStatus(s, session, Exchanging).(
      pending := s.pending[call := Exchange(session)], exchanges := Add(s.exchanges, session))
  }

  function Apply(limits: Limits, s: State, step: Step): State
    requires Enabled(s, step)
  {
    match step
    case Start(_, _, _, _, _, _) => StartOf(limits, s, step)
    case Get(session, now) => if Listed(s, session) && Due(s, session, now) then SetStatus(s, session, Expired) else s
    case Cancel(session) =>
      if Listed(s, session) && s.records[session].status.Waiting? then SetStatus(s, session, Cancelled) else s
    case BeginPoll(call, session, pollable, now) => PollOf(s, call, session, pollable, now)
    case EndPoll(call, reply) => PolledOf(s, call, s.pending[call].session, reply)
    case BeginComplete(call, session, callback, exchangeable, now) =>
      CompleteOf(s, call, session, callback, exchangeable, now)
    case EndExchange(call, ok) =>
      SetStatus(s.(pending := s.pending - {call}), s.pending[call].session, if ok then Completed else Failed)
  }

  function Run(limits: Limits, s: State, steps: seq<Step>): State
    decreases |steps|
  {
    if steps == [] then s else Run(limits, if Enabled(s, steps[0]) then Apply(limits, s, steps[0]) else s, steps[1..])
  }

  const EMPTY := State(map[], [], Store(map[], [], map[], map[]), map[], map[])

  // ------------------------------------------------------------ one exchange, bounded maps, one-time states

  ghost predicate StoreOk(limits: Limits, s: Store) {
    && |s.order| <= limits.maxStates
    && (forall key :: key in s.states <==> key in s.order)
    && (forall key :: Tally(s.consumed, key) + (if key in s.states then 1 else 0) <= Tally(s.reserved, key))
  }

  ghost predicate SessionsOk(limits: Limits, s: State) {
    && |s.listed| <= limits.maxSessions
    && (forall id :: Tally(s.exchanges, id) <= 1)
    && (forall id :: Tally(s.exchanges, id) == 1 ==> id in s.records && !s.records[id].status.Waiting?)
    && (forall call :: call in s.pending ==> s.pending[call].session in s.records)
  }

  lemma KeepKeeps(limits: Limits, s: Store, order: seq<string>)
    requires StoreOk(limits, s) && |order| <= limits.maxStates && forall key :: key in order ==> key in s.order
    ensures StoreOk(limits, Keep(s, order))
  {
  }

  lemma InsertKeeps(limits: Limits, s: Store, state: string, record: StateRecord)
    requires StoreOk(limits, s) && |s.order| < limits.maxStates
    ensures StoreOk(limits, Insert(s, state, record))
  {
  }

  lemma SweepKeeps(limits: Limits, s: Store, now: int)
    requires StoreOk(limits, s)
    ensures StoreOk(limits, SweepStates(s, now))
  {
    hide Keep;
    assert |s.order| <= limits.maxStates;
    hide StoreOk;
    KeepKeeps(limits, s, Unexpired(s.order, StateExpires(s.states, now), now));
    assert StoreOk(limits, SweepStates(s, now));
  }

  lemma ReserveKeeps(limits: Limits, s: Store, state: string, provider: string, now: int)
    requires StoreOk(limits, s)
    ensures StoreOk(limits, Reserve(limits, s, state, provider, now))
  {
    hide StoreOk, SweepStates, Insert;
    SweepKeeps(limits, s, now);
    var swept := SweepStates(s, now);
    var left := Shrink(swept.order, StateCreated(swept.states), limits.maxStates);
    KeepKeeps(limits, swept, left);
    assert Keep(swept, left).order == left;
    hide Keep, Shrink;
    InsertKeeps(limits, Keep(swept, left), state, StateRecord(provider, now, now + limits.stateTtl));
    assert StoreOk(limits, Reserve(limits, s, state, provider, now));
  }

  lemma RemoveKeeps(limits: Limits, s: Store, state: string, consumed: bool)
    requires StoreOk(limits, s) && (consumed ==> state in s.states)
    ensures StoreOk(limits, Remove(s, state, consumed))
  {
    var gone := Keep(s, WithoutKey(s.order, state));
    KeepKeeps(limits, s, WithoutKey(s.order, state));
    assert state !in gone.states && gone.consumed == s.consumed && gone.reserved == s.reserved;
    hide Keep, WithoutKey;
    assert Tally(s.consumed, state) + (if state in s.states then 1 else 0) <= Tally(s.reserved, state);
    forall key
      ensures var left := Remove(s, state, consumed);
              Tally(left.consumed, key) + (if key in left.states then 1 else 0) <= Tally(left.reserved, key)
    {
      assert Tally(gone.consumed, key) + (if key in gone.states then 1 else 0) <= Tally(gone.reserved, key);
    }
  }

  lemma ConsumeKeeps(limits: Limits, s: Store, state: string, provider: string, now: int)
    requires StoreOk(limits, s)
    ensures StoreOk(limits, Consume(s, state, provider, now).1)
  {
    hide StoreOk, SweepStates, Remove;
    SweepKeeps(limits, s, now);
    var swept := SweepStates(s, now);
    RemoveKeeps(limits, swept, state, ValidState(swept, state, provider, now));
    assert StoreOk(limits, Consume(s, state, provider, now).1);
  }

  /** Whatever is not in `left` was created no later than what is. */
  ghost predicate DropsOldest<K(!new)>(order: seq<K>, left: seq<K>, created: K -> int) {
    forall gone, kept :: gone in order && gone !in left && kept in left ==> created(gone) <= created(kept)
  }

  lemma DropOneMore<K(!new)>(order: seq<K>, i: nat, left: seq<K>, created: K -> int)
    requires i < |order| && forall j :: 0 <= j < |order| ==> created(order[i]) <= created(order[j])
    requires DropsOldest(order[..i] + order[i + 1..], left, created)
    requires forall k :: k in left ==> k in order[..i] + order[i + 1..]
    ensures DropsOldest(order, left, created)
  {
    var rest := order[..i] + order[i + 1..];
    forall gone, kept | gone in order && gone !in left && kept in left
      ensures created(gone) <= created(kept)
    {
      var j :| 0 <= j < |order| && order[j] == gone;
      assert kept in rest && kept in order;
      if j != i { assert gone == rest[if j < i then j else j - 1]; }
    }
  }

  /** Shrinking drops the oldest entries, and no more of them than it has to. */
  lemma {:induction false} ShrinkDropsOldest<K(!new)>(order: seq<K>, created: K -> int, limit: Positive)
    ensures |Shrink(order, created, limit)| == Min(|order|, limit - 1)
    ensures DropsOldest(order, Shrink(order, created, limit), created)
    decreases |order|
  {
    if |order| < limit { return; }
    var i := OldestAt(order, created);
    var rest := order[..i] + order[i + 1..];
    assert Shrink(order, created, limit) == Shrink(rest, created, limit);
    ShrinkDropsOldest(rest, created, limit);
    hide Shrink, OldestAt, DropsOldest;
    DropOneMore(order, i, Shrink(rest, created, limit), created);
  }

  /** What is left of the unexpired states once there is room: all of them, or the youngest. */
  ghost predicate RoomMade(limits: Limits, s: Store, left: seq<string>, now: int) {
    var alive := SweepStates(s, now).order;
    && |left| == Min(|alive|, limits.maxStates - 1)
    && (forall key :: key in left ==> key in s.states && s.states[key].expires > now)
    && (forall gone, kept :: gone in s.states && s.states[gone].expires > now && gone !in left && kept in left ==>
          s.states[gone].created <= s.states[kept].created)
  }

  lemma SweepLeavesUnexpired(limits: Limits, s: Store, now: int)
    requires StoreOk(limits, s)
    ensures var swept := SweepStates(s, now);
            forall key ::
              && (key in swept.order <==> key in s.states && s.states[key].expires > now)
              && (key in swept.states <==> key in swept.order)
              && (key in swept.states ==> swept.states[key] == s.states[key])
  {
    hide Unexpired;
  }

  lemma RoomIsMade(limits: Limits, s: Store, now: int)
    requires StoreOk(limits, s)
    ensures var swept := SweepStates(s, now);
            RoomMade(limits, s, Shrink(swept.order, StateCreated(swept.states), limits.maxStates), now)
  {
    var swept := SweepStates(s, now);
    var created := StateCreated(swept.states);
    hide StoreOk, SweepStates, Shrink, OldestAt;
    SweepLeavesUnexpired(limits, s, now);
    ShrinkDropsOldest(swept.order, created, limits.maxStates);
    assert forall key :: key in swept.states ==> created(key) == s.states[key].created;
  }

  /** Creating a state drops every expired one, then the oldest of the others, as many as
      the limit asks for, and then holds the new state with its record and those kept with
      theirs. */
  lemma ReserveMakesRoom(limits: Limits, s: Store, state: string, provider: string, now: int)
      returns (left: seq<string>)
    requires StoreOk(limits, s)
    ensures RoomMade(limits, s, left, now)
    ensures var t := Reserve(limits, s, state, provider, now);
            && state in t.states && t.states[state] == StateRecord(provider, now, now + limits.stateTtl)
            && forall key :: key != state ==>
                 (key in t.states <==> key in left) && (key in t.states ==> t.states[key] == s.states[key])
  {
    var swept := SweepStates(s, now);
    left := Shrink(swept.order, StateCreated(swept.states), limits.maxStates);
    hide StoreOk, SweepStates, RoomMade, Shrink, Add;
    RoomIsMade(limits, s, now);
    SweepLeavesUnexpired(limits, s, now);
  }

  /** Consuming a state removes it and every expired one and touches no other; it is counted
      as consumed just when it was live and created for the provider. */
  lemma ConsumeRemoves(limits: Limits, s: Store, state: string, provider: string, now: int)
    requires StoreOk(limits, s)
    ensures var (valid, t) := Consume(s, state, provider, now);
            && (valid <==> state in s.states && s.states[state].provider == provider && s.states[state].expires > now)
            && state !in t.states
            && (forall key :: key != state ==>
                  && (key in t.states <==> key in s.states && s.states[key].expires > now)
                  && (key in t.states ==> t.states[key] == s.states[key]))
            && t.reserved == s.reserved && t.consumed == if valid then Add(s.consumed, state) else s.consumed
  {
    SweepLeavesUnexpired(limits, s, now);
    var swept := SweepStates(s, now);
    assert swept.reserved == s.reserved && swept.consumed == s.consumed;
    hide StoreOk, SweepStates;
  }

  lemma StatusKeeps(limits: Limits, s: State, session: nat, status: Status)
    requires SessionsOk(limits, s) && session in s.records && !status.Waiting?
    ensures SessionsOk(limits, SetStatus(s, session, status))
  {
  }

  lemma ExchangeKeeps(limits: Limits, s: State, call: nat, session: nat)
    requires SessionsOk(limits, s) && session in s.records && s.records[session].status.Waiting?
    ensures SessionsOk(limits, BeginExchange(s, call, session))
  {
    assert Tally(s.exchanges, session) == 0;
    var t := BeginExchange(s, call, session);
    forall id
      ensures Tally(t.exchanges, id) <= 1 && (Tally(t.exchanges, id) == 1 ==>
                id in t.records && !t.records[id].status.Waiting?)
    {
      assert Tally(s.exchanges, id) <= 1;
    }
  }

  lemma StartKeeps(limits: Limits, s: State, step: Step)
    requires SessionsOk(limits, s) && step.Start? && step.session !in s.records
    ensures SessionsOk(limits, StartOf(limits, s, step))
  {
    hide Reserve;
    assert step.session !in s.records;
  }

  lemma CompleteKeeps(limits: Limits, s: State, call: nat, session: nat, callback: Callback, exchangeable: bool,
                      now: int)
    requires SessionsOk(limits, s)
    ensures SessionsOk(limits, CompleteOf(s, call, session, callback, exchangeable, now))
  {
    var t := CompleteOf(s, call, session, callback, exchangeable, now);
    if Listed(s, session) && !Due(s, session, now) && s.records[session].status.Waiting? {
      var record := s.records[session];
      hide Consume, SessionsOk, SetStatus, BeginExchange;
      StatusKeeps(limits, s, session, Failed);
      var u := s.(store := Consume(s.store, record.state, record.provider, now).1);
      OtherStore(limits, s, u);
      StatusKeeps(limits, u, session, Failed);
      ExchangeKeeps(limits, u, call, session);
      assert SessionsOk(limits, t);
    }
  }

  lemma OtherStore(limits: Limits, s: State, t: State)
    requires SessionsOk(limits, s) && t == s.(store := t.store)
    ensures SessionsOk(limits, t)
  {
  }

  lemma PollKeeps(limits: Limits, s: State, step: Step)
    requires SessionsOk(limits, s) && Enabled(s, step) && !step.Start? && !step.BeginComplete?
    ensures SessionsOk(limits, Apply(limits, s, step)) && Apply(limits, s, step).store == s.store
  {
  }

  lemma StepKeeps(limits: Limits, s: State, step: Step)
    requires StoreOk(limits, s.store) && SessionsOk(limits, s) && Enabled(s, step)
    ensures StoreOk(limits, Apply(limits, s, step).store) && SessionsOk(limits, Apply(limits, s, step))
  {
    hide StoreOk, SessionsOk, Reserve, Consume;
    var t := Apply(limits, s, step);
    match step {
      case Start(_, provider, state, _, _, now) =>
        StartKeeps(limits, s, step);
        ReserveKeeps(limits, s.store, state, provider, now);
        assert StoreOk(limits, t.store) && SessionsOk(limits, t);
      case BeginComplete(call, session, callback, exchangeable, now) =>
        CompleteKeeps(limits, s, call, session, callback, exchangeable, now);
        if session in s.records {
          ConsumeKeeps(limits, s.store, s.records[session].state, s.records[session].provider, now);
        }
        assert StoreOk(limits, t.store) && SessionsOk(limits, t);
      case _ =>
        PollKeeps(limits, s, step);
        hide Apply;
        assert StoreOk(limits, t.store) && SessionsOk(limits, t);
    }
  }

  lemma {:induction false} RunKeeps(limits: Limits, s: State, steps: seq<Step>)
    requires StoreOk(limits, s.store) && SessionsOk(limits, s)
    ensures StoreOk(limits, Run(limits, s, steps).store) && SessionsOk(limits, Run(limits, s, steps))
    decreases |steps|
  {
    if steps == [] { return; }
    hide StoreOk, SessionsOk, Apply;
    if Enabled(s, steps[0]) { StepKeeps(limits, s, steps[0]); }
    var t := if Enabled(s, steps[0]) then Apply(limits, s, steps[0]) else s;
    assert Run(limits, s, steps) == Run(limits, t, steps[1..]);
    RunKeeps(limits, t, steps[1..]);
    assert StoreOk(limits, Run(limits, s, steps).store) && SessionsOk(limits, Run(limits, s, steps));
  }

  /** Over every interleaving of starts, polls, completions and cancellations: at most one
      code exchange per session, no more sessions and states than allowed, and no state
      consumed more often than it was created. */
  lemma OneExchangePerLogin(limits: Limits, steps: seq<Step>, session: nat, state: string)
    ensures var s := Run(limits, EMPTY, steps);
            && Tally(s.exchanges, session) <= 1
            && |s.listed| <= limits.maxSessions && |s.store.order| <= limits.maxStates
            && Tally(s.store.consumed, state) <= Tally(s.store.reserved, state)
  {
    RunKeeps(limits, EMPTY, steps);
  }

  // ------------------------------------------------------------ the status

  ghost predicate Left(s: State, session: nat) {
    session in s.records && !s.records[session].status.Waiting?
  }

  lemma NeverWaitsAgain(limits: Limits, s: State, step: Step, session: nat)
    requires Left(s, session) && Enabled(s, step)
    ensures Left(Apply(limits, s, step), session)
  {
    hide Reserve, Consume, Unexpired, Shrink, WithoutKey;
  }

  /** A login that left "waiting for user" never gets back to it. */
  lemma {:induction false} WaitingIsLeftForGood(limits: Limits, s: State, steps: seq<Step>, session: nat)
    requires Left(s, session)
    ensures Left(Run(limits, s, steps), session)
    decreases |steps|
  {
    if steps == [] { return; }
    hide Left, Apply;
    if Enabled(s, steps[0]) { NeverWaitsAgain(limits, s, steps[0], session); }
    var t := if Enabled(s, steps[0]) then Apply(limits, s, steps[0]) else s;
    WaitingIsLeftForGood(limits, t, steps[1..], session);
    assert Run(limits, s, steps) == Run(limits, t, steps[1..]);
    assert Left(Run(limits, s, steps), session);
  }

  // ------------------------------------------------------------ cancelling

  ghost predicate Idle(s: State, session: nat) {
    forall call :: call in s.pending ==> s.pending[call].session != session
  }

  ghost predicate Stopped(s: State, session: nat) {
    session in s.records && (s.records[session].status.Cancelled? || s.records[session].status.Expired?)
  }

  lemma StaysStopped(limits: Limits, s: State, step: Step, session: nat)
    requires Stopped(s, session) && Idle(s, session) && Enabled(s, step)
    ensures Stopped(Apply(limits, s, step), session) && Idle(Apply(limits, s, step), session)
  {
    hide Reserve, Consume, Unexpired, Shrink, WithoutKey;
  }

  lemma {:induction false} RunStaysStopped(limits: Limits, s: State, steps: seq<Step>, session: nat)
    requires Stopped(s, session) && Idle(s, session)
    ensures Stopped(Run(limits, s, steps), session)
    decreases |steps|
  {
    if steps == [] { return; }
    hide Stopped, Idle, Apply;
    if Enabled(s, steps[0]) { StaysStopped(limits, s, steps[0], session); }
    var t := if Enabled(s, steps[0]) then Apply(limits, s, steps[0]) else s;
    RunStaysStopped(limits, t, steps[1..], session);
    assert Run(limits, s, steps) == Run(limits, t, steps[1..]);
    assert Stopped(Run(limits, s, steps), session);
  }

  /** Whatever comes, the login stays cancelled, or expires. */
  ghost predicate NeverRevived(limits: Limits, s: State, session: nat) {
    forall steps :: Stopped(Run(limits, s, steps), session)
  }

  /** A cancelled login stays cancelled (or expires) whatever comes, exactly when none of its
      polls or exchanges is in flight: one that is can still complete it. */
  lemma CancelIsFinalIff(limits: Limits, s: State, session: nat)
    requires SessionsOk(limits, s) && session in s.records && s.records[session].status.Cancelled?
    ensures NeverRevived(limits, s, session) <==> Idle(s, session)
  {
    if Idle(s, session) {
      forall steps
        ensures Stopped(Run(limits, s, steps), session)
      {
        RunStaysStopped(limits, s, steps, session);
      }
    } else {
      var call :| call in s.pending && s.pending[call].session == session;
      var step := if s.pending[call].Polling? then EndPoll(call, Ready) else EndExchange(call, true);
      assert Enabled(s, step);
      var t := Apply(limits, s, step);
      assert t.records[session].status == Completed;
      hide Apply, Stopped;
      RunOf(limits, s, step, []);
      RunOfNothing(limits, t);
      var steps := [step] + [];
      assert !Stopped(Run(limits, s, steps), session) by { NotStopped(t, session); }
      assert !NeverRevived(limits, s, session);
    }
  }

  lemma NotStopped(s: State, session: nat)
    requires session in s.records && s.records[session].status.Completed?
    ensures !Stopped(s, session)
  {
  }

  /** And such a state is reached: a poll is under way when the login is cancelled, and then
      finds the tokens. */
  lemma CancelledLoginCompletes(limits: Limits, provider: string, state: string)
    requires limits.ttl > 5
    ensures var s := Run(limits, EMPTY, [Start(1, provider, state, true, 100, 0), BeginPoll(7, 1, true, 5), Cancel(1)]);
            var t := Run(limits, s, [EndPoll(7, Ready)]);
            1 in s.records && s.records[1].status.Cancelled? && 1 in t.records && t.records[1].status.Completed?
  {
    var start, poll, cancel, done := Start(1, provider, state, true, 100, 0), BeginPoll(7, 1, true, 5), Cancel(1),
        EndPoll(7, Ready);
    hide Reserve, Run;
    var s1 := Apply(limits, EMPTY, start);
    assert s1.listed[|s1.listed| - 1] == 1;
    assert Listed(s1, 1) && !Due(s1, 1, 5) && s1.pending == map[];
    hide StartOf;
    var s2 := Apply(limits, s1, poll);
    var s3 := Apply(limits, s2, cancel);
    var s4 := Apply(limits, s3, done);
    assert s3.records[1].status.Cancelled? && s4.records[1].status.Completed?;
    hide Apply;
    RunOfThree(limits, EMPTY, start, poll, cancel);
    RunOf(limits, s3, done, []);
    RunOfNothing(limits, s4);
    assert [done] + [] == [done];
  }

  lemma RunOfThree(limits: Limits, s: State, a: Step, b: Step, c: Step)
    requires Enabled(s, a) && Enabled(Apply(limits, s, a), b) && Enabled(Apply(limits, Apply(limits, s, a), b), c)
    ensures Run(limits, s, [a, b, c]) == Apply(limits, Apply(limits, Apply(limits, s, a), b), c)
  {
    hide Apply, Enabled;
    RunOf(limits, s, a, [b, c]);
    RunOf(limits, Apply(limits, s, a), b, [c]);
    RunOf(limits, Apply(limits, Apply(limits, s, a), b), c, []);
    assert [a] + [b, c] == [a, b, c] && [b] + [c] == [b, c] && [c] + [] == [c];
  }

  lemma RunOfNothing(limits: Limits, s: State)
    ensures Run(limits, s, []) == s
  {
  }

  lemma RunOf(limits: Limits, s: State, step: Step, steps: seq<Step>)
    ensures Run(limits, s, [step] + steps) == Run(limits, if Enabled(s, step) then Apply(limits, s, step) else s, steps)
  {
    assert ([step] + steps)[1..] == steps;
    hide Apply;
  }

  // ------------------------------------------------------------ completing

  lemma SweepKeepsValid(limits: Limits, s: Store, state: string, provider: string, now: int)
    requires StoreOk(limits, s)
    ensures ValidState(SweepStates(s, now), state, provider, now) == ValidState(s, state, provider, now)
  {
    var left := Unexpired(s.order, StateExpires(s.states, now), now);
    assert state in s.states && s.states[state].expires > now ==> state in left;
    hide Unexpired;
  }

  /** Consuming a state succeeds exactly when it was created for that provider and has not
      expired, and uses it up whether it succeeds or not: a second attempt fails. */
  lemma StatesWorkOnce(limits: Limits, s: Store, state: string, provider: string, now: int, later: int)
    requires StoreOk(limits, s)
    ensures Consume(s, state, provider, now).0 <==>
                state in s.states && s.states[state].provider == provider && s.states[state].expires > now
    ensures !Consume(Consume(s, state, provider, now).1, state, provider, later).0
  {
    SweepKeepsValid(limits, s, state, provider, now);
    ConsumeKeeps(limits, s, state, provider, now);
    var t := Consume(s, state, provider, now).1;
    assert state !in t.states;
    hide SweepStates;
    SweepKeepsValid(limits, t, state, provider, later);
  }

  /** What a completion needs to begin its exchange. */
  predicate MayExchange(s: State, session: nat, callback: Callback, exchangeable: bool, now: int) {
    && session in s.listed && session in s.records
    && s.records[session].expires > now && s.records[session].status.Waiting?
    && callback.error.None? && callback.state == Some(s.records[session].state)
    && callback.code.Some? && callback.code.value != [] && exchangeable
    && s.records[session].state in s.store.states
    && s.store.states[s.records[session].state].provider == s.records[session].provider
    && s.store.states[s.records[session].state].expires > now
  }

  lemma CompletionBegins(s: State, call: nat, session: nat, callback: Callback, exchangeable: bool, now: int)
    ensures var begins := MayExchange(s, session, callback, exchangeable, now);
            session in s.records && Consume(s.store, s.records[session].state, s.records[session].provider, now).0
                                    == ValidState(s.store, s.records[session].state, s.records[session].provider, now)
            ==> CompleteOf(s, call, session, callback, exchangeable, now).exchanges
                == if begins then Add(s.exchanges, session) else s.exchanges
  {
    hide Consume, WithoutKey, Add;
  }

  /** The code exchange of a completion begins exactly when the login is still listed, alive
      and waiting, the callback carries no error, the login's own state and a code, and that
      state is good for the provider. */
  lemma ExchangeBeginsIff(limits: Limits, s: State, call: nat, session: nat, callback: Callback, exchangeable: bool,
                          now: int)
    requires StoreOk(limits, s.store)
    ensures var t := CompleteOf(s, call, session, callback, exchangeable, now);
            Tally(t.exchanges, session) == Tally(s.exchanges, session) + 1 <==>
                MayExchange(s, session, callback, exchangeable, now)
  {
    if session in s.records {
      var record := s.records[session];
      StatesWorkOnce(limits, s.store, record.state, record.provider, now, now);
      assert Consume(s.store, record.state, record.provider, now).0 ==
             ValidState(s.store, record.state, record.provider, now);
      hide CompleteOf, Consume, MayExchange, ValidState;
      CompletionBegins(s, call, session, callback, exchangeable, now);
      var t := CompleteOf(s, call, session, callback, exchangeable, now);
      assert Tally(t.exchanges, session) == Tally(s.exchanges, session) + 1 <==>
          MayExchange(s, session, callback, exchangeable, now);
    }
  }
}
