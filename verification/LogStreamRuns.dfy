/** Whole runs of the console log fan-out: writes, deletions, ticks, joins, leaves and clears
    in any order; and the hub as the object the source updates in place. */
module LogStreamRuns {
  import opened LogStream

  datatype Step =
    | Write(json: nat)              // a row is logged; ids are never reused
    | Prune(count: nat)             // retention deletes the oldest rows
    | DeleteAll                     // the log is emptied, before the clear is broadcast
    | BroadcastClear
    | SharedTick
    | Join
    | Leave(client: nat)
    | Break(client: nat)            // the client's stream refuses a frame

  /** The due rows the hub has not taken up yet. */
  function Outstanding(c: Client): seq<Row> {
    if |c.offered| <= |c.due| then c.due[|c.offered|..] else []
  }

  /** Rows up to an id that were not taken up yet are no longer due. */
  function Lose(c: Client, id: nat): Client {
    c.(due := c.offered + RowsAbove(Outstanding(c), id))
  }

  function LoseAll(clients: seq<Client>, id: nat): (lost: seq<Client>)
    ensures |lost| == |clients| && forall i :: 0 <= i < |clients| ==> lost[i] == Lose(clients[i], id)
  {
    if clients == [] then [] else [Lose(clients[0], id)] + LoseAll(clients[1..], id)
  }

  function DueAll(clients: seq<Client>, row: Row): (due: seq<Client>)
    ensures |due| == |clients| && forall i :: 0 <= i < |clients| ==>
            due[i] == clients[i].(due := clients[i].due + [row])
  {
    if clients == [] then [] else [clients[0].(due := clients[0].due + [row])] + DueAll(clients[1..], row)
  }

  function Raise(c: Client, top: nat): Client {
    Lose(c, top).(lastId := if c.lastId > top then c.lastId else top)
  }

  function RaiseAll(clients: seq<Client>, top: nat): (raised: seq<Client>)
    ensures |raised| == |clients| && forall i :: 0 <= i < |clients| ==> raised[i] == Raise(clients[i], top)
  {
    if clients == [] then [] else [Raise(clients[0], top)] + RaiseAll(clients[1..], top)
  }

  function Without(clients: seq<Client>, id: nat): (left: seq<Client>)
    ensures |left| <= |clients|
    ensures forall i :: 0 <= i < |left| ==> left[i] in clients
  {
    if clients == [] then [] else (if clients[0].id == id then [] else [clients[0]]) + Without(clients[1..], id)
  }

  function CloseOne(clients: seq<Client>, id: nat): (closed: seq<Client>)
    ensures |closed| == |clients|
    ensures forall i :: 0 <= i < |clients| ==> closed[i] == if clients[i].id == id then clients[i].(closed := true)
            else clients[i]
  {
    if clients == [] then []
    else [if clients[0].id == id then clients[0].(closed := true) else clients[0]] + CloseOne(clients[1..], id)
  }

  function Apply(s: State, step: Step): State {
    match step
    case Write(json) =>
      var row := Row(s.nextId, json);
      s.(rows := s.rows + [row], nextId := s.nextId + 1, clients := DueAll(s.clients, row))
    case Prune(count) =>
      var k := if count < |s.rows| then count else |s.rows|;
      s.(rows := s.rows[k..], clients := LoseAll(s.clients, TopId(s.rows[..k])))
    case DeleteAll => s.(rows := [], clients := LoseAll(s.clients, TopId(s.rows)))
    case BroadcastClear => s.(clients := RaiseAll(s.clients, TopId(s.rows)))
    case SharedTick => Tick(s)
    case Join =>
      if |s.clients| >= s.limits.maxClients then s
      else s.(clients := s.clients + [Client(s.nextClient, TopId(s.rows), false, [], [], [])],
              nextClient := s.nextClient + 1)
    case Leave(id) => s.(clients := Without(s.clients, id))
    case Break(id) => s.(clients := CloseOne(s.clients, id))
  }

  function Run(s: State, steps: seq<Step>): State
    decreases |steps|
  {
    if steps == [] then s else Run(Apply(s, steps[0]), steps[1..])
  }

  ghost predicate Below(rows: seq<Row>, id: nat) {
    forall i :: 0 <= i < |rows| ==> rows[i].id < id
  }

  /** A client is owed what it was offered plus what the source still holds for it; while it
      is open it was sent exactly the offered rows that fit an event. */
  ghost predicate ClientOk(s: State, c: Client) {
    && c.due == c.offered + Pending(s, c)
    && Increasing(c.due) && Below(c.due, s.nextId)
    && (!c.closed ==> c.delivered == Fitting(s.limits, c.offered))
    && c.lastId < s.nextId
  }

  ghost predicate Ok(s: State) {
    && Increasing(s.rows) && Below(s.rows, s.nextId) && s.nextId > 0
    && (forall i :: 0 <= i < |s.clients| ==> ClientOk(s, s.clients[i]))
  }

  // ------------------------------------------------------------ rows

  lemma AboveStep(rows: seq<Row>, id: nat)
    requires rows != []
    ensures RowsAbove(rows, id) == (if rows[0].id > id then [rows[0]] else []) + RowsAbove(rows[1..], id)
  {
  }

  lemma {:induction false} AboveAppends(rows: seq<Row>, row: Row, id: nat)
    ensures RowsAbove(rows + [row], id) == RowsAbove(rows, id) + if row.id > id then [row] else []
  {
    AboveStep(rows + [row], id);
    if rows == [] {
      assert (rows + [row])[1..] == [] && rows + [row] == [row];
      return;
    }
    AboveStep(rows, id);
    hide RowsAbove;
    AboveAppends(rows[1..], row, id);
    assert (rows + [row])[1..] == rows[1..] + [row];
  }

  /** Dropping the oldest rows, or asking above a higher id, leaves the same rows. */
  lemma AboveAfterPrune(rows: seq<Row>, k: nat, id: nat)
    requires Increasing(rows) && k <= |rows|
    ensures RowsAbove(rows[k..], id) == RowsAbove(RowsAbove(rows, id), TopId(rows[..k]))
  {
    hide RowsAbove, Increasing, TopId;
    var own := AboveIsSuffix(rows, id);
    SuffixIncreases(rows, k);
    SuffixIncreases(rows, own);
    var own' := AboveIsSuffix(rows[k..], id);
    var above := AboveIsSuffix(rows[own..], TopId(rows[..k]));
    assert own' <= |rows[k..]| && above <= |rows[own..]|;
    hide SplitsAt;
    SuffixesMeet(rows, k, id, own, own', above);
    assert rows[k..][own'..] == rows[k + own'..];
    assert rows[own..][above..] == rows[own + above..];
  }

  lemma SuffixesMeet(rows: seq<Row>, k: nat, id: nat, own: nat, own': nat, above: nat)
    requires Increasing(rows) && k <= |rows| && SplitsAt(rows, id, own) && SplitsAt(rows[k..], id, own')
    requires SplitsAt(rows[own..], TopId(rows[..k]), above)
    ensures k + own' == own + above
  {
    var next := if own > k then own else k;
    assert forall i :: 0 <= i < |rows[k..]| ==> rows[k..][i] == rows[k + i];
    assert forall i :: 0 <= i < |rows[own..]| ==> rows[own..][i] == rows[own + i];
    assert k + own' == next by {
      if next < |rows| { assert rows[k..][next - k].id > id; }
      if next > k { assert rows[k..][next - k - 1].id <= id; }
    }
    assert own + above == next by {
      if next < |rows| { assert rows[own..][next - own].id > TopId(rows[..k]); }
      if next > own { assert rows[own..][next - own - 1].id <= TopId(rows[..k]); }
    }
  }

  lemma NoneAbove(rows: seq<Row>, id: nat)
    requires Increasing(rows) && TopId(rows) <= id
    ensures RowsAbove(rows, id) == []
  {
    var k := AboveIsSuffix(rows, id);
  }

  lemma IncreasingSkip(a: seq<Row>, b: seq<Row>, k: nat)
    requires Increasing(a + b) && k <= |b|
    ensures Increasing(a + b[k..])
  {
    var whole, rest := a + b, a + b[k..];
    forall i, j | 0 <= i < j < |rest|
      ensures rest[i].id < rest[j].id
    {
      assert rest[i] == whole[if i < |a| then i else i + k] && rest[j] == whole[if j < |a| then j else j + k];
    }
  }

  lemma BelowSkip(a: seq<Row>, b: seq<Row>, k: nat, id: nat)
    requires Below(a + b, id) && k <= |b|
    ensures Below(a + b[k..], id)
  {
    var whole, rest := a + b, a + b[k..];
    forall i | 0 <= i < |rest|
      ensures rest[i].id < id
    {
      assert rest[i] == whole[if i < |a| then i else i + k];
    }
  }

  lemma {:induction false} FittingAppends(limits: Limits, a: seq<Row>, row: Row)
    ensures Fitting(limits, a + [row]) == Fitting(limits, a) + if Fits(limits, row) then [row] else []
  {
    if a == [] {
      assert [row][1..] == [] && a + [row] == [row];
    } else {
      FittingAppends(limits, a[1..], row);
      assert (a + [row])[1..] == a[1..] + [row];
    }
  }

  lemma {:induction false} OfferDelivers(limits: Limits, c: Client, batch: seq<Row>, id: nat)
    requires !c.closed ==> c.delivered == Fitting(limits, c.offered)
    requires c.lastId < id && Below(batch, id)
    ensures var d := Offer(limits, c, batch); (!d.closed ==> d.delivered == Fitting(limits, d.offered)) && d.lastId < id
    decreases |batch|
  {
    if batch != [] {
      FittingAppends(limits, c.offered, batch[0]);
      OfferDelivers(limits, OfferRow(limits, c, batch[0]), batch[1..], id);
    }
  }

  // ------------------------------------------------------------ steps

  lemma WriteKeepsClient(s: State, c: Client, json: nat)
    requires Ok(s) && ClientOk(s, c)
    ensures ClientOk(Apply(s, Write(json)), c.(due := c.due + [Row(s.nextId, json)]))
  {
    var row := Row(s.nextId, json);
    hide RowsAbove;
    AboveAppends(s.rows, row, c.lastId);
    assert c.offered + Pending(s, c) + [row] == c.offered + (Pending(s, c) + [row]);
    hide RowsAbove, Fitting, DueAll;
    var due := c.due + [row];
    assert forall i :: 0 <= i < |c.due| ==> due[i] == c.due[i];
  }

  /** When exactly the rows up to `id` disappear from what a client has waiting. */
  lemma LosingKeepsClient(s: State, t: State, c: Client, id: nat, lastId: nat)
    requires ClientOk(s, c) && Increasing(s.rows) && t.limits == s.limits && t.nextId == s.nextId && lastId < t.nextId
    requires RowsAbove(t.rows, lastId) == RowsAbove(Pending(s, c), id)
    ensures ClientOk(t, Lose(c, id).(lastId := lastId))
  {
    var pending := Pending(s, c);
    assert Outstanding(c) == pending;
    var own := AboveIsSuffix(s.rows, c.lastId);
    var k := AboveIsSuffix(pending, id);
    IncreasingSkip(c.offered, pending, k);
    BelowSkip(c.offered, pending, k, s.nextId);
  }

  lemma PruneKeepsClient(s: State, c: Client, k: nat)
    requires Ok(s) && ClientOk(s, c) && k <= |s.rows|
    ensures var id := TopId(s.rows[..k]);
            ClientOk(s.(rows := s.rows[k..], clients := LoseAll(s.clients, id)), Lose(c, id))
  {
    AboveAfterPrune(s.rows, k, c.lastId);
    var id := TopId(s.rows[..k]);
    hide RowsAbove, LoseAll;
    LosingKeepsClient(s, s.(rows := s.rows[k..], clients := LoseAll(s.clients, id)), c, id, c.lastId);
  }

  lemma ClearKeepsClient(s: State, c: Client)
    requires Ok(s) && ClientOk(s, c)
    ensures ClientOk(Apply(s, BroadcastClear), Raise(c, TopId(s.rows)))
  {
    var top := TopId(s.rows);
    var lastId := if c.lastId > top then c.lastId else top;
    AboveAfterPrune(s.rows, |s.rows|, c.lastId);
    assert s.rows[..|s.rows|] == s.rows && s.rows[|s.rows|..] == [];
    assert RowsAbove([], c.lastId) == [];
    NoneAbove(s.rows, lastId);
    assert top < s.nextId;
    hide RowsAbove, RaiseAll, TopId, Increasing;
    LosingKeepsClient(s, Apply(s, BroadcastClear), c, top, lastId);
  }

  lemma TickKeepsClient(s: State, i: nat)
    requires Ok(s) && i < |s.clients|
    ensures |Tick(s).clients| == |s.clients| && ClientOk(Tick(s), Tick(s).clients[i])
  {
    var c := s.clients[i];
    TickServesEveryClient(s, i);
    var d := Tick(s).clients[i];
    assert d == Offer(s.limits, c, Batch(s));
    TickKeepsFrame(s);
    var low, high := BatchIsWindow(s);
    assert Below(s.rows[low..high], s.nextId);
    OfferDelivers(s.limits, c, Batch(s), s.nextId);
    ServedKeepsDue(s, Tick(s), c, d);
  }

  lemma ServedKeepsDue(s: State, t: State, c: Client, d: Client)
    requires Served(s, c, d) && c.due == c.offered + Pending(s, c) && t.rows == s.rows
    ensures d.due == d.offered + Pending(t, d)
  {
    hide RowsAbove;
    assert Pending(t, d) == Pending(s, d);
    assert d.offered == c.offered + d.offered[|c.offered|..];
  }

  lemma JoinKeeps(s: State)
    requires Ok(s)
    ensures Ok(Apply(s, Join))
  {
    NoneAbove(s.rows, TopId(s.rows));
    hide RowsAbove, Increasing, Fitting;
    var t := Apply(s, Join);
    forall i | 0 <= i < |t.clients|
      ensures ClientOk(t, t.clients[i])
    {
      if i < |s.clients| {
        assert ClientOk(s, s.clients[i]);
      } else {
        NewClientOk(t, t.clients[i]);
      }
    }
  }

  lemma NewClientOk(s: State, c: Client)
    requires c.due == [] && c.offered == [] && c.delivered == [] && c.lastId < s.nextId && Pending(s, c) == []
    ensures ClientOk(s, c)
  {
    hide RowsAbove;
  }

  lemma SuffixIncreases(rows: seq<Row>, k: nat)
    requires Increasing(rows) && k <= |rows|
    ensures Increasing(rows[k..])
  {
  }

  lemma WriteKeeps(s: State, json: nat)
    requires Ok(s)
    ensures Ok(Apply(s, Write(json)))
  {
    var t := Apply(s, Write(json));
    hide ClientOk;
    forall i | 0 <= i < |t.clients|
      ensures ClientOk(t, t.clients[i])
    {
      WriteKeepsClient(s, s.clients[i], json);
    }
  }

  lemma PruneKeeps(s: State, count: nat)
    requires Ok(s)
    ensures Ok(Apply(s, Prune(count)))
  {
    var t := Apply(s, Prune(count));
    var k := if count < |s.rows| then count else |s.rows|;
    SuffixIncreases(s.rows, k);
    hide ClientOk;
    forall i | 0 <= i < |t.clients|
      ensures ClientOk(t, t.clients[i])
    {
      PruneKeepsClient(s, s.clients[i], k);
    }
  }

  lemma DeleteKeeps(s: State)
    requires Ok(s)
    ensures Ok(Apply(s, DeleteAll))
  {
    var t := Apply(s, DeleteAll);
    assert s.rows[..|s.rows|] == s.rows && s.rows[|s.rows|..] == [];
    hide ClientOk;
    forall i | 0 <= i < |t.clients|
      ensures ClientOk(t, t.clients[i])
    {
      PruneKeepsClient(s, s.clients[i], |s.rows|);
    }
  }

  lemma ClearKeeps(s: State)
    requires Ok(s)
    ensures Ok(Apply(s, BroadcastClear))
  {
    var t := Apply(s, BroadcastClear);
    hide ClientOk;
    forall i | 0 <= i < |t.clients|
      ensures ClientOk(t, t.clients[i])
    {
      ClearKeepsClient(s, s.clients[i]);
    }
  }

  lemma TickKeeps(s: State)
    requires Ok(s)
    ensures Ok(Apply(s, SharedTick))
  {
    var t := Apply(s, SharedTick);
    TickKeepsFrame(s);
    assert Tick(s).nextId == s.nextId;
    hide Tick;
    hide ClientOk;
    forall i | 0 <= i < |t.clients|
      ensures ClientOk(t, t.clients[i])
    {
      TickKeepsClient(s, i);
    }
  }

  lemma LeaveKeeps(s: State, id: nat)
    requires Ok(s)
    ensures Ok(Apply(s, Leave(id)))
  {
    var t := Apply(s, Leave(id));
    hide ClientOk;
    forall i | 0 <= i < |t.clients|
      ensures ClientOk(t, t.clients[i])
    {
      KeptClientOk(s, t, t.clients[i]);
    }
  }

  lemma KeptClientOk(s: State, t: State, c: Client)
    requires Ok(s) && c in s.clients && t.rows == s.rows && t.limits == s.limits && t.nextId == s.nextId
    ensures ClientOk(t, c)
  {
    var i :| 0 <= i < |s.clients| && s.clients[i] == c;
    assert ClientOk(s, c);
  }

  lemma BreakKeeps(s: State, id: nat)
    requires Ok(s)
    ensures Ok(Apply(s, Break(id)))
  {
    var t := Apply(s, Break(id));
    forall i | 0 <= i < |t.clients|
      ensures ClientOk(t, t.clients[i])
    {
      assert ClientOk(s, s.clients[i]);
    }
  }

  /** Every step keeps every client's account straight. */
  lemma StepKeepsOk(s: State, step: Step)
    requires Ok(s)
    ensures Ok(Apply(s, step))
  {
    hide *;
    match step
    case Write(json) => WriteKeeps(s, json);
    case Prune(count) => PruneKeeps(s, count);
    case DeleteAll => DeleteKeeps(s);
    case BroadcastClear => ClearKeeps(s);
    case SharedTick => TickKeeps(s);
    case Join => JoinKeeps(s);
    case Leave(id) => LeaveKeeps(s, id);
    case Break(id) => BreakKeeps(s, id);
  }

  lemma {:induction false} RunKeepsOk(s: State, steps: seq<Step>)
    requires Ok(s)
    ensures Ok(Run(s, steps))
    decreases |steps|
  {
    if steps == [] { return; }
    hide Ok, Apply;
    StepKeepsOk(s, steps[0]);
    RunKeepsOk(Apply(s, steps[0]), steps[1..]);
  }

  /** The log as the hub first finds it. */
  ghost predicate Fresh(s: State) {
    s.clients == [] && Increasing(s.rows) && Below(s.rows, s.nextId) && s.nextId > 0
  }

  /** Whatever happens in whatever order, each client has been offered a prefix of the rows it
      is due, and the source holds exactly the rest above its watermark: each row once, in
      order, without a gap, whatever the other clients and the batch limit are. A client that
      is open was sent every offered row that fits an event. */
  lemma EveryRowOnceInOrder(s: State, steps: seq<Step>, i: nat)
    requires Fresh(s) && i < |Run(s, steps).clients|
    ensures var t := Run(s, steps);
            var c := t.clients[i];
            && c.offered + Pending(t, c) == c.due && Increasing(c.due)
            && (!c.closed ==> c.delivered == Fitting(t.limits, c.offered))
  {
    RunKeepsOk(s, steps);
  }

  // ------------------------------------------------------------ what is due

  predicate Quiet(step: Step) {
    step.Write? || step.SharedTick? || step.Join?
  }

  /** The row a step logs. */
  function Logged(nextId: nat, step: Step): seq<Row> {
    if step.Write? then [Row(nextId, step.json)] else []
  }

  function Written(nextId: nat, steps: seq<Step>): seq<Row>
    decreases |steps|
  {
    if steps == [] then []
    else Logged(nextId, steps[0]) + Written(nextId + |Logged(nextId, steps[0])|, steps[1..])
  }

  lemma OfferKeepsDue(limits: Limits, c: Client, batch: seq<Row>)
    ensures Offer(limits, c, batch).due == c.due
    decreases |batch|
  {
    if batch != [] { OfferKeepsDue(limits, OfferRow(limits, c, batch[0]), batch[1..]); }
  }

  ghost predicate AllQuiet(steps: seq<Step>) {
    forall k :: 0 <= k < |steps| ==> Quiet(steps[k])
  }

  lemma WrittenStep(nextId: nat, steps: seq<Step>)
    requires steps != []
    ensures Written(nextId, steps) == Logged(nextId, steps[0]) + Written(nextId + |Logged(nextId, steps[0])|,
            steps[1..])
  {
    hide Logged;
  }

  /** From one state to another the client's due rows grew by `more`. */
  ghost predicate DueGrows(s: State, t: State, i: nat, more: seq<Row>) {
    i < |s.clients| && i < |t.clients| && t.clients[i].due == s.clients[i].due + more
  }

  lemma DueGrowthAdds(s: State, t: State, u: State, i: nat, a: seq<Row>, b: seq<Row>)
    requires DueGrows(s, t, i, a) && DueGrows(t, u, i, b)
    ensures DueGrows(s, u, i, a + b)
  {
    assert s.clients[i].due + a + b == s.clients[i].due + (a + b);
  }

  lemma RunStep(s: State, steps: seq<Step>)
    requires steps != []
    ensures Run(s, steps) == Run(Apply(s, steps[0]), steps[1..])
  {
    hide Apply;
  }

  lemma QuietTail(steps: seq<Step>)
    requires AllQuiet(steps) && steps != []
    ensures Quiet(steps[0]) && AllQuiet(steps[1..])
  {
  }

  lemma NothingHappens(s: State, i: nat)
    requires i < |s.clients|
    ensures DueGrows(s, Run(s, []), i, Written(s.nextId, []))
  {
  }

  /** As long as nothing is deleted, cleared or closed, what a client is due grows by exactly
      the rows written, whoever joins and however often the tick runs. */
  lemma {:induction false} DueIsWhatWasWritten(s: State, steps: seq<Step>, i: nat)
    requires i < |s.clients| && AllQuiet(steps)
    ensures DueGrows(s, Run(s, steps), i, Written(s.nextId, steps))
    decreases |steps|
  {
    hide *;
    if steps == [] {
      NothingHappens(s, i);
    } else {
      QuietTail(steps);
      var t := Apply(s, steps[0]);
      QuietStepDue(s, steps[0], i);
      RunStep(s, steps);
      WrittenStep(s.nextId, steps);
      DueIsWhatWasWritten(t, steps[1..], i);
      DueGrowthAdds(s, t, Run(t, steps[1..]), i, Logged(s.nextId, steps[0]), Written(t.nextId, steps[1..]));
    }
  }

  lemma QuietStepDue(s: State, step: Step, i: nat)
    requires i < |s.clients| && Quiet(step)
    ensures i < |Apply(s, step).clients|
    ensures DueGrows(s, Apply(s, step), i, Logged(s.nextId, step))
    ensures Apply(s, step).nextId == s.nextId + |Logged(s.nextId, step)|
  {
    if step.SharedTick? { OfferKeepsDue(s.limits, s.clients[i], Batch(s)); }
  }

  /** A client misses rows at a clear exactly when it had some waiting. */
  lemma ClearLosesWhatWaits(s: State, i: nat)
    requires Ok(s) && i < |s.clients|
    ensures Apply(s, BroadcastClear).clients[i].due == s.clients[i].offered
    ensures Apply(s, BroadcastClear).clients[i].due == s.clients[i].due <==> Pending(s, s.clients[i]) == []
  {
    var c := s.clients[i];
    assert ClientOk(s, c);
    AboveAfterPrune(s.rows, |s.rows|, c.lastId);
    assert s.rows[..|s.rows|] == s.rows && s.rows[|s.rows|..] == [];
    assert Outstanding(c) == Pending(s, c);
  }

  /** Such a run: a client joins, the log is emptied, a row is written before the clear is
      broadcast. The row is still in the log and the client will never get it. */
  lemma ClearCanLoseANewRow(limits: Limits, json: nat)
    ensures var s := Run(State(limits, [], 1, [], 1), [Join, DeleteAll, Write(json), BroadcastClear]);
            && s.rows == [Row(1, json)] && |s.clients| == 1
            && s.clients[0].offered == [] && s.clients[0].due == [] && Pending(s, s.clients[0]) == []
  {
    var row := Row(1, json);
    var c := Client(1, 0, false, [], [], []);
    var s0 := State(limits, [], 1, [], 1);
    var s1 := State(limits, [], 1, [c], 2);
    var s2 := State(limits, [row], 2, [c.(due := [row])], 2);
    var s3 := State(limits, [row], 2, [c.(lastId := 1)], 2);
    assert Apply(s0, Join) == s1;
    assert RowsAbove([], 0) == [];
    assert LoseAll([c], 0)[0] == c && LoseAll([c], 0) == [c];
    assert Apply(s1, DeleteAll) == s1;
    assert DueAll([c], row)[0] == c.(due := [row]) && DueAll([c], row) == [c.(due := [row])];
    assert Apply(s1, Write(json)) == s2;
    assert RowsAbove([row], 1) == [] + RowsAbove([row][1..], 1) == [];
    assert RaiseAll(s2.clients, 1)[0] == c.(lastId := 1) && RaiseAll(s2.clients, 1) == [c.(lastId := 1)];
    assert Apply(s2, BroadcastClear) == s3;
    var steps := [Join, DeleteAll, Write(json), BroadcastClear];
    assert steps[1..] == [DeleteAll, Write(json), BroadcastClear] && steps[1..][1..] == [Write(json), BroadcastClear]
        && steps[1..][1..][1..] == [BroadcastClear] && steps[1..][1..][1..][1..] == [];
    hide Apply;
    RunStep(s2, [BroadcastClear]);
    RunStep(s1, [Write(json), BroadcastClear]);
    RunStep(s1, [DeleteAll, Write(json), BroadcastClear]);
    RunStep(s0, steps);
    assert Run(s3, []) == s3;
  }
}
