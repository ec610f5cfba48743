/** The console log fan-out (`createConsoleLogStreamHub` in src/console/streams.ts): one
    shared query per tick serves every attached client from its own watermark. Keep-alive
    pings are left out. */
module LogStream {
  /** A log row; `json` is the size of its serialized form. */
  datatype Row = Row(id: nat, json: nat)

  /** `offered`, `delivered` and `due` are history: the rows the hub took up for the client,
      those of them it sent, and all the rows the client should get from its arrival on. */
  datatype Client = Client(id: nat, lastId: nat, closed: bool, offered: seq<Row>, delivered: seq<Row>, due: seq<Row>)

  type Positive = n: nat | n >= 1 witness 1

  datatype Limits = Limits(maxClients: Positive, batchLines: Positive, maxEventBytes: nat)

  datatype State = State(limits: Limits, rows: seq<Row>, nextId: nat, clients: seq<Client>, nextClient: nat)

  const QUERY_CAP := 200
  const LINE_ENVELOPE := 20

  predicate Fits(limits: Limits, row: Row) {
    row.json + LINE_ENVELOPE <= limits.maxEventBytes
  }

  function Fitting(limits: Limits, rows: seq<Row>): seq<Row> {
    if rows == [] then [] else (if Fits(limits, rows[0]) then [rows[0]] else []) + Fitting(limits, rows[1..])
  }

  predicate Increasing(rows: seq<Row>) {
    forall i, j :: 0 <= i < j < |rows| ==> rows[i].id < rows[j].id
  }

  /** `source.after`: the rows above an id, oldest first. */
  function RowsAbove(rows: seq<Row>, id: nat): (above: seq<Row>)
    ensures |above| <= |rows|
  {
    if rows == [] then [] else (if rows[0].id > id then [rows[0]] else []) + RowsAbove(rows[1..], id)
  }

  function Take(rows: seq<Row>, n: nat): seq<Row> {
    if |rows| <= n then rows else rows[..n]
  }

  function TopId(rows: seq<Row>): nat {
    if rows == [] then 0 else rows[|rows| - 1].id
  }

  function QueryLimit(limits: Limits, clients: nat): (n: nat)
    requires clients > 0
    ensures n > 0
  {
    assert limits.batchLines * clients >= clients;
    if limits.batchLines * clients > QUERY_CAP then QUERY_CAP else limits.batchLines * clients
  }

  function MinLastId(clients: seq<Client>): (m: nat)
    requires clients != []
    ensures forall i :: 0 <= i < |clients| ==> m <= clients[i].lastId
    ensures exists i :: 0 <= i < |clients| && clients[i].lastId == m
  {
    if |clients| == 1 then clients[0].lastId
    else
      var rest := MinLastId(clients[1..]);
      if clients[0].lastId < rest then clients[0].lastId else rest
  }

  /** The loop body of the tick: rows at or below the watermark are skipped, the others are
      sent if the client is open and the event fits, and move the watermark either way. */
  function OfferRow(limits: Limits, c: Client, row: Row): Client {
    if row.id <= c.lastId then c
    else c.(lastId := row.id, offered := c.offered + [row],
            delivered := if !c.closed && Fits(limits, row) then c.delivered + [row] else c.delivered)
  }

  function Offer(limits: Limits, c: Client, batch: seq<Row>): Client
    decreases |batch|
  {
    if batch == [] then c else Offer(limits, OfferRow(limits, c, batch[0]), batch[1..])
  }

  function OfferAll(limits: Limits, clients: seq<Client>, batch: seq<Row>): (offered: seq<Client>)
    ensures |offered| == |clients|
    ensures forall i :: 0 <= i < |clients| ==> offered[i] == Offer(limits, clients[i], batch)
  {
    if clients == [] then [] else [Offer(limits, clients[0], batch)] + OfferAll(limits, clients[1..], batch)
  }

  function Batch(s: State): seq<Row>
    requires s.clients != []
  {
    Take(RowsAbove(s.rows, MinLastId(s.clients)), QueryLimit(s.limits, |s.clients|))
  }

  function Tick(s: State): State {
    if s.clients == [] then s else s.(clients := OfferAll(s.limits, s.clients, Batch(s)))
  }

  // ------------------------------------------------------------ one tick

  /** Rows below `k` are at or below the id, rows from `k` on above it. */
  ghost predicate SplitsAt(rows: seq<Row>, id: nat, k: nat) {
    && k <= |rows|
    && (forall i :: 0 <= i < k ==> rows[i].id <= id)
    && (forall i :: k <= i < |rows| ==> rows[i].id > id)
  }

  ghost predicate AllAbove(rows: seq<Row>, id: nat) {
    forall i :: 0 <= i < |rows| ==> rows[i].id > id
  }

  lemma RisingStaysAbove(rows: seq<Row>, id: nat)
    requires Increasing(rows) && rows != [] && rows[0].id > id
    ensures AllAbove(rows, id) && AllAbove(rows[1..], id)
  {
  }

  lemma {:induction false} AboveIsSuffix(rows: seq<Row>, id: nat) returns (k: nat)
    requires Increasing(rows)
    ensures SplitsAt(rows, id, k) && RowsAbove(rows, id) == rows[k..]
  {
    if rows == [] {
      k := 0;
    } else if rows[0].id > id {
      k := 0;
      var k' := AboveIsSuffix(rows[1..], id);
      RisingStaysAbove(rows, id);
      assert k' == 0 && rows == [rows[0]] + rows[1..];
    } else {
      var k' := AboveIsSuffix(rows[1..], id);
      k := k' + 1;
      assert rows[1..][k'..] == rows[k..];
      forall i | 0 <= i < k
        ensures rows[i].id <= id
      {
        if i > 0 { assert rows[i] == rows[1..][i - 1]; }
      }
      forall i | k <= i < |rows|
        ensures rows[i].id > id
      {
        assert rows[i] == rows[1..][i - 1];
      }
    }
  }

  lemma TailAbove(rows: seq<Row>, id: nat)
    requires rows != [] && Increasing(rows) && AllAbove(rows, id)
    ensures rows[0].id > id && Increasing(rows[1..]) && AllAbove(rows[1..], rows[0].id)
  {
  }

  /** Rows that are all above the watermark and increase are all taken up. */
  lemma {:induction false} OfferTakesAll(limits: Limits, c: Client, batch: seq<Row>)
    requires Increasing(batch) && AllAbove(batch, c.lastId)
    ensures var d := Offer(limits, c, batch);
            && d.offered == c.offered + batch && d.id == c.id && d.closed == c.closed && d.due == c.due
            && d.lastId == if batch == [] then c.lastId else batch[|batch| - 1].id
    decreases |batch|
  {
    if batch != [] {
      var c' := OfferRow(limits, c, batch[0]);
      TailAbove(batch, c.lastId);
      hide Increasing, AllAbove, Fits;
      OfferTakesAll(limits, c', batch[1..]);
      var d := Offer(limits, c', batch[1..]);
      assert Offer(limits, c, batch) == d && c'.lastId == batch[0].id && c'.offered == c.offered + [batch[0]];
      hide Offer, OfferRow;
      assert c.offered + batch == c.offered + [batch[0]] + batch[1..];
      assert batch[1..] != [] ==> batch[1..][|batch[1..]| - 1] == batch[|batch| - 1];
    }
  }

  lemma {:induction false} OfferSkips(limits: Limits, c: Client, batch: seq<Row>, k: nat)
    requires k <= |batch| && forall i :: 0 <= i < k ==> batch[i].id <= c.lastId
    ensures Offer(limits, c, batch) == Offer(limits, c, batch[k..])
    decreases k
  {
    if k == 0 {
      assert batch[k..] == batch;
    } else {
      OfferSkips(limits, c, batch[1..], k - 1);
      assert batch[1..][k - 1..] == batch[k..];
    }
  }

  function Pending(s: State, c: Client): seq<Row> {
    RowsAbove(s.rows, c.lastId)
  }

  lemma SplitIsUnique(rows: seq<Row>, id: nat, k: nat)
    requires Increasing(rows) && SplitsAt(rows, id, k)
    ensures RowsAbove(rows, id) == rows[k..]
  {
    var j := AboveIsSuffix(rows, id);
    assert j < |rows| ==> rows[j].id > id;
    assert k < |rows| ==> rows[k].id > id;
  }

  lemma PieceIsAbove(rows: seq<Row>, id: nat, own: nat, high: nat)
    requires Increasing(rows) && SplitsAt(rows, id, own) && own < high <= |rows|
    ensures AllAbove(rows[own..high], id) && Increasing(rows[own..high]) && SplitsAt(rows, rows[high - 1].id, high)
    ensures rows[own..high][|rows[own..high]| - 1] == rows[high - 1] && id < rows[high - 1].id
  {
  }

  lemma OfferStale(limits: Limits, c: Client, rows: seq<Row>, low: nat, own: nat, high: nat)
    requires low <= high <= own && SplitsAt(rows, c.lastId, own)
    ensures Offer(limits, c, rows[low..high]) == c
  {
    hide Offer;
    var batch := rows[low..high];
    assert forall i :: 0 <= i < |batch| ==> batch[i] == rows[low + i];
    OfferSkips(limits, c, batch, |batch|);
    assert batch[|batch|..] == [];
    OfferNothing(limits, c);
  }

  lemma OfferFresh(limits: Limits, c: Client, rows: seq<Row>, low: nat, own: nat, high: nat)
    requires Increasing(rows) && low <= own < high <= |rows| && SplitsAt(rows, c.lastId, own)
    ensures Offer(limits, c, rows[low..high]) == Offer(limits, c, rows[own..high])
  {
    hide Offer, Increasing;
    var batch := rows[low..high];
    assert forall i :: 0 <= i < own - low ==> batch[i] == rows[low + i];
    OfferSkips(limits, c, batch, own - low);
    assert batch[own - low..] == rows[own..high];
  }

  /** The window `[low, high)` of the rows, offered to a client whose own next row is at
      `own`, moves that client to the further of `own` and `high`. */
  lemma OfferWindow(limits: Limits, c: Client, rows: seq<Row>, low: nat, own: nat, high: nat)
    requires Increasing(rows) && low <= own <= |rows| && low <= high <= |rows| && SplitsAt(rows, c.lastId, own)
    ensures var d, next := Offer(limits, c, rows[low..high]), if high > own then high else own;
            && d.offered == c.offered + rows[own..next]
            && d.id == c.id && d.closed == c.closed && d.due == c.due && c.lastId <= d.lastId
            && RowsAbove(rows, d.lastId) == rows[next..]
  {
    hide *;
    if high <= own {
      OfferStale(limits, c, rows, low, own, high);
      assert c.offered + rows[own..own] == c.offered;
      SplitIsUnique(rows, c.lastId, own);
    } else {
      OfferFresh(limits, c, rows, low, own, high);
      PieceIsAbove(rows, c.lastId, own, high);
      OfferTakesAll(limits, c, rows[own..high]);
      SplitIsUnique(rows, rows[high - 1].id, high);
    }
  }

  lemma OfferNothing(limits: Limits, c: Client)
    ensures Offer(limits, c, []) == c
  {
  }

  /** What one tick does to one client, as though it had been queried alone: the rows taken
      up are the next rows above its own watermark, in order, and what is left above the new
      watermark is exactly the rest. */
  ghost predicate Served(s: State, c: Client, d: Client) {
    && d.id == c.id && d.closed == c.closed && d.due == c.due && c.lastId <= d.lastId
    && c.offered <= d.offered
    && d.offered[|c.offered|..] + Pending(s, d) == Pending(s, c)
  }

  lemma ServedFrom(s: State, c: Client, low: nat, own: nat, high: nat)
    requires Increasing(s.rows) && low <= own <= |s.rows| && low <= high <= |s.rows| && SplitsAt(s.rows, c.lastId, own)
    requires RowsAbove(s.rows, c.lastId) == s.rows[own..]
    ensures Served(s, c, Offer(s.limits, c, s.rows[low..high]))
  {
    hide Offer, RowsAbove, Increasing, SplitsAt;
    OfferWindow(s.limits, c, s.rows, low, own, high);
    var d, next := Offer(s.limits, c, s.rows[low..high]), if high > own then high else own;
    var taken, rest := s.rows[own..next], s.rows[next..];
    assert s.rows[own..] == taken + rest;
    assert d.offered[|c.offered|..] == taken;
  }

  lemma WindowServes(s: State, c: Client, low: nat, high: nat)
    requires Increasing(s.rows) && low <= high <= |s.rows|
    requires forall i :: 0 <= i < low ==> s.rows[i].id <= c.lastId
    ensures Served(s, c, Offer(s.limits, c, s.rows[low..high]))
  {
    hide Served, Offer;
    var own := AboveIsSuffix(s.rows, c.lastId);
    assert own < |s.rows| ==> s.rows[own].id > c.lastId;
    ServedFrom(s, c, low, own, high);
  }

  lemma BatchIsWindow(s: State) returns (low: nat, high: nat)
    requires Increasing(s.rows) && s.clients != []
    ensures low <= high <= |s.rows| && Batch(s) == s.rows[low..high]
    ensures forall i :: 0 <= i < low ==> s.rows[i].id <= MinLastId(s.clients)
    ensures low < |s.rows| ==> low < high
    ensures RowsAbove(s.rows, MinLastId(s.clients)) == s.rows[low..]
    ensures high == |s.rows| || high == low + QueryLimit(s.limits, |s.clients|)
  {
    low := AboveIsSuffix(s.rows, MinLastId(s.clients));
    var n := QueryLimit(s.limits, |s.clients|);
    high := if low + n < |s.rows| then low + n else |s.rows|;
  }

  /** The shared query serves every client as its own query would, whatever the watermarks of
      the others. */
  lemma TickServesEveryClient(s: State, i: nat)
    requires Increasing(s.rows) && i < |s.clients|
    ensures |Tick(s).clients| == |s.clients| && Served(s, s.clients[i], Tick(s).clients[i])
  {
    var low, high := BatchIsWindow(s);
    assert Tick(s).clients[i] == Offer(s.limits, s.clients[i], Batch(s));
    assert MinLastId(s.clients) <= s.clients[i].lastId;
    assert forall j :: 0 <= j < low ==> s.rows[j].id <= s.clients[i].lastId;
    hide *;
    WindowServes(s, s.clients[i], low, high);
  }

  function Backlog(s: State): nat {
    if s.clients == [] then 0 else |RowsAbove(s.rows, MinLastId(s.clients))|
  }

  /** A tick passes over a client that has rows waiting exactly when the slowest client is at
      least a whole batch behind it. */
  lemma TickSkipsClientIff(s: State, i: nat)
    requires Increasing(s.rows) && i < |s.clients| && Pending(s, s.clients[i]) != []
    ensures Tick(s).clients[i].offered == s.clients[i].offered
            <==> Backlog(s) - |Pending(s, s.clients[i])| >= QueryLimit(s.limits, |s.clients|)
  {
    var c := s.clients[i];
    var low, high := BatchIsWindow(s);
    var own := AboveIsSuffix(s.rows, c.lastId);
    assert own < |s.rows| ==> s.rows[own].id > c.lastId;
    assert MinLastId(s.clients) <= c.lastId;
    assert low <= own;
    assert Tick(s).clients[i] == Offer(s.limits, c, s.rows[low..high]);
    assert |s.rows[low..]| == Backlog(s);
    hide *;
    OfferWindow(s.limits, c, s.rows, low, own, high);
    assert |Pending(s, c)| == |s.rows| - own by { PendingIs(s, c); }
  }

  lemma PendingIs(s: State, c: Client)
    ensures Pending(s, c) == RowsAbove(s.rows, c.lastId)
  {
  }

  lemma ShorterAboveHigher(rows: seq<Row>, a: nat, k: nat)
    requires Increasing(rows) && k <= |rows| && (k > 0 ==> rows[k - 1].id <= a)
    ensures |RowsAbove(rows, a)| <= |rows| - k
  {
    var own := AboveIsSuffix(rows, a);
  }

  lemma WindowMovesWatermark(limits: Limits, c: Client, rows: seq<Row>, low: nat, high: nat)
    requires Increasing(rows) && low < high <= |rows| && forall i :: 0 <= i < low ==> rows[i].id <= c.lastId
    ensures Offer(limits, c, rows[low..high]).lastId >= rows[high - 1].id
  {
    var own := AboveIsSuffix(rows, c.lastId);
    assert own < |rows| ==> rows[own].id > c.lastId;
    assert high <= own ==> rows[high - 1].id <= c.lastId;
    assert low <= own;
    if high <= own {
      hide *;
      OfferStale(limits, c, rows, low, own, high);
    } else {
      hide *;
      OfferFresh(limits, c, rows, low, own, high);
      PieceIsAbove(rows, c.lastId, own, high);
      OfferTakesAll(limits, c, rows[own..high]);
    }
  }

  /** Every tick takes a batch off the backlog of the slowest client. */
  lemma TickShrinksBacklog(s: State)
    requires Increasing(s.rows) && s.clients != []
    ensures var n := QueryLimit(s.limits, |s.clients|);
            Backlog(Tick(s)) <= if Backlog(s) > n then Backlog(s) - n else 0
  {
    var low, high := BatchIsWindow(s);
    var t := Tick(s);
    assert |s.rows[low..]| == Backlog(s);
    var i :| 0 <= i < |t.clients| && t.clients[i].lastId == MinLastId(t.clients);
    assert t.clients[i] == Offer(s.limits, s.clients[i], s.rows[low..high]);
    assert MinLastId(s.clients) <= s.clients[i].lastId;
    assert forall j :: 0 <= j < low ==> s.rows[j].id <= s.clients[i].lastId;
    if low < high {
      WindowMovesWatermark(s.limits, s.clients[i], s.rows, low, high);
      ShorterAboveHigher(s.rows, MinLastId(t.clients), high);
    } else {
      hide Offer, Increasing;
      assert s.rows[low..high] == [];
      OfferNothing(s.limits, s.clients[i]);
      if low > 0 { assert s.rows[low - 1].id <= MinLastId(t.clients); }
      ShorterAboveHigher(s.rows, MinLastId(t.clients), low);
    }
  }

  function Ticks(s: State, n: nat): State
    decreases n
  {
    if n == 0 then s else Ticks(Tick(s), n - 1)
  }

  lemma OneBatchLess(n: nat, limit: nat, backlog: nat, left: nat)
    requires n > 0 && backlog <= n * limit && left <= if backlog > limit then backlog - limit else 0
    ensures left <= (n - 1) * limit
  {
    assert n * limit == (n - 1) * limit + limit;
  }

  lemma TickKeepsFrame(s: State)
    ensures Tick(s).rows == s.rows && Tick(s).limits == s.limits && |Tick(s).clients| == |s.clients|
  {
  }

  /** With nothing written meanwhile, enough ticks for the slowest client bring every client
      up to date. */
  lemma {:induction false} TicksCatchUp(s: State, n: nat, i: nat)
    requires Increasing(s.rows) && i < |s.clients| && Backlog(s) <= n * QueryLimit(s.limits, |s.clients|)
    ensures |Ticks(s, n).clients| == |s.clients| && Pending(Ticks(s, n), Ticks(s, n).clients[i]) == []
    decreases n
  {
    hide Tick, Backlog, QueryLimit, Increasing, Pending;
    if n == 0 {
      ShorterThanBacklog(s, i);
    } else {
      var t := Tick(s);
      TickKeepsFrame(s);
      TickShrinksBacklog(s);
      OneBatchLess(n, QueryLimit(s.limits, |s.clients|), Backlog(s), Backlog(t));
      TicksCatchUp(t, n - 1, i);
    }
  }

  lemma ShorterThanBacklog(s: State, i: nat)
    requires Increasing(s.rows) && i < |s.clients|
    ensures |Pending(s, s.clients[i])| <= Backlog(s)
  {
    var low := AboveIsSuffix(s.rows, MinLastId(s.clients));
    assert MinLastId(s.clients) <= s.clients[i].lastId;
    if low > 0 { assert s.rows[low - 1].id <= s.clients[i].lastId; }
    ShorterAboveHigher(s.rows, s.clients[i].lastId, low);
  }
}
