/** Who is attached to the console log hub over a run, how much a tick asks for, and how large
    its frames are (src/console/streams.ts). */
module LogClients {
  import opened LogStream
  import opened LogStreamRuns
  import opened LogHub

  // ------------------------------------------------------------ who is attached

  /** The clients are no more than allowed, and each has an id of its own, already given out. */
  ghost predicate Attached(s: State) {
    && |s.clients| <= s.limits.maxClients
    && (forall i :: 0 <= i < |s.clients| ==> s.clients[i].id < s.nextClient)
    && Apart(s.clients)
  }

  /** The two lists hold the same ids in the same places. */
  ghost predicate SameIds(a: seq<Client>, b: seq<Client>) {
    |a| == |b| && forall i :: 0 <= i < |a| ==> a[i].id == b[i].id
  }

  lemma {:induction false} OfferKeepsId(limits: Limits, c: Client, batch: seq<Row>)
    ensures Offer(limits, c, batch).id == c.id
    decreases |batch|
  {
    if batch != [] { OfferKeepsId(limits, OfferRow(limits, c, batch[0]), batch[1..]); }
  }

  lemma TickKeepsIds(s: State)
    ensures SameIds(Tick(s).clients, s.clients) && Tick(s).limits == s.limits && Tick(s).nextClient == s.nextClient
  {
    if s.clients != [] {
      forall i | 0 <= i < |s.clients|
        ensures Tick(s).clients[i].id == s.clients[i].id
      {
        OfferKeepsId(s.limits, s.clients[i], Batch(s));
      }
    }
  }

  ghost predicate Apart(clients: seq<Client>) {
    forall i, j :: 0 <= i < j < |clients| ==> clients[i].id != clients[j].id
  }

  lemma {:induction false} WithoutHas(clients: seq<Client>, id: nat)
    ensures forall c :: c in Without(clients, id) <==> c in clients && c.id != id
  {
    if clients != [] {
      WithoutHas(clients[1..], id);
      assert clients == [clients[0]] + clients[1..];
    }
  }

  lemma {:induction false} WithoutNobody(clients: seq<Client>, id: nat)
    requires forall c :: c in clients ==> c.id != id
    ensures Without(clients, id) == clients
  {
    if clients != [] {
      forall c | c in clients[1..]
        ensures c.id != id
      {
        assert c in clients;
      }
      WithoutNobody(clients[1..], id);
      assert clients[0] in clients;
    }
  }

  lemma HeadIsApart(clients: seq<Client>)
    requires Apart(clients) && clients != []
    ensures Apart(clients[1..]) && forall c :: c in clients[1..] ==> c.id != clients[0].id
  {
    var rest := clients[1..];
    forall c | c in rest
      ensures c.id != clients[0].id
    {
      var j :| 0 <= j < |rest| && rest[j] == c;
      assert clients[j + 1] == c;
    }
  }

  lemma {:induction false} WithoutOne(clients: seq<Client>, k: nat)
    requires Apart(clients) && k < |clients|
    ensures Without(clients, clients[k].id) == clients[..k] + clients[k + 1..]
  {
    HeadIsApart(clients);
    var rest := clients[1..];
    hide Apart;
    if k == 0 {
      WithoutNobody(rest, clients[0].id);
    } else {
      assert rest[k - 1] == clients[k] && rest[k - 1] in rest;
      WithoutOne(rest, k - 1);
      assert clients[..k] + clients[k + 1..] == [clients[0]] + (rest[..k - 1] + rest[k..]);
    }
  }

  lemma CutKeepsApart(clients: seq<Client>, k: nat)
    requires Apart(clients) && k < |clients|
    ensures Apart(clients[..k] + clients[k + 1..])
  {
  }

  /** Without the client of an id there are all others, as many as before or one less. */
  lemma WithoutIsRest(clients: seq<Client>, id: nat)
    requires Apart(clients)
    ensures Apart(Without(clients, id)) && forall c :: c in Without(clients, id) <==> c in clients && c.id != id
    ensures |Without(clients, id)| == |clients| - (if exists c :: c in clients && c.id == id then 1 else 0)
  {
    WithoutHas(clients, id);
    hide Without;
    if c :| c in clients && c.id == id {
      var k :| 0 <= k < |clients| && clients[k] == c;
      WithoutOne(clients, k);
      CutKeepsApart(clients, k);
    } else {
      WithoutNobody(clients, id);
    }
  }

  lemma StepKeepsAttached(s: State, step: Step)
    requires Attached(s)
    ensures Attached(Apply(s, step)) && Apply(s, step).limits == s.limits
  {
    if step.Leave? {
      WithoutIsRest(s.clients, step.client);
    } else if step.SharedTick? {
      TickKeepsIds(s);
    }
  }

  /** Over every run the clients stay within the limit and their ids apart. */
  lemma {:induction false} ClientsStayWithinLimit(s: State, steps: seq<Step>)
    requires Attached(s)
    ensures Attached(Run(s, steps)) && Run(s, steps).limits == s.limits
    decreases |steps|
  {
    if steps != [] {
      StepKeepsAttached(s, steps[0]);
      hide Apply, Attached;
      ClientsStayWithinLimit(Apply(s, steps[0]), steps[1..]);
    }
  }

  /** A client comes in exactly while there is room, at the newest row and with an id not in
      use; and leaving takes out the client that leaves, and no other. */
  lemma ComingAndGoing(s: State, id: nat)
    requires Attached(s)
    ensures var t := Apply(s, Join);
            if |s.clients| == s.limits.maxClients then t == s
            else && |t.clients| == |s.clients| + 1 && t.clients[..|s.clients|] == s.clients
                 && var c := t.clients[|s.clients|];
                 && c.lastId == (if s.rows == [] then 0 else s.rows[|s.rows| - 1].id)
                 && !c.closed && forall d :: d in s.clients ==> d.id != c.id
    ensures var t := Apply(s, Leave(id));
            && (forall c :: c in t.clients <==> c in s.clients && c.id != id)
            && |t.clients| == |s.clients| - (if exists c :: c in s.clients && c.id == id then 1 else 0)
            && t == s.(clients := t.clients)
  {
    WithoutIsRest(s.clients, id);
    hide Without;
  }

  // ------------------------------------------------------------ how much is read and sent

  /** A tick reads the rows above the slowest watermark, the oldest first: as many as there
      are, but no more than 200 and no more than a batch for each client. */
  lemma BatchIsBounded(s: State)
    requires s.clients != []
    ensures var above := RowsAbove(s.rows, MinLastId(s.clients));
            && Batch(s) <= above
            && (|Batch(s)| == |above| || |Batch(s)| == 200 || |Batch(s)| == s.limits.batchLines * |s.clients|)
            && |Batch(s)| <= 200 && |Batch(s)| <= s.limits.batchLines * |s.clients|
  {
    hide RowsAbove, MinLastId;
  }

  /** An open client is sent a row exactly when its frame fits, and is past the row either way. */
  lemma RowIsSentIff(limits: Limits, c: Client, row: Row)
    requires row.id > c.lastId
    ensures var d := OfferRow(limits, c, row);
            && d == c.(lastId := row.id, offered := c.offered + [row], delivered := d.delivered)
            && d.delivered ==
                 if !c.closed && |"event: line\ndata: "| + row.json + |"\n\n"| <= limits.maxEventBytes then
                   c.delivered + [row]
                 else c.delivered
  {
    assert |"event: line\ndata: "| == 18 && |"\n\n"| == 2;
  }

  function Bytes(lines: seq<Row>): nat {
    if lines == [] then 0 else lines[0].json + Bytes(lines[1..])
  }

  lemma {:induction false} BytesJoin(a: seq<Row>, row: Row)
    ensures Bytes(a + [row]) == Bytes(a) + row.json
  {
    if a == [] {
      assert a + [row] == [row] && [row][1..] == [];
    } else {
      assert (a + [row])[1..] == a[1..] + [row];
      BytesJoin(a[1..], row);
    }
  }

  /** The init event is its envelope, its rows, and a comma between two rows. */
  lemma {:induction false} InitBytesAreSum(envelope: nat, lines: seq<Row>)
    ensures lines == [] ==> InitBytes(envelope, lines) == envelope
    ensures lines != [] ==> InitBytes(envelope, lines) == envelope + Bytes(lines) + |lines| - 1
    decreases |lines|
  {
    if lines != [] {
      var shorter, last := lines[..|lines| - 1], lines[|lines| - 1];
      assert lines == shorter + [last];
      BytesJoin(shorter, last);
      InitBytesAreSum(envelope, shorter);
    }
  }
}
