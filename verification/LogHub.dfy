/** The console log hub as the object the source updates in place, and the init snapshot a
    new client starts from. */
module LogHub {
  import opened LogStream
  import opened LogStreamRuns

  /** The init event: an envelope around the rows, with a comma between two of them. */
  function InitBytes(envelope: nat, lines: seq<Row>): nat {
    if lines == [] then envelope
    else if |lines| == 1 then envelope + lines[0].json
    else InitBytes(envelope, lines[..|lines| - 1]) + 1 + lines[|lines| - 1].json
  }

  lemma {:induction false} FewerLinesAreSmaller(envelope: nat, lines: seq<Row>, k: nat)
    requires 0 < k <= |lines|
    ensures InitBytes(envelope, lines[..k]) <= InitBytes(envelope, lines)
    decreases |lines|
  {
    if k == |lines| {
      assert lines[..k] == lines;
    } else {
      var shorter := lines[..|lines| - 1];
      FewerLinesAreSmaller(envelope, shorter, k);
      assert shorter[..k] == lines[..k];
    }
  }

  /** The snapshot is newest first; the oldest rows are dropped until the event fits. What is
      left is the longest run of newest rows that fits, and an error replaces it exactly when
      not even the newest row alone fits (or the envelope alone, for an empty log). */
  method InitSnapshot(snapshot: seq<Row>, envelope: nat, maxBytes: nat) returns (lines: seq<Row>, tooLarge: bool)
    ensures lines <= snapshot && (snapshot != [] ==> lines != [])
    ensures tooLarge <==> InitBytes(envelope, if snapshot == [] then [] else snapshot[..1]) > maxBytes
    ensures tooLarge ==> |lines| <= 1
    ensures !tooLarge ==> InitBytes(envelope, lines) <= maxBytes
    ensures forall k :: |lines| < k <= |snapshot| ==> InitBytes(envelope, snapshot[..k]) > maxBytes
  {
    lines := snapshot;
    assert lines == snapshot[..|lines|];
    while InitBytes(envelope, lines) > maxBytes && |lines| > 1
      invariant |lines| <= |snapshot| && lines == snapshot[..|lines|]
      invariant snapshot != [] ==> lines != []
      invariant forall k :: |lines| < k <= |snapshot| ==> InitBytes(envelope, snapshot[..k]) > maxBytes
      decreases |lines|
    {
      lines := lines[..|lines| - 1];
    }
    tooLarge := InitBytes(envelope, lines) > maxBytes;
    if lines != [] {
      FewerLinesAreSmaller(envelope, lines, 1);
      assert lines[..1] == snapshot[..1];
      assert |lines| == 1 ==> lines == lines[..1];
    }
  }

  class ConsoleLogStreamHub {
    const limits: Limits
    var clients: seq<Client>
    var nextClient: nat

    /** The hub together with the log it reads. */
    ghost function View(rows: seq<Row>, nextId: nat): State
      reads this
    {
      State(limits, rows, nextId, clients, nextClient)
    }

    constructor (limits: Limits)
      ensures this.limits == limits && clients == [] && nextClient == 1
    {
      this.limits, clients, nextClient := limits, [], 1;
    }

    method SlowestWatermark() returns (min: nat)
      requires clients != []
      ensures min == MinLastId(clients)
    {
      var i: nat;
      i, min := |clients| - 1, clients[|clients| - 1].lastId;
      while i > 0
        invariant i < |clients| && min == MinLastId(clients[i..])
      {
        i := i - 1;
        assert clients[i..][1..] == clients[i + 1..];
        if clients[i].lastId < min { min := clients[i].lastId; }
      }
      assert clients[0..] == clients;
    }

    method Tick(rows: seq<Row>, nextId: nat)
      modifies this`clients
      ensures View(rows, nextId) == LogStream.Tick(old(View(rows, nextId)))
    {
      if clients == [] { return; }
      ghost var before := View(rows, nextId);
      var min := SlowestWatermark();
      var batch := Take(RowsAbove(rows, min), QueryLimit(limits, |clients|));
      assert batch == Batch(before);
      hide *;
      var n := 0;
      while n < |clients|
        invariant n <= |clients| == |before.clients| && View(rows, nextId) == before.(clients := clients)
        invariant forall k :: 0 <= k < n ==> clients[k] == Offer(limits, before.clients[k], batch)
        invariant forall k :: n <= k < |clients| ==> clients[k] == before.clients[k]
      {
        var served := Serve(clients[n], batch);
        clients := clients[n := served];
        n := n + 1;
      }
      assert clients == OfferAll(limits, before.clients, batch);
      TickIs(before, batch);
    }

    /** The inner loop of the tick, for one client. */
    method Serve(client: Client, batch: seq<Row>) returns (served: Client)
      ensures served == Offer(limits, client, batch)
    {
      served := client;
      var k := 0;
      while k < |batch|
        invariant k <= |batch| && Offer(limits, served, batch[k..]) == Offer(limits, client, batch)
      {
        var row := batch[k];
        assert batch[k..][1..] == batch[k + 1..];
        if row.id > served.lastId {
          var sent := !served.closed && row.json + LINE_ENVELOPE <= limits.maxEventBytes;
          served := served.(lastId := row.id, offered := served.offered + [row],
                            delivered := if sent then served.delivered + [row] else served.delivered);
        }
        k := k + 1;
      }
    }

    /** `start` of a new stream; the snapshot itself is `InitSnapshot`. */
    method Attach(rows: seq<Row>, nextId: nat) returns (accepted: bool)
      modifies this
      ensures View(rows, nextId) == Apply(old(View(rows, nextId)), Join)
      ensures accepted <==> |old(clients)| < limits.maxClients
    {
      if |clients| >= limits.maxClients { return false; }
      clients := clients + [Client(nextClient, TopId(rows), false, [], [], [])];
      nextClient := nextClient + 1;
      return true;
    }

    method Detach(id: nat)
      modifies this`clients
      ensures clients == Without(old(clients), id)
    {
      clients := Without(clients, id);
    }

    method BroadcastClear(rows: seq<Row>, nextId: nat)
      modifies this`clients
      ensures View(rows, nextId) == Apply(old(View(rows, nextId)), LogStreamRuns.BroadcastClear)
    {
      var top := TopId(rows);
      ghost var before := clients;
      hide TopId, Raise;
      var n := 0;
      while n < |clients|
        invariant n <= |clients| == |before|
        invariant forall k :: 0 <= k < n ==> clients[k] == Raise(before[k], top)
        invariant forall k :: n <= k < |clients| ==> clients[k] == before[k]
      {
        clients := clients[n := Raise(clients[n], top)];
        n := n + 1;
      }
      assert clients == RaiseAll(before, top);
    }
  }

  lemma TickIs(s: State, batch: seq<Row>)
    requires s.clients != [] && batch == Batch(s)
    ensures LogStream.Tick(s) == s.(clients := OfferAll(s.limits, s.clients, batch))
  {
  }
}
