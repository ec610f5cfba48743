/** The revision-keyed snapshot cache (src/app/routing-snapshot.ts) under the tracked
    configuration repositories (src/app/composition.ts), await by await. */
module SnapshotCache {
  import opened Common
  import opened Snapshot

  /** `pending` holds the snapshots built by lookups that have not published them yet. */
  datatype State = State(config: Config, revision: nat, cached: Option<Snapshot>, pending: map<nat, Snapshot>)

  datatype Step =
    | Mutate(config: Config)       // a tracked mutation: any change, and the revision moves
    | Lookup(call: nat)            // `get` up to its await
    | Publish(call: nat)           // and from there on
    | Batch(accounts: seq<Row>)    // an account batch operation, which is not tracked

  predicate Enabled(s: State, step: Step) {
    match step
    case Lookup(call) => call !in s.pending
    case Publish(call) => call in s.pending
    case _ => true
  }

  predicate Hits(s: State) {
    s.cached.Some? && s.cached.value.revision == s.revision
  }

  /** What a `get` called now returns, sooner or later. */
  function Got(s: State): Snapshot {
    if Hits(s) then s.cached.value else Build(s.config, s.revision)
  }

  function Apply(s: State, step: Step): State
    requires Enabled(s, step)
  {
    match step
    case Mutate(config) => s.(config := config, revision := s.revision + 1)
    case Lookup(call) => if Hits(s) then s else s.(pending := s.pending[call := Build(s.config, s.revision)])
    case Publish(call) => s.(cached := Some(s.pending[call]), pending := s.pending - {call})
    case Batch(accounts) => s.(config := s.config.(accounts := accounts))
  }

  function Run(s: State, steps: seq<Step>): State
    decreases |steps|
  {
    if steps == [] then s else Run(if Enabled(s, steps[0]) then Apply(s, steps[0]) else s, steps[1..])
  }

  /** Any snapshot around that carries the current revision is of the current
      configuration; none is of a later one. */
  ghost predicate Good(s: State, snapshot: Snapshot) {
    snapshot.revision <= s.revision && (snapshot.revision == s.revision ==> snapshot == Build(s.config, s.revision))
  }

  ghost predicate Coherent(s: State) {
    && (s.cached.Some? ==> Good(s, s.cached.value))
    && (forall call :: call in s.pending ==> Good(s, s.pending[call]))
  }

  lemma StepKeepsCoherent(s: State, step: Step)
    requires Coherent(s) && Enabled(s, step) && !step.Batch?
    ensures Coherent(Apply(s, step))
  {
    hide PrefixMap, AccountMap, KnownModels;
  }

  lemma {:induction false} RunKeepsCoherent(s: State, steps: seq<Step>)
    requires Coherent(s) && forall i :: 0 <= i < |steps| ==> !steps[i].Batch?
    ensures Coherent(Run(s, steps))
    decreases |steps|
  {
    if steps == [] { return; }
    if Enabled(s, steps[0]) { StepKeepsCoherent(s, steps[0]); }
    hide Coherent, Apply;
    RunKeepsCoherent(if Enabled(s, steps[0]) then Apply(s, steps[0]) else s, steps[1..]);
  }

  function Start(config: Config): State {
    State(config, 0, None, map[])
  }

  /** Over every interleaving of tracked mutations, lookups and their late publications, a
      lookup gets the snapshot of the configuration at the time of its call, whatever older
      build has overwritten the cached one in between. */
  lemma LookupsAreFresh(config: Config, steps: seq<Step>)
    requires forall i :: 0 <= i < |steps| ==> !steps[i].Batch?
    ensures var s := Run(Start(config), steps); Got(s) == Build(s.config, s.revision)
  {
    RunKeepsCoherent(Start(config), steps);
  }

  /** An older build can indeed overwrite a newer one; it costs a rebuild, no more. */
  lemma OlderBuildOverwrites(config: Config, later: Config)
    ensures var steps := [Lookup(1), Mutate(later), Lookup(2), Publish(2), Publish(1)];
            var s := Run(Start(config), steps);
            s.revision == 1 && s.cached == Some(Build(config, 0)) && Got(s) == Build(later, 1)
  {
    hide Build;
    var s0 := Start(config);
    var s1 := Apply(s0, Lookup(1));
    var s2 := Apply(s1, Mutate(later));
    var s3 := Apply(s2, Lookup(2));
    var s4 := Apply(s3, Publish(2));
    var s5 := Apply(s4, Publish(1));
    BuildHasRevision(config, 0);
    RunOf(s4, Publish(1), []);
    RunOf(s3, Publish(2), [Publish(1)]);
    RunOf(s2, Lookup(2), [Publish(2), Publish(1)]);
    RunOf(s1, Mutate(later), [Lookup(2), Publish(2), Publish(1)]);
    RunOf(s0, Lookup(1), [Mutate(later), Lookup(2), Publish(2), Publish(1)]);
    assert [Publish(1)] + [] == [Publish(1)];
    assert [Publish(2)] + [Publish(1)] == [Publish(2), Publish(1)];
    assert [Lookup(2)] + [Publish(2), Publish(1)] == [Lookup(2), Publish(2), Publish(1)];
    assert [Mutate(later)] + [Lookup(2), Publish(2), Publish(1)] == [Mutate(later), Lookup(2), Publish(2), Publish(1)];
    assert [Lookup(1)] + [Mutate(later), Lookup(2), Publish(2), Publish(1)]
        == [Lookup(1), Mutate(later), Lookup(2), Publish(2), Publish(1)];
    assert Run(s5, []) == s5;
  }

  /** A lookup builds exactly when no snapshot of the current revision is cached; and once its
      build is published the next lookup, if nothing changed in between, gets the same snapshot
      without building. */
  lemma LookupBuildsOnce(s: State, call: nat, next: nat)
    requires call !in s.pending && next !in s.pending && call != next
    ensures var t := Apply(s, Lookup(call));
            && t.cached == s.cached && t.pending.Keys - {call} == s.pending.Keys
            && (call in t.pending <==> s.cached == None || s.cached.value.revision != s.revision)
            && var u := if call in t.pending then Apply(t, Publish(call)) else t;
            && u.cached == Some(Got(s)) && Got(u) == Got(s)
            && next !in Apply(u, Lookup(next)).pending
  {
    BuildHasRevision(s.config, s.revision);
    hide Build;
  }

  lemma BuildHasRevision(config: Config, revision: nat)
    ensures Build(config, revision).revision == revision
  {
  }

  lemma RunOf(s: State, step: Step, steps: seq<Step>)
    ensures Run(s, [step] + steps) == Run(if Enabled(s, step) then Apply(s, step) else s, steps)
  {
    assert ([step] + steps)[1..] == steps;
    hide Apply;
  }

  // ------------------------------------------------------------ batches

  /** `setActiveBatch`. */
  function SetActive(rows: seq<Row>, ids: set<string>, active: bool): (after: seq<Row>)
    ensures |after| == |rows|
    ensures forall i :: 0 <= i < |rows| ==> after[i] == if rows[i].id in ids then rows[i].(active := active)
            else rows[i]
  {
    if rows == [] then []
    else [if rows[0].id in ids then rows[0].(active := active) else rows[0]] + SetActive(rows[1..], ids, active)
  }

  predicate Flips(row: Row, ids: set<string>, active: bool) {
    row.id in ids && row.active != active
  }

  lemma {:induction false} RowsOfSetActive(rows: seq<Row>, ids: set<string>, active: bool, p: string)
    ensures RowsOf(SetActive(rows, ids, active), p) == SetActive(RowsOf(rows, p), ids, active)
  {
    if rows == [] { return; }
    var first := if rows[0].id in ids then rows[0].(active := active) else rows[0];
    var rest := SetActive(rows[1..], ids, active);
    assert SetActive(rows, ids, active) == [first] + rest && ([first] + rest)[1..] == rest;
    RowsOfStep(rows, p);
    RowsOfStep([first] + rest, p);
    SetActiveStep(rows[0], RowsOf(rows[1..], p), ids, active);
    RowsOfSetActive(rows[1..], ids, active, p);
    hide RowsOf, SetActive;
    assert [] + RowsOf(rest, p) == RowsOf(rest, p) && [] + RowsOf(rows[1..], p) == RowsOf(rows[1..], p);
  }

  lemma SetActiveStep(row: Row, rows: seq<Row>, ids: set<string>, active: bool)
    ensures SetActive([row] + rows, ids, active)
            == [if row.id in ids then row.(active := active) else row] + SetActive(rows, ids, active)
  {
    assert ([row] + rows)[1..] == rows;
  }

  lemma {:induction false} RowsOfMembers(rows: seq<Row>, p: string)
    ensures forall row :: row in RowsOf(rows, p) <==> row in rows && row.provider == p
  {
    if rows != [] { RowsOfMembers(rows[1..], p); }
  }

  lemma SetActiveChangesIff(rows: seq<Row>, ids: set<string>, active: bool)
    ensures SetActive(rows, ids, active) == rows <==> forall row :: row in rows ==> !Flips(row, ids, active)
  {
    var after := SetActive(rows, ids, active);
    if after == rows {
      forall row | row in rows
        ensures !Flips(row, ids, active)
      {
        var i :| 0 <= i < |rows| && rows[i] == row;
        assert after[i] == rows[i];
      }
    } else if forall row :: row in rows ==> !Flips(row, ids, active) {
      assert forall i :: 0 <= i < |rows| ==> rows[i] in rows && after[i] == rows[i];
    }
  }

  /** The provider's accounts after the batch differ exactly when one of its rows flips and
      the provider is not a custom one, whose accounts all count as active anyway. */
  lemma AccountsChangeIff(rows: seq<Row>, customs: seq<string>, ids: set<string>, active: bool, p: string)
    ensures AccountsOf(SetActive(rows, ids, active), customs, p) != AccountsOf(rows, customs, p)
            <==> p !in customs && exists row :: row in rows && row.provider == p && Flips(row, ids, active)
  {
    RowsOfSetActive(rows, ids, active, p);
    RowsOfMembers(rows, p);
    SetActiveChangesIff(RowsOf(rows, p), ids, active);
    hide RowsOf, Synthetic;
    assert Activated(SetActive(RowsOf(rows, p), ids, active)) == Activated(RowsOf(rows, p));
  }

  /** A row the batch flips, of a provider that is not custom. */
  ghost predicate FlipsVisibly(config: Config, ids: set<string>, active: bool) {
    exists row :: row in config.accounts && row.provider !in config.customs && Flips(row, ids, active)
  }

  lemma AccountMapChangesIff(config: Config, ids: set<string>, active: bool)
    ensures AccountMap(SetActive(config.accounts, ids, active), config.customs)
            != AccountMap(config.accounts, config.customs)
            <==> FlipsVisibly(config, ids, active)
  {
    var before, after := AccountMap(config.accounts, config.customs),
        AccountMap(SetActive(config.accounts, ids, active), config.customs);
    hide AccountMap, AccountsOf, Flips;
    if FlipsVisibly(config, ids, active) {
      var row :| row in config.accounts && row.provider !in config.customs && Flips(row, ids, active);
      AccountsChangeIff(config.accounts, config.customs, ids, active, row.provider);
    } else {
      forall p
        ensures AccountsOf(SetActive(config.accounts, ids, active), config.customs, p)
                == AccountsOf(config.accounts, config.customs, p)
      {
        AccountsChangeIff(config.accounts, config.customs, ids, active, p);
      }
      assert before == after;
    }
  }

  /** Batch operations on accounts do not move the revision. Switching accounts on or off in
      a batch leaves lookups stale exactly when the current snapshot is cached and the batch
      flips an account of a provider that is not custom. */
  lemma BatchIsStaleIff(s: State, ids: set<string>, active: bool)
    requires Coherent(s)
    ensures var t := Apply(s, Batch(SetActive(s.config.accounts, ids, active)));
            Got(t) != Build(t.config, t.revision) <==> Hits(s) && FlipsVisibly(s.config, ids, active)
  {
    AccountMapChangesIff(s.config, ids, active);
    hide AccountMap, PrefixMap, KnownModels, FlipsVisibly;
  }

  /** `deleteBatch`. */
  function Deleted(rows: seq<Row>, ids: set<string>): (after: seq<Row>)
    ensures |after| <= |rows|
  {
    if rows == [] then [] else (if rows[0].id in ids then [] else [rows[0]]) + Deleted(rows[1..], ids)
  }

  lemma {:induction false} DeletedChangesIff(rows: seq<Row>, ids: set<string>)
    ensures |Deleted(rows, ids)| < |rows| <==> exists row :: row in rows && row.id in ids
    ensures Deleted(rows, ids) == rows <==> forall row :: row in rows ==> row.id !in ids
  {
    if rows != [] {
      DeletedChangesIff(rows[1..], ids);
      assert rows == [rows[0]] + rows[1..] && forall row :: row in rows <==> row == rows[0] || row in rows[1..];
    }
  }

  lemma {:induction false} RowsOfDeleted(rows: seq<Row>, ids: set<string>, p: string)
    ensures RowsOf(Deleted(rows, ids), p) == Deleted(RowsOf(rows, p), ids)
  {
    if rows == [] { return; }
    var rest := Deleted(rows[1..], ids);
    RowsOfDeleted(rows[1..], ids, p);
    RowsOfStep(rows, p);
    DeletedStep(rows[0], RowsOf(rows[1..], p), ids);
    if rows[0].id in ids {
      assert Deleted(rows, ids) == rest;
    } else {
      assert Deleted(rows, ids) == [rows[0]] + rest && ([rows[0]] + rest)[1..] == rest;
      RowsOfStep([rows[0]] + rest, p);
    }
    hide RowsOf, Deleted;
    assert [] + RowsOf(rest, p) == RowsOf(rest, p) && [] + RowsOf(rows[1..], p) == RowsOf(rows[1..], p);
  }

  lemma DeletedStep(row: Row, rows: seq<Row>, ids: set<string>)
    ensures Deleted([row] + rows, ids) == (if row.id in ids then [] else [row]) + Deleted(rows, ids)
  {
    assert ([row] + rows)[1..] == rows;
  }

  /** The provider is custom and its rows already look as if it had none: the stand-in for a
      custom provider without accounts is the same row. */
  predicate StandsIn(rows: seq<Row>, customs: seq<string>, p: string) {
    p in customs && Activated(RowsOf(rows, p)) == [Synthetic(p)]
  }

  lemma AccountsChangeByDeletionIff(rows: seq<Row>, customs: seq<string>, ids: set<string>, p: string)
    ensures AccountsOf(Deleted(rows, ids), customs, p) != AccountsOf(rows, customs, p)
            <==> !StandsIn(rows, customs, p) && exists row :: row in rows && row.provider == p && row.id in ids
  {
    var own := RowsOf(rows, p);
    RowsOfDeleted(rows, ids, p);
    RowsOfMembers(rows, p);
    DeletedChangesIff(own, ids);
    hide RowsOf, Deleted, Synthetic;
    assert Activated([]) == [];
    if exists row :: row in rows && row.provider == p && row.id in ids {
      assert exists row :: row in own && row.id in ids;
      assert |Deleted(own, ids)| < |own|;
    }
  }

  /** A row the batch deletes, of a provider whose accounts look different without it. */
  ghost predicate DeletesVisibly(config: Config, ids: set<string>) {
    exists row :: row in config.accounts && row.id in ids && !StandsIn(config.accounts, config.customs, row.provider)
  }

  lemma AccountMapChangesByDeletionIff(config: Config, ids: set<string>)
    ensures AccountMap(Deleted(config.accounts, ids), config.customs) != AccountMap(config.accounts, config.customs)
            <==> DeletesVisibly(config, ids)
  {
    var rows, customs := config.accounts, config.customs;
    if DeletesVisibly(config, ids) {
      var row :| row in rows && row.id in ids && !StandsIn(rows, customs, row.provider);
      AccountsChangeByDeletionIff(rows, customs, ids, row.provider);
      hide AccountsOf, StandsIn;
    } else {
      hide AccountMap, AccountsOf, StandsIn, Deleted;
      forall p
        ensures AccountsOf(Deleted(rows, ids), customs, p) == AccountsOf(rows, customs, p)
      {
        AccountsChangeByDeletionIff(rows, customs, ids, p);
      }
      SameAccounts(Deleted(rows, ids), rows, customs);
    }
  }

  lemma SameAccounts(a: seq<Row>, b: seq<Row>, customs: seq<string>)
    requires forall p :: AccountsOf(a, customs, p) == AccountsOf(b, customs, p)
    ensures AccountMap(a, customs) == AccountMap(b, customs)
  {
    hide AccountsOf;
  }

  /** Deleting accounts in a batch leaves lookups stale exactly when the current snapshot is
      cached and the batch deletes an account of a provider that is not custom, or of a custom
      one whose only account does not just look like its stand-in. */
  lemma DeletionIsStaleIff(s: State, ids: set<string>)
    requires Coherent(s)
    ensures var t := Apply(s, Batch(Deleted(s.config.accounts, ids)));
            Got(t) != Build(t.config, t.revision) <==> Hits(s) && DeletesVisibly(s.config, ids)
  {
    AccountMapChangesByDeletionIff(s.config, ids);
    hide AccountMap, PrefixMap, KnownModels, DeletesVisibly;
  }

  lemma CachedAfterOneLookup(config: Config)
    ensures var s := Run(Start(config), [Lookup(1), Publish(1)]);
            Coherent(s) && Hits(s) && s.config == config
  {
    BuildHasRevision(config, 0);
    hide Build;
    var s0 := Start(config);
    var s1 := Apply(s0, Lookup(1));
    var s2 := Apply(s1, Publish(1));
    RunOf(s0, Lookup(1), [Publish(1)]);
    RunOf(s1, Publish(1), []);
    assert [Lookup(1)] + [Publish(1)] == [Lookup(1), Publish(1)] && [Publish(1)] + [] == [Publish(1)];
    assert Run(s2, []) == s2;
    assert s2.pending == map[];
  }

  /** Such a run: one lookup, its publication, and a batch that switches off the only account
      of a provider. The next lookup still reports the account as active. */
  lemma BatchLeavesLookupsStale(id: string, provider: string, kind: string)
    ensures var row := Row(id, provider, kind, true);
            var config := Config([], map[], map[], map[], [row], []);
            var t := Run(Start(config), [Lookup(1), Publish(1), Batch([row.(active := false)])]);
            && t.config.accounts == [row.(active := false)]
            && provider in Got(t).accounts && Got(t).accounts[provider] == [row]
            && Got(t) != Build(t.config, t.revision)
  {
    var row := Row(id, provider, kind, true);
    var off := row.(active := false);
    var config := Config([], map[], map[], map[], [row], []);
    var s := Run(Start(config), [Lookup(1), Publish(1)]);
    CachedAfterOneLookup(config);
    assert SetActive([row], {id}, false) == [off];
    assert row in config.accounts && Flips(row, {id}, false);
    BatchIsStaleIff(s, {id}, false);
    OneRow(row);
    assert AccountMap([row], [])[provider] == [row];
    hide Build, AccountMap, FlipsVisibly;
    RunJoins(Start(config), [Lookup(1), Publish(1)], Batch([off]));
    assert [Lookup(1), Publish(1)] + [Batch([off])] == [Lookup(1), Publish(1), Batch([off])];
    assert s.cached.value == Build(config, s.revision);
    SnapshotAccounts(config, s.revision);
  }

  lemma SnapshotAccounts(config: Config, revision: nat)
    ensures Build(config, revision).accounts == AccountMap(config.accounts, config.customs)
  {
  }

  lemma OneRow(row: Row)
    ensures AccountsOf([row], [], row.provider) == [row]
  {
    assert [row][1..] == [];
    assert RowsOf([row], row.provider) == [row] + RowsOf([], row.provider) == [row];
  }

  lemma {:induction false} RunJoins(s: State, steps: seq<Step>, last: Step)
    ensures Run(s, steps + [last]) == var t := Run(s, steps); if Enabled(t, last) then Apply(t, last) else t
    decreases |steps|
  {
    if steps == [] {
      assert steps + [last] == [last] && [last][1..] == [];
    } else {
      assert (steps + [last])[1..] == steps[1..] + [last] && (steps + [last])[0] == steps[0];
      hide Apply;
      RunJoins(if Enabled(s, steps[0]) then Apply(s, steps[0]) else s, steps[1..], last);
    }
  }

  // ------------------------------------------------------------ the object

  /** The cache. A `get` is its two halves around the await. */
  class RouteSnapshotCache {
    var cached: Option<Snapshot>

    ghost function View(config: Config, revision: nat, pending: map<nat, Snapshot>): State
      reads this
    {
      State(config, revision, cached, pending)
    }

    constructor ()
      ensures cached == None
    {
      cached := None;
    }

    method BeginGet(config: Config, revision: nat) returns (done: bool, snapshot: Snapshot)
      ensures snapshot == Got(View(config, revision, map[])) && (done <==> Hits(View(config, revision, map[])))
    {
      if cached.Some? && cached.value.revision == revision {
        return true, cached.value;
      }
      var prefixes := BuildPrefixes(config.adapters, config.stored);
      var accounts := BuildAccounts(config.accounts, config.customs);
      MapIsUnique(accounts, AccountMap(config.accounts, config.customs), config.accounts, config.customs);
      hide PrefixMap, AccountMap, KnownModels;
      return false, Snapshot(revision, prefixes, config.aliases, config.combos, accounts,
          KnownModels(config.adapters, config.stored));
    }

    method EndGet(snapshot: Snapshot)
      modifies this
      ensures cached == Some(snapshot)
    {
      cached := Some(snapshot);
    }
  }
}
