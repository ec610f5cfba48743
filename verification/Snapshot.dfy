/** The routing snapshot (src/app/routing-snapshot.ts): how its parts are built from the
    configuration. */
module Snapshot {
  import opened Common
  import Routing

  datatype Row = Row(id: string, provider: string, kind: string, active: bool)

  /** A provider adapter and the ids of its built-in models. */
  datatype Adapter = Adapter(id: string, models: seq<string>)

  /** `stored` lists the model ids in the database, by provider. */
  datatype Config = Config(
    adapters: seq<Adapter>, stored: map<string, seq<string>>, aliases: map<string, string>,
    combos: map<string, Routing.Combo>, accounts: seq<Row>, customs: seq<string>)

  type Accounts = map<string, seq<Row>>

  datatype Snapshot = Snapshot(
    revision: nat, prefixes: map<string, string>, aliases: map<string, string>, combos: map<string, Routing.Combo>,
    accounts: Accounts, knownModels: map<string, set<string>>)

  const OPENCODE_FT := "opencodeft"
  const OPENCODE := "opencode"
  const CUSTOM_ID := "custom:"
  const API_KEY := "api_key"

  // ------------------------------------------------------------ accounts

  /** The account rows of one provider, in repository order. */
  function RowsOf(rows: seq<Row>, provider: string): seq<Row> {
    if rows == [] then [] else (if rows[0].provider == provider then [rows[0]] else []) + RowsOf(rows[1..], provider)
  }

  function Activated(rows: seq<Row>): (active: seq<Row>)
    ensures |active| == |rows|
    ensures forall i :: 0 <= i < |rows| ==> active[i] == rows[i].(active := true)
  {
    if rows == [] then [] else [rows[0].(active := true)] + Activated(rows[1..])
  }

  function Synthetic(slug: string): Row {
    Row(CUSTOM_ID + slug, slug, API_KEY, true)
  }

  /** What a lookup of the provider's accounts should find. */
  function AccountsOf(rows: seq<Row>, customs: seq<string>, provider: string): seq<Row> {
    var own := RowsOf(rows, provider);
    if provider !in customs then own else if own == [] then [Synthetic(provider)] else Activated(own)
  }

  lemma RowsOfStep(rows: seq<Row>, provider: string)
    requires rows != []
    ensures RowsOf(rows, provider) ==
              (if rows[0].provider == provider then [rows[0]] else []) + RowsOf(rows[1..], provider)
  {
  }

  lemma {:induction false} RowsOfAppends(rows: seq<Row>, row: Row, provider: string)
    ensures RowsOf(rows + [row], provider) == RowsOf(rows, provider) + if row.provider == provider then [row] else []
  {
    RowsOfStep(rows + [row], provider);
    if rows == [] {
      assert (rows + [row])[1..] == [] && rows + [row] == [row];
      return;
    }
    RowsOfStep(rows, provider);
    hide RowsOf;
    RowsOfAppends(rows[1..], row, provider);
    assert (rows + [row])[1..] == rows[1..] + [row] && (rows + [row])[0] == rows[0];
  }

  lemma ActivatedTwice(rows: seq<Row>)
    ensures Activated(Activated(rows)) == Activated(rows)
  {
  }

  /** The map agrees with the closed form: a provider has an entry exactly when it has
      accounts, and the entry lists them. */
  ghost predicate Agrees(accounts: Accounts, rows: seq<Row>, customs: seq<string>) {
    forall p :: (p in accounts <==> AccountsOf(rows, customs, p) != [])
        && (p in accounts ==> accounts[p] == AccountsOf(rows, customs, p))
  }

  lemma NothingListed()
    ensures Agrees(map[], [], [])
  {
  }

  /** The loop that groups the account rows. */
  method GroupAccounts(rows: seq<Row>) returns (accounts: Accounts)
    ensures Agrees(accounts, rows, [])
  {
    hide *;
    accounts := map[];
    NothingListed();
    var i := 0;
    while i < |rows|
      invariant i <= |rows| && Agrees(accounts, rows[..i], [])
    {
      var row := rows[i];
      GroupStep(accounts, rows[..i], row);
      var listed := if row.provider in accounts then accounts[row.provider] else [];
      accounts := accounts[row.provider := listed + [row]];
      assert rows[..i + 1] == rows[..i] + [row];
      i := i + 1;
    }
    assert rows[..|rows|] == rows;
  }

  /** The loops that fill the account map. An entry made for a custom provider replaces, or
      stands in for, the rows listed before. */
  method BuildAccounts(rows: seq<Row>, customs: seq<string>) returns (accounts: Accounts)
    ensures Agrees(accounts, rows, customs)
  {
    hide *;
    accounts := GroupAccounts(rows);
    var i := 0;
    while i < |customs|
      invariant i <= |customs| && Agrees(accounts, rows, customs[..i])
    {
      var slug := customs[i];
      CustomStep(accounts, rows, customs[..i], slug);
      if slug in accounts && accounts[slug] != [] {
        accounts := accounts[slug := Activated(accounts[slug])];
      } else {
        accounts := accounts[slug := [Synthetic(slug)]];
      }
      assert customs[..i + 1] == customs[..i] + [slug];
      i := i + 1;
    }
    assert customs[..|customs|] == customs;
  }

  lemma GroupStep(accounts: Accounts, rows: seq<Row>, row: Row)
    requires Agrees(accounts, rows, [])
    ensures var listed := if row.provider in accounts then accounts[row.provider] else [];
            Agrees(accounts[row.provider := listed + [row]], rows + [row], [])
  {
    var listed := if row.provider in accounts then accounts[row.provider] else [];
    var after := accounts[row.provider := listed + [row]];
    forall p
      ensures (p in after <==> AccountsOf(rows + [row], [], p) != [])
              && (p in after ==> after[p] == AccountsOf(rows + [row], [], p))
    {
      RowsOfAppends(rows, row, p);
      assert AccountsOf(rows, [], p) == RowsOf(rows, p);
    }
  }

  lemma CustomStep(accounts: Accounts, rows: seq<Row>, customs: seq<string>, slug: string)
    requires Agrees(accounts, rows, customs)
    ensures var row := if slug in accounts && accounts[slug] != [] then Activated(accounts[slug])
            else [Synthetic(slug)];
            Agrees(accounts[slug := row], rows, customs + [slug])
  {
    hide Synthetic;
    var row := if slug in accounts && accounts[slug] != [] then Activated(accounts[slug]) else [Synthetic(slug)];
    var after := accounts[slug := row];
    forall p
      ensures (p in after <==> AccountsOf(rows, customs + [slug], p) != [])
              && (p in after ==> after[p] == AccountsOf(rows, customs + [slug], p))
    {
      ActivatedTwice(RowsOf(rows, p));
      assert p in customs + [slug] <==> p in customs || p == slug;
      if p == slug && slug in customs && RowsOf(rows, p) == [] {
        assert AccountsOf(rows, customs, p) == [Synthetic(p)];
        SyntheticIsActive(p);
      }
    }
  }

  lemma SyntheticIsActive(slug: string)
    ensures Activated([Synthetic(slug)]) == [Synthetic(slug)]
  {
  }

  /** The account map as a function, for the cache. */
  function AccountMap(rows: seq<Row>, customs: seq<string>): (accounts: Accounts)
    ensures Agrees(accounts, rows, customs)
  {
    var providers := (set row | row in rows :: row.provider) + (set slug | slug in customs);
    AccountedFor(rows, customs, providers);
    map p | p in providers && AccountsOf(rows, customs, p) != [] :: AccountsOf(rows, customs, p)
  }

  lemma AccountedFor(rows: seq<Row>, customs: seq<string>, providers: set<string>)
    requires forall row :: row in rows ==> row.provider in providers
    requires forall slug :: slug in customs ==> slug in providers
    ensures forall p :: p !in providers ==> AccountsOf(rows, customs, p) == []
  {
    forall p | p !in providers
      ensures RowsOf(rows, p) == []
    {
      NoRows(rows, p);
    }
  }

  lemma {:induction false} NoRows(rows: seq<Row>, p: string)
    requires forall row :: row in rows ==> row.provider != p
    ensures RowsOf(rows, p) == []
  {
    if rows != [] { NoRows(rows[1..], p); }
  }

  lemma MapIsUnique(a: Accounts, b: Accounts, rows: seq<Row>, customs: seq<string>)
    requires Agrees(a, rows, customs) && Agrees(b, rows, customs)
    ensures a == b
  {
  }

  /** A custom provider always has an account, and all its accounts are active, whatever its
      rows say. */
  lemma CustomProvidersAreReady(rows: seq<Row>, customs: seq<string>, slug: string)
    requires slug in customs
    ensures slug in AccountMap(rows, customs) && AccountMap(rows, customs)[slug] != []
    ensures forall i :: 0 <= i < |AccountMap(rows, customs)[slug]| ==> AccountMap(rows, customs)[slug][i].active
  {
    assert AccountsOf(rows, customs, slug) != [];
  }

  // ------------------------------------------------------------ prefixes

  type Prefixes = map<string, string>

  /** The part of a model id before its first slash, if there is one and it is not empty. */
  function Segment(model: string): Option<string> {
    var i := SlashAt(model);
    if 0 < i < |model| then Some(model[..i]) else None
  }

  function SlashAt(model: string): (i: nat)
    ensures i <= |model|
    ensures i < |model| ==> model[i] == '/'
    ensures forall k :: 0 <= k < i ==> model[k] != '/'
  {
    if model == [] || model[0] == '/' then 0 else 1 + SlashAt(model[1..])
  }

  function ClaimOne(prefixes: Prefixes, owner: string, model: string): Prefixes {
    match Segment(model)
    case None => prefixes
    case Some(q) => if q in prefixes then prefixes else prefixes[q := owner]
  }

  /** A provider claims the prefixes of its models that nobody has. */
  function Claim(prefixes: Prefixes, owner: string, models: seq<string>): Prefixes
    decreases |models|
  {
    if models == [] then prefixes else Claim(ClaimOne(prefixes, owner, models[0]), owner, models[1..])
  }

  function OwnPrefix(prefixes: Prefixes, id: string): Prefixes {
    if id == OPENCODE_FT then prefixes[id := id][OPENCODE := id] else prefixes[id := id]
  }

  function Builtin(prefixes: Prefixes, adapters: seq<Adapter>): Prefixes
    decreases |adapters|
  {
    if adapters == [] then prefixes
    else Builtin(Claim(OwnPrefix(prefixes, adapters[0].id), adapters[0].id, adapters[0].models), adapters[1..])
  }

  function StoredOf(stored: map<string, seq<string>>, id: string): seq<string> {
    if id in stored then stored[id] else []
  }

  function FromStore(prefixes: Prefixes, adapters: seq<Adapter>, stored: map<string, seq<string>>): Prefixes
    decreases |adapters|
  {
    if adapters == [] then prefixes
    else FromStore(Claim(prefixes, adapters[0].id, StoredOf(stored, adapters[0].id)), adapters[1..], stored)
  }

  function PrefixMap(adapters: seq<Adapter>, stored: map<string, seq<string>>): Prefixes {
    FromStore(Builtin(map[], adapters), adapters, stored)
  }

  /** The loops that fill the prefix map. */
  method BuildPrefixes(adapters: seq<Adapter>, stored: map<string, seq<string>>) returns (prefixes: Prefixes)
    ensures prefixes == PrefixMap(adapters, stored)
  {
    prefixes := map[];
    var i := 0;
    while i < |adapters|
      invariant i <= |adapters| && Builtin(prefixes, adapters[i..]) == Builtin(map[], adapters)
    {
      var adapter := adapters[i];
      assert adapters[i..][0] == adapter && adapters[i..][1..] == adapters[i + 1..];
      hide Claim, Segment;
      prefixes := prefixes[adapter.id := adapter.id];
      if adapter.id == OPENCODE_FT { prefixes := prefixes[OPENCODE := adapter.id]; }
      prefixes := ClaimAll(prefixes, adapter.id, adapter.models);
      i := i + 1;
    }
    assert adapters[|adapters|..] == [];
    i := 0;
    while i < |adapters|
      invariant i <= |adapters| && FromStore(prefixes, adapters[i..], stored) == PrefixMap(adapters, stored)
    {
      var adapter := adapters[i];
      assert adapters[i..][0] == adapter && adapters[i..][1..] == adapters[i + 1..];
      hide Claim, Builtin, PrefixMap;
      prefixes := ClaimAll(prefixes, adapter.id, StoredOf(stored, adapter.id));
      i := i + 1;
    }
    assert adapters[|adapters|..] == [];
  }

  method ClaimAll(given: Prefixes, owner: string, models: seq<string>) returns (prefixes: Prefixes)
    ensures prefixes == Claim(given, owner, models)
  {
    prefixes := given;
    var k := 0;
    while k < |models|
      invariant k <= |models| && Claim(prefixes, owner, models[k..]) == Claim(given, owner, models)
    {
      assert models[k..][1..] == models[k + 1..];
      var sep := SlashAt(models[k]);
      if 0 < sep < |models[k]| {
        var q := models[k][..sep];
        if q !in prefixes { prefixes := prefixes[q := owner]; }
      }
      k := k + 1;
    }
  }

  /** What an adapter registers for a prefix by its id alone. */
  function Registers(id: string, q: string): Option<string> {
    if id == q || (q == "opencode" && id == "opencodeft") then Some(id) else None
  }

  /** The last adapter that registers the prefix by its id. */
  function LastRegistered(adapters: seq<Adapter>, q: string): Option<string>
    decreases |adapters|
  {
    if adapters == [] then None
    else
      var later := LastRegistered(adapters[1..], q);
      if later.Some? then later else Registers(adapters[0].id, q)
  }

  /** The model id is the prefix, a slash and anything, the prefix not empty and without a
      slash of its own. */
  ghost predicate StandsUnder(model: string, q: string) {
    q != [] && '/' !in q && |q| < |model| && model[..|q|] == q && model[|q|] == '/'
  }

  ghost predicate Claims(models: seq<string>, q: string) {
    exists k :: 0 <= k < |models| && StandsUnder(models[k], q)
  }

  lemma SegmentIs(model: string, q: string)
    ensures Segment(model) == Some(q) <==> StandsUnder(model, q)
  {
    var i := SlashAt(model);
    if StandsUnder(model, q) {
      assert model[|q|] == '/';
      assert i <= |q|;
      assert forall k :: 0 <= k < |q| ==> model[k] == q[k];
    }
    if 0 < i < |model| { assert forall k :: 0 <= k < i ==> model[..i][k] == model[k]; }
  }

  /** The first adapter with a built-in model under the prefix. */
  ghost function FirstBuiltin(adapters: seq<Adapter>, q: string): Option<string>
    decreases |adapters|
  {
    if adapters == [] then None
    else if Claims(adapters[0].models, q) then Some(adapters[0].id)
    else FirstBuiltin(adapters[1..], q)
  }

  ghost function FirstStored(adapters: seq<Adapter>, stored: map<string, seq<string>>, q: string): Option<string>
    decreases |adapters|
  {
    if adapters == [] then None
    else if adapters[0].id in stored && Claims(stored[adapters[0].id], q) then Some(adapters[0].id)
    else FirstStored(adapters[1..], stored, q)
  }

  function Get(prefixes: Prefixes, q: string): Option<string> {
    if q in prefixes then Some(prefixes[q]) else None
  }

  lemma {:induction false} ClaimGives(prefixes: Prefixes, owner: string, models: seq<string>, q: string)
    ensures Get(Claim(prefixes, owner, models), q)
            == OrElse(Get(prefixes, q), if Claims(models, q) then Some(owner) else None)
    decreases |models|
  {
    if models != [] {
      SegmentIs(models[0], q);
      hide Segment, StandsUnder;
      ClaimGives(ClaimOne(prefixes, owner, models[0]), owner, models[1..], q);
      ClaimsStep(models, q);
    }
  }

  lemma ClaimsStep(models: seq<string>, q: string)
    requires models != []
    ensures Claims(models, q) <==> StandsUnder(models[0], q) || Claims(models[1..], q)
  {
    hide StandsUnder;
    if Claims(models[1..], q) {
      var k :| 0 <= k < |models[1..]| && StandsUnder(models[1..][k], q);
      assert models[k + 1] == models[1..][k];
    }
    if Claims(models, q) && !StandsUnder(models[0], q) {
      var k :| 0 <= k < |models| && StandsUnder(models[k], q);
      assert models[1..][k - 1] == models[k];
    }
  }

  lemma {:induction false} BuiltinGives(prefixes: Prefixes, adapters: seq<Adapter>, q: string)
    ensures Get(Builtin(prefixes, adapters), q)
            == OrElse(LastRegistered(adapters, q), OrElse(Get(prefixes, q), FirstBuiltin(adapters, q)))
    decreases |adapters|
  {
    if adapters != [] {
      var id := adapters[0].id;
      var own := OwnPrefix(prefixes, id);
      ClaimGives(own, id, adapters[0].models, q);
      OwnGives(prefixes, id, q);
      hide Claim, Claims, OwnPrefix, Registers;
      BuiltinGives(Claim(own, id, adapters[0].models), adapters[1..], q);
    }
  }

  lemma OwnGives(prefixes: Prefixes, id: string, q: string)
    ensures Get(OwnPrefix(prefixes, id), q) == OrElse(Registers(id, q), Get(prefixes, q))
  {
  }

  lemma {:induction false} StoreGives(prefixes: Prefixes, adapters: seq<Adapter>, stored: map<string, seq<string>>,
                                      q: string)
    ensures Get(FromStore(prefixes, adapters, stored), q) == OrElse(Get(prefixes, q), FirstStored(adapters, stored, q))
    decreases |adapters|
  {
    if adapters != [] {
      var id := adapters[0].id;
      ClaimGives(prefixes, id, StoredOf(stored, id), q);
      hide Claim, Claims;
      StoreGives(Claim(prefixes, id, StoredOf(stored, id)), adapters[1..], stored, q);
    }
  }

  /** Who owns a prefix: the last adapter registering it by its id (its own id, or the fixed
      alias), else the first with a built-in model under it, else the first with a stored
      one. */
  lemma PrefixOwner(adapters: seq<Adapter>, stored: map<string, seq<string>>, q: string)
    ensures Get(PrefixMap(adapters, stored), q)
            == OrElse(LastRegistered(adapters, q), OrElse(FirstBuiltin(adapters, q), FirstStored(adapters, stored, q)))
  {
    BuiltinGives(map[], adapters, q);
    StoreGives(Builtin(map[], adapters), adapters, stored, q);
  }

  /** No model name can take a provider's own id away from it; only the alias for one
      provider can be overridden. */
  lemma {:induction false} OwnIdsResolve(adapters: seq<Adapter>, stored: map<string, seq<string>>, i: nat)
    requires i < |adapters| && adapters[i].id != OPENCODE
    ensures Get(PrefixMap(adapters, stored), adapters[i].id) == Some(adapters[i].id)
  {
    PrefixOwner(adapters, stored, adapters[i].id);
    RegisteredLast(adapters, i, adapters[i].id);
  }

  lemma {:induction false} RegisteredLast(adapters: seq<Adapter>, i: nat, q: string)
    requires i < |adapters| && adapters[i].id == q != OPENCODE
    ensures LastRegistered(adapters, q) == Some(q)
    decreases |adapters|
  {
    OnlyItself(adapters[1..], q);
    if i > 0 { RegisteredLast(adapters[1..], i - 1, q); }
  }

  lemma {:induction false} OnlyItself(adapters: seq<Adapter>, q: string)
    requires q != OPENCODE
    ensures LastRegistered(adapters, q).Some? ==> LastRegistered(adapters, q) == Some(q)
    decreases |adapters|
  {
    if adapters != [] { OnlyItself(adapters[1..], q); }
  }

  // ------------------------------------------------------------ the whole snapshot

  function KnownModels(adapters: seq<Adapter>, stored: map<string, seq<string>>): map<string, set<string>> {
    map adapter | adapter in adapters && StoredOf(stored, adapter.id) != []
      :: adapter.id := set model | model in StoredOf(stored, adapter.id)
  }

  /** Known are exactly the stored models of the adapters that have any. */
  lemma KnownModelsAre(adapters: seq<Adapter>, stored: map<string, seq<string>>, p: string, model: string)
    ensures var known := KnownModels(adapters, stored);
            && (p in known <==> (exists a :: a in adapters && a.id == p) && p in stored && stored[p] != [])
            && (p in known ==> (model in known[p] <==> model in stored[p]))
  {
  }

  /** `buildSnapshot`. */
  function Build(config: Config, revision: nat): Snapshot {
    Snapshot(revision, PrefixMap(config.adapters, config.stored), config.aliases, config.combos,
             AccountMap(config.accounts, config.customs), KnownModels(config.adapters, config.stored))
  }
}
