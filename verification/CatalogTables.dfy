/** The catalog tables: synchronising a normalised catalog by upserts, and deleting by overlapping
    selectors. Each request is one database transaction. */
module CatalogTables {
  import opened Text
  import opened CatalogRequest

  /** A game's row; its category rows are kept apart, in sort order. */
  datatype GameRow = GameRow(
    name: string, platform: string, category: Option<string>, iconUrl: Option<string>, status: string, remark: Option<string>)

  function RowOf(game: Game): GameRow {
    GameRow(game.name, game.platform, game.category, game.iconUrl, game.status, game.remark)
  }

  type Key = (string, string)

  /** Rules by their automatic id. A rule without source or external id has no unique key. */
  datatype Rules = Rules(rows: map<nat, Rule>, nextId: nat)

  datatype Tables = Tables(
    games: map<nat, GameRow>, categories: map<nat, seq<string>>, regions: map<(nat, nat), Region>, rules: Rules)

  function KeyOf(r: Rule): Option<Key> {
    if r.syncSource.Some? && r.externalId.Some? then Some((r.syncSource.value, r.externalId.value)) else None
  }

  /** Ids are below the counter, and the unique key is unique. */
  ghost predicate RulesOk(t: Rules) {
    && (forall id :: id in t.rows ==> id < t.nextId)
    && (forall i, j :: i in t.rows && j in t.rows && KeyOf(t.rows[i]).Some? && KeyOf(t.rows[i]) == KeyOf(t.rows[j]) ==> i == j)
  }

  // ---------------------------------------------------------------- upserts on values

  function PutAll<K, V>(m: map<K, V>, entries: seq<(K, V)>): map<K, V> {
    if entries == [] then m
    else PutAll(m, entries[..|entries| - 1])[entries[|entries| - 1].0 := entries[|entries| - 1].1]
  }

  /** The value of the last entry with this key. */
  function LastOf<K(==), V>(entries: seq<(K, V)>, k: K): Option<V> {
    if entries == [] then None
    else if entries[|entries| - 1].0 == k then Some(entries[|entries| - 1].1)
    else LastOf(entries[..|entries| - 1], k)
  }

  /** Upserts by key: the last write of every key wins, and other keys are untouched. */
  lemma {:induction false} LastWriteWins<K, V>(m: map<K, V>, entries: seq<(K, V)>, k: K)
    ensures k in PutAll(m, entries) <==> k in m || LastOf(entries, k).Some?
    ensures k in PutAll(m, entries) ==>
      PutAll(m, entries)[k] == if LastOf(entries, k).Some? then LastOf(entries, k).value else m[k]
  {
    if entries != [] {
      var last := |entries| - 1;
      LastWriteWins(m, entries[..last], k);
      var before := PutAll(m, entries[..last]);
      assert PutAll(m, entries) == before[entries[last].0 := entries[last].1];
    }
  }

  lemma PutAllTwice<K(!new), V>(m: map<K, V>, entries: seq<(K, V)>)
    ensures PutAll(PutAll(m, entries), entries) == PutAll(m, entries)
  {
    var once := PutAll(m, entries);
    var twice := PutAll(once, entries);
    forall k ensures k in twice <==> k in once {
      LastWriteWins(m, entries, k);
      LastWriteWins(once, entries, k);
    }
    forall k | k in once ensures twice[k] == once[k] {
      LastWriteWins(m, entries, k);
      LastWriteWins(once, entries, k);
    }
    assert twice.Keys == once.Keys && twice == once;
  }

  function FindKey(t: Rules, key: Option<Key>, from: nat): (r: Option<nat>)
    ensures r.Some? ==> r.value in t.rows && from <= r.value < t.nextId && KeyOf(t.rows[r.value]) == key && key.Some?
    ensures r.None? && key.Some? ==> forall id :: id in t.rows && from <= id < t.nextId ==> KeyOf(t.rows[id]) != key
    decreases t.nextId - from
  {
    if key.None? || from >= t.nextId then None
    else if from in t.rows && KeyOf(t.rows[from]) == key then Some(from)
    else FindKey(t, key, from + 1)
  }

  /** INSERT ... ON DUPLICATE KEY UPDATE on the unique key. */
  function UpsertRule(t: Rules, rule: Rule): Rules {
    var found := FindKey(t, KeyOf(rule), 0);
    if found.Some? then t.(rows := t.rows[found.value := rule])
    else Rules(t.rows[t.nextId := rule], t.nextId + 1)
  }

  function UpsertRules(t: Rules, rules: seq<Rule>): Rules {
    if rules == [] then t else UpsertRule(UpsertRules(t, rules[..|rules| - 1]), rules[|rules| - 1])
  }

  function LastRule(rules: seq<Rule>, key: Key): Option<Rule> {
    if rules == [] then None
    else if KeyOf(rules[|rules| - 1]) == Some(key) then Some(rules[|rules| - 1])
    else LastRule(rules[..|rules| - 1], key)
  }

  /** What a row becomes: the last rule with its key, or itself. */
  function Rewritten(row: Rule, rules: seq<Rule>): Rule {
    if KeyOf(row).Some? && LastRule(rules, KeyOf(row).value).Some? then LastRule(rules, KeyOf(row).value).value else row
  }

  /** The table after upserting keyed rules: old rows keep their ids and take the last write of their
      key; every new row is the last write of a key that had no row. */
  ghost predicate RulesSynced(before: Rules, rules: seq<Rule>, after: Rules) {
    && RulesOk(after) && before.nextId <= after.nextId
    && (forall id :: id in before.rows ==> id in after.rows && after.rows[id] == Rewritten(before.rows[id], rules))
    && (forall id :: id in after.rows && id !in before.rows ==>
          KeyOf(after.rows[id]).Some? && LastRule(rules, KeyOf(after.rows[id]).value) == Some(after.rows[id]))
    && (forall key: Key :: LastRule(rules, key).Some? ==> HasKey(after, key))
  }

  ghost predicate HasKey(t: Rules, key: Key) {
    exists id :: id in t.rows && KeyOf(t.rows[id]) == Some(key)
  }

  lemma LastRuleHasKey(rules: seq<Rule>, key: Key)
    ensures LastRule(rules, key).Some? ==> KeyOf(LastRule(rules, key).value) == Some(key)
  {
  }

  lemma UpsertKeepsOk(t: Rules, rule: Rule)
    requires RulesOk(t)
    ensures RulesOk(UpsertRule(t, rule))
  {
    hide KeyOf;
  }

  lemma LastRuleGrows(rules: seq<Rule>, rule: Rule, key: Key)
    ensures LastRule(rules + [rule], key) == if KeyOf(rule) == Some(key) then Some(rule) else LastRule(rules, key)
  {
    assert (rules + [rule])[..|rules|] == rules;
  }

  lemma KeysGrow(t: Rules, rules: seq<Rule>, rule: Rule, key: Key)
    requires RulesOk(t)
    requires LastRule(rules, key).Some? ==> HasKey(t, key)
    ensures LastRule(rules + [rule], key).Some? ==> HasKey(UpsertRule(t, rule), key)
  {
    hide LastRule;
    LastRuleGrows(rules, rule, key);
    var after := UpsertRule(t, rule);
    var found := FindKey(t, KeyOf(rule), 0);
    if KeyOf(rule) == Some(key) {
      var id := if found.Some? then found.value else t.nextId;
      assert id in after.rows && KeyOf(after.rows[id]) == Some(key);
    } else if LastRule(rules, key).Some? {
      var id :| id in t.rows && KeyOf(t.rows[id]) == Some(key);
      assert id < t.nextId && (found.Some? ==> found.value != id);
      assert id in after.rows && KeyOf(after.rows[id]) == Some(key);
    }
  }

  /** One row through one more upsert. */
  lemma RowGrows(before: Rules, rules: seq<Rule>, mid: Rules, rule: Rule, id: nat)
    requires RulesOk(mid) && RulesSynced(before, rules, mid) && KeyOf(rule).Some? && id in before.rows
    ensures
      var after := UpsertRule(mid, rule);
      id in after.rows && after.rows[id] == Rewritten(before.rows[id], rules + [rule])
  {
    hide LastRule;
    RewrittenKeepsKey(before.rows[id], rules);
    if KeyOf(before.rows[id]).Some? {
      LastRuleGrows(rules, rule, KeyOf(before.rows[id]).value);
    }
    assert id in mid.rows && mid.rows[id] == Rewritten(before.rows[id], rules);
  }

  lemma NewRowGrows(before: Rules, rules: seq<Rule>, mid: Rules, rule: Rule, id: nat)
    requires RulesOk(mid) && RulesSynced(before, rules, mid) && KeyOf(rule).Some?
    requires id in UpsertRule(mid, rule).rows && id !in before.rows
    ensures
      var row := UpsertRule(mid, rule).rows[id];
      KeyOf(row).Some? && LastRule(rules + [rule], KeyOf(row).value) == Some(row)
  {
    hide LastRule;
    var row := UpsertRule(mid, rule).rows[id];
    if row == rule {
      LastRuleGrows(rules, rule, KeyOf(rule).value);
    } else {
      assert id in mid.rows && mid.rows[id] == row;
      LastRuleGrows(rules, rule, KeyOf(row).value);
    }
  }

  lemma UpsertSyncs(before: Rules, rules: seq<Rule>, mid: Rules, rule: Rule)
    requires RulesOk(before) && RulesSynced(before, rules, mid) && KeyOf(rule).Some?
    ensures RulesSynced(before, rules + [rule], UpsertRule(mid, rule))
  {
    hide KeyOf, RulesOk, LastRule, Rewritten, HasKey;
    var more := rules + [rule];
    var after := UpsertRule(mid, rule);
    UpsertKeepsOk(mid, rule);
    forall key: Key | LastRule(more, key).Some? ensures HasKey(after, key) {
      KeysGrow(mid, rules, rule, key);
    }
    forall id | id in before.rows ensures id in after.rows && after.rows[id] == Rewritten(before.rows[id], more) {
      RowGrows(before, rules, mid, rule, id);
    }
    forall id | id in after.rows && id !in before.rows
      ensures KeyOf(after.rows[id]).Some? && LastRule(more, KeyOf(after.rows[id]).value) == Some(after.rows[id])
    {
      NewRowGrows(before, rules, mid, rule, id);
    }
  }

  lemma RewrittenKeepsKey(row: Rule, rules: seq<Rule>)
    ensures KeyOf(Rewritten(row, rules)) == KeyOf(row)
  {
    if KeyOf(row).Some? {
      LastRuleHasKey(rules, KeyOf(row).value);
    }
  }

  lemma {:induction false} UpsertsSync(t: Rules, rules: seq<Rule>)
    requires RulesOk(t) && forall i :: 0 <= i < |rules| ==> KeyOf(rules[i]).Some?
    ensures RulesSynced(t, rules, UpsertRules(t, rules))
  {
    hide UpsertRule, KeyOf, RulesOk;
    if rules == [] {
    } else {
      var last := |rules| - 1;
      UpsertsSync(t, rules[..last]);
      UpsertSyncs(t, rules[..last], UpsertRules(t, rules[..last]), rules[last]);
      assert rules[..last] + [rules[last]] == rules;
    }
  }

  /** Applying the same rules again changes no row. */
  lemma SyncedTwice(t: Rules, rules: seq<Rule>)
    requires RulesOk(t) && forall i :: 0 <= i < |rules| ==> KeyOf(rules[i]).Some?
    ensures UpsertRules(UpsertRules(t, rules), rules).rows == UpsertRules(t, rules).rows
  {
    hide UpsertRules, KeyOf;
    var once := UpsertRules(t, rules);
    UpsertsSync(t, rules);
    var twice := UpsertRules(once, rules);
    UpsertsSync(once, rules);
    forall id | id in once.rows ensures Rewritten(once.rows[id], rules) == once.rows[id] {
      if id in t.rows {
        RewrittenKeepsKey(t.rows[id], rules);
      }
    }
    forall id | id in twice.rows ensures id in once.rows {
      var key := KeyOf(twice.rows[id]);
      if key.Some? && HasKey(once, key.value) {
        var other :| other in once.rows && KeyOf(once.rows[other]) == key;
        assert twice.rows[other] == once.rows[other];
        assert other == id;
      }
    }
  }

  // ---------------------------------------------------------------- synchronising

  function GameEntries(games: seq<Game>): seq<(nat, GameRow)> {
    seq(|games|, i requires 0 <= i < |games| =>
      (games[i].gameId, RowOf(games[i])))
  }

  function CategoryEntries(games: seq<Game>): seq<(nat, seq<string>)> {
    seq(|games|, i requires 0 <= i < |games| => (games[i].gameId, games[i].categories))
  }

  function RegionEntries(regions: seq<Region>): seq<((nat, nat), Region)> {
    seq(|regions|, i requires 0 <= i < |regions| => ((regions[i].gameId, regions[i].regionId), regions[i]))
  }

  function Synced(t: Tables, c: Catalog): Tables {
    Tables(PutAll(t.games, GameEntries(c.games)), PutAll(t.categories, CategoryEntries(c.games)),
           PutAll(t.regions, RegionEntries(c.regions)), UpsertRules(t.rules, c.rules))
  }

  /** No later item is written under the same id. */
  predicate LastGame(games: seq<Game>, i: nat)
    requires i < |games|
  {
    forall j :: i < j < |games| ==> games[j].gameId != games[i].gameId
  }

  predicate LastRegion(regions: seq<Region>, i: nat)
    requires i < |regions|
  {
    forall j :: i < j < |regions| ==> regions[j].gameId != regions[i].gameId || regions[j].regionId != regions[i].regionId
  }

  predicate GameRowIs(row: GameRow, game: Game) {
    && row.name == game.name && row.platform == game.platform && row.category == game.category
    && row.iconUrl == game.iconUrl && row.status == game.status && row.remark == game.remark
  }

  /** Every listed game has the row and the categories of its last mention; the others are untouched. */
  ghost predicate GamesStored(t: Tables, games: seq<Game>, u: Tables) {
    && (forall i :: 0 <= i < |games| && LastGame(games, i) ==>
          && games[i].gameId in u.games && GameRowIs(u.games[games[i].gameId], games[i])
          && games[i].gameId in u.categories && u.categories[games[i].gameId] == games[i].categories)
    && (forall id :: (forall i :: 0 <= i < |games| ==> games[i].gameId != id) ==>
          && (if id in t.games then id in u.games && u.games[id] == t.games[id] else id !in u.games)
          && (if id in t.categories then id in u.categories && u.categories[id] == t.categories[id] else id !in u.categories))
  }

  ghost predicate RegionsStored(t: Tables, regions: seq<Region>, u: Tables) {
    && (forall i :: 0 <= i < |regions| && LastRegion(regions, i) ==>
          && (regions[i].gameId, regions[i].regionId) in u.regions
          && u.regions[(regions[i].gameId, regions[i].regionId)] == regions[i])
    && (forall key :: (forall i :: 0 <= i < |regions| ==> (regions[i].gameId, regions[i].regionId) != key) ==>
          if key in t.regions then key in u.regions && u.regions[key] == t.regions[key] else key !in u.regions)
  }

  /** What a catalog leaves in the tables: for games and regions the last mention of each id, for rules
      the last mention of each key. */
  ghost predicate Stores(t: Tables, c: Catalog, u: Tables) {
    && GamesStored(t, c.games, u) && RegionsStored(t, c.regions, u)
    && (RulesOk(t.rules) && (forall i :: 0 <= i < |c.rules| ==> KeyOf(c.rules[i]).Some?) ==>
          RulesSynced(t.rules, c.rules, u.rules))
  }

  lemma {:induction false} LastOfIs<K, V>(entries: seq<(K, V)>, i: nat)
    requires i < |entries| && forall j :: i < j < |entries| ==> entries[j].0 != entries[i].0
    ensures LastOf(entries, entries[i].0) == Some(entries[i].1)
  {
    if i < |entries| - 1 {
      LastOfIs(entries[..|entries| - 1], i);
    }
  }

  lemma {:induction false} NoLastOf<K, V>(entries: seq<(K, V)>, k: K)
    requires forall i :: 0 <= i < |entries| ==> entries[i].0 != k
    ensures LastOf(entries, k).None?
  {
    if entries != [] {
      NoLastOf(entries[..|entries| - 1], k);
    }
  }

  lemma PutLast<K, V>(m: map<K, V>, entries: seq<(K, V)>, i: nat)
    requires i < |entries| && forall j :: i < j < |entries| ==> entries[j].0 != entries[i].0
    ensures entries[i].0 in PutAll(m, entries) && PutAll(m, entries)[entries[i].0] == entries[i].1
  {
    LastOfIs(entries, i);
    LastWriteWins(m, entries, entries[i].0);
  }

  lemma PutOther<K, V>(m: map<K, V>, entries: seq<(K, V)>, k: K)
    requires forall i :: 0 <= i < |entries| ==> entries[i].0 != k
    ensures if k in m then k in PutAll(m, entries) && PutAll(m, entries)[k] == m[k] else k !in PutAll(m, entries)
  {
    NoLastOf(entries, k);
    LastWriteWins(m, entries, k);
  }

  lemma GamesAreStored(t: Tables, c: Catalog)
    ensures GamesStored(t, c.games, Synced(t, c))
  {
    hide PutAll, UpsertRules, RegionEntries;
    forall i | 0 <= i < |c.games| && LastGame(c.games, i)
      ensures c.games[i].gameId in Synced(t, c).games && GameRowIs(Synced(t, c).games[c.games[i].gameId], c.games[i])
      ensures c.games[i].gameId in Synced(t, c).categories
      ensures Synced(t, c).categories[c.games[i].gameId] == c.games[i].categories
    {
      PutLast(t.games, GameEntries(c.games), i);
      PutLast(t.categories, CategoryEntries(c.games), i);
    }
    forall id | forall i :: 0 <= i < |c.games| ==> c.games[i].gameId != id
      ensures if id in t.games then id in Synced(t, c).games && Synced(t, c).games[id] == t.games[id] else id !in Synced(t, c).games
      ensures if id in t.categories then id in Synced(t, c).categories && Synced(t, c).categories[id] == t.categories[id]
              else id !in Synced(t, c).categories
    {
      PutOther(t.games, GameEntries(c.games), id);
      PutOther(t.categories, CategoryEntries(c.games), id);
    }
  }

  lemma RegionsAreStored(t: Tables, c: Catalog)
    ensures RegionsStored(t, c.regions, Synced(t, c))
  {
    hide PutAll, LastOf, UpsertRules;
    var u := Synced(t, c);
    forall i | 0 <= i < |c.regions| && LastRegion(c.regions, i)
      ensures (c.regions[i].gameId, c.regions[i].regionId) in u.regions
      ensures u.regions[(c.regions[i].gameId, c.regions[i].regionId)] == c.regions[i]
    {
      PutLast(t.regions, RegionEntries(c.regions), i);
    }
    forall key | forall i :: 0 <= i < |c.regions| ==> (c.regions[i].gameId, c.regions[i].regionId) != key
      ensures if key in t.regions then key in u.regions && u.regions[key] == t.regions[key] else key !in u.regions
    {
      PutOther(t.regions, RegionEntries(c.regions), key);
    }
  }

  /** Synchronising stores the catalog: the last mention of every game, region and rule key, and nothing
      else. */
  lemma SyncStoresCatalog(t: Tables, c: Catalog)
    ensures Stores(t, c, Synced(t, c))
  {
    hide UpsertRules, KeyOf, RulesSynced, GamesStored, RegionsStored, RulesOk, PutAll;
    GamesAreStored(t, c);
    RegionsAreStored(t, c);
    if RulesOk(t.rules) && forall i :: 0 <= i < |c.rules| ==> KeyOf(c.rules[i]).Some? {
      UpsertsSync(t.rules, c.rules);
    }
  }

  /** Synchronising the same normalised catalog a second time changes no row of any table. */
  lemma SyncIsIdempotent(t: Tables, c: Catalog)
    requires RulesOk(t.rules) && forall i :: 0 <= i < |c.rules| ==> KeyOf(c.rules[i]).Some?
    ensures
      var once := Synced(t, c);
      var twice := Synced(once, c);
      && twice.games == once.games && twice.categories == once.categories && twice.regions == once.regions
      && twice.rules.rows == once.rules.rows && RulesOk(once.rules)
  {
    hide PutAll, UpsertRules, KeyOf;
    PutAllTwice(t.games, GameEntries(c.games));
    PutAllTwice(t.categories, CategoryEntries(c.games));
    PutAllTwice(t.regions, RegionEntries(c.regions));
    UpsertsSync(t.rules, c.rules);
    SyncedTwice(t.rules, c.rules);
  }

  /** In particular for every catalog a request normalises to: sending the request again changes no row. */
  lemma RequestSyncIsIdempotent(hash: Digest, request: Request, t: Tables)
    requires RulesOk(t.rules) && NormalCatalog(hash, request).Ok?
    ensures
      var once := Synced(t, NormalCatalog(hash, request).value);
      var twice := Synced(once, NormalCatalog(hash, request).value);
      && twice.games == once.games && twice.categories == once.categories && twice.regions == once.regions
      && twice.rules.rows == once.rules.rows && RulesOk(once.rules)
  {
    hide NormalCatalog, Synced;
    CatalogRulesHaveKeys(hash, request);
    var c := NormalCatalog(hash, request).value;
    forall i | 0 <= i < |c.rules| ensures KeyOf(c.rules[i]).Some? {
      assert c.rules[i] in c.rules;
    }
    SyncIsIdempotent(t, c);
  }

  // ---------------------------------------------------------------- deleting

  datatype DeleteRequest = DeleteRequest(
    gameIds: seq<nat>, regions: seq<(nat, nat)>, ruleIds: seq<nat>, externalIds: seq<string>, source: Option<string>)

  predicate ByExternalId(rule: Rule, externalId: string, source: Option<string>) {
    rule.externalId == Some(externalId) && (source.None? || rule.syncSource == source)
  }

  predicate ByRegion(rule: Rule, region: (nat, nat)) {
    rule.gameId == region.0 && rule.regionId == Some(region.1)
  }

  /** A rule some selector names. */
  predicate RuleSelected(d: DeleteRequest, id: nat, rule: Rule) {
    || id in d.ruleIds
    || (exists e :: e in d.externalIds && ByExternalId(rule, e, d.source))
    || (exists r :: r in d.regions && ByRegion(rule, r))
    || rule.gameId in d.gameIds
  }

  predicate RegionSelected(d: DeleteRequest, key: (nat, nat)) {
    key in d.regions || key.0 in d.gameIds
  }

  lemma RemovedCount<K, V>(m: map<K, V>, gone: set<K>)
    requires gone <= m.Keys
    ensures |m - gone| == |m| - |gone|
  {
    assert (m - gone).Keys == m.Keys - gone;
    assert m.Keys - gone + gone == m.Keys;
    assert |(m - gone).Keys| == |m - gone|;
    assert |m.Keys| == |m|;
  }

  class CatalogStore {
    var games: map<nat, GameRow>
    var categories: map<nat, seq<string>>
    var regions: map<(nat, nat), Region>
    var rules: map<nat, Rule>
    var nextRule: nat

    constructor ()
      ensures Value() == Tables(map[], map[], map[], Rules(map[], 1))
    {
      games, categories, regions, rules, nextRule := map[], map[], map[], map[], 1;
    }

    function Value(): Tables
      reads this
    {
      Tables(games, categories, regions, Rules(rules, nextRule))
    }

    method UpsertBusinessGame(game: Game)
      modifies `games, `categories
      ensures games == old(games)[game.gameId := RowOf(game)]
      ensures GameRowIs(games[game.gameId], game)
      ensures categories == old(categories)[game.gameId := game.categories]
    {
      games := games[game.gameId := RowOf(game)];
      var rows: seq<string> := [];
      for k := 0 to |game.categories|
        invariant rows == game.categories[..k]
      {
        rows := rows + [game.categories[k]];
      }
      assert game.categories[..|game.categories|] == game.categories;
      categories := categories[game.gameId := rows];
    }

    method UpsertBusinessRouteRule(rule: Rule)
      modifies `rules, `nextRule
      ensures Rules(rules, nextRule) == UpsertRule(old(Rules(rules, nextRule)), rule)
    {
      var found := FindKey(Rules(rules, nextRule), KeyOf(rule), 0);
      if found.Some? {
        rules := rules[found.value := rule];
      } else {
        rules := rules[nextRule := rule];
        nextRule := nextRule + 1;
      }
    }

    method SyncBusinessCatalog(c: Catalog)
      modifies this
      ensures Value() == Synced(old(Value()), c)
      ensures Stores(old(Value()), c, Value())
    {
      hide UpsertRule, Stores;
      SyncStoresCatalog(Value(), c);
      for k := 0 to |c.games|
        invariant games == PutAll(old(games), GameEntries(c.games)[..k])
        invariant categories == PutAll(old(categories), CategoryEntries(c.games)[..k])
        invariant regions == old(regions) && rules == old(rules) && nextRule == old(nextRule)
      {
        assert GameEntries(c.games)[..k + 1][..k] == GameEntries(c.games)[..k];
        assert CategoryEntries(c.games)[..k + 1][..k] == CategoryEntries(c.games)[..k];
        UpsertBusinessGame(c.games[k]);
      }
      assert GameEntries(c.games)[..|c.games|] == GameEntries(c.games);
      assert CategoryEntries(c.games)[..|c.games|] == CategoryEntries(c.games);
      for k := 0 to |c.regions|
        invariant regions == PutAll(old(regions), RegionEntries(c.regions)[..k])
        invariant games == PutAll(old(games), GameEntries(c.games))
        invariant categories == PutAll(old(categories), CategoryEntries(c.games))
        invariant rules == old(rules) && nextRule == old(nextRule)
      {
        assert RegionEntries(c.regions)[..k + 1][..k] == RegionEntries(c.regions)[..k];
        regions := regions[(c.regions[k].gameId, c.regions[k].regionId) := c.regions[k]];
      }
      assert RegionEntries(c.regions)[..|c.regions|] == RegionEntries(c.regions);
      for k := 0 to |c.rules|
        invariant Rules(rules, nextRule) == UpsertRules(old(Rules(rules, nextRule)), c.rules[..k])
        invariant games == PutAll(old(games), GameEntries(c.games))
        invariant categories == PutAll(old(categories), CategoryEntries(c.games))
        invariant regions == PutAll(old(regions), RegionEntries(c.regions))
      {
        assert c.rules[..k + 1][..k] == c.rules[..k];
        UpsertBusinessRouteRule(c.rules[k]);
      }
      assert c.rules[..|c.rules|] == c.rules;
    }

    /** One DELETE on the rules: removes the given ids and returns how many rows that were. */
    method DeleteRules(gone: set<nat>) returns (affected: nat)
      requires gone <= rules.Keys
      modifies `rules
      ensures rules == old(rules) - gone && affected == |old(rules)| - |rules|
      ensures |rules| <= |old(rules)|
    {
      RemovedCount(rules, gone);
      rules := rules - gone;
      affected := |gone|;
    }

    method DeleteRegions(gone: set<(nat, nat)>) returns (affected: nat)
      requires gone <= regions.Keys
      modifies `regions
      ensures regions == old(regions) - gone && affected == |old(regions)| - |regions|
      ensures |regions| <= |old(regions)|
    {
      RemovedCount(regions, gone);
      regions := regions - gone;
      affected := |gone|;
    }

    /** The first two selectors: rules by id, then rules by external id. */
    method DeleteNamedRules(d: DeleteRequest) returns (affected: nat)
      modifies `rules
      ensures |rules| <= |old(rules)| && affected == |old(rules)| - |rules|
      ensures RulesLeft(old(rules), rules, Upto(d, 0, 0, |d.ruleIds|, |d.externalIds|))
    {
      hide RulesLeft, ByExternalId;
      affected := 0;
      NothingSelected(rules, regions, games, categories, d);
      for k := 0 to |d.ruleIds|
        invariant |rules| <= |old(rules)| && affected == |old(rules)| - |rules|
        invariant RulesLeft(old(rules), rules, Upto(d, 0, 0, k, 0))
      {
        var gone := set id | id in rules && id == d.ruleIds[k];
        OneMoreRuleId(old(rules), rules, d, k);
        var n := DeleteRules(gone);
        affected := affected + n;
      }
      for k := 0 to |d.externalIds|
        invariant |rules| <= |old(rules)| && affected == |old(rules)| - |rules|
        invariant RulesLeft(old(rules), rules, Upto(d, 0, 0, |d.ruleIds|, k))
      {
        var gone := set id | id in rules && ByExternalId(rules[id], d.externalIds[k], d.source);
        OneMoreExternalId(old(rules), rules, d, k);
        var n := DeleteRules(gone);
        affected := affected + n;
      }
    }

    /** The region selectors: the rules of a region, then the region. */
    method DeleteByRegions(d: DeleteRequest, ghost rules0: map<nat, Rule>) returns (rulesGone: nat, regionsGone: nat)
      requires RulesLeft(rules0, rules, Upto(d, 0, 0, |d.ruleIds|, |d.externalIds|))
      modifies `rules, `regions
      ensures |rules| <= |old(rules)| && rulesGone == |old(rules)| - |rules|
      ensures |regions| <= |old(regions)| && regionsGone == |old(regions)| - |regions|
      ensures RulesLeft(rules0, rules, Upto(d, 0, |d.regions|, |d.ruleIds|, |d.externalIds|))
      ensures RegionsLeft(old(regions), regions, Upto(d, 0, |d.regions|, |d.ruleIds|, |d.externalIds|))
    {
      hide RulesLeft, RegionsLeft, ByRegion;
      rulesGone, regionsGone := 0, 0;
      NothingSelected(rules, regions, games, categories, d);
      for k := 0 to |d.regions|
        invariant |rules| <= |old(rules)| && rulesGone == |old(rules)| - |rules|
        invariant |regions| <= |old(regions)| && regionsGone == |old(regions)| - |regions|
        invariant RulesLeft(rules0, rules, Upto(d, 0, k, |d.ruleIds|, |d.externalIds|))
        invariant RegionsLeft(old(regions), regions, Upto(d, 0, k, |d.ruleIds|, |d.externalIds|))
      {
        var gone := set id | id in rules && ByRegion(rules[id], d.regions[k]);
        OneMoreRegionOfRules(rules0, rules, d, k);
        var n := DeleteRules(gone);
        rulesGone := rulesGone + n;
        OneMoreRegion(old(regions), regions, d, k);
        n := DeleteRegions(set key | key in regions && key == d.regions[k]);
        regionsGone := regionsGone + n;
      }
    }

    /** The game selectors: the rules, regions and categories of a game, then the game. */
    method DeleteByGames(d: DeleteRequest, ghost rules0: map<nat, Rule>, ghost regions0: map<(nat, nat), Region>)
      returns (rulesGone: nat, regionsGone: nat, gamesGone: nat)
      requires RulesLeft(rules0, rules, Upto(d, 0, |d.regions|, |d.ruleIds|, |d.externalIds|))
      requires RegionsLeft(regions0, regions, Upto(d, 0, |d.regions|, |d.ruleIds|, |d.externalIds|))
      modifies `rules, `regions, `categories, `games
      ensures |rules| <= |old(rules)| && rulesGone == |old(rules)| - |rules|
      ensures |regions| <= |old(regions)| && regionsGone == |old(regions)| - |regions|
      ensures |games| <= |old(games)| && gamesGone == |old(games)| - |games|
      ensures RulesLeft(rules0, rules, d) && RegionsLeft(regions0, regions, d)
      ensures GamesLeft(old(games), games, d.gameIds) && GamesLeft(old(categories), categories, d.gameIds)
    {
      hide RulesLeft, RegionsLeft, GamesLeft;
      rulesGone, regionsGone, gamesGone := 0, 0, 0;
      NothingSelected(rules, regions, games, categories, d);
      for k := 0 to |d.gameIds|
        invariant |rules| <= |old(rules)| && rulesGone == |old(rules)| - |rules|
        invariant |regions| <= |old(regions)| && regionsGone == |old(regions)| - |regions|
        invariant |games| <= |old(games)| && gamesGone == |old(games)| - |games|
        invariant RulesLeft(rules0, rules, Upto(d, k, |d.regions|, |d.ruleIds|, |d.externalIds|))
        invariant RegionsLeft(regions0, regions, Upto(d, k, |d.regions|, |d.ruleIds|, |d.externalIds|))
        invariant GamesLeft(old(games), games, d.gameIds[..k]) && GamesLeft(old(categories), categories, d.gameIds[..k])
      {
        OneMoreGame(rules0, rules, regions0, regions, d, k);
        OneMoreGameRow(old(categories), categories, d.gameIds, k);
        OneMoreGameRow(old(games), games, d.gameIds, k);
        var a, b, c := DeleteOneGame(d.gameIds[k]);
        rulesGone, regionsGone, gamesGone := rulesGone + a, regionsGone + b, gamesGone + c;
      }
      Everything(d);
    }

    method DeleteOneGame(gameId: nat) returns (rulesGone: nat, regionsGone: nat, gamesGone: nat)
      modifies `rules, `regions, `categories, `games
      ensures |rules| <= |old(rules)| && rulesGone == |old(rules)| - |rules|
      ensures |regions| <= |old(regions)| && regionsGone == |old(regions)| - |regions|
      ensures |games| <= |old(games)| && gamesGone == |old(games)| - |games|
      ensures rules == old(rules) - (set id | id in old(rules) && old(rules)[id].gameId == gameId)
      ensures regions == old(regions) - (set key | key in old(regions) && key.0 == gameId)
      ensures categories == old(categories) - {gameId} && games == old(games) - {gameId}
    {
      rulesGone := DeleteRules(set id | id in rules && rules[id].gameId == gameId);
      regionsGone := DeleteRegions(set key | key in regions && key.0 == gameId);
      categories := categories - {gameId};
      gamesGone := DeleteGame(gameId);
    }

    method DeleteGame(gameId: nat) returns (affected: nat)
      modifies `games
      ensures games == old(games) - {gameId} && affected == |old(games)| - |games|
      ensures |games| <= |old(games)|
    {
      var gone := {gameId} * games.Keys;
      RemovedCount(games, gone);
      assert games - {gameId} == games - gone;
      games := games - {gameId};
      affected := |gone|;
    }

    /** The whole request. Exactly the selected rows go, and each is counted once however many selectors
        name it: every count is rows before minus rows after. */
    method DeleteBusinessCatalog(d: DeleteRequest) returns (gamesDeleted: nat, regionsDeleted: nat, rulesDeleted: nat)
      modifies this
      ensures |games| <= |old(games)| && gamesDeleted == |old(games)| - |games|
      ensures |regions| <= |old(regions)| && regionsDeleted == |old(regions)| - |regions|
      ensures |rules| <= |old(rules)| && rulesDeleted == |old(rules)| - |rules|
      ensures RulesLeft(old(rules), rules, d) && RegionsLeft(old(regions), regions, d)
      ensures GamesLeft(old(games), games, d.gameIds) && GamesLeft(old(categories), categories, d.gameIds)
      ensures nextRule == old(nextRule)
    {
      hide RulesLeft, RegionsLeft, GamesLeft;
      rulesDeleted := DeleteNamedRules(d);
      var rulesGone, regionsGone := DeleteByRegions(d, old(rules));
      rulesDeleted, regionsDeleted := rulesDeleted + rulesGone, regionsGone;
      rulesGone, regionsGone, gamesDeleted := DeleteByGames(d, old(rules), old(regions));
      rulesDeleted, regionsDeleted := rulesDeleted + rulesGone, regionsDeleted + regionsGone;
    }
  }

  // ---------------------------------------------------------------- what a request leaves

  /** The rules left are exactly those no selector names, unchanged. */
  ghost predicate RulesLeft(before: map<nat, Rule>, after: map<nat, Rule>, d: DeleteRequest) {
    && (forall id :: id in after <==> id in before && !RuleSelected(d, id, before[id]))
    && (forall id :: id in after ==> after[id] == before[id])
  }

  ghost predicate RegionsLeft(before: map<(nat, nat), Region>, after: map<(nat, nat), Region>, d: DeleteRequest) {
    && (forall key :: key in after <==> key in before && !RegionSelected(d, key))
    && (forall key :: key in after ==> after[key] == before[key])
  }

  ghost predicate GamesLeft<V>(before: map<nat, V>, after: map<nat, V>, gameIds: seq<nat>) {
    && (forall id :: id in after <==> id in before && id !in gameIds)
    && (forall id :: id in after ==> after[id] == before[id])
  }

  /** The request cut down to the selectors handled so far. */
  function Upto(d: DeleteRequest, games: nat, regions: nat, ruleIds: nat, externalIds: nat): DeleteRequest
    requires games <= |d.gameIds| && regions <= |d.regions| && ruleIds <= |d.ruleIds| && externalIds <= |d.externalIds|
  {
    DeleteRequest(d.gameIds[..games], d.regions[..regions], d.ruleIds[..ruleIds], d.externalIds[..externalIds], d.source)
  }

  lemma Everything(d: DeleteRequest)
    ensures Upto(d, |d.gameIds|, |d.regions|, |d.ruleIds|, |d.externalIds|) == d && d.gameIds[..|d.gameIds|] == d.gameIds
  {
  }

  lemma NothingSelected(rules: map<nat, Rule>, regions: map<(nat, nat), Region>, games: map<nat, GameRow>,
                        categories: map<nat, seq<string>>, d: DeleteRequest)
    ensures RulesLeft(rules, rules, Upto(d, 0, 0, 0, 0))
    ensures RegionsLeft(regions, regions, Upto(d, 0, 0, |d.ruleIds|, |d.externalIds|))
    ensures GamesLeft(games, games, d.gameIds[..0]) && GamesLeft(categories, categories, d.gameIds[..0])
  {
  }

  lemma OneMoreRuleId(before: map<nat, Rule>, mid: map<nat, Rule>, d: DeleteRequest, k: nat)
    requires k < |d.ruleIds| && RulesLeft(before, mid, Upto(d, 0, 0, k, 0))
    ensures RulesLeft(before, mid - (set id | id in mid && id == d.ruleIds[k]), Upto(d, 0, 0, k + 1, 0))
  {
    assert d.ruleIds[..k + 1] == d.ruleIds[..k] + [d.ruleIds[k]];
    forall id | id in before
      ensures RuleSelected(Upto(d, 0, 0, k + 1, 0), id, before[id])
        <==> RuleSelected(Upto(d, 0, 0, k, 0), id, before[id]) || id == d.ruleIds[k]
    {
    }
  }

  lemma OneMoreExternalId(before: map<nat, Rule>, mid: map<nat, Rule>, d: DeleteRequest, k: nat)
    requires k < |d.externalIds| && RulesLeft(before, mid, Upto(d, 0, 0, |d.ruleIds|, k))
    ensures RulesLeft(before, mid - (set id | id in mid && ByExternalId(mid[id], d.externalIds[k], d.source)),
                      Upto(d, 0, 0, |d.ruleIds|, k + 1))
  {
    assert d.externalIds[..k + 1] == d.externalIds[..k] + [d.externalIds[k]];
    forall id | id in before
      ensures RuleSelected(Upto(d, 0, 0, |d.ruleIds|, k + 1), id, before[id])
        <==> RuleSelected(Upto(d, 0, 0, |d.ruleIds|, k), id, before[id]) || ByExternalId(before[id], d.externalIds[k], d.source)
    {
    }
  }

  lemma OneMoreRegionOfRules(before: map<nat, Rule>, mid: map<nat, Rule>, d: DeleteRequest, k: nat)
    requires k < |d.regions| && RulesLeft(before, mid, Upto(d, 0, k, |d.ruleIds|, |d.externalIds|))
    ensures RulesLeft(before, mid - (set id | id in mid && ByRegion(mid[id], d.regions[k])),
                      Upto(d, 0, k + 1, |d.ruleIds|, |d.externalIds|))
  {
    assert d.regions[..k + 1] == d.regions[..k] + [d.regions[k]];
    forall id | id in before
      ensures RuleSelected(Upto(d, 0, k + 1, |d.ruleIds|, |d.externalIds|), id, before[id])
        <==> RuleSelected(Upto(d, 0, k, |d.ruleIds|, |d.externalIds|), id, before[id]) || ByRegion(before[id], d.regions[k])
    {
    }
  }

  lemma OneMoreRegion(before: map<(nat, nat), Region>, mid: map<(nat, nat), Region>, d: DeleteRequest, k: nat)
    requires k < |d.regions| && RegionsLeft(before, mid, Upto(d, 0, k, |d.ruleIds|, |d.externalIds|))
    ensures RegionsLeft(before, mid - (set key | key in mid && key == d.regions[k]),
                        Upto(d, 0, k + 1, |d.ruleIds|, |d.externalIds|))
  {
    assert d.regions[..k + 1] == d.regions[..k] + [d.regions[k]];
  }

  lemma OneMoreGame(rules0: map<nat, Rule>, rules: map<nat, Rule>, regions0: map<(nat, nat), Region>,
                    regions: map<(nat, nat), Region>, d: DeleteRequest, k: nat)
    requires k < |d.gameIds|
    requires RulesLeft(rules0, rules, Upto(d, k, |d.regions|, |d.ruleIds|, |d.externalIds|))
    requires RegionsLeft(regions0, regions, Upto(d, k, |d.regions|, |d.ruleIds|, |d.externalIds|))
    ensures RulesLeft(rules0, rules - (set id | id in rules && rules[id].gameId == d.gameIds[k]),
                      Upto(d, k + 1, |d.regions|, |d.ruleIds|, |d.externalIds|))
    ensures RegionsLeft(regions0, regions - (set key | key in regions && key.0 == d.gameIds[k]),
                        Upto(d, k + 1, |d.regions|, |d.ruleIds|, |d.externalIds|))
  {
    hide ByExternalId, ByRegion;
    assert d.gameIds[..k + 1] == d.gameIds[..k] + [d.gameIds[k]];
    var (a, b) := (Upto(d, k, |d.regions|, |d.ruleIds|, |d.externalIds|), Upto(d, k + 1, |d.regions|, |d.ruleIds|, |d.externalIds|));
    forall id | id in rules0
      ensures RuleSelected(b, id, rules0[id]) <==> RuleSelected(a, id, rules0[id]) || rules0[id].gameId == d.gameIds[k]
    {
    }
  }

  lemma OneMoreGameRow<V>(before: map<nat, V>, mid: map<nat, V>, gameIds: seq<nat>, k: nat)
    requires k < |gameIds| && GamesLeft(before, mid, gameIds[..k])
    ensures GamesLeft(before, mid - {gameIds[k]}, gameIds[..k + 1])
  {
    assert gameIds[..k + 1] == gameIds[..k] + [gameIds[k]];
  }
}
