/** The keys a Redis query reads, and that reading them gives the rows of a full scan. */
module RedisKeys {
  import opened Options
  import opened RedisLike
  import opened RedisPrefixes
  import opened RedisPushdown
  import opened RedisFilters
  import opened Texts

  // ---------- Resolving keys ----------

  /** What is stored under a key: a hash, readable as a row or not, or something else. */
  datatype Stored = Hash(values: Outcome<map<string, Value>>) | NotHash

  type Database = map<string, Stored>

  /** The row under a key of the table; the key column's value comes from the key itself. */
  function ReadRow(table: Table, db: Database, key: string): Outcome<Row>
    requires key in db && db[key].Hash? && table.prefix <= key
  {
    match db[key].values
    case Bad => Bad
    case Good(values) => Good(Row(key, values[Upper(table.keyName) := Text(key[|table.prefix|..])]))
  }

  /**
    A hash is read as a row unless it cannot be decoded: the key column is what follows the prefix in the key, and any other
    field what the hash holds under its name.
   */
  lemma RowMeans(table: Table, db: Database, key: string, suffix: string, name: string)
    requires key in db && db[key].Hash? && key == table.prefix + suffix && name != ""
    ensures var r := ReadRow(table, db, key);
            && (r.Bad? <==> db[key].values.Bad?)
            && (r.Good? ==> r.value.key == key && IsRowOf(table, r.value))
            && (r.Good? && EqualFold(name, table.keyName) ==> EvaluateExpression(r.value, Field(name)) == Good(Text(suffix)))
            && (r.Good? && !EqualFold(name, table.keyName) ==>
                 EvaluateExpression(r.value, Field(name)) ==
                 if Upper(name) in db[key].values.value then Good(db[key].values.value[Upper(name)]) else Bad)
  {
    EqualFoldExactlyWhen(name, table.keyName);
  }

  /** The selectors a scan really uses: those of the filter, or the whole table. */
  function ScanPlan(table: Table, filter: Expr): Outcome<seq<Selector>> {
    var plan := KeySelectors(table, filter);
    if plan.Bad? then Bad
    else if !plan.value.covered || plan.value.selectors == [] then Good([Glob(table.prefix + "*")])
    else Good(plan.value.selectors)
  }

  predicate InTable(table: Table, db: Database, key: string) {
    key in db && db[key].Hash? && table.prefix <= key
  }

  /** Every page a scan with the pattern returns, over all its cursors. */
  type Scans = string -> seq<seq<string>>

  ghost predicate PageHas(pages: seq<seq<string>>, key: string) {
    exists i :: 0 <= i < |pages| && key in pages[i]
  }

  /** A complete scan returns exactly the stored keys its pattern selects, each at least once. */
  ghost predicate ScansOk(db: Database, scans: Scans) {
    forall pattern, key :: PageHas(scans(pattern), key) <==> key in db && GlobMatch(pattern, key)
  }

  /** The keys selected so far: exact ones whether stored or not, scanned ones as found. */
  ghost predicate CollectedBy(db: Database, selectors: seq<Selector>, keys: set<string>) {
    forall key :: key in keys <==> Collects(db, selectors, key)
  }

  ghost predicate Collects(db: Database, selectors: seq<Selector>, key: string) {
    exists i :: 0 <= i < |selectors| && CollectsOne(db, selectors[i], key)
  }

  predicate CollectsOne(db: Database, s: Selector, key: string) {
    Selects(s, key) && (s.Glob? ==> key in db)
  }

  lemma CollectedOneMore(db: Database, selectors: seq<Selector>, keys: set<string>, s: Selector, more: set<string>)
    requires CollectedBy(db, selectors, keys) && forall key :: key in more <==> CollectsOne(db, s, key)
    ensures CollectedBy(db, selectors + [s], keys + more)
  {
    var all := selectors + [s];
    forall key
      ensures Collects(db, all, key) <==> Collects(db, selectors, key) || CollectsOne(db, s, key)
    {
      if i :| 0 <= i < |selectors| && CollectsOne(db, selectors[i], key) {
        assert CollectsOne(db, all[i], key);
      }
      if CollectsOne(db, s, key) {
        assert CollectsOne(db, all[|selectors|], key);
      }
    }
  }

  // ---------- Collecting keys ----------

  datatype Resolved = Keys(keys: seq<string>) | InvalidFilter | TooManyKeys

  /** Adds the keys of every page, stopping as soon as there are too many. */
  method ScanPages(pages: seq<seq<string>>, keys: set<string>, limit: nat) returns (found: set<string>, over: bool)
    ensures forall key :: key in found ==> key in keys || PageHas(pages, key)
    ensures keys <= found
    ensures over ==> |found| > limit && exists key :: PageHas(pages, key)
    ensures !over ==> forall key :: PageHas(pages, key) ==> key in found
    ensures !over && (exists key :: PageHas(pages, key)) ==> |found| <= limit
  {
    found := keys;
    for i := 0 to |pages|
      invariant keys <= found
      invariant forall key :: key in found ==> key in keys || PageHas(pages, key)
      invariant forall j :: 0 <= j < i ==> forall key :: key in pages[j] ==> key in found
      invariant found != keys || (exists j :: 0 <= j < i && pages[j] != []) ==> |found| <= limit
    {
      for k := 0 to |pages[i]|
        invariant keys <= found
        invariant forall key :: key in found ==> key in keys || PageHas(pages, key)
        invariant forall j :: 0 <= j < i ==> forall key :: key in pages[j] ==> key in found
        invariant forall j :: 0 <= j < k ==> pages[i][j] in found
        invariant k > 0 || found != keys || (exists j :: 0 <= j < i && pages[j] != []) ==> |found| <= limit
      {
        found := found + {pages[i][k]};
        assert pages[i][k] in pages[i];
        if |found| > limit {
          assert PageHas(pages, pages[i][k]);
          return found, true;
        }
      }
    }
    return found, false;
  }

  /** The hashes of the table among the keys, sorted. */
  method SortedHashes(table: Table, db: Database, keys: set<string>) returns (sorted: seq<string>)
    ensures StrictlySorted(sorted)
    ensures forall key :: key in sorted <==> key in keys && InTable(table, db, key)
  {
    sorted := [];
    var rest := keys;
    while rest != {}
      invariant rest <= keys && StrictlySorted(sorted)
      invariant forall key :: key in sorted <==> key in keys && key !in rest && InTable(table, db, key)
      decreases rest
    {
      var key :| key in rest;
      if table.prefix <= key && key in db && db[key].Hash? {
        InsertSorts(sorted, key);
        forall x ensures x in Insert(sorted, key) <==> x == key || x in sorted {
          InsertHas(sorted, key, x);
        }
        sorted := Insert(sorted, key);
      }
      rest := rest - {key};
    }
  }

  /** A scan that finds keys makes them more than `limit`, with those selected before. */
  ghost predicate TooMany(db: Database, selectors: seq<Selector>, limit: nat) {
    exists i, keys :: TooManyAt(db, selectors, i, keys, limit)
  }

  ghost predicate TooManyAt(db: Database, selectors: seq<Selector>, i: int, keys: set<string>, limit: nat) {
    && 0 <= i < |selectors| && selectors[i].Glob? && (exists key :: CollectsOne(db, selectors[i], key))
    && |keys| > limit && OnlyCollected(db, selectors[..i + 1], keys)
  }

  ghost predicate OnlyCollected(db: Database, selectors: seq<Selector>, keys: set<string>) {
    forall key :: key in keys ==> Collects(db, selectors, key)
  }

  /** What a selector contributes: its own key, or the pages of its scan. */
  lemma ContributionOf(db: Database, scans: Scans, s: Selector)
    requires ScansOk(db, scans)
    ensures s.Exact? ==> forall key :: key in {s.key} <==> CollectsOne(db, s, key)
    ensures s.Glob? ==> forall key :: PageHas(scans(s.pattern), key) <==> CollectsOne(db, s, key)
  {
    if s.Glob? {
      forall key ensures PageHas(scans(s.pattern), key) <==> CollectsOne(db, s, key) {
        assert PageHas(scans(s.pattern), key) <==> key in db && GlobMatch(s.pattern, key);
      }
    }
  }

  lemma ScannedMore(db: Database, selectors: seq<Selector>, keys: set<string>, s: Selector, found: set<string>)
    requires CollectedBy(db, selectors, keys) && keys <= found
    requires forall key :: key in found ==> key in keys || CollectsOne(db, s, key)
    requires forall key :: CollectsOne(db, s, key) ==> key in found
    ensures CollectedBy(db, selectors + [s], found)
  {
    var more := set key | key in found && CollectsOne(db, s, key);
    CollectedOneMore(db, selectors, keys, s, more);
    assert found == keys + more;
  }

  lemma OverCollected(db: Database, selectors: seq<Selector>, i: nat, keys: set<string>, found: set<string>, limit: nat)
    requires i < |selectors| && selectors[i].Glob? && CollectedBy(db, selectors[..i], keys) && |found| > limit
    requires forall key :: key in found ==> key in keys || CollectsOne(db, selectors[i], key)
    requires exists key :: CollectsOne(db, selectors[i], key)
    ensures TooMany(db, selectors, limit)
  {
    assert selectors[..i + 1] == selectors[..i] + [selectors[i]];
    forall key | key in found ensures Collects(db, selectors[..i + 1], key) {
      CollectsMore(db, selectors[..i], selectors[i], key);
    }
    assert TooManyAt(db, selectors, i, found, limit);
  }

  /** Nothing is too many at a selector after which the keys collected are few enough. */
  lemma NotTooManyAt(db: Database, selectors: seq<Selector>, i: nat, keys: set<string>, limit: nat)
    requires i < |selectors| && CollectedBy(db, selectors[..i + 1], keys)
    requires selectors[i].Glob? && (exists key :: CollectsOne(db, selectors[i], key)) ==> |keys| <= limit
    ensures forall more :: !TooManyAt(db, selectors, i, more, limit)
  {
    forall more | OnlyCollected(db, selectors[..i + 1], more) ensures |more| <= |keys| {
      assert more <= keys;
      var rest := keys - more;
      assert keys == more + rest;
    }
  }

  lemma CollectsMore(db: Database, a: seq<Selector>, s: Selector, key: string)
    requires Collects(db, a, key) || CollectsOne(db, s, key)
    ensures Collects(db, a + [s], key)
  {
    var all := a + [s];
    if CollectsOne(db, s, key) {
      assert CollectsOne(db, all[|a|], key);
    } else {
      var i :| 0 <= i < |a| && CollectsOne(db, a[i], key);
      assert CollectsOne(db, all[i], key);
    }
  }

  lemma CollectedHashes(table: Table, db: Database, selectors: seq<Selector>, keys: set<string>, key: string)
    requires CollectedBy(db, selectors, keys) && InTable(table, db, key)
    ensures key in keys <==> Selected(selectors, key)
  {
    if i :| 0 <= i < |selectors| && Selects(selectors[i], key) {
      assert CollectsOne(db, selectors[i], key);
    }
  }

  /** Adds what the i-th selector selects, an exact key or the keys of a scan. */
  method AddKeys(db: Database, scans: Scans, selectors: seq<Selector>, i: nat, keys: set<string>, limit: nat)
    returns (found: set<string>, over: bool)
    requires ScansOk(db, scans) && i < |selectors| && CollectedBy(db, selectors[..i], keys)
    ensures over ==> TooMany(db, selectors, limit)
    ensures !over ==> CollectedBy(db, selectors[..i + 1], found) && forall more :: !TooManyAt(db, selectors, i, more, limit)
  {
    var s := selectors[i];
    assert selectors[..i + 1] == selectors[..i] + [s];
    ContributionOf(db, scans, s);
    hide CollectedBy, CollectsOne, ScansOk, PageHas, TooManyAt, TooMany;
    match s {
      case Exact(key) =>
        CollectedOneMore(db, selectors[..i], keys, s, {key});
        found, over := keys + {key}, false;
      case Glob(pattern) =>
        found, over := ScanPages(scans(pattern), keys, limit);
        if over {
          OverCollected(db, selectors, i, keys, found, limit);
          return;
        }
        ScannedMore(db, selectors[..i], keys, s, found);
    }
    NotTooManyAt(db, selectors, i, found, limit);
  }

  /**
    The keys to read for a filter: the hashes of the table that the plan selects, sorted, each once. It is refused exactly
    for a filter that cannot be planned, or when a scan makes the keys too many.
   */
  method ResolveKeys(table: Table, db: Database, scans: Scans, filter: Expr, limit: nat) returns (r: Resolved)
    requires ScansOk(db, scans)
    ensures r.InvalidFilter? <==> Refused(table, filter)
    ensures Refused(table, filter) <==> KeySelectors(table, filter).Bad?
    ensures r.Keys? ==> StrictlySorted(r.keys)
    ensures r.Keys? ==> forall key :: key in r.keys <==>
              InTable(table, db, key) && Selected(ScanPlan(table, filter).value, key)
    ensures r.TooManyKeys? <==> KeySelectors(table, filter).Good? && TooMany(db, ScanPlan(table, filter).value, limit)
  {
    hide Refused, KeySelectors;
    RefusedExactlyWhen(table, filter);
    var plan := KeySelectors(table, filter);
    if plan.Bad? {
      return InvalidFilter;
    }
    var selectors := plan.value.selectors;
    if !plan.value.covered || |selectors| == 0 {
      selectors := [Glob(table.prefix + "*")];
    }
    assert ScanPlan(table, filter) == Good(selectors);
    assert CollectedBy(db, selectors[..0], {});
    hide ScanPlan, InTable, CollectedBy, CollectsOne, ScansOk, PageHas, TooManyAt, Selected, StrictlySorted;
    var keys: set<string> := {};
    var i := 0;
    while i < |selectors|
      invariant 0 <= i <= |selectors|
      invariant CollectedBy(db, selectors[..i], keys)
      invariant forall j, more :: j < i ==> !TooManyAt(db, selectors, j, more, limit)
    {
      var found, over := AddKeys(db, scans, selectors, i, keys, limit);
      if over {
        return TooManyKeys;
      }
      keys := found;
      i := i + 1;
    }
    assert selectors[..i] == selectors;
    var sorted := SortedHashes(table, db, keys);
    forall key | InTable(table, db, key) ensures key in keys <==> Selected(selectors, key) {
      CollectedHashes(table, db, selectors, keys, key);
    }
    return Keys(sorted);
  }

  // ---------- Reading the rows ----------

  /** The keys whose rows the filter keeps, in order, or the first failure. */
  function Kept(table: Table, db: Database, filter: Expr, keys: seq<string>): Outcome<seq<string>>
    requires forall key :: key in keys ==> InTable(table, db, key)
  {
    if keys == [] then Good([])
    else
      var first := Keeps(table, db, filter, keys[0]);
      var rest := Kept(table, db, filter, keys[1..]);
      if first.Bad? || rest.Bad? then Bad
      else Good(if first.value then [keys[0]] + rest.value else rest.value)
  }

  function Keeps(table: Table, db: Database, filter: Expr, key: string): Outcome<bool>
    requires InTable(table, db, key)
  {
    var row := ReadRow(table, db, key);
    if row.Bad? then Bad else EvaluateFilter(row.value, filter)
  }

  lemma {:induction false} KeptFacts(table: Table, db: Database, filter: Expr, keys: seq<string>)
    requires StrictlySorted(keys) && forall key :: key in keys ==> InTable(table, db, key)
    ensures var kept := Kept(table, db, filter, keys);
            && (kept.Good? <==> forall key :: key in keys ==> Keeps(table, db, filter, key).Good?)
            && (kept.Good? ==>
                 && StrictlySorted(kept.value)
                 && forall key :: key in kept.value <==> key in keys && Keeps(table, db, filter, key) == Good(true))
  {
    if keys != [] {
      var rest := keys[1..];
      assert forall key :: key in keys <==> key == keys[0] || key in rest;
      KeptFacts(table, db, filter, rest);
      var kept := Kept(table, db, filter, rest);
      if kept.Good? && Keeps(table, db, filter, keys[0]) == Good(true) {
        forall x | x in kept.value ensures TextLess(keys[0], x) {
          assert x in rest;
        }
        SortedFront(keys[0], kept.value);
      }
    }
  }

  /** The keys are those a plan selects from the table, sorted. */
  ghost predicate IsResolved(table: Table, db: Database, selectors: seq<Selector>, keys: seq<string>) {
    && StrictlySorted(keys)
    && forall key :: key in keys <==> InTable(table, db, key) && Selected(selectors, key)
  }

  /** The keys are all of the table's, sorted. */
  ghost predicate IsWholeTable(table: Table, db: Database, keys: seq<string>) {
    StrictlySorted(keys) && forall key :: key in keys <==> InTable(table, db, key)
  }

  /** The scan of the whole table selects every key of the table, whatever its keys are, exactly for suitable prefixes. */
  lemma WholeTableIsSelectedExactlyWhen(table: Table)
    ensures (forall key :: table.prefix <= key ==> Selected([Glob(table.prefix + "*")], key)) <==> SuitsTable(table.prefix)
  {
    TableIsSelectedExactlyWhen(table.prefix);
    var scan := [Glob(table.prefix + "*")];
    forall key ensures Selected(scan, key) <==> GlobMatch(table.prefix + "*", key) {
      assert Selects(scan[0], key) <==> GlobMatch(table.prefix + "*", key);
    }
    if SuitsTable(table.prefix) {
      forall key | table.prefix <= key ensures Selected(scan, key) {
        assert key == table.prefix + key[|table.prefix|..];
      }
    } else {
      var s :| !GlobMatch(table.prefix + "*", table.prefix + s);
      assert table.prefix <= table.prefix + s && !Selected(scan, table.prefix + s);
    }
  }

  /** The prefix suits the globs that the plan puts it in front of, if any. */
  ghost predicate SuitsPlan(table: Table, filter: Expr)
    requires KeySelectors(table, filter).Good?
  {
    var plan := KeySelectors(table, filter).value;
    if plan.covered then UsesGlobs(plan.selectors) ==> SuitsPatterns(table.prefix) else SuitsTable(table.prefix)
  }

  /** A prefix without `[` and backslash suits every plan. */
  lemma PlainPrefixSuitsPlans(table: Table, filter: Expr)
    requires PlainPrefix(table.prefix) && KeySelectors(table, filter).Good?
    ensures SuitsPlan(table, filter)
  {
    PlainPrefixSuits(table.prefix);
    PatternsNeedTheTable(table.prefix);
  }

  /** A kept row's key is selected by the plan, covering or not. */
  lemma KeptIsSelected(table: Table, db: Database, filter: Expr, key: string)
    requires ScanPlan(table, filter).Good? && SuitsPlan(table, filter)
    requires InTable(table, db, key) && Keeps(table, db, filter, key) == Good(true)
    ensures Selected(ScanPlan(table, filter).value, key)
  {
    var plan := KeySelectors(table, filter).value;
    if plan.covered {
      CoveredExactlyWhenSelecting(table, filter);
      var row := ReadRow(table, db, key).value;
      assert key == table.prefix + key[|table.prefix|..];
      PushdownCovers(table, row, filter);
    } else {
      WholeTableIsSelectedExactlyWhen(table);
    }
  }

  /**
    Pushdown loses nothing. Whenever reading the selected keys succeeds, the rows are exactly those of the
    whole table that the filter keeps; and whenever a full scan would succeed, so does reading the selected
    keys, with the same rows in the same order.
   */
  lemma PushdownEqualsFullScan(table: Table, db: Database, filter: Expr, keys: seq<string>, all: seq<string>)
    requires ScanPlan(table, filter).Good? && SuitsPlan(table, filter)
    requires IsResolved(table, db, ScanPlan(table, filter).value, keys) && IsWholeTable(table, db, all)
    ensures var kept := Kept(table, db, filter, keys);
            && (kept.Good? ==> forall key :: key in kept.value <==>
                 InTable(table, db, key) && Keeps(table, db, filter, key) == Good(true))
            && (Kept(table, db, filter, all).Good? ==> kept == Kept(table, db, filter, all))
  {
    hide ScanPlan, Keeps, Selected, SuitsPlan;
    KeptFacts(table, db, filter, keys);
    KeptFacts(table, db, filter, all);
    forall key | InTable(table, db, key) && Keeps(table, db, filter, key) == Good(true) ensures key in keys {
      KeptIsSelected(table, db, filter, key);
    }
    if Kept(table, db, filter, all).Good? {
      assert Kept(table, db, filter, keys).Good?;
      SortedIsUnique(Kept(table, db, filter, keys).value, Kept(table, db, filter, all).value);
    }
  }
}
