/** The column and primary key stage of MergeObjects (mergeWatchColumns). */
module WatchColumns {
  import opened Wrappers
  import opened Identity
  import opened ObjectIndexes
  import opened CatalogTypes
  import opened Sorting
  import opened MapLoops
  import opened WatchSpec
  import opened WatchChecks
  import opened WatchCatalog

  // ----- replacing entries of an exact map

  /** Drop the entries of deleted relations; a key that does not decode is an error. */
  method CutDeleted<V>(m: map<string, V>, deleted: set<ObjectID>) returns (ok: bool, r: map<string, V>)
    ensures ok <==> forall key | key in m :: Parses(key)
    ensures ok ==> r == CutRows(m, deleted)
  {
    r := m;
    var todo := m.Keys;
    while todo != {}
      invariant todo <= m.Keys
      invariant forall key | key in m.Keys - todo :: Parses(key)
      invariant forall key :: key in r <==> key in m && (key in todo || !KeyDeleted(deleted, key))
      invariant forall key | key in r :: r[key] == m[key]
    {
      var key :| key in todo;
      todo := todo - {key};
      var id := WatchParseID(key);
      if id.None? {
        return false, r;
      }
      if RelationDeleted(deleted, id.value.schema, id.value.name) {
        r := r - {key};
      }
    }
    ok := true;
  }

  method DropOwners<V>(m: map<string, V>, owners: seq<ObjectID>) returns (r: map<string, V>)
    ensures r == DropOwned(m, owners)
  {
    r := m;
    for i := 0 to |owners|
      invariant r == DropOwned(m, owners[..i])
    {
      assert owners[..i + 1] == owners[..i] + [owners[i]];
      assert OwnerKeys(owners[..i + 1]) == OwnerKeys(owners[..i]) + {Key(owners[i])};
      var key := BuildKey(owners[i]);
      r := r - {key};
    }
    assert owners[..|owners|] == owners;
  }

  method CheckEntry<V(==)>(owners: seq<ObjectID>, deleted: set<ObjectID>, good: (ObjectID, V) -> bool, none: V, key: string, v: V)
    returns (ok: bool, write: bool)
    ensures ok <==> EntryOk(owners, deleted, good, none, key, v)
    ensures ok ==> write == !KeyDeleted(deleted, key)
  {
    var id := WatchParseID(key);
    if id.None? || id.value.kind != TABLE || id.value !in owners {
      return false, false;
    }
    if RelationDeleted(deleted, id.value.schema, id.value.name) {
      return v == none, false;
    }
    return good(id.value, v), true;
  }

  /** Write the patch entries over `m`, checking each one. */
  method WriteEntries<V(==)>(m: map<string, V>, owners: seq<ObjectID>, patch: map<string, V>, deleted: set<ObjectID>,
                             good: (ObjectID, V) -> bool, none: V) returns (ok: bool, r: map<string, V>)
    ensures ok <==> forall key | key in patch :: EntryOk(owners, deleted, good, none, key, patch[key])
    ensures ok ==> r == m + CutRows(patch, deleted)
  {
    hide ParseKey, Key;
    r := m;
    ghost var cut := CutRows(patch, deleted);
    var todo := patch.Keys;
    while todo != {}
      invariant todo <= patch.Keys
      invariant forall key | key in patch.Keys - todo :: EntryOk(owners, deleted, good, none, key, patch[key])
      invariant r.Keys == m.Keys + (cut.Keys - todo)
      invariant forall key | key in r :: r[key] == if key in cut && key !in todo then cut[key] else m[key]
    {
      var key :| key in todo;
      todo := todo - {key};
      var fine, write := CheckEntry(owners, deleted, good, none, key, patch[key]);
      if !fine {
        return false, r;
      }
      if write {
        r := r[key := patch[key]];
      }
    }
    ok := true;
  }

  /** One covered category: drop what its owners had, then write the patch. */
  method ReplaceEntries<V(==)>(m: map<string, V>, owners: seq<ObjectID>, patch: map<string, V>, deleted: set<ObjectID>,
                               good: (ObjectID, V) -> bool, none: V) returns (ok: bool, r: map<string, V>)
    ensures ok <==> forall key | key in patch :: EntryOk(owners, deleted, good, none, key, patch[key])
    ensures ok ==> r == DropOwned(m, owners) + CutRows(patch, deleted)
  {
    r := DropOwners(m, owners);
    ok, r := WriteEntries(r, owners, patch, deleted, good, none);
  }

  lemma CutTwice<V>(m: map<string, V>, deleted: set<ObjectID>)
    ensures CutRows(CutRows(m, deleted), deleted) == CutRows(m, deleted)
    ensures DropOwned(m, []) == m && CutRows<V>(map[], deleted) == map[]
  {
  }

  lemma CutMerged<V>(m: map<string, V>, owners: seq<ObjectID>, patch: map<string, V>, deleted: set<ObjectID>)
    ensures CutRows(ReplacedKeys(m, owners, patch, deleted), deleted) == ReplacedKeys(m, owners, patch, deleted)
  {
  }

  /** Both column categories in turn; at most one of them is covered. */
  method ReplaceColumns(base: Cache, d: ObjectDelta, deleted: set<ObjectID>) returns (ok: bool, cols: map<string, Columns>)
    requires forall k | k in d.patches :: d.patches[k].cache.Some?
    requires d.patches.Keys == d.owners.Keys
    ensures ok <==> (forall key | key in Rows(base.columnsByID) :: Parses(key)) &&
                    ColumnPatchesOk(d, deleted)
    ensures ok ==> cols == UnflaggedColumns(base, d, deleted)
  {
    ok, cols := CutDeleted(Rows(base.columnsByID), deleted);
    ghost var cut := cols;
    if ok {
      ok, cols := ReplaceColumnKind(d, deleted, ColumnsCurrent, cols);
    }
    if ok {
      CutTwice(Rows(base.columnsByID), deleted);
      CutMerged(Rows(base.columnsByID), OwnersOf(d, ColumnsCurrent), PatchColumns(d, ColumnsCurrent), deleted);
      ok, cols := ReplaceColumnKind(d, deleted, ColumnsAll, cols);
    }
  }

  method ReplaceColumnKind(d: ObjectDelta, deleted: set<ObjectID>, k: Kind, m: map<string, Columns>) returns (ok: bool, cols: map<string, Columns>)
    requires d.patches.Keys == d.owners.Keys
    requires k in d.owners ==> d.patches[k].cache.Some?
    ensures ok <==> (k in d.owners ==> ColumnPatchOk(d, deleted, k))
    ensures ok ==> cols == DropOwned(m, OwnersOf(d, k)) + CutRows(PatchColumns(d, k), deleted)
  {
    cols := m;
    if k !in d.owners {
      CutTwice(m, deleted);
      return true, cols;
    }
    var p := PatchCache(d, k);
    if p.columnsByID.None? {
      return false, cols;
    }
    assert PatchColumns(d, k) == p.columnsByID.value;
    ok, cols := ReplaceEntries(m, d.owners[k], p.columnsByID.value, deleted, GoodColumns, []);
    if ok {
      ok := CheckFoldedColumns(d.owners[k], Rows(p.columnsWithParent));
    }
  }

  method ReplaceKeyKind(n: Names, d: ObjectDelta, deleted: set<ObjectID>, m: map<string, seq<string>>) returns (ok: bool, keys: map<string, seq<string>>)
    requires d.patches.Keys == d.owners.Keys
    requires PrimaryKeys in d.owners ==> d.patches[PrimaryKeys].cache.Some?
    ensures ok <==> (PrimaryKeys in d.owners ==> KeyPatchOk(n, d, deleted))
    ensures ok ==> keys == DropOwned(m, OwnersOf(d, PrimaryKeys)) + CutRows(PatchKeys(d), deleted)
  {
    keys := m;
    if PrimaryKeys !in d.owners {
      CutTwice(m, deleted);
      return true, keys;
    }
    var p := PatchCache(d, PrimaryKeys);
    if p.primaryKeysByID.None? {
      return false, keys;
    }
    assert PatchKeys(d) == p.primaryKeysByID.value;
    ok, keys := ReplaceEntries(m, d.owners[PrimaryKeys], p.primaryKeysByID.value, deleted, GoodKeys, []);
    if ok {
      ok := CheckFoldedKeys(n, d.owners[PrimaryKeys], Rows(p.primaryKeyColumns));
    }
  }

  method ReplaceKeys(n: Names, base: Cache, d: ObjectDelta, deleted: set<ObjectID>) returns (ok: bool, keys: map<string, seq<string>>)
    requires d.patches.Keys == d.owners.Keys
    requires PrimaryKeys in d.owners ==> d.patches[PrimaryKeys].cache.Some?
    ensures ok <==> (forall key | key in Rows(base.primaryKeysByID) :: Parses(key)) && (PrimaryKeys in d.owners ==> KeyPatchOk(n, d, deleted))
    ensures ok ==> keys == MergedKeys(base, d, deleted)
  {
    ok, keys := CutDeleted(Rows(base.primaryKeysByID), deleted);
    if ok {
      ok, keys := ReplaceKeyKind(n, d, deleted, keys);
    }
  }

  /** Every surviving key decodes: base keys did, and patch keys were checked. */
  lemma MergedKeysParse(n: Names, base: Cache, d: ObjectDelta, deleted: set<ObjectID>)
    requires forall key | key in Rows(base.primaryKeysByID) :: Parses(key)
    requires PrimaryKeys in d.owners ==> KeyPatchOk(n, d, deleted)
    ensures forall key | key in MergedKeys(base, d, deleted) :: Parses(key)
  {
  }

  lemma MergedColumnsParse(base: Cache, d: ObjectDelta, deleted: set<ObjectID>)
    requires forall key | key in Rows(base.columnsByID) :: Parses(key)
    requires ColumnPatchesOk(d, deleted)
    ensures forall key | key in UnflaggedColumns(base, d, deleted) :: Parses(key)
  {
  }

  // ----- folded keys

  /** `folded` is the projection of the entries of `keys` outside `todo`. */
  ghost predicate Folding(n: Names, keys: map<string, seq<string>>, todo: set<string>, folded: map<string, set<string>>)
    requires forall key | key in keys :: Parses(key)
  {
    && (forall key | key in keys.Keys - todo :: FoldOf(n, key) in folded)
    && (forall f | f in folded :: exists key | key in keys.Keys - todo :: FoldOf(n, key) == f)
    && (forall f, name | f in folded :: name in folded[f] <==> KeyIn(n, keys, todo, f, name))
  }

  ghost predicate KeyIn(n: Names, keys: map<string, seq<string>>, todo: set<string>, f: string, name: string)
    requires forall key | key in keys :: Parses(key)
  {
    exists key | key in keys.Keys - todo :: FoldOf(n, key) == f && name in keys[key]
  }

  lemma FoldingNext(n: Names, keys: map<string, seq<string>>, todo: set<string>, folded: map<string, set<string>>, key: string)
    requires forall key | key in keys :: Parses(key)
    requires Folding(n, keys, todo, folded) && key in todo && todo <= keys.Keys
    ensures var f := FoldOf(n, key);
            Folding(n, keys, todo - {key}, folded[f := (if f in folded then folded[f] else {}) + set name | name in keys[key]])
  {
    hide Parses, Parsed, ColumnDatabaseKey;
    var f := FoldOf(n, key);
    var next := folded[f := (if f in folded then folded[f] else {}) + set name | name in keys[key]];
    forall g, name | g in next ensures name in next[g] <==> KeyIn(n, keys, todo - {key}, g, name) {
      assert KeyIn(n, keys, todo - {key}, g, name) <==> KeyIn(n, keys, todo, g, name) || (g == f && name in keys[key]);
    }
    forall other | other in keys.Keys - (todo - {key}) ensures FoldOf(n, other) in next {
      assert other == key || other in keys.Keys - todo;
    }
  }

  method AddNames(before: set<string>, names: seq<string>) returns (all: set<string>)
    ensures all == before + set name | name in names
  {
    all := before;
    for i := 0 to |names|
      invariant all == before + set name | name in names[..i]
    {
      assert names[..i + 1] == names[..i] + [names[i]];
      all := all + {names[i]};
    }
    assert names[..|names|] == names;
  }

  lemma FoldingDone(n: Names, keys: map<string, seq<string>>, folded: map<string, set<string>>)
    requires forall key | key in keys :: Parses(key)
    requires Folding(n, keys, {}, folded)
    ensures KeysFoldedFrom(n, keys, folded)
  {
    assert keys.Keys - {} == keys.Keys;
    forall f, name | f in folded ensures name in folded[f] <==> exists key | key in keys :: FoldOf(n, key) == f && name in keys[key] {
      assert KeyIn(n, keys, {}, f, name) <==> exists key | key in keys :: FoldOf(n, key) == f && name in keys[key];
    }
  }

  method FoldKeys(n: Names, keys: map<string, seq<string>>) returns (folded: map<string, set<string>>)
    requires forall key | key in keys :: Parses(key)
    ensures KeysFoldedFrom(n, keys, folded)
  {
    folded := map[];
    var todo := keys.Keys;
    while todo != {}
      invariant todo <= keys.Keys
      invariant Folding(n, keys, todo, folded)
    {
      var key :| key in todo;
      FoldingNext(n, keys, todo, folded, key);
      todo := todo - {key};
      var id := WatchParseID(key);
      var fold := ColumnDatabaseKey(n, id.value.schema, id.value.name);
      var names := AddNames(if fold in folded then folded[fold] else {}, keys[key]);
      folded := folded[fold := names];
    }
    FoldingDone(n, keys, folded);
  }

  // ----- the relations to look at again

  method OwnerKeySet(owners: seq<ObjectID>) returns (keys: set<string>)
    ensures keys == OwnerKeys(owners)
  {
    keys := {};
    for i := 0 to |owners|
      invariant keys == OwnerKeys(owners[..i])
    {
      assert owners[..i + 1] == owners[..i] + [owners[i]];
      var key := BuildKey(owners[i]);
      keys := keys + {key};
    }
    assert owners[..|owners|] == owners;
  }

  method NamedKeySet(d: ObjectDelta, deleted: set<ObjectID>) returns (keys: set<string>)
    ensures keys == NamedKeys(d, deleted)
  {
    keys := {};
    var todo := deleted;
    while todo != {}
      invariant todo <= deleted
      invariant keys == set id | id in deleted - todo && IsRelation(id) :: Key(RelationID(id))
    {
      var id :| id in todo;
      todo := todo - {id};
      if id.kind == TABLE || id.kind == VIEW {
        var key := BuildKey(RelationID(id));
        keys := keys + {key};
      }
    }
    assert deleted - {} == deleted;
    var current := OwnerKeySet(OwnersOf(d, ColumnsCurrent));
    var all := OwnerKeySet(OwnersOf(d, ColumnsAll));
    var pks := OwnerKeySet(OwnersOf(d, PrimaryKeys));
    keys := keys + current + all + pks;
  }

  method FoldSet(n: Names, names: set<string>) returns (folds: set<string>)
    requires forall key | key in names :: Parses(key)
    ensures folds == set key | key in names :: FoldOf(n, key)
  {
    folds := {};
    var todo := names;
    while todo != {}
      invariant todo <= names
      invariant folds == set key | key in names - todo && Parses(key) :: FoldOf(n, key)
    {
      var key :| key in todo;
      todo := todo - {key};
      var id := WatchParseID(key);
      folds := folds + {ColumnDatabaseKey(n, id.value.schema, id.value.name)};
    }
    assert names - {} == names;
  }

  lemma InFoldSet(n: Names, names: set<string>, key: string)
    requires forall other | other in names :: Parses(other)
    requires Parses(key)
    ensures InFold(n, names, key) <==> FoldOf(n, key) in set other | other in names :: FoldOf(n, other)
  {
  }

  /** The relations to look at again: the named ones, then their folded siblings. */
  method FindChanged(n: Names, base: Cache, names: set<string>, cols: map<string, Columns>) returns (changed: set<string>)
    requires forall key | key in names :: Parses(key)
    requires forall key | key in cols :: Parses(key)
    ensures changed == names + set key | key in cols && Rechecked(n, base, names, key)
  {
    hide ParseKey, Key;
    changed := names;
    if MetadataReady(base, PrimaryKeys) {
      var folds := FoldSet(n, names);
      var todo := cols.Keys;
      while todo != {}
        invariant todo <= cols.Keys
        invariant changed == names + set key | key in cols.Keys - todo && InFold(n, names, key)
      {
        var key :| key in todo;
        todo := todo - {key};
        InFoldSet(n, names, key);
        var id := WatchParseID(key);
        if ColumnDatabaseKey(n, id.value.schema, id.value.name) in folds {
          changed := changed + {key};
        }
      }
      assert cols.Keys - {} == cols.Keys;
    }
  }

  /** Flag the columns of the changed relations. */
  method FlagColumns(n: Names, base: Cache, changed: set<string>, folded: map<string, set<string>>, cols: map<string, Columns>)
    returns (flagged: map<string, Columns>)
    ensures flagged == map key | key in cols :: if key in changed then Flagged(n, base, folded, cols[key]) else cols[key]
  {
    flagged := cols;
    var todo := changed;
    while todo != {}
      invariant todo <= changed && flagged.Keys == cols.Keys
      invariant forall key | key in cols :: (flagged[key] == if key in changed - todo then Flagged(n, base, folded, cols[key]) else cols[key])
    {
      var key :| key in todo;
      todo := todo - {key};
      if key in cols {
        flagged := flagged[key := Flagged(n, base, folded, cols[key])];
      }
    }
  }

  // ----- columns by folded table

  datatype Entry = Entry(key: string, id: ObjectID)

  predicate EntryLess(a: Entry, b: Entry) {
    if a.id.name != b.id.name then StringLess(a.id.name, b.id.name) else StringLess(a.id.schema, b.id.schema)
  }

  method SortEntries(entries: seq<Entry>) returns (r: seq<Entry>)
    ensures SortOf(r, entries, EntryLess)
  {
    TwoKeyOrder((e: Entry) => e.id.name, (e: Entry) => e.id.schema, EntryLess);
    r := SortBy(entries, EntryLess);
  }

  ghost predicate EntryOf(e: Entry, key: string) {
    Parses(key) && e.key == key && e.id == Parsed(key)
  }

  /** The sorted entries are the same entries, each once. */
  lemma SortedEntries(keys: seq<string>, entries: seq<Entry>, sorted: seq<Entry>)
    requires Distinct(keys) && |entries| == |keys| && multiset(sorted) == multiset(entries)
    requires forall j | 0 <= j < |keys| :: EntryOf(entries[j], keys[j])
    ensures forall i | 0 <= i < |sorted| :: sorted[i].key in keys && EntryOf(sorted[i], sorted[i].key)
    ensures forall i, j | 0 <= i < j < |sorted| :: sorted[i].key != sorted[j].key
    ensures forall key | key in keys :: exists i :: 0 <= i < |sorted| && sorted[i].key == key
  {
    hide Parses, Parsed;
    SameElements(sorted, entries);
    DistinctBySort(sorted, entries);
    forall i | 0 <= i < |sorted| ensures sorted[i].key in keys && EntryOf(sorted[i], sorted[i].key) {
      assert sorted[i] in entries;
    }
    forall key | key in keys ensures exists i :: 0 <= i < |sorted| && sorted[i].key == key {
      var i :| 0 <= i < |keys| && keys[i] == key;
      assert entries[i] in sorted;
    }
  }

  lemma SortedKeys(keys: seq<string>, entries: seq<Entry>, sorted: seq<Entry>, ids: seq<string>, all: set<string>)
    requires Distinct(keys) && |entries| == |keys| && SortOf(sorted, entries, EntryLess)
    requires forall j | 0 <= j < |keys| :: EntryOf(entries[j], keys[j])
    requires forall key :: key in keys <==> key in all
    requires |ids| == |sorted| && forall j | 0 <= j < |ids| :: ids[j] == sorted[j].key
    ensures ListsKeys(ids, all)
  {
    hide Parses, Parsed, StringLess;
    SortedEntries(keys, entries, sorted);
    forall i, j | 0 <= i < j < |ids| ensures !KeyOrderLess(ids[j], ids[i]) {
      assert !EntryLess(sorted[j], sorted[i]);
    }
  }

  /** The keys of the exact column map, ordered by relation name, then schema. */
  method SortKeys(cols: map<string, Columns>) returns (ids: seq<string>)
    requires forall key | key in cols :: Parses(key)
    ensures ListsKeys(ids, cols.Keys)
  {
    hide EntryLess, ListsKeys, SortOf;
    var keys := ListKeys(cols);
    var entries: seq<Entry> := [];
    for i := 0 to |keys|
      invariant |entries| == i
      invariant forall j | 0 <= j < i :: EntryOf(entries[j], keys[j])
    {
      assert keys[i] in cols;
      var id := WatchParseID(keys[i]);
      entries := entries + [Entry(keys[i], id.value)];
      assert EntryOf(entries[i], keys[i]);
    }
    var sorted := SortEntries(entries);
    ids := seq(|sorted|, i requires 0 <= i < |sorted| => sorted[i].key);
    SortedKeys(keys, entries, sorted, ids, cols.Keys);
  }

  /** Append a relation's rows, one by one, to their folded tables. */
  method FileRows(n: Names, m: map<string, Columns>, cols: Columns) returns (r: map<string, Columns>)
    requires NoNilColumns(cols)
    ensures r == FileColumns(n, m, cols)
  {
    r := m;
    for i := 0 to |cols|
      invariant r == FileColumns(n, m, cols[..i])
    {
      assert cols[..i + 1][..i] == cols[..i];
      var c := cols[i];
      var fold := ColumnDatabaseKey(n, c.value.schema, c.value.table);
      r := r[fold := (if fold in r then r[fold] else []) + [c]];
    }
    assert cols[..|cols|] == cols;
  }

  method FoldColumns(n: Names, cols: map<string, Columns>) returns (folded: map<string, Columns>)
    requires forall key | key in cols :: Parses(key)
    requires forall key | key in cols :: NoNilColumns(cols[key])
    ensures ColumnsFoldedFrom(n, cols, folded)
  {
    var ids := SortKeys(cols);
    folded := map[];
    for i := 0 to |ids|
      invariant forall id | id in ids[..i] :: id in cols
      invariant folded == FileAll(n, ids[..i], cols)
    {
      assert ids[..i + 1][..i] == ids[..i];
      assert ids[i] in ids;
      folded := FileRows(n, folded, cols[ids[i]]);
    }
    assert ids[..|ids|] == ids;
  }

  // ----- the columns of views

  method RefreshViews(changed: set<string>, cols: map<string, Columns>, views: DescMap) returns (next: DescMap, any: bool)
    requires NoNil(views)
    ensures next == RefreshedViews(changed, cols, views)
    ensures !any ==> next == views
    ensures NoNil(next)
  {
    next, any := views, false;
    var todo := views.Keys;
    while todo != {}
      invariant todo <= views.Keys && next.Keys == views.Keys
      invariant forall key | key in views :: next[key] == if key in todo then views[key] else RefreshedView(changed, cols, views[key])
      invariant !any ==> next == views
    {
      var key :| key in todo;
      todo := todo - {key};
      var view := views[key].value;
      var id := BuildKey(TableID(view.schema, view.name));
      if id in changed {
        any := true;
        next := next[key := Some(view.(columns := Some(ViewColumns(if id in cols then cols[id] else []))))];
      }
    }
  }

  method RefreshCatalog(n: Names, changed: set<string>, cols: map<string, Columns>, mid: CatalogCache) returns (next: CatalogCache)
    requires NoNil(ExactRows(mid, Views))
    ensures ViewsRefreshed(n, changed, cols, mid, next)
  {
    next := mid;
    var views, any := RefreshViews(changed, cols, ExactRows(mid, Views));
    if any && CategoryOf(mid, Views).exact.Some? {
      var folded := FoldRows(n, views);
      next := mid.(categories := mid.categories[Views := Category(Some(views), Some(folded))]);
    }
  }

  // ----- the stage

  lemma NamedOwners(d: ObjectDelta)
    requires DeltaShape(d)
    ensures forall k, id | id in OwnersOf(d, k) :: ValidID(id)
  {
    forall k, id | id in OwnersOf(d, k) ensures ValidID(id) { assert CategoryShape(d, k); }
  }

  lemma NamedKeysParse(d: ObjectDelta, deleted: set<ObjectID>)
    requires DeltaShape(d) && forall id | id in deleted :: ValidID(id)
    ensures forall key | key in NamedKeys(d, deleted) :: Parses(key)
  {
    hide ParseKey, Key, OwnerKind, FragmentOk;
    NamedOwners(d);
    forall key | key in NamedKeys(d, deleted) ensures Parses(key) {
      if id :| id in deleted && Key(RelationID(id)) == key {
        ParseKeyInverts(RelationID(id));
      } else {
        var id :| (id in OwnersOf(d, ColumnsCurrent) || id in OwnersOf(d, ColumnsAll) || id in OwnersOf(d, PrimaryKeys)) && Key(id) == key;
        ParseKeyInverts(id);
      }
    }
  }

  /** The exact maps after the patches, or an error. */
  method ReplaceExact(n: Names, base: Cache, d: ObjectDelta, deleted: set<ObjectID>)
    returns (ok: bool, cols: map<string, Columns>, keys: map<string, seq<string>>)
    requires DeltaShape(d)
    ensures ok <==> ExactReplaceable(n, base, d, deleted)
    ensures ok ==> cols == UnflaggedColumns(base, d, deleted) && forall key | key in cols :: Parses(key)
    ensures ok ==> keys == MergedKeys(base, d, deleted) && forall key | key in keys :: Parses(key)
  {
    hide UnflaggedColumns, MergedKeys, ExactColumnsPublished, ColumnPatchesOk, KeyPatchOk, NoNilColumns, Parses;
    assert d.patches.Keys == d.owners.Keys;
    cols, keys := map[], map[];
    ok := ExactColumnsPublished(base);
    if ok {
      ok, cols := ReplaceColumns(base, d, deleted);
    }
    if ok {
      ok, keys := ReplaceKeys(n, base, d, deleted);
    }
    if ok {
      MergedColumnsParse(base, d, deleted);
      MergedKeysParse(n, base, d, deleted);
      ok := forall key | key in cols :: NoNilColumns(cols[key]);
    }
  }

  lemma FlaggedNoNil(n: Names, base: Cache, folded: map<string, set<string>>, cols: Columns)
    requires NoNilColumns(cols)
    ensures NoNilColumns(Flagged(n, base, folded, cols))
  {
  }

  method ProjectColumns(n: Names, base: Cache, d: ObjectDelta, deleted: set<ObjectID>, folded: map<string, set<string>>, cols: map<string, Columns>)
    returns (flagged: map<string, Columns>, withParent: map<string, Columns>, changed: set<string>)
    requires DeltaShape(d) && forall id | id in deleted :: ValidID(id)
    requires cols == UnflaggedColumns(base, d, deleted)
    requires forall key | key in cols :: Parses(key) && NoNilColumns(cols[key])
    ensures flagged == MergedColumns(n, base, d, deleted, folded)
    ensures ColumnsFoldedFrom(n, flagged, withParent)
    ensures changed == ChangedKeys(n, base, d, deleted)
  {
    hide ParseKey, Key, DeltaShape, UnflaggedColumns, ValidID, ColumnsFoldedFrom;
    var names := NamedKeySet(d, deleted);
    NamedKeysParse(d, deleted);
    changed := FindChanged(n, base, names, cols);
    flagged := FlagColumns(n, base, changed, folded, cols);
    forall key | key in flagged ensures NoNilColumns(flagged[key]) { FlaggedNoNil(n, base, folded, cols[key]); }
    withParent := FoldColumns(n, flagged);
  }

  lemma NothingUnpublished(n: Names, base: Cache, d: ObjectDelta, deleted: set<ObjectID>, folded: map<string, set<string>>)
    ensures base.columnsByID.None? && ColumnsCurrent !in d.owners && ColumnsAll !in d.owners ==> MergedColumns(n, base, d, deleted, folded) == map[]
    ensures base.primaryKeysByID.None? && PrimaryKeys !in d.owners ==> MergedKeys(base, d, deleted) == map[]
  {
    CutTwice<Columns>(map[], deleted);
    CutTwice<seq<string>>(map[], deleted);
  }

  /** Rewrite the column and key projections of a touched cache. */
  method RewriteColumns(n: Names, base: Cache, mid: Cache, d: ObjectDelta, deleted: set<ObjectID>, cols: map<string, Columns>, keys: map<string, seq<string>>)
    returns (next: Cache)
    requires DeltaShape(d) && forall id | id in deleted :: ValidID(id)
    requires mid.catalog.Some? && NoNil(ExactRows(mid.catalog.value, Views))
    requires mid.primaryKeyColumns == base.primaryKeyColumns && mid.columnsByID == base.columnsByID && mid.primaryKeysByID == base.primaryKeysByID
    requires cols == UnflaggedColumns(base, d, deleted) && forall key | key in cols :: Parses(key) && NoNilColumns(cols[key])
    requires keys == MergedKeys(base, d, deleted) && forall key | key in keys :: Parses(key)
    requires ColumnsTouched(d, deleted) || KeysTouched(d, deleted)
    ensures ColumnsMerged(n, base, mid, d, deleted, next)
  {
    hide ValidID, NoNil, UnflaggedColumns, NoNilColumns, MergedKeys, MergedColumns, ChangedKeys, KeysFoldedFrom, ColumnsFoldedFrom, ViewsRefreshed, ColumnsTouched, KeysTouched, DeltaShape;
    var folded := base.primaryKeyColumns;
    if KeysTouched(d, deleted) {
      var f := FoldKeys(n, keys);
      folded := Some(f);
    }
    var flagged, withParent, changed := ProjectColumns(n, base, d, deleted, Rows(folded), cols);
    var catalog := RefreshCatalog(n, changed, flagged, mid.catalog.value);
    NothingUnpublished(n, base, d, deleted, Rows(folded));
    var hasColumns := base.columnsByID.Some? || ColumnsCurrent in d.owners || ColumnsAll in d.owners;
    var hasKeys := base.primaryKeysByID.Some? || PrimaryKeys in d.owners;
    next := mid.(
      columnsByID := if hasColumns then Some(flagged) else None,
      primaryKeysByID := if hasKeys then Some(keys) else None,
      primaryKeyColumns := folded, columnsWithParent := Some(withParent), catalog := Some(catalog));
    assert Rows(next.columnsByID) == flagged && Rows(next.primaryKeysByID) == keys;
    assert ExactMerged(n, base, d, deleted, next);
    assert FoldedKeysMerged(n, base, d, deleted, next);
  }

  method MergeWatchColumns(n: Names, base: Cache, mid: Cache, d: ObjectDelta, deleted: set<ObjectID>) returns (ok: bool, next: Cache)
    requires DeltaShape(d) && forall id | id in deleted :: ValidID(id)
    requires mid.catalog.Some? && NoNil(ExactRows(mid.catalog.value, Views))
    requires mid == base.(catalog := mid.catalog, schemaTables := mid.schemaTables)
    ensures ok <==> ColumnsMergeable(n, base, d, deleted)
    ensures ok ==> ColumnsMerged(n, base, mid, d, deleted, next)
  {
    next := mid;
    if ColumnsAll in d.owners && ColumnsCurrent in d.owners {
      return false, next;
    }
    if !ColumnsTouched(d, deleted) && !KeysTouched(d, deleted) {
      return true, next;
    }
    var cols, keys;
    ok, cols, keys := ReplaceExact(n, base, d, deleted);
    if ok {
      next := RewriteColumns(n, base, mid, d, deleted, cols, keys);
    }
  }
}
