/** A full load against the incremental merge: when folding mergeMetadata from an empty cache gives a
    canonical cache, and so the cache that MergeObjects gives. */
module FullLoads {
  import opened Wrappers
  import opened Identity
  import opened ObjectIndexes
  import opened CatalogTypes
  import opened Dependencies
  import opened Sorting
  import opened WatchSpec
  import opened WatchCanonical
  import opened WatchDetermined
  import opened WatchTheorems
  import opened CatalogMerge
  import opened CatalogMergeOrder

  /** newMetadataCache */
  const NEW_CACHE :=
    Cache("", Some(map[]), Some(map[]), Some(map[]), Some(map[]), Some(map[]), map[], Some(map[]), None, None, None)

  // ----- full and incremental key flags

  /** With the keys ready, a full merge and an incremental one flag a column alike exactly when it has no
      schema or carries the right flag already. */
  lemma FlagsAgreeExactly(n: Names, base: Cache, keys: map<string, set<string>>, table: string, c: Column)
    requires MetadataReady(base, PrimaryKeys)
    ensures MarkedAll(n, true, table, [Some(c)], keys) == Flagged(n, base, keys, [Some(c)]) <==> c.schema == "" || c.key == KeyFlag(n, base, keys, c)
  {
    var full, incremental := MarkedAll(n, true, table, [Some(c)], keys), Flagged(n, base, keys, [Some(c)]);
    assert full[0] == Marked(n, true, table, Some(c), keys);
    assert incremental[0] == Some(c.(key := KeyFlag(n, base, keys, c)));
    assert full == incremental <==> full[0] == incremental[0];
  }

  /** A column with a schema and no flag yet: the full merge leaves it, the incremental one says "NO". */
  lemma SchemaFlagsDiffer(n: Names, base: Cache) returns (c: Column)
    requires MetadataReady(base, PrimaryKeys)
    ensures c.schema == "S" && MarkedAll(n, true, "S\tT", [Some(c)], map[]) != Flagged(n, base, map[], [Some(c)])
  {
    c := Column("S", "T", "ID", "", 0);
    FlagsAgreeExactly(n, base, map[], "S\tT", c);
  }

  // ----- the folded column map of a flagged one

  /** Schema-less rows, each filed under its own table. */
  ghost predicate TableRows(cols: map<string, Columns>) {
    && (forall key | key in cols :: PlainTable(key))
    && (forall key, i | key in cols && 0 <= i < |cols[key]| :: ColumnRowOk(cols[key][i], Parsed(key)))
  }

  predicate PlainColumns(cols: Columns) {
    forall i | 0 <= i < |cols| :: cols[i].Some? && cols[i].value.schema == ""
  }

  lemma MarkedFront(n: Names, byID: bool, table: string, cols: Columns, keys: map<string, set<string>>)
    requires cols != []
    ensures MarkedAll(n, byID, table, cols, keys) ==
            MarkedAll(n, byID, table, cols[..|cols| - 1], keys) + [Marked(n, byID, table, cols[|cols| - 1], keys)]
  {
  }

  lemma MarkedMore(n: Names, byID: bool, table: string, cols: Columns, c: Option<Column>, keys: map<string, set<string>>)
    ensures MarkedAll(n, byID, table, cols + [c], keys) == MarkedAll(n, byID, table, cols, keys) + [Marked(n, byID, table, c, keys)]
  {
    MarkedFront(n, byID, table, cols + [c], keys);
    assert (cols + [c])[..|cols|] == cols;
  }

  /** Flagging filed rows is filing flagged rows. */
  lemma {:induction false} FileMarked(n: Names, m: map<string, Columns>, table: string, cols: Columns, keys: map<string, set<string>>)
    requires PlainColumns(cols)
    ensures Enriched(n, false, FileColumns(n, m, cols), keys) == FileColumns(n, Enriched(n, false, m, keys), MarkedAll(n, true, table, cols, keys))
  {
    if cols != [] {
      var front, c := cols[..|cols| - 1], cols[|cols| - 1];
      FileMarked(n, m, table, front, keys);
      MarkedFront(n, true, table, cols, keys);
      FileOneMarked(n, FileColumns(n, m, front), table, c, keys);
      var marked := MarkedAll(n, true, table, cols, keys);
      assert marked[..|marked| - 1] == MarkedAll(n, true, table, front, keys);
    } else {
      assert MarkedAll(n, true, table, cols, keys) == [];
    }
  }

  function FileOne(n: Names, m: map<string, Columns>, c: Option<Column>): map<string, Columns>
    requires c.Some?
  {
    var f := ColumnDatabaseKey(n, c.value.schema, c.value.table);
    m[f := (if f in m then m[f] else []) + [c]]
  }

  lemma FileOneMarked(n: Names, m: map<string, Columns>, table: string, c: Option<Column>, keys: map<string, set<string>>)
    requires c.Some? && c.value.schema == ""
    ensures Enriched(n, false, FileOne(n, m, c), keys) == FileOne(n, Enriched(n, false, m, keys), Marked(n, true, table, c, keys))
  {
    var f := ColumnDatabaseKey(n, c.value.schema, c.value.table);
    MarkedMore(n, false, f, if f in m then m[f] else [], c, keys);
    assert Marked(n, false, f, c, keys) == Marked(n, true, table, c, keys);
    assert MarkedAll(n, false, f, [], keys) == [];
  }

  lemma {:induction false} FileAllMarked(n: Names, ids: seq<string>, cols: map<string, Columns>, keys: map<string, set<string>>)
    requires (forall id | id in ids :: id in cols) && forall key | key in cols :: PlainColumns(cols[key])
    ensures Enriched(n, false, FileAll(n, ids, cols), keys) == FileAll(n, ids, Enriched(n, true, cols, keys))
  {
    if ids != [] {
      var front, id := ids[..|ids| - 1], ids[|ids| - 1];
      FileAllMarked(n, front, cols, keys);
      FileMarked(n, FileAll(n, front, cols), id, cols[id], keys);
    }
  }

  lemma EnrichedFolds(n: Names, cols: map<string, Columns>, folded: map<string, Columns>, keys: map<string, set<string>>)
    requires TableRows(cols) && ColumnsFoldedFrom(n, cols, folded)
    ensures ColumnsFoldedFrom(n, Enriched(n, true, cols, keys), Enriched(n, false, folded, keys))
  {
    var ids: seq<string> :| ListsKeys(ids, cols.Keys) && folded == FileAll(n, ids, cols);
    forall key | key in cols ensures PlainColumns(cols[key]) {
      forall i | 0 <= i < |cols[key]| ensures cols[key][i].Some? && cols[key][i].value.schema == "" {
        assert ColumnRowOk(cols[key][i], Parsed(key)) && PlainTable(key);
      }
    }
    hide ListsKeys;
    FileAllMarked(n, ids, cols, keys);
    assert Enriched(n, true, cols, keys).Keys == cols.Keys;
  }

  // ----- what a full load reads

  /** The projections of a schema-less fragment are the canonical functions of its own exact maps; of its
      index groups nothing is said. */
  ghost predicate PlainFragment(n: Names, k: Kind, f: Cache) {
    match k
    case Relations => CanonicalTables(f)
    case ColumnsCurrent => TableRows(Rows(f.columnsByID)) && ColumnsFoldedFrom(n, Rows(f.columnsByID), Rows(f.columnsWithParent))
    case ColumnsAll => TableRows(Rows(f.columnsByID)) && ColumnsFoldedFrom(n, Rows(f.columnsByID), Rows(f.columnsWithParent))
    case PrimaryKeys => CanonicalKeys(n, f)
    case ForeignKeys => CanonicalFKs(n, f)
    case Dependencies => f.dependencies.Some? ==> CanonicalGraph(f.dependencies.value)
    case _ => Descriptor(k) ==> CanonicalCategory(n, k, CategoryOf(Header(f), k))
  }

  ghost predicate PlainFragments(n: Names, m: map<Kind, Patch>) {
    Complete(m) && forall k | k in m :: PlainFragment(n, k, Fragment(m, k))
  }

  /** `full` is a full load: patches of distinct categories, primary keys among them, merged one after
      the other into an empty cache. */
  ghost predicate FullLoad(n: Names, arrivals: seq<Arrival>, full: Cache) {
    OncePerKind(arrivals) && MergesTo(n, NEW_CACHE, arrivals, full) && Has(arrivals, PrimaryKeys) && PlainFragments(n, ByKind(arrivals))
  }

  // ----- index groups

  /** The fragment brings the groups of its exact rows, or its folded map shows every index that has a
      relation. */
  ghost predicate IndexesShown(n: Names, f: Cache) {
    if Header(f).indexesByTable.Some? then GroupedFrom(n, ExactRows(Header(f), Indexes), Header(f).indexesByTable.value)
    else forall key | key in ExactRows(Header(f), Indexes) :: Shown(n, FoldedRows(Header(f), Indexes), ExactRows(Header(f), Indexes)[key])
  }

  /** A row with a relation is the entry of its folded name. */
  predicate Shown(n: Names, folded: DescMap, v: Option<Desc>) {
    GroupKey(n, v).Some? ==> CacheKey(n, v.value.name) in folded && folded[CacheKey(n, v.value.name)] == v
  }

  /** Grouping the folded map groups the exact one exactly when it shows every row that is grouped. */
  lemma GroupsOfFold(n: Names, exact: DescMap, folded: DescMap, groups: map<string, seq<Option<Desc>>>)
    requires PlainRows(Indexes, exact) && FoldedFrom(n, exact, folded) && GroupedFrom(n, folded, groups)
    ensures GroupedFrom(n, exact, groups) <==> forall key | key in exact :: Shown(n, folded, exact[key])
  {
    PlainNamedOnce(Indexes, exact);
    FoldedNamedOnce(n, exact, folded);
    hide GroupedFrom, FoldedFrom, PlainRows, Shown, NamedOnce;
    if GroupedFrom(n, exact, groups) {
      forall key | key in exact ensures Shown(n, folded, exact[key]) { GroupedIsShown(n, exact, folded, groups, key); }
    }
    if forall key | key in exact :: Shown(n, folded, exact[key]) {
      ShownIsGrouped(n, exact, folded, groups);
    }
  }

  lemma ShownIsGrouped(n: Names, exact: DescMap, folded: DescMap, groups: map<string, seq<Option<Desc>>>)
    requires NamedOnce(exact) && NamedOnce(folded) && FoldedFrom(n, exact, folded) && GroupedFrom(n, folded, groups)
    requires forall key | key in exact :: Shown(n, folded, exact[key])
    ensures GroupedFrom(n, exact, groups)
  {
    hide FoldedFrom, NamedOnce, GroupCounts;
    forall g | g in groups ensures GroupCounts(n, exact, g, groups[g]) { ShownCounts(n, exact, folded, g, groups[g]); }
    forall key | key in exact && GroupKey(n, exact[key]).Some? ensures GroupKey(n, exact[key]).value in groups {
      assert Shown(n, folded, exact[key]);
      assert folded[CacheKey(n, exact[key].value.name)] == exact[key];
    }
  }

  lemma GroupedIsShown(n: Names, exact: DescMap, folded: DescMap, groups: map<string, seq<Option<Desc>>>, key: string)
    requires NamedOnce(exact) && NamedOnce(folded) && FoldedFrom(n, exact, folded)
    requires GroupedFrom(n, exact, groups) && GroupedFrom(n, folded, groups) && key in exact
    ensures Shown(n, folded, exact[key])
  {
    var v := exact[key];
    if GroupKey(n, v).Some? {
      var g := GroupKey(n, v).value;
      GroupMembers(n, exact, groups, g);
      GroupMembers(n, folded, groups, g);
      assert v in exact.Values && v in groups[g];
      var x :| x in folded && folded[x] == v;
    }
  }

  lemma ShownCounts(n: Names, exact: DescMap, folded: DescMap, g: string, group: seq<Option<Desc>>)
    requires NamedOnce(exact) && NamedOnce(folded) && FoldedFrom(n, exact, folded) && GroupCounts(n, folded, g, group)
    requires forall key | key in exact :: Shown(n, folded, exact[key])
    ensures GroupCounts(n, exact, g, group)
  {
    forall v: Option<Desc> ensures multiset(group)[v] == if GroupKey(n, v) == Some(g) then |RowsEqual(exact, v)| else 0 {
      if GroupKey(n, v) == Some(g) {
        SameCount(n, exact, folded, v);
      }
    }
  }

  lemma SameCount(n: Names, exact: DescMap, folded: DescMap, v: Option<Desc>)
    requires NamedOnce(exact) && NamedOnce(folded) && FoldedFrom(n, exact, folded) && GroupKey(n, v).Some?
    requires forall key | key in exact :: Shown(n, folded, exact[key])
    ensures |RowsEqual(exact, v)| == |RowsEqual(folded, v)|
  {
    if v in exact.Values {
      var key :| key in exact && exact[key] == v;
      assert Shown(n, folded, exact[key]);
      OneRowEqual(exact, v, key);
      OneRowEqual(folded, v, CacheKey(n, v.value.name));
    } else {
      assert RowsEqual(exact, v) == {};
      forall x | x in folded ensures folded[x] != v { assert folded[x] in exact.Values; }
      assert RowsEqual(folded, v) == {};
    }
  }

  /** The index groups of a full load are those of its exact rows exactly when the fragment shows them. */
  lemma IndexGroupsExactly(n: Names, f: Cache, groups: Groups)
    requires PlainFragment(n, Indexes, f) && IndexGroupsFrom(n, f, groups)
    ensures GroupedFrom(n, ExactRows(Header(f), Indexes), Rows(groups)) <==> IndexesShown(n, f)
  {
    if Header(f).indexesByTable.None? {
      GroupsOfFold(n, ExactRows(Header(f), Indexes), FoldedRows(Header(f), Indexes), groups.value);
    }
  }

  function IndexRow(name: string): Desc {
    Desc("", name, Some("T"), None, [], 0)
  }

  function HiddenFolded(n: Names): DescMap {
    map[CacheKey(n, "idx") := Some(IndexRow("idx"))]
  }

  function HiddenExact(): DescMap {
    map[Key(IdentityOf(Indexes, IndexRow("IDX"))) := Some(IndexRow("IDX")), Key(IdentityOf(Indexes, IndexRow("idx"))) := Some(IndexRow("idx"))]
  }

  function HiddenGroups(n: Names): map<string, seq<Option<Desc>>> {
    map[CacheKey(n, "T") := [Some(IndexRow("idx"))]]
  }

  lemma HiddenRows()
    ensures HiddenExact().Values == {Some(IndexRow("IDX")), Some(IndexRow("idx"))} && |HiddenExact()| == 2
    ensures PlainRows(Indexes, HiddenExact())
  {
    hide Key;
    var a, b := IdentityOf(Indexes, IndexRow("IDX")), IdentityOf(Indexes, IndexRow("idx"));
    assert a != b;
    if Key(a) == Key(b) { KeyInjective(a, b); }
    var exact := HiddenExact();
    assert exact.Keys == {Key(a), Key(b)} && exact[Key(a)] == Some(IndexRow("IDX")) && exact[Key(b)] == Some(IndexRow("idx"));
  }

  lemma HiddenFold(n: Names)
    requires CacheKey(n, "IDX") == CacheKey(n, "idx")
    ensures FoldedFrom(n, HiddenExact(), HiddenFolded(n))
  {
    HiddenRows();
    hide Key, HiddenExact, PlainRows;
    var exact, folded := HiddenExact(), HiddenFolded(n);
    forall key | key in exact ensures exact[key] == Some(IndexRow("IDX")) || exact[key] == Some(IndexRow("idx")) {
      assert exact[key] in exact.Values;
    }
    assert !StringLess("idx", "IDX") && !StringLess("idx", "idx");
  }

  lemma HiddenGrouped(n: Names)
    requires n.trim("T") != ""
    ensures GroupedFrom(n, HiddenFolded(n), HiddenGroups(n))
  {
    var lower, x, g := Some(IndexRow("idx")), CacheKey(n, "idx"), CacheKey(n, "T");
    forall v: Option<Desc> ensures multiset([lower])[v] == if GroupKey(n, v) == Some(g) then |RowsEqual(HiddenFolded(n), v)| else 0 {
      assert RowsEqual(HiddenFolded(n), v) == if v == lower then {x} else {};
    }
  }

  function HiddenFragment(n: Names): Cache {
    NEW_CACHE.(catalog := Some(EMPTY_CATALOG.(categories := map[Indexes := Category(Some(HiddenExact()), Some(HiddenFolded(n)))])))
  }

  lemma HiddenIsNotShown(n: Names)
    requires CacheKey(n, "IDX") == CacheKey(n, "idx") && n.trim("T") != ""
    ensures !IndexesShown(n, HiddenFragment(n))
  {
    HiddenRows();
    hide HiddenExact, GroupedFrom, PlainRows, Key;
    var upper := Some(IndexRow("IDX"));
    assert upper in HiddenExact().Values;
    var a :| a in HiddenExact() && HiddenExact()[a] == upper;
    assert !Shown(n, HiddenFolded(n), HiddenExact()[a]);
    var catalog := Header(HiddenFragment(n));
    assert ExactRows(catalog, Indexes) == HiddenExact() && FoldedRows(catalog, Indexes) == HiddenFolded(n);
  }

  /** Two indexes of one table whose quoted names fold alike.  A full load whose fragment brings no groups
      lists one of them; no grouping of the exact rows does. */
  lemma FoldHidesAnIndex(n: Names) returns (f: Cache, groups: Groups)
    requires CacheKey(n, "IDX") == CacheKey(n, "idx") && n.trim("T") != ""
    ensures PlainFragment(n, Indexes, f) && IndexGroupsFrom(n, f, groups)
    ensures ExactRows(Header(f), Indexes).Values == {Some(IndexRow("IDX")), Some(IndexRow("idx"))}
    ensures groups == Some(map[CacheKey(n, "T") := [Some(IndexRow("idx"))]])
    ensures !IndexesShown(n, f) && !GroupedFrom(n, ExactRows(Header(f), Indexes), groups.value)
  {
    f := HiddenFragment(n);
    groups := Some(HiddenGroups(n));
    HiddenRows();
    HiddenFold(n);
    HiddenGrouped(n);
    HiddenIsNotShown(n);
    hide HiddenExact, FoldedFrom, GroupedFrom, PlainRows, Key, CacheKey, GroupKey, Shown, CanonicalTables, TableRows, ColumnsFoldedFrom, CanonicalKeys, CanonicalFKs, CanonicalGraph;
    IndexGroupsExactly(n, f, groups);
  }

  // ----- the loaded cache

  lemma LoadedCategories(n: Names, m: map<Kind, Patch>, c: Cache)
    requires Complete(m) && BuiltFrom(n, NEW_CACHE, m, c)
    ensures c.catalog.Some? <==> AnyCatalog(m)
    ensures c.catalog.Some? ==> forall k | Descriptor(k) ::
              CategoryOf(c.catalog.value, k) == if k in m then CategoryFrom(k, Fragment(m, k)) else Category(None, None)
  {
    hide ColumnsAfter, KeysAfter, CategoryFrom, IndexesRows, IndexGroupsFrom, TriggerGroupsFrom;
    assert Plain(c).catalog == Built(n, NEW_CACHE, m).catalog;
  }

  lemma LoadedFields(n: Names, m: map<Kind, Patch>, c: Cache)
    requires Complete(m) && BuiltFrom(n, NEW_CACHE, m, c) && PrimaryKeys in m
    ensures Rows(c.schemaTables) == if Relations in m then Rows(Fragment(m, Relations).schemaTables) else map[]
    ensures Rows(c.foreignKeys) == if ForeignKeys in m then Rows(Fragment(m, ForeignKeys).foreignKeys) else map[]
    ensures c.dependencies == if Dependencies in m then Fragment(m, Dependencies).dependencies else None
    ensures c.primaryKeysByID == Fragment(m, PrimaryKeys).primaryKeysByID
    ensures Rows(c.primaryKeyColumns) == Rows(Fragment(m, PrimaryKeys).primaryKeyColumns)
    ensures MetadataReady(c, PrimaryKeys)
    ensures c.columnsByID == ColumnsAfter(n, NEW_CACHE, m, true) && c.columnsWithParent == ColumnsAfter(n, NEW_CACHE, m, false)
  {
    hide ColumnsAfter, CategoriesAfter, DerivedFrom, AnyCatalog;
    assert Plain(c) == Built(n, NEW_CACHE, m);
  }

  lemma LoadedColumns(n: Names, m: map<Kind, Patch>, c: Cache)
    requires PlainFragments(n, m) && BuiltFrom(n, NEW_CACHE, m, c) && PrimaryKeys in m
    ensures CanonicalColumns(n, c)
  {
    hide BuiltFrom, PlainFragment, ColumnsFoldedFrom, Enriched, FlaggedRow, TableRows, PlainTable;
    LoadedFields(n, m, c);
    var source := ColumnSource(NEW_CACHE, m);
    var keys := Rows(c.primaryKeyColumns);
    if source.Some? {
      var k := if ColumnsAll in m then ColumnsAll else ColumnsCurrent;
      assert PlainFragment(n, k, Fragment(m, k)) && source.value == Fragment(m, k);
      SourceColumns(n, k, source.value);
      EnrichedFolds(n, Rows(source.value.columnsByID), Rows(source.value.columnsWithParent), keys);
      FlaggedRows(n, c, Rows(source.value.columnsByID));
    } else {
      NoColumns(n);
    }
  }

  lemma SourceColumns(n: Names, k: Kind, f: Cache)
    requires PlainFragment(n, k, f) && (k == ColumnsAll || k == ColumnsCurrent)
    ensures TableRows(Rows(f.columnsByID)) && ColumnsFoldedFrom(n, Rows(f.columnsByID), Rows(f.columnsWithParent))
  {
  }

  lemma NoColumns(n: Names)
    ensures ColumnsFoldedFrom(n, map[], map[])
  {
    var ids: seq<string> := [];
    var none: map<string, Columns> := map[];
    assert ListsKeys(ids, none.Keys) && FileAll(n, ids, none) == map[];
  }

  lemma FlaggedRows(n: Names, c: Cache, cols: map<string, Columns>)
    requires TableRows(cols) && MetadataReady(c, PrimaryKeys) && Rows(c.columnsByID) == Enriched(n, true, cols, Rows(c.primaryKeyColumns))
    ensures forall key | key in Rows(c.columnsByID) :: PlainTable(key)
    ensures forall key, i | key in Rows(c.columnsByID) && 0 <= i < |Rows(c.columnsByID)[key]| :: FlaggedRow(n, c, key, Rows(c.columnsByID)[key][i])
  {
    forall key, i | key in Rows(c.columnsByID) && 0 <= i < |Rows(c.columnsByID)[key]| ensures FlaggedRow(n, c, key, Rows(c.columnsByID)[key][i]) {
      var col := cols[key][i];
      assert PlainTable(key) && ColumnRowOk(col, Parsed(key));
      FlagsAgreeExactly(n, c, Rows(c.primaryKeyColumns), key, col.value);
      assert Marked(n, true, key, col, Rows(c.primaryKeyColumns)) == Rows(c.columnsByID)[key][i];
    }
  }

  lemma RowsAreIdentities(cs: map<Kind, Category>, v: Option<IndexValue>)
    requires IndexesRows(v, cs) && forall k | Descriptor(k) :: PlainRows(k, Rows(CategoryIn(cs, k).exact))
    ensures v.Some? && IndexesCatalog(v.value, cs)
  {
    hide Represents, Key, PlainRows, DefaultFold, CatalogID;
    var ids :| Represents(v.value, ids, DefaultFold) && forall id :: id in ids <==> InCatalog(cs, id);
    forall id | id in ids ensures HasKey(cs, Key(id)) {
      var k, key :| Descriptor(k) && key in Rows(CategoryIn(cs, k).exact) &&
                    Rows(CategoryIn(cs, k).exact)[key].Some? && CatalogID(k, Rows(CategoryIn(cs, k).exact)[key].value) == id;
      PlainCatalogID(k, key, Rows(CategoryIn(cs, k).exact));
    }
    forall key | HasKey(cs, key) ensures exists id | id in ids :: Key(id) == key {
      var k :| Descriptor(k) && key in Rows(CategoryIn(cs, k).exact);
      PlainCatalogID(k, key, Rows(CategoryIn(cs, k).exact));
      var id := CatalogID(k, Rows(CategoryIn(cs, k).exact)[key].value);
      assert InCatalog(cs, id);
    }
  }

  lemma PlainCatalogID(k: Kind, key: string, rows: DescMap)
    requires Descriptor(k) && PlainRows(k, rows) && key in rows
    ensures rows[key].Some? && Key(CatalogID(k, rows[key].value)) == key
  {
    assert PlainRow(k, key, rows[key]);
  }

  lemma EmptyCategory(n: Names, k: Kind)
    ensures CanonicalCategory(n, k, Category(None, None))
  {
  }

  lemma LoadedCategory(n: Names, m: map<Kind, Patch>, c: CatalogCache, k: Kind)
    requires PlainFragments(n, m) && Descriptor(k)
    requires CategoryOf(c, k) == if k in m then CategoryFrom(k, Fragment(m, k)) else Category(None, None)
    ensures CanonicalCategory(n, k, CategoryOf(c, k))
    ensures k in m ==> PlainFragment(n, k, Fragment(m, k)) && ExactRows(c, k) == ExactRows(Header(Fragment(m, k)), k)
    ensures k in m && HasFoldedMap(k) ==> FoldedRows(c, k) == FoldedRows(Header(Fragment(m, k)), k)
    ensures k !in m ==> ExactRows(c, k) == map[] && FoldedRows(c, k) == map[]
  {
    hide FoldedFrom, PlainRows, CanonicalTables, TableRows, ColumnsFoldedFrom, CanonicalKeys, CanonicalFKs, CanonicalGraph;
    EmptyCategory(n, k);
    if k in m {
      assert PlainFragment(n, k, Fragment(m, k));
    }
  }

  lemma NoGroups(n: Names)
    ensures GroupedFrom(n, map[], map[])
  {
  }

  /** The catalog of a full load is canonical exactly when its index fragment shows every index. */
  lemma LoadedCatalog(n: Names, m: map<Kind, Patch>, c: Cache)
    requires PlainFragments(n, m) && BuiltFrom(n, NEW_CACHE, m, c) && c.catalog.Some?
    ensures Indexes in m ==> IndexGroupsFrom(n, Fragment(m, Indexes), c.catalog.value.indexesByTable)
    ensures Indexes in m ==> ExactRows(c.catalog.value, Indexes) == ExactRows(Header(Fragment(m, Indexes)), Indexes)
    ensures CanonicalCatalog(n, c.catalog.value) <==> (Indexes in m ==> IndexesShown(n, Fragment(m, Indexes)))
  {
    hide PlainFragment, CategoryFrom, IndexesRows, IndexesCatalog, CanonicalCategory, GroupedFrom, Built, IndexesShown;
    LoadedCategories(n, m, c);
    var catalog := c.catalog.value;
    forall k | Descriptor(k) ensures CanonicalCategory(n, k, CategoryOf(catalog, k)) { LoadedCategory(n, m, catalog, k); }
    forall k | Descriptor(k) ensures PlainRows(k, Rows(CategoryIn(catalog.categories, k).exact)) {
      PlainExact(n, k, CategoryOf(catalog, k));
    }
    RowsAreIdentities(catalog.categories, catalog.objects);
    LoadedCategory(n, m, catalog, Indexes);
    LoadedCategory(n, m, catalog, Triggers);
    NoGroups(n);
    if Indexes in m {
      assert PlainFragment(n, Indexes, Fragment(m, Indexes));
      assert IndexGroupsFrom(n, Fragment(m, Indexes), catalog.indexesByTable);
      IndexGroupsExactly(n, Fragment(m, Indexes), catalog.indexesByTable);
    }
  }

  lemma PlainExact(n: Names, k: Kind, c: Category)
    requires CanonicalCategory(n, k, c)
    ensures PlainRows(k, Rows(c.exact))
  {
  }

  lemma NoFKs(n: Names)
    ensures IndexesFKs(n, map[], [])
  {
  }

  lemma LoadedTables(n: Names, m: map<Kind, Patch>, c: Cache)
    requires PlainFragments(n, m) && BuiltFrom(n, NEW_CACHE, m, c) && PrimaryKeys in m
    ensures CanonicalTables(c)
  {
    LoadedFields(n, m, c);
    hide BuiltFrom, StrictlySorted;
    if Relations in m { assert PlainFragment(n, Relations, Fragment(m, Relations)); }
  }

  lemma LoadedKeys(n: Names, m: map<Kind, Patch>, c: Cache)
    requires PlainFragments(n, m) && BuiltFrom(n, NEW_CACHE, m, c) && PrimaryKeys in m
    ensures CanonicalKeys(n, c)
  {
    LoadedFields(n, m, c);
    hide BuiltFrom, PlainTable, KeysFoldedFrom;
    assert PlainFragment(n, PrimaryKeys, Fragment(m, PrimaryKeys));
  }

  lemma LoadedFKs(n: Names, m: map<Kind, Patch>, c: Cache)
    requires PlainFragments(n, m) && BuiltFrom(n, NEW_CACHE, m, c) && PrimaryKeys in m
    ensures CanonicalFKs(n, c)
  {
    LoadedFields(n, m, c);
    hide BuiltFrom, IndexesFKs;
    NoFKs(n);
    if ForeignKeys in m { assert PlainFragment(n, ForeignKeys, Fragment(m, ForeignKeys)); }
  }

  lemma LoadedGraph(n: Names, m: map<Kind, Patch>, c: Cache)
    requires PlainFragments(n, m) && BuiltFrom(n, NEW_CACHE, m, c) && PrimaryKeys in m
    ensures c.dependencies.Some? ==> CanonicalGraph(c.dependencies.value)
  {
    LoadedFields(n, m, c);
    hide BuiltFrom, CanonicalGraph;
    if Dependencies in m { assert PlainFragment(n, Dependencies, Fragment(m, Dependencies)); }
  }

  /** A full load is canonical exactly when its index fragment, if there is one, shows every index. */
  lemma FullLoadIsCanonical(n: Names, arrivals: seq<Arrival>, full: Cache)
    requires FullLoad(n, arrivals, full)
    ensures Complete(ByKind(arrivals))
    ensures Canonical(n, full) <==> (Has(arrivals, Indexes) ==> Indexes in ByKind(arrivals) && IndexesShown(n, Fragment(ByKind(arrivals), Indexes)))
  {
    hide CanonicalTables, CanonicalKeys, CanonicalColumns, CanonicalFKs, CanonicalGraph, CanonicalCatalog, BuiltFrom, MergesTo, PlainFragments, IndexesShown;
    var m := ByKind(arrivals);
    FoldBuilds(n, NEW_CACHE, arrivals, full);
    ByKindHas(arrivals, PrimaryKeys);
    ByKindHas(arrivals, Indexes);
    LoadedTables(n, m, full);
    LoadedKeys(n, m, full);
    LoadedFKs(n, m, full);
    LoadedGraph(n, m, full);
    LoadedColumns(n, m, full);
    LoadedCategories(n, m, full);
    NoneOfCatalog(m);
    if full.catalog.Some? {
      LoadedCatalog(n, m, full);
    }
  }

  /** The incremental merge against a reload of what it leads to.  A full load of the exact data that a
      merge leaves agrees with the merge on every projection, exactly when its index fragment, if there is
      one, shows every index. */
  lemma IncrementalEqualsFullLoad(n: Names, base: Cache, d: ObjectDelta, all: set<ObjectID>, next: Cache, arrivals: seq<Arrival>, full: Cache)
    requires Canonical(n, base) && MetadataReady(base, PrimaryKeys) && PlainDelta(d) && Merged(n, base, d, all, next)
    requires FullLoad(n, arrivals, full) && SameExactData(n, full, next)
    ensures Complete(ByKind(arrivals))
    ensures SameProjections(full, next) <==> (Has(arrivals, Indexes) ==> Indexes in ByKind(arrivals) && IndexesShown(n, Fragment(ByKind(arrivals), Indexes)))
  {
    hide Canonical, PlainDelta, Merged, FullLoad, SameExactData, SameProjections, IndexesShown;
    IncrementalEqualsRebuild(n, base, d, all, next);
    FullLoadIsCanonical(n, arrivals, full);
    if Canonical(n, full) {
      CanonicalIsDetermined(n, full, next);
    }
    if SameProjections(full, next) && Has(arrivals, Indexes) {
      SameGroupsShow(n, arrivals, full, next);
    }
  }

  lemma SameGroupsShow(n: Names, arrivals: seq<Arrival>, full: Cache, next: Cache)
    requires FullLoad(n, arrivals, full) && Has(arrivals, Indexes) && Canonical(n, next)
    requires SameExactData(n, full, next) && SameProjections(full, next)
    ensures Complete(ByKind(arrivals)) && Indexes in ByKind(arrivals) && IndexesShown(n, Fragment(ByKind(arrivals), Indexes))
  {
    hide CanonicalTables, CanonicalKeys, CanonicalColumns, CanonicalFKs, CanonicalGraph, BuiltFrom, MergesTo, IndexesShown, SameKeys, SameEdges, SameBareColumns, SameFKIndex, SameGraph, GroupedFrom, IndexGroupsFrom, IndexesCatalog, CanonicalCategory;
    var m := ByKind(arrivals);
    FoldBuilds(n, NEW_CACHE, arrivals, full);
    ByKindHas(arrivals, Indexes);
    LoadedCategories(n, m, full);
    NoneOfCatalog(m);
    LoadedCatalog(n, m, full);
    assert PlainFragment(n, Indexes, Fragment(m, Indexes));
    IndexGroupsExactly(n, Fragment(m, Indexes), full.catalog.value.indexesByTable);
  }
}
