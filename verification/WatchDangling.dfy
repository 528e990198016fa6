/** After a merge nothing refers to a dropped table or view, and nothing can bring one back. */
module WatchDangling {
  import opened Wrappers
  import opened Identity
  import opened ObjectIndexes
  import opened CatalogTypes
  import opened Sorting
  import opened Dependencies
  import opened WatchSpec
  import opened WatchCatalog
  import opened WatchColumns
  import opened WatchCanonical
  import opened WatchProjections
  import opened WatchMerge
  import opened WatchTheorems

  /** A table or view of this name was deleted, explicitly or by an empty covered owner. */
  ghost predicate Dropped(all: set<ObjectID>, name: string) {
    RelationDeleted(all, "", name)
  }

  predicate OnRelation(k: Kind, v: Option<Desc>, name: string) {
    v.Some? && Identify(k, v.value).1 == name
  }

  ghost predicate InGroups(groups: Option<map<string, seq<Option<Desc>>>>, v: Option<Desc>) {
    exists g | g in Rows(groups) :: v in Rows(groups)[g]
  }

  // ----- relations, keys and columns

  lemma NoMembership(base: Cache, d: ObjectDelta, all: set<ObjectID>, next: Cache, name: string)
    requires RelationsMergeable(base, d, all) && RelationsMerged(base, d, all, next.schemaTables) && Dropped(all, name)
    ensures name !in SchemaRows(Rows(next.schemaTables), "")
  {
    TablesAreApplied(base, d, all, next);
    assert RelationsTouched(d, all);
    assert forall s | s in PatchTables(d) :: forall other | other in PatchTables(d)[s] :: !RelationDeleted(all, s, other);
  }

  lemma NoKeyEntry<V>(m: map<string, V>, owners: seq<ObjectID>, patch: map<string, V>, all: set<ObjectID>, key: string, name: string)
    requires key in ReplacedKeys(m, owners, patch, all) && Parses(key) && Parsed(key).schema == "" && Dropped(all, name)
    ensures Parsed(key).name != name
  {
    assert !KeyDeleted(all, key);
  }

  lemma NoColumnEntry(base: Cache, d: ObjectDelta, all: set<ObjectID>, key: string, name: string)
    requires key in UnflaggedColumns(base, d, all) && Parses(key) && Parsed(key).schema == "" && Dropped(all, name)
    ensures Parsed(key).name != name
  {
    assert !KeyDeleted(all, key);
  }

  lemma {:induction false} FiledRows(n: Names, m: map<string, Columns>, cols: Columns, f: string, c: Option<Column>)
    requires f in FileColumns(n, m, cols) && c in FileColumns(n, m, cols)[f]
    ensures (f in m && c in m[f]) || c in cols
  {
    if cols != [] {
      var front := FileColumns(n, m, cols[..|cols| - 1]);
      if f in front && c in front[f] {
        FiledRows(n, m, cols[..|cols| - 1], f, c);
      }
    }
  }

  /** Every row of the folded column map is a row of some relation. */
  lemma {:induction false} FoldedRowOrigin(n: Names, ids: seq<string>, cols: map<string, Columns>, f: string, c: Option<Column>)
    requires forall id | id in ids :: id in cols
    requires f in FileAll(n, ids, cols) && c in FileAll(n, ids, cols)[f]
    ensures exists id | id in ids :: c in cols[id]
  {
    if ids != [] {
      var front, last := ids[..|ids| - 1], ids[|ids| - 1];
      FiledRows(n, FileAll(n, front, cols), cols[last], f, c);
      if c !in cols[last] {
        FoldedRowOrigin(n, front, cols, f, c);
      }
    }
  }

  lemma NoFoldedColumn(n: Names, next: Cache, name: string, f: string, c: Option<Column>)
    requires CanonicalColumns(n, next)
    requires forall key | key in Rows(next.columnsByID) :: Parsed(key).name != name
    requires f in Rows(next.columnsWithParent) && c in Rows(next.columnsWithParent)[f]
    ensures c.Some? && c.value.table != name
  {
    hide KeyOrderLess, Parses, Parsed, PlainTable, KeyFlag, FileAll;
    var cols := Rows(next.columnsByID);
    var ids :| ListsKeys(ids, cols.Keys) && Rows(next.columnsWithParent) == FileAll(n, ids, cols);
    FoldedRowOrigin(n, ids, cols, f, c);
    var id :| id in ids && c in cols[id];
    var i :| 0 <= i < |cols[id]| && cols[id][i] == c;
    assert FlaggedRow(n, next, id, Rows(next.columnsByID)[id][i]);
  }

  // ----- indexes and triggers

  lemma NoStruckRow(base: CatalogCache, d: ObjectDelta, known: set<ObjectID>, k: Kind, key: string)
    requires k != Views && CategoryReplaceable(base, d, known, k)
    requires key in ReplacedRows(k, ExactRows(base, k), Rows(PatchCategory(d, k).exact), OwnersOf(d, k), known)
    ensures var v := ReplacedRows(k, ExactRows(base, k), Rows(PatchCategory(d, k).exact), OwnersOf(d, k), known)[key];
            v.Some? && !Struck(k, v.value, known)
  {
    var patch := Rows(PatchCategory(d, k).exact);
    if key in patch {
      assert CategoryTouched(base, d, known, k);
      assert ReplacementOk(k, key, patch[key], OwnersOf(d, k), known);
    }
  }

  lemma KnownDrop(n: Names, base: Cache, d: ObjectDelta, all: set<ObjectID>, name: string)
    requires DeltaShape(d) && CatalogMergeable(BaseCatalog(base), d, KnownDeleted(d))
    requires AllDeleted(base, d, KnownDeleted(d), all)
    requires base.catalog.Some? ==> CanonicalCatalog(n, base.catalog.value)
    requires Dropped(all, name)
    ensures RelationDeleted(KnownDeleted(d), "", name)
  {
    var gone := if TableID("", name) in all then TableID("", name) else PlainID(VIEW, "", name);
    RemovedRelationsWereKnown(n, base, d, all, gone);
  }

  /** No remaining index or trigger is on a dropped relation. */
  lemma NoRowOn(base: Cache, d: ObjectDelta, k: Kind, key: string, name: string)
    requires DeltaShape(d) && CategoryReplaceable(BaseCatalog(base), d, KnownDeleted(d), k)
    requires RelationDeleted(KnownDeleted(d), "", name)
    requires (k == Indexes || k == Triggers) && key in ReplacedCategory(base, d, k)
    requires PlainRow(k, key, ReplacedCategory(base, d, k)[key])
    ensures !OnRelation(k, ReplacedCategory(base, d, k)[key], name)
  {
    NoStruckRow(BaseCatalog(base), d, KnownDeleted(d), k, key);
  }

  lemma GroupRowsAreRows(n: Names, rows: DescMap, groups: map<string, seq<Option<Desc>>>, g: string, v: Option<Desc>)
    requires GroupedFrom(n, rows, groups) && g in groups && v in groups[g]
    ensures v in rows.Values
  {
    assert v in multiset(groups[g]);
    assert GroupCounts(n, rows, g, groups[g]);
    assert |RowsEqual(rows, v)| > 0;
    var key :| key in RowsEqual(rows, v);
  }

  // ----- foreign keys and dependencies

  lemma NoEndOn(base: Cache, d: ObjectDelta, all: set<ObjectID>, fk: ForeignKey, name: string)
    requires FKMergeable(base, d, all) && FKTouched(d, all) && RemainingFK(base, d, all, fk) && Dropped(all, name)
    ensures FKOk(Some(fk))
    ensures !(LeftEnd(fk).schema == "" && LeftEnd(fk).table == name) && !(RightEnd(fk).schema == "" && RightEnd(fk).table == name)
  {
    if p: ForeignKey :| Mentions(PatchFKs(d), Some(p)) && fk == CopyFK(p) {
      assert FKOk(Some(p)) && !FKGone(all, p);
    } else {
      assert !FKGone(all, fk);
    }
  }

  lemma NoEdgeTo(base: Cache, d: ObjectDelta, all: set<ObjectID>, next: Cache, tables: map<string, seq<string>>, systemRelations: DescMap, e: DependencyEdge)
    requires DependenciesMergeable(base, d, all, tables, systemRelations) && DependenciesMerged(base, d, all, next.dependencies)
    requires next.dependencies.Some? && e in next.dependencies.value.edges && all != {}
    ensures !RefGone(all, e.from) && !RefGone(all, e.to)
  {
    if e !in d.dependencyEdges {
      assert KeptEdge(d, all, e);
    }
  }

  lemma NoChecksOf(base: Cache, d: ObjectDelta, all: set<ObjectID>, next: Cache, tables: map<string, seq<string>>, systemRelations: DescMap, name: string)
    requires DependenciesMergeable(base, d, all, tables, systemRelations) && DependenciesMerged(base, d, all, next.dependencies)
    requires next.dependencies.Some? && Dropped(all, name)
    ensures name !in next.dependencies.value.checks
  {
    assert TableID("", name) in all || PlainID(VIEW, "", name) in all;
    assert CheckDropped(all, name);
    assert name !in BaseChecks(base.dependencies.value, all);
    assert name !in d.checkNames;
  }

  /** A reference is to the relation `name`, or to a column or constraint of it. */
  predicate RefersTo(all: set<ObjectID>, r: DependencyRef, name: string) {
    || (r.kind == TABLE && r.name == name)
    || (r.kind == VIEW && r.name == name && PlainID(VIEW, "", name) in all)
    || r.parent == name
  }

  lemma RefersIsGone(all: set<ObjectID>, r: DependencyRef, name: string)
    requires Dropped(all, name) && RefersTo(all, r, name)
    ensures RefGone(all, r)
  {
    var id := if PlainID(VIEW, "", name) in all then PlainID(VIEW, "", name) else TableID("", name);
    assert id in all && RefGoneBy(id, r);
  }

  // ----- the whole cache

  ghost predicate NoTable(name: string, next: Cache) {
    && name !in SchemaRows(Rows(next.schemaTables), "")
    && (forall key | key in Rows(next.columnsByID) :: Parses(key) && Parsed(key).name != name)
    && (forall key | key in Rows(next.primaryKeysByID) :: Parses(key) && Parsed(key).name != name)
    && (forall f | f in Rows(next.columnsWithParent) :: forall c: Option<Column> | c in Rows(next.columnsWithParent)[f] :: c.Some? && c.value.table != name)
  }

  ghost predicate NoIndexOrTrigger(name: string, c: CatalogCache) {
    && (forall key | key in ExactRows(c, Indexes) :: !OnRelation(Indexes, ExactRows(c, Indexes)[key], name))
    && (forall key | key in ExactRows(c, Triggers) :: !OnRelation(Triggers, ExactRows(c, Triggers)[key], name))
    && (forall v | InGroups(c.indexesByTable, v) :: !OnRelation(Indexes, v, name))
    && (forall v | InGroups(c.triggersByTable, v) :: !OnRelation(Triggers, v, name))
  }

  ghost predicate NoForeignKey(name: string, next: Cache) {
    forall fk | Mentions(Rows(next.foreignKeys), fk) ::
      FKOk(fk) && !(LeftEnd(fk.value).schema == "" && LeftEnd(fk.value).table == name)
               && !(RightEnd(fk.value).schema == "" && RightEnd(fk.value).table == name)
  }

  ghost predicate NoDependency(name: string, all: set<ObjectID>, next: Cache) {
    next.dependencies.Some? ==>
      && name !in next.dependencies.value.checks
      && forall e | e in next.dependencies.value.edges :: !RefersTo(all, e.from, name) && !RefersTo(all, e.to, name)
  }

  lemma CatalogHasNone(n: Names, base: Cache, d: ObjectDelta, all: set<ObjectID>, next: Cache, name: string)
    requires DeltaShape(d) && CatalogMergeable(BaseCatalog(base), d, KnownDeleted(d))
    requires RelationDeleted(KnownDeleted(d), "", name)
    requires next.catalog.Some? && CanonicalCatalog(n, next.catalog.value)
    requires forall k | k == Indexes || k == Triggers :: ExactRows(next.catalog.value, k) == ReplacedCategory(base, d, k)
    ensures NoIndexOrTrigger(name, next.catalog.value)
  {
    var c := next.catalog.value;
    forall k, key | (k == Indexes || k == Triggers) && key in ExactRows(c, k) ensures !OnRelation(k, ExactRows(c, k)[key], name) {
      assert CategoryReplaceable(BaseCatalog(base), d, KnownDeleted(d), k);
      assert CanonicalCategory(n, k, CategoryOf(c, k));
      assert PlainRow(k, key, ExactRows(c, k)[key]);
      NoRowOn(base, d, k, key, name);
    }
    GroupsHaveNone(n, c, name);
  }

  lemma GroupHasNone(n: Names, k: Kind, rows: DescMap, groups: Option<map<string, seq<Option<Desc>>>>, name: string)
    requires GroupedFrom(n, rows, Rows(groups))
    requires forall v | v in rows.Values :: !OnRelation(k, v, name)
    ensures forall v | InGroups(groups, v) :: !OnRelation(k, v, name)
  {
    forall v | InGroups(groups, v) ensures !OnRelation(k, v, name) {
      var g :| g in Rows(groups) && v in Rows(groups)[g];
      GroupRowsAreRows(n, rows, Rows(groups), g, v);
    }
  }

  lemma GroupsHaveNone(n: Names, c: CatalogCache, name: string)
    requires CanonicalCatalog(n, c)
    requires forall k, key | (k == Indexes || k == Triggers) && key in ExactRows(c, k) :: !OnRelation(k, ExactRows(c, k)[key], name)
    ensures forall v | InGroups(c.indexesByTable, v) :: !OnRelation(Indexes, v, name)
    ensures forall v | InGroups(c.triggersByTable, v) :: !OnRelation(Triggers, v, name)
  {
    GroupHasNone(n, Indexes, ExactRows(c, Indexes), c.indexesByTable, name);
    assert CanonicalCategory(n, Triggers, CategoryOf(c, Triggers));
    forall v | v in FoldedRows(c, Triggers).Values ensures !OnRelation(Triggers, v, name) {
      assert v in ExactRows(c, Triggers).Values;
    }
    GroupHasNone(n, Triggers, FoldedRows(c, Triggers), c.triggersByTable, name);
  }

  lemma TablesHaveNone(n: Names, base: Cache, d: ObjectDelta, all: set<ObjectID>, next: Cache, name: string)
    requires RelationsMergeable(base, d, all) && RelationsMerged(base, d, all, next.schemaTables) && Dropped(all, name)
    requires CanonicalColumns(n, next) && CanonicalKeys(n, next)
    requires Rows(next.columnsByID).Keys == UnflaggedColumns(base, d, all).Keys
    requires Rows(next.primaryKeysByID) == MergedKeys(base, d, all)
    ensures NoTable(name, next)
  {
    NoMembership(base, d, all, next, name);
    forall key | key in Rows(next.columnsByID) ensures Parses(key) && Parsed(key).name != name {
      assert PlainTable(key);
      NoColumnEntry(base, d, all, key, name);
    }
    forall key | key in Rows(next.primaryKeysByID) ensures Parses(key) && Parsed(key).name != name {
      assert PlainTable(key);
      NoKeyEntry(Rows(base.primaryKeysByID), OwnersOf(d, PrimaryKeys), PatchKeys(d), all, key, name);
    }
    forall f, c: Option<Column> | f in Rows(next.columnsWithParent) && c in Rows(next.columnsWithParent)[f] ensures c.Some? && c.value.table != name {
      NoFoldedColumn(n, next, name, f, c);
    }
  }

  lemma DependenciesHaveNone(base: Cache, d: ObjectDelta, all: set<ObjectID>, next: Cache, tables: map<string, seq<string>>, systemRelations: DescMap, name: string)
    requires DependenciesMergeable(base, d, all, tables, systemRelations) && DependenciesMerged(base, d, all, next.dependencies)
    requires Dropped(all, name)
    ensures NoDependency(name, all, next)
  {
    assert TableID("", name) in all || PlainID(VIEW, "", name) in all;
    if next.dependencies.Some? {
      NoChecksOf(base, d, all, next, tables, systemRelations, name);
      forall e | e in next.dependencies.value.edges ensures !RefersTo(all, e.from, name) && !RefersTo(all, e.to, name) {
        NoEdgeTo(base, d, all, next, tables, systemRelations, e);
        if RefersTo(all, e.from, name) { RefersIsGone(all, e.from, name); }
        if RefersTo(all, e.to, name) { RefersIsGone(all, e.to, name); }
      }
    }
  }

  /** After a successful merge of a schema-less delta, a dropped table or view has no membership, no
      column or key entry, no foreign key end, no index, trigger or group row on it, no check list
      and no dependency edge to it or to a column or constraint of it. */
  lemma NoDanglingReferences(n: Names, base: Cache, d: ObjectDelta, all: set<ObjectID>, next: Cache, name: string)
    requires Canonical(n, base) && MetadataReady(base, PrimaryKeys) && PlainDelta(d)
    requires Merged(n, base, d, all, next) && Dropped(all, name)
    ensures NoTable(name, next)
    ensures next.catalog.Some? ==> NoIndexOrTrigger(name, next.catalog.value)
    ensures NoForeignKey(name, next)
    ensures NoDependency(name, all, next)
  {
    hide PlainDelta, Merged, Dropped, CanonicalCatalog, CanonicalTables, CanonicalKeys, CanonicalColumns, CanonicalFKs, CanonicalGraph, NoTable, NoIndexOrTrigger, NoForeignKey, NoDependency, CatalogMergeable, AllDeleted, RelationsMergeable, RelationsMerged, FKMergeable, DependenciesMergeable, DependenciesMerged, DeltaShape;
    assert NoTable(name, next) && NoForeignKey(name, next) && NoDependency(name, all, next) by {
      MergedFacts(n, base, d, all, next);
      IncrementalEqualsRebuild(n, base, d, all, next);
      ProjectionsHaveNone(n, base, d, all, next, name);
    }
    assert next.catalog.Some? ==> NoIndexOrTrigger(name, next.catalog.value) by {
      MergedFacts(n, base, d, all, next);
      IncrementalEqualsRebuild(n, base, d, all, next);
      CatalogDropsAll(n, base, d, all, next, name);
    }
  }

  lemma MergedFacts(n: Names, base: Cache, d: ObjectDelta, all: set<ObjectID>, next: Cache)
    requires Merged(n, base, d, all, next)
    ensures DeltaShape(d) && StagesDone(base, d, all, next)
  {
    var mid: Cache, full: Cache :| MergedVia(n, base, d, all, mid, full, next);
    StageFacts(n, base, d, all, mid, full, next);
  }

  ghost predicate StagesDone(base: Cache, d: ObjectDelta, all: set<ObjectID>, next: Cache)
    requires DeltaShape(d)
  {
    && CatalogMergeable(BaseCatalog(base), d, KnownDeleted(d)) && AllDeleted(base, d, KnownDeleted(d), all)
    && RelationsMergeable(base, d, all) && RelationsMerged(base, d, all, next.schemaTables)
    && FKMergeable(base, d, all)
    && DependenciesMergeable(base, d, all, Rows(next.schemaTables), NextSystemRelations(base, d))
    && DependenciesMerged(base, d, all, next.dependencies)
  }

  lemma ProjectionsHaveNone(n: Names, base: Cache, d: ObjectDelta, all: set<ObjectID>, next: Cache, name: string)
    requires DeltaShape(d) && StagesDone(base, d, all, next) && Dropped(all, name)
    requires CanonicalColumns(n, next) && CanonicalKeys(n, next) && Applied(n, base, d, all, next)
    ensures NoTable(name, next) && NoForeignKey(name, next) && NoDependency(name, all, next)
  {
    hide DeltaShape, Dropped, CanonicalKeys, CanonicalColumns, NoTable, NoForeignKey, NoDependency, CatalogMergeable, AllDeleted, FKMergeable, DependenciesMergeable, DependenciesMerged, RelationsMergeable;
    TablesHaveNone(n, base, d, all, next, name);
    FKsHaveNone(base, d, all, next, name);
    DependenciesHaveNone(base, d, all, next, Rows(next.schemaTables), NextSystemRelations(base, d), name);
  }

  ghost function NextSystemRelations(base: Cache, d: ObjectDelta): DescMap
    requires DeltaShape(d)
  {
    Rows(NextExact(BaseCatalog(base), d, KnownDeleted(d), SystemRelations))
  }

  lemma StageFacts(n: Names, base: Cache, d: ObjectDelta, all: set<ObjectID>, mid: Cache, full: Cache, next: Cache)
    requires MergedVia(n, base, d, all, mid, full, next)
    ensures DeltaShape(d) && StagesDone(base, d, all, next)
  {
    hide DeltaShape, CatalogMergeable, AllDeleted, RelationsMergeable, RelationsMerged, FKMergeable, DependenciesMergeable, DependenciesMerged, ColumnsMergeable, FKMerged, ExactMerged, FoldedKeysMerged, ColumnsFoldedFrom, ViewsRefreshed;
  }

  lemma CatalogDropsAll(n: Names, base: Cache, d: ObjectDelta, all: set<ObjectID>, next: Cache, name: string)
    requires DeltaShape(d) && CatalogMergeable(BaseCatalog(base), d, KnownDeleted(d))
    requires AllDeleted(base, d, KnownDeleted(d), all) && Dropped(all, name)
    requires base.catalog.Some? ==> CanonicalCatalog(n, base.catalog.value)
    requires next.catalog.Some? ==> CanonicalCatalog(n, next.catalog.value)
    requires forall k | k == Indexes || k == Triggers :: ExactRows(BaseCatalog(next), k) == ReplacedCategory(base, d, k)
    ensures next.catalog.Some? ==> NoIndexOrTrigger(name, next.catalog.value)
  {
    hide DeltaShape, Dropped, CanonicalCatalog, NoIndexOrTrigger, CatalogMergeable, AllDeleted;
    KnownDrop(n, base, d, all, name);
    if next.catalog.Some? {
      CatalogHasNone(n, base, d, all, next, name);
    }
  }

  lemma FKsHaveNone(base: Cache, d: ObjectDelta, all: set<ObjectID>, next: Cache, name: string)
    requires FKMergeable(base, d, all) && Dropped(all, name)
    requires forall fk :: Mentions(Rows(next.foreignKeys), fk) <==> fk.Some? && RemainingFK(base, d, all, fk.value)
    ensures NoForeignKey(name, next)
  {
    assert TableID("", name) in all || PlainID(VIEW, "", name) in all;
    forall fk | Mentions(Rows(next.foreignKeys), fk)
      ensures FKOk(fk) && !(LeftEnd(fk.value).schema == "" && LeftEnd(fk.value).table == name)
                       && !(RightEnd(fk.value).schema == "" && RightEnd(fk.value).table == name)
    {
      NoEndOn(base, d, all, fk.value, name);
    }
  }

  /** The patch would list a dropped relation again, or give it columns, keys, a foreign key, a check list or
      a dependency edge; or, if it was known to be dropped before the catalog is merged, an index, a
      trigger or its view. */
  ghost predicate Resurrects(d: ObjectDelta, all: set<ObjectID>, name: string)
    requires DeltaShape(d)
  {
    || name in SchemaRows(PatchTables(d), "")
    || (exists k, key | k == ColumnsCurrent || k == ColumnsAll :: key in PatchColumns(d, k) && key == Key(TableID("", name)) && PatchColumns(d, k)[key] != [])
    || (exists key :: key in PatchKeys(d) && key == Key(TableID("", name)) && PatchKeys(d)[key] != [])
    || (exists fk :: Mentions(PatchFKs(d), fk) && FKOk(fk) && (LeftEnd(fk.value) == ColumnBase("", name, LeftEnd(fk.value).name) ||
                                                             RightEnd(fk.value) == ColumnBase("", name, RightEnd(fk.value).name)))
    || name in d.checkNames
    || (exists e | e in d.dependencyEdges :: RefersTo(all, e.from, name) || RefersTo(all, e.to, name))
    || (exists k, key | Descriptor(k) && key in Rows(PatchCategory(d, k).exact) :: Revives(k, Rows(PatchCategory(d, k).exact)[key], KnownDeleted(d), name))
  }

  /** A row on a relation that is known to be dropped, or the dropped view itself. */
  predicate Revives(k: Kind, v: Option<Desc>, known: set<ObjectID>, name: string) {
    && v.Some? && v.value.schema == ""
    && (|| ((k == Indexes || k == Triggers) && OnRelation(k, v, name) && RelationDeleted(known, "", name))
        || (k == Views && v.value.name == name && PlainID(VIEW, "", name) in known))
  }

  /** Such a patch is always rejected. */
  lemma ResurrectionIsRejected(n: Names, base: Cache, d: ObjectDelta, all: set<ObjectID>, name: string)
    requires DeltaShape(d) && AllDeleted(base, d, KnownDeleted(d), all)
    requires name != "" && Dropped(all, name) && Resurrects(d, all, name)
    ensures !Acceptable(n, base, d)
  {
    hide Resurrects, Dropped, CatalogMergeable, DependenciesMergeable, RelationsMergeable, ColumnsMergeable, FKMergeable, RelationsMerged, DeltaOk, AllDeleted, RemovalsParse, DeltaShape;
    if other: set<ObjectID>, tables: Option<map<string, seq<string>>> :| Accepts(n, base, d, other, tables) {
      OneAllDeleted(base, d, KnownDeleted(d), all, other);
      NothingResurrected(n, base, d, all, name, tables);
    }
  }

  lemma NothingResurrected(n: Names, base: Cache, d: ObjectDelta, all: set<ObjectID>, name: string, tables: Option<map<string, seq<string>>>)
    requires DeltaShape(d) && name != "" && Dropped(all, name) && Accepts(n, base, d, all, tables)
    ensures !Resurrects(d, all, name)
  {
    hide CatalogMergeable, DependenciesMergeable, RelationsMergeable, ColumnsMergeable, FKMergeable, RelationsMerged, DeltaOk, AllDeleted, RemovalsParse, RefersTo, Revives;
    assert AnyRelation(all) by { assert TableID("", name) in all || PlainID(VIEW, "", name) in all; }
    NothingListed(n, base, d, all, name);
    NothingLinked(base, d, all, name, Rows(tables), Rows(NextExact(BaseCatalog(base), d, KnownDeleted(d), SystemRelations)));
    forall k, key | Descriptor(k) && key in Rows(PatchCategory(d, k).exact) ensures !Revives(k, Rows(PatchCategory(d, k).exact)[key], KnownDeleted(d), name) {
      NothingRevived(base, d, k, key, name);
    }
  }

  lemma NothingListed(n: Names, base: Cache, d: ObjectDelta, all: set<ObjectID>, name: string)
    requires AnyRelation(all) && name != "" && Dropped(all, name)
    requires RelationsMergeable(base, d, all) && ColumnsMergeable(n, base, d, all) && FKMergeable(base, d, all)
    ensures name !in SchemaRows(PatchTables(d), "")
    ensures forall k, key | k == ColumnsCurrent || k == ColumnsAll :: key in PatchColumns(d, k) && key == Key(TableID("", name)) ==> PatchColumns(d, k)[key] == []
    ensures forall key :: key in PatchKeys(d) && key == Key(TableID("", name)) ==> PatchKeys(d)[key] == []
    ensures forall fk | Mentions(PatchFKs(d), fk) && FKOk(fk) ::
              LeftEnd(fk.value) != ColumnBase("", name, LeftEnd(fk.value).name) && RightEnd(fk.value) != ColumnBase("", name, RightEnd(fk.value).name)
  {
    ParseKeyInverts(TableID("", name));
    var key := Key(TableID("", name));
    forall k | (k == ColumnsCurrent || k == ColumnsAll) && key in PatchColumns(d, k) ensures PatchColumns(d, k)[key] == [] {
      assert EntryOk(d.owners[k], all, GoodColumns, [], key, PatchColumns(d, k)[key]);
    }
    assert key in PatchKeys(d) ==> EntryOk(d.owners[PrimaryKeys], all, GoodKeys, [], key, PatchKeys(d)[key]);
  }

  lemma NothingLinked(base: Cache, d: ObjectDelta, all: set<ObjectID>, name: string, tables: map<string, seq<string>>, systemRelations: DescMap)
    requires Dropped(all, name) && DependenciesMergeable(base, d, all, tables, systemRelations)
    ensures name !in d.checkNames
    ensures forall e | e in d.dependencyEdges :: !RefersTo(all, e.from, name) && !RefersTo(all, e.to, name)
  {
    forall e | e in d.dependencyEdges ensures !RefersTo(all, e.from, name) && !RefersTo(all, e.to, name) {
      if RefersTo(all, e.from, name) { RefersIsGone(all, e.from, name); }
      if RefersTo(all, e.to, name) { RefersIsGone(all, e.to, name); }
    }
  }

  lemma PatchRowsAreOk(b: CatalogCache, d: ObjectDelta, known: set<ObjectID>, k: Kind, key: string)
    requires CategoryReplaceable(b, d, known, k) && key in Rows(PatchCategory(d, k).exact)
    ensures ReplacementOk(k, key, Rows(PatchCategory(d, k).exact)[key], OwnersOf(d, k), known)
  {
    hide ReplacementOk, Struck;
    assert CategoryTouched(b, d, known, k);
  }

  lemma FineRowRevivesNothing(k: Kind, key: string, v: Option<Desc>, owners: seq<ObjectID>, known: set<ObjectID>, name: string)
    requires ReplacementOk(k, key, v, owners, known)
    ensures !Revives(k, v, known, name)
  {
    hide Key, CoveredRow;
  }

  lemma NothingRevived(base: Cache, d: ObjectDelta, k: Kind, key: string, name: string)
    requires DeltaShape(d) && Descriptor(k) && CatalogMergeable(BaseCatalog(base), d, KnownDeleted(d)) && key in Rows(PatchCategory(d, k).exact)
    ensures !Revives(k, Rows(PatchCategory(d, k).exact)[key], KnownDeleted(d), name)
  {
    hide CategoryReplaceable, ReplacementOk, Revives, DeltaShape, KnownDeleted;
    PatchRowsAreOk(BaseCatalog(base), d, KnownDeleted(d), k, key);
    FineRowRevivesNothing(k, key, Rows(PatchCategory(d, k).exact)[key], OwnersOf(d, k), KnownDeleted(d), name);
  }
}
