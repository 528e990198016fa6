/** What a merge leaves alone: nothing changes that the delta does not own or delete. */
module WatchFrame {
  import opened Wrappers
  import opened Identity
  import opened ObjectIndexes
  import opened CatalogTypes
  import opened Sorting
  import opened Dependencies
  import opened WatchSpec
  import opened WatchColumns
  import opened WatchCanonical
  import opened WatchProjections
  import opened WatchMerge
  import opened WatchDetermined
  import opened WatchTheorems
  import opened WatchContents

  function Entry<V>(m: map<string, V>, key: string): Option<V> {
    if key in m then Some(m[key]) else None
  }

  // ----- rows

  /** An accepted patch row is filed under its own identity, and the delta owns it. */
  lemma PatchRowsAreOwned(base: Cache, d: ObjectDelta, k: Kind, key: string)
    requires DeltaShape(d) && Descriptor(k) && CatalogMergeable(BaseCatalog(base), d, KnownDeleted(d)) && key in Rows(PatchCategory(d, k).exact)
    ensures var v := Rows(PatchCategory(d, k).exact)[key];
            v.Some? && key == Key(IdentityOf(k, v.value)) && Taken(d, k, v.value) && !Struck(k, v.value, KnownDeleted(d))
  {
    hide DeltaShape, KnownDeleted, Struck, Taken, CoveredRow;
    assert k in d.patches;
    assert CategoryReplaceable(BaseCatalog(base), d, KnownDeleted(d), k);
    var v := Rows(PatchCategory(d, k).exact)[key];
    assert ReplacementOk(k, key, v, OwnersOf(d, k), KnownDeleted(d));
    StaysUnlessTaken(d, k, v.value);
  }

  /** A folded row of an accepted patch is owned too, and has an exact row of its identity. */
  lemma FoldedPatchRowsAreOwned(base: Cache, d: ObjectDelta, k: Kind, f: string)
    requires DeltaShape(d) && Descriptor(k) && HasFoldedMap(k) && CatalogMergeable(BaseCatalog(base), d, KnownDeleted(d)) && f in Rows(PatchCategory(d, k).folded)
    ensures var v := Rows(PatchCategory(d, k).folded)[f];
            && v.Some? && Taken(d, k, v.value)
            && Key(IdentityOf(k, v.value)) in Rows(PatchCategory(d, k).exact) && Rows(PatchCategory(d, k).exact)[Key(IdentityOf(k, v.value))].Some?
  {
    hide DeltaShape, KnownDeleted, Struck, Taken, CoveredRow;
    assert k in d.patches;
    assert CategoryReplaceable(BaseCatalog(base), d, KnownDeleted(d), k);
    var v := Rows(PatchCategory(d, k).folded)[f];
    assert f in Legacy(k, PatchCategory(d, k));
    assert LegacyRowOk(k, v, OwnersOf(d, k), Rows(PatchCategory(d, k).exact));
    StaysUnlessTaken(d, k, v.value);
  }

  /** The delta owns or deletes the row that stands under this key before or after. */
  ghost predicate Claims(d: ObjectDelta, k: Kind, was: DescMap, now: DescMap, key: string)
    requires DeltaShape(d)
  {
    || (key in was && was[key].Some? && Taken(d, k, was[key].value))
    || (key in now && now[key].Some? && Taken(d, k, now[key].value))
  }

  /** A row that the delta neither owns nor deletes is the same before and after; of a view that holds for all
      but its columns, and for those too unless the delta speaks of the relation. */
  lemma RowsOutside(n: Names, base: Cache, d: ObjectDelta, all: set<ObjectID>, next: Cache, k: Kind, key: string)
    requires Merged(n, base, d, all, next) && Descriptor(k)
    ensures DeltaShape(d)
    ensures var was, now := ExactRows(BaseCatalog(base), k), ExactRows(BaseCatalog(next), k);
            !Claims(d, k, was, now, key) ==>
              if k == Views && key in was && was[key].Some? then
                && key in now && now[key].Some? && now[key].value.(columns := was[key].value.columns) == was[key].value
                && (!Spoken(n, base, d, all, next, was[key].value.schema, was[key].value.name) ==> now[key] == was[key])
              else (key in was ==> was[key].Some?) && Entry(now, key) == Entry(was, key)
  {
    hide DeltaShape, CatalogMergeable, CatalogMerged, RelationsMergeable, RelationsMerged, ColumnsMergeable, ColumnsMerged, FKMergeable, FKMerged, DependenciesMergeable, DependenciesMerged, AllDeleted, RemovalsParse, Spoken, Taken, Struck, MergedView;
    var mid: Cache, full: Cache :| MergedVia(n, base, d, all, mid, full, next);
    MergedRows(n, base, d, all, next, k, key);
    BaseRowsAreThere(base, d, k);
    if key in Rows(PatchCategory(d, k).exact) {
      PatchRowsAreOwned(base, d, k, key);
      PatchRowStays(n, base, d, all, next, k, key);
    } else if k == Views && Source(base, d, k, key).Some? {
      ViewStays(n, base, d, all, next, Source(base, d, k, key).value, ExactRows(BaseCatalog(next), k)[key].value);
    }
  }

  lemma BaseRowsAreThere(base: Cache, d: ObjectDelta, k: Kind)
    requires DeltaShape(d) && Descriptor(k) && CatalogMergeable(BaseCatalog(base), d, KnownDeleted(d))
    ensures NoNil(ExactRows(BaseCatalog(base), k))
  {
    hide DeltaShape, KnownDeleted, RowsReplaceable, Touched;
    assert CategoryReplaceable(BaseCatalog(base), d, KnownDeleted(d), k);
  }

  lemma PatchRowStays(n: Names, base: Cache, d: ObjectDelta, all: set<ObjectID>, next: Cache, k: Kind, key: string)
    requires DeltaShape(d) && key in Rows(PatchCategory(d, k).exact) && Rows(PatchCategory(d, k).exact)[key].Some?
    requires Taken(d, k, Rows(PatchCategory(d, k).exact)[key].value)
    requires var now := ExactRows(BaseCatalog(next), k);
             key in now && now[key].Some? && (if k != Views then now[key] == Source(base, d, k, key)
                              else MergedView(n, base, d, all, next, Source(base, d, k, key).value, true, now[key].value))
    ensures Taken(d, k, ExactRows(BaseCatalog(next), k)[key].value)
  {
    hide DeltaShape, KnownDeleted, Spoken;
  }

  lemma ViewStays(n: Names, base: Cache, d: ObjectDelta, all: set<ObjectID>, next: Cache, v: Desc, w: Desc)
    requires MergedView(n, base, d, all, next, v, false, w)
    ensures w.(columns := v.columns) == v && (!Spoken(n, base, d, all, next, v.schema, v.name) ==> w == v)
  {
    hide Spoken;
  }

  // ----- membership

  /** A name is listed after a merge exactly as it was before, unless the delta owns or deletes the relation. */
  lemma TablesOutside(n: Names, base: Cache, d: ObjectDelta, all: set<ObjectID>, next: Cache, schema: string, name: string)
    requires Merged(n, base, d, all, next)
    requires TableID(schema, name) !in OwnersOf(d, Relations) && PlainID(VIEW, schema, name) !in OwnersOf(d, Relations)
    requires TableID(schema, name) !in all && PlainID(VIEW, schema, name) !in all
    ensures name in SchemaRows(Rows(next.schemaTables), schema) <==> name in SchemaRows(Rows(base.schemaTables), schema)
  {
    hide DeltaShape, CatalogMergeable, CatalogMerged, ColumnsMergeable, FKMergeable, FKMerged, DependenciesMergeable, DependenciesMerged, AllDeleted, RemovalsParse, ExactMerged, FoldedKeysMerged, ViewsRefreshed, RelationsMerged;
    var mid: Cache, full: Cache :| MergedVia(n, base, d, all, mid, full, next);
    assert next.schemaTables == mid.schemaTables;
    TablesAreMerged(base, d, all, mid.schemaTables, schema);
    KeptNames(d, all, schema, SchemaRows(Rows(base.schemaTables), schema));
    if name in SchemaRows(PatchTables(d), schema) { PatchNamesAreOwned(base, d, all, schema, name); }
  }

  lemma PatchNamesAreOwned(base: Cache, d: ObjectDelta, all: set<ObjectID>, schema: string, name: string)
    requires RelationsMergeable(base, d, all) && name in SchemaRows(PatchTables(d), schema)
    ensures TableID(schema, name) in OwnersOf(d, Relations) || PlainID(VIEW, schema, name) in OwnersOf(d, Relations)
  {
  }

  predicate NoTwice(m: map<string, seq<string>>) {
    forall s | s in m :: Distinct(m[s])
  }

  /** Over a base that lists no name twice, the membership part of a delta that touches it is accepted exactly if
      its patch is there and lists owned names alone, none of them deleted and none twice: what the base lists
      already may be listed again. */
  lemma MembershipAcceptedExactly(base: Cache, d: ObjectDelta, all: set<ObjectID>)
    requires NoTwice(Rows(base.schemaTables)) && RelationsTouched(d, all)
    ensures RelationsMergeable(base, d, all) <==>
              && (Relations in d.owners ==> Relations in d.patches && d.patches[Relations].cache.Some? && d.patches[Relations].cache.value.schemaTables.Some?)
              && NoTwice(PatchTables(d))
              && forall s, name | s in PatchTables(d) && name in PatchTables(d)[s] ::
                   && (TableID(s, name) in OwnersOf(d, Relations) || PlainID(VIEW, s, name) in OwnersOf(d, Relations))
                   && TableID(s, name) !in all && PlainID(VIEW, s, name) !in all
  {
    forall s { MembershipFits(base, d, all, s); }
    if RelationsMergeable(base, d, all) {
      forall s | s in PatchTables(d) ensures Distinct(PatchTables(d)[s]) {
        assert s in Rows(base.schemaTables).Keys + PatchTables(d).Keys;
      }
    }
  }

  lemma MembershipFits(base: Cache, d: ObjectDelta, all: set<ObjectID>, s: string)
    requires NoTwice(Rows(base.schemaTables))
    ensures Distinct(MergedNames(base, d, all, s)) ==> Distinct(SchemaRows(PatchTables(d), s))
    ensures (forall name | name in SchemaRows(PatchTables(d), s) :: NamedBy(OwnersOf(d, Relations), s, name)) && Distinct(SchemaRows(PatchTables(d), s)) ==>
              Distinct(MergedNames(base, d, all, s))
  {
    var names := SchemaRows(Rows(base.schemaTables), s);
    KeptNames(d, all, s, names);
    KeptAreDistinct(d, all, s, names);
    TwoLists(Kept(d, all, s, names), SchemaRows(PatchTables(d), s));
  }

  lemma {:induction false} KeptAreDistinct(d: ObjectDelta, all: set<ObjectID>, schema: string, names: seq<string>)
    requires Distinct(names)
    ensures Distinct(Kept(d, all, schema, names))
  {
    if names != [] {
      var front := names[..|names| - 1];
      KeptAreDistinct(d, all, schema, front);
      KeptNames(d, all, schema, front);
      assert forall i | 0 <= i < |front| :: front[i] == names[i] != names[|names| - 1];
    }
  }

  lemma TwoLists(a: seq<string>, b: seq<string>)
    ensures Distinct(a + b) ==> Distinct(b)
    ensures Distinct(a) && Distinct(b) && (forall x | x in a :: x !in b) ==> Distinct(a + b)
  {
    if Distinct(a + b) {
      forall i, j | 0 <= i < j < |b| ensures b[i] != b[j] { assert (a + b)[|a| + i] == b[i] && (a + b)[|a| + j] == b[j]; }
    }
    if Distinct(a) && Distinct(b) && forall x | x in a :: x !in b {
      forall i, j | 0 <= i < j < |a + b| ensures (a + b)[i] != (a + b)[j] {
        if i < |a| <= j { assert a[i] in a && b[j - |a|] in b; }
      }
    }
  }

  // ----- columns and primary keys

  /** The delta owns the columns of this relation, or deletes it. */
  ghost predicate ColumnsClaimed(d: ObjectDelta, all: set<ObjectID>, key: string) {
    Lost(all, key) || OwnedKey(OwnersOf(d, ColumnsAll), key) || OwnedKey(OwnersOf(d, ColumnsCurrent), key)
  }

  ghost predicate KeysClaimed(d: ObjectDelta, all: set<ObjectID>, key: string) {
    Lost(all, key) || OwnedKey(OwnersOf(d, PrimaryKeys), key)
  }

  lemma OwnKey(owners: seq<ObjectID>, key: string)
    requires Parses(key) && Parsed(key) in owners
    ensures OwnedKey(owners, key)
  {
    hide Key;
    ParseKeyMeaning(key);
    assert Key(Parsed(key)) == key;
  }

  lemma PatchColumnsAreOwned(n: Names, base: Cache, d: ObjectDelta, all: set<ObjectID>, k: Kind, key: string)
    requires ColumnsMergeable(n, base, d, all) && (k == ColumnsAll || k == ColumnsCurrent) && key in PatchColumns(d, k)
    ensures OwnedKey(OwnersOf(d, k), key)
  {
    hide Parses, Parsed, Key, OwnedKey, KeyDeleted, KeyPatchOk, ExactColumnsPublished, UnflaggedColumns;
    assert ColumnPatchOk(d, all, k);
    assert EntryOk(d.owners[k], all, GoodColumns, [], key, PatchColumns(d, k)[key]);
    OwnKey(OwnersOf(d, k), key);
  }

  lemma PatchKeysAreOwned(n: Names, base: Cache, d: ObjectDelta, all: set<ObjectID>, key: string)
    requires ColumnsMergeable(n, base, d, all) && key in PatchKeys(d)
    ensures OwnedKey(OwnersOf(d, PrimaryKeys), key)
  {
    hide Parses, Parsed, Key, OwnedKey, KeyDeleted, ColumnPatchesOk, ExactColumnsPublished, UnflaggedColumns;
    assert EntryOk(d.owners[PrimaryKeys], all, GoodKeys, [], key, PatchKeys(d)[key]);
    OwnKey(OwnersOf(d, PrimaryKeys), key);
  }

  /** The folded parts of an accepted column or key patch speak of owned tables alone. */
  lemma FoldedPatchesAreOwned(n: Names, base: Cache, d: ObjectDelta, all: set<ObjectID>, k: Kind, f: string)
    requires ColumnsMergeable(n, base, d, all) && k in d.owners
    ensures k == ColumnsAll || k == ColumnsCurrent ==>
              k in d.patches && d.patches[k].cache.Some? && forall c: Option<Column> | f in Rows(PatchCache(d, k).columnsWithParent) && c in Rows(PatchCache(d, k).columnsWithParent)[f] ::
                c.Some? && TableID(c.value.schema, c.value.table) in OwnersOf(d, k)
    ensures k == PrimaryKeys ==>
              k in d.patches && d.patches[k].cache.Some? && (f in Rows(PatchCache(d, k).primaryKeyColumns) ==> exists id | id in OwnersOf(d, k) :: f == ColumnDatabaseKey(n, id.schema, id.name))
  {
    hide Parses, Parsed, Key, KeyDeleted, ExactColumnsPublished, UnflaggedColumns, EntryOk;
    if k == ColumnsAll || k == ColumnsCurrent { assert ColumnPatchOk(d, all, k); }
  }

  /** The columns of a relation, key flags aside, and its primary key are what they were unless the delta owns
      them or deletes the relation. */
  lemma ColumnsOutside(n: Names, base: Cache, d: ObjectDelta, all: set<ObjectID>, next: Cache, key: string)
    requires Merged(n, base, d, all, next)
    ensures !ColumnsClaimed(d, all, key) ==>
              && (key in Rows(next.columnsByID) <==> key in Rows(base.columnsByID))
              && (key in Rows(base.columnsByID) ==> SameBut(Rows(base.columnsByID)[key], Rows(next.columnsByID)[key]))
    ensures !KeysClaimed(d, all, key) ==> Entry(Rows(next.primaryKeysByID), key) == Entry(Rows(base.primaryKeysByID), key)
  {
    hide DeltaShape, CatalogMergeable, CatalogMerged, RelationsMergeable, RelationsMerged, ColumnsMergeable, ColumnsMerged, FKMergeable, FKMerged, DependenciesMergeable, DependenciesMerged, AllDeleted, RemovalsParse, Lost, OwnedKey, SameBut;
    var mid: Cache, full: Cache :| MergedVia(n, base, d, all, mid, full, next);
    MergedTables(n, base, d, all, next, key);
    if key in PatchColumns(d, ColumnsAll) { PatchColumnsAreOwned(n, base, d, all, ColumnsAll, key); }
    if key in PatchColumns(d, ColumnsCurrent) { PatchColumnsAreOwned(n, base, d, all, ColumnsCurrent, key); }
    if key in PatchKeys(d) { PatchKeysAreOwned(n, base, d, all, key); }
  }

  // ----- foreign keys

  /** A foreign key between two tables that the delta neither owns nor deletes stays, and none is added
      between two such; and none comes to a deleted table. */
  lemma FKsOutside(n: Names, base: Cache, d: ObjectDelta, all: set<ObjectID>, next: Cache, fk: ForeignKey)
    requires CanonicalFKs(n, base) && Merged(n, base, d, all, next) && KeyStays(d, all, fk)
    ensures Mentions(Rows(next.foreignKeys), Some(fk)) <==> Mentions(Rows(base.foreignKeys), Some(fk))
  {
    hide DeltaShape, CatalogMergeable, CatalogMerged, RelationsMergeable, RelationsMerged, ColumnsMergeable, ColumnsMerged, FKMergeable, FKMerged, DependenciesMergeable, DependenciesMerged, AllDeleted, RemovalsParse, Mentions, KeyStays;
    var mid: Cache, full: Cache :| MergedVia(n, base, d, all, mid, full, next);
    MergedForeignKeys(n, base, d, all, next, fk);
    if exists p: ForeignKey :: Mentions(PatchFKs(d), Some(p)) && fk.pairs == p.pairs && fk.address == CopyOf(p.address) {
      var p: ForeignKey :| Mentions(PatchFKs(d), Some(p)) && fk.pairs == p.pairs && fk.address == CopyOf(p.address);
      PatchFKsAreOwned(base, d, all, p, fk);
    }
  }

  lemma PatchFKsAreOwned(base: Cache, d: ObjectDelta, all: set<ObjectID>, p: ForeignKey, fk: ForeignKey)
    requires FKMergeable(base, d, all) && Mentions(PatchFKs(d), Some(p)) && fk.pairs == p.pairs
    ensures !KeyStays(d, all, fk)
  {
    assert FKTouched(d, all);
    assert FKOk(Some(p)) && Involved(OwnersOf(d, ForeignKeys), p);
    assert LeftEnd(p) == fk.pairs[0].left.value && RightEnd(p) == fk.pairs[0].right.value;
  }

  // ----- dependencies

  /** An edge that comes from no owned reference, and touches nothing deleted, is there after a merge exactly if
      it was before; and so is a check name of a relation that the delta neither gives names nor deletes. */
  lemma DependenciesOutside(n: Names, base: Cache, d: ObjectDelta, all: set<ObjectID>, next: Cache, e: DependencyEdge, relation: string)
    requires Merged(n, base, d, all, next) && base.dependencies.Some? && CanonicalGraph(base.dependencies.value)
    ensures next.dependencies.Some?
    ensures e.from !in d.dependencyOwners && !RefGone(all, e.from) && !RefGone(all, e.to) ==>
              (e in next.dependencies.value.edges <==> e in base.dependencies.value.edges)
    ensures relation !in d.checkNames && (forall id | id in all && (id.kind == TABLE || id.kind == VIEW) :: id.name != relation) ==>
              SameNames(base.dependencies.value.checks, next.dependencies.value.checks, relation)
  {
    hide DeltaShape, CatalogMergeable, CatalogMerged, RelationsMergeable, RelationsMerged, ColumnsMergeable, ColumnsMerged, FKMergeable, FKMerged, DependenciesMerged, AllDeleted, RemovalsParse, RefGone;
    var mid: Cache, full: Cache :| MergedVia(n, base, d, all, mid, full, next);
    DependenciesAreMerged(base, d, all, next);
    if e in d.dependencyEdges { EdgesAreOwned(base, d, all, Rows(mid.schemaTables), Rows(NextExact(BaseCatalog(base), d, KnownDeleted(d), SystemRelations)), e); }
    ChecksOutside(base.dependencies.value, d, all, next.dependencies.value, relation);
  }

  ghost predicate SameNames(was: map<string, seq<string>>, now: map<string, seq<string>>, relation: string) {
    (relation in now <==> relation in was) && (relation in was ==> forall name :: name in now[relation] <==> name in was[relation])
  }

  lemma EdgesAreOwned(base: Cache, d: ObjectDelta, all: set<ObjectID>, tables: map<string, seq<string>>, systemRelations: DescMap, e: DependencyEdge)
    requires base.dependencies.Some? && DependenciesMergeable(base, d, all, tables, systemRelations) && e in d.dependencyEdges
    ensures e.from in d.dependencyOwners && !RefGone(all, e.from) && !RefGone(all, e.to)
  {
    hide RefGone, KnownRelation, ValidRef;
  }

  lemma ChecksOutside(was: Graph, d: ObjectDelta, all: set<ObjectID>, now: Graph, relation: string)
    requires var checks := BaseChecks(was, all) + d.checkNames; now.checks.Keys == checks.Keys && forall r | r in checks :: SortedSet(now.checks[r], checks[r])
    ensures relation !in d.checkNames && (forall id | id in all && (id.kind == TABLE || id.kind == VIEW) :: id.name != relation) ==>
              SameNames(was.checks, now.checks, relation)
  {
    assert relation in BaseChecks(was, all) + d.checkNames ==> SortedSet(now.checks[relation], (BaseChecks(was, all) + d.checkNames)[relation]);
  }

  /** The delta gives check names only to a relation that is there after the merge: listed, with names that stay,
      or a system relation; none of them is empty. */
  lemma ChecksAreKnown(n: Names, base: Cache, d: ObjectDelta, all: set<ObjectID>, next: Cache, relation: string)
    requires Merged(n, base, d, all, next) && relation in d.checkNames
    ensures base.dependencies.Some? && relation != "" && "" !in d.checkNames[relation]
    ensures TableID("", relation) !in all && PlainID(VIEW, "", relation) !in all
    ensures || relation in SchemaRows(Rows(next.schemaTables), "")
            || (relation in base.dependencies.value.checks && forall id | id in all && (id.kind == TABLE || id.kind == VIEW) :: id.name != relation)
            || Key(TableID("", relation)) in ExactRows(BaseCatalog(next), SystemRelations)
  {
    hide DeltaShape, CatalogMergeable, CatalogMerged, RelationsMergeable, RelationsMerged, ColumnsMergeable, ColumnsMerged, FKMergeable, FKMerged, DependenciesMerged, AllDeleted, RemovalsParse, RefGone, ValidRef, Key, NextExact;
    var mid: Cache, full: Cache :| MergedVia(n, base, d, all, mid, full, next);
    assert next.schemaTables == mid.schemaTables by { SameMembership(n, base, d, all, mid, full, next); }
    KeysCarry(n, base, d, all, mid, full, next, SystemRelations, Key(TableID("", relation)));
  }

  lemma SameMembership(n: Names, base: Cache, d: ObjectDelta, all: set<ObjectID>, mid: Cache, full: Cache, next: Cache)
    requires MergedVia(n, base, d, all, mid, full, next)
    ensures next.schemaTables == mid.schemaTables
  {
    hide DeltaShape, CatalogMergeable, CatalogMerged, RelationsMergeable, RelationsMerged, ColumnsMergeable, FKMergeable, FKMerged, DependenciesMergeable, DependenciesMerged, AllDeleted, RemovalsParse, ExactMerged, FoldedKeysMerged, ViewsRefreshed;
  }

  // ----- what is deleted

  /** A covered top-level object that its patch does not have: a relation that is not listed, or a row of a
      category that the exact map has no entry for. */
  predicate CoveredAndAbsent(d: ObjectDelta, k: Kind, id: ObjectID) {
    && k in d.owners && id in d.owners[k] && k in d.patches && d.patches[k].cache.Some?
    && var p := d.patches[k].cache.value;
       if k == Relations then p.schemaTables.None? || id.schema !in p.schemaTables.value || id.name !in p.schemaTables.value[id.schema]
       else if k == Indexes then id.kind == "index" && LacksRow(p, k, id)
       else if k == Triggers then id.kind == "trigger" && LacksRow(p, k, id)
       else Descriptor(k) && LacksRow(p, k, id)
  }

  predicate LacksRow(p: Cache, k: Kind, id: ObjectID) {
    && p.catalog.Some? && CategoryOf(p.catalog.value, k).exact.Some?
    && (Key(id) !in CategoryOf(p.catalog.value, k).exact.value || CategoryOf(p.catalog.value, k).exact.value[Key(id)].None?)
  }

  /** Some category had a row under the key and has none any more. */
  ghost predicate LostRow(base: Cache, next: Cache, key: string) {
    exists k | Descriptor(k) :: key in ExactRows(BaseCatalog(base), k) && key !in ExactRows(BaseCatalog(next), k)
  }

  /** What a merge deletes: what the delta deletes, what it covers and does not bring, and everything whose
      row went with one of those. */
  lemma DeletedExactly(n: Names, base: Cache, d: ObjectDelta, all: set<ObjectID>, next: Cache, id: ObjectID)
    requires Merged(n, base, d, all, next)
    ensures id in all <==> id in d.deleted || (exists k :: CoveredAndAbsent(d, k, id)) || (ValidID(id) && LostRow(base, next, Key(id)))
  {
    hide CatalogMergeable, CatalogMerged, RelationsMergeable, RelationsMerged, ColumnsMergeable, ColumnsMerged, FKMergeable, FKMerged, DependenciesMergeable, DependenciesMerged, RemovalsParse, DeltaShape, Key, ParseKey;
    var mid: Cache, full: Cache :| MergedVia(n, base, d, all, mid, full, next);
    AbsentMeans(d, id);
    LostMeans(n, base, d, all, mid, full, next, Key(id));
    if base.catalog.None? { NothingToLose(base, next, Key(id)); }
  }

  lemma NothingToLose(base: Cache, next: Cache, key: string)
    requires base.catalog.None?
    ensures !LostRow(base, next, key)
  {
  }

  lemma AbsentMeans(d: ObjectDelta, id: ObjectID)
    requires DeltaShape(d)
    ensures id in KnownDeleted(d) <==> id in d.deleted || exists k :: CoveredAndAbsent(d, k, id)
  {
    hide Key;
    forall k | k in d.owners ensures k in d.patches && d.patches[k].cache.Some? { assert CategoryShape(d, k); }
    forall k | k in d.owners && id in d.owners[k] ensures OwnerAbsent(k, PatchCache(d, k), id) <==> CoveredAndAbsent(d, k, id) {
      assert CategoryShape(d, k);
    }
    if id in Absent(d) {
      var k :| k in d.owners && id in d.owners[k] && OwnerAbsent(k, PatchCache(d, k), id);
      assert CoveredAndAbsent(d, k, id);
    }
    if k :| CoveredAndAbsent(d, k, id) {
      assert OwnerAbsent(k, PatchCache(d, k), id);
    }
  }

  lemma LostMeans(n: Names, base: Cache, d: ObjectDelta, all: set<ObjectID>, mid: Cache, full: Cache, next: Cache, key: string)
    requires DeltaShape(d) && MergedVia(n, base, d, all, mid, full, next)
    ensures RemovedKeys(BaseCatalog(base), d, KnownDeleted(d), key) <==> LostRow(base, next, key)
  {
    hide RelationsMergeable, RelationsMerged, ColumnsMergeable, FKMergeable, FKMerged, DependenciesMergeable, DependenciesMerged, RemovalsParse, DeltaShape, KnownDeleted, CatalogMergeable, AllDeleted;
    forall k | Descriptor(k) ensures key in Rows(NextExact(BaseCatalog(base), d, KnownDeleted(d), k)) <==> key in ExactRows(BaseCatalog(next), k) {
      KeysCarry(n, base, d, all, mid, full, next, k, key);
    }
  }

  lemma KeysCarry(n: Names, base: Cache, d: ObjectDelta, all: set<ObjectID>, mid: Cache, full: Cache, next: Cache, k: Kind, key: string)
    requires DeltaShape(d) && MergedVia(n, base, d, all, mid, full, next) && Descriptor(k)
    ensures key in Rows(NextExact(BaseCatalog(base), d, KnownDeleted(d), k)) <==> key in ExactRows(BaseCatalog(next), k)
  {
    hide RelationsMergeable, RelationsMerged, ColumnsMergeable, FKMergeable, FKMerged, DependenciesMergeable, DependenciesMerged, RemovalsParse, DeltaShape, KnownDeleted, CatalogMergeable, AllDeleted, CatalogMerged, ColumnsMerged, ReplacedRows, CategoriesReplaced, ReplacedCategory, ChangedKeys;
    RowsAreApplied(n, base, mid, d, all, full, next);
    NextExactIs(base, d, k);
  }

  lemma NextExactIs(base: Cache, d: ObjectDelta, k: Kind)
    requires DeltaShape(d) && CatalogMergeable(BaseCatalog(base), d, KnownDeleted(d)) && Descriptor(k)
    ensures Rows(NextExact(BaseCatalog(base), d, KnownDeleted(d), k)) == ReplacedCategory(base, d, k)
  {
    hide ReplacedRows, KnownDeleted, DeltaShape, CategoryReplaceable, RowsReplaced, NextExact;
    ShapeCovers(d);
    CategoryIsReplaced(BaseCatalog(base), d, KnownDeleted(d), k);
  }
}
