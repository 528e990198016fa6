/** What a merge leaves in the exact maps, row by row and for any base: every row comes whole from its
    patch or from the base. */
module WatchContents {
  import opened Wrappers
  import opened Identity
  import opened ObjectIndexes
  import opened CatalogTypes
  import opened Sorting
  import opened Dependencies
  import opened WatchSpec
  import opened WatchColumns
  import opened WatchCanonical
  import opened WatchProjections
  import opened WatchMerge
  import opened WatchDetermined
  import opened WatchTheorems

  // ----- descriptors

  /** The delta takes this row away: it covers or deletes the row, or the relation that the row hangs on. */
  ghost predicate Taken(d: ObjectDelta, k: Kind, v: Desc)
    requires DeltaShape(d)
  {
    var (id, relation) := Identify(k, v);
    || id in OwnersOf(d, k) || id in KnownDeleted(d)
    || TableID(id.schema, relation) in KnownDeleted(d) || PlainID(VIEW, id.schema, relation) in KnownDeleted(d)
    || exists o | o in OwnersOf(d, k) :: (o.kind == TABLE || o.kind == VIEW) && o.schema == id.schema && o.name == relation
  }

  lemma OwnersAreNamed(d: ObjectDelta, k: Kind, o: ObjectID)
    requires DeltaShape(d) && o in OwnersOf(d, k)
    ensures ValidID(o) && OwnerKind(k, o)
  {
    assert CategoryShape(d, k);
  }

  lemma StaysUnlessTaken(d: ObjectDelta, k: Kind, v: Desc)
    requires DeltaShape(d)
    ensures Stays(k, v, OwnersOf(d, k), KnownDeleted(d)) <==> !Taken(d, k, v)
  {
    hide DeltaShape, KnownDeleted;
    forall o | o in OwnersOf(d, k) ensures o.name != "" { OwnersAreNamed(d, k, o); }
  }

  /** The row that a key has after the merge, before views get their columns: the patch's, or the base's
      unless that is taken away. */
  ghost function Source(base: Cache, d: ObjectDelta, k: Kind, key: string): Option<Desc>
    requires DeltaShape(d)
  {
    var was, patch := ExactRows(BaseCatalog(base), k), Rows(PatchCategory(d, k).exact);
    if key in patch then patch[key]
    else if key in was && was[key].Some? && !Taken(d, k, was[key].value) then was[key]
    else None
  }

  lemma SourceOf(base: Cache, d: ObjectDelta, k: Kind, key: string)
    requires DeltaShape(d) && Descriptor(k) && CategoriesReplaced(base, d)
    ensures var rows := ReplacedCategory(base, d, k);
            && (key in rows <==> Source(base, d, k, key).Some?)
            && (key in rows ==> rows[key].Some?)
            && (key in rows && key in Rows(PatchCategory(d, k).exact) ==> SameRow(k, Source(base, d, k, key).value, rows[key].value))
            && (key in rows && key !in Rows(PatchCategory(d, k).exact) ==> rows[key] == Source(base, d, k, key))
  {
    hide DeltaShape, KnownDeleted, Taken, Stays, ReplacedCategory, SameRow;
    var was := ExactRows(BaseCatalog(base), k);
    assert RowsReplaced(k, was, Rows(PatchCategory(d, k).exact), OwnersOf(d, k), KnownDeleted(d), ReplacedCategory(base, d, k));
    if key in was && was[key].Some? {
      StaysUnlessTaken(d, k, was[key].value);
    }
  }

  // ----- the columns of views

  /** The delta names this relation, or deletes it. */
  ghost predicate Named(d: ObjectDelta, all: set<ObjectID>, schema: string, name: string) {
    || TableID(schema, name) in all || PlainID(VIEW, schema, name) in all
    || TableID(schema, name) in OwnersOf(d, ColumnsCurrent) + OwnersOf(d, ColumnsAll) + OwnersOf(d, PrimaryKeys)
  }

  /** It names or deletes a relation whose folded name is this one's. */
  ghost predicate NamesSibling(n: Names, d: ObjectDelta, all: set<ObjectID>, schema: string, name: string) {
    exists id: ObjectID ::
      && ((id in all && IsRelation(id)) || id in OwnersOf(d, ColumnsCurrent) + OwnersOf(d, ColumnsAll) + OwnersOf(d, PrimaryKeys))
      && ColumnDatabaseKey(n, id.schema, id.name) == ColumnDatabaseKey(n, schema, name)
  }

  /** The merge looks at the columns of this relation again. */
  ghost predicate Spoken(n: Names, base: Cache, d: ObjectDelta, all: set<ObjectID>, next: Cache, schema: string, name: string) {
    || Named(d, all, schema, name)
    || (MetadataReady(base, PrimaryKeys) && Key(TableID(schema, name)) in Rows(next.columnsByID) && NamesSibling(n, d, all, schema, name))
  }

  lemma OwnerKeyNames(owners: seq<ObjectID>, schema: string, name: string)
    ensures Key(TableID(schema, name)) in OwnerKeys(owners) <==> TableID(schema, name) in owners
  {
    hide Key;
    if Key(TableID(schema, name)) in OwnerKeys(owners) {
      var id :| id in owners && Key(id) == Key(TableID(schema, name));
      KeyInjective(id, TableID(schema, name));
    }
  }

  lemma NamedKeysName(d: ObjectDelta, all: set<ObjectID>, schema: string, name: string)
    ensures Key(TableID(schema, name)) in NamedKeys(d, all) <==> Named(d, all, schema, name)
  {
    hide Key, OwnerKeys;
    var key := Key(TableID(schema, name));
    OwnerKeyNames(OwnersOf(d, ColumnsCurrent), schema, name);
    OwnerKeyNames(OwnersOf(d, ColumnsAll), schema, name);
    OwnerKeyNames(OwnersOf(d, PrimaryKeys), schema, name);
    if exists id :: id in all && IsRelation(id) && Key(RelationID(id)) == key {
      var id :| id in all && IsRelation(id) && Key(RelationID(id)) == key;
      KeyInjective(RelationID(id), TableID(schema, name));
      assert id == TableID(schema, name) || id == PlainID(VIEW, schema, name);
    }
    if TableID(schema, name) in all {
      assert RelationID(TableID(schema, name)) == TableID(schema, name);
    }
    if PlainID(VIEW, schema, name) in all {
      assert RelationID(PlainID(VIEW, schema, name)) == TableID(schema, name);
    }
  }

  lemma SiblingsFold(n: Names, d: ObjectDelta, all: set<ObjectID>, schema: string, name: string)
    requires DeltaShape(d) && name != "" && forall id | id in all :: ValidID(id)
    ensures InFold(n, NamedKeys(d, all), Key(TableID(schema, name))) <==> NamesSibling(n, d, all, schema, name)
  {
    hide Key, ParseKey, DeltaShape, ColumnDatabaseKey;
    ParsesItself(TableID(schema, name));
    if InFold(n, NamedKeys(d, all), Key(TableID(schema, name))) {
      var other :| other in NamedKeys(d, all) && Parses(other) && FoldOf(n, other) == FoldOf(n, Key(TableID(schema, name)));
      var id := NamingIdentity(d, all, other);
      ParsesItself(id);
      ParsesItself(RelationID(id));
      assert ColumnDatabaseKey(n, id.schema, id.name) == FoldOf(n, other);
    }
    if NamesSibling(n, d, all, schema, name) {
      var id: ObjectID :|
        && ((id in all && IsRelation(id)) || id in OwnersOf(d, ColumnsCurrent) + OwnersOf(d, ColumnsAll) + OwnersOf(d, PrimaryKeys))
        && ColumnDatabaseKey(n, id.schema, id.name) == ColumnDatabaseKey(n, schema, name);
      FoldsFrom(n, d, all, id, schema, name);
    }
  }

  lemma FoldsFrom(n: Names, d: ObjectDelta, all: set<ObjectID>, id: ObjectID, schema: string, name: string)
    requires DeltaShape(d) && name != "" && forall id | id in all :: ValidID(id)
    requires (id in all && IsRelation(id)) || id in OwnersOf(d, ColumnsCurrent) + OwnersOf(d, ColumnsAll) + OwnersOf(d, PrimaryKeys)
    requires ColumnDatabaseKey(n, id.schema, id.name) == ColumnDatabaseKey(n, schema, name)
    ensures InFold(n, NamedKeys(d, all), Key(TableID(schema, name)))
  {
    hide Key, ParseKey, DeltaShape, ColumnDatabaseKey;
    ParsesItself(TableID(schema, name));
    if id in all && IsRelation(id) {
      ParsesItself(RelationID(id));
      assert Key(RelationID(id)) in NamedKeys(d, all);
    } else {
      var k := if id in OwnersOf(d, ColumnsCurrent) then ColumnsCurrent else if id in OwnersOf(d, ColumnsAll) then ColumnsAll else PrimaryKeys;
      OwnersAreNamed(d, k, id);
      ParsesItself(id);
      assert Key(id) in OwnerKeys(OwnersOf(d, k)) && Key(id) in NamedKeys(d, all);
    }
  }

  lemma ParsesItself(id: ObjectID)
    ensures ValidID(id) ==> Parses(Key(id)) && Parsed(Key(id)) == id
  {
    if ValidID(id) { ParseKeyInverts(id); }
  }

  /** The identity that a named key comes from. */
  lemma NamingIdentity(d: ObjectDelta, all: set<ObjectID>, key: string) returns (id: ObjectID)
    requires DeltaShape(d) && key in NamedKeys(d, all) && forall id | id in all :: ValidID(id)
    ensures (id in all && IsRelation(id) && key == Key(RelationID(id))) ||
            (id in OwnersOf(d, ColumnsCurrent) + OwnersOf(d, ColumnsAll) + OwnersOf(d, PrimaryKeys) && key == Key(id))
    ensures ValidID(id)
  {
    hide Key, DeltaShape;
    if exists x :: x in all && IsRelation(x) && Key(RelationID(x)) == key {
      id :| id in all && IsRelation(id) && Key(RelationID(id)) == key;
    } else {
      var k := if key in OwnerKeys(OwnersOf(d, ColumnsCurrent)) then ColumnsCurrent
               else if key in OwnerKeys(OwnersOf(d, ColumnsAll)) then ColumnsAll else PrimaryKeys;
      id :| id in OwnersOf(d, k) && Key(id) == key;
      OwnersAreNamed(d, k, id);
    }
  }

  /** The exact column map after the merge has the keys that it has before flagging. */
  lemma ColumnKeys(n: Names, base: Cache, mid: Cache, d: ObjectDelta, all: set<ObjectID>, full: Cache)
    requires ColumnsMergeable(n, base, d, all) && ColumnsMerged(n, base, mid, d, all, full) && mid.columnsByID == base.columnsByID
    ensures Rows(full.columnsByID).Keys == UnflaggedColumns(base, d, all).Keys
    ensures ColumnsTouched(d, all) || KeysTouched(d, all) ==> forall key | key in UnflaggedColumns(base, d, all) :: Parses(key)
  {
    hide UnflaggedColumns, KeyPatchOk, NoNilColumns, ChangedKeys, Flagged;
    if ColumnsTouched(d, all) || KeysTouched(d, all) {
      MergedColumnsParse(base, d, all);
    } else {
      UnflaggedUntouched(base, d, all);
    }
  }

  /** Which relations the merge looks at again. */
  lemma ChangedMeans(n: Names, base: Cache, mid: Cache, d: ObjectDelta, all: set<ObjectID>, next: Cache, schema: string, name: string)
    requires DeltaShape(d) && forall id | id in all :: ValidID(id)
    requires ColumnsMergeable(n, base, d, all) && ColumnsMerged(n, base, mid, d, all, next) && mid.columnsByID == base.columnsByID
    ensures Key(TableID(schema, name)) in ChangedKeys(n, base, d, all) <==> Spoken(n, base, d, all, next, schema, name)
  {
    hide Key, ParseKey, DeltaShape, ColumnsMergeable, ColumnsMerged, UnflaggedColumns, NamedKeys, Named, NamesSibling, MetadataReady;
    var key := Key(TableID(schema, name));
    NamedKeysName(d, all, schema, name);
    ColumnKeys(n, base, mid, d, all, next);
    if key in Rows(next.columnsByID) && (ColumnsTouched(d, all) || KeysTouched(d, all)) {
      assert Parses(key);
      ParseKeyMeaning(key);
      KeyInjective(ParseKey(key).value, TableID(schema, name));
      SiblingsFold(n, d, all, schema, name);
    } else if !ColumnsTouched(d, all) && !KeysTouched(d, all) {
      NothingNamed(n, d, all, schema, name);
    }
  }

  lemma NothingNamed(n: Names, d: ObjectDelta, all: set<ObjectID>, schema: string, name: string)
    requires !ColumnsTouched(d, all) && !KeysTouched(d, all)
    ensures NamedKeys(d, all) == {} && !NamesSibling(n, d, all, schema, name)
  {
  }

  /** The columns that a view takes over: never part of a key. */
  ghost predicate TakenOver(cols: Columns, w: Columns) {
    |w| == |cols| && forall i | 0 <= i < |cols| :: w[i] == if cols[i].None? then None else Some(cols[i].value.(key := "NO"))
  }

  /** `w` is the view `v` after the merge: its columns are the merged ones if they were looked at again. */
  ghost predicate MergedView(n: Names, base: Cache, d: ObjectDelta, all: set<ObjectID>, next: Cache, v: Desc, fromPatch: bool, w: Desc) {
    && w.(columns := v.columns) == v
    && if Spoken(n, base, d, all, next, v.schema, v.name)
       then w.columns.Some? && TakenOver(if Key(TableID(v.schema, v.name)) in Rows(next.columnsByID) then Rows(next.columnsByID)[Key(TableID(v.schema, v.name))] else [], w.columns.value)
       else w.columns == if fromPatch && v.columns.None? then Some([]) else v.columns
  }

  /** What every row of every category is after a merge.  A key is there exactly when the patch has it or
      the base has it and nothing takes it away; its row is the patch's own, or else the base's.  Only
      views differ, and only in their columns. */
  lemma MergedRows(n: Names, base: Cache, d: ObjectDelta, all: set<ObjectID>, next: Cache, k: Kind, key: string)
    requires Merged(n, base, d, all, next) && Descriptor(k)
    ensures DeltaShape(d)
    ensures var now := ExactRows(BaseCatalog(next), k);
            && (key in now <==> Source(base, d, k, key).Some?)
            && (key in now ==> now[key].Some?)
            && (key in now && k != Views ==> now[key] == Source(base, d, k, key))
            && (key in now && k == Views ==>
                  MergedView(n, base, d, all, next, Source(base, d, k, key).value, key in Rows(PatchCategory(d, Views).exact), now[key].value))
  {
    hide DeltaShape, CatalogMergeable, CatalogMerged, RelationsMergeable, RelationsMerged, ColumnsMergeable, ColumnsMerged, FKMergeable, FKMerged, DependenciesMergeable, DependenciesMerged, AllDeleted, RemovalsParse, ReplacedCategory, CategoriesReplaced, Source, ChangedKeys, Spoken;
    var mid: Cache, full: Cache :| MergedVia(n, base, d, all, mid, full, next);
    DeletedAreValid(base, d, all);
    RowsAreApplied(n, base, mid, d, all, full, next);
    SourceOf(base, d, k, key);
    var now, rows := ExactRows(BaseCatalog(next), k), ReplacedCategory(base, d, k);
    if k == Views && key in rows {
      var v := rows[key].value;
      ChangedMeans(n, base, mid, d, all, full, v.schema, v.name);
      assert now[key] == RefreshedView(ChangedKeys(n, base, d, all), Rows(next.columnsByID), rows[key]);
      SpokenAlike(n, base, d, all, full, next, v.schema, v.name);
    }
  }

  lemma SpokenAlike(n: Names, base: Cache, d: ObjectDelta, all: set<ObjectID>, a: Cache, b: Cache, schema: string, name: string)
    requires a.columnsByID == b.columnsByID
    ensures Spoken(n, base, d, all, a, schema, name) <==> Spoken(n, base, d, all, b, schema, name)
  {
  }

  // ----- columns and primary keys

  /** A deleted table or view has this key's schema and name. */
  ghost predicate Lost(all: set<ObjectID>, key: string) {
    Parses(key) && (TableID(Parsed(key).schema, Parsed(key).name) in all || PlainID(VIEW, Parsed(key).schema, Parsed(key).name) in all)
  }

  /** Some owner has this key. */
  ghost predicate OwnedKey(owners: seq<ObjectID>, key: string) {
    exists id | id in owners :: Key(id) == key
  }

  ghost function ColumnSource(base: Cache, d: ObjectDelta, all: set<ObjectID>, key: string): Option<Columns> {
    if Lost(all, key) then None
    else if key in PatchColumns(d, ColumnsAll) then Some(PatchColumns(d, ColumnsAll)[key])
    else if OwnedKey(OwnersOf(d, ColumnsAll), key) then None
    else if key in PatchColumns(d, ColumnsCurrent) then Some(PatchColumns(d, ColumnsCurrent)[key])
    else if key in Rows(base.columnsByID) && !OwnedKey(OwnersOf(d, ColumnsCurrent), key) then Some(Rows(base.columnsByID)[key])
    else None
  }

  ghost function KeySource(base: Cache, d: ObjectDelta, all: set<ObjectID>, key: string): Option<seq<string>> {
    if Lost(all, key) then None
    else if key in PatchKeys(d) then Some(PatchKeys(d)[key])
    else if key in Rows(base.primaryKeysByID) && !OwnedKey(OwnersOf(d, PrimaryKeys), key) then Some(Rows(base.primaryKeysByID)[key])
    else None
  }

  /** The same rows, key flags aside. */
  ghost predicate SameBut(cols: Columns, w: Columns) {
    |w| == |cols| && forall i | 0 <= i < |cols| ::
      if cols[i].None? then w[i].None? else w[i].Some? && w[i].value.(key := cols[i].value.key) == cols[i].value
  }

  lemma ColumnRow(base: Cache, d: ObjectDelta, all: set<ObjectID>, key: string)
    ensures key in UnflaggedColumns(base, d, all) <==> ColumnSource(base, d, all, key).Some?
    ensures key in UnflaggedColumns(base, d, all) ==> UnflaggedColumns(base, d, all)[key] == ColumnSource(base, d, all, key).value
  {
    hide Parses, Parsed, Key;
  }

  lemma KeyRow(base: Cache, d: ObjectDelta, all: set<ObjectID>, key: string)
    ensures key in MergedKeys(base, d, all) <==> KeySource(base, d, all, key).Some?
    ensures key in MergedKeys(base, d, all) ==> MergedKeys(base, d, all)[key] == KeySource(base, d, all, key).value
  {
    hide Parses, Parsed, Key;
  }

  lemma FlaggingKeepsRows(n: Names, base: Cache, folded: map<string, set<string>>, cols: Columns)
    ensures SameBut(cols, Flagged(n, base, folded, cols))
  {
    hide KeyFlag;
  }

  /** Every relation's columns and primary key after a merge: the patch's, or the base's unless the relation
      is covered or deleted.  Of the columns nothing changes but the key flag, and that only where the merge
      looks again. */
  lemma MergedTables(n: Names, base: Cache, d: ObjectDelta, all: set<ObjectID>, next: Cache, key: string)
    requires Merged(n, base, d, all, next)
    ensures var now := Rows(next.columnsByID);
            && (key in now <==> ColumnSource(base, d, all, key).Some?)
            && (key in now ==> SameBut(ColumnSource(base, d, all, key).value, now[key]))
    ensures var now := Rows(next.primaryKeysByID);
            && (key in now <==> KeySource(base, d, all, key).Some?)
            && (key in now ==> now[key] == KeySource(base, d, all, key).value)
  {
    hide DeltaShape, CatalogMergeable, CatalogMerged, RelationsMergeable, RelationsMerged, ColumnsMergeable, FKMergeable, FKMerged, DependenciesMergeable, DependenciesMerged, AllDeleted, RemovalsParse, ChangedKeys, UnflaggedColumns, MergedKeys, ColumnSource, KeySource, Flagged, SameBut;
    var mid: Cache, full: Cache :| MergedVia(n, base, d, all, mid, full, next);
    ColumnRow(base, d, all, key);
    KeyRow(base, d, all, key);
    if ColumnsTouched(d, all) || KeysTouched(d, all) {
      if key in UnflaggedColumns(base, d, all) {
        FlaggingKeepsRows(n, base, Rows(full.primaryKeyColumns), UnflaggedColumns(base, d, all)[key]);
        Itself(UnflaggedColumns(base, d, all)[key]);
      }
    } else {
      UnflaggedUntouched(base, d, all);
      KeysUntouched(base, d, all);
      if key in Rows(base.columnsByID) { Itself(Rows(base.columnsByID)[key]); }
    }
  }

  lemma Itself(cols: Columns)
    ensures SameBut(cols, cols)
  {
  }

  // ----- key flags after any merge

  /** The delta owns the columns or the key of some relation with this folded name, or deletes one. */
  ghost predicate NamesFold(n: Names, d: ObjectDelta, all: set<ObjectID>, f: string) {
    exists id: ObjectID ::
      && ((id in all && IsRelation(id)) || id in OwnersOf(d, ColumnsCurrent) + OwnersOf(d, ColumnsAll) + OwnersOf(d, PrimaryKeys))
      && ColumnDatabaseKey(n, id.schema, id.name) == f
  }

  /** The flags of these columns are looked at again: the delta names the relation by this very key, or, when
      primary keys are ready, one that folds like it. */
  ghost predicate Reflagged(n: Names, base: Cache, d: ObjectDelta, all: set<ObjectID>, key: string) {
    || (exists id: ObjectID :: id in OwnersOf(d, ColumnsCurrent) + OwnersOf(d, ColumnsAll) + OwnersOf(d, PrimaryKeys) && Key(id) == key)
    || (exists id: ObjectID :: id in all && (id.kind == TABLE || id.kind == VIEW) && Key(id.(kind := TABLE)) == key)
    || (MetadataReady(base, PrimaryKeys) && Parses(key) && NamesFold(n, d, all, ColumnDatabaseKey(n, Parsed(key).schema, Parsed(key).name)))
  }

  /** No flag without primary keys; with them YES for a name in the key of the folded table, and NO. */
  ghost predicate FlagOf(n: Names, base: Cache, next: Cache, c: Column, flag: string) {
    var f := ColumnDatabaseKey(n, c.schema, c.table);
    if !MetadataReady(base, PrimaryKeys) then flag == ""
    else if f in Rows(next.primaryKeyColumns) && exists pk :: pk in Rows(next.primaryKeyColumns)[f] && n.equalFold(pk, c.name) then flag == "YES"
    else flag == "NO"
  }

  lemma KeyOfNames(owners: seq<ObjectID>, key: string)
    ensures key in OwnerKeys(owners) <==> exists id :: id in owners && Key(id) == key
  {
    hide Key;
  }

  lemma ReflaggedIsChanged(n: Names, base: Cache, d: ObjectDelta, all: set<ObjectID>, key: string)
    requires DeltaShape(d) && (forall id | id in all :: ValidID(id)) && key in UnflaggedColumns(base, d, all)
    ensures key in ChangedKeys(n, base, d, all) <==> Reflagged(n, base, d, all, key)
  {
    hide Key, ParseKey, DeltaShape, ColumnDatabaseKey, UnflaggedColumns, OwnerKeys;
    KeyOfNames(OwnersOf(d, ColumnsCurrent), key);
    KeyOfNames(OwnersOf(d, ColumnsAll), key);
    KeyOfNames(OwnersOf(d, PrimaryKeys), key);
    if Parses(key) { FoldIsNamed(n, d, all, key); }
  }

  lemma FoldIsNamed(n: Names, d: ObjectDelta, all: set<ObjectID>, key: string)
    requires DeltaShape(d) && (forall id | id in all :: ValidID(id)) && Parses(key)
    ensures InFold(n, NamedKeys(d, all), key) <==> NamesFold(n, d, all, FoldOf(n, key))
  {
    hide Key, ParseKey, DeltaShape, ColumnDatabaseKey, OwnerKeys;
    if InFold(n, NamedKeys(d, all), key) {
      var other :| other in NamedKeys(d, all) && Parses(other) && FoldOf(n, other) == FoldOf(n, key);
      var id := NamingIdentity(d, all, other);
      ParsesItself(id);
      ParsesItself(RelationID(id));
      assert ColumnDatabaseKey(n, id.schema, id.name) == FoldOf(n, other);
    }
    if NamesFold(n, d, all, FoldOf(n, key)) {
      var id: ObjectID :|
        && ((id in all && IsRelation(id)) || id in OwnersOf(d, ColumnsCurrent) + OwnersOf(d, ColumnsAll) + OwnersOf(d, PrimaryKeys))
        && ColumnDatabaseKey(n, id.schema, id.name) == FoldOf(n, key);
      var other := NamedKeyOf(d, all, id);
      assert FoldOf(n, other) == FoldOf(n, key);
    }
  }

  lemma NamedKeyOf(d: ObjectDelta, all: set<ObjectID>, id: ObjectID) returns (other: string)
    requires DeltaShape(d) && forall x | x in all :: ValidID(x)
    requires (id in all && IsRelation(id)) || id in OwnersOf(d, ColumnsCurrent) + OwnersOf(d, ColumnsAll) + OwnersOf(d, PrimaryKeys)
    ensures other in NamedKeys(d, all) && Parses(other) && Parsed(other).schema == id.schema && Parsed(other).name == id.name
  {
    hide Key, ParseKey, DeltaShape;
    if id in all && IsRelation(id) {
      ParsesItself(RelationID(id));
      other := Key(RelationID(id));
    } else {
      var k := if id in OwnersOf(d, ColumnsCurrent) then ColumnsCurrent else if id in OwnersOf(d, ColumnsAll) then ColumnsAll else PrimaryKeys;
      OwnersAreNamed(d, k, id);
      ParsesItself(id);
      other := Key(id);
      assert other in OwnerKeys(OwnersOf(d, k));
    }
  }

  /** The flag of every column after a merge, for any base: by the merged primary keys where the merge looks
      again, and as it came otherwise. */
  lemma MergedFlags(n: Names, base: Cache, d: ObjectDelta, all: set<ObjectID>, next: Cache, key: string, i: nat)
    requires Merged(n, base, d, all, next) && (ColumnsTouched(d, all) || KeysTouched(d, all))
    requires key in Rows(next.columnsByID) && i < |Rows(next.columnsByID)[key]|
    ensures var cols := ColumnSource(base, d, all, key);
            var now: Option<Column> := Rows(next.columnsByID)[key][i];
            && cols.Some? && i < |cols.value|
            && var was: Option<Column> := cols.value[i];
               (was.Some? <==> now.Some?) &&
               (was.Some? ==> if Reflagged(n, base, d, all, key) then FlagOf(n, base, next, was.value, now.value.key) else now.value.key == was.value.key)
  {
    hide DeltaShape, CatalogMergeable, CatalogMerged, RelationsMergeable, RelationsMerged, ColumnsMergeable, FKMergeable, FKMerged, DependenciesMergeable, DependenciesMerged, AllDeleted, RemovalsParse, ChangedKeys, UnflaggedColumns, MergedKeys, ColumnSource, Reflagged, FlagOf, KeyFlag, ViewsRefreshed, FoldedKeysMerged, ColumnsTouched, KeysTouched;
    var mid: Cache, full: Cache :| MergedVia(n, base, d, all, mid, full, next);
    DeletedAreValid(base, d, all);
    ColumnRow(base, d, all, key);
    ReflaggedIsChanged(n, base, d, all, key);
    var was: Option<Column> := UnflaggedColumns(base, d, all)[key][i];
    if was.Some? { FlagIs(n, base, next, was.value); }
  }

  lemma FlagIs(n: Names, base: Cache, next: Cache, c: Column)
    ensures FlagOf(n, base, next, c, KeyFlag(n, base, Rows(next.primaryKeyColumns), c))
  {
  }

  /** What the key flags of a canonical cache say: YES exactly for the columns that some table of the same
      folded name has in its primary key. */
  lemma FlagsMean(n: Names, c: Cache, key: string, i: nat)
    requires CanonicalKeys(n, c) && CanonicalColumns(n, c) && MetadataReady(c, PrimaryKeys)
    requires key in Rows(c.columnsByID) && i < |Rows(c.columnsByID)[key]|
    ensures var col: Option<Column> := Rows(c.columnsByID)[key][i];
            && col.Some? && (col.value.key == "YES" || col.value.key == "NO")
            && (col.value.key == "YES" <==> InKey(n, c, col.value))
  {
    hide Parses, Parsed, FoldOf, ColumnDatabaseKey, ColumnsFoldedFrom;
    assert FlaggedRow(n, c, key, Rows(c.columnsByID)[key][i]);
    var col: Option<Column> := Rows(c.columnsByID)[key][i];
    KeyMeans(n, c, col.value);
  }

  /** A table that folds like the column's has a primary key column of this name. */
  ghost predicate InKey(n: Names, c: Cache, col: Column) {
    exists table, pk |
      table in Rows(c.primaryKeysByID) && pk in Rows(c.primaryKeysByID)[table] && Parses(table) ::
      ColumnDatabaseKey(n, Parsed(table).schema, Parsed(table).name) == ColumnDatabaseKey(n, col.schema, col.table) && n.equalFold(pk, col.name)
  }

  lemma KeyMeans(n: Names, c: Cache, col: Column)
    requires CanonicalKeys(n, c)
    ensures KeyMember(n, Rows(c.primaryKeyColumns), col) <==> InKey(n, c, col)
  {
    hide Parses, Parsed, ColumnDatabaseKey;
    var keys, folded := Rows(c.primaryKeysByID), Rows(c.primaryKeyColumns);
    var f := ColumnDatabaseKey(n, col.schema, col.table);
    assert forall table | table in keys :: PlainTable(table);
    if KeyMember(n, folded, col) {
      var pk :| pk in folded[f] && n.equalFold(pk, col.name);
      assert exists table | table in keys :: FoldOf(n, table) == f && pk in keys[table];
    }
    if InKey(n, c, col) {
      var table, pk :| table in keys && pk in keys[table] && FoldOf(n, table) == f && n.equalFold(pk, col.name);
      assert f in folded && pk in folded[f];
    }
  }

  // ----- the folded columns

  /** The rows of the tables that fold to `f`, table after table. */
  ghost function RowsUnder(n: Names, ids: seq<string>, cols: map<string, Columns>, f: string): Columns
    requires forall id | id in ids :: id in cols && Parses(id)
  {
    if ids == [] then [] else
      RowsUnder(n, ids[..|ids| - 1], cols, f) + if FoldOf(n, ids[|ids| - 1]) == f then cols[ids[|ids| - 1]] else []
  }

  function At<V>(m: map<string, seq<V>>, f: string): seq<V> {
    if f in m then m[f] else []
  }

  lemma {:induction false} FilesAtOne(n: Names, m: map<string, Columns>, cols: Columns, table: string, f: string)
    requires Parses(table) && forall c | c in cols :: ColumnRowOk(c, Parsed(table))
    ensures At(FileColumns(n, m, cols), f) == At(m, f) + if FoldOf(n, table) == f then cols else []
  {
    hide Parses, Parsed;
    if cols != [] {
      var front, c := cols[..|cols| - 1], cols[|cols| - 1];
      assert c in cols && cols == front + [c];
      FilesAtOne(n, m, front, table, f);
    }
  }

  lemma {:induction false} FilesAt(n: Names, ids: seq<string>, cols: map<string, Columns>, f: string)
    requires forall id | id in ids :: id in cols && Parses(id) && forall c | c in cols[id] :: ColumnRowOk(c, Parsed(id))
    ensures At(FileAll(n, ids, cols), f) == RowsUnder(n, ids, cols, f)
  {
    hide Parses, Parsed, ColumnRowOk, FileColumns;
    if ids != [] {
      var front, last := ids[..|ids| - 1], ids[|ids| - 1];
      assert last in ids;
      FilesAt(n, front, cols, f);
      FilesAtOne(n, FileAll(n, front, cols), cols[last], last, f);
    }
  }

  /** ColumnsWithParent lists under each folded table the rows of the tables that fold to it, in the order
      of their names, and nothing else. */
  lemma FoldedColumnsExactly(n: Names, c: Cache) returns (ids: seq<string>)
    requires CanonicalColumns(n, c)
    ensures ListsKeys(ids, Rows(c.columnsByID).Keys)
    ensures forall id | id in ids :: id in Rows(c.columnsByID) && Parses(id)
    ensures forall f :: At(Rows(c.columnsWithParent), f) == RowsUnder(n, ids, Rows(c.columnsByID), f)
  {
    hide Parses, Parsed, KeyOrderLess, FileAll, KeyFlag, ColumnRowOk;
    var cols := Rows(c.columnsByID);
    ids :| ListsKeys(ids, cols.Keys) && Rows(c.columnsWithParent) == FileAll(n, ids, cols);
    forall id | id in ids
      ensures Parses(id) && forall col | col in cols[id] :: ColumnRowOk(col, Parsed(id))
    {
      assert PlainTable(id);
      forall col | col in cols[id] ensures ColumnRowOk(col, Parsed(id)) {
        var i :| 0 <= i < |cols[id]| && cols[id][i] == col;
        assert FlaggedRow(n, c, id, cols[id][i]);
      }
    }
    forall f { FilesAt(n, ids, cols, f); }
  }

  // ----- foreign keys

  /** A foreign key of the base that stays: neither of its tables is covered or deleted. */
  ghost predicate KeyStays(d: ObjectDelta, all: set<ObjectID>, fk: ForeignKey) {
    && FKOk(Some(fk))
    && forall end | end == LeftEnd(fk) || end == RightEnd(fk) ::
         && TableID(end.schema, end.table) !in OwnersOf(d, ForeignKeys)
         && TableID(end.schema, end.table) !in all && PlainID(VIEW, end.schema, end.table) !in all
  }

  /** The foreign keys after a merge: the patch's with all their pairs, at new addresses, and those of the
      base that stay.  Each is found from both of its tables. */
  lemma MergedForeignKeys(n: Names, base: Cache, d: ObjectDelta, all: set<ObjectID>, next: Cache, fk: ForeignKey)
    requires CanonicalFKs(n, base) && Merged(n, base, d, all, next)
    ensures Mentions(Rows(next.foreignKeys), Some(fk)) <==>
              || (Mentions(Rows(base.foreignKeys), Some(fk)) && KeyStays(d, all, fk))
              || (exists p: ForeignKey :: Mentions(PatchFKs(d), Some(p)) && fk.pairs == p.pairs && fk.address == CopyOf(p.address))
    ensures Mentions(Rows(next.foreignKeys), Some(fk)) ==> FKOk(Some(fk)) && FoundFromBoth(n, Rows(next.foreignKeys), fk)
  {
    hide DeltaShape, CatalogMergeable, CatalogMerged, RelationsMergeable, RelationsMerged, ColumnsMergeable, ColumnsMerged, FKMergeable, FKMerged, DependenciesMergeable, DependenciesMerged, AllDeleted, RemovalsParse, Mentions, RemainingFK, KeyStays, CanonicalFKs, FoundFromBoth;
    var mid: Cache, full: Cache :| MergedVia(n, base, d, all, mid, full, next);
    FKsAreMerged(n, base, d, all, next);
    RemainingMeans(base, d, all, fk);
    if Mentions(Rows(next.foreignKeys), Some(fk)) {
      CanonicalKeysAreFound(n, next, fk);
    }
  }

  lemma RemainingMeans(base: Cache, d: ObjectDelta, all: set<ObjectID>, fk: ForeignKey)
    ensures RemainingFK(base, d, all, fk) <==>
              || (Mentions(Rows(base.foreignKeys), Some(fk)) && KeyStays(d, all, fk))
              || (exists p: ForeignKey :: Mentions(PatchFKs(d), Some(p)) && fk.pairs == p.pairs && fk.address == CopyOf(p.address))
  {
    hide Mentions;
    assert forall p: ForeignKey :: fk == CopyFK(p) <==> fk.pairs == p.pairs && fk.address == CopyOf(p.address);
  }

  /** The columns are named and on one table. */
  predicate OnOneTable(c: Option<ColumnBase>, first: Option<ColumnBase>) {
    c.Some? && first.Some? && c.value.name != "" && c.value.table != "" && c.value.schema == first.value.schema && c.value.table == first.value.table
  }

  /** A foreign key of a canonical cache joins columns of one table with columns of one table, at least one pair. */
  lemma KeysJoinTwoTables(n: Names, c: Cache, fk: ForeignKey)
    requires CanonicalFKs(n, c) && Mentions(Rows(c.foreignKeys), Some(fk))
    ensures fk.pairs != [] && forall i | 0 <= i < |fk.pairs| :: OnOneTable(fk.pairs[i].left, fk.pairs[0].left) && OnOneTable(fk.pairs[i].right, fk.pairs[0].right)
  {
    hide Mentions;
    CanonicalKeysAreFound(n, c, fk);
    forall i | 0 <= i < |fk.pairs| ensures OnOneTable(fk.pairs[i].left, fk.pairs[0].left) && OnOneTable(fk.pairs[i].right, fk.pairs[0].right) {
      assert fk.pairs[i] in fk.pairs;
    }
  }

  /** The key is in the cell of its tables, seen from the left one and from the right one. */
  ghost predicate FoundFromBoth(n: Names, index: FKIndex, fk: ForeignKey)
    requires FKOk(Some(fk))
  {
    var l := ColumnDatabaseKey(n, LeftEnd(fk).schema, LeftEnd(fk).table);
    var r := ColumnDatabaseKey(n, RightEnd(fk).schema, RightEnd(fk).table);
    Some(fk) in CellOf(index, l, r) && Some(fk) in CellOf(index, r, l)
  }

  lemma CanonicalKeysAreFound(n: Names, c: Cache, fk: ForeignKey)
    requires CanonicalFKs(n, c) && Mentions(Rows(c.foreignKeys), Some(fk))
    ensures FKOk(Some(fk)) && FoundFromBoth(n, Rows(c.foreignKeys), fk)
  {
    hide Mentions;
    var order: seq<ForeignKey> :| IndexesFKs(n, Rows(c.foreignKeys), order);
    IndexMentions(n, order, Some(fk));
    FiledBothWays(n, order, fk);
  }

  lemma {:induction false} FiledBothWays(n: Names, order: seq<ForeignKey>, fk: ForeignKey)
    requires (forall x | x in order :: FKOk(Some(x))) && fk in order
    ensures FoundFromBoth(n, FKIndexOf(n, order), fk)
  {
    hide Filed, CellOf, FKOk, ColumnDatabaseKey;
    var front, last := order[..|order| - 1], order[|order| - 1];
    var m := FKIndexOf(n, front);
    var x, y := ColumnDatabaseKey(n, LeftEnd(last).schema, LeftEnd(last).table), ColumnDatabaseKey(n, RightEnd(last).schema, RightEnd(last).table);
    var l, r := ColumnDatabaseKey(n, LeftEnd(fk).schema, LeftEnd(fk).table), ColumnDatabaseKey(n, RightEnd(fk).schema, RightEnd(fk).table);
    FiledAt(m, x, y, last, l, r);
    FiledAt(m, x, y, last, r, l);
    FiledAt(Filed(m, x, y, last), y, x, last, l, r);
    FiledAt(Filed(m, x, y, last), y, x, last, r, l);
    if fk != last {
      assert fk in front;
      FiledBothWays(n, front, fk);
    }
  }

  // ----- dependencies

  /** A deleted object is this reference, or the relation it is part of, or the view that it names as a table. */
  ghost predicate RemovedRef(all: set<ObjectID>, r: DependencyRef) {
    exists id | id in all :: id.schema == "" &&
      (|| (id.kind == r.kind && id.name == r.name)
       || ((id.kind == TABLE || id.kind == VIEW) && id.name == r.parent)
       || (id.kind == VIEW && r.kind == TABLE && id.name == r.name))
  }

  lemma RemovedIsGone(all: set<ObjectID>, r: DependencyRef)
    ensures RefGone(all, r) <==> RemovedRef(all, r)
  {
    if RemovedRef(all, r) {
      var id :| id in all && id.schema == "" &&
        (|| (id.kind == r.kind && id.name == r.name)
         || ((id.kind == TABLE || id.kind == VIEW) && id.name == r.parent)
         || (id.kind == VIEW && r.kind == TABLE && id.name == r.name));
      assert RefGoneBy(id, r);
    }
  }

  /** A deleted table or view of this name. */
  ghost predicate RemovedRelation(all: set<ObjectID>, relation: string) {
    exists id | id in all :: (id.kind == TABLE || id.kind == VIEW) && id.name == relation
  }

  /** The dependencies after a merge: of the base's edges those that come from no owned reference and touch
      nothing deleted, and the delta's own; and for every relation the check names that the delta gives it, or
      else the base's unless it is deleted, each once and sorted. */
  lemma MergedDependencies(n: Names, base: Cache, d: ObjectDelta, all: set<ObjectID>, next: Cache, e: DependencyEdge, relation: string)
    requires Merged(n, base, d, all, next) && base.dependencies.Some? && CanonicalGraph(base.dependencies.value)
    ensures next.dependencies.Some?
    ensures e in next.dependencies.value.edges <==>
              || e in d.dependencyEdges
              || (e in base.dependencies.value.edges && e.from !in d.dependencyOwners && !RemovedRef(all, e.from) && !RemovedRef(all, e.to))
    ensures var was, now := base.dependencies.value.checks, next.dependencies.value.checks;
            && (relation in now <==> relation in d.checkNames || (relation in was && !RemovedRelation(all, relation)))
            && (relation in now ==> SortedSet(now[relation], if relation in d.checkNames then d.checkNames[relation] else if relation in was then was[relation] else []))
  {
    hide DeltaShape, CatalogMergeable, CatalogMerged, RelationsMergeable, RelationsMerged, ColumnsMergeable, ColumnsMerged, FKMergeable, FKMerged, DependenciesMerged, AllDeleted, RemovalsParse, RefGone, RemovedRef, SortedSet;
    var mid: Cache, full: Cache :| MergedVia(n, base, d, all, mid, full, next);
    DependenciesAreMerged(base, d, all, next);
    RemovedIsGone(all, e.from);
    RemovedIsGone(all, e.to);
  }
}
