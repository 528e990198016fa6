/** Tables, columns and keys after a merge: still canonical, and what they hold. */
module WatchProjections {
  import opened Wrappers
  import opened Identity
  import opened ObjectIndexes
  import opened CatalogTypes
  import opened Sorting
  import opened WatchSpec
  import opened WatchColumns
  import opened WatchCanonical

  // ----- relation membership

  lemma KeepsEverything(d: ObjectDelta, deleted: set<ObjectID>, schema: string, names: seq<string>)
    requires OwnersOf(d, Relations) == [] && !AnyRelation(deleted)
    ensures Kept(d, deleted, schema, names) == names
  {
    if names != [] {
      var last := names[|names| - 1];
      KeepsEverything(d, deleted, schema, names[..|names| - 1]);
      assert !RelationDeleted(deleted, schema, last) && !NamedBy(OwnersOf(d, Relations), schema, last);
      assert names == names[..|names| - 1] + [last];
    }
  }

  /** Touched or not, a schema lists exactly the kept names and the patch's names. */
  lemma TablesAreMerged(base: Cache, d: ObjectDelta, deleted: set<ObjectID>, next: Option<map<string, seq<string>>>, schema: string)
    requires RelationsMerged(base, d, deleted, next)
    ensures forall name :: name in SchemaRows(Rows(next), schema) <==> name in MergedNames(base, d, deleted, schema)
  {
    if !RelationsTouched(d, deleted) {
      KeepsEverything(d, deleted, schema, SchemaRows(Rows(base.schemaTables), schema));
      assert MergedNames(base, d, deleted, schema) == SchemaRows(Rows(base.schemaTables), schema);
    }
  }

  lemma {:induction false} KeptNames(d: ObjectDelta, deleted: set<ObjectID>, schema: string, names: seq<string>)
    ensures forall name :: name in Kept(d, deleted, schema, names) <==> name in names && KeepsRelation(d, deleted, schema, name)
  {
    if names != [] {
      KeptNames(d, deleted, schema, names[..|names| - 1]);
      assert names == names[..|names| - 1] + [names[|names| - 1]];
    }
  }

  lemma TablesStayCanonical(base: Cache, d: ObjectDelta, deleted: set<ObjectID>, next: Cache)
    requires RelationsMergeable(base, d, deleted) && RelationsMerged(base, d, deleted, next.schemaTables)
    requires CanonicalTables(base) && PlainDelta(d)
    ensures CanonicalTables(next)
  {
    if RelationsTouched(d, deleted) {
      forall s | s in Rows(next.schemaTables) ensures s == "" {
        if s !in Rows(base.schemaTables) {
          var name := SchemaRows(PatchTables(d), s)[0];
          assert NamedBy(OwnersOf(d, Relations), s, name);
          assert PlainIdentity(TableID(s, name)) || PlainIdentity(PlainID(VIEW, s, name));
        }
      }
    }
  }

  // ----- primary keys

  lemma NothingCut<V>(m: map<string, V>, deleted: set<ObjectID>)
    requires !AnyRelation(deleted)
    ensures CutRows(m, deleted) == m
  {
    forall key | key in m ensures !KeyDeleted(deleted, key) { }
  }

  lemma KeysUntouched(base: Cache, d: ObjectDelta, deleted: set<ObjectID>)
    requires !KeysTouched(d, deleted)
    ensures MergedKeys(base, d, deleted) == Rows(base.primaryKeysByID)
  {
    NothingCut(Rows(base.primaryKeysByID), deleted);
    NothingCut<seq<string>>(map[], deleted);
    CutTwice(Rows(base.primaryKeysByID), deleted);
  }

  lemma OwnedTableIsPlain(owners: seq<ObjectID>, key: string)
    requires forall id | id in owners :: PlainIdentity(id)
    requires Parses(key) && Parsed(key).kind == TABLE && Parsed(key) in owners
    ensures PlainTable(key)
  {
    ParseKeyMeaning(key);
  }

  lemma MergedKeysArePlain(n: Names, base: Cache, d: ObjectDelta, deleted: set<ObjectID>)
    requires PlainDelta(d) && forall key | key in Rows(base.primaryKeysByID) :: PlainTable(key)
    requires PrimaryKeys in d.owners ==> KeyPatchOk(n, d, deleted)
    ensures forall key | key in MergedKeys(base, d, deleted) :: PlainTable(key)
  {
    forall key | key in MergedKeys(base, d, deleted) ensures PlainTable(key) {
      if key in CutRows(PatchKeys(d), deleted) {
        assert EntryOk(d.owners[PrimaryKeys], deleted, GoodKeys, [], key, PatchKeys(d)[key]);
        OwnedTableIsPlain(d.owners[PrimaryKeys], key);
      } else {
        assert key in Rows(base.primaryKeysByID);
      }
    }
  }

  lemma KeysStayCanonical(n: Names, base: Cache, d: ObjectDelta, deleted: set<ObjectID>, next: Cache)
    requires PlainDelta(d) && CanonicalKeys(n, base)
    requires PrimaryKeys in d.owners ==> KeyPatchOk(n, d, deleted)
    requires Rows(next.primaryKeysByID) == MergedKeys(base, d, deleted) && FoldedKeysMerged(n, base, d, deleted, next)
    ensures CanonicalKeys(n, next)
  {
    MergedKeysArePlain(n, base, d, deleted);
    if !KeysTouched(d, deleted) {
      KeysUntouched(base, d, deleted);
    }
  }

  // ----- folded keys that the delta does not reach

  lemma NamedFold(n: Names, d: ObjectDelta, deleted: set<ObjectID>, key: string)
    requires Parses(key) && (KeyDeleted(deleted, key) || key in OwnerKeys(OwnersOf(d, PrimaryKeys)))
    requires forall id | id in deleted :: ValidID(id)
    ensures InFold(n, NamedKeys(d, deleted), key)
  {
    var id := Parsed(key);
    if key in OwnerKeys(OwnersOf(d, PrimaryKeys)) {
      assert key in NamedKeys(d, deleted);
    } else {
      var gone := if TableID(id.schema, id.name) in deleted then TableID(id.schema, id.name) else PlainID(VIEW, id.schema, id.name);
      var name := Key(RelationID(gone));
      ParseKeyInverts(RelationID(gone));
      assert gone in deleted && IsRelation(gone);
      assert name in NamedKeys(d, deleted);
    }
  }

  /** A folded table that no named relation folds to keeps exactly its key columns. */
  lemma UnreachedFold(n: Names, base: Cache, d: ObjectDelta, deleted: set<ObjectID>, folded: map<string, set<string>>, key: string)
    requires forall id | id in deleted :: ValidID(id)
    requires forall other | other in Rows(base.primaryKeysByID) :: Parses(other)
    requires forall other | other in MergedKeys(base, d, deleted) :: Parses(other)
    requires PrimaryKeys in d.owners ==> KeyPatchOk(n, d, deleted)
    requires KeysFoldedFrom(n, Rows(base.primaryKeysByID), Rows(base.primaryKeyColumns))
    requires KeysFoldedFrom(n, MergedKeys(base, d, deleted), folded)
    requires Parses(key) && !InFold(n, NamedKeys(d, deleted), key)
    ensures FoldOf(n, key) in folded <==> FoldOf(n, key) in Rows(base.primaryKeyColumns)
    ensures FoldOf(n, key) in folded ==> folded[FoldOf(n, key)] == Rows(base.primaryKeyColumns)[FoldOf(n, key)]
  {
    var f := FoldOf(n, key);
    var before, after := Rows(base.primaryKeysByID), MergedKeys(base, d, deleted);
    forall other | Parses(other) && FoldOf(n, other) == f
      ensures (other in before <==> other in after) && (other in before ==> before[other] == after[other])
    {
      SameFoldUnreached(n, base, d, deleted, key, other);
    }
    SameFoldedKeys(n, before, Rows(base.primaryKeyColumns), after, folded, f);
  }

  /** Two folded key maps agree on a folded table when the exact maps agree on its tables. */
  lemma SameFoldedKeys(n: Names, before: map<string, seq<string>>, f: map<string, set<string>>, after: map<string, seq<string>>, g: map<string, set<string>>, x: string)
    requires forall key | key in before :: Parses(key)
    requires forall key | key in after :: Parses(key)
    requires KeysFoldedFrom(n, before, f) && KeysFoldedFrom(n, after, g)
    requires forall key | Parses(key) && FoldOf(n, key) == x :: (key in before <==> key in after) && (key in before ==> before[key] == after[key])
    ensures x in f <==> x in g
    ensures x in f ==> f[x] == g[x]
  {
    hide Parses, Parsed, FoldOf;
    SameFolds(n, before, f, x);
    SameFolds(n, after, g, x);
    if x in f {
      forall name ensures name in f[x] <==> name in g[x] {
        assert name in f[x] <==> exists key | key in before :: FoldOf(n, key) == x && name in before[key];
        assert name in g[x] <==> exists key | key in after :: FoldOf(n, key) == x && name in after[key];
      }
    }
  }

  lemma SameFoldUnreached(n: Names, base: Cache, d: ObjectDelta, deleted: set<ObjectID>, key: string, other: string)
    requires forall id | id in deleted :: ValidID(id)
    requires PrimaryKeys in d.owners ==> KeyPatchOk(n, d, deleted)
    requires Parses(key) && !InFold(n, NamedKeys(d, deleted), key)
    requires Parses(other) && FoldOf(n, other) == FoldOf(n, key)
    ensures other in Rows(base.primaryKeysByID) <==> other in MergedKeys(base, d, deleted)
    ensures other in Rows(base.primaryKeysByID) ==> Rows(base.primaryKeysByID)[other] == MergedKeys(base, d, deleted)[other]
  {
    if KeyDeleted(deleted, other) || other in OwnerKeys(OwnersOf(d, PrimaryKeys)) {
      NamedFold(n, d, deleted, other);
      assert false;
    }
    if other in PatchKeys(d) {
      assert EntryOk(d.owners[PrimaryKeys], deleted, GoodKeys, [], other, PatchKeys(d)[other]);
      ParseKeyMeaning(other);
      assert false;
    }
  }

  // ----- columns

  /** Where an unflagged row list comes from: one of the two column patches, or the base. */
  lemma ColumnOrigin(base: Cache, d: ObjectDelta, deleted: set<ObjectID>, key: string) returns (from: Option<Kind>)
    requires key in UnflaggedColumns(base, d, deleted)
    ensures !KeyDeleted(deleted, key)
    ensures from.Some? ==> (from.value == ColumnsCurrent || from.value == ColumnsAll) && key in PatchColumns(d, from.value) &&
                           UnflaggedColumns(base, d, deleted)[key] == PatchColumns(d, from.value)[key]
    ensures from.None? ==> key in Rows(base.columnsByID) && UnflaggedColumns(base, d, deleted)[key] == Rows(base.columnsByID)[key]
  {
    if key in PatchColumns(d, ColumnsAll) {
      from := Some(ColumnsAll);
    } else if key in PatchColumns(d, ColumnsCurrent) {
      from := Some(ColumnsCurrent);
    } else {
      from := None;
    }
  }

  lemma PatchedColumns(d: ObjectDelta, deleted: set<ObjectID>, k: Kind, key: string)
    requires PlainDelta(d) && k in d.owners && ColumnPatchOk(d, deleted, k)
    requires key in PatchColumns(d, k) && !KeyDeleted(deleted, key)
    ensures PlainTable(key) && key in OwnerKeys(OwnersOf(d, k))
    ensures forall c | c in PatchColumns(d, k)[key] :: ColumnRowOk(c, Parsed(key))
  {
    assert EntryOk(d.owners[k], deleted, GoodColumns, [], key, PatchColumns(d, k)[key]);
    OwnedTableIsPlain(d.owners[k], key);
    ParseKeyMeaning(key);
  }

  ghost predicate RowsFit(cols: map<string, Columns>) {
    forall key, i | key in cols && 0 <= i < |cols[key]| :: Parses(key) && ColumnRowOk(cols[key][i], Parsed(key))
  }

  lemma UnflaggedFit(base: Cache, d: ObjectDelta, deleted: set<ObjectID>)
    requires PlainDelta(d) && RowsFit(Rows(base.columnsByID))
    requires forall key | key in Rows(base.columnsByID) :: PlainTable(key)
    requires ColumnPatchesOk(d, deleted)
    ensures RowsFit(UnflaggedColumns(base, d, deleted))
    ensures forall key | key in UnflaggedColumns(base, d, deleted) :: PlainTable(key)
  {
    var m := UnflaggedColumns(base, d, deleted);
    forall key | key in m
      ensures PlainTable(key)
      ensures forall i | 0 <= i < |m[key]| :: ColumnRowOk(m[key][i], Parsed(key))
    {
      var from := ColumnOrigin(base, d, deleted, key);
      if from.Some? {
        PatchedColumns(d, deleted, from.value, key);
      }
    }
  }

  /** A relation that is not looked at again keeps its base rows. */
  lemma UnchangedRows(base: Cache, d: ObjectDelta, deleted: set<ObjectID>, key: string)
    requires PlainDelta(d)
    requires ColumnPatchesOk(d, deleted)
    requires key in UnflaggedColumns(base, d, deleted) && key !in NamedKeys(d, deleted)
    ensures key in Rows(base.columnsByID) && UnflaggedColumns(base, d, deleted)[key] == Rows(base.columnsByID)[key]
  {
    var from := ColumnOrigin(base, d, deleted, key);
    if from.Some? {
      PatchedColumns(d, deleted, from.value, key);
    }
  }

  lemma FlagStays(n: Names, base: Cache, f: map<string, set<string>>, g: map<string, set<string>>, id: ObjectID, col: Option<Column>)
    requires ColumnRowOk(col, id) && col.value.key == KeyFlag(n, base, f, col.value)
    requires var x := ColumnDatabaseKey(n, id.schema, id.name); (x in f <==> x in g) && (x in f ==> f[x] == g[x])
    ensures Some(col.value.(key := KeyFlag(n, base, g, col.value))) == col
  {
  }

  lemma FlagsStay(n: Names, base: Cache, folded: map<string, set<string>>, key: string)
    requires CanonicalColumns(n, base) && key in Rows(base.columnsByID) && Parses(key)
    requires var x := ColumnDatabaseKey(n, Parsed(key).schema, Parsed(key).name);
             (x in Rows(base.primaryKeyColumns) <==> x in folded) && (x in folded ==> Rows(base.primaryKeyColumns)[x] == folded[x])
    ensures Flagged(n, base, folded, Rows(base.columnsByID)[key]) == Rows(base.columnsByID)[key]
  {
    hide Parses, Parsed, ColumnDatabaseKey, ColumnsFoldedFrom;
    var rows := Rows(base.columnsByID)[key];
    forall i | 0 <= i < |rows| ensures Flagged(n, base, folded, rows)[i] == rows[i] {
      assert FlaggedRow(n, base, key, Rows(base.columnsByID)[key][i]);
      FlagStays(n, base, Rows(base.primaryKeyColumns), folded, Parsed(key), rows[i]);
    }
  }

  /** A relation that is not looked at again already carries the flags of the new folded keys. */
  lemma UnchangedFlags(n: Names, base: Cache, d: ObjectDelta, deleted: set<ObjectID>, folded: map<string, set<string>>, key: string)
    requires PlainDelta(d) && forall id | id in deleted :: ValidID(id)
    requires ExactReplaceable(n, base, d, deleted) && MetadataReady(base, PrimaryKeys)
    requires CanonicalKeys(n, base) && CanonicalColumns(n, base)
    requires forall other | other in MergedKeys(base, d, deleted) :: Parses(other)
    requires KeysFoldedFrom(n, MergedKeys(base, d, deleted), folded)
    requires key in UnflaggedColumns(base, d, deleted) && key !in ChangedKeys(n, base, d, deleted)
    ensures Flagged(n, base, folded, UnflaggedColumns(base, d, deleted)[key]) == UnflaggedColumns(base, d, deleted)[key]
  {
    hide ExactColumnsPublished, ColumnPatchesOk, KeyPatchOk, NoNilColumns, MergedKeys, KeysFoldedFrom, UnflaggedColumns, ValidID, Flagged, MetadataReady;
    UnchangedRows(base, d, deleted, key);
    assert PlainTable(key);
    UnreachedFold(n, base, d, deleted, folded, key);
    FlagsStay(n, base, folded, key);
  }

  /** Rechecking only the named relations and their folded siblings flags every column as a full
      rebuild would. */
  lemma FlagsEverywhere(n: Names, base: Cache, d: ObjectDelta, deleted: set<ObjectID>, folded: map<string, set<string>>)
    requires PlainDelta(d) && forall id | id in deleted :: ValidID(id)
    requires ExactReplaceable(n, base, d, deleted) && MetadataReady(base, PrimaryKeys)
    requires CanonicalKeys(n, base) && CanonicalColumns(n, base)
    requires forall other | other in MergedKeys(base, d, deleted) :: Parses(other)
    requires KeysFoldedFrom(n, MergedKeys(base, d, deleted), folded)
    ensures MergedColumns(n, base, d, deleted, folded) == RebuiltColumns(n, base, d, deleted, folded)
  {
    hide PlainDelta, ExactReplaceable, MetadataReady, CanonicalKeys, CanonicalColumns, MergedKeys, KeysFoldedFrom, Flagged, UnflaggedColumns, ChangedKeys, ValidID;
    var m := UnflaggedColumns(base, d, deleted);
    forall key | key in m && key !in ChangedKeys(n, base, d, deleted) ensures Flagged(n, base, folded, m[key]) == m[key] {
      UnchangedFlags(n, base, d, deleted, folded, key);
    }
  }

  /** Every column of every relation, flagged anew. */
  ghost function RebuiltColumns(n: Names, base: Cache, d: ObjectDelta, deleted: set<ObjectID>, folded: map<string, set<string>>): map<string, Columns> {
    map key | key in UnflaggedColumns(base, d, deleted) :: Flagged(n, base, folded, UnflaggedColumns(base, d, deleted)[key])
  }

  lemma ColumnsStayCanonical(n: Names, base: Cache, mid: Cache, d: ObjectDelta, deleted: set<ObjectID>, next: Cache)
    requires PlainDelta(d) && forall id | id in deleted :: ValidID(id)
    requires MetadataReady(base, PrimaryKeys) && CanonicalKeys(n, base) && CanonicalColumns(n, base)
    requires ColumnsMergeable(n, base, d, deleted) && ColumnsMerged(n, base, mid, d, deleted, next)
    requires mid == base.(catalog := mid.catalog, schemaTables := mid.schemaTables)
    ensures CanonicalKeys(n, next) && CanonicalColumns(n, next)
    ensures Rows(next.columnsByID) == RebuiltColumns(n, base, d, deleted, Rows(next.primaryKeyColumns))
    ensures Rows(next.primaryKeysByID) == MergedKeys(base, d, deleted)
  {
    if ColumnsTouched(d, deleted) || KeysTouched(d, deleted) {
      KeysStayCanonical(n, base, d, deleted, next);
      FlagsEverywhere(n, base, d, deleted, Rows(next.primaryKeyColumns));
      RebuiltIsCanonical(n, base, d, deleted, next);
    } else {
      KeysUntouched(base, d, deleted);
      ColumnsUntouched(n, base, d, deleted);
    }
  }

  lemma RebuiltIsCanonical(n: Names, base: Cache, d: ObjectDelta, deleted: set<ObjectID>, next: Cache)
    requires PlainDelta(d) && ExactReplaceable(n, base, d, deleted) && CanonicalColumns(n, base)
    requires Rows(next.columnsByID) == RebuiltColumns(n, base, d, deleted, Rows(next.primaryKeyColumns))
    requires next.metadata == base.metadata
    requires ColumnsFoldedFrom(n, Rows(next.columnsByID), Rows(next.columnsWithParent))
    ensures CanonicalColumns(n, next)
  {
    BaseRowsFit(n, base);
    UnflaggedFit(base, d, deleted);
    FlaggingFits(n, base, UnflaggedColumns(base, d, deleted), next);
  }

  /** Flagging every row of well-placed columns gives canonical rows. */
  lemma FlaggingFits(n: Names, base: Cache, m: map<string, Columns>, next: Cache)
    requires RowsFit(m) && next.metadata == base.metadata
    requires Rows(next.columnsByID) == map key | key in m :: Flagged(n, base, Rows(next.primaryKeyColumns), m[key])
    ensures forall key, i | key in Rows(next.columnsByID) && 0 <= i < |Rows(next.columnsByID)[key]| :: FlaggedRow(n, next, key, Rows(next.columnsByID)[key][i])
  {
    forall key, i | key in Rows(next.columnsByID) && 0 <= i < |Rows(next.columnsByID)[key]| ensures FlaggedRow(n, next, key, Rows(next.columnsByID)[key][i]) {
      assert ColumnRowOk(m[key][i], Parsed(key));
    }
  }

  lemma BaseRowsFit(n: Names, base: Cache)
    requires CanonicalColumns(n, base)
    ensures RowsFit(Rows(base.columnsByID))
  {
    forall key, i | key in Rows(base.columnsByID) && 0 <= i < |Rows(base.columnsByID)[key]|
      ensures Parses(key) && ColumnRowOk(Rows(base.columnsByID)[key][i], Parsed(key))
    {
      assert FlaggedRow(n, base, key, Rows(base.columnsByID)[key][i]);
    }
  }

  lemma UnflaggedUntouched(base: Cache, d: ObjectDelta, deleted: set<ObjectID>)
    requires !ColumnsTouched(d, deleted)
    ensures UnflaggedColumns(base, d, deleted) == Rows(base.columnsByID)
  {
    NothingCut(Rows(base.columnsByID), deleted);
    NothingCut<Columns>(map[], deleted);
    CutTwice(Rows(base.columnsByID), deleted);
  }

  lemma ColumnsUntouched(n: Names, base: Cache, d: ObjectDelta, deleted: set<ObjectID>)
    requires !ColumnsTouched(d, deleted) && CanonicalColumns(n, base)
    ensures UnflaggedColumns(base, d, deleted) == Rows(base.columnsByID)
    ensures RebuiltColumns(n, base, d, deleted, Rows(base.primaryKeyColumns)) == Rows(base.columnsByID)
  {
    hide UnflaggedColumns;
    UnflaggedUntouched(base, d, deleted);
    forall key | key in Rows(base.columnsByID) ensures Flagged(n, base, Rows(base.primaryKeyColumns), Rows(base.columnsByID)[key]) == Rows(base.columnsByID)[key] {
      var rows := Rows(base.columnsByID)[key];
      forall i | 0 <= i < |rows| ensures Flagged(n, base, Rows(base.primaryKeyColumns), rows)[i] == rows[i] {
        assert FlaggedRow(n, base, key, Rows(base.columnsByID)[key][i]);
      }
    }
  }
}
