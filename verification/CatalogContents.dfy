/** What a merged category holds: every field of the cache after one merge. */
module CatalogContents {
  import opened Wrappers
  import opened Identity
  import opened ObjectIndexes
  import opened CatalogTypes
  import opened WatchSpec
  import opened CatalogMerge
  import WatchContents

  /** One merge makes its category ready and takes the category's own fields from the patch, as they are; every
      other field, and every other category's state, stays. */
  lemma FieldsAreMerged(n: Names, base: Cache, k: Kind, p: Patch, next: Cache)
    requires MergedFrom(n, base, k, p, next)
    ensures next.metadata.Keys == base.metadata.Keys + {k} && next.metadata[k] == Ready
    ensures forall j | j in base.metadata && j != k :: next.metadata[j] == base.metadata[j]
    ensures var f := p.cache.value;
            && next.defaultSchema == (if k == Schemas then f.defaultSchema else base.defaultSchema)
            && next.schemas == (if k == Schemas then f.schemas else base.schemas)
            && next.schemaTables == (if k == Relations then f.schemaTables else base.schemaTables)
            && next.primaryKeyColumns == (if k == PrimaryKeys then f.primaryKeyColumns else base.primaryKeyColumns)
            && next.primaryKeysByID == (if k == PrimaryKeys then f.primaryKeysByID else base.primaryKeysByID)
            && next.foreignKeys == (if k == ForeignKeys then f.foreignKeys else base.foreignKeys)
            && next.dependencies == (if k == Dependencies then f.dependencies else base.dependencies)
            && (!Descriptor(k) ==> next.catalog == base.catalog)
  {
    hide WithColumns, WithKeys, CategoryFrom, DerivedOnce;
    PlainFields(n, base, k, p.cache.value, next);
    NothingDerived(n, base, k, p.cache.value, next);
  }

  lemma PlainFields(n: Names, base: Cache, k: Kind, f: Cache, next: Cache)
    requires Plain(next) == PlainMerged(n, base, k, f)
    ensures next.metadata == base.metadata[k := Ready]
    ensures next.defaultSchema == (if k == Schemas then f.defaultSchema else base.defaultSchema)
    ensures next.schemas == (if k == Schemas then Some(Rows(f.schemas)) else base.schemas)
    ensures next.schemaTables == (if k == Relations then Some(Rows(f.schemaTables)) else base.schemaTables)
    ensures next.primaryKeyColumns == (if k == PrimaryKeys then Some(Rows(f.primaryKeyColumns)) else base.primaryKeyColumns)
    ensures next.primaryKeysByID == (if k == PrimaryKeys then f.primaryKeysByID else base.primaryKeysByID)
    ensures next.foreignKeys == (if k == ForeignKeys then Some(Rows(f.foreignKeys)) else base.foreignKeys)
    ensures next.dependencies == (if k == Dependencies then f.dependencies else base.dependencies)
  {
  }

  lemma NothingDerived(n: Names, base: Cache, k: Kind, f: Cache, next: Cache)
    requires DerivedOnce(n, base, k, f, next)
    ensures !Descriptor(k) ==> next.catalog == base.catalog
  {
    hide IndexesRows, IndexGroupsFrom, TriggerGroupsFrom;
  }

  /** The rows of the merged descriptor category are the patch's, and those of every other are the base's. */
  lemma RowsAreMerged(n: Names, base: Cache, k: Kind, p: Patch, next: Cache, j: Kind)
    requires MergedFrom(n, base, k, p, next) && Descriptor(k) && Descriptor(j)
    ensures ExactRows(Header(next), j) == ExactRows(Header(if j == k then p.cache.value else base), j)
    ensures HasFoldedMap(j) ==> FoldedRows(Header(next), j) == FoldedRows(Header(if j == k then p.cache.value else base), j)
    ensures next.catalog.Some? && CategoryOf(Header(next), k).exact.Some? && (HasFoldedMap(k) ==> CategoryOf(Header(next), k).folded.Some?)
  {
    hide DerivedOnce, Mergeable, PlainMerged, Plain, Header, CategoryFrom;
    MergeableFacts(k, p);
    CategoriesAreMerged(n, base, k, p.cache.value, next);
    FragmentRows(k, p.cache.value);
  }

  lemma FragmentRows(k: Kind, f: Cache)
    ensures var c := CategoryFrom(k, f);
            && c.exact == Some(ExactRows(Header(f), k)) && (HasFoldedMap(k) ==> c.folded == Some(FoldedRows(Header(f), k)))
  {
  }

  lemma CategoriesAreMerged(n: Names, base: Cache, k: Kind, f: Cache, next: Cache)
    requires Plain(next) == PlainMerged(n, base, k, f) && Descriptor(k)
    ensures next.catalog.Some? && Header(next).categories == Header(base).categories[k := CategoryFrom(k, f)]
  {
    hide CategoryFrom;
    assert Header(Plain(next)).categories == Header(next).categories;
  }

  /** Only merging indexes changes the groups of indexes, to the patch's own if it has any; and only merging
      triggers the groups of triggers. */
  lemma GroupsAreMerged(n: Names, base: Cache, k: Kind, p: Patch, next: Cache)
    requires MergedFrom(n, base, k, p, next) && Descriptor(k)
    ensures k != Indexes ==> Header(next).indexesByTable == Header(base).indexesByTable
    ensures k != Triggers ==> Header(next).triggersByTable == Header(base).triggersByTable
    ensures k == Indexes && Header(p.cache.value).indexesByTable.Some? ==> Header(next).indexesByTable == Header(p.cache.value).indexesByTable
  {
    hide IndexesRows, TriggerGroupsFrom, PlainMerged, Plain, Mergeable;
    MergeableFacts(k, p);
  }

  /** A row is found by its name and the kind of its category: with its schema only for indexes and exceptions,
      and with its table only for an index inside a schema. */
  lemma RowIdentity(k: Kind, d: Desc)
    requires Descriptor(k)
    ensures var id := CatalogID(k, d);
            && id.name == d.name && id.kind == KindText(k) && id.catalog == "" && id.owner == ""
            && id.schema == (if k == Indexes || k == Exceptions then d.schema else "")
            && id.parent == (if k == Indexes && d.schema != "" && d.relation.Some? then d.relation.value else "")
  {
  }

  function KindText(k: Kind): string
    requires Descriptor(k)
  {
    match k
    case Views => "view" case Procedures => "procedure" case Generators => "generator" case Domains => "domain" case Functions => "function"
    case Indexes => "index" case Triggers => "trigger" case SystemRelations => "table" case Exceptions => "exception"
  }

  // ----- columns

  /** The map whose columns are those of the merged cache: the patch's when columns are merged, except that
      one schema's do not replace all schemas'; otherwise the base's. */
  function ColumnsFrom(base: Cache, k: Kind, f: Cache): Cache {
    if k == ColumnsAll || (k == ColumnsCurrent && !MetadataReady(base, ColumnsAll)) then f else base
  }

  /** Columns and primary keys meet in this merge, whichever of them came first. */
  predicate Meet(base: Cache, k: Kind) {
    || (k == PrimaryKeys && (MetadataReady(base, ColumnsCurrent) || MetadataReady(base, ColumnsAll)))
    || ((k == ColumnsAll || (k == ColumnsCurrent && !MetadataReady(base, ColumnsAll))) && MetadataReady(base, PrimaryKeys))
  }

  /** The merged primary keys have the column, filed under its table or under the key of the map. */
  ghost predicate InMergedKey(n: Names, next: Cache, byID: bool, table: string, c: Column) {
    var at := if byID then ColumnDatabaseKey(n, c.schema, c.table) else table;
    at in Rows(next.primaryKeyColumns) && exists name | name in Rows(next.primaryKeyColumns)[at] :: n.equalFold(name, c.name)
  }

  /** The flag of one column: YES or NO by the merged primary keys where they meet the columns, and as it
      came otherwise or where it has a schema. */
  ghost predicate FlagIs(n: Names, base: Cache, k: Kind, next: Cache, byID: bool, table: string, was: Column, now: Column) {
    if Meet(base, k) && was.schema == "" then now.key == (if InMergedKey(n, next, byID, table, was) then "YES" else "NO")
    else now.key == was.key
  }

  ghost predicate FlagsAre(n: Names, base: Cache, k: Kind, next: Cache, byID: bool, table: string, was: Columns, are: Columns) {
    |was| == |are| && forall i | 0 <= i < |was| && was[i].Some? && are[i].Some? :: FlagIs(n, base, k, next, byID, table, was[i].value, are[i].value)
  }

  /** The columns after one merge, in both maps: those of ColumnsFrom, in order and unchanged but for the flag. */
  lemma ColumnsAreMerged(n: Names, base: Cache, k: Kind, p: Patch, next: Cache, byID: bool)
    requires MergedFrom(n, base, k, p, next)
    ensures var was, are := Rows(ColumnField(ColumnsFrom(base, k, p.cache.value), byID)), Rows(ColumnField(next, byID));
            && are.Keys == was.Keys
            && forall table | table in was :: WatchContents.SameBut(was[table], are[table]) && FlagsAre(n, base, k, next, byID, table, was[table], are[table])
  {
    hide CategoryFrom, DerivedOnce, MarkedAll, FlagsAre, WatchContents.SameBut, PayloadPresent;
    var was, are := Rows(ColumnField(ColumnsFrom(base, k, p.cache.value), byID)), Rows(ColumnField(next, byID));
    ColumnsField(n, base, k, p.cache.value, next, byID);
    PlainFields(n, base, k, p.cache.value, next);
    forall table | table in was ensures WatchContents.SameBut(was[table], are[table]) && FlagsAre(n, base, k, next, byID, table, was[table], are[table]) {
      if Meet(base, k) {
        MarkedIs(n, base, k, next, byID, table, was[table]);
      } else {
        UnmarkedIs(n, base, k, next, byID, table, was[table]);
      }
    }
  }

  lemma ColumnsField(n: Names, base: Cache, k: Kind, f: Cache, next: Cache, byID: bool)
    requires Plain(next) == PlainMerged(n, base, k, f)
    ensures var was := Rows(ColumnField(ColumnsFrom(base, k, f), byID));
            Rows(ColumnField(next, byID)) == if Meet(base, k) then Enriched(n, byID, was, Rows(next.primaryKeyColumns)) else was
  {
    hide Enriched, CategoryFrom, WithColumns, WithKeys;
    var merged := PlainMerged(n, base, k, f);
    assert ColumnField(next, byID) == ColumnField(merged, byID) && next.primaryKeyColumns == merged.primaryKeyColumns by { PlainColumns(next, byID); }
    if k == PrimaryKeys {
      KeyField(n, Plain(base).(metadata := base.metadata[k := Ready]), f, ColumnsReady(base), byID);
    } else if k == ColumnsAll || k == ColumnsCurrent {
      OwnField(n, Plain(base).(metadata := base.metadata[k := Ready]), f, MetadataReady(base, PrimaryKeys), base.primaryKeyColumns, byID);
    }
  }

  lemma PlainColumns(c: Cache, byID: bool)
    ensures ColumnField(Plain(c), byID) == ColumnField(c, byID) && Plain(c).primaryKeyColumns == c.primaryKeyColumns
  {
  }

  lemma OwnField(n: Names, c: Cache, f: Cache, pk: bool, keys: Option<map<string, set<string>>>, byID: bool)
    ensures var t := WithColumns(n, c, f, pk, keys);
            && t.primaryKeyColumns == c.primaryKeyColumns
            && Rows(ColumnField(t, byID)) == if pk then Enriched(n, byID, Rows(ColumnField(f, byID)), Rows(keys)) else Rows(ColumnField(f, byID))
  {
    hide Enriched;
  }

  lemma KeyField(n: Names, c: Cache, f: Cache, columns: bool, byID: bool)
    ensures var t := WithKeys(n, c, f, columns);
            && Rows(t.primaryKeyColumns) == Rows(f.primaryKeyColumns)
            && Rows(ColumnField(t, byID)) == if columns then Enriched(n, byID, Rows(ColumnField(c, byID)), Rows(f.primaryKeyColumns)) else Rows(ColumnField(c, byID))
  {
    hide Enriched;
  }

  lemma MarkedIs(n: Names, base: Cache, k: Kind, next: Cache, byID: bool, table: string, cols: Columns)
    requires Meet(base, k)
    ensures var marked := MarkedAll(n, byID, table, cols, Rows(next.primaryKeyColumns));
            WatchContents.SameBut(cols, marked) && FlagsAre(n, base, k, next, byID, table, cols, marked)
  {
    hide Meet;
  }

  lemma UnmarkedIs(n: Names, base: Cache, k: Kind, next: Cache, byID: bool, table: string, cols: Columns)
    requires !Meet(base, k)
    ensures WatchContents.SameBut(cols, cols) && FlagsAre(n, base, k, next, byID, table, cols, cols)
  {
  }

  // ----- what is accepted

  /** Every part is there. */
  ghost predicate Whole(c: Cache) {
    && c.schemas.Some? && c.schemaTables.Some? && c.columnsWithParent.Some? && c.primaryKeyColumns.Some? && c.foreignKeys.Some?
    && c.dependencies.Some? && c.catalog.Some?
    && forall k | Descriptor(k) :: CategoryOf(c.catalog.value, k).exact.Some? && (HasFoldedMap(k) ==> CategoryOf(c.catalog.value, k).folded.Some?)
  }

  /** The field that a category is merged into. */
  predicate HasOwnField(k: Kind, c: Cache) {
    && (k == Schemas ==> c.schemas.Some?) && (k == Relations ==> c.schemaTables.Some?)
    && (k == ColumnsCurrent || k == ColumnsAll ==> c.columnsWithParent.Some?)
    && (k == PrimaryKeys ==> c.primaryKeyColumns.Some?) && (k == ForeignKeys ==> c.foreignKeys.Some?) && (k == Dependencies ==> c.dependencies.Some?)
    && (Descriptor(k) ==> c.catalog.Some? && if HasFoldedMap(k) then CategoryOf(c.catalog.value, k).folded.Some? else CategoryOf(c.catalog.value, k).exact.Some?)
  }

  /** A key with at least one pair, and both ends of each. */
  predicate WellFormed(key: Option<ForeignKey>) {
    key.Some? && |key.value.pairs| > 0 && forall i | 0 <= i < |key.value.pairs| :: key.value.pairs[i].left.Some? && key.value.pairs[i].right.Some?
  }

  predicate CellWellFormed(cell: seq<Option<ForeignKey>>) {
    forall i | 0 <= i < |cell| :: WellFormed(cell[i])
  }

  ghost predicate AllWellFormed(index: FKIndex) {
    forall a, b | a in index && b in index[a] :: CellWellFormed(index[a][b])
  }

  /** A patch is accepted if its category is known and its counts are not negative, the field that its category
      is merged into is there, and a foreign key patch has well-formed keys alone; all that it says in other
      fields does not matter. */
  lemma AcceptsExactly(k: Kind, p: Patch)
    ensures Mergeable(k, p) <==>
              && p.cache.Some? && p.count >= 0 && p.queries >= 0 && !k.Other? && HasOwnField(k, p.cache.value)
              && (k == ForeignKeys ==> AllWellFormed(Rows(p.cache.value.foreignKeys)))
    ensures p.cache.Some? && Whole(p.cache.value) && p.count >= 0 && p.queries >= 0 && !k.Other? && k != ForeignKeys ==> Mergeable(k, p)
  {
    hide AllWellFormed, ValidForeignKey;
    if k == ForeignKeys && p.cache.Some? { KeysAreValid(Rows(p.cache.value.foreignKeys)); }
  }

  lemma KeysAreValid(index: FKIndex)
    ensures AllWellFormed(index) <==> forall fk | Mentions(index, fk) :: ValidForeignKey(fk)
  {
    if AllWellFormed(index) {
      forall fk | Mentions(index, fk) ensures ValidForeignKey(fk) {
        var a :| a in index && RowMentions(index[a], fk);
        var b :| b in index[a] && fk in index[a][b];
        assert CellWellFormed(index[a][b]);
      }
    }
    if forall fk | Mentions(index, fk) :: ValidForeignKey(fk) {
      forall a, b | a in index && b in index[a] ensures CellWellFormed(index[a][b]) {
        forall i | 0 <= i < |index[a][b]| ensures WellFormed(index[a][b][i]) {
          assert RowMentions(index[a], index[a][b][i]);
          assert Mentions(index, index[a][b][i]);
        }
      }
    }
  }
}
