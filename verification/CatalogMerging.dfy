/** mergeMetadata as the source computes it: fresh maps filled by loops over an unchanged base. */
module CatalogMerging {
  import opened Wrappers
  import opened Identity
  import opened ObjectIndexes
  import opened CatalogTypes
  import opened MapLoops
  import opened WatchSpec
  import WatchCatalog
  import opened CatalogMerge

  method IsKey(n: Names, name: string, keys: set<string>) returns (found: bool)
    ensures found <==> exists key | key in keys :: n.equalFold(key, name)
  {
    var todo := keys;
    while todo != {}
      invariant todo <= keys && forall key | key in keys - todo :: !n.equalFold(key, name)
    {
      var key :| key in todo;
      if n.equalFold(key, name) {
        return true;
      }
      todo := todo - {key};
    }
    return false;
  }

  method MarkColumns(n: Names, byID: bool, table: string, descriptors: Columns, primaryKeys: map<string, set<string>>) returns (copied: Columns)
    ensures copied == MarkedAll(n, byID, table, descriptors, primaryKeys)
  {
    copied := [];
    for i := 0 to |descriptors|
      invariant |copied| == i && forall j | 0 <= j < i :: copied[j] == Marked(n, byID, table, descriptors[j], primaryKeys)
    {
      var descriptor := descriptors[i];
      if descriptor.Some? && descriptor.value.schema == "" {
        var column := descriptor.value.(key := "NO");
        var found := IsKey(n, column.name, KeyNames(n, byID, table, column, primaryKeys));
        if found {
          column := column.(key := "YES");
        }
        descriptor := Some(column);
      }
      copied := copied + [descriptor];
    }
  }

  /** columnsWithPrimaryKeys and columnsByIDWithPrimaryKeys */
  method ColumnsWithPrimaryKeys(n: Names, byID: bool, columns: map<string, Columns>, primaryKeys: map<string, set<string>>) returns (result: map<string, Columns>)
    ensures result == Enriched(n, byID, columns, primaryKeys)
  {
    result := map[];
    var todo := columns.Keys;
    while todo != {}
      invariant todo <= columns.Keys && result.Keys == columns.Keys - todo
      invariant forall table | table in result :: result[table] == MarkedAll(n, byID, table, columns[table], primaryKeys)
    {
      var table :| table in todo;
      var copied := MarkColumns(n, byID, table, columns[table], primaryKeys);
      result := result[table := copied];
      todo := todo - {table};
    }
  }

  // ----- the object index

  /** The identities of the rows of the first categories, and of the rows of one more seen so far. */
  ghost predicate Inserted(ids: seq<ObjectID>, cs: map<Kind, Category>, kinds: seq<Kind>, k: Kind, seen: set<string>) {
    forall id :: id in ids <==> (exists j | j in kinds :: RowWith(Rows(CategoryIn(cs, j).exact), Rows(CategoryIn(cs, j).exact).Keys, j, id))
                                || RowWith(Rows(CategoryIn(cs, k).exact), seen, k, id)
  }

  predicate RowWith(rows: DescMap, seen: set<string>, k: Kind, id: ObjectID) {
    exists key | key in seen && key in rows :: rows[key].Some? && CatalogID(k, rows[key].value) == id
  }

  method InsertRows(index: ObjectIndex, cs: map<Kind, Category>, ghost kinds: seq<Kind>, k: Kind)
    requires index.Valid() && index.fold == DefaultFold && Inserted(index.inserted, cs, kinds, k, {})
    modifies index
    ensures index.Valid() && Inserted(index.inserted, cs, kinds, k, Rows(CategoryIn(cs, k).exact).Keys)
  {
    hide Inserted, CatalogID, ObjectIndex.Valid;
    var rows := Rows(CategoryIn(cs, k).exact);
    var todo := rows.Keys;
    assert rows.Keys - todo == {};
    while todo != {}
      invariant todo <= rows.Keys && index.Valid() && Inserted(index.inserted, cs, kinds, k, rows.Keys - todo)
    {
      var key :| key in todo;
      ghost var before := index.inserted;
      assert rows.Keys - (todo - {key}) == (rows.Keys - todo) + {key};
      if rows[key].Some? {
        index.Insert(CatalogID(k, rows[key].value));
      }
      RowInserted(before, index.inserted, cs, kinds, k, rows.Keys - todo, key);
      todo := todo - {key};
    }
    assert rows.Keys - todo == rows.Keys;
  }

  lemma OneMoreRow(rows: DescMap, seen: set<string>, k: Kind, key: string)
    requires key in rows
    ensures forall id :: RowWith(rows, seen + {key}, k, id) <==> RowWith(rows, seen, k, id) || (rows[key].Some? && CatalogID(k, rows[key].value) == id)
  {
    forall id ensures RowWith(rows, seen + {key}, k, id) <==> RowWith(rows, seen, k, id) || (rows[key].Some? && CatalogID(k, rows[key].value) == id) {
      if RowWith(rows, seen, k, id) {
        var other :| other in seen && other in rows && rows[other].Some? && CatalogID(k, rows[other].value) == id;
        assert other in seen + {key};
      }
    }
  }

  lemma RowInserted(ids: seq<ObjectID>, next: seq<ObjectID>, cs: map<Kind, Category>, kinds: seq<Kind>, k: Kind, seen: set<string>, key: string)
    requires Inserted(ids, cs, kinds, k, seen) && key in Rows(CategoryIn(cs, k).exact)
    requires var v := Rows(CategoryIn(cs, k).exact)[key];
             next == if v.None? || CatalogID(k, v.value) in ids then ids else ids + [CatalogID(k, v.value)]
    ensures Inserted(next, cs, kinds, k, seen + {key})
  {
    hide RowWith, CatalogID;
    OneMoreRow(Rows(CategoryIn(cs, k).exact), seen, k, key);
  }

  lemma NextCategory(ids: seq<ObjectID>, cs: map<Kind, Category>, kinds: seq<Kind>, k: Kind, next: Kind)
    requires Inserted(ids, cs, kinds, k, Rows(CategoryIn(cs, k).exact).Keys)
    ensures Inserted(ids, cs, kinds + [k], next, {})
  {
    assert forall j :: j in kinds + [k] <==> j in kinds || j == k;
  }

  /** CatalogCache.RebuildObjects: insert every row of every category. */
  method RebuildObjects(cs: map<Kind, Category>) returns (objects: IndexValue)
    ensures IndexesRows(Some(objects), cs)
  {
    var index := new ObjectIndex(DefaultFold);
    var i := 0;
    while i < |DESCRIPTOR_KINDS|
      invariant 0 <= i <= |DESCRIPTOR_KINDS| && fresh(index) && index.Valid() && index.fold == DefaultFold
      invariant Inserted(index.inserted, cs, DESCRIPTOR_KINDS[..i], Views, {})
    {
      var k := DESCRIPTOR_KINDS[i];
      ghost var done := DESCRIPTOR_KINDS[..i];
      OtherKind(index.inserted, cs, done, Views, k);
      InsertRows(index, cs, done, k);
      NextCategory(index.inserted, cs, done, k, Views);
      assert DESCRIPTOR_KINDS[..i + 1] == done + [k];
      i := i + 1;
    }
    assert DESCRIPTOR_KINDS[..i] == DESCRIPTOR_KINDS;
    AllInserted(index.inserted, cs);
    objects := IndexValue(index.exact, index.byFold);
  }

  lemma OtherKind(ids: seq<ObjectID>, cs: map<Kind, Category>, kinds: seq<Kind>, j: Kind, k: Kind)
    requires Inserted(ids, cs, kinds, j, {})
    ensures Inserted(ids, cs, kinds, k, {})
  {
  }

  lemma AllInserted(ids: seq<ObjectID>, cs: map<Kind, Category>)
    requires Inserted(ids, cs, DESCRIPTOR_KINDS, Views, {})
    ensures forall id :: id in ids <==> InCatalog(cs, id)
  {
    DescriptorKinds();
    forall id ensures id in ids <==> InCatalog(cs, id) {
      if InCatalog(cs, id) {
        var k, key :| Descriptor(k) && key in Rows(CategoryIn(cs, k).exact) && Rows(CategoryIn(cs, k).exact)[key].Some? && CatalogID(k, Rows(CategoryIn(cs, k).exact)[key].value) == id;
        assert RowWith(Rows(CategoryIn(cs, k).exact), Rows(CategoryIn(cs, k).exact).Keys, k, id);
        assert k in DESCRIPTOR_KINDS;
      }
      if id in ids {
        var j :| j in DESCRIPTOR_KINDS && RowWith(Rows(CategoryIn(cs, j).exact), Rows(CategoryIn(cs, j).exact).Keys, j, id);
        assert Descriptor(j);
      }
    }
  }

  // ----- the merge

  method MergeColumns(n: Names, base: Cache, f: Cache) returns (next: Cache)
    ensures next == WithColumns(n, base, f, MetadataReady(base, PrimaryKeys), base.primaryKeyColumns)
  {
    var parents, ids := Rows(f.columnsWithParent), Rows(f.columnsByID);
    if MetadataReady(base, PrimaryKeys) {
      parents := ColumnsWithPrimaryKeys(n, false, parents, Rows(base.primaryKeyColumns));
      ids := ColumnsWithPrimaryKeys(n, true, ids, Rows(base.primaryKeyColumns));
    }
    next := base.(columnsWithParent := Some(parents), columnsByID := Some(ids));
  }

  method MergeKeys(n: Names, base: Cache, f: Cache) returns (next: Cache)
    ensures next == WithKeys(n, base, f, ColumnsReady(base))
  {
    var keys := Rows(f.primaryKeyColumns);
    next := base.(primaryKeyColumns := Some(keys), primaryKeysByID := f.primaryKeysByID);
    if ColumnsReady(base) {
      var parents := ColumnsWithPrimaryKeys(n, false, Rows(base.columnsWithParent), keys);
      var ids := ColumnsWithPrimaryKeys(n, true, Rows(base.columnsByID), keys);
      next := next.(columnsWithParent := Some(parents), columnsByID := Some(ids));
    }
  }

  method MergeCategory(n: Names, base: CatalogCache, k: Kind, f: Cache) returns (header: CatalogCache)
    requires Descriptor(k)
    ensures header.categories == base.categories[k := CategoryFrom(k, f)] && IndexesRows(header.objects, header.categories)
    ensures if k == Indexes then IndexGroupsFrom(n, f, header.indexesByTable) else header.indexesByTable == base.indexesByTable
    ensures if k == Triggers then TriggerGroupsFrom(n, f, header.triggersByTable) else header.triggersByTable == base.triggersByTable
  {
    hide IndexesRows, GroupedFrom, CategoryFrom;
    header := base.(categories := base.categories[k := CategoryFrom(k, f)]);
    if k == Indexes {
      if Header(f).indexesByTable.Some? {
        header := header.(indexesByTable := Header(f).indexesByTable);
      } else {
        var groups := WatchCatalog.GroupRows(n, FoldedRows(Header(f), Indexes));
        header := header.(indexesByTable := Some(groups));
      }
    } else if k == Triggers {
      var groups := WatchCatalog.GroupRows(n, FoldedRows(Header(f), Triggers));
      header := header.(triggersByTable := Some(groups));
    }
    var objects := RebuildObjects(header.categories);
    header := header.(objects := Some(objects));
  }

  method ForeignKeysValid(index: FKIndex) returns (ok: bool)
    ensures ok <==> forall fk | Mentions(index, fk) :: ValidForeignKey(fk)
  {
    ok := forall l | l in index :: forall r | r in index[l] :: forall fk: Option<ForeignKey> | fk in index[l][r] :: ValidForeignKey(fk);
    if ok {
      forall fk | Mentions(index, fk) ensures ValidForeignKey(fk) {
        var l :| l in index && RowMentions(index[l], fk);
        var r :| r in index[l] && fk in index[l][r];
      }
    } else {
      var l :| l in index && !forall r | r in index[l] :: forall fk: Option<ForeignKey> | fk in index[l][r] :: ValidForeignKey(fk);
      var r :| r in index[l] && !forall fk: Option<ForeignKey> | fk in index[l][r] :: ValidForeignKey(fk);
      var fk: Option<ForeignKey> :| fk in index[l][r] && !ValidForeignKey(fk);
      assert RowMentions(index[l], fk) && Mentions(index, fk);
    }
  }

  /** mergeMetadata: an accepted patch gives a merged cache, any other an error. */
  method MergeMetadata(n: Names, base: Cache, k: Kind, p: Patch) returns (r: Option<Cache>)
    ensures r.Some? <==> Mergeable(k, p)
    ensures r.Some? ==> MergedFrom(n, base, k, p, r.value)
  {
    hide Mentions, IndexesRows, IndexGroupsFrom, TriggerGroupsFrom, Enriched, CategoryFrom, ValidForeignKey;
    if p.cache.None? || p.count < 0 || p.queries < 0 || !KnownKind(k) || !PayloadPresent(k, p.cache.value) {
      return None;
    }
    var f := p.cache.value;
    if k == ForeignKeys {
      var ok := ForeignKeysValid(Rows(f.foreignKeys));
      if !ok {
        return None;
      }
    }
    var next := Merge(n, base, k, f);
    return Some(next);
  }

  method Merge(n: Names, base: Cache, k: Kind, f: Cache) returns (next: Cache)
    requires KnownKind(k)
    ensures Plain(next) == PlainMerged(n, base, k, f) && DerivedOnce(n, base, k, f, next)
  {
    hide IndexesRows, IndexGroupsFrom, TriggerGroupsFrom, Enriched, CategoryFrom;
    next := base;
    if Descriptor(k) {
      var header := MergeCategory(n, Header(base), k, f);
      next := next.(catalog := Some(header));
    } else {
      match k {
        case Schemas => next := next.(defaultSchema := f.defaultSchema, schemas := Some(Rows(f.schemas)));
        case Relations => next := next.(schemaTables := Some(Rows(f.schemaTables)));
        case ForeignKeys => next := next.(foreignKeys := Some(Rows(f.foreignKeys)));
        case Dependencies => next := next.(dependencies := f.dependencies);
        case PrimaryKeys => next := MergeKeys(n, next, f);
        case _ =>
          if k == ColumnsAll || !MetadataReady(base, ColumnsAll) {
            next := MergeColumns(n, next, f);
          }
      }
    }
    next := next.(metadata := base.metadata[k := Ready]);
  }
}
