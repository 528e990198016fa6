/** What a successful MergeObjects guarantees on a schema-less catalog. */
module WatchTheorems {
  import opened Wrappers
  import opened Identity
  import opened ObjectIndexes
  import opened CatalogTypes
  import opened Sorting
  import opened Dependencies
  import opened WatchSpec
  import opened WatchCatalog
  import opened WatchCanonical
  import opened WatchColumns
  import opened WatchProjections
  import opened WatchMerge

  // ----- every deletion of a relation was known before the catalog merge

  lemma OnlyTwoKindsNameRelations(k: Kind, v: Desc)
    requires Descriptor(k) && IsRelation(IdentityOf(k, v))
    ensures k == Views || k == SystemRelations
  {
  }

  lemma RemovedRow(n: Names, b: CatalogCache, d: ObjectDelta, deleted: set<ObjectID>, id: ObjectID) returns (k: Kind, v: Desc)
    requires CanonicalCatalog(n, b) && RemovedKeys(b, d, deleted, Key(id))
    ensures Descriptor(k) && Key(id) in ExactRows(b, k) && Key(id) !in Rows(NextExact(b, d, deleted, k))
    ensures ExactRows(b, k)[Key(id)] == Some(v) && IdentityOf(k, v) == id
  {
    k :| Descriptor(k) && Key(id) in ExactRows(b, k) && Key(id) !in Rows(NextExact(b, d, deleted, k));
    assert CanonicalCategory(n, k, CategoryOf(b, k));
    assert PlainRow(k, Key(id), ExactRows(b, k)[Key(id)]);
    v := ExactRows(b, k)[Key(id)].value;
    KeyInjective(id, IdentityOf(k, v));
  }

  /** The catalog merge drops no table or view identity that was not already deleted, so pruning
      index and trigger groups before recording removals misses nothing. */
  lemma RemovedRelationsWereKnown(n: Names, base: Cache, d: ObjectDelta, all: set<ObjectID>, id: ObjectID)
    requires DeltaShape(d) && CatalogMergeable(BaseCatalog(base), d, KnownDeleted(d))
    requires AllDeleted(base, d, KnownDeleted(d), all)
    requires base.catalog.Some? ==> CanonicalCatalog(n, base.catalog.value)
    requires id in all && IsRelation(id)
    ensures id in KnownDeleted(d)
  {
    if id !in KnownDeleted(d) {
      var b := base.catalog.value;
      var k, v := RemovedRow(n, b, d, KnownDeleted(d), id);
      OnlyTwoKindsNameRelations(k, v);
      assert CategoryReplaceable(b, d, KnownDeleted(d), k);
      DroppedRelation(b, d, k, id, v);
    }
  }

  lemma DroppedRelation(b: CatalogCache, d: ObjectDelta, k: Kind, id: ObjectID, v: Desc)
    requires DeltaShape(d) && CategoryReplaceable(b, d, KnownDeleted(d), k)
    requires k == Views || k == SystemRelations
    requires Key(id) in ExactRows(b, k) && ExactRows(b, k)[Key(id)] == Some(v) && IdentityOf(k, v) == id
    requires Key(id) !in Rows(NextExact(b, d, KnownDeleted(d), k))
    ensures id in KnownDeleted(d)
  {
    var known := KnownDeleted(d);
    assert CategoryTouched(b, d, known, k);
    assert Goes(k, Some(v), OwnersOf(d, k), known);
    if CoveredRow(k, v, OwnersOf(d, k)) {
      assert id in d.owners[k];
      assert CategoryShape(d, k);
      assert Key(id) !in Rows(PatchCategory(d, k).exact);
      assert OwnerAbsent(k, PatchCache(d, k), id);
      assert id in Absent(d);
    } else {
      assert Struck(k, v, known);
      NoNamelessDeletion(d, id.schema);
    }
  }

  lemma NoNamelessDeletion(d: ObjectDelta, schema: string)
    requires DeltaShape(d)
    ensures !RelationDeleted(KnownDeleted(d), schema, "")
  {
    forall id | id in KnownDeleted(d) ensures ValidID(id) {
      if id in Absent(d) {
        var k :| k in d.owners && id in d.owners[k];
        assert CategoryShape(d, k);
      }
    }
  }

  // ----- descriptor categories

  /** The uniform description: whether or not a category was touched, its exact rows are the base
      rows minus the covered and deleted ones, plus the patch. */
  lemma CategoryIsReplaced(b: CatalogCache, d: ObjectDelta, deleted: set<ObjectID>, k: Kind)
    requires d.owners.Keys == d.patches.Keys && CategoryReplaceable(b, d, deleted, k)
    ensures Rows(NextExact(b, d, deleted, k)) == ReplacedRows(k, ExactRows(b, k), Rows(PatchCategory(d, k).exact), OwnersOf(d, k), deleted)
    ensures RowsReplaced(k, ExactRows(b, k), Rows(PatchCategory(d, k).exact), OwnersOf(d, k), deleted, Rows(NextExact(b, d, deleted, k)))
  {
    hide ReplacedRows, RowsReplaced, Struck;
    PatchHasNoNil(b, d, deleted, k);
    RowsAreReplaced(k, ExactRows(b, k), Rows(PatchCategory(d, k).exact), OwnersOf(d, k), deleted);
    if !CategoryTouched(b, d, deleted, k) {
      NothingReplaced(k, ExactRows(b, k), deleted);
    }
  }

  lemma PatchHasNoNil(b: CatalogCache, d: ObjectDelta, deleted: set<ObjectID>, k: Kind)
    requires CategoryReplaceable(b, d, deleted, k)
    ensures NoNil(Rows(PatchCategory(d, k).exact))
  {
    hide Struck, CoveredRow;
    var patch := Rows(PatchCategory(d, k).exact);
    forall key | key in patch ensures patch[key].Some? {
      assert ReplacementOk(k, key, patch[key], OwnersOf(d, k), deleted);
    }
  }

  lemma NothingReplaced(k: Kind, rows: DescMap, deleted: set<ObjectID>)
    requires NoNil(rows) && !AnyStruck(k, rows, deleted)
    ensures ReplacedRows(k, rows, map[], [], deleted) == rows
  {
    forall key | key in rows ensures !Goes(k, rows[key], [], deleted) { }
  }

  lemma PatchRowIsPlain(owners: seq<ObjectID>, k: Kind, key: string, v: Option<Desc>, deleted: set<ObjectID>)
    requires forall owner | owner in owners :: PlainIdentity(owner)
    requires ReplacementOk(k, key, v, owners, deleted) && Parses(key)
    ensures PlainRow(k, key, CopyRow(k, v))
  {
    var (id, rel) := Identify(k, v.value);
    var owner :| owner in owners && (owner == id || (rel != "" && IsRelation(owner) && owner.name == rel && owner.schema == id.schema));
    ParseKeyMeaning(key);
    KeyInjective(ParseKey(key).value, id);
  }

  lemma MergedRowsArePlain(b: CatalogCache, d: ObjectDelta, deleted: set<ObjectID>, k: Kind)
    requires DeltaShape(d) && PlainDelta(d) && Descriptor(k)
    requires CatalogMergeable(b, d, deleted) && CategoryTouched(b, d, deleted, k)
    requires PlainRows(k, ExactRows(b, k))
    ensures PlainRows(k, Rows(NextExact(b, d, deleted, k)))
  {
    hide ParseKey, Key, PlainRow, ReplacementOk, CopyRow, PlainIdentity;
    var next := Rows(NextExact(b, d, deleted, k));
    var patch := Rows(PatchCategory(d, k).exact);
    assert AnyTouched(b, d, deleted) && CategoryReplaceable(b, d, deleted, k);
    forall key | key in next ensures PlainRow(k, key, next[key]) {
      if key in patch {
        assert Parses(key);
        PatchRowIsPlain(OwnersOf(d, k), k, key, patch[key], deleted);
      } else {
        assert key in ExactRows(b, k);
      }
    }
  }

  /** The folded map of a touched category is rebuilt; an untouched category keeps both maps. */
  lemma CategoryStaysCanonical(n: Names, b: CatalogCache, d: ObjectDelta, deleted: set<ObjectID>, k: Kind, c: Category)
    requires PartMerged(n, b, d, deleted, k, c) && CanonicalCategory(n, k, CategoryOf(b, k))
    requires CategoryTouched(b, d, deleted, k) ==> PlainRows(k, Rows(NextExact(b, d, deleted, k)))
    ensures CanonicalCategory(n, k, c)
  {
  }

  lemma UntouchedCategory(n: Names, b: CatalogCache, d: ObjectDelta, deleted: set<ObjectID>, next: CatalogCache, k: Kind)
    requires CatalogMerged(n, b, d, deleted, next) && Descriptor(k) && !CategoryTouched(b, d, deleted, k)
    ensures CategoryOf(next, k) == CategoryOf(b, k)
  {
    assert PartMerged(n, b, d, deleted, k, CategoryOf(next, k));
  }

  lemma GroupsStayCanonical(n: Names, b: CatalogCache, d: ObjectDelta, deleted: set<ObjectID>, next: CatalogCache)
    requires CatalogMerged(n, b, d, deleted, next)
    requires GroupedFrom(n, ExactRows(b, Indexes), Rows(b.indexesByTable))
    requires GroupedFrom(n, FoldedRows(b, Triggers), Rows(b.triggersByTable))
    ensures GroupedFrom(n, ExactRows(next, Indexes), Rows(next.indexesByTable))
    ensures GroupedFrom(n, FoldedRows(next, Triggers), Rows(next.triggersByTable))
  {
    if !CategoryTouched(b, d, deleted, Indexes) { UntouchedCategory(n, b, d, deleted, next, Indexes); }
    if !CategoryTouched(b, d, deleted, Triggers) { UntouchedCategory(n, b, d, deleted, next, Triggers); }
  }

  lemma ObjectsStayCanonical(n: Names, b: CatalogCache, d: ObjectDelta, deleted: set<ObjectID>, next: CatalogCache)
    requires CatalogMerged(n, b, d, deleted, next)
    requires AnyTouched(b, d, deleted) || (b.objects.Some? && IndexesCatalog(b.objects.value, b.categories))
    ensures next.objects.Some? && IndexesCatalog(next.objects.value, next.categories)
  {
    if !AnyTouched(b, d, deleted) {
      forall k | Descriptor(k) ensures ExactRows(b, k).Keys == ExactRows(next, k).Keys {
        UntouchedCategory(n, b, d, deleted, next, k);
      }
      IndexDependsOnKeys(b.objects.value, b, next);
    }
  }

  /** An empty catalog that nothing touched has no index; otherwise the merged catalog is canonical. */
  lemma CatalogStaysCanonical(n: Names, base: Cache, d: ObjectDelta, deleted: set<ObjectID>, next: CatalogCache)
    requires DeltaShape(d) && PlainDelta(d)
    requires CatalogMergeable(BaseCatalog(base), d, deleted) && CatalogMerged(n, BaseCatalog(base), d, deleted, next)
    requires base.catalog.Some? ==> CanonicalCatalog(n, base.catalog.value)
    ensures base.catalog.Some? || next.objects.Some? ==> CanonicalCatalog(n, next)
  {
    var b := BaseCatalog(base);
    forall k | Descriptor(k) ensures CanonicalCategory(n, k, CategoryOf(next, k)) {
      if base.catalog.None? { EmptyIsCanonical(n, k); }
      assert PartMerged(n, b, d, deleted, k, CategoryOf(next, k));
      if CategoryTouched(b, d, deleted, k) { MergedRowsArePlain(b, d, deleted, k); }
      CategoryStaysCanonical(n, b, d, deleted, k, CategoryOf(next, k));
    }
    GroupsStayCanonical(n, b, d, deleted, next);
    if base.catalog.Some? || next.objects.Some? {
      ObjectsStayCanonical(n, b, d, deleted, next);
    }
  }

  lemma EmptyIsCanonical(n: Names, k: Kind)
    ensures CanonicalCategory(n, k, CategoryOf(EMPTY_CATALOG, k))
  {
  }

  /** Giving views their merged columns changes no identity and keeps the catalog canonical. */
  lemma RefreshStaysCanonical(n: Names, changed: set<string>, cols: map<string, Columns>, mid: CatalogCache, next: CatalogCache)
    requires CanonicalCatalog(n, mid) && ViewsRefreshed(n, changed, cols, mid, next)
    ensures CanonicalCatalog(n, next)
  {
    hide FoldedFrom, GroupedFrom;
    forall k | Descriptor(k) ensures CanonicalCategory(n, k, CategoryOf(next, k)) && ExactRows(mid, k).Keys == ExactRows(next, k).Keys {
      assert CanonicalCategory(n, k, CategoryOf(mid, k));
      if k == Views {
        forall key | key in ExactRows(next, Views) ensures PlainRow(Views, key, ExactRows(next, Views)[key]) {
          assert PlainRow(Views, key, ExactRows(mid, Views)[key]);
        }
      }
    }
    IndexDependsOnKeys(mid.objects.value, mid, next);
  }

  // ----- foreign keys

  lemma {:induction false} FiledMentions(m: FKIndex, l: string, r: string, fk: ForeignKey, x: Option<ForeignKey>)
    ensures Mentions(Filed(m, l, r, fk), x) <==> Mentions(m, x) || x == Some(fk)
  {
    var row := if l in m then m[l] else map[];
    var list := (if r in row then row[r] else []) + [Some(fk)];
    var row' := row[r := list];
    var m' := m[l := row'];
    assert Filed(m, l, r, fk) == m';
    if Mentions(m, x) {
      var a, b :| a in m && b in m[a] && x in m[a][b];
      assert x in m'[a][b] && RowMentions(m'[a], x);
    }
    assert Some(fk) in list && r in m'[l] && m'[l][r] == list && RowMentions(m'[l], Some(fk));
    if Mentions(m', x) && x != Some(fk) {
      var a, b :| a in m' && b in m'[a] && x in m'[a][b];
      assert a in m && b in m[a] && x in m[a][b] && RowMentions(m[a], x);
    }
  }

  /** The two-way index mentions exactly the listed keys. */
  lemma {:induction false} IndexMentions(n: Names, order: seq<ForeignKey>, x: Option<ForeignKey>)
    requires forall fk | fk in order :: FKOk(Some(fk))
    ensures Mentions(FKIndexOf(n, order), x) <==> x.Some? && x.value in order
  {
    if order != [] {
      var front, fk := order[..|order| - 1], order[|order| - 1];
      assert order == front + [fk] && fk in order;
      IndexMentions(n, front, x);
      var l := ColumnDatabaseKey(n, LeftEnd(fk).schema, LeftEnd(fk).table);
      var r := ColumnDatabaseKey(n, RightEnd(fk).schema, RightEnd(fk).table);
      FiledMentions(FKIndexOf(n, front), l, r, fk, x);
      FiledMentions(Filed(FKIndexOf(n, front), l, r, fk), r, l, fk, x);
    }
  }

  /** Touched or not, the index mentions exactly the remaining keys, and is canonical. */
  lemma FKsAreMerged(n: Names, base: Cache, d: ObjectDelta, deleted: set<ObjectID>, next: Cache)
    requires CanonicalFKs(n, base) && FKMerged(n, base, d, deleted, next.foreignKeys)
    ensures CanonicalFKs(n, next)
    ensures forall fk :: Mentions(Rows(next.foreignKeys), fk) <==> fk.Some? && RemainingFK(base, d, deleted, fk.value)
  {
    if FKTouched(d, deleted) {
      var order: seq<ForeignKey> :| IndexesFKs(n, next.foreignKeys.value, order) && forall fk :: fk in order <==> RemainingFK(base, d, deleted, fk);
      forall fk: Option<ForeignKey> ensures Mentions(Rows(next.foreignKeys), fk) <==> fk.Some? && fk.value in order { IndexMentions(n, order, fk); }
    } else {
      var order: seq<ForeignKey> :| IndexesFKs(n, Rows(base.foreignKeys), order);
      forall fk: Option<ForeignKey> ensures Mentions(Rows(next.foreignKeys), fk) <==> fk.Some? && RemainingFK(base, d, deleted, fk.value) {
        IndexMentions(n, order, fk);
        NothingGone(base, d, deleted, fk);
      }
    }
  }

  lemma NothingGone(base: Cache, d: ObjectDelta, deleted: set<ObjectID>, fk: Option<ForeignKey>)
    requires !FKTouched(d, deleted)
    ensures fk.Some? && FKOk(fk) ==> (RemainingFK(base, d, deleted, fk.value) <==> Mentions(Rows(base.foreignKeys), fk))
    ensures fk.Some? && RemainingFK(base, d, deleted, fk.value) ==> FKOk(fk)
  {
  }

  // ----- dependencies

  ghost predicate DependenciesApplied(base: Cache, d: ObjectDelta, deleted: set<ObjectID>, next: Cache) {
    && next.dependencies.Some? == base.dependencies.Some?
    && (base.dependencies.Some? ==>
          && (forall e :: e in next.dependencies.value.edges <==> e in d.dependencyEdges || (e in base.dependencies.value.edges && KeptEdge(d, deleted, e)))
          && (var checks := BaseChecks(base.dependencies.value, deleted) + d.checkNames;
              next.dependencies.value.checks.Keys == checks.Keys && forall r | r in checks :: SortedSet(next.dependencies.value.checks[r], checks[r])))
  }

  lemma DependenciesAreMerged(base: Cache, d: ObjectDelta, deleted: set<ObjectID>, next: Cache)
    requires base.dependencies.Some? ==> CanonicalGraph(base.dependencies.value)
    requires base.dependencies.None? ==> !DependenciesAsked(d)
    requires DependenciesMerged(base, d, deleted, next.dependencies)
    ensures next.dependencies.Some? ==> CanonicalGraph(next.dependencies.value)
    ensures DependenciesApplied(base, d, deleted, next)
  {
    if base.dependencies.Some? && !DependenciesTouched(base, d, deleted) {
      assert BaseChecks(base.dependencies.value, deleted) + d.checkNames == base.dependencies.value.checks;
    }
  }

  // ----- the whole merge

  /** The exact data after the merge: base minus covered and deleted, plus the patches. */
  ghost predicate Applied(n: Names, base: Cache, d: ObjectDelta, all: set<ObjectID>, next: Cache)
    requires DeltaShape(d)
  {
    && RowsApplied(n, base, d, all, next)
    && (forall s, name :: name in SchemaRows(Rows(next.schemaTables), s) <==>
          (name in SchemaRows(Rows(base.schemaTables), s) && KeepsRelation(d, all, s, name)) || name in SchemaRows(PatchTables(d), s))
    && Rows(next.primaryKeysByID) == MergedKeys(base, d, all)
    && Rows(next.columnsByID) == RebuiltColumns(n, base, d, all, Rows(next.primaryKeyColumns))
    && (forall fk :: Mentions(Rows(next.foreignKeys), fk) <==> fk.Some? && RemainingFK(base, d, all, fk.value))
    && DependenciesApplied(base, d, all, next)
  }

  ghost predicate RowsApplied(n: Names, base: Cache, d: ObjectDelta, all: set<ObjectID>, next: Cache)
    requires DeltaShape(d)
  {
    && (forall k | Descriptor(k) && k != Views :: ExactRows(BaseCatalog(next), k) == ReplacedCategory(base, d, k))
    && CategoriesReplaced(base, d)
    && ExactRows(BaseCatalog(next), Views) == RefreshedViews(ChangedKeys(n, base, d, all), Rows(next.columnsByID), ReplacedCategory(base, d, Views))
  }

  ghost function ReplacedCategory(base: Cache, d: ObjectDelta, k: Kind): DescMap
    requires DeltaShape(d)
  {
    ReplacedRows(k, ExactRows(BaseCatalog(base), k), Rows(PatchCategory(d, k).exact), OwnersOf(d, k), KnownDeleted(d))
  }

  /** Those rows are the patch's own and the base rows that stay. */
  ghost predicate CategoriesReplaced(base: Cache, d: ObjectDelta)
    requires DeltaShape(d)
  {
    forall k | Descriptor(k) ::
      RowsReplaced(k, ExactRows(BaseCatalog(base), k), Rows(PatchCategory(d, k).exact), OwnersOf(d, k), KnownDeleted(d), ReplacedCategory(base, d, k))
  }

  lemma ShapeCovers(d: ObjectDelta)
    requires DeltaShape(d)
    ensures d.patches.Keys == d.owners.Keys
  {
    forall k | k in d.owners ensures k in d.patches { assert CategoryShape(d, k); }
  }

  lemma MergedCategories(n: Names, base: Cache, d: ObjectDelta, mid: CatalogCache)
    requires DeltaShape(d) && CatalogMergeable(BaseCatalog(base), d, KnownDeleted(d))
    requires CatalogMerged(n, BaseCatalog(base), d, KnownDeleted(d), mid)
    ensures forall k | Descriptor(k) :: ExactRows(mid, k) == ReplacedCategory(base, d, k)
    ensures CategoriesReplaced(base, d)
  {
    hide RowsReplaced, ReplacedRows;
    ShapeCovers(d);
    forall k | Descriptor(k)
      ensures ExactRows(mid, k) == ReplacedCategory(base, d, k)
      ensures RowsReplaced(k, ExactRows(BaseCatalog(base), k), Rows(PatchCategory(d, k).exact), OwnersOf(d, k), KnownDeleted(d), ReplacedCategory(base, d, k))
    {
      ExactIs(n, BaseCatalog(base), d, KnownDeleted(d), mid, k);
      CategoryIsReplaced(BaseCatalog(base), d, KnownDeleted(d), k);
    }
  }

  lemma NothingChanged(n: Names, base: Cache, d: ObjectDelta, deleted: set<ObjectID>, cols: map<string, Columns>, views: DescMap)
    requires !ColumnsTouched(d, deleted) && !KeysTouched(d, deleted)
    ensures RefreshedViews(ChangedKeys(n, base, d, deleted), cols, views) == views
  {
    assert NamedKeys(d, deleted) == {};
    assert ChangedKeys(n, base, d, deleted) == {};
  }

  lemma ViewsAreRefreshed(n: Names, base: Cache, mid: Cache, d: ObjectDelta, all: set<ObjectID>, full: Cache)
    requires mid.catalog.Some? && full.catalog.Some? && ColumnsMerged(n, base, mid, d, all, full)
    ensures ExactRows(full.catalog.value, Views) ==
            RefreshedViews(ChangedKeys(n, base, d, all), Rows(full.columnsByID), ExactRows(mid.catalog.value, Views))
    ensures forall k | k != Views :: ExactRows(full.catalog.value, k) == ExactRows(mid.catalog.value, k)
    ensures full.catalog.value.objects == mid.catalog.value.objects
  {
    if !ColumnsTouched(d, all) && !KeysTouched(d, all) {
      NothingChanged(n, base, d, all, Rows(full.columnsByID), ExactRows(mid.catalog.value, Views));
    }
  }

  lemma FullCatalogIsCanonical(n: Names, base: Cache, mid: Cache, d: ObjectDelta, all: set<ObjectID>, full: Cache)
    requires mid.catalog.Some? && full.catalog.Some? && ColumnsMerged(n, base, mid, d, all, full)
    requires CanonicalCatalog(n, mid.catalog.value)
    ensures CanonicalCatalog(n, full.catalog.value)
  {
    if ColumnsTouched(d, all) || KeysTouched(d, all) {
      RefreshStaysCanonical(n, ChangedKeys(n, base, d, all), Rows(full.columnsByID), mid.catalog.value, full.catalog.value);
    }
  }

  lemma DeletedAreValid(base: Cache, d: ObjectDelta, all: set<ObjectID>)
    requires DeltaShape(d) && AllDeleted(base, d, KnownDeleted(d), all)
    ensures forall id | id in all :: ValidID(id)
  {
    forall id | id in KnownDeleted(d) ensures ValidID(id) {
      if id in Absent(d) {
        var k :| k in d.owners && id in d.owners[k];
        assert CategoryShape(d, k);
      }
    }
  }

  lemma TablesAreApplied(base: Cache, d: ObjectDelta, all: set<ObjectID>, next: Cache)
    requires RelationsMerged(base, d, all, next.schemaTables)
    ensures forall s, name :: name in SchemaRows(Rows(next.schemaTables), s) <==>
            (name in SchemaRows(Rows(base.schemaTables), s) && KeepsRelation(d, all, s, name)) || name in SchemaRows(PatchTables(d), s)
  {
    forall s, name ensures name in SchemaRows(Rows(next.schemaTables), s) <==>
      (name in SchemaRows(Rows(base.schemaTables), s) && KeepsRelation(d, all, s, name)) || name in SchemaRows(PatchTables(d), s) {
      TablesAreMerged(base, d, all, next.schemaTables, s);
      KeptNames(d, all, s, SchemaRows(Rows(base.schemaTables), s));
    }
  }

  /** The catalog part: canonical if there is one, and exactly the replaced rows either way. */
  lemma CatalogIsApplied(n: Names, base: Cache, mid: Cache, d: ObjectDelta, all: set<ObjectID>, full: Cache, next: Cache)
    requires DeltaShape(d) && PlainDelta(d) && CatalogMergeable(BaseCatalog(base), d, KnownDeleted(d))
    requires mid.catalog.Some? && CatalogMerged(n, BaseCatalog(base), d, KnownDeleted(d), mid.catalog.value)
    requires ColumnsMerged(n, base, mid, d, all, full) && full.catalog.Some?
    requires next.catalog == if base.catalog.None? && full.catalog.value.objects.None? then None else full.catalog
    requires next.columnsByID == full.columnsByID
    requires base.catalog.Some? ==> CanonicalCatalog(n, base.catalog.value)
    ensures next.catalog.Some? ==> CanonicalCatalog(n, next.catalog.value)
    ensures RowsApplied(n, base, d, all, next)
  {
    hide RowsApplied;
    RowsAreApplied(n, base, mid, d, all, full, next);
    CatalogStaysCanonical(n, base, d, KnownDeleted(d), mid.catalog.value);
    if next.catalog.Some? {
      FullCatalogIsCanonical(n, base, mid, d, all, full);
    }
  }

  /** On any base, the rows of every category after the merge. */
  lemma RowsAreApplied(n: Names, base: Cache, mid: Cache, d: ObjectDelta, all: set<ObjectID>, full: Cache, next: Cache)
    requires DeltaShape(d) && CatalogMergeable(BaseCatalog(base), d, KnownDeleted(d))
    requires mid.catalog.Some? && CatalogMerged(n, BaseCatalog(base), d, KnownDeleted(d), mid.catalog.value)
    requires ColumnsMerged(n, base, mid, d, all, full) && full.catalog.Some?
    requires next.catalog == if base.catalog.None? && full.catalog.value.objects.None? then None else full.catalog
    requires next.columnsByID == full.columnsByID
    ensures RowsApplied(n, base, d, all, next)
  {
    hide RowsReplaced;
    MergedCategories(n, base, d, mid.catalog.value);
    ViewsAreRefreshed(n, base, mid, d, all, full);
    if next.catalog.None? {
      NoObjectsNoRows(n, base, d, mid.catalog.value);
      assert Descriptor(Views);
    }
  }

  /** Without an object index nothing was touched, and an absent catalog has no rows. */
  lemma NoObjectsNoRows(n: Names, base: Cache, d: ObjectDelta, mid: CatalogCache)
    requires DeltaShape(d) && CatalogMerged(n, BaseCatalog(base), d, KnownDeleted(d), mid)
    requires base.catalog.None? && mid.objects.None?
    ensures forall k | Descriptor(k) :: ExactRows(mid, k) == map[]
  {
    forall k | Descriptor(k) ensures ExactRows(mid, k) == map[] {
      assert !CategoryTouched(BaseCatalog(base), d, KnownDeleted(d), k);
      UntouchedCategory(n, BaseCatalog(base), d, KnownDeleted(d), mid, k);
    }
  }

  /** Incremental equals rebuild.  On a schema-less cache whose primary keys are ready and whose
      projections are canonical, a successful merge gives exact data equal to base minus covered and
      deleted plus patch, and every projection of the result is canonical again. */
  lemma IncrementalEqualsRebuild(n: Names, base: Cache, d: ObjectDelta, all: set<ObjectID>, next: Cache)
    requires Canonical(n, base) && MetadataReady(base, PrimaryKeys) && PlainDelta(d)
    requires Merged(n, base, d, all, next)
    ensures DeltaShape(d)
    ensures Canonical(n, next)
    ensures Applied(n, base, d, all, next)
  {
    hide PlainDelta, ColumnsMergeable, RelationsMergeable, CatalogMergeable, FKMergeable, DependenciesMerged, FKMerged, CatalogMerged, RelationsMerged, CanonicalCatalog, CanonicalTables, CanonicalKeys, CanonicalColumns, CanonicalFKs, CanonicalGraph, AllDeleted, RemovalsParse, DeltaShape, ColumnsMerged, DependenciesApplied, ReplacedCategory, RebuiltColumns, RefreshedViews, MergedKeys, RowsApplied, RemainingFK, Mentions, KeepsRelation;
    var mid: Cache, full: Cache :| MergedVia(n, base, d, all, mid, full, next);
    DeletedAreValid(base, d, all);
    ColumnsStayCanonical(n, base, mid, d, all, full);
    SameColumns(n, full, next);
    CatalogIsApplied(n, base, mid, d, all, full, next);
    RelationsOf(n, base, d, all, mid, full, next);
    TablesAreApplied(base, d, all, next);
    TablesStayCanonical(base, d, all, next);
    FKsAreMerged(n, base, d, all, next);
    DependenciesAreMerged(base, d, all, next);
  }

  lemma RelationsOf(n: Names, base: Cache, d: ObjectDelta, all: set<ObjectID>, mid: Cache, full: Cache, next: Cache)
    requires MergedVia(n, base, d, all, mid, full, next)
    ensures next.schemaTables == mid.schemaTables
  {
  }

  lemma SameColumns(n: Names, full: Cache, next: Cache)
    requires CanonicalColumns(n, full) && CanonicalKeys(n, full)
    requires next.columnsByID == full.columnsByID && next.columnsWithParent == full.columnsWithParent && next.metadata == full.metadata
    requires next.primaryKeysByID == full.primaryKeysByID && next.primaryKeyColumns == full.primaryKeyColumns
    ensures CanonicalColumns(n, next) && CanonicalKeys(n, next)
  {
    hide ParseKey, Key, PlainTable, ColumnsFoldedFrom, KeysFoldedFrom, ColumnRowOk, KeyMember;
    forall key, i | key in Rows(next.columnsByID) && 0 <= i < |Rows(next.columnsByID)[key]| ensures FlaggedRow(n, next, key, Rows(next.columnsByID)[key][i]) {
      assert FlaggedRow(n, full, key, Rows(full.columnsByID)[key][i]);
    }
  }
}
