/** MergeObjects: a new cache from complete owner replacements. */
module WatchMerge {
  import opened Wrappers
  import opened Identity
  import opened ObjectIndexes
  import opened CatalogTypes
  import opened Sorting
  import opened MapLoops
  import opened WatchSpec
  import opened WatchChecks
  import opened WatchCatalog
  import opened WatchRelations
  import opened WatchColumns
  import opened WatchKeys

  /** Canceled: the context ended.  Incomplete: ErrWatchIncomplete, whatever its reason text. */
  datatype MergeResult = Canceled | Incomplete | Merge(cache: Cache)

  /** The delta can be merged into `base`. */
  ghost predicate Acceptable(n: Names, base: Cache, d: ObjectDelta) {
    exists all: set<ObjectID>, tables: Option<map<string, seq<string>>> :: Accepts(n, base, d, all, tables)
  }

  // ----- deletions known before the merge

  method AddAbsent(d: ObjectDelta, k: Kind, before: set<ObjectID>) returns (deleted: set<ObjectID>)
    requires k in d.owners && k in d.patches && d.patches[k].cache.Some?
    ensures deleted == before + set id | id in d.owners[k] && OwnerAbsent(k, PatchCache(d, k), id)
  {
    deleted := before;
    var owners := d.owners[k];
    for i := 0 to |owners|
      invariant deleted == before + set id | id in owners[..i] && OwnerAbsent(k, PatchCache(d, k), id)
    {
      assert owners[..i + 1] == owners[..i] + [owners[i]];
      if OwnerAbsent(k, PatchCache(d, k), owners[i]) {
        deleted := deleted + {owners[i]};
      }
    }
    assert owners[..|owners|] == owners;
  }

  ghost predicate Supplied(d: ObjectDelta) {
    forall k | k in d.owners :: k in d.patches && d.patches[k].cache.Some?
  }

  ghost function AbsentIn(d: ObjectDelta, kinds: set<Kind>): set<ObjectID>
    requires Supplied(d)
  {
    set k, id | k in kinds && k in d.owners && id in d.owners[k] && OwnerAbsent(k, PatchCache(d, k), id) :: id
  }

  lemma AbsentNext(d: ObjectDelta, kinds: set<Kind>, k: Kind)
    requires Supplied(d) && k in d.owners
    ensures AbsentIn(d, kinds + {k}) == AbsentIn(d, kinds) + set id | id in d.owners[k] && OwnerAbsent(k, PatchCache(d, k), id)
  {
    var one := set id | id in d.owners[k] && OwnerAbsent(k, PatchCache(d, k), id);
    forall id | id in AbsentIn(d, kinds + {k}) ensures id in AbsentIn(d, kinds) + one {
      var j :| j in kinds + {k} && j in d.owners && id in d.owners[j] && OwnerAbsent(j, PatchCache(d, j), id);
      assert j == k || j in kinds;
    }
    forall id | id in AbsentIn(d, kinds) + one ensures id in AbsentIn(d, kinds + {k}) { }
  }

  method FindAbsent(d: ObjectDelta, before: set<ObjectID>) returns (deleted: set<ObjectID>)
    requires Supplied(d)
    ensures deleted == before + AbsentIn(d, d.owners.Keys)
  {
    deleted := before;
    var todo := d.owners.Keys;
    while todo != {}
      invariant todo <= d.owners.Keys
      invariant deleted == before + AbsentIn(d, d.owners.Keys - todo)
    {
      var k :| k in todo;
      AbsentNext(d, d.owners.Keys - todo, k);
      assert d.owners.Keys - (todo - {k}) == d.owners.Keys - todo + {k};
      todo := todo - {k};
      deleted := AddAbsent(d, k, deleted);
    }
    assert d.owners.Keys - {} == d.owners.Keys;
  }

  method FindDeleted(d: ObjectDelta) returns (deleted: set<ObjectID>)
    requires DeltaShape(d)
    ensures deleted == KnownDeleted(d)
  {
    deleted := {};
    for i := 0 to |d.deleted|
      invariant deleted == set id | id in d.deleted[..i]
    {
      assert d.deleted[..i + 1] == d.deleted[..i] + [d.deleted[i]];
      deleted := deleted + {d.deleted[i]};
    }
    assert d.deleted[..|d.deleted|] == d.deleted;
    assert Supplied(d) && AbsentIn(d, d.owners.Keys) == Absent(d);
    deleted := FindAbsent(d, deleted);
  }

  // ----- facts that carry from one stage to the next

  lemma DeletionsAreValid(base: Cache, d: ObjectDelta, all: set<ObjectID>)
    requires DeltaShape(d) && AllDeleted(base, d, KnownDeleted(d), all)
    ensures forall id | id in all :: ValidID(id)
  {
  }

  lemma ViewsAreNotNil(n: Names, base: CatalogCache, d: ObjectDelta, deleted: set<ObjectID>, next: CatalogCache)
    requires CatalogMergeable(base, d, deleted) && CatalogMerged(n, base, d, deleted, next)
    ensures NoNil(ExactRows(next, Views))
  {
    assert Descriptor(Views) && CategoryReplaceable(base, d, deleted, Views);
    assert PartMerged(n, base, d, deleted, Views, CategoryOf(next, Views));
    if CategoryTouched(base, d, deleted, Views) {
      ReplacedRowsNoNil(Views, ExactRows(base, Views), Rows(PatchCategory(d, Views).exact), OwnersOf(d, Views), deleted);
    }
  }

  lemma ExactIs(n: Names, base: CatalogCache, d: ObjectDelta, deleted: set<ObjectID>, next: CatalogCache, k: Kind)
    requires CatalogMerged(n, base, d, deleted, next) && Descriptor(k)
    ensures CategoryOf(next, k).exact == NextExact(base, d, deleted, k)
  {
    assert PartMerged(n, base, d, deleted, k, CategoryOf(next, k));
  }

  /** The recorded removals are those of the specification. */
  lemma RemovalsAre(n: Names, base: CatalogCache, d: ObjectDelta, deleted: set<ObjectID>, next: CatalogCache, key: string)
    requires CatalogMerged(n, base, d, deleted, next)
    ensures RemovedKeys(base, d, deleted, key) <==> RemovedFrom(base, next, DESCRIPTOR_KINDS, key)
  {
    DescriptorKinds();
    forall k | Descriptor(k) ensures ExactRows(next, k) == Rows(NextExact(base, d, deleted, k)) { ExactIs(n, base, d, deleted, next, k); }
  }

  /** Relation membership has one outcome, so a check list is known or not for every outcome. */
  lemma TablesAgree(base: Cache, d: ObjectDelta, deleted: set<ObjectID>, a: Option<map<string, seq<string>>>, b: Option<map<string, seq<string>>>, systemRelations: DescMap)
    requires RelationsMerged(base, d, deleted, a) && RelationsMerged(base, d, deleted, b)
    ensures DependenciesMergeable(base, d, deleted, Rows(a), systemRelations) <==> DependenciesMergeable(base, d, deleted, Rows(b), systemRelations)
  {
    assert forall r :: r in SchemaRows(Rows(a), "") <==> r in SchemaRows(Rows(b), "");
    if base.dependencies.Some? {
      forall r ensures KnownRelation(base.dependencies.value, deleted, Rows(a), systemRelations, r) <==>
                       KnownRelation(base.dependencies.value, deleted, Rows(b), systemRelations, r) { }
    }
  }

  lemma OneAllDeleted(base: Cache, d: ObjectDelta, deleted: set<ObjectID>, a: set<ObjectID>, b: set<ObjectID>)
    requires AllDeleted(base, d, deleted, a) && AllDeleted(base, d, deleted, b)
    ensures a == b
  {
    assert forall id :: id in a <==> id in b;
  }

  lemma PatchesAreGiven(d: ObjectDelta)
    requires DeltaShape(d)
    ensures forall k | k in d.owners :: k in d.patches && d.patches[k].cache.Some?
  {
    assert forall k | k in d.owners :: CategoryShape(d, k);
  }

  /** The stages up to and including the recording of removals. */
  method MergeHeader(n: Names, base: Cache, d: ObjectDelta) returns (ok: bool, catalog: CatalogCache, all: set<ObjectID>)
    requires DeltaShape(d)
    ensures ok <==> CatalogMergeable(BaseCatalog(base), d, KnownDeleted(d)) && RemovalsParse(base, d, KnownDeleted(d))
    ensures ok ==> CatalogMerged(n, BaseCatalog(base), d, KnownDeleted(d), catalog)
    ensures ok ==> AllDeleted(base, d, KnownDeleted(d), all)
  {
    all := {};
    var deleted := FindDeleted(d);
    var b := BaseCatalog(base);
    ok, catalog := MergeWatchCatalog(n, b, d, deleted);
    if !ok {
      return;
    }
    all := deleted;
    if base.catalog.Some? {
      forall key ensures RemovedKeys(b, d, deleted, key) <==> RemovedFrom(b, catalog, DESCRIPTOR_KINDS, key) {
        RemovalsAre(n, b, d, deleted, catalog, key);
      }
      ok, all := RecordRemovedCatalog(b, catalog, deleted);
    }
  }

  /** The stages after it. */
  method MergeBody(n: Names, base: Cache, d: ObjectDelta, all: set<ObjectID>, catalog: CatalogCache) returns (ok: bool, next: Cache)
    requires DeltaOk(n, d) && CatalogMergeable(BaseCatalog(base), d, KnownDeleted(d)) && RemovalsParse(base, d, KnownDeleted(d))
    requires CatalogMerged(n, BaseCatalog(base), d, KnownDeleted(d), catalog)
    requires AllDeleted(base, d, KnownDeleted(d), all) && CopiesAreFresh(base, d)
    ensures ok <==> Acceptable(n, base, d)
    ensures ok ==> Merged(n, base, d, all, next)
  {
    hide CatalogMergeable, RemovalsParse, CatalogMerged, AllDeleted, CopiesAreFresh, RelationsMergeable, RelationsMerged, ColumnsMergeable, ColumnsMerged, FKMergeable, FKMerged, DependenciesMergeable, DependenciesMerged, DeltaShape;
    PatchesAreGiven(d);
    DeletionsAreValid(base, d, all);
    ViewsAreNotNil(n, BaseCatalog(base), d, KnownDeleted(d), catalog);
    ExactIs(n, BaseCatalog(base), d, KnownDeleted(d), catalog, SystemRelations);
    next := base;
    ghost var tables: Option<map<string, seq<string>>> := None;
    var membership, fks, graph;
    ok, membership := MergeWatchRelations(base, d, all);
    ghost var mid := base.(catalog := Some(catalog), schemaTables := membership);
    if ok {
      next := base.(catalog := Some(catalog), schemaTables := membership);
      ok, next := MergeWatchColumns(n, base, next, d, all);
    }
    ghost var full := next;
    if ok {
      ok, fks := MergeWatchForeignKeys(n, base, d, all);
      if ok {
        ok, graph := MergeWatchDependencies(base, d, all, Rows(membership), ExactRows(catalog, SystemRelations));
        if ok {
          next := next.(foreignKeys := fks, dependencies := graph);
          if base.catalog.None? && next.catalog.value.objects.None? {
            next := next.(catalog := None);
          }
        }
      }
    }
    if ok {
      assert Accepts(n, base, d, all, membership);
      assert MergedVia(n, base, d, all, mid, full, next);
    } else if Acceptable(n, base, d) {
      ghost var other, tables :| Accepts(n, base, d, other, tables);
      OneAllDeleted(base, d, KnownDeleted(d), all, other);
      if RelationsMerged(base, d, all, membership) {
        TablesAgree(base, d, all, membership, tables, ExactRows(catalog, SystemRelations));
      }
    }
  }

  /** `done1`, `done2` and `done3` say whether the context has ended at each of the three checks. */
  method MergeObjects(n: Names, done1: bool, done2: bool, done3: bool, base: Option<Cache>, d: ObjectDelta) returns (r: MergeResult, ghost all: set<ObjectID>)
    requires base.Some? ==> CopiesAreFresh(base.value, d)
    ensures r.Canceled? ==> done1 || done2 || done3
    ensures done1 ==> r.Canceled?
    ensures !done1 && !done2 && !done3 ==> (r.Merge? <==> base.Some? && Acceptable(n, base.value, d))
    ensures base.Some? && Acceptable(n, base.value, d) ==> (r.Canceled? <==> done1 || done2 || done3)
    ensures r.Merge? ==> base.Some? && !done1 && !done2 && !done3 && Merged(n, base.value, d, all, r.cache)
  {
    all := {};
    if done1 {
      return Canceled, all;
    }
    if base.None? {
      return Incomplete, all;
    }
    var ok := CheckDelta(n, d);
    if !ok {
      return Incomplete, all;
    }
    var catalog, removed;
    ok, catalog, removed := MergeHeader(n, base.value, d);
    if !ok {
      return Incomplete, all;
    }
    if done2 {
      return Canceled, all;
    }
    var next;
    ok, next := MergeBody(n, base.value, d, removed, catalog);
    if !ok {
      return Incomplete, all;
    }
    if done3 {
      return Canceled, all;
    }
    return Merge(next), removed;
  }
}
