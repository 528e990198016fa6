/** The relation and column stages of MergeObjects. */
module WatchRelations {
  import opened Wrappers
  import opened Identity
  import opened ObjectIndexes
  import opened CatalogTypes
  import opened Sorting
  import opened MapLoops
  import opened WatchSpec
  import opened WatchCatalog

  // ----- relation membership (mergeWatchRelations)

  method KeepNames(d: ObjectDelta, deleted: set<ObjectID>, schema: string, names: seq<string>) returns (kept: seq<string>)
    ensures kept == Kept(d, deleted, schema, names)
  {
    kept := [];
    for i := 0 to |names|
      invariant kept == Kept(d, deleted, schema, names[..i])
    {
      assert names[..i + 1][..i] == names[..i];
      if !RelationDeleted(deleted, schema, names[i]) && !NamedBy(OwnersOf(d, Relations), schema, names[i]) {
        kept := kept + [names[i]];
      }
    }
    assert names[..|names|] == names;
  }

  /** Sort a schema's names; a repeated name is an error. */
  method SortDistinct(names: seq<string>) returns (ok: bool, sorted: seq<string>)
    ensures ok <==> Distinct(names)
    ensures ok ==> StrictlySorted(sorted) && forall name :: name in sorted <==> name in names
  {
    sorted := SortStrings(names);
    SameElements(sorted, names);
    for i := 0 to |sorted|
      invariant NoRepeat(sorted[..i])
    {
      assert sorted[..i + 1] == sorted[..i] + [sorted[i]];
      if i > 0 && sorted[i] == sorted[i - 1] {
        if Distinct(names) { DistinctBySort(sorted, names); }
        return false, sorted;
      }
    }
    assert sorted[..|sorted|] == sorted;
    forall i, j | 0 <= i < j < |sorted| ensures StringLess(sorted[i], sorted[j]) { AdjacentStrict(sorted, i, j); }
    forall i, j | 0 <= i < j < |sorted| ensures sorted[i] != sorted[j] { StringLessTrichotomy(sorted[i], sorted[j]); }
    DistinctBySort(names, sorted);
    ok := true;
  }

  /** No element equals its predecessor. */
  ghost predicate NoRepeat(s: seq<string>) {
    forall j, k | 0 <= j < k < |s| && k == j + 1 :: s[j] != s[k]
  }

  lemma AdjacentStrict(s: seq<string>, i: nat, j: nat)
    requires Sorted(s, StringLess) && i < j < |s| && NoRepeat(s)
    ensures StringLess(s[i], s[j])
  {
    var x, y, z := s[i], s[i + 1], s[j];
    assert !StringLess(z, x) && !StringLess(y, x) && (j > i + 1 ==> !StringLess(z, y));
    assert x != y;
    StringLessTrichotomy(x, y);
    StringLessTrichotomy(x, z);
  }

  predicate PatchNamesOk(d: ObjectDelta, deleted: set<ObjectID>, schema: string, names: seq<string>) {
    forall name | name in names :: !RelationDeleted(deleted, schema, name) && NamedBy(OwnersOf(d, Relations), schema, name)
  }

  method KeepTables(d: ObjectDelta, deleted: set<ObjectID>, tables: map<string, seq<string>>) returns (next: map<string, seq<string>>)
    ensures next.Keys == tables.Keys && forall s | s in tables :: next[s] == Kept(d, deleted, s, tables[s])
  {
    next := map[];
    var todo := tables.Keys;
    while todo != {}
      invariant todo <= tables.Keys && next.Keys == tables.Keys - todo
      invariant forall s | s in next :: next[s] == Kept(d, deleted, s, tables[s])
    {
      var schema :| schema in todo;
      todo := todo - {schema};
      var kept := KeepNames(d, deleted, schema, tables[schema]);
      next := next[schema := kept];
    }
  }

  method AddTables(d: ObjectDelta, deleted: set<ObjectID>, kept: map<string, seq<string>>, patch: map<string, seq<string>>)
    returns (ok: bool, next: map<string, seq<string>>)
    ensures ok <==> forall s | s in patch :: PatchNamesOk(d, deleted, s, patch[s])
    ensures ok ==> forall s :: s in next <==> s in kept || SchemaRows(patch, s) != []
    ensures ok ==> forall s :: SchemaRows(next, s) == SchemaRows(kept, s) + SchemaRows(patch, s)
  {
    next := kept;
    var todo := patch.Keys;
    while todo != {}
      invariant todo <= patch.Keys
      invariant forall s | s in patch.Keys - todo :: PatchNamesOk(d, deleted, s, patch[s])
      invariant forall s :: s in next <==> s in kept || (s !in todo && SchemaRows(patch, s) != [])
      invariant forall s :: SchemaRows(next, s) == SchemaRows(kept, s) + if s in todo then [] else SchemaRows(patch, s)
    {
      var schema :| schema in todo;
      todo := todo - {schema};
      var names := patch[schema];
      if !PatchNamesOk(d, deleted, schema, names) {
        return false, next;
      }
      if names != [] {
        next := next[schema := SchemaRows(next, schema) + names];
      }
    }
    ok := true;
  }

  method SortTables(tables: map<string, seq<string>>) returns (ok: bool, next: map<string, seq<string>>)
    ensures ok <==> forall s | s in tables :: Distinct(tables[s])
    ensures ok ==> next.Keys == tables.Keys
    ensures ok ==> forall s | s in next :: StrictlySorted(next[s]) && forall name :: name in next[s] <==> name in tables[s]
  {
    next := tables;
    var todo := tables.Keys;
    while todo != {}
      invariant todo <= tables.Keys && next.Keys == tables.Keys
      invariant forall s | s in todo :: next[s] == tables[s]
      invariant forall s | s in tables.Keys - todo :: Distinct(tables[s])
      invariant forall s | s in tables.Keys - todo :: StrictlySorted(next[s]) && forall name :: name in next[s] <==> name in tables[s]
    {
      var schema :| schema in todo;
      todo := todo - {schema};
      var fine, sorted := SortDistinct(next[schema]);
      if !fine {
        return false, next;
      }
      next := next[schema := sorted];
    }
    ok := true;
  }

  /** The unsorted lists are exactly the merged names, and the schemas left out have none. */
  lemma TablesAreMergedNames(base: Cache, d: ObjectDelta, deleted: set<ObjectID>, kept: map<string, seq<string>>, tables: map<string, seq<string>>)
    requires kept.Keys == Rows(base.schemaTables).Keys && forall s | s in kept :: kept[s] == Kept(d, deleted, s, Rows(base.schemaTables)[s])
    requires forall s :: s in tables <==> s in kept || SchemaRows(PatchTables(d), s) != []
    requires forall s :: SchemaRows(tables, s) == SchemaRows(kept, s) + SchemaRows(PatchTables(d), s)
    ensures forall s | s in tables :: tables[s] == MergedNames(base, d, deleted, s)
    ensures (forall s | s in tables :: Distinct(tables[s])) <==>
            forall s | s in Rows(base.schemaTables).Keys + PatchTables(d).Keys :: Distinct(MergedNames(base, d, deleted, s))
  {
    forall s | s in tables ensures tables[s] == MergedNames(base, d, deleted, s) {
      assert tables[s] == SchemaRows(tables, s);
    }
    forall s | s in Rows(base.schemaTables).Keys + PatchTables(d).Keys && s !in tables ensures MergedNames(base, d, deleted, s) == [] {
      assert SchemaRows(kept, s) == [];
    }
  }

  method MergeWatchRelations(base: Cache, d: ObjectDelta, deleted: set<ObjectID>) returns (ok: bool, next: Option<map<string, seq<string>>>)
    ensures ok <==> RelationsMergeable(base, d, deleted)
    ensures ok ==> RelationsMerged(base, d, deleted, next)
  {
    if !RelationsTouched(d, deleted) {
      return true, base.schemaTables;
    }
    next := None;
    var has := Relations in d.owners;
    if has && !(Relations in d.patches && d.patches[Relations].cache.Some? && d.patches[Relations].cache.value.schemaTables.Some?) {
      return false, next;
    }
    var kept := KeepTables(d, deleted, Rows(base.schemaTables));
    var tables;
    ok, tables := AddTables(d, deleted, kept, PatchTables(d));
    if ok {
      TablesAreMergedNames(base, d, deleted, kept, tables);
      ok, tables := SortTables(tables);
      next := Some(tables);
    }
  }
}
