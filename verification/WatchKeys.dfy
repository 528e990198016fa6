/** The foreign key and dependency stages of MergeObjects. */
module WatchKeys {
  import opened Wrappers
  import opened Identity
  import opened ObjectIndexes
  import opened CatalogTypes
  import opened Sorting
  import opened MapLoops
  import opened Dependencies
  import opened WatchSpec
  import opened WatchChecks

  // ----- foreign keys (mergeWatchForeignKeys)

  /** Add the keys of one list that were not seen before; a malformed key is an error. */
  method CollectList(list: seq<Option<ForeignKey>>, before: seq<ForeignKey>) returns (ok: bool, keys: seq<ForeignKey>)
    requires Distinct(before)
    ensures ok <==> forall fk | fk in list && (fk.None? || fk.value !in before) :: FKOk(fk)
    ensures ok ==> Distinct(keys) && forall fk :: fk in keys <==> fk in before || Some(fk) in list
  {
    keys := before;
    for i := 0 to |list|
      invariant Distinct(keys)
      invariant forall fk :: fk in keys <==> fk in before || Some(fk) in list[..i]
      invariant forall fk | fk in list[..i] && (fk.None? || fk.value !in before) :: FKOk(fk)
    {
      assert list[..i + 1] == list[..i] + [list[i]];
      if list[i].Some? && list[i].value in keys {
        continue;
      }
      if !FKOk(list[i]) {
        return false, keys;
      }
      keys := keys + [list[i].value];
    }
    assert list[..|list|] == list;
    ok := true;
  }

  method CollectRow(row: map<string, seq<Option<ForeignKey>>>, before: seq<ForeignKey>) returns (ok: bool, keys: seq<ForeignKey>)
    requires Distinct(before) && forall fk | fk in before :: FKOk(Some(fk))
    ensures ok <==> forall fk | RowMentions(row, fk) :: FKOk(fk)
    ensures ok ==> Distinct(keys) && forall fk :: fk in keys <==> fk in before || RowMentions(row, Some(fk))
  {
    keys := before;
    var todo := row.Keys;
    while todo != {}
      invariant todo <= row.Keys && Distinct(keys)
      invariant forall fk | fk in keys :: FKOk(Some(fk))
      invariant forall fk :: fk in keys <==> fk in before || exists r | r in row.Keys - todo :: Some(fk) in row[r]
      invariant forall r | r in row.Keys - todo :: forall fk | fk in row[r] :: FKOk(fk)
    {
      var r :| r in todo;
      todo := todo - {r};
      var fine, more := CollectList(row[r], keys);
      if !fine {
        ghost var bad :| bad in row[r] && !FKOk(bad);
        assert RowMentions(row, bad);
        return false, keys;
      }
      keys := more;
    }
    ok := true;
  }

  method CollectFKs(index: FKIndex) returns (ok: bool, keys: seq<ForeignKey>)
    ensures ok <==> forall fk | Mentions(index, fk) :: FKOk(fk)
    ensures ok ==> Distinct(keys) && forall fk :: fk in keys <==> Mentions(index, Some(fk))
  {
    keys := [];
    var todo := index.Keys;
    while todo != {}
      invariant todo <= index.Keys && Distinct(keys)
      invariant forall fk | fk in keys :: FKOk(Some(fk))
      invariant forall fk :: fk in keys <==> exists l | l in index.Keys - todo :: RowMentions(index[l], Some(fk))
      invariant forall l | l in index.Keys - todo :: forall fk | RowMentions(index[l], fk) :: FKOk(fk)
    {
      var l :| l in todo;
      todo := todo - {l};
      var fine, more := CollectRow(index[l], keys);
      if !fine {
        ghost var bad :| RowMentions(index[l], bad) && !FKOk(bad);
        assert Mentions(index, bad);
        return false, keys;
      }
      keys := more;
    }
    ok := true;
  }

  method KeepFKs(d: ObjectDelta, deleted: set<ObjectID>, published: seq<ForeignKey>) returns (keys: seq<ForeignKey>)
    requires Distinct(published) && forall fk | fk in published :: FKOk(Some(fk))
    ensures Distinct(keys)
    ensures forall fk :: fk in keys <==> fk in published && !Involved(OwnersOf(d, ForeignKeys), fk) && !FKGone(deleted, fk)
  {
    keys := [];
    for i := 0 to |published|
      invariant Distinct(keys)
      invariant forall fk :: fk in keys <==> fk in published[..i] && !Involved(OwnersOf(d, ForeignKeys), fk) && !FKGone(deleted, fk)
    {
      assert published[..i + 1] == published[..i] + [published[i]];
      assert published[i] in published && published[i] !in published[..i];
      if !Involved(OwnersOf(d, ForeignKeys), published[i]) && !FKGone(deleted, published[i]) {
        keys := keys + [published[i]];
      }
    }
    assert published[..|published|] == published;
  }

  /** Append a fresh copy of every incoming key. */
  method CopyFKs(kept: seq<ForeignKey>, incoming: seq<ForeignKey>) returns (keys: seq<ForeignKey>)
    requires Distinct(kept) && Distinct(incoming)
    requires forall p, fk | p in incoming && fk in kept :: fk != CopyFK(p)
    ensures Distinct(keys)
    ensures forall fk :: fk in keys <==> fk in kept || exists p :: p in incoming && fk == CopyFK(p)
  {
    keys := kept;
    for i := 0 to |incoming|
      invariant Distinct(keys)
      invariant forall fk :: fk in keys <==> fk in kept || exists p :: p in incoming[..i] && fk == CopyFK(p)
    {
      var next := incoming[i];
      assert incoming[..i + 1] == incoming[..i] + [next];
      assert next in incoming && next !in incoming[..i];
      assert forall p: ForeignKey :: CopyFK(p) == CopyFK(next) ==> p == next;
      assert CopyFK(next) !in keys;
      keys := keys + [CopyFK(next)];
    }
    assert incoming[..|incoming|] == incoming;
  }

  method SortFKs(keys: seq<ForeignKey>) returns (order: seq<ForeignKey>)
    ensures SortOf(order, keys, FKLess)
  {
    KeyOrder((fk: ForeignKey) => FKSortKey(fk.pairs), FKLess);
    order := SortBy(keys, FKLess);
  }

  /** File every key in both directions. */
  method IndexFKs(n: Names, order: seq<ForeignKey>) returns (index: FKIndex)
    requires forall fk | fk in order :: FKOk(Some(fk))
    ensures index == FKIndexOf(n, order)
  {
    index := map[];
    for i := 0 to |order|
      invariant index == FKIndexOf(n, order[..i])
    {
      assert order[..i + 1][..i] == order[..i];
      var fk := order[i];
      assert fk in order;
      var left := ColumnDatabaseKey(n, LeftEnd(fk).schema, LeftEnd(fk).table);
      var right := ColumnDatabaseKey(n, RightEnd(fk).schema, RightEnd(fk).table);
      index := Filed(index, left, right, fk);
      index := Filed(index, right, left, fk);
    }
    assert order[..|order|] == order;
  }

  /** The keys that remain, each once: kept base keys, then copies of the patch keys. */
  method RemainingFKs(base: Cache, d: ObjectDelta, deleted: set<ObjectID>) returns (ok: bool, keys: seq<ForeignKey>)
    requires FKTouched(d, deleted) && CopiesAreFresh(base, d)
    requires ForeignKeys in d.owners ==> ForeignKeys in d.patches && d.patches[ForeignKeys].cache.Some?
    ensures ok <==> FKMergeable(base, d, deleted)
    ensures ok ==> Distinct(keys) && forall fk :: fk in keys <==> RemainingFK(base, d, deleted, fk)
    ensures ok ==> forall fk | fk in keys :: FKOk(Some(fk))
  {
    var published, incoming;
    ok, published := CollectFKs(Rows(base.foreignKeys));
    keys := [];
    if !ok {
      return;
    }
    keys := KeepFKs(d, deleted, published);
    if ForeignKeys in d.owners {
      if PatchCache(d, ForeignKeys).foreignKeys.None? {
        return false, keys;
      }
      ok, incoming := CollectFKs(PatchFKs(d));
      if !ok {
        return;
      }
      if exists fk | fk in incoming :: !Involved(OwnersOf(d, ForeignKeys), fk) || FKGone(deleted, fk) {
        return false, keys;
      }
      keys := CopyFKs(keys, incoming);
    }
  }

  method MergeWatchForeignKeys(n: Names, base: Cache, d: ObjectDelta, deleted: set<ObjectID>) returns (ok: bool, next: Option<FKIndex>)
    requires CopiesAreFresh(base, d)
    requires ForeignKeys in d.owners ==> ForeignKeys in d.patches && d.patches[ForeignKeys].cache.Some?
    ensures ok <==> FKMergeable(base, d, deleted)
    ensures ok ==> FKMerged(n, base, d, deleted, next)
  {
    next := base.foreignKeys;
    if !FKTouched(d, deleted) {
      return true, next;
    }
    var keys;
    ok, keys := RemainingFKs(base, d, deleted);
    if ok {
      var order := SortFKs(keys);
      SameElements(order, keys);
      DistinctBySort(order, keys);
      var index := IndexFKs(n, order);
      next := Some(index);
      assert IndexesFKs(n, index, order);
    }
  }

  // ----- the dependency graph (mergeWatchDependencies)

  method KeepEdges(d: ObjectDelta, deleted: set<ObjectID>, published: seq<DependencyEdge>) returns (edges: seq<DependencyEdge>)
    ensures forall e :: e in edges <==> e in published && KeptEdge(d, deleted, e)
  {
    edges := [];
    for i := 0 to |published|
      invariant forall e :: e in edges <==> e in published[..i] && KeptEdge(d, deleted, e)
    {
      assert published[..i + 1] == published[..i] + [published[i]];
      if published[i].from !in d.dependencyOwners && !RefGone(deleted, published[i].from) && !RefGone(deleted, published[i].to) {
        edges := edges + [published[i]];
      }
    }
    assert published[..|published|] == published;
  }

  method DropChecks(g: Graph, deleted: set<ObjectID>) returns (checks: map<string, seq<string>>)
    ensures checks == BaseChecks(g, deleted)
  {
    checks := g.checks;
    var todo := deleted;
    while todo != {}
      invariant todo <= deleted
      invariant checks == map r | r in g.checks && !CheckDropped(deleted - todo, r) :: g.checks[r]
    {
      var id :| id in todo;
      ghost var before := deleted - todo;
      todo := todo - {id};
      assert deleted - todo == before + {id};
      if id.kind == TABLE || id.kind == VIEW {
        checks := checks - {id.name};
      }
    }
    assert deleted - {} == deleted;
  }

  predicate CheckListOk(g: Graph, deleted: set<ObjectID>, tables: map<string, seq<string>>, systemRelations: DescMap, relation: string, names: seq<string>) {
    relation != "" && !RelationDeleted(deleted, "", relation) && KnownRelation(g, deleted, tables, systemRelations, relation) && "" !in names
  }

  /** Write the incoming check lists over the kept ones, each for a relation that is there. */
  method WriteChecks(g: Graph, deleted: set<ObjectID>, tables: map<string, seq<string>>, systemRelations: DescMap, patch: map<string, seq<string>>)
    returns (ok: bool, checks: map<string, seq<string>>)
    ensures ok <==> forall r | r in patch :: CheckListOk(g, deleted, tables, systemRelations, r, patch[r])
    ensures ok ==> checks == BaseChecks(g, deleted) + patch
  {
    hide BaseChecks, RelationDeleted, Key;
    checks := DropChecks(g, deleted);
    var todo := patch.Keys;
    while todo != {}
      invariant todo <= patch.Keys && checks == BaseChecks(g, deleted) + (patch - todo)
      invariant forall r | r in patch.Keys - todo :: CheckListOk(g, deleted, tables, systemRelations, r, patch[r])
    {
      var relation :| relation in todo;
      var known := RelationKnown(tables, checks, systemRelations, relation);
      todo := todo - {relation};
      if relation == "" || RelationDeleted(deleted, "", relation) || !known || "" in patch[relation] {
        return false, checks;
      }
      checks := checks[relation := patch[relation]];
    }
    assert patch - {} == patch;
    ok := true;
  }

  /** mergeWatchDependencies.  The order of the edges in the new graph is not modelled. */
  method MergeWatchDependencies(base: Cache, d: ObjectDelta, deleted: set<ObjectID>, tables: map<string, seq<string>>, systemRelations: DescMap)
    returns (ok: bool, next: Option<Graph>)
    ensures ok <==> DependenciesMergeable(base, d, deleted, tables, systemRelations)
    ensures ok ==> DependenciesMerged(base, d, deleted, next)
  {
    hide KeptEdge, BaseChecks, KnownRelation, CanonicalGraph;
    next := base.dependencies;
    if base.dependencies.None? || !DependenciesTouched(base, d, deleted) {
      return base.dependencies.Some? || !DependenciesAsked(d), next;
    }
    var g := base.dependencies.value;
    ok := CheckSchemas(g, deleted);
    if !ok {
      return;
    }
    ok := CheckRefs(d.dependencyOwners);
    if !ok {
      return;
    }
    var edges := KeepEdges(d, deleted, g.edges);
    ok, edges := AppendEdges(d, deleted, edges);
    if !ok {
      return;
    }
    var checks;
    ok, checks := WriteChecks(g, deleted, tables, systemRelations, d.checkNames);
    if ok {
      DedupKeepsSet(edges);
      var graph := NewDependencyGraph(edges, checks);
      next := Some(graph);
    }
  }
}
