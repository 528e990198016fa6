/** The loops that check a delta and its patches before anything is merged. */
module WatchChecks {
  import opened Wrappers
  import opened Identity
  import opened ObjectIndexes
  import opened CatalogTypes
  import opened MapLoops
  import opened WatchSpec

  // ----- the owners of a category

  /** Every owner is of the category and valid, and none is named twice: seen by their keys. */
  method CheckOwners(k: Kind, owners: seq<ObjectID>) returns (ok: bool)
    ensures ok <==> (forall id | id in owners :: OwnerKind(k, id) && ValidID(id)) && Distinct(owners)
  {
    hide Key, OwnerKind, ValidID;
    var seen: set<string> := {};
    for i := 0 to |owners|
      invariant forall key :: key in seen <==> exists j | 0 <= j < i :: Key(owners[j]) == key
      invariant (forall id | id in owners[..i] :: OwnerKind(k, id) && ValidID(id)) && Distinct(owners[..i])
    {
      var id := owners[i];
      assert owners[..i + 1] == owners[..i] + [id];
      assert id in owners;
      if !OwnerKind(k, id) || !ValidID(id) {
        return false;
      }
      if Key(id) in seen {
        SeenTwice(owners, i);
        return false;
      }
      assert forall j | 0 <= j < i :: owners[j] != id;
      seen := seen + {Key(id)};
    }
    assert owners[..|owners|] == owners;
    return true;
  }

  lemma SeenTwice(owners: seq<ObjectID>, i: nat)
    requires i < |owners| && exists j | 0 <= j < i :: Key(owners[j]) == Key(owners[i])
    ensures !Distinct(owners)
  {
    var j :| 0 <= j < i && Key(owners[j]) == Key(owners[i]);
    KeyInjective(owners[j], owners[i]);
  }

  // ----- a fragment

  method NoForeignRows(k: Kind, c: CatalogCache) returns (ok: bool)
    ensures ok <==> forall j | j in DESCRIPTOR_KINDS && j != k :: ExactRows(c, j) == map[] && (HasFoldedMap(j) ==> FoldedRows(c, j) == map[])
  {
    for i := 0 to |DESCRIPTOR_KINDS|
      invariant forall j | j in DESCRIPTOR_KINDS[..i] && j != k :: ExactRows(c, j) == map[] && (HasFoldedMap(j) ==> FoldedRows(c, j) == map[])
    {
      var j := DESCRIPTOR_KINDS[i];
      assert DESCRIPTOR_KINDS[..i + 1] == DESCRIPTOR_KINDS[..i] + [j];
      assert j in DESCRIPTOR_KINDS;
      if j != k && (ExactRows(c, j) != map[] || (HasFoldedMap(j) && FoldedRows(c, j) != map[])) {
        return false;
      }
    }
    assert DESCRIPTOR_KINDS[..|DESCRIPTOR_KINDS|] == DESCRIPTOR_KINDS;
    return true;
  }

  method CheckGroup(n: Names, k: Kind, key: string, group: seq<Option<Desc>>, exact: DescMap) returns (ok: bool)
    ensures ok <==> forall v | v in group :: GroupRowOk(n, k, key, v, exact)
  {
    hide GroupRowOk;
    for i := 0 to |group|
      invariant forall v | v in group[..i] :: GroupRowOk(n, k, key, v, exact)
    {
      assert group[..i + 1] == group[..i] + [group[i]];
      assert group[i] in group;
      if !GroupRowOk(n, k, key, group[i], exact) {
        return false;
      }
    }
    assert group[..|group|] == group;
    return true;
  }

  /** A group row is of its group, and its identity has an exact row. */
  method CheckGroups(n: Names, k: Kind, groups: map<string, seq<Option<Desc>>>, exact: DescMap) returns (ok: bool)
    ensures ok <==> forall key | key in groups :: forall v | v in groups[key] :: GroupRowOk(n, k, key, v, exact)
  {
    hide GroupRowOk;
    var todo := groups.Keys;
    while todo != {}
      invariant todo <= groups.Keys && forall key | key in groups.Keys - todo :: forall v | v in groups[key] :: GroupRowOk(n, k, key, v, exact)
    {
      var key :| key in todo;
      todo := todo - {key};
      var fine := CheckGroup(n, k, key, groups[key], exact);
      if !fine {
        return false;
      }
    }
    return true;
  }

  method CheckRowsOf(n: Names, k: Kind, c: CatalogCache) returns (ok: bool)
    ensures ok <==> FragmentRows(k, n, c)
  {
    hide GroupRowOk, ViewRowOk, ProcedureRowOk, FunctionRowOk, GroupRowOk;
    ok := NoForeignRows(k, c);
    if !ok || (k != Indexes && Rows(c.indexesByTable) != map[]) || (k != Triggers && Rows(c.triggersByTable) != map[]) {
      return false;
    }
    var views := Every(ExactRows(c, Views), (key, v) => ViewRowOk(v));
    var procedures := Every(ExactRows(c, Procedures), (key, v) => ProcedureRowOk(v));
    var functions := Every(ExactRows(c, Functions), (key, v) => FunctionRowOk(v));
    var indexes := CheckGroups(n, Indexes, Rows(c.indexesByTable), ExactRows(c, Indexes));
    var triggers := CheckGroups(n, Triggers, Rows(c.triggersByTable), ExactRows(c, Triggers));
    return views && procedures && functions && indexes && triggers;
  }

  /** validateWatchFragment */
  method ValidateFragment(n: Names, k: Kind, c: Cache) returns (ok: bool)
    ensures ok <==> FragmentOk(n, k, c)
  {
    hide FragmentRows;
    if Rows(c.schemas) != map[] || c.defaultSchema != "" || c.dependencies.Some? {
      return false;
    }
    if k != Relations && Rows(c.schemaTables) != map[] {
      return false;
    }
    if k != ColumnsAll && k != ColumnsCurrent && (Rows(c.columnsByID) != map[] || Rows(c.columnsWithParent) != map[]) {
      return false;
    }
    if k != PrimaryKeys && (Rows(c.primaryKeysByID) != map[] || Rows(c.primaryKeyColumns) != map[]) {
      return false;
    }
    if k != ForeignKeys && Rows(c.foreignKeys) != map[] {
      return false;
    }
    ok := true;
    if c.catalog.Some? {
      ok := CheckRowsOf(n, k, c.catalog.value);
    }
  }

  // ----- the whole delta

  method CheckCategory(n: Names, d: ObjectDelta, k: Kind) returns (ok: bool)
    requires k in d.owners
    ensures ok <==> CategoryShape(d, k) && FragmentOk(n, k, d.patches[k].cache.value)
  {
    hide FragmentOk, OwnerKind, ValidID;
    if !KnownKind(k) || k == Schemas || k == Dependencies {
      return false;
    }
    if k !in d.patches || d.patches[k].cache.None? || d.patches[k].count < 0 || d.patches[k].queries < 0 {
      return false;
    }
    var metadata := d.patches[k].cache.value.metadata;
    var todo := metadata.Keys;
    while todo != {}
      invariant todo <= metadata.Keys && forall j | j in metadata.Keys - todo :: j == k && metadata[j] == Ready
    {
      var j :| j in todo;
      todo := todo - {j};
      if j != k || metadata[j] != Ready {
        return false;
      }
    }
    ok := CheckOwners(k, d.owners[k]);
    if ok {
      ok := ValidateFragment(n, k, d.patches[k].cache.value);
    }
  }

  method CheckDeleted(deleted: seq<ObjectID>) returns (ok: bool)
    ensures ok <==> forall id | id in deleted :: ValidID(id) && DescriptorKind(id.kind)
  {
    hide ValidID, DescriptorKind;
    for i := 0 to |deleted|
      invariant forall id | id in deleted[..i] :: ValidID(id) && DescriptorKind(id.kind)
    {
      assert deleted[..i + 1] == deleted[..i] + [deleted[i]];
      assert deleted[i] in deleted;
      if !ValidID(deleted[i]) || !DescriptorKind(deleted[i].kind) {
        return false;
      }
    }
    assert deleted[..|deleted|] == deleted;
    return true;
  }

  /** What MergeObjects checks before it merges anything. */
  method CheckDelta(n: Names, d: ObjectDelta) returns (ok: bool)
    ensures ok <==> DeltaOk(n, d)
  {
    hide CategoryShape, FragmentOk, ValidID, DescriptorKind;
    if d.fullReason != "" || d.affected < 0 {
      return false;
    }
    var todo := d.owners.Keys;
    while todo != {}
      invariant todo <= d.owners.Keys
      invariant forall k | k in d.owners.Keys - todo :: CategoryFits(n, d, k)
    {
      var k :| k in todo;
      todo := todo - {k};
      var fine := CheckCategory(n, d, k);
      if !fine {
        UnfitDelta(n, d, k);
        return false;
      }
    }
    FitDelta(n, d);
    if !(d.patches.Keys <= d.owners.Keys) {
      return false;
    }
    ok := CheckDeleted(d.deleted);
  }

  predicate CategoryFits(n: Names, d: ObjectDelta, k: Kind)
    requires k in d.owners
  {
    CategoryShape(d, k) && FragmentOk(n, k, d.patches[k].cache.value)
  }

  lemma UnfitDelta(n: Names, d: ObjectDelta, k: Kind)
    requires k in d.owners && !CategoryFits(n, d, k)
    ensures !DeltaOk(n, d)
  {
  }

  lemma FitDelta(n: Names, d: ObjectDelta)
    requires forall k | k in d.owners :: CategoryFits(n, d, k)
    ensures DeltaOk(n, d) <==> d.fullReason == "" && d.affected >= 0 && d.patches.Keys <= d.owners.Keys
                               && forall id | id in d.deleted :: ValidID(id) && DescriptorKind(id.kind)
  {
  }

  // ----- the patches of a stage

  /** Every replacement row is filed under its identity, covered and not deleted; every folded row has an
      exact one. */
  method CheckReplacement(k: Kind, base: Category, patch: Category, owners: seq<ObjectID>, supplied: bool, deleted: set<ObjectID>) returns (ok: bool)
    ensures ok <==> RowsReplaceable(k, base, patch, owners, supplied, deleted)
  {
    hide ReplacementOk, LegacyRowOk;
    if base.exact.None? && Legacy(k, base) != map[] {
      return false;
    }
    if supplied && patch.exact.None? {
      return false;
    }
    ok := Every(Rows(patch.exact), (key, v) => ReplacementOk(k, key, v, owners, deleted));
    if ok {
      ok := Every(Legacy(k, patch), (key, v) => LegacyRowOk(k, v, owners, Rows(patch.exact)));
    }
  }

  method CheckFoldedColumns(owners: seq<ObjectID>, folded: map<string, Columns>) returns (ok: bool)
    ensures ok <==> FoldedColumnsOwned(owners, folded)
  {
    var todo := folded.Keys;
    while todo != {}
      invariant todo <= folded.Keys
      invariant forall f | f in folded.Keys - todo :: forall c: Option<Column> | c in folded[f] :: c.Some? && TableID(c.value.schema, c.value.table) in owners
    {
      var f :| f in todo;
      todo := todo - {f};
      var cols := folded[f];
      for i := 0 to |cols|
        invariant forall c: Option<Column> | c in cols[..i] :: c.Some? && TableID(c.value.schema, c.value.table) in owners
      {
        assert cols[..i + 1] == cols[..i] + [cols[i]];
        assert cols[i] in folded[f];
        if cols[i].None? || TableID(cols[i].value.schema, cols[i].value.table) !in owners {
          return false;
        }
      }
      assert cols[..|cols|] == cols;
    }
    return true;
  }

  ghost predicate FoldsLikeOne(n: Names, owners: seq<ObjectID>, f: string) {
    exists id | id in owners :: f == ColumnDatabaseKey(n, id.schema, id.name)
  }

  method FoldOwned(n: Names, owners: seq<ObjectID>, f: string) returns (found: bool)
    ensures found <==> FoldsLikeOne(n, owners, f)
  {
    found := false;
    for i := 0 to |owners|
      invariant found <==> FoldsLikeOne(n, owners[..i], f)
    {
      assert owners[..i + 1] == owners[..i] + [owners[i]];
      assert owners[i] in owners[..i + 1];
      if f == ColumnDatabaseKey(n, owners[i].schema, owners[i].name) {
        found := true;
      }
    }
    assert owners[..|owners|] == owners;
  }

  method CheckFoldedKeys(n: Names, owners: seq<ObjectID>, folded: map<string, set<string>>) returns (ok: bool)
    ensures ok <==> FoldedKeysOwned(n, owners, folded)
  {
    var todo := folded.Keys;
    while todo != {}
      invariant todo <= folded.Keys
      invariant forall f | f in folded.Keys - todo :: FoldsLikeOne(n, owners, f)
    {
      var f :| f in todo;
      todo := todo - {f};
      var found := FoldOwned(n, owners, f);
      if !found {
        assert !FoldsLikeOne(n, owners, f);
        return false;
      }
    }
    assert forall f | f in folded :: FoldsLikeOne(n, owners, f);
    return true;
  }

  // ----- dependencies

  /** An identity with a schema has no place in the graph. */
  method CheckSchemas(g: Graph, deleted: set<ObjectID>) returns (ok: bool)
    ensures ok <==> forall id | id in deleted && id.schema != "" :: g.edges == [] && g.checks == map[]
  {
    var todo := deleted;
    while todo != {}
      invariant todo <= deleted && forall id | id in deleted - todo && id.schema != "" :: g.edges == [] && g.checks == map[]
    {
      var id :| id in todo;
      todo := todo - {id};
      if id.schema != "" && (g.edges != [] || g.checks != map[]) {
        return false;
      }
    }
    return true;
  }

  method CheckRefs(refs: seq<DependencyRef>) returns (ok: bool)
    ensures ok <==> (forall r | r in refs :: ValidRef(r)) && Distinct(refs)
  {
    hide ValidRef;
    var owners: set<DependencyRef> := {};
    for i := 0 to |refs|
      invariant forall r :: r in owners <==> r in refs[..i]
      invariant (forall r | r in refs[..i] :: ValidRef(r)) && Distinct(refs[..i])
    {
      var r := refs[i];
      assert refs[..i + 1] == refs[..i] + [r];
      assert r in refs;
      if !ValidRef(r) {
        return false;
      }
      if r in owners {
        assert exists j | 0 <= j < i :: refs[j] == r by {
          var j :| 0 <= j < |refs[..i]| && refs[..i][j] == r;
          assert refs[j] == r;
        }
        return false;
      }
      owners := owners + {r};
    }
    assert refs[..|refs|] == refs;
    return true;
  }

  predicate EdgeOk(d: ObjectDelta, deleted: set<ObjectID>, e: DependencyEdge) {
    ValidRef(e.from) && ValidRef(e.to) && e.from in d.dependencyOwners && !RefGone(deleted, e.from) && !RefGone(deleted, e.to)
  }

  /** Append the incoming edges, each one covered and with both ends there. */
  method AppendEdges(d: ObjectDelta, deleted: set<ObjectID>, kept: seq<DependencyEdge>) returns (ok: bool, edges: seq<DependencyEdge>)
    ensures ok <==> forall e | e in d.dependencyEdges :: EdgeOk(d, deleted, e)
    ensures ok ==> edges == kept + d.dependencyEdges
  {
    hide EdgeOk;
    var incoming := d.dependencyEdges;
    edges := kept;
    for i := 0 to |incoming|
      invariant edges == kept + incoming[..i]
      invariant forall e | e in incoming[..i] :: EdgeOk(d, deleted, e)
    {
      assert incoming[..i + 1] == incoming[..i] + [incoming[i]];
      assert incoming[i] in incoming;
      if !EdgeOk(d, deleted, incoming[i]) {
        return false, edges;
      }
      edges := edges + [incoming[i]];
    }
    assert incoming[..|incoming|] == incoming;
    ok := true;
  }

  /** Is a relation there: in the table list, among the checks so far, or a system relation? */
  method RelationKnown(tables: map<string, seq<string>>, checks: map<string, seq<string>>, systemRelations: DescMap, relation: string) returns (known: bool)
    ensures known <==> relation in SchemaRows(tables, "") || relation in checks || Key(TableID("", relation)) in systemRelations
  {
    known := false;
    var names := SchemaRows(tables, "");
    var i := 0;
    while i < |names| && !known
      invariant 0 <= i <= |names| && (known <==> relation in names[..i])
    {
      assert names[..i + 1] == names[..i] + [names[i]];
      known := names[i] == relation;
      i := i + 1;
    }
    assert names[..|names|] == names;
    assert known ==> relation in names;
    if !known {
      known := relation in checks || Key(TableID("", relation)) in systemRelations;
    }
  }
}
