/** When the projections of a cache are the canonical functions of its exact maps. */
module WatchCanonical {
  import opened Wrappers
  import opened Identity
  import opened ObjectIndexes
  import opened CatalogTypes
  import opened Sorting
  import opened Dependencies
  import opened WatchSpec
  import opened WatchColumns

  /** A row of a schema-less category, filed under its own identity. */
  ghost predicate PlainRow(k: Kind, key: string, v: Option<Desc>) {
    v.Some? && v.value.schema == "" && v.value.name != "" && key == Key(IdentityOf(k, v.value))
  }

  ghost predicate PlainRows(k: Kind, rows: DescMap) {
    forall key | key in rows :: PlainRow(k, key, rows[key])
  }

  ghost predicate CanonicalCategory(n: Names, k: Kind, c: Category) {
    && PlainRows(k, Rows(c.exact))
    && (HasFoldedMap(k) ==> FoldedFrom(n, Rows(c.exact), Rows(c.folded)))
  }

  ghost predicate CanonicalCatalog(n: Names, c: CatalogCache) {
    && (forall k | Descriptor(k) :: CanonicalCategory(n, k, CategoryOf(c, k)))
    && GroupedFrom(n, ExactRows(c, Indexes), Rows(c.indexesByTable))
    && GroupedFrom(n, FoldedRows(c, Triggers), Rows(c.triggersByTable))
    && c.objects.Some? && IndexesCatalog(c.objects.value, c.categories)
  }

  ghost predicate CanonicalTables(c: Cache) {
    forall s | s in Rows(c.schemaTables) :: s == "" && StrictlySorted(Rows(c.schemaTables)[s])
  }

  /** A table of a schema-less catalog. */
  ghost predicate PlainTable(key: string) {
    Parses(key) && Parsed(key) == TableID("", Parsed(key).name)
  }

  ghost predicate CanonicalKeys(n: Names, c: Cache) {
    && (forall key | key in Rows(c.primaryKeysByID) :: PlainTable(key))
    && KeysFoldedFrom(n, Rows(c.primaryKeysByID), Rows(c.primaryKeyColumns))
  }

  /** Every row belongs to its table and carries the flag that the folded keys give it. */
  ghost predicate FlaggedRow(n: Names, c: Cache, key: string, col: Option<Column>) {
    Parses(key) && ColumnRowOk(col, Parsed(key)) && col.value.key == KeyFlag(n, c, Rows(c.primaryKeyColumns), col.value)
  }

  ghost predicate CanonicalColumns(n: Names, c: Cache) {
    && (forall key | key in Rows(c.columnsByID) :: PlainTable(key))
    && (forall key, i | key in Rows(c.columnsByID) && 0 <= i < |Rows(c.columnsByID)[key]| :: FlaggedRow(n, c, key, Rows(c.columnsByID)[key][i]))
    && ColumnsFoldedFrom(n, Rows(c.columnsByID), Rows(c.columnsWithParent))
  }

  ghost predicate CanonicalFKs(n: Names, c: Cache) {
    exists order: seq<ForeignKey> :: IndexesFKs(n, Rows(c.foreignKeys), order)
  }

  /** Every projection is the canonical function of the exact maps. */
  ghost predicate Canonical(n: Names, c: Cache) {
    && (c.catalog.Some? ==> CanonicalCatalog(n, c.catalog.value))
    && CanonicalTables(c)
    && CanonicalKeys(n, c)
    && CanonicalColumns(n, c)
    && CanonicalFKs(n, c)
    && (c.dependencies.Some? ==> CanonicalGraph(c.dependencies.value))
  }

  predicate PlainIdentity(id: ObjectID) {
    id.schema == "" && id.parent == ""
  }

  /** A delta of a schema-less catalog. */
  predicate PlainDelta(d: ObjectDelta) {
    && (forall k | k in d.owners :: forall id | id in d.owners[k] :: PlainIdentity(id))
    && (forall id | id in d.deleted :: PlainIdentity(id))
  }

  // ----- canonical projections are determined by the exact maps

  /** Exact rows of a schema-less category with equal names are the same row. */
  lemma PlainRowsDiffer(k: Kind, exact: DescMap, a: string, b: string)
    requires PlainRows(k, exact)
    requires a in exact && b in exact && exact[a].Some? && exact[b].Some? && exact[a].value.name == exact[b].value.name
    ensures a == b
  {
  }

  /** A folded entry is the exact row with the greatest name that folds to it. */
  lemma FoldedEntry(n: Names, k: Kind, exact: DescMap, f: DescMap, x: string) returns (a: string)
    requires PlainRows(k, exact)
    requires FoldedFrom(n, exact, f) && x in f
    ensures a in exact && exact[a] == f[x] && exact[a].Some? && CacheKey(n, exact[a].value.name) == x
    ensures forall key | key in exact && exact[key].Some? && CacheKey(n, exact[key].value.name) == x :: !StringLess(exact[a].value.name, exact[key].value.name)
  {
    a :| a in exact && exact[a] == f[x];
    forall key | key in exact && exact[key].Some? && CacheKey(n, exact[key].value.name) == x
      ensures !StringLess(exact[a].value.name, exact[key].value.name)
    {
      assert PlainRow(k, key, exact[key]) && PlainRow(k, a, exact[a]);
      assert !NameLess(f[x].value, exact[key].value);
      StringLessTrichotomy(exact[a].value.name, exact[key].value.name);
    }
  }

  lemma FoldedDomain(n: Names, exact: DescMap, f: DescMap, x: string)
    requires FoldedFrom(n, exact, f)
    ensures x in f <==> exists key :: key in exact && exact[key].Some? && CacheKey(n, exact[key].value.name) == x
  {
    if x in f {
      var key :| key in exact && exact[key] == f[x];
    }
  }

  lemma FoldedEntriesAgree(n: Names, k: Kind, exact: DescMap, f: DescMap, g: DescMap, x: string)
    requires PlainRows(k, exact)
    requires FoldedFrom(n, exact, f) && FoldedFrom(n, exact, g) && x in f && x in g
    ensures f[x] == g[x]
  {
    var a := FoldedEntry(n, k, exact, f, x);
    var b := FoldedEntry(n, k, exact, g, x);
    StringLessTrichotomy(exact[a].value.name, exact[b].value.name);
    PlainRowsDiffer(k, exact, a, b);
  }

  lemma FoldedAgree(n: Names, k: Kind, exact: DescMap, f: DescMap, g: DescMap, x: string)
    requires PlainRows(k, exact)
    requires FoldedFrom(n, exact, f) && FoldedFrom(n, exact, g)
    ensures x in f <==> x in g
    ensures x in f ==> f[x] == g[x]
  {
    FoldedDomain(n, exact, f, x);
    FoldedDomain(n, exact, g, x);
    if x in f {
      FoldedEntriesAgree(n, k, exact, f, g, x);
    }
  }

  lemma FoldedIsDetermined(n: Names, k: Kind, exact: DescMap, f: DescMap, g: DescMap)
    requires PlainRows(k, exact)
    requires FoldedFrom(n, exact, f) && FoldedFrom(n, exact, g)
    ensures f == g
  {
    hide PlainRows, FoldedFrom;
    forall x ensures (x in f <==> x in g) && (x in f ==> f[x] == g[x]) { FoldedAgree(n, k, exact, f, g, x); }
  }

  lemma KeysAreDetermined(n: Names, keys: map<string, seq<string>>, f: map<string, set<string>>, g: map<string, set<string>>)
    requires forall key | key in keys :: Parses(key)
    requires KeysFoldedFrom(n, keys, f) && KeysFoldedFrom(n, keys, g)
    ensures f == g
  {
    hide Parses, Parsed, FoldOf;
    forall x ensures x in f <==> x in g { SameFolds(n, keys, f, x); SameFolds(n, keys, g, x); }
    forall x | x in f ensures f[x] == g[x] {
      forall name ensures name in f[x] <==> name in g[x] {
        assert name in f[x] <==> exists key | key in keys :: FoldOf(n, key) == x && name in keys[key];
        assert name in g[x] <==> exists key | key in keys :: FoldOf(n, key) == x && name in keys[key];
      }
    }
  }

  lemma SameFolds(n: Names, keys: map<string, seq<string>>, f: map<string, set<string>>, x: string)
    requires forall key | key in keys :: Parses(key)
    requires KeysFoldedFrom(n, keys, f)
    ensures x in f <==> exists key | key in keys :: FoldOf(n, key) == x
  {
  }

  lemma KeyOrderTotal(x: string, y: string)
    ensures !KeyOrderLess(x, x)
    ensures !KeyOrderLess(x, y) && !KeyOrderLess(y, x) ==> KeyName(x) == KeyName(y) && KeySchema(x) == KeySchema(y)
  {
    StringLessTrichotomy(KeyName(x), KeyName(y));
    StringLessTrichotomy(KeySchema(x), KeySchema(y));
    StringLessTrichotomy(KeySchema(x), KeySchema(x));
  }

  lemma ListsAgree(a: seq<string>, b: seq<string>, keys: set<string>)
    requires ListsKeys(a, keys) && ListsKeys(b, keys)
    requires forall x, y | x in keys && y in keys && KeyName(x) == KeyName(y) && KeySchema(x) == KeySchema(y) :: x == y
    ensures a == b
  {
    forall x, y | x in a && y in a && !KeyOrderLess(x, y) && !KeyOrderLess(y, x) ensures x == y {
      KeyOrderTotal(x, y);
    }
    SortedIsUnique(a, b, KeyOrderLess);
  }

  lemma ColumnsAreDetermined(n: Names, cols: map<string, Columns>, f: map<string, Columns>, g: map<string, Columns>)
    requires forall key | key in cols :: PlainTable(key)
    requires ColumnsFoldedFrom(n, cols, f) && ColumnsFoldedFrom(n, cols, g)
    ensures f == g
  {
    var a :| ListsKeys(a, cols.Keys) && f == FileAll(n, a, cols);
    var b :| ListsKeys(b, cols.Keys) && g == FileAll(n, b, cols);
    forall x, y | x in cols && y in cols && KeyName(x) == KeyName(y) ensures x == y {
      ParseKeyMeaning(x);
      ParseKeyMeaning(y);
    }
    ListsAgree(a, b, cols.Keys);
  }

  lemma TablesAreDetermined(a: seq<string>, b: seq<string>)
    requires StrictlySorted(a) && StrictlySorted(b)
    requires forall name :: name in a <==> name in b
    ensures a == b
  {
    StrictIsSorted(a);
    StrictIsSorted(b);
    forall x, y | x in a && y in a && !StringLess(x, y) && !StringLess(y, x) ensures x == y { StringLessTrichotomy(x, y); }
    SortedIsUnique(a, b, StringLess);
  }

  lemma StrictIsSorted(a: seq<string>)
    requires StrictlySorted(a)
    ensures Sorted(a, StringLess) && NoDuplicates(a)
  {
    forall i, j | 0 <= i < j < |a| ensures !StringLess(a[j], a[i]) && a[i] != a[j] { StringLessTrichotomy(a[i], a[j]); }
  }

  /** The exact identities an index holds are the keys of the exact maps, so two indexes of one
      catalog find the same objects. */
  lemma ObjectsAreDetermined(cs: map<Kind, Category>, v: IndexValue, w: IndexValue)
    requires IndexesCatalog(v, cs) && IndexesCatalog(w, cs)
    ensures v.exact == w.exact
    ensures forall fk: FoldKey, id: ObjectID :: FindsFolded(v, fk, id) <==> FindsFolded(w, fk, id)
  {
    var a :| Represents(v, a, DefaultFold) && CatalogIDs(a, cs);
    var b :| Represents(w, b, DefaultFold) && CatalogIDs(b, cs);
    SameIdentities(cs, a, b);
    SameIdentities(cs, b, a);
    SameExact(v, a, w, b);
    forall fk: FoldKey, id: ObjectID ensures FindsFolded(v, fk, id) <==> FindsFolded(w, fk, id) {
      FoldedLookup(v, a, fk, id);
      FoldedLookup(w, b, fk, id);
    }
  }

  lemma FoldedLookup(v: IndexValue, ids: seq<ObjectID>, fk: FoldKey, id: ObjectID)
    requires Represents(v, ids, DefaultFold)
    ensures FindsFolded(v, fk, id) <==> id in ids && id.kind == fk.kind && DefaultFold(id.name) == fk.folded
  {
    BucketIsLinearScan(ids, DefaultFold, fk);
  }

  ghost predicate FindsFolded(v: IndexValue, fk: FoldKey, id: ObjectID) {
    fk in v.byFold && id in v.byFold[fk]
  }

  lemma SameExact(v: IndexValue, a: seq<ObjectID>, w: IndexValue, b: seq<ObjectID>)
    requires Represents(v, a, DefaultFold) && Represents(w, b, DefaultFold)
    requires (forall id | id in a :: id in b) && (forall id | id in b :: id in a)
    ensures v.exact == w.exact
  {
    forall key | key in v.exact ensures key in w.exact && v.exact[key] == w.exact[key] {
      assert v.exact[key] in b && Key(v.exact[key]) == key;
      KeyInjective(v.exact[key], w.exact[key]);
    }
    forall key | key in w.exact ensures key in v.exact {
      assert w.exact[key] in a && Key(w.exact[key]) == key;
    }
  }

  lemma SameIdentities(cs: map<Kind, Category>, a: seq<ObjectID>, b: seq<ObjectID>)
    requires CatalogIDs(a, cs) && CatalogIDs(b, cs)
    ensures forall id | id in a :: id in b
  {
    forall id | id in a ensures id in b {
      var other :| other in b && Key(other) == Key(id);
      KeyInjective(other, id);
    }
  }

  /** An object index depends only on which keys the exact maps have. */
  lemma IndexDependsOnKeys(v: IndexValue, c: CatalogCache, c': CatalogCache)
    requires IndexesCatalog(v, c.categories)
    requires forall k | Descriptor(k) :: ExactRows(c, k).Keys == ExactRows(c', k).Keys
    ensures IndexesCatalog(v, c'.categories)
  {
    var ids :| Represents(v, ids, DefaultFold) && CatalogIDs(ids, c.categories);
    forall key ensures HasKey(c.categories, key) <==> HasKey(c'.categories, key) {
      forall k | Descriptor(k) ensures key in Rows(CategoryIn(c.categories, k).exact) <==> key in Rows(CategoryIn(c'.categories, k).exact) {
        assert ExactRows(c, k).Keys == ExactRows(c', k).Keys;
      }
    }
    assert CatalogIDs(ids, c'.categories);
  }
}
