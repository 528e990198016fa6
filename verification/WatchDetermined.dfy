/** The exact data of a canonical schema-less cache determine every projection. */
module WatchDetermined {
  import opened Wrappers
  import opened Identity
  import opened ObjectIndexes
  import opened CatalogTypes
  import opened Sorting
  import opened Dependencies
  import opened WatchSpec
  import opened WatchCanonical

  // ----- the same exact data

  /** Rows without their key flags, which are a projection of the primary keys. */
  function Bare(cols: Columns): Columns {
    seq(|cols|, i requires 0 <= i < |cols| => if cols[i].None? then None else Some(cols[i].value.(key := "")))
  }

  ghost predicate SameBareColumns(a: map<string, Columns>, b: map<string, Columns>) {
    a.Keys == b.Keys && forall key | key in a :: Bare(a[key]) == Bare(b[key])
  }

  /** What the foreign keys say, without where they are stored. */
  function PairLists(fks: seq<ForeignKey>): seq<seq<Pair>> {
    if fks == [] then [] else PairLists(fks[..|fks| - 1]) + [fks[|fks| - 1].pairs]
  }

  ghost predicate SameKeys(n: Names, x: FKIndex, y: FKIndex) {
    exists p: seq<ForeignKey>, q: seq<ForeignKey> ::
      IndexesFKs(n, x, p) && IndexesFKs(n, y, q) && multiset(PairLists(p)) == multiset(PairLists(q))
  }

  ghost predicate SameEdges(g: Option<Graph>, h: Option<Graph>) {
    && (g.Some? <==> h.Some?)
    && (g.Some? ==> (forall e :: e in g.value.edges <==> e in h.value.edges) && SameChecks(g.value.checks, h.value.checks))
  }

  ghost predicate SameChecks(a: map<string, seq<string>>, b: map<string, seq<string>>) {
    a.Keys == b.Keys && forall r, name | r in a :: name in a[r] <==> name in b[r]
  }

  /** Two caches hold the same exact data: key flags, foreign key addresses and the order of edges
      aside. */
  ghost predicate SameExactData(n: Names, a: Cache, b: Cache) {
    && (a.catalog.Some? <==> b.catalog.Some?)
    && (forall k | Descriptor(k) :: ExactRows(BaseCatalog(a), k) == ExactRows(BaseCatalog(b), k))
    && (forall s, name :: name in SchemaRows(Rows(a.schemaTables), s) <==> name in SchemaRows(Rows(b.schemaTables), s))
    && Rows(a.primaryKeysByID) == Rows(b.primaryKeysByID)
    && (MetadataReady(a, PrimaryKeys) <==> MetadataReady(b, PrimaryKeys))
    && SameBareColumns(Rows(a.columnsByID), Rows(b.columnsByID))
    && SameKeys(n, Rows(a.foreignKeys), Rows(b.foreignKeys))
    && SameEdges(a.dependencies, b.dependencies)
  }

  // ----- the same projections

  ghost predicate SameCatalogs(a: CatalogCache, b: CatalogCache) {
    && (forall k | Descriptor(k) && HasFoldedMap(k) :: FoldedRows(a, k) == FoldedRows(b, k))
    && Rows(a.indexesByTable) == Rows(b.indexesByTable)
    && Rows(a.triggersByTable) == Rows(b.triggersByTable)
    && a.objects.Some? && b.objects.Some? && a.objects.value.exact == b.objects.value.exact
    && forall fk: FoldKey, id: ObjectID :: FindsFolded(a.objects.value, fk, id) <==> FindsFolded(b.objects.value, fk, id)
  }

  function CellOf(x: FKIndex, l: string, r: string): seq<Option<ForeignKey>> {
    if l in x && r in x[l] then x[l][r] else []
  }

  function CellPairs(cell: seq<Option<ForeignKey>>): seq<seq<Pair>> {
    if cell == [] then [] else
      CellPairs(cell[..|cell| - 1]) + [if cell[|cell| - 1].Some? then cell[|cell| - 1].value.pairs else []]
  }

  /** The same keys between any two tables. */
  ghost predicate SameFKIndex(x: FKIndex, y: FKIndex) {
    forall l, r :: multiset(CellPairs(CellOf(x, l, r))) == multiset(CellPairs(CellOf(y, l, r)))
  }

  /** The edges that an index lists for a key. */
  function Listed(g: Graph, index: map<string, seq<nat>>, k: string): set<DependencyEdge> {
    set i | 0 <= i < |Rowed(index, k)| && Rowed(index, k)[i] < |g.edges| :: g.edges[Rowed(index, k)[i]]
  }

  ghost predicate SameGraph(g: Graph, h: Graph) {
    && g.checks == h.checks
    && (forall k :: Listed(g, g.uses, k) == Listed(h, h.uses, k))
    && (forall k :: Listed(g, g.usedBy, k) == Listed(h, h.usedBy, k))
    && (g.edges == h.edges ==> g == h)
  }

  /** Two caches agree on every projection. */
  ghost predicate SameProjections(a: Cache, b: Cache) {
    && (a.catalog.Some? && b.catalog.Some? ==> SameCatalogs(a.catalog.value, b.catalog.value))
    && SchemaRows(Rows(a.schemaTables), "") == SchemaRows(Rows(b.schemaTables), "")
    && Rows(a.primaryKeyColumns) == Rows(b.primaryKeyColumns)
    && Rows(a.columnsByID) == Rows(b.columnsByID)
    && Rows(a.columnsWithParent) == Rows(b.columnsWithParent)
    && SameFKIndex(Rows(a.foreignKeys), Rows(b.foreignKeys))
    && (a.dependencies.Some? && b.dependencies.Some? ==> SameGraph(a.dependencies.value, b.dependencies.value))
  }

  // ----- groups

  /** Rows of which no two have one name. */
  ghost predicate NamedOnce(rows: DescMap) {
    && (forall key | key in rows :: rows[key].Some?)
    && forall a, b | a in rows && b in rows && rows[a].value.name == rows[b].value.name :: a == b
  }

  lemma PlainNamedOnce(k: Kind, exact: DescMap)
    requires PlainRows(k, exact)
    ensures NamedOnce(exact)
  {
    forall a, b | a in exact && b in exact && exact[a].value.name == exact[b].value.name ensures a == b {
      assert PlainRow(k, a, exact[a]) && PlainRow(k, b, exact[b]);
      PlainRowsDiffer(k, exact, a, b);
    }
  }

  lemma FoldedNamedOnce(n: Names, exact: DescMap, folded: DescMap)
    requires FoldedFrom(n, exact, folded)
    ensures NamedOnce(folded)
  {
    forall a, b | a in folded && b in folded && folded[a].value.name == folded[b].value.name ensures a == b {
      assert CacheKey(n, folded[a].value.name) == a && CacheKey(n, folded[b].value.name) == b;
    }
  }

  lemma OneRowEqual(rows: DescMap, v: Option<Desc>, key: string)
    requires NamedOnce(rows)
    ensures key in rows && rows[key] == v ==> RowsEqual(rows, v) == {key}
  {
  }

  /** What a grouping of such rows holds. */
  lemma GroupMembers(n: Names, rows: DescMap, groups: map<string, seq<Option<Desc>>>, g: string)
    requires NamedOnce(rows) && GroupedFrom(n, rows, groups) && g in groups
    ensures NoDuplicates(groups[g])
    ensures forall v: Option<Desc> :: v in groups[g] <==> GroupKey(n, v) == Some(g) && v in rows.Values
  {
    var group := groups[g];
    assert GroupCounts(n, rows, g, group);
    forall v: Option<Desc> ensures v in group <==> GroupKey(n, v) == Some(g) && v in rows.Values {
      assert v in group <==> multiset(group)[v] > 0;
      if v in rows.Values {
        var key :| key in rows && rows[key] == v;
        OneRowEqual(rows, v, key);
      } else {
        assert RowsEqual(rows, v) == {};
      }
    }
    forall i, j | 0 <= i < j < |group| ensures group[i] != group[j] {
      if group[i] == group[j] {
        TwiceIn(group, i, j);
        assert group[i] in group;
        var key :| key in rows && rows[key] == group[i];
        OneRowEqual(rows, group[i], key);
      }
    }
  }

  lemma TwiceIn<T>(s: seq<T>, i: nat, j: nat)
    requires i < j < |s| && s[i] == s[j]
    ensures multiset(s)[s[i]] >= 2
  {
    assert s == s[..i] + [s[i]] + s[i + 1..j] + [s[j]] + s[j + 1..];
  }

  lemma GroupPresent(n: Names, rows: DescMap, groups: map<string, seq<Option<Desc>>>, g: string)
    requires NamedOnce(rows) && GroupedFrom(n, rows, groups)
    ensures g in groups <==> exists key :: key in rows && GroupKey(n, rows[key]) == Some(g)
  {
    if g in groups {
      GroupMembers(n, rows, groups, g);
      var v := groups[g][0];
      assert v in groups[g];
      var key :| key in rows && rows[key] == v;
    }
  }

  /** Groups are sorted by name, so rows of distinct names leave one outcome. */
  lemma GroupsAreDetermined(n: Names, rows: DescMap, a: map<string, seq<Option<Desc>>>, b: map<string, seq<Option<Desc>>>)
    requires NamedOnce(rows) && GroupedFrom(n, rows, a) && GroupedFrom(n, rows, b)
    ensures a == b
  {
    forall g ensures (g in a <==> g in b) && (g in a ==> a[g] == b[g]) {
      OneGroup(n, rows, a, b, g);
    }
  }

  lemma OneGroup(n: Names, rows: DescMap, a: map<string, seq<Option<Desc>>>, b: map<string, seq<Option<Desc>>>, g: string)
    requires NamedOnce(rows) && GroupedFrom(n, rows, a) && GroupedFrom(n, rows, b)
    ensures (g in a <==> g in b) && (g in a ==> a[g] == b[g])
  {
    GroupPresent(n, rows, a, g);
    GroupPresent(n, rows, b, g);
    if g in a {
      GroupMembers(n, rows, a, g);
      GroupMembers(n, rows, b, g);
      forall v: Option<Desc>, w: Option<Desc> | v in a[g] && w in a[g] && !ByName(v, w) && !ByName(w, v) ensures v == w {
        NoNameTies(rows, v, w);
      }
      SortedIsUnique(a[g], b[g], ByName);
    }
  }

  lemma NoNameTies(rows: DescMap, v: Option<Desc>, w: Option<Desc>)
    requires NamedOnce(rows) && v in rows.Values && w in rows.Values && !ByName(v, w) && !ByName(w, v)
    ensures v == w
  {
    var a :| a in rows && rows[a] == v;
    var b :| b in rows && rows[b] == w;
    StringLessTrichotomy(v.value.name, w.value.name);
  }

  // ----- the two-way index of foreign keys

  /** How often a key is filed between two tables: once each way, twice when the tables fold alike. */
  function Filings(n: Names, fk: ForeignKey, l: string, r: string): nat
    requires FKOk(Some(fk))
  {
    var x, y := ColumnDatabaseKey(n, LeftEnd(fk).schema, LeftEnd(fk).table), ColumnDatabaseKey(n, RightEnd(fk).schema, RightEnd(fk).table);
    (if x == l && y == r then 1 else 0) + (if y == l && x == r then 1 else 0)
  }

  /** The filings of the keys that say `p`. */
  function FilingsOf(n: Names, fks: seq<ForeignKey>, l: string, r: string, p: seq<Pair>): nat
    requires forall fk | fk in fks :: FKOk(Some(fk))
  {
    if fks == [] then 0 else
      var fk := fks[|fks| - 1];
      assert fk in fks;
      FilingsOf(n, fks[..|fks| - 1], l, r, p) + if fk.pairs == p then Filings(n, fk, l, r) else 0
  }

  lemma CellGrows(cell: seq<Option<ForeignKey>>, fk: ForeignKey, p: seq<Pair>)
    ensures multiset(CellPairs(cell + [Some(fk)]))[p] == multiset(CellPairs(cell))[p] + if fk.pairs == p then 1 else 0
  {
    assert (cell + [Some(fk)])[..|cell|] == cell;
  }

  lemma {:induction false} CellCounts(n: Names, fks: seq<ForeignKey>, l: string, r: string, p: seq<Pair>)
    requires forall fk | fk in fks :: FKOk(Some(fk))
    ensures multiset(CellPairs(CellOf(FKIndexOf(n, fks), l, r)))[p] == FilingsOf(n, fks, l, r, p)
  {
    if fks != [] {
      var front, fk := fks[..|fks| - 1], fks[|fks| - 1];
      CellCounts(n, front, l, r, p);
      var m := FKIndexOf(n, front);
      var x, y := ColumnDatabaseKey(n, LeftEnd(fk).schema, LeftEnd(fk).table), ColumnDatabaseKey(n, RightEnd(fk).schema, RightEnd(fk).table);
      FiledCell(m, x, y, fk, l, r, p);
      FiledCell(Filed(m, x, y, fk), y, x, fk, l, r, p);
    }
  }

  lemma FiledCell(m: FKIndex, x: string, y: string, fk: ForeignKey, l: string, r: string, p: seq<Pair>)
    ensures multiset(CellPairs(CellOf(Filed(m, x, y, fk), l, r)))[p] ==
            multiset(CellPairs(CellOf(m, l, r)))[p] + if x == l && y == r && fk.pairs == p then 1 else 0
  {
    hide CellPairs, CellOf, Filed;
    FiledAt(m, x, y, fk, l, r);
    CellGrows(CellOf(m, l, r), fk, p);
  }

  lemma FiledAt(m: FKIndex, x: string, y: string, fk: ForeignKey, l: string, r: string)
    ensures CellOf(Filed(m, x, y, fk), l, r) == if x == l && y == r then CellOf(m, l, r) + [Some(fk)] else CellOf(m, l, r)
  {
  }

  lemma SamePairsFile(n: Names, fk: ForeignKey, one: ForeignKey, l: string, r: string)
    requires FKOk(Some(fk)) && FKOk(Some(one)) && fk.pairs == one.pairs
    ensures Filings(n, fk, l, r) == Filings(n, one, l, r)
  {
  }

  lemma PairCount(fks: seq<ForeignKey>, p: seq<Pair>)
    ensures multiset(PairLists(fks))[p] ==
            if fks == [] then 0 else multiset(PairLists(fks[..|fks| - 1]))[p] + if fks[|fks| - 1].pairs == p then 1 else 0
  {
  }

  /** Where a key is filed depends on its pairs alone, so only how often they occur matters. */
  lemma {:induction false} FilingsCount(n: Names, fks: seq<ForeignKey>, one: ForeignKey, l: string, r: string)
    requires (forall fk | fk in fks :: FKOk(Some(fk))) && FKOk(Some(one))
    ensures FilingsOf(n, fks, l, r, one.pairs) == Times(multiset(PairLists(fks))[one.pairs], Filings(n, one, l, r))
  {
    hide FKOk, Filings, Times, PairLists;
    OneTimes(0, Filings(n, one, l, r));
    PairCount(fks, one.pairs);
    if fks != [] {
      var front, fk := fks[..|fks| - 1], fks[|fks| - 1];
      assert fk in fks;
      FilingsCount(n, front, one, l, r);
      OneTimes(multiset(PairLists(front))[one.pairs], Filings(n, one, l, r));
      if fk.pairs == one.pairs {
        SamePairsFile(n, fk, one, l, r);
      }
    }
  }

  function Times(m: nat, k: nat): nat {
    m * k
  }

  lemma OneTimes(m: nat, k: nat)
    ensures Times(0, k) == 0 && Times(m + 1, k) == Times(m, k) + k
  {
  }

  lemma {:induction false} NoFilings(n: Names, fks: seq<ForeignKey>, l: string, r: string, p: seq<Pair>)
    requires forall fk | fk in fks :: FKOk(Some(fk))
    ensures multiset(PairLists(fks))[p] == 0 ==> FilingsOf(n, fks, l, r, p) == 0
    ensures multiset(PairLists(fks))[p] > 0 ==> exists fk :: fk in fks && fk.pairs == p
  {
    if fks != [] {
      NoFilings(n, fks[..|fks| - 1], l, r, p);
    }
  }

  lemma FKsAreDetermined(n: Names, x: FKIndex, y: FKIndex)
    requires SameKeys(n, x, y)
    ensures SameFKIndex(x, y)
  {
    var a: seq<ForeignKey>, b: seq<ForeignKey> :| IndexesFKs(n, x, a) && IndexesFKs(n, y, b) && multiset(PairLists(a)) == multiset(PairLists(b));
    forall l, r, p ensures multiset(CellPairs(CellOf(x, l, r)))[p] == multiset(CellPairs(CellOf(y, l, r)))[p] {
      SameCell(n, a, b, l, r, p);
    }
  }

  lemma SameCell(n: Names, a: seq<ForeignKey>, b: seq<ForeignKey>, l: string, r: string, p: seq<Pair>)
    requires (forall fk | fk in a :: FKOk(Some(fk))) && (forall fk | fk in b :: FKOk(Some(fk)))
    requires multiset(PairLists(a)) == multiset(PairLists(b))
    ensures multiset(CellPairs(CellOf(FKIndexOf(n, a), l, r)))[p] == multiset(CellPairs(CellOf(FKIndexOf(n, b), l, r)))[p]
  {
    CellCounts(n, a, l, r, p);
    CellCounts(n, b, l, r, p);
    NoFilings(n, a, l, r, p);
    NoFilings(n, b, l, r, p);
    if multiset(PairLists(a))[p] > 0 {
      var one :| one in a && one.pairs == p;
      FilingsCount(n, a, one, l, r);
      FilingsCount(n, b, one, l, r);
    }
  }

  // ----- the dependency graph

  lemma ListedIs(g: Graph, index: map<string, seq<nat>>, keyOf: DependencyEdge -> string, k: string)
    requires IndexesEdges(index, g.edges, keyOf)
    ensures Listed(g, index, k) == set e | e in g.edges && keyOf(e) == k
  {
    PositionsAre(g.edges, keyOf, k);
    var row := Rowed(index, k);
    assert row == Positions(g.edges, keyOf, k);
    forall e | e in g.edges && keyOf(e) == k ensures e in Listed(g, index, k) {
      var i :| 0 <= i < |g.edges| && g.edges[i] == e;
      assert i in row;
      var j :| 0 <= j < |row| && row[j] == i;
    }
    forall e | e in Listed(g, index, k) ensures e in g.edges && keyOf(e) == k {
      var j :| 0 <= j < |row| && row[j] < |g.edges| && g.edges[row[j]] == e;
      assert row[j] in row;
    }
  }

  lemma {:induction false} PositionsAre(edges: seq<DependencyEdge>, keyOf: DependencyEdge -> string, k: string)
    ensures forall i: nat :: i in Positions(edges, keyOf, k) <==> i < |edges| && keyOf(edges[i]) == k
  {
    if edges != [] {
      PositionsAre(edges[..|edges| - 1], keyOf, k);
    }
  }

  lemma GraphsAreDetermined(g: Graph, h: Graph)
    requires CanonicalGraph(g) && CanonicalGraph(h) && SameEdges(Some(g), Some(h))
    ensures SameGraph(g, h)
  {
    forall k ensures Listed(g, g.uses, k) == Listed(h, h.uses, k) {
      ListedIs(g, g.uses, FromKey, k);
      ListedIs(h, h.uses, FromKey, k);
    }
    forall k ensures Listed(g, g.usedBy, k) == Listed(h, h.usedBy, k) {
      ListedIs(g, g.usedBy, ToKey, k);
      ListedIs(h, h.usedBy, ToKey, k);
    }
    forall r | r in g.checks ensures g.checks[r] == h.checks[r] {
      assert SortedSet(g.checks[r], g.checks[r]) && SortedSet(h.checks[r], h.checks[r]);
      ChecksAre(g.checks[r], h.checks[r]);
    }
    if g.edges == h.edges {
      SameIndex(g.uses, h.uses, g.edges, FromKey);
      SameIndex(g.usedBy, h.usedBy, g.edges, ToKey);
    }
  }

  lemma SameIndex(a: map<string, seq<nat>>, b: map<string, seq<nat>>, edges: seq<DependencyEdge>, keyOf: DependencyEdge -> string)
    requires IndexesEdges(a, edges, keyOf) && IndexesEdges(b, edges, keyOf)
    ensures a == b
  {
    forall k ensures (k in a <==> k in b) && (k in a ==> a[k] == b[k]) {
    }
  }

  lemma ChecksAre(a: seq<string>, b: seq<string>)
    requires SortedSet(a, a) && SortedSet(b, b) && forall name :: name in a <==> name in b
    ensures a == b
  {
    TablesAreDetermined(a, b);
  }

  // ----- columns

  lemma FlagsAreDetermined(n: Names, a: Cache, b: Cache)
    requires CanonicalColumns(n, a) && CanonicalColumns(n, b)
    requires Rows(a.primaryKeyColumns) == Rows(b.primaryKeyColumns) && (MetadataReady(a, PrimaryKeys) <==> MetadataReady(b, PrimaryKeys))
    requires SameBareColumns(Rows(a.columnsByID), Rows(b.columnsByID))
    ensures Rows(a.columnsByID) == Rows(b.columnsByID)
  {
    hide ColumnsFoldedFrom, PlainTable;
    var x, y := Rows(a.columnsByID), Rows(b.columnsByID);
    forall key | key in x ensures x[key] == y[key] {
      assert |Bare(x[key])| == |Bare(y[key])|;
      forall i | 0 <= i < |x[key]| ensures x[key][i] == y[key][i] {
        assert FlaggedRow(n, a, key, Rows(a.columnsByID)[key][i]) && FlaggedRow(n, b, key, Rows(b.columnsByID)[key][i]);
        assert Bare(x[key])[i] == Bare(y[key])[i];
        FlagIgnoresFlag(n, a, b, x[key][i].value, y[key][i].value);
      }
    }
  }

  lemma FlagIgnoresFlag(n: Names, a: Cache, b: Cache, c: Column, d: Column)
    requires (MetadataReady(a, PrimaryKeys) <==> MetadataReady(b, PrimaryKeys)) && c.(key := "") == d.(key := "")
    requires Rows(a.primaryKeyColumns) == Rows(b.primaryKeyColumns)
    ensures KeyFlag(n, a, Rows(a.primaryKeyColumns), c) == KeyFlag(n, b, Rows(b.primaryKeyColumns), d)
  {
  }

  // ----- everything

  lemma CatalogsAreDetermined(n: Names, a: CatalogCache, b: CatalogCache)
    requires CanonicalCatalog(n, a) && CanonicalCatalog(n, b)
    requires forall k | Descriptor(k) :: ExactRows(a, k) == ExactRows(b, k)
    ensures SameCatalogs(a, b)
  {
    hide GroupedFrom, FoldedFrom, PlainRows, IndexesCatalog;
    forall k | Descriptor(k) && HasFoldedMap(k) ensures FoldedRows(a, k) == FoldedRows(b, k) {
      assert CanonicalCategory(n, k, CategoryOf(a, k)) && CanonicalCategory(n, k, CategoryOf(b, k));
      FoldedIsDetermined(n, k, ExactRows(a, k), FoldedRows(a, k), FoldedRows(b, k));
    }
    assert CanonicalCategory(n, Indexes, CategoryOf(a, Indexes)) && CanonicalCategory(n, Triggers, CategoryOf(a, Triggers));
    PlainNamedOnce(Indexes, ExactRows(a, Indexes));
    GroupsAreDetermined(n, ExactRows(a, Indexes), Rows(a.indexesByTable), Rows(b.indexesByTable));
    FoldedNamedOnce(n, ExactRows(a, Triggers), FoldedRows(a, Triggers));
    GroupsAreDetermined(n, FoldedRows(a, Triggers), Rows(a.triggersByTable), Rows(b.triggersByTable));
    IndexDependsOnKeys(b.objects.value, b, a);
    ObjectsAreDetermined(a.categories, a.objects.value, b.objects.value);
  }

  /** Two canonical schema-less caches with the same exact data agree on every projection. */
  lemma CanonicalIsDetermined(n: Names, a: Cache, b: Cache)
    requires Canonical(n, a) && Canonical(n, b) && SameExactData(n, a, b)
    ensures SameProjections(a, b)
  {
    hide CanonicalCatalog, CanonicalColumns, CanonicalGraph, SameCatalogs, SameGraph, SameFKIndex, SameKeys, SameEdges, SameBareColumns, KeysFoldedFrom, PlainTable, StrictlySorted;
    if a.catalog.Some? {
      CatalogsAreDetermined(n, a.catalog.value, b.catalog.value);
    }
    if a.dependencies.Some? && b.dependencies.Some? {
      GraphsAreDetermined(a.dependencies.value, b.dependencies.value);
    }
    FKsAreDetermined(n, Rows(a.foreignKeys), Rows(b.foreignKeys));
    KeysAreEqual(n, a, b);
    FlagsAreDetermined(n, a, b);
    ColumnsAreEqual(n, a, b);
    TablesAreDetermined(SchemaRows(Rows(a.schemaTables), ""), SchemaRows(Rows(b.schemaTables), ""));
  }

  lemma KeysAreEqual(n: Names, a: Cache, b: Cache)
    requires CanonicalKeys(n, a) && CanonicalKeys(n, b) && Rows(a.primaryKeysByID) == Rows(b.primaryKeysByID)
    ensures Rows(a.primaryKeyColumns) == Rows(b.primaryKeyColumns)
  {
    KeysAreDetermined(n, Rows(a.primaryKeysByID), Rows(a.primaryKeyColumns), Rows(b.primaryKeyColumns));
  }

  lemma ColumnsAreEqual(n: Names, a: Cache, b: Cache)
    requires CanonicalColumns(n, a) && CanonicalColumns(n, b) && Rows(a.columnsByID) == Rows(b.columnsByID)
    ensures Rows(a.columnsWithParent) == Rows(b.columnsWithParent)
  {
    hide FlaggedRow, ColumnsFoldedFrom;
    ColumnsAreDetermined(n, Rows(a.columnsByID), Rows(a.columnsWithParent), Rows(b.columnsWithParent));
  }
}
