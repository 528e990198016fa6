/** Merge order independence: the cache depends on which patches were merged, not on their order. */
module CatalogMergeOrder {
  import opened Wrappers
  import opened Identity
  import opened ObjectIndexes
  import opened CatalogTypes
  import opened WatchSpec
  import opened WatchCanonical
  import opened CatalogMerge

  /** One more merge of a kind that is not in yet. */
  lemma StepBuilds(n: Names, base: Cache, m: map<Kind, Patch>, mid: Cache, k: Kind, p: Patch, next: Cache)
    requires Complete(m) && BuiltFrom(n, base, m, mid) && k !in m && MergedFrom(n, mid, k, p, next)
    ensures Complete(m[k := p]) && BuiltFrom(n, base, m[k := p], next)
  {
    hide Built, PlainMerged, Mergeable, DerivedFrom, DerivedOnce, Plain;
    MergeableFacts(k, p);
    BuiltStep(n, base, m, k, p);
    PlainTwice(n, mid, k, p.cache.value);
    DerivedStep(n, base, m, mid, k, p, next);
  }

  lemma DerivedStep(n: Names, base: Cache, m: map<Kind, Patch>, mid: Cache, k: Kind, p: Patch, next: Cache)
    requires Complete(m) && k !in m && p.cache.Some? && DerivedFrom(n, base, m, mid) && DerivedOnce(n, mid, k, p.cache.value, next)
    ensures Complete(m[k := p]) && DerivedFrom(n, base, m[k := p], next)
  {
    hide IndexesRows, IndexGroupsFrom, TriggerGroupsFrom, CategoriesAfter, AnyCatalog;
    CategoriesStep(base, m, k, p);
    FragmentsStay(m, k, p);
    NoneOfCatalog(m);
  }

  lemma NoneOfCatalog(m: map<Kind, Patch>)
    ensures !AnyCatalog(m) ==> Indexes !in m && Triggers !in m
  {
    assert !AnyCatalog(m) ==> forall k | k in m :: !Descriptor(k);
  }

  predicate Has(arrivals: seq<Arrival>, k: Kind) {
    exists i | 0 <= i < |arrivals| :: arrivals[i].kind == k
  }

  lemma {:induction false} ByKindHas(arrivals: seq<Arrival>, k: Kind)
    ensures k in ByKind(arrivals) <==> Has(arrivals, k)
  {
    if arrivals != [] {
      var front := arrivals[..|arrivals| - 1];
      ByKindHas(front, k);
      if Has(front, k) { var i :| 0 <= i < |front| && front[i].kind == k; assert arrivals[i].kind == k; }
      if Has(arrivals, k) && arrivals[|arrivals| - 1].kind != k { var i :| 0 <= i < |arrivals| && arrivals[i].kind == k; assert front[i].kind == k; }
    }
  }

  lemma {:induction false} ByKindIs(arrivals: seq<Arrival>, i: nat)
    requires OncePerKind(arrivals) && i < |arrivals|
    ensures arrivals[i].kind in ByKind(arrivals) && ByKind(arrivals)[arrivals[i].kind] == arrivals[i].patch
  {
    if i < |arrivals| - 1 {
      ByKindIs(arrivals[..|arrivals| - 1], i);
    }
  }

  lemma ByKindSame(a: seq<Arrival>, b: seq<Arrival>)
    requires OncePerKind(a) && OncePerKind(b) && forall x :: x in a <==> x in b
    ensures ByKind(a) == ByKind(b)
  {
    forall k ensures k in ByKind(a) <==> k in ByKind(b) {
      ByKindHas(a, k);
      ByKindHas(b, k);
      if Has(a, k) { var i :| 0 <= i < |a| && a[i].kind == k; assert a[i] in b; }
      if Has(b, k) { var i :| 0 <= i < |b| && b[i].kind == k; assert b[i] in a; }
    }
    forall k | k in ByKind(a) ensures ByKind(a)[k] == ByKind(b)[k] {
      ByKindHas(a, k);
      var i :| 0 <= i < |a| && a[i].kind == k;
      ByKindIs(a, i);
      assert a[i] in b;
      var j :| 0 <= j < |b| && b[j] == a[i];
      ByKindIs(b, j);
    }
  }

  /** Folding mergeMetadata over any patches of distinct kinds gives what the patches as a whole build:
      all-schema columns supersede current-schema ones, and key flags are set whichever side came
      first. */
  lemma {:induction false} FoldBuilds(n: Names, base: Cache, arrivals: seq<Arrival>, next: Cache)
    requires OncePerKind(arrivals) && MergesTo(n, base, arrivals, next)
    ensures Complete(ByKind(arrivals)) && BuiltFrom(n, base, ByKind(arrivals), next)
    decreases |arrivals|
  {
    hide BuiltFrom, MergedFrom;
    if arrivals == [] {
      NothingBuilt(n, base);
    } else {
      var front, last := arrivals[..|arrivals| - 1], arrivals[|arrivals| - 1];
      var mid: Cache :| MergesTo(n, base, front, mid) && MergedFrom(n, mid, last.kind, last.patch, next);
      FoldBuilds(n, base, front, mid);
      ByKindHas(front, last.kind);
      StepBuilds(n, base, ByKind(front), mid, last.kind, last.patch, next);
    }
  }

  /** The caches are equal, up to order inside a fold bucket and among same-named rows of a group. */
  ghost predicate SameUpToOrder(x: Cache, y: Cache) {
    && Plain(x) == Plain(y)
    && (x.catalog.Some? ==> y.catalog.Some? && SameCatalog(x.catalog.value, y.catalog.value))
  }

  ghost predicate SameCatalog(x: CatalogCache, y: CatalogCache) {
    && SameObjects(x.objects, y.objects)
    && SameGroups(x.indexesByTable, y.indexesByTable)
    && SameGroups(x.triggersByTable, y.triggersByTable)
  }

  ghost predicate SameObjects(v: Option<IndexValue>, w: Option<IndexValue>) {
    v == w || (v.Some? && w.Some? && v.value.exact == w.value.exact &&
               forall fk: FoldKey, id: ObjectID :: FindsFolded(v.value, fk, id) <==> FindsFolded(w.value, fk, id))
  }

  /** Equal, or groupings of one set of rows: the same groups with the same rows, sorted by name. */
  ghost predicate SameGroups(a: Groups, b: Groups) {
    a == b || (a.Some? && b.Some? && a.value.Keys == b.value.Keys && forall g | g in a.value :: multiset(a.value[g]) == multiset(b.value[g]))
  }

  lemma ObjectsAgree(cs: map<Kind, Category>, v: Option<IndexValue>, w: Option<IndexValue>)
    requires IndexesRows(v, cs) && IndexesRows(w, cs)
    ensures SameObjects(v, w)
  {
    var a :| Represents(v.value, a, DefaultFold) && forall id :: id in a <==> InCatalog(cs, id);
    var b :| Represents(w.value, b, DefaultFold) && forall id :: id in b <==> InCatalog(cs, id);
    hide InCatalog, Represents;
    SameExact(v.value, a, w.value, b);
    forall fk: FoldKey, id: ObjectID ensures FindsFolded(v.value, fk, id) <==> FindsFolded(w.value, fk, id) {
      FoldedLookup(v.value, a, fk, id);
      FoldedLookup(w.value, b, fk, id);
    }
  }

  lemma GroupingsAgree(n: Names, rows: DescMap, a: map<string, seq<Option<Desc>>>, b: map<string, seq<Option<Desc>>>)
    requires GroupedFrom(n, rows, a) && GroupedFrom(n, rows, b)
    ensures SameGroups(Some(a), Some(b))
  {
    forall g ensures g in a <==> g in b {
      if g in a { GroupHasRow(n, rows, a, g); }
      if g in b { GroupHasRow(n, rows, b, g); }
    }
    forall g | g in a ensures multiset(a[g]) == multiset(b[g]) {
      assert GroupCounts(n, rows, g, a[g]) && GroupCounts(n, rows, g, b[g]);
    }
  }

  lemma GroupHasRow(n: Names, rows: DescMap, a: map<string, seq<Option<Desc>>>, g: string)
    requires GroupedFrom(n, rows, a) && g in a
    ensures exists key :: key in rows && GroupKey(n, rows[key]) == Some(g)
  {
    var v := a[g][0];
    assert v in multiset(a[g]) && GroupCounts(n, rows, g, a[g]);
    assert RowsEqual(rows, v) != {};
    var key :| key in RowsEqual(rows, v);
  }

  /** Order independence: patches of distinct kinds, merged in any two orders, give the same cache. */
  lemma OrderDoesNotMatter(n: Names, base: Cache, a: seq<Arrival>, b: seq<Arrival>, x: Cache, y: Cache)
    requires OncePerKind(a) && OncePerKind(b) && (forall arrival :: arrival in a <==> arrival in b)
    requires MergesTo(n, base, a, x) && MergesTo(n, base, b, y)
    ensures SameUpToOrder(x, y)
  {
    hide MergesTo, BuiltFrom;
    FoldBuilds(n, base, a, x);
    FoldBuilds(n, base, b, y);
    ByKindSame(a, b);
    BuiltsAgree(n, base, ByKind(a), x, y);
  }

  lemma BuiltsAgree(n: Names, base: Cache, m: map<Kind, Patch>, x: Cache, y: Cache)
    requires Complete(m) && BuiltFrom(n, base, m, x) && BuiltFrom(n, base, m, y)
    ensures SameUpToOrder(x, y)
  {
    hide Built, IndexesRows, GroupedFrom, Header, SameObjects, SameGroups;
    if AnyCatalog(m) {
      ObjectsAgree(x.catalog.value.categories, x.catalog.value.objects, y.catalog.value.objects);
      GroupsAgree(n, m, x.catalog.value, y.catalog.value);
    } else {
      SameIsSame(x);
    }
  }

  lemma SameIsSame(x: Cache)
    ensures SameUpToOrder(x, x)
  {
  }

  lemma GroupsAgree(n: Names, m: map<Kind, Patch>, x: CatalogCache, y: CatalogCache)
    requires Complete(m)
    requires if Indexes in m then IndexGroupsFrom(n, Fragment(m, Indexes), x.indexesByTable) && IndexGroupsFrom(n, Fragment(m, Indexes), y.indexesByTable)
             else x.indexesByTable == y.indexesByTable
    requires if Triggers in m then TriggerGroupsFrom(n, Fragment(m, Triggers), x.triggersByTable) && TriggerGroupsFrom(n, Fragment(m, Triggers), y.triggersByTable)
             else x.triggersByTable == y.triggersByTable
    ensures SameGroups(x.indexesByTable, y.indexesByTable) && SameGroups(x.triggersByTable, y.triggersByTable)
  {
    hide GroupedFrom;
    if Indexes in m && Header(Fragment(m, Indexes)).indexesByTable.None? {
      GroupingsAgree(n, FoldedRows(Header(Fragment(m, Indexes)), Indexes), x.indexesByTable.value, y.indexesByTable.value);
    }
    if Triggers in m {
      GroupingsAgree(n, FoldedRows(Header(Fragment(m, Triggers)), Triggers), x.triggersByTable.value, y.triggersByTable.value);
    }
  }

  /** All-schema columns win in either order, and their key flags are the merged keys'. */
  lemma AllColumnsSupersede(n: Names, base: Cache, arrivals: seq<Arrival>, next: Cache, all: Patch)
    requires OncePerKind(arrivals) && MergesTo(n, base, arrivals, next) && Arrival(ColumnsAll, all) in arrivals && all.cache.Some?
    ensures var keyed := MetadataReady(base, PrimaryKeys) || Has(arrivals, PrimaryKeys); var source := all.cache.value;
            && next.columnsWithParent == Some(if keyed then Enriched(n, false, Rows(source.columnsWithParent), Rows(next.primaryKeyColumns)) else Rows(source.columnsWithParent))
            && next.columnsByID == Some(if keyed then Enriched(n, true, Rows(source.columnsByID), Rows(next.primaryKeyColumns)) else Rows(source.columnsByID))
  {
    hide MergesTo, Enriched;
    FoldBuilds(n, base, arrivals, next);
    var i :| 0 <= i < |arrivals| && arrivals[i] == Arrival(ColumnsAll, all);
    ByKindIs(arrivals, i);
    ByKindHas(arrivals, PrimaryKeys);
  }
}
