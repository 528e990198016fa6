/** The descriptor categories of MergeObjects: replaceDescriptors and everything derived from it. */
module WatchCatalog {
  import opened Wrappers
  import opened Identity
  import opened ObjectIndexes
  import opened CatalogTypes
  import opened Sorting
  import opened MapLoops
  import opened WatchSpec
  import opened WatchChecks

  // ----- folded maps

  lemma NameLessIsOrder()
    ensures StrictWeakOrder(NameLess)
  {
    TwoKeyOrder((d: Desc) => d.name, (d: Desc) => d.schema, NameLess);
  }

  method SortByName(values: seq<Desc>) returns (r: seq<Desc>)
    ensures SortOf(r, values, NameLess)
  {
    NameLessIsOrder();
    r := SortBy(values, NameLess);
  }

  /** The rows of a map, in no particular order. */
  method ValuesOf(m: DescMap) returns (values: seq<Desc>)
    requires NoNil(m)
    ensures forall v :: v in values <==> Some(v) in m.Values
  {
    values := [];
    var todo := m.Keys;
    while todo != {}
      invariant todo <= m.Keys
      invariant forall v :: v in values <==> exists key | key in m.Keys - todo :: m[key] == Some(v)
    {
      var key :| key in todo;
      todo := todo - {key};
      values := values + [m[key].value];
    }
  }

  /** The folded map of a sorted prefix: for each folded name, a row that no row is after. */
  ghost predicate Folding(n: Names, done: seq<Desc>, folded: DescMap) {
    && (forall d | d in done :: CacheKey(n, d.name) in folded)
    && (forall f | f in folded :: folded[f].Some? && CacheKey(n, folded[f].value.name) == f && folded[f].value in done)
    && (forall d | d in done :: !NameLess(folded[CacheKey(n, d.name)].value, d))
  }

  lemma FoldNext(n: Names, done: seq<Desc>, folded: DescMap, v: Desc)
    requires Folding(n, done, folded)
    requires forall d | d in done + [v] :: !NameLess(v, d)
    ensures Folding(n, done + [v], folded[CacheKey(n, v.name) := Some(v)])
  {
  }

  method FoldRows(n: Names, exact: DescMap) returns (folded: DescMap)
    requires NoNil(exact)
    ensures FoldedFrom(n, exact, folded)
  {
    var unsorted := ValuesOf(exact);
    var values := SortByName(unsorted);
    SameElements(values, unsorted);
    folded := map[];
    for i := 0 to |values|
      invariant Folding(n, values[..i], folded)
    {
      assert values[..i + 1] == values[..i] + [values[i]];
      StringLessTrichotomy(values[i].schema, values[i].schema);
      FoldNext(n, values[..i], folded, values[i]);
      folded := folded[CacheKey(n, values[i].name) := Some(values[i])];
    }
    assert values[..|values|] == values;
    forall key | key in exact ensures exact[key].value in values { assert exact[key] in exact.Values; }
  }

  // ----- replaceDescriptors

  /** Scan rows for a nil pointer or one that a deletion strikes. */
  method Scan(k: Kind, m: DescMap, deleted: set<ObjectID>) returns (ok: bool, struck: bool)
    ensures ok <==> NoNil(m)
    ensures ok ==> (struck <==> AnyStruck(k, m, deleted))
  {
    struck := false;
    var todo := m.Keys;
    while todo != {}
      invariant todo <= m.Keys
      invariant forall key | key in m.Keys - todo :: m[key].Some?
      invariant struck <==> exists key | key in m.Keys - todo :: m[key].Some? && Struck(k, m[key].value, deleted)
    {
      var key :| key in todo;
      todo := todo - {key};
      if m[key].None? {
        return false, struck;
      }
      if Struck(k, m[key].value, deleted) {
        struck := true;
      }
    }
    ok := true;
  }

  /** Delete the covered and struck rows, then write the patch over what is left. */
  method ReplaceRows(k: Kind, base: DescMap, patch: DescMap, owners: seq<ObjectID>, deleted: set<ObjectID>) returns (exact: DescMap)
    ensures exact == ReplacedRows(k, base, patch, owners, deleted)
  {
    exact := DeleteWhere(base, RowGone(k, owners, deleted));
    exact := WriteOver(exact, patch, AnyRow, RowCopier(k));
  }

  /** Does the delta touch this category at all?  A nil published row is an error either way. */
  method DetectTouch(k: Kind, base: Category, supplied: bool, deleted: set<ObjectID>) returns (ok: bool, touch: bool)
    ensures ok <==> NoNil(Rows(base.exact)) && (base.exact.None? ==> NoNil(Legacy(k, base)))
    ensures ok ==> touch == Touched(k, base, supplied, deleted)
  {
    var struck, legacyStruck := false, false;
    ok, struck := Scan(k, Rows(base.exact), deleted);
    if ok && base.exact.None? {
      ok, legacyStruck := Scan(k, Legacy(k, base), deleted);
    }
    touch := supplied || struck || legacyStruck;
  }

  lemma ReplacedRowsNoNil(k: Kind, base: DescMap, patch: DescMap, owners: seq<ObjectID>, deleted: set<ObjectID>)
    requires NoNil(patch)
    ensures NoNil(ReplacedRows(k, base, patch, owners, deleted))
  {
  }

  lemma CopiesAreSame(k: Kind, v: Desc)
    ensures CopyRow(k, Some(v)).Some? && SameRow(k, v, CopyRow(k, Some(v)).value)
  {
  }

  lemma ReplacedAt(k: Kind, base: DescMap, patch: DescMap, owners: seq<ObjectID>, deleted: set<ObjectID>, key: string)
    ensures var next := ReplacedRows(k, base, patch, owners, deleted);
            && (key in patch ==> key in next && next[key] == CopyRow(k, patch[key]))
            && (key !in patch ==> (key in next <==> key in base && !Goes(k, base[key], owners, deleted)))
            && (key !in patch && key in next ==> next[key] == base[key])
  {
    hide Goes, CopyRow;
  }

  /** The replaced rows are the patch's own and the base rows that stay. */
  lemma RowsAreReplaced(k: Kind, base: DescMap, patch: DescMap, owners: seq<ObjectID>, deleted: set<ObjectID>)
    requires NoNil(patch)
    ensures RowsReplaced(k, base, patch, owners, deleted, ReplacedRows(k, base, patch, owners, deleted))
  {
    hide CoveredRow, Struck, CopyRow, SameRow, ReplacedRows;
    forall key { ReplacedAt(k, base, patch, owners, deleted, key); }
    forall key | key in patch { CopiesAreSame(k, patch[key].value); }
  }

  method ReplaceDescriptors(n: Names, k: Kind, base: Category, patch: Category, owners: seq<ObjectID>, supplied: bool, deleted: set<ObjectID>)
    returns (ok: bool, next: Category, touch: bool)
    ensures ok <==> Replaceable(k, base, patch, owners, supplied, deleted)
    ensures ok ==> touch == Touched(k, base, supplied, deleted)
    ensures ok ==> CategoryMerged(n, k, base, patch, owners, supplied, deleted, next)
    ensures ok && touch ==> RowsReplaced(k, Rows(base.exact), Rows(patch.exact), owners, deleted, Rows(next.exact))
  {
    hide ReplacedRows, FoldedFrom, Touched, Legacy, LegacyRowOk, RowsReplaced;
    next := base;
    ok, touch := DetectTouch(k, base, supplied, deleted);
    if ok && touch {
      ok := CheckReplacement(k, base, patch, owners, supplied, deleted);
      if ok {
        var exact := ReplaceRows(k, Rows(base.exact), Rows(patch.exact), owners, deleted);
        ReplacedRowsNoNil(k, Rows(base.exact), Rows(patch.exact), owners, deleted);
        RowsAreReplaced(k, Rows(base.exact), Rows(patch.exact), owners, deleted);
        var folded := FoldRows(n, exact);
        next := Category(Some(exact), if HasFoldedMap(k) then Some(folded) else None);
      }
    }
  }

  // ----- index and trigger groups

  lemma ByNameIsOrder()
    ensures StrictWeakOrder(ByName)
  {
    KeyOrder((v: Option<Desc>) => if v.Some? then v.value.name else "", ByName);
  }

  method SortGroup(group: seq<Option<Desc>>) returns (r: seq<Option<Desc>>)
    ensures SortOf(r, group, ByName)
  {
    ByNameIsOrder();
    r := SortBy(group, ByName);
  }

  /** The part of `rows` already filed. */
  ghost function Part(rows: DescMap, todo: set<string>): DescMap {
    map key | key in rows && key !in todo :: rows[key]
  }

  ghost predicate Filing(n: Names, rows: DescMap, groups: map<string, seq<Option<Desc>>>) {
    && (forall key | key in rows && GroupKey(n, rows[key]).Some? :: GroupKey(n, rows[key]).value in groups)
    && (forall g | g in groups :: groups[g] != [] && GroupCounts(n, rows, g, groups[g]))
  }

  lemma CountNext(rows: DescMap, todo: set<string>, key: string, v: Option<Desc>)
    requires key in todo && todo <= rows.Keys
    ensures |RowsEqual(Part(rows, todo - {key}), v)| == |RowsEqual(Part(rows, todo), v)| + if rows[key] == v then 1 else 0
  {
    var before, after := RowsEqual(Part(rows, todo), v), RowsEqual(Part(rows, todo - {key}), v);
    if rows[key] == v {
      assert after == before + {key};
    } else {
      assert after == before;
    }
  }

  lemma FileNext(n: Names, rows: DescMap, todo: set<string>, key: string, groups: map<string, seq<Option<Desc>>>)
    requires key in todo && todo <= rows.Keys
    requires Filing(n, Part(rows, todo), groups)
    ensures Filing(n, Part(rows, todo - {key}), FileRow(n, groups, rows[key]))
  {
    var after := FileRow(n, groups, rows[key]);
    var part, done := Part(rows, todo), Part(rows, todo - {key});
    forall g | g in after ensures after[g] != [] && GroupCounts(n, done, g, after[g]) {
      forall v: Option<Desc> ensures multiset(after[g])[v] == if GroupKey(n, v) == Some(g) then |RowsEqual(done, v)| else 0 {
        CountNext(rows, todo, key, v);
        if g !in groups && GroupKey(n, v) == Some(g) {
          NoneFiled(n, part, groups, g, v);
        }
      }
    }
    forall other | other in done && GroupKey(n, done[other]).Some? ensures GroupKey(n, done[other]).value in after {
      if other != key { assert other in part; }
    }
  }

  lemma NoneFiled(n: Names, part: DescMap, groups: map<string, seq<Option<Desc>>>, g: string, v: Option<Desc>)
    requires Filing(n, part, groups) && g !in groups && GroupKey(n, v) == Some(g)
    ensures |RowsEqual(part, v)| == 0
  {
    assert RowsEqual(part, v) == {};
  }

  function FileRow(n: Names, groups: map<string, seq<Option<Desc>>>, row: Option<Desc>): map<string, seq<Option<Desc>>> {
    var g := GroupKey(n, row);
    if g.None? then groups else groups[g.value := (if g.value in groups then groups[g.value] else []) + [row]]
  }

  /** indexGroups and triggerGroups: file every row, then sort each group by name. */
  method GroupRows(n: Names, rows: DescMap) returns (groups: map<string, seq<Option<Desc>>>)
    ensures GroupedFrom(n, rows, groups)
  {
    groups := map[];
    var todo := rows.Keys;
    while todo != {}
      invariant todo <= rows.Keys
      invariant Filing(n, Part(rows, todo), groups)
    {
      var key :| key in todo;
      FileNext(n, rows, todo, key, groups);
      todo := todo - {key};
      groups := FileRow(n, groups, rows[key]);
    }
    assert Part(rows, {}) == rows;
    ghost var unsorted := groups;
    todo := groups.Keys;
    while todo != {}
      invariant todo <= groups.Keys == unsorted.Keys
      invariant forall g | g in groups :: multiset(groups[g]) == multiset(unsorted[g])
      invariant forall g | g in groups.Keys - todo :: Sorted(groups[g], ByName)
    {
      var g :| g in todo;
      todo := todo - {g};
      var sorted := SortGroup(groups[g]);
      groups := groups[g := sorted];
    }
    forall g | g in groups ensures groups[g] != [] && GroupCounts(n, rows, g, groups[g]) {
      assert |multiset(groups[g])| == |multiset(unsorted[g])|;
      assert GroupCounts(n, rows, g, unsorted[g]);
    }
  }

  // ----- the object index (watchRebuildObjects)

  ghost predicate AllParse(cs: map<Kind, Category>) {
    forall key | HasKey(cs, key) :: Parses(key)
  }

  ghost predicate ExactPublished(c: CatalogCache) {
    forall k | Descriptor(k) && HasFoldedMap(k) && CategoryOf(c, k).exact.None? :: FoldedRows(c, k) == map[]
  }

  method CollectKeys(c: CatalogCache) returns (keys: seq<string>)
    ensures forall key :: key in keys <==> HasKey(c.categories, key)
  {
    DescriptorKinds();
    keys := [];
    for i := 0 to |DESCRIPTOR_KINDS|
      invariant forall key :: key in keys <==> exists k | k in DESCRIPTOR_KINDS[..i] :: key in ExactRows(c, k)
    {
      var group := ListKeys(ExactRows(c, DESCRIPTOR_KINDS[i]));
      assert DESCRIPTOR_KINDS[..i + 1] == DESCRIPTOR_KINDS[..i] + [DESCRIPTOR_KINDS[i]];
      keys := keys + group;
    }
    assert DESCRIPTOR_KINDS[..|DESCRIPTOR_KINDS|] == DESCRIPTOR_KINDS;
  }

  /** `ids` are the identities of the keys read so far. */
  ghost predicate IdentitiesOf(ids: seq<ObjectID>, keys: seq<string>) {
    && (forall id | id in ids :: Key(id) in keys)
    && (forall key | key in keys :: exists id | id in ids :: Key(id) == key)
  }

  lemma IdentityNext(ids: seq<ObjectID>, keys: seq<string>, id: ObjectID, key: string)
    requires IdentitiesOf(ids, keys) && Key(id) == key
    ensures IdentitiesOf(if id in ids then ids else ids + [id], keys + [key])
  {
    var next := if id in ids then ids else ids + [id];
    assert forall x :: x in next <==> x in ids || x == id;
    forall k | k in keys + [key] ensures exists x | x in next :: Key(x) == k {
      if k != key {
        var x :| x in ids && Key(x) == k;
        assert x in next;
      } else {
        assert id in next;
      }
    }
  }

  method RebuildObjects(c: CatalogCache) returns (ok: bool, objects: IndexValue)
    ensures ok <==> ExactPublished(c) && AllParse(c.categories)
    ensures ok ==> IndexesCatalog(objects, c.categories)
  {
    hide ParseKey, Key, Represents, DefaultFold, IndexesCatalog;
    ok, objects := false, IndexValue(map[], map[]);
    DescriptorKinds();
    if exists k | k in DESCRIPTOR_KINDS :: HasFoldedMap(k) && CategoryOf(c, k).exact.None? && FoldedRows(c, k) != map[] {
      return;
    }
    var unsorted := CollectKeys(c);
    var keys := SortStrings(unsorted);
    SameElements(keys, unsorted);
    var index := new ObjectIndex(DefaultFold);
    for i := 0 to |keys|
      invariant index.Valid() && index.fold == DefaultFold && fresh(index)
      invariant IdentitiesOf(index.inserted, keys[..i])
      invariant forall key | key in keys[..i] :: Parses(key)
    {
      var id := WatchParseID(keys[i]);
      if id.None? {
        assert keys[i] in unsorted && !Parses(keys[i]);
        return;
      }
      assert keys[..i + 1] == keys[..i] + [keys[i]];
      ParseKeyMeaning(keys[i]);
      IdentityNext(index.inserted, keys[..i], id.value, keys[i]);
      index.Insert(id.value);
    }
    assert keys[..|keys|] == keys;
    ok, objects := true, IndexValue(index.exact, index.byFold);
    IndexedByKeys(objects, index.inserted, keys, c.categories);
  }

  lemma IndexedByKeys(v: IndexValue, ids: seq<ObjectID>, keys: seq<string>, cs: map<Kind, Category>)
    requires Represents(v, ids, DefaultFold) && IdentitiesOf(ids, keys)
    requires forall key :: key in keys <==> HasKey(cs, key)
    ensures IndexesCatalog(v, cs)
  {
    assert CatalogIDs(ids, cs);
  }

  // ----- the nine categories (mergeWatchCatalog)

  ghost predicate PartMerged(n: Names, base: CatalogCache, d: ObjectDelta, deleted: set<ObjectID>, k: Kind, next: Category) {
    CategoryMerged(n, k, CategoryOf(base, k), PatchCategory(d, k), OwnersOf(d, k), k in d.patches, deleted, next)
  }

  ghost predicate Through(n: Names, base: CatalogCache, d: ObjectDelta, deleted: set<ObjectID>, done: seq<Kind>, next: CatalogCache) {
    && (forall k | k in done :: CategoryReplaceable(base, d, deleted, k) && PartMerged(n, base, d, deleted, k, CategoryOf(next, k)))
    && (forall k | k !in done :: CategoryOf(next, k) == CategoryOf(base, k))
    && next == base.(categories := next.categories)
  }

  ghost predicate AllThrough(n: Names, base: CatalogCache, d: ObjectDelta, deleted: set<ObjectID>, next: CatalogCache) {
    && (forall k | Descriptor(k) :: PartMerged(n, base, d, deleted, k, CategoryOf(next, k)))
    && next == base.(categories := next.categories)
  }

  lemma ThroughNext(n: Names, base: CatalogCache, d: ObjectDelta, deleted: set<ObjectID>, done: seq<Kind>, next: CatalogCache, k: Kind, c: Category)
    requires Through(n, base, d, deleted, done, next) && k !in done
    requires CategoryReplaceable(base, d, deleted, k) && PartMerged(n, base, d, deleted, k, c)
    ensures Through(n, base, d, deleted, done + [k], next.(categories := next.categories[k := c]))
  {
    var after := next.(categories := next.categories[k := c]);
    assert CategoryOf(after, k) == c;
    assert forall j | j != k :: CategoryOf(after, j) == CategoryOf(next, j);
  }

  method MergeCategory(n: Names, base: CatalogCache, d: ObjectDelta, deleted: set<ObjectID>, k: Kind) returns (ok: bool, c: Category, touch: bool)
    requires k in d.patches ==> d.patches[k].cache.Some?
    ensures ok <==> CategoryReplaceable(base, d, deleted, k)
    ensures ok ==> touch == CategoryTouched(base, d, deleted, k) && PartMerged(n, base, d, deleted, k, c)
  {
    var has := k in d.patches;
    if has && d.patches[k].cache.value.catalog.None? {
      return false, Category(None, None), false;
    }
    ok, c, touch := ReplaceDescriptors(n, k, CategoryOf(base, k), PatchCategory(d, k), OwnersOf(d, k), has, deleted);
  }

  method MergeCategories(n: Names, base: CatalogCache, d: ObjectDelta, deleted: set<ObjectID>) returns (ok: bool, next: CatalogCache, changed: bool)
    requires forall k | k in d.patches :: d.patches[k].cache.Some?
    ensures ok <==> forall k | Descriptor(k) :: CategoryReplaceable(base, d, deleted, k)
    ensures ok ==> AllThrough(n, base, d, deleted, next)
    ensures ok ==> (changed <==> AnyTouched(base, d, deleted))
  {
    DescriptorKinds();
    next, changed := base, false;
    for i := 0 to |DESCRIPTOR_KINDS|
      invariant Through(n, base, d, deleted, DESCRIPTOR_KINDS[..i], next)
      invariant changed <==> exists k | k in DESCRIPTOR_KINDS[..i] :: CategoryTouched(base, d, deleted, k)
    {
      var k := DESCRIPTOR_KINDS[i];
      var fine, c, touch := MergeCategory(n, base, d, deleted, k);
      if !fine {
        return false, next, changed;
      }
      assert DESCRIPTOR_KINDS[..i + 1] == DESCRIPTOR_KINDS[..i] + [k];
      ThroughNext(n, base, d, deleted, DESCRIPTOR_KINDS[..i], next, k, c);
      next := next.(categories := next.categories[k := c]);
      changed := changed || touch;
    }
    assert DESCRIPTOR_KINDS[..|DESCRIPTOR_KINDS|] == DESCRIPTOR_KINDS;
    ok := true;
  }

  lemma ExactAfter(n: Names, base: CatalogCache, d: ObjectDelta, deleted: set<ObjectID>, next: CatalogCache, k: Kind)
    requires AllThrough(n, base, d, deleted, next) && Descriptor(k)
    ensures CategoryOf(next, k).exact == NextExact(base, d, deleted, k)
    ensures !CategoryTouched(base, d, deleted, k) ==> CategoryOf(next, k) == CategoryOf(base, k)
  {
    assert PartMerged(n, base, d, deleted, k, CategoryOf(next, k));
  }

  lemma IndexableAfter(n: Names, base: CatalogCache, d: ObjectDelta, deleted: set<ObjectID>, next: CatalogCache)
    requires AllThrough(n, base, d, deleted, next)
    ensures ExactPublished(next) <==> forall k | Descriptor(k) && HasFoldedMap(k) && NextExact(base, d, deleted, k).None? :: FoldedRows(base, k) == map[]
    ensures AllParse(next.categories) <==> forall k, key | Descriptor(k) && key in Rows(NextExact(base, d, deleted, k)) :: Parses(key)
  {
    forall k | Descriptor(k)
      ensures CategoryIn(next.categories, k).exact == NextExact(base, d, deleted, k)
      ensures CategoryOf(next, k).exact.None? ==> FoldedRows(next, k) == FoldedRows(base, k)
    {
      ExactAfter(n, base, d, deleted, next, k);
    }
    forall k, key | Descriptor(k) && key in Rows(NextExact(base, d, deleted, k)) ensures HasKey(next.categories, key) { }
  }

  /** The two per-table groupings, rebuilt when their category was touched. */
  method RefreshGroups(n: Names, base: CatalogCache, d: ObjectDelta, deleted: set<ObjectID>, next: CatalogCache) returns (after: CatalogCache)
    requires next == base.(categories := next.categories)
    ensures after == next.(indexesByTable := after.indexesByTable, triggersByTable := after.triggersByTable)
    ensures GroupsMerged(n, base, d, deleted, after)
  {
    after := next;
    if CategoryTouched(base, d, deleted, Indexes) {
      var groups := GroupRows(n, ExactRows(next, Indexes));
      after := after.(indexesByTable := Some(groups));
    }
    if CategoryTouched(base, d, deleted, Triggers) {
      var groups := GroupRows(n, FoldedRows(next, Triggers));
      after := after.(triggersByTable := Some(groups));
    }
  }

  method MergeWatchCatalog(n: Names, base: CatalogCache, d: ObjectDelta, deleted: set<ObjectID>) returns (ok: bool, next: CatalogCache)
    requires forall k | k in d.patches :: d.patches[k].cache.Some?
    ensures ok <==> CatalogMergeable(base, d, deleted)
    ensures ok ==> CatalogMerged(n, base, d, deleted, next)
  {
    var changed;
    ok, next, changed := MergeCategories(n, base, d, deleted);
    if !ok {
      return;
    }
    IndexableAfter(n, base, d, deleted, next);
    var objects := IndexValue(map[], map[]);
    if changed {
      ok, objects := RebuildObjects(next);
    }
    next := RefreshGroups(n, base, d, deleted, next);
    if changed {
      next := next.(objects := Some(objects));
    }
  }

  // ----- identities lost with their group (recordRemovedCatalog)

  /** recordRemoved: the identity of every key of `before` that `after` no longer has. */
  method RecordRemoved(before: DescMap, after: DescMap, deleted: set<ObjectID>) returns (ok: bool, all: set<ObjectID>)
    ensures ok <==> forall key | key in before && key !in after :: Parses(key)
    ensures ok ==> forall id :: id in all <==> id in deleted || (ValidID(id) && Key(id) in before && Key(id) !in after)
  {
    all := deleted;
    var todo := before.Keys;
    while todo != {}
      invariant todo <= before.Keys
      invariant forall key | key in before.Keys - todo && key !in after :: Parses(key)
      invariant forall id :: id in all <==> id in deleted || (ValidID(id) && Key(id) in before.Keys - todo && Key(id) !in after)
    {
      var key :| key in todo;
      todo := todo - {key};
      if key !in after {
        var id := WatchParseID(key);
        if id.None? {
          return false, all;
        }
        ParseKeyMeaning(key);
        forall other | ValidID(other) && Key(other) == key ensures other == id.value { KeyInjective(other, id.value); }
        all := all + {id.value};
      }
    }
    ok := true;
  }

  ghost predicate RemovedFrom(before: CatalogCache, after: CatalogCache, kinds: seq<Kind>, key: string) {
    exists k | k in kinds :: key in ExactRows(before, k) && key !in ExactRows(after, k)
  }

  method RecordRemovedCatalog(before: CatalogCache, after: CatalogCache, deleted: set<ObjectID>) returns (ok: bool, all: set<ObjectID>)
    ensures ok <==> forall key | RemovedFrom(before, after, DESCRIPTOR_KINDS, key) :: Parses(key)
    ensures ok ==> forall id :: id in all <==> id in deleted || (ValidID(id) && RemovedFrom(before, after, DESCRIPTOR_KINDS, Key(id)))
  {
    all := deleted;
    DescriptorKinds();
    for i := 0 to |DESCRIPTOR_KINDS|
      invariant forall key | RemovedFrom(before, after, DESCRIPTOR_KINDS[..i], key) :: Parses(key)
      invariant forall id :: id in all <==> id in deleted || (ValidID(id) && RemovedFrom(before, after, DESCRIPTOR_KINDS[..i], Key(id)))
    {
      var k := DESCRIPTOR_KINDS[i];
      ok, all := RecordRemoved(ExactRows(before, k), ExactRows(after, k), all);
      if !ok {
        ghost var key :| key in ExactRows(before, k) && key !in ExactRows(after, k) && !Parses(key);
        assert RemovedFrom(before, after, DESCRIPTOR_KINDS, key);
        return;
      }
      ghost var next := DESCRIPTOR_KINDS[..i + 1];
      assert next == DESCRIPTOR_KINDS[..i] + [k];
      forall key ensures RemovedFrom(before, after, next, key) <==>
        RemovedFrom(before, after, DESCRIPTOR_KINDS[..i], key) || (key in ExactRows(before, k) && key !in ExactRows(after, k)) {
        assert forall j :: j in next <==> j in DESCRIPTOR_KINDS[..i] || j == k;
      }
    }
    assert DESCRIPTOR_KINDS[..|DESCRIPTOR_KINDS|] == DESCRIPTOR_KINDS;
    ok := true;
  }
}
