/** mergeMetadata: one category's patch merged into a cache, in whatever order the jobs end. */
module CatalogMerge {
  import opened Wrappers
  import opened Identity
  import opened ObjectIndexes
  import opened CatalogTypes
  import opened WatchSpec

  // ----- primary key flags

  /** The key names of the table a column is on: by the map's own key, or by the column's table. */
  function KeyNames(n: Names, byID: bool, table: string, c: Column, keys: map<string, set<string>>): set<string> {
    var at := if byID then ColumnDatabaseKey(n, c.schema, c.table) else table;
    if at in keys then keys[at] else {}
  }

  function Marked(n: Names, byID: bool, table: string, c: Option<Column>, keys: map<string, set<string>>): Option<Column> {
    if c.None? || c.value.schema != "" then c
    else Some(c.value.(key := if exists name | name in KeyNames(n, byID, table, c.value, keys) :: n.equalFold(name, c.value.name) then "YES" else "NO"))
  }

  function MarkedAll(n: Names, byID: bool, table: string, cols: Columns, keys: map<string, set<string>>): Columns {
    seq(|cols|, i requires 0 <= i < |cols| => Marked(n, byID, table, cols[i], keys))
  }

  /** columnsWithPrimaryKeys and columnsByIDWithPrimaryKeys */
  function Enriched(n: Names, byID: bool, columns: map<string, Columns>, keys: map<string, set<string>>): map<string, Columns> {
    map table | table in columns :: MarkedAll(n, byID, table, columns[table], keys)
  }

  /** Flagging again with other keys is flagging with those keys alone. */
  lemma EnrichedTwice(n: Names, byID: bool, columns: map<string, Columns>, a: map<string, set<string>>, b: map<string, set<string>>)
    ensures Enriched(n, byID, Enriched(n, byID, columns, a), b) == Enriched(n, byID, columns, b)
  {
    forall table | table in columns
      ensures MarkedAll(n, byID, table, MarkedAll(n, byID, table, columns[table], a), b) == MarkedAll(n, byID, table, columns[table], b)
    {
      var cols := columns[table];
      forall i | 0 <= i < |cols|
        ensures MarkedAll(n, byID, table, MarkedAll(n, byID, table, cols, a), b)[i] == MarkedAll(n, byID, table, cols, b)[i]
      {
        MarkedTwice(n, byID, table, cols[i], a, b);
      }
    }
  }

  lemma MarkedTwice(n: Names, byID: bool, table: string, c: Option<Column>, a: map<string, set<string>>, b: map<string, set<string>>)
    ensures Marked(n, byID, table, Marked(n, byID, table, c, a), b) == Marked(n, byID, table, c, b)
  {
  }

  // ----- what a patch must be

  /** validateMetadataPayload */
  predicate PayloadPresent(k: Kind, c: Cache) {
    match k
    case Schemas => c.schemas.Some?
    case Relations => c.schemaTables.Some?
    case ColumnsCurrent => c.columnsWithParent.Some?
    case ColumnsAll => c.columnsWithParent.Some?
    case PrimaryKeys => c.primaryKeyColumns.Some?
    case ForeignKeys => c.foreignKeys.Some?
    case Dependencies => c.dependencies.Some?
    case SystemRelations => c.catalog.Some? && CategoryOf(c.catalog.value, k).exact.Some?
    case Exceptions => c.catalog.Some? && CategoryOf(c.catalog.value, k).exact.Some?
    case Other(_) => false
    case _ => c.catalog.Some? && CategoryOf(c.catalog.value, k).folded.Some?
  }

  /** The patches that mergeMetadata accepts: what it says depends on the patch alone. */
  ghost predicate Mergeable(k: Kind, p: Patch) {
    && p.cache.Some? && p.count >= 0 && p.queries >= 0 && KnownKind(k) && PayloadPresent(k, p.cache.value)
    && (k == ForeignKeys ==> forall fk | Mentions(Rows(p.cache.value.foreignKeys), fk) :: ValidForeignKey(fk))
  }

  // ----- one merge

  function Header(c: Cache): CatalogCache {
    if c.catalog.Some? then c.catalog.value else EMPTY_CATALOG
  }

  /** A category of a fragment; a nil map is copied to an empty one. */
  function CategoryFrom(k: Kind, c: Cache): Category {
    var source := CategoryOf(Header(c), k);
    Category(Some(Rows(source.exact)), if HasFoldedMap(k) then Some(Rows(source.folded)) else None)
  }

  /** The identity under which CatalogCache.RebuildObjects inserts a row. */
  function CatalogID(k: Kind, d: Desc): ObjectID {
    match k
    case Views => PlainID(VIEW, "", d.name)
    case Procedures => PlainID(PROCEDURE, "", d.name)
    case Generators => PlainID(GENERATOR, "", d.name)
    case Domains => PlainID(DOMAIN, "", d.name)
    case Functions => PlainID(FUNCTION, "", d.name)
    case Indexes => IndexObjectID(d.schema, if d.relation.Some? then d.relation.value else "", d.name)
    case Triggers => PlainID(TRIGGER, "", d.name)
    case SystemRelations => PlainID(TABLE, "", d.name)
    case _ => PlainID(EXCEPTION, d.schema, d.name)
  }

  ghost predicate InCatalog(cs: map<Kind, Category>, id: ObjectID) {
    exists k, key | Descriptor(k) && key in Rows(CategoryIn(cs, k).exact) ::
      Rows(CategoryIn(cs, k).exact)[key].Some? && CatalogID(k, Rows(CategoryIn(cs, k).exact)[key].value) == id
  }

  /** `v` indexes every row of the exact maps. */
  ghost predicate IndexesRows(v: Option<IndexValue>, cs: map<Kind, Category>) {
    v.Some? && exists ids: seq<ObjectID> :: Represents(v.value, ids, DefaultFold) && forall id :: id in ids <==> InCatalog(cs, id)
  }

  type Groups = Option<map<string, seq<Option<Desc>>>>

  /** The per-table index groups: the fragment's own, or grouped from its folded map. */
  ghost predicate IndexGroupsFrom(n: Names, fragment: Cache, groups: Groups) {
    if Header(fragment).indexesByTable.Some? then groups == Header(fragment).indexesByTable
    else groups.Some? && GroupedFrom(n, FoldedRows(Header(fragment), Indexes), groups.value)
  }

  ghost predicate TriggerGroupsFrom(n: Names, fragment: Cache, groups: Groups) {
    groups.Some? && GroupedFrom(n, FoldedRows(Header(fragment), Triggers), groups.value)
  }

  /** The cache without what is only determined up to order: the groups and the object index. */
  function Plain(c: Cache): Cache {
    if c.catalog.None? then c else
      c.(catalog := Some(c.catalog.value.(indexesByTable := None, triggersByTable := None, objects := None)))
  }

  function PlainMerged(n: Names, base: Cache, k: Kind, f: Cache): Cache {
    var next := Plain(base).(metadata := base.metadata[k := Ready]);
    var pk := MetadataReady(base, PrimaryKeys);
    match k
    case Schemas => next.(defaultSchema := f.defaultSchema, schemas := Some(Rows(f.schemas)))
    case Relations => next.(schemaTables := Some(Rows(f.schemaTables)))
    case ColumnsCurrent => if MetadataReady(base, ColumnsAll) then next else WithColumns(n, next, f, pk, base.primaryKeyColumns)
    case ColumnsAll => WithColumns(n, next, f, pk, base.primaryKeyColumns)
    case PrimaryKeys => WithKeys(n, next, f, ColumnsReady(base))
    case ForeignKeys => next.(foreignKeys := Some(Rows(f.foreignKeys)))
    case Dependencies => next.(dependencies := f.dependencies)
    case _ => next.(catalog := Some(Header(Plain(base)).(categories := Header(base).categories[k := CategoryFrom(k, f)])))
  }

  function WithColumns(n: Names, c: Cache, f: Cache, pk: bool, keys: Option<map<string, set<string>>>): Cache {
    c.(columnsWithParent := Some(if pk then Enriched(n, false, Rows(f.columnsWithParent), Rows(keys)) else Rows(f.columnsWithParent)),
       columnsByID := Some(if pk then Enriched(n, true, Rows(f.columnsByID), Rows(keys)) else Rows(f.columnsByID)))
  }

  function WithKeys(n: Names, c: Cache, f: Cache, columns: bool): Cache {
    var keys := Rows(f.primaryKeyColumns);
    c.(primaryKeyColumns := Some(keys), primaryKeysByID := f.primaryKeysByID,
       columnsWithParent := if columns then Some(Enriched(n, false, Rows(c.columnsWithParent), keys)) else c.columnsWithParent,
       columnsByID := if columns then Some(Enriched(n, true, Rows(c.columnsByID), keys)) else c.columnsByID)
  }

  /** The groups and the object index after one merge. */
  ghost predicate DerivedOnce(n: Names, base: Cache, k: Kind, f: Cache, next: Cache) {
    if !Descriptor(k) then next.catalog == base.catalog else
      && next.catalog.Some? && IndexesRows(next.catalog.value.objects, next.catalog.value.categories)
      && (if k == Indexes then IndexGroupsFrom(n, f, next.catalog.value.indexesByTable)
          else next.catalog.value.indexesByTable == Header(base).indexesByTable)
      && (if k == Triggers then TriggerGroupsFrom(n, f, next.catalog.value.triggersByTable)
          else next.catalog.value.triggersByTable == Header(base).triggersByTable)
  }

  /** `next` is a merge of an accepted patch into `base`. */
  ghost predicate MergedFrom(n: Names, base: Cache, k: Kind, p: Patch, next: Cache) {
    Mergeable(k, p) && Plain(next) == PlainMerged(n, base, k, p.cache.value) && DerivedOnce(n, base, k, p.cache.value, next)
  }

  lemma MergeableFacts(k: Kind, p: Patch)
    requires Mergeable(k, p)
    ensures p.cache.Some? && KnownKind(k)
  {
  }

  // ----- merging any number of patches

  datatype Arrival = Arrival(kind: Kind, patch: Patch)

  ghost predicate MergesTo(n: Names, base: Cache, arrivals: seq<Arrival>, next: Cache)
    decreases |arrivals|
  {
    if arrivals == [] then next == base else
      var last := arrivals[|arrivals| - 1];
      exists mid: Cache :: MergesTo(n, base, arrivals[..|arrivals| - 1], mid) && MergedFrom(n, mid, last.kind, last.patch, next)
  }

  predicate OncePerKind(arrivals: seq<Arrival>) {
    forall i, j | 0 <= i < j < |arrivals| :: arrivals[i].kind != arrivals[j].kind
  }

  function ByKind(arrivals: seq<Arrival>): map<Kind, Patch> {
    if arrivals == [] then map[] else
      var last := arrivals[|arrivals| - 1];
      ByKind(arrivals[..|arrivals| - 1])[last.kind := last.patch]
  }

  predicate Complete(m: map<Kind, Patch>) {
    forall k | k in m :: m[k].cache.Some?
  }

  function Fragment(m: map<Kind, Patch>, k: Kind): Cache
    requires Complete(m) && k in m
  {
    m[k].cache.value
  }

  /** The fragment that the columns come from: all schemas' supersede the current schema's. */
  function ColumnSource(base: Cache, m: map<Kind, Patch>): Option<Cache>
    requires Complete(m)
  {
    if ColumnsAll in m then Some(Fragment(m, ColumnsAll))
    else if ColumnsCurrent in m && !MetadataReady(base, ColumnsAll) then Some(Fragment(m, ColumnsCurrent))
    else None
  }

  function KeysAfter(base: Cache, m: map<Kind, Patch>): Option<map<string, set<string>>>
    requires Complete(m)
  {
    if PrimaryKeys in m then Some(Rows(Fragment(m, PrimaryKeys).primaryKeyColumns)) else base.primaryKeyColumns
  }

  function ColumnField(c: Cache, byID: bool): Option<map<string, Columns>> {
    if byID then c.columnsByID else c.columnsWithParent
  }

  /** The columns after all the patches: the source's, flagged if the keys are known at all. */
  function ColumnsAfter(n: Names, base: Cache, m: map<Kind, Patch>, byID: bool): Option<map<string, Columns>>
    requires Complete(m)
  {
    var keys := Rows(KeysAfter(base, m));
    var source := ColumnSource(base, m);
    if source.Some? then
      Some(if MetadataReady(base, PrimaryKeys) || PrimaryKeys in m then Enriched(n, byID, Rows(ColumnField(source.value, byID)), keys)
           else Rows(ColumnField(source.value, byID)))
    else if PrimaryKeys in m && ColumnsReady(base) then Some(Enriched(n, byID, Rows(ColumnField(base, byID)), keys))
    else ColumnField(base, byID)
  }

  function CategoriesAfter(base: Cache, m: map<Kind, Patch>): map<Kind, Category>
    requires Complete(m)
  {
    Header(base).categories + OwnCategories(m)
  }

  function OwnCategories(m: map<Kind, Patch>): map<Kind, Category>
    requires Complete(m)
  {
    map k | k in m && Descriptor(k) :: CategoryFrom(k, Fragment(m, k))
  }

  function AllReady(m: map<Kind, Patch>): map<Kind, State> {
    map k | k in m :: Ready
  }

  predicate AnyCatalog(m: map<Kind, Patch>) {
    exists k | k in m :: Descriptor(k)
  }

  /** The cache after all the patches, whatever order they came in. */
  function Built(n: Names, base: Cache, m: map<Kind, Patch>): Cache
    requires Complete(m)
  {
    Cache(
      if Schemas in m then Fragment(m, Schemas).defaultSchema else base.defaultSchema,
      if Schemas in m then Some(Rows(Fragment(m, Schemas).schemas)) else base.schemas,
      if Relations in m then Some(Rows(Fragment(m, Relations).schemaTables)) else base.schemaTables,
      ColumnsAfter(n, base, m, false),
      ColumnsAfter(n, base, m, true),
      if ForeignKeys in m then Some(Rows(Fragment(m, ForeignKeys).foreignKeys)) else base.foreignKeys,
      base.metadata + AllReady(m),
      KeysAfter(base, m),
      if PrimaryKeys in m then Fragment(m, PrimaryKeys).primaryKeysByID else base.primaryKeysByID,
      if AnyCatalog(m) then Some(Header(Plain(base)).(categories := CategoriesAfter(base, m))) else Plain(base).catalog,
      if Dependencies in m then Fragment(m, Dependencies).dependencies else base.dependencies)
  }

  /** The groups and the object index after all the patches. */
  ghost predicate DerivedFrom(n: Names, base: Cache, m: map<Kind, Patch>, next: Cache)
    requires Complete(m)
  {
    if !AnyCatalog(m) then next.catalog == base.catalog else
      && next.catalog.Some? && IndexesRows(next.catalog.value.objects, next.catalog.value.categories)
      && (if Indexes in m then IndexGroupsFrom(n, Fragment(m, Indexes), next.catalog.value.indexesByTable)
          else next.catalog.value.indexesByTable == Header(base).indexesByTable)
      && (if Triggers in m then TriggerGroupsFrom(n, Fragment(m, Triggers), next.catalog.value.triggersByTable)
          else next.catalog.value.triggersByTable == Header(base).triggersByTable)
  }

  /** `next` is what all the patches together make of `base`, up to the order inside a fold bucket of
      the object index and among the same-named rows of a group. */
  ghost predicate BuiltFrom(n: Names, base: Cache, m: map<Kind, Patch>, next: Cache)
    requires Complete(m)
  {
    Plain(next) == Built(n, base, m) && DerivedFrom(n, base, m, next)
  }

  // ----- order independence

  lemma NothingBuilt(n: Names, base: Cache)
    ensures BuiltFrom(n, base, map[], base)
  {
    assert base.metadata + map[] == base.metadata;
    assert Header(base).categories + map[] == Header(base).categories;
  }

  lemma PlainTwice(n: Names, c: Cache, k: Kind, f: Cache)
    ensures PlainMerged(n, Plain(c), k, f) == PlainMerged(n, c, k, f)
  {
  }

  lemma ReadyAfter(base: Cache, m: map<Kind, Patch>, metadata: map<Kind, State>, j: Kind)
    requires metadata == base.metadata + AllReady(m)
    ensures (j in metadata && metadata[j] == Ready) <==> MetadataReady(base, j) || j in m
  {
  }

  /** One more patch changes the columns as the whole says: whichever of columns and keys comes first. */
  lemma ColumnsStep(n: Names, base: Cache, m: map<Kind, Patch>, k: Kind, p: Patch, byID: bool)
    requires Complete(m) && k !in m && p.cache.Some?
    ensures Complete(m[k := p])
    ensures k != ColumnsCurrent && k != ColumnsAll && k != PrimaryKeys ==> ColumnsAfter(n, base, m[k := p], byID) == ColumnsAfter(n, base, m, byID)
    ensures k == ColumnsAll || (k == ColumnsCurrent && !(MetadataReady(base, ColumnsAll) || ColumnsAll in m)) ==>
              ColumnsAfter(n, base, m[k := p], byID) ==
                Some(if MetadataReady(base, PrimaryKeys) || PrimaryKeys in m then Enriched(n, byID, Rows(ColumnField(p.cache.value, byID)), Rows(KeysAfter(base, m)))
                     else Rows(ColumnField(p.cache.value, byID)))
    ensures k == ColumnsCurrent && (MetadataReady(base, ColumnsAll) || ColumnsAll in m) ==> ColumnsAfter(n, base, m[k := p], byID) == ColumnsAfter(n, base, m, byID)
  {
  }

  lemma KeysStep(n: Names, base: Cache, m: map<Kind, Patch>, p: Patch, byID: bool)
    requires Complete(m) && PrimaryKeys !in m && p.cache.Some?
    ensures Complete(m[PrimaryKeys := p])
    ensures var keys := Rows(p.cache.value.primaryKeyColumns);
            var ready := ColumnsReady(base) || ColumnsCurrent in m || ColumnsAll in m;
            ColumnsAfter(n, base, m[PrimaryKeys := p], byID) ==
              if ready then Some(Enriched(n, byID, Rows(ColumnsAfter(n, base, m, byID)), keys)) else ColumnsAfter(n, base, m, byID)
  {
    hide Enriched;
    var keys := Rows(p.cache.value.primaryKeyColumns);
    var source := ColumnSource(base, m);
    if source.Some? {
      EnrichedTwice(n, byID, Rows(ColumnField(source.value, byID)), Rows(KeysAfter(base, m)), keys);
    }
  }

  lemma MetadataStep(base: Cache, m: map<Kind, Patch>, k: Kind, p: Patch)
    ensures (base.metadata + AllReady(m))[k := Ready] == base.metadata + AllReady(m[k := p])
  {
  }

  lemma CategoriesStep(base: Cache, m: map<Kind, Patch>, k: Kind, p: Patch)
    requires Complete(m) && p.cache.Some?
    ensures Complete(m[k := p])
    ensures CategoriesAfter(base, m[k := p]) == if Descriptor(k) then CategoriesAfter(base, m)[k := CategoryFrom(k, p.cache.value)] else CategoriesAfter(base, m)
    ensures AnyCatalog(m[k := p]) <==> AnyCatalog(m) || Descriptor(k)
  {
    hide CategoryFrom, Header, OwnCategories, Descriptor;
    OwnStep(m, k, p);
    AddOne(Header(base).categories, OwnCategories(m), k, CategoryFrom(k, p.cache.value));
    if AnyCatalog(m) { var j :| j in m && Descriptor(j); assert j in m[k := p]; }
    assert k in m[k := p];
  }

  lemma AddOne<V>(a: map<Kind, V>, b: map<Kind, V>, k: Kind, v: V)
    ensures a + b[k := v] == (a + b)[k := v]
  {
  }

  lemma OwnStep(m: map<Kind, Patch>, k: Kind, p: Patch)
    requires Complete(m) && p.cache.Some?
    ensures Complete(m[k := p])
    ensures OwnCategories(m[k := p]) == if Descriptor(k) then OwnCategories(m)[k := CategoryFrom(k, p.cache.value)] else OwnCategories(m)
  {
    hide CategoryFrom, Descriptor;
    FragmentsStay(m, k, p);
  }

  /** Merging one more patch into what some patches built is building with all of them. */
  lemma BuiltStep(n: Names, base: Cache, m: map<Kind, Patch>, k: Kind, p: Patch)
    requires Complete(m) && k !in m && p.cache.Some? && KnownKind(k)
    ensures Complete(m[k := p])
    ensures PlainMerged(n, Built(n, base, m), k, p.cache.value) == Built(n, base, m[k := p])
  {
    hide Built, PlainMerged;
    if Descriptor(k) {
      CatalogStep(n, base, m, k, p);
    } else if k == PrimaryKeys {
      PrimaryKeyStep(n, base, m, p);
    } else if k == ColumnsCurrent || k == ColumnsAll {
      ColumnPatchStep(n, base, m, k, p);
    } else {
      SimpleStep(n, base, m, k, p);
    }
  }

  /** The fields that one category alone decides. */
  lemma PlainFields(n: Names, base: Cache, m: map<Kind, Patch>, k: Kind, p: Patch)
    requires Complete(m) && k !in m && p.cache.Some?
    ensures Complete(m[k := p])
    ensures var f, a, b := p.cache.value, Built(n, base, m), Built(n, base, m[k := p]);
            && b.defaultSchema == (if k == Schemas then f.defaultSchema else a.defaultSchema)
            && b.schemas == (if k == Schemas then Some(Rows(f.schemas)) else a.schemas)
            && b.schemaTables == (if k == Relations then Some(Rows(f.schemaTables)) else a.schemaTables)
            && b.foreignKeys == (if k == ForeignKeys then Some(Rows(f.foreignKeys)) else a.foreignKeys)
            && b.primaryKeysByID == (if k == PrimaryKeys then f.primaryKeysByID else a.primaryKeysByID)
            && b.dependencies == (if k == Dependencies then f.dependencies else a.dependencies)
            && b.metadata == a.metadata[k := Ready]
            && b.primaryKeyColumns == (if k == PrimaryKeys then Some(Rows(f.primaryKeyColumns)) else a.primaryKeyColumns)
  {
    hide ColumnsAfter, KeysAfter, CategoriesAfter, AnyCatalog, AllReady, Rows, Header;
    MetadataStep(base, m, k, p);
    KeyColumnsStep(base, m, k, p);
    FragmentsStay(m, k, p);
  }

  /** The two column maps. */
  lemma ColumnFields(n: Names, base: Cache, m: map<Kind, Patch>, k: Kind, p: Patch)
    requires Complete(m) && k !in m && p.cache.Some?
    ensures Complete(m[k := p])
    ensures var a, b, next := Built(n, base, m), Built(n, base, m[k := p]), PlainMerged(n, Built(n, base, m), k, p.cache.value);
            b.columnsWithParent == next.columnsWithParent && b.columnsByID == next.columnsByID
  {
    hide ColumnsAfter, KeysAfter, CategoriesAfter, AnyCatalog, AllReady, Enriched, Header, CategoryFrom;
    ReadyAfter(base, m, Built(n, base, m).metadata, ColumnsAll);
    ReadyAfter(base, m, Built(n, base, m).metadata, ColumnsCurrent);
    ReadyAfter(base, m, Built(n, base, m).metadata, PrimaryKeys);
    ColumnsStep(n, base, m, k, p, false);
    ColumnsStep(n, base, m, k, p, true);
    if k == PrimaryKeys {
      KeysStep(n, base, m, p, false);
      KeysStep(n, base, m, p, true);
    }
  }

  lemma CatalogField(n: Names, base: Cache, m: map<Kind, Patch>, k: Kind, p: Patch)
    requires Complete(m) && k !in m && p.cache.Some?
    ensures Complete(m[k := p])
    ensures var a, b := Built(n, base, m), Built(n, base, m[k := p]);
            b.catalog == if Descriptor(k) then Some(Header(a).(categories := Header(a).categories[k := CategoryFrom(k, p.cache.value)])) else a.catalog
  {
    hide ColumnsAfter, KeysAfter, CategoriesAfter, AnyCatalog, AllReady, CategoryFrom;
    CategoriesStep(base, m, k, p);
    NoCatalogYet(base, m);
  }

  lemma BuiltIsPlain(n: Names, base: Cache, m: map<Kind, Patch>)
    requires Complete(m)
    ensures Plain(Built(n, base, m)) == Built(n, base, m)
  {
    hide ColumnsAfter, KeysAfter, CategoriesAfter, AnyCatalog, AllReady;
  }

  lemma CatalogStep(n: Names, base: Cache, m: map<Kind, Patch>, k: Kind, p: Patch)
    requires Complete(m) && k !in m && p.cache.Some? && Descriptor(k)
    ensures Complete(m[k := p])
    ensures PlainMerged(n, Built(n, base, m), k, p.cache.value) == Built(n, base, m[k := p])
  {
    hide Built, ColumnsAfter, KeysAfter, Enriched, CategoriesAfter, CategoryFrom, AnyCatalog, AllReady;
    var mid, next := Built(n, base, m), Built(n, base, m[k := p]);
    PlainFields(n, base, m, k, p);
    ColumnFields(n, base, m, k, p);
    CatalogField(n, base, m, k, p);
    BuiltIsPlain(n, base, m);
    assert PlainMerged(n, mid, k, p.cache.value) == next;
  }

  lemma SimpleStep(n: Names, base: Cache, m: map<Kind, Patch>, k: Kind, p: Patch)
    requires Complete(m) && k !in m && p.cache.Some?
    requires k == Schemas || k == Relations || k == ForeignKeys || k == Dependencies
    ensures Complete(m[k := p])
    ensures PlainMerged(n, Built(n, base, m), k, p.cache.value) == Built(n, base, m[k := p])
  {
    hide Built, ColumnsAfter, KeysAfter, Enriched, CategoriesAfter, CategoryFrom, AnyCatalog, AllReady;
    var mid, next := Built(n, base, m), Built(n, base, m[k := p]);
    PlainFields(n, base, m, k, p);
    ColumnFields(n, base, m, k, p);
    CatalogField(n, base, m, k, p);
    BuiltIsPlain(n, base, m);
    assert PlainMerged(n, mid, k, p.cache.value) == next;
  }

  lemma ColumnPatchStep(n: Names, base: Cache, m: map<Kind, Patch>, k: Kind, p: Patch)
    requires Complete(m) && k !in m && p.cache.Some? && (k == ColumnsCurrent || k == ColumnsAll)
    ensures Complete(m[k := p])
    ensures PlainMerged(n, Built(n, base, m), k, p.cache.value) == Built(n, base, m[k := p])
  {
    hide Built, ColumnsAfter, KeysAfter, Enriched, CategoriesAfter, CategoryFrom, AnyCatalog, AllReady;
    var mid, next := Built(n, base, m), Built(n, base, m[k := p]);
    PlainFields(n, base, m, k, p);
    ColumnFields(n, base, m, k, p);
    CatalogField(n, base, m, k, p);
    BuiltIsPlain(n, base, m);
    assert PlainMerged(n, mid, k, p.cache.value) == next;
  }

  lemma PrimaryKeyStep(n: Names, base: Cache, m: map<Kind, Patch>, p: Patch)
    requires Complete(m) && PrimaryKeys !in m && p.cache.Some?
    ensures Complete(m[PrimaryKeys := p])
    ensures PlainMerged(n, Built(n, base, m), PrimaryKeys, p.cache.value) == Built(n, base, m[PrimaryKeys := p])
  {
    hide Built, ColumnsAfter, KeysAfter, Enriched, CategoriesAfter, CategoryFrom, AnyCatalog, AllReady;
    var mid, next := Built(n, base, m), Built(n, base, m[PrimaryKeys := p]);
    PlainFields(n, base, m, PrimaryKeys, p);
    ColumnFields(n, base, m, PrimaryKeys, p);
    CatalogField(n, base, m, PrimaryKeys, p);
    BuiltIsPlain(n, base, m);
    assert PlainMerged(n, mid, PrimaryKeys, p.cache.value) == next;
  }

  lemma NoCatalogYet(base: Cache, m: map<Kind, Patch>)
    requires Complete(m)
    ensures !AnyCatalog(m) ==> CategoriesAfter(base, m) == Header(base).categories
  {
    if !AnyCatalog(m) {
      assert forall k | k in m :: !Descriptor(k);
    }
    assert !AnyCatalog(m) ==> OwnCategories(m) == map[];
  }

  lemma KeyColumnsStep(base: Cache, m: map<Kind, Patch>, k: Kind, p: Patch)
    requires Complete(m) && p.cache.Some?
    ensures Complete(m[k := p])
    ensures KeysAfter(base, m[k := p]) == if k == PrimaryKeys then Some(Rows(p.cache.value.primaryKeyColumns)) else KeysAfter(base, m)
  {
  }

  lemma FragmentsStay(m: map<Kind, Patch>, k: Kind, p: Patch)
    requires Complete(m) && p.cache.Some?
    ensures Complete(m[k := p]) && Fragment(m[k := p], k) == p.cache.value
    ensures forall j | j in m && j != k :: Fragment(m[k := p], j) == Fragment(m, j)
  {
  }
}
