/** What MergeObjects promises, stage by stage: when a delta is accepted, and what it leaves. */
module WatchSpec {
  import opened Wrappers
  import opened Identity
  import opened ObjectIndexes
  import opened CatalogTypes
  import opened Sorting
  import opened MapLoops
  import opened Dependencies

  /** Complete per-owner replacements.  `owners[k]` names what patch `k` covers, empty sets included. */
  datatype ObjectDelta = ObjectDelta(
    owners: map<Kind, seq<ObjectID>>,
    deleted: seq<ObjectID>,
    patches: map<Kind, Patch>,
    dependencyOwners: seq<DependencyRef>,
    dependencyEdges: seq<DependencyEdge>,
    checkNames: map<string, seq<string>>,
    affected: int,
    fullReason: string)

  function OwnersOf(d: ObjectDelta, k: Kind): seq<ObjectID> {
    if k in d.owners then d.owners[k] else []
  }

  // ----- identities

  predicate IsRelation(id: ObjectID) {
    id.kind == TABLE || id.kind == VIEW
  }

  predicate DescriptorKind(kind: string) {
    || kind == TABLE || kind == VIEW || kind == PROCEDURE || kind == TRIGGER || kind == DOMAIN
    || kind == INDEX_KIND || kind == GENERATOR || kind == FUNCTION || kind == EXCEPTION
  }

  predicate OwnerKind(k: Kind, id: ObjectID) {
    match k
    case Relations => IsRelation(id)
    case ColumnsCurrent => id.kind == TABLE
    case ColumnsAll => id.kind == TABLE
    case PrimaryKeys => id.kind == TABLE
    case ForeignKeys => id.kind == TABLE
    case SystemRelations => id.kind == TABLE
    case Views => id.kind == VIEW
    case Procedures => id.kind == PROCEDURE
    case Domains => id.kind == DOMAIN
    case Generators => id.kind == GENERATOR
    case Functions => id.kind == FUNCTION
    case Indexes => id.kind == INDEX_KIND || IsRelation(id)
    case Triggers => id.kind == TRIGGER || IsRelation(id)
    case Exceptions => id.kind == EXCEPTION
    case _ => false
  }

  predicate RelationDeleted(deleted: set<ObjectID>, schema: string, name: string) {
    TableID(schema, name) in deleted || PlainID(VIEW, schema, name) in deleted
  }

  predicate Covered(owners: seq<ObjectID>, id: ObjectID, relation: string) {
    exists owner | owner in owners ::
      owner == id || (relation != "" && IsRelation(owner) && owner.name == relation && owner.schema == id.schema)
  }

  ghost predicate Parses(key: string) {
    ParseKey(key).Some?
  }

  ghost function Parsed(key: string): ObjectID
    requires Parses(key)
  {
    ParseKey(key).value
  }

  // ----- the header of a delta

  predicate FragmentRows(k: Kind, n: Names, c: CatalogCache) {
    && (forall j | j in DESCRIPTOR_KINDS && j != k :: ExactRows(c, j) == map[] && (HasFoldedMap(j) ==> FoldedRows(c, j) == map[]))
    && (k != Indexes ==> Rows(c.indexesByTable) == map[])
    && (k != Triggers ==> Rows(c.triggersByTable) == map[])
    && (forall key | key in ExactRows(c, Views) :: ViewRowOk(ExactRows(c, Views)[key]))
    && (forall key | key in ExactRows(c, Procedures) :: ProcedureRowOk(ExactRows(c, Procedures)[key]))
    && (forall key | key in ExactRows(c, Functions) :: FunctionRowOk(ExactRows(c, Functions)[key]))
    && (forall key | key in Rows(c.indexesByTable) :: forall v | v in Rows(c.indexesByTable)[key] :: GroupRowOk(n, Indexes, key, v, ExactRows(c, Indexes)))
    && (forall key | key in Rows(c.triggersByTable) :: forall v | v in Rows(c.triggersByTable)[key] :: GroupRowOk(n, Triggers, key, v, ExactRows(c, Triggers)))
  }

  predicate ViewRowOk(v: Option<Desc>) {
    v.Some? && (v.value.columns.Some? ==> forall c | c in v.value.columns.value ::
      c.Some? && c.value.name != "" && c.value.table == v.value.name && c.value.schema == v.value.schema)
  }

  predicate ProcedureRowOk(v: Option<Desc>) {
    v.Some? && forall p | p in v.value.members :: p.Some? && p.value.name != "" && p.value.position >= 0
  }

  predicate FunctionRowOk(v: Option<Desc>) {
    v.Some? && forall a | a in v.value.members :: a.Some? && a.value.owner == v.value.name
  }

  predicate GroupRowOk(n: Names, k: Kind, key: string, v: Option<Desc>, exact: DescMap) {
    && v.Some?
    && (k == Triggers ==> v.value.relation.Some?)
    && CacheKey(n, Identify(k, v.value).1) == key
    && Key(IdentityOf(k, v.value)) in exact
    && exact[Key(IdentityOf(k, v.value))].Some?
  }

  /** validateWatchFragment: a fragment carries rows of its own category only. */
  predicate FragmentOk(n: Names, k: Kind, c: Cache) {
    && Rows(c.schemas) == map[] && c.defaultSchema == "" && c.dependencies.None?
    && (k != Relations ==> Rows(c.schemaTables) == map[])
    && (k != ColumnsAll && k != ColumnsCurrent ==> Rows(c.columnsByID) == map[] && Rows(c.columnsWithParent) == map[])
    && (k != PrimaryKeys ==> Rows(c.primaryKeysByID) == map[] && Rows(c.primaryKeyColumns) == map[])
    && (k != ForeignKeys ==> Rows(c.foreignKeys) == map[])
    && (c.catalog.Some? ==> FragmentRows(k, n, c.catalog.value))
  }

  predicate CategoryShape(d: ObjectDelta, k: Kind)
    requires k in d.owners
  {
    && KnownKind(k) && k != Schemas && k != Dependencies
    && k in d.patches && d.patches[k].cache.Some? && d.patches[k].count >= 0 && d.patches[k].queries >= 0
    && (forall j | j in d.patches[k].cache.value.metadata :: j == k && d.patches[k].cache.value.metadata[j] == Ready)
    && (forall id | id in d.owners[k] :: OwnerKind(k, id) && ValidID(id))
    && Distinct(d.owners[k])
  }

  /** The identities and patches of a delta fit together. */
  predicate DeltaShape(d: ObjectDelta) {
    && d.fullReason == "" && d.affected >= 0
    && (forall k | k in d.owners :: CategoryShape(d, k))
    && d.patches.Keys <= d.owners.Keys
    && (forall id | id in d.deleted :: ValidID(id) && DescriptorKind(id.kind))
  }

  /** The checks MergeObjects makes before it merges anything. */
  predicate DeltaOk(n: Names, d: ObjectDelta) {
    && DeltaShape(d)
    && (forall k | k in d.owners :: FragmentOk(n, k, d.patches[k].cache.value))
  }

  function PatchCache(d: ObjectDelta, k: Kind): Cache
    requires k in d.patches && d.patches[k].cache.Some?
  {
    d.patches[k].cache.value
  }

  /** watchOwnerAbsent: a covered top-level object that its patch does not have. */
  predicate OwnerAbsent(k: Kind, p: Cache, id: ObjectID) {
    if k == Relations then
      !(id.schema in Rows(p.schemaTables) && id.name in Rows(p.schemaTables)[id.schema])
    else
      && p.catalog.Some?
      && Descriptor(k)
      && (k == Indexes ==> id.kind == INDEX_KIND)
      && (k == Triggers ==> id.kind == TRIGGER)
      && CategoryOf(p.catalog.value, k).exact.Some?
      && (Key(id) in ExactRows(p.catalog.value, k) ==> ExactRows(p.catalog.value, k)[Key(id)].None?)
  }

  ghost function Absent(d: ObjectDelta): set<ObjectID>
    requires forall k | k in d.owners :: k in d.patches && d.patches[k].cache.Some?
  {
    set k, id | k in d.owners && id in d.owners[k] && OwnerAbsent(k, PatchCache(d, k), id) :: id
  }

  /** Explicit deletions together with every covered object that is absent from its patch. */
  ghost function KnownDeleted(d: ObjectDelta): set<ObjectID>
    requires DeltaShape(d)
  {
    (set id | id in d.deleted) + Absent(d)
  }

  // ----- one descriptor category (replaceDescriptors)

  predicate Struck(k: Kind, v: Desc, deleted: set<ObjectID>) {
    var (id, rel) := Identify(k, v);
    id in deleted || RelationDeleted(deleted, id.schema, rel)
  }

  predicate CoveredRow(k: Kind, v: Desc, owners: seq<ObjectID>) {
    var (id, rel) := Identify(k, v);
    Covered(owners, id, rel)
  }

  predicate NoNil(m: DescMap) {
    forall key | key in m :: m[key].Some?
  }

  /** Some row of `m` is struck by a deletion. */
  predicate AnyStruck(k: Kind, m: DescMap, deleted: set<ObjectID>) {
    exists key | key in m :: m[key].Some? && Struck(k, m[key].value, deleted)
  }

  function Legacy(k: Kind, c: Category): DescMap {
    if HasFoldedMap(k) then Rows(c.folded) else map[]
  }

  predicate Touched(k: Kind, base: Category, supplied: bool, deleted: set<ObjectID>) {
    supplied || AnyStruck(k, Rows(base.exact), deleted) || (base.exact.None? && AnyStruck(k, Legacy(k, base), deleted))
  }

  predicate ReplacementOk(k: Kind, key: string, v: Option<Desc>, owners: seq<ObjectID>, deleted: set<ObjectID>) {
    v.Some? && key == Key(IdentityOf(k, v.value)) && CoveredRow(k, v.value, owners) && !Struck(k, v.value, deleted)
  }

  predicate LegacyRowOk(k: Kind, v: Option<Desc>, owners: seq<ObjectID>, patch: DescMap) {
    && v.Some? && CoveredRow(k, v.value, owners)
    && Key(IdentityOf(k, v.value)) in patch && patch[Key(IdentityOf(k, v.value))].Some?
  }

  /** What a touched category must satisfy before it is rewritten. */
  predicate RowsReplaceable(k: Kind, base: Category, patch: Category, owners: seq<ObjectID>, supplied: bool, deleted: set<ObjectID>) {
    && (base.exact.None? ==> Legacy(k, base) == map[])
    && (supplied ==> patch.exact.Some?)
    && (forall key | key in Rows(patch.exact) :: ReplacementOk(k, key, Rows(patch.exact)[key], owners, deleted))
    && (forall key | key in Legacy(k, patch) :: LegacyRowOk(k, Legacy(k, patch)[key], owners, Rows(patch.exact)))
  }

  predicate Replaceable(k: Kind, base: Category, patch: Category, owners: seq<ObjectID>, supplied: bool, deleted: set<ObjectID>) {
    && NoNil(Rows(base.exact))
    && (base.exact.None? ==> NoNil(Legacy(k, base)))
    && (Touched(k, base, supplied, deleted) ==> RowsReplaceable(k, base, patch, owners, supplied, deleted))
  }

  /** Copying a patch row; a view gets its own, never nil, column slice. */
  function CopyRow(k: Kind, v: Option<Desc>): Option<Desc> {
    if v.Some? && k == Views then Some(v.value.(columns := Some(if v.value.columns.Some? then v.value.columns.value else []))) else v
  }

  predicate Goes(k: Kind, v: Option<Desc>, owners: seq<ObjectID>, deleted: set<ObjectID>) {
    v.None? || CoveredRow(k, v.value, owners) || Struck(k, v.value, deleted)
  }

  function RowGone(k: Kind, owners: seq<ObjectID>, deleted: set<ObjectID>): (string, Option<Desc>) -> bool {
    (key, v) => Goes(k, v, owners, deleted)
  }

  const AnyRow: (string, Option<Desc>) -> bool := (key, v) => true

  function RowCopier(k: Kind): Option<Desc> -> Option<Desc> {
    v => CopyRow(k, v)
  }

  /** Base minus covered and deleted rows, plus the patch. */
  ghost function ReplacedRows(k: Kind, base: DescMap, patch: DescMap, owners: seq<ObjectID>, deleted: set<ObjectID>): DescMap {
    Without(base, RowGone(k, owners, deleted)) + Copied(patch, AnyRow, RowCopier(k))
  }

  predicate Stays(k: Kind, v: Desc, owners: seq<ObjectID>, deleted: set<ObjectID>) {
    !CoveredRow(k, v, owners) && !Struck(k, v, deleted)
  }

  /** The same row, field by field; a view never has nil columns. */
  predicate SameRow(k: Kind, v: Desc, w: Desc) {
    if k == Views
    then w.(columns := v.columns) == v && w.columns.Some? && w.columns.value == (if v.columns.Some? then v.columns.value else [])
    else w == v
  }

  /** What a replacement leaves, row by row: the patch's own rows, and the base rows that stay. */
  ghost predicate RowsReplaced(k: Kind, base: DescMap, patch: DescMap, owners: seq<ObjectID>, deleted: set<ObjectID>, next: DescMap) {
    && (forall key | key in patch :: key in next && patch[key].Some? && next[key].Some? && SameRow(k, patch[key].value, next[key].value))
    && (forall key | key !in patch :: key in next <==> key in base && base[key].Some? && Stays(k, base[key].value, owners, deleted))
    && (forall key | key in next && key !in patch :: next[key] == base[key])
  }

  predicate NameLess(a: Desc, b: Desc) {
    if a.name != b.name then StringLess(a.name, b.name) else StringLess(a.schema, b.schema)
  }

  /** The folded map of an exact map: one entry for each folded name, the last in name order. */
  ghost predicate FoldedFrom(n: Names, exact: DescMap, folded: DescMap) {
    && (forall key | key in exact && exact[key].Some? :: CacheKey(n, exact[key].value.name) in folded)
    && (forall f | f in folded :: folded[f].Some? && CacheKey(n, folded[f].value.name) == f && folded[f] in exact.Values)
    && (forall key, f | key in exact && exact[key].Some? && f in folded && folded[f].Some? && CacheKey(n, exact[key].value.name) == f ::
          !NameLess(folded[f].value, exact[key].value))
  }

  /** What one category holds after the merge. */
  ghost predicate CategoryMerged(n: Names, k: Kind, base: Category, patch: Category, owners: seq<ObjectID>, supplied: bool, deleted: set<ObjectID>, next: Category) {
    if Touched(k, base, supplied, deleted) then
      && next.exact == Some(ReplacedRows(k, Rows(base.exact), Rows(patch.exact), owners, deleted))
      && (HasFoldedMap(k) ==> next.folded.Some? && FoldedFrom(n, next.exact.value, next.folded.value))
    else next == base
  }

  // ----- the per-table groups

  /** The group an index or trigger row belongs to, if it has a relation. */
  function GroupKey(n: Names, v: Option<Desc>): Option<string> {
    if v.None? || v.value.relation.None? || n.trim(v.value.relation.value) == "" then None
    else Some(CacheKey(n, v.value.relation.value))
  }

  predicate ByName(a: Option<Desc>, b: Option<Desc>) {
    StringLess(if a.Some? then a.value.name else "", if b.Some? then b.value.name else "")
  }

  ghost function RowsEqual(rows: DescMap, v: Option<Desc>): set<string> {
    set key | key in rows && rows[key] == v
  }

  /** `groups` files each row once under its folded relation, by name within a group. */
  ghost predicate GroupedFrom(n: Names, rows: DescMap, groups: map<string, seq<Option<Desc>>>) {
    && (forall key | key in rows && GroupKey(n, rows[key]).Some? :: GroupKey(n, rows[key]).value in groups)
    && (forall g | g in groups :: groups[g] != [] && Sorted(groups[g], ByName) && GroupCounts(n, rows, g, groups[g]))
  }

  ghost predicate GroupCounts(n: Names, rows: DescMap, g: string, group: seq<Option<Desc>>) {
    forall v: Option<Desc> :: multiset(group)[v] == if GroupKey(n, v) == Some(g) then |RowsEqual(rows, v)| else 0
  }

  // ----- the catalog header (mergeWatchCatalog)

  function BaseCatalog(base: Cache): CatalogCache {
    if base.catalog.Some? then base.catalog.value else EMPTY_CATALOG
  }

  function PatchCategory(d: ObjectDelta, k: Kind): Category {
    if k in d.patches && d.patches[k].cache.Some? && d.patches[k].cache.value.catalog.Some?
    then CategoryOf(d.patches[k].cache.value.catalog.value, k) else Category(None, None)
  }

  predicate CategoryTouched(base: CatalogCache, d: ObjectDelta, deleted: set<ObjectID>, k: Kind) {
    Touched(k, CategoryOf(base, k), k in d.patches, deleted)
  }

  predicate CategoryReplaceable(base: CatalogCache, d: ObjectDelta, deleted: set<ObjectID>, k: Kind) {
    && (k in d.patches ==> d.patches[k].cache.Some? && d.patches[k].cache.value.catalog.Some?)
    && Replaceable(k, CategoryOf(base, k), PatchCategory(d, k), OwnersOf(d, k), k in d.patches, deleted)
  }

  /** The exact map of one category after the merge. */
  ghost function NextExact(base: CatalogCache, d: ObjectDelta, deleted: set<ObjectID>, k: Kind): Option<DescMap> {
    if CategoryTouched(base, d, deleted, k)
    then Some(ReplacedRows(k, ExactRows(base, k), Rows(PatchCategory(d, k).exact), OwnersOf(d, k), deleted))
    else CategoryOf(base, k).exact
  }

  ghost predicate AnyTouched(base: CatalogCache, d: ObjectDelta, deleted: set<ObjectID>) {
    exists k | Descriptor(k) :: CategoryTouched(base, d, deleted, k)
  }

  /** The object index can be rebuilt: every category that has rows has exact, decodable ones. */
  ghost predicate Indexable(base: CatalogCache, d: ObjectDelta, deleted: set<ObjectID>) {
    && (forall k | Descriptor(k) && HasFoldedMap(k) && NextExact(base, d, deleted, k).None? :: FoldedRows(base, k) == map[])
    && (forall k, key | Descriptor(k) && key in Rows(NextExact(base, d, deleted, k)) :: Parses(key))
  }

  ghost predicate CatalogMergeable(base: CatalogCache, d: ObjectDelta, deleted: set<ObjectID>) {
    && (forall k | Descriptor(k) :: CategoryReplaceable(base, d, deleted, k))
    && (AnyTouched(base, d, deleted) ==> Indexable(base, d, deleted))
  }

  ghost predicate HasKey(cs: map<Kind, Category>, key: string) {
    exists k | Descriptor(k) :: key in Rows(CategoryIn(cs, k).exact)
  }

  /** `v` indexes exactly the identities whose keys are in some exact map. */
  ghost predicate IndexesCatalog(v: IndexValue, cs: map<Kind, Category>) {
    exists ids: seq<ObjectID> :: Represents(v, ids, DefaultFold) && CatalogIDs(ids, cs)
  }

  ghost predicate CatalogIDs(ids: seq<ObjectID>, cs: map<Kind, Category>) {
    && (forall id | id in ids :: HasKey(cs, Key(id)))
    && (forall key | HasKey(cs, key) :: exists id | id in ids :: Key(id) == key)
  }

  ghost predicate GroupsMerged(n: Names, base: CatalogCache, d: ObjectDelta, deleted: set<ObjectID>, next: CatalogCache) {
    && (if CategoryTouched(base, d, deleted, Indexes) then next.indexesByTable.Some? && GroupedFrom(n, ExactRows(next, Indexes), next.indexesByTable.value)
        else next.indexesByTable == base.indexesByTable)
    && (if CategoryTouched(base, d, deleted, Triggers) then next.triggersByTable.Some? && GroupedFrom(n, FoldedRows(next, Triggers), next.triggersByTable.value)
        else next.triggersByTable == base.triggersByTable)
  }

  ghost predicate CatalogMerged(n: Names, base: CatalogCache, d: ObjectDelta, deleted: set<ObjectID>, next: CatalogCache) {
    && (forall k | Descriptor(k) ::
          CategoryMerged(n, k, CategoryOf(base, k), PatchCategory(d, k), OwnersOf(d, k), k in d.patches, deleted, CategoryOf(next, k)))
    && GroupsMerged(n, base, d, deleted, next)
    && (if AnyTouched(base, d, deleted) then next.objects.Some? && IndexesCatalog(next.objects.value, next.categories)
        else next.objects == base.objects)
  }

  // ----- identities that disappeared with their group (recordRemovedCatalog)

  ghost predicate RemovedKeys(base: CatalogCache, d: ObjectDelta, deleted: set<ObjectID>, key: string) {
    exists k | Descriptor(k) :: key in ExactRows(base, k) && key !in Rows(NextExact(base, d, deleted, k))
  }

  /** Only a published catalog can lose rows. */
  ghost predicate RemovalsParse(base: Cache, d: ObjectDelta, deleted: set<ObjectID>) {
    base.catalog.Some? ==> forall key | RemovedKeys(base.catalog.value, d, deleted, key) :: Parses(key)
  }

  /** `all` is `deleted` and the identity of every exact row that the catalog merge dropped. */
  ghost predicate AllDeleted(base: Cache, d: ObjectDelta, deleted: set<ObjectID>, all: set<ObjectID>) {
    forall id :: id in all <==> id in deleted || (ValidID(id) && base.catalog.Some? && RemovedKeys(base.catalog.value, d, deleted, Key(id)))
  }

  predicate AnyRelation(deleted: set<ObjectID>) {
    exists id | id in deleted :: IsRelation(id)
  }

  // ----- relation membership (mergeWatchRelations)

  predicate RelationsTouched(d: ObjectDelta, deleted: set<ObjectID>) {
    Relations in d.owners || AnyRelation(deleted)
  }

  predicate NamedBy(owners: seq<ObjectID>, schema: string, name: string) {
    TableID(schema, name) in owners || PlainID(VIEW, schema, name) in owners
  }

  predicate KeepsRelation(d: ObjectDelta, deleted: set<ObjectID>, schema: string, name: string) {
    !RelationDeleted(deleted, schema, name) && !NamedBy(OwnersOf(d, Relations), schema, name)
  }

  function Kept(d: ObjectDelta, deleted: set<ObjectID>, schema: string, names: seq<string>): seq<string> {
    if names == [] then [] else
      Kept(d, deleted, schema, names[..|names| - 1]) +
      if KeepsRelation(d, deleted, schema, names[|names| - 1]) then [names[|names| - 1]] else []
  }

  function SchemaRows(m: map<string, seq<string>>, schema: string): seq<string> {
    if schema in m then m[schema] else []
  }

  function PatchTables(d: ObjectDelta): map<string, seq<string>> {
    if Relations in d.owners && Relations in d.patches && d.patches[Relations].cache.Some?
    then Rows(d.patches[Relations].cache.value.schemaTables) else map[]
  }

  /** The names of one schema before they are sorted: what is kept, then what the patch adds. */
  function MergedNames(base: Cache, d: ObjectDelta, deleted: set<ObjectID>, schema: string): seq<string> {
    Kept(d, deleted, schema, SchemaRows(Rows(base.schemaTables), schema)) + SchemaRows(PatchTables(d), schema)
  }

  predicate RelationsMergeable(base: Cache, d: ObjectDelta, deleted: set<ObjectID>) {
    RelationsTouched(d, deleted) ==>
      && (Relations in d.owners ==> Relations in d.patches && d.patches[Relations].cache.Some? && d.patches[Relations].cache.value.schemaTables.Some?)
      && (forall s | s in PatchTables(d) :: forall name | name in PatchTables(d)[s] ::
            !RelationDeleted(deleted, s, name) && NamedBy(OwnersOf(d, Relations), s, name))
      && (forall s | s in Rows(base.schemaTables).Keys + PatchTables(d).Keys :: Distinct(MergedNames(base, d, deleted, s)))
  }

  ghost predicate StrictlySorted(names: seq<string>) {
    forall i, j | 0 <= i < j < |names| :: StringLess(names[i], names[j])
  }

  ghost predicate RelationsMerged(base: Cache, d: ObjectDelta, deleted: set<ObjectID>, next: Option<map<string, seq<string>>>) {
    if !RelationsTouched(d, deleted) then next == base.schemaTables else
      && next.Some?
      && (forall s :: s in next.value <==> s in Rows(base.schemaTables) || SchemaRows(PatchTables(d), s) != [])
      && (forall s | s in next.value :: StrictlySorted(next.value[s]) &&
            forall name :: name in next.value[s] <==> name in MergedNames(base, d, deleted, s))
  }

  // ----- columns and primary keys (mergeWatchColumns)

  /** relationID: the table identity a view's columns are kept under. */
  function RelationID(id: ObjectID): ObjectID {
    id.(kind := TABLE)
  }

  predicate ColumnsTouched(d: ObjectDelta, deleted: set<ObjectID>) {
    AnyRelation(deleted) || ColumnsCurrent in d.owners || ColumnsAll in d.owners
  }

  predicate KeysTouched(d: ObjectDelta, deleted: set<ObjectID>) {
    AnyRelation(deleted) || PrimaryKeys in d.owners
  }

  /** The relations whose columns or keys the delta speaks about. */
  ghost function NamedKeys(d: ObjectDelta, deleted: set<ObjectID>): set<string> {
    (set id | id in deleted && IsRelation(id) :: Key(RelationID(id)))
    + OwnerKeys(OwnersOf(d, ColumnsCurrent)) + OwnerKeys(OwnersOf(d, ColumnsAll)) + OwnerKeys(OwnersOf(d, PrimaryKeys))
  }

  ghost function OwnerKeys(owners: seq<ObjectID>): set<string> {
    set id | id in owners :: Key(id)
  }

  ghost predicate KeyDeleted(deleted: set<ObjectID>, key: string) {
    Parses(key) && RelationDeleted(deleted, Parsed(key).schema, Parsed(key).name)
  }

  /** The parts of the base that the column stage starts from. */
  predicate ExactColumnsPublished(base: Cache) {
    && (base.columnsByID.None? ==> Rows(base.columnsWithParent) == map[] && !ColumnsReady(base))
    && (base.primaryKeysByID.None? ==> Rows(base.primaryKeyColumns) == map[] && !MetadataReady(base, PrimaryKeys))
  }

  predicate ColumnRowOk(c: Option<Column>, id: ObjectID) {
    c.Some? && c.value.schema == id.schema && c.value.table == id.name && c.value.name != ""
  }

  const GoodColumns: (ObjectID, Columns) -> bool := (id, cols) => forall c | c in cols :: ColumnRowOk(c, id)

  const GoodKeys: (ObjectID, seq<string>) -> bool := (id, names) => Distinct(names) && "" !in names

  /** A patch entry is owned and well formed; for a deleted relation it must be empty. */
  ghost predicate EntryOk<V>(owners: seq<ObjectID>, deleted: set<ObjectID>, good: (ObjectID, V) -> bool, none: V, key: string, v: V) {
    && Parses(key) && Parsed(key).kind == TABLE && Parsed(key) in owners
    && (if KeyDeleted(deleted, key) then v == none else good(Parsed(key), v))
  }

  predicate FoldedColumnsOwned(owners: seq<ObjectID>, folded: map<string, Columns>) {
    forall f | f in folded :: forall c: Option<Column> | c in folded[f] :: c.Some? && TableID(c.value.schema, c.value.table) in owners
  }

  ghost predicate ColumnPatchOk(d: ObjectDelta, deleted: set<ObjectID>, k: Kind)
    requires k in d.owners
  {
    && k in d.patches && d.patches[k].cache.Some? && PatchCache(d, k).columnsByID.Some?
    && (forall key | key in PatchColumns(d, k) :: EntryOk(d.owners[k], deleted, GoodColumns, [], key, PatchColumns(d, k)[key]))
    && FoldedColumnsOwned(d.owners[k], Rows(PatchCache(d, k).columnsWithParent))
  }

  ghost predicate ColumnPatchesOk(d: ObjectDelta, deleted: set<ObjectID>) {
    && (ColumnsCurrent in d.owners ==> ColumnPatchOk(d, deleted, ColumnsCurrent))
    && (ColumnsAll in d.owners ==> ColumnPatchOk(d, deleted, ColumnsAll))
  }

  predicate FoldedKeysOwned(n: Names, owners: seq<ObjectID>, folded: map<string, set<string>>) {
    forall f | f in folded :: exists id | id in owners :: f == ColumnDatabaseKey(n, id.schema, id.name)
  }

  ghost predicate KeyPatchOk(n: Names, d: ObjectDelta, deleted: set<ObjectID>)
    requires PrimaryKeys in d.owners
  {
    && PrimaryKeys in d.patches && d.patches[PrimaryKeys].cache.Some? && PatchCache(d, PrimaryKeys).primaryKeysByID.Some?
    && (forall key | key in PatchKeys(d) :: EntryOk(d.owners[PrimaryKeys], deleted, GoodKeys, [], key, PatchKeys(d)[key]))
    && FoldedKeysOwned(n, d.owners[PrimaryKeys], Rows(PatchCache(d, PrimaryKeys).primaryKeyColumns))
  }

  ghost function CutRows<V>(m: map<string, V>, deleted: set<ObjectID>): map<string, V> {
    map key | key in m && !KeyDeleted(deleted, key) :: m[key]
  }

  ghost function DropOwned<V>(m: map<string, V>, owners: seq<ObjectID>): map<string, V> {
    map key | key in m && key !in OwnerKeys(owners) :: m[key]
  }

  /** Rows of `m` that are neither deleted nor owned, plus the patch rows that are not deleted. */
  ghost function ReplacedKeys<V>(m: map<string, V>, owners: seq<ObjectID>, patch: map<string, V>, deleted: set<ObjectID>): map<string, V> {
    DropOwned(CutRows(m, deleted), owners) + CutRows(patch, deleted)
  }

  function PatchColumns(d: ObjectDelta, k: Kind): map<string, Columns> {
    if k in d.owners && k in d.patches && d.patches[k].cache.Some? then Rows(d.patches[k].cache.value.columnsByID) else map[]
  }

  function PatchKeys(d: ObjectDelta): map<string, seq<string>> {
    if PrimaryKeys in d.owners && PrimaryKeys in d.patches && d.patches[PrimaryKeys].cache.Some?
    then Rows(d.patches[PrimaryKeys].cache.value.primaryKeysByID) else map[]
  }

  /** The column map with the patches in, before any key flag is looked at. */
  ghost function UnflaggedColumns(base: Cache, d: ObjectDelta, deleted: set<ObjectID>): map<string, Columns> {
    ReplacedKeys(
      ReplacedKeys(Rows(base.columnsByID), OwnersOf(d, ColumnsCurrent), PatchColumns(d, ColumnsCurrent), deleted),
      OwnersOf(d, ColumnsAll), PatchColumns(d, ColumnsAll), deleted)
  }

  ghost function MergedKeys(base: Cache, d: ObjectDelta, deleted: set<ObjectID>): map<string, seq<string>> {
    ReplacedKeys(Rows(base.primaryKeysByID), OwnersOf(d, PrimaryKeys), PatchKeys(d), deleted)
  }

  ghost function FoldOf(n: Names, key: string): string
    requires Parses(key)
  {
    ColumnDatabaseKey(n, Parsed(key).schema, Parsed(key).name)
  }

  /** The folded primary keys: for each folded table, every key column of every table that folds to it. */
  ghost predicate KeysFoldedFrom(n: Names, keys: map<string, seq<string>>, folded: map<string, set<string>>)
    requires forall key | key in keys :: Parses(key)
  {
    && (forall key | key in keys :: FoldOf(n, key) in folded)
    && (forall f | f in folded :: exists key | key in keys :: FoldOf(n, key) == f)
    && (forall f, name | f in folded :: name in folded[f] <==> exists key | key in keys :: FoldOf(n, key) == f && name in keys[key])
  }

  ghost predicate InFold(n: Names, names: set<string>, key: string) {
    exists other | other in names :: Parses(other) && Parses(key) && FoldOf(n, other) == FoldOf(n, key)
  }

  /** The relations whose rows are looked at again: the named ones and, once keys are ready, every
      sibling that shares a folded table name with one of them. */
  ghost predicate Rechecked(n: Names, base: Cache, names: set<string>, key: string) {
    key in names || (MetadataReady(base, PrimaryKeys) && InFold(n, names, key))
  }

  predicate KeyMember(n: Names, folded: map<string, set<string>>, c: Column) {
    var f := ColumnDatabaseKey(n, c.schema, c.table);
    f in folded && exists pk | pk in folded[f] :: n.equalFold(pk, c.name)
  }

  /** The key flag a column must carry. */
  function KeyFlag(n: Names, base: Cache, folded: map<string, set<string>>, c: Column): string {
    if !MetadataReady(base, PrimaryKeys) then "" else if KeyMember(n, folded, c) then "YES" else "NO"
  }

  function Flagged(n: Names, base: Cache, folded: map<string, set<string>>, cols: Columns): Columns {
    seq(|cols|, i requires 0 <= i < |cols| =>
      if cols[i].None? then None else Some(cols[i].value.(key := KeyFlag(n, base, folded, cols[i].value))))
  }

  predicate NoNilColumns(cols: Columns) {
    forall i | 0 <= i < |cols| :: cols[i].Some?
  }

  ghost function ChangedKeys(n: Names, base: Cache, d: ObjectDelta, deleted: set<ObjectID>): set<string> {
    var names := NamedKeys(d, deleted);
    names + set key | key in UnflaggedColumns(base, d, deleted) && Rechecked(n, base, names, key)
  }

  /** The final column map, given the final folded keys. */
  ghost function MergedColumns(n: Names, base: Cache, d: ObjectDelta, deleted: set<ObjectID>, folded: map<string, set<string>>): map<string, Columns> {
    var m := UnflaggedColumns(base, d, deleted);
    map key | key in m :: if key in ChangedKeys(n, base, d, deleted) then Flagged(n, base, folded, m[key]) else m[key]
  }

  /** The exact maps can be replaced: they are published and decode, and the patches are well formed. */
  ghost predicate ExactReplaceable(n: Names, base: Cache, d: ObjectDelta, deleted: set<ObjectID>) {
    && ExactColumnsPublished(base)
    && (forall key | key in Rows(base.columnsByID) :: Parses(key))
    && (forall key | key in Rows(base.primaryKeysByID) :: Parses(key))
    && ColumnPatchesOk(d, deleted)
    && (PrimaryKeys in d.owners ==> KeyPatchOk(n, d, deleted))
    && (forall key | key in UnflaggedColumns(base, d, deleted) :: NoNilColumns(UnflaggedColumns(base, d, deleted)[key]))
  }

  ghost predicate ColumnsMergeable(n: Names, base: Cache, d: ObjectDelta, deleted: set<ObjectID>) {
    && !(ColumnsAll in d.owners && ColumnsCurrent in d.owners)
    && (ColumnsTouched(d, deleted) || KeysTouched(d, deleted) ==> ExactReplaceable(n, base, d, deleted))
  }

  /** Appending rows to the bucket of their own schema and table. */
  function FileColumns(n: Names, m: map<string, Columns>, cols: Columns): map<string, Columns> {
    if cols == [] then m else
      var front := FileColumns(n, m, cols[..|cols| - 1]);
      var c := cols[|cols| - 1];
      if c.None? then front else
        var f := ColumnDatabaseKey(n, c.value.schema, c.value.table);
        front[f := (if f in front then front[f] else []) + [c]]
  }

  function FileAll(n: Names, ids: seq<string>, cols: map<string, Columns>): map<string, Columns>
    requires forall id | id in ids :: id in cols
  {
    if ids == [] then map[] else FileColumns(n, FileAll(n, ids[..|ids| - 1], cols), cols[ids[|ids| - 1]])
  }

  ghost function KeyName(key: string): string {
    if Parses(key) then Parsed(key).name else ""
  }

  ghost function KeySchema(key: string): string {
    if Parses(key) then Parsed(key).schema else ""
  }

  ghost predicate KeyOrderLess(a: string, b: string) {
    if KeyName(a) != KeyName(b) then StringLess(KeyName(a), KeyName(b)) else StringLess(KeySchema(a), KeySchema(b))
  }

  /** `ids` lists the keys of `cols`, ordered by relation name, then schema. */
  ghost predicate ListsKeys(ids: seq<string>, keys: set<string>) {
    && Distinct(ids) && (forall id :: id in ids <==> id in keys)
    && forall i, j | 0 <= i < j < |ids| :: !KeyOrderLess(ids[j], ids[i])
  }

  /** ColumnsWithParent is the exact column map, relation after relation, filed by folded table. */
  ghost predicate ColumnsFoldedFrom(n: Names, cols: map<string, Columns>, folded: map<string, Columns>) {
    exists ids: seq<string> :: ListsKeys(ids, cols.Keys) && folded == FileAll(n, ids, cols)
  }

  /** A view's own columns: the merged ones, never part of a key. */
  function ViewColumns(cols: Columns): Columns {
    seq(|cols|, i requires 0 <= i < |cols| => if cols[i].None? then None else Some(cols[i].value.(key := "NO")))
  }

  function RefreshedView(changed: set<string>, cols: map<string, Columns>, v: Option<Desc>): Option<Desc> {
    if v.None? then v else
      var key := Key(TableID(v.value.schema, v.value.name));
      if key in changed then Some(v.value.(columns := Some(ViewColumns(if key in cols then cols[key] else [])))) else v
  }

  function RefreshedViews(changed: set<string>, cols: map<string, Columns>, views: DescMap): DescMap {
    map key | key in views :: RefreshedView(changed, cols, views[key])
  }

  /** The exact maps after the column stage, and whether there are any. */
  ghost predicate ExactMerged(n: Names, base: Cache, d: ObjectDelta, deleted: set<ObjectID>, next: Cache) {
    && Rows(next.primaryKeysByID) == MergedKeys(base, d, deleted)
    && (next.primaryKeysByID.None? <==> base.primaryKeysByID.None? && PrimaryKeys !in d.owners)
    && Rows(next.columnsByID) == MergedColumns(n, base, d, deleted, Rows(next.primaryKeyColumns))
    && (next.columnsByID.None? <==> base.columnsByID.None? && ColumnsCurrent !in d.owners && ColumnsAll !in d.owners)
  }

  ghost predicate FoldedKeysMerged(n: Names, base: Cache, d: ObjectDelta, deleted: set<ObjectID>, next: Cache) {
    && (forall key | key in Rows(next.primaryKeysByID) :: Parses(key))
    && (if KeysTouched(d, deleted) then next.primaryKeyColumns.Some? && KeysFoldedFrom(n, Rows(next.primaryKeysByID), next.primaryKeyColumns.value)
        else next.primaryKeyColumns == base.primaryKeyColumns)
  }

  /** The column stage, from `mid` (after the relation stage) to `next`. */
  ghost predicate ColumnsMerged(n: Names, base: Cache, mid: Cache, d: ObjectDelta, deleted: set<ObjectID>, next: Cache) {
    if !ColumnsTouched(d, deleted) && !KeysTouched(d, deleted) then next == mid else
      && ExactMerged(n, base, d, deleted, next)
      && FoldedKeysMerged(n, base, d, deleted, next)
      && next.columnsWithParent.Some? && ColumnsFoldedFrom(n, Rows(next.columnsByID), next.columnsWithParent.value)
      && mid.catalog.Some? && next.catalog.Some?
      && ViewsRefreshed(n, ChangedKeys(n, base, d, deleted), Rows(next.columnsByID), mid.catalog.value, next.catalog.value)
      && next == mid.(primaryKeysByID := next.primaryKeysByID, primaryKeyColumns := next.primaryKeyColumns, columnsByID := next.columnsByID,
                      columnsWithParent := next.columnsWithParent, catalog := next.catalog)
  }

  /** Only the view category differs: changed relations that are views carry the merged columns. */
  ghost predicate ViewsRefreshed(n: Names, changed: set<string>, cols: map<string, Columns>, mid: CatalogCache, next: CatalogCache) {
    && (forall k | k != Views :: CategoryOf(next, k) == CategoryOf(mid, k))
    && next == mid.(categories := next.categories)
    && CategoryOf(next, Views).exact.Some? == CategoryOf(mid, Views).exact.Some?
    && ExactRows(next, Views) == RefreshedViews(changed, cols, ExactRows(mid, Views))
    && (CategoryOf(next, Views) != CategoryOf(mid, Views) ==>
          CategoryOf(next, Views).folded.Some? && FoldedFrom(n, ExactRows(next, Views), FoldedRows(next, Views)))
  }

  // ----- foreign keys (mergeWatchForeignKeys)

  /** The foreign keys an index mentions. */
  ghost predicate Mentions(index: FKIndex, fk: Option<ForeignKey>) {
    exists l | l in index :: RowMentions(index[l], fk)
  }

  ghost predicate RowMentions(row: map<string, seq<Option<ForeignKey>>>, fk: Option<ForeignKey>) {
    exists r | r in row :: fk in row[r]
  }

  predicate EndOk(c: ColumnBase, first: ColumnBase) {
    c.table != "" && c.name != "" && c.table == first.table && c.schema == first.schema
  }

  /** Both ends of every pair are named and stay on the first pair's two tables. */
  predicate FKOk(fk: Option<ForeignKey>) {
    ValidForeignKey(fk) && forall p | p in fk.value.pairs ::
      EndOk(p.left.value, fk.value.pairs[0].left.value) && EndOk(p.right.value, fk.value.pairs[0].right.value)
  }

  function LeftEnd(fk: ForeignKey): ColumnBase
    requires FKOk(Some(fk))
  {
    assert fk.pairs[0] in fk.pairs;
    fk.pairs[0].left.value
  }

  function RightEnd(fk: ForeignKey): ColumnBase
    requires FKOk(Some(fk))
  {
    assert fk.pairs[0] in fk.pairs;
    fk.pairs[0].right.value
  }

  predicate Involved(owners: seq<ObjectID>, fk: ForeignKey)
    requires FKOk(Some(fk))
  {
    TableID(LeftEnd(fk).schema, LeftEnd(fk).table) in owners || TableID(RightEnd(fk).schema, RightEnd(fk).table) in owners
  }

  predicate FKGone(deleted: set<ObjectID>, fk: ForeignKey)
    requires FKOk(Some(fk))
  {
    RelationDeleted(deleted, LeftEnd(fk).schema, LeftEnd(fk).table) || RelationDeleted(deleted, RightEnd(fk).schema, RightEnd(fk).table)
  }

  predicate FKTouched(d: ObjectDelta, deleted: set<ObjectID>) {
    ForeignKeys in d.owners || AnyRelation(deleted)
  }

  function PatchFKs(d: ObjectDelta): FKIndex {
    if ForeignKeys in d.owners && ForeignKeys in d.patches && d.patches[ForeignKeys].cache.Some?
    then Rows(d.patches[ForeignKeys].cache.value.foreignKeys) else map[]
  }

  ghost predicate FKMergeable(base: Cache, d: ObjectDelta, deleted: set<ObjectID>) {
    FKTouched(d, deleted) ==>
      && (forall fk | Mentions(Rows(base.foreignKeys), fk) :: FKOk(fk))
      && (ForeignKeys in d.owners ==>
            && ForeignKeys in d.patches && d.patches[ForeignKeys].cache.Some? && d.patches[ForeignKeys].cache.value.foreignKeys.Some?
            && forall fk | Mentions(PatchFKs(d), fk) ::
                 FKOk(fk) && Involved(OwnersOf(d, ForeignKeys), fk.value) && !FKGone(deleted, fk.value))
  }

  function CopyFK(fk: ForeignKey): ForeignKey {
    fk.(address := CopyOf(fk.address))
  }

  /** The keys that remain: base keys on neither an owned nor a deleted table, and the patch's copies. */
  ghost predicate RemainingFK(base: Cache, d: ObjectDelta, deleted: set<ObjectID>, fk: ForeignKey) {
    || (Mentions(Rows(base.foreignKeys), Some(fk)) && FKOk(Some(fk)) && !Involved(OwnersOf(d, ForeignKeys), fk) && !FKGone(deleted, fk))
    || (exists p: ForeignKey :: Mentions(PatchFKs(d), Some(p)) && fk == CopyFK(p))
  }

  function FKColumnKey(c: Option<ColumnBase>): string {
    if c.None? then "" else Key(ObjectID("", c.value.schema, c.value.table, COLUMN, c.value.name, ""))
  }

  /** watchFKKey: the column identities of every pair, in order. */
  function FKSortKey(pairs: seq<Pair>): string {
    if pairs == [] then "" else
      FKSortKey(pairs[..|pairs| - 1]) + FKColumnKey(pairs[|pairs| - 1].left) + FKColumnKey(pairs[|pairs| - 1].right)
  }

  predicate FKLess(a: ForeignKey, b: ForeignKey) {
    StringLess(FKSortKey(a.pairs), FKSortKey(b.pairs))
  }

  function Filed(m: FKIndex, l: string, r: string, fk: ForeignKey): FKIndex {
    var row := if l in m then m[l] else map[];
    m[l := row[r := (if r in row then row[r] else []) + [Some(fk)]]]
  }

  /** Every key filed under its left and right table and again under its right and left table. */
  function FKIndexOf(n: Names, fks: seq<ForeignKey>): FKIndex
    requires forall fk | fk in fks :: FKOk(Some(fk))
  {
    if fks == [] then map[] else
      var fk := fks[|fks| - 1];
      assert fk in fks;
      var m := FKIndexOf(n, fks[..|fks| - 1]);
      var l := ColumnDatabaseKey(n, LeftEnd(fk).schema, LeftEnd(fk).table);
      var r := ColumnDatabaseKey(n, RightEnd(fk).schema, RightEnd(fk).table);
      Filed(Filed(m, l, r, fk), r, l, fk)
  }

  /** `index` is the two-way index of the keys `order`, listed once each in watchFKKey order. */
  ghost predicate IndexesFKs(n: Names, index: FKIndex, order: seq<ForeignKey>) {
    && (forall fk | fk in order :: FKOk(Some(fk)))
    && Distinct(order) && Sorted(order, FKLess)
    && index == FKIndexOf(n, order)
  }

  ghost predicate FKMerged(n: Names, base: Cache, d: ObjectDelta, deleted: set<ObjectID>, next: Option<FKIndex>) {
    if !FKTouched(d, deleted) then next == base.foreignKeys else
      next.Some? && exists order: seq<ForeignKey> ::
        IndexesFKs(n, next.value, order) && forall fk :: fk in order <==> RemainingFK(base, d, deleted, fk)
  }

  /** Copies are new objects: no published key has the address a copied patch key gets. */
  ghost predicate CopiesAreFresh(base: Cache, d: ObjectDelta) {
    forall p: ForeignKey, fk: ForeignKey | Mentions(PatchFKs(d), Some(p)) && Mentions(Rows(base.foreignKeys), Some(fk)) ::
      fk.address != CopyOf(p.address)
  }

  // ----- the dependency graph (mergeWatchDependencies)

  predicate ValidRef(r: DependencyRef) {
    r.name != "" && (if r.kind == COLUMN || r.kind == CONSTRAINT then r.parent != "" else DescriptorKind(r.kind) && r.parent == "")
  }

  predicate RefGoneBy(id: ObjectID, r: DependencyRef) {
    && id.schema == ""
    && (|| (r.kind == id.kind && r.name == id.name)
        || (r.parent == id.name && IsRelation(id))
        || (id.kind == VIEW && r.kind == TABLE && r.name == id.name))
  }

  predicate RefGone(deleted: set<ObjectID>, r: DependencyRef) {
    exists id | id in deleted :: RefGoneBy(id, r)
  }

  predicate DependenciesAsked(d: ObjectDelta) {
    d.dependencyOwners != [] || d.dependencyEdges != [] || d.checkNames != map[]
  }

  predicate DependenciesTouched(base: Cache, d: ObjectDelta, deleted: set<ObjectID>) {
    base.dependencies.Some? && (DependenciesAsked(d) || deleted != {})
  }

  predicate CheckDropped(deleted: set<ObjectID>, relation: string) {
    exists id | id in deleted :: IsRelation(id) && id.name == relation
  }

  function BaseChecks(g: Graph, deleted: set<ObjectID>): map<string, seq<string>> {
    map r | r in g.checks && !CheckDropped(deleted, r) :: g.checks[r]
  }

  /** A check list may be given for a relation that exists after the merge. */
  predicate KnownRelation(g: Graph, deleted: set<ObjectID>, tables: map<string, seq<string>>, systemRelations: DescMap, relation: string) {
    || relation in SchemaRows(tables, "")
    || relation in BaseChecks(g, deleted)
    || Key(TableID("", relation)) in systemRelations
  }

  predicate DependenciesMergeable(base: Cache, d: ObjectDelta, deleted: set<ObjectID>, tables: map<string, seq<string>>, systemRelations: DescMap) {
    && (base.dependencies.None? ==> !DependenciesAsked(d))
    && (DependenciesTouched(base, d, deleted) ==>
          && (forall id | id in deleted && id.schema != "" :: base.dependencies.value.edges == [] && base.dependencies.value.checks == map[])
          && (forall r | r in d.dependencyOwners :: ValidRef(r)) && Distinct(d.dependencyOwners)
          && (forall e | e in d.dependencyEdges :: ValidRef(e.from) && ValidRef(e.to) && e.from in d.dependencyOwners &&
                !RefGone(deleted, e.from) && !RefGone(deleted, e.to))
          && (forall r | r in d.checkNames ::
                && r != "" && !RelationDeleted(deleted, "", r)
                && KnownRelation(base.dependencies.value, deleted, tables, systemRelations, r)
                && "" !in d.checkNames[r]))
  }

  predicate KeptEdge(d: ObjectDelta, deleted: set<ObjectID>, e: DependencyEdge) {
    e.from !in d.dependencyOwners && !RefGone(deleted, e.from) && !RefGone(deleted, e.to)
  }

  ghost predicate DependenciesMerged(base: Cache, d: ObjectDelta, deleted: set<ObjectID>, next: Option<Graph>) {
    if !DependenciesTouched(base, d, deleted) then next == base.dependencies else
      && next.Some? && CanonicalGraph(next.value)
      && (forall e :: e in next.value.edges <==> e in d.dependencyEdges || (e in base.dependencies.value.edges && KeptEdge(d, deleted, e)))
      && (var checks := BaseChecks(base.dependencies.value, deleted) + d.checkNames;
          next.value.checks.Keys == checks.Keys && forall r | r in checks :: SortedSet(next.value.checks[r], checks[r]))
  }

  // ----- the whole merge

  /** The table lists after the relation stage, as a set of names. */
  ghost predicate Accepts(n: Names, base: Cache, d: ObjectDelta, all: set<ObjectID>, tables: Option<map<string, seq<string>>>) {
    && DeltaOk(n, d)
    && CatalogMergeable(BaseCatalog(base), d, KnownDeleted(d))
    && RemovalsParse(base, d, KnownDeleted(d))
    && AllDeleted(base, d, KnownDeleted(d), all)
    && RelationsMergeable(base, d, all)
    && RelationsMerged(base, d, all, tables)
    && ColumnsMergeable(n, base, d, all)
    && FKMergeable(base, d, all)
    && DependenciesMergeable(base, d, all, Rows(tables), Rows(NextExact(BaseCatalog(base), d, KnownDeleted(d), SystemRelations)))
  }

  /** `next` is a merge of `d` into `base`, through the intermediate caches `mid` and `full`. */
  ghost predicate MergedVia(n: Names, base: Cache, d: ObjectDelta, all: set<ObjectID>, mid: Cache, full: Cache, next: Cache) {
    && Accepts(n, base, d, all, mid.schemaTables)
    && mid.catalog.Some? && CatalogMerged(n, BaseCatalog(base), d, KnownDeleted(d), mid.catalog.value)
    && mid == base.(catalog := mid.catalog, schemaTables := mid.schemaTables)
    && ColumnsMerged(n, base, mid, d, all, full)
    && FKMerged(n, base, d, all, next.foreignKeys)
    && DependenciesMerged(base, d, all, next.dependencies)
    && full.catalog.Some?
    && next == full.(foreignKeys := next.foreignKeys, dependencies := next.dependencies,
                     catalog := if base.catalog.None? && full.catalog.value.objects.None? then None else full.catalog)
  }

  /** `next` is a merge of `d` into `base`, with `all` the identities it deletes. */
  ghost predicate Merged(n: Names, base: Cache, d: ObjectDelta, all: set<ObjectID>, next: Cache) {
    exists mid: Cache, full: Cache :: MergedVia(n, base, d, all, mid, full, next)
  }
}
