/** The neutral catalog models that a metadata generation publishes.

    A nil-able Go map, slice or pointer is an `Option`.  Fields that no modelled code looks at
    are one opaque number, `rest`.  The nine descriptor categories share one record type; what
    differs between them is how a row is identified (`Identify`). */
module CatalogTypes {
  import opened Wrappers
  import opened Identity
  import opened ObjectIndexes

  /** catalog.MetadataKind.  `Other` is any string that names no category. */
  datatype Kind =
    | Schemas | Relations | ColumnsCurrent | ColumnsAll | PrimaryKeys | ForeignKeys
    | Views | Procedures | Generators | Domains | Functions | Indexes | Triggers
    | SystemRelations | Exceptions | Dependencies
    | Other(text: string)

  predicate KnownKind(k: Kind) {
    !k.Other?
  }

  /** The categories whose rows live in a CatalogCache. */
  const DESCRIPTOR_KINDS: seq<Kind> :=
    [Views, Procedures, Generators, Domains, Functions, Indexes, Triggers, SystemRelations, Exceptions]

  predicate Descriptor(k: Kind) {
    HasFoldedMap(k) || k.SystemRelations? || k.Exceptions?
  }

  lemma DescriptorKinds()
    ensures forall k :: k in DESCRIPTOR_KINDS <==> Descriptor(k)
    ensures Distinct(DESCRIPTOR_KINDS)
  {
  }

  /** The categories that also keep a map by folded name. */
  predicate HasFoldedMap(k: Kind) {
    k.Views? || k.Procedures? || k.Generators? || k.Domains? || k.Functions? || k.Indexes? || k.Triggers?
  }

  /** catalog.MetadataState */
  datatype State = Pending | Loading | Ready | Failed | Blocked | Cancelled | Unsupported

  const TABLE := "table"
  const VIEW := "view"
  const PROCEDURE := "procedure"
  const TRIGGER := "trigger"
  const DOMAIN := "domain"
  const GENERATOR := "generator"
  const FUNCTION := "function"
  const EXCEPTION := "exception"
  const COLUMN := "column"
  const CONSTRAINT := "constraint"

  /** An identity in the form schema-less engines use. */
  function PlainID(kind: string, schema: string, name: string): ObjectID {
    ObjectID("", schema, "", kind, name, "")
  }

  function TableID(schema: string, name: string): ObjectID {
    PlainID(TABLE, schema, name)
  }

  datatype Column = Column(schema: string, table: string, name: string, key: string, rest: int)

  type Columns = seq<Option<Column>>

  /** A procedure parameter or a function argument. */
  datatype Member = Member(name: string, position: int, owner: string, rest: int)

  /** One row of a descriptor category.  `relation` is the table of an index or trigger. */
  datatype Desc = Desc(schema: string, name: string, relation: Option<string>, columns: Option<Columns>,
                       members: seq<Option<Member>>, rest: int)

  type DescMap = map<string, Option<Desc>>

  datatype Category = Category(exact: Option<DescMap>, folded: Option<DescMap>)

  datatype CatalogCache = CatalogCache(
    categories: map<Kind, Category>,
    indexesByTable: Option<map<string, seq<Option<Desc>>>>,
    triggersByTable: Option<map<string, seq<Option<Desc>>>>,
    objects: Option<IndexValue>)

  const EMPTY_CATALOG := CatalogCache(map[], None, None, None)

  datatype ColumnBase = ColumnBase(schema: string, table: string, name: string)

  datatype Pair = Pair(left: Option<ColumnBase>, right: Option<ColumnBase>)

  /** The address of a foreign key: published keys are compared by pointer. */
  datatype Address = Allocated(n: nat) | CopyOf(original: Address)

  datatype ForeignKey = ForeignKey(address: Address, pairs: seq<Pair>)

  type FKIndex = map<string, map<string, seq<Option<ForeignKey>>>>

  datatype DependencyRef = DependencyRef(kind: string, name: string, parent: string)

  datatype DependencyEdge = DependencyEdge(from: DependencyRef, to: DependencyRef, field: string)

  datatype Graph = Graph(edges: seq<DependencyEdge>, uses: map<string, seq<nat>>, usedBy: map<string, seq<nat>>,
                         checks: map<string, seq<string>>)

  datatype Cache = Cache(
    defaultSchema: string,
    schemas: Option<map<string, string>>,
    schemaTables: Option<map<string, seq<string>>>,
    columnsWithParent: Option<map<string, Columns>>,
    columnsByID: Option<map<string, Columns>>,
    foreignKeys: Option<FKIndex>,
    metadata: map<Kind, State>,
    primaryKeyColumns: Option<map<string, set<string>>>,
    primaryKeysByID: Option<map<string, seq<string>>>,
    catalog: Option<CatalogCache>,
    dependencies: Option<Graph>)

  /** One job's fragment and accounting. */
  datatype Patch = Patch(cache: Option<Cache>, count: int, queries: int)

  /** Reading a nil map reads an empty one. */
  function Rows<K, V>(m: Option<map<K, V>>): map<K, V> {
    if m.Some? then m.value else map[]
  }

  function CategoryIn(cs: map<Kind, Category>, k: Kind): Category {
    if k in cs then cs[k] else Category(None, None)
  }

  function CategoryOf(c: CatalogCache, k: Kind): Category {
    CategoryIn(c.categories, k)
  }

  function ExactRows(c: CatalogCache, k: Kind): DescMap {
    Rows(CategoryOf(c, k).exact)
  }

  function FoldedRows(c: CatalogCache, k: Kind): DescMap {
    Rows(CategoryOf(c, k).folded)
  }

  predicate MetadataReady(c: Cache, k: Kind) {
    k in c.metadata && c.metadata[k] == Ready
  }

  predicate ColumnsReady(c: Cache) {
    MetadataReady(c, ColumnsCurrent) || MetadataReady(c, ColumnsAll)
  }

  /** The Unicode case tables: strings.ToUpper, strings.TrimSpace and strings.EqualFold. */
  datatype Names = Names(upper: string -> string, trim: string -> string, equalFold: (string, string) -> bool)

  function CacheKey(n: Names, name: string): string {
    n.upper(n.trim(name))
  }

  function ColumnDatabaseKey(n: Names, schema: string, table: string): string {
    n.upper(schema) + "\t" + n.upper(table)
  }

  /** The identity of a row, and the relation it hangs on ("" for none). */
  function Identify(k: Kind, d: Desc): (ObjectID, string) {
    match k
    case Views => (PlainID(VIEW, d.schema, d.name), "")
    case Procedures => (PlainID(PROCEDURE, d.schema, d.name), "")
    case Generators => (PlainID(GENERATOR, d.schema, d.name), "")
    case Domains => (PlainID(DOMAIN, d.schema, d.name), "")
    case Functions => (PlainID(FUNCTION, d.schema, d.name), "")
    case Indexes => var rel := if d.relation.Some? then d.relation.value else ""; (IndexObjectID(d.schema, rel, d.name), rel)
    case Triggers => (PlainID(TRIGGER, d.schema, d.name), if d.relation.Some? then d.relation.value else "")
    case SystemRelations => (TableID(d.schema, d.name), "")
    case _ => (PlainID(EXCEPTION, d.schema, d.name), "")
  }

  function IdentityOf(k: Kind, d: Desc): ObjectID {
    Identify(k, d).0
  }

  /** catalog.ValidateForeignKey */
  predicate ValidForeignKey(key: Option<ForeignKey>) {
    key.Some? && key.value.pairs != [] && forall p | p in key.value.pairs :: p.left.Some? && p.right.Some?
  }
}
