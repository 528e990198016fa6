/** The semantic catalog over progressive snapshots: what is known about a name is never taken back. */
module SemanticKnowledge {
  import opened Wrappers
  import opened Identity
  import opened CatalogTypes
  import opened WatchSpec
  import opened CatalogMerge

  /** sqlsymbol.Name: its key, and whether it was quoted. */
  datatype Name = Name(key: string, quoted: bool)

  datatype Knowledge = Unknown | Present | Missing

  /** The part of a published snapshot that the semantic catalog looks at. */
  datatype Snapshot = Snapshot(stale: bool, status: map<Kind, State>, cache: Option<Cache>)

  predicate CategoryReady(s: Snapshot, k: Kind) {
    !s.stale && s.cache.Some? && if k in s.status then s.status[k] == Ready else MetadataReady(s.cache.value, k)
  }

  predicate DiagnosticSystemName(name: Name) {
    |name.key| >= 4 && (name.key[..4] == "RDB$" || name.key[..4] == "MON$")
  }

  /** What a lookup by exact and then by folded name gives. */
  datatype Found = NotFound | Ambiguous | Exactly(desc: Desc)

  /** exactView and exactProcedure: an exact entry decides, else a folded one of the same spelling; a
      folded one of another spelling is ambiguous for a quoted name. */
  function ExactObject(n: Names, c: Cache, k: Kind, kind: string, name: Name): Found {
    var exact, folded, at := ExactRows(Header(c), k), FoldedRows(Header(c), k), Key(PlainID(kind, "", name.key));
    if at in exact && exact[at].Some? then
      if exact[at].value.name == name.key then Exactly(exact[at].value) else Ambiguous
    else if CacheKey(n, name.key) !in folded || folded[CacheKey(n, name.key)].None? then NotFound
    else if folded[CacheKey(n, name.key)].value.name == name.key then Exactly(folded[CacheKey(n, name.key)].value)
    else if name.quoted then Ambiguous
    else NotFound
  }

  /** exactRelationListed */
  predicate RelationListed(c: Cache, name: Name) {
    var tables := Rows(c.schemaTables);
    c.defaultSchema in tables && name.key in tables[c.defaultSchema]
  }

  function RelationInfo(n: Names, s: Snapshot, name: Name): Knowledge {
    if s.stale || s.cache.None? || DiagnosticSystemName(name) then Unknown else
      var c := s.cache.value;
      var view := if CategoryReady(s, Views) then ExactObject(n, c, Views, VIEW, name) else NotFound;
      var listed := RelationListed(c, name) && CategoryReady(s, Relations);
      if view.Exactly? then Present
      else if view.Ambiguous? then if listed then Present else Unknown
      else if listed then Present
      else if !CategoryReady(s, Relations) || !CategoryReady(s, Views) || !CategoryReady(s, Procedures) then Unknown
      else if ProcedureInfo(n, s, name).0 != Missing then Unknown
      else Missing
  }

  /** The knowledge, and the descriptor that the fact is made of. */
  function ProcedureInfo(n: Names, s: Snapshot, name: Name): (Knowledge, Option<Desc>) {
    if s.stale || s.cache.None? || DiagnosticSystemName(name) then (Unknown, None)
    else if !CategoryReady(s, Procedures) || s.cache.value.catalog.None? then (Unknown, None)
    else
      match ExactObject(n, s.cache.value, Procedures, PROCEDURE, name)
      case Ambiguous => (Unknown, None)
      case NotFound => (Missing, None)
      case Exactly(d) => (Present, Some(d))
  }

  function DomainInfo(n: Names, s: Snapshot, name: Name): (Knowledge, Option<Desc>) {
    if s.stale || s.cache.None? || DiagnosticSystemName(name) then (Unknown, None)
    else if !CategoryReady(s, Domains) || s.cache.value.catalog.None? then (Unknown, None)
    else
      var exact, folded, at := ExactRows(Header(s.cache.value), Domains), FoldedRows(Header(s.cache.value), Domains), Key(PlainID(DOMAIN, "", name.key));
      if at in exact then
        if exact[at].None? || exact[at].value.name != name.key then (Unknown, None) else (Present, exact[at])
      else if CacheKey(n, name.key) !in folded || folded[CacheKey(n, name.key)].None? then (Missing, None)
      else if folded[CacheKey(n, name.key)].value.name == name.key then (Present, folded[CacheKey(n, name.key)])
      else if name.quoted then (Unknown, None)
      else (Missing, None)
  }

  // ----- the snapshots of one generation

  datatype Step =
    | Merge(kind: Kind, patch: Patch, next: Cache)   // a category becomes ready, with its merged cache
    | Change(kind: Kind, state: State)               // any other change of a category's status

  /** A category that is ready stays so, and is merged once. */
  ghost predicate Follows(n: Names, s: Snapshot, step: Step) {
    && s.cache.Some? && step.kind in s.status && s.status[step.kind] != Ready
    && match step
       case Merge(k, p, next) => MergedFrom(n, s.cache.value, k, p, next)
       case Change(_, state) => state != Ready
  }

  function After(s: Snapshot, step: Step): Snapshot {
    match step
    case Merge(k, _, next) => s.(status := s.status[k := Ready], cache := Some(next))
    case Change(k, state) => s.(status := s.status[k := state])
  }

  /** The catalog has one schema, the empty one. */
  predicate SchemaLess(step: Step) {
    step.Merge? && step.kind == Schemas && step.patch.cache.Some? ==> step.patch.cache.value.defaultSchema == ""
  }

  predicate Firm(k: Knowledge) {
    k == Present || k == Missing
  }

  /** A merge leaves every other category as it was. */
  lemma CategoryStays(n: Names, c: Cache, k: Kind, p: Patch, next: Cache, j: Kind)
    requires MergedFrom(n, c, k, p, next) && Descriptor(j) && j != k
    ensures CategoryOf(Header(next), j) == CategoryOf(Header(c), j)
  {
    hide DerivedOnce, PlainMerged, Plain, Mergeable;
    MergeableFacts(k, p);
    NoOtherCatalog(n, c, k, p.cache.value, next);
    MergedHeader(n, c, k, p.cache, next);
  }

  lemma NoOtherCatalog(n: Names, c: Cache, k: Kind, f: Cache, next: Cache)
    requires DerivedOnce(n, c, k, f, next)
    ensures !Descriptor(k) ==> next.catalog == c.catalog
  {
    hide IndexesRows, IndexGroupsFrom, TriggerGroupsFrom;
  }

  lemma MergedHeader(n: Names, c: Cache, k: Kind, f: Option<Cache>, next: Cache)
    requires f.Some? && Plain(next) == PlainMerged(n, c, k, f.value) && (!Descriptor(k) ==> next.catalog == c.catalog)
    ensures Header(next).categories == if Descriptor(k) then Header(c).categories[k := CategoryFrom(k, f.value)] else Header(c).categories
  {
    hide WithColumns, WithKeys, CategoryFrom;
    assert Header(Plain(next)).categories == Header(next).categories;
  }

  lemma RestStays(n: Names, c: Cache, k: Kind, p: Patch, next: Cache)
    requires MergedFrom(n, c, k, p, next)
    ensures k != Relations ==> next.schemaTables == c.schemaTables
    ensures next.defaultSchema == if k == Schemas then p.cache.value.defaultSchema else c.defaultSchema
    ensures c.catalog.Some? ==> next.catalog.Some?
    ensures forall j | j != k :: MetadataReady(next, j) <==> MetadataReady(c, j)
  {
    hide IndexesRows, IndexGroupsFrom, TriggerGroupsFrom, Enriched, CategoryFrom, Mergeable;
    assert Plain(next).catalog.Some? <==> next.catalog.Some?;
  }

  lemma ReadyStays(n: Names, s: Snapshot, step: Step, k: Kind)
    requires Follows(n, s, step) && CategoryReady(s, k)
    ensures CategoryReady(After(s, step), k) && k != step.kind
  {
    hide MergedFrom;
    if step.Merge? { MergedReady(n, s.cache.value, step.kind, step.patch, step.next, k); }
  }

  lemma MergedReady(n: Names, c: Cache, k: Kind, p: Patch, next: Cache, j: Kind)
    requires MergedFrom(n, c, k, p, next) && j != k
    ensures MetadataReady(next, j) <==> MetadataReady(c, j)
  {
    RestStays(n, c, k, p, next);
  }

  /** While a category is ready, lookups in it give what they gave. */
  lemma ObjectStays(n: Names, s: Snapshot, step: Step, k: Kind, kind: string, name: Name)
    requires Follows(n, s, step) && Descriptor(k) && CategoryReady(s, k)
    ensures ExactObject(n, After(s, step).cache.value, k, kind, name) == ExactObject(n, s.cache.value, k, kind, name)
    ensures s.cache.value.catalog.Some? ==> After(s, step).cache.value.catalog.Some?
  {
    hide MergedFrom, ExactObject;
    ReadyStays(n, s, step, k);
    if step.Merge? {
      CategoryStays(n, s.cache.value, step.kind, step.patch, step.next, k);
      RestStays(n, s.cache.value, step.kind, step.patch, step.next);
      SameLookup(n, s.cache.value, step.next, k, kind, name);
    }
  }

  lemma SameLookup(n: Names, a: Cache, b: Cache, k: Kind, kind: string, name: Name)
    requires CategoryOf(Header(a), k) == CategoryOf(Header(b), k)
    ensures ExactObject(n, a, k, kind, name) == ExactObject(n, b, k, kind, name)
  {
    hide Key;
  }

  /** What is known of a procedure, and the descriptor that says it, stay. */
  lemma ProcedureStays(n: Names, s: Snapshot, step: Step, name: Name)
    requires Follows(n, s, step) && Firm(ProcedureInfo(n, s, name).0)
    ensures ProcedureInfo(n, After(s, step), name) == ProcedureInfo(n, s, name)
  {
    hide MergedFrom, ExactObject;
    ReadyStays(n, s, step, Procedures);
    ObjectStays(n, s, step, Procedures, PROCEDURE, name);
  }

  lemma DomainStays(n: Names, s: Snapshot, step: Step, name: Name)
    requires Follows(n, s, step) && Firm(DomainInfo(n, s, name).0)
    ensures DomainInfo(n, After(s, step), name) == DomainInfo(n, s, name)
  {
    hide MergedFrom;
    ReadyStays(n, s, step, Domains);
    if step.Merge? {
      CategoryStays(n, s.cache.value, step.kind, step.patch, step.next, Domains);
      RestStays(n, s.cache.value, step.kind, step.patch, step.next);
    }
  }

  predicate SameDefault(s: Snapshot, t: Snapshot) {
    s.cache.Some? && t.cache.Some? && s.cache.value.defaultSchema == t.cache.value.defaultSchema
  }

  lemma ListingStays(n: Names, s: Snapshot, step: Step, name: Name)
    requires Follows(n, s, step) && CategoryReady(s, Relations) && SameDefault(s, After(s, step))
    ensures RelationListed(After(s, step).cache.value, name) <==> RelationListed(s.cache.value, name)
  {
    hide MergedFrom;
    ReadyStays(n, s, step, Relations);
    if step.Merge? {
      RestStays(n, s.cache.value, step.kind, step.patch, step.next);
    }
  }

  /** What is known of a relation stays, as long as the default schema does. */
  lemma RelationStays(n: Names, s: Snapshot, step: Step, name: Name)
    requires Follows(n, s, step) && Firm(RelationInfo(n, s, name)) && SameDefault(s, After(s, step))
    ensures RelationInfo(n, After(s, step), name) == RelationInfo(n, s, name)
  {
    hide Follows, ExactObject, CategoryReady, ProcedureInfo, RelationListed, After;
    SnapshotStays(n, s, step);
    forall k: Kind | CategoryReady(s, k) ensures CategoryReady(After(s, step), k) { ReadyStays(n, s, step, k); }
    if CategoryReady(s, Views) { ObjectStays(n, s, step, Views, VIEW, name); }
    if CategoryReady(s, Relations) { ListingStays(n, s, step, name); }
    if ProcedureInfo(n, s, name).0 == Missing { ProcedureStays(n, s, step, name); }
  }

  lemma SnapshotStays(n: Names, s: Snapshot, step: Step)
    requires Follows(n, s, step)
    ensures After(s, step).stale == s.stale && s.cache.Some? && After(s, step).cache.Some?
  {
  }

  // ----- a whole generation

  ghost predicate CanRun(n: Names, s: Snapshot, steps: seq<Step>)
    decreases |steps|
  {
    steps == [] || (Follows(n, s, steps[0]) && SchemaLess(steps[0]) && CanRun(n, After(s, steps[0]), steps[1..]))
  }

  function AfterAll(s: Snapshot, steps: seq<Step>): Snapshot
    decreases |steps|
  {
    if steps == [] then s else AfterAll(After(s, steps[0]), steps[1..])
  }

  lemma DefaultStays(n: Names, s: Snapshot, step: Step)
    requires Follows(n, s, step) && SchemaLess(step) && s.cache.value.defaultSchema == ""
    ensures After(s, step).cache.Some? && After(s, step).cache.value.defaultSchema == ""
  {
    if step.Merge? {
      RestStays(n, s.cache.value, step.kind, step.patch, step.next);
    }
  }

  /** Knowledge never retracts.  Within one generation of a schema-less catalog, a Present or Missing
      answer is the answer of every later snapshot that is not stale, in whatever order categories
      are merged. */
  lemma {:induction false} NeverRetracts(n: Names, s: Snapshot, steps: seq<Step>, name: Name)
    requires CanRun(n, s, steps) && s.cache.Some? && s.cache.value.defaultSchema == ""
    ensures Firm(RelationInfo(n, s, name)) ==> RelationInfo(n, AfterAll(s, steps), name) == RelationInfo(n, s, name)
    ensures Firm(ProcedureInfo(n, s, name).0) ==> ProcedureInfo(n, AfterAll(s, steps), name) == ProcedureInfo(n, s, name)
    ensures Firm(DomainInfo(n, s, name).0) ==> DomainInfo(n, AfterAll(s, steps), name) == DomainInfo(n, s, name)
    decreases |steps|
  {
    hide RelationInfo, ProcedureInfo, DomainInfo, Follows, After, SchemaLess;
    if steps != [] {
      var next := After(s, steps[0]);
      DefaultStays(n, s, steps[0]);
      if Firm(RelationInfo(n, s, name)) { RelationStays(n, s, steps[0], name); }
      if Firm(ProcedureInfo(n, s, name).0) { ProcedureStays(n, s, steps[0], name); }
      if Firm(DomainInfo(n, s, name).0) { DomainStays(n, s, steps[0], name); }
      NeverRetracts(n, next, steps[1..], name);
    }
  }

  // ----- the default schema matters

  /** Listed under the default schema that a patch brings. */
  predicate ListedUnder(c: Cache, patch: Patch, name: Name)
    requires patch.cache.Some?
  {
    RelationListed(c.(defaultSchema := patch.cache.value.defaultSchema), name)
  }

  /** A view of exactly this name is known, whatever is listed. */
  predicate ViewDecides(n: Names, s: Snapshot, name: Name)
    requires s.cache.Some?
  {
    CategoryReady(s, Views) && ExactObject(n, s.cache.value, Views, VIEW, name).Exactly?
  }

  /** With schemas it is otherwise.  When the schemas, and with them the default schema, arrive, a Missing
      relation stays missing exactly when it is not listed under the new default, and is present
      otherwise; a Present one stays present exactly when it is listed there, or a view decides. */
  lemma DefaultSchemaRetracts(n: Names, s: Snapshot, patch: Patch, next: Cache, name: Name)
    requires Follows(n, s, Merge(Schemas, patch, next)) && patch.cache.Some?
    ensures RelationInfo(n, s, name) == Missing ==>
              RelationInfo(n, After(s, Merge(Schemas, patch, next)), name) == if ListedUnder(s.cache.value, patch, name) then Present else Missing
    ensures RelationInfo(n, s, name) == Present ==>
              (RelationInfo(n, After(s, Merge(Schemas, patch, next)), name) == Present <==>
               ViewDecides(n, s, name) || ListedUnder(s.cache.value, patch, name))
  {
    var step := Merge(Schemas, patch, next);
    hide MergedFrom, ExactObject, ProcedureInfo;
    SchemasKeep(n, s, step);
    if CategoryReady(s, Views) { ObjectStays(n, s, step, Views, VIEW, name); }
    if Firm(ProcedureInfo(n, s, name).0) { ProcedureStays(n, s, step, name); }
    RestStays(n, s.cache.value, Schemas, patch, next);
  }

  /** No other category becomes ready. */
  lemma SchemasKeep(n: Names, s: Snapshot, step: Step)
    requires Follows(n, s, step) && step.Merge? && step.kind == Schemas
    ensures forall k: Kind | k != Schemas :: CategoryReady(After(s, step), k) <==> CategoryReady(s, k)
  {
    hide MergedFrom;
    forall k: Kind | k != Schemas ensures CategoryReady(After(s, step), k) <==> CategoryReady(s, k) {
      MergedReady(n, s.cache.value, step.kind, step.patch, step.next, k);
    }
  }

  // ----- inputs for both

  const LOADED: map<Kind, State> := map[Schemas := Loading, Relations := Ready, Views := Ready, Procedures := Ready]

  /** A catalog that lists one table under a schema, before its schemas are known. */
  function ListingSnapshot(schema: string): Snapshot {
    Snapshot(false, LOADED, Some(Cache("", None, Some(map[schema := ["T"]]), None, None, None, map[], None, None, Some(EMPTY_CATALOG), None)))
  }

  /** The schemas arrive: their default is "S". */
  const SCHEMAS_PATCH :=
    Patch(Some(Cache("S", Some(map["S" := "S"]), None, None, None, None, map[], None, None, None, None)), 1, 1)

  function WithSchemas(c: Cache): Cache {
    c.(defaultSchema := "S", schemas := Some(map["S" := "S"]), metadata := c.metadata[Schemas := Ready])
  }

  lemma SchemasArrive(n: Names, schema: string)
    ensures var s := ListingSnapshot(schema); Follows(n, s, Merge(Schemas, SCHEMAS_PATCH, WithSchemas(s.cache.value)))
  {
    var c := ListingSnapshot(schema).cache.value;
    assert Mergeable(Schemas, SCHEMAS_PATCH);
    assert Plain(WithSchemas(c)) == PlainMerged(n, c, Schemas, SCHEMAS_PATCH.cache.value);
  }

  lemma NothingElse(n: Names, schema: string)
    ensures ProcedureInfo(n, ListingSnapshot(schema), Name("T", false)).0 == Missing
    ensures !ViewDecides(n, ListingSnapshot(schema), Name("T", false))
    ensures RelationInfo(n, ListingSnapshot(schema), Name("T", false)) == if schema == "" then Present else Missing
  {
  }

  /** A table listed under "S" is missing, and then present. */
  lemma MissingAppears(n: Names) returns (s: Snapshot, next: Cache)
    ensures Follows(n, s, Merge(Schemas, SCHEMAS_PATCH, next))
    ensures RelationInfo(n, s, Name("T", false)) == Missing && RelationInfo(n, After(s, Merge(Schemas, SCHEMAS_PATCH, next)), Name("T", false)) == Present
  {
    hide RelationInfo, Follows, After, ViewDecides;
    s, next := ListingSnapshot("S"), WithSchemas(ListingSnapshot("S").cache.value);
    SchemasArrive(n, "S");
    NothingElse(n, "S");
    DefaultSchemaRetracts(n, s, SCHEMAS_PATCH, next, Name("T", false));
  }

  /** A table listed under "" is present, and then no longer. */
  lemma PresentVanishes(n: Names) returns (s: Snapshot, next: Cache)
    ensures Follows(n, s, Merge(Schemas, SCHEMAS_PATCH, next))
    ensures RelationInfo(n, s, Name("T", false)) == Present && RelationInfo(n, After(s, Merge(Schemas, SCHEMAS_PATCH, next)), Name("T", false)) != Present
  {
    hide RelationInfo, Follows, After, ViewDecides;
    s, next := ListingSnapshot(""), WithSchemas(ListingSnapshot("").cache.value);
    SchemasArrive(n, "");
    NothingElse(n, "");
    DefaultSchemaRetracts(n, s, SCHEMAS_PATCH, next, Name("T", false));
  }
}
