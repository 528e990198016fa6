/** What the answers of the semantic catalog say about a canonical, schema-less catalog. */
module SemanticAnswers {
  import opened Wrappers
  import opened Identity
  import opened CatalogTypes
  import opened WatchSpec
  import opened WatchCanonical
  import opened CatalogMerge
  import opened SemanticKnowledge

  /** Some exact row has exactly this name. */
  ghost predicate HasRow(c: Cache, k: Kind, name: Name) {
    exists key | key in ExactRows(Header(c), k) :: NamedRow(ExactRows(Header(c), k)[key], name)
  }

  predicate NamedRow(v: Option<Desc>, name: Name) {
    v.Some? && v.value.name == name.key
  }

  /** Some exact row folds like this name. */
  ghost predicate HasFold(n: Names, c: Cache, k: Kind, name: Name) {
    exists key | key in ExactRows(Header(c), k) :: FoldsLike(n, ExactRows(Header(c), k)[key], name)
  }

  predicate FoldsLike(n: Names, v: Option<Desc>, name: Name) {
    v.Some? && CacheKey(n, v.value.name) == CacheKey(n, name.key)
  }

  /** A snapshot that can answer about category `k`: it is not stale, and the category is there, canonical. */
  ghost predicate Answers(n: Names, s: Snapshot, k: Kind) {
    && !s.stale && s.cache.Some? && CategoryReady(s, k)
    && CanonicalCategory(n, k, CategoryOf(Header(s.cache.value), k))
  }

  /** The three outcomes of a lookup: a row of exactly the name; for a quoted name, a row that merely folds
      like it, which may hide one that the folded map cannot show; or nothing. */
  ghost predicate LooksUp(n: Names, c: Cache, k: Kind, name: Name, known: Knowledge, row: Option<Desc>) {
    && (known == Present <==> HasRow(c, k, name))
    && (known == Present ==> row.Some? && row.value.name == name.key && row in ExactRows(Header(c), k).Values)
    && (known == Unknown <==> !HasRow(c, k, name) && name.quoted && HasFold(n, c, k, name))
    && (known != Present ==> row.None?)
  }

  /** Where an exact row of a name is filed. */
  lemma RowOfName(k: Kind, kind: string, rows: DescMap, name: Name, key: string)
    requires PlainRows(k, rows) && key in rows && NamedRow(rows[key], name) && forall v: Desc :: IdentityOf(k, v) == PlainID(kind, v.schema, v.name)
    ensures key == Key(PlainID(kind, "", name.key))
  {
    assert PlainRow(k, key, rows[key]);
  }

  lemma RowAtName(k: Kind, kind: string, rows: DescMap, name: Name)
    requires PlainRows(k, rows) && Key(PlainID(kind, "", name.key)) in rows && forall v: Desc :: IdentityOf(k, v) == PlainID(kind, v.schema, v.name)
    ensures NamedRow(rows[Key(PlainID(kind, "", name.key))], name)
  {
    var at := Key(PlainID(kind, "", name.key));
    assert PlainRow(k, at, rows[at]);
    KeyInjective(PlainID(kind, "", name.key), IdentityOf(k, rows[at].value));
  }

  lemma FiledUnderName(c: Cache, k: Kind, kind: string, name: Name)
    requires PlainRows(k, ExactRows(Header(c), k)) && forall v: Desc :: IdentityOf(k, v) == PlainID(kind, v.schema, v.name)
    ensures var exact, at := ExactRows(Header(c), k), Key(PlainID(kind, "", name.key));
            && (at in exact <==> HasRow(c, k, name))
            && (at in exact ==> NamedRow(exact[at], name))
  {
    hide Key, IdentityOf, PlainRows, NamedRow, Header;
    var exact, at := ExactRows(Header(c), k), Key(PlainID(kind, "", name.key));
    if at in exact { RowAtName(k, kind, exact, name); }
    if HasRow(c, k, name) {
      var key :| key in exact && NamedRow(exact[key], name);
      RowOfName(k, kind, exact, name, key);
    }
  }

  lemma FoldedUnderName(n: Names, c: Cache, k: Kind, name: Name)
    requires PlainRows(k, ExactRows(Header(c), k)) && FoldedFrom(n, ExactRows(Header(c), k), FoldedRows(Header(c), k))
    ensures var folded, f := FoldedRows(Header(c), k), CacheKey(n, name.key);
            && (f in folded <==> HasFold(n, c, k, name))
            && (f in folded ==> folded[f].Some? && (NamedRow(folded[f], name) ==> HasRow(c, k, name)) && folded[f] in ExactRows(Header(c), k).Values)
  {
    hide CacheKey, PlainRows, FoldedFrom, Header;
    var exact, folded, f := ExactRows(Header(c), k), FoldedRows(Header(c), k), CacheKey(n, name.key);
    FoldedDomain(n, exact, folded, f);
    if HasFold(n, c, k, name) {
      var key :| key in exact && FoldsLike(n, exact[key], name);
    }
    if f in folded {
      var key := FoldedEntry(n, k, exact, folded, f);
    }
  }

  /** In a canonical category, what is filed under a name and what is folded under it. */
  lemma Filed(n: Names, c: Cache, k: Kind, kind: string, name: Name)
    requires HasFoldedMap(k) && CanonicalCategory(n, k, CategoryOf(Header(c), k)) && forall v: Desc :: IdentityOf(k, v) == PlainID(kind, v.schema, v.name)
    ensures var exact, at := ExactRows(Header(c), k), Key(PlainID(kind, "", name.key));
            && (at in exact <==> HasRow(c, k, name))
            && (at in exact ==> NamedRow(exact[at], name))
    ensures var folded, f := FoldedRows(Header(c), k), CacheKey(n, name.key);
            && (f in folded <==> HasFold(n, c, k, name))
            && (f in folded ==> folded[f].Some? && (NamedRow(folded[f], name) ==> HasRow(c, k, name)))
  {
    hide Key, CacheKey, IdentityOf, Header, PlainRows, FoldedFrom, HasRow, HasFold, NamedRow;
    FiledUnderName(c, k, kind, name);
    FoldedUnderName(n, c, k, name);
  }

  /** Of a domain: present with its row if there is one of exactly this name; unknown if the name is quoted
      and another spelling folds like it; and missing otherwise. */
  lemma DomainAnswer(n: Names, s: Snapshot, name: Name)
    requires Answers(n, s, Domains) && s.cache.value.catalog.Some? && !SystemName(name)
    ensures LooksUp(n, s.cache.value, Domains, name, DomainInfo(n, s, name).0, DomainInfo(n, s, name).1)
  {
    hide Key, CacheKey, CanonicalCategory;
    SystemNames(name);
    Filed(n, s.cache.value, Domains, DOMAIN, name);
  }

  /** Of a procedure: the same. */
  lemma ProcedureAnswer(n: Names, s: Snapshot, name: Name)
    requires Answers(n, s, Procedures) && s.cache.value.catalog.Some? && !SystemName(name)
    ensures LooksUp(n, s.cache.value, Procedures, name, ProcedureInfo(n, s, name).0, ProcedureInfo(n, s, name).1)
  {
    hide Key, CacheKey, CanonicalCategory;
    SystemNames(name);
    Filed(n, s.cache.value, Procedures, PROCEDURE, name);
  }

  /** The relation is listed under the default schema, and the listing is complete. */
  predicate ListedNow(s: Snapshot, name: Name)
    requires s.cache.Some?
  {
    && CategoryReady(s, Relations) && s.cache.value.defaultSchema in Rows(s.cache.value.schemaTables)
    && name.key in Rows(s.cache.value.schemaTables)[s.cache.value.defaultSchema]
  }

  /** The views are complete and one of them has exactly this name. */
  ghost predicate IsView(s: Snapshot, name: Name)
    requires s.cache.Some?
  {
    CategoryReady(s, Views) && HasRow(s.cache.value, Views, name)
  }

  /** The name is quoted, and a view of another spelling folds like it. */
  ghost predicate MayHideView(n: Names, s: Snapshot, name: Name)
    requires s.cache.Some?
  {
    CategoryReady(s, Views) && !HasRow(s.cache.value, Views, name) && name.quoted && HasFold(n, s.cache.value, Views, name)
  }

  /** No procedure of exactly this name, nor, for a quoted name, one that folds like it. */
  ghost predicate NoProcedure(n: Names, s: Snapshot, name: Name)
    requires s.cache.Some?
  {
    && CategoryReady(s, Procedures) && s.cache.value.catalog.Some?
    && !HasRow(s.cache.value, Procedures, name) && !(name.quoted && HasFold(n, s.cache.value, Procedures, name))
  }

  /** Of a relation: present if it is a view or listed; missing if it is neither, everything it could be is
      known, no view may be hidden behind a fold, and no procedure has the name; and unknown otherwise. */
  lemma RelationAnswer(n: Names, s: Snapshot, name: Name)
    requires !s.stale && s.cache.Some? && !SystemName(name)
    requires CategoryReady(s, Views) ==> Answers(n, s, Views)
    requires CategoryReady(s, Procedures) ==> Answers(n, s, Procedures)
    ensures RelationInfo(n, s, name) == Present <==> IsView(s, name) || ListedNow(s, name)
    ensures RelationInfo(n, s, name) == Missing <==>
              && !IsView(s, name) && !ListedNow(s, name) && !MayHideView(n, s, name)
              && CategoryReady(s, Relations) && CategoryReady(s, Views) && NoProcedure(n, s, name)
  {
    hide Key, CacheKey, CanonicalCategory, ProcedureInfo, CategoryReady;
    SystemNames(name);
    if CategoryReady(s, Views) { Filed(n, s.cache.value, Views, VIEW, name); }
    if CategoryReady(s, Procedures) && s.cache.value.catalog.Some? {
      ProcedureAnswer(n, s, name);
    } else {
      NothingOnProcedures(n, s, name);
    }
  }

  lemma NothingOnProcedures(n: Names, s: Snapshot, name: Name)
    requires s.cache.Some? && !(CategoryReady(s, Procedures) && s.cache.value.catalog.Some?)
    ensures ProcedureInfo(n, s, name) == (Unknown, None)
  {
  }

  /** A name that begins with one of the two prefixes. */
  ghost predicate SystemName(name: Name) {
    exists rest: string :: name.key == "RDB$" + rest || name.key == "MON$" + rest
  }

  lemma SystemNames(name: Name)
    ensures DiagnosticSystemName(name) <==> SystemName(name)
  {
    if DiagnosticSystemName(name) {
      assert name.key == name.key[..4] + name.key[4..];
    }
  }

  /** A category is ready in a snapshot that is not stale if its status says so, whatever the cache says of it;
      only without a status does the cache decide. */
  lemma Readiness(s: Snapshot, k: Kind, c: Cache)
    ensures s.stale || s.cache.None? ==> !CategoryReady(s, k)
    ensures !s.stale && s.cache == Some(c) && k in s.status ==> (CategoryReady(s, k) <==> s.status[k] == Ready)
    ensures !s.stale && s.cache == Some(c) && k !in s.status ==> (CategoryReady(s, k) <==> k in c.metadata && c.metadata[k] == Ready)
  {
  }

  /** A stale snapshot, one without a cache, and a system name are answered with Unknown; a procedure or
      domain whose category is not ready, and one of a cache without a catalog, too. */
  lemma NoAnswer(n: Names, s: Snapshot, name: Name)
    ensures s.stale || s.cache.None? || SystemName(name) ==>
              RelationInfo(n, s, name) == Unknown && ProcedureInfo(n, s, name) == (Unknown, None) && DomainInfo(n, s, name) == (Unknown, None)
    ensures !CategoryReady(s, Procedures) || (s.cache.Some? && s.cache.value.catalog.None?) ==> ProcedureInfo(n, s, name) == (Unknown, None)
    ensures !CategoryReady(s, Domains) || (s.cache.Some? && s.cache.value.catalog.None?) ==> DomainInfo(n, s, name) == (Unknown, None)
  {
    SystemNames(name);
  }

  /** The row that the exact map files under the key of the name, or nil, if it has the key. */
  function FiledRow(c: Cache, k: Kind, kind: string, name: Name): Option<Option<Desc>> {
    var exact, at := ExactRows(Header(c), k), Key(PlainID(kind, "", name.key));
    if at in exact then Some(exact[at]) else None
  }

  /** The row that the folded map has for the folded name, if any. */
  function FoldedRow(n: Names, c: Cache, k: Kind, name: Name): Option<Desc> {
    var folded, f := FoldedRows(Header(c), k), CacheKey(n, name.key);
    if f in folded then folded[f] else None
  }

  /** Whatever the maps hold: a row that is shown has exactly the name; one that is filed under the name and
      has another is never shown and never taken for a proof that there is none; and the folded map is asked
      only where the exact one has nothing. */
  lemma AnyMaps(n: Names, s: Snapshot, name: Name)
    requires !s.stale && s.cache.Some? && s.cache.value.catalog.Some? && !SystemName(name)
    ensures CategoryReady(s, Domains) ==>
              var (filed, folded) := (FiledRow(s.cache.value, Domains, DOMAIN, name), FoldedRow(n, s.cache.value, Domains, name));
              if filed.Some? then
                DomainInfo(n, s, name) == if NamedRow(filed.value, name) then (Present, filed.value) else (Unknown, None)
              else if NamedRow(folded, name) then DomainInfo(n, s, name) == (Present, folded)
              else DomainInfo(n, s, name) == (if folded.Some? && name.quoted then Unknown else Missing, None)
    ensures CategoryReady(s, Procedures) ==>
              var (filed, folded) := (FiledRow(s.cache.value, Procedures, PROCEDURE, name), FoldedRow(n, s.cache.value, Procedures, name));
              if filed.Some? && filed.value.Some? then
                ProcedureInfo(n, s, name) == if NamedRow(filed.value, name) then (Present, filed.value) else (Unknown, None)
              else if NamedRow(folded, name) then ProcedureInfo(n, s, name) == (Present, folded)
              else ProcedureInfo(n, s, name) == (if folded.Some? && name.quoted then Unknown else Missing, None)
    ensures var (filed, folded) := (FiledRow(s.cache.value, Views, VIEW, name), FoldedRow(n, s.cache.value, Views, name));
            CategoryReady(s, Views) && filed.Some? && filed.value.Some? && !NamedRow(filed.value, name) ==>
              RelationInfo(n, s, name) == if ListedNow(s, name) then Present else Unknown
  {
    hide Key, CacheKey, CategoryReady;
    SystemNames(name);
  }
}
