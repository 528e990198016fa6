/** catalog.DependencyGraph: an immutable edge set indexed in both directions. */
module Dependencies {
  import opened Wrappers
  import opened ObjectIndexes
  import opened CatalogTypes
  import opened Sorting

  const NUL := "\0"

  /** DependencyRef.key */
  function RefKey(r: DependencyRef): string {
    r.kind + NUL + r.parent + NUL + r.name
  }

  function FromKey(e: DependencyEdge): string {
    RefKey(e.from)
  }

  function ToKey(e: DependencyEdge): string {
    RefKey(e.to)
  }

  /** The first occurrence of every edge. */
  function Dedup(edges: seq<DependencyEdge>): seq<DependencyEdge> {
    if edges == [] then [] else
      var front := Dedup(edges[..|edges| - 1]);
      if edges[|edges| - 1] in front then front else front + [edges[|edges| - 1]]
  }

  lemma DedupKeepsSet(edges: seq<DependencyEdge>)
    ensures Distinct(Dedup(edges))
    ensures forall e :: e in Dedup(edges) <==> e in edges
  {
    if edges != [] {
      DedupKeepsSet(edges[..|edges| - 1]);
      assert edges == edges[..|edges| - 1] + [edges[|edges| - 1]];
    }
  }

  /** These are the places at which the edges are seen for the first time. */
  predicate FirstSeenAt(edges: seq<DependencyEdge>, at: seq<nat>) {
    && (forall i | 0 <= i < |at| :: at[i] < |edges| && edges[at[i]] !in edges[..at[i]])
    && (forall i, j | 0 <= i < j < |at| :: at[i] < at[j])
  }

  ghost predicate FirstSeen(edges: seq<DependencyEdge>, kept: seq<DependencyEdge>) {
    exists at: seq<nat> :: ListsAt(kept, edges, at) && FirstSeenAt(edges, at)
  }

  /** The edges are listed in the order in which they are first seen. */
  lemma {:induction false} DedupIsFirstSeen(edges: seq<DependencyEdge>) returns (at: seq<nat>)
    ensures ListsAt(Dedup(edges), edges, at) && FirstSeenAt(edges, at)
  {
    at := [];
    if edges != [] {
      var front, last := edges[..|edges| - 1], edges[|edges| - 1];
      var before := DedupIsFirstSeen(front);
      DedupKeepsSet(front);
      assert edges[..|front|] == front;
      forall i | 0 <= i < |before| ensures edges[before[i]] == front[before[i]] && edges[..before[i]] == front[..before[i]] { }
      at := before + if last in front then [] else [|front|];
    }
  }

  /** The positions, ascending, of the edges whose key is `k`. */
  function Positions(edges: seq<DependencyEdge>, keyOf: DependencyEdge -> string, k: string): seq<nat> {
    if edges == [] then [] else
      Positions(edges[..|edges| - 1], keyOf, k) + if keyOf(edges[|edges| - 1]) == k then [|edges| - 1] else []
  }

  /** `index` lists, for every key that occurs, the positions of its edges. */
  ghost predicate IndexesEdges(index: map<string, seq<nat>>, edges: seq<DependencyEdge>, keyOf: DependencyEdge -> string) {
    && (forall k | k in index :: index[k] != [] && index[k] == Positions(edges, keyOf, k))
    && (forall k :: k !in index ==> Positions(edges, keyOf, k) == [])
  }

  lemma PositionsGrow(edges: seq<DependencyEdge>, keyOf: DependencyEdge -> string, e: DependencyEdge, k: string)
    ensures Positions(edges + [e], keyOf, k) == Positions(edges, keyOf, k) + if keyOf(e) == k then [|edges|] else []
  {
    assert (edges + [e])[..|edges|] == edges;
  }

  lemma IndexGrows(index: map<string, seq<nat>>, edges: seq<DependencyEdge>, keyOf: DependencyEdge -> string, e: DependencyEdge)
    requires IndexesEdges(index, edges, keyOf)
    ensures IndexesEdges(index[keyOf(e) := Rowed(index, keyOf(e)) + [|edges|]], edges + [e], keyOf)
  {
    hide Positions;
    var next := index[keyOf(e) := Rowed(index, keyOf(e)) + [|edges|]];
    forall k ensures if k in next then next[k] != [] && next[k] == Positions(edges + [e], keyOf, k) else Positions(edges + [e], keyOf, k) == [] {
      PositionsGrow(edges, keyOf, e, k);
    }
  }

  lemma SortedItself(names: seq<string>, of: seq<string>)
    requires SortedSet(names, of)
    ensures SortedSet(names, names)
  {
  }

  lemma NothingIndexed()
    ensures IndexesEdges(map[], [], FromKey) && IndexesEdges(map[], [], ToKey)
  {
  }

  function Rowed(index: map<string, seq<nat>>, k: string): seq<nat> {
    if k in index then index[k] else []
  }

  ghost predicate SortedSet(names: seq<string>, of: seq<string>) {
    && (forall i, j | 0 <= i < j < |names| :: StringLess(names[i], names[j]))
    && (forall x :: x in names <==> x in of)
  }

  /** What NewDependencyGraph builds: no repeated edge, both indexes exact, check names sorted
      without repetitions. */
  ghost predicate CanonicalGraph(g: Graph) {
    && Distinct(g.edges)
    && IndexesEdges(g.uses, g.edges, FromKey)
    && IndexesEdges(g.usedBy, g.edges, ToKey)
    && (forall r | r in g.checks :: SortedSet(g.checks[r], g.checks[r]))
  }

  /** Sort the names, then drop each one equal to its predecessor. */
  method SortUnique(names: seq<string>) returns (kept: seq<string>)
    ensures SortedSet(kept, names)
  {
    var unique := SortStrings(names);
    SameElements(unique, names);
    kept := [];
    for i := 0 to |unique|
      invariant forall j, k | 0 <= j < k < |kept| :: StringLess(kept[j], kept[k])
      invariant forall x :: x in kept <==> x in unique[..i]
      invariant if i > 0 then kept != [] && kept[|kept| - 1] == unique[i - 1] else kept == []
    {
      assert unique[..i + 1] == unique[..i] + [unique[i]];
      if i == 0 || unique[i] != unique[i - 1] {
        forall j | 0 <= j < |kept| ensures StringLess(kept[j], unique[i]) {
          StringLessTrichotomy(unique[i - 1], unique[i]);
          if j < |kept| - 1 { StringLessTransitive(kept[j], kept[|kept| - 1], unique[i]); }
        }
        kept := kept + [unique[i]];
      }
    }
    assert unique[..|unique|] == unique;
  }

  /** The check names of each relation, sorted and unique. */
  method UniqueNames(checks: map<string, seq<string>>) returns (unique: map<string, seq<string>>)
    ensures unique.Keys == checks.Keys && forall r | r in checks :: SortedSet(unique[r], checks[r])
  {
    hide SortedSet;
    unique := map[];
    var todo := checks.Keys;
    while todo != {}
      invariant todo <= checks.Keys && unique.Keys == checks.Keys - todo
      invariant forall r | r in unique :: SortedSet(unique[r], checks[r])
    {
      var relation :| relation in todo;
      todo := todo - {relation};
      var names := SortUnique(checks[relation]);
      unique := unique[relation := names];
    }
  }

  method NewDependencyGraph(edges: seq<DependencyEdge>, checks: map<string, seq<string>>) returns (g: Graph)
    ensures CanonicalGraph(g)
    ensures g.edges == Dedup(edges) && (forall e :: e in g.edges <==> e in edges) && FirstSeen(edges, g.edges)
    ensures g.checks.Keys == checks.Keys && forall r | r in checks :: SortedSet(g.checks[r], checks[r])
  {
    hide SortedSet, FirstSeenAt, ListsAt, IndexesEdges;
    NothingIndexed();
    var kept: seq<DependencyEdge> := [];
    var uses: map<string, seq<nat>> := map[];
    var usedBy: map<string, seq<nat>> := map[];
    var seen: set<DependencyEdge> := {};
    for i := 0 to |edges|
      invariant kept == Dedup(edges[..i])
      invariant forall e :: e in seen <==> e in kept
      invariant IndexesEdges(uses, kept, FromKey) && IndexesEdges(usedBy, kept, ToKey)
    {
      var edge := edges[i];
      assert edges[..i + 1][..i] == edges[..i];
      if edge in seen {
        continue;
      }
      seen := seen + {edge};
      var index := |kept|;
      IndexGrows(uses, kept, FromKey, edge);
      IndexGrows(usedBy, kept, ToKey, edge);
      kept := kept + [edge];
      uses := uses[FromKey(edge) := Rowed(uses, FromKey(edge)) + [index]];
      usedBy := usedBy[ToKey(edge) := Rowed(usedBy, ToKey(edge)) + [index]];
    }
    assert edges[..|edges|] == edges;
    DedupKeepsSet(edges);
    var at := DedupIsFirstSeen(edges);
    var unique := UniqueNames(checks);
    forall r | r in checks ensures SortedSet(unique[r], unique[r]) { SortedItself(unique[r], checks[r]); }
    g := Graph(kept, uses, usedBy, unique);
    assert FirstSeen(edges, g.edges);
  }

  /** The edges at some positions that mention `field`, or all of them when `field` is empty. */
  function Selected(edges: seq<DependencyEdge>, keyOf: DependencyEdge -> string, k: string, field: string): seq<DependencyEdge> {
    if edges == [] then [] else
      var e := edges[|edges| - 1];
      Selected(edges[..|edges| - 1], keyOf, k, field) + if keyOf(e) == k && (field == "" || e.field == field) then [e] else []
  }

  lemma {:induction false} SelectedPrefix(edges: seq<DependencyEdge>, keyOf: DependencyEdge -> string, k: string, field: string)
    ensures forall e :: e in Selected(edges, keyOf, k, field) <==> e in edges && keyOf(e) == k && (field == "" || e.field == field)
    ensures InOrder(Selected(edges, keyOf, k, field), edges) && (Distinct(edges) ==> Distinct(Selected(edges, keyOf, k, field)))
  {
    hide InOrder;
    if edges == [] {
      NoneInOrder(edges);
    } else {
      var front, last := edges[..|edges| - 1], edges[|edges| - 1];
      SelectedPrefix(front, keyOf, k, field);
      assert edges == front + [last];
      InOrderGrows(Selected(front, keyOf, k, field), front, last, keyOf(last) == k && (field == "" || last.field == field));
      if Distinct(edges) { assert forall i | 0 <= i < |front| :: front[i] == edges[i] != last; }
    }
  }

  predicate InRange(edges: seq<DependencyEdge>, indexes: seq<nat>) {
    forall j | 0 <= j < |indexes| :: indexes[j] < |edges|
  }

  /** The edges at the listed positions that pass the field test. */
  function Gather(edges: seq<DependencyEdge>, indexes: seq<nat>, field: string): seq<DependencyEdge>
    requires InRange(edges, indexes)
  {
    if indexes == [] then [] else
      var e := edges[indexes[|indexes| - 1]];
      Gather(edges, indexes[..|indexes| - 1], field) + if field != "" && e.field != field then [] else [e]
  }

  lemma {:induction false} GatherPositions(edges: seq<DependencyEdge>, all: seq<DependencyEdge>, keyOf: DependencyEdge -> string, k: string, field: string)
    requires edges <= all
    ensures InRange(edges, Positions(edges, keyOf, k))
    ensures Gather(all, Positions(edges, keyOf, k), field) == Selected(edges, keyOf, k, field)
  {
    if edges != [] {
      var front := edges[..|edges| - 1];
      GatherPositions(front, all, keyOf, k, field);
      var p := Positions(front, keyOf, k);
      assert (p + [|edges| - 1])[..|p|] == p;
      assert all[|edges| - 1] == edges[|edges| - 1];
      if keyOf(edges[|edges| - 1]) == k {
        assert Positions(edges, keyOf, k) == p + [|edges| - 1];
      } else {
        assert Positions(edges, keyOf, k) == p;
      }
    }
  }

  method Collect(g: Graph, indexes: seq<nat>, field: string) returns (result: seq<DependencyEdge>)
    requires InRange(g.edges, indexes)
    ensures result == Gather(g.edges, indexes, field)
  {
    result := [];
    for j := 0 to |indexes|
      invariant result == Gather(g.edges, indexes[..j], field)
    {
      assert indexes[..j + 1][..j] == indexes[..j];
      var edge := g.edges[indexes[j]];
      if field != "" && edge.field != field {
        continue;
      }
      result := result + [edge];
    }
    assert indexes[..|indexes|] == indexes;
  }

  /** Uses finds, in edge order, exactly the edges whose From has ref's key. */
  method Uses(g: Graph, ref: DependencyRef) returns (result: seq<DependencyEdge>)
    requires CanonicalGraph(g)
    ensures result == Selected(g.edges, FromKey, RefKey(ref), "") && Distinct(result) && InOrder(result, g.edges)
    ensures forall e :: e in result <==> e in g.edges && RefKey(e.from) == RefKey(ref)
  {
    GatherPositions(g.edges, g.edges, FromKey, RefKey(ref), "");
    SelectedPrefix(g.edges, FromKey, RefKey(ref), "");
    result := Collect(g, Rowed(g.uses, RefKey(ref)), "");
  }

  /** UsedBy finds, in edge order, exactly the edges whose To has ref's key and that name `field`. */
  method UsedBy(g: Graph, ref: DependencyRef, field: string) returns (result: seq<DependencyEdge>)
    requires CanonicalGraph(g)
    ensures result == Selected(g.edges, ToKey, RefKey(ref), field) && Distinct(result) && InOrder(result, g.edges)
    ensures forall e :: e in result <==> e in g.edges && RefKey(e.to) == RefKey(ref) && (field == "" || e.field == field)
  {
    GatherPositions(g.edges, g.edges, ToKey, RefKey(ref), field);
    SelectedPrefix(g.edges, ToKey, RefKey(ref), field);
    result := Collect(g, Rowed(g.usedBy, RefKey(ref)), field);
  }

  // ----- when equal keys mean equal references

  predicate NulFree(s: string) {
    forall i | 0 <= i < |s| :: s[i] != '\0'
  }

  lemma SplitAtNul(a: string, b: string, c: string, d: string)
    requires NulFree(a) && NulFree(c) && a + NUL + b == c + NUL + d
    ensures a == c && b == d
  {
    var s := a + NUL + b;
    assert s[|a|] == '\0' && forall i | 0 <= i < |a| :: s[i] == a[i];
    assert s == c + NUL + d;
    assert s[|c|] == '\0' && forall i | 0 <= i < |c| :: s[i] == c[i];
    assert a == s[..|a|] && c == s[..|c|];
    assert b == s[|a| + 1..] && d == s[|c| + 1..];
  }

  lemma OneNul(parent: string, name: string, p: string, n: string)
    requires NulFree(parent) && NulFree(name) && parent + NUL + name == p + NUL + n
    ensures parent == p && name == n
  {
    var s := parent + NUL + name;
    assert forall i | 0 <= i < |s| :: s[i] == '\0' <==> i == |parent|;
    assert s == p + NUL + n && s[|p|] == '\0';
    assert parent == s[..|parent|] && p == s[..|p|];
    assert name == s[|parent| + 1..] && n == s[|p| + 1..];
  }

  lemma NulPosition(s: string) returns (i: nat)
    requires !NulFree(s)
    ensures i < |s| && s == s[..i] + NUL + s[i + 1..]
  {
    i :| 0 <= i < |s| && s[i] == '\0';
  }

  /** Two references with one key: "a", then "b" with a NUL and "c"; and "a" with a NUL and "b", then "c". */
  lemma KeysCollide() returns (r: DependencyRef, s: DependencyRef)
    ensures r != s && r.kind == s.kind == "table" && RefKey(r) == RefKey(s)
  {
    r, s := DependencyRef("table", "b" + NUL + "c", "a"), DependencyRef("table", "c", "a" + NUL + "b");
    assert |r.name| == 3 && |s.name| == 1;
    assert RefKey(r) == "table" + NUL + "a" + NUL + "b" + NUL + "c" == RefKey(s);
  }

  /** A reference is the only one with its key exactly when neither its parent nor its name holds
      a NUL byte (object kinds never do).  Otherwise Uses and UsedBy also return another
      reference's edges: ("table", parent "a", name "b\0c") reads like (parent "a\0b", name "c"). */
  lemma KeyIdentifiesExactly(r: DependencyRef)
    requires NulFree(r.kind)
    ensures (forall s: DependencyRef | NulFree(s.kind) :: RefKey(s) == RefKey(r) ==> s == r) <==> NulFree(r.parent) && NulFree(r.name)
  {
    if NulFree(r.parent) && NulFree(r.name) {
      forall s: DependencyRef | NulFree(s.kind) && RefKey(s) == RefKey(r) ensures s == r {
        assert RefKey(s) == s.kind + NUL + (s.parent + NUL + s.name);
        assert RefKey(r) == r.kind + NUL + (r.parent + NUL + r.name);
        SplitAtNul(r.kind, r.parent + NUL + r.name, s.kind, s.parent + NUL + s.name);
        OneNul(r.parent, r.name, s.parent, s.name);
      }
    } else if !NulFree(r.name) {
      var i := NulPosition(r.name);
      var s := DependencyRef(r.kind, r.name[i + 1..], r.parent + NUL + r.name[..i]);
      assert RefKey(s) == r.kind + NUL + r.parent + NUL + (r.name[..i] + NUL + r.name[i + 1..]);
      assert s != r && RefKey(s) == RefKey(r);
    } else {
      var i := NulPosition(r.parent);
      var s := DependencyRef(r.kind, r.parent[i + 1..] + NUL + r.name, r.parent[..i]);
      assert RefKey(s) == r.kind + NUL + (r.parent[..i] + NUL + r.parent[i + 1..]) + NUL + r.name;
      assert s != r && RefKey(s) == RefKey(r);
    }
  }
}
