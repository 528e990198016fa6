/** catalog.ObjectIndex: objects found by exact identity or by unquoted (folded) name. */
module ObjectIndexes {
  import opened Wrappers
  import opened Identity

  datatype FoldKey = FoldKey(kind: string, folded: string)

  /** What a published index holds.  A published index is never inserted into again. */
  datatype IndexValue = IndexValue(exact: map<string, ObjectID>, byFold: map<FoldKey, seq<ObjectID>>)

  /** The inserted identities of one kind whose names fold alike, in insertion order. */
  function Bucket(ids: seq<ObjectID>, fold: string -> string, fk: FoldKey): seq<ObjectID> {
    if ids == [] then [] else
      var id := ids[|ids| - 1];
      Bucket(ids[..|ids| - 1], fold, fk) + if FoldKey(id.kind, fold(id.name)) == fk then [id] else []
  }

  /** `v` is the index of exactly the identities `ids`. */
  ghost predicate Represents(v: IndexValue, ids: seq<ObjectID>, fold: string -> string) {
    && Distinct(ids)
    && (forall id | id in ids :: Key(id) in v.exact)
    && (forall k | k in v.exact :: v.exact[k] in ids && Key(v.exact[k]) == k)
    && (forall fk | fk in v.byFold :: v.byFold[fk] == Bucket(ids, fold, fk))
    && (forall fk :: fk !in v.byFold ==> Bucket(ids, fold, fk) == [])
  }

  /** A bucket is what a linear scan of the identities would find, each once. */
  lemma {:induction false} BucketIsLinearScan(ids: seq<ObjectID>, fold: string -> string, fk: FoldKey)
    ensures forall id :: id in Bucket(ids, fold, fk) <==> id in ids && id.kind == fk.kind && fold(id.name) == fk.folded
    ensures Distinct(ids) ==> Distinct(Bucket(ids, fold, fk))
    ensures InOrder(Bucket(ids, fold, fk), ids)
  {
    if ids == [] {
      NoneInOrder(ids);
    } else {
      var front, last := ids[..|ids| - 1], ids[|ids| - 1];
      BucketIsLinearScan(front, fold, fk);
      assert ids == front + [last];
      InOrderGrows(Bucket(front, fold, fk), front, last, FoldKey(last.kind, fold(last.name)) == fk);
      if Distinct(ids) {
        forall i | 0 <= i < |front| ensures front[i] != last { assert front[i] == ids[i]; }
      }
    }
  }

  lemma InsertKeeps(v: IndexValue, ids: seq<ObjectID>, fold: string -> string, id: ObjectID)
    requires Represents(v, ids, fold) && Key(id) !in v.exact
    ensures id !in ids
    ensures var fk := FoldKey(id.kind, fold(id.name));
            Represents(IndexValue(v.exact[Key(id) := id], v.byFold[fk := (if fk in v.byFold then v.byFold[fk] else []) + [id]]), ids + [id], fold)
  {
    hide Bucket, Key;
    var fk := FoldKey(id.kind, fold(id.name));
    var next := IndexValue(v.exact[Key(id) := id], v.byFold[fk := (if fk in v.byFold then v.byFold[fk] else []) + [id]]);
    forall other ensures Bucket(ids + [id], fold, other) == Bucket(ids, fold, other) + if other == fk then [id] else [] {
      BucketGrows(ids, fold, id, other);
    }
    assert forall x | x in ids + [id] :: x in ids || x == id;
  }

  lemma BucketGrows(ids: seq<ObjectID>, fold: string -> string, id: ObjectID, fk: FoldKey)
    ensures Bucket(ids + [id], fold, fk) == Bucket(ids, fold, fk) + if FoldKey(id.kind, fold(id.name)) == fk then [id] else []
  {
    assert (ids + [id])[..|ids|] == ids;
  }

  function UpperAscii(c: char): char {
    if 'a' <= c <= 'z' then (c as int - 32) as char else c
  }

  /** defaultFold as a value: ASCII letters are upper-cased, every other byte is kept. */
  function DefaultFold(name: string): string {
    seq(|name|, i requires 0 <= i < |name| => UpperAscii(name[i]))
  }

  /** defaultFold as the source computes it, filling a byte slice. */
  method FillDefaultFold(name: string) returns (out: array<char>)
    ensures fresh(out) && out[..] == DefaultFold(name)
  {
    out := new char[|name|];
    for i := 0 to |name|
      invariant forall j | 0 <= j < i :: out[j] == UpperAscii(name[j])
    {
      var c := name[i];
      if c >= 'a' && c <= 'z' {
        c := (c as int - ('a' as int - 'A' as int)) as char;
      }
      out[i] := c;
    }
  }

  class ObjectIndex {
    const fold: string -> string
    var exact: map<string, ObjectID>
    var byFold: map<FoldKey, seq<ObjectID>>
    /** Every identity inserted so far, in order, without repetitions. */
    ghost var inserted: seq<ObjectID>

    ghost predicate Valid()
      reads this
    {
      Represents(IndexValue(exact, byFold), inserted, fold)
    }

    constructor (fold: string -> string)
      ensures Valid() && inserted == [] && this.fold == fold
    {
      this.fold := fold;
      exact := map[];
      byFold := map[];
      inserted := [];
    }

    method Insert(id: ObjectID)
      requires Valid()
      modifies this
      ensures Valid()
      ensures inserted == if id in old(inserted) then old(inserted) else old(inserted) + [id]
    {
      var key := BuildKey(id);
      if key in exact {
        KeyInjective(exact[key], id);
        return;
      }
      InsertKeeps(IndexValue(exact, byFold), inserted, fold, id);
      exact := exact[key := id];
      var fk := FoldKey(id.kind, fold(id.name));
      byFold := byFold[fk := (if fk in byFold then byFold[fk] else []) + [id]];
      inserted := inserted + [id];
    }

    method Lookup(id: ObjectID) returns (r: Option<ObjectID>)
      requires Valid()
      ensures r == if id in inserted then Some(id) else None
    {
      var key := BuildKey(id);
      if key in exact {
        KeyInjective(exact[key], id);
        return Some(exact[key]);
      }
      return None;
    }

    method LookupUnquoted(kind: string, name: string) returns (matches: seq<ObjectID>)
      requires Valid()
      ensures matches == Bucket(inserted, fold, FoldKey(kind, fold(name)))
      ensures Distinct(matches) && InOrder(matches, inserted)
      ensures forall id :: id in matches <==> id in inserted && id.kind == kind && fold(id.name) == fold(name)
    {
      var fk := FoldKey(kind, fold(name));
      BucketIsLinearScan(inserted, fold, fk);
      matches := if fk in byFold then byFold[fk] else [];
    }

    /** Cache.ResolveObjectName: an exact identity wins, then a unique folded match; more than
        one folded match is handed back as an ambiguity. */
    method ResolveObjectName(kind: string, want: string) returns (name: string, found: bool, ambiguous: seq<ObjectID>)
      requires Valid()
      ensures var exactly := ObjectID("", "", "", kind, want, "") in inserted;
              var candidates := Bucket(inserted, fold, FoldKey(kind, fold(want)));
              && found == (exactly || |candidates| == 1)
              && name == (if exactly then want else if found then candidates[0].name else "")
              && ambiguous == (if !found && |candidates| > 1 then candidates else [])
    {
      var wanted := ObjectID("", "", "", kind, want, "");
      var exactly := Lookup(wanted);
      if exactly.Some? {
        return exactly.value.name, true, [];
      }
      var matches := LookupUnquoted(kind, want);
      if |matches| == 0 {
        return "", false, [];
      } else if |matches| == 1 {
        return matches[0].name, true, [];
      } else {
        return "", false, matches;
      }
    }
  }
}
