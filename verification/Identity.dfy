/** Exact catalog identities and their length-prefixed keys.

    A Go string is a sequence of bytes; here it is a `string` whose characters
    stand for those bytes.  Nothing below depends on the alphabet. */
module Identity {
  import opened Wrappers

  /** catalog.ObjectID.  `parent` is written into the key only when it is not empty. */
  datatype ObjectID = ObjectID(catalog: string, schema: string, owner: string, kind: string, name: string, parent: string)

  // ----- decimal numerals (strconv.AppendInt and strconv.Atoi, base ten)

  function Digit(n: nat): char
    requires n < 10
  {
    '0' + n as char
  }

  predicate IsDigit(c: char) {
    '0' <= c <= '9'
  }

  function Decimal(n: nat): string {
    if n < 10 then [Digit(n)] else Decimal(n / 10) + [Digit(n % 10)]
  }

  function DigitsValue(s: string): (n: nat)
    requires forall i | 0 <= i < |s| :: IsDigit(s[i])
  {
    if s == "" then 0 else assert IsDigit(s[|s| - 1]); 10 * DigitsValue(s[..|s| - 1]) + (s[|s| - 1] as int - '0' as int)
  }

  lemma DecimalReadsBack(n: nat)
    ensures AllDigits(Decimal(n)) && DigitsValue(Decimal(n)) == n
  {
    if n >= 10 {
      var s := Decimal(n);
      DecimalReadsBack(n / 10);
      assert s[..|s| - 1] == Decimal(n / 10);
    }
  }

  predicate AllDigits(s: string) {
    s != "" && forall i | 0 <= i < |s| :: IsDigit(s[i])
  }

  /** strconv.Atoi: an optional sign, then digits.  A value that overflows Go's int also
      exceeds every string length, so both failures are the one rejection in ParseComponent. */
  function Atoi(s: string): Option<int> {
    if s != "" && (s[0] == '+' || s[0] == '-') then
      if !AllDigits(s[1..]) then None
      else if s[0] == '-' then Some(0 - DigitsValue(s[1..]) as int) else Some(DigitsValue(s[1..]) as int)
    else if AllDigits(s) then Some(DigitsValue(s)) else None
  }

  // ----- keys

  function Component(c: string): string {
    Decimal(|c|) + ":" + c
  }

  function Concat(components: seq<string>): string {
    if components == [] then "" else Concat(components[..|components| - 1]) + Component(components[|components| - 1])
  }

  function Components(id: ObjectID): seq<string> {
    [id.catalog, id.schema, id.owner, id.kind, id.name] + if id.parent != "" then [id.parent] else []
  }

  /** catalog.ObjectID.Key */
  function Key(id: ObjectID): string {
    Concat(Components(id))
  }

  /** Plain decimal: no leading zero. */
  lemma {:induction false} DecimalIsPlain(n: nat)
    ensures Decimal(n) != "" && (Decimal(n)[0] == '0' <==> n == 0)
  {
    if n >= 10 { DecimalIsPlain(n / 10); }
  }

  /** The text of a key: catalog, schema, owner, kind and name, and a parent if there is one, one behind the other. */
  lemma KeyText(id: ObjectID)
    ensures Key(id) == Component(id.catalog) + Component(id.schema) + Component(id.owner) + Component(id.kind) + Component(id.name)
                       + if id.parent == "" then "" else Component(id.parent)
  {
    hide Concat, Component;
    var five := [id.catalog, id.schema, id.owner, id.kind, id.name];
    ConcatFive(id.catalog, id.schema, id.owner, id.kind, id.name);
    ConcatMore(five, id.parent);
    assert Components(id) == if id.parent == "" then five else five + [id.parent];
  }

  lemma ConcatFive(a: string, b: string, c: string, d: string, e: string)
    ensures Concat([a, b, c, d, e]) == Component(a) + Component(b) + Component(c) + Component(d) + Component(e)
  {
    hide Concat, Component;
    ConcatNone();
    ConcatMore([], a);
    ConcatMore([a], b);
    ConcatMore([a, b], c);
    ConcatMore([a, b, c], d);
    ConcatMore([a, b, c, d], e);
    assert [] + [a] == [a] && [a] + [b] == [a, b] && [a, b] + [c] == [a, b, c] && [a, b, c] + [d] == [a, b, c, d];
    assert [a, b, c, d] + [e] == [a, b, c, d, e] && "" + Component(a) == Component(a);
  }

  lemma ConcatMore(front: seq<string>, c: string)
    ensures Concat(front + [c]) == Concat(front) + Component(c)
  {
    assert (front + [c])[..|front|] == front;
  }

  /** ObjectID.Key as the source builds it, appending one component at a time. */
  method BuildKey(id: ObjectID) returns (out: string)
    ensures out == Key(id)
  {
    out := "";
    var components := [id.catalog, id.schema, id.owner, id.kind, id.name];
    if id.parent != "" {
      components := components + [id.parent];
    }
    for i := 0 to |components|
      invariant components == Components(id)
      invariant out == Concat(components[..i])
    {
      assert components[..i + 1][..i] == components[..i];
      out := out + Decimal(|components[i]|);
      out := out + ":";
      out := out + components[i];
    }
    assert components[..|components|] == components;
  }

  // ----- reading one component back

  datatype Piece = Bad | Piece(part: string, rest: string)

  /** strings.IndexByte(s, ':'), with |s| for "not found". */
  function FirstColon(s: string): (i: nat)
    ensures i <= |s| && (forall j | 0 <= j < i :: s[j] != ':') && (i < |s| ==> s[i] == ':')
  {
    if s == "" || s[0] == ':' then 0 else 1 + FirstColon(s[1..])
  }

  function ParseComponent(s: string): (p: Piece)
    ensures p.Piece? ==> |p.rest| < |s|
  {
    var sep := FirstColon(s);
    if sep == |s| || sep < 1 then Bad else
      match Atoi(s[..sep])
      case None => Bad
      case Some(n) =>
        var rest := s[sep + 1..];
        if n < 0 || n > |rest| then Bad else Piece(rest[..n], rest[n..])
  }

  /** A written component is read back whole, whatever follows it. */
  lemma ComponentReadsBack(c: string, rest: string)
    ensures ParseComponent(Component(c) + rest) == Piece(c, rest)
  {
    var s := Component(c) + rest;
    var d := Decimal(|c|);
    DecimalReadsBack(|c|);
    assert s[..|d|] == d && s[|d|] == ':';
    var sep := FirstColon(s);
    assert forall j | 0 <= j < |d| :: s[j] == d[j] && s[j] != ':';
    assert sep == |d|;
    assert IsDigit(d[0]);
    assert Atoi(d) == Some(|c|);
    assert s[sep + 1..] == c + rest;
  }

  // ----- the whole key

  lemma {:induction false} ConcatSplit(components: seq<string>)
    requires components != []
    ensures Concat(components) == Component(components[0]) + Concat(components[1..])
  {
    hide Component, Concat;
    var last := |components| - 1;
    ConcatLast(components);
    if last == 0 {
      assert components[..0] == [] && components[1..] == [];
      ConcatNone();
    } else {
      var front, rest := components[..last], components[1..];
      ConcatSplit(front);
      ConcatLast(rest);
      assert front[1..] == rest[..last - 1] && rest[last - 1] == components[last] && front[0] == components[0];
      Associate(Component(components[0]), Concat(front[1..]), Component(components[last]));
    }
  }

  lemma ConcatNone()
    ensures Concat([]) == ""
  {
  }

  lemma ConcatLast(components: seq<string>)
    requires components != []
    ensures Concat(components) == Concat(components[..|components| - 1]) + Component(components[|components| - 1])
  {
  }

  lemma Associate(a: string, b: string, c: string)
    ensures (a + b) + c == a + (b + c)
  {
  }

  /** Equal concatenations of components come from equal lists of components. */
  lemma {:induction false} ConcatInjective(a: seq<string>, b: seq<string>)
    requires Concat(a) == Concat(b)
    ensures a == b
  {
    if a != [] && b != [] {
      ConcatSplit(a);
      ConcatSplit(b);
      ComponentReadsBack(a[0], Concat(a[1..]));
      ComponentReadsBack(b[0], Concat(b[1..]));
      ConcatInjective(a[1..], b[1..]);
      assert a == [a[0]] + a[1..] && b == [b[0]] + b[1..];
    } else if a != [] {
      ConcatSplit(a);
    } else if b != [] {
      ConcatSplit(b);
    }
  }

  /** Key is injective over all identities, the optional parent included. */
  lemma KeyInjective(a: ObjectID, b: ObjectID)
    requires Key(a) == Key(b)
    ensures a == b
  {
    ConcatInjective(Components(a), Components(b));
    var ca, cb := Components(a), Components(b);
    assert ca[0] == cb[0] && ca[1] == cb[1] && ca[2] == cb[2] && ca[3] == cb[3] && ca[4] == cb[4];
    if a.parent != "" && b.parent != "" {
      assert ca[5] == cb[5];
    }
  }

  /** The identities MergeObjects works with: named, in no catalog and with no owner. */
  predicate ValidID(id: ObjectID) {
    id.name != "" && id.catalog == "" && id.owner == ""
  }

  /** What decoding a key means: the one valid identity that has this key, if there is one. */
  ghost function ParseKey(key: string): Option<ObjectID> {
    if exists id :: ValidID(id) && Key(id) == key then
      var id :| ValidID(id) && Key(id) == key;
      Some(id)
    else None
  }

  lemma ParseKeyMeaning(key: string)
    ensures ParseKey(key).Some? ==> ValidID(ParseKey(key).value) && Key(ParseKey(key).value) == key
    ensures ParseKey(key).None? ==> forall id | ValidID(id) :: Key(id) != key
  {
  }

  lemma ParseKeyInverts(id: ObjectID)
    requires ValidID(id)
    ensures ParseKey(Key(id)) == Some(id)
  {
    ParseKeyMeaning(Key(id));
    KeyInjective(ParseKey(Key(id)).value, id);
  }

  /** `components` starts with `parts`, and what follows them is written as `rest`. */
  ghost predicate SplitsAs(components: seq<string>, parts: seq<string>, rest: string) {
    |parts| <= |components| && components[..|parts|] == parts && Concat(components[|parts|..]) == rest
  }

  lemma ReadsNone(key: string)
    requires forall components :: Concat(components) != key
    ensures forall id :: Key(id) != key
  {
    forall id ensures Key(id) != key { assert Key(id) == Concat(Components(id)); }
  }

  /** The decoder's view of a key after its first |parts| components. */
  ghost predicate Reads(key: string, parts: seq<string>, rest: string) {
    forall components | Concat(components) == key :: SplitsAs(components, parts, rest)
  }

  lemma SplitNext(components: seq<string>, parts: seq<string>, rest: string)
    requires SplitsAs(components, parts, rest) && rest != ""
    ensures ParseComponent(rest).Piece?
    ensures SplitsAs(components, parts + [ParseComponent(rest).part], ParseComponent(rest).rest)
  {
    var left := components[|parts|..];
    ConcatSplit(left);
    ComponentReadsBack(left[0], Concat(left[1..]));
    assert left[1..] == components[|parts| + 1..];
    assert components[..|parts| + 1] == parts + [left[0]];
  }

  lemma NothingRead(key: string)
    ensures Reads(key, [], key)
  {
    forall components | Concat(components) == key ensures SplitsAs(components, [], key) { assert components[0..] == components; }
  }

  lemma ReadsNext(key: string, parts: seq<string>, rest: string)
    requires Reads(key, parts, rest) && rest != ""
    ensures var piece := ParseComponent(rest);
            if piece.Piece? then Reads(key, parts + [piece.part], piece.rest)
            else forall components :: Concat(components) != key
  {
    forall components | Concat(components) == key
      ensures ParseComponent(rest).Piece? && SplitsAs(components, parts + [ParseComponent(rest).part], ParseComponent(rest).rest)
    {
      SplitNext(components, parts, rest);
    }
  }

  lemma SplitLength(components: seq<string>, parts: seq<string>, rest: string)
    requires SplitsAs(components, parts, rest)
    ensures rest == "" <==> |components| == |parts|
  {
    if |components| > |parts| {
      ConcatSplit(components[|parts|..]);
    }
  }

  lemma NoSuchKey(key: string, parts: seq<string>, rest: string)
    requires Reads(key, parts, rest)
    requires (|parts| < 5 && rest == "") || (|parts| == 6 && rest != "")
    ensures forall id :: Key(id) != key
  {
    forall id ensures Key(id) != key {
      var c := Components(id);
      if SplitsAs(c, parts, rest) {
        SplitLength(c, parts, rest);
      }
    }
  }

  /** All of the key is read: at most one identity is written so. */
  lemma OneReading(key: string, parts: seq<string>, id: ObjectID)
    requires Reads(key, parts, "") && 5 <= |parts| <= 6
    requires id == ObjectID(parts[0], parts[1], parts[2], parts[3], parts[4], if |parts| == 6 then parts[5] else "")
    ensures forall other | Key(other) == key :: other == id
  {
    forall other | Key(other) == key ensures other == id {
      var c := Components(other);
      assert SplitsAs(c, parts, "");
      SplitLength(c, parts, "");
      assert c == parts;
    }
  }

  /** watchParseID: decode five components and an optional sixth, then accept only a valid
      identity whose key is exactly the input. */
  method WatchParseID(key: string) returns (r: Option<ObjectID>)
    ensures r == ParseKey(key)
    ensures r.Some? ==> ValidID(r.value) && Key(r.value) == key
    ensures r.None? ==> forall id | ValidID(id) :: Key(id) != key
  {
    hide Key, Components, Concat, ParseComponent, Reads, ParseKey;
    ParseKeyMeaning(key);
    NothingRead(key);
    var parts: seq<string> := [];
    var rest := key;
    for i := 0 to 5
      invariant |parts| == i
      invariant Reads(key, parts, rest)
    {
      var piece := ParseComponent(rest);
      if piece.Bad? {
        if rest == "" { NoSuchKey(key, parts, rest); } else { ReadsNext(key, parts, rest); ReadsNone(key); }
        return None;
      }
      ReadsNext(key, parts, rest);
      parts, rest := parts + [piece.part], piece.rest;
    }
    var parent := "";
    if rest != "" {
      var piece := ParseComponent(rest);
      ReadsNext(key, parts, rest);
      if piece.Bad? {
        ReadsNone(key);
        return None;
      }
      parts, rest, parent := parts + [piece.part], piece.rest, piece.part;
    }
    var id := ObjectID(parts[0], parts[1], parts[2], parts[3], parts[4], parent);
    var rebuilt := BuildKey(id);
    if rest != "" {
      NoSuchKey(key, parts, rest);
      return None;
    }
    if !ValidID(id) || rebuilt != key {
      OneReading(key, parts, id);
      return None;
    }
    ParseKeyInverts(id);
    return Some(id);
  }

  /** Five length-prefixed components, no catalog and no owner, a name, and a sixth for a parent. */
  predicate KeyParts(parts: seq<string>) {
    && (|parts| == 5 || |parts| == 6)
    && parts[0] == "" && parts[2] == "" && parts[4] != ""
    && (|parts| == 6 ==> parts[5] != "")
  }

  /** The strings that parse: a key is accepted exactly when it writes such components one after the other,
      each with its exact length in plain decimal, and nothing else. */
  lemma ParseKeyAcceptsExactly(key: string)
    ensures ParseKey(key).Some? <==> exists parts :: KeyParts(parts) && Concat(parts) == key
  {
    ParseKeyMeaning(key);
    if ParseKey(key).Some? {
      assert KeyParts(Components(ParseKey(key).value));
    }
    if parts :| KeyParts(parts) && Concat(parts) == key {
      var id := ObjectID("", parts[1], "", parts[3], parts[4], if |parts| == 6 then parts[5] else "");
      assert Components(id) == parts;
      assert ValidID(id) && Key(id) == key;
    }
  }

  // ----- index identities

  const INDEX_KIND := "index"

  /** catalog.IndexObjectID: only a schema-bearing index is qualified by its relation. */
  function IndexObjectID(schema: string, relation: string, name: string): ObjectID {
    ObjectID("", schema, "", INDEX_KIND, name, if schema != "" then relation else "")
  }

  /** Two index rows share an identity exactly when their names and schemas agree and, inside a
      schema, their relations do. */
  lemma IndexKeysCollideExactly(s1: string, r1: string, n1: string, s2: string, r2: string, n2: string)
    ensures Key(IndexObjectID(s1, r1, n1)) == Key(IndexObjectID(s2, r2, n2)) <==>
            s1 == s2 && n1 == n2 && (s1 != "" ==> r1 == r2)
  {
    if Key(IndexObjectID(s1, r1, n1)) == Key(IndexObjectID(s2, r2, n2)) {
      KeyInjective(IndexObjectID(s1, r1, n1), IndexObjectID(s2, r2, n2));
    }
  }
}
