/** Byte-wise string order, and a stand-in for Go's sort package. */
module Sorting {

  predicate StringLess(a: string, b: string) {
    b != "" && (a == "" || a[0] < b[0] || (a[0] == b[0] && StringLess(a[1..], b[1..])))
  }

  /** The strings agree up to here, where the first ends or has the smaller byte. */
  predicate DiffersAt(a: string, b: string, i: nat) {
    i <= |a| && i < |b| && a[..i] == b[..i] && (i == |a| || a[i] < b[i])
  }

  lemma {:induction false} StringLessMeans(a: string, b: string)
    ensures StringLess(a, b) <==> exists i: nat :: DiffersAt(a, b, i)
  {
    if a != "" && b != "" && a[0] == b[0] {
      StringLessMeans(a[1..], b[1..]);
      if i: nat :| DiffersAt(a[1..], b[1..], i) {
        assert a[..i + 1] == [a[0]] + a[1..][..i] && b[..i + 1] == [b[0]] + b[1..][..i];
        assert DiffersAt(a, b, i + 1);
      }
      if i: nat :| DiffersAt(a, b, i) {
        assert i > 0 && a[1..][..i - 1] == a[..i][1..] && b[1..][..i - 1] == b[..i][1..];
        assert DiffersAt(a[1..], b[1..], i - 1);
      }
    } else if StringLess(a, b) {
      assert DiffersAt(a, b, 0);
    } else {
      forall i: nat ensures !DiffersAt(a, b, i) {
        if DiffersAt(a, b, i) && i > 0 { SameFirst(a, b, i); }
      }
    }
  }

  lemma SameFirst(a: string, b: string, i: nat)
    requires DiffersAt(a, b, i) && i > 0
    ensures a != "" && b != "" && a[0] == b[0]
  {
    assert a[..i][0] == b[..i][0];
  }

  lemma {:induction false} StringLessTrichotomy(a: string, b: string)
    ensures a == b ==> !StringLess(a, b)
    ensures a != b ==> StringLess(a, b) != StringLess(b, a)
  {
    if a != "" && b != "" {
      StringLessTrichotomy(a[1..], b[1..]);
      assert a == [a[0]] + a[1..] && b == [b[0]] + b[1..];
    }
  }

  lemma {:induction false} StringLessTransitive(a: string, b: string, c: string)
    requires StringLess(a, b) && StringLess(b, c)
    ensures StringLess(a, c)
  {
    if a != "" && a[0] == b[0] == c[0] {
      StringLessTransitive(a[1..], b[1..], c[1..]);
    }
  }

  /** What sort.Slice asks of its comparison. */
  ghost predicate StrictWeakOrder<T(!new)>(less: (T, T) -> bool) {
    && (forall x :: !less(x, x))
    && (forall x, y, z :: less(x, y) && less(y, z) ==> less(x, z))
    && (forall x, y, z :: !less(x, y) && !less(y, z) ==> !less(x, z))
  }

  ghost predicate Sorted<T>(s: seq<T>, less: (T, T) -> bool) {
    forall i, j | 0 <= i < j < |s| :: !less(s[j], s[i])
  }

  ghost predicate SortOf<T>(r: seq<T>, s: seq<T>, less: (T, T) -> bool) {
    multiset(r) == multiset(s) && Sorted(r, less)
  }

  lemma SameElements<T>(r: seq<T>, s: seq<T>)
    requires multiset(r) == multiset(s)
    ensures |r| == |s|
    ensures forall x :: x in r <==> x in s
  {
    assert |multiset(r)| == |multiset(s)|;
    forall x ensures x in r <==> x in s {
      assert x in multiset(r) <==> x in multiset(s);
    }
  }

  lemma DistinctBySort<T>(r: seq<T>, s: seq<T>)
    requires multiset(r) == multiset(s)
    requires forall i, j | 0 <= i < j < |s| :: s[i] != s[j]
    ensures forall i, j | 0 <= i < j < |r| :: r[i] != r[j]
  {
    forall i, j | 0 <= i < j < |r| ensures r[i] != r[j] {
      if r[i] == r[j] {
        var x := r[i];
        assert r == r[..i] + [x] + r[i + 1..j] + [x] + r[j + 1..];
        assert multiset(r)[x] >= 2;
        OccursOnce(s, x);
      }
    }
  }

  lemma {:induction false} OccursOnce<T>(s: seq<T>, x: T)
    requires forall i, j | 0 <= i < j < |s| :: s[i] != s[j]
    ensures multiset(s)[x] <= 1
  {
    if s != [] {
      assert s == [s[0]] + s[1..];
      OccursOnce(s[1..], x);
      if s[0] == x {
        assert x !in s[1..];
      }
    }
  }

  ghost predicate NoDuplicates<T>(s: seq<T>) {
    forall i, j | 0 <= i < j < |s| :: s[i] != s[j]
  }

  lemma SortedLast<T>(a: seq<T>, x: T, less: (T, T) -> bool)
    requires Sorted(a, less) && x in a && x != a[|a| - 1]
    ensures !less(a[|a| - 1], x) && x in a[..|a| - 1]
  {
    var i :| 0 <= i < |a| && a[i] == x;
    assert a[..|a| - 1][i] == x;
  }

  /** Two sorted lists of the same distinct elements are equal when no two elements tie. */
  lemma {:induction false} SortedIsUnique<T>(a: seq<T>, b: seq<T>, less: (T, T) -> bool)
    requires Sorted(a, less) && Sorted(b, less) && NoDuplicates(a) && NoDuplicates(b)
    requires forall x :: x in a <==> x in b
    requires forall x, y | x in a && y in a && !less(x, y) && !less(y, x) :: x == y
    ensures a == b
  {
    assert |a| > 0 ==> a[0] in b;
    assert |b| > 0 ==> b[0] in a;
    if |a| > 0 {
      var fa, x := a[..|a| - 1], a[|a| - 1];
      var fb, y := b[..|b| - 1], b[|b| - 1];
      assert x in b && y in a;
      if x != y {
        SortedLast(b, x, less);
        SortedLast(a, y, less);
      }
      forall z ensures z in fa <==> z in fb {
        if z in a && z != x { SortedLast(a, z, less); SortedLast(b, z, less); }
      }
      SortedIsUnique(fa, fb, less);
      assert a == fa + [x] && b == fb + [y];
    }
  }

  /** Where `x` goes in a sorted sequence: after everything not greater, as a stable sort does. */
  function InsertPoint<T>(s: seq<T>, x: T, less: (T, T) -> bool): (i: nat)
    ensures i <= |s|
    ensures forall j | i <= j < |s| :: less(x, s[j])
    ensures i > 0 ==> !less(x, s[i - 1])
  {
    if s == [] then 0
    else if less(x, s[|s| - 1]) then InsertPoint(s[..|s| - 1], x, less)
    else |s|
  }

  lemma InsertSorted<T(!new)>(r: seq<T>, x: T, i: nat, less: (T, T) -> bool)
    requires StrictWeakOrder(less) && Sorted(r, less) && i <= |r|
    requires forall j | i <= j < |r| :: less(x, r[j])
    requires i > 0 ==> !less(x, r[i - 1])
    ensures Sorted(r[..i] + [x] + r[i..], less)
  {
    var t := r[..i] + [x] + r[i..];
    forall j, k | 0 <= j < k < |t| ensures !less(t[k], t[j]) {
      if j < i && k < i {
        assert t[j] == r[j] && t[k] == r[k];
      } else if j > i {
        assert t[j] == r[j - 1] && t[k] == r[k - 1];
      } else if j == i {
        assert t[k] == r[k - 1] && less(x, r[k - 1]);
        assert less(t[k], x) ==> less(x, x);
      } else if k == i {
        assert t[j] == r[j];
        assert j == i - 1 || !less(r[i - 1], r[j]);
      } else {
        assert t[j] == r[j] && t[k] == r[k - 1];
      }
    }
  }

  lemma OneMoreElement<T>(r: seq<T>, x: T, i: nat)
    requires i <= |r|
    ensures multiset(r[..i] + [x] + r[i..]) == multiset(r) + multiset{x}
  {
    assert r == r[..i] + r[i..];
  }

  function Inserted<T(!new)>(r: seq<T>, x: T, less: (T, T) -> bool): (t: seq<T>)
    requires StrictWeakOrder(less) && Sorted(r, less)
    ensures Sorted(t, less)
    ensures multiset(t) == multiset(r) + multiset{x}
  {
    var i := InsertPoint(r, x, less);
    InsertSorted(r, x, i, less);
    OneMoreElement(r, x, i);
    r[..i] + [x] + r[i..]
  }

  /** Insertion sort: stands for sort.Slice, sort.SliceStable and sort.Strings. */
  method SortBy<T(!new)>(s: seq<T>, less: (T, T) -> bool) returns (r: seq<T>)
    requires StrictWeakOrder(less)
    ensures SortOf(r, s, less)
  {
    r := [];
    for k := 0 to |s|
      invariant SortOf(r, s[..k], less)
    {
      assert s[..k + 1] == s[..k] + [s[k]];
      r := Inserted(r, s[k], less);
    }
    assert s[..|s|] == s;
  }

  lemma StringLessIsOrder()
    ensures StrictWeakOrder(StringLess)
  {
    forall x: string ensures !StringLess(x, x) { StringLessTrichotomy(x, x); }
    forall x, y, z | StringLess(x, y) && StringLess(y, z) ensures StringLess(x, z) { StringLessTransitive(x, y, z); }
    forall x, y, z | !StringLess(x, y) && !StringLess(y, z) ensures !StringLess(x, z) { NotLessTransitive(x, y, z); }
  }

  method SortStrings(s: seq<string>) returns (r: seq<string>)
    ensures SortOf(r, s, StringLess)
  {
    StringLessIsOrder();
    r := SortBy(s, StringLess);
  }

  /** An order by a string key. */
  lemma KeyOrder<T(!new)>(key: T -> string, less: (T, T) -> bool)
    requires forall x, y :: less(x, y) == StringLess(key(x), key(y))
    ensures StrictWeakOrder(less)
  {
    forall x ensures !less(x, x) { StringLessTrichotomy(key(x), key(x)); }
    forall x, y, z | less(x, y) && less(y, z) ensures less(x, z) { StringLessTransitive(key(x), key(y), key(z)); }
    forall x, y, z | !less(x, y) && !less(y, z) ensures !less(x, z) { NotLessTransitive(key(x), key(y), key(z)); }
  }

  lemma NotLessTransitive(x: string, y: string, z: string)
    requires !StringLess(x, y) && !StringLess(y, z)
    ensures !StringLess(x, z)
  {
    StringLessTrichotomy(x, y);
    StringLessTrichotomy(y, z);
    StringLessTrichotomy(x, z);
    if StringLess(x, z) && x != y && y != z { StringLessTransitive(z, y, x); }
  }

  /** An order by two string keys, the second breaking ties. */
  lemma TwoKeyOrder<T(!new)>(first: T -> string, second: T -> string, less: (T, T) -> bool)
    requires forall x, y :: less(x, y) == if first(x) != first(y) then StringLess(first(x), first(y)) else StringLess(second(x), second(y))
    ensures StrictWeakOrder(less)
  {
    forall x ensures !less(x, x) { StringLessTrichotomy(second(x), second(x)); }
    forall x, y, z | less(x, y) && less(y, z) ensures less(x, z) {
      if first(x) == first(y) == first(z) {
        StringLessTransitive(second(x), second(y), second(z));
      } else if first(x) != first(y) && first(y) != first(z) {
        StringLessTransitive(first(x), first(y), first(z));
        StringLessTrichotomy(first(x), first(z));
      }
    }
    forall x, y, z | !less(x, y) && !less(y, z) ensures !less(x, z) {
      StringLessTrichotomy(first(x), first(y));
      StringLessTrichotomy(first(y), first(z));
      StringLessTrichotomy(first(x), first(z));
      if first(x) == first(y) == first(z) {
        NotLessTransitive(second(x), second(y), second(z));
      } else {
        NotLessTransitive(first(x), first(y), first(z));
      }
    }
  }
}
