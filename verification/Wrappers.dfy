/** Failure and absence, as used by the other modules. */
module Wrappers {

  /** A value that may be absent: Go's `value, ok` pairs, and nil maps and pointers. */
  datatype Option<+T> = None | Some(value: T)

  /** `a` lists some of the elements of `b`, in their order: `at` are their places. */
  predicate ListsAt<T(==)>(a: seq<T>, b: seq<T>, at: seq<nat>) {
    && |at| == |a| && (forall i | 0 <= i < |at| :: at[i] < |b| && a[i] == b[at[i]])
    && forall i, j | 0 <= i < j < |at| :: at[i] < at[j]
  }

  ghost predicate InOrder<T>(a: seq<T>, b: seq<T>) {
    exists at: seq<nat> :: ListsAt(a, b, at)
  }

  lemma NoneInOrder<T>(b: seq<T>)
    ensures InOrder([], b)
  {
    assert ListsAt<T>([], b, []);
  }

  /** Whether or not the next element is listed too. */
  lemma InOrderGrows<T>(a: seq<T>, b: seq<T>, x: T, listed: bool)
    requires InOrder(a, b)
    ensures InOrder(a + if listed then [x] else [], b + [x])
  {
    var at: seq<nat> :| ListsAt(a, b, at);
    assert ListsAt(a + if listed then [x] else [], b + [x], at + if listed then [|b|] else []);
  }

  predicate Distinct<T(==)>(s: seq<T>) {
    forall i, j | 0 <= i < j < |s| :: s[i] != s[j]
  }
}
