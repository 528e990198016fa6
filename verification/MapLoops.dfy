/** Ranging over a Go map.  The order is not determined: each loop takes any remaining key. */
module MapLoops {

  /** The entries of `m` that are not gone. */
  function Without<V>(m: map<string, V>, gone: (string, V) -> bool): map<string, V> {
    map key | key in m && !gone(key, m[key]) :: m[key]
  }

  /** Copies of the wanted entries of `m`. */
  function Copied<V>(m: map<string, V>, wanted: (string, V) -> bool, copy: V -> V): map<string, V> {
    map key | key in m && wanted(key, m[key]) :: copy(m[key])
  }

  /** for key, v := range m { if gone(key, v) { delete(m, key) } } */
  method DeleteWhere<V>(m: map<string, V>, gone: (string, V) -> bool) returns (r: map<string, V>)
    ensures r == Without(m, gone)
  {
    r := m;
    var todo := m.Keys;
    while todo != {}
      invariant todo <= m.Keys
      invariant forall key :: key in r <==> key in todo || (key in m && !gone(key, m[key]))
      invariant forall key | key in r :: r[key] == m[key]
    {
      var key :| key in todo;
      todo := todo - {key};
      if gone(key, m[key]) {
        r := r - {key};
      }
    }
  }

  /** for key, v := range patch { if wanted(key, v) { m[key] = copy(v) } } */
  method WriteOver<V>(m: map<string, V>, patch: map<string, V>, wanted: (string, V) -> bool, copy: V -> V) returns (r: map<string, V>)
    ensures r == m + Copied(patch, wanted, copy)
  {
    r := m;
    var todo := patch.Keys;
    while todo != {}
      invariant todo <= patch.Keys
      invariant forall key :: key in r <==> key in m || (key in patch.Keys - todo && wanted(key, patch[key]))
      invariant forall key | key in r :: r[key] == if key in patch.Keys - todo && wanted(key, patch[key]) then copy(patch[key]) else m[key]
    {
      var key :| key in todo;
      todo := todo - {key};
      if wanted(key, patch[key]) {
        r := r[key := copy(patch[key])];
      }
    }
  }

  /** for key, v := range m { if !good(key, v) { return an error } } */
  method Every<V>(m: map<string, V>, good: (string, V) -> bool) returns (ok: bool)
    ensures ok <==> forall key | key in m :: good(key, m[key])
  {
    var todo := m.Keys;
    while todo != {}
      invariant todo <= m.Keys && forall key | key in m.Keys - todo :: good(key, m[key])
    {
      var key :| key in todo;
      todo := todo - {key};
      if !good(key, m[key]) {
        return false;
      }
    }
    return true;
  }

  method ListKeys<V>(m: map<string, V>) returns (keys: seq<string>)
    ensures forall key :: key in keys <==> key in m
    ensures forall i, j | 0 <= i < j < |keys| :: keys[i] != keys[j]
  {
    keys := [];
    var todo := m.Keys;
    while todo != {}
      invariant todo <= m.Keys
      invariant forall key :: key in keys <==> key in m.Keys - todo
      invariant forall i, j | 0 <= i < j < |keys| :: keys[i] != keys[j]
    {
      var key :| key in todo;
      assert key !in keys;
      assert forall i | 0 <= i < |keys| :: keys[i] != key;
      todo := todo - {key};
      ghost var before := keys;
      keys := keys + [key];
      assert forall k :: k in keys <==> k in before || k == key;
    }
  }
}
