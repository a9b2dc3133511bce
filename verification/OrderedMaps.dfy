/** A dictionary that keeps its keys in insertion order: replacing a value keeps its place, a new key goes last. */
module OrderedMaps {
  import opened Options

  datatype Binding<K, V> = Binding(key: K, value: V)

  function Get<K(==), V>(m: seq<Binding<K, V>>, k: K): Option<V> {
    if m == [] then None
    else if m[|m| - 1].key == k then Some(m[|m| - 1].value)
    else Get(m[..|m| - 1], k)
  }

  function Replace<K(==), V>(m: seq<Binding<K, V>>, k: K, v: V): seq<Binding<K, V>> {
    if m == [] then []
    else Replace(m[..|m| - 1], k, v) + [if m[|m| - 1].key == k then Binding(k, v) else m[|m| - 1]]
  }

  function Set<K(==), V>(m: seq<Binding<K, V>>, k: K, v: V): seq<Binding<K, V>> {
    if Get(m, k).Some? then Replace(m, k, v) else m + [Binding(k, v)]
  }

  function Remove<K(==), V>(m: seq<Binding<K, V>>, k: K): seq<Binding<K, V>> {
    if m == [] then []
    else Remove(m[..|m| - 1], k) + (if m[|m| - 1].key == k then [] else [m[|m| - 1]])
  }

  function Values<K, V>(m: seq<Binding<K, V>>): seq<V> {
    if m == [] then [] else Values(m[..|m| - 1]) + [m[|m| - 1].value]
  }

  predicate Unique<K(==), V>(m: seq<Binding<K, V>>) {
    m == [] || (Get(m[..|m| - 1], m[|m| - 1].key).None? && Unique(m[..|m| - 1]))
  }

  lemma {:induction false} GetAppend<K, V>(m: seq<Binding<K, V>>, b: Binding<K, V>, k: K)
    ensures Get(m + [b], k) == if b.key == k then Some(b.value) else Get(m, k)
  {
    assert (m + [b])[..|m|] == m;
  }

  lemma {:induction false} RemoveAppend<K, V>(m: seq<Binding<K, V>>, b: Binding<K, V>, k: K)
    ensures Remove(m + [b], k) == if b.key == k then Remove(m, k) else Remove(m, k) + [b]
  {
    assert (m + [b])[..|m|] == m;
    assert Remove(m, k) + [] == Remove(m, k);
  }

  lemma {:induction false} GetReplace<K, V>(m: seq<Binding<K, V>>, k: K, v: V, j: K)
    ensures Get(Replace(m, k, v), j) == if j == k && Get(m, k).Some? then Some(v) else Get(m, j)
    ensures |Replace(m, k, v)| == |m|
  {
    if m != [] {
      var front, last := m[..|m| - 1], m[|m| - 1];
      GetReplace(front, k, v, j);
      GetAppend(Replace(front, k, v), if last.key == k then Binding(k, v) else last, j);
    }
  }

  lemma {:induction false} GetSet<K, V>(m: seq<Binding<K, V>>, k: K, v: V, j: K)
    ensures Get(Set(m, k, v), j) == if j == k then Some(v) else Get(m, j)
    ensures |Set(m, k, v)| == |m| + (if Get(m, k).None? then 1 else 0)
  {
    hide Get, Replace;
    GetReplace(m, k, v, j);
    GetAppend(m, Binding(k, v), j);
  }

  lemma {:induction false} GetRemove<K, V>(m: seq<Binding<K, V>>, k: K, j: K)
    ensures Get(Remove(m, k), j) == if j == k then None else Get(m, j)
  {
    if m != [] {
      var front, last := m[..|m| - 1], m[|m| - 1];
      GetRemove(front, k, j);
      if last.key == k {
        assert Remove(front, k) + [] == Remove(front, k);
      } else {
        GetAppend(Remove(front, k), last, j);
      }
    }
  }

  lemma {:induction false} RemoveLength<K, V>(m: seq<Binding<K, V>>, k: K)
    requires Unique(m)
    ensures |Remove(m, k)| == |m| - (if Get(m, k).Some? then 1 else 0)
  {
    if m != [] {
      RemoveLength(m[..|m| - 1], k);
    }
  }

  lemma {:induction false} UniqueAppend<K, V>(m: seq<Binding<K, V>>, b: Binding<K, V>)
    requires Unique(m) && Get(m, b.key).None?
    ensures Unique(m + [b])
  {
    assert (m + [b])[..|m|] == m;
  }

  lemma {:induction false} UniqueReplace<K, V>(m: seq<Binding<K, V>>, k: K, v: V)
    requires Unique(m)
    ensures Unique(Replace(m, k, v))
  {
    if m != [] {
      var front, last := m[..|m| - 1], m[|m| - 1];
      UniqueReplace(front, k, v);
      GetReplace(front, k, v, last.key);
      UniqueAppend(Replace(front, k, v), if last.key == k then Binding(k, v) else last);
    }
  }

  lemma {:induction false} UniqueSet<K, V>(m: seq<Binding<K, V>>, k: K, v: V)
    requires Unique(m)
    ensures Unique(Set(m, k, v))
  {
    hide Get, Unique, Replace;
    if Get(m, k).Some? {
      UniqueReplace(m, k, v);
    } else {
      UniqueAppend(m, Binding(k, v));
    }
  }

  lemma {:induction false} UniqueRemove<K, V>(m: seq<Binding<K, V>>, k: K)
    requires Unique(m)
    ensures Unique(Remove(m, k))
  {
    if m != [] {
      var front, last := m[..|m| - 1], m[|m| - 1];
      UniqueRemove(front, k);
      if last.key == k {
        assert Remove(front, k) + [] == Remove(front, k);
      } else {
        GetRemove(front, k, last.key);
        UniqueAppend(Remove(front, k), last);
      }
    }
  }
}
