/** Grouping a list by a key in a dictionary of lists, as Python's `defaultdict(list)` is used. */
module Groups {
  import opened Options
  import opened Sequences
  import opened OrderedMaps

  function Group<K(==), T>(m: seq<Binding<K, seq<T>>>, k: K): seq<T> {
    if Get(m, k).Some? then Get(m, k).value else []
  }

  function Put<K(==), T>(m: seq<Binding<K, seq<T>>>, k: K, x: T): seq<Binding<K, seq<T>>> {
    Set(m, k, Group(m, k) + [x])
  }

  lemma {:induction false} FlatValues<K, T>(m: seq<Binding<K, seq<T>>>, b: Binding<K, seq<T>>)
    ensures Flat(Values(m + [b])) == Flat(Values(m)) + b.value
  {
    assert (m + [b])[..|m|] == m;
    FlatAppend(Values(m), b.value);
  }

  lemma {:induction false} ReplaceAbsent<K, T>(m: seq<Binding<K, seq<T>>>, k: K, v: seq<T>)
    requires Get(m, k).None?
    ensures Replace(m, k, v) == m
  {
    if m != [] {
      ReplaceAbsent(m[..|m| - 1], k, v);
      assert m[..|m| - 1] + [m[|m| - 1]] == m;
    }
  }

  lemma {:induction false} AppendAdds<T>(s: seq<T>, x: T)
    ensures multiset(s + [x]) == multiset(s) + multiset{x}
  {
  }

  lemma {:induction false} ConcatAdds<T>(a: seq<T>, b: seq<T>, x: T)
    ensures multiset(a + (b + [x])) == multiset(a + b) + multiset{x}
  {
    assert a + (b + [x]) == (a + b) + [x];
    AppendAdds(a + b, x);
  }

  lemma {:induction false} LongerAdds<T>(a: seq<T>, a': seq<T>, b: seq<T>, x: T)
    requires multiset(a') == multiset(a) + multiset{x}
    ensures multiset(a' + b) == multiset(a + b) + multiset{x}
  {
    assert multiset(a' + b) == multiset(a') + multiset(b) && multiset(a + b) == multiset(a) + multiset(b);
  }

  lemma {:induction false} ReplaceAppend<K, T>(m: seq<Binding<K, seq<T>>>, b: Binding<K, seq<T>>, k: K, v: seq<T>)
    ensures Replace(m + [b], k, v) == Replace(m, k, v) + [if b.key == k then Binding(k, v) else b]
  {
    assert (m + [b])[..|m|] == m;
  }

  lemma {:induction false} FlatReplace<K, T>(m: seq<Binding<K, seq<T>>>, k: K, x: T)
    requires Unique(m) && Get(m, k).Some?
    ensures multiset(Flat(Values(Replace(m, k, Get(m, k).value + [x])))) == multiset(Flat(Values(m))) + multiset{x}
  {
    var front, last := m[..|m| - 1], m[|m| - 1];
    var v := Get(m, k).value + [x];
    assert front + [last] == m;
    ReplaceAppend(front, last, k, v);
    FlatValues(front, last);
    if last.key == k {
      ReplaceAbsent(front, k, v);
      hide *;
      FlatValues(front, Binding(k, v));
      ConcatAdds(Flat(Values(front)), last.value, x);
    } else {
      FlatReplace(front, k, x);
      hide *;
      FlatValues(Replace(front, k, v), last);
      LongerAdds(Flat(Values(front)), Flat(Values(Replace(front, k, v))), last.value, x);
    }
  }

  /** Putting an item into its group keeps all others and adds it once. */
  lemma {:induction false} PutAdds<K, T>(m: seq<Binding<K, seq<T>>>, k: K, x: T)
    requires Unique(m)
    ensures Unique(Put(m, k, x))
    ensures multiset(Flat(Values(Put(m, k, x)))) == multiset(Flat(Values(m))) + multiset{x}
  {
    hide Get, Replace, Unique, Values, Flat;
    UniqueSet(m, k, Group(m, k) + [x]);
    if Get(m, k).Some? {
      FlatReplace(m, k, x);
    } else {
      FlatValues(m, Binding(k, Group(m, k) + [x]));
    }
  }

  lemma {:induction false} PutGroups<K, T>(m: seq<Binding<K, seq<T>>>, k: K, x: T, j: K)
    ensures Get(Put(m, k, x), j) == if j == k then Some(Group(m, k) + [x]) else Get(m, j)
  {
    hide Get, Set;
    GetSet(m, k, Group(m, k) + [x], j);
  }
}
