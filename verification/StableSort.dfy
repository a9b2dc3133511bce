/** Sorting by a key as Python's `sorted` does it: items with equal keys keep their order. */
module StableSort {
  import opened Sequences

  /** Insert an item after all items whose keys are not larger. */
  function Insert<T>(s: seq<T>, x: T, key: T -> real): seq<T> {
    if s == [] || key(s[|s| - 1]) <= key(x) then s + [x]
    else Insert(s[..|s| - 1], x, key) + [s[|s| - 1]]
  }

  function SortedBy<T>(s: seq<T>, key: T -> real): seq<T> {
    if s == [] then [] else Insert(SortedBy(s[..|s| - 1], key), s[|s| - 1], key)
  }

  predicate Ordered<T>(s: seq<T>, key: T -> real) {
    forall i | 0 < i < |s| :: key(s[i - 1]) <= key(s[i])
  }

  lemma {:induction false} InsertAdds<T>(s: seq<T>, x: T, key: T -> real)
    ensures multiset(Insert(s, x, key)) == multiset(s) + multiset{x}
  {
    if s == [] || key(s[|s| - 1]) <= key(x) {
    } else {
      InsertAdds(s[..|s| - 1], x, key);
      assert s == s[..|s| - 1] + [s[|s| - 1]];
    }
  }

  lemma {:induction false} OrderedAppend<T>(s: seq<T>, x: T, key: T -> real)
    requires Ordered(s, key) && (s != [] ==> key(s[|s| - 1]) <= key(x))
    ensures Ordered(s + [x], key)
  {
  }

  lemma {:induction false} OrderedFront<T>(s: seq<T>, key: T -> real)
    requires Ordered(s, key) && s != []
    ensures Ordered(s[..|s| - 1], key)
    ensures |s| > 1 ==> key(s[|s| - 2]) <= key(s[|s| - 1])
  {
  }

  /** Everything inserted below a bound stays below it. */
  lemma {:induction false} InsertOrders<T>(s: seq<T>, x: T, key: T -> real, bound: real)
    requires Ordered(s, key)
    ensures Ordered(Insert(s, x, key), key) && Insert(s, x, key) != []
    ensures var t := Insert(s, x, key);
      key(x) <= bound && (s != [] ==> key(s[|s| - 1]) <= bound) ==> key(t[|t| - 1]) <= bound
  {
    if s == [] || key(s[|s| - 1]) <= key(x) {
      OrderedAppend(s, x, key);
    } else {
      var front, last := s[..|s| - 1], s[|s| - 1];
      OrderedFront(s, key);
      InsertOrders(front, x, key, key(last));
      hide Ordered;
      OrderedAppend(Insert(front, x, key), last, key);
    }
  }

  /** The result is in order and a rearrangement of the input. */
  lemma {:induction false} SortedByIsSorted<T>(s: seq<T>, key: T -> real)
    ensures Ordered(SortedBy(s, key), key)
    ensures multiset(SortedBy(s, key)) == multiset(s) && |SortedBy(s, key)| == |s|
  {
    if s != [] {
      var front, last := s[..|s| - 1], s[|s| - 1];
      assert s == front + [last];
      SortedByIsSorted(front, key);
      InsertAdds(SortedBy(front, key), last, key);
      InsertOrders(SortedBy(front, key), last, key, 0.0);
      hide Insert, Ordered;
      assert |SortedBy(s, key)| == |multiset(SortedBy(s, key))| == |multiset(s)|;
    }
  }

  /** What is in order already is left as it is. */
  lemma {:induction false} SortedByOfOrdered<T>(s: seq<T>, key: T -> real)
    requires Ordered(s, key)
    ensures SortedBy(s, key) == s
  {
    if s != [] {
      var front, last := s[..|s| - 1], s[|s| - 1];
      SortedByOfOrdered(front, key);
      if front != [] {
        assert key(s[|s| - 2]) <= key(s[|s| - 1]);
      }
      assert front + [last] == s;
    }
  }

  lemma {:induction false} SortedMember<T>(s: seq<T>, key: T -> real, x: T)
    ensures x in SortedBy(s, key) <==> x in s
  {
    SortedByIsSorted(s, key);
    assert x in SortedBy(s, key) <==> x in multiset(SortedBy(s, key));
    assert x in s <==> x in multiset(s);
  }

  // ---------------------------------------------------------------------------
  // Rearrangements
  // ---------------------------------------------------------------------------

  function Map<A, B>(s: seq<A>, f: A -> B): seq<B> {
    if s == [] then [] else Map(s[..|s| - 1], f) + [f(s[|s| - 1])]
  }

  lemma {:induction false} MapConcat<A, B>(a: seq<A>, b: seq<A>, f: A -> B)
    ensures Map(a + b, f) == Map(a, f) + Map(b, f)
  {
    if b == [] {
      assert a + b == a;
    } else {
      MapConcat(a, b[..|b| - 1], f);
      assert (a + b)[..|a + b| - 1] == a + b[..|b| - 1];
    }
  }

  /** Taking out one item that two rearrangements share leaves rearrangements. */
  lemma {:induction false} TakeOut<T>(a: seq<T>, b: seq<T>) returns (i: nat)
    requires a != [] && multiset(a) == multiset(b)
    ensures i < |b| && b[i] == a[|a| - 1]
    ensures multiset(a[..|a| - 1]) == multiset(b[..i] + b[i + 1..])
    ensures b == b[..i] + [b[i]] + b[i + 1..]
  {
    var front, x := a[..|a| - 1], a[|a| - 1];
    assert a == front + [x];
    assert multiset(a) == multiset(front) + multiset{x};
    assert x in multiset(b);
    i :| 0 <= i < |b| && b[i] == x;
    SplitAt(b, i);
    var rest := multiset(b[..i] + b[i + 1..]);
    assert multiset(front) + multiset{x} == rest + multiset{x};
    SameRest(multiset(front), rest, x);
  }

  lemma {:induction false} SplitAt<T>(b: seq<T>, i: nat)
    requires i < |b|
    ensures b == b[..i] + [b[i]] + b[i + 1..]
    ensures multiset(b) == multiset(b[..i] + b[i + 1..]) + multiset{b[i]}
  {
    assert b == b[..i] + [b[i]] + b[i + 1..];
  }

  lemma {:induction false} SameRest<T>(a: multiset<T>, b: multiset<T>, x: T)
    requires a + multiset{x} == b + multiset{x}
    ensures a == b
  {
    assert a == (a + multiset{x}) - multiset{x};
    assert b == (b + multiset{x}) - multiset{x};
  }

  lemma {:induction false} MapRearranged<A, B>(a: seq<A>, b: seq<A>, f: A -> B)
    requires multiset(a) == multiset(b)
    ensures multiset(Map(a, f)) == multiset(Map(b, f))
  {
    if a == [] {
      assert |multiset(b)| == 0 && b == [];
    } else {
      var i := TakeOut(a, b);
      MapRearranged(a[..|a| - 1], b[..i] + b[i + 1..], f);
      MapConcat(b[..i], b[i + 1..], f);
      MapConcat(b[..i], [b[i]], f);
      MapConcat(b[..i] + [b[i]], b[i + 1..], f);
    }
  }

  lemma {:induction false} FlatRearranged<T>(a: seq<seq<T>>, b: seq<seq<T>>)
    requires multiset(a) == multiset(b)
    ensures multiset(Flat(a)) == multiset(Flat(b))
  {
    if a == [] {
      assert |multiset(b)| == 0 && b == [];
    } else {
      var i := TakeOut(a, b);
      FlatRearranged(a[..|a| - 1], b[..i] + b[i + 1..]);
      FlatConcat(b[..i], b[i + 1..]);
      FlatConcat(b[..i], [b[i]]);
      FlatConcat(b[..i] + [b[i]], b[i + 1..]);
      assert Flat([b[i]]) == b[i] by { assert [b[i]][..0] == []; }
    }
  }
}
