/** Lists without repeats, and lists of lists. */
module Sequences {
  predicate Distinct<T(==)>(s: seq<T>) {
    s == [] || (s[|s| - 1] !in s[..|s| - 1] && Distinct(s[..|s| - 1]))
  }

  lemma {:induction false} Regroup<T>(a: seq<T>, b: seq<T>, c: seq<T>)
    ensures (a + b) + c == a + (b + c)
  {
  }

  lemma {:induction false} ItemAt<T>(items: seq<T>, n: nat)
    requires n < |items| && Distinct(items)
    ensures items[n] !in items[..n] && items[..n + 1] == items[..n] + [items[n]]
  {
    if n < |items| - 1 {
      ItemAt(items[..|items| - 1], n);
      assert items[..|items| - 1][..n] == items[..n];
    }
  }

  lemma {:induction false} DistinctPairs<T>(s: seq<T>)
    ensures Distinct(s) <==> forall i, j | 0 <= i < j < |s| :: s[i] != s[j]
  {
    if s != [] {
      var front := s[..|s| - 1];
      DistinctPairs(front);
      if forall i, j | 0 <= i < j < |s| :: s[i] != s[j] {
        assert forall i, j | 0 <= i < j < |front| :: front[i] == s[i] && front[j] == s[j];
      }
    }
  }

  /** In a list without repeats, an element is found at one place only, and dropping it leaves no repeats. */
  lemma {:induction false} DistinctAround<T>(s: seq<T>, i: nat)
    requires i < |s| && Distinct(s)
    ensures s[i] !in s[..i] && s[i] !in s[i + 1..]
    ensures Distinct(s[..i] + s[i + 1..])
  {
    var front, last := s[..|s| - 1], s[|s| - 1];
    if i == |front| {
      assert s[..i] + s[i + 1..] == front;
    } else {
      DistinctAround(front, i);
      assert front[..i] == s[..i] && front[i + 1..] + [last] == s[i + 1..];
      var rest := s[..i] + s[i + 1..];
      assert rest[..|rest| - 1] == front[..i] + front[i + 1..];
      assert last !in front[..i] && last !in front[i + 1..];
    }
  }

  function Flat<T>(lists: seq<seq<T>>): seq<T> {
    if lists == [] then [] else Flat(lists[..|lists| - 1]) + lists[|lists| - 1]
  }

  lemma {:induction false} FlatAppend<T>(lists: seq<seq<T>>, last: seq<T>)
    ensures Flat(lists + [last]) == Flat(lists) + last
  {
    assert (lists + [last])[..|lists|] == lists;
  }

  lemma {:induction false} FlatConcat<T>(a: seq<seq<T>>, b: seq<seq<T>>)
    ensures Flat(a + b) == Flat(a) + Flat(b)
  {
    hide Flat;
    if b == [] {
      FlatNothing<T>();
      assert a + b == a && Flat(a) + [] == Flat(a);
    } else {
      var front, last := b[..|b| - 1], b[|b| - 1];
      assert front + [last] == b;
      Regroup(a, front, [last]);
      FlatConcat(a, front);
      FlatAppend(front, last);
      FlatAppend(a + front, last);
      Regroup(Flat(a), Flat(front), last);
    }
  }

  lemma {:induction false} FlatNothing<T>()
    ensures Flat<T>([]) == []
  {
  }

  lemma {:induction false} FlatPrefix<T>(lists: seq<seq<T>>, i: nat)
    requires i < |lists|
    ensures Flat(lists[..i + 1]) == Flat(lists[..i]) + lists[i]
    ensures Flat(lists[..i + 1]) <= Flat(lists)
    decreases |lists| - i
  {
    assert lists[..i + 1][..i] == lists[..i];
    if i + 1 == |lists| {
      assert lists[..i + 1] == lists;
    } else {
      FlatPrefix(lists, i + 1);
    }
  }

  /** The items at some places, in order. */
  ghost function ItemsAt<T>(s: seq<T>, places: set<nat>): seq<T> {
    if s == [] then []
    else
      var n := |s| - 1;
      ItemsAt(s[..n], places) + (if n in places then [s[n]] else [])
  }

  ghost function PlacesBelow(places: set<nat>, n: nat): set<nat> {
    set i | i in places && i < n
  }

  lemma {:induction false} PlacesBelowMore(places: set<nat>, n: nat)
    ensures PlacesBelow(places, n + 1) == PlacesBelow(places, n) + (if n in places then {n} else {})
    ensures |PlacesBelow(places, n + 1)| == |PlacesBelow(places, n)| + (if n in places then 1 else 0)
  {
    assert n !in PlacesBelow(places, n);
  }

  /** There is one item for each place, and each item comes after as many as there are places before its own. */
  lemma {:induction false} ItemsAtExactly<T>(s: seq<T>, places: set<nat>, i: nat)
    ensures |ItemsAt(s, places)| == |PlacesBelow(places, |s|)|
    ensures i < |s| && i in places ==>
      |PlacesBelow(places, i)| < |ItemsAt(s, places)| && ItemsAt(s, places)[|PlacesBelow(places, i)|] == s[i]
  {
    if s != [] {
      ItemsAtExactly(s[..|s| - 1], places, i);
      PlacesBelowMore(places, |s| - 1);
      hide PlacesBelow;
    }
  }

  /** Places beyond the list do not matter. */
  lemma {:induction false} SameItemsAt<T>(s: seq<T>, a: set<nat>, b: set<nat>)
    requires forall i: nat | i < |s| :: i in a <==> i in b
    ensures ItemsAt(s, a) == ItemsAt(s, b)
  {
    if s != [] {
      SameItemsAt(s[..|s| - 1], a, b);
    }
  }
}
