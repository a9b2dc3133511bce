/** The crossings of a frame go on line by line: the lines in the order they were first crossed. */
module CrossingGroups {
  import opened Options
  import opened Sequences
  import opened OrderedMaps
  import opened Groups
  import opened Tracks
  import opened EntryExitModel
  import opened EntryExitDetectors

  type ByLine = seq<Binding<string, seq<CrossingEvent>>>

  function GroupedByLine(crossings: seq<CrossingEvent>): ByLine {
    if crossings == [] then []
    else
      var last := crossings[|crossings| - 1];
      Put(GroupedByLine(crossings[..|crossings| - 1]), last.lineId, last)
  }

  function Regrouped(crossings: seq<CrossingEvent>): seq<CrossingEvent> {
    Flat(Values(GroupedByLine(crossings)))
  }

  method ApplyGroupCrossings(crossings: seq<CrossingEvent>) returns (envelopes: seq<CrossingEvent>)
    ensures envelopes == Regrouped(crossings)
  {
    hide Put;
    var byLine: ByLine := [];
    for i := 0 to |crossings|
      invariant byLine == GroupedByLine(crossings[..i])
    {
      assert crossings[..i + 1][..i] == crossings[..i];
      byLine := Put(byLine, crossings[i].lineId, crossings[i]);
    }
    assert crossings[..|crossings|] == crossings;
    envelopes := [];
    for i := 0 to |byLine|
      invariant envelopes == Flat(Values(byLine[..i]))
    {
      assert byLine[..i] + [byLine[i]] == byLine[..i + 1];
      FlatValues(byLine[..i], byLine[i]);
      for j := 0 to |byLine[i].value|
        invariant envelopes == Flat(Values(byLine[..i])) + byLine[i].value[..j]
      {
        envelopes := envelopes + [byLine[i].value[j]];
      }
      assert byLine[i].value[..|byLine[i].value|] == byLine[i].value;
    }
    assert byLine[..|byLine|] == byLine;
  }

  /** The crossings of one line, in order. */
  function OfLine(crossings: seq<CrossingEvent>, id: string): seq<CrossingEvent> {
    if crossings == [] then []
    else
      var last := crossings[|crossings| - 1];
      OfLine(crossings[..|crossings| - 1], id) + (if last.lineId == id then [last] else [])
  }

  /** A group is exactly its line's crossings. */
  lemma {:induction false} GroupIsLine(crossings: seq<CrossingEvent>, id: string)
    ensures Unique(GroupedByLine(crossings)) && Group(GroupedByLine(crossings), id) == OfLine(crossings, id)
  {
    if crossings != [] {
      var front, last := crossings[..|crossings| - 1], crossings[|crossings| - 1];
      GroupIsLine(front, id);
      PutAdds(GroupedByLine(front), last.lineId, last);
      PutGroups(GroupedByLine(front), last.lineId, last, id);
      assert OfLine(front, id) + [] == OfLine(front, id);
      hide Put, Unique, Get;
    }
  }

  lemma {:induction false} CrossedConcat(a: seq<CrossingEvent>, b: seq<CrossingEvent>, k: Key)
    ensures CrossedOf(a + b, k) == CrossedOf(a, k) + CrossedOf(b, k)
  {
    if b == [] {
      assert a + b == a;
    } else {
      CrossedConcat(a, b[..|b| - 1], k);
      assert (a + b)[..|a + b| - 1] == a + b[..|b| - 1];
    }
  }

  lemma {:induction false} OfLineAppend(crossings: seq<CrossingEvent>, e: CrossingEvent, id: string)
    ensures OfLine(crossings + [e], id) == if e.lineId == id then OfLine(crossings, id) + [e] else OfLine(crossings, id)
  {
    assert (crossings + [e])[..|crossings|] == crossings;
    assert OfLine(crossings, id) + [] == OfLine(crossings, id);
  }

  lemma {:induction false} CrossedOfLine(crossings: seq<CrossingEvent>, id: string, k: Key)
    ensures CrossedOf(OfLine(crossings, id), k) == if id == k.region then CrossedOf(crossings, k) else []
  {
    if crossings != [] {
      var front, last := crossings[..|crossings| - 1], crossings[|crossings| - 1];
      assert front + [last] == crossings;
      hide OfLine, CrossedOf;
      CrossedOfLine(front, id, k);
      OfLineAppend(front, last, id);
      CrossedOfAppend(OfLine(front, id), last, k);
      CrossedOfAppend(front, last, k);
    }
  }

  /** In a table whose groups have their own line's crossings only, a pair's crossings are in its line's group. */
  lemma {:induction false} CrossedInGroups(m: ByLine, k: Key)
    requires Unique(m) && forall b | b in m && b.key != k.region :: CrossedOf(b.value, k) == []
    ensures CrossedOf(Flat(Values(m)), k) == CrossedOf(Group(m, k.region), k)
  {
    if m != [] {
      var front, last := m[..|m| - 1], m[|m| - 1];
      assert front + [last] == m && last in m;
      CrossedInGroups(front, k);
      FlatValues(front, last);
      hide Flat, Values, CrossedOf;
      CrossedConcat(Flat(Values(front)), last.value, k);
      assert CrossedOf([], k) == [] by { NoneCrossed(k); }
    }
  }

  lemma {:induction false} NoneCrossed(k: Key)
    ensures CrossedOf([], k) == []
  {
  }

  lemma {:induction false} GroupAt(m: ByLine, b: Binding<string, seq<CrossingEvent>>)
    requires Unique(m) && b in m
    ensures Get(m, b.key) == Some(b.value)
  {
    var front := m[..|m| - 1];
    if b != m[|m| - 1] {
      GroupAt(front, b);
    }
  }

  /** Regrouping changes no pair's crossings, loses none and doubles none. */
  lemma {:induction false} RegroupedKeepsPairs(crossings: seq<CrossingEvent>, k: Key)
    ensures CrossedOf(Regrouped(crossings), k) == CrossedOf(crossings, k)
  {
    hide GroupedByLine, Unique, Get, CrossedOf, Flat, Values;
    var m := GroupedByLine(crossings);
    GroupIsLine(crossings, k.region);
    forall b | b in m && b.key != k.region
      ensures CrossedOf(b.value, k) == []
    {
      GroupIsLine(crossings, b.key);
      GroupAt(m, b);
      CrossedOfLine(crossings, b.key, k);
    }
    CrossedInGroups(m, k);
    CrossedOfLine(crossings, k.region, k);
  }

  lemma {:induction false} RegroupedIsRearrangement(crossings: seq<CrossingEvent>)
    ensures multiset(Regrouped(crossings)) == multiset(crossings) && Unique(GroupedByLine(crossings))
  {
    if crossings != [] {
      var front, last := crossings[..|crossings| - 1], crossings[|crossings| - 1];
      assert GroupedByLine(crossings) == Put(GroupedByLine(front), last.lineId, last);
      assert front + [last] == crossings;
      hide Put, Unique, Flat, Values, GroupedByLine;
      RegroupedIsRearrangement(front);
      PutAdds(GroupedByLine(front), last.lineId, last);
      AppendAdds(front, last);
    }
  }
}
