/**
 Several lines watched for one track. The displacement check is shared: a line that the track did not move towards
 also silences the lines listed after it, so a line's crossings depend on the lines before it.
 */
module SharedDisplacement {
  import opened Options
  import opened Tracks
  import opened Crossing
  import opened EntryExitModel
  import opened EntryExitTheorems

  /** The track moved far enough along the line's normal since it was last seen. */
  predicate Displaced(cfg: Settings, line: Line, seen: seq<Appearance>, curr: Point) {
    seen == [] ||
    var move := NormalMove(line, seen[|seen| - 1].centroid, curr);
    (if move < 0.0 then -move else move) >= cfg.minMove
  }

  predicate AllDisplaced(cfg: Settings, lines: seq<EntryLine>, seen: seq<Appearance>, curr: Point, n: nat)
    requires n <= |lines|
  {
    forall j: nat | 0 <= j < n :: Displaced(cfg, lines[j].line, seen, curr)
  }

  lemma {:induction false} SightingsLength(cfg: Settings, lines: seq<EntryLine>, seen: seq<Appearance>, n: nat)
    requires n < |lines|
    ensures |SightingsOf(cfg, lines, seen, n)| == |seen|
  {
    hide AllMoved;
    if seen != [] {
      SightingsLength(cfg, lines, seen[..|seen| - 1], n);
    }
  }

  lemma {:induction false} RunCentroid(cfg: Settings, lines: seq<EntryLine>, seen: seq<Appearance>, n: nat)
    requires n < |lines|
    ensures PairRun(cfg, lines, seen, n).0.lastCentroid == if seen == [] then None else Some(seen[|seen| - 1].centroid)
  {
    hide AllMoved, LineStep, Fires;
    SightingsLength(cfg, lines, seen, n);
    if seen != [] {
      var shown := SightingsOf(cfg, lines, seen, n);
      var front := shown[..|shown| - 1];
      StepCentroid(cfg, lines[n].line, LineRun(cfg, lines[n].line, front).0, shown[|shown| - 1]);
    }
  }

  /** All lines last saw the track at the same place, so the shared check is about one move. */
  lemma {:induction false} CheckIsOneMove(cfg: Settings, lines: seq<EntryLine>, seen: seq<Appearance>, curr: Point,
                                          n: nat)
    requires n <= |lines|
    ensures AllMoved(cfg, lines, seen, curr, n) <==> AllDisplaced(cfg, lines, seen, curr, n)
  {
    hide LineRun, SightingsOf, NormalMove;
    forall j: nat | 0 <= j < n
      ensures MovedEnough(cfg, lines[j].line, LineRun(cfg, lines[j].line, SightingsOf(cfg, lines, seen, j)).0, curr) <==>
        Displaced(cfg, lines[j].line, seen, curr)
    {
      RunCentroid(cfg, lines, seen, j);
    }
  }

  // ---------------------------------------------------------------------------
  // A line behind others and the same line alone
  // ---------------------------------------------------------------------------

  function Alone(cfg: Settings, line: EntryLine, seen: seq<Appearance>): (TrackLineState, seq<Fire>) {
    PairRun(cfg, [line], seen, 0)
  }

  /** What the line alone would fire at one more appearance. */
  function AloneFires(cfg: Settings, line: EntryLine, seen: seq<Appearance>, a: Appearance): Option<Direction> {
    Fires(cfg, line.line, Alone(cfg, line, seen).0, Sighting(a.centroid, a.frame, Displaced(cfg, line.line, seen, a.centroid)))
  }

  /** Whenever line `n` alone would fire, the track also moved far enough towards each line before it. */
  predicate NotHeldBack(cfg: Settings, lines: seq<EntryLine>, seen: seq<Appearance>, n: nat)
    requires n < |lines|
  {
    seen == [] ||
    var front, a := seen[..|seen| - 1], seen[|seen| - 1];
    NotHeldBack(cfg, lines, front, n)
    && (AloneFires(cfg, lines[n], front, a).Some? ==> AllDisplaced(cfg, lines, front, a.centroid, n))
  }

  /** One more appearance for line `n` among its lines. */
  lemma {:induction false} RunMore(cfg: Settings, lines: seq<EntryLine>, seen: seq<Appearance>, a: Appearance, n: nat)
    requires n < |lines|
    ensures var (s, fires) := PairRun(cfg, lines, seen, n);
      var o := Sighting(a.centroid, a.frame, AllDisplaced(cfg, lines, seen, a.centroid, n + 1));
      var d := Fires(cfg, lines[n].line, s, o);
      PairRun(cfg, lines, seen + [a], n) ==
        (LineStep(cfg, lines[n].line, s, o), fires + (if d.Some? then [Fire(|seen|, a.frame, d.value)] else []))
  {
    hide AllMoved, AllDisplaced, LineRun, Fires, LineStep;
    assert (seen + [a])[..|seen|] == seen;
    CheckIsOneMove(cfg, lines, seen, a.centroid, n + 1);
    SightingsLength(cfg, lines, seen, n);
    var o := Sighting(a.centroid, a.frame, AllMoved(cfg, lines, seen, a.centroid, n + 1));
    LineRunAppend(cfg, lines[n].line, SightingsOf(cfg, lines, seen, n), o);
    var fires := PairRun(cfg, lines, seen, n).1;
    assert fires + [] == fires;
  }

  lemma {:induction false} RunBefore(cfg: Settings, lines: seq<EntryLine>, seen: seq<Appearance>, n: nat)
    requires n < |lines|
    ensures Before(PairRun(cfg, lines, seen, n).1, |seen|)
  {
    hide LineRun, Before;
    SightingsLength(cfg, lines, seen, n);
    FiredBefore(cfg, lines[n].line, SightingsOf(cfg, lines, seen, n));
  }

  lemma {:induction false} OwnAndEarlier(cfg: Settings, lines: seq<EntryLine>, seen: seq<Appearance>, curr: Point, n: nat)
    requires n < |lines|
    ensures AllDisplaced(cfg, lines, seen, curr, n + 1) <==>
      AllDisplaced(cfg, lines, seen, curr, n) && Displaced(cfg, lines[n].line, seen, curr)
    ensures AllDisplaced(cfg, [lines[n]], seen, curr, 1) <==> Displaced(cfg, lines[n].line, seen, curr)
  {
    hide Displaced;
    assert [lines[n]][0] == lines[n];
  }

  /** The displacement flag matters only when something would fire. */
  lemma {:induction false} FlagOnlyBlocks(cfg: Settings, line: Line, s: TrackLineState, o: Sighting)
    ensures var free := o.(movedEnough := true);
      && Fires(cfg, line, s, o) == (if o.movedEnough then Fires(cfg, line, s, free) else None)
      && (Fires(cfg, line, s, o) == Fires(cfg, line, s, free) ==> LineStep(cfg, line, s, o) == LineStep(cfg, line, s, free))
  {
    hide ClassifyCrossing, CrossSign, CooldownOk;
  }

  /**
   A line fires what it would fire alone exactly when no line before it holds it back: at each appearance where it
   would fire alone, the track moved far enough towards each of the earlier lines.
   */
  lemma {:induction false} HeldBackExactly(cfg: Settings, lines: seq<EntryLine>, seen: seq<Appearance>, n: nat)
    requires n < |lines|
    ensures PairRun(cfg, lines, seen, n).1 == Alone(cfg, lines[n], seen).1 <==> NotHeldBack(cfg, lines, seen, n)
    ensures NotHeldBack(cfg, lines, seen, n) ==> PairRun(cfg, lines, seen, n) == Alone(cfg, lines[n], seen)
  {
    hide PairRun, Fires, LineStep, Displaced, AllDisplaced, Before;
    if seen == [] {
      NothingSeen(cfg, lines, n);
      NothingSeen(cfg, [lines[n]], 0);
    } else {
      var front, a := seen[..|seen| - 1], seen[|seen| - 1];
      assert front + [a] == seen;
      HeldBackExactly(cfg, lines, front, n);
      var line := lines[n].line;
      var (s, fires) := PairRun(cfg, lines, front, n);
      var (t, alone) := Alone(cfg, lines[n], front);
      var o := Sighting(a.centroid, a.frame, AllDisplaced(cfg, lines, front, a.centroid, n + 1));
      var p := Sighting(a.centroid, a.frame, Displaced(cfg, line, front, a.centroid));
      OwnAndEarlier(cfg, lines, front, a.centroid, n);
      RunMore(cfg, lines, front, a, n);
      RunMore(cfg, [lines[n]], front, a, 0);
      RunBefore(cfg, lines, front, n);
      RunBefore(cfg, [lines[n]], front, 0);
      FlagOnlyBlocks(cfg, line, s, o);
      FlagOnlyBlocks(cfg, line, t, p);
      var d, e := Fires(cfg, line, s, o), Fires(cfg, line, t, p);
      var x := if d.Some? then [Fire(|front|, a.frame, d.value)] else [];
      var y := if e.Some? then [Fire(|front|, a.frame, e.value)] else [];
      SameFront(fires, alone, x, y, |front|);
    }
  }

  lemma {:induction false} NothingSeen(cfg: Settings, lines: seq<EntryLine>, n: nat)
    requires n < |lines|
    ensures PairRun(cfg, lines, [], n) == (NEW_STATE, [])
  {
  }

  // ---------------------------------------------------------------------------
  // A lost crossing
  // ---------------------------------------------------------------------------

  const USUAL := Settings(30, 2, 4.0)
  const WALL := EntryLine("wall", Line(Point(100.0, -10.0), Point(100.0, 10.0), LeftNormal, 20.0))
  const DOOR := EntryLine("door", Line(Point(-10.0, 0.0), Point(10.0, 0.0), LeftNormal, 20.0))
  const BELOW := Appearance(Point(0.0, -5.0), 0)
  const ABOVE := Appearance(Point(0.0, 5.0), 1)

  lemma {:induction false} DoorGeometry()
    ensures ClassifyCrossing(BELOW.centroid, ABOVE.centroid, DOOR.line) == Some(Entry)
    ensures Displaced(USUAL, DOOR.line, [BELOW], ABOVE.centroid)
    ensures !Displaced(USUAL, WALL.line, [BELOW], ABOVE.centroid)
  {
    assert InwardNormal(DOOR.line) == Point(0.0, 1.0);
    assert InwardNormal(WALL.line) == Point(-1.0, 0.0);
  }

  /** With the usual settings a walk through a door is lost when the door is listed after a wall at right angles to it. */
  lemma {:induction false} DoorBehindWallLosesEntry()
    ensures Reported(Alone(USUAL, DOOR, [BELOW, ABOVE]).1) == [Crossed(Entry, 1)]
    ensures Reported(PairRun(USUAL, [WALL, DOOR], [BELOW, ABOVE], 1).1) == []
  {
    DoorGeometry();
    hide ClassifyCrossing, Displaced, LineRun, SightingsOf, CrossSign;
    assert [] + [BELOW] == [BELOW] && [BELOW] + [ABOVE] == [BELOW, ABOVE];
    NothingSeen(USUAL, [DOOR], 0);
    NothingSeen(USUAL, [WALL, DOOR], 1);
    RunMore(USUAL, [DOOR], [], BELOW, 0);
    RunMore(USUAL, [DOOR], [BELOW], ABOVE, 0);
    RunMore(USUAL, [WALL, DOOR], [], BELOW, 1);
    RunMore(USUAL, [WALL, DOOR], [BELOW], ABOVE, 1);
    assert [WALL, DOOR][0] == WALL;
    assert !AllDisplaced(USUAL, [WALL, DOOR], [BELOW], ABOVE.centroid, 2);
    assert AllDisplaced(USUAL, [DOOR], [BELOW], ABOVE.centroid, 1);
    hide PairRun, AllDisplaced;
    assert [Fire(1, 1, Entry)][..0] == [];
  }
}
