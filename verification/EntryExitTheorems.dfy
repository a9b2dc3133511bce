/** What the crossing machine fires, said of the history of sightings instead of its state. */
module EntryExitTheorems {
  import opened Options
  import opened Tracks
  import opened Crossing
  import opened EntryExitModel

  // ---------------------------------------------------------------------------
  // Laws of every run
  // ---------------------------------------------------------------------------

  /** Each fire is a raw crossing between two consecutive sightings. */
  ghost predicate IsCrossing(line: Line, seen: seq<Sighting>, f: Fire) {
    && 0 < f.at < |seen| && f.frame == seen[f.at].frame && seen[f.at].movedEnough
    && ClassifyCrossing(seen[f.at - 1].centroid, seen[f.at].centroid, line) == Some(f.direction)
  }

  /** Fires of the same direction are at least the cooldown apart. */
  ghost predicate Spaced(cfg: Settings, fires: seq<Fire>) {
    forall i, j | 0 <= i < j < |fires| && fires[i].direction == fires[j].direction ::
      fires[j].frame - fires[i].frame >= cfg.cooldown
  }

  /** Between two fires the track was seen often enough to settle. */
  ghost predicate Settled(cfg: Settings, fires: seq<Fire>) {
    forall i | 0 < i < |fires| :: fires[i].at - fires[i - 1].at >= cfg.debounce
  }

  /** What the state remembers of the fires so far, after `n` sightings. */
  ghost predicate Remembers(cfg: Settings, s: TrackLineState, fires: seq<Fire>, n: nat) {
    && (forall i | 0 <= i < |fires| :: fires[i].frame <= (if fires[i].direction == Entry then s.lastEntry else s.lastExit))
    && (fires != [] ==>
          && fires[|fires| - 1].at < n
          && (!s.armed ==> s.stableFrames <= n - fires[|fires| - 1].at)
          && (s.armed ==> n - fires[|fires| - 1].at >= cfg.debounce))
  }

  ghost predicate Lawful(cfg: Settings, line: Line, seen: seq<Sighting>, s: TrackLineState, fires: seq<Fire>) {
    && (forall i | 0 <= i < |fires| :: IsCrossing(line, seen, fires[i]))
    && Spaced(cfg, fires) && Settled(cfg, fires) && Remembers(cfg, s, fires, |seen|)
    && s.lastCentroid == if seen == [] then None else Some(seen[|seen| - 1].centroid)
  }

  /** A sighting that fires. */
  lemma {:induction false} FireKeeps(cfg: Settings, line: Line, s: TrackLineState, fires: seq<Fire>, o: Sighting,
                                     n: nat)
    requires Spaced(cfg, fires) && Settled(cfg, fires) && Remembers(cfg, s, fires, n) && Fires(cfg, line, s, o).Some?
    ensures var more := fires + [Fire(n, o.frame, Fires(cfg, line, s, o).value)];
      Spaced(cfg, more) && Settled(cfg, more) && Remembers(cfg, LineStep(cfg, line, s, o), more, n + 1)
  {
    hide ClassifyCrossing, CrossSign;
  }

  /** A sighting that does not. */
  lemma {:induction false} QuietKeeps(cfg: Settings, line: Line, s: TrackLineState, fires: seq<Fire>, o: Sighting,
                                      n: nat)
    requires Remembers(cfg, s, fires, n) && Fires(cfg, line, s, o).None?
    ensures Remembers(cfg, LineStep(cfg, line, s, o), fires, n + 1)
  {
    hide ClassifyCrossing, CrossSign;
  }

  lemma {:induction false} CrossingsStay(line: Line, seen: seq<Sighting>, o: Sighting, fires: seq<Fire>)
    requires forall i | 0 <= i < |fires| :: IsCrossing(line, seen, fires[i])
    ensures forall i | 0 <= i < |fires| :: IsCrossing(line, seen + [o], fires[i])
  {
    hide ClassifyCrossing;
    forall i | 0 <= i < |fires|
      ensures IsCrossing(line, seen + [o], fires[i])
    {
      assert (seen + [o])[fires[i].at] == seen[fires[i].at] && (seen + [o])[fires[i].at - 1] == seen[fires[i].at - 1];
    }
  }

  lemma {:induction false} NewCrossing(cfg: Settings, line: Line, seen: seq<Sighting>, s: TrackLineState, o: Sighting)
    requires s.lastCentroid == if seen == [] then None else Some(seen[|seen| - 1].centroid)
    requires Fires(cfg, line, s, o).Some?
    ensures IsCrossing(line, seen + [o], Fire(|seen|, o.frame, Fires(cfg, line, s, o).value))
  {
    hide ClassifyCrossing;
    assert (seen + [o])[|seen|] == o && (seen + [o])[|seen| - 1] == seen[|seen| - 1];
  }

  lemma {:induction false} StepIsLawful(cfg: Settings, line: Line, seen: seq<Sighting>, o: Sighting)
    requires var (s, fires) := LineRun(cfg, line, seen); Lawful(cfg, line, seen, s, fires)
    ensures var (s, fires) := LineRun(cfg, line, seen + [o]); Lawful(cfg, line, seen + [o], s, fires)
  {
    hide LineRun, LineStep, Remembers, Spaced, Settled, ClassifyCrossing, UpdateDebounce, CooldownOk;
    var (s, fires) := LineRun(cfg, line, seen);
    LineRunAppend(cfg, line, seen, o);
    StepCentroid(cfg, line, s, o);
    CrossingsStay(line, seen, o, fires);
    if Fires(cfg, line, s, o).Some? {
      NewCrossing(cfg, line, seen, s, o);
      hide IsCrossing, Fires;
      FireKeeps(cfg, line, s, fires, o, |seen|);
    } else {
      QuietKeeps(cfg, line, s, fires, o, |seen|);
    }
  }

  /** Every run of a pair: fires are crossings, spaced by the cooldown in each direction and by the debounce in all. */
  lemma {:induction false} RunIsLawful(cfg: Settings, line: Line, seen: seq<Sighting>)
    ensures var (s, fires) := LineRun(cfg, line, seen); Lawful(cfg, line, seen, s, fires)
  {
    if seen == [] {
      hide ClassifyCrossing;
    } else {
      hide *;
      RunIsLawful(cfg, line, seen[..|seen| - 1]);
      StepIsLawful(cfg, line, seen[..|seen| - 1], seen[|seen| - 1]);
      assert seen[..|seen| - 1] + [seen[|seen| - 1]] == seen;
    }
  }

  // ---------------------------------------------------------------------------
  // Exactly what fires
  // ---------------------------------------------------------------------------

  function Sides(line: Line, seen: seq<Sighting>): seq<int> {
    if seen == [] then []
    else Sides(line, seen[..|seen| - 1]) + [Side(CrossSign(line, seen[|seen| - 1].centroid))]
  }

  /** The side of the latest sightings, leaving out those on the line. */
  function RunSide(sides: seq<int>): int {
    if sides == [] then 0
    else if sides[|sides| - 1] == 0 then RunSide(sides[..|sides| - 1])
    else sides[|sides| - 1]
  }

  /** How many of the latest sightings are on that side, leaving out those on the line. */
  function RunLength(sides: seq<int>): nat {
    if sides == [] then 0
    else
      var front, last := sides[..|sides| - 1], sides[|sides| - 1];
      if last == 0 then RunLength(front)
      else if RunSide(front) == last then RunLength(front) + 1
      else 1
  }

  /** How many sightings on one side settle a track; even without a debounce it takes one off the line. */
  function SettleTime(cfg: Settings): nat {
    if cfg.debounce < 1 then 1 else cfg.debounce
  }

  /** At some time the track had been seen on one side for long enough. */
  predicate HasSettled(cfg: Settings, sides: seq<int>) {
    sides != [] && (HasSettled(cfg, sides[..|sides| - 1]) || RunLength(sides) >= SettleTime(cfg))
  }

  function Since(seen: seq<Sighting>, at: nat): seq<Sighting> {
    if at <= |seen| then seen[at..] else []
  }

  /** Nothing has fired yet, or the track has settled since the last fire. */
  predicate Rearmed(cfg: Settings, line: Line, seen: seq<Sighting>, fires: seq<Fire>) {
    fires == [] || HasSettled(cfg, Sides(line, Since(seen, fires[|fires| - 1].at)))
  }

  /** The frame of the latest fire of a direction. */
  function LastFrame(fires: seq<Fire>, d: Direction): int {
    if fires == [] then NEVER
    else if fires[|fires| - 1].direction == d then fires[|fires| - 1].frame
    else LastFrame(fires[..|fires| - 1], d)
  }

  /** A raw crossing in direction `d` that nothing in the history holds back. */
  predicate Due(cfg: Settings, line: Line, seen: seq<Sighting>, fires: seq<Fire>, o: Sighting, d: Direction) {
    && seen != [] && ClassifyCrossing(seen[|seen| - 1].centroid, o.centroid, line) == Some(d)
    && o.movedEnough && Rearmed(cfg, line, seen, fires)
    && o.frame - LastFrame(fires, d) >= cfg.cooldown
  }

  /** What the state is, in terms of the history. */
  ghost predicate TellsHistory(cfg: Settings, line: Line, seen: seq<Sighting>, s: TrackLineState, fires: seq<Fire>) {
    && s.lastCentroid == (if seen == [] then None else Some(seen[|seen| - 1].centroid))
    && s.lastEntry == LastFrame(fires, Entry) && s.lastExit == LastFrame(fires, Exit)
    && s.armed == Rearmed(cfg, line, seen, fires)
    && (fires != [] ==>
          var since := Sides(line, Since(seen, fires[|fires| - 1].at));
          && fires[|fires| - 1].at < |seen| && since != []
          && s.stableFrames == RunLength(since) && (RunLength(since) > 0 ==> s.stableSide == RunSide(since)))
  }

  lemma {:induction false} RunStarts(sides: seq<int>)
    ensures RunLength(sides) == 0 <==> RunSide(sides) == 0
  {
    if sides != [] {
      RunStarts(sides[..|sides| - 1]);
    }
  }

  lemma {:induction false} SidesAppend(line: Line, seen: seq<Sighting>, o: Sighting)
    ensures Sides(line, seen + [o]) == Sides(line, seen) + [Side(CrossSign(line, o.centroid))]
  {
    assert (seen + [o])[..|seen|] == seen;
  }

  lemma {:induction false} RunAppend(cfg: Settings, sides: seq<int>, x: int)
    ensures RunSide(sides + [x]) == if x == 0 then RunSide(sides) else x
    ensures RunLength(sides + [x]) ==
      if x == 0 then RunLength(sides) else if RunSide(sides) == x then RunLength(sides) + 1 else 1
    ensures HasSettled(cfg, sides + [x]) <==> HasSettled(cfg, sides) || RunLength(sides + [x]) >= SettleTime(cfg)
  {
    assert (sides + [x])[..|sides|] == sides;
  }

  lemma {:induction false} LastFrameAppend(fires: seq<Fire>, f: Fire, d: Direction)
    ensures LastFrame(fires + [f], d) == if f.direction == d then f.frame else LastFrame(fires, d)
  {
    assert (fires + [f])[..|fires|] == fires;
  }

  /** What one more sighting on side `x` does to the debounce counters of a pair that has fired. */
  lemma {:induction false} DebounceTells(cfg: Settings, s: TrackLineState, sides: seq<int>, x: int)
    requires s.stableFrames == RunLength(sides) && (RunLength(sides) > 0 ==> s.stableSide == RunSide(sides))
    requires s.armed == HasSettled(cfg, sides) && -1 <= x <= 1
    ensures var t := UpdateDebounce(cfg, s, x);
      && t.stableFrames == RunLength(sides + [x])
      && (RunLength(sides + [x]) > 0 ==> t.stableSide == RunSide(sides + [x]))
      && t.armed == HasSettled(cfg, sides + [x])
  {
    RunAppend(cfg, sides, x);
    RunStarts(sides);
    HasSettledNow(cfg, sides);
    hide RunSide, RunLength, HasSettled;
  }

  lemma {:induction false} HasSettledNow(cfg: Settings, sides: seq<int>)
    ensures RunLength(sides) >= SettleTime(cfg) ==> HasSettled(cfg, sides)
    ensures RunLength([]) == 0 && !HasSettled(cfg, [])
  {
  }

  lemma {:induction false} TellsMoreHistory(cfg: Settings, line: Line, seen: seq<Sighting>, s: TrackLineState,
                                            fires: seq<Fire>, o: Sighting)
    requires TellsHistory(cfg, line, seen, s, fires)
    ensures var d := Fires(cfg, line, s, o);
      var more := if d.Some? then fires + [Fire(|seen|, o.frame, d.value)] else fires;
      TellsHistory(cfg, line, seen + [o], LineStep(cfg, line, s, o), more)
  {
    hide ClassifyCrossing, CrossSign, RunSide, RunLength, HasSettled, Sides, LastFrame;
    var x, d := Side(CrossSign(line, o.centroid)), Fires(cfg, line, s, o);
    HasSettledNow(cfg, []);
    if d.Some? {
      var f := Fire(|seen|, o.frame, d.value);
      LastFrameAppend(fires, f, Entry);
      LastFrameAppend(fires, f, Exit);
      assert (seen + [o])[|seen|..] == [] + [o];
      SidesAppend(line, [], o);
      NoSides(line);
      DebounceTells(cfg, RecordFire(s, d.value, o.frame), [], x);
      assert [] + [x] == [x];
    } else if fires != [] {
      var at := fires[|fires| - 1].at;
      assert (seen + [o])[at..] == seen[at..] + [o];
      SidesAppend(line, seen[at..], o);
      DebounceTells(cfg, s, Sides(line, seen[at..]), x);
    }
  }

  lemma {:induction false} NoSides(line: Line)
    ensures Sides(line, []) == []
  {
  }

  lemma {:induction false} RunTellsMore(cfg: Settings, line: Line, seen: seq<Sighting>, o: Sighting)
    requires var (s, fires) := LineRun(cfg, line, seen); TellsHistory(cfg, line, seen, s, fires)
    ensures var (s, fires) := LineRun(cfg, line, seen + [o]); TellsHistory(cfg, line, seen + [o], s, fires)
  {
    var (s, fires) := LineRun(cfg, line, seen);
    hide *;
    TellsMoreHistory(cfg, line, seen, s, fires, o);
    LineRunAppend(cfg, line, seen, o);
  }

  lemma {:induction false} RunTellsHistory(cfg: Settings, line: Line, seen: seq<Sighting>)
    ensures var (s, fires) := LineRun(cfg, line, seen); TellsHistory(cfg, line, seen, s, fires)
  {
    if seen == [] {
      hide ClassifyCrossing;
    } else {
      hide *;
      var front, o := seen[..|seen| - 1], seen[|seen| - 1];
      RunTellsHistory(cfg, line, front);
      assert front + [o] == seen;
      RunTellsMore(cfg, line, front, o);
    }
  }

  /**
   A sighting fires exactly when it is a raw crossing with enough movement, the pair has not fired or has settled
   since, and the direction has not fired within the cooldown: no state is needed to say so.
   */
  lemma {:induction false} FiresExactly(cfg: Settings, line: Line, seen: seq<Sighting>, o: Sighting, d: Direction)
    ensures var (s, fires) := LineRun(cfg, line, seen);
      Fires(cfg, line, s, o) == Some(d) <==> Due(cfg, line, seen, fires, o, d)
  {
    RunTellsHistory(cfg, line, seen);
    hide LineRun, ClassifyCrossing, Rearmed, LastFrame, Sides;
  }

  // ---------------------------------------------------------------------------
  // When no crossing is lost
  // ---------------------------------------------------------------------------

  /** The raw crossing of one more sighting, if the visitor moved enough. */
  function RawStep(line: Line, seen: seq<Sighting>, o: Sighting): seq<Fire> {
    if seen == [] || !o.movedEnough then []
    else
      var d := ClassifyCrossing(seen[|seen| - 1].centroid, o.centroid, line);
      if d.Some? then [Fire(|seen|, o.frame, d.value)] else []
  }

  /** All raw crossings, whether they fire or not. */
  function RawCrossings(line: Line, seen: seq<Sighting>): seq<Fire> {
    if seen == [] then []
    else RawCrossings(line, seen[..|seen| - 1]) + RawStep(line, seen[..|seen| - 1], seen[|seen| - 1])
  }

  /** Each raw crossing is due after the raw crossings before it. */
  predicate AllDue(cfg: Settings, line: Line, seen: seq<Sighting>) {
    seen == [] ||
    var front, o := seen[..|seen| - 1], seen[|seen| - 1];
    var step := RawStep(line, front, o);
    AllDue(cfg, line, front)
    && (step != [] ==> Due(cfg, line, front, RawCrossings(line, front), o, step[0].direction))
  }

  predicate Before(fires: seq<Fire>, n: nat) {
    forall i | 0 <= i < |fires| :: fires[i].at < n
  }

  lemma {:induction false} RawBefore(line: Line, seen: seq<Sighting>)
    ensures Before(RawCrossings(line, seen), |seen|)
  {
    hide ClassifyCrossing;
    if seen != [] {
      RawBefore(line, seen[..|seen| - 1]);
    }
  }

  lemma {:induction false} FiredBefore(cfg: Settings, line: Line, seen: seq<Sighting>)
    ensures Before(LineRun(cfg, line, seen).1, |seen|)
  {
    hide ClassifyCrossing, Fires, LineStep;
    if seen != [] {
      FiredBefore(cfg, line, seen[..|seen| - 1]);
    }
  }

  /** Lists of earlier fires stay different when at most one new fire is added to each. */
  lemma {:induction false} SameFront(f: seq<Fire>, r: seq<Fire>, x: seq<Fire>, y: seq<Fire>, n: nat)
    requires Before(f, n) && Before(r, n) && |x| <= 1 && |y| <= 1
    requires (x != [] ==> x[0].at == n) && (y != [] ==> y[0].at == n)
    ensures f + x == r + y <==> f == r && x == y
  {
    if f + x == r + y {
      var both := f + x;
      assert |f| < |both| ==> both[|f|].at == n;
      assert |r| < |both| ==> both[|r|].at == n;
      assert f == (f + x)[..|f|] && r == (r + y)[..|r|];
      assert x == (f + x)[|f|..] && y == (r + y)[|r|..];
    }
  }

  /** Whatever the settings, all raw crossings fire exactly when each of them is due after those before it. */
  lemma {:induction false} NothingLostExactly(cfg: Settings, line: Line, seen: seq<Sighting>)
    ensures LineRun(cfg, line, seen).1 == RawCrossings(line, seen) <==> AllDue(cfg, line, seen)
  {
    hide ClassifyCrossing, Fires, LineStep, Rearmed, LastFrame, Before;
    if seen != [] {
      var front, o := seen[..|seen| - 1], seen[|seen| - 1];
      NothingLostExactly(cfg, line, front);
      FiredBefore(cfg, line, front);
      RawBefore(line, front);
      var (s, fires) := LineRun(cfg, line, front);
      var d := Fires(cfg, line, s, o);
      var x, y := if d.Some? then [Fire(|front|, o.frame, d.value)] else [], RawStep(line, front, o);
      SameFront(fires, RawCrossings(line, front), x, y, |front|);
      StepsAgree(cfg, line, front, o);
      hide Due, RawStep;
      assert LineRun(cfg, line, seen).1 == fires + x;
      assert RawCrossings(line, seen) == RawCrossings(line, front) + y;
    }
  }

  /** What one more sighting fires is its raw crossing, if that is due, and otherwise nothing. */
  lemma {:induction false} StepsAgree(cfg: Settings, line: Line, seen: seq<Sighting>, o: Sighting)
    ensures var (s, fires) := LineRun(cfg, line, seen);
      var d, step := Fires(cfg, line, s, o), RawStep(line, seen, o);
      && (d.Some? <==> step != [] && Due(cfg, line, seen, fires, o, step[0].direction))
      && (d.Some? ==> step == [Fire(|seen|, o.frame, d.value)])
  {
    hide ClassifyCrossing, Fires, Rearmed, LastFrame, LineRun;
    var (s, fires) := LineRun(cfg, line, seen);
    var d, step := Fires(cfg, line, s, o), RawStep(line, seen, o);
    if d.Some? {
      FiresExactly(cfg, line, seen, o, d.value);
      assert Due(cfg, line, seen, fires, o, d.value);
    } else if step != [] {
      FiresExactly(cfg, line, seen, o, step[0].direction);
    }
  }

  /** Every sighting is clear of the line and moved enough. */
  ghost predicate KeepsClear(line: Line, seen: seq<Sighting>) {
    forall i | 0 <= i < |seen| :: seen[i].movedEnough && Clear(line, seen[i].centroid)
  }

  /** Each crossing leaves time to settle after the one before, and respects the cooldown of its direction. */
  predicate WellSpaced(cfg: Settings, raws: seq<Fire>) {
    raws == [] ||
    var front, last := raws[..|raws| - 1], raws[|raws| - 1];
    && WellSpaced(cfg, front)
    && (front != [] ==> last.at - front[|front| - 1].at >= SettleTime(cfg))
    && last.frame - LastFrame(front, last.direction) >= cfg.cooldown
  }

  /** Since the last raw crossing a clear track has been on one side. */
  ghost predicate OneSide(line: Line, seen: seq<Sighting>, from: nat) {
    && from < |seen| && Clear(line, seen[from].centroid)
    && forall k | from <= k < |seen| ::
         Side(CrossSign(line, seen[k].centroid)) == Side(CrossSign(line, seen[from].centroid))
  }

  lemma {:induction false} SameSide(line: Line, p: Point, q: Point)
    requires Clear(line, p) && Clear(line, q) && Inside(line, p) == Inside(line, q)
    ensures Side(CrossSign(line, p)) == Side(CrossSign(line, q))
  {
    hide CrossSign, LeftIsInward;
  }

  lemma {:induction false} OneSideSinceCrossing(line: Line, seen: seq<Sighting>)
    requires LENGTH_EPSILON <= line.length <= 2000.0 && KeepsClear(line, seen)
    ensures var raws := RawCrossings(line, seen); raws != [] ==> OneSide(line, seen, raws[|raws| - 1].at)
  {
    hide Clear, Inside, ClassifyCrossing, CrossSign;
    if seen != [] {
      var front, o := seen[..|seen| - 1], seen[|seen| - 1];
      OneSideSinceCrossing(line, front);
      if front != [] {
        ClearMove(front[|front| - 1].centroid, o.centroid, line);
        if RawStep(line, front, o) == [] {
          SameSide(line, front[|front| - 1].centroid, o.centroid);
        }
      }
    }
  }

  lemma {:induction false} ConstantSides(cfg: Settings, line: Line, seen: seq<Sighting>)
    requires seen != [] ==> OneSide(line, seen, 0)
    ensures HasSettled(cfg, Sides(line, seen)) <==> |seen| >= SettleTime(cfg)
    ensures RunLength(Sides(line, seen)) == |seen|
    ensures seen != [] ==> RunSide(Sides(line, seen)) == Side(CrossSign(line, seen[0].centroid))
  {
    hide CrossSign;
    if seen != [] {
      var front, o := seen[..|seen| - 1], seen[|seen| - 1];
      ConstantSides(cfg, line, front);
      RunAppend(cfg, Sides(line, front), Side(CrossSign(line, o.centroid)));
      hide RunSide, RunLength, HasSettled;
    }
  }

  lemma {:induction false} AllDueWhenSpaced(cfg: Settings, line: Line, seen: seq<Sighting>)
    requires LENGTH_EPSILON <= line.length <= 2000.0 && KeepsClear(line, seen)
    ensures AllDue(cfg, line, seen) <==> WellSpaced(cfg, RawCrossings(line, seen))
  {
    if seen != [] {
      var front, o := seen[..|seen| - 1], seen[|seen| - 1];
      var raws, step := RawCrossings(line, front), RawStep(line, front, o);
      assert KeepsClear(line, front) by {
        hide Clear;
      }
      hide ClassifyCrossing, KeepsClear, LastFrame, Rearmed, WellSpaced, RawCrossings, Due, SettleTime;
      AllDueWhenSpaced(cfg, line, front);
      RawMore(line, seen);
      if step == [] {
        assert raws + [] == raws;
      } else {
        RawStepIs(line, front, o);
        hide RawStep;
        SpacedMore(cfg, raws, step[0]);
        RearmedByGap(cfg, line, front);
        DueMeans(cfg, line, front, raws, o, step[0]);
      }
    }
  }

  lemma {:induction false} RawMore(line: Line, seen: seq<Sighting>)
    requires seen != []
    ensures RawCrossings(line, seen) ==
      RawCrossings(line, seen[..|seen| - 1]) + RawStep(line, seen[..|seen| - 1], seen[|seen| - 1])
  {
    hide RawStep;
  }

  /** A raw crossing stands at its sighting and its frame, and leads from the last sighting to this one. */
  lemma {:induction false} RawStepIs(line: Line, seen: seq<Sighting>, o: Sighting)
    requires RawStep(line, seen, o) != []
    ensures var step := RawStep(line, seen, o);
      && step == [step[0]] && step[0].at == |seen| && step[0].frame == o.frame && o.movedEnough && seen != []
      && ClassifyCrossing(seen[|seen| - 1].centroid, o.centroid, line) == Some(step[0].direction)
  {
    hide ClassifyCrossing;
  }

  lemma {:induction false} SpacedMore(cfg: Settings, raws: seq<Fire>, f: Fire)
    ensures WellSpaced(cfg, raws + [f]) <==>
      && WellSpaced(cfg, raws)
      && (raws != [] ==> f.at - raws[|raws| - 1].at >= SettleTime(cfg))
      && f.frame - LastFrame(raws, f.direction) >= cfg.cooldown
  {
    hide LastFrame, SettleTime;
    assert (raws + [f])[..|raws|] == raws;
  }

  lemma {:induction false} DueMeans(cfg: Settings, line: Line, seen: seq<Sighting>, fires: seq<Fire>, o: Sighting,
                                    f: Fire)
    requires seen != [] && o.movedEnough && f.frame == o.frame
    requires ClassifyCrossing(seen[|seen| - 1].centroid, o.centroid, line) == Some(f.direction)
    ensures Due(cfg, line, seen, fires, o, f.direction) <==>
      Rearmed(cfg, line, seen, fires) && f.frame - LastFrame(fires, f.direction) >= cfg.cooldown
  {
    hide ClassifyCrossing, Rearmed, LastFrame;
  }

  lemma {:induction false} RearmedByGap(cfg: Settings, line: Line, seen: seq<Sighting>)
    requires LENGTH_EPSILON <= line.length <= 2000.0 && KeepsClear(line, seen)
    ensures var raws := RawCrossings(line, seen);
      Rearmed(cfg, line, seen, raws) <==> raws == [] || |seen| - raws[|raws| - 1].at >= SettleTime(cfg)
  {
    var raws := RawCrossings(line, seen);
    if raws != [] {
      var at := raws[|raws| - 1].at;
      OneSideSinceCrossing(line, seen);
      assert OneSide(line, seen[at..], 0) by {
        hide Clear, CrossSign;
        assert forall k | 0 <= k < |seen[at..]| :: seen[at..][k] == seen[at + k];
      }
      ConstantSides(cfg, line, seen[at..]);
      hide RawCrossings, HasSettled, Sides, RunLength, RunSide, SettleTime, OneSide, KeepsClear, CrossSign;
    }
  }

  /**
   A track that keeps clear of the line loses no crossing exactly when its crossings are spaced: by the sightings it
   takes to settle, and in each direction by the cooldown.
   */
  lemma {:induction false} ClearTrackLosesNothing(cfg: Settings, line: Line, seen: seq<Sighting>)
    requires LENGTH_EPSILON <= line.length <= 2000.0 && KeepsClear(line, seen)
    ensures LineRun(cfg, line, seen).1 == RawCrossings(line, seen) <==> WellSpaced(cfg, RawCrossings(line, seen))
  {
    hide *;
    NothingLostExactly(cfg, line, seen);
    AllDueWhenSpaced(cfg, line, seen);
  }

  function Centroids(seen: seq<Sighting>): seq<Point> {
    if seen == [] then [] else Centroids(seen[..|seen| - 1]) + [seen[|seen| - 1].centroid]
  }

  function Directions(fires: seq<Fire>): seq<Direction> {
    if fires == [] then [] else Directions(fires[..|fires| - 1]) + [fires[|fires| - 1].direction]
  }

  lemma {:induction false} CentroidsEnd(front: seq<Sighting>, o: Sighting)
    ensures Centroids(front + [o]) == Centroids(front) + [o.centroid]
    ensures |Centroids(front)| == |front|
    ensures front != [] ==> Centroids(front)[|front| - 1] == front[|front| - 1].centroid
  {
    assert (front + [o])[..|front|] == front;
    CentroidsLength(front);
    if front != [] {
      CentroidsLength(front[..|front| - 1]);
    }
  }

  lemma {:induction false} CentroidsLength(seen: seq<Sighting>)
    ensures |Centroids(seen)| == |seen|
  {
    if seen != [] {
      CentroidsLength(seen[..|seen| - 1]);
    }
  }

  lemma {:induction false} CentroidsAt(seen: seq<Sighting>, i: nat)
    requires i < |seen|
    ensures i < |Centroids(seen)| && Centroids(seen)[i] == seen[i].centroid
  {
    CentroidsLength(seen[..|seen| - 1]);
    if i < |seen| - 1 {
      CentroidsAt(seen[..|seen| - 1], i);
    }
  }

  lemma {:induction false} DirectionsAppend(fires: seq<Fire>, f: Fire)
    ensures Directions(fires + [f]) == Directions(fires) + [f.direction]
  {
    assert (fires + [f])[..|fires|] == fires;
  }

  lemma {:induction false} CrossingsStep(line: Line, path: seq<Point>, p: Point)
    ensures path == [] ==> CrossingsOf(line, path + [p]) == []
    ensures path != [] ==>
      var d := ClassifyCrossing(path[|path| - 1], p, line);
      CrossingsOf(line, path + [p]) == if d.Some? then CrossingsOf(line, path) + [d.value] else CrossingsOf(line, path)
  {
    hide ClassifyCrossing;
    if path != [] {
      assert (path + [p])[..|path|] == path;
      assert CrossingsOf(line, path) + [] == CrossingsOf(line, path);
    }
  }

  lemma {:induction false} RawCrossingsOf(line: Line, seen: seq<Sighting>)
    requires forall i | 0 <= i < |seen| :: seen[i].movedEnough
    ensures Directions(RawCrossings(line, seen)) == CrossingsOf(line, Centroids(seen))
  {
    hide ClassifyCrossing;
    if seen != [] {
      var front, o := seen[..|seen| - 1], seen[|seen| - 1];
      RawCrossingsOf(line, front);
      CentroidsEnd(front, o);
      assert front + [o] == seen;
      CrossingsStep(line, Centroids(front), o.centroid);
      var raws, step := RawCrossings(line, front), RawStep(line, front, o);
      if step != [] {
        DirectionsAppend(raws, step[0]);
        assert [step[0]] == step;
      } else {
        assert raws + step == raws;
      }
    }
  }

  /** Then what is fired alternates, and entries minus exits is the change of side. */
  lemma {:induction false} SpacedTrackTellsSides(cfg: Settings, line: Line, seen: seq<Sighting>)
    requires LENGTH_EPSILON <= line.length <= 2000.0 && KeepsClear(line, seen) && seen != []
    requires WellSpaced(cfg, RawCrossings(line, seen))
    ensures Tells(Directions(LineRun(cfg, line, seen).1), Inside(line, seen[0].centroid), Inside(line, seen[|seen| - 1].centroid))
  {
    hide LineRun, Tells, CrossingsOf, Inside, Clear, RawCrossings, WellSpaced, RawStep;
    ClearTrackLosesNothing(cfg, line, seen);
    RawCrossingsOf(line, seen);
    var path := Centroids(seen);
    CentroidsLength(seen);
    forall i | 0 <= i < |seen|
      ensures path[i] == seen[i].centroid
    {
      CentroidsAt(seen, i);
    }
    ClearPath(line, path);
  }
}
