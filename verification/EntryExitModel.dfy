/**
 The crossing machine of one (track, line) pair: raw crossings are let through when the pair is armed, the
 visitor moved enough, and the same direction has not fired too recently.
 */
module EntryExitModel {
  import opened Options
  import opened Tracks
  import opened Crossing

  datatype Settings = Settings(cooldown: nat, debounce: nat, minMove: real)

  datatype TrackLineState = TrackLineState(lastCentroid: Option<Point>, stableSide: int, stableFrames: nat,
                                           lastEntry: int, lastExit: int, armed: bool)

  const NEVER := -10000
  const NEW_STATE := TrackLineState(None, 0, 0, NEVER, NEVER, true)

  /** Where a frame shows the track, and whether it has moved enough for this line and all lines looked at before. */
  datatype Sighting = Sighting(centroid: Point, frame: int, movedEnough: bool)

  predicate CooldownOk(cfg: Settings, s: TrackLineState, d: Direction, frame: int) {
    frame - (if d == Entry then s.lastEntry else s.lastExit) >= cfg.cooldown
  }

  function RecordFire(s: TrackLineState, d: Direction, frame: int): TrackLineState {
    var t := s.(armed := false, stableFrames := 0);
    if d == Entry then t.(lastEntry := frame) else t.(lastExit := frame)
  }

  function UpdateDebounce(cfg: Settings, s: TrackLineState, side: int): TrackLineState {
    if side == 0 then s
    else
      var frames := if side == s.stableSide then s.stableFrames + 1 else 1;
      s.(stableSide := side, stableFrames := frames, armed := s.armed || frames >= cfg.debounce)
  }

  /** The crossing this sighting fires, if any. */
  function Fires(cfg: Settings, line: Line, s: TrackLineState, o: Sighting): Option<Direction> {
    if s.lastCentroid.None? then None
    else
      var d := ClassifyCrossing(s.lastCentroid.value, o.centroid, line);
      if d.Some? && s.armed && o.movedEnough && CooldownOk(cfg, s, d.value, o.frame) then d else None
  }

  function LineStep(cfg: Settings, line: Line, s: TrackLineState, o: Sighting): TrackLineState {
    var d := Fires(cfg, line, s, o);
    var fired := if d.Some? then RecordFire(s, d.value, o.frame) else s;
    UpdateDebounce(cfg, fired.(lastCentroid := Some(o.centroid)), Side(CrossSign(line, o.centroid)))
  }

  /** A fired crossing, with the number of the sighting that fired it. */
  datatype Fire = Fire(at: nat, frame: int, direction: Direction)

  function LineRun(cfg: Settings, line: Line, seen: seq<Sighting>): (TrackLineState, seq<Fire>) {
    if seen == [] then (NEW_STATE, [])
    else
      var (s, fires) := LineRun(cfg, line, seen[..|seen| - 1]);
      var o := seen[|seen| - 1];
      var d := Fires(cfg, line, s, o);
      (LineStep(cfg, line, s, o), fires + (if d.Some? then [Fire(|seen| - 1, o.frame, d.value)] else []))
  }

  lemma {:induction false} LineRunAppend(cfg: Settings, line: Line, seen: seq<Sighting>, o: Sighting)
    ensures var (s, fires) := LineRun(cfg, line, seen);
      var d := Fires(cfg, line, s, o);
      LineRun(cfg, line, seen + [o]) ==
        (LineStep(cfg, line, s, o), if d.Some? then fires + [Fire(|seen|, o.frame, d.value)] else fires)
  {
    assert (seen + [o])[..|seen|] == seen;
    hide Fires, LineStep;
    var fires := LineRun(cfg, line, seen).1;
    assert fires + [] == fires;
  }

  lemma {:induction false} StepCentroid(cfg: Settings, line: Line, s: TrackLineState, o: Sighting)
    ensures LineStep(cfg, line, s, o).lastCentroid == Some(o.centroid)
  {
    hide ClassifyCrossing, CrossSign;
  }

  // ---------------------------------------------------------------------------
  // All lines of one track
  // ---------------------------------------------------------------------------

  datatype EntryLine = EntryLine(id: string, line: Line)

  /** A frame that shows the track. */
  datatype Appearance = Appearance(centroid: Point, frame: int)

  predicate MovedEnough(cfg: Settings, line: Line, s: TrackLineState, curr: Point) {
    s.lastCentroid.None? ||
    var move := NormalMove(line, s.lastCentroid.value, curr);
    (if move < 0.0 then -move else move) >= cfg.minMove
  }

  /** The move is enough for the first `n` lines, each as of its own last centroid. */
  predicate AllMoved(cfg: Settings, lines: seq<EntryLine>, seen: seq<Appearance>, curr: Point, n: nat)
    requires n <= |lines|
    decreases |seen|, 1
  {
    forall j: nat | 0 <= j < n ::
      MovedEnough(cfg, lines[j].line, LineRun(cfg, lines[j].line, SightingsOf(cfg, lines, seen, j)).0, curr)
  }

  /** What line `n` is shown of a track: one line that was not moved towards enough blocks all the lines after it. */
  function SightingsOf(cfg: Settings, lines: seq<EntryLine>, seen: seq<Appearance>, n: nat): seq<Sighting>
    requires n < |lines|
    decreases |seen|, 0
  {
    if seen == [] then []
    else
      var front, last := seen[..|seen| - 1], seen[|seen| - 1];
      SightingsOf(cfg, lines, front, n) + [Sighting(last.centroid, last.frame, AllMoved(cfg, lines, front, last.centroid, n + 1))]
  }

  /** Everything line `n` has done for a track. */
  function PairRun(cfg: Settings, lines: seq<EntryLine>, seen: seq<Appearance>, n: nat): (TrackLineState, seq<Fire>)
    requires n < |lines|
  {
    LineRun(cfg, lines[n].line, SightingsOf(cfg, lines, seen, n))
  }

  /** A crossing as it is reported: its direction and frame. */
  datatype Crossed = Crossed(direction: Direction, frame: int)

  function Reported(fires: seq<Fire>): seq<Crossed> {
    if fires == [] then []
    else Reported(fires[..|fires| - 1]) + [Crossed(fires[|fires| - 1].direction, fires[|fires| - 1].frame)]
  }

  lemma {:induction false} ReportedAppend(fires: seq<Fire>, f: Fire)
    ensures Reported(fires + [f]) == Reported(fires) + [Crossed(f.direction, f.frame)]
  {
    assert (fires + [f])[..|fires|] == fires;
  }

  lemma {:induction false} PairRunAppend(cfg: Settings, lines: seq<EntryLine>, seen: seq<Appearance>, a: Appearance,
                                         n: nat)
    requires n < |lines|
    ensures var (s, fires) := PairRun(cfg, lines, seen, n);
      var o := Sighting(a.centroid, a.frame, AllMoved(cfg, lines, seen, a.centroid, n + 1));
      var d := Fires(cfg, lines[n].line, s, o);
      var (t, more) := PairRun(cfg, lines, seen + [a], n);
      t == LineStep(cfg, lines[n].line, s, o)
      && Reported(more) == (if d.Some? then Reported(fires) + [Crossed(d.value, a.frame)] else Reported(fires))
  {
    hide AllMoved, LineRun, Fires, LineStep;
    assert (seen + [a])[..|seen|] == seen;
    var before := SightingsOf(cfg, lines, seen, n);
    var o := Sighting(a.centroid, a.frame, AllMoved(cfg, lines, seen, a.centroid, n + 1));
    LineRunAppend(cfg, lines[n].line, before, o);
    var (s, fires) := PairRun(cfg, lines, seen, n);
    var d := Fires(cfg, lines[n].line, s, o);
    if d.Some? {
      ReportedAppend(fires, Fire(|before|, o.frame, d.value));
    }
  }
}
