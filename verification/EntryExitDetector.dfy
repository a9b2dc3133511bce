/** The entry and exit detector: one crossing state per (track, line), updated line by line for every visitor. */
module EntryExitDetectors {
  import opened Options
  import opened Sequences
  import opened Tracks
  import opened Crossing
  import opened EntryExitModel

  datatype CrossingEvent = CrossingEvent(direction: Direction, track: int, lineId: string, frame: int)

  function StateOf(states: map<Key, TrackLineState>, k: Key): TrackLineState {
    if k in states then states[k] else NEW_STATE
  }

  /** One pair's crossings, in order. */
  function CrossedOf(log: seq<CrossingEvent>, k: Key): seq<Crossed> {
    if log == [] then []
    else
      var last := log[|log| - 1];
      CrossedOf(log[..|log| - 1], k) +
      (if last.track == k.track && last.lineId == k.region then [Crossed(last.direction, last.frame)] else [])
  }

  function WithCrossing(crossed: seq<Crossed>, e: Option<CrossingEvent>): seq<Crossed> {
    if e.Some? then crossed + [Crossed(e.value.direction, e.value.frame)] else crossed
  }

  lemma {:induction false} CrossedOfAppend(log: seq<CrossingEvent>, e: CrossingEvent, k: Key)
    ensures CrossedOf(log + [e], k) ==
      if e.track == k.track && e.lineId == k.region then CrossedOf(log, k) + [Crossed(e.direction, e.frame)] else CrossedOf(log, k)
  {
    assert (log + [e])[..|log|] == log;
  }

  ghost predicate DistinctLines(lines: seq<EntryLine>) {
    forall i, j | 0 <= i < j < |lines| :: lines[i].id != lines[j].id
  }

  /** A pair's state and crossings are those of its own run over the appearances of its track. */
  ghost predicate PairExplained(cfg: Settings, lines: seq<EntryLine>, states: map<Key, TrackLineState>,
                                log: seq<CrossingEvent>, track: int, seen: seq<Appearance>, n: nat)
    requires n < |lines|
  {
    var k := Key(track, lines[n].id);
    StateOf(states, k) == PairRun(cfg, lines, seen, n).0 && CrossedOf(log, k) == Reported(PairRun(cfg, lines, seen, n).1)
  }

  ghost predicate Explained(cfg: Settings, lines: seq<EntryLine>, states: map<Key, TrackLineState>,
                            log: seq<CrossingEvent>, track: int, seen: seq<Appearance>) {
    forall n: nat | n < |lines| :: PairExplained(cfg, lines, states, log, track, seen, n)
  }

  /** Crossings of one frame were added. */
  ghost predicate Continues(log: seq<CrossingEvent>, more: seq<CrossingEvent>, frame: int) {
    log <= more && forall i | |log| <= i < |more| :: more[i].frame == frame
  }

  ghost predicate IsLine(lines: seq<EntryLine>, id: string) {
    exists n: nat | n < |lines| :: lines[n].id == id
  }

  /** Only configured lines are ever crossed. */
  ghost predicate OnlyLines(lines: seq<EntryLine>, log: seq<CrossingEvent>) {
    forall k: Key | !IsLine(lines, k.region) :: CrossedOf(log, k) == []
  }

  /** Nothing about a pair changed. */
  ghost predicate SamePair(states: map<Key, TrackLineState>, log: seq<CrossingEvent>,
                           states': map<Key, TrackLineState>, log': seq<CrossingEvent>, k: Key) {
    StateOf(states', k) == StateOf(states, k) && CrossedOf(log', k) == CrossedOf(log, k)
  }

  lemma {:induction false} SameExplained(cfg: Settings, lines: seq<EntryLine>, states: map<Key, TrackLineState>,
                                         log: seq<CrossingEvent>, states': map<Key, TrackLineState>,
                                         log': seq<CrossingEvent>, track: int, seen: seq<Appearance>)
    requires Explained(cfg, lines, states, log, track, seen)
    requires forall k: Key | k.track == track :: SamePair(states, log, states', log', k)
    ensures Explained(cfg, lines, states', log', track, seen)
  {
    hide StateOf, CrossedOf, Reported, PairRun;
    forall n: nat | n < |lines|
      ensures PairExplained(cfg, lines, states', log', track, seen, n)
    {
      assert PairExplained(cfg, lines, states, log, track, seen, n);
      assert SamePair(states, log, states', log', Key(track, lines[n].id));
    }
  }

  /** What one appearance of a track fires at the first `n` lines, in the order of the lines. */
  function LineCrossings(cfg: Settings, lines: seq<EntryLine>, seen: seq<Appearance>, a: Appearance, track: int,
                         n: nat): seq<CrossingEvent>
    requires n <= |lines|
  {
    if n == 0 then []
    else
      var o := Sighting(a.centroid, a.frame, AllMoved(cfg, lines, seen, a.centroid, n));
      var d := Fires(cfg, lines[n - 1].line, PairRun(cfg, lines, seen, n - 1).0, o);
      LineCrossings(cfg, lines, seen, a, track, n - 1)
      + (if d.Some? then [CrossingEvent(d.value, track, lines[n - 1].id, a.frame)] else [])
  }

  /** What a frame fires, visitor by visitor. */
  function FrameCrossings(cfg: Settings, lines: seq<EntryLine>, past: seq<FrameTracks>, visitors: seq<Visitor>,
                          frame: int): seq<CrossingEvent> {
    if visitors == [] then []
    else
      var v := visitors[|visitors| - 1];
      FrameCrossings(cfg, lines, past, visitors[..|visitors| - 1], frame)
      + LineCrossings(cfg, lines, AppearancesOf(past, v.track), Appearance(v.centroid, frame), v.track, |lines|)
  }

  class EntryExitDetector {
    const cfg: Settings
    const lines: seq<EntryLine>
    var trackState: map<Key, TrackLineState>

    ghost predicate Valid() {
      DistinctLines(lines) && forall i | 0 <= i < |lines| :: lines[i].line.Measured()
    }

    constructor (cfg: Settings, lines: seq<EntryLine>)
      requires DistinctLines(lines) && forall i | 0 <= i < |lines| :: lines[i].line.Measured()
      ensures Valid() && this.cfg == cfg && this.lines == lines && trackState == map[]
    {
      this.cfg, this.lines, trackState := cfg, lines, map[];
    }

    /** One visitor against one line; `movedEnough` says whether the lines before it, and now it, allow a crossing. */
    method ProcessLine(k: Key, line: Line, curr: Point, frame: int, movedBefore: bool)
      returns (movedEnough: bool, crossing: Option<CrossingEvent>)
      modifies this
      ensures var s := StateOf(old(trackState), k);
        var o := Sighting(curr, frame, movedEnough);
        && movedEnough == (movedBefore && MovedEnough(cfg, line, s, curr))
        && trackState == old(trackState)[k := LineStep(cfg, line, s, o)]
        && crossing == match Fires(cfg, line, s, o)
                       case Some(d) => Some(CrossingEvent(d, k.track, k.region, frame))
                       case None => None
    {
      hide NormalMove, ClassifyCrossing, CrossSign;
      var state := if k in trackState then trackState[k] else NEW_STATE;
      var currSide := Side(CrossSign(line, curr));
      movedEnough, crossing := movedBefore, None;
      if state.lastCentroid.Some? {
        var prev := state.lastCentroid.value;
        var normalMove := NormalMove(line, prev, curr);
        if (if normalMove < 0.0 then -normalMove else normalMove) < cfg.minMove {
          movedEnough := false;
        }
        var direction := ClassifyCrossing(prev, curr, line);
        if direction.Some? && state.armed && movedEnough && CooldownOk(cfg, state, direction.value, frame) {
          crossing := Some(CrossingEvent(direction.value, k.track, k.region, frame));
          state := RecordFire(state, direction.value, frame);
        }
      }
      state := state.(lastCentroid := Some(curr));
      trackState := trackState[k := UpdateDebounce(cfg, state, currSide)];
    }

    /** One visitor against all lines, in order. */
    method ProcessVisitor(track: int, curr: Point, frame: int, log: seq<CrossingEvent>, ghost seen: seq<Appearance>)
      returns (more: seq<CrossingEvent>)
      requires Valid() && Explained(cfg, lines, trackState, log, track, seen)
      modifies this
      ensures Explained(cfg, lines, trackState, more, track, seen + [Appearance(curr, frame)])
      ensures forall k: Key | k.track != track :: SamePair(old(trackState), log, trackState, more, k)
      ensures OnlyLines(lines, log) ==> OnlyLines(lines, more)
      ensures Continues(log, more, frame)
      ensures more == log + LineCrossings(cfg, lines, seen, Appearance(curr, frame), track, |lines|)
    {
      hide CrossedOf, PairExplained, AllMoved, MovedEnough, Fires, LineStep, PairRun;
      more := log;
      ghost var start, after := trackState, seen + [Appearance(curr, frame)];
      var displacementOk := true;
      assert AllMoved(cfg, lines, seen, curr, 0) by { NoLinesMoved(cfg, lines, seen, curr); }
      for n := 0 to |lines|
        invariant displacementOk == AllMoved(cfg, lines, seen, curr, n)
        invariant forall j: nat | j < n :: PairExplained(cfg, lines, trackState, more, track, after, j)
        invariant forall j: nat | n <= j < |lines| :: PairExplained(cfg, lines, trackState, more, track, seen, j)
        invariant forall k: Key | k.track != track :: SamePair(start, log, trackState, more, k)
        invariant OnlyLines(lines, log) ==> OnlyLines(lines, more)
        invariant Continues(log, more, frame)
        invariant more == log + LineCrossings(cfg, lines, seen, Appearance(curr, frame), track, n)
      {
        assert PairExplained(cfg, lines, trackState, more, track, seen, n);
        StateExplained(cfg, lines, trackState, more, track, seen, n);
        var k := Key(track, lines[n].id);
        ghost var states, was, before := trackState, displacementOk, more;
        var crossing: Option<CrossingEvent>;
        displacementOk, crossing := ProcessLine(k, lines[n].line, curr, frame, displacementOk);
        if crossing.Some? {
          more := more + [crossing.value];
        }
        AllMovedStep(cfg, lines, seen, curr, n, states, before, track);
        OtherPairs(states, trackState, before, more, k, crossing);
        LineExplained(cfg, lines, states, trackState, before, more, track, seen, Appearance(curr, frame), n, displacementOk,
                      crossing);
        StillOnlyLines(lines, states, trackState, before, more, track, n);
        forall j: Key | j.track != track
          ensures SamePair(start, log, trackState, more, j)
        {
          assert SamePair(start, log, states, before, j) && SamePair(states, before, trackState, more, j);
        }
        forall j: nat | j < n
          ensures PairExplained(cfg, lines, trackState, more, track, after, j)
        {
          StillExplained(cfg, lines, states, trackState, before, more, track, after, n, j);
        }
        forall j: nat | n < j < |lines|
          ensures PairExplained(cfg, lines, trackState, more, track, seen, j)
        {
          StillExplained(cfg, lines, states, trackState, before, more, track, seen, n, j);
        }
      }
    }
  }

  lemma {:induction false} StateExplained(cfg: Settings, lines: seq<EntryLine>, states: map<Key, TrackLineState>,
                                          log: seq<CrossingEvent>, track: int, seen: seq<Appearance>, n: nat)
    requires n < |lines| && PairExplained(cfg, lines, states, log, track, seen, n)
    ensures StateOf(states, Key(track, lines[n].id)) == PairRun(cfg, lines, seen, n).0
  {
  }

  /** The appearance of a track among the visitors of a frame. */
  function AppearanceIn(visitors: seq<Visitor>, frame: int, track: int): seq<Appearance> {
    if visitors == [] then []
    else if visitors[|visitors| - 1].track == track then [Appearance(visitors[|visitors| - 1].centroid, frame)]
    else AppearanceIn(visitors[..|visitors| - 1], frame, track)
  }

  /** All appearances of a track in a video. */
  function AppearancesOf(video: seq<FrameTracks>, track: int): seq<Appearance> {
    if video == [] then []
    else
      var last := video[|video| - 1];
      AppearancesOf(video[..|video| - 1], track) + AppearanceIn(last.tracks, last.index, track)
  }

  lemma {:induction false} UnseenAppearance(visitors: seq<Visitor>, frame: int, track: int)
    requires track !in TrackIds(visitors)
    ensures AppearanceIn(visitors, frame, track) == []
  {
    if visitors != [] {
      UnseenAppearance(visitors[..|visitors| - 1], frame, track);
    }
  }

  /** One visitor more in a frame. */
  lemma {:induction false} AppearanceStep(visitors: seq<Visitor>, i: nat, frame: int, seen: seq<Appearance>, t: int)
    requires i < |visitors| && Distinct(TrackIds(visitors))
    ensures seen + AppearanceIn(visitors[..i + 1], frame, t) ==
      if t == visitors[i].track then seen + AppearanceIn(visitors[..i], frame, t) + [Appearance(visitors[i].centroid, frame)]
      else seen + AppearanceIn(visitors[..i], frame, t)
  {
    hide Distinct;
    assert visitors[..i + 1][..i] == visitors[..i];
    FreshTrack(visitors, i);
    if t == visitors[i].track {
      UnseenAppearance(visitors[..i], frame, t);
    }
  }

  lemma {:induction false} NewInFrame(visitors: seq<Visitor>, i: nat, frame: int)
    requires i < |visitors| && Distinct(TrackIds(visitors))
    ensures AppearanceIn(visitors[..i], frame, visitors[i].track) == []
  {
    hide Distinct;
    FreshTrack(visitors, i);
    UnseenAppearance(visitors[..i], frame, visitors[i].track);
  }

  method ProcessFrame(detector: EntryExitDetector, f: FrameTracks, log: seq<CrossingEvent>,
                      ghost past: seq<FrameTracks>)
    returns (more: seq<CrossingEvent>)
    requires detector.Valid() && Distinct(TrackIds(f.tracks))
    requires forall t: int :: Explained(detector.cfg, detector.lines, detector.trackState, log, t, AppearancesOf(past, t))
    requires OnlyLines(detector.lines, log)
    modifies detector
    ensures OnlyLines(detector.lines, more) && Continues(log, more, f.index)
    ensures more == log + FrameCrossings(detector.cfg, detector.lines, past, f.tracks, f.index)
    ensures forall t: int ::
      Explained(detector.cfg, detector.lines, detector.trackState, more, t, AppearancesOf(past + [f], t))
  {
    hide Explained, Distinct, AppearanceIn, AppearancesOf, OnlyLines, LineCrossings;
    more := log;
    ghost var cfg, lines := detector.cfg, detector.lines;
    FrameStarts(f, past);
    for i := 0 to |f.tracks|
      invariant forall t: int ::
        Explained(cfg, lines, detector.trackState, more, t, AppearancesOf(past, t) + AppearanceIn(f.tracks[..i], f.index, t))
      invariant OnlyLines(lines, more) && Continues(log, more, f.index)
      invariant more == log + FrameCrossings(cfg, lines, past, f.tracks[..i], f.index)
    {
      NewInFrame(f.tracks, i, f.index);
      assert f.tracks[..i + 1][..i] == f.tracks[..i];
      var visitor := f.tracks[i];
      ghost var states, before := detector.trackState, more;
      ghost var seen := AppearancesOf(past, visitor.track) + AppearanceIn(f.tracks[..i], f.index, visitor.track);
      more := detector.ProcessVisitor(visitor.track, visitor.centroid, f.index, more, seen);
      forall t: int
        ensures Explained(cfg, lines, detector.trackState, more, t,
                          AppearancesOf(past, t) + AppearanceIn(f.tracks[..i + 1], f.index, t))
      {
        AppearanceStep(f.tracks, i, f.index, AppearancesOf(past, t), t);
        if t != visitor.track {
          SameExplained(cfg, lines, states, before, detector.trackState, more, t,
                        AppearancesOf(past, t) + AppearanceIn(f.tracks[..i], f.index, t));
        }
      }
    }
    FrameEnds(f, past);
  }

  lemma {:induction false} FrameStarts(f: FrameTracks, past: seq<FrameTracks>)
    ensures forall t: int :: AppearancesOf(past, t) + AppearanceIn(f.tracks[..0], f.index, t) == AppearancesOf(past, t)
  {
  }

  lemma {:induction false} FrameEnds(f: FrameTracks, past: seq<FrameTracks>)
    ensures f.tracks[..|f.tracks|] == f.tracks
    ensures forall t: int :: AppearancesOf(past + [f], t) == AppearancesOf(past, t) + AppearanceIn(f.tracks, f.index, t)
  {
    assert (past + [f])[..|past|] == past;
  }

  /** Over a whole video every pair's crossings are those of its own run, so the laws of EntryExitTheorems hold for each. */
  method DetectCrossings(cfg: Settings, lines: seq<EntryLine>, video: seq<FrameTracks>)
    returns (detector: EntryExitDetector, log: seq<CrossingEvent>)
    requires DistinctLines(lines) && forall i | 0 <= i < |lines| :: lines[i].line.Measured()
    requires DistinctTracks(video)
    ensures forall t: int :: Explained(cfg, lines, detector.trackState, log, t, AppearancesOf(video, t))
    ensures OnlyLines(lines, log)
  {
    hide Explained, OnlyLines, Distinct, AppearancesOf, Line.Measured, DistinctLines;
    detector := new EntryExitDetector(cfg, lines);
    log := [];
    BeforeVideo(cfg, lines);
    for i := 0 to |video|
      invariant detector.Valid() && detector.cfg == cfg && detector.lines == lines && fresh(detector)
      invariant forall t: int :: Explained(cfg, lines, detector.trackState, log, t, AppearancesOf(video[..i], t))
      invariant OnlyLines(lines, log)
    {
      log := ProcessFrame(detector, video[i], log, video[..i]);
      assert video[..i] + [video[i]] == video[..i + 1];
    }
    assert video[..|video|] == video;
  }

  lemma {:induction false} BeforeVideo(cfg: Settings, lines: seq<EntryLine>)
    ensures forall t: int :: Explained(cfg, lines, map[], [], t, AppearancesOf([], t))
    ensures OnlyLines(lines, [])
  {
    hide Fires, LineStep;
  }

  lemma {:induction false} NoLinesMoved(cfg: Settings, lines: seq<EntryLine>, seen: seq<Appearance>, curr: Point)
    ensures AllMoved(cfg, lines, seen, curr, 0)
  {
  }

  /** The running flag over lines is the conjunction over all lines so far. */
  lemma {:induction false} AllMovedStep(cfg: Settings, lines: seq<EntryLine>, seen: seq<Appearance>, curr: Point,
                                        n: nat, states: map<Key, TrackLineState>, log: seq<CrossingEvent>, track: int)
    requires n < |lines| && PairExplained(cfg, lines, states, log, track, seen, n)
    ensures AllMoved(cfg, lines, seen, curr, n + 1) ==
      (AllMoved(cfg, lines, seen, curr, n) && MovedEnough(cfg, lines[n].line, StateOf(states, Key(track, lines[n].id)), curr))
  {
    hide StateOf, CrossedOf, LineRun, SightingsOf, MovedEnough;
  }

  lemma {:induction false} OtherPairs(states: map<Key, TrackLineState>, states': map<Key, TrackLineState>,
                                      log: seq<CrossingEvent>, log': seq<CrossingEvent>, k: Key,
                                      crossing: Option<CrossingEvent>)
    requires k in states' && states' == states[k := states'[k]]
    requires log' == if crossing.Some? then log + [crossing.value] else log
    requires crossing.Some? ==> crossing.value.track == k.track && crossing.value.lineId == k.region
    ensures forall j: Key | j != k :: SamePair(states, log, states', log', j)
    ensures CrossedOf(log', k) == WithCrossing(CrossedOf(log, k), crossing)
  {
    hide CrossedOf;
    if crossing.Some? {
      CrossedOfAppend(log, crossing.value, k);
      forall j: Key | j != k
        ensures CrossedOf(log', j) == CrossedOf(log, j)
      {
        CrossedOfAppend(log, crossing.value, j);
      }
    }
  }

  lemma {:induction false} StillOnlyLines(lines: seq<EntryLine>, states: map<Key, TrackLineState>,
                                          states': map<Key, TrackLineState>, log: seq<CrossingEvent>,
                                          log': seq<CrossingEvent>, track: int, n: nat)
    requires n < |lines| && forall j: Key | j != Key(track, lines[n].id) :: SamePair(states, log, states', log', j)
    ensures OnlyLines(lines, log) ==> OnlyLines(lines, log')
  {
    hide CrossedOf, StateOf;
    forall k: Key | !IsLine(lines, k.region) && OnlyLines(lines, log)
      ensures CrossedOf(log', k) == []
    {
      assert lines[n].id != k.region;
      assert SamePair(states, log, states', log', k);
    }
  }

  lemma {:induction false} LineExplained(cfg: Settings, lines: seq<EntryLine>, states: map<Key, TrackLineState>,
                                         states': map<Key, TrackLineState>, log: seq<CrossingEvent>,
                                         log': seq<CrossingEvent>, track: int, seen: seq<Appearance>, a: Appearance,
                                         n: nat, moved: bool, crossing: Option<CrossingEvent>)
    requires n < |lines| && PairExplained(cfg, lines, states, log, track, seen, n)
    requires moved == AllMoved(cfg, lines, seen, a.centroid, n + 1)
    requires var k := Key(track, lines[n].id);
      var o := Sighting(a.centroid, a.frame, moved);
      && StateOf(states', k) == LineStep(cfg, lines[n].line, StateOf(states, k), o)
      && crossing == (match Fires(cfg, lines[n].line, StateOf(states, k), o)
                      case Some(d) => Some(CrossingEvent(d, k.track, k.region, a.frame))
                      case None => None)
      && CrossedOf(log', k) == WithCrossing(CrossedOf(log, k), crossing)
    ensures PairExplained(cfg, lines, states', log', track, seen + [a], n)
  {
    hide StateOf, CrossedOf, PairRun, Fires, LineStep, AllMoved, Reported;
    PairRunAppend(cfg, lines, seen, a, n);
  }

  lemma {:induction false} StillExplained(cfg: Settings, lines: seq<EntryLine>, states: map<Key, TrackLineState>,
                                          states': map<Key, TrackLineState>, log: seq<CrossingEvent>,
                                          log': seq<CrossingEvent>, track: int, seen: seq<Appearance>, n: nat, j: nat)
    requires n < |lines| && j < |lines| && j != n && DistinctLines(lines)
    requires PairExplained(cfg, lines, states, log, track, seen, j)
    requires forall k: Key | k != Key(track, lines[n].id) :: SamePair(states, log, states', log', k)
    ensures PairExplained(cfg, lines, states', log', track, seen, j)
  {
    hide StateOf, CrossedOf, PairRun, Reported;
    assert lines[j].id != lines[n].id;
    assert SamePair(states, log, states', log', Key(track, lines[j].id));
  }
}
