/**
 A video in which an event is lost. Three lines lie close together, the middle one with the inside on its other side:
 whoever walks across them goes in and out by turns. The first visitor goes out, in and out; the second, who looks the
 same, comes back in, out and in again within one frame, which makes two re-entries of one name.
 */
module ReentryWitness {
  import opened Options
  import opened Sequences
  import opened OrderedMaps
  import opened Tracks
  import opened EventIdentity
  import opened EventStreams
  import opened EmittedEvents
  import opened StorePipeline
  import opened SharedDisplacement
  import C = Crossing
  import X = EntryExitModel
  import D = EntryExitDetectors
  import CG = CrossingGroups
  import Groups
  import Z = ZoneModel
  import ZT = ZoneTables
  import ZR = ZoneTracking
  import Q = QueueModel
  import QT = QueueTracking
  import S = SessionModel
  import W = Emitter
  import G = ReidGallery
  import P = VisitorPipeline
  import R = ReentryIdentity
  import E = EmitterModel
  import V = VisitorCensus

  // ---------------------------------------------------------------------------
  // The store and the video
  // ---------------------------------------------------------------------------

  const LINE_A := X.EntryLine("a", C.Line(Point(-100.0, -10.0), Point(100.0, -10.0), C.Top, 200.0))
  const LINE_B := X.EntryLine("b", C.Line(Point(-100.0, 0.0), Point(100.0, 0.0), C.Bottom, 200.0))
  const LINE_C := X.EntryLine("c", C.Line(Point(-100.0, 10.0), Point(100.0, 10.0), C.Top, 200.0))
  const LINES := [LINE_A, LINE_B, LINE_C]

  const HIGH := Point(0.0, 30.0)
  const LOW := Point(0.0, -30.0)

  /** The first visitor walks down and the second one up. */
  const FIRST := FrameTracks(0, [Visitor(1, HIGH)])
  const SECOND := FrameTracks(1, [Visitor(1, LOW), Visitor(2, LOW)])
  const THIRD := FrameTracks(2, [Visitor(2, HIGH)])
  const VIDEO := [FIRST, SECOND, THIRD]

  const LOOK := G.Feature([], [])

  /** All settings are the usual ones; everybody looks the same. */
  const VISITORS := P.Setup(S.Settings(300.0, 10000, 5000), G.ReidSettings(true, 0.72, 0.5, 0.5, 300.0, 500, 0.5),
                            G.Scores((a, b) => 1.0, (a, b) => 1.0))
  const NO_REGIONS := ZT.Layout([], (zone, p) => false)
  const STORE := Store(LINES, USUAL, Z.Config(Z.Settings(3.0, 30.0, 15), Z.Clock(25.0, 0.0)), NO_REGIONS, 25.0, NO_REGIONS,
                       125, VISITORS, E.EmitSettings(100, false, true, 100000, true, e => true), "store", "camera")
  const CAMERA := Camera(frame => frame as real, frame => 0, e => true, e => Some(LOOK), e => 0.0)

  lemma {:induction false} StoreIsProper()
    ensures STORE.Proper() && DistinctTracks(VIDEO) && InOrder(VIDEO)
  {
    LinesAreProper();
    OneTrack(Visitor(1, HIGH));
    TwoTracks(Visitor(1, LOW), Visitor(2, LOW));
    OneTrack(Visitor(2, HIGH));
    assert Distinct<string>([]);
    hide D.DistinctLines, C.Line.Measured, Distinct, TrackIds;
  }

  lemma {:induction false} LinesAreProper()
    ensures D.DistinctLines(LINES) && forall i | 0 <= i < |LINES| :: LINES[i].line.Measured()
  {
  }

  lemma {:induction false} OneTrack(v: Visitor)
    ensures TrackIds([v]) == [v.track] && Distinct(TrackIds([v]))
  {
    assert [v][..0] == [] && [v.track][..0] == [];
    assert TrackIds([]) == [];
  }

  lemma {:induction false} TwoTracks(v: Visitor, w: Visitor)
    requires v.track != w.track
    ensures Distinct(TrackIds([v, w]))
  {
    OneTrack(v);
    assert [v, w][..1] == [v];
    assert TrackIds([v, w]) == [v.track] + [w.track];
    assert ([v.track] + [w.track])[..1] == [v.track];
  }

  // ---------------------------------------------------------------------------
  // The crossings
  // ---------------------------------------------------------------------------

  lemma {:induction false} WalkCrosses(up: bool)
    ensures var (p, q) := if up then (LOW, HIGH) else (HIGH, LOW);
      && C.ClassifyCrossing(p, q, LINE_A.line) == Some(if up then C.Entry else C.Exit)
      && C.ClassifyCrossing(p, q, LINE_B.line) == Some(if up then C.Exit else C.Entry)
      && C.ClassifyCrossing(p, q, LINE_C.line) == Some(if up then C.Entry else C.Exit)
      && forall frame: int, l | l in LINES :: Displaced(USUAL, l.line, [X.Appearance(p, frame)], q)
  {
    assert C.InwardNormal(LINE_A.line) == Point(0.0, 1.0);
    assert C.InwardNormal(LINE_B.line) == Point(0.0, -1.0);
    assert C.InwardNormal(LINE_C.line) == Point(0.0, 1.0);
  }

  lemma {:induction false} NoPairRun(lines: seq<X.EntryLine>, n: nat)
    requires n < |lines|
    ensures X.PairRun(USUAL, lines, [], n) == (X.NEW_STATE, [])
  {
    NothingSeen(USUAL, lines, n);
  }

  /** A track that is seen for the first time crosses nothing. */
  lemma {:induction false} FirstSight(a: X.Appearance, track: int, n: nat)
    requires n <= 3
    ensures D.LineCrossings(USUAL, LINES, [], a, track, n) == []
  {
    hide X.AllMoved, X.PairRun;
    if n > 0 {
      FirstSight(a, track, n - 1);
      NoPairRun(LINES, n - 1);
    }
  }

  /** At its second sight a track crosses whatever it passes. */
  lemma {:induction false} SecondSight(a: X.Appearance, b: X.Appearance, n: nat, d: C.Direction)
    requires n < 3 && b.frame >= 0 && C.ClassifyCrossing(a.centroid, b.centroid, LINES[n].line) == Some(d)
    requires forall l | l in LINES :: Displaced(USUAL, l.line, [a], b.centroid)
    ensures X.Fires(USUAL, LINES[n].line, X.PairRun(USUAL, LINES, [a], n).0,
                    X.Sighting(b.centroid, b.frame, X.AllMoved(USUAL, LINES, [a], b.centroid, n + 1))) == Some(d)
  {
    hide C.ClassifyCrossing, C.CrossSign, Displaced, X.PairRun, X.AllMoved;
    NoPairRun(LINES, n);
    RunMore(USUAL, LINES, [], a, n);
    assert [] + [a] == [a];
    CheckIsOneMove(USUAL, LINES, [a], b.centroid, n + 1);
  }

  /** The three crossings of a walk, in the order of the lines. */
  function Walk(up: bool, track: int, frame: int): seq<D.CrossingEvent> {
    var (first, second) := if up then (C.Entry, C.Exit) else (C.Exit, C.Entry);
    [D.CrossingEvent(first, track, "a", frame), D.CrossingEvent(second, track, "b", frame),
     D.CrossingEvent(first, track, "c", frame)]
  }

  lemma {:induction false} WalkIsCrossed(up: bool, track: int, frame: int)
    requires frame >= 0
    ensures var (p, q) := if up then (LOW, HIGH) else (HIGH, LOW);
      D.LineCrossings(USUAL, LINES, [X.Appearance(p, frame - 1)], X.Appearance(q, frame), track, 3) == Walk(up, track, frame)
  {
    var (p, q) := if up then (LOW, HIGH) else (HIGH, LOW);
    var (first, second) := if up then (C.Entry, C.Exit) else (C.Exit, C.Entry);
    var a, b := X.Appearance(p, frame - 1), X.Appearance(q, frame);
    WalkCrosses(up);
    hide C.ClassifyCrossing, Displaced, X.PairRun, X.AllMoved, X.Fires;
    SecondSight(a, b, 0, first);
    SecondSight(a, b, 1, second);
    SecondSight(a, b, 2, first);
    assert D.LineCrossings(USUAL, LINES, [a], b, track, 0) == [];
    assert D.LineCrossings(USUAL, LINES, [a], b, track, 1) == [Walk(up, track, frame)[0]];
    assert D.LineCrossings(USUAL, LINES, [a], b, track, 2) == [Walk(up, track, frame)[0], Walk(up, track, frame)[1]];
  }

  lemma {:induction false} SeenSoFar()
    ensures D.AppearancesOf([], 1) == []
    ensures D.AppearancesOf([FIRST], 1) == [X.Appearance(HIGH, 0)] && D.AppearancesOf([FIRST], 2) == []
    ensures D.AppearancesOf([FIRST, SECOND], 2) == [X.Appearance(LOW, 1)]
  {
    D.FrameEnds(FIRST, []);
    D.FrameEnds(SECOND, [FIRST]);
    assert [] + [FIRST] == [FIRST] && [FIRST] + [SECOND] == [FIRST, SECOND];
    D.UnseenAppearance([], 0, 2);
    assert D.AppearanceIn(FIRST.tracks, 0, 2) == D.AppearanceIn([], 0, 2) by {
      assert FIRST.tracks[..0] == [];
    }
    hide D.AppearancesOf;
    NoneSeen();
  }

  lemma {:induction false} NoneSeen()
    ensures D.AppearancesOf([], 1) == [] && D.AppearancesOf([], 2) == []
  {
  }

  lemma {:induction false} FrameGoesOn(past: seq<FrameTracks>, visitors: seq<Visitor>, v: Visitor, frame: int)
    ensures D.FrameCrossings(USUAL, LINES, past, visitors + [v], frame) ==
      D.FrameCrossings(USUAL, LINES, past, visitors, frame)
      + D.LineCrossings(USUAL, LINES, D.AppearancesOf(past, v.track), X.Appearance(v.centroid, frame), v.track, 3)
    ensures D.FrameCrossings(USUAL, LINES, past, [], frame) == []
  {
    hide D.LineCrossings, D.AppearancesOf;
    assert (visitors + [v])[..|visitors|] == visitors;
  }

  lemma {:induction false} CrossingsByFrame()
    ensures D.FrameCrossings(USUAL, LINES, [], FIRST.tracks, 0) == []
    ensures D.FrameCrossings(USUAL, LINES, [FIRST], SECOND.tracks, 1) == Walk(false, 1, 1)
    ensures D.FrameCrossings(USUAL, LINES, [FIRST, SECOND], THIRD.tracks, 2) == Walk(true, 2, 2)
  {
    hide D.LineCrossings, D.AppearancesOf, D.FrameCrossings, Walk;
    SeenSoFar();
    FirstSight(X.Appearance(HIGH, 0), 1, 3);
    FirstSight(X.Appearance(LOW, 1), 2, 3);
    WalkIsCrossed(false, 1, 1);
    WalkIsCrossed(true, 2, 2);
    FrameGoesOn([], [], Visitor(1, HIGH), 0);
    FrameGoesOn([FIRST], [], Visitor(1, LOW), 1);
    FrameGoesOn([FIRST], [Visitor(1, LOW)], Visitor(2, LOW), 1);
    FrameGoesOn([FIRST, SECOND], [], Visitor(2, HIGH), 2);
    assert [] + [Visitor(1, HIGH)] == FIRST.tracks && [] + [Visitor(2, HIGH)] == THIRD.tracks;
    assert [] + [Visitor(1, LOW)] == [Visitor(1, LOW)] && [Visitor(1, LOW)] + [Visitor(2, LOW)] == SECOND.tracks;
  }

  lemma {:induction false} NewGroup(crossings: seq<D.CrossingEvent>, e: D.CrossingEvent, groups: CG.ByLine)
    requires CG.GroupedByLine(crossings) == groups && Get(groups, e.lineId).None?
    ensures CG.GroupedByLine(crossings + [e]) == groups + [Binding(e.lineId, [e])]
    ensures Flat(Values(groups + [Binding(e.lineId, [e])])) == Flat(Values(groups)) + [e]
  {
    assert (crossings + [e])[..|crossings|] == crossings;
    assert [] + [e] == [e];
    hide Get;
    Groups.FlatValues(groups, Binding(e.lineId, [e]));
  }

  /** Three crossings of three lines stay as they are. */
  lemma {:induction false} WalkStays(up: bool, track: int, frame: int)
    ensures CG.Regrouped(Walk(up, track, frame)) == Walk(up, track, frame) && CG.Regrouped([]) == []
  {
    var w := Walk(up, track, frame);
    assert w == [w[0], w[1], w[2]] && w[0].lineId == "a" && w[1].lineId == "b" && w[2].lineId == "c";
    hide *;
    ThreeStay(w[0], w[1], w[2]);
  }

  lemma {:induction false} ThreeStay(x: D.CrossingEvent, y: D.CrossingEvent, z: D.CrossingEvent)
    requires x.lineId == "a" && y.lineId == "b" && z.lineId == "c"
    ensures CG.Regrouped([x, y, z]) == [x, y, z] && CG.Regrouped([]) == []
  {
    ThreeKeys([x], [y]);
    NoGroups();
    var one := [Binding("a", [x])];
    var two := one + [Binding("b", [y])];
    hide CG.GroupedByLine, Get, Flat, Values;
    NewGroup([], x, []);
    assert [] + [x] == [x] && [] + [Binding("a", [x])] == one;
    NewGroup([x], y, one);
    assert [x] + [y] == [x, y];
    NewGroup([x, y], z, two);
    assert [x, y] + [z] == [x, y, z];
  }

  lemma {:induction false} NoGroups()
    ensures CG.GroupedByLine([]) == [] && CG.Regrouped([]) == []
    ensures Flat(Values<string, seq<D.CrossingEvent>>([])) == []
  {
  }

  lemma {:induction false} ThreeKeys<V>(x: V, y: V)
    ensures Get<string, V>([], "a").None? && Get([Binding("a", x)], "b").None?
    ensures Get([Binding("a", x)] + [Binding("b", y)], "c").None?
  {
    GetAppend([], Binding("a", x), "b");
    GetAppend([], Binding("a", x), "c");
    GetAppend([Binding("a", x)], Binding("b", y), "c");
    assert [] + [Binding("a", x)] == [Binding("a", x)];
    hide Get;
    assert Get<string, V>([], "a").None? by { NothingUnder<V>("a"); }
    NothingUnder<V>("b");
    NothingUnder<V>("c");
  }

  lemma {:induction false} NothingUnder<V>(k: string)
    ensures Get<string, V>([], k).None?
  {
  }

  lemma {:induction false} CrossingsOfVideo()
    ensures CrossingsOf(STORE, VIDEO) == Walk(false, 1, 1) + Walk(true, 2, 2)
  {
    hide D.FrameCrossings, CG.Regrouped, Walk, CrossingsOf;
    CrossingsByFrame();
    WalkStays(false, 1, 1);
    WalkStays(true, 2, 2);
    CrossingsOfAppend(STORE, [], FIRST);
    CrossingsOfAppend(STORE, [FIRST], SECOND);
    CrossingsOfAppend(STORE, [FIRST, SECOND], THIRD);
    assert [] + [FIRST] == [FIRST] && [FIRST] + [SECOND] == [FIRST, SECOND] && [FIRST, SECOND] + [THIRD] == VIDEO;
    NoCrossings();
  }

  lemma {:induction false} NoCrossings()
    ensures CrossingsOf(STORE, []) == []
  {
  }

  // ---------------------------------------------------------------------------
  // The log
  // ---------------------------------------------------------------------------

  function Crosses(up: bool, track: int, line: string, frame: int): EngineEvent {
    OfCrossing(D.CrossingEvent(if up == (line == "b") then C.Exit else C.Entry, track, line, frame))
  }

  /** The six crossings of the video. */
  const LOG := [Crosses(false, 1, "a", 1), Crosses(false, 1, "b", 1), Crosses(false, 1, "c", 1),
                Crosses(true, 2, "a", 2), Crosses(true, 2, "b", 2), Crosses(true, 2, "c", 2)]

  lemma {:induction false} OnlyCrossings(log: seq<EngineEvent>)
    requires ZonePart(log) == [] && QueuePart(log) == []
    ensures log == CrossingEvents(CrossingPart(log))
  {
    if log != [] {
      OnlyCrossings(log[..|log| - 1]);
      assert log[..|log| - 1] + [log[|log| - 1]] == log;
      var part := CrossingPart(log);
      assert part[..|part| - 1] == CrossingPart(log[..|log| - 1]);
    }
  }

  lemma {:induction false} CrossingEventsAppend(crossings: seq<D.CrossingEvent>, c: D.CrossingEvent)
    ensures CrossingEvents(crossings + [c]) == CrossingEvents(crossings) + [OfCrossing(c)]
    ensures CrossingEvents([]) == []
  {
    assert (crossings + [c])[..|crossings|] == crossings;
  }

  lemma {:induction false} LogOfWalks()
    ensures CrossingEvents(Walk(false, 1, 1) + Walk(true, 2, 2)) == LOG
  {
    hide CrossingEvents;
    var v, w := Walk(false, 1, 1), Walk(true, 2, 2);
    CrossingEventsAppend([], v[0]);
    CrossingEventsAppend([v[0]], v[1]);
    CrossingEventsAppend([v[0], v[1]], v[2]);
    CrossingEventsAppend(v, w[0]);
    CrossingEventsAppend(v + [w[0]], w[1]);
    CrossingEventsAppend(v + [w[0]] + [w[1]], w[2]);
    assert [] + [v[0]] == [v[0]] && [v[0]] + [v[1]] == [v[0], v[1]] && [v[0], v[1]] + [v[2]] == v;
    assert v + [w[0]] + [w[1]] + [w[2]] == v + w;
  }

  lemma {:induction false} NoZoneEvents(video: seq<FrameTracks>, k: Key)
    ensures Z.Run(STORE.zones, k, ZR.FramesOf(NO_REGIONS, video, k)) == (Z.NEW_PAIR, [])
  {
    if video == [] {
      NoRun(STORE);
    } else {
      var front, f := video[..|video| - 1], video[|video| - 1];
      NoZoneEvents(front, k);
      assert NO_REGIONS.SightOf(f.tracks, k) == Z.Unseen;
      ZR.FramesOfAppend(NO_REGIONS, video, |front|, k);
      assert video[..|front| + 1] == video && video[..|front|] == front;
      ZR.RunAppend(STORE.zones, k, ZR.FramesOf(NO_REGIONS, front, k), Z.Frame(f.index, Z.Unseen));
      var log := Z.Run(STORE.zones, k, ZR.FramesOf(NO_REGIONS, front, k)).1;
      assert log + [] == log;
    }
  }

  lemma {:induction false} NoQueueEvents(video: seq<FrameTracks>, k: Key)
    ensures Q.QueueRun(STORE.fps, k, QT.QueueFramesOf(NO_REGIONS, video, k)) == (Q.NEW_MEMBER, [])
  {
    if video == [] {
      QT.NothingYet(STORE.fps, NO_REGIONS, 1);
    } else {
      var front, f := video[..|video| - 1], video[|video| - 1];
      NoQueueEvents(front, k);
      assert NO_REGIONS.SightOf(f.tracks, k) == Z.Unseen;
      var frames := QT.QueueFramesOf(NO_REGIONS, video, k);
      assert frames[..|frames| - 1] == QT.QueueFramesOf(NO_REGIONS, front, k);
      var log := Q.QueueRun(STORE.fps, k, QT.QueueFramesOf(NO_REGIONS, front, k)).1;
      assert log + [] == log;
    }
  }

  /** A part without events of any source is empty. */
  lemma {:induction false} NoZonePart(events: seq<Z.Event>)
    requires forall k: Key :: ZT.EventsOf(events, k) == []
    ensures events == []
  {
    if events != [] {
      ZR.EventAtPair(events, events[|events| - 1]);
    }
  }

  lemma {:induction false} ReportAt(events: seq<Q.QueueEvent>, e: Q.QueueEvent)
    requires e in events && e.Depth?
    ensures QT.ReportsOf(events, e.queue) != []
  {
    if e != events[|events| - 1] {
      ReportAt(events[..|events| - 1], e);
    }
  }

  lemma {:induction false} NoQueuePart(events: seq<Q.QueueEvent>)
    requires forall k: Key :: QT.MovesOf(events, k) == []
    requires forall q: string :: QT.ReportsOf(events, q) == []
    ensures events == []
  {
    if events != [] {
      var e := events[|events| - 1];
      if e.Depth? {
        ReportAt(events, e);
      } else {
        QT.MoveAtPair(events, e);
      }
    }
  }

  /** Whatever RunVideo returns for this store and video, its log is the six crossings. */
  lemma {:induction false} TheLog(log: seq<EngineEvent>, interval: int, states: map<Key, X.TrackLineState>)
    requires EngineParts(log, VIDEO, STORE.zones, STORE.zoneLayout, STORE.fps, STORE.queueLayout, interval, STORE.crossing,
                         STORE.lines, states)
    requires CrossingPart(log) == CrossingsOf(STORE, VIDEO)
    ensures log == LOG
  {
    hide CrossingPart, ZonePart, QueuePart, CrossingEvents, D.Explained, D.OnlyLines, D.AppearancesOf, CrossingsOf, Walk;
    hide ZT.EventsOf, QT.MovesOf, QT.ReportsOf, Z.Run, Q.QueueRun;
    forall k: Key
      ensures ZT.EventsOf(ZonePart(log), k) == [] && QT.MovesOf(QueuePart(log), k) == []
    {
      NoZoneEvents(VIDEO, k);
      NoQueueEvents(VIDEO, k);
    }
    NoZonePart(ZonePart(log));
    NoQueuePart(QueuePart(log));
    OnlyCrossings(log);
    CrossingsOfVideo();
    LogOfWalks();
  }

  // ---------------------------------------------------------------------------
  // What becomes of them
  // ---------------------------------------------------------------------------

  function RawAt(i: nat): P.RawEvent
    requires i < 6
  {
    RawOf(CAMERA, LOG[i])
  }

  function After(n: nat): P.Stores
    requires n <= 6
  {
    StoresAfter(VISITORS, CAMERA, LOG[..n])
  }

  lemma {:induction false} AfterStep(n: nat)
    requires n < 6
    ensures After(n + 1) == P.Step(VISITORS, After(n), RawAt(n))
    ensures P.JointInv(VISITORS, After(n))
    ensures EmittedAt(VISITORS, CAMERA, LOG, n) == P.Emitted(VISITORS, After(n), RawAt(n))
  {
    hide P.Step, P.JointInv, StoresAfter, RawOf, P.Emitted;
    assert LOG[..n] + [LOG[n]] == LOG[..n + 1];
    StoresStep(VISITORS, CAMERA, LOG[..n], LOG[n]);
    StoresKept(VISITORS, CAMERA, LOG[..n]);
  }

  lemma {:induction false} RawIs(i: nat)
    requires i < 6
    ensures var track := if i < 3 then 1 else 2;
      RawAt(i) == P.RawEvent(S.Signal(if i == 1 || i == 3 || i == 5 then S.Entry else S.Exit, track as real, Some(track), Some(track),
                                      None, "", None, 0.0), true, Some(LOOK))
  {
  }

  lemma {:induction false} AllLookAlike(r: G.ExitRecord, now: real)
    requires r.feature == LOOK && 0.0 <= now - r.exitedAt <= 300.0
    ensures G.Eligible(VISITORS.reid, VISITORS.scores, r, LOOK, now)
  {
  }

  lemma {:induction false} NothingAfter(cfg: P.Setup, cam: Camera)
    ensures StoresAfter(cfg, cam, []) == P.NO_STORES
  {
  }

  /** Nobody is there to go out. */
  lemma {:induction false} FirstExitIsNobodys()
    ensures After(0) == P.NO_STORES && After(1) == P.NO_STORES
    ensures P.Emitted(VISITORS, After(0), RawAt(0)) == RawAt(0).signal
  {
    hide P.Step, P.Emitted, RawAt, StoresAfter, P.JointInv;
    assert LOG[..0] == [];
    NothingAfter(VISITORS, CAMERA);
    AfterStep(0);
    RawIs(0);
    R.FirstExit(VISITORS, RawAt(0));
  }

  /** The first visitor goes in, and is found by track 1. */
  lemma {:induction false} FirstEntry()
    ensures After(2).gallery == [] && S.Cleanup(VISITORS.sessions, After(2).state, 1.0) == After(2).state
    ensures S.Resolve(After(2).state, RawAt(2).signal).Some? && S.Resolve(After(2).state, RawAt(2).signal).value.visitor == 0
    ensures P.Emitted(VISITORS, After(1), RawAt(1)) == RawAt(1).signal
  {
    hide P.Step, P.Emitted, RawAt, After, P.JointInv, S.Process, S.Cleanup, S.Resolve;
    FirstExitIsNobodys();
    AfterStep(1);
    RawIs(1);
    RawIs(2);
    R.FirstEntry(VISITORS, RawAt(1));
    EntersEmpty(RawAt(1).signal);
  }

  lemma {:induction false} EntersEmpty(e: S.Signal)
    requires e.kind.Entry? && e.track == Some(1)
    ensures var st := S.Process(VISITORS.sessions, S.EMPTY, e).0;
      && S.Cleanup(VISITORS.sessions, st, e.at) == st
      && forall out: S.Signal | out.person == Some(1) ::
           S.Resolve(st, out).Some? && S.Resolve(st, out).value.visitor == 0
  {
    var s, st := S.NewSession(0, 1, e, 0.0), S.Process(VISITORS.sessions, S.EMPTY, e).0;
    TablesAfterEntry(e);
    OneBinding(0, s);
    OneBinding(1, 0);
    assert S.StaleVisitors(VISITORS.sessions, st.active, e.at) == [] by {
      assert st.active[..0] == [];
    }
    hide S.Process, Get, S.StaleVisitors;
  }

  lemma {:induction false} OneBinding<K, V>(k: K, v: V)
    ensures Get([Binding(k, v)], k) == Some(v)
  {
  }

  lemma {:induction false} TablesAfterEntry(e: S.Signal)
    requires e.kind.Entry? && e.track == Some(1)
    ensures var st := S.Process(VISITORS.sessions, S.EMPTY, e).0;
      st.active == [Binding(0, S.NewSession(0, 1, e, 0.0))] && st.tracks == [Binding(1, 0)]
  {
    assert S.Cleanup(VISITORS.sessions, S.EMPTY, e.at) == S.EMPTY;
    hide S.Cleanup, S.OnlyActive;
  }

  /** Then the visitor is in the gallery. */
  lemma {:induction false} FirstLeaves()
    ensures After(3).gallery == [G.ExitRecord(0, 1.0, LOOK, Some(1))]
  {
    FirstEntry();
    AfterStep(2);
    RawIs(2);
    hide RawAt, After, S.Cleanup, S.Resolve, P.Step;
    R.ExitRegisters(VISITORS, After(2), RawAt(2), 0);
  }

  /** The second comes back as the first, leaves, and comes back again, all in one frame. */
  lemma {:induction false} SecondReturnsTwice()
    ensures EmittedAt(VISITORS, CAMERA, LOG, 3) == P.ReentrySignal(RawAt(3).signal, 0)
    ensures EmittedAt(VISITORS, CAMERA, LOG, 5) == P.ReentrySignal(RawAt(5).signal, 0)
  {
    hide *;
    SecondEnters();
    SecondLeaves();
    AfterStep(5);
    SecondMatches(5, G.ExitRecord(0, 2.0, LOOK, Some(2)));
  }

  /** An entry of the second visitor, with one record in the gallery, is a return of the first. */
  lemma {:induction false} SecondMatches(i: nat, r: G.ExitRecord)
    requires i == 3 || i == 5
    requires After(i).gallery == [r] && r.visitor == 0 && r.feature == LOOK && 0.0 <= 2.0 - r.exitedAt <= 300.0
    ensures P.Emitted(VISITORS, After(i), RawAt(i)) == P.ReentrySignal(RawAt(i).signal, 0)
    ensures P.Step(VISITORS, After(i), RawAt(i))
      == P.Stores(S.Process(VISITORS.sessions, After(i).state, P.ReentrySignal(RawAt(i).signal, 0)).0, [])
  {
    RawIs(i);
    AllLookAlike(r, 2.0);
    hide RawAt, After, P.Step, P.Emitted, G.Eligible, S.Process;
    R.OnlyRecordMatches(VISITORS, After(i), RawAt(i), r);
  }

  lemma {:induction false} SecondEnters()
    ensures EmittedAt(VISITORS, CAMERA, LOG, 3) == P.ReentrySignal(RawAt(3).signal, 0)
    ensures After(4) == P.Stores(S.Process(VISITORS.sessions, After(3).state, P.ReentrySignal(RawAt(3).signal, 0)).0, [])
  {
    hide *;
    FirstLeaves();
    AfterStep(3);
    SecondMatches(3, G.ExitRecord(0, 1.0, LOOK, Some(1)));
  }

  lemma {:induction false} SecondLeaves()
    ensures After(5).gallery == [G.ExitRecord(0, 2.0, LOOK, Some(2))]
  {
    SecondEnters();
    AfterStep(3);
    AfterStep(4);
    RawIs(3);
    RawIs(4);
    hide RawAt, After, S.Cleanup, S.Resolve, P.Step, P.Emitted, EmittedAt, P.JointInv, G.Eligible, S.Process;
    P.JointIsGood(VISITORS, After(3));
    R.ResumedIsFound(VISITORS.sessions, After(3).state, P.ReentrySignal(RawAt(3).signal, 0), RawAt(4).signal);
    R.ExitRegisters(VISITORS, After(4), RawAt(4), 0);
  }

  /**
   The log of this video, whichever way it is run, has two re-entries of one name, and the emitter drops the second.
   */
  lemma {:induction false} AnEventIsLost(log: seq<EngineEvent>, interval: int, states: map<Key, X.TrackLineState>)
    requires EngineParts(log, VIDEO, STORE.zones, STORE.zoneLayout, STORE.fps, STORE.queueLayout, interval, STORE.crossing,
                         STORE.lines, states)
    requires CrossingPart(log) == CrossingsOf(STORE, VIDEO) && AllDiffer(log)
    ensures ReturnsTwice(EmittedIdents(VISITORS, CAMERA, log), 3, 5) && !Distinct(EmittedIdents(VISITORS, CAMERA, log))
    ensures E.Taken(STORE.emit, LogEvents(STORE, CAMERA, log)) != LogEvents(STORE, CAMERA, log)
  {
    TheLog(log, interval, states);
    SecondReturnsTwice();
    RawIs(3);
    RawIs(5);
    hide EngineParts, AllDiffer, E.Taken, P.Emitted, EmittedAt, CrossingsOf, CrossingPart, EmittedIdents, Named, RawAt, Distinct;
    IdentAt(VISITORS, CAMERA, LOG, 3);
    IdentAt(VISITORS, CAMERA, LOG, 5);
    assert ReturnsTwice(EmittedIdents(VISITORS, CAMERA, log), 3, 5);
    EmittedDifferExactly(VISITORS, CAMERA, log);
    DedupDropsNothingExactly(STORE.emit, STORE.name, STORE.camera, VISITORS, CAMERA, log);
  }

  /** What is taken of a stream is shorter unless it is all of it. */
  lemma {:induction false} TakenShorter(emit: E.EmitSettings, events: seq<E.Event>)
    ensures |E.Taken(emit, events)| <= |events|
    ensures |E.Taken(emit, events)| == |events| ==> E.Taken(emit, events) == events
  {
    hide E.Takes;
    if events != [] {
      TakenShorter(emit, events[..|events| - 1]);
      assert events[..|events| - 1] + [events[|events| - 1]] == events;
    }
  }

  /** The run itself: six events are raised, and fewer are written. */
  method RunLosesAnEvent(endAt: real) returns (log: seq<EngineEvent>, emitter: W.StructuredEventEmitter)
    ensures log == LOG && |Flat(emitter.batches)| < |log|
  {
    hide STORE.Proper, DistinctTracks, InOrder, EngineParts, AllDiffer, E.Taken, LogEvents, CrossingPart, CrossingsOf, Flat;
    hide Distinct, EmittedIdents, W.StructuredEventEmitter.Valid, InFrameOrder, CrossingsAscend, StoresAfter;
    StoreIsProper();
    var detector, zones, queues, runner, visitors;
    log, detector, zones, queues, runner, emitter, visitors := RunVideo(STORE, CAMERA, VIDEO, endAt);
    TheLog(log, queues.interval, detector.trackState);
    AnEventIsLost(log, queues.interval, detector.trackState);
    TakenShorter(STORE.emit, LogEvents(STORE, CAMERA, log));
    LogEventsLength(log);
  }

  lemma {:induction false} LogEventsLength(log: seq<EngineEvent>)
    ensures |LogEvents(STORE, CAMERA, log)| == |log|
  {
    hide EmittedIdents;
    EmittedEvents.EmittedLength(VISITORS, CAMERA, log);
    NamedLength(EmittedIdents(VISITORS, CAMERA, log));
  }

  lemma {:induction false} NamedLength(ids: seq<Ident>)
    ensures |Named(STORE.name, STORE.camera, CAMERA.dayOf, ids)| == |ids|
  {
    hide NameOf;
    if ids != [] {
      NamedLength(ids[..|ids| - 1]);
    }
  }

  /** One person is seen, and three unique visitors are reported. */
  lemma {:induction false} OnePersonCountsThrice(at: real)
    ensures var st := P.RunAll(VISITORS, Raws(CAMERA, LOG)).state;
      var closed := S.CloseAllActive(VISITORS.sessions, st, at, S.Completed);
      |V.Visitors(closed.finished)| == 1 && V.Report(closed) == 3
  {
    hide P.Step, P.JointInv, P.Emitted, RawAt, After, EmittedAt, P.RunAll;
    SecondReturnsTwice();
    FirstExitIsNobodys();
    EntryIsLogged();
    forall i: nat | i < 6
      ensures var next := After(i + 1).state;
        var kind := EmittedAt(VISITORS, CAMERA, LOG, i).kind;
        && next.entries == After(i).state.entries + (if kind.Entry? then 1 else 0)
        && next.reentries == After(i).state.reentries + (if kind.Reentry? then 1 else 0)
    {
      AfterStep(i);
      RawIs(i);
      V.StepCounts(VISITORS, After(i), RawAt(i));
    }
    RawsFromEngines(CAMERA, LOG);
    AfterAll();
    V.ReportCountsVisitorsExactly(VISITORS, Raws(CAMERA, LOG), at);
    P.UniqueVisitorsCountsSessions(VISITORS, Raws(CAMERA, LOG), at);
  }

  lemma {:induction false} AfterAll()
    ensures After(6).state == P.RunAll(VISITORS, Raws(CAMERA, LOG)).state
  {
    hide P.RunAll, Raws;
    assert LOG[..6] == LOG;
  }

  /** The first entry matches nobody; exits are never replaced. */
  lemma {:induction false} EntryIsLogged()
    ensures EmittedAt(VISITORS, CAMERA, LOG, 0).kind.Exit? && EmittedAt(VISITORS, CAMERA, LOG, 1).kind.Entry?
    ensures EmittedAt(VISITORS, CAMERA, LOG, 2).kind.Exit? && EmittedAt(VISITORS, CAMERA, LOG, 4).kind.Exit?
  {
    hide P.Step, P.Emitted, RawAt, After, P.JointInv, EmittedAt;
    FirstExitIsNobodys();
    FirstEntry();
    AfterStep(0);
    AfterStep(1);
    AfterStep(2);
    AfterStep(4);
    RawIs(0);
    RawIs(1);
    RawIs(2);
    RawIs(4);
    R.ExitLogged(VISITORS, After(2), RawAt(2));
    R.ExitLogged(VISITORS, After(4), RawAt(4));
  }
}
