/**
 One video through everything: the engines for lines, zones and queues watch every frame, re-identification and
 sessions take their events in order, and the emitter writes what comes out.
 */
module StorePipeline {
  import opened Sequences
  import opened Tracks
  import opened EventIdentity
  import opened EventStreams
  import opened EmittedEvents
  import X = EntryExitModel
  import D = EntryExitDetectors
  import CG = CrossingGroups
  import Z = ZoneModel
  import ZT = ZoneTables
  import ZR = ZoneTracking
  import Q = QueueModel
  import QT = QueueTracking
  import S = SessionModel
  import SE = SessionEngines
  import P = VisitorPipeline
  import E = EmitterModel
  import W = Emitter

  datatype Store = Store(lines: seq<X.EntryLine>, crossing: X.Settings, zones: Z.Config, zoneLayout: ZT.Layout, fps: real,
                         queueLayout: ZT.Layout, depthInterval: int, visitors: P.Setup, emit: E.EmitSettings, name: string,
                         camera: string) {
    ghost predicate Proper() {
      && D.DistinctLines(lines) && (forall i | 0 <= i < |lines| :: lines[i].line.Measured())
      && Distinct(zoneLayout.zones) && Distinct(queueLayout.zones) && emit.batchSize >= 1
    }
  }

  function CrossingEvents(crossings: seq<D.CrossingEvent>): seq<EngineEvent> {
    if crossings == [] then []
    else CrossingEvents(crossings[..|crossings| - 1]) + [OfCrossing(crossings[|crossings| - 1])]
  }

  /** The events of a frame in the order of the engines. */
  function FrameEvents(crossings: seq<D.CrossingEvent>, zones: seq<Z.Event>, queues: seq<Q.QueueEvent>): seq<EngineEvent> {
    CrossingEvents(crossings) + ZoneEvents(zones) + QueueEvents(queues)
  }

  lemma {:induction false} ZonePartConcat(a: seq<EngineEvent>, b: seq<EngineEvent>)
    ensures ZonePart(a + b) == ZonePart(a) + ZonePart(b)
  {
    if b == [] {
      assert a + b == a;
    } else {
      ZonePartConcat(a, b[..|b| - 1]);
      assert (a + b)[..|a + b| - 1] == a + b[..|b| - 1];
    }
  }

  lemma {:induction false} QueuePartConcat(a: seq<EngineEvent>, b: seq<EngineEvent>)
    ensures QueuePart(a + b) == QueuePart(a) + QueuePart(b)
  {
    if b == [] {
      assert a + b == a;
    } else {
      QueuePartConcat(a, b[..|b| - 1]);
      assert (a + b)[..|a + b| - 1] == a + b[..|b| - 1];
    }
  }

  lemma {:induction false} CrossingPartConcat(a: seq<EngineEvent>, b: seq<EngineEvent>)
    ensures CrossingPart(a + b) == CrossingPart(a) + CrossingPart(b)
  {
    if b == [] {
      assert a + b == a;
    } else {
      CrossingPartConcat(a, b[..|b| - 1]);
      assert (a + b)[..|a + b| - 1] == a + b[..|b| - 1];
    }
  }

  lemma {:induction false} PartsConcat(a: seq<EngineEvent>, b: seq<EngineEvent>)
    ensures ZonePart(a + b) == ZonePart(a) + ZonePart(b)
    ensures QueuePart(a + b) == QueuePart(a) + QueuePart(b)
    ensures CrossingPart(a + b) == CrossingPart(a) + CrossingPart(b)
  {
    ZonePartConcat(a, b);
    QueuePartConcat(a, b);
    CrossingPartConcat(a, b);
  }

  lemma {:induction false} PartsOfCrossings(crossings: seq<D.CrossingEvent>)
    ensures ZonePart(CrossingEvents(crossings)) == [] && QueuePart(CrossingEvents(crossings)) == []
    ensures CrossingPart(CrossingEvents(crossings)) == crossings
  {
    if crossings != [] {
      var front, last := crossings[..|crossings| - 1], crossings[|crossings| - 1];
      PartsOfCrossings(front);
      assert front + [last] == crossings;
      PartsAppend(CrossingEvents(front), OfCrossing(last));
      hide ZonePart, QueuePart, CrossingPart;
    }
  }

  lemma {:induction false} PartsOfZones(events: seq<Z.Event>)
    ensures ZonePart(ZoneEvents(events)) == events
    ensures QueuePart(ZoneEvents(events)) == [] && CrossingPart(ZoneEvents(events)) == []
  {
    if events != [] {
      var front, last := events[..|events| - 1], events[|events| - 1];
      PartsOfZones(front);
      assert front + [last] == events;
      PartsAppend(ZoneEvents(front), OfZone(last));
      hide ZonePart, QueuePart, CrossingPart;
    }
  }

  lemma {:induction false} PartsOfQueues(events: seq<Q.QueueEvent>)
    ensures QueuePart(QueueEvents(events)) == events
    ensures ZonePart(QueueEvents(events)) == [] && CrossingPart(QueueEvents(events)) == []
  {
    if events != [] {
      var front, last := events[..|events| - 1], events[|events| - 1];
      PartsOfQueues(front);
      assert front + [last] == events;
      PartsAppend(QueueEvents(front), OfQueue(last));
      hide ZonePart, QueuePart, CrossingPart;
    }
  }

  lemma {:induction false} PartsOfFrame(log: seq<EngineEvent>, crossings: seq<D.CrossingEvent>, zones: seq<Z.Event>,
                                        queues: seq<Q.QueueEvent>)
    ensures var all := log + FrameEvents(crossings, zones, queues);
      && CrossingPart(all) == CrossingPart(log) + crossings
      && ZonePart(all) == ZonePart(log) + zones && QueuePart(all) == QueuePart(log) + queues
  {
    hide ZonePart, QueuePart, CrossingPart, ZoneEvents, QueueEvents, CrossingEvents;
    PartsOfCrossings(crossings);
    PartsOfZones(zones);
    PartsOfQueues(queues);
    PartsConcat(CrossingEvents(crossings), ZoneEvents(zones));
    PartsConcat(CrossingEvents(crossings) + ZoneEvents(zones), QueueEvents(queues));
    PartsConcat(log, FrameEvents(crossings, zones, queues));
  }

  // ---------------------------------------------------------------------------
  // Frames of events
  // ---------------------------------------------------------------------------

  predicate AllAt(log: seq<EngineEvent>, frame: int) {
    forall e | e in log :: FrameOf(e) == frame
  }

  lemma {:induction false} CrossingsAt(crossings: seq<D.CrossingEvent>, frame: int)
    requires forall c | c in crossings :: c.frame == frame
    ensures AllAt(CrossingEvents(crossings), frame)
  {
    if crossings != [] {
      CrossingsAt(crossings[..|crossings| - 1], frame);
    }
  }

  lemma {:induction false} ZonesAt(events: seq<Z.Event>, frame: int)
    requires forall e | e in events :: e.frame == frame
    ensures AllAt(ZoneEvents(events), frame)
  {
    if events != [] {
      ZonesAt(events[..|events| - 1], frame);
    }
  }

  lemma {:induction false} QueuesAt(events: seq<Q.QueueEvent>, frame: int)
    requires forall e | e in events :: e.frame == frame
    ensures AllAt(QueueEvents(events), frame)
  {
    if events != [] {
      QueuesAt(events[..|events| - 1], frame);
    }
  }

  /** The turn an engine has within a frame: crossings come first, then zones, then queues. */
  function Turn(e: EngineEvent): nat {
    match e
    case OfCrossing(_) => 0
    case OfZone(_) => 1
    case OfQueue(_) => 2
  }

  ghost predicate InTurn(events: seq<EngineEvent>) {
    forall i, j | 0 <= i < j < |events| :: Turn(events[i]) <= Turn(events[j])
  }

  /** Within each frame the engines take their turns. */
  ghost predicate InEngineOrder(log: seq<EngineEvent>) {
    forall i, j | 0 <= i < j < |log| && FrameOf(log[i]) == FrameOf(log[j]) :: Turn(log[i]) <= Turn(log[j])
  }

  ghost predicate AllTurn(events: seq<EngineEvent>, turn: nat) {
    forall i | 0 <= i < |events| :: Turn(events[i]) == turn
  }

  lemma {:induction false} CrossingsTurn(crossings: seq<D.CrossingEvent>)
    ensures AllTurn(CrossingEvents(crossings), 0)
  {
    if crossings != [] {
      CrossingsTurn(crossings[..|crossings| - 1]);
    }
  }

  lemma {:induction false} ZonesTurn(events: seq<Z.Event>)
    ensures AllTurn(ZoneEvents(events), 1)
  {
    if events != [] {
      ZonesTurn(events[..|events| - 1]);
    }
  }

  lemma {:induction false} QueuesTurn(events: seq<Q.QueueEvent>)
    ensures AllTurn(QueueEvents(events), 2)
  {
    if events != [] {
      QueuesTurn(events[..|events| - 1]);
    }
  }

  lemma {:induction false} FrameInTurn(crossings: seq<D.CrossingEvent>, zones: seq<Z.Event>, queues: seq<Q.QueueEvent>)
    ensures InTurn(FrameEvents(crossings, zones, queues))
  {
    CrossingsTurn(crossings);
    ZonesTurn(zones);
    QueuesTurn(queues);
    hide CrossingEvents, ZoneEvents, QueueEvents, Turn;
  }

  lemma {:induction false} TurnsGoOn(log: seq<EngineEvent>, more: seq<EngineEvent>, now: int, frame: int)
    requires InEngineOrder(log) && UpTo(log, now) && (log != [] ==> now < frame) && AllAt(more, frame) && InTurn(more)
    ensures InEngineOrder(log + more)
  {
    hide IdentOf, Turn;
    var all := log + more;
    forall i | 0 <= i < |all|
      ensures i < |log| ==> all[i] == log[i] && FrameOf(all[i]) < frame
      ensures i >= |log| ==> all[i] == more[i - |log|] && FrameOf(all[i]) == frame
    {
      assert i >= |log| ==> all[i] in more;
    }
  }

  /** Frame by frame the log stays in order. */
  lemma {:induction false} OrderGoesOn(log: seq<EngineEvent>, more: seq<EngineEvent>, now: int, frame: int)
    requires InFrameOrder(log) && UpTo(log, now) && now <= frame && AllAt(more, frame)
    ensures InFrameOrder(log + more) && UpTo(log + more, frame)
  {
    hide IdentOf;
    var all := log + more;
    forall i | 0 <= i < |all|
      ensures FrameOf(all[i]) <= frame && (i < |log| ==> all[i] == log[i]) && (i >= |log| ==> FrameOf(all[i]) == frame)
    {
      assert i >= |log| ==> all[i] in more;
    }
  }

  // ---------------------------------------------------------------------------
  // What comes out
  // ---------------------------------------------------------------------------

  /** The identities of some events, given what re-identification made of them. */
  function Emissions(events: seq<EngineEvent>, signals: seq<S.Signal>): seq<Ident>
    requires |signals| == |events|
  {
    if events == [] then []
    else
      var n := |events| - 1;
      Emissions(events[..n], signals[..n]) + [EmittedIdent(events[n], signals[n])]
  }

  lemma {:induction false} SignalsLength(cfg: P.Setup, past: seq<P.RawEvent>, raws: seq<P.RawEvent>)
    ensures |P.EmittedAfter(cfg, past, raws)| == |raws|
  {
    hide P.Emitted, P.RunAll;
    if raws != [] {
      SignalsLength(cfg, past, raws[..|raws| - 1]);
    }
  }

  lemma {:induction false} RawsConcat(cam: Camera, a: seq<EngineEvent>, b: seq<EngineEvent>)
    ensures Raws(cam, a + b) == Raws(cam, a) + Raws(cam, b) && |Raws(cam, b)| == |b|
  {
    hide RawOf;
    if b == [] {
      assert a + b == a;
    } else {
      RawsConcat(cam, a, b[..|b| - 1]);
      assert (a + b)[..|a + b| - 1] == a + b[..|b| - 1];
    }
  }

  /** The log goes on with what the frame's events became. */
  lemma {:induction false} IdentsGoOn(cfg: P.Setup, cam: Camera, log: seq<EngineEvent>, more: seq<EngineEvent>)
    ensures var signals := P.EmittedAfter(cfg, Raws(cam, log), Raws(cam, more));
      |signals| == |more| && EmittedIdents(cfg, cam, log + more) == EmittedIdents(cfg, cam, log) + Emissions(more, signals)
  {
    hide *;
    if more == [] {
      NothingGoesOn(cfg, cam, log);
    } else {
      var front, e := more[..|more| - 1], more[|more| - 1];
      assert front + [e] == more && (log + front) + [e] == log + more;
      IdentsGoOn(cfg, cam, log, front);
      SignalsMore(cfg, cam, log, front, e);
      EmissionsMore(front, e, P.EmittedAfter(cfg, Raws(cam, log), Raws(cam, front)), SignalAfter(cfg, cam, log + front, e));
      IdentsMore(cfg, cam, log + front, e);
      Regroup(EmittedIdents(cfg, cam, log), Emissions(front, P.EmittedAfter(cfg, Raws(cam, log), Raws(cam, front))),
              [EmittedIdent(e, SignalAfter(cfg, cam, log + front, e))]);
    }
  }

  /** What the next event goes on as. */
  function SignalAfter(cfg: P.Setup, cam: Camera, log: seq<EngineEvent>, e: EngineEvent): S.Signal {
    P.Emitted(cfg, StoresAfter(cfg, cam, log), RawOf(cam, e))
  }

  lemma {:induction false} NothingGoesOn(cfg: P.Setup, cam: Camera, log: seq<EngineEvent>)
    ensures P.EmittedAfter(cfg, Raws(cam, log), Raws(cam, [])) == [] && Emissions([], []) == []
    ensures EmittedIdents(cfg, cam, log + []) == EmittedIdents(cfg, cam, log) + []
  {
    hide EmittedIdents, P.RunAll;
    assert log + [] == log;
  }

  lemma {:induction false} SignalsMore(cfg: P.Setup, cam: Camera, log: seq<EngineEvent>, front: seq<EngineEvent>,
                                       e: EngineEvent)
    ensures P.EmittedAfter(cfg, Raws(cam, log), Raws(cam, front + [e]))
      == P.EmittedAfter(cfg, Raws(cam, log), Raws(cam, front)) + [SignalAfter(cfg, cam, log + front, e)]
    ensures |P.EmittedAfter(cfg, Raws(cam, log), Raws(cam, front))| == |front|
  {
    hide P.Emitted, P.RunAll, RawOf, Raws;
    RawsAppend(cam, front, e);
    RawsConcat(cam, log, front);
    SignalsLength(cfg, Raws(cam, log), Raws(cam, front));
    var raws := Raws(cam, front) + [RawOf(cam, e)];
    assert raws[..|raws| - 1] == Raws(cam, front);
  }

  lemma {:induction false} EmissionsMore(events: seq<EngineEvent>, e: EngineEvent, signals: seq<S.Signal>, s: S.Signal)
    requires |signals| == |events|
    ensures Emissions(events + [e], signals + [s]) == Emissions(events, signals) + [EmittedIdent(e, s)]
  {
    hide EmittedIdent;
    assert (events + [e])[..|events|] == events && (signals + [s])[..|events|] == signals;
  }

  lemma {:induction false} IdentsMore(cfg: P.Setup, cam: Camera, log: seq<EngineEvent>, e: EngineEvent)
    ensures EmittedIdents(cfg, cam, log + [e]) == EmittedIdents(cfg, cam, log) + [EmittedIdent(e, SignalAfter(cfg, cam, log, e))]
  {
    hide P.Emitted, StoresAfter, RawOf, EmittedIdent;
    assert (log + [e])[..|log|] == log;
  }

  lemma {:induction false} TakenStep(emit: E.EmitSettings, store: string, camera: string, dayOf: int -> int,
                                     ids: seq<Ident>, i: Ident)
    ensures var e := E.Event(NameOf(store, camera, i), dayOf(i.frame), "");
      var taken := E.Taken(emit, Named(store, camera, dayOf, ids));
      && Named(store, camera, dayOf, ids + [i]) == Named(store, camera, dayOf, ids) + [e]
      && E.Taken(emit, Named(store, camera, dayOf, ids + [i])) == if E.Takes(emit, taken, e) then taken + [e] else taken
  {
    hide E.Takes, NameOf;
    assert (ids + [i])[..|ids|] == ids;
    var named := Named(store, camera, dayOf, ids + [i]);
    assert named[..|named| - 1] == Named(store, camera, dayOf, ids);
  }

  /** The events of one frame are emitted one by one, under their names. */
  method EmitFrame(emitter: W.StructuredEventEmitter, store: string, camera: string, dayOf: int -> int,
                   events: seq<EngineEvent>, signals: seq<S.Signal>, ghost ids: seq<Ident>)
    requires emitter.Valid() && emitter.cfg.batchSize >= 1 && |emitter.buffer| < emitter.cfg.batchSize
    requires |signals| == |events| && emitter.taken == E.Taken(emitter.cfg, Named(store, camera, dayOf, ids))
    modifies emitter, emitter.dedup
    ensures emitter.Valid() && |emitter.buffer| < emitter.cfg.batchSize
    ensures emitter.taken == E.Taken(emitter.cfg, Named(store, camera, dayOf, ids + Emissions(events, signals)))
  {
    hide W.EventDedupStore.Valid, E.Ids, Flat, E.Taken, E.Takes, Named, EmittedIdent, NameOf, W.StructuredEventEmitter.Valid;
    assert ids + Emissions(events[..0], signals[..0]) == ids;
    for i := 0 to |events|
      invariant emitter.Valid() && |emitter.buffer| < emitter.cfg.batchSize
      invariant emitter.taken == E.Taken(emitter.cfg, Named(store, camera, dayOf, ids + Emissions(events[..i], signals[..i])))
    {
      var ident := EmittedIdent(events[i], signals[i]);
      assert events[..i + 1][..i] == events[..i] && signals[..i + 1][..i] == signals[..i];
      ghost var before := ids + Emissions(events[..i], signals[..i]);
      assert ids + Emissions(events[..i + 1], signals[..i + 1]) == before + [ident];
      TakenStep(emitter.cfg, store, camera, dayOf, before, ident);
      var _ := emitter.Emit(E.Event(NameOf(store, camera, ident), dayOf(ident.frame), ""));
    }
    assert events[..|events|] == events && signals[..|signals|] == signals;
  }

  // ---------------------------------------------------------------------------
  // Watching
  // ---------------------------------------------------------------------------

  /** The crossings of a video as they go on: frame by frame, and in each frame line by line. */
  function CrossingsOf(store: Store, video: seq<FrameTracks>): seq<D.CrossingEvent> {
    if video == [] then []
    else
      var front, f := video[..|video| - 1], video[|video| - 1];
      CrossingsOf(store, front) + CG.Regrouped(D.FrameCrossings(store.crossing, store.lines, front, f.tracks, f.index))
  }

  lemma {:induction false} CrossingsOfAppend(store: Store, past: seq<FrameTracks>, f: FrameTracks)
    ensures CrossingsOf(store, past + [f]) ==
      CrossingsOf(store, past) + CG.Regrouped(D.FrameCrossings(store.crossing, store.lines, past, f.tracks, f.index))
  {
    assert (past + [f])[..|past|] == past;
  }

  /** What the three engines have done over the frames so far: each pair and each queue its own run. */
  ghost predicate Watched(store: Store, past: seq<FrameTracks>, log: seq<EngineEvent>, crossed: seq<D.CrossingEvent>,
                          states: map<Key, X.TrackLineState>, zones: ZT.Tables, queues: QT.QueueTables, interval: int,
                          lastDepth: int) {
    && (forall t: int :: D.Explained(store.crossing, store.lines, states, crossed, t, D.AppearancesOf(past, t)))
    && D.OnlyLines(store.lines, crossed)
    && (forall k: Key :: D.CrossedOf(CrossingPart(log), k) == D.CrossedOf(crossed, k))
    && CrossingPart(log) == CrossingsOf(store, past)
    && ZR.Lived(store.zones, store.zoneLayout, past, zones, ZonePart(log))
    && QT.QueuesLived(store.fps, store.queueLayout, interval, past, queues, lastDepth, QueuePart(log))
  }

  ghost predicate Built(store: Store, detector: D.EntryExitDetector, zones: ZR.ZoneTrackingEngine,
                        queues: QT.QueueTrackingEngine)
    reads zones
  {
    && detector.Valid() && detector.cfg == store.crossing && detector.lines == store.lines
    && zones.Valid() && zones.cfg == store.zones && zones.layout == store.zoneLayout
    && queues.Valid() && queues.fps == store.fps && queues.layout == store.queueLayout && queues.interval >= 1
  }

  /** The crossings of a frame change places, but no pair's crossings do. */
  lemma {:induction false} CrossedGoOn(log: seq<EngineEvent>, crossed: seq<D.CrossingEvent>,
                                       more: seq<D.CrossingEvent>, zones: seq<Z.Event>, queues: seq<Q.QueueEvent>, k: Key)
    requires D.CrossedOf(CrossingPart(log), k) == D.CrossedOf(crossed, k)
    ensures D.CrossedOf(CrossingPart(log + FrameEvents(CG.Regrouped(more), zones, queues)), k) == D.CrossedOf(crossed + more, k)
  {
    hide D.CrossedOf, CrossingPart, CG.Regrouped, FrameEvents;
    PartsOfFrame(log, CG.Regrouped(more), zones, queues);
    CG.CrossedConcat(CrossingPart(log), CG.Regrouped(more), k);
    CG.CrossedConcat(crossed, more, k);
    CG.RegroupedKeepsPairs(more, k);
  }

  lemma {:induction false} RegroupedAt(crossings: seq<D.CrossingEvent>, frame: int)
    requires forall c | c in crossings :: c.frame == frame
    ensures forall c | c in CG.Regrouped(crossings) :: c.frame == frame
  {
    CG.RegroupedIsRearrangement(crossings);
    hide CG.Regrouped;
    assert forall c | c in CG.Regrouped(crossings) :: c in multiset(CG.Regrouped(crossings));
  }

  lemma {:induction false} FrameEventsAt(crossings: seq<D.CrossingEvent>, zones: seq<Z.Event>,
                                         queues: seq<Q.QueueEvent>, frame: int)
    requires forall c | c in crossings :: c.frame == frame
    requires forall e | e in zones :: e.frame == frame
    requires forall e | e in queues :: e.frame == frame
    ensures AllAt(FrameEvents(crossings, zones, queues), frame)
  {
    hide CrossingEvents, ZoneEvents, QueueEvents;
    CrossingsAt(crossings, frame);
    ZonesAt(zones, frame);
    QueuesAt(queues, frame);
  }

  /** One frame through the engines for lines, zones and queues. */
  method WatchFrame(store: Store, detector: D.EntryExitDetector, zones: ZR.ZoneTrackingEngine,
                    queues: QT.QueueTrackingEngine, f: FrameTracks, crossed: seq<D.CrossingEvent>,
                    ghost past: seq<FrameTracks>, ghost log: seq<EngineEvent>)
    returns (events: seq<EngineEvent>, more: seq<D.CrossingEvent>)
    requires Built(store, detector, zones, queues) && Distinct(TrackIds(f.tracks))
    requires Watched(store, past, log, crossed, detector.trackState, zones.View(), queues.View(), queues.interval,
                     queues.lastDepthFrame)
    modifies detector, zones, queues
    ensures Built(store, detector, zones, queues)
    ensures Watched(store, past + [f], log + events, more, detector.trackState, zones.View(), queues.View(), queues.interval,
                    queues.lastDepthFrame)
    ensures AllAt(events, f.index) && InTurn(events)
  {
    hide D.Explained, D.OnlyLines, D.CrossedOf, D.AppearancesOf, CrossingPart, ZonePart, QueuePart, ZR.Lived, QT.QueuesLived;
    hide Distinct, TrackIds, CG.Regrouped, FrameEvents, CrossingsOf, D.FrameCrossings, ZR.ZoneTrackingEngine.Valid, AllAt;
    more := D.ProcessFrame(detector, f, crossed, past);
    var added := more[|crossed|..];
    assert crossed + added == more;
    forall c | c in added
      ensures c.frame == f.index
    {
      var i :| 0 <= i < |added| && added[i] == c;
      assert more[|crossed| + i] == c;
    }
    var crossings := CG.ApplyGroupCrossings(added);
    RegroupedAt(added, f.index);
    var visits := ZR.TrackFrame(zones, f, past, ZonePart(log));
    var moves := QT.TrackQueueFrame(queues, f, past, QueuePart(log));
    events := FrameEvents(crossings, visits, moves);
    PartsOfFrame(log, crossings, visits, moves);
    CrossingsOfAppend(store, past, f);
    assert added == D.FrameCrossings(store.crossing, store.lines, past, f.tracks, f.index);
    FrameEventsAt(crossings, visits, moves, f.index);
    FrameInTurn(crossings, visits, moves);
    hide InTurn;
    forall k: Key
      ensures D.CrossedOf(CrossingPart(log + events), k) == D.CrossedOf(more, k)
    {
      CrossedGoOn(log, crossed, added, visits, moves, k);
    }
  }

  // ---------------------------------------------------------------------------
  // A whole video
  // ---------------------------------------------------------------------------

  lemma {:induction false} NothingWatched(store: Store, interval: int)
    ensures Watched(store, [], [], [], map[], ZT.Tables(map[], map[], map[]), QT.QueueTables(map[], map[]), interval, -interval)
  {
    D.BeforeVideo(store.crossing, store.lines);
    ZR.NothingYet();
    QT.NothingYet(store.fps, store.queueLayout, interval);
    NoParts();
    hide D.Explained, D.OnlyLines, D.CrossedOf, D.AppearancesOf, CrossingPart, ZonePart, QueuePart, ZT.EventsOf, QT.MovesOf;
    NoRun(store);
  }

  lemma {:induction false} NoParts()
    ensures CrossingPart([]) == [] && ZonePart([]) == [] && QueuePart([]) == []
  {
  }

  lemma {:induction false} NoRun(store: Store)
    ensures forall k: Key :: Z.Run(store.zones, k, ZR.FramesOf(store.zoneLayout, [], k)) == (Z.NEW_PAIR, [])
  {
  }

  /** What the engines did over the video is what each of them promises of its part of the log. */
  lemma {:induction false} WatchedParts(store: Store, video: seq<FrameTracks>, log: seq<EngineEvent>,
                                        crossed: seq<D.CrossingEvent>, states: map<Key, X.TrackLineState>,
                                        zones: ZT.Tables, queues: QT.QueueTables, interval: int, lastDepth: int)
    requires Watched(store, video, log, crossed, states, zones, queues, interval, lastDepth)
    ensures EngineParts(log, video, store.zones, store.zoneLayout, store.fps, store.queueLayout, interval, store.crossing,
                        store.lines, states)
    ensures CrossingPart(log) == CrossingsOf(store, video)
  {
    hide D.CrossedOf, D.AppearancesOf, CrossingPart, ZonePart, QueuePart, D.PairExplained, ZT.EventsOf, QT.MovesOf;
    forall t: int
      ensures D.Explained(store.crossing, store.lines, states, CrossingPart(log), t, D.AppearancesOf(video, t))
    {
      D.SameExplained(store.crossing, store.lines, states, crossed, states, CrossingPart(log), t, D.AppearancesOf(video, t));
    }
  }

  lemma {:induction false} PartsAscend(store: Store, video: seq<FrameTracks>, log: seq<EngineEvent>, interval: int,
                                       states: map<Key, X.TrackLineState>)
    requires InOrder(video) && interval > 0
    requires EngineParts(log, video, store.zones, store.zoneLayout, store.fps, store.queueLayout, interval, store.crossing,
                         store.lines, states)
    ensures AllDiffer(log) && CrossingsAscend(log)
  {
    IdentsNeverRepeat(log, video, store.zones, store.zoneLayout, store.fps, store.queueLayout, interval, store.crossing,
                      store.lines, states);
    hide AllDiffer, From, Ascends, InOrder, D.Explained, D.OnlyLines;
    forall k: Key
      ensures Ascends(From(log, CrossingSource(k)))
    {
      CrossingSourceAscends(log, video, store.crossing, store.lines, states, k);
    }
  }

  /** The events of a log as they go to the emitter. */
  function LogEvents(store: Store, cam: Camera, log: seq<EngineEvent>): seq<E.Event> {
    Named(store.name, store.camera, cam.dayOf, EmittedIdents(store.visitors, cam, log))
  }

  /** Sessions and gallery are as the log so far leaves them. */
  ghost predicate VisitorsHandled(store: Store, cam: Camera, runner: P.FullPipelineRunner, log: seq<EngineEvent>)
    reads runner.sessions, SE.Objects(runner.sessions.active), SE.Members(runner.sessions.completed)
    reads SE.Members(runner.sessions.finished), runner.reid
  {
    && runner.cfg == store.visitors && runner.Wired()
    && runner.View() == StoresAfter(store.visitors, cam, log) && P.JointInv(store.visitors, runner.View())
  }

  /** And so is the emitter. */
  ghost predicate LogHandled(store: Store, cam: Camera, emitter: W.StructuredEventEmitter, log: seq<EngineEvent>)
    reads emitter, emitter.dedup
  {
    && emitter.Valid() && emitter.cfg == store.emit && |emitter.buffer| < store.emit.batchSize
    && emitter.taken == E.Taken(store.emit, LogEvents(store, cam, log))
  }

  /** The events of a frame through re-identification and sessions, and then to the emitter. */
  method HandleFrame(store: Store, cam: Camera, runner: P.FullPipelineRunner, emitter: W.StructuredEventEmitter,
                     events: seq<EngineEvent>, ghost log: seq<EngineEvent>)
    requires VisitorsHandled(store, cam, runner, log) && LogHandled(store, cam, emitter, log) && store.emit.batchSize >= 1
    modifies runner.sessions, SE.Objects(runner.sessions.active), runner.reid, emitter, emitter.dedup
    ensures VisitorsHandled(store, cam, runner, log + events) && LogHandled(store, cam, emitter, log + events)
    ensures fresh(SE.Objects(runner.sessions.active) - old(SE.Objects(runner.sessions.active)))
  {
    hide P.JointInv, StoresAfter, SE.Valued, SE.Snapshots, LogHandled, P.EmittedAfter, Raws, RawOf, P.FullPipelineRunner.Wired;
    var signals := VisitorsOfFrame(store, cam, runner, events, log);
    ghost var stores := runner.View();
    LogFrame(store, cam, emitter, events, signals, log);
    assert runner.View() == stores;
  }

  /** The events of a frame through re-identification and sessions. */
  method VisitorsOfFrame(store: Store, cam: Camera, runner: P.FullPipelineRunner, events: seq<EngineEvent>,
                         ghost log: seq<EngineEvent>)
    returns (signals: seq<S.Signal>)
    requires VisitorsHandled(store, cam, runner, log)
    modifies runner.sessions, SE.Objects(runner.sessions.active), runner.reid
    ensures VisitorsHandled(store, cam, runner, log + events)
    ensures signals == P.EmittedAfter(store.visitors, Raws(cam, log), Raws(cam, events))
    ensures fresh(SE.Objects(runner.sessions.active) - old(SE.Objects(runner.sessions.active)))
  {
    hide P.JointInv, P.RunAll, P.FullPipelineRunner.View;
    RawsFromEngines(cam, events);
    RawsConcat(cam, log, events);
    signals := runner.ProcessFrameEvents(Raws(cam, events), Raws(cam, log));
  }

  /** The events of a frame to the emitter, as what they have become. */
  method LogFrame(store: Store, cam: Camera, emitter: W.StructuredEventEmitter, events: seq<EngineEvent>,
                  signals: seq<S.Signal>, ghost log: seq<EngineEvent>)
    requires LogHandled(store, cam, emitter, log) && store.emit.batchSize >= 1
    requires signals == P.EmittedAfter(store.visitors, Raws(cam, log), Raws(cam, events))
    modifies emitter, emitter.dedup
    ensures LogHandled(store, cam, emitter, log + events)
  {
    hide E.Taken, Named, EmittedIdents, Emissions, P.EmittedAfter, W.StructuredEventEmitter.Valid;
    IdentsGoOn(store.visitors, cam, log, events);
    EmitFrame(emitter, store.name, store.camera, cam.dayOf, events, signals, EmittedIdents(store.visitors, cam, log));
  }

  /** One frame through the engines and then through the rest. */
  method RunFrame(store: Store, cam: Camera, f: FrameTracks, detector: D.EntryExitDetector,
                  zones: ZR.ZoneTrackingEngine, queues: QT.QueueTrackingEngine, runner: P.FullPipelineRunner,
                  emitter: W.StructuredEventEmitter, crossed: seq<D.CrossingEvent>, ghost past: seq<FrameTracks>,
                  ghost log: seq<EngineEvent>)
    returns (events: seq<EngineEvent>, more: seq<D.CrossingEvent>)
    requires Distinct(TrackIds(f.tracks)) && store.emit.batchSize >= 1
    requires Built(store, detector, zones, queues)
    requires VisitorsHandled(store, cam, runner, log) && LogHandled(store, cam, emitter, log)
    requires Watched(store, past, log, crossed, detector.trackState, zones.View(), queues.View(), queues.interval,
                     queues.lastDepthFrame)
    modifies detector, zones, queues
    modifies runner.sessions, SE.Objects(runner.sessions.active), runner.reid, emitter, emitter.dedup
    ensures Built(store, detector, zones, queues)
    ensures VisitorsHandled(store, cam, runner, log + events) && LogHandled(store, cam, emitter, log + events)
    ensures Watched(store, past + [f], log + events, more, detector.trackState, zones.View(), queues.View(), queues.interval,
                    queues.lastDepthFrame)
    ensures AllAt(events, f.index) && InTurn(events)
    ensures fresh(SE.Objects(runner.sessions.active) - old(SE.Objects(runner.sessions.active)))
  {
    hide Watched, Built, Distinct, TrackIds, AllAt, InTurn, P.JointInv, StoresAfter, SE.Valued, SE.Snapshots, LogHandled;
    ghost var stores := runner.View();
    events, more := WatchFrame(store, detector, zones, queues, f, crossed, past, log);
    assert runner.View() == stores;
    HandleFrame(store, cam, runner, emitter, events, log);
  }

  /** All frames in order. */
  method RunFrames(store: Store, cam: Camera, video: seq<FrameTracks>, detector: D.EntryExitDetector,
                   zones: ZR.ZoneTrackingEngine, queues: QT.QueueTrackingEngine, runner: P.FullPipelineRunner,
                   emitter: W.StructuredEventEmitter)
    returns (log: seq<EngineEvent>, ghost crossed: seq<D.CrossingEvent>)
    requires DistinctTracks(video) && InOrder(video) && store.emit.batchSize >= 1
    requires Built(store, detector, zones, queues)
    requires VisitorsHandled(store, cam, runner, []) && LogHandled(store, cam, emitter, [])
    requires Watched(store, [], [], [], detector.trackState, zones.View(), queues.View(), queues.interval, queues.lastDepthFrame)
    modifies detector, zones, queues
    modifies runner.sessions, SE.Objects(runner.sessions.active), runner.reid, emitter, emitter.dedup
    ensures Watched(store, video, log, crossed, detector.trackState, zones.View(), queues.View(), queues.interval,
                    queues.lastDepthFrame)
    ensures Built(store, detector, zones, queues) && InFrameOrder(log) && InEngineOrder(log)
    ensures VisitorsHandled(store, cam, runner, log) && LogHandled(store, cam, emitter, log)
    ensures fresh(SE.Objects(runner.sessions.active) - old(SE.Objects(runner.sessions.active)))
  {
    hide Watched, Built, UpTo, InFrameOrder, InEngineOrder, InTurn, Distinct, TrackIds, VisitorsHandled, LogHandled, AllAt;
    log := [];
    var crossings: seq<D.CrossingEvent> := [];
    ghost var last := if video == [] then 0 else video[0].index;
    NothingInOrder(last);
    for i := 0 to |video|
      invariant Built(store, detector, zones, queues)
      invariant VisitorsHandled(store, cam, runner, log) && LogHandled(store, cam, emitter, log)
      invariant Watched(store, video[..i], log, crossings, detector.trackState, zones.View(), queues.View(), queues.interval,
                        queues.lastDepthFrame)
      invariant InFrameOrder(log) && InEngineOrder(log) && UpTo(log, last)
      invariant i < |video| ==> last <= video[i].index && (log != [] ==> last < video[i].index)
      invariant fresh(SE.Objects(runner.sessions.active) - old(SE.Objects(runner.sessions.active)))
    {
      var events: seq<EngineEvent>;
      events, crossings :=
        RunFrame(store, cam, video[i], detector, zones, queues, runner, emitter, crossings, video[..i], log);
      assert video[..i] + [video[i]] == video[..i + 1];
      OrderGoesOn(log, events, last, video[i].index);
      TurnsGoOn(log, events, last, video[i].index);
      last := video[i].index;
      log := log + events;
    }
    assert video[..|video|] == video;
    crossed := crossings;
  }

  /** The end of the video: sessions are closed and the buffer is written. */
  method EndVideo(store: Store, cam: Camera, runner: P.FullPipelineRunner, emitter: W.StructuredEventEmitter,
                  ghost log: seq<EngineEvent>, endAt: real)
    returns (uniqueVisitors: nat)
    requires VisitorsHandled(store, cam, runner, log) && LogHandled(store, cam, emitter, log)
    modifies runner.sessions, SE.Objects(runner.sessions.active), emitter
    ensures emitter.Valid() && emitter.buffer == [] && Flat(emitter.batches) == E.Taken(store.emit, LogEvents(store, cam, log))
    ensures runner.sessions.View() ==
      S.CloseAllActive(store.visitors.sessions, StoresAfter(store.visitors, cam, log).state, endAt, S.Completed)
    ensures uniqueVisitors ==
      if |runner.sessions.finished| <= store.visitors.sessions.maxCompleted then |runner.sessions.finished|
      else store.visitors.sessions.maxCompleted
  {
    hide P.JointInv, E.Taken, LogEvents, Flat, SE.Valued, SE.Snapshots, StoresAfter, E.Ids, W.Filed, W.EventDedupStore.Valid;
    uniqueVisitors := runner.Finish(endAt);
    ghost var closed := runner.sessions.View();
    emitter.Flush();
    assert runner.sessions.View() == closed;
    assert Flat(emitter.batches) + [] == Flat(emitter.batches);
  }

  lemma {:induction false} NothingInOrder(now: int)
    ensures InFrameOrder([]) && InEngineOrder([]) && UpTo([], now)
  {
  }

  /** A whole video, frame by frame, and its end. */
  method RunVideo(store: Store, cam: Camera, video: seq<FrameTracks>, endAt: real)
    returns (log: seq<EngineEvent>, detector: D.EntryExitDetector, zones: ZR.ZoneTrackingEngine,
             queues: QT.QueueTrackingEngine, runner: P.FullPipelineRunner, emitter: W.StructuredEventEmitter,
             uniqueVisitors: nat)
    requires store.Proper() && DistinctTracks(video) && InOrder(video)
    ensures EngineParts(log, video, store.zones, store.zoneLayout, store.fps, store.queueLayout, queues.interval,
                        store.crossing, store.lines, detector.trackState)
    ensures CrossingPart(log) == CrossingsOf(store, video)
    ensures AllDiffer(log) && InFrameOrder(log) && InEngineOrder(log) && CrossingsAscend(log)
    ensures emitter.Valid() && emitter.buffer == [] && Flat(emitter.batches) == E.Taken(store.emit, LogEvents(store, cam, log))
    ensures runner.sessions.View() ==
      S.CloseAllActive(store.visitors.sessions, StoresAfter(store.visitors, cam, log).state, endAt, S.Completed)
    ensures uniqueVisitors ==
      if |runner.sessions.finished| <= store.visitors.sessions.maxCompleted then |runner.sessions.finished|
      else store.visitors.sessions.maxCompleted
  {
    hide Watched, Built, P.JointInv, AllDiffer, InFrameOrder, InEngineOrder, CrossingsAscend, E.Taken, LogEvents, Flat, InOrder, DistinctTracks;
    hide P.RunAll, SE.Valued, SE.Snapshots, Distinct, VisitorsHandled, LogHandled, EngineParts, StoresAfter, CrossingPart;
    hide W.StructuredEventEmitter.Valid;
    hide D.EntryExitDetector.Valid, ZR.ZoneTrackingEngine.Valid, QT.QueueTrackingEngine.Valid, D.DistinctLines;
    detector := new D.EntryExitDetector(store.crossing, store.lines);
    zones := new ZR.ZoneTrackingEngine(store.zones, store.zoneLayout);
    queues := new QT.QueueTrackingEngine(store.fps, store.queueLayout, store.depthInterval);
    runner := new P.FullPipelineRunner(store.visitors);
    emitter := new W.StructuredEventEmitter(store.emit);
    Beginning(store, cam, queues.interval);
    BuiltAnew(store, detector, zones, queues);
    HandledAnew(store, cam, runner, emitter);
    ghost var crossed: seq<D.CrossingEvent>;
    log, crossed := RunFrames(store, cam, video, detector, zones, queues, runner, emitter);
    WatchedParts(store, video, log, crossed, detector.trackState, zones.View(), queues.View(), queues.interval,
                 queues.lastDepthFrame);
    PartsAscend(store, video, log, queues.interval, detector.trackState);
    uniqueVisitors := EndVideo(store, cam, runner, emitter, log, endAt);
  }

  lemma {:induction false} Beginning(store: Store, cam: Camera, interval: int)
    ensures Watched(store, [], [], [], map[], ZT.Tables(map[], map[], map[]), QT.QueueTables(map[], map[]), interval, -interval)
    ensures InFrameOrder([]) && UpTo([], 0)
    ensures StoresAfter(store.visitors, cam, []) == P.NO_STORES && P.JointInv(store.visitors, P.NO_STORES)
    ensures E.Taken(store.emit, LogEvents(store, cam, [])) == []
  {
    NothingWatched(store, interval);
    P.StoresStayApart(store.visitors, []);
    hide Watched, P.JointInv;
  }

  lemma {:induction false} BuiltAnew(store: Store, detector: D.EntryExitDetector, zones: ZR.ZoneTrackingEngine,
                                     queues: QT.QueueTrackingEngine)
    requires detector.Valid() && detector.cfg == store.crossing && detector.lines == store.lines
    requires zones.Valid() && zones.cfg == store.zones && zones.layout == store.zoneLayout
    requires queues.Valid() && queues.fps == store.fps && queues.layout == store.queueLayout && queues.interval >= 1
    ensures Built(store, detector, zones, queues)
  {
  }

  lemma {:induction false} HandledAnew(store: Store, cam: Camera, runner: P.FullPipelineRunner,
                                       emitter: W.StructuredEventEmitter)
    requires runner.cfg == store.visitors && runner.Wired() && runner.View() == P.NO_STORES
    requires emitter.Valid() && emitter.cfg == store.emit && emitter.buffer == [] && emitter.taken == []
    requires store.emit.batchSize >= 1
    ensures VisitorsHandled(store, cam, runner, []) && LogHandled(store, cam, emitter, [])
  {
    Beginning(store, cam, 1);
    hide P.JointInv, W.StructuredEventEmitter.Valid, E.Taken, LogEvents, StoresAfter;
  }

  /** With at most two lines the emitter takes every valid event of a video, re-entries included, whatever it remembers. */
  lemma {:induction false} TwoLinesLoseNothing(store: Store, cam: Camera, log: seq<EngineEvent>)
    requires |store.lines| <= 2 && D.OnlyLines(store.lines, CrossingPart(log))
    requires AllDiffer(log) && InFrameOrder(log) && CrossingsAscend(log)
    requires AllValid(store.emit, LogEvents(store, cam, log))
    ensures E.Taken(store.emit, LogEvents(store, cam, log)) == LogEvents(store, cam, log)
  {
    hide D.OnlyLines, CrossingPart, AllDiffer, InFrameOrder, CrossingsAscend, E.Taken, Named, EmittedIdents, Distinct;
    TwoLinesAreSafe(log, store.lines);
    GuardedLogDiffers(store.visitors, cam, log);
    EmittedDifferExactly(store.visitors, cam, log);
    DedupDropsNothingExactly(store.emit, store.name, store.camera, store.visitors, cam, log);
  }
}
