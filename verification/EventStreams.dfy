/**
 The events of the crossing, zone and queue engines in one stream, in any interleaving: no two of them share an
 id, so deduplication by id never drops an event that an engine raised.
 */
module EventStreams {
  import opened Tracks
  import opened EventIdentity
  import opened EntryExitModel
  import opened EntryExitDetectors
  import opened QueueModel
  import opened QueueTracking
  import C = Crossing
  import Z = ZoneModel
  import ZT = ZoneTables
  import ZR = ZoneTracking
  import ZoneTheorems

  datatype EngineEvent = OfCrossing(crossing: CrossingEvent) | OfZone(zone: Z.Event) | OfQueue(queue: QueueEvent)

  function IdentOf(e: EngineEvent): Ident {
    match e
    case OfCrossing(c) => Ident(if c.direction == C.Entry then EntryType else ExitType, c.track, c.frame, c.lineId, 0)
    case OfZone(z) =>
      Ident(match z.kind
            case Enter => ZoneEnterType
            case Exit => ZoneExitType
            case DwellEvent => ZoneDwellType, z.track, z.frame, z.zone, z.sequence)
    case OfQueue(Join(k, n, frame, _)) => Ident(QueueJoinType, k.track, frame, k.region, n)
    case OfQueue(Leave(k, n, frame, _)) => Ident(QueueLeaveType, k.track, frame, k.region, n)
    case OfQueue(Depth(queue, frame, _)) => Ident(QueueDepthType, 0, frame, queue, 0)
  }

  lemma {:induction false} IdentsAreProper(e: EngineEvent)
    ensures Proper(IdentOf(e))
  {
  }

  // ---------------------------------------------------------------------------
  // Streams whose events all differ
  // ---------------------------------------------------------------------------

  predicate Has(log: seq<EngineEvent>, i: Ident) {
    log != [] && (IdentOf(log[|log| - 1]) == i || Has(log[..|log| - 1], i))
  }

  predicate AllDiffer(log: seq<EngineEvent>) {
    log == [] || (!Has(log[..|log| - 1], IdentOf(log[|log| - 1])) && AllDiffer(log[..|log| - 1]))
  }

  /** The source of an event: an engine and the pair it concerns. */
  datatype Source = CrossingSource(k: Key) | ZoneSource(k: Key) | MoveSource(k: Key) | DepthSource(queue: string)

  function SourceOf(e: EngineEvent): Source {
    match e
    case OfCrossing(c) => CrossingSource(Key(c.track, c.lineId))
    case OfZone(z) => ZoneSource(Key(z.track, z.zone))
    case OfQueue(Join(k, _, _, _)) => MoveSource(k)
    case OfQueue(Leave(k, _, _, _)) => MoveSource(k)
    case OfQueue(Depth(q, _, _)) => DepthSource(q)
  }

  function From(log: seq<EngineEvent>, s: Source): seq<EngineEvent> {
    if log == [] then []
    else
      var last := log[|log| - 1];
      From(log[..|log| - 1], s) + (if SourceOf(last) == s then [last] else [])
  }

  /** The same id means the same source. */
  lemma {:induction false} SameIdentSameSource(d: EngineEvent, e: EngineEvent)
    requires IdentOf(d) == IdentOf(e)
    ensures SourceOf(d) == SourceOf(e)
  {
  }

  lemma {:induction false} HasAppend(log: seq<EngineEvent>, e: EngineEvent, i: Ident)
    ensures Has(log + [e], i) <==> IdentOf(e) == i || Has(log, i)
    ensures AllDiffer(log + [e]) <==> !Has(log, IdentOf(e)) && AllDiffer(log)
  {
    assert (log + [e])[..|log|] == log;
  }

  lemma {:induction false} HasInSource(log: seq<EngineEvent>, e: EngineEvent)
    requires Has(log, IdentOf(e))
    ensures Has(From(log, SourceOf(e)), IdentOf(e))
  {
    var front, last := log[..|log| - 1], log[|log| - 1];
    HasAppend(From(front, SourceOf(e)), last, IdentOf(e));
    if IdentOf(last) == IdentOf(e) {
      SameIdentSameSource(last, e);
    } else {
      HasInSource(front, e);
      assert From(front, SourceOf(e)) + [] == From(front, SourceOf(e));
    }
  }

  lemma {:induction false} FromFront(log: seq<EngineEvent>, e: EngineEvent, s: Source)
    ensures From(log + [e], s) == if SourceOf(e) == s then From(log, s) + [e] else From(log, s)
  {
    assert (log + [e])[..|log|] == log;
  }

  /** A stream has no two events of one id when no source has. */
  lemma {:induction false} DifferBySource(log: seq<EngineEvent>)
    requires forall s: Source :: AllDiffer(From(log, s))
    ensures AllDiffer(log)
  {
    if log != [] {
      var front, last := log[..|log| - 1], log[|log| - 1];
      assert front + [last] == log;
      hide From, AllDiffer, Has;
      forall s: Source
        ensures AllDiffer(From(front, s))
      {
        FromFront(front, last, s);
        HasAppend(From(front, s), last, IdentOf(last));
      }
      DifferBySource(front);
      FromFront(front, last, SourceOf(last));
      HasAppend(From(front, SourceOf(last)), last, IdentOf(last));
      HasAppend(front, last, IdentOf(last));
      if Has(front, IdentOf(last)) {
        HasInSource(front, last);
      }
    }
  }

  // ---------------------------------------------------------------------------
  // Streams that go through the frames in order
  // ---------------------------------------------------------------------------

  /** No event is later than frame `now`. */
  predicate UpTo(log: seq<EngineEvent>, now: int) {
    forall i | 0 <= i < |log| :: IdentOf(log[i]).frame <= now
  }

  lemma {:induction false} LaterIsNew(log: seq<EngineEvent>, now: int, i: Ident)
    requires UpTo(log, now) && i.frame > now
    ensures !Has(log, i)
  {
    if log != [] {
      LaterIsNew(log[..|log| - 1], now, i);
    }
  }

  /** An event of a later frame. */
  lemma {:induction false} LaterDiffers(log: seq<EngineEvent>, now: int, e: EngineEvent)
    requires AllDiffer(log) && UpTo(log, now) && IdentOf(e).frame > now
    ensures AllDiffer(log + [e]) && UpTo(log + [e], IdentOf(e).frame)
  {
    LaterIsNew(log, now, IdentOf(e));
    HasAppend(log, e, IdentOf(e));
    hide AllDiffer, Has, IdentOf;
    forall i | 0 <= i < |log + [e]|
      ensures IdentOf((log + [e])[i]).frame <= IdentOf(e).frame
    {
      assert i < |log| ==> (log + [e])[i] == log[i];
    }
  }

  // ---------------------------------------------------------------------------
  // Zones
  // ---------------------------------------------------------------------------

  function ZoneEvents(events: seq<Z.Event>): seq<EngineEvent> {
    if events == [] then [] else ZoneEvents(events[..|events| - 1]) + [OfZone(events[|events| - 1])]
  }

  lemma {:induction false} ZoneEventsAppend(events: seq<Z.Event>, e: Z.Event)
    ensures ZoneEvents(events + [e]) == ZoneEvents(events) + [OfZone(e)]
  {
    assert (events + [e])[..|events|] == events;
  }

  /** The one or two events of a zone step. */
  lemma {:induction false} ZoneStepDiffers(events: seq<Z.Event>, more: seq<Z.Event>, now: int, frame: int)
    requires AllDiffer(ZoneEvents(events)) && UpTo(ZoneEvents(events), now) && now < frame && |more| <= 2
    requires forall i | 0 <= i < |more| :: more[i].frame == frame
    requires forall i, j | 0 <= i < j < |more| :: more[i].kind != more[j].kind
    ensures AllDiffer(ZoneEvents(events + more)) && UpTo(ZoneEvents(events + more), frame)
  {
    hide AllDiffer, Has, ZoneEvents;
    if more == [] {
      assert events + more == events;
    } else {
      var log, d := ZoneEvents(events), OfZone(more[0]);
      ZoneEventsAppend(events, more[0]);
      LaterDiffers(log, now, d);
      if |more| == 1 {
        assert more == [more[0]];
      } else {
        var e := OfZone(more[1]);
        ZoneEventsAppend(events + [more[0]], more[1]);
        assert more == [more[0], more[1]] && events + more == (events + [more[0]]) + [more[1]];
        LaterIsNew(log, now, IdentOf(e));
        HasAppend(log, d, IdentOf(e));
        HasAppend(log + [d], e, IdentOf(e));
        assert more[0].kind != more[1].kind;
      }
    }
  }

  lemma {:induction false} ZoneRunDiffers(cfg: Z.Config, k: Key, frames: seq<Z.Frame>)
    requires Z.Increasing(frames)
    ensures var log := ZoneEvents(Z.Run(cfg, k, frames).1);
      AllDiffer(log) && (frames == [] ==> log == []) && (frames != [] ==> UpTo(log, frames[|frames| - 1].index))
  {
    hide AllDiffer, Has, Z.Step, ZoneEvents;
    if frames == [] {
      assert ZoneEvents([]) == [] && AllDiffer([]) by { NothingDiffers(); }
    } else {
      var front, f := frames[..|frames| - 1], frames[|frames| - 1];
      ZoneRunDiffers(cfg, k, front);
      var (p, log) := Z.Run(cfg, k, front);
      ZoneTheorems.StepEvents(cfg, k, p, f);
      StepIsShort(cfg, k, p, f);
      if front != [] {
        assert front[|front| - 1].index < f.index;
      }
      ZoneStepDiffers(log, Z.Step(cfg, k, p, f).1, if front == [] then f.index - 1 else front[|front| - 1].index, f.index);
    }
  }

  lemma {:induction false} StepIsShort(cfg: Z.Config, k: Key, p: Z.Pair, f: Z.Frame)
    ensures |Z.Step(cfg, k, p, f).1| <= 2
  {
    hide Z.Close, Z.CountDwell, Z.DwellDue, Z.DwellUntimed;
  }

  lemma {:induction false} NothingDiffers()
    ensures ZoneEvents([]) == [] && AllDiffer([])
  {
  }

  // ---------------------------------------------------------------------------
  // Sources with at most one event per frame
  // ---------------------------------------------------------------------------

  predicate Ascends(log: seq<EngineEvent>) {
    |log| <= 1 || (IdentOf(log[|log| - 2]).frame < IdentOf(log[|log| - 1]).frame && Ascends(log[..|log| - 1]))
  }

  lemma {:induction false} AscendsDiffer(log: seq<EngineEvent>)
    requires Ascends(log)
    ensures AllDiffer(log) && (log != [] ==> UpTo(log, IdentOf(log[|log| - 1]).frame))
  {
    hide IdentOf, Has, AllDiffer;
    NothingDiffers();
    if log != [] {
      var front, last := log[..|log| - 1], log[|log| - 1];
      assert front + [last] == log;
      AscendsDiffer(front);
      LaterDiffers(front, if front == [] then IdentOf(last).frame - 1 else IdentOf(front[|front| - 1]).frame, last);
    }
  }

  /** The frames of a source go up, and end at `now` at the latest. */
  predicate AscendsTo(log: seq<EngineEvent>, now: int) {
    Ascends(log) && (log != [] ==> IdentOf(log[|log| - 1]).frame <= now)
  }

  lemma {:induction false} AscendsAppend(log: seq<EngineEvent>, now: int, e: EngineEvent)
    requires AscendsTo(log, now) && now < IdentOf(e).frame
    ensures AscendsTo(log + [e], IdentOf(e).frame)
  {
    assert (log + [e])[..|log|] == log;
  }

  function QueueEvents(events: seq<QueueEvent>): seq<EngineEvent> {
    if events == [] then [] else QueueEvents(events[..|events| - 1]) + [OfQueue(events[|events| - 1])]
  }

  lemma {:induction false} QueueEventsAppend(events: seq<QueueEvent>, e: QueueEvent)
    ensures QueueEvents(events + [e]) == QueueEvents(events) + [OfQueue(e)]
  {
    assert (events + [e])[..|events|] == events;
  }

  lemma {:induction false} MoveFrame(fps: real, k: Key, m: Member, f: QueueFrame)
    ensures var more := QueueStep(fps, k, m, f).1;
      |more| <= 1 && forall i | 0 <= i < |more| :: IdentOf(OfQueue(more[i])).frame == f.index
  {
    hide QueueDwell;
  }

  lemma {:induction false} QueueRunAscends(fps: real, k: Key, frames: seq<QueueFrame>, now: int)
    requires forall i, j | 0 <= i < j < |frames| :: frames[i].index < frames[j].index
    requires frames != [] ==> frames[|frames| - 1].index <= now
    ensures AscendsTo(QueueEvents(QueueRun(fps, k, frames).1), now)
  {
    if frames != [] {
      hide QueueStep, AscendsTo, QueueEvents;
      var front, f := frames[..|frames| - 1], frames[|frames| - 1];
      QueueRunAscends(fps, k, front, f.index - 1);
      var (m, log) := QueueRun(fps, k, front);
      MoveFrame(fps, k, m, f);
      var more := QueueStep(fps, k, m, f).1;
      if more == [] {
        assert log + more == log;
      } else {
        assert more == [more[0]];
        QueueEventsAppend(log, more[0]);
        AscendsAppend(QueueEvents(log), f.index - 1, OfQueue(more[0]));
      }
      AscendsLonger(QueueEvents(log + more), f.index - (if more == [] then 1 else 0), now);
    }
  }

  lemma {:induction false} AscendsLonger(log: seq<EngineEvent>, early: int, late: int)
    requires AscendsTo(log, early) && early <= late
    ensures AscendsTo(log, late)
  {
  }

  // ---------------------------------------------------------------------------
  // The engines' parts of a stream
  // ---------------------------------------------------------------------------

  function ZonePart(log: seq<EngineEvent>): seq<Z.Event> {
    if log == [] then []
    else ZonePart(log[..|log| - 1]) + (if log[|log| - 1].OfZone? then [log[|log| - 1].zone] else [])
  }

  function QueuePart(log: seq<EngineEvent>): seq<QueueEvent> {
    if log == [] then []
    else QueuePart(log[..|log| - 1]) + (if log[|log| - 1].OfQueue? then [log[|log| - 1].queue] else [])
  }

  function CrossingPart(log: seq<EngineEvent>): seq<CrossingEvent> {
    if log == [] then []
    else CrossingPart(log[..|log| - 1]) + (if log[|log| - 1].OfCrossing? then [log[|log| - 1].crossing] else [])
  }

  lemma {:induction false} EventsOfAppend(events: seq<Z.Event>, e: Z.Event, k: Key)
    ensures ZT.EventsOf(events + [e], k) ==
      if e.track == k.track && e.zone == k.region then ZT.EventsOf(events, k) + [e] else ZT.EventsOf(events, k)
  {
    assert (events + [e])[..|events|] == events;
  }

  lemma {:induction false} MovesOfAppend(events: seq<QueueEvent>, e: QueueEvent, k: Key)
    ensures MovesOf(events + [e], k) == if !e.Depth? && e.key == k then MovesOf(events, k) + [e] else MovesOf(events, k)
  {
    assert (events + [e])[..|events|] == events;
  }

  lemma {:induction false} ReportsOfAppend(events: seq<QueueEvent>, e: QueueEvent, q: string)
    ensures ReportsOf(events + [e], q) ==
      if e.Depth? && e.queue == q then ReportsOf(events, q) + [e.frame] else ReportsOf(events, q)
  {
    assert (events + [e])[..|events|] == events;
  }

  lemma {:induction false} PartsAppend(log: seq<EngineEvent>, e: EngineEvent)
    ensures ZonePart(log + [e]) == if e.OfZone? then ZonePart(log) + [e.zone] else ZonePart(log)
    ensures QueuePart(log + [e]) == if e.OfQueue? then QueuePart(log) + [e.queue] else QueuePart(log)
    ensures CrossingPart(log + [e]) == if e.OfCrossing? then CrossingPart(log) + [e.crossing] else CrossingPart(log)
  {
    assert (log + [e])[..|log|] == log;
  }

  lemma {:induction false} ZoneSourceIsPair(log: seq<EngineEvent>, k: Key)
    ensures From(log, ZoneSource(k)) == ZoneEvents(ZT.EventsOf(ZonePart(log), k))
  {
    if log != [] {
      var front, last := log[..|log| - 1], log[|log| - 1];
      assert front + [last] == log;
      hide From, ZonePart, QueuePart, CrossingPart, ZoneEvents, ZT.EventsOf;
      ZoneSourceIsPair(front, k);
      FromFront(front, last, ZoneSource(k));
      PartsAppend(front, last);
      if last.OfZone? {
        EventsOfAppend(ZonePart(front), last.zone, k);
        ZoneEventsAppend(ZT.EventsOf(ZonePart(front), k), last.zone);
      }
    }
  }

  lemma {:induction false} MoveSourceIsPair(log: seq<EngineEvent>, k: Key)
    ensures From(log, MoveSource(k)) == QueueEvents(MovesOf(QueuePart(log), k))
  {
    if log != [] {
      var front, last := log[..|log| - 1], log[|log| - 1];
      assert front + [last] == log;
      hide From, ZonePart, QueuePart, CrossingPart, QueueEvents, MovesOf;
      MoveSourceIsPair(front, k);
      FromFront(front, last, MoveSource(k));
      PartsAppend(front, last);
      if last.OfQueue? {
        MovesOfAppend(QueuePart(front), last.queue, k);
        QueueEventsAppend(MovesOf(QueuePart(front), k), last.queue);
      }
    }
  }

  /** Strictly increasing numbers. */
  predicate Rising(frames: seq<int>) {
    |frames| <= 1 || (frames[|frames| - 2] < frames[|frames| - 1] && Rising(frames[..|frames| - 1]))
  }

  function FramesIn(log: seq<EngineEvent>): seq<int> {
    if log == [] then [] else FramesIn(log[..|log| - 1]) + [IdentOf(log[|log| - 1]).frame]
  }

  lemma {:induction false} RisingAscends(log: seq<EngineEvent>)
    requires Rising(FramesIn(log))
    ensures Ascends(log) && |FramesIn(log)| == |log|
  {
    FramesInLength(log);
    if |log| > 1 {
      var front, last := log[..|log| - 1], log[|log| - 1];
      FramesInLength(front);
      FramesInEnds(log);
      hide FramesIn, IdentOf;
      RisingAscends(front);
    }
  }

  lemma {:induction false} FramesInLength(log: seq<EngineEvent>)
    ensures |FramesIn(log)| == |log|
  {
    hide IdentOf;
    if log != [] {
      FramesInLength(log[..|log| - 1]);
    }
  }

  /** The frames of the last two events. */
  lemma {:induction false} FramesInEnds(log: seq<EngineEvent>)
    requires |log| > 1
    ensures var frames := FramesIn(log);
      && |frames| == |log| && frames[..|frames| - 1] == FramesIn(log[..|log| - 1])
      && frames[|frames| - 1] == IdentOf(log[|log| - 1]).frame
      && frames[|frames| - 2] == IdentOf(log[|log| - 2]).frame
  {
    hide IdentOf;
    var front := log[..|log| - 1];
    FramesInLength(front);
    FramesInLength(front[..|front| - 1]);
    assert FramesIn(front)[|front| - 1] == IdentOf(front[|front| - 1]).frame;
  }

  lemma {:induction false} FramesInAppend(log: seq<EngineEvent>, e: EngineEvent)
    ensures FramesIn(log + [e]) == FramesIn(log) + [IdentOf(e).frame]
  {
    assert (log + [e])[..|log|] == log;
  }

  lemma {:induction false} DepthSourceIsQueue(log: seq<EngineEvent>, q: string)
    ensures FramesIn(From(log, DepthSource(q))) == ReportsOf(QueuePart(log), q)
  {
    if log != [] {
      var front, last := log[..|log| - 1], log[|log| - 1];
      DepthSourceIsQueue(front, q);
      assert front + [last] == log;
      hide From, ZonePart, QueuePart, CrossingPart, FramesIn, ReportsOf;
      FromFront(front, last, DepthSource(q));
      PartsAppend(front, last);
      FramesInAppend(From(front, DepthSource(q)), last);
      if last.OfQueue? {
        ReportsOfAppend(QueuePart(front), last.queue, q);
      }
    }
  }

  function CrossedFrames(crossed: seq<Crossed>): seq<int> {
    if crossed == [] then [] else CrossedFrames(crossed[..|crossed| - 1]) + [crossed[|crossed| - 1].frame]
  }

  lemma {:induction false} CrossedFramesAppend(crossed: seq<Crossed>, c: Crossed)
    ensures CrossedFrames(crossed + [c]) == CrossedFrames(crossed) + [c.frame]
  {
    assert (crossed + [c])[..|crossed|] == crossed;
  }

  lemma {:induction false} CrossingSourceIsPair(log: seq<EngineEvent>, k: Key)
    ensures FramesIn(From(log, CrossingSource(k))) == CrossedFrames(CrossedOf(CrossingPart(log), k))
  {
    if log != [] {
      var front, last := log[..|log| - 1], log[|log| - 1];
      CrossingSourceIsPair(front, k);
      assert front + [last] == log;
      assert last.OfCrossing? ==> IdentOf(last).frame == last.crossing.frame;
      assert SourceOf(last) == CrossingSource(k) <==>
        last.OfCrossing? && last.crossing.track == k.track && last.crossing.lineId == k.region;
      hide From, ZonePart, QueuePart, CrossingPart, FramesIn, CrossedFrames, CrossedOf, IdentOf, SourceOf;
      FromFront(front, last, CrossingSource(k));
      PartsAppend(front, last);
      FramesInAppend(From(front, CrossingSource(k)), last);
      if last.OfCrossing? {
        CrossedOfAppend(CrossingPart(front), last.crossing, k);
        CrossedFramesAppend(CrossedOf(CrossingPart(front), k), Crossed(last.crossing.direction, last.crossing.frame));
      }
    }
  }

  // ---------------------------------------------------------------------------
  // Runs of the engines over one video
  // ---------------------------------------------------------------------------

  ghost predicate InOrder(video: seq<FrameTracks>) {
    forall i, j | 0 <= i < j < |video| :: video[i].index < video[j].index
  }

  lemma {:induction false} OrderPrefix(video: seq<FrameTracks>)
    requires InOrder(video) && video != []
    ensures InOrder(video[..|video| - 1])
    ensures forall i | 0 <= i < |video| - 1 :: video[i].index < video[|video| - 1].index
  {
  }

  lemma {:induction false} QueueFramesInOrder(l: ZT.Layout, video: seq<FrameTracks>, k: Key)
    requires InOrder(video)
    ensures |QueueFramesOf(l, video, k)| == |video|
    ensures forall i | 0 <= i < |video| :: QueueFramesOf(l, video, k)[i].index == video[i].index
  {
    if video != [] {
      QueueFramesInOrder(l, video[..|video| - 1], k);
    }
  }

  lemma {:induction false} RisingAppend(frames: seq<int>, n: int)
    requires Rising(frames) && (frames != [] ==> frames[|frames| - 1] < n)
    ensures Rising(frames + [n])
  {
    assert (frames + [n])[..|frames|] == frames;
  }

  /** Depth reports come in rising frames. */
  lemma {:induction false} ReportsRise(interval: int, video: seq<FrameTracks>)
    requires InOrder(video) && interval > 0
    ensures var d := DepthFrames(interval, -interval, Indices(video));
      Rising(d) && (d != [] ==> video != [] && d[|d| - 1] <= video[|video| - 1].index)
  {
    if video != [] {
      hide Rising, DepthFrames;
      var front, last := video[..|video| - 1], video[|video| - 1];
      OrderPrefix(video);
      ReportsRise(interval, front);
      DepthFramesAppend(interval, -interval, Indices(front), last.index);
      var d := DepthFrames(interval, -interval, Indices(front));
      if d != [] {
        assert front[|front| - 1] == video[|front| - 1];
      }
      RisingAppend(d, last.index);
      assert d + [] == d;
    } else {
      assert DepthFrames(interval, -interval, []) == [];
    }
  }

  /** A track appears in rising frames. */
  predicate AppearsInOrder(seen: seq<Appearance>) {
    forall i, j | 0 <= i < j < |seen| :: seen[i].frame < seen[j].frame
  }

  lemma {:induction false} AppearanceFrame(visitors: seq<Visitor>, frame: int, track: int)
    ensures var a := AppearanceIn(visitors, frame, track); |a| <= 1 && (a != [] ==> a[0].frame == frame)
  {
    if visitors != [] {
      AppearanceFrame(visitors[..|visitors| - 1], frame, track);
    }
  }

  lemma {:induction false} AppearancesInOrder(video: seq<FrameTracks>, track: int)
    requires InOrder(video)
    ensures AppearsInOrder(AppearancesOf(video, track))
    ensures forall i | 0 <= i < |AppearancesOf(video, track)| ::
      video != [] && AppearancesOf(video, track)[i].frame <= video[|video| - 1].index
  {
    if video != [] {
      var front, last := video[..|video| - 1], video[|video| - 1];
      OrderPrefix(video);
      AppearancesInOrder(front, track);
      AppearanceFrame(last.tracks, last.index, track);
      if front != [] {
        assert front[|front| - 1] == video[|front| - 1];
      }
    }
  }

  /** A pair's crossings come in rising frames. */
  lemma {:induction false} CrossingsRise(cfg: Settings, lines: seq<EntryLine>, seen: seq<Appearance>, n: nat)
    requires n < |lines| && AppearsInOrder(seen)
    ensures var c := CrossedFrames(Reported(PairRun(cfg, lines, seen, n).1));
      Rising(c) && (c != [] ==> seen != [] && c[|c| - 1] <= seen[|seen| - 1].frame)
  {
    hide Fires, LineStep, AllMoved, Rising, Reported, CrossedFrames;
    if seen == [] {
      assert CrossedFrames(Reported([])) == [] && Rising([]) by { NothingRises(); }
    } else {
      var front, a := seen[..|seen| - 1], seen[|seen| - 1];
      assert front + [a] == seen;
      CrossingsRise(cfg, lines, front, n);
      PairRunAppend(cfg, lines, front, a, n);
      hide PairRun;
      var before := Reported(PairRun(cfg, lines, front, n).1);
      var after := Reported(PairRun(cfg, lines, seen, n).1);
      if front != [] {
        assert front[|front| - 1].frame < a.frame;
      }
      if after != before {
        CrossedFramesAppend(before, after[|after| - 1]);
        RisingAppend(CrossedFrames(before), a.frame);
      }
    }
  }

  lemma {:induction false} NothingRises()
    ensures CrossedFrames(Reported([])) == [] && Rising([])
  {
  }

  /** What the three engines guarantee of their parts of the stream, as TrackVideo, TrackQueues and DetectCrossings state it. */
  ghost predicate EngineParts(log: seq<EngineEvent>, video: seq<FrameTracks>, zones: Z.Config, zoneLayout: ZT.Layout,
                              fps: real, queueLayout: ZT.Layout, interval: int, crossing: Settings,
                              lines: seq<EntryLine>, states: map<Key, TrackLineState>)
  {
    && (forall k: Key :: ZT.EventsOf(ZonePart(log), k) == Z.Run(zones, k, ZR.FramesOf(zoneLayout, video, k)).1)
    && (forall k: Key :: MovesOf(QueuePart(log), k) == QueueRun(fps, k, QueueFramesOf(queueLayout, video, k)).1)
    && (forall q: string :: ReportsOf(QueuePart(log), q) == ReportFrames(queueLayout, interval, video, q))
    && (forall t: int :: Explained(crossing, lines, states, CrossingPart(log), t, AppearancesOf(video, t)))
    && OnlyLines(lines, CrossingPart(log))
  }

  lemma {:induction false} ZoneSourceDiffers(log: seq<EngineEvent>, video: seq<FrameTracks>, cfg: Z.Config,
                                             l: ZT.Layout, k: Key)
    requires InOrder(video) && ZT.EventsOf(ZonePart(log), k) == Z.Run(cfg, k, ZR.FramesOf(l, video, k)).1
    ensures AllDiffer(From(log, ZoneSource(k)))
  {
    hide AllDiffer, From, Z.Run, ZR.FramesOf;
    ZoneSourceIsPair(log, k);
    ZR.FramesOfIncreasing(l, video, k);
    ZoneRunDiffers(cfg, k, ZR.FramesOf(l, video, k));
  }

  lemma {:induction false} MoveSourceDiffers(log: seq<EngineEvent>, video: seq<FrameTracks>, fps: real, l: ZT.Layout,
                                             k: Key)
    requires InOrder(video) && MovesOf(QueuePart(log), k) == QueueRun(fps, k, QueueFramesOf(l, video, k)).1
    ensures AllDiffer(From(log, MoveSource(k)))
  {
    hide AllDiffer, From, QueueRun, QueueFramesOf, UpTo, Ascends;
    MoveSourceIsPair(log, k);
    QueueFramesInOrder(l, video, k);
    var frames := QueueFramesOf(l, video, k);
    QueueRunAscends(fps, k, frames, if frames == [] then 0 else frames[|frames| - 1].index);
    AscendsDiffer(From(log, MoveSource(k)));
  }

  lemma {:induction false} DepthSourceDiffers(log: seq<EngineEvent>, video: seq<FrameTracks>, l: ZT.Layout,
                                              interval: int, q: string)
    requires InOrder(video) && interval > 0 && ReportsOf(QueuePart(log), q) == ReportFrames(l, interval, video, q)
    ensures AllDiffer(From(log, DepthSource(q)))
  {
    hide AllDiffer, From, Ascends, UpTo;
    DepthSourceIsQueue(log, q);
    ReportsRise(interval, video);
    RisingAscends(From(log, DepthSource(q)));
    AscendsDiffer(From(log, DepthSource(q)));
  }

  /** Of one track and line no frame has two crossings. */
  lemma {:induction false} CrossingSourceAscends(log: seq<EngineEvent>, video: seq<FrameTracks>, cfg: Settings,
                                                 lines: seq<EntryLine>, states: map<Key, TrackLineState>, k: Key)
    requires InOrder(video) && OnlyLines(lines, CrossingPart(log))
    requires Explained(cfg, lines, states, CrossingPart(log), k.track, AppearancesOf(video, k.track))
    ensures Ascends(From(log, CrossingSource(k)))
  {
    hide From, Ascends, CrossedOf, StateOf, PairRun, AppearancesOf, AppearsInOrder, Rising;
    CrossingSourceIsPair(log, k);
    NothingRises();
    if IsLine(lines, k.region) {
      var n: nat :| n < |lines| && lines[n].id == k.region;
      var seen := AppearancesOf(video, k.track);
      assert PairExplained(cfg, lines, states, CrossingPart(log), k.track, seen, n);
      AppearancesInOrder(video, k.track);
      CrossingsRise(cfg, lines, seen, n);
    }
    RisingAscends(From(log, CrossingSource(k)));
  }

  /** However the three engines' events are interleaved, no two of a whole video have the same identity. */
  lemma {:induction false} IdentsNeverRepeat(log: seq<EngineEvent>, video: seq<FrameTracks>, zones: Z.Config,
                                             zoneLayout: ZT.Layout, fps: real, queueLayout: ZT.Layout, interval: int,
                                             crossing: Settings, lines: seq<EntryLine>,
                                             states: map<Key, TrackLineState>)
    requires InOrder(video) && interval > 0
    requires EngineParts(log, video, zones, zoneLayout, fps, queueLayout, interval, crossing, lines, states)
    ensures AllDiffer(log)
  {
    hide AllDiffer, From, InOrder, Explained, OnlyLines, Z.Run, QueueRun, ReportFrames, Ascends, UpTo;
    forall s: Source
      ensures AllDiffer(From(log, s))
    {
      match s
      case CrossingSource(k) =>
        CrossingSourceAscends(log, video, crossing, lines, states, k);
        AscendsDiffer(From(log, s));
      case ZoneSource(k) => ZoneSourceDiffers(log, video, zones, zoneLayout, k);
      case MoveSource(k) => MoveSourceDiffers(log, video, fps, queueLayout, k);
      case DepthSource(q) => DepthSourceDiffers(log, video, queueLayout, interval, q);
    }
    DifferBySource(log);
  }
}
