/** The multi-zone engine: maps of sessions, histories and counters updated track by track, zone by zone. */
module ZoneTracking {
  import opened Options
  import opened Sequences
  import opened Tracks
  import opened ZoneModel
  import opened ZoneTables
  import ZoneTheorems

  class ZoneTrackingEngine {
    const cfg: Config
    const layout: Layout
    var sessions: map<Key, Session>
    var histories: map<int, seq<Visit>>
    var lastSequence: map<Key, nat>

    ghost function View(): Tables
      reads this
    {
      Tables(sessions, histories, lastSequence)
    }

    /** Sessions exist for configured zones only. */
    ghost predicate Valid()
      reads this
    {
      Distinct(layout.zones) && forall k | k in sessions :: k.region in layout.zones
    }

    constructor (cfg: Config, layout: Layout)
      requires Distinct(layout.zones)
      ensures Valid() && View() == Tables(map[], map[], map[])
      ensures this.cfg == cfg && this.layout == layout
    {
      this.cfg, this.layout := cfg, layout;
      sessions, histories, lastSequence := map[], map[], map[];
    }

    method StartSession(k: Key, frame: int) returns (event: Event)
      requires Valid() && k.region in layout.zones && k !in sessions
      modifies this
      ensures Valid() && sessions.Keys == old(sessions.Keys) + {k}
      ensures (View().PairOf(k), [event]) == Start(cfg, k, old(View()).PairOf(k), frame)
      ensures SameElsewhere(old(View()), View(), k)
    {
      hide VisitsIn, Distinct, SameElsewhere;
      ghost var before := View();
      var now := cfg.clock.Timestamp(frame);
      var n := (if k in lastSequence then lastSequence[k] else 0) + 1;
      lastSequence := lastSequence[k := n];
      sessions := sessions[k := Session(n, frame, now, frame, 0, None, false)];
      var history := if k.track in histories then histories[k.track] else [];
      var visit := Visit(k.region, n, frame, None, 0, 0.0);
      histories := histories[k.track := history + [visit]];
      event := Event(Enter, k.track, k.region, n, frame, 0.0, None);
      forall z: string
        ensures VisitsIn(View().History(k.track), z) ==
          if z == k.region then VisitsIn(history, z) + [visit] else VisitsIn(history, z)
      {
        VisitsAppend(history, visit, z);
      }
      OnlyPair(before, View(), k);
    }

    /** Change the latest open visit of a pair, found by searching from the end; do nothing if there is none. */
    method UpdateActiveVisit(k: Key, c: Change)
      modifies this`histories
      ensures var p := old(View()).PairOf(k); View().PairOf(k) == p.(visits := UpdateOpen(p.visits, c))
      ensures SameElsewhere(old(View()), View(), k)
    {
      hide VisitsIn, SameElsewhere, UpdateOpen;
      ghost var before := View();
      var visits := if k.track in histories then histories[k.track] else [];
      var changed := ChangeActive(visits, k.region, c);
      if changed != visits {
        histories := histories[k.track := changed];
      }
      UpdateZoneSeen(visits, k.region, c);
      forall z: string | z != k.region
        ensures VisitsIn(View().History(k.track), z) == VisitsIn(before.History(k.track), z)
      {
        UpdateZoneUnseen(visits, k.region, c, z);
      }
      OnlyPair(before, View(), k);
    }

    method EndSession(k: Key, frame: int, reason: ExitReason) returns (event: Event)
      requires Valid() && k in sessions
      modifies this
      ensures Valid() && sessions.Keys == old(sessions.Keys) - {k}
      ensures (View().PairOf(k), [event]) == End(cfg, k, old(View()).PairOf(k), frame, reason)
      ensures SameElsewhere(old(View()), View(), k)
    {
      hide VisitsIn, Distinct, UpdateOpen;
      var session := sessions[k];
      var dwell := DwellSeconds(cfg.clock, session, frame);
      sessions := sessions - {k};
      UpdateActiveVisit(k, CloseAt(frame, dwell));
      event := Event(Exit, k.track, k.region, session.sequence, frame, dwell, Some(reason));
    }

    method MaybeEmitDwell(k: Key, frame: int) returns (events: seq<Event>)
      requires Valid() && k in sessions
      modifies this
      ensures Valid() && sessions.Keys == old(sessions.Keys)
      ensures (View().PairOf(k), events) == MaybeDwell(cfg, k, old(View()).PairOf(k), frame)
      ensures SameElsewhere(old(View()), View(), k)
    {
      hide VisitsIn, Distinct, UpdateOpen;
      var session := sessions[k];
      var now := cfg.clock.Timestamp(frame);
      var elapsed := DwellSeconds(cfg.clock, session, frame);
      if elapsed < cfg.settings.threshold {
        return [];
      }
      if !session.firstDwellEmitted {
        session := session.(firstDwellEmitted := true, lastDwellAt := Some(now));
      } else {
        if session.lastDwellAt.None? {
          sessions := sessions[k := session.(lastDwellAt := Some(now))];
          return [];
        }
        if now - session.lastDwellAt.value < cfg.settings.interval {
          return [];
        }
        session := session.(lastDwellAt := Some(now));
      }
      sessions := sessions[k := session];
      UpdateActiveVisit(k, AddDwell);
      events := [Event(DwellEvent, k.track, k.region, session.sequence, frame, elapsed, None)];
    }

    /** One visitor against one zone. */
    method VisitZone(k: Key, isInside: bool, frame: int) returns (events: seq<Event>)
      requires Valid() && k.region in layout.zones
      modifies this
      ensures Valid() && sessions.Keys == if isInside then old(sessions.Keys) + {k} else old(sessions.Keys) - {k}
      ensures (View().PairOf(k), events) ==
        Step(cfg, k, old(View()).PairOf(k), Frame(frame, if isInside then Inside else Outside))
      ensures SameElsewhere(old(View()), View(), k)
    {
      hide VisitsIn, Distinct, Start, End, MaybeDwell;
      events := [];
      if k !in sessions && isInside {
        var entered := StartSession(k, frame);
        events := [entered];
      }
      if k in sessions {
        sessions := sessions[k := sessions[k].(missedFrames := 0, lastSeenFrame := frame)];
        if isInside {
          var dwelt := MaybeEmitDwell(k, frame);
          events := events + dwelt;
        } else {
          var exited := EndSession(k, frame, CentroidOutside);
          events := events + [exited];
          assert events == [exited];
        }
      }
    }

    /** One visitor against every zone. */
    method ProcessVisitor(f: FrameTracks, i: nat, log: seq<Event>, ghost start: Tables, ghost done: set<Key>)
      returns (events: seq<Event>, ghost nowDone: set<Key>)
      requires Valid() && i < |f.tracks| && Distinct(TrackIds(f.tracks))
      requires Progress(cfg, layout, start, View(), log, f, done) && DoneWith(layout, f.tracks[..i], done)
      modifies this
      ensures Valid() && Progress(cfg, layout, start, View(), events, f, nowDone)
      ensures DoneWith(layout, f.tracks[..i + 1], nowDone)
    {
      hide VisitsIn, Distinct, Step, Progress, SameElsewhere, TrackIds, Layout.SightOf, Layout.ZonesForPoint;
      var visitor := f.tracks[i];
      var insideNow := layout.ZonesForPoint(visitor.centroid, layout.zones);
      events, nowDone := log, done;
      FreshTrack(f.tracks, i);
      for n := 0 to |layout.zones|
        invariant Valid() && Progress(cfg, layout, start, View(), events, f, nowDone)
        invariant forall k: Key :: k in nowDone <==> k in done || (k.track == visitor.track && k.region in layout.zones[..n])
      {
        var k := Key(visitor.track, layout.zones[n]);
        ghost var before := View();
        ItemAt(layout.zones, n);
        layout.ZonesForPointExactly(visitor.centroid, layout.zones, k.region);
        layout.SightOfVisitor(f.tracks, i, k.region);
        ZoneTheorems.StepEvents(cfg, k, before.PairOf(k), Frame(f.index, layout.SightOf(f.tracks, k)));
        var more := VisitZone(k, k.region in insideNow, f.index);
        ProgressStep(cfg, layout, start, before, View(), events, more, f, nowDone, k);
        events, nowDone := events + more, nowDone + {k};
      }
      assert layout.zones[..|layout.zones|] == layout.zones;
    }

    /** Every session of a track that is not in the frame misses one; those beyond the grace are returned. */
    method MissUnseen(seen: seq<int>) returns (toClose: set<Key>)
      requires Valid()
      modifies this`sessions
      ensures Valid() && sessions == MissedIn(old(sessions), seen, old(sessions.Keys))
      ensures forall k: Key :: k in toClose <==> Overdue(cfg, sessions, seen, k)
      ensures forall k: Key | k in toClose :: k in sessions && k.track !in seen
    {
      hide Distinct;
      var pending := sessions.Keys;
      toClose := {};
      while pending != {}
        invariant pending <= old(sessions.Keys)
        invariant sessions == MissedIn(old(sessions), seen, old(sessions.Keys) - pending)
        invariant forall k: Key :: k in toClose <==> k !in pending && Overdue(cfg, sessions, seen, k)
        decreases pending
      {
        var k :| k in pending;
        pending := pending - {k};
        if k.track !in seen {
          sessions := sessions[k := sessions[k].(missedFrames := sessions[k].missedFrames + 1)];
          if sessions[k].missedFrames > cfg.settings.grace {
            toClose := toClose + {k};
          }
        }
      }
    }

    /** Every pair takes exactly the step its sight in this frame calls for, with exactly that step's events. */
    method ProcessFrame(f: FrameTracks) returns (events: seq<Event>)
      requires Valid() && Distinct(TrackIds(f.tracks))
      modifies this
      ensures Valid()
      ensures forall k: Key :: Stepped(cfg, old(View()), View(), events, k, Frame(f.index, layout.SightOf(f.tracks, k)))
    {
      hide VisitsIn, Distinct, Progress, Stepped, Overdue, MissedIn, Closing, SameElsewhere, Layout.SightOf, Tables.PairOf;
      events := [];
      ghost var start, done := View(), {};
      ProgressBegins(cfg, layout, start, f);
      for i := 0 to |f.tracks|
        invariant Valid() && Progress(cfg, layout, start, View(), events, f, done)
        invariant DoneWith(layout, f.tracks[..i], done)
      {
        events, done := ProcessVisitor(f, i, events, start, done);
      }
      assert f.tracks[..|f.tracks|] == f.tracks;
      ghost var visited := View();
      var toClose := MissUnseen(TrackIds(f.tracks));
      AwaitingBegins(cfg, layout, start, visited, View(), events, f, done, toClose);
      while toClose != {}
        invariant Valid() && Awaiting(cfg, layout, start, View(), events, f, toClose)
        invariant forall k | k in toClose :: k in sessions && k.track !in TrackIds(f.tracks)
        decreases toClose
      {
        var k :| k in toClose;
        ghost var before := View();
        layout.SightUnseen(f.tracks, k);
        var exited := EndSession(k, f.index, OcclusionTimeout);
        AwaitingStep(cfg, layout, start, before, View(), events, exited, f, toClose, k);
        events, toClose := events + [exited], toClose - {k};
      }
    }
  }

  /** The frames of a video as one pair sees them. */
  function FramesOf(l: Layout, video: seq<FrameTracks>, k: Key): seq<Frame> {
    if video == [] then []
    else
      var last := video[|video| - 1];
      FramesOf(l, video[..|video| - 1], k) + [Frame(last.index, l.SightOf(last.tracks, k))]
  }

  lemma {:induction false} FramesOfAppend(l: Layout, video: seq<FrameTracks>, i: nat, k: Key)
    requires i < |video|
    ensures FramesOf(l, video[..i + 1], k) ==
      FramesOf(l, video[..i], k) + [Frame(video[i].index, l.SightOf(video[i].tracks, k))]
  {
    assert video[..i + 1][..i] == video[..i];
  }

  lemma {:induction false} RunAppend(cfg: Config, k: Key, frames: seq<Frame>, f: Frame)
    ensures var (p, log) := Run(cfg, k, frames);
      var (q, more) := Step(cfg, k, p, f); Run(cfg, k, frames + [f]) == (q, log + more)
  {
    assert (frames + [f])[..|frames|] == frames;
    hide Step;
  }

  /** One frame more: each pair's run grows by that frame. */
  lemma {:induction false} VideoStep(cfg: Config, l: Layout, video: seq<FrameTracks>, i: nat, a: Tables, b: Tables,
                                     log: seq<Event>, more: seq<Event>, k: Key)
    requires i < |video|
    requires (a.PairOf(k), EventsOf(log, k)) == Run(cfg, k, FramesOf(l, video[..i], k))
    requires Stepped(cfg, a, b, more, k, Frame(video[i].index, l.SightOf(video[i].tracks, k)))
    ensures (b.PairOf(k), EventsOf(log + more, k)) == Run(cfg, k, FramesOf(l, video[..i + 1], k))
  {
    hide Step, Run, Tables.PairOf, EventsOf, FramesOf, Layout.SightOf;
    FramesOfAppend(l, video, i, k);
    RunAppend(cfg, k, FramesOf(l, video[..i], k), Frame(video[i].index, l.SightOf(video[i].tracks, k)));
    EventsConcat(log, more, k);
  }

  /** Frames in order stay in order for every pair, so the laws of ZoneTheorems apply to each. */
  lemma {:induction false} FramesOfIncreasing(l: Layout, video: seq<FrameTracks>, k: Key)
    requires forall i, j | 0 <= i < j < |video| :: video[i].index < video[j].index
    ensures |FramesOf(l, video, k)| == |video|
    ensures forall i | 0 <= i < |video| :: FramesOf(l, video, k)[i].index == video[i].index
    ensures Increasing(FramesOf(l, video, k))
  {
    if video != [] {
      FramesOfIncreasing(l, video[..|video| - 1], k);
    }
  }

  /** After a frame a visible track has a session for exactly the zones that contain its centroid. */
  lemma {:induction false} SessionsExactlyInside(cfg: Config, l: Layout, video: seq<FrameTracks>, t: Tables, i: nat,
                                                 zone: string)
    requires forall i, j | 0 <= i < j < |video| :: video[i].index < video[j].index
    requires video != [] && Distinct(TrackIds(video[|video| - 1].tracks)) && i < |video[|video| - 1].tracks| && zone in l.zones
    requires forall k: Key :: t.PairOf(k) == Run(cfg, k, FramesOf(l, video, k)).0
    ensures var v := video[|video| - 1].tracks[i]; Key(v.track, zone) in t.sessions <==> l.contains(zone, v.centroid)
  {
    hide Run, VisitsIn, Distinct, Layout.SightOf, TrackIds;
    var last := video[|video| - 1];
    var k := Key(last.tracks[i].track, zone);
    FramesOfIncreasing(l, video, k);
    l.SightOfVisitor(last.tracks, i, zone);
    ZoneTheorems.LiveExactlyInside(cfg, k, FramesOf(l, video, k));
    assert t.PairOf(k).live == t.Live(k);
  }

  lemma {:induction false} NothingYet()
    ensures forall k: Key :: Tables(map[], map[], map[]).PairOf(k) == NEW_PAIR && EventsOf([], k) == []
  {
  }

  /** Every pair has lived exactly its own run over the frames so far. */
  ghost predicate Lived(cfg: Config, l: Layout, past: seq<FrameTracks>, t: Tables, log: seq<Event>) {
    forall k: Key :: (t.PairOf(k), EventsOf(log, k)) == Run(cfg, k, FramesOf(l, past, k))
  }

  lemma {:induction false} EventAtPair(events: seq<Event>, e: Event)
    requires e in events
    ensures e in EventsOf(events, Key(e.track, e.zone))
  {
    if e != events[|events| - 1] {
      EventAtPair(events[..|events| - 1], e);
    }
  }

  /** One more frame: everybody's run goes on, and all events are of this frame. */
  method TrackFrame(engine: ZoneTrackingEngine, f: FrameTracks, ghost past: seq<FrameTracks>, ghost log: seq<Event>)
    returns (more: seq<Event>)
    requires engine.Valid() && Distinct(TrackIds(f.tracks))
    requires Lived(engine.cfg, engine.layout, past, engine.View(), log)
    modifies engine
    ensures engine.Valid() && Lived(engine.cfg, engine.layout, past + [f], engine.View(), log + more)
    ensures forall e | e in more :: e.frame == f.index
  {
    hide Step, VisitsIn, Distinct, Layout.SightOf, TrackIds, EventsOf, Run, FramesOf, Tables.PairOf;
    ghost var before, video := engine.View(), past + [f];
    more := engine.ProcessFrame(f);
    assert video[..|past|] == past && video[..|past| + 1] == video && video[|past|] == f;
    forall k: Key
      ensures (engine.View().PairOf(k), EventsOf(log + more, k)) == Run(engine.cfg, k, FramesOf(engine.layout, video, k))
    {
      VideoStep(engine.cfg, engine.layout, video, |past|, before, engine.View(), log, more, k);
    }
    forall e | e in more
      ensures e.frame == f.index
    {
      var k := Key(e.track, e.zone);
      EventAtPair(more, e);
      assert Stepped(engine.cfg, before, engine.View(), more, k, Frame(f.index, engine.layout.SightOf(f.tracks, k)));
      ZoneTheorems.StepEvents(engine.cfg, k, before.PairOf(k), Frame(f.index, engine.layout.SightOf(f.tracks, k)));
    }
  }

  /** Over a whole video every pair lives exactly its own run: tracks and zones never disturb each other. */
  method TrackVideo(cfg: Config, layout: Layout, video: seq<FrameTracks>)
    returns (engine: ZoneTrackingEngine, log: seq<Event>)
    requires Distinct(layout.zones) && DistinctTracks(video)
    ensures engine.Valid()
    ensures forall k: Key ::
      (engine.View().PairOf(k), EventsOf(log, k)) == Run(cfg, k, FramesOf(layout, video, k))
  {
    hide Step, VisitsIn, Distinct, Layout.SightOf, Stepped, TrackIds;
    engine := new ZoneTrackingEngine(cfg, layout);
    log := [];
    NothingYet();
    for i := 0 to |video|
      invariant engine.Valid() && engine.cfg == cfg && engine.layout == layout && fresh(engine)
      invariant Lived(cfg, layout, video[..i], engine.View(), log)
    {
      var more := TrackFrame(engine, video[i], video[..i], log);
      assert video[..i] + [video[i]] == video[..i + 1];
      log := log + more;
    }
    assert video[..|video|] == video;
  }

  lemma {:induction false} SearchSkips(visits: seq<Visit>, i: nat, zone: string, c: Change)
    requires 0 < i <= |visits| && !(visits[i - 1].zone == zone && visits[i - 1].exitedFrame.None?)
    ensures UpdateZone(visits[..i], zone, c) + visits[i..] == UpdateZone(visits[..i - 1], zone, c) + visits[i - 1..]
  {
    UpdateZoneAppend(visits[..i - 1], visits[i - 1], zone, c);
    assert visits[..i - 1] + [visits[i - 1]] == visits[..i];
    hide UpdateZone;
    assert [visits[i - 1]] + visits[i..] == visits[i - 1..];
    var front := UpdateZone(visits[..i - 1], zone, c);
    assert (front + [visits[i - 1]]) + visits[i..] == front + ([visits[i - 1]] + visits[i..]);
  }

  lemma {:induction false} SearchHits(visits: seq<Visit>, i: nat, zone: string, c: Change)
    requires 0 < i <= |visits| && visits[i - 1].zone == zone && visits[i - 1].exitedFrame.None?
    ensures UpdateZone(visits[..i], zone, c) + visits[i..] == visits[i - 1 := Changed(visits[i - 1], c)]
  {
    UpdateZoneAppend(visits[..i - 1], visits[i - 1], zone, c);
    assert visits[..i - 1] + [visits[i - 1]] == visits[..i];
    hide *;
  }

  /** The latest open visit of the zone, found from the end, is changed in place. */
  method ChangeActive(visits: seq<Visit>, zone: string, c: Change) returns (changed: seq<Visit>)
    ensures changed == UpdateZone(visits, zone, c)
  {
    var i := |visits|;
    assert visits[..i] == visits && visits[i..] == [];
    while i > 0 && !(visits[i - 1].zone == zone && visits[i - 1].exitedFrame.None?)
      invariant 0 <= i <= |visits|
      invariant UpdateZone(visits, zone, c) == UpdateZone(visits[..i], zone, c) + visits[i..]
    {
      SearchSkips(visits, i, zone, c);
      i := i - 1;
    }
    changed := visits;
    if i > 0 {
      SearchHits(visits, i, zone, c);
      changed := visits[i - 1 := Changed(visits[i - 1], c)];
    }
  }
}
