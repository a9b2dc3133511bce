/** The billing queue engine: memberships per (track, queue) and periodic depth reports. */
module QueueTracking {
  import opened Options
  import opened Sequences
  import opened Tracks
  import opened ZoneModel
  import opened ZoneTables
  import opened QueueModel

  /** How many visitors of a frame stand in a queue. */
  function DepthOf(l: Layout, tracks: seq<Visitor>, queue: string): nat {
    if tracks == [] then 0
    else DepthOf(l, tracks[..|tracks| - 1], queue) + (if l.contains(queue, tracks[|tracks| - 1].centroid) then 1 else 0)
  }

  /** The places of the visitors who stand in a queue. */
  ghost function StandingAt(l: Layout, tracks: seq<Visitor>, queue: string): set<nat> {
    set i: nat | i < |tracks| && l.contains(queue, tracks[i].centroid)
  }

  lemma {:induction false} DepthCounts(l: Layout, tracks: seq<Visitor>, queue: string)
    ensures DepthOf(l, tracks, queue) == |StandingAt(l, tracks, queue)|
  {
    if tracks != [] {
      var front, n := tracks[..|tracks| - 1], |tracks| - 1;
      DepthCounts(l, front, queue);
      assert StandingAt(l, tracks, queue)
        == StandingAt(l, front, queue) + (if l.contains(queue, tracks[n].centroid) then {n} else {});
      assert n !in StandingAt(l, front, queue);
    }
  }

  function QueueFrameOf(l: Layout, f: FrameTracks, k: Key): QueueFrame {
    QueueFrame(f.index, l.SightOf(f.tracks, k), DepthOf(l, f.tracks, k.region))
  }

  /** The depth reports of some queues, in order. */
  function Depths(l: Layout, f: FrameTracks, queues: seq<string>): seq<QueueEvent> {
    if queues == [] then []
    else
      var q := queues[|queues| - 1];
      Depths(l, f, queues[..|queues| - 1]) + [Depth(q, f.index, DepthOf(l, f.tracks, q))]
  }

  /** The joins and leaves of one pair, in order. */
  function MovesOf(log: seq<QueueEvent>, k: Key): seq<QueueEvent> {
    if log == [] then []
    else
      var last := log[|log| - 1];
      MovesOf(log[..|log| - 1], k) + (if !last.Depth? && last.key == k then [last] else [])
  }

  lemma {:induction false} MovesConcat(a: seq<QueueEvent>, b: seq<QueueEvent>, k: Key)
    ensures MovesOf(a + b, k) == MovesOf(a, k) + MovesOf(b, k)
  {
    if b == [] {
      assert a + b == a;
    } else {
      MovesConcat(a, b[..|b| - 1], k);
      assert (a + b)[..|a + b| - 1] == a + b[..|b| - 1];
    }
  }

  lemma {:induction false} DepthsMoveNobody(l: Layout, f: FrameTracks, queues: seq<string>, k: Key)
    ensures MovesOf(Depths(l, f, queues), k) == []
  {
    if queues != [] {
      DepthsMoveNobody(l, f, queues[..|queues| - 1], k);
      var front := Depths(l, f, queues[..|queues| - 1]);
      assert Depths(l, f, queues)[..|front|] == front;
    }
  }

  function MemberOf(members: map<Key, Membership>, sequences: map<Key, nat>, k: Key): Member {
    Member(if k in members then Some(members[k]) else None, if k in sequences then sequences[k] else 0)
  }

  datatype QueueTables = QueueTables(members: map<Key, Membership>, sequences: map<Key, nat>) {
    function At(k: Key): Member {
      MemberOf(members, sequences, k)
    }
  }

  ghost predicate QueueStepped(fps: real, a: QueueTables, b: QueueTables, log: seq<QueueEvent>, k: Key,
                               f: QueueFrame) {
    (b.At(k), MovesOf(log, k)) == QueueStep(fps, k, a.At(k), f)
  }

  /** The pairs in `done` have taken their step of this frame; the others are untouched. */
  ghost predicate QueueProgress(fps: real, l: Layout, a: QueueTables, b: QueueTables, log: seq<QueueEvent>,
                                f: FrameTracks, done: set<Key>) {
    forall k: Key ::
      if k in done then QueueStepped(fps, a, b, log, k, QueueFrameOf(l, f, k)) else b.At(k) == a.At(k) && MovesOf(log, k) == []
  }

  predicate OnlyMoves(log: seq<QueueEvent>) {
    forall i | 0 <= i < |log| :: !log[i].Depth?
  }

  /** The moves a step makes are seen by its pair and by no other. */
  lemma {:induction false} StepMoves(fps: real, k: Key, m: Member, f: QueueFrame, j: Key)
    ensures var more := QueueStep(fps, k, m, f).1; MovesOf(more, j) == if j == k then more else []
  {
    hide QueueDwell;
    var more := QueueStep(fps, k, m, f).1;
    if more != [] {
      assert more == [more[0]] && more[..0] == [];
    }
  }

  lemma {:induction false} QueueProgressStep(fps: real, l: Layout, a: QueueTables, b: QueueTables, c: QueueTables,
                                             log: seq<QueueEvent>, more: seq<QueueEvent>, f: FrameTracks,
                                             done: set<Key>, k: Key)
    requires QueueProgress(fps, l, a, b, log, f, done) && k !in done
    requires forall j: Key | j != k :: c.At(j) == b.At(j)
    requires (c.At(k), more) == QueueStep(fps, k, b.At(k), QueueFrameOf(l, f, k))
    ensures QueueProgress(fps, l, a, c, log + more, f, done + {k})
  {
    hide QueueTables.At, MovesOf, QueueStep, QueueFrameOf;
    forall j: Key
      ensures MovesOf(log + more, j) == if j == k then MovesOf(log, j) + more else MovesOf(log, j)
    {
      MovesConcat(log, more, j);
      StepMoves(fps, k, b.At(k), QueueFrameOf(l, f, k), j);
      assert MovesOf(log, j) + [] == MovesOf(log, j);
    }
    assert [] + more == more;
  }

  /** Pairs that no visitor of the frame decides are not seen, so nothing is what they should do. */
  lemma {:induction false} QueueProgressEnds(fps: real, l: Layout, a: QueueTables, b: QueueTables,
                                             log: seq<QueueEvent>, f: FrameTracks, done: set<Key>)
    requires QueueProgress(fps, l, a, b, log, f, done) && DoneWith(l, f.tracks, done)
    ensures forall k: Key :: QueueStepped(fps, a, b, log, k, QueueFrameOf(l, f, k))
  {
    hide QueueTables.At, MovesOf, Layout.SightOf, TrackIds, DepthOf;
    forall k: Key
      ensures QueueStepped(fps, a, b, log, k, QueueFrameOf(l, f, k))
    {
      l.SightUnseen(f.tracks, k);
    }
  }

  lemma {:induction false} QueueProgressBegins(fps: real, l: Layout, a: QueueTables, f: FrameTracks)
    ensures QueueProgress(fps, l, a, a, [], f, {})
  {
    hide QueueTables.At, QueueStep;
  }

  class QueueTrackingEngine {
    const fps: real
    const interval: int
    const layout: Layout
    var members: map<Key, Membership>
    var sequences: map<Key, nat>
    var lastDepthFrame: int

    ghost function View(): QueueTables
      reads this
    {
      QueueTables(members, sequences)
    }

    ghost predicate Valid() {
      Distinct(layout.zones)
    }

    constructor (fps: real, layout: Layout, depthInterval: int)
      requires Distinct(layout.zones)
      ensures Valid() && View() == QueueTables(map[], map[])
      ensures this.fps == fps && this.layout == layout
      ensures interval >= 1 && interval >= depthInterval && (interval == 1 || interval == depthInterval)
      ensures lastDepthFrame == -interval
    {
      this.fps, this.layout := fps, layout;
      interval := if depthInterval < 1 then 1 else depthInterval;
      members, sequences := map[], map[];
      lastDepthFrame := if depthInterval < 1 then -1 else -depthInterval;
    }

    method DepthForQueue(queue: string, tracks: seq<Visitor>) returns (count: nat)
      ensures count == DepthOf(layout, tracks, queue)
    {
      count := 0;
      for i := 0 to |tracks|
        invariant count == DepthOf(layout, tracks[..i], queue)
      {
        assert tracks[..i + 1][..i] == tracks[..i];
        if layout.contains(queue, tracks[i].centroid) {
          count := count + 1;
        }
      }
      assert tracks[..|tracks|] == tracks;
    }

    /** One visitor against one queue. */
    method VisitQueue(k: Key, inside: bool, f: FrameTracks) returns (events: seq<QueueEvent>)
      requires layout.SightOf(f.tracks, k) == if inside then Inside else Outside
      modifies this`members, this`sequences
      ensures (View().At(k), events) == QueueStep(fps, k, old(View()).At(k), QueueFrameOf(layout, f, k))
      ensures forall j: Key | j != k :: View().At(j) == old(View()).At(j)
      ensures OnlyMoves(events)
    {
      events := [];
      if inside {
        if k !in members || !members[k].inside {
          var n := (if k in sequences then sequences[k] else 0) + 1;
          sequences := sequences[k := n];
          members := members[k := Membership(f.index, n, true)];
          var depth := DepthForQueue(k.region, f.tracks);
          events := [Join(k, n, f.index, depth)];
        }
      } else if k in members && members[k].inside {
        var member := members[k];
        members := members[k := member.(inside := false)];
        events := [Leave(k, member.sequence, f.index, QueueDwell(fps, member.joinedFrame, f.index))];
      }
    }

    method ProcessVisitor(f: FrameTracks, i: nat, log: seq<QueueEvent>, ghost start: QueueTables,
                          ghost done: set<Key>)
      returns (events: seq<QueueEvent>, ghost nowDone: set<Key>)
      requires Valid() && i < |f.tracks| && Distinct(TrackIds(f.tracks))
      requires QueueProgress(fps, layout, start, View(), log, f, done) && DoneWith(layout, f.tracks[..i], done) && OnlyMoves(log)
      modifies this`members, this`sequences
      ensures QueueProgress(fps, layout, start, View(), events, f, nowDone) && DoneWith(layout, f.tracks[..i + 1], nowDone)
      ensures OnlyMoves(events)
    {
      hide Distinct, QueueStep, QueueProgress, TrackIds, Layout.SightOf, QueueFrameOf, QueueTables.At;
      var track := f.tracks[i];
      events, nowDone := log, done;
      FreshTrack(f.tracks, i);
      for n := 0 to |layout.zones|
        invariant QueueProgress(fps, layout, start, View(), events, f, nowDone) && OnlyMoves(events)
        invariant forall k: Key :: k in nowDone <==> k in done || (k.track == track.track && k.region in layout.zones[..n])
      {
        var k := Key(track.track, layout.zones[n]);
        ghost var before := View();
        ItemAt(layout.zones, n);
        layout.SightOfVisitor(f.tracks, i, k.region);
        var more := VisitQueue(k, layout.contains(k.region, track.centroid), f);
        QueueProgressStep(fps, layout, start, before, View(), events, more, f, nowDone, k);
        events, nowDone := events + more, nowDone + {k};
      }
      assert layout.zones[..|layout.zones|] == layout.zones;
    }

    /**
     Every pair makes exactly the moves its sight calls for; all depths are reported, in order and after
     the moves, when an interval has passed since the last report.
     */
    method ProcessFrame(f: FrameTracks) returns (events: seq<QueueEvent>)
      requires Valid() && Distinct(TrackIds(f.tracks))
      modifies this
      ensures forall k: Key :: QueueStepped(fps, old(View()), View(), events, k, QueueFrameOf(layout, f, k))
      ensures var due := layout.zones != [] && f.index - old(lastDepthFrame) >= interval;
        && lastDepthFrame == (if due then f.index else old(lastDepthFrame))
        && exists moves: seq<QueueEvent> ::
             events == moves + (if due then Depths(layout, f, layout.zones) else []) && OnlyMoves(moves)
    {
      hide Distinct, QueueProgress, QueueStepped, QueueFrameOf, QueueTables.At, DoneWith, OnlyMoves, TrackIds;
      events := [];
      ghost var start, done := View(), {};
      BeforeAnyVisitor(fps, layout, start, f);
      for i := 0 to |f.tracks|
        invariant QueueProgress(fps, layout, start, View(), events, f, done) && OnlyMoves(events)
        invariant DoneWith(layout, f.tracks[..i], done) && lastDepthFrame == old(lastDepthFrame)
      {
        events, done := ProcessVisitor(f, i, events, start, done);
      }
      assert f.tracks[..|f.tracks|] == f.tracks;
      QueueProgressEnds(fps, layout, start, View(), events, f, done);
      ghost var moves := events;
      if layout.zones != [] && f.index - lastDepthFrame >= interval {
        lastDepthFrame := f.index;
        for n := 0 to |layout.zones|
          invariant events == moves + Depths(layout, f, layout.zones[..n])
          modifies {}
        {
          var depth := DepthForQueue(layout.zones[n], f.tracks);
          DepthsAppend(layout, f, layout.zones, n);
          events := events + [Depth(layout.zones[n], f.index, depth)];
        }
        assert layout.zones[..|layout.zones|] == layout.zones;
        SteppedWithDepths(fps, layout, start, View(), moves, f);
      } else {
        assert events == moves + [];
      }
    }
  }

  lemma {:induction false} DepthsAppend(l: Layout, f: FrameTracks, queues: seq<string>, n: nat)
    requires n < |queues|
    ensures Depths(l, f, queues[..n + 1]) == Depths(l, f, queues[..n]) + [Depth(queues[n], f.index, DepthOf(l, f.tracks, queues[n]))]
  {
    assert queues[..n + 1][..n] == queues[..n];
  }

  lemma {:induction false} SteppedWithDepths(fps: real, l: Layout, a: QueueTables, b: QueueTables,
                                             moves: seq<QueueEvent>, f: FrameTracks)
    requires forall k: Key :: QueueStepped(fps, a, b, moves, k, QueueFrameOf(l, f, k))
    ensures forall k: Key :: QueueStepped(fps, a, b, moves + Depths(l, f, l.zones), k, QueueFrameOf(l, f, k))
  {
    hide QueueStep, QueueFrameOf, QueueTables.At, MovesOf, Depths;
    forall k: Key
      ensures QueueStepped(fps, a, b, moves + Depths(l, f, l.zones), k, QueueFrameOf(l, f, k))
    {
      assert QueueStepped(fps, a, b, moves, k, QueueFrameOf(l, f, k));
      MovesConcat(moves, Depths(l, f, l.zones), k);
      DepthsMoveNobody(l, f, l.zones, k);
      assert MovesOf(moves, k) + [] == MovesOf(moves, k);
    }
  }

  lemma {:induction false} BeforeAnyVisitor(fps: real, l: Layout, a: QueueTables, f: FrameTracks)
    ensures QueueProgress(fps, l, a, a, [], f, {}) && DoneWith(l, f.tracks[..0], {}) && OnlyMoves([])
  {
    QueueProgressBegins(fps, l, a, f);
  }

  // ---------------------------------------------------------------------------
  // Whole videos
  // ---------------------------------------------------------------------------

  function QueueFramesOf(l: Layout, video: seq<FrameTracks>, k: Key): seq<QueueFrame> {
    if video == [] then []
    else QueueFramesOf(l, video[..|video| - 1], k) + [QueueFrameOf(l, video[|video| - 1], k)]
  }

  function Indices(video: seq<FrameTracks>): seq<int> {
    if video == [] then [] else Indices(video[..|video| - 1]) + [video[|video| - 1].index]
  }

  /** The frames at which a queue's depth was reported. */
  function ReportsOf(log: seq<QueueEvent>, queue: string): seq<int> {
    if log == [] then []
    else
      var last := log[|log| - 1];
      ReportsOf(log[..|log| - 1], queue) + (if last.Depth? && last.queue == queue then [last.frame] else [])
  }

  /** The frames at which a queue should have been reported. */
  function ReportFrames(l: Layout, interval: int, video: seq<FrameTracks>, queue: string): seq<int> {
    if queue in l.zones then DepthFrames(interval, -interval, Indices(video)) else []
  }

  lemma {:induction false} ReportsConcat(a: seq<QueueEvent>, b: seq<QueueEvent>, q: string)
    ensures ReportsOf(a + b, q) == ReportsOf(a, q) + ReportsOf(b, q)
  {
    if b == [] {
      assert a + b == a;
    } else {
      ReportsConcat(a, b[..|b| - 1], q);
      assert (a + b)[..|a + b| - 1] == a + b[..|b| - 1];
    }
  }

  lemma {:induction false} MovesReportNothing(moves: seq<QueueEvent>, q: string)
    requires OnlyMoves(moves)
    ensures ReportsOf(moves, q) == []
  {
    if moves != [] {
      MovesReportNothing(moves[..|moves| - 1], q);
    }
  }

  lemma {:induction false} DepthsReportOnce(l: Layout, f: FrameTracks, queues: seq<string>, q: string)
    requires Distinct(queues)
    ensures ReportsOf(Depths(l, f, queues), q) == if q in queues then [f.index] else []
  {
    if queues != [] {
      var front := Depths(l, f, queues[..|queues| - 1]);
      DepthsReportOnce(l, f, queues[..|queues| - 1], q);
      assert Depths(l, f, queues)[..|front|] == front;
    }
  }

  /** What one frame adds to a queue's reports. */
  lemma {:induction false} FrameReports(l: Layout, f: FrameTracks, due: bool, moves: seq<QueueEvent>, q: string)
    requires Distinct(l.zones) && OnlyMoves(moves)
    ensures ReportsOf(moves + (if due then Depths(l, f, l.zones) else []), q) == if due && q in l.zones then [f.index] else []
  {
    hide ReportsOf, Depths, Distinct, OnlyMoves;
    MovesReportNothing(moves, q);
    if due {
      ReportsConcat(moves, Depths(l, f, l.zones), q);
      DepthsReportOnce(l, f, l.zones, q);
    } else {
      assert moves + [] == moves;
    }
  }

  lemma {:induction false} QueueVideoStep(fps: real, l: Layout, video: seq<FrameTracks>, i: nat, a: QueueTables,
                                          b: QueueTables, log: seq<QueueEvent>, more: seq<QueueEvent>, k: Key)
    requires i < |video|
    requires (a.At(k), MovesOf(log, k)) == QueueRun(fps, k, QueueFramesOf(l, video[..i], k))
    requires QueueStepped(fps, a, b, more, k, QueueFrameOf(l, video[i], k))
    ensures (b.At(k), MovesOf(log + more, k)) == QueueRun(fps, k, QueueFramesOf(l, video[..i + 1], k))
  {
    hide QueueStep, QueueTables.At, MovesOf, QueueFrameOf;
    MovesConcat(log, more, k);
    assert video[..i + 1][..i] == video[..i];
    var before := QueueFramesOf(l, video[..i], k);
    var after := QueueFramesOf(l, video[..i + 1], k);
    assert after[..|after| - 1] == before;
  }

  /** Every pair has lived its own run over the frames so far, and every queue was reported when due. */
  ghost predicate QueuesLived(fps: real, l: Layout, interval: int, past: seq<FrameTracks>, t: QueueTables, last: int,
                              log: seq<QueueEvent>) {
    && (forall k: Key :: (t.At(k), MovesOf(log, k)) == QueueRun(fps, k, QueueFramesOf(l, past, k)))
    && (l.zones != [] ==> last == Latest(-interval, DepthFrames(interval, -interval, Indices(past))))
    && (forall q: string :: ReportsOf(log, q) == ReportFrames(l, interval, past, q))
  }

  lemma {:induction false} MoveAtPair(events: seq<QueueEvent>, e: QueueEvent)
    requires e in events && !e.Depth?
    ensures e in MovesOf(events, e.key)
  {
    if e != events[|events| - 1] {
      MoveAtPair(events[..|events| - 1], e);
    }
  }

  lemma {:induction false} DepthsFrame(l: Layout, f: FrameTracks, queues: seq<string>)
    ensures forall e | e in Depths(l, f, queues) :: e.Depth? && e.frame == f.index
  {
    if queues != [] {
      DepthsFrame(l, f, queues[..|queues| - 1]);
    }
  }

  lemma {:induction false} StepFrame(fps: real, k: Key, m: Member, f: QueueFrame)
    ensures forall e | e in QueueStep(fps, k, m, f).1 :: e.frame == f.index
  {
    hide QueueDwell;
  }

  /** What a frame adds to the reports. */
  lemma {:induction false} ReportsGoOn(l: Layout, interval: int, past: seq<FrameTracks>, f: FrameTracks, last: int,
                                       log: seq<QueueEvent>, moves: seq<QueueEvent>)
    requires Distinct(l.zones) && OnlyMoves(moves)
    requires l.zones != [] ==> last == Latest(-interval, DepthFrames(interval, -interval, Indices(past)))
    requires forall q: string :: ReportsOf(log, q) == ReportFrames(l, interval, past, q)
    ensures var due := l.zones != [] && f.index - last >= interval;
      var more := moves + (if due then Depths(l, f, l.zones) else []);
      && (l.zones != [] ==>
            (if due then f.index else last) == Latest(-interval, DepthFrames(interval, -interval, Indices(past + [f]))))
      && forall q: string :: ReportsOf(log + more, q) == ReportFrames(l, interval, past + [f], q)
  {
    hide ReportsOf, Depths, Distinct, OnlyMoves, DepthFrames, Indices;
    IndicesAppend(past + [f], |past|);
    assert (past + [f])[..|past|] == past && (past + [f])[..|past| + 1] == past + [f];
    DepthFramesAppend(interval, -interval, Indices(past), f.index);
    var due := l.zones != [] && f.index - last >= interval;
    var more := moves + (if due then Depths(l, f, l.zones) else []);
    forall q: string
      ensures ReportsOf(log + more, q) == ReportsOf(log, q) + (if due && q in l.zones then [f.index] else [])
    {
      ReportsConcat(log, more, q);
      FrameReports(l, f, due, moves, q);
    }
  }

  /** One more frame: everybody's run goes on, and all events are of this frame. */
  method TrackQueueFrame(engine: QueueTrackingEngine, f: FrameTracks, ghost past: seq<FrameTracks>,
                         ghost log: seq<QueueEvent>)
    returns (more: seq<QueueEvent>)
    requires engine.Valid() && Distinct(TrackIds(f.tracks))
    requires QueuesLived(engine.fps, engine.layout, engine.interval, past, engine.View(), engine.lastDepthFrame, log)
    modifies engine
    ensures engine.Valid()
    ensures QueuesLived(engine.fps, engine.layout, engine.interval, past + [f], engine.View(), engine.lastDepthFrame, log + more)
    ensures forall e | e in more :: e.frame == f.index
  {
    hide Distinct, Layout.SightOf, TrackIds, QueueRun, Depths, ReportsOf, DepthFrames, QueueTables.At, MovesOf;
    hide OnlyMoves, QueueFramesOf, Indices, QueueStep, QueueFrameOf, ReportFrames, Latest;
    ghost var before, last, l, video := engine.View(), engine.lastDepthFrame, engine.layout, past + [f];
    more := engine.ProcessFrame(f);
    assert video[..|past|] == past && video[..|past| + 1] == video && video[|past|] == f;
    forall k: Key
      ensures (engine.View().At(k), MovesOf(log + more, k)) == QueueRun(engine.fps, k, QueueFramesOf(l, video, k))
    {
      assert QueueStepped(engine.fps, before, engine.View(), more, k, QueueFrameOf(l, f, k));
      QueueVideoStep(engine.fps, l, video, |past|, before, engine.View(), log, more, k);
    }
    ghost var due := l.zones != [] && f.index - last >= engine.interval;
    ghost var moves :| more == moves + (if due then Depths(l, f, l.zones) else []) && OnlyMoves(moves);
    ReportsGoOn(l, engine.interval, past, f, last, log, moves);
    DepthsFrame(l, f, l.zones);
    forall e | e in more
      ensures e.frame == f.index
    {
      if !e.Depth? {
        MoveAtPair(more, e);
        assert QueueStepped(engine.fps, before, engine.View(), more, e.key, QueueFrameOf(l, f, e.key));
        StepFrame(engine.fps, e.key, before.At(e.key), QueueFrameOf(l, f, e.key));
        FrameIndex(l, f, e.key);
      } else {
        NoDepthMoves(moves, e);
      }
    }
  }

  lemma {:induction false} FrameIndex(l: Layout, f: FrameTracks, k: Key)
    ensures QueueFrameOf(l, f, k).index == f.index
  {
    hide Layout.SightOf, DepthOf;
  }

  lemma {:induction false} NoDepthMoves(moves: seq<QueueEvent>, e: QueueEvent)
    requires OnlyMoves(moves) && e.Depth?
    ensures e !in moves
  {
  }

  method TrackQueues(fps: real, layout: Layout, depthInterval: int, video: seq<FrameTracks>)
    returns (engine: QueueTrackingEngine, log: seq<QueueEvent>)
    requires Distinct(layout.zones) && DistinctTracks(video)
    ensures forall k: Key :: (engine.View().At(k), MovesOf(log, k)) == QueueRun(fps, k, QueueFramesOf(layout, video, k))
    ensures engine.interval >= 1
    ensures forall q: string :: ReportsOf(log, q) == ReportFrames(layout, engine.interval, video, q)
  {
    hide Distinct, TrackIds, QueueRun, Depths, ReportsOf, DepthFrames, QueueTables.At, MovesOf, QueueFramesOf, Indices;
    engine := new QueueTrackingEngine(fps, layout, depthInterval);
    log := [];
    NothingYet(fps, layout, engine.interval);
    for i := 0 to |video|
      invariant engine.Valid() && engine.fps == fps && engine.layout == layout && fresh(engine) && engine.interval >= 1
      invariant QueuesLived(fps, layout, engine.interval, video[..i], engine.View(), engine.lastDepthFrame, log)
    {
      var more := TrackQueueFrame(engine, video[i], video[..i], log);
      assert video[..i] + [video[i]] == video[..i + 1];
      log := log + more;
    }
    assert video[..|video|] == video;
  }

  lemma {:induction false} NothingYet(fps: real, l: Layout, interval: int)
    ensures forall k: Key :: QueueTables(map[], map[]).At(k) == NEW_MEMBER && MovesOf([], k) == []
    ensures forall k: Key :: QueueRun(fps, k, QueueFramesOf(l, [], k)) == (NEW_MEMBER, [])
    ensures forall q: string :: ReportsOf([], q) == []
    ensures DepthFrames(interval, -interval, Indices([])) == []
    ensures Latest(-interval, DepthFrames(interval, -interval, Indices([]))) == -interval
  {
  }

  lemma {:induction false} IndicesAppend(video: seq<FrameTracks>, i: nat)
    requires i < |video|
    ensures Indices(video[..i + 1]) == Indices(video[..i]) + [video[i].index]
  {
    assert video[..i + 1][..i] == video[..i];
  }
}
