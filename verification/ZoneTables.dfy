/** The zone engine's tables as a value: sessions, histories and counters, and what each pair sees of them. */
module ZoneTables {
  import opened Options
  import opened Sequences
  import opened Tracks
  import opened ZoneModel

  /** The configured zones; which points a polygon contains is not interpreted. */
  datatype Layout = Layout(zones: seq<string>, contains: (string, Point) -> bool) {

    /** The zones a point lies in; zones may overlap. */
    function ZonesForPoint(p: Point, among: seq<string>): seq<string> {
      if among == [] then []
      else
        var last := among[|among| - 1];
        ZonesForPoint(p, among[..|among| - 1]) + (if contains(last, p) then [last] else [])
    }

    lemma {:induction false} ZonesForPointExactly(p: Point, among: seq<string>, zone: string)
      ensures zone in ZonesForPoint(p, among) <==> zone in among && contains(zone, p)
    {
      if among != [] {
        ZonesForPointExactly(p, among[..|among| - 1], zone);
      }
    }

    /** How a list of visitors shows a pair. Zones that are not configured are never watched. */
    function SightOf(tracks: seq<Visitor>, k: Key): Sight {
      if tracks == [] || k.region !in zones then Unseen
      else if tracks[|tracks| - 1].track == k.track then
        if contains(k.region, tracks[|tracks| - 1].centroid) then Inside else Outside
      else SightOf(tracks[..|tracks| - 1], k)
    }

    /** A visitor is found under its track when tracks are distinct. */
    lemma {:induction false} SightOfVisitor(tracks: seq<Visitor>, i: nat, zone: string)
      requires i < |tracks| && Distinct(TrackIds(tracks)) && zone in zones
      ensures SightOf(tracks, Key(tracks[i].track, zone)) == if contains(zone, tracks[i].centroid) then Inside else Outside
    {
      var front := tracks[..|tracks| - 1];
      if i < |front| {
        SightOfVisitor(front, i, zone);
        TrackIdsAt(front, i);
      }
    }

    lemma {:induction false} SightUnseen(tracks: seq<Visitor>, k: Key)
      ensures SightOf(tracks, k).Unseen? <==> k.region !in zones || k.track !in TrackIds(tracks)
    {
      if tracks != [] {
        SightUnseen(tracks[..|tracks| - 1], k);
      }
    }
  }

  /** The visits of one zone, in order. */
  function VisitsIn(visits: seq<Visit>, zone: string): seq<Visit> {
    if visits == [] then []
    else
      var last := visits[|visits| - 1];
      VisitsIn(visits[..|visits| - 1], zone) + (if last.zone == zone then [last] else [])
  }

  /** The events of one pair, in order. */
  function EventsOf(events: seq<Event>, k: Key): seq<Event> {
    if events == [] then []
    else
      var last := events[|events| - 1];
      EventsOf(events[..|events| - 1], k) + (if last.track == k.track && last.zone == k.region then [last] else [])
  }

  datatype Tables = Tables(sessions: map<Key, Session>, histories: map<int, seq<Visit>>, lastSequence: map<Key, nat>) {

    function History(track: int): seq<Visit> {
      if track in histories then histories[track] else []
    }

    function LastSequence(k: Key): nat {
      if k in lastSequence then lastSequence[k] else 0
    }

    function Live(k: Key): Option<Session> {
      if k in sessions then Some(sessions[k]) else None
    }

    function PairOf(k: Key): Pair {
      Pair(Live(k), VisitsIn(History(k.track), k.region), LastSequence(k))
    }
  }

  // ---------------------------------------------------------------------------
  // Lists of visits and events seen through one pair
  // ---------------------------------------------------------------------------

  lemma {:induction false} VisitsAppend(visits: seq<Visit>, v: Visit, zone: string)
    ensures VisitsIn(visits + [v], zone) ==
      if v.zone == zone then VisitsIn(visits, zone) + [v] else VisitsIn(visits, zone)
  {
    assert (visits + [v])[..|visits|] == visits;
  }

  lemma {:induction false} EventsConcat(a: seq<Event>, b: seq<Event>, k: Key)
    ensures EventsOf(a + b, k) == EventsOf(a, k) + EventsOf(b, k)
  {
    if b == [] {
      assert a + b == a;
    } else {
      EventsConcat(a, b[..|b| - 1], k);
      assert (a + b)[..|a + b| - 1] == a + b[..|b| - 1];
    }
  }

  /** Events of one pair are all seen by it and by no other. */
  lemma {:induction false} EventsOfPair(events: seq<Event>, k: Key, j: Key)
    requires forall i | 0 <= i < |events| :: events[i].track == k.track && events[i].zone == k.region
    ensures EventsOf(events, j) == if j == k then events else []
  {
    if events != [] {
      EventsOfPair(events[..|events| - 1], k, j);
      assert events[..|events| - 1] + [events[|events| - 1]] == events;
    }
  }

  /** Change the latest open visit of one zone in a track's list. */
  function UpdateZone(visits: seq<Visit>, zone: string, c: Change): seq<Visit> {
    if visits == [] then []
    else
      var front, last := visits[..|visits| - 1], visits[|visits| - 1];
      if last.zone == zone && last.exitedFrame.None? then front + [Changed(last, c)]
      else UpdateZone(front, zone, c) + [last]
  }

  lemma {:induction false} UpdateOpenAppend(visits: seq<Visit>, v: Visit, c: Change)
    ensures UpdateOpen(visits + [v], c) ==
      if v.exitedFrame.None? then visits + [Changed(v, c)] else UpdateOpen(visits, c) + [v]
  {
    assert (visits + [v])[..|visits|] == visits;
  }

  lemma {:induction false} UpdateZoneAppend(visits: seq<Visit>, v: Visit, zone: string, c: Change)
    ensures UpdateZone(visits + [v], zone, c) ==
      if v.zone == zone && v.exitedFrame.None? then visits + [Changed(v, c)] else UpdateZone(visits, zone, c) + [v]
  {
    assert (visits + [v])[..|visits|] == visits;
  }

  /** One visit more, of any zone, open or closed. */
  lemma {:induction false} UpdateZoneSeenAppend(front: seq<Visit>, last: Visit, zone: string, c: Change)
    requires VisitsIn(UpdateZone(front, zone, c), zone) == UpdateOpen(VisitsIn(front, zone), c)
    ensures VisitsIn(UpdateZone(front + [last], zone, c), zone) == UpdateOpen(VisitsIn(front + [last], zone), c)
  {
    hide UpdateZone, VisitsIn, UpdateOpen;
    UpdateZoneAppend(front, last, zone, c);
    VisitsAppend(front, last, zone);
    if last.zone != zone {
      VisitsAppend(UpdateZone(front, zone, c), last, zone);
    } else {
      UpdateOpenAppend(VisitsIn(front, zone), last, c);
      VisitsAppend(front, Changed(last, c), zone);
      VisitsAppend(UpdateZone(front, zone, c), last, zone);
    }
  }

  /** Seen by that zone it is a change of its latest open visit. */
  lemma {:induction false} UpdateZoneSeen(visits: seq<Visit>, zone: string, c: Change)
    ensures VisitsIn(UpdateZone(visits, zone, c), zone) == UpdateOpen(VisitsIn(visits, zone), c)
  {
    if visits != [] {
      UpdateZoneSeen(visits[..|visits| - 1], zone, c);
      UpdateZoneSeenAppend(visits[..|visits| - 1], visits[|visits| - 1], zone, c);
      assert visits[..|visits| - 1] + [visits[|visits| - 1]] == visits;
    }
  }

  /** Other zones see nothing. */
  lemma {:induction false} UpdateZoneUnseen(visits: seq<Visit>, zone: string, c: Change, other: string)
    requires other != zone
    ensures VisitsIn(UpdateZone(visits, zone, c), other) == VisitsIn(visits, other)
  {
    if visits != [] {
      var front, last := visits[..|visits| - 1], visits[|visits| - 1];
      assert front + [last] == visits;
      UpdateZoneUnseen(front, zone, c, other);
      UpdateZoneAppend(front, last, zone, c);
      VisitsAppend(front, last, other);
      VisitsAppend(front, Changed(last, c), other);
      VisitsAppend(UpdateZone(front, zone, c), last, other);
      hide UpdateZone, VisitsIn;
    }
  }

  // ---------------------------------------------------------------------------
  // Changes of one pair, and a frame's progress over all pairs
  // ---------------------------------------------------------------------------

  ghost predicate SameElsewhere(a: Tables, b: Tables, k: Key) {
    forall j: Key | j != k :: b.PairOf(j) == a.PairOf(j)
  }

  lemma {:induction false} OnlyPair(a: Tables, b: Tables, k: Key)
    requires forall j: Key | j != k :: b.Live(j) == a.Live(j) && b.LastSequence(j) == a.LastSequence(j)
    requires forall t: int | t != k.track :: b.History(t) == a.History(t)
    requires forall z: string | z != k.region :: VisitsIn(b.History(k.track), z) == VisitsIn(a.History(k.track), z)
    ensures SameElsewhere(a, b, k)
  {
    hide Tables.Live, Tables.LastSequence, Tables.History, VisitsIn;
  }

  /** A pair has done this frame's step, with all its events of the frame. */
  ghost predicate Stepped(cfg: Config, a: Tables, b: Tables, log: seq<Event>, k: Key, f: Frame) {
    (b.PairOf(k), EventsOf(log, k)) == Step(cfg, k, a.PairOf(k), f)
  }

  /** A pair has not been touched yet. */
  ghost predicate Kept(a: Tables, b: Tables, log: seq<Event>, k: Key) {
    b.PairOf(k) == a.PairOf(k) && EventsOf(log, k) == []
  }

  /** The pairs in `done` have taken their step of this frame; the others are untouched. */
  ghost predicate Progress(cfg: Config, l: Layout, a: Tables, b: Tables, log: seq<Event>, f: FrameTracks,
                           done: set<Key>) {
    forall k: Key ::
      if k in done then Stepped(cfg, a, b, log, k, Frame(f.index, l.SightOf(f.tracks, k))) else Kept(a, b, log, k)
  }

  /** The events of one pair's step, appended to a log, as every pair sees them. */
  lemma {:induction false} LogStep(log: seq<Event>, more: seq<Event>, k: Key, j: Key)
    requires forall i | 0 <= i < |more| :: more[i].track == k.track && more[i].zone == k.region
    ensures EventsOf(log + more, j) == if j == k then EventsOf(log, k) + more else EventsOf(log, j)
  {
    hide EventsOf;
    EventsConcat(log, more, j);
    EventsOfPair(more, k, j);
    assert EventsOf(log, j) + [] == EventsOf(log, j);
  }

  /** One more pair takes its step. */
  lemma {:induction false} ProgressStep(cfg: Config, l: Layout, a: Tables, b: Tables, c: Tables, log: seq<Event>,
                                        more: seq<Event>, f: FrameTracks, done: set<Key>, k: Key)
    requires Progress(cfg, l, a, b, log, f, done) && k !in done && SameElsewhere(b, c, k)
    requires (c.PairOf(k), more) == Step(cfg, k, b.PairOf(k), Frame(f.index, l.SightOf(f.tracks, k)))
    requires forall i | 0 <= i < |more| :: more[i].track == k.track && more[i].zone == k.region
    ensures Progress(cfg, l, a, c, log + more, f, done + {k})
  {
    hide Tables.PairOf, EventsOf, Step, Layout.SightOf;
    assert Kept(a, b, log, k) && [] + more == more;
    forall j: Key
      ensures if j in done + {k} then Stepped(cfg, a, c, log + more, j, Frame(f.index, l.SightOf(f.tracks, j)))
              else Kept(a, c, log + more, j)
    {
      LogStep(log, more, k, j);
      assert j != k ==> c.PairOf(j) == b.PairOf(j);
    }
    hide Stepped, Kept, SameElsewhere;
  }

  /** Before the first visitor. */
  lemma {:induction false} ProgressBegins(cfg: Config, l: Layout, a: Tables, f: FrameTracks)
    ensures Progress(cfg, l, a, a, [], f, {})
  {
    hide Tables.PairOf, Step;
  }

  /** The pairs a list of visitors decides: every configured zone of every track in it. */
  ghost predicate DoneWith(l: Layout, tracks: seq<Visitor>, done: set<Key>) {
    forall k: Key :: k in done <==> k.region in l.zones && k.track in TrackIds(tracks)
  }

  /** The sessions in `ks` of tracks that are not seen miss one more frame. */
  function MissedIn(sessions: map<Key, Session>, seen: seq<int>, ks: set<Key>): map<Key, Session> {
    map k | k in sessions ::
      if k in ks && k.track !in seen then sessions[k].(missedFrames := sessions[k].missedFrames + 1) else sessions[k]
  }

  /** The sessions whose track has been missed for longer than the grace allows. */
  ghost predicate Overdue(cfg: Config, sessions: map<Key, Session>, seen: seq<int>, k: Key) {
    k in sessions && k.track !in seen && sessions[k].missedFrames > cfg.settings.grace
  }

  /** All pairs have taken their step, except that those in `closing` still have to end. */
  ghost predicate Awaiting(cfg: Config, l: Layout, a: Tables, b: Tables, log: seq<Event>, f: FrameTracks,
                           closing: set<Key>) {
    forall k: Key ::
      if k in closing then Closing(cfg, a, b, log, k, f.index)
      else Stepped(cfg, a, b, log, k, Frame(f.index, l.SightOf(f.tracks, k)))
  }

  ghost predicate Closing(cfg: Config, a: Tables, b: Tables, log: seq<Event>, k: Key, index: int) {
    && b.PairOf(k).live.Some? && EventsOf(log, k) == []
    && Step(cfg, k, a.PairOf(k), Frame(index, Unseen)) == End(cfg, k, b.PairOf(k), index, OcclusionTimeout)
  }

  /** What missing a frame means for a pair that is not seen. */
  lemma {:induction false} MissedPair(cfg: Config, b: Tables, c: Tables, seen: seq<int>, k: Key)
    requires c == b.(sessions := MissedIn(b.sessions, seen, b.sessions.Keys)) && k.track !in seen
    ensures !Overdue(cfg, c.sessions, seen, k) ==>
      forall index: int :: Step(cfg, k, b.PairOf(k), Frame(index, Unseen)) == (c.PairOf(k), [])
    ensures Overdue(cfg, c.sessions, seen, k) ==> c.PairOf(k).live.Some?
    ensures Overdue(cfg, c.sessions, seen, k) ==>
      forall index: int :: Step(cfg, k, b.PairOf(k), Frame(index, Unseen)) == End(cfg, k, c.PairOf(k), index, OcclusionTimeout)
  {
    hide VisitsIn, End;
  }

  lemma {:induction false} MissedOthers(b: Tables, c: Tables, seen: seq<int>, k: Key)
    requires c == b.(sessions := MissedIn(b.sessions, seen, b.sessions.Keys)) && k.track in seen
    ensures c.PairOf(k) == b.PairOf(k)
  {
    hide VisitsIn;
  }

  lemma {:induction false} NotLive(t: Tables, k: Key)
    requires k !in t.sessions
    ensures t.PairOf(k).live.None?
  {
  }

  /** After all visitors and the count of missed frames only the overdue sessions remain to be ended. */
  lemma {:induction false} AwaitingBegins(cfg: Config, l: Layout, a: Tables, b: Tables, c: Tables, log: seq<Event>,
                                          f: FrameTracks, done: set<Key>, closing: set<Key>)
    requires Progress(cfg, l, a, b, log, f, done) && DoneWith(l, f.tracks, done)
    requires forall k | k in b.sessions :: k.region in l.zones
    requires c == b.(sessions := MissedIn(b.sessions, TrackIds(f.tracks), b.sessions.Keys))
    requires forall k: Key :: k in closing <==> Overdue(cfg, c.sessions, TrackIds(f.tracks), k)
    ensures Awaiting(cfg, l, a, c, log, f, closing)
  {
    forall k: Key
      ensures if k in closing then Closing(cfg, a, c, log, k, f.index)
              else Stepped(cfg, a, c, log, k, Frame(f.index, l.SightOf(f.tracks, k)))
    {
      AwaitingPair(cfg, l, a, b, c, log, f, done, k);
    }
    hide Overdue, Stepped, Closing, Progress, DoneWith, MissedIn;
  }

  lemma {:induction false} AwaitingPair(cfg: Config, l: Layout, a: Tables, b: Tables, c: Tables, log: seq<Event>,
                                        f: FrameTracks, done: set<Key>, k: Key)
    requires Progress(cfg, l, a, b, log, f, done) && DoneWith(l, f.tracks, done)
    requires forall k | k in b.sessions :: k.region in l.zones
    requires c == b.(sessions := MissedIn(b.sessions, TrackIds(f.tracks), b.sessions.Keys))
    ensures if Overdue(cfg, c.sessions, TrackIds(f.tracks), k) then Closing(cfg, a, c, log, k, f.index)
            else Stepped(cfg, a, c, log, k, Frame(f.index, l.SightOf(f.tracks, k)))
  {
    hide Tables.PairOf, EventsOf, End, TrackIds, Layout.SightOf, MissedIn;
    var seen := TrackIds(f.tracks);
    l.SightUnseen(f.tracks, k);
    if k.track in seen {
      MissedOthers(b, c, seen, k);
      if k.region !in l.zones {
        assert Kept(a, b, log, k);
        NotLive(b, k);
      }
    } else {
      assert Kept(a, b, log, k);
      MissedPair(cfg, b, c, seen, k);
    }
  }

  /** One overdue session is ended. */
  lemma {:induction false} AwaitingStep(cfg: Config, l: Layout, a: Tables, b: Tables, c: Tables, log: seq<Event>,
                                        e: Event, f: FrameTracks, closing: set<Key>, k: Key)
    requires Awaiting(cfg, l, a, b, log, f, closing) && k in closing && SameElsewhere(b, c, k)
    requires Closing(cfg, a, b, log, k, f.index) && (c.PairOf(k), [e]) == End(cfg, k, b.PairOf(k), f.index, OcclusionTimeout)
    requires l.SightOf(f.tracks, k).Unseen? && e.track == k.track && e.zone == k.region
    ensures Awaiting(cfg, l, a, c, log + [e], f, closing - {k})
  {
    hide Tables.PairOf, EventsOf, Step, End, Layout.SightOf;
    forall j: Key
      ensures EventsOf(log + [e], j) == if j == k then EventsOf(log, k) + [e] else EventsOf(log, j)
    {
      LogStep(log, [e], k, j);
    }
    assert [] + [e] == [e];
  }
}
