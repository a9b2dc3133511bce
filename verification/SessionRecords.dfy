/**
 The sessions of a whole run of events told from the events: which signals reached a session, what it recorded of
 them, when it was last seen, and what is on record once it has ended.
 */
module SessionRecords {
  import opened Options
  import opened Sequences
  import opened OrderedMaps
  import opened SessionModel
  import opened SessionTheorems
  import opened SessionVisits

  // ---------------------------------------------------------------------------
  // The signals of a session
  // ---------------------------------------------------------------------------

  /** The event that started a session and the zone signals that have reached it since. */
  datatype Life = Life(start: Signal, mine: seq<Signal>)

  /** The event gives visitor `v` a session: an entry by drawing the next visitor, a re-entry by naming one. */
  predicate Enters(st: State, e: Signal, v: nat) {
    (e.kind.Entry? && v == st.nextVisitor) || (e.kind.Reentry? && e.visitor == Some(v))
  }

  /** The event is found to be about the active session of visitor `v`. */
  predicate Concerns(st: State, e: Signal, v: nat) {
    Resolve(st, e).Some? && Resolve(st, e).value.visitor == v
  }

  /** The session of visitor `v` so far: started by the last event that gave `v` one. */
  function LifeOf(cfg: Settings, events: seq<Signal>, v: nat): Option<Life> {
    if events == [] then None
    else
      var past, e := events[..|events| - 1], events[|events| - 1];
      LifeAfter(Cleanup(cfg, ProcessAll(cfg, past), e.at), LifeOf(cfg, past, v), e, v)
  }

  function LifeAfter(st: State, life: Option<Life>, e: Signal, v: nat): Option<Life> {
    if Enters(st, e, v) then Some(Life(e, []))
    else if life.Some? && IsZone(e) && Concerns(st, e, v) then Some(Life(life.value.start, life.value.mine + [e]))
    else life
  }

  /** A signal that finds something to record. */
  ghost predicate Noticed(past: seq<Signal>, e: Signal) {
    e.kind.ZoneDwell? || (e.kind.ZoneEnter? && Begins(past, e)) || (e.kind.ZoneExit? && InZone(past, e.zone))
  }

  /** A session is last seen at its start or at the last signal that found something to record. */
  ghost function LastSeen(life: Life): real
    decreases |life.mine|
  {
    if life.mine == [] then life.start.at
    else
      var past, last := life.mine[..|life.mine| - 1], life.mine[|life.mine| - 1];
      if Noticed(past, last) then last.at else LastSeen(life.(mine := past))
  }

  /** An active session as its signals tell it. */
  ghost predicate SessionTold(life: Life, s: VisitorSession) {
    && s.entryAt == life.start.at && s.track == life.start.track && s.lastSeenAt == LastSeen(life)
    && Told(life.mine, s.visits)
    && (life.start.kind.Entry? ==> s.totalDwell == SumDwell(s.visits))
  }

  // ---------------------------------------------------------------------------
  // One event more
  // ---------------------------------------------------------------------------

  lemma {:induction false} LastSeenAppend(start: Signal, mine: seq<Signal>, e: Signal)
    ensures LastSeen(Life(start, mine + [e])) == if Noticed(mine, e) then e.at else LastSeen(Life(start, mine))
  {
    assert (mine + [e])[..|mine|] == mine;
  }

  lemma {:induction false} SumDwellAppend(visits: seq<ZoneVisit>, v: ZoneVisit)
    ensures SumDwell(visits + [v]) == SumDwell(visits) + v.dwell
  {
    assert (visits + [v])[..|visits|] == visits;
  }

  /** What a zone signal changes of the session it is about. */
  ghost predicate Recorded(s: VisitorSession, e: Signal, t: VisitorSession) {
    && t == s.(visits := VisitsAfter(s.visits, e), lastSeenAt := t.lastSeenAt, totalDwell := t.totalDwell)
    && (s.totalDwell == SumDwell(s.visits) ==> t.totalDwell == SumDwell(t.visits))
    && t.lastSeenAt == (
      if e.kind.ZoneDwell? || (e.kind.ZoneEnter? && Shows(e) && !Visiting(s.visits, e.zone))
        || (e.kind.ZoneExit? && Visiting(s.visits, e.zone)) then e.at
      else s.lastSeenAt)
  }

  lemma {:induction false} NothingLeft(visits: seq<ZoneVisit>, zone: string, c: VisitChange)
    requires OneOpenPerZone(visits) && !Visiting(visits, zone)
    ensures UpdateVisit(visits, zone, c) == visits
  {
    OneOpenIn(visits, zone);
    UpdateExactly(visits, zone, c);
    VisitingSomewhere(visits, zone);
    hide OneOpenPerZone, Visiting, UpdateVisit;
  }

  /** A zone signal changes the session it is about, and no other. */
  lemma {:induction false} ZoneHandled(cfg: Settings, st: State, e: Signal, v: nat)
    requires GoodActive(st.active) && IsZone(e)
    ensures var after := Get(Handle(cfg, st, e).0.active, v);
      if Concerns(st, e, v) then Get(st.active, v).Some? && after.Some? && Recorded(Get(st.active, v).value, e, after.value)
      else after == Get(st.active, v)
  {
    hide Get, Set, Visiting, UpdateVisit, SumDwell, OneOpenPerZone;
    var found := Resolve(st, e);
    if found.Some? {
      ResolvedIsActive(st, e);
      var s := found.value;
      hide Resolve, GoodActive;
      var t := Handle(cfg, st, e).1.session;
      GetSet(st.active, s.visitor, t, v);
      if e.kind.ZoneEnter? {
        SumDwellAppend(s.visits, Begun(e, |s.visits|));
      } else if e.kind.ZoneExit? && !Visiting(s.visits, e.zone) {
        NothingLeft(s.visits, e.zone, Leave(e.at, e.dwell));
      }
    }
  }

  /** Who is active after an event, other than those whose zone signals it brings. */
  lemma {:induction false} OthersHandled(cfg: Settings, st: State, e: Signal, v: nat)
    requires GoodActive(st.active) && !IsZone(e)
    ensures var after := Get(Handle(cfg, st, e).0.active, v);
      if Enters(st, e, v) then
        && after.Some? && after.value.entryAt == e.at && after.value.track == e.track && after.value.lastSeenAt == e.at
        && after.value.visits == [] && (e.kind.Entry? ==> after.value.totalDwell == 0.0)
      else if e.kind.Exit? && Concerns(st, e, v) then after.None?
      else after == Get(st.active, v)
  {
    hide Get, Set, Resolve, GetSession, Closed, TrimTracks, GoodActive, Remove;
    if e.kind.Entry? || (e.kind.Reentry? && e.visitor.Some?) {
      var s := Handle(cfg, st, e).1.session;
      GetSet(st.active, s.visitor, s, v);
    } else if e.kind.Exit? && Resolve(st, e).Some? {
      ResolvedIsActive(st, e);
      CompleteActive(cfg, st, Resolve(st, e).value.visitor, e.at, Completed, v);
    }
  }

  lemma {:induction false} NewTold(e: Signal, s: VisitorSession)
    requires s.entryAt == e.at && s.track == e.track && s.lastSeenAt == e.at && s.visits == []
    requires e.kind.Entry? ==> s.totalDwell == 0.0
    ensures SessionTold(Life(e, []), s)
  {
    hide Told;
    NothingTold();
  }

  lemma {:induction false} RecordedTold(life: Life, s: VisitorSession, e: Signal, t: VisitorSession)
    requires IsZone(e) && SessionTold(life, s) && Recorded(s, e, t)
    ensures SessionTold(Life(life.start, life.mine + [e]), t)
  {
    ToldAppend(life.mine, s.visits, e);
    LastSeenAppend(life.start, life.mine, e);
    hide VisitsAfter, SumDwell, OneOpenPerZone, VisitsTold, LastSeen, InZone, Visiting;
  }

  /** After every run of events, the active sessions are what the events that reached them tell. */
  lemma {:induction false} ActiveTold(cfg: Settings, events: seq<Signal>, v: nat)
    ensures var s := Get(ProcessAll(cfg, events).active, v);
      s.Some? ==> LifeOf(cfg, events, v).Some? && SessionTold(LifeOf(cfg, events, v).value, s.value)
  {
    hide Inv, Handle, Cleanup, SessionTold, Get, Concerns, Enters, Recorded;
    if events == [] {
      NobodyYet(v);
    } else {
      var past, e := events[..|events| - 1], events[|events| - 1];
      var st := ProcessAll(cfg, past);
      ActiveTold(cfg, past, v);
      RunKeeps(cfg, past);
      CleanupExactly(cfg, st, e.at);
      var clean := Cleanup(cfg, st, e.at);
      GoodWithin(cfg, clean);
      StepTold(cfg, clean, LifeOf(cfg, past, v), e, v);
    }
  }

  lemma {:induction false} NobodyYet(v: nat)
    ensures Get(EMPTY.active, v).None?
  {
  }

  lemma {:induction false} GoodWithin(cfg: Settings, st: State)
    requires Inv(cfg, st)
    ensures GoodActive(st.active)
  {
  }

  lemma {:induction false} StepTold(cfg: Settings, st: State, life: Option<Life>, e: Signal, v: nat)
    requires GoodActive(st.active)
    requires Get(st.active, v).Some? ==> life.Some? && SessionTold(life.value, Get(st.active, v).value)
    ensures var s := Get(Handle(cfg, st, e).0.active, v);
      s.Some? ==> LifeAfter(st, life, e, v).Some? && SessionTold(LifeAfter(st, life, e, v).value, s.value)
  {
    hide GoodActive, Handle, SessionTold, Get, Recorded, Concerns;
    var after := Get(Handle(cfg, st, e).0.active, v);
    if IsZone(e) {
      ZoneHandled(cfg, st, e, v);
      if Concerns(st, e, v) {
        RecordedTold(life.value, Get(st.active, v).value, e, after.value);
      }
    } else {
      OthersHandled(cfg, st, e, v);
      if Enters(st, e, v) {
        NewTold(e, after.value);
      }
    }
  }

  // ---------------------------------------------------------------------------
  // Which session an event is about
  // ---------------------------------------------------------------------------

  /** The track is mapped to visitor `v`, who has an active session. */
  predicate Leads(st: State, track: Option<int>, v: nat) {
    track.Some? && Get(st.tracks, track.value) == Some(v) && Get(st.active, v).Some?
  }

  /** An event is about the active visitor its person's track leads to, or if there is none, the one its own track leads to. */
  lemma {:induction false} ConcernsExactly(st: State, e: Signal, v: nat)
    requires GoodActive(st.active)
    ensures Concerns(st, e, v) <==>
      Leads(st, e.person, v) || (Leads(st, e.track, v) && forall u: nat :: !Leads(st, e.person, u))
  {
    hide Get, OneOpenPerZone;
    forall track: Option<int>
      ensures LookUp(st, track).Some? && LookUp(st, track).value.visitor == v <==> Leads(st, track, v)
      ensures LookUp(st, track).None? <==> forall u: nat :: !Leads(st, track, u)
    {
      LookUpLeads(st, track, v);
    }
    hide LookUp, Leads, GoodActive;
  }

  lemma {:induction false} LookUpLeads(st: State, track: Option<int>, v: nat)
    requires GoodActive(st.active)
    ensures LookUp(st, track).Some? && LookUp(st, track).value.visitor == v <==> Leads(st, track, v)
    ensures LookUp(st, track).None? <==> forall u: nat :: !Leads(st, track, u)
  {
    hide Get, OneOpenPerZone, Unique;
    if LookUp(st, track).Some? {
      var u := Get(st.tracks, track.value).value;
      assert Good(Get(st.active, u).value, u) && Leads(st, track, u);
    }
  }

  /** Handing an event to the engine returns the session as it then is: active, or for an exit the last one completed. */
  lemma {:induction false} OutcomeMeans(cfg: Settings, st: State, e: Signal)
    requires GoodActive(st.active)
    ensures var (next, outcome) := Handle(cfg, st, e);
      && (outcome.BadVisitor? <==> e.kind.Reentry? && e.visitor.None?)
      && (outcome.NoSession? <==>
            e.kind.OtherKind? || (!e.kind.Entry? && !e.kind.Reentry? && forall v: nat :: !Concerns(st, e, v)))
      && (outcome.Changed? ==>
            var s := outcome.session;
            && (Enters(st, e, s.visitor) || Concerns(st, e, s.visitor))
            && if e.kind.Exit? then next.finished == st.finished + [s] && Get(next.active, s.visitor).None?
               else Get(next.active, s.visitor) == Some(s))
  {
    hide Get, Set, GetSession, TrimTracks, Visiting, UpdateVisit, SumDwell, CloseVisits, OneOpenPerZone, Remove;
    if Resolve(st, e).Some? {
      ResolvedIsActive(st, e);
      assert Concerns(st, e, Resolve(st, e).value.visitor);
      CompleteActive(cfg, st, Resolve(st, e).value.visitor, e.at, Completed, Resolve(st, e).value.visitor);
    }
    hide Resolve, GoodActive;
    var outcome := Handle(cfg, st, e).1;
    if outcome.Changed? {
      GetSet(st.active, outcome.session.visitor, outcome.session, outcome.session.visitor);
    }
  }

  /** The zone signal begins a visit of the session it is about. */
  predicate BeginsVisit(st: State, e: Signal) {
    e.kind.ZoneEnter? && Resolve(st, e).Some? && e.zone != "" && !Visiting(Resolve(st, e).value.visits, e.zone)
  }

  /** What an event makes of the mapping of a track, entries aside. */
  lemma {:induction false} TracksHandled(cfg: Settings, st: State, e: Signal, t: int)
    requires GoodActive(st.active) && !e.kind.Entry?
    ensures Get(Handle(cfg, st, e).0.tracks, t) ==
      if e.kind.Reentry? && e.visitor.Some? && e.track == Some(t) then e.visitor
      else if BeginsVisit(st, e) && e.track == Some(t) then Some(Resolve(st, e).value.visitor)
      else if e.kind.Exit? && Resolve(st, e).Some? && Resolve(st, e).value.track == Some(t) then None
      else Get(st.tracks, t)
  {
    hide Get, Set, Remove, GetSession, Visiting, UpdateVisit, SumDwell, CloseVisits, OneOpenPerZone;
    match e.kind
    case Reentry =>
      if e.track.Some? && e.visitor.Some? {
        GetSet(st.tracks, e.track.value, e.visitor.value, t);
      }
    case Exit =>
      if Resolve(st, e).Some? {
        ResolvedIsActive(st, e);
        TracksCompleted(cfg, st, Resolve(st, e).value, e.at, Completed, t);
      }
    case ZoneEnter =>
      if Resolve(st, e).Some? && e.track.Some? {
        GetSet(st.tracks, e.track.value, Resolve(st, e).value.visitor, t);
      }
    case _ =>
  }

  lemma {:induction false} TracksCompleted(cfg: Settings, st: State, s: VisitorSession, at: real, status: Status, t: int)
    requires Get(st.active, s.visitor) == Some(s)
    ensures Get(Complete(cfg, st, s.visitor, at, status).tracks, t) == if s.track == Some(t) then None else Get(st.tracks, t)
  {
    hide Get, Remove, CloseVisits, SumDwell;
    if s.track.Some? {
      GetRemove(st.tracks, s.track.value, t);
    }
  }

  /** Too many mappings: exactly those without an active session go, and then the oldest, until the bound is met. */
  lemma {:induction false} TrimExactly(cfg: Settings, tracks: seq<Binding<int, nat>>,
                                       active: seq<Binding<nat, VisitorSession>>, live: set<nat>)
    requires forall i: nat | i < |tracks| :: i in live <==> Get(active, tracks[i].value).Some?
    ensures var kept, left := ItemsAt(tracks, live), TrimTracks(cfg, tracks, active);
      && (|tracks| <= cfg.maxTracks ==> left == tracks)
      && (|tracks| > cfg.maxTracks >= |kept| ==> left == kept)
      && (|tracks| > cfg.maxTracks && |kept| > cfg.maxTracks ==>
            |left| == cfg.maxTracks && left == kept[|kept| - cfg.maxTracks..])
  {
    OnlyActiveExactly(tracks, active, live);
    hide OnlyActive, ItemsAt;
  }

  lemma {:induction false} OnlyActiveExactly(tracks: seq<Binding<int, nat>>, active: seq<Binding<nat, VisitorSession>>,
                                             live: set<nat>)
    requires forall i: nat | i < |tracks| :: i in live <==> Get(active, tracks[i].value).Some?
    ensures OnlyActive(tracks, active) == ItemsAt(tracks, live)
  {
    hide Get;
    if tracks != [] {
      OnlyActiveExactly(tracks[..|tracks| - 1], active, live);
    }
  }

  /** An entry under a track that was not mapped is found by that track, however many mappings there were. */
  lemma {:induction false} EntryIsFound(cfg: Settings, st: State, e: Signal)
    requires e.kind.Entry? && e.track.Some? && Get(st.tracks, e.track.value).None? && cfg.maxTracks > 0
    ensures Leads(HandleEntry(cfg, st, e).0, e.track, st.nextVisitor)
  {
    var s := NewSession(st.nextVisitor, st.nextSequence + 1, e, 0.0);
    var active, b := Set(st.active, s.visitor, s), Binding(e.track.value, s.visitor);
    NewIsLast(st.tracks, b.key, b.value);
    var next := HandleEntry(cfg, st, e).0;
    assert next.active == active && next.tracks == TrimTracks(cfg, Set(st.tracks, b.key, b.value), active);
    hide HandleEntry, Get, Set, TrimTracks;
    GetSet(st.active, s.visitor, s, s.visitor);
    TrimKeepsLast(cfg, st.tracks, b, active);
  }

  lemma {:induction false} NewIsLast(tracks: seq<Binding<int, nat>>, t: int, v: nat)
    requires Get(tracks, t).None?
    ensures Set(tracks, t, v) == tracks + [Binding(t, v)]
  {
  }

  lemma {:induction false} TrimKeepsLast(cfg: Settings, tracks: seq<Binding<int, nat>>, b: Binding<int, nat>,
                                         active: seq<Binding<nat, VisitorSession>>)
    requires cfg.maxTracks > 0 && Get(active, b.value).Some?
    ensures Get(TrimTracks(cfg, tracks + [b], active), b.key) == Some(b.value)
  {
    assert (tracks + [b])[..|tracks|] == tracks;
    var live := OnlyActive(tracks, active);
    assert OnlyActive(tracks + [b], active) == live + [b];
    GetAppend(tracks, b, b.key);
    GetAppend(live, b, b.key);
    if |live + [b]| > cfg.maxTracks {
      var d := |live + [b]| - cfg.maxTracks;
      assert (live + [b])[d..] == live[d..] + [b];
      GetAppend(live[d..], b, b.key);
    }
  }

  /** A visitor's session is the active one, or without one the last of the completed ones on record. */
  lemma {:induction false} SessionFound(st: State, v: nat, i: nat)
    requires i < |st.completed| && IsLastOf(st.completed, v, i)
    ensures GetSession(st, v) == if Get(st.active, v).Some? then Get(st.active, v) else Some(st.completed[i])
  {
    FindsLatest(st.completed, v, i);
  }

  predicate IsLastOf(sessions: seq<VisitorSession>, v: nat, i: nat)
    requires i < |sessions|
  {
    sessions[i].visitor == v && forall j | i < j < |sessions| :: sessions[j].visitor != v
  }

  lemma {:induction false} FindsLatest(sessions: seq<VisitorSession>, v: nat, i: nat)
    requires i < |sessions| && IsLastOf(sessions, v, i)
    ensures FindLatest(sessions, v) == Some(sessions[i])
  {
    if i < |sessions| - 1 {
      FindsLatest(sessions[..|sessions| - 1], v, i);
    }
  }

  // ---------------------------------------------------------------------------
  // Who stays active
  // ---------------------------------------------------------------------------

  /**
   After an event, visitor `v` is active exactly if the event gave `v` a session, or `v` was active, had been seen within
   the timeout, and the event is not an exit found to be about `v`.
   */
  lemma {:induction false} ActiveExactly(cfg: Settings, st: State, e: Signal, v: nat)
    requires Inv(cfg, st)
    ensures var clean := Cleanup(cfg, st, e.at);
      Get(Process(cfg, st, e).0.active, v).Some? <==>
        || Enters(clean, e, v)
        || (&& Get(st.active, v).Some?
            && e.at - Get(st.active, v).value.lastSeenAt <= cfg.timeout
            && !(e.kind.Exit? && Concerns(clean, e, v)))
  {
    hide Inv, Handle, Cleanup, Get, Concerns, Recorded;
    CleanupExactly(cfg, st, e.at);
    var clean := Cleanup(cfg, st, e.at);
    GoodWithin(cfg, clean);
    if IsZone(e) {
      ZoneHandled(cfg, clean, e, v);
    } else {
      OthersHandled(cfg, clean, e, v);
    }
  }

  // ---------------------------------------------------------------------------
  // Sessions that have ended
  // ---------------------------------------------------------------------------

  /** Session `f` is the session its visitor had after the events, closed at the given time. */
  ghost predicate Ended(cfg: Settings, events: seq<Signal>, at: real, f: VisitorSession) {
    var s := Get(ProcessAll(cfg, events).active, f.visitor);
    var life := LifeOf(cfg, events, f.visitor);
    && s.Some? && life.Some?
    && f.sequence == s.value.sequence
    && f.track == life.value.start.track && f.entryAt == life.value.start.at
    && f.exitAt == Some(at) && f.lastSeenAt == at
    && VisitsClosed(life.value.mine, f.visits, at) && f.totalDwell == SumDwell(f.visits)
  }

  /** Event `n` ended session `f`: its visitor had been idle for too long, or it is the visitor's exit. */
  ghost predicate EndedAt(cfg: Settings, events: seq<Signal>, n: nat, f: VisitorSession) {
    && n < |events|
    && Ended(cfg, events[..n], events[n].at, f)
    && var st := ProcessAll(cfg, events[..n]);
       if events[n].at - Get(st.active, f.visitor).value.lastSeenAt > cfg.timeout then f.status.TimedOut?
       else f.status.Completed? && events[n].kind.Exit? && Concerns(Cleanup(cfg, st, events[n].at), events[n], f.visitor)
  }

  lemma {:induction false} ClosedEnded(cfg: Settings, events: seq<Signal>, v: nat, at: real, status: Status)
    requires Get(ProcessAll(cfg, events).active, v).Some?
    ensures var s := Get(ProcessAll(cfg, events).active, v).value;
      s.visitor == v && Ended(cfg, events, at, Closed(s, at, status))
  {
    var s := Get(ProcessAll(cfg, events).active, v).value;
    RunKeeps(cfg, events);
    assert Good(s, v);
    ActiveTold(cfg, events, v);
    var life := LifeOf(cfg, events, v).value;
    ClosingTold(life.mine, s.visits, at);
    hide Inv, ProcessAll, Get, LifeOf, CloseVisits, SumDwell, VisitsTold, VisitsClosed, OneOpenPerZone, InZone, Visiting;
  }

  /** Completing some visitors' sessions records each of them closed, and nothing else. */
  lemma {:induction false} CompleteAllAdds(cfg: Settings, st: State, vs: seq<nat>, at: real, status: Status, f: VisitorSession)
    requires f in CompleteAll(cfg, st, vs, at, status).finished
    requires Inv(cfg, st) && !status.Active?
    ensures f in st.finished
      || exists v | v in vs :: Get(st.active, v).Some? && f == Closed(Get(st.active, v).value, at, status)
  {
    hide Inv, Get, Closed, Remove;
    if vs != [] {
      var front, last := vs[..|vs| - 1], vs[|vs| - 1];
      var before := CompleteAll(cfg, st, front, at, status);
      CompleteAllKeeps(cfg, st, front, at, status);
      if f in before.finished {
        CompleteAllAdds(cfg, st, front, at, status, f);
      } else {
        assert Get(before.active, last).Some? && f == Closed(Get(before.active, last).value, at, status);
        assert last in vs && Get(st.active, last) == Get(before.active, last);
      }
    }
  }

  lemma {:induction false} TimeoutEnds(cfg: Settings, past: seq<Signal>, e: Signal, f: VisitorSession)
    requires f in Cleanup(cfg, ProcessAll(cfg, past), e.at).finished && f !in ProcessAll(cfg, past).finished
    ensures EndedAt(cfg, past + [e], |past|, f)
  {
    var st := ProcessAll(cfg, past);
    assert (past + [e])[..|past|] == past;
    RunKeeps(cfg, past);
    var stale := StaleVisitors(cfg, st.active, e.at);
    CompleteAllAdds(cfg, st, stale, e.at, TimedOut, f);
    var v :| v in stale && Get(st.active, v).Some? && f == Closed(Get(st.active, v).value, e.at, TimedOut);
    ClosedEnded(cfg, past, v, e.at, TimedOut);
    hide Get, ProcessAll, LifeOf, Ended, GoodActive, Window, Numbered, Cleanup, CloseVisits, SumDwell;
    UniqueActive(cfg, st);
    StaleVisitorsExactly(cfg, st.active, e.at, v);
  }

  lemma {:induction false} UniqueActive(cfg: Settings, st: State)
    requires Inv(cfg, st)
    ensures Unique(st.active)
  {
  }

  lemma {:induction false} ExitEnds(cfg: Settings, past: seq<Signal>, e: Signal, f: VisitorSession)
    requires var clean := Cleanup(cfg, ProcessAll(cfg, past), e.at);
      f in Handle(cfg, clean, e).0.finished && f !in clean.finished
    ensures EndedAt(cfg, past + [e], |past|, f)
  {
    var st := ProcessAll(cfg, past);
    var clean := Cleanup(cfg, st, e.at);
    assert (past + [e])[..|past|] == past;
    RunKeeps(cfg, past);
    CleanupExactly(cfg, st, e.at);
    GoodWithin(cfg, clean);
    var v := ExitRecords(cfg, clean, e, f);
    ClosedEnded(cfg, past, v, e.at, Completed);
    hide Get, ProcessAll, LifeOf, Ended, Inv, Cleanup, CloseVisits, SumDwell, Concerns;
  }

  /** Only an exit records a session when it is handled: the one it is found to be about. */
  lemma {:induction false} ExitRecords(cfg: Settings, st: State, e: Signal, f: VisitorSession) returns (v: nat)
    requires GoodActive(st.active) && f in Handle(cfg, st, e).0.finished && f !in st.finished
    ensures e.kind.Exit? && Concerns(st, e, v) && Get(st.active, v).Some?
    ensures f == Closed(Get(st.active, v).value, e.at, Completed)
  {
    hide Get, Set, Remove, Resolve, GetSession, Closed, TrimTracks, GoodActive, Visiting, UpdateVisit, SumDwell;
    ResolvedIsActive(st, e);
    v := Resolve(st, e).value.visitor;
  }

  /** A session an event newly records has been ended by that event. */
  lemma {:induction false} StepEnds(cfg: Settings, past: seq<Signal>, e: Signal, f: VisitorSession)
    requires f in ProcessAll(cfg, past + [e]).finished && f !in ProcessAll(cfg, past).finished
    ensures EndedAt(cfg, past + [e], |past|, f)
  {
    assert (past + [e])[..|past|] == past;
    var clean := Cleanup(cfg, ProcessAll(cfg, past), e.at);
    assert ProcessAll(cfg, past + [e]) == Handle(cfg, clean, e).0;
    hide Handle, Cleanup, EndedAt, ProcessAll;
    if f in clean.finished {
      TimeoutEnds(cfg, past, e, f);
    } else {
      ExitEnds(cfg, past, e, f);
    }
  }

  /** Every session ever recorded was ended by an event, and holds what the events up to then tell. */
  lemma {:induction false} FinishedTold(cfg: Settings, events: seq<Signal>, f: VisitorSession)
    requires f in ProcessAll(cfg, events).finished
    ensures exists n: nat :: EndedAt(cfg, events, n, f)
  {
    assert events != [];
    var past, e := events[..|events| - 1], events[|events| - 1];
    assert past + [e] == events;
    hide ProcessAll;
    if f in ProcessAll(cfg, past).finished {
      FinishedTold(cfg, past, f);
      var n: nat :| EndedAt(cfg, past, n, f);
      assert past[..n] == events[..n] && past[n] == events[n];
      assert EndedAt(cfg, events, n, f);
    } else {
      StepEnds(cfg, past, e, f);
    }
  }

  /** Closing all sessions at the end of a run records each of them as the events tell it, and nothing else. */
  lemma {:induction false} ClosingRecords(cfg: Settings, events: seq<Signal>, at: real, status: Status, f: VisitorSession)
    requires !status.Active?
    requires f in CloseAllActive(cfg, ProcessAll(cfg, events), at, status).finished
    ensures f in ProcessAll(cfg, events).finished || (Ended(cfg, events, at, f) && f.status == status)
  {
    var st := ProcessAll(cfg, events);
    RunKeeps(cfg, events);
    CompleteAllAdds(cfg, st, Keys(st.active), at, status, f);
    if f !in st.finished {
      var v :| v in Keys(st.active) && Get(st.active, v).Some? && f == Closed(Get(st.active, v).value, at, status);
      ClosedEnded(cfg, events, v, at, status);
    }
  }
}
