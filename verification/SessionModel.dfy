/**
 What one pipeline event does to the visitor sessions of a store. Visitor ids are drawn from a supply that
 never repeats; times are seconds.
 */
module SessionModel {
  import opened Options
  import opened OrderedMaps
  import opened BoundedQueues

  datatype Status = Active | Completed | TimedOut

  datatype ZoneVisit = ZoneVisit(zone: string, sequence: int, enteredAt: real, exitedAt: Option<real>, dwell: real,
                                 dwellEvents: nat)

  datatype VisitorSession = VisitorSession(visitor: nat, sequence: nat, status: Status, track: Option<int>, entryAt: real,
                                           exitAt: Option<real>, lastSeenAt: real, visits: seq<ZoneVisit>, totalDwell: real)

  datatype Kind = Entry | Reentry | Exit | ZoneEnter | ZoneExit | ZoneDwell | OtherKind

  /** A pipeline event; `person` is the track named by a person id of the form "track-N". */
  datatype Signal = Signal(kind: Kind, at: real, track: Option<int>, person: Option<int>, visitor: Option<nat>, zone: string,
                           sequence: Option<int>, dwell: real)

  datatype Settings = Settings(timeout: real, maxCompleted: nat, maxTracks: nat)

  /**
   The engine's tables, and what its history has been: every session ever completed, in order, how many
   entries and re-entries were handled, and how many re-entries replaced a session that was still active.
   */
  datatype State = State(active: seq<Binding<nat, VisitorSession>>, completed: seq<VisitorSession>,
                         tracks: seq<Binding<int, nat>>, nextSequence: nat, nextVisitor: nat, finished: seq<VisitorSession>,
                         entries: nat, reentries: nat, overwritten: nat)

  const EMPTY := State([], [], [], 0, 0, [], 0, 0, 0)

  datatype Outcome = Changed(session: VisitorSession) | NoSession | BadVisitor

  // ---------------------------------------------------------------------------
  // Zone visits
  // ---------------------------------------------------------------------------

  function Larger(x: real, y: real): real {
    if x < y then y else x
  }

  function SumDwell(visits: seq<ZoneVisit>): real {
    if visits == [] then 0.0 else SumDwell(visits[..|visits| - 1]) + visits[|visits| - 1].dwell
  }

  /** Whether a zone has an open visit. */
  predicate Visiting(visits: seq<ZoneVisit>, zone: string) {
    visits != [] &&
    ((visits[|visits| - 1].zone == zone && visits[|visits| - 1].exitedAt.None?) || Visiting(visits[..|visits| - 1], zone))
  }

  datatype VisitChange = Leave(at: real, dwell: real) | Dwell(dwell: real)

  function ChangedVisit(v: ZoneVisit, c: VisitChange): ZoneVisit {
    match c
    case Leave(at, dwell) => v.(exitedAt := Some(at), dwell := Larger(v.dwell, dwell))
    case Dwell(dwell) => v.(dwell := Larger(v.dwell, dwell), dwellEvents := v.dwellEvents + 1)
  }

  /** Change the latest open visit of a zone. */
  function UpdateVisit(visits: seq<ZoneVisit>, zone: string, c: VisitChange): seq<ZoneVisit> {
    if visits == [] then []
    else
      var front, last := visits[..|visits| - 1], visits[|visits| - 1];
      if last.zone == zone && last.exitedAt.None? then front + [ChangedVisit(last, c)]
      else UpdateVisit(front, zone, c) + [last]
  }

  function CloseVisit(v: ZoneVisit, at: real): ZoneVisit {
    if v.exitedAt.Some? then v
    else v.(exitedAt := Some(at), dwell := if v.dwell <= 0.0 then Larger(0.0, at - v.enteredAt) else v.dwell)
  }

  function CloseVisits(visits: seq<ZoneVisit>, at: real): seq<ZoneVisit> {
    if visits == [] then [] else CloseVisits(visits[..|visits| - 1], at) + [CloseVisit(visits[|visits| - 1], at)]
  }

  // ---------------------------------------------------------------------------
  // Completing sessions
  // ---------------------------------------------------------------------------

  function Closed(s: VisitorSession, at: real, status: Status): VisitorSession {
    s.(status := status, exitAt := if s.exitAt.Some? then s.exitAt else Some(at), lastSeenAt := at,
       visits := CloseVisits(s.visits, at), totalDwell := SumDwell(CloseVisits(s.visits, at)))
  }

  function Complete(cfg: Settings, st: State, visitor: nat, at: real, status: Status): State {
    var found := Get(st.active, visitor);
    if found.None? then st
    else
      var s := Closed(found.value, at, status);
      st.(active := Remove(st.active, visitor),
          tracks := if s.track.Some? then Remove(st.tracks, s.track.value) else st.tracks,
          completed := Push(st.completed, s, cfg.maxCompleted),
          finished := st.finished + [s])
  }

  function CompleteAll(cfg: Settings, st: State, visitors: seq<nat>, at: real, status: Status): State {
    if visitors == [] then st
    else Complete(cfg, CompleteAll(cfg, st, visitors[..|visitors| - 1], at, status), visitors[|visitors| - 1], at, status)
  }

  predicate Stale(cfg: Settings, s: VisitorSession, now: real) {
    now - s.lastSeenAt > cfg.timeout
  }

  function StaleVisitors(cfg: Settings, active: seq<Binding<nat, VisitorSession>>, now: real): seq<nat> {
    if active == [] then []
    else
      var last := active[|active| - 1];
      StaleVisitors(cfg, active[..|active| - 1], now) + (if Stale(cfg, last.value, now) then [last.key] else [])
  }

  function Cleanup(cfg: Settings, st: State, now: real): State {
    CompleteAll(cfg, st, StaleVisitors(cfg, st.active, now), now, TimedOut)
  }

  function Keys(active: seq<Binding<nat, VisitorSession>>): seq<nat> {
    if active == [] then [] else Keys(active[..|active| - 1]) + [active[|active| - 1].key]
  }

  function CloseAllActive(cfg: Settings, st: State, at: real, status: Status): State {
    CompleteAll(cfg, st, Keys(st.active), at, status)
  }

  // ---------------------------------------------------------------------------
  // Handling events
  // ---------------------------------------------------------------------------

  function OnlyActive(tracks: seq<Binding<int, nat>>,
                      active: seq<Binding<nat, VisitorSession>>): seq<Binding<int, nat>> {
    if tracks == [] then []
    else
      var last := tracks[|tracks| - 1];
      OnlyActive(tracks[..|tracks| - 1], active) + (if Get(active, last.value).Some? then [last] else [])
  }

  /** Too many track mappings: first those without an active session go, then the oldest. */
  function TrimTracks(cfg: Settings, tracks: seq<Binding<int, nat>>, active: seq<Binding<nat, VisitorSession>>)
    : seq<Binding<int, nat>>
  {
    if |tracks| <= cfg.maxTracks then tracks
    else
      var live := OnlyActive(tracks, active);
      if |live| > cfg.maxTracks then live[|live| - cfg.maxTracks..] else live
  }

  function NewSession(visitor: nat, sequence: nat, e: Signal, totalDwell: real): VisitorSession {
    VisitorSession(visitor, sequence, Active, e.track, e.at, None, e.at, [], totalDwell)
  }

  function HandleEntry(cfg: Settings, st: State, e: Signal): (State, Outcome) {
    var s := NewSession(st.nextVisitor, st.nextSequence + 1, e, 0.0);
    var active := Set(st.active, s.visitor, s);
    var tracks :=
      if e.track.Some? then TrimTracks(cfg, Set(st.tracks, e.track.value, s.visitor), active) else st.tracks;
    (st.(active := active, tracks := tracks, nextSequence := s.sequence, nextVisitor := s.visitor + 1,
         entries := st.entries + 1),
     Changed(s))
  }

  /** The latest of some sessions that is a visitor's. */
  function FindLatest(sessions: seq<VisitorSession>, visitor: nat): Option<VisitorSession> {
    if sessions == [] then None
    else if sessions[|sessions| - 1].visitor == visitor then Some(sessions[|sessions| - 1])
    else FindLatest(sessions[..|sessions| - 1], visitor)
  }

  function GetSession(st: State, visitor: nat): Option<VisitorSession> {
    if Get(st.active, visitor).Some? then Get(st.active, visitor) else FindLatest(st.completed, visitor)
  }

  /** A returning visitor keeps the sequence number of the session still on record, if there is one. */
  function Resume(st: State, visitor: nat, e: Signal): (State, Outcome) {
    var prior := GetSession(st, visitor);
    var sequence := if prior.Some? then prior.value.sequence else st.nextSequence + 1;
    var s := NewSession(visitor, sequence, e, if prior.Some? then prior.value.totalDwell else 0.0);
    (st.(active := Set(st.active, visitor, s),
         tracks := if e.track.Some? then Set(st.tracks, e.track.value, visitor) else st.tracks,
         nextSequence := if prior.Some? then st.nextSequence else sequence,
         nextVisitor := if visitor >= st.nextVisitor then visitor + 1 else st.nextVisitor,
         reentries := st.reentries + 1,
         overwritten := st.overwritten + (if Get(st.active, visitor).Some? then 1 else 0)),
     Changed(s))
  }

  function LookUp(st: State, track: Option<int>): Option<VisitorSession> {
    if track.None? then None
    else
      var visitor := Get(st.tracks, track.value);
      if visitor.None? then None else Get(st.active, visitor.value)
  }

  /** The active session an event is about: by person id first, then by track. */
  function Resolve(st: State, e: Signal): Option<VisitorSession> {
    if LookUp(st, e.person).Some? then LookUp(st, e.person) else LookUp(st, e.track)
  }

  function Touch(st: State, s: VisitorSession): State {
    st.(active := Set(st.active, s.visitor, s))
  }

  function HandleExit(cfg: Settings, st: State, e: Signal): (State, Outcome) {
    var found := Resolve(st, e);
    if found.None? then (st, NoSession)
    else (Complete(cfg, st, found.value.visitor, e.at, Completed), Changed(Closed(found.value, e.at, Completed)))
  }

  function HandleZoneEnter(st: State, e: Signal): (State, Outcome) {
    var found := Resolve(st, e);
    if found.None? then (st, NoSession)
    else if e.zone == "" || Visiting(found.value.visits, e.zone) then (st, Changed(found.value))
    else
      var sequence := if e.sequence.Some? then e.sequence.value else |found.value.visits| + 1;
      var s := found.value.(visits := found.value.visits + [ZoneVisit(e.zone, sequence, e.at, None, 0.0, 0)],
                            lastSeenAt := e.at);
      (Touch(st, s).(tracks := if e.track.Some? then Set(st.tracks, e.track.value, s.visitor) else st.tracks), Changed(s))
  }

  function HandleZoneExit(st: State, e: Signal): (State, Outcome) {
    var found := Resolve(st, e);
    if found.None? then (st, NoSession)
    else if !Visiting(found.value.visits, e.zone) then (st, Changed(found.value))
    else
      var visits := UpdateVisit(found.value.visits, e.zone, Leave(e.at, e.dwell));
      var s := found.value.(visits := visits, totalDwell := SumDwell(visits), lastSeenAt := e.at);
      (Touch(st, s), Changed(s))
  }

  function HandleZoneDwell(st: State, e: Signal): (State, Outcome) {
    var found := Resolve(st, e);
    if found.None? then (st, NoSession)
    else
      var sequence := if e.sequence.Some? then e.sequence.value else 1;
      var begun := if Visiting(found.value.visits, e.zone) then found.value.visits
                   else found.value.visits + [ZoneVisit(e.zone, sequence, e.at, None, 0.0, 0)];
      var visits := UpdateVisit(begun, e.zone, Dwell(e.dwell));
      var s := found.value.(visits := visits, totalDwell := SumDwell(visits), lastSeenAt := e.at);
      (Touch(st, s), Changed(s))
  }

  function Handle(cfg: Settings, st: State, e: Signal): (State, Outcome) {
    match e.kind
    case Entry => HandleEntry(cfg, st, e)
    case Reentry => if e.visitor.None? then (st, BadVisitor) else Resume(st, e.visitor.value, e)
    case Exit => HandleExit(cfg, st, e)
    case ZoneEnter => HandleZoneEnter(st, e)
    case ZoneExit => HandleZoneExit(st, e)
    case ZoneDwell => HandleZoneDwell(st, e)
    case OtherKind => (st, NoSession)
  }

  /** Every event first ends the sessions that have been idle for too long. */
  function Process(cfg: Settings, st: State, e: Signal): (State, Outcome) {
    Handle(cfg, Cleanup(cfg, st, e.at), e)
  }

  /** Going on from a state. */
  function ProcessFrom(cfg: Settings, st: State, events: seq<Signal>): State {
    if events == [] then st
    else Process(cfg, ProcessFrom(cfg, st, events[..|events| - 1]), events[|events| - 1]).0
  }

  function ProcessAll(cfg: Settings, events: seq<Signal>): State {
    ProcessFrom(cfg, EMPTY, events)
  }
}
