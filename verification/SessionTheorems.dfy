/** What every event keeps of the visitor sessions, and what holds after any run of events. */
module SessionTheorems {
  import opened Options
  import opened OrderedMaps
  import opened BoundedQueues
  import opened SessionModel

  // ---------------------------------------------------------------------------
  // Visits of one session
  // ---------------------------------------------------------------------------

  function OpenCount(visits: seq<ZoneVisit>, zone: string): nat {
    if visits == [] then 0
    else
      var last := visits[|visits| - 1];
      OpenCount(visits[..|visits| - 1], zone) + (if last.zone == zone && last.exitedAt.None? then 1 else 0)
  }

  ghost predicate OneOpenPerZone(visits: seq<ZoneVisit>) {
    forall zone: string :: OpenCount(visits, zone) <= 1
  }

  predicate AllEnded(visits: seq<ZoneVisit>) {
    forall i | 0 <= i < |visits| :: visits[i].exitedAt.Some?
  }

  lemma {:induction false} OpenCountAppend(visits: seq<ZoneVisit>, v: ZoneVisit, zone: string)
    ensures OpenCount(visits + [v], zone) == OpenCount(visits, zone) + (if v.zone == zone && v.exitedAt.None? then 1 else 0)
  {
    assert (visits + [v])[..|visits|] == visits;
  }

  lemma {:induction false} VisitingCounts(visits: seq<ZoneVisit>, zone: string)
    ensures Visiting(visits, zone) <==> OpenCount(visits, zone) > 0
  {
    if visits != [] {
      VisitingCounts(visits[..|visits| - 1], zone);
    }
  }

  lemma {:induction false} UpdateVisitCount(visits: seq<ZoneVisit>, zone: string, c: VisitChange, z: string)
    ensures OpenCount(UpdateVisit(visits, zone, c), z) <= OpenCount(visits, z)
  {
    if visits != [] {
      var front, last := visits[..|visits| - 1], visits[|visits| - 1];
      UpdateVisitCount(front, zone, c, z);
      if last.zone == zone && last.exitedAt.None? {
        OpenCountAppend(front, ChangedVisit(last, c), z);
      } else {
        OpenCountAppend(UpdateVisit(front, zone, c), last, z);
      }
    }
  }

  lemma {:induction false} UpdateKeepsOneOpen(visits: seq<ZoneVisit>, zone: string, c: VisitChange)
    requires OneOpenPerZone(visits)
    ensures OneOpenPerZone(UpdateVisit(visits, zone, c))
  {
    forall z: string
      ensures OpenCount(UpdateVisit(visits, zone, c), z) <= 1
    {
      UpdateVisitCount(visits, zone, c, z);
    }
  }

  lemma {:induction false} OpenKeepsOneOpen(visits: seq<ZoneVisit>, v: ZoneVisit)
    requires OneOpenPerZone(visits) && !Visiting(visits, v.zone)
    ensures OneOpenPerZone(visits + [v])
  {
    VisitingCounts(visits, v.zone);
    forall z: string
      ensures OpenCount(visits + [v], z) <= 1
    {
      OpenCountAppend(visits, v, z);
    }
  }

  lemma {:induction false} CloseVisitsCloses(visits: seq<ZoneVisit>, at: real)
    ensures AllEnded(CloseVisits(visits, at)) && |CloseVisits(visits, at)| == |visits|
  {
    if visits != [] {
      CloseVisitsCloses(visits[..|visits| - 1], at);
    }
  }

  // ---------------------------------------------------------------------------
  // Well-formed sessions
  // ---------------------------------------------------------------------------

  /** An active session: not ended, at most one open visit per zone, filed under its visitor. */
  ghost predicate Good(s: VisitorSession, visitor: nat) {
    s.visitor == visitor && s.status.Active? && s.exitAt.None? && OneOpenPerZone(s.visits)
  }

  /** A completed session: ended when it was last seen, all visits closed, its dwell the sum over its visits. */
  ghost predicate Sealed(s: VisitorSession) {
    && !s.status.Active? && s.exitAt == Some(s.lastSeenAt) && AllEnded(s.visits) && s.totalDwell == SumDwell(s.visits)
  }

  ghost predicate GoodActive(active: seq<Binding<nat, VisitorSession>>) {
    Unique(active) && forall v: nat | Get(active, v).Some? :: Good(Get(active, v).value, v)
  }

  /** The completed queue is the tail of all completions, as long as its bound allows. */
  ghost predicate Window(cfg: Settings, completed: seq<VisitorSession>, finished: seq<VisitorSession>) {
    && |completed| == (if |finished| <= cfg.maxCompleted then |finished| else cfg.maxCompleted)
    && completed == finished[|finished| - |completed|..]
    && forall i | 0 <= i < |finished| :: Sealed(finished[i])
  }

  lemma {:induction false} ClosedIsSealed(s: VisitorSession, at: real, status: Status)
    requires s.exitAt.None? && !status.Active?
    ensures Sealed(Closed(s, at, status))
  {
    CloseVisitsCloses(s.visits, at);
  }

  lemma {:induction false} PushWindow(cfg: Settings, completed: seq<VisitorSession>, finished: seq<VisitorSession>,
                                      s: VisitorSession)
    requires Window(cfg, completed, finished) && Sealed(s)
    ensures Window(cfg, Push(completed, s, cfg.maxCompleted), finished + [s])
  {
    hide Sealed, Push;
    PushTail(completed, finished, s, cfg.maxCompleted);
    var all := finished + [s];
    forall i | 0 <= i < |all|
      ensures Sealed(all[i])
    {
      assert i < |finished| ==> all[i] == finished[i];
    }
  }

  /** Pushing onto the tail of a record gives the tail of the longer record. */
  lemma {:induction false} PushTail<T>(queue: seq<T>, all: seq<T>, x: T, max: nat)
    requires |queue| == (if |all| <= max then |all| else max) && queue == all[|all| - |queue|..]
    ensures var pushed := Push(queue, x, max);
      && |pushed| == (if |all| + 1 <= max then |all| + 1 else max)
      && |all + [x]| >= |pushed| && pushed == (all + [x])[|all + [x]| - |pushed|..]
  {
    assert queue + [x] == (all + [x])[|all| - |queue|..];
  }

  lemma {:induction false} SetGood(active: seq<Binding<nat, VisitorSession>>, s: VisitorSession)
    requires GoodActive(active) && Good(s, s.visitor)
    ensures GoodActive(Set(active, s.visitor, s))
  {
    hide Good, Unique, Get, Set;
    UniqueSet(active, s.visitor, s);
    forall v: nat
      ensures Get(Set(active, s.visitor, s), v) == if v == s.visitor then Some(s) else Get(active, v)
    {
      GetSet(active, s.visitor, s, v);
    }
  }

  lemma {:induction false} RemoveGood(active: seq<Binding<nat, VisitorSession>>, visitor: nat)
    requires GoodActive(active)
    ensures GoodActive(Remove(active, visitor))
  {
    hide Good, Unique, Get, Remove;
    UniqueRemove(active, visitor);
    forall v: nat
      ensures Get(Remove(active, visitor), v) == if v == visitor then None else Get(active, v)
    {
      GetRemove(active, visitor, v);
    }
  }

  // ---------------------------------------------------------------------------
  // Visitors and sequence numbers
  // ---------------------------------------------------------------------------

  datatype Name = Name(visitor: nat, sequence: nat)

  function NameOf(s: VisitorSession): Name {
    Name(s.visitor, s.sequence)
  }

  function ActiveNames(active: seq<Binding<nat, VisitorSession>>): set<Name> {
    if active == [] then {} else ActiveNames(active[..|active| - 1]) + {NameOf(active[|active| - 1].value)}
  }

  function Names(sessions: seq<VisitorSession>): set<Name> {
    if sessions == [] then {} else Names(sessions[..|sessions| - 1]) + {NameOf(sessions[|sessions| - 1])}
  }

  /** Two names agree on the visitor exactly when they agree on the number. */
  ghost predicate OneToOne(names: set<Name>) {
    forall a, b | a in names && b in names :: a.visitor == b.visitor <==> a.sequence == b.sequence
  }

  ghost predicate Below(names: set<Name>, visitor: nat, sequence: nat) {
    forall n | n in names :: n.visitor < visitor && n.sequence <= sequence
  }

  lemma {:induction false} NamesReplace(m: seq<Binding<nat, VisitorSession>>, k: nat, s: VisitorSession)
    ensures ActiveNames(Replace(m, k, s)) <= ActiveNames(m) + {NameOf(s)}
  {
    if m != [] {
      NamesReplace(m[..|m| - 1], k, s);
      var r := Replace(m, k, s);
      assert r[..|r| - 1] == Replace(m[..|m| - 1], k, s);
    }
  }

  lemma {:induction false} NamesSet(m: seq<Binding<nat, VisitorSession>>, k: nat, s: VisitorSession)
    ensures ActiveNames(Set(m, k, s)) <= ActiveNames(m) + {NameOf(s)}
  {
    NamesReplace(m, k, s);
    assert (m + [Binding(k, s)])[..|m|] == m;
  }

  lemma {:induction false} NamesRemove(m: seq<Binding<nat, VisitorSession>>, k: nat)
    ensures ActiveNames(Remove(m, k)) <= ActiveNames(m)
  {
    if m != [] {
      var front := Remove(m[..|m| - 1], k);
      NamesRemove(m[..|m| - 1], k);
      assert front + [] == front;
      assert (front + [m[|m| - 1]])[..|front|] == front;
    }
  }

  lemma {:induction false} NameOfActive(m: seq<Binding<nat, VisitorSession>>, k: nat)
    requires Get(m, k).Some?
    ensures NameOf(Get(m, k).value) in ActiveNames(m)
  {
    if m[|m| - 1].key != k {
      NameOfActive(m[..|m| - 1], k);
    }
  }

  lemma {:induction false} NamesOfOthers(m: seq<Binding<nat, VisitorSession>>, k: nat, n: Name)
    requires Unique(m) && forall v: nat | Get(m, v).Some? :: Get(m, v).value.visitor == v
    requires Get(m, k).None? && n in ActiveNames(m)
    ensures n.visitor != k
  {
    var front, last := m[..|m| - 1], m[|m| - 1];
    assert Get(m, last.key) == Some(last.value);
    if n != NameOf(last.value) {
      forall v: nat | Get(front, v).Some?
        ensures Get(front, v).value.visitor == v
      {
        assert Get(m, v) == Get(front, v);
      }
      NamesOfOthers(front, k, n);
    }
  }

  lemma {:induction false} NamesAppend(sessions: seq<VisitorSession>, s: VisitorSession)
    ensures Names(sessions + [s]) == Names(sessions) + {NameOf(s)}
  {
    assert (sessions + [s])[..|sessions|] == sessions;
  }

  lemma {:induction false} NamesDrop(sessions: seq<VisitorSession>, d: nat)
    requires d <= |sessions|
    ensures Names(sessions[d..]) <= Names(sessions)
  {
    if d < |sessions| {
      var front := sessions[..|sessions| - 1];
      NamesDrop(front, d);
      NamesAppend(front[d..], sessions[|sessions| - 1]);
      assert front[d..] + [sessions[|sessions| - 1]] == sessions[d..];
    }
  }

  lemma {:induction false} NamesPush(completed: seq<VisitorSession>, s: VisitorSession, max: nat)
    ensures Names(Push(completed, s, max)) <= Names(completed) + {NameOf(s)}
  {
    NamesAppend(completed, s);
    if |completed + [s]| > max {
      NamesDrop(completed + [s], |completed + [s]| - max);
    }
  }

  lemma {:induction false} FindLatestName(sessions: seq<VisitorSession>, v: nat, n: Name)
    ensures FindLatest(sessions, v).Some? ==> FindLatest(sessions, v).value.visitor == v
    ensures FindLatest(sessions, v).Some? ==> NameOf(FindLatest(sessions, v).value) in Names(sessions)
    ensures FindLatest(sessions, v).None? && n in Names(sessions) ==> n.visitor != v
  {
    if sessions != [] {
      FindLatestName(sessions[..|sessions| - 1], v, n);
    }
  }

  lemma {:induction false} OneToOneSubset(names: set<Name>, more: set<Name>)
    requires OneToOne(more) && names <= more
    ensures OneToOne(names)
  {
  }

  /** All names on record, of active sessions and of retained completed ones. */
  function Recorded(st: State): set<Name> {
    ActiveNames(st.active) + Names(st.completed)
  }

  ghost predicate Numbered(st: State) {
    OneToOne(Recorded(st)) && Below(Recorded(st), st.nextVisitor, st.nextSequence)
  }

  lemma {:induction false} FewerNames(st: State, next: State)
    requires Numbered(st) && Recorded(next) <= Recorded(st)
    requires next.nextVisitor >= st.nextVisitor && next.nextSequence >= st.nextSequence
    ensures Numbered(next)
  {
    hide Recorded;
    OneToOneSubset(Recorded(next), Recorded(st));
  }

  /** A name that shares neither part with any other may join. */
  lemma {:induction false} OneMoreName(st: State, next: State, n: Name)
    requires Numbered(st) && Recorded(next) <= Recorded(st) + {n}
    requires forall m | m in Recorded(st) :: m.visitor != n.visitor && m.sequence != n.sequence
    requires next.nextVisitor >= st.nextVisitor && next.nextSequence >= st.nextSequence
    requires n.visitor < next.nextVisitor && n.sequence <= next.nextSequence
    ensures Numbered(next)
  {
    hide Recorded;
  }

  // ---------------------------------------------------------------------------
  // What every state of the engine satisfies
  // ---------------------------------------------------------------------------

  /** No session is lost: each entry or re-entry is still active, was completed, or was replaced while active. */
  ghost predicate Balanced(st: State) {
    st.entries + st.reentries == |st.active| + |st.finished| + st.overwritten
  }

  ghost predicate Inv(cfg: Settings, st: State) {
    GoodActive(st.active) && Window(cfg, st.completed, st.finished) && Numbered(st) && Balanced(st)
  }

  /** Every active session was last seen within the timeout before `now`. */
  ghost predicate Recent(cfg: Settings, st: State, now: real) {
    forall v: nat | Get(st.active, v).Some? :: 0.0 <= now - Get(st.active, v).value.lastSeenAt <= cfg.timeout
  }

  /** No active session was last seen after `now`. */
  ghost predicate NotAhead(st: State, now: real) {
    forall v: nat | Get(st.active, v).Some? :: Get(st.active, v).value.lastSeenAt <= now
  }

  /** What happened to the tables between two states, leaving tracks and numbers aside. */
  ghost predicate OnlyCompleted(st: State, next: State) {
    && next.nextSequence == st.nextSequence && next.nextVisitor == st.nextVisitor
    && next.entries == st.entries && next.reentries == st.reentries && next.overwritten == st.overwritten
    && st.finished <= next.finished
  }

  lemma {:induction false} CompleteActive(cfg: Settings, st: State, v: nat, at: real, status: Status, w: nat)
    ensures Get(Complete(cfg, st, v, at, status).active, w) == if w == v then None else Get(st.active, w)
    ensures OnlyCompleted(st, Complete(cfg, st, v, at, status))
  {
    hide Get, Remove, Closed, Push;
    GetRemove(st.active, v, w);
  }

  lemma {:induction false} CompleteNames(cfg: Settings, st: State, v: nat, at: real, status: Status)
    requires Numbered(st)
    ensures Numbered(Complete(cfg, st, v, at, status))
  {
    hide Numbered, Get, Remove, Push, CloseVisits, SumDwell;
    if Get(st.active, v).Some? {
      var s := Closed(Get(st.active, v).value, at, status);
      NameOfActive(st.active, v);
      NamesRemove(st.active, v);
      NamesPush(st.completed, s, cfg.maxCompleted);
      FewerNames(st, Complete(cfg, st, v, at, status));
    }
  }

  lemma {:induction false} CompleteKeeps(cfg: Settings, st: State, v: nat, at: real, status: Status)
    requires Inv(cfg, st) && !status.Active?
    ensures Inv(cfg, Complete(cfg, st, v, at, status))
  {
    hide Numbered, Get, Remove, Push, Closed, Window, Good, Sealed, Unique;
    if Get(st.active, v).Some? {
      assert Good(Get(st.active, v).value, v);
      GoodNotEnded(Get(st.active, v).value, v);
      CompleteNames(cfg, st, v, at, status);
      ClosedIsSealed(Get(st.active, v).value, at, status);
      PushWindow(cfg, st.completed, st.finished, Closed(Get(st.active, v).value, at, status));
      RemoveGood(st.active, v);
      RemoveLength(st.active, v);
    }
  }

  lemma {:induction false} GoodNotEnded(s: VisitorSession, v: nat)
    requires Good(s, v)
    ensures s.exitAt.None? && s.visitor == v
  {
  }

  lemma {:induction false} CompleteAllKeeps(cfg: Settings, st: State, vs: seq<nat>, at: real, status: Status)
    requires Inv(cfg, st) && !status.Active?
    ensures Inv(cfg, CompleteAll(cfg, st, vs, at, status))
    ensures OnlyCompleted(st, CompleteAll(cfg, st, vs, at, status))
    ensures forall w: nat :: Get(CompleteAll(cfg, st, vs, at, status).active, w) == if w in vs then None else Get(st.active, w)
  {
    hide Inv, Get, Complete;
    if vs != [] {
      var front, last := vs[..|vs| - 1], vs[|vs| - 1];
      CompleteAllKeeps(cfg, st, front, at, status);
      var before := CompleteAll(cfg, st, front, at, status);
      CompleteKeeps(cfg, before, last, at, status);
      CompleteActive(cfg, before, last, at, status, last);
      forall w: nat
        ensures Get(Complete(cfg, before, last, at, status).active, w) == if w == last then None else Get(before.active, w)
      {
        CompleteActive(cfg, before, last, at, status, w);
      }
      assert forall w: nat :: w in vs <==> w == last || w in front;
    }
  }

  lemma {:induction false} StaleVisitorsExactly(cfg: Settings, active: seq<Binding<nat, VisitorSession>>, now: real,
                                                v: nat)
    requires Unique(active)
    ensures v in StaleVisitors(cfg, active, now) <==> Get(active, v).Some? && Stale(cfg, Get(active, v).value, now)
  {
    hide Stale;
    if active != [] {
      StaleVisitorsExactly(cfg, active[..|active| - 1], now, v);
    }
  }

  function AfterCleanup(cfg: Settings, found: Option<VisitorSession>, now: real): Option<VisitorSession> {
    if found.Some? && Stale(cfg, found.value, now) then None else found
  }

  /** Cleaning up ends exactly the sessions idle for longer than the timeout. */
  lemma {:induction false} CleanupExactly(cfg: Settings, st: State, now: real)
    requires Inv(cfg, st)
    ensures var next := Cleanup(cfg, st, now); Inv(cfg, next) && OnlyCompleted(st, next)
    ensures forall v: nat :: Get(Cleanup(cfg, st, now).active, v) == AfterCleanup(cfg, Get(st.active, v), now)
  {
    hide Stale, Numbered, Window, Balanced, Get, OnlyCompleted;
    CompleteAllKeeps(cfg, st, StaleVisitors(cfg, st.active, now), now, TimedOut);
    forall v: nat
      ensures v in StaleVisitors(cfg, st.active, now) <==> Get(st.active, v).Some? && Stale(cfg, Get(st.active, v).value, now)
    {
      StaleVisitorsExactly(cfg, st.active, now, v);
    }
  }

  /** An active session is changed but keeps its visitor and number. */
  lemma {:induction false} TouchKeeps(cfg: Settings, st: State, s: VisitorSession)
    requires Inv(cfg, st) && Get(st.active, s.visitor).Some? && Good(s, s.visitor)
    requires s.sequence == Get(st.active, s.visitor).value.sequence
    ensures Inv(cfg, Touch(st, s))
  {
    hide Numbered, Window, Get, Set, Good, Unique;
    SetGood(st.active, s);
    GetSet(st.active, s.visitor, s, s.visitor);
    NameOfActive(st.active, s.visitor);
    GoodNotEnded(Get(st.active, s.visitor).value, s.visitor);
    NamesSet(st.active, s.visitor, s);
    FewerNames(st, Touch(st, s));
  }

  /** Only the track table changes. */
  lemma {:induction false} TracksDoNotMatter(cfg: Settings, st: State, tracks: seq<Binding<int, nat>>)
    requires Inv(cfg, st)
    ensures Inv(cfg, st.(tracks := tracks))
  {
    hide GoodActive, Window, OneToOne, Below;
  }

  lemma {:induction false} EntryKeeps(cfg: Settings, st: State, e: Signal)
    requires Inv(cfg, st)
    ensures Inv(cfg, HandleEntry(cfg, st, e).0)
  {
    hide Window, Get, Set, Good, Unique, TrimTracks, OneToOne, ActiveNames, Names;
    var next := HandleEntry(cfg, st, e).0;
    var s := NewSession(st.nextVisitor, st.nextSequence + 1, e, 0.0);
    NewIsGood(s);
    NewIsNotActive(st);
    SetGood(st.active, s);
    GetSet(st.active, s.visitor, s, s.visitor);
    NamesSet(st.active, s.visitor, s);
    OneMoreName(st, next, NameOf(s));
  }

  lemma {:induction false} NewIsGood(s: VisitorSession)
    requires s.status.Active? && s.exitAt.None? && s.visits == []
    ensures Good(s, s.visitor)
  {
  }

  /** A visitor id from the supply names no active session. */
  lemma {:induction false} NewIsNotActive(st: State)
    requires GoodActive(st.active) && Numbered(st)
    ensures forall v: nat | v >= st.nextVisitor :: Get(st.active, v).None?
  {
    hide Get, OneToOne;
    forall v: nat | v >= st.nextVisitor
      ensures Get(st.active, v).None?
    {
      if Get(st.active, v).Some? {
        GoodName(st.active, v);
      }
    }
  }

  lemma {:induction false} GoodName(active: seq<Binding<nat, VisitorSession>>, v: nat)
    requires GoodActive(active) && Get(active, v).Some?
    ensures Name(v, Get(active, v).value.sequence) in ActiveNames(active)
  {
    NameOfActive(active, v);
  }

  /** What a returning visitor's earlier sessions, if any are on record, say about the new one. */
  lemma {:induction false} ResumeName(st: State, visitor: nat, n: Name)
    requires GoodActive(st.active)
    ensures GetSession(st, visitor).Some? ==> Name(visitor, GetSession(st, visitor).value.sequence) in Recorded(st)
    ensures GetSession(st, visitor).None? && n in Recorded(st) ==> n.visitor != visitor
  {
    hide Get, Unique, FindLatest, ActiveNames, Names;
    FindLatestName(st.completed, visitor, n);
    if Get(st.active, visitor).Some? {
      NameOfActive(st.active, visitor);
      assert Good(Get(st.active, visitor).value, visitor);
    } else if n in ActiveNames(st.active) {
      forall v: nat | Get(st.active, v).Some?
        ensures Get(st.active, v).value.visitor == v
      {
        assert Good(Get(st.active, v).value, v);
      }
      NamesOfOthers(st.active, visitor, n);
    }
  }

  lemma {:induction false} ResumeKeeps(cfg: Settings, st: State, visitor: nat, e: Signal)
    requires Inv(cfg, st)
    ensures Inv(cfg, Resume(st, visitor, e).0)
  {
    hide Window, Get, Set, Good, Unique, OneToOne, ActiveNames, Names, GetSession;
    var (next, outcome) := Resume(st, visitor, e);
    var s := outcome.session;
    NewIsGood(s);
    SetGood(st.active, s);
    GetSet(st.active, visitor, s, visitor);
    NamesSet(st.active, visitor, s);
    ResumeNumbered(cfg, st, visitor, e);
  }

  lemma {:induction false} ResumeNumbered(cfg: Settings, st: State, visitor: nat, e: Signal)
    requires Inv(cfg, st)
    ensures Numbered(Resume(st, visitor, e).0)
  {
    hide Window, Get, Set, GoodActive, OneToOne, ActiveNames, Names, GetSession;
    var (next, outcome) := Resume(st, visitor, e);
    var n := NameOf(outcome.session);
    NamesSet(st.active, visitor, outcome.session);
    ResumeName(st, visitor, n);
    if GetSession(st, visitor).Some? {
      FewerNames(st, next);
    } else {
      forall m | m in Recorded(st)
        ensures m.visitor != n.visitor && m.sequence != n.sequence
      {
        ResumeName(st, visitor, m);
      }
      OneMoreName(st, next, n);
    }
  }

  // ---------------------------------------------------------------------------
  // Events
  // ---------------------------------------------------------------------------

  lemma {:induction false} ResolvedIsActive(st: State, e: Signal)
    requires GoodActive(st.active) && Resolve(st, e).Some?
    ensures var s := Resolve(st, e).value; Get(st.active, s.visitor) == Some(s) && Good(s, s.visitor)
  {
    hide Get, Good, Unique;
    var v := if LookUp(st, e.person).Some? then Get(st.tracks, e.person.value).value else Get(st.tracks, e.track.value).value;
    GoodNotEnded(Get(st.active, v).value, v);
  }

  lemma {:induction false} ZoneEnterKeeps(cfg: Settings, st: State, e: Signal)
    requires Inv(cfg, st)
    ensures Inv(cfg, HandleZoneEnter(st, e).0)
  {
    hide GoodActive, Window, Numbered, Balanced, Get, Set, Resolve, Visiting;
    if Resolve(st, e).Some? {
      ResolvedIsActive(st, e);
      var found := Resolve(st, e).value;
      if e.zone != "" && !Visiting(found.visits, e.zone) {
        var s := HandleZoneEnter(st, e).1.session;
        OpenKeepsOneOpen(found.visits, s.visits[|s.visits| - 1]);
        TouchKeeps(cfg, st, s);
        TracksDoNotMatter(cfg, Touch(st, s), HandleZoneEnter(st, e).0.tracks);
      }
    }
  }

  lemma {:induction false} ZoneExitKeeps(cfg: Settings, st: State, e: Signal)
    requires Inv(cfg, st)
    ensures Inv(cfg, HandleZoneExit(st, e).0)
  {
    hide GoodActive, Window, Numbered, Balanced, Get, Set, Resolve, Visiting, UpdateVisit, SumDwell;
    if Resolve(st, e).Some? {
      ResolvedIsActive(st, e);
      var found := Resolve(st, e).value;
      if Visiting(found.visits, e.zone) {
        UpdateKeepsOneOpen(found.visits, e.zone, Leave(e.at, e.dwell));
        TouchKeeps(cfg, st, HandleZoneExit(st, e).1.session);
      }
    }
  }

  lemma {:induction false} ZoneDwellKeeps(cfg: Settings, st: State, e: Signal)
    requires Inv(cfg, st)
    ensures Inv(cfg, HandleZoneDwell(st, e).0)
  {
    hide GoodActive, Window, Numbered, Balanced, Get, Set, Resolve, Visiting, UpdateVisit, SumDwell;
    if Resolve(st, e).Some? {
      ResolvedIsActive(st, e);
      var found := Resolve(st, e).value;
      var visit := ZoneVisit(e.zone, if e.sequence.Some? then e.sequence.value else 1, e.at, None, 0.0, 0);
      if !Visiting(found.visits, e.zone) {
        OpenKeepsOneOpen(found.visits, visit);
      }
      var begun := if Visiting(found.visits, e.zone) then found.visits else found.visits + [visit];
      UpdateKeepsOneOpen(begun, e.zone, Dwell(e.dwell));
      TouchKeeps(cfg, st, HandleZoneDwell(st, e).1.session);
    }
  }

  lemma {:induction false} HandleKeeps(cfg: Settings, st: State, e: Signal)
    requires Inv(cfg, st)
    ensures Inv(cfg, Handle(cfg, st, e).0)
  {
    hide Inv, HandleEntry, Resume, HandleZoneEnter, HandleZoneExit, HandleZoneDwell, Complete, Resolve;
    match e.kind
    case Entry => EntryKeeps(cfg, st, e);
    case Reentry =>
      if e.visitor.Some? {
        ResumeKeeps(cfg, st, e.visitor.value, e);
      }
    case Exit =>
      if Resolve(st, e).Some? {
        CompleteKeeps(cfg, st, Resolve(st, e).value.visitor, e.at, Completed);
      }
    case ZoneEnter => ZoneEnterKeeps(cfg, st, e);
    case ZoneExit => ZoneExitKeeps(cfg, st, e);
    case ZoneDwell => ZoneDwellKeeps(cfg, st, e);
    case OtherKind =>
  }

  lemma {:induction false} ProcessKeeps(cfg: Settings, st: State, e: Signal)
    requires Inv(cfg, st)
    ensures Inv(cfg, Process(cfg, st, e).0)
  {
    hide Inv, Handle, Cleanup;
    CleanupExactly(cfg, st, e.at);
    HandleKeeps(cfg, Cleanup(cfg, st, e.at), e);
  }

  /** An event only ever creates or changes a session as of its own time. */
  lemma {:induction false} HandleSees(cfg: Settings, st: State, e: Signal, v: nat)
    ensures var next := Handle(cfg, st, e).0;
      Get(next.active, v).Some? ==> Get(next.active, v) == Get(st.active, v) || Get(next.active, v).value.lastSeenAt == e.at
  {
    hide Get, Set, Resolve, Visiting, UpdateVisit, SumDwell, TrimTracks, GetSession, Remove, Push, Closed;
    var (next, outcome) := Handle(cfg, st, e);
    if outcome.Changed? {
      GetSet(st.active, outcome.session.visitor, outcome.session, v);
    }
    if e.kind.Exit? && Resolve(st, e).Some? {
      GetRemove(st.active, Resolve(st, e).value.visitor, v);
    }
  }

  /** After an event that is not earlier than what was seen, every active session was last seen within the timeout. */
  lemma {:induction false} ProcessRecent(cfg: Settings, st: State, e: Signal)
    requires Inv(cfg, st) && NotAhead(st, e.at) && cfg.timeout >= 0.0
    ensures Recent(cfg, Process(cfg, st, e).0, e.at)
  {
    hide Get, Inv, Cleanup, Handle;
    CleanupExactly(cfg, st, e.at);
    var clean := Cleanup(cfg, st, e.at);
    forall v: nat | Get(Process(cfg, st, e).0.active, v).Some?
      ensures 0.0 <= e.at - Get(Process(cfg, st, e).0.active, v).value.lastSeenAt <= cfg.timeout
    {
      HandleSees(cfg, clean, e, v);
    }
  }

  /** What was completed stays as it is: completions are only ever added. */
  lemma {:induction false} ProcessFinishes(cfg: Settings, st: State, e: Signal)
    requires Inv(cfg, st)
    ensures st.finished <= Process(cfg, st, e).0.finished
  {
    hide Inv, Cleanup, Get, Set, Resolve, Visiting, UpdateVisit, SumDwell, TrimTracks, GetSession, Remove, Push, Closed;
    CleanupExactly(cfg, st, e.at);
  }

  ghost predicate Chronological(events: seq<Signal>) {
    forall i, j | 0 <= i < j < |events| :: events[i].at <= events[j].at
  }

  lemma {:induction false} EmptyFine(cfg: Settings, st: State)
    requires st.active == [] && st.completed == [] && st.finished == []
    requires st.entries + st.reentries == st.overwritten
    ensures Inv(cfg, st)
  {
    assert Recorded(st) == {} && forall v: nat :: Get(st.active, v).None?;
    hide Recorded, Get, Good, Sealed;
    assert GoodActive(st.active) && Numbered(st);
  }

  /** The laws of sessions hold after every run of events, in any order and with any contents. */
  lemma {:induction false} RunKeeps(cfg: Settings, events: seq<Signal>)
    ensures Inv(cfg, ProcessAll(cfg, events))
  {
    hide Inv, Process;
    if events == [] {
      EmptyFine(cfg, EMPTY);
    } else {
      RunKeeps(cfg, events[..|events| - 1]);
      ProcessKeeps(cfg, ProcessAll(cfg, events[..|events| - 1]), events[|events| - 1]);
    }
  }

  /** After every chronological run no active session has been idle for longer than the timeout. */
  lemma {:induction false} RunRecent(cfg: Settings, events: seq<Signal>)
    requires Chronological(events) && events != [] && cfg.timeout >= 0.0
    ensures Recent(cfg, ProcessAll(cfg, events), events[|events| - 1].at)
  {
    hide Inv, Process, Get;
    var front, last := events[..|events| - 1], events[|events| - 1];
    RunKeeps(cfg, front);
    if front == [] {
      EmptyNotAhead(last.at);
    } else {
      RunRecent(cfg, front);
      assert front[|front| - 1].at <= last.at;
    }
    ProcessRecent(cfg, ProcessAll(cfg, front), last);
  }

  lemma {:induction false} EmptyNotAhead(now: real)
    ensures NotAhead(EMPTY, now)
  {
  }

  /** Completed sessions are never changed or dropped from the record of completions, however the run goes on. */
  lemma {:induction false} CompletionsAreFinal(cfg: Settings, events: seq<Signal>, n: nat)
    requires n <= |events|
    ensures ProcessAll(cfg, events[..n]).finished <= ProcessAll(cfg, events).finished
  {
    hide Inv, Process;
    if n == |events| {
      assert events[..n] == events;
    } else {
      var front := events[..|events| - 1];
      CompletionsAreFinal(cfg, front, n);
      assert front[..n] == events[..n];
      RunKeeps(cfg, front);
      ProcessFinishes(cfg, ProcessAll(cfg, front), events[|events| - 1]);
    }
  }

  /** Closing all leaves nothing active, so every entry and re-entry is a completion or was replaced while active. */
  lemma {:induction false} ClosingBalances(cfg: Settings, st: State, at: real, status: Status)
    requires Inv(cfg, st) && !status.Active?
    ensures var next := CloseAllActive(cfg, st, at, status);
      && Inv(cfg, next) && next.active == []
      && st.entries + st.reentries == |next.finished| + st.overwritten
  {
    hide Window, Numbered, Get, Good, Complete;
    CompleteAllKeeps(cfg, st, Keys(st.active), at, status);
    var next := CloseAllActive(cfg, st, at, status);
    forall k: nat
      ensures Get(next.active, k).None?
    {
      KeysExactly(st.active, k);
    }
    NothingFound(next.active);
  }

  lemma {:induction false} NothingFound(active: seq<Binding<nat, VisitorSession>>)
    requires forall k: nat :: Get(active, k).None?
    ensures active == []
  {
    assert active != [] ==> Get(active, active[|active| - 1].key).Some?;
  }

  lemma {:induction false} KeysExactly(active: seq<Binding<nat, VisitorSession>>, v: nat)
    ensures v in Keys(active) <==> Get(active, v).Some?
  {
    if active != [] {
      KeysExactly(active[..|active| - 1], v);
    }
  }
}
