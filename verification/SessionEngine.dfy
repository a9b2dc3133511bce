/** The session engine: tables updated event by event. */
module SessionEngines {
  import opened Options
  import opened OrderedMaps
  import opened BoundedQueues
  import opened SessionModel
  import opened SessionTheorems

  /** Whether a zone has an open visit, searching from the latest. */
  method ActiveZoneVisit(visits: seq<ZoneVisit>, zone: string) returns (index: Option<nat>)
    ensures index.Some? <==> Visiting(visits, zone)
    ensures index.Some? ==> index.value < |visits|
    ensures index.Some? ==> forall c: VisitChange ::
      visits[index.value := ChangedVisit(visits[index.value], c)] == UpdateVisit(visits, zone, c)
  {
    var i := |visits|;
    assert visits[..i] == visits;
    while i > 0 && !(visits[i - 1].zone == zone && visits[i - 1].exitedAt.None?)
      invariant 0 <= i <= |visits|
      invariant Visiting(visits, zone) == Visiting(visits[..i], zone)
      invariant forall c: VisitChange :: UpdateVisit(visits, zone, c) == UpdateVisit(visits[..i], zone, c) + visits[i..]
    {
      SearchSkips(visits, i, zone, Dwell(0.0));
      forall c: VisitChange
        ensures UpdateVisit(visits[..i], zone, c) + visits[i..] == UpdateVisit(visits[..i - 1], zone, c) + visits[i - 1..]
      {
        SearchSkips(visits, i, zone, c);
      }
      i := i - 1;
    }
    if i > 0 {
      index := Some(i - 1);
      forall c: VisitChange
        ensures UpdateVisit(visits[..i], zone, c) + visits[i..] == visits[i - 1 := ChangedVisit(visits[i - 1], c)]
      {
        SearchHits(visits, i, zone, c);
      }
    } else {
      index := None;
    }
  }

  lemma {:induction false} SearchSkips(visits: seq<ZoneVisit>, i: nat, zone: string, c: VisitChange)
    requires 0 < i <= |visits| && !(visits[i - 1].zone == zone && visits[i - 1].exitedAt.None?)
    ensures Visiting(visits[..i], zone) == Visiting(visits[..i - 1], zone)
    ensures UpdateVisit(visits[..i], zone, c) + visits[i..] == UpdateVisit(visits[..i - 1], zone, c) + visits[i - 1..]
  {
    assert visits[..i][..i - 1] == visits[..i - 1];
    var front := UpdateVisit(visits[..i - 1], zone, c);
    assert UpdateVisit(visits[..i], zone, c) == front + [visits[i - 1]];
    hide *;
    assert [visits[i - 1]] + visits[i..] == visits[i - 1..];
    assert (front + [visits[i - 1]]) + visits[i..] == front + ([visits[i - 1]] + visits[i..]);
  }

  lemma {:induction false} SearchHits(visits: seq<ZoneVisit>, i: nat, zone: string, c: VisitChange)
    requires 0 < i <= |visits| && visits[i - 1].zone == zone && visits[i - 1].exitedAt.None?
    ensures Visiting(visits[..i], zone)
    ensures UpdateVisit(visits[..i], zone, c) + visits[i..] == visits[i - 1 := ChangedVisit(visits[i - 1], c)]
  {
    assert visits[..i][..i - 1] == visits[..i - 1];
    assert UpdateVisit(visits[..i], zone, c) == visits[..i - 1] + [ChangedVisit(visits[i - 1], c)];
    hide *;
  }

  method CloseOpenZoneVisits(visits: seq<ZoneVisit>, at: real) returns (closed: seq<ZoneVisit>, total: real)
    ensures closed == CloseVisits(visits, at) && total == SumDwell(closed)
  {
    closed := [];
    for i := 0 to |visits|
      invariant closed == CloseVisits(visits[..i], at)
    {
      assert visits[..i + 1][..i] == visits[..i];
      var v := visits[i];
      if v.exitedAt.None? {
        v := v.(exitedAt := Some(at));
        if v.dwell <= 0.0 {
          v := v.(dwell := Larger(0.0, at - v.enteredAt));
        }
      }
      closed := closed + [v];
    }
    assert visits[..|visits|] == visits;
    total := Total(closed);
  }

  method Total(visits: seq<ZoneVisit>) returns (total: real)
    ensures total == SumDwell(visits)
  {
    total := 0.0;
    for i := 0 to |visits|
      invariant total == SumDwell(visits[..i])
    {
      assert visits[..i + 1][..i] == visits[..i];
      total := total + visits[i].dwell;
    }
    assert visits[..|visits|] == visits;
  }

  /** Closing closed visits changes nothing, so an exit that closes them first completes the same session. */
  lemma {:induction false} CloseVisitsTwice(visits: seq<ZoneVisit>, at: real, later: real)
    ensures CloseVisits(CloseVisits(visits, at), later) == CloseVisits(visits, at)
  {
    if visits != [] {
      CloseVisitsTwice(visits[..|visits| - 1], at, later);
      var c := CloseVisits(visits, at);
      assert c[..|c| - 1] == CloseVisits(visits[..|visits| - 1], at);
    }
  }

  // ---------------------------------------------------------------------------
  // Session objects
  // ---------------------------------------------------------------------------

  /** A session as the engine's tables hold it: handlers change it in place, and completing moves the same object. */
  class SessionRecord {
    const visitor: nat
    const sequence: nat
    const track: Option<int>
    const entryAt: real
    var status: Status
    var exitAt: Option<real>
    var lastSeenAt: real
    var visits: seq<ZoneVisit>
    var totalDwell: real

    function Value(): VisitorSession
      reads this
    {
      VisitorSession(visitor, sequence, status, track, entryAt, exitAt, lastSeenAt, visits, totalDwell)
    }

    constructor (visitor: nat, sequence: nat, e: Signal, totalDwell: real)
      ensures Value() == NewSession(visitor, sequence, e, totalDwell)
    {
      this.visitor, this.sequence, track, entryAt := visitor, sequence, e.track, e.at;
      status, exitAt, lastSeenAt, visits, this.totalDwell := Active, None, e.at, [], totalDwell;
    }

    /** Everything that completing does to the session itself. */
    method Close(at: real, status: Status)
      modifies this
      ensures Value() == Closed(old(Value()), at, status)
    {
      hide CloseVisits, SumDwell;
      this.status := status;
      exitAt := if exitAt.Some? then exitAt else Some(at);
      lastSeenAt := at;
      visits, totalDwell := CloseOpenZoneVisits(visits, at);
    }
  }

  function Members(sessions: seq<SessionRecord>): set<SessionRecord> {
    set i | 0 <= i < |sessions| :: sessions[i]
  }

  function Objects(m: seq<Binding<nat, SessionRecord>>): set<SessionRecord> {
    set i | 0 <= i < |m| :: m[i].value
  }

  ghost function Snapshots(sessions: seq<SessionRecord>): (r: seq<VisitorSession>)
    reads Members(sessions)
    ensures |r| == |sessions| && forall i | 0 <= i < |r| :: r[i] == sessions[i].Value()
  {
    if sessions == [] then [] else Snapshots(sessions[..|sessions| - 1]) + [sessions[|sessions| - 1].Value()]
  }

  ghost function Valued(m: seq<Binding<nat, SessionRecord>>): (r: seq<Binding<nat, VisitorSession>>)
    reads Objects(m)
    ensures |r| == |m| && forall i | 0 <= i < |r| :: r[i] == Binding(m[i].key, m[i].value.Value())
  {
    if m == [] then [] else Valued(m[..|m| - 1]) + [Binding(m[|m| - 1].key, m[|m| - 1].value.Value())]
  }

  ghost function ValueOf(found: Option<SessionRecord>): Option<VisitorSession>
    reads if found.Some? then {found.value} else {}
  {
    if found.Some? then Some(found.value.Value()) else None
  }

  lemma {:induction false} GetValued(m: seq<Binding<nat, SessionRecord>>, k: nat)
    ensures Get(Valued(m), k) == ValueOf(Get(m, k))
    ensures Get(m, k).Some? ==> Get(m, k).value in Objects(m)
  {
    if m != [] {
      GetValued(m[..|m| - 1], k);
      assert Valued(m)[..|m| - 1] == Valued(m[..|m| - 1]);
    }
  }

  lemma {:induction false} AppendValued(m: seq<Binding<nat, SessionRecord>>, b: Binding<nat, SessionRecord>)
    ensures Valued(m + [b]) == Valued(m) + [Binding(b.key, b.value.Value())]
    ensures Objects(m + [b]) == Objects(m) + {b.value}
  {
    assert (m + [b])[..|m|] == m && (m + [b])[|m|] == b;
    forall o | o in Objects(m)
      ensures o in Objects(m + [b])
    {
      var i :| 0 <= i < |m| && m[i].value == o;
      assert (m + [b])[i].value == o;
    }
  }

  lemma {:induction false} RemoveValued(m: seq<Binding<nat, SessionRecord>>, k: nat)
    ensures Valued(Remove(m, k)) == Remove(Valued(m), k)
  {
    if m != [] {
      hide Valued, Objects, Remove;
      var front, last := m[..|m| - 1], m[|m| - 1];
      RemoveValued(front, k);
      assert front + [last] == m;
      AppendValued(front, last);
      RemoveAppend(front, last, k);
      RemoveAppend(Valued(front), Binding(last.key, last.value.Value()), k);
      AppendValued(Remove(front, k), last);
    }
  }

  lemma {:induction false} ReplaceValued(m: seq<Binding<nat, SessionRecord>>, k: nat, o: SessionRecord)
    ensures Objects(Replace(m, k, o)) <= Objects(m) + {o} && Valued(Replace(m, k, o)) == Replace(Valued(m), k, o.Value())
  {
    if m != [] {
      var front, last := m[..|m| - 1], m[|m| - 1];
      ReplaceValued(front, k, o);
      assert Valued(m)[..|m| - 1] == Valued(front);
      assert front + [last] == m;
      AppendValued(front, last);
      AppendValued(Replace(front, k, o), if last.key == k then Binding(k, o) else last);
    }
  }

  lemma {:induction false} SetValued(m: seq<Binding<nat, SessionRecord>>, k: nat, o: SessionRecord)
    ensures Objects(Set(m, k, o)) <= Objects(m) + {o} && Valued(Set(m, k, o)) == Set(Valued(m), k, o.Value())
  {
    hide Replace, Get, Valued;
    GetValued(m, k);
    ReplaceValued(m, k, o);
    AppendValued(m, Binding(k, o));
  }

  /** Two tables that differ at most in what they hold for a key. */
  ghost predicate SameBut(a: seq<Binding<nat, VisitorSession>>, b: seq<Binding<nat, VisitorSession>>, k: nat) {
    |a| == |b| && forall i | 0 <= i < |a| :: a[i].key == b[i].key && (a[i].key != k ==> a[i] == b[i])
  }

  lemma {:induction false} SameButRemoved(a: seq<Binding<nat, VisitorSession>>, b: seq<Binding<nat, VisitorSession>>,
                                          k: nat)
    requires SameBut(a, b, k)
    ensures Remove(a, k) == Remove(b, k)
  {
    if a != [] {
      SameButRemoved(a[..|a| - 1], b[..|b| - 1], k);
    }
  }

  /** Changing a session in place is setting its key. */
  lemma {:induction false} ChangedInPlace(a: seq<Binding<nat, VisitorSession>>, b: seq<Binding<nat, VisitorSession>>,
                                          k: nat, s: VisitorSession)
    requires SameBut(a, b, k) && forall i | 0 <= i < |b| && b[i].key == k :: b[i].value == s
    ensures Replace(a, k, s) == b
  {
    if a != [] {
      ChangedInPlace(a[..|a| - 1], b[..|b| - 1], k, s);
      assert b[..|b| - 1] + [b[|b| - 1]] == b;
    }
  }

  lemma {:induction false} LatestValued(sessions: seq<SessionRecord>, i: nat, visitor: nat)
    requires i <= |sessions| && forall j | i <= j < |sessions| :: sessions[j].visitor != visitor
    ensures FindLatest(Snapshots(sessions), visitor) == FindLatest(Snapshots(sessions)[..i], visitor)
    decreases |sessions| - i
  {
    var s := Snapshots(sessions);
    if i < |sessions| {
      LatestValued(sessions, i + 1, visitor);
      assert s[..i + 1][..i] == s[..i];
    } else {
      assert s[..i] == s;
    }
  }

  lemma {:induction false} KeyIsActive(m: seq<Binding<nat, SessionRecord>>, i: nat)
    requires i < |m| && Unique(m)
    ensures Get(m, m[i].key) == Some(m[i].value)
  {
    if i < |m| - 1 {
      KeyIsActive(m[..|m| - 1], i);
      assert m[..|m| - 1][i] == m[i];
    }
  }

  class SessionEngine {
    const cfg: Settings
    var active: seq<Binding<nat, SessionRecord>>
    var completed: seq<SessionRecord>
    var tracks: seq<Binding<int, nat>>
    var nextSequence: nat
    var nextVisitor: nat
    ghost var finished: seq<SessionRecord>
    ghost var entries: nat
    ghost var reentries: nat
    ghost var overwritten: nat

    ghost function View(): State
      reads this, Objects(active), Members(completed), Members(finished)
    {
      State(Valued(active), Snapshots(completed), tracks, nextSequence, nextVisitor, Snapshots(finished), entries, reentries,
            overwritten)
    }

    /** Objects in use are not ended and filed under their visitors; objects done with are ended. So nothing is both. */
    ghost predicate Separate()
      reads this, Objects(active), Members(completed), Members(finished)
    {
      && Unique(active)
      && (forall i | 0 <= i < |active| :: active[i].value.status.Active? && active[i].value.visitor == active[i].key)
      && (forall o | o in completed :: !o.status.Active?)
      && (forall o | o in finished :: !o.status.Active?)
    }

    constructor (cfg: Settings)
      ensures this.cfg == cfg && View() == EMPTY && active == [] && finished == []
    {
      this.cfg := cfg;
      active, completed, tracks, nextSequence, nextVisitor := [], [], [], 0, 0;
      finished, entries, reentries, overwritten := [], 0, 0, 0;
    }

    method GetSessionOf(visitor: nat) returns (found: Option<SessionRecord>)
      requires Separate()
      ensures ValueOf(found) == GetSession(View(), visitor)
      ensures Separate() && View() == old(View())
    {
      hide Get, Valued, Snapshots, Separate;
      found := Get(active, visitor);
      GetValued(active, visitor);
      if found.None? {
        var i := |completed|;
        while i > 0 && completed[i - 1].visitor != visitor
          invariant 0 <= i <= |completed|
          invariant forall j | i <= j < |completed| :: completed[j].visitor != visitor
        {
          i := i - 1;
        }
        LatestValued(completed, i, visitor);
        if i > 0 {
          found := Some(completed[i - 1]);
        }
      }
    }

    method ResolveSession(e: Signal) returns (found: Option<SessionRecord>)
      requires Separate()
      ensures ValueOf(found) == Resolve(View(), e)
      ensures found.Some? ==> Get(active, found.value.visitor) == found
      ensures Separate() && View() == old(View())
    {
      hide Valued, Snapshots, Unique;
      found := None;
      if e.person.Some? {
        var visitor := Get(tracks, e.person.value);
        if visitor.Some? {
          GetValued(active, visitor.value);
          FoundUnderKey(active, visitor.value);
          if Get(active, visitor.value).Some? {
            return Get(active, visitor.value);
          }
        }
      }
      if e.track.Some? {
        var visitor := Get(tracks, e.track.value);
        if visitor.Some? {
          GetValued(active, visitor.value);
          FoundUnderKey(active, visitor.value);
          if Get(active, visitor.value).Some? {
            return Get(active, visitor.value);
          }
        }
      }
    }

    /** A session in use is changed in place: the tables show the change under its key and nowhere else. */
    method CloseInPlace(session: SessionRecord, at: real, status: Status)
      requires Separate() && Get(active, session.visitor) == Some(session)
      modifies session
      ensures session.Value() == Closed(old(session.Value()), at, status)
      ensures SameBut(old(Valued(active)), Valued(active), session.visitor)
      ensures Snapshots(completed) == old(Snapshots(completed)) && Snapshots(finished) == old(Snapshots(finished))
    {
      hide Get, Closed, Valued, Snapshots, Unique;
      InUse(session);
      session.Close(at, status);
      assert forall i | 0 <= i < |completed| :: completed[i] != session;
      assert forall i | 0 <= i < |finished| :: finished[i] != session;
    }

    lemma {:induction false} InUse(session: SessionRecord)
      requires Separate() && Get(active, session.visitor) == Some(session)
      ensures session.status.Active? && session !in completed && session !in finished
      ensures forall i | 0 <= i < |active| :: active[i].value == session <==> active[i].key == session.visitor
      ensures Get(Valued(active), session.visitor) == Some(session.Value()) && session in Objects(active)
    {
      hide Get, Valued, Unique;
      GetValued(active, session.visitor);
      OnlyUnderKey(active, session);
    }

    /** The object moves from the active table to the completed queue. */
    method MoveToCompleted(session: SessionRecord)
      modifies this
      ensures active == Remove(old(active), session.visitor)
      ensures tracks == if session.track.Some? then Remove(old(tracks), session.track.value) else old(tracks)
      ensures completed == Push(old(completed), session, cfg.maxCompleted) && finished == old(finished) + [session]
      ensures nextSequence == old(nextSequence) && nextVisitor == old(nextVisitor)
      ensures entries == old(entries) && reentries == old(reentries) && overwritten == old(overwritten)
    {
      hide Remove;
      active := Remove(active, session.visitor);
      if session.track.Some? {
        tracks := Remove(tracks, session.track.value);
      }
      completed := completed + [session];
      if |completed| > cfg.maxCompleted {
        completed := completed[|completed| - cfg.maxCompleted..];
      }
      finished := finished + [session];
    }

    method CompleteSession(session: SessionRecord, at: real, status: Status)
      requires Separate() && Get(active, session.visitor) == Some(session) && !status.Active?
      modifies this, session
      ensures Separate() && View() == Complete(cfg, old(View()), session.visitor, at, status)
      ensures active == Remove(old(active), session.visitor) && finished == old(finished) + [session]
      ensures session.Value() == Closed(old(session.Value()), at, status)
    {
      hide Get, Remove, CloseVisits, SumDwell, Valued, Snapshots, Unique, Objects, Members, SameBut, Push;
      ghost var before := Valued(active);
      InUse(session);
      CloseInPlace(session, at, status);
      hide Closed;
      SameButRemoved(before, Valued(active), session.visitor);
      FileAway(session);
    }

    /** A session that has just ended: everything else in use is still apart from what is completed. */
    ghost predicate JustEnded(session: SessionRecord)
      reads this, Objects(active), Members(completed), Members(finished), session
    {
      && Unique(active) && !session.status.Active?
      && (forall i | 0 <= i < |active| :: active[i].value.visitor == active[i].key)
      && (forall i | 0 <= i < |active| && active[i].key != session.visitor :: active[i].value.status.Active?)
      && (forall o | o in completed :: !o.status.Active?)
      && (forall o | o in finished :: !o.status.Active?)
    }

    method FileAway(session: SessionRecord)
      requires JustEnded(session)
      modifies this
      ensures Separate() && active == Remove(old(active), session.visitor) && finished == old(finished) + [session]
      ensures View() == old(View()).(
          active := Remove(old(Valued(active)), session.visitor),
          tracks := if session.track.Some? then Remove(old(tracks), session.track.value) else old(tracks),
          completed := Push(old(Snapshots(completed)), session.Value(), cfg.maxCompleted),
          finished := old(Snapshots(finished)) + [session.Value()])
    {
      hide Remove, Valued, Snapshots, Unique, Objects, Members;
      PushSnapshots(completed, session, cfg.maxCompleted);
      PushedIsKnown(completed, session, cfg.maxCompleted);
      SnapshotsAppend(finished, session, Snapshots(finished));
      RemoveValued(active, session.visitor);
      RemovedAreOthers(active, session.visitor);
      MoveToCompleted(session);
      assert Valued(active) == Remove(old(Valued(active)), session.visitor);
      assert Snapshots(completed) == Push(old(Snapshots(completed)), session.Value(), cfg.maxCompleted);
      assert Snapshots(finished) == old(Snapshots(finished)) + [session.Value()];
    }

    method CompleteEach(visitors: seq<nat>, at: real, status: Status)
      requires Separate() && !status.Active?
      requires forall i | 0 <= i < |visitors| :: Get(active, visitors[i]).Some? && visitors[i] !in visitors[..i]
      modifies this, Objects(active)
      ensures Separate() && View() == CompleteAll(cfg, old(View()), visitors, at, status)
      ensures Objects(active) <= old(Objects(active)) && old(finished) <= finished
    {
      hide Complete, Get, Valued, Snapshots, Unique;
      for i := 0 to |visitors|
        invariant Separate() && View() == CompleteAll(cfg, old(View()), visitors[..i], at, status)
        invariant forall j | i <= j < |visitors| :: Get(active, visitors[j]).Some?
        invariant Objects(active) <= old(Objects(active)) && old(finished) <= finished
      {
        assert visitors[..i + 1][..i] == visitors[..i];
        GetValued(active, visitors[i]);
        FoundUnderKey(active, visitors[i]);
        ghost var before := active;
        CompleteSession(Get(active, visitors[i]).value, at, status);
        RemovedObjects(before, visitors[i]);
        forall j | i < j < |visitors|
          ensures Get(active, visitors[j]).Some?
        {
          GetRemove(before, visitors[i], visitors[j]);
          assert visitors[i] in visitors[..j];
        }
      }
      assert visitors[..|visitors|] == visitors;
    }

    method CleanupStale(now: real)
      requires Separate()
      modifies this, Objects(active)
      ensures Separate() && View() == Cleanup(cfg, old(View()), now)
      ensures Objects(active) <= old(Objects(active)) && old(finished) <= finished
    {
      hide Get, Unique, CompleteAll, Valued, Snapshots;
      var stale: seq<nat> := [];
      for i := 0 to |active|
        invariant stale == StaleVisitors(cfg, Valued(active)[..i], now)
        modifies {}
      {
        assert Valued(active)[..i + 1][..i] == Valued(active)[..i];
        if now - active[i].value.lastSeenAt > cfg.timeout {
          stale := stale + [active[i].key];
        }
      }
      assert Valued(active)[..|active|] == Valued(active);
      UniqueValued(active);
      StaleAreActive(cfg, Valued(active), now);
      forall i | 0 <= i < |stale|
        ensures Get(active, stale[i]).Some?
      {
        GetValued(active, stale[i]);
      }
      CompleteEach(stale, now, TimedOut);
    }

    method CloseAll(at: real, status: Status)
      requires Separate() && !status.Active?
      modifies this, Objects(active)
      ensures Separate() && View() == CloseAllActive(cfg, old(View()), at, status)
      ensures Objects(active) <= old(Objects(active)) && old(finished) <= finished
    {
      hide Get, Unique, CompleteAll, Valued, Snapshots;
      var keys: seq<nat> := [];
      for i := 0 to |active|
        invariant keys == Keys(Valued(active)[..i])
        modifies {}
      {
        assert Valued(active)[..i + 1][..i] == Valued(active)[..i];
        keys := keys + [active[i].key];
      }
      assert Valued(active)[..|active|] == Valued(active);
      UniqueValued(active);
      KeysAreActive(Valued(active));
      forall i | 0 <= i < |keys|
        ensures Get(active, keys[i]).Some?
      {
        GetValued(active, keys[i]);
      }
      CompleteEach(keys, at, status);
    }

    method SetTracks(mappings: seq<Binding<int, nat>>)
      requires Separate()
      modifies this`tracks
      ensures Separate() && View() == old(View()).(tracks := mappings)
    {
      tracks := mappings;
    }

    method TrimTrackMappings()
      requires Separate()
      modifies this`tracks
      ensures Separate() && View() == old(View()).(tracks := TrimTracks(cfg, old(tracks), Valued(active)))
      ensures Valued(active) == old(Valued(active))
    {
      hide Get, Valued, Snapshots, Separate;
      if |tracks| <= cfg.maxTracks {
        return;
      }
      var live: seq<Binding<int, nat>> := [];
      for i := 0 to |tracks|
        invariant live == OnlyActive(tracks[..i], Valued(active)) && Separate() && View() == old(View())
        modifies {}
      {
        assert tracks[..i + 1][..i] == tracks[..i];
        GetValued(active, tracks[i].value);
        if Get(active, tracks[i].value).Some? {
          live := live + [tracks[i]];
        }
      }
      assert tracks[..|tracks|] == tracks;
      SetTracks(if |live| > cfg.maxTracks then live[|live| - cfg.maxTracks..] else live);
    }

    method NextSequence() returns (sequence: nat)
      requires Separate()
      modifies this`nextSequence
      ensures sequence == old(nextSequence) + 1
      ensures Separate() && View() == old(View()).(nextSequence := sequence)
    {
      nextSequence := nextSequence + 1;
      sequence := nextSequence;
    }

    /** The supply never gives a visitor id again that was used before. */
    method KnowVisitor(visitor: nat)
      requires Separate()
      modifies this`nextVisitor
      ensures Separate() && View() == old(View()).(nextVisitor := if visitor >= old(nextVisitor) then visitor + 1 else old(nextVisitor))
    {
      if visitor >= nextVisitor {
        nextVisitor := visitor + 1;
      }
    }

    ghost method Count(entry: nat, reentry: nat, replaced: nat)
      requires Separate()
      modifies this`entries, this`reentries, this`overwritten
      ensures Separate()
      ensures View() == old(View()).(entries := old(entries) + entry, reentries := old(reentries) + reentry,
                                     overwritten := old(overwritten) + replaced)
    {
      hide Valued, Snapshots, Unique;
      entries, reentries, overwritten := entries + entry, reentries + reentry, overwritten + replaced;
    }

    /** A new session object goes into the table of those in use, in place of the visitor's earlier one if there is one. */
    method StartSession(visitor: nat, sequence: nat, e: Signal, totalDwell: real) returns (session: SessionRecord)
      requires Separate()
      modifies this`active
      ensures Separate() && fresh(session) && session.Value() == NewSession(visitor, sequence, e, totalDwell)
      ensures View() == old(View()).(active := Set(old(Valued(active)), visitor, session.Value()))
      ensures Objects(active) <= old(Objects(active)) + {session}
    {
      hide Get, Set, Valued, Snapshots, Unique;
      ghost var before := View();
      session := new SessionRecord(visitor, sequence, e, totalDwell);
      FiledAnew(active, session);
      active := Set(active, visitor, session);
      assert Snapshots(completed) == before.completed && Snapshots(finished) == before.finished;
    }

    method EnterStore(e: Signal) returns (session: SessionRecord)
      requires Separate()
      modifies this
      ensures Separate() && (View(), Changed(session.Value())) == HandleEntry(cfg, old(View()), e)
      ensures fresh(session) && Objects(active) <= old(Objects(active)) + {session} && finished == old(finished)
    {
      hide Get, Set, TrimTracks, Valued, Snapshots, Objects, Members, Separate;
      var visitor := nextVisitor;
      KnowVisitor(visitor);
      var sequence := NextSequence();
      session := StartSession(visitor, sequence, e, 0.0);
      if e.track.Some? {
        SetTracks(Set(tracks, e.track.value, visitor));
        TrimTrackMappings();
      }
      Count(1, 0, 0);
    }

    method ResumeVisitor(visitor: nat, e: Signal) returns (session: SessionRecord)
      requires Separate()
      modifies this
      ensures Separate() && (View(), Changed(session.Value())) == Resume(old(View()), visitor, e)
      ensures fresh(session) && Objects(active) <= old(Objects(active)) + {session} && finished == old(finished)
    {
      hide Get, Set, GetSession, Valued, Snapshots, Objects, Members, Separate;
      ghost var replaced, before := Get(active, visitor).Some?, View();
      GetValued(active, visitor);
      assert replaced == Get(before.active, visitor).Some?;
      var prior := GetSessionOf(visitor);
      var sequence, dwell := 0, 0.0;
      if prior.Some? {
        sequence, dwell := prior.value.sequence, prior.value.totalDwell;
      } else {
        sequence := NextSequence();
      }
      hide GetSession;
      session := StartSession(visitor, sequence, e, dwell);
      RegisterReturn(visitor, e.track, if replaced then 1 else 0);
    }

    /** The track leads to a returning visitor, who is known and counted. */
    method RegisterReturn(visitor: nat, track: Option<int>, ghost replaced: nat)
      requires Separate()
      modifies this`tracks, this`nextVisitor, this`reentries, this`overwritten, this`entries
      ensures Separate()
      ensures View() == old(View()).(
          tracks := if track.Some? then Set(old(tracks), track.value, visitor) else old(tracks),
          nextVisitor := if visitor >= old(nextVisitor) then visitor + 1 else old(nextVisitor),
          reentries := old(reentries) + 1, overwritten := old(overwritten) + replaced)
    {
      hide Set, Valued, Snapshots, Objects, Members, Separate;
      if track.Some? {
        SetTracks(Set(tracks, track.value, visitor));
      }
      KnowVisitor(visitor);
      Count(0, 1, replaced);
    }

    method ExitStore(e: Signal) returns (outcome: Outcome)
      requires Separate()
      modifies this, Objects(active)
      ensures Separate() && (View(), outcome) == HandleExit(cfg, old(View()), e)
      ensures Objects(active) <= old(Objects(active)) && old(finished) <= finished
    {
      hide Get, Set, Unique, Complete, SumDwell, CloseVisits, Resolve, Valued, Snapshots;
      var found := ResolveSession(e);
      if found.None? {
        return NoSession;
      }
      InUse(found.value);
      RemovedObjects(active, found.value.visitor);
      CompleteSession(found.value, e.at, Completed);
      outcome := Changed(found.value.Value());
    }

    /** A session in use gets other visits and is seen again. */
    method ChangeVisits(session: SessionRecord, visits: seq<ZoneVisit>, totalDwell: real, at: real)
      requires Separate() && Get(active, session.visitor) == Some(session)
      modifies session
      ensures session.Value() == old(session.Value()).(visits := visits, totalDwell := totalDwell, lastSeenAt := at)
      ensures Separate() && View() == Touch(old(View()), session.Value())
    {
      hide Get, Valued, Snapshots, Unique;
      ghost var before := Valued(active);
      InUse(session);
      session.visits, session.totalDwell, session.lastSeenAt := visits, totalDwell, at;
      assert forall i | 0 <= i < |completed| :: completed[i] != session;
      assert forall i | 0 <= i < |finished| :: finished[i] != session;
      assert Snapshots(completed) == old(Snapshots(completed)) && Snapshots(finished) == old(Snapshots(finished));
      ChangedInPlace(before, Valued(active), session.visitor, session.Value());
    }

    method RecountVisits(session: SessionRecord, visits: seq<ZoneVisit>, at: real)
      requires Separate() && Get(active, session.visitor) == Some(session)
      modifies session
      ensures session.Value() == old(session.Value()).(visits := visits, totalDwell := SumDwell(visits), lastSeenAt := at)
      ensures Separate() && View() == Touch(old(View()), session.Value())
    {
      hide SumDwell, Valued, Snapshots, Unique, Get, Set;
      var total := Total(visits);
      assert View() == old(View()) && Separate();
      ChangeVisits(session, visits, total, at);
    }

    method FindVisit(session: SessionRecord, zone: string) returns (index: Option<nat>)
      requires Separate()
      ensures index.Some? <==> Visiting(session.visits, zone)
      ensures index.Some? ==> index.value < |session.visits|
      ensures index.Some? ==> forall c: VisitChange ::
        session.visits[index.value := ChangedVisit(session.visits[index.value], c)] == UpdateVisit(session.visits, zone, c)
      ensures Separate() && View() == old(View())
    {
      hide Valued, Snapshots, Unique, Visiting, UpdateVisit;
      index := ActiveZoneVisit(session.visits, zone);
    }

    method EnterZone(e: Signal) returns (outcome: Outcome)
      requires Separate()
      modifies this, Objects(active)
      ensures Separate() && (View(), outcome) == HandleZoneEnter(old(View()), e)
      ensures active == old(active) && finished == old(finished)
    {
      hide Get, Set, Resolve, Visiting, UpdateVisit, Valued, Snapshots, Objects, Members, Separate;
      var found := ResolveSession(e);
      if found.None? {
        return NoSession;
      }
      var session := found.value;
      InUse(session);
      if e.zone == "" {
        return Changed(session.Value());
      }
      var visit := FindVisit(session, e.zone);
      if visit.Some? {
        return Changed(session.Value());
      }
      var sequence := if e.sequence.Some? then e.sequence.value else |session.visits| + 1;
      ChangeVisits(session, session.visits + [ZoneVisit(e.zone, sequence, e.at, None, 0.0, 0)], session.totalDwell, e.at);
      if e.track.Some? {
        SetTracks(Set(tracks, e.track.value, session.visitor));
      }
      outcome := Changed(session.Value());
    }

    method LeaveZone(e: Signal) returns (outcome: Outcome)
      requires Separate()
      modifies Objects(active)
      ensures Separate() && (View(), outcome) == HandleZoneExit(old(View()), e)
    {
      hide Get, Set, Resolve, Visiting, UpdateVisit, SumDwell, Valued, Snapshots, Objects, Members, Separate;
      var found := ResolveSession(e);
      if found.None? {
        return NoSession;
      }
      var session := found.value;
      InUse(session);
      var visit := FindVisit(session, e.zone);
      if visit.None? {
        return Changed(session.Value());
      }
      var visits := session.visits[visit.value := ChangedVisit(session.visits[visit.value], Leave(e.at, e.dwell))];
      RecountVisits(session, visits, e.at);
      outcome := Changed(session.Value());
    }

    method DwellInZone(e: Signal) returns (outcome: Outcome)
      requires Separate()
      modifies Objects(active)
      ensures Separate() && (View(), outcome) == HandleZoneDwell(old(View()), e)
    {
      hide Get, Set, Resolve, Visiting, SumDwell, Valued, Snapshots, Objects, Members, Separate;
      var found := ResolveSession(e);
      if found.None? {
        return NoSession;
      }
      var session := found.value;
      InUse(session);
      var visits := session.visits;
      var visit := FindVisit(session, e.zone);
      if visit.Some? {
        hide UpdateVisit;
        visits := visits[visit.value := ChangedVisit(visits[visit.value], Dwell(e.dwell))];
      } else {
        var sequence := if e.sequence.Some? then e.sequence.value else 1;
        var opened' := ZoneVisit(e.zone, sequence, e.at, None, 0.0, 0);
        UpdateNewest(visits, opened', Dwell(e.dwell));
        hide UpdateVisit;
        visits := visits + [ChangedVisit(opened', Dwell(e.dwell))];
      }
      RecountVisits(session, visits, e.at);
      outcome := Changed(session.Value());
    }

    /**
     One event does exactly what the model says, given tables that earlier events left. It reaches sessions in use
     only: those completed before are the same objects with the same contents afterwards.
     */
    method ProcessEvent(e: Signal) returns (outcome: Outcome)
      requires Inv(cfg, View())
      modifies this, Objects(active)
      ensures (View(), outcome) == Process(cfg, old(View()), e)
      ensures Inv(cfg, View()) && fresh(Objects(active) - old(Objects(active)))
      ensures old(finished) <= finished && forall o | o in old(finished) :: unchanged(o)
    {
      hide Inv, Cleanup, HandleEntry, Resume, HandleExit, HandleZoneEnter, HandleZoneExit, HandleZoneDwell, Valued, Snapshots;
      hide Unique, Separate;
      ProcessKeeps(cfg, View(), e);
      InvSeparate(this);
      CompletedApart();
      CleanupStale(e.at);
      match e.kind {
        case Entry =>
          var session := EnterStore(e);
          outcome := Changed(session.Value());
        case Reentry =>
          if e.visitor.None? {
            outcome := BadVisitor;
          } else {
            var session := ResumeVisitor(e.visitor.value, e);
            outcome := Changed(session.Value());
          }
        case Exit => outcome := ExitStore(e);
        case ZoneEnter => outcome := EnterZone(e);
        case ZoneExit => outcome := LeaveZone(e);
        case ZoneDwell => outcome := DwellInZone(e);
        case OtherKind => outcome := NoSession;
      }
    }

    /** However a run goes on, nothing it does reaches a session that was completed before. */
    method ProcessEvents(events: seq<Signal>)
      requires Inv(cfg, View())
      modifies this, Objects(active)
      ensures View() == ProcessFrom(cfg, old(View()), events) && Inv(cfg, View())
      ensures fresh(Objects(active) - old(Objects(active)))
      ensures old(finished) <= finished && forall o | o in old(finished) :: unchanged(o)
    {
      hide Inv, Process, Valued, Snapshots, Members;
      for i := 0 to |events|
        invariant View() == ProcessFrom(cfg, old(View()), events[..i]) && Inv(cfg, View())
        invariant fresh(Objects(active) - old(Objects(active)))
        invariant old(finished) <= finished && forall o | o in old(finished) :: unchanged(o)
      {
        assert events[..i + 1][..i] == events[..i];
        ghost var before := finished;
        var _ := ProcessEvent(events[i]);
        forall o | o in old(finished)
          ensures unchanged(o)
        {
          assert o in before;
        }
      }
      assert events[..|events|] == events;
    }

    lemma {:induction false} CompletedApart()
      requires Separate()
      ensures forall o | o in finished :: o !in Objects(active)
    {
    }
  }

  lemma {:induction false} InvGood(cfg: Settings, st: State)
    requires Inv(cfg, st)
    ensures GoodActive(st.active) && Unique(st.active)
  {
    hide Unique, Window, Numbered, Get, Good;
  }

  lemma {:induction false} UpdateNewest(visits: seq<ZoneVisit>, v: ZoneVisit, c: VisitChange)
    requires v.exitedAt.None?
    ensures UpdateVisit(visits + [v], v.zone, c) == visits + [ChangedVisit(v, c)]
  {
    assert (visits + [v])[..|visits|] == visits;
  }

  lemma {:induction false} StaleAreActive(cfg: Settings, active: seq<Binding<nat, VisitorSession>>, now: real)
    requires Unique(active)
    ensures var s := StaleVisitors(cfg, active, now);
      forall i | 0 <= i < |s| :: Get(active, s[i]).Some? && s[i] !in s[..i]
  {
    if active != [] {
      var front, last := active[..|active| - 1], active[|active| - 1];
      StaleAreActive(cfg, front, now);
      StaleVisitorsExactly(cfg, front, now, last.key);
      var s, t := StaleVisitors(cfg, front, now), StaleVisitors(cfg, active, now);
      forall i | 0 <= i < |t|
        ensures Get(active, t[i]).Some? && t[i] !in t[..i]
      {
        if i < |s| {
          assert t[i] == s[i] && t[..i] == s[..i];
        } else {
          assert t[..i] == s;
        }
      }
    }
  }

  lemma {:induction false} KeysAreActive(active: seq<Binding<nat, VisitorSession>>)
    requires Unique(active)
    ensures forall i | 0 <= i < |Keys(active)| :: Get(active, Keys(active)[i]).Some? && Keys(active)[i] !in Keys(active)[..i]
  {
    if active != [] {
      var front, last := active[..|active| - 1], active[|active| - 1];
      KeysAreActive(front);
      KeysExactly(front, last.key);
      var s, t := Keys(front), Keys(active);
      forall i | 0 <= i < |t|
        ensures Get(active, t[i]).Some? && t[i] !in t[..i]
      {
        if i < |s| {
          assert t[i] == s[i] && t[..i] == s[..i];
        } else {
          assert t[..i] == s;
        }
      }
    }
  }

  /** The tables that a run leaves keep what is in use apart from what is completed. */
  lemma {:induction false} InvSeparate(engine: SessionEngine)
    requires Inv(engine.cfg, engine.View())
    ensures engine.Separate()
  {
    hide Valued, Snapshots, Numbered, Balanced, Get, Unique;
    var st := engine.View();
    UniqueValued(engine.active);
    forall i | 0 <= i < |engine.active|
      ensures engine.active[i].value.status.Active? && engine.active[i].value.visitor == engine.active[i].key
    {
      KeyIsActive(engine.active, i);
      GetValued(engine.active, engine.active[i].key);
      assert Good(Get(st.active, st.active[i].key).value, st.active[i].key);
    }
    forall i | 0 <= i < |engine.finished|
      ensures !engine.finished[i].status.Active?
    {
      assert Sealed(st.finished[i]);
    }
    forall i | 0 <= i < |engine.completed|
      ensures !engine.completed[i].status.Active?
    {
      assert Sealed(st.finished[|st.finished| - |st.completed| + i]);
      assert st.completed[i] == st.finished[|st.finished| - |st.completed| + i];
    }
  }

  lemma {:induction false} UniqueValued(m: seq<Binding<nat, SessionRecord>>)
    ensures Unique(Valued(m)) <==> Unique(m)
  {
    if m != [] {
      UniqueValued(m[..|m| - 1]);
      GetValued(m[..|m| - 1], m[|m| - 1].key);
      assert Valued(m)[..|m| - 1] == Valued(m[..|m| - 1]);
    }
  }

  /** A new session object filed under its visitor. */
  lemma {:induction false} FiledAnew(m: seq<Binding<nat, SessionRecord>>, o: SessionRecord)
    requires Unique(m)
    ensures var n := Set(m, o.visitor, o);
      && Unique(n) && Objects(n) <= Objects(m) + {o} && Valued(n) == Set(Valued(m), o.visitor, o.Value())
      && forall i | 0 <= i < |n| :: n[i] in m || n[i] == Binding(o.visitor, o)
  {
    hide Unique, Valued, Objects;
    UniqueSet(m, o.visitor, o);
    SetValued(m, o.visitor, o);
    ReplacedIn(m, o.visitor, o);
  }

  lemma {:induction false} ReplacedIn(m: seq<Binding<nat, SessionRecord>>, k: nat, o: SessionRecord)
    ensures forall b | b in Replace(m, k, o) :: b in m || b == Binding(k, o)
  {
    if m != [] {
      ReplacedIn(m[..|m| - 1], k, o);
    }
  }

  lemma {:induction false} RemovedObjects(m: seq<Binding<nat, SessionRecord>>, k: nat)
    requires Unique(m)
    ensures Objects(Remove(m, k)) <= Objects(m)
  {
    hide Unique, Remove;
    RemovedAreOthers(m, k);
    var n := Remove(m, k);
    forall o | o in Objects(n)
      ensures o in Objects(m)
    {
      var i :| 0 <= i < |n| && n[i].value == o;
      assert n[i] in m;
    }
  }

  lemma {:induction false} FoundUnderKey(m: seq<Binding<nat, SessionRecord>>, k: nat)
    requires forall i | 0 <= i < |m| :: m[i].value.visitor == m[i].key
    ensures Get(m, k).Some? ==> Get(m, k).value.visitor == k
  {
    if m != [] {
      FoundUnderKey(m[..|m| - 1], k);
    }
  }

  /** A session object is in the table only once. */
  lemma {:induction false} OnlyUnderKey(m: seq<Binding<nat, SessionRecord>>, o: SessionRecord)
    requires (forall i | 0 <= i < |m| :: m[i].value.visitor == m[i].key) && Unique(m) && Get(m, o.visitor) == Some(o)
    ensures forall i | 0 <= i < |m| :: m[i].value == o <==> m[i].key == o.visitor
  {
    hide Unique, Get;
    forall i | 0 <= i < |m|
      ensures m[i].value == o <==> m[i].key == o.visitor
    {
      KeyIsActive(m, i);
    }
  }

  /** What is left after removing a key was there before under another key. */
  lemma {:induction false} RemovedAreOthers(m: seq<Binding<nat, SessionRecord>>, k: nat)
    requires Unique(m)
    ensures Unique(Remove(m, k)) && forall i | 0 <= i < |Remove(m, k)| :: Remove(m, k)[i] in m && Remove(m, k)[i].key != k
  {
    UniqueRemove(m, k);
    if m != [] {
      RemovedAreOthers(m[..|m| - 1], k);
    }
  }

  lemma {:induction false} SnapshotsAppend(sessions: seq<SessionRecord>, o: SessionRecord, before: seq<VisitorSession>)
    requires Snapshots(sessions) == before
    ensures Snapshots(sessions + [o]) == before + [o.Value()]
  {
    assert (sessions + [o])[..|sessions|] == sessions;
  }

  lemma {:induction false} PushSnapshots(sessions: seq<SessionRecord>, o: SessionRecord, max: nat)
    ensures Snapshots(Push(sessions, o, max)) == Push(Snapshots(sessions), o.Value(), max)
  {
    SnapshotsAppend(sessions, o, Snapshots(sessions));
    BoundedSnapshots(sessions + [o], max);
    hide Snapshots, Bounded;
  }

  lemma {:induction false} BoundedSnapshots(sessions: seq<SessionRecord>, max: nat)
    ensures Snapshots(Bounded(sessions, max)) == Bounded(Snapshots(sessions), max)
  {
    hide Snapshots;
    if |sessions| > max {
      SnapshotsDrop(sessions, |sessions| - max);
    }
  }

  lemma {:induction false} PushedIsKnown<T>(items: seq<T>, item: T, max: nat)
    ensures forall p | p in Push(items, item, max) :: p == item || p in items
  {
  }

  lemma {:induction false} SnapshotsDrop(sessions: seq<SessionRecord>, d: nat)
    requires d <= |sessions|
    ensures Snapshots(sessions[d..]) == Snapshots(sessions)[d..]
  {
  }
}
