/**
 The aggregation loop: session objects shared between a map of active sessions, a list of
 completed ones and a map of recent exits, all changed in place row by row.
 */
module FunnelAggregator {
  import opened Options
  import opened Sequences
  import opened FunnelModel
  import opened Sums
  import opened FunnelTheorems

  /** The stages before `stage` in the stage order. */
  function Earlier(stage: Stage): set<Stage> {
    match stage
    case EntryStage => {}
    case ZoneVisitStage => {EntryStage}
    case BillingQueueStage => {EntryStage, ZoneVisitStage}
    case PurchaseStage => {EntryStage, ZoneVisitStage, BillingQueueStage}
  }

  class FunnelSession {
    const visitorKey: string
    const enteredAt: int
    var reached: set<Stage>
    var exitedAt: Option<int>
    var isActive: bool
    var reentryMerged: bool

    constructor (key: string, at: int)
      ensures visitorKey == key && enteredAt == at
      ensures reached == {} && exitedAt == None && isActive && !reentryMerged
    {
      visitorKey, enteredAt := key, at;
      reached, exitedAt, isActive, reentryMerged := {}, None, true, false;
    }

    /** Record a stage only when every earlier stage has been reached. */
    method MarkStage(stage: Stage)
      modifies this`reached
      ensures reached == old(reached) + (if Earlier(stage) <= old(reached) then {stage} else {})
    {
      var i := 0;
      while i < Index(stage)
        invariant 0 <= i <= Index(stage)
        invariant forall j | 0 <= j < i :: STAGE_ORDER[j] in reached
      {
        if STAGE_ORDER[i] !in reached {
          assert STAGE_ORDER[i] in Earlier(stage);
          return;
        }
        i := i + 1;
      }
      assert forall x | x in Earlier(stage) :: Index(x) < i && x == STAGE_ORDER[Index(x)];
      reached := reached + {stage};
    }

    /** Record a stage together with every earlier stage. */
    method ForceMark(stage: Stage)
      modifies this`reached
      ensures reached == old(reached) + set s: Stage | Index(s) <= Index(stage)
    {
      for i := 0 to Index(stage) + 1
        invariant reached == old(reached) + set s: Stage | Index(s) < i
      {
        reached := reached + {STAGE_ORDER[i]};
      }
    }

    method Close(at: int)
      modifies this`isActive, this`exitedAt
      ensures !isActive && exitedAt == Some(at)
    {
      isActive, exitedAt := false, Some(at);
    }

    method Reopen()
      modifies this`isActive, this`exitedAt, this`reentryMerged
      ensures isActive && exitedAt == None && reentryMerged
    {
      isActive, exitedAt, reentryMerged := true, None, true;
    }

    method EnsureEntry()
      modifies this`reached
      ensures reached == old(reached) + {EntryStage}
    {
      if EntryStage !in reached {
        ForceMark(EntryStage);
      }
    }
  }

  /** The sessions of visitor `k`, in list order. */
  ghost function SessionsOf(ss: seq<FunnelSession>, k: string): seq<FunnelSession> {
    if ss == [] then []
    else
      var last := ss[|ss| - 1];
      SessionsOf(ss[..|ss| - 1], k) + (if last.visitorKey == k then [last] else [])
  }

  lemma {:induction false} SessionsMember(ss: seq<FunnelSession>, k: string, s: FunnelSession)
    requires s in SessionsOf(ss, k)
    ensures s in ss && s.visitorKey == k
  {
    if s != ss[|ss| - 1] || s !in [ss[|ss| - 1]] {
      SessionsMember(ss[..|ss| - 1], k, s);
    } else if ss[|ss| - 1].visitorKey != k {
      SessionsMember(ss[..|ss| - 1], k, s);
    }
  }

  lemma {:induction false} SessionsKeep(ss: seq<FunnelSession>, s: FunnelSession)
    requires s in ss
    ensures s in SessionsOf(ss, s.visitorKey)
  {
    if s != ss[|ss| - 1] {
      SessionsKeep(ss[..|ss| - 1], s);
    }
  }

  lemma {:induction false} SessionsConcat(a: seq<FunnelSession>, b: seq<FunnelSession>, k: string)
    ensures SessionsOf(a + b, k) == SessionsOf(a, k) + SessionsOf(b, k)
  {
    if b == [] {
      assert a + b == a;
    } else {
      SessionsConcat(a, b[..|b| - 1], k);
      assert (a + b)[..|a + b| - 1] == a + b[..|b| - 1];
    }
  }

  lemma {:induction false} SessionsAppend(ss: seq<FunnelSession>, s: FunnelSession, k: string)
    ensures SessionsOf(ss + [s], k) == SessionsOf(ss, k) + (if s.visitorKey == k then [s] else [])
  {
    assert (ss + [s])[..|ss|] == ss;
  }

  /** The list around position `i`, seen by visitor `k`. */
  lemma {:induction false} SplitSessions(ss: seq<FunnelSession>, i: nat, k: string)
    requires i < |ss|
    ensures SessionsOf(ss, k) ==
      SessionsOf(ss[..i], k) + (if ss[i].visitorKey == k then [ss[i]] else []) + SessionsOf(ss[i + 1..], k)
    ensures SessionsOf(ss[..i] + ss[i + 1..], k) == SessionsOf(ss[..i], k) + SessionsOf(ss[i + 1..], k)
  {
    var head, one, tail := ss[..i], [ss[i]], ss[i + 1..];
    assert ss == head + one + tail;
    SessionsConcat(head + one, tail, k);
    SessionsConcat(head, one, k);
    SessionsConcat(head, tail, k);
    assert SessionsOf(one, k) == if one[0].visitorKey == k then one else [];
  }

  /** If the session at `i` is its visitor's latest, the visitor has none after it. */
  lemma {:induction false} NoneAfter(ss: seq<FunnelSession>, i: nat)
    requires i < |ss| && ss[i] !in ss[i + 1..]
    requires var mine := SessionsOf(ss, ss[i].visitorKey); mine != [] && mine[|mine| - 1] == ss[i]
    ensures SessionsOf(ss[i + 1..], ss[i].visitorKey) == []
  {
    var late := SessionsOf(ss[i + 1..], ss[i].visitorKey);
    if late != [] {
      SessionsMember(ss[i + 1..], ss[i].visitorKey, late[|late| - 1]);
    }
    SplitSessions(ss, i, ss[i].visitorKey);
  }

  /** Dropping a session that is the latest of its visitor shortens that visitor's list by one. */
  lemma {:induction false} DropLast(ss: seq<FunnelSession>, i: nat, k: string)
    requires i < |ss|
    requires SessionsOf(ss[i + 1..], ss[i].visitorKey) == []
    ensures var now := SessionsOf(ss[..i] + ss[i + 1..], k); var was := SessionsOf(ss, k);
      if k == ss[i].visitorKey then was == now + [ss[i]] else was == now
  {
    SplitSessions(ss, i, k);
    var a, c := SessionsOf(ss[..i], k), SessionsOf(ss[i + 1..], k);
    if k == ss[i].visitorKey {
      assert a + [ss[i]] + c == a + [ss[i]];
      assert a + c == a;
    } else {
      assert a + [] + c == a + c;
    }
  }

  function At(m: map<string, Visitor>, k: string): Visitor {
    if k in m then m[k] else NEW_VISITOR
  }

  /** The number of merged returns over all visitors. */
  ghost function MergedTotal(m: map<string, Visitor>): nat {
    Total(map k | k in m :: m[k].merged)
  }

  lemma {:induction false} MergedUpdate(m: map<string, Visitor>, k: string, v: Visitor)
    ensures MergedTotal(m[k := v]) == MergedTotal(m) - At(m, k).merged + v.merged
  {
    var c := map j | j in m :: m[j].merged;
    var n := m[k := v];
    TotalUpdate(c, k, v.merged);
    assert (map j | j in n :: n[j].merged) == c[k := v.merged];
  }

  // ---------------------------------------------------------------------------
  // The three collections as a value, and how they show each visitor
  // ---------------------------------------------------------------------------

  datatype Books = Books(
    active: map<string, FunnelSession>,
    completed: seq<FunnelSession>,
    exits: map<string, (FunnelSession, int)>,
    logs: map<FunnelSession, seq<Row>>)
  {
    /** The collections agree with each other. */
    ghost predicate Consistent() {
      && (forall k | k in active :: active[k].visitorKey == k && active[k] !in completed && active[k] in logs)
      && (forall s | s in completed :: s in logs)
      && Distinct(completed)
      && (forall k | k in exits :: exits[k].0.visitorKey == k && LastOf(exits[k].0, k))
    }

    /** `s` is the latest completed session of visitor `k`. */
    ghost predicate LastOf(s: FunnelSession, k: string) {
      var mine := SessionsOf(completed, k);
      mine != [] && mine[|mine| - 1] == s
    }

    /** The collections show visitor `k` as `v`. */
    ghost predicate Shows(k: string, v: Visitor)
      requires Consistent()
    {
      var mine := SessionsOf(completed, k);
      && ValidVisitor(v)
      && |v.closed| == |mine|
      && (forall i | 0 <= i < |mine| :: mine[i] in logs && v.closed[i] == logs[mine[i]])
      && v.active == (if k in active then Some(logs[active[k]]) else None)
      && v.exitAt == (if k in exits then Some(exits[k].1) else None)
    }

    ghost predicate ShowsAll(visitors: map<string, Visitor>) {
      Consistent() && forall k: string {:trigger Shows(k, At(visitors, k))} :: Shows(k, At(visitors, k))
    }

    ghost function Close(s: FunnelSession, at: int): Books {
      Books(active - {s.visitorKey}, completed + [s], exits[s.visitorKey := (s, at)], logs)
    }

    ghost function Resume(s: FunnelSession, i: nat): Books
      requires i < |completed|
    {
      Books(active[s.visitorKey := s], completed[..i] + completed[i + 1..], exits - {s.visitorKey}, logs)
    }

    ghost function Start(s: FunnelSession): Books {
      Books(active[s.visitorKey := s], completed, exits, logs[s := []])
    }

    ghost function Absorb(s: FunnelSession, r: Row): Books
      requires s in logs
    {
      Books(active, completed, exits, logs[s := logs[s] + [r]])
    }

    lemma {:induction false} CloseShows(visitors: map<string, Visitor>, s: FunnelSession, at: int)
      requires ShowsAll(visitors)
      requires s.visitorKey in active && active[s.visitorKey] == s
      ensures var v := At(visitors, s.visitorKey);
        Close(s, at).ShowsAll(visitors[s.visitorKey := Visitor(v.closed + [logs[s]], None, Some(at), v.merged)])
    {
      var v := At(visitors, s.visitorKey);
      var now := visitors[s.visitorKey := Visitor(v.closed + [logs[s]], None, Some(at), v.merged)];
      CloseConsistent(s, at);
      forall j: string
        ensures Close(s, at).Shows(j, At(now, j))
      {
        assert Shows(j, At(visitors, j));
        CloseShowsOne(j, At(visitors, j), s, at);
      }
    }

    lemma {:induction false} CloseShowsOne(j: string, v: Visitor, s: FunnelSession, at: int)
      requires Consistent() && Shows(j, v)
      requires s.visitorKey in active && active[s.visitorKey] == s
      requires Close(s, at).Consistent()
      ensures Close(s, at).Shows(j,
        if j == s.visitorKey then Visitor(v.closed + [logs[s]], None, Some(at), v.merged) else v)
    {
      SessionsAppend(completed, s, j);
    }

    lemma {:induction false} CloseConsistent(s: FunnelSession, at: int)
      requires Consistent()
      requires s.visitorKey in active && active[s.visitorKey] == s
      ensures Close(s, at).Consistent()
    {
      var b := Close(s, at);
      forall j | j in b.exits
        ensures b.LastOf(b.exits[j].0, j)
      {
        assert j != s.visitorKey ==> LastOf(exits[j].0, j);
        SessionsAppend(completed, s, j);
      }
    }

    lemma {:induction false} ResumeShows(visitors: map<string, Visitor>, s: FunnelSession, i: nat)
      requires ShowsAll(visitors)
      requires s.visitorKey !in active && s.visitorKey in exits && exits[s.visitorKey].0 == s
      requires i < |completed| && completed[i] == s
      ensures var v := At(visitors, s.visitorKey);
        v.closed != [] && Resume(s, i).ShowsAll(visitors[s.visitorKey := Resumed(v)])
    {
      var v := At(visitors, s.visitorKey);
      assert Shows(s.visitorKey, v) && LastOf(exits[s.visitorKey].0, s.visitorKey);
      DistinctAround(completed, i);
      NoneAfter(completed, i);
      ResumeConsistent(s, i);
      var now := visitors[s.visitorKey := Resumed(v)];
      forall j: string
        ensures Resume(s, i).Shows(j, At(now, j))
      {
        assert Shows(j, At(visitors, j));
        ResumeShowsOne(j, At(visitors, j), s, i);
      }
    }

    lemma {:induction false} ResumeShowsOne(j: string, v: Visitor, s: FunnelSession, i: nat)
      requires Consistent() && Shows(j, v)
      requires s.visitorKey !in active && s.visitorKey in exits && exits[s.visitorKey].0 == s
      requires i < |completed| && completed[i] == s
      requires SessionsOf(completed[i + 1..], s.visitorKey) == []
      requires Resume(s, i).Consistent()
      ensures j == s.visitorKey ==> v.closed != []
      ensures Resume(s, i).Shows(j, if j == s.visitorKey then Resumed(v) else v)
    {
      hide SessionsOf, Distinct;
      DropLast(completed, i, j);
      if j == s.visitorKey {
        ShortenedShows(v, SessionsOf(completed, j), SessionsOf(Resume(s, i).completed, j), s);
      }
    }

    lemma {:induction false} ShortenedShows(v: Visitor, was: seq<FunnelSession>, now: seq<FunnelSession>,
                                            s: FunnelSession)
      requires was == now + [s] && |v.closed| == |was|
      requires forall i | 0 <= i < |was| :: was[i] in logs && v.closed[i] == logs[was[i]]
      ensures s in logs && v.closed != [] && v.closed[|now|] == logs[s] && |Resumed(v).closed| == |now|
      ensures forall i | 0 <= i < |now| :: now[i] in logs && Resumed(v).closed[i] == logs[now[i]]
    {
      forall i | 0 <= i < |now|
        ensures now[i] in logs && v.closed[i] == logs[now[i]]
      {
        assert was[i] == now[i];
      }
      assert was[|now|] == s;
    }

    lemma {:induction false} ResumeConsistent(s: FunnelSession, i: nat)
      requires Consistent()
      requires s.visitorKey !in active && s.visitorKey in exits && exits[s.visitorKey].0 == s
      requires i < |completed| && completed[i] == s
      requires SessionsOf(completed[i + 1..], s.visitorKey) == []
      ensures Resume(s, i).Consistent()
    {
      var b := Resume(s, i);
      DistinctAround(completed, i);
      forall j | j in b.exits
        ensures b.LastOf(b.exits[j].0, j)
      {
        assert LastOf(exits[j].0, j);
        DropLast(completed, i, j);
      }
    }

    lemma {:induction false} StartShows(visitors: map<string, Visitor>, s: FunnelSession)
      requires ShowsAll(visitors)
      requires s.visitorKey !in active && s !in logs
      ensures Start(s).ShowsAll(visitors[s.visitorKey := At(visitors, s.visitorKey).(active := Some([]))])
    {
      var b := Start(s);
      assert b.Consistent();
      var now := visitors[s.visitorKey := At(visitors, s.visitorKey).(active := Some([]))];
      forall j
        ensures b.Shows(j, At(now, j))
      {
        assert Shows(j, At(visitors, j));
      }
    }

    lemma {:induction false} AbsorbShows(visitors: map<string, Visitor>, s: FunnelSession, r: Row)
      requires ShowsAll(visitors)
      requires s.visitorKey in active && active[s.visitorKey] == s
      ensures Absorb(s, r).ShowsAll(visitors[s.visitorKey := At(visitors, s.visitorKey).(active := Some(logs[s] + [r]))])
    {
      var b := Absorb(s, r);
      assert b.Consistent();
      var now := visitors[s.visitorKey := At(visitors, s.visitorKey).(active := Some(logs[s] + [r]))];
      forall j
        ensures b.Shows(j, At(now, j))
      {
        assert Shows(j, At(visitors, j));
        forall i | 0 <= i < |SessionsOf(completed, j)|
          ensures SessionsOf(completed, j)[i] != s
        {
          SessionsMember(completed, j, SessionsOf(completed, j)[i]);
        }
      }
    }
  }

  // ---------------------------------------------------------------------------
  // Adding up all sessions is adding up the visitors
  // ---------------------------------------------------------------------------

  ghost function SumOf(w: map<FunnelSession, nat>, ss: seq<FunnelSession>): nat {
    if ss == [] then 0
    else
      var last := ss[|ss| - 1];
      SumOf(w, ss[..|ss| - 1]) + (if last in w then w[last] else 0)
  }

  lemma {:induction false} SumAppend(w: map<FunnelSession, nat>, ss: seq<FunnelSession>, s: FunnelSession)
    ensures SumOf(w, ss + [s]) == SumOf(w, ss) + (if s in w then w[s] else 0)
  {
    assert (ss + [s])[..|ss|] == ss;
  }

  ghost function SumsByVisitor(w: map<FunnelSession, nat>, ss: seq<FunnelSession>,
                               keys: set<string>): map<string, nat> {
    map k | k in keys :: SumOf(w, SessionsOf(ss, k))
  }

  lemma {:induction false} SumOfAppend(w: map<FunnelSession, nat>, ss: seq<FunnelSession>, s: FunnelSession,
                                       k: string)
    requires s in w
    ensures SumOf(w, SessionsOf(ss + [s], k)) == SumOf(w, SessionsOf(ss, k)) + (if k == s.visitorKey then w[s] else 0)
  {
    SessionsAppend(ss, s, k);
    if k == s.visitorKey {
      SumAppend(w, SessionsOf(ss, k), s);
    } else {
      assert SessionsOf(ss, k) + [] == SessionsOf(ss, k);
    }
  }

  /** One more session raises its visitor's sum and no other. */
  lemma {:induction false} SumsAppend(w: map<FunnelSession, nat>, ss: seq<FunnelSession>, s: FunnelSession,
                                      keys: set<string>)
    requires s.visitorKey in keys && s in w
    ensures Total(SumsByVisitor(w, ss + [s], keys)) == Total(SumsByVisitor(w, ss, keys)) + w[s]
  {
    var m, n := SumsByVisitor(w, ss, keys), SumsByVisitor(w, ss + [s], keys);
    forall k | k in keys
      ensures n[k] == m[k] + (if k == s.visitorKey then w[s] else 0)
    {
      SumOfAppend(w, ss, s, k);
    }
    assert n == m[s.visitorKey := n[s.visitorKey]];
    TotalUpdate(m, s.visitorKey, n[s.visitorKey]);
  }

  /** Adding up a list of sessions is adding it up visitor by visitor. */
  lemma {:induction false} VisitorsPartition(w: map<FunnelSession, nat>, ss: seq<FunnelSession>, keys: set<string>)
    requires forall s | s in ss :: s.visitorKey in keys && s in w
    ensures SumOf(w, ss) == Total(SumsByVisitor(w, ss, keys))
  {
    if ss == [] {
      TotalZero(SumsByVisitor(w, ss, keys));
    } else {
      hide *;
      var front, last := ss[..|ss| - 1], ss[|ss| - 1];
      assert ss == front + [last];
      VisitorsPartition(w, front, keys);
      SumsAppend(w, front, last, keys);
      SumAppend(w, front, last);
    }
  }

  /** What each session weighs in a count. */
  ghost function Weights(cfg: Config, what: Measure, logs: map<FunnelSession, seq<Row>>): map<FunnelSession, nat> {
    map s | s in logs :: Weight(cfg, what, logs[s])
  }

  lemma {:induction false} SumIsCount(cfg: Config, what: Measure, logs: map<FunnelSession, seq<Row>>,
                                      ss: seq<FunnelSession>, ls: seq<seq<Row>>)
    requires |ss| == |ls| && forall i | 0 <= i < |ss| :: ss[i] in logs && logs[ss[i]] == ls[i]
    ensures SumOf(Weights(cfg, what, logs), ss) == CountLogs(cfg, what, ls)
  {
    if ss != [] {
      SumIsCount(cfg, what, logs, ss[..|ss| - 1], ls[..|ls| - 1]);
    }
  }

  /** The sessions shown for a visitor add up to the visitor's count. */
  lemma {:induction false} ShownSum(cfg: Config, what: Measure, b: Books, k: string, v: Visitor,
                                    mine: seq<FunnelSession>)
    requires b.Consistent() && b.Shows(k, v)
    requires mine == SessionsOf(b.completed, k) + (if k in b.active then [b.active[k]] else [])
    ensures SumOf(Weights(cfg, what, b.logs), mine) == CountLogs(cfg, what, Sessions(v))
  {
    SumIsCount(cfg, what, b.logs, mine, Sessions(v));
  }

  lemma {:induction false} LogsMergeNothing(cfg: Config, logs: seq<seq<Row>>)
    ensures CountLogs(cfg, OfMerged, logs) == 0
  {
    if logs != [] {
      LogsMergeNothing(cfg, logs[..|logs| - 1]);
    }
  }

  class Aggregator {
    const cfg: Config
    var active: map<string, FunnelSession>
    var completed: seq<FunnelSession>
    var recentlyExited: map<string, (FunnelSession, int)>
    var staffExcluded: nat
    var reentryMerged: nat
    // The rows each session absorbed, and what each visitor looks like alone.
    ghost var logs: map<FunnelSession, seq<Row>>
    ghost var visitors: map<string, Visitor>

    ghost function View(): Books
      reads this
    {
      Books(active, completed, recentlyExited, logs)
    }

    /** The marks on each session are the stages its log shows. */
    ghost predicate MarksMatch()
      reads this, logs.Keys
    {
      forall s: FunnelSession {:trigger s.reached} | s in logs :: s.reached == Reached(cfg, logs[s])
    }

    /** The collections hold exactly what the visitors, looked at alone, hold. */
    ghost predicate Valid()
      reads this, logs.Keys
    {
      && View().ShowsAll(visitors)
      && MarksMatch()
      && reentryMerged == MergedTotal(visitors)
    }

    constructor (cfg: Config)
      ensures this.cfg == cfg && Valid() && visitors == map[] && logs == map[] && staffExcluded == 0
    {
      this.cfg := cfg;
      active, completed, recentlyExited := map[], [], map[];
      staffExcluded, reentryMerged := 0, 0;
      visitors, logs := map[], map[];
    }

    method CloseSession(session: FunnelSession, at: int)
      requires Valid()
      requires session.visitorKey in active && active[session.visitorKey] == session
      modifies this, session`isActive, session`exitedAt
      ensures Valid() && logs == old(logs)
      ensures staffExcluded == old(staffExcluded)
      ensures !session.isActive && session.exitedAt == Some(at)
      ensures var k := session.visitorKey; var v := old(At(visitors, k));
        visitors == old(visitors)[k := Visitor(v.closed + [logs[session]], None, Some(at), v.merged)]
    {
      ActiveIsShown(session.visitorKey);
      hide Books.ShowsAll, Books.Shows, Books.Consistent, Reached, MergedTotal, SessionsOf;
      ghost var k, v := session.visitorKey, At(visitors, session.visitorKey);
      View().CloseShows(visitors, session, at);
      session.Close(at);
      active := active - {session.visitorKey};
      completed := completed + [session];
      recentlyExited := recentlyExited[session.visitorKey := (session, at)];

      visitors := visitors[k := Visitor(v.closed + [logs[session]], None, Some(at), v.merged)];
      assert View() == old(View()).Close(session, at);
      MergedUpdate(old(visitors), k, visitors[k]);
    }

    /** The list without the first occurrence of `prior`. */
    static method Remove(list: seq<FunnelSession>, prior: FunnelSession) returns (ghost i: nat, rest: seq<FunnelSession>)
      requires prior in list
      ensures i < |list| && list[i] == prior && prior !in list[..i]
      ensures rest == list[..i] + list[i + 1..]
    {
      var n := 0;
      while list[n] != prior
        invariant n < |list| && prior !in list[..n]
        decreases |list| - n
      {
        n := n + 1;
      }
      i, rest := n, list[..n] + list[n + 1..];
    }

    method ResumeSession(prior: FunnelSession, at: int)
      requires Valid()
      requires prior.visitorKey !in active
      requires prior.visitorKey in recentlyExited && recentlyExited[prior.visitorKey].0 == prior
      modifies this, prior
      ensures Valid() && logs == old(logs)
      ensures staffExcluded == old(staffExcluded)
      ensures prior.isActive && prior.exitedAt == None && prior.reentryMerged
      ensures prior.visitorKey in active && active[prior.visitorKey] == prior
      ensures var k := prior.visitorKey; var v := old(At(visitors, k));
        v.closed != [] && visitors == old(visitors)[k := Resumed(v)]
    {
      hide Books.ShowsAll, Books.Shows, Books.Consistent, MergedTotal, SessionsOf;
      Reinstate(prior);
      prior.Reopen();
      prior.EnsureEntry();
    }

    /** Move a resumed session from the completed list back among the active ones. */
    method Reinstate(prior: FunnelSession)
      requires Valid()
      requires prior.visitorKey !in active
      requires prior.visitorKey in recentlyExited && recentlyExited[prior.visitorKey].0 == prior
      modifies this`active, this`completed, this`recentlyExited, this`reentryMerged, this`visitors
      ensures Valid()
      ensures prior.visitorKey in active && active[prior.visitorKey] == prior && prior in logs
      ensures var k := prior.visitorKey; var v := old(At(visitors, k));
        v.closed != [] && visitors == old(visitors)[k := Resumed(v)]
    {
      hide Books.ShowsAll, Books.Shows, Books.Consistent, Reached, MergedTotal, SessionsOf;
      ghost var k, v := prior.visitorKey, At(visitors, prior.visitorKey);
      assert prior in logs by { ExitedIsLogged(prior); }
      ghost var i := Unfile(prior);
      old(View()).ResumeShows(old(visitors), prior, i);
      reentryMerged := reentryMerged + 1;
      active := active[prior.visitorKey := prior];
      recentlyExited := recentlyExited - {prior.visitorKey};

      visitors := visitors[k := Resumed(v)];
      assert View() == old(View()).Resume(prior, i);
      MergedUpdate(old(visitors), k, visitors[k]);
    }

    lemma {:induction false} ExitedIsLogged(prior: FunnelSession)
      requires Valid() && prior.visitorKey in recentlyExited && recentlyExited[prior.visitorKey].0 == prior
      ensures prior in logs
    {
      assert View().LastOf(prior, prior.visitorKey);
      SessionsMember(completed, prior.visitorKey, prior);
    }

    /** Take a resumed session off the completed list, if it is on it. */
    method Unfile(prior: FunnelSession) returns (ghost i: nat)
      requires Valid()
      requires prior.visitorKey in recentlyExited && recentlyExited[prior.visitorKey].0 == prior
      modifies this`completed
      ensures i < |old(completed)| && old(completed)[i] == prior
      ensures completed == old(completed)[..i] + old(completed)[i + 1..]
    {
      assert prior in completed by {
        assert View().LastOf(prior, prior.visitorKey);
        SessionsMember(completed, prior.visitorKey, prior);
      }
      if prior in completed {
        i, completed := Remove(completed, prior);
      }
    }

    method TryResumeReentry(key: string, at: int) returns (session: FunnelSession?)
      requires Valid() && key !in active
      modifies this, logs.Keys
      ensures Valid() && logs == old(logs)
      ensures staffExcluded == old(staffExcluded)
      ensures session == null <==> !CanResume(cfg.window, old(At(visitors, key)), at)
      ensures session == null ==> visitors == old(visitors) && active == old(active)
      ensures session == null ==> recentlyExited == old(recentlyExited)
      ensures session != null ==> key in active && active[key] == session
      ensures session != null ==> visitors == old(visitors)[key := Resumed(old(At(visitors, key)))]
    {
      assert View().Shows(key, At(visitors, key));
      if key !in recentlyExited {
        return null;
      }
      var (s, exitAt) := recentlyExited[key];
      assert View().LastOf(s, key);
      if at - exitAt > cfg.window {
        return null;
      }
      ResumeSession(s, at);
      session := s;
    }

    method StartSession(key: string, at: int) returns (session: FunnelSession)
      requires Valid() && key !in active
      modifies this
      ensures Valid() && fresh(session) && logs == old(logs)[session := []]
      ensures staffExcluded == old(staffExcluded)
      ensures key in active && active[key] == session
      ensures visitors == old(visitors)[key := old(At(visitors, key)).(active := Some([]))]
    {
      hide Books.ShowsAll, Books.Shows, Books.Consistent, Reached, MergedTotal, SessionsOf, VisitorStep;
      session := new FunnelSession(key, at);
      session.ForceMark(EntryStage);
      View().StartShows(visitors, session);
      NothingLogged(cfg);
      active := active[key := session];

      logs := logs[session := []];
      visitors := visitors[key := At(visitors, key).(active := Some([]))];
      assert View() == old(View()).Start(session);
      MergedUpdate(old(visitors), key, visitors[key]);
    }

    lemma {:induction false} NothingLogged(cfg: Config)
      ensures Reached(cfg, []) == {EntryStage}
    {
    }

    /** The session a REENTRY or ENTRY row leads to: running, resumed or new. */
    method Arrive(key: string, at: int) returns (session: FunnelSession)
      requires Valid()
      modifies this, logs.Keys
      ensures Valid() && fresh(logs.Keys - old(logs.Keys))
      ensures staffExcluded == old(staffExcluded)
      ensures key in active && active[key] == session
      ensures var u := TryResume(cfg.window, old(At(visitors, key)), at);
        visitors == old(visitors)[key := if u.active.Some? then u else u.(active := Some([]))]
    {
      hide Books.ShowsAll, Books.Shows, Books.Consistent, Reached, MergedTotal, SessionsOf;
      ActiveIsShown(key);
      if key in active {
        session := active[key];
        Touch(key);
      } else {
        var resumed := TryResumeReentry(key, at);
        if resumed != null {
          session := resumed;
        } else {
          session := StartSession(key, at);
        }
      }
    }

    /** Any other row: it is absorbed by the running session, or by the one it brings back. */
    method Absorb(key: string, r: Row)
      requires Valid()
      requires !r.kind.Entry? && !r.kind.Reentry? && !r.kind.Exit?
      modifies this, logs.Keys
      ensures Valid() && logs.Keys == old(logs.Keys)
      ensures staffExcluded == old(staffExcluded)
      ensures visitors == old(visitors)[key := VisitorStep(cfg.window, old(At(visitors, key)), r)]
    {
      hide Books.ShowsAll, Books.Shows, Books.Consistent, Reached, MergedTotal, SessionsOf;
      ActiveIsShown(key);
      if key in active {
        Mark(active[key], r);
        return;
      }
      var session := TryResumeReentry(key, r.at);
      if session == null {
        Touch(key);
      } else {
        ActiveIsShown(key);
        Mark(session, r);
      }
    }

    /** Mark the stages that row `r` lets a running session reach. */
    method Mark(session: FunnelSession, r: Row)
      requires Valid()
      requires session.visitorKey in active && active[session.visitorKey] == session
      requires !r.kind.Entry? && !r.kind.Reentry? && !r.kind.Exit?
      modifies this, session
      ensures Valid() && logs.Keys == old(logs.Keys)
      ensures staffExcluded == old(staffExcluded)
      ensures visitors == old(visitors)[session.visitorKey :=
        old(At(visitors, session.visitorKey)).(active := Some(old(logs[session]) + [r]))]
    {
      ActiveIsShown(session.visitorKey);
      hide Books.ShowsAll, Books.Shows, Books.Consistent, Reached, MergedTotal, SessionsOf;
      ghost var log := logs[session];
      View().AbsorbShows(visitors, session, r);
      MarkRow(session, log, r);
      logs := logs[session := log + [r]];
      ghost var k := session.visitorKey;
      visitors := visitors[k := At(visitors, k).(active := Some(log + [r]))];
      assert View() == old(View()).Absorb(session, r);
      MergedUpdate(old(visitors), k, visitors[k]);
    }

    /** A visitor has a running session exactly if one is active, with the rows it has absorbed. */
    lemma {:induction false} ActiveIsShown(key: string)
      requires Valid()
      ensures At(visitors, key).active.Some? <==> key in active
      ensures key in active ==>
        && active[key].visitorKey == key && active[key] in logs
        && At(visitors, key).active == Some(logs[active[key]])
    {
      hide Reached, MergedTotal, SessionsOf;
      assert View().Shows(key, At(visitors, key));
    }

    method MarkRow(session: FunnelSession, ghost log: seq<Row>, r: Row)
      requires session.reached == Reached(cfg, log)
      modifies session`reached
      ensures session.reached == Reached(cfg, log + [r])
    {
      var s := session.reached;
      ReachedGrows(cfg, log, r);
      StagesNest(cfg, log);
      match r.kind {
        case ZoneEnter | ZoneExit | ZoneDwell | Dwell =>
          MarkZoneRow(session, r);
        case QueueJoin =>
          if r.queueId == cfg.billingQueue {
            if ZoneVisitStage in session.reached {
              session.MarkStage(BillingQueueStage);
            }
          }
        case _ =>
      }
      assert forall x: Stage :: x in session.reached <==> x in Reached(cfg, log + [r]);
    }

    lemma {:induction false} StagesNest(cfg: Config, log: seq<Row>)
      ensures var s := Reached(cfg, log);
        && EntryStage in s
        && (BillingQueueStage in s ==> ZoneVisitStage in s)
        && (PurchaseStage in s ==> BillingQueueStage in s)
    {
      ReachedIsPrefix(cfg, log);
      assert Index(ZoneVisitStage) < Index(BillingQueueStage) < Index(PurchaseStage);
    }

    /** A zone row counts as a zone visit, and at the checkout zone after queueing as a purchase. */
    method MarkZoneRow(session: FunnelSession, r: Row)
      requires EntryStage in session.reached
      requires BillingQueueStage in session.reached ==> ZoneVisitStage in session.reached
      requires r.kind.ZoneEnter? || r.kind.ZoneExit? || r.kind.ZoneDwell? || r.kind.Dwell?
      modifies session`reached
      ensures session.reached == old(session.reached)
        + (if ZoneRow(r) then {ZoneVisitStage} else {})
        + (if CheckoutRow(cfg, r) && BillingQueueStage in old(session.reached) then {PurchaseStage} else {})
    {
      if r.zoneId == "" || EntryStage !in session.reached {
        return;
      }
      if r.zoneId != cfg.checkoutZone {
        session.MarkStage(ZoneVisitStage);
      } else {
        if ZoneVisitStage !in session.reached {
          session.MarkStage(ZoneVisitStage);
        }
        if BillingQueueStage in session.reached {
          session.MarkStage(PurchaseStage);
        }
      }
    }

    /** Open a visitor's account without changing it. */
    ghost method Touch(key: string)
      requires Valid()
      modifies this`visitors
      ensures Valid() && visitors == old(visitors)[key := old(At(visitors, key))]
    {
      visitors := visitors[key := At(visitors, key)];
      MergedUpdate(old(visitors), key, visitors[key]);
      forall k
        ensures View().Shows(k, At(visitors, k))
      {
        assert old(View()).Shows(k, At(old(visitors), k));
      }
    }

    method ProcessRow(r: Row)
      requires Valid()
      modifies this, logs.Keys
      ensures Valid() && fresh(logs.Keys - old(logs.Keys))
      ensures staffExcluded == old(staffExcluded) + (if r.staff then 1 else 0)
      ensures visitors == if r.staff then old(visitors)
        else old(visitors)[Route(r) := VisitorStep(cfg.window, old(At(visitors, Route(r))), r)]
    {
      if r.staff {
        staffExcluded := staffExcluded + 1;
        return;
      }
      var key := VisitorKey(r);
      if r.kind.Reentry? {
        var vid := ReentryVisitorId(r);
        var session := Arrive(if vid.Some? then vid.value else key, r.at);
        assert EntryStage in session.reached;
      } else if r.kind.Entry? {
        var session := Arrive(key, r.at);
      } else if r.kind.Exit? {
        ActiveIsShown(key);
        if key in active {
          CloseSession(active[key], r.at);
        } else {
          Touch(key);
        }
      } else {
        Absorb(key, r);
      }
    }

    /** The running sessions, in some order. */
    method RunningSessions() returns (running: seq<FunnelSession>)
      requires Valid()
      ensures forall k :: SessionsOf(running, k) == if k in active then [active[k]] else []
      ensures forall s | s in running :: s in logs
    {
      running := [];
      var left := active.Keys;
      while left != {}
        invariant left <= active.Keys
        invariant forall k :: SessionsOf(running, k) == if k in active && k !in left then [active[k]] else []
        invariant forall s | s in running :: s in logs
      {
        var k :| k in left;
        RunningMore(active, running, left, k);
        running := running + [active[k]];
        left := left - {k};
      }
    }

    static lemma {:induction false} RunningMore(active: map<string, FunnelSession>, running: seq<FunnelSession>, left: set<string>, k: string)
      requires k in active && k in left && active[k].visitorKey == k
      requires forall j :: SessionsOf(running, j) == if j in active && j !in left then [active[j]] else []
      ensures forall j ::
        SessionsOf(running + [active[k]], j) == if j in active && j !in left - {k} then [active[j]] else []
    {
      forall j
        ensures SessionsOf(running + [active[k]], j) == if j in active && j !in left - {k} then [active[j]] else []
      {
        SessionsAppend(running, active[k], j);
      }
    }

    method CountStages(all: seq<FunnelSession>) returns (counts: map<Stage, nat>)
      requires MarksMatch()
      requires forall s | s in all :: s in logs
      ensures counts == map s | s in STAGE_ORDER :: SumOf(Weights(cfg, OfStage(s), logs), all)
    {
      counts := map s | s in STAGE_ORDER :: 0;
      for i := 0 to |all|
        invariant counts.Keys == set s | s in STAGE_ORDER
        invariant forall s | s in counts :: counts[s] == SumOf(Weights(cfg, OfStage(s), logs), all[..i])
      {
        counts := CountSession(all[i].reached, counts);
        forall s {
          StageSumAppend(s, all, i);
        }
      }
      assert all[..|all|] == all;
    }

    lemma {:induction false} StageSumAppend(s: Stage, all: seq<FunnelSession>, i: nat)
      requires MarksMatch() && i < |all| && all[i] in logs
      ensures SumOf(Weights(cfg, OfStage(s), logs), all[..i + 1])
        == SumOf(Weights(cfg, OfStage(s), logs), all[..i]) + One(s in all[i].reached)
    {
      assert all[..i + 1] == all[..i] + [all[i]];
      SumAppend(Weights(cfg, OfStage(s), logs), all[..i], all[i]);
    }

    /** Add one session to the stage counts. */
    static method CountSession(reached: set<Stage>, before: map<Stage, nat>) returns (counts: map<Stage, nat>)
      requires forall s | s in STAGE_ORDER :: s in before
      ensures counts.Keys == before.Keys
      ensures forall s | s in before :: counts[s] == before[s] + One(s in reached)
    {
      counts := before;
      for j := 0 to |STAGE_ORDER|
        invariant counts.Keys == before.Keys
        invariant forall s | s in before :: counts[s] == before[s] + One(Index(s) < j && s in reached)
      {
        if STAGE_ORDER[j] in reached {
          counts := counts[STAGE_ORDER[j] := counts[STAGE_ORDER[j]] + 1];
        }
      }
    }

    /** Every session on the books belongs to a visitor with an account. */
    lemma {:induction false} SessionsHaveVisitors(running: seq<FunnelSession>)
      requires Valid()
      requires forall k :: SessionsOf(running, k) == if k in active then [active[k]] else []
      requires forall s | s in running :: s in logs
      ensures forall s | s in completed + running :: s.visitorKey in visitors && s in logs
    {
      forall s | s in completed + running
        ensures s.visitorKey in visitors
      {
        SessionsKeep(completed + running, s);
        SessionsConcat(completed, running, s.visitorKey);
        assert View().Shows(s.visitorKey, At(visitors, s.visitorKey));
      }
    }

    /** Counting all completed and running sessions adds up the visitors. */
    lemma {:induction false} AllSessionsTotal(what: Measure, all: seq<FunnelSession>, running: seq<FunnelSession>)
      requires Valid() && !what.OfMerged?
      requires all == completed + running
      requires forall k :: SessionsOf(running, k) == if k in active then [active[k]] else []
      requires forall s | s in all :: s.visitorKey in visitors && s in logs
      ensures Total(CountsOf(cfg, what, visitors)) == SumOf(Weights(cfg, what, logs), all)
    {
      var w := Weights(cfg, what, logs);
      VisitorsPartition(w, all, visitors.Keys);
      forall k | k in visitors
        ensures SumOf(w, SessionsOf(all, k)) == CountVisitor(cfg, what, visitors[k])
      {
        assert View().Shows(k, At(visitors, k));
        hide Books.Shows, Books.Consistent, SessionsOf, SumOf, CountLogs, Total, Reached, Weights;
        SessionsConcat(completed, running, k);
        ShownSum(cfg, what, View(), k, visitors[k], SessionsOf(all, k));
      }
      hide Books.ShowsAll, SessionsOf, SumOf, CountVisitor, Total, Reached, Weights;
      assert CountsOf(cfg, what, visitors) == SumsByVisitor(w, all, visitors.Keys);
    }
  }

  lemma {:induction false} RunAppend(w: int, rows: seq<Row>, r: Row)
    ensures VisitorRun(w, rows + [r]) == VisitorStep(w, VisitorRun(w, rows), r)
  {
    assert (rows + [r])[..|rows|] == rows;
  }

  /** Processing one row is one step of the visitor it is routed to. */
  lemma {:induction false} RowRoutes(w: int, rows: seq<Row>, r: Row)
    ensures VisitorsOf(w, rows + [r]) ==
      if r.staff then VisitorsOf(w, rows)
      else VisitorsOf(w, rows)[Route(r) := VisitorStep(w, At(VisitorsOf(w, rows), Route(r)), r)]
  {
    hide VisitorRun, VisitorStep, Sub, Route;
    KeysAppend(rows, r);
    var was, now := VisitorsOf(w, rows), VisitorsOf(w, rows + [r]);
    forall k | k in now
      ensures now[k] == if !r.staff && k == Route(r) then VisitorStep(w, At(was, k), r) else At(was, k)
    {
      RowRoutesOne(w, rows, r, k);
    }
    if !r.staff {
      OneChanged(was, now, Route(r), VisitorStep(w, At(was, Route(r)), r));
    }
  }

  lemma {:induction false} KeysAppend(rows: seq<Row>, r: Row)
    ensures Keys(rows + [r]) == Keys(rows) + (if r.staff then {} else {Route(r)})
  {
    assert (rows + [r])[..|rows|] == rows;
  }

  lemma {:induction false} OneChanged(was: map<string, Visitor>, now: map<string, Visitor>, key: string, v: Visitor)
    requires now.Keys == was.Keys + {key}
    requires forall k | k in now :: now[k] == if k == key then v else At(was, k)
    ensures now == was[key := v]
  {
  }

  lemma {:induction false} RowRoutesOne(w: int, rows: seq<Row>, r: Row, k: string)
    ensures var run := VisitorRun(w, Sub(rows, k));
      VisitorRun(w, Sub(rows + [r], k)) == if !r.staff && k == Route(r) then VisitorStep(w, run, r) else run
    ensures k !in Keys(rows) ==> VisitorRun(w, Sub(rows, k)) == NEW_VISITOR
  {
    assert (rows + [r])[..|rows|] == rows;
    KeyHasRows(rows, k);
    if !r.staff && k == Route(r) {
      RunAppend(w, Sub(rows, k), r);
    } else {
      assert Sub(rows, k) + [] == Sub(rows, k);
    }
  }

  /** Build session funnels from an event stream. */
  method AggregateFunnelSessions(cfg: Config, events: seq<Row>) returns (funnel: Funnel)
    ensures funnel == ReferenceFunnel(cfg, events)
  {
    var agg := AggregateRows(cfg, events);
    var running := agg.RunningSessions();
    var all := agg.completed + running;
    agg.SessionsHaveVisitors(running);
    var counts := agg.CountStages(all);
    funnel := Funnel(counts, agg.staffExcluded, agg.reentryMerged, |all|);
    SumsMatch(cfg, agg, events, all, running);
  }

  method AggregateRows(cfg: Config, events: seq<Row>) returns (agg: Aggregator)
    ensures fresh(agg) && agg.Valid() && agg.cfg == cfg
    ensures agg.staffExcluded == StaffCount(events)
    ensures agg.visitors == VisitorsOf(cfg.window, events)
  {
    agg := new Aggregator(cfg);
    for i := 0 to |events|
      invariant agg.Valid() && agg.cfg == cfg && fresh(agg) && fresh(agg.logs.Keys)
      invariant agg.staffExcluded == StaffCount(events[..i])
      invariant agg.visitors == VisitorsOf(cfg.window, events[..i])
    {
      agg.ProcessRow(events[i]);
      RowRoutes(cfg.window, events[..i], events[i]);
      StaffAppend(events[..i], events[i]);
      assert events[..i + 1] == events[..i] + [events[i]];
    }
    assert events[..|events|] == events;
  }

  lemma {:induction false} StaffAppend(rows: seq<Row>, r: Row)
    ensures StaffCount(rows + [r]) == StaffCount(rows) + (if r.staff then 1 else 0)
  {
    assert (rows + [r])[..|rows|] == rows;
  }

  lemma {:induction false} SumOfOnes(w: map<FunnelSession, nat>, ss: seq<FunnelSession>)
    requires forall s | s in ss :: s in w && w[s] == 1
    ensures SumOf(w, ss) == |ss|
  {
    if ss != [] {
      SumOfOnes(w, ss[..|ss| - 1]);
    }
  }

  /** The reference counts are what the aggregator ends up with. */
  lemma {:induction false} SumsMatch(cfg: Config, agg: Aggregator, events: seq<Row>, all: seq<FunnelSession>,
                                     running: seq<FunnelSession>)
    requires agg.Valid() && agg.cfg == cfg
    requires agg.visitors == VisitorsOf(cfg.window, events)
    requires all == agg.completed + running
    requires forall k :: SessionsOf(running, k) == if k in agg.active then [agg.active[k]] else []
    requires forall s | s in all :: s.visitorKey in agg.visitors && s in agg.logs
    ensures forall what: Measure | !what.OfMerged? ::
      ReferenceCount(cfg, what, events) == SumOf(Weights(cfg, what, agg.logs), all)
    ensures ReferenceCount(cfg, OfMerged, events) == agg.reentryMerged
    ensures ReferenceCount(cfg, OfSessions, events) == |all|
  {
    forall what: Measure | !what.OfMerged?
      ensures ReferenceCount(cfg, what, events) == SumOf(Weights(cfg, what, agg.logs), all)
    {
      agg.AllSessionsTotal(what, all, running);
    }
    SumOfOnes(Weights(cfg, OfSessions, agg.logs), all);
    MergedMatch(cfg, agg.visitors);
  }

  lemma {:induction false} MergedMatch(cfg: Config, visitors: map<string, Visitor>)
    ensures Total(CountsOf(cfg, OfMerged, visitors)) == MergedTotal(visitors)
  {
    var m := CountsOf(cfg, OfMerged, visitors);
    forall k | k in visitors
      ensures m[k] == visitors[k].merged
    {
      LogsMergeNothing(cfg, Sessions(visitors[k]));
    }
    assert m == map k | k in visitors :: visitors[k].merged;
  }
}
