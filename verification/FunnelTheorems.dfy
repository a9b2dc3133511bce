/** Laws of the reference funnel over whole event streams. */
module FunnelTheorems {
  import opened Options
  import opened Sequences
  import opened FunnelModel
  import opened Sums

  predicate Chronological(rows: seq<Row>) {
    forall i, j | 0 <= i < j < |rows| :: rows[i].at <= rows[j].at
  }

  // ---------------------------------------------------------------------------
  // Interleaving independence
  // ---------------------------------------------------------------------------

  lemma {:induction false} SubConcat(a: seq<Row>, b: seq<Row>, k: string)
    ensures Sub(a + b, k) == Sub(a, k) + Sub(b, k)
  {
    hide Sub, Route;
    if b == [] {
      SubNothing(k);
      assert a + b == a && Sub(a, k) + [] == Sub(a, k);
    } else {
      var front, last := b[..|b| - 1], b[|b| - 1];
      assert front + [last] == b;
      Regroup(a, front, [last]);
      SubConcat(a, front, k);
      SubAppend(front, last, k);
      SubAppend(a + front, last, k);
      Regroup(Sub(a, k), Sub(front, k), if !last.staff && Route(last) == k then [last] else []);
    }
  }

  lemma {:induction false} SubNothing(k: string)
    ensures Sub([], k) == []
  {
  }

  lemma {:induction false} SubAppend(rows: seq<Row>, r: Row, k: string)
    ensures Sub(rows + [r], k) == Sub(rows, k) + (if !r.staff && Route(r) == k then [r] else [])
  {
    assert (rows + [r])[..|rows|] == rows;
  }

  lemma {:induction false} StaffConcat(a: seq<Row>, b: seq<Row>)
    ensures StaffCount(a + b) == StaffCount(a) + StaffCount(b)
  {
    if b == [] {
      assert a + b == a;
    } else {
      StaffConcat(a, b[..|b| - 1]);
      assert (a + b)[..|a + b| - 1] == a + b[..|b| - 1];
    }
  }

  /** A sub-stream holds exactly the rows routed to its key. */
  lemma {:induction false} SubMembers(rows: seq<Row>, k: string, r: Row)
    ensures r in Sub(rows, k) <==> r in rows && !r.staff && Route(r) == k
  {
    if rows != [] {
      SubMembers(rows[..|rows| - 1], k, r);
      assert rows == rows[..|rows| - 1] + [rows[|rows| - 1]];
    }
  }

  lemma {:induction false} KeyHasRows(rows: seq<Row>, k: string)
    ensures k in Keys(rows) <==> Sub(rows, k) != []
  {
    if rows != [] {
      KeyHasRows(rows[..|rows| - 1], k);
    }
  }

  lemma {:induction false} SameVisitors(w: int, a: seq<Row>, b: seq<Row>)
    requires forall k :: Sub(a, k) == Sub(b, k)
    ensures VisitorsOf(w, a) == VisitorsOf(w, b)
  {
    hide Keys, Sub, VisitorRun;
    SameKeys(a, b);
  }

  lemma {:induction false} SameKeys(a: seq<Row>, b: seq<Row>)
    requires forall k :: Sub(a, k) == Sub(b, k)
    ensures Keys(a) == Keys(b)
  {
    hide Keys, Sub;
    forall k: string
      ensures k in Keys(a) <==> k in Keys(b)
    {
      KeyHasRows(a, k);
      KeyHasRows(b, k);
    }
  }

  /** Two streams in which every visitor sees the same rows have the same funnel. */
  lemma {:induction false} VisitorsDecideFunnel(cfg: Config, a: seq<Row>, b: seq<Row>)
    requires StaffCount(a) == StaffCount(b)
    requires forall k :: Sub(a, k) == Sub(b, k)
    ensures ReferenceFunnel(cfg, a) == ReferenceFunnel(cfg, b)
  {
    SameVisitors(cfg.window, a, b);
  }

  /** Swapping neighbouring rows of different visitors, or a staff row, changes nothing. */
  lemma {:induction false} SwapRows(cfg: Config, before: seq<Row>, r: Row, s: Row, after: seq<Row>)
    requires r.staff || s.staff || Route(r) != Route(s)
    ensures ReferenceFunnel(cfg, before + [r, s] + after) == ReferenceFunnel(cfg, before + [s, r] + after)
  {
    var a, b := before + [r, s] + after, before + [s, r] + after;
    hide Sub, StaffCount, ReferenceFunnel, Route;
    forall k: string
      ensures Sub(a, k) == Sub(b, k)
    {
      SubConcat(before + [r, s], after, k);
      SubConcat(before, [r, s], k);
      SubConcat(before + [s, r], after, k);
      SubConcat(before, [s, r], k);
      SwappedSub(r, s, k);
    }
    StaffConcat(before + [r, s], after);
    StaffConcat(before, [r, s]);
    StaffConcat(before + [s, r], after);
    StaffConcat(before, [s, r]);
    SwappedStaff(r, s);
    VisitorsDecideFunnel(cfg, a, b);
  }

  lemma {:induction false} SwappedSub(r: Row, s: Row, k: string)
    requires r.staff || s.staff || Route(r) != Route(s)
    ensures Sub([r, s], k) == Sub([s, r], k)
  {
    hide Route;
    SubPair(r, s, k);
    SubPair(s, r, k);
  }

  function Kept(r: Row, k: string): seq<Row> {
    if !r.staff && Route(r) == k then [r] else []
  }

  lemma {:induction false} SubPair(r: Row, s: Row, k: string)
    ensures Sub([r, s], k) == Kept(r, k) + Kept(s, k)
  {
    hide Route;
    assert [r, s][..1] == [r] && [r][..0] == [];
    assert Sub([r], k) == Kept(r, k);
  }

  lemma {:induction false} SwappedStaff(r: Row, s: Row)
    ensures StaffCount([r, s]) == StaffCount([s, r])
  {
    assert [r, s][..1] == [r] && [r][..0] == [];
    assert [s, r][..1] == [s] && [s][..0] == [];
  }

  lemma {:induction false} SubOfSub(rows: seq<Row>, k: string, j: string)
    ensures Sub(Sub(rows, k), j) == if j == k then Sub(rows, k) else []
  {
    if rows != [] {
      var last := rows[|rows| - 1];
      var front := Sub(rows[..|rows| - 1], k);
      SubOfSub(rows[..|rows| - 1], k, j);
      if !last.staff && Route(last) == k {
        assert (front + [last])[..|front|] == front;
        assert Sub(front + [last], j) == Sub(front, j) + (if j == k then [last] else []);
      } else {
        assert Sub(rows, k) == front;
      }
    }
  }

  lemma {:induction false} TotalSingle(m: map<string, nat>, k: string)
    requires m.Keys == {k}
    ensures Total(m) == m[k]
  {
    TotalSplit(m, k);
    assert m - {k} == map[];
  }

  lemma {:induction false} AloneVisitor(w: int, rows: seq<Row>, k: string)
    requires k in Keys(rows)
    ensures VisitorsOf(w, Sub(rows, k)) == map[k := VisitorRun(w, Sub(rows, k))]
  {
    forall j: string
      ensures j in Keys(Sub(rows, k)) <==> j == k
    {
      KeyHasRows(Sub(rows, k), j);
      KeyHasRows(rows, k);
      SubOfSub(rows, k, j);
    }
    SubOfSub(rows, k, k);
  }

  /** The aggregate over one visitor's sub-stream alone is that visitor's term of the whole sum. */
  lemma {:induction false} SubStreamAlone(cfg: Config, what: Measure, rows: seq<Row>, k: string)
    requires k in Keys(rows)
    ensures ReferenceCount(cfg, what, Sub(rows, k)) == CountsOf(cfg, what, VisitorsOf(cfg.window, rows))[k]
  {
    AloneVisitor(cfg.window, rows, k);
    TotalSingle(CountsOf(cfg, what, VisitorsOf(cfg.window, Sub(rows, k))), k);
  }

  // ---------------------------------------------------------------------------
  // A wider re-entry window never yields more sessions
  // ---------------------------------------------------------------------------

  function SessionCount(v: Visitor): nat {
    |Sessions(v)|
  }

  /** The wide-window run `v` is at least as "inside" as the narrow-window run `u`. */
  ghost predicate Covers(u: Visitor, v: Visitor, now: int) {
    && (u.active.Some? ==> v.active.Some?)
    && (u.exitAt.Some? && v.active.None? ==> v.exitAt.Some? && u.exitAt.value <= v.exitAt.value)
    && (u.exitAt.Some? ==> u.exitAt.value <= now)
    && SessionCount(v) <= SessionCount(u)
  }

  lemma {:induction false} CoversStep(narrow: int, wide: int, u: Visitor, v: Visitor, now: int, r: Row)
    requires narrow <= wide && now <= r.at
    requires ValidVisitor(u) && ValidVisitor(v) && Covers(u, v, now)
    ensures Covers(VisitorStep(narrow, u, r), VisitorStep(wide, v, r), r.at)
  {
  }

  lemma {:induction false} CoversRun(narrow: int, wide: int, rows: seq<Row>, now: int)
    requires narrow <= wide && Chronological(rows)
    requires rows != [] ==> rows[|rows| - 1].at <= now
    ensures Covers(VisitorRun(narrow, rows), VisitorRun(wide, rows), now)
  {
    if rows != [] {
      var front, last := rows[..|rows| - 1], rows[|rows| - 1];
      CoversRun(narrow, wide, front, last.at);
      CoversStep(narrow, wide, VisitorRun(narrow, front), VisitorRun(wide, front), last.at, last);
    }
  }

  lemma {:induction false} SubChronological(rows: seq<Row>, k: string)
    requires Chronological(rows)
    ensures Chronological(Sub(rows, k))
  {
    if rows != [] {
      var front, last := rows[..|rows| - 1], rows[|rows| - 1];
      SubChronological(front, k);
      forall r | r in Sub(front, k)
        ensures r.at <= last.at
      {
        SubMembers(front, k, r);
      }
    }
  }

  lemma {:induction false} TotalMonotone(m: map<string, nat>, n: map<string, nat>)
    requires m.Keys == n.Keys
    requires forall k | k in m :: m[k] <= n[k]
    ensures Total(m) <= Total(n)
    decreases m.Keys
  {
    if m == map[] {
      assert n == map[];
    } else {
      var k :| k in m;
      TotalSplit(m, k);
      TotalSplit(n, k);
      TotalMonotone(m - {k}, n - {k});
    }
  }

  lemma {:induction false} CountSessions(cfg: Config, logs: seq<seq<Row>>)
    ensures CountLogs(cfg, OfSessions, logs) == |logs|
  {
    if logs != [] {
      CountSessions(cfg, logs[..|logs| - 1]);
    }
  }

  /** Widening the re-entry window never increases the number of sessions. */
  lemma {:induction false} WindowMonotone(cfg: Config, wider: int, rows: seq<Row>)
    requires Chronological(rows) && cfg.window <= wider
    ensures ReferenceFunnel(cfg.(window := wider), rows).sessionCount <= ReferenceFunnel(cfg, rows).sessionCount
  {
    var wide := cfg.(window := wider);
    var m := CountsOf(wide, OfSessions, VisitorsOf(wider, rows));
    var n := CountsOf(cfg, OfSessions, VisitorsOf(cfg.window, rows));
    forall k | k in m
      ensures m[k] <= n[k]
    {
      var sub := Sub(rows, k);
      SubChronological(rows, k);
      CoversRun(cfg.window, wider, sub, if sub == [] then 0 else sub[|sub| - 1].at);
      CountSessions(wide, Sessions(VisitorRun(wider, sub)));
      CountSessions(cfg, Sessions(VisitorRun(cfg.window, sub)));
    }
    TotalMonotone(m, n);
  }

  // ---------------------------------------------------------------------------
  // A window as long as the stream merges all visits of a visitor into one
  // ---------------------------------------------------------------------------

  predicate IsArrival(r: Row) {
    !r.staff && (r.kind.Entry? || r.kind.Reentry?)
  }

  /** The visitors with at least one ENTRY or REENTRY row. */
  function ArrivalKeys(rows: seq<Row>): set<string> {
    set k | k in Keys(rows) && Arrived(Sub(rows, k))
  }

  predicate Arrived(rows: seq<Row>) {
    exists r :: r in rows && IsArrival(r)
  }

  ghost predicate SpanWithin(rows: seq<Row>, w: int) {
    forall r, s | r in rows && s in rows :: s.at - r.at <= w
  }

  lemma {:induction false} OneSession(w: int, rows: seq<Row>)
    requires SpanWithin(rows, w)
    requires forall r | r in rows :: !r.staff
    ensures var v := VisitorRun(w, rows);
      && SessionCount(v) == One(Arrived(rows))
      && (v.exitAt.Some? ==> exists r :: r in rows && r.at == v.exitAt.value)
  {
    if rows == [] {
      NoSession(w);
    } else {
      var front, last := rows[..|rows| - 1], rows[|rows| - 1];
      var u, v := VisitorRun(w, front), VisitorRun(w, rows);
      assert rows == front + [last] && last in rows;
      assert v == VisitorStep(w, u, last);
      hide VisitorRun;
      assert forall r :: r in front ==> r in rows;
      OneSession(w, front);
      if u.exitAt.Some? {
        var x :| x in front && x.at == u.exitAt.value;
        assert last.at - x.at <= w;
      }
      ArrivedMore(front, last);
      hide Arrived, SpanWithin;
      SessionStep(w, u, last);
    }
  }

  lemma {:induction false} NoSession(w: int)
    ensures VisitorRun(w, []) == NEW_VISITOR && SessionCount(NEW_VISITOR) == 0 && !Arrived([])
  {
  }

  lemma {:induction false} ArrivedMore(rows: seq<Row>, r: Row)
    requires !r.staff
    ensures Arrived(rows + [r]) <==> Arrived(rows) || r.kind.Entry? || r.kind.Reentry?
  {
    if Arrived(rows) {
      var x :| x in rows && IsArrival(x);
      assert x in rows + [r];
    }
    assert r in rows + [r];
  }

  /** A row within the window of the last exit adds a session only for somebody who never had one. */
  lemma {:induction false} SessionStep(w: int, u: Visitor, r: Row)
    requires ValidVisitor(u) && SessionCount(u) <= 1 && (u.exitAt.Some? ==> r.at - u.exitAt.value <= w)
    ensures var v := VisitorStep(w, u, r);
      && SessionCount(v) == (if r.kind.Entry? || r.kind.Reentry? then 1 else SessionCount(u))
      && (v.exitAt.Some? ==> v.exitAt == Some(r.at) || v.exitAt == u.exitAt)
  {
  }

  lemma {:induction false} TotalOfOnes(m: map<string, nat>, s: set<string>)
    requires s <= m.Keys
    requires forall k | k in m :: m[k] == One(k in s)
    ensures Total(m) == |s|
    decreases m.Keys
  {
    if m != map[] {
      var k :| k in m;
      TotalSplit(m, k);
      TotalOfOnes(m - {k}, s - {k});
    } else {
      assert s == {};
    }
  }

  /** With a window at least as long as the stream, a session is a visitor who arrived. */
  lemma {:induction false} WindowCollapse(cfg: Config, rows: seq<Row>)
    requires SpanWithin(rows, cfg.window)
    ensures ReferenceFunnel(cfg, rows).sessionCount == |ArrivalKeys(rows)|
  {
    var m := CountsOf(cfg, OfSessions, VisitorsOf(cfg.window, rows));
    forall k | k in m
      ensures m[k] == One(k in ArrivalKeys(rows))
    {
      var sub := Sub(rows, k);
      forall r | r in sub
        ensures r in rows && !r.staff
      {
        SubMembers(rows, k, r);
      }
      OneSession(cfg.window, sub);
      CountSessions(cfg, Sessions(VisitorRun(cfg.window, sub)));
    }
    TotalOfOnes(m, ArrivalKeys(rows));
  }

  // ---------------------------------------------------------------------------
  // Stage counts
  // ---------------------------------------------------------------------------

  /** A later stage is reached by no more sessions than an earlier one, and ENTRY by all of them. */
  lemma {:induction false} LogsOrdered(cfg: Config, logs: seq<seq<Row>>, early: Stage, late: Stage)
    requires Index(early) <= Index(late)
    ensures CountLogs(cfg, OfStage(late), logs) <= CountLogs(cfg, OfStage(early), logs)
    ensures CountLogs(cfg, OfStage(EntryStage), logs) == CountLogs(cfg, OfSessions, logs)
  {
    if logs != [] {
      LogsOrdered(cfg, logs[..|logs| - 1], early, late);
      ReachedIsPrefix(cfg, logs[|logs| - 1]);
    }
  }

  lemma {:induction false} StagePairOrdered(cfg: Config, rows: seq<Row>, early: Stage, late: Stage)
    requires Index(early) <= Index(late)
    ensures ReferenceCount(cfg, OfStage(late), rows) <= ReferenceCount(cfg, OfStage(early), rows)
    ensures ReferenceCount(cfg, OfStage(EntryStage), rows) == ReferenceCount(cfg, OfSessions, rows)
  {
    var visitors := VisitorsOf(cfg.window, rows);
    hide VisitorsOf, Total, Index;
    forall k | k in visitors
      ensures CountVisitor(cfg, OfStage(late), visitors[k]) <= CountVisitor(cfg, OfStage(early), visitors[k])
      ensures CountVisitor(cfg, OfStage(EntryStage), visitors[k]) == CountVisitor(cfg, OfSessions, visitors[k])
    {
      hide CountLogs, Sessions;
      LogsOrdered(cfg, Sessions(visitors[k]), early, late);
    }
    hide CountVisitor;
    TotalMonotone(CountsOf(cfg, OfStage(late), visitors), CountsOf(cfg, OfStage(early), visitors));
    assert CountsOf(cfg, OfStage(EntryStage), visitors) == CountsOf(cfg, OfSessions, visitors);
  }

  /** session_count = ENTRY >= ZONE_VISIT >= BILLING_QUEUE >= PURCHASE. */
  lemma {:induction false} StageCountsDescend(cfg: Config, rows: seq<Row>)
    ensures var f := ReferenceFunnel(cfg, rows);
      f.sessionCount == f.stageCounts[EntryStage] >= f.stageCounts[ZoneVisitStage]
        >= f.stageCounts[BillingQueueStage] >= f.stageCounts[PurchaseStage]
  {
    StagePairOrdered(cfg, rows, EntryStage, ZoneVisitStage);
    StagePairOrdered(cfg, rows, ZoneVisitStage, BillingQueueStage);
    StagePairOrdered(cfg, rows, BillingQueueStage, PurchaseStage);
  }
}
