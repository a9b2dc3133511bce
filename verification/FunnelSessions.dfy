/**
 When a visitor's sessions start, run, close and resume, told from the visitor's rows alone:
 which rows open a session, which EXIT rows close one, and which rows a session absorbs.
 */
module FunnelSessions {
  import opened Options
  import opened Sequences
  import opened Sums
  import opened FunnelModel
  import opened FunnelTheorems
  import Text

  // ---------------------------------------------------------------------------
  // Whose row it is, and what it shows
  // ---------------------------------------------------------------------------

  /**
   Rows that name a visitor id belong together, whatever person or track they carry; a re-entry without one goes to the
   visitor it names as the earlier one, and other rows to their person, or to their track.
   */
  lemma {:induction false} RoutesMean(r: Row)
    ensures Truthy(r.visitorId) ==> Route(r) == r.visitorId.value
    ensures !Truthy(r.visitorId) && r.kind.Reentry? && Truthy(r.priorVisitorId) ==> Route(r) == r.priorVisitorId.value
    ensures !Truthy(r.visitorId) && !(r.kind.Reentry? && Truthy(r.priorVisitorId)) ==>
      && (Truthy(r.person) ==> Route(r) == r.person.value)
      && (!Truthy(r.person) && r.trackId.Some? ==> Route(r) == "track-" + Text.Decimal(r.trackId.value))
  {
  }

  /** Two rows that carry nothing but a track belong together exactly if it is the same track. */
  lemma {:induction false} TracksTold(r: Row, s: Row)
    requires !Truthy(r.visitorId) && !Truthy(r.priorVisitorId) && !Truthy(r.person) && r.trackId.Some?
    requires !Truthy(s.visitorId) && !Truthy(s.priorVisitorId) && !Truthy(s.person) && s.trackId.Some?
    ensures Route(r) == Route(s) <==> r.trackId == s.trackId
  {
    hide Text.Decimal;
    var a, b := Text.Decimal(r.trackId.value), Text.Decimal(s.trackId.value);
    assert Route(r)[6..] == a && Route(s)[6..] == b;
    if a == b {
      Text.DecimalInjective(r.trackId.value, s.trackId.value);
    }
  }

  predicate ShowsZone(r: Row) {
    r.kind in {ZoneEnter, ZoneExit, ZoneDwell, Dwell} && r.zoneId != ""
  }

  predicate JoinsBilling(cfg: Config, r: Row) {
    r.kind == QueueJoin && r.queueId == cfg.billingQueue
  }

  /** In terms of rows: a visitor who visits some zone, then joins the billing queue, then is seen at the checkout zone. */
  predicate Visits(log: seq<Row>, i: nat) {
    i < |log| && ShowsZone(log[i])
  }

  predicate ThenQueues(cfg: Config, log: seq<Row>, i: nat, j: nat) {
    Visits(log, i) && i < j < |log| && JoinsBilling(cfg, log[j])
  }

  predicate ThenPays(cfg: Config, log: seq<Row>, i: nat, j: nat, k: nat) {
    ThenQueues(cfg, log, i, j) && j < k < |log| && ShowsZone(log[k]) && log[k].zoneId == cfg.checkoutZone
  }

  lemma {:induction false} VisitStageMeans(cfg: Config, log: seq<Row>)
    ensures ZoneVisitStage in Reached(cfg, log) <==> exists i: nat :: Visits(log, i)
  {
    hide SawBilling, SawPurchase;
    assert forall i: nat :: ZoneAt(log, i) <==> Visits(log, i);
    assert forall i :: ZoneAt(log, i) ==> i >= 0;
  }

  lemma {:induction false} QueueStageMeans(cfg: Config, log: seq<Row>)
    ensures BillingQueueStage in Reached(cfg, log) <==> exists i: nat, j: nat :: ThenQueues(cfg, log, i, j)
  {
    hide SawZone, SawPurchase;
    if i, j :| BillingAt(cfg, log, i, j) {
      assert ThenQueues(cfg, log, i, j);
    }
    if i: nat, j: nat :| ThenQueues(cfg, log, i, j) {
      assert BillingAt(cfg, log, i, j);
    }
  }

  lemma {:induction false} PurchaseStageMeans(cfg: Config, log: seq<Row>)
    ensures PurchaseStage in Reached(cfg, log) <==> exists i: nat, j: nat, k: nat :: ThenPays(cfg, log, i, j, k)
  {
    hide SawZone, SawBilling;
    if i, j, k :| PurchaseAt(cfg, log, i, j, k) {
      assert ThenPays(cfg, log, i, j, k);
    }
    if i: nat, j: nat, k: nat :| ThenPays(cfg, log, i, j, k) {
      assert PurchaseAt(cfg, log, i, j, k);
    }
  }

  // ---------------------------------------------------------------------------
  // Reading the rows
  // ---------------------------------------------------------------------------

  predicate Arrives(r: Row) {
    r.kind.Entry? || r.kind.Reentry?
  }

  predicate NoExitFrom(rows: seq<Row>, i: nat) {
    forall j | i <= j < |rows| :: !rows[j].kind.Exit?
  }

  /** A session runs after the rows: one of them opens a session, and no EXIT follows it. */
  ghost predicate Running(w: int, rows: seq<Row>)
    decreases |rows|, 4
  {
    exists i :: OpensAt(w, rows, i) && NoExitFrom(rows, i)
  }

  ghost predicate OpensAt(w: int, rows: seq<Row>, i: nat)
    decreases |rows|, 3
  {
    i < |rows| && Opens(w, rows[..i], rows[i])
  }

  /** A row opens a session, or finds one open, by being an arrival or by coming soon after an exit. */
  ghost predicate Opens(w: int, past: seq<Row>, r: Row)
    decreases |past|, 2
  {
    Arrives(r) || Within(w, past, r)
  }

  /** The last EXIT that closed a session lies at most the window back. */
  ghost predicate Within(w: int, past: seq<Row>, r: Row)
    decreases |past|, 1
  {
    LastClosing(w, past).Some? && r.at - LastClosing(w, past).value <= w
  }

  /** The time of the last EXIT that found a session running. */
  ghost function LastClosing(w: int, rows: seq<Row>): Option<int>
    decreases |rows|, 0
  {
    if rows == [] then None
    else
      var past, last := rows[..|rows| - 1], rows[|rows| - 1];
      if last.kind.Exit? && Running(w, past) then Some(last.at) else LastClosing(w, past)
  }

  /** An arrival that starts a session of its own: none is running, and none can be taken up again. */
  ghost predicate Starts(w: int, past: seq<Row>, r: Row) {
    Arrives(r) && !Running(w, past) && !Within(w, past, r)
  }

  /** A row other than EXIT that takes up the session closed last. */
  ghost predicate Returns(w: int, past: seq<Row>, r: Row) {
    !r.kind.Exit? && !Running(w, past) && Within(w, past, r)
  }

  /** A row a session records: neither arrival nor exit, and a session runs with it. */
  ghost predicate Absorbed(w: int, past: seq<Row>, r: Row) {
    !Arrives(r) && !r.kind.Exit? && (Running(w, past) || Within(w, past, r))
  }

  ghost function StartsAt(w: int, rows: seq<Row>): set<nat> {
    set i: nat | i < |rows| && Starts(w, rows[..i], rows[i])
  }

  ghost function ReturnsAt(w: int, rows: seq<Row>): set<nat> {
    set i: nat | i < |rows| && Returns(w, rows[..i], rows[i])
  }

  /** The EXIT rows that found a session running. */
  ghost function ClosingsAt(w: int, rows: seq<Row>): set<nat> {
    set i: nat | i < |rows| && rows[i].kind.Exit? && Running(w, rows[..i])
  }

  /** The rows absorbed after the session numbered `k` started and before the next one did. */
  ghost function LogOf(w: int, rows: seq<Row>, k: nat): seq<Row> {
    if rows == [] then []
    else
      var past, last := rows[..|rows| - 1], rows[|rows| - 1];
      LogOf(w, past, k) + (if Absorbed(w, past, last) && |StartsAt(w, past)| == k + 1 then [last] else [])
  }

  // ---------------------------------------------------------------------------
  // One row more
  // ---------------------------------------------------------------------------

  lemma {:induction false} OpensAtAppend(w: int, rows: seq<Row>, r: Row, i: nat)
    ensures OpensAt(w, rows, i) ==> i < |rows|
    ensures OpensAt(w, rows + [r], i) ==> i <= |rows|
    ensures OpensAt(w, rows + [r], i) <==> if i == |rows| then Opens(w, rows, r) else OpensAt(w, rows, i)
    ensures i <= |rows| ==> (NoExitFrom(rows + [r], i) <==> NoExitFrom(rows, i) && !r.kind.Exit?)
    ensures NoExitFrom(rows, |rows|)
  {
    hide Opens;
    var g := rows + [r];
    if i < |rows| {
      assert g[..i] == rows[..i];
    } else if i == |rows| {
      assert g[..i] == rows;
    }
    assert g[|rows|] == r && forall j | 0 <= j < |rows| :: g[j] == rows[j];
  }

  lemma {:induction false} RunningAppend(w: int, rows: seq<Row>, r: Row)
    ensures Running(w, rows + [r]) <==> !r.kind.Exit? && (Running(w, rows) || Opens(w, rows, r))
  {
    hide OpensAt, Opens, NoExitFrom;
    if Running(w, rows + [r]) {
      var i :| OpensAt(w, rows + [r], i) && NoExitFrom(rows + [r], i);
      OpensAtAppend(w, rows, r, i);
    }
    if Running(w, rows) {
      var i :| OpensAt(w, rows, i) && NoExitFrom(rows, i);
      OpensAtAppend(w, rows, r, i);
    }
    OpensAtAppend(w, rows, r, |rows|);
  }

  lemma {:induction false} LastClosingAppend(w: int, rows: seq<Row>, r: Row)
    ensures LastClosing(w, rows + [r]) == (if r.kind.Exit? && Running(w, rows) then Some(r.at) else LastClosing(w, rows))
  {
    assert (rows + [r])[..|rows|] == rows;
  }

  lemma {:induction false} LogAppend(w: int, rows: seq<Row>, r: Row, k: nat)
    ensures LogOf(w, rows + [r], k) == LogOf(w, rows, k)
      + (if Absorbed(w, rows, r) && |StartsAt(w, rows)| == k + 1 then [r] else [])
  {
    assert (rows + [r])[..|rows|] == rows;
  }

  lemma {:induction false} PlacesAppend(w: int, rows: seq<Row>, r: Row)
    ensures StartsAt(w, rows + [r]) == StartsAt(w, rows) + (if Starts(w, rows, r) then {|rows|} else {})
    ensures ReturnsAt(w, rows + [r]) == ReturnsAt(w, rows) + (if Returns(w, rows, r) then {|rows|} else {})
    ensures ClosingsAt(w, rows + [r])
      == ClosingsAt(w, rows) + (if r.kind.Exit? && Running(w, rows) then {|rows|} else {})
  {
    hide Starts, Returns, Running;
    var g, n := rows + [r], |rows|;
    assert g[..n] == rows && g[n] == r;
    assert forall i | 0 <= i < n :: g[..i] == rows[..i] && g[i] == rows[i];
  }

  lemma {:induction false} NothingTold(w: int)
    ensures !Running(w, []) && LastClosing(w, []).None? && forall k: nat :: LogOf(w, [], k) == []
    ensures StartsAt(w, []) == {} && ReturnsAt(w, []) == {} && ClosingsAt(w, []) == {}
  {
  }

  // ---------------------------------------------------------------------------
  // The aggregator's run is what the rows tell
  // ---------------------------------------------------------------------------

  /** The places of the rows that start, resume and close sessions grow one at a time. */
  lemma {:induction false} CountsAppend(w: int, rows: seq<Row>, r: Row)
    ensures |StartsAt(w, rows + [r])| == |StartsAt(w, rows)| + One(Starts(w, rows, r))
    ensures |ReturnsAt(w, rows + [r])| == |ReturnsAt(w, rows)| + One(Returns(w, rows, r))
    ensures |ClosingsAt(w, rows + [r])| == |ClosingsAt(w, rows)| + One(r.kind.Exit? && Running(w, rows))
  {
    PlacesAppend(w, rows, r);
    assert |rows| !in StartsAt(w, rows) && |rows| !in ReturnsAt(w, rows) && |rows| !in ClosingsAt(w, rows);
    hide StartsAt, ReturnsAt, ClosingsAt, Starts, Returns, Running;
  }

  /** Whether a session runs, when the last one was closed, and how many there were. */
  ghost predicate CountsTold(w: int, rows: seq<Row>, v: Visitor) {
    && (v.active.Some? <==> Running(w, rows))
    && (v.active.None? ==> v.exitAt == LastClosing(w, rows))
    && |Sessions(v)| == |StartsAt(w, rows)|
    && v.merged == |ReturnsAt(w, rows)|
    && |v.closed| + |ReturnsAt(w, rows)| == |ClosingsAt(w, rows)|
  }

  /** The log of session `k`, or nothing if there is no such session yet. */
  function LogAt(logs: seq<seq<Row>>, k: nat): seq<Row> {
    if k < |logs| then logs[k] else []
  }

  /** The log of each session is what the rows tell. */
  ghost predicate LogsTold(w: int, rows: seq<Row>, v: Visitor) {
    forall k: nat :: LogOf(w, rows, k) == LogAt(Sessions(v), k)
  }

  lemma {:induction false} CountsStep(w: int, past: seq<Row>, v: Visitor, r: Row)
    requires ValidVisitor(v) && CountsTold(w, past, v)
    ensures CountsTold(w, past + [r], VisitorStep(w, v, r))
  {
    CountsAppend(w, past, r);
    RunningAppend(w, past, r);
    LastClosingAppend(w, past, r);
    hide Running, LastClosing, StartsAt, ReturnsAt, ClosingsAt;
  }

  /** A row goes to the last session if it is absorbed, and starts a session with an empty log if it starts one. */
  lemma {:induction false} SessionsStep(w: int, past: seq<Row>, v: Visitor, r: Row)
    requires ValidVisitor(v) && CountsTold(w, past, v)
    ensures Absorbed(w, past, r) ==> |Sessions(v)| > 0
    ensures Sessions(VisitorStep(w, v, r)) == (
      if Absorbed(w, past, r) then Sessions(v)[..|Sessions(v)| - 1] + [Sessions(v)[|Sessions(v)| - 1] + [r]]
      else if Starts(w, past, r) then Sessions(v) + [[]]
      else Sessions(v))
  {
    hide Running, LastClosing, StartsAt, ReturnsAt, ClosingsAt;
  }

  lemma {:induction false} LogsStep(w: int, past: seq<Row>, v: Visitor, r: Row)
    requires ValidVisitor(v) && CountsTold(w, past, v) && LogsTold(w, past, v)
    ensures LogsTold(w, past + [r], VisitorStep(w, v, r))
  {
    hide CountsTold, ValidVisitor, VisitorStep, LogOf, LogAt, Sessions;
    forall k: nat
      ensures LogOf(w, past + [r], k) == LogAt(Sessions(VisitorStep(w, v, r)), k)
    {
      assert LogOf(w, past, k) == LogAt(Sessions(v), k);
      LogStep(w, past, v, r, k);
    }
  }

  lemma {:induction false} LogStep(w: int, past: seq<Row>, v: Visitor, r: Row, k: nat)
    requires ValidVisitor(v) && CountsTold(w, past, v) && LogOf(w, past, k) == LogAt(Sessions(v), k)
    ensures LogOf(w, past + [r], k) == LogAt(Sessions(VisitorStep(w, v, r)), k)
  {
    SessionsStep(w, past, v, r);
    LogAppend(w, past, r, k);
    SessionsStarted(w, past, v);
    hide VisitorStep, Running, LastClosing, StartsAt, LogOf, Sessions, Absorbed, Starts, CountsTold, ValidVisitor;
  }

  lemma {:induction false} SessionsStarted(w: int, rows: seq<Row>, v: Visitor)
    requires CountsTold(w, rows, v)
    ensures |Sessions(v)| == |StartsAt(w, rows)|
  {
  }

  lemma {:induction false} RunTold(w: int, rows: seq<Row>)
    ensures CountsTold(w, rows, VisitorRun(w, rows)) && LogsTold(w, rows, VisitorRun(w, rows))
  {
    if rows == [] {
      NothingTold(w);
    } else {
      var past, last := rows[..|rows| - 1], rows[|rows| - 1];
      assert past + [last] == rows;
      assert VisitorRun(w, rows) == VisitorStep(w, VisitorRun(w, past), last);
      RunTold(w, past);
      CountsStep(w, past, VisitorRun(w, past), last);
      LogsStep(w, past, VisitorRun(w, past), last);
    }
  }

  /** No session runs after an EXIT row. */
  lemma {:induction false} ExitEndsSession(w: int, rows: seq<Row>)
    requires rows != [] && rows[|rows| - 1].kind.Exit?
    ensures VisitorRun(w, rows).active.None?
  {
    hide VisitorRun;
    RunTold(w, rows);
    var past, last := rows[..|rows| - 1], rows[|rows| - 1];
    assert past + [last] == rows;
    RunningAppend(w, past, last);
  }

  /** A visitor without an arrival never has a session; a visitor with one has or had one. */
  lemma {:induction false} ArrivalTold(w: int, rows: seq<Row>)
    ensures Running(w, rows) || LastClosing(w, rows).Some? <==> exists i :: 0 <= i < |rows| && Arrives(rows[i])
  {
    if rows == [] {
      NothingTold(w);
    } else {
      var past, last := rows[..|rows| - 1], rows[|rows| - 1];
      assert past + [last] == rows;
      ArrivalTold(w, past);
      RunningAppend(w, past, last);
      LastClosingAppend(w, past, last);
      hide Running, LastClosing;
      assert forall i | 0 <= i < |past| :: past[i] == rows[i];
    }
  }

  /** A session starts at a visitor's first arrival, and at one more than the window after the last closing EXIT. */
  lemma {:induction false} StartsExactly(w: int, past: seq<Row>, r: Row)
    ensures Starts(w, past, r) <==>
      && Arrives(r)
      && !Running(w, past)
      && ((forall i | 0 <= i < |past| :: !Arrives(past[i]))
          || (LastClosing(w, past).Some? && r.at - LastClosing(w, past).value > w))
  {
    hide Running, LastClosing;
    ArrivalTold(w, past);
  }

  // ---------------------------------------------------------------------------
  // The whole funnel
  // ---------------------------------------------------------------------------

  ghost function StartedBy(w: int, rows: seq<Row>): map<string, nat> {
    map k | k in Keys(rows) :: |StartsAt(w, Sub(rows, k))|
  }

  ghost function ReturnedBy(w: int, rows: seq<Row>): map<string, nat> {
    map k | k in Keys(rows) :: |ReturnsAt(w, Sub(rows, k))|
  }

  /** The sessions of a visitor whose log shows that stage `s` was reached. */
  ghost function ReachingAt(cfg: Config, rows: seq<Row>, s: Stage): set<nat> {
    set k: nat | k < |StartsAt(cfg.window, rows)| && s in Reached(cfg, LogOf(cfg.window, rows, k))
  }

  ghost function ReachedBy(cfg: Config, rows: seq<Row>, s: Stage): map<string, nat> {
    map k | k in Keys(rows) :: |ReachingAt(cfg, Sub(rows, k), s)|
  }

  /** The places of the logs that reached stage `s`. */
  ghost function PlacesOf(cfg: Config, logs: seq<seq<Row>>, s: Stage): set<nat> {
    set k: nat | k < |logs| && s in Reached(cfg, logs[k])
  }

  /** Counting the logs that reached a stage is counting their places. */
  lemma {:induction false} PlacesReached(cfg: Config, logs: seq<seq<Row>>, s: Stage)
    ensures CountLogs(cfg, OfStage(s), logs) == |PlacesOf(cfg, logs, s)|
  {
    hide Reached;
    if logs == [] {
      assert PlacesOf(cfg, logs, s) == {};
    } else {
      var front, n := logs[..|logs| - 1], |logs| - 1;
      PlacesReached(cfg, front, s);
      PlacesFront(cfg, logs, s);
      assert n !in PlacesOf(cfg, front, s);
      hide PlacesOf;
    }
  }

  lemma {:induction false} PlacesFront(cfg: Config, logs: seq<seq<Row>>, s: Stage)
    requires logs != []
    ensures var n := |logs| - 1;
      PlacesOf(cfg, logs, s) == PlacesOf(cfg, logs[..n], s) + (if s in Reached(cfg, logs[n]) then {n} else {})
  {
    hide Reached;
  }

  /** What is counted for a visitor is told by that visitor's rows. */
  lemma {:induction false} VisitorCounted(cfg: Config, rows: seq<Row>, s: Stage)
    ensures var v := VisitorRun(cfg.window, rows);
      && CountVisitor(cfg, OfSessions, v) == |StartsAt(cfg.window, rows)|
      && CountVisitor(cfg, OfMerged, v) == |ReturnsAt(cfg.window, rows)|
      && CountVisitor(cfg, OfStage(s), v) == |ReachingAt(cfg, rows, s)|
  {
    var v := VisitorRun(cfg.window, rows);
    RunTold(cfg.window, rows);
    CountSessions(cfg, Sessions(v));
    NoneMerged(cfg, Sessions(v));
    PlacesReached(cfg, Sessions(v), s);
    hide VisitorRun, CountLogs, Reached, StartsAt, ReturnsAt, LogOf, Sessions;
    assert ReachingAt(cfg, rows, s) == PlacesOf(cfg, Sessions(v), s);
  }

  lemma {:induction false} NoneMerged(cfg: Config, logs: seq<seq<Row>>)
    ensures CountLogs(cfg, OfMerged, logs) == 0
  {
    if logs != [] {
      NoneMerged(cfg, logs[..|logs| - 1]);
    }
  }

  /** The funnel counts, over all visitors, the sessions started, the sessions resumed and those that reached a stage. */
  lemma {:induction false} FunnelTold(cfg: Config, rows: seq<Row>)
    ensures var f := ReferenceFunnel(cfg, rows);
      && f.sessionCount == Total(StartedBy(cfg.window, rows))
      && f.reentryMerged == Total(ReturnedBy(cfg.window, rows))
      && (forall s | s in f.stageCounts :: f.stageCounts[s] == Total(ReachedBy(cfg, rows, s)))
  {
    var visitors := VisitorsOf(cfg.window, rows);
    VisitorsCounted(cfg, rows, EntryStage);
    hide StartedBy, ReturnedBy, ReachedBy, CountsOf, VisitorsOf, Total;
    forall s: Stage
      ensures CountsOf(cfg, OfStage(s), visitors) == ReachedBy(cfg, rows, s)
    {
      VisitorsCounted(cfg, rows, s);
    }
  }

  lemma {:induction false} VisitorsCounted(cfg: Config, rows: seq<Row>, s: Stage)
    ensures var visitors := VisitorsOf(cfg.window, rows);
      && CountsOf(cfg, OfSessions, visitors) == StartedBy(cfg.window, rows)
      && CountsOf(cfg, OfMerged, visitors) == ReturnedBy(cfg.window, rows)
      && CountsOf(cfg, OfStage(s), visitors) == ReachedBy(cfg, rows, s)
  {
    hide CountVisitor, Sub, Keys, VisitorRun, StartsAt, ReturnsAt, ReachingAt;
    forall k | k in Keys(rows)
      ensures var v := VisitorRun(cfg.window, Sub(rows, k));
        && CountVisitor(cfg, OfSessions, v) == |StartsAt(cfg.window, Sub(rows, k))|
        && CountVisitor(cfg, OfMerged, v) == |ReturnsAt(cfg.window, Sub(rows, k))|
        && CountVisitor(cfg, OfStage(s), v) == |ReachingAt(cfg, Sub(rows, k), s)|
    {
      VisitorCounted(cfg, Sub(rows, k), s);
    }
  }

  ghost function RowsBy(rows: seq<Row>): map<string, nat> {
    map k | k in Keys(rows) :: |Sub(rows, k)|
  }

  /** Every row is either a member of staff's or goes to exactly one visitor. */
  lemma {:induction false} RowsAccounted(rows: seq<Row>)
    ensures StaffCount(rows) + Total(RowsBy(rows)) == |rows|
  {
    if rows == [] {
      assert RowsBy(rows) == map[];
    } else {
      var past, last := rows[..|rows| - 1], rows[|rows| - 1];
      RowsAccounted(past);
      KeyHasRows(past, Route(last));
      RowsByStep(past, last);
      assert past + [last] == rows;
      hide RowsBy, Route, Total, Keys;
      if !last.staff {
        TotalUpdate(RowsBy(past), Route(last), |Sub(past, Route(last))| + 1);
        RowsByAt(past, Route(last));
      }
    }
  }

  lemma {:induction false} RowsByAt(rows: seq<Row>, k: string)
    ensures if k in RowsBy(rows) then RowsBy(rows)[k] == |Sub(rows, k)| else Sub(rows, k) == []
  {
    KeyHasRows(rows, k);
  }

  /** A row of a visitor's adds one to that visitor's rows; a row of staff's changes nothing. */
  lemma {:induction false} RowsByStep(rows: seq<Row>, r: Row)
    ensures var k := Route(r);
      RowsBy(rows + [r]) == if r.staff then RowsBy(rows) else RowsBy(rows)[k := |Sub(rows, k)| + 1]
  {
    assert (rows + [r])[..|rows|] == rows;
    hide Route, Sub;
    forall k: string
      ensures Sub(rows + [r], k) == Sub(rows, k) + (if !r.staff && Route(r) == k then [r] else [])
    {
      SubAppend(rows, r, k);
    }
  }

  /** A visitor who comes, leaves and comes again has one session or two, as the window has passed or not. */
  lemma {:induction false} ComesAgain(cfg: Config, enter: Row, leave: Row, again: Row)
    requires Arrives(enter) && leave.kind.Exit? && Arrives(again)
    requires !enter.staff && !leave.staff && !again.staff && Route(enter) == Route(leave) == Route(again)
    ensures var f := ReferenceFunnel(cfg, [enter, leave, again]);
      && f.sessionCount == (if again.at - leave.at > cfg.window then 2 else 1)
      && f.reentryMerged == (if again.at - leave.at > cfg.window then 0 else 1)
  {
    var rows := [enter, leave, again];
    SubOfThree(enter, leave, again);
    KeysOfThree(enter, leave, again);
    CountsOfThree(cfg.window, enter, leave, again);
    assert Keys(rows) == {Route(enter)} && Sub(rows, Route(enter)) == rows;
    hide *;
    OneVisitor(cfg, rows, Route(enter));
  }

  lemma {:induction false} OneVisitor(cfg: Config, rows: seq<Row>, k: string)
    requires Keys(rows) == {k} && Sub(rows, k) == rows
    ensures var f := ReferenceFunnel(cfg, rows);
      && f.sessionCount == |StartsAt(cfg.window, rows)|
      && f.reentryMerged == |ReturnsAt(cfg.window, rows)|
  {
    FunnelTold(cfg, rows);
    hide StartsAt, ReturnsAt, Sub, Keys, ReferenceFunnel, Total;
    TotalSingle(StartedBy(cfg.window, rows), k);
    TotalSingle(ReturnedBy(cfg.window, rows), k);
  }

  lemma {:induction false} SubOfThree(a: Row, b: Row, c: Row)
    requires !a.staff && !b.staff && !c.staff && Route(a) == Route(b) == Route(c)
    ensures Sub([a, b, c], Route(a)) == [a, b, c]
  {
    hide Route, Sub;
    SubNothing(Route(a));
    SubAppend([], a, Route(a));
    SubAppend([a], b, Route(a));
    SubAppend([a, b], c, Route(a));
    assert [] + [a] == [a] && [a] + [b] == [a, b] && [a, b] + [c] == [a, b, c];
  }

  lemma {:induction false} CountsOfThree(w: int, enter: Row, leave: Row, again: Row)
    requires Arrives(enter) && leave.kind.Exit? && Arrives(again)
    ensures var rows, far := [enter, leave, again], again.at - leave.at > w;
      |StartsAt(w, rows)| == (if far then 2 else 1) && |ReturnsAt(w, rows)| == (if far then 0 else 1)
  {
    hide Running, LastClosing, StartsAt, ReturnsAt, ClosingsAt;
    NothingTold(w);
    RowTells(w, [], enter);
    RowTells(w, [enter], leave);
    RowTells(w, [enter, leave], again);
    assert [] + [enter] == [enter] && [enter] + [leave] == [enter, leave] && [enter, leave] + [again] == [enter, leave, again];
  }

  lemma {:induction false} RowTells(w: int, rows: seq<Row>, r: Row)
    ensures Running(w, rows + [r]) <==> !r.kind.Exit? && (Running(w, rows) || Opens(w, rows, r))
    ensures LastClosing(w, rows + [r]) == (if r.kind.Exit? && Running(w, rows) then Some(r.at) else LastClosing(w, rows))
    ensures |StartsAt(w, rows + [r])| == |StartsAt(w, rows)| + One(Starts(w, rows, r))
    ensures |ReturnsAt(w, rows + [r])| == |ReturnsAt(w, rows)| + One(Returns(w, rows, r))
  {
    CountsAppend(w, rows, r);
    RunningAppend(w, rows, r);
    LastClosingAppend(w, rows, r);
  }

  lemma {:induction false} KeysOfThree(a: Row, b: Row, c: Row)
    requires !a.staff && !b.staff && !c.staff
    ensures Keys([a, b, c]) == {Route(a), Route(b), Route(c)}
  {
    hide Route;
    assert [a, b, c][..2] == [a, b] && [a, b][..1] == [a] && [a][..0] == [];
    assert Keys([a]) == {Route(a)} && Keys([a, b]) == {Route(a), Route(b)};
  }
}
