/**
 The purchases of a funnel as the cash desk sees them: visitors whose latest sight at the billing area lies shortly
 before a transaction. When there are transactions their number replaces the purchases read off the sessions.
 */
module FunnelPos {
  import opened Options
  import opened FunnelModel
  import opened Sums
  import opened FunnelTheorems
  import opened FunnelAggregator

  /** Of a transaction only its time matters, in microseconds. */
  datatype Transaction = Transaction(id: string, at: int)

  /** A row that shows its visitor at the checkout zone or joining the billing queue. */
  predicate AtBilling(cfg: Config, r: Row) {
    ((r.kind.ZoneEnter? || r.kind.ZoneExit? || r.kind.ZoneDwell? || r.kind.Dwell?) && r.zoneId == cfg.checkoutZone)
    || BillingJoin(cfg, r)
  }

  /** The times at which a visitor was seen at billing, in stream order. */
  function BillingTimes(cfg: Config, rows: seq<Row>, k: string): seq<int> {
    if rows == [] then []
    else
      var last := rows[|rows| - 1];
      BillingTimes(cfg, rows[..|rows| - 1], k) +
      (if !last.staff && AtBilling(cfg, last) && VisitorKey(last) == k then [last.at] else [])
  }

  /** The visitors ever seen at billing. */
  function SeenAtBilling(cfg: Config, rows: seq<Row>): set<string> {
    if rows == [] then {}
    else
      var last := rows[|rows| - 1];
      SeenAtBilling(cfg, rows[..|rows| - 1]) + (if !last.staff && AtBilling(cfg, last) then {VisitorKey(last)} else {})
  }

  lemma {:induction false} SeenHasTimes(cfg: Config, rows: seq<Row>, k: string)
    ensures k in SeenAtBilling(cfg, rows) <==> BillingTimes(cfg, rows, k) != []
  {
    hide AtBilling, VisitorKey;
    if rows != [] {
      SeenHasTimes(cfg, rows[..|rows| - 1], k);
    }
  }

  /** The visitor was seen at billing: in a zone event of the checkout zone, or joining the billing queue. */
  predicate ShownAtBilling(cfg: Config, r: Row, k: string) {
    && !r.staff && VisitorKey(r) == k
    && ((r.kind in {ZoneEnter, ZoneExit, ZoneDwell, Dwell} && r.zoneId == cfg.checkoutZone)
        || (r.kind == QueueJoin && r.queueId == cfg.billingQueue))
  }

  lemma {:induction false} SeenMeans(cfg: Config, rows: seq<Row>, k: string)
    ensures k in SeenAtBilling(cfg, rows) <==> exists r :: r in rows && ShownAtBilling(cfg, r, k)
  {
    if rows != [] {
      var front, last := rows[..|rows| - 1], rows[|rows| - 1];
      SeenMeans(cfg, front, k);
      assert rows == front + [last];
      assert ShownAtBilling(cfg, last, k) <==> !last.staff && AtBilling(cfg, last) && VisitorKey(last) == k;
      hide VisitorKey, ShownAtBilling, AtBilling, SeenAtBilling;
      SeenStep(cfg, rows, k);
      if r :| r in front && ShownAtBilling(cfg, r, k) {
        assert r in rows;
      }
      assert last in rows && forall r | r in rows :: r in front || r == last;
    }
  }

  lemma {:induction false} SeenStep(cfg: Config, rows: seq<Row>, k: string)
    requires rows != []
    ensures var front, last := rows[..|rows| - 1], rows[|rows| - 1];
      k in SeenAtBilling(cfg, rows) <==>
        k in SeenAtBilling(cfg, front) || (!last.staff && AtBilling(cfg, last) && VisitorKey(last) == k)
  {
    hide VisitorKey, AtBilling;
  }

  /** A transaction that follows the sight by no more than the window. */
  predicate Matches(window: int, t: Transaction, seenAt: int) {
    0 <= t.at - seenAt <= window
  }

  predicate MatchedBy(window: int, txns: seq<Transaction>, seenAt: int) {
    exists i | 0 <= i < |txns| :: Matches(window, txns[i], seenAt)
  }

  /** `last` holds exactly the latest time of each visitor seen at billing. */
  ghost predicate IsLastSeen(cfg: Config, rows: seq<Row>, last: map<string, int>) {
    && last.Keys == SeenAtBilling(cfg, rows)
    && forall k | k in last :: var times := BillingTimes(cfg, rows, k); times != [] && last[k] == times[|times| - 1]
  }

  lemma {:induction false} SeenMore(cfg: Config, rows: seq<Row>, r: Row, k: string)
    ensures var shown := !r.staff && AtBilling(cfg, r);
      && SeenAtBilling(cfg, rows + [r]) == SeenAtBilling(cfg, rows) + (if shown then {VisitorKey(r)} else {})
      && BillingTimes(cfg, rows + [r], k)
        == BillingTimes(cfg, rows, k) + (if shown && VisitorKey(r) == k then [r.at] else [])
  {
    hide AtBilling, VisitorKey;
    assert (rows + [r])[..|rows|] == rows;
  }

  /** What a row does to the latest times: it sets its visitor's, if it shows the visitor at billing. */
  lemma {:induction false} LastSeenMore(cfg: Config, rows: seq<Row>, r: Row, last: map<string, int>)
    requires IsLastSeen(cfg, rows, last)
    ensures IsLastSeen(cfg, rows + [r], if !r.staff && AtBilling(cfg, r) then last[VisitorKey(r) := r.at] else last)
  {
    hide AtBilling, VisitorKey, BillingTimes, SeenAtBilling;
    var now := if !r.staff && AtBilling(cfg, r) then last[VisitorKey(r) := r.at] else last;
    SeenMore(cfg, rows, r, "");
    forall k | k in now
      ensures var times := BillingTimes(cfg, rows + [r], k); times != [] && now[k] == times[|times| - 1]
    {
      SeenMore(cfg, rows, r, k);
    }
  }

  method BillingLastSeen(cfg: Config, events: seq<Row>) returns (last: map<string, int>)
    ensures IsLastSeen(cfg, events, last)
  {
    last := map[];
    NobodySeen(cfg);
    hide VisitorKey, IsLastSeen;
    for i := 0 to |events|
      invariant IsLastSeen(cfg, events[..i], last)
    {
      var row := events[i];
      assert events[..i] + [row] == events[..i + 1];
      LastSeenMore(cfg, events[..i], row, last);
      if row.staff {
        continue;
      }
      var key := VisitorKey(row);
      if row.kind.ZoneEnter? || row.kind.ZoneExit? || row.kind.ZoneDwell? || row.kind.Dwell? {
        if row.zoneId == cfg.checkoutZone {
          last := last[key := row.at];
        }
      } else if row.kind.QueueJoin? {
        if row.queueId == cfg.billingQueue {
          last := last[key := row.at];
        }
      }
    }
    assert events[..|events|] == events;
  }

  lemma {:induction false} NobodySeen(cfg: Config)
    ensures IsLastSeen(cfg, [], map[])
  {
  }

  function LastTime(cfg: Config, rows: seq<Row>, k: string): int {
    var times := BillingTimes(cfg, rows, k);
    if times == [] then 0 else times[|times| - 1]
  }

  predicate LastShown(cfg: Config, rows: seq<Row>, i: nat, k: string) {
    i < |rows| && ShownAtBilling(cfg, rows[i], k) && forall j | i < j < |rows| :: !ShownAtBilling(cfg, rows[j], k)
  }

  /** The time looked up is that of the last row that shows the visitor at billing. */
  lemma {:induction false} LastTimeMeans(cfg: Config, rows: seq<Row>, k: string, i: nat)
    requires LastShown(cfg, rows, i, k)
    ensures k in SeenAtBilling(cfg, rows) && LastTime(cfg, rows, k) == rows[i].at
  {
    var front, last := rows[..|rows| - 1], rows[|rows| - 1];
    assert front + [last] == rows;
    SeenMore(cfg, front, last, k);
    hide VisitorKey, BillingTimes, SeenAtBilling;
    if i < |front| {
      assert forall j | 0 <= j < |front| :: front[j] == rows[j];
      LastTimeMeans(cfg, front, k, i);
      SeenHasTimes(cfg, front, k);
      assert BillingTimes(cfg, front, k) + [] == BillingTimes(cfg, front, k);
    }
  }

  /** The visitors whose latest sight at billing a transaction follows closely. */
  function Converted(cfg: Config, rows: seq<Row>, txns: seq<Transaction>, window: int): set<string> {
    set k | k in SeenAtBilling(cfg, rows) && MatchedBy(window, txns, LastTime(cfg, rows, k))
  }

  /** All pairs of a transaction and a visitor are tried. */
  method ConvertedVisitorsFromPos(cfg: Config, ghost rows: seq<Row>, txns: seq<Transaction>, last: map<string, int>,
                                  window: int)
    returns (converted: set<string>)
    requires IsLastSeen(cfg, rows, last)
    ensures converted == Converted(cfg, rows, txns, window)
  {
    hide BillingTimes, SeenAtBilling;
    converted := {};
    if txns == [] || last == map[] {
      return;
    }
    for i := 0 to |txns|
      invariant converted == set k | k in last && MatchedBy(window, txns[..i], last[k])
    {
      ghost var before := converted;
      var left := last.Keys;
      while left != {}
        invariant left <= last.Keys
        invariant converted == before + set k | k in last && k !in left && Matches(window, txns[i], last[k])
      {
        var k :| k in left;
        if 0 <= txns[i].at - last[k] <= window {
          converted := converted + {k};
        }
        left := left - {k};
      }
      forall k | k in last
        ensures MatchedBy(window, txns[..i + 1], last[k]) <==>
          MatchedBy(window, txns[..i], last[k]) || Matches(window, txns[i], last[k])
      {
        MatchedMore(window, txns, i, last[k]);
      }
    }
    assert txns[..|txns|] == txns;
  }

  lemma {:induction false} MatchedMore(window: int, txns: seq<Transaction>, i: nat, seenAt: int)
    requires i < |txns|
    ensures MatchedBy(window, txns[..i + 1], seenAt) <==>
      MatchedBy(window, txns[..i], seenAt) || Matches(window, txns[i], seenAt)
  {
    var more := txns[..i + 1];
    assert more[i] == txns[i] && forall j | 0 <= j < i :: more[j] == txns[..i][j];
    hide Matches;
    if MatchedBy(window, txns[..i], seenAt) {
      var j :| 0 <= j < i && Matches(window, txns[..i][j], seenAt);
      assert Matches(window, more[j], seenAt);
    }
  }

  // ---------------------------------------------------------------------------
  // The counts that are reported
  // ---------------------------------------------------------------------------

  const NO_COUNTS: map<Stage, nat> := map[EntryStage := 0, ZoneVisitStage := 0, BillingQueueStage := 0, PurchaseStage := 0]

  /** Without sessions nothing is reported; with transactions they decide the purchases. */
  ghost function ReportedCounts(cfg: Config, rows: seq<Row>, txns: seq<Transaction>, window: int): map<Stage, nat> {
    var funnel := ReferenceFunnel(cfg, rows);
    if funnel.sessionCount == 0 then NO_COUNTS
    else if txns == [] then funnel.stageCounts
    else funnel.stageCounts[PurchaseStage := |Converted(cfg, rows, txns, window)|]
  }

  method GetFunnelCounts(cfg: Config, events: seq<Row>, txns: seq<Transaction>, window: int)
    returns (counts: map<Stage, nat>)
    ensures counts == ReportedCounts(cfg, events, txns, window)
  {
    hide Converted, IsLastSeen;
    var aggregation := AggregateFunnelSessions(cfg, events);
    StagesCounted(cfg, events, EntryStage);
    StageCountsDescend(cfg, events);
    hide ReferenceFunnel;
    counts := aggregation.stageCounts;
    if aggregation.sessionCount == 0 || counts[EntryStage] == 0 {
      return NO_COUNTS;
    }
    if txns != [] {
      var last := BillingLastSeen(cfg, events);
      var converted := ConvertedVisitorsFromPos(cfg, events, txns, last, window);
      counts := counts[PurchaseStage := |converted|];
    }
  }

  /** Before the cash desk is asked, every stage is counted, and none less often than the purchase. */
  lemma {:induction false} StagesCounted(cfg: Config, rows: seq<Row>, s: Stage)
    ensures var counts := ReferenceFunnel(cfg, rows).stageCounts;
      s in counts && PurchaseStage in counts && counts[PurchaseStage] <= counts[s]
  {
    StageCountsDescend(cfg, rows);
    hide ReferenceCount, StaffCount;
    assert STAGE_ORDER[Index(s)] == s && STAGE_ORDER[3] == PurchaseStage;
    match s
    case EntryStage =>
    case ZoneVisitStage =>
    case BillingQueueStage =>
    case PurchaseStage =>
  }

  /** No stage before the purchase is reported less often than the purchase. */
  ghost predicate PurchaseWithin(cfg: Config, rows: seq<Row>, txns: seq<Transaction>, window: int, s: Stage) {
    var counts := ReportedCounts(cfg, rows, txns, window);
    PurchaseStage in counts && s in counts && counts[PurchaseStage] <= counts[s]
  }

  lemma {:induction false} FewerConverted(cfg: Config, rows: seq<Row>, txns: seq<Transaction>, window: int)
    ensures |Converted(cfg, rows, txns, window)| <= |SeenAtBilling(cfg, rows)|
  {
    SubsetIsSmaller(Converted(cfg, rows, txns, window), SeenAtBilling(cfg, rows));
  }

  lemma {:induction false} SubsetIsSmaller(a: set<string>, b: set<string>)
    requires a <= b
    ensures |a| <= |b|
  {
    assert b == a + (b - a);
  }

  /** A transaction at the time of every billing row converts everybody who was seen there. */
  function SaleAtEachRow(rows: seq<Row>): seq<Transaction> {
    if rows == [] then [] else SaleAtEachRow(rows[..|rows| - 1]) + [Transaction("", rows[|rows| - 1].at)]
  }

  lemma {:induction false} SaleAt(cfg: Config, rows: seq<Row>, k: string, at: int)
    requires at in BillingTimes(cfg, rows, k)
    ensures exists i | 0 <= i < |SaleAtEachRow(rows)| :: SaleAtEachRow(rows)[i].at == at
  {
    hide AtBilling, VisitorKey;
    var front, last := rows[..|rows| - 1], rows[|rows| - 1];
    var sales := SaleAtEachRow(rows);
    if at in BillingTimes(cfg, front, k) {
      SaleAt(cfg, front, k, at);
      var i :| 0 <= i < |SaleAtEachRow(front)| && SaleAtEachRow(front)[i].at == at;
      assert sales[i].at == at;
    } else {
      assert sales[|sales| - 1].at == at;
    }
  }

  lemma {:induction false} AllConverted(cfg: Config, rows: seq<Row>, window: int)
    requires window >= 0
    ensures Converted(cfg, rows, SaleAtEachRow(rows), window) == SeenAtBilling(cfg, rows)
  {
    hide BillingTimes, SeenAtBilling, SaleAtEachRow;
    var sales := SaleAtEachRow(rows);
    forall k | k in SeenAtBilling(cfg, rows)
      ensures MatchedBy(window, sales, LastTime(cfg, rows, k))
    {
      SeenHasTimes(cfg, rows, k);
      SaleAt(cfg, rows, k, LastTime(cfg, rows, k));
      var i :| 0 <= i < |sales| && sales[i].at == LastTime(cfg, rows, k);
      assert Matches(window, sales[i], LastTime(cfg, rows, k));
    }
  }

  lemma {:induction false} SalesExist(cfg: Config, rows: seq<Row>)
    ensures SeenAtBilling(cfg, rows) != {} ==> SaleAtEachRow(rows) != []
  {
  }

  /**
   Whatever transactions there are, the purchases reported stay within a stage's count exactly when everybody seen at
   billing would: no more visitors were seen there than the stage counts sessions, or there is no session at all.
   */
  lemma {:induction false} PurchaseWithinExactly(cfg: Config, rows: seq<Row>, window: int, s: Stage)
    requires window >= 0 && s != PurchaseStage
    ensures s in ReferenceFunnel(cfg, rows).stageCounts
    ensures (forall txns: seq<Transaction> :: PurchaseWithin(cfg, rows, txns, window, s)) <==>
      ReferenceFunnel(cfg, rows).sessionCount == 0
      || |SeenAtBilling(cfg, rows)| <= ReferenceFunnel(cfg, rows).stageCounts[s]
  {
    StagesCounted(cfg, rows, s);
    hide ReferenceFunnel, Converted, SeenAtBilling, SaleAtEachRow;
    var funnel := ReferenceFunnel(cfg, rows);
    if funnel.sessionCount == 0 || |SeenAtBilling(cfg, rows)| <= funnel.stageCounts[s] {
      forall txns: seq<Transaction>
        ensures PurchaseWithin(cfg, rows, txns, window, s)
      {
        FewerConverted(cfg, rows, txns, window);
      }
    } else {
      var sales := SaleAtEachRow(rows);
      AllConverted(cfg, rows, window);
      SalesExist(cfg, rows);
      assert !PurchaseWithin(cfg, rows, sales, window, s);
    }
  }

  // ---------------------------------------------------------------------------
  // More purchases than visitors queued
  // ---------------------------------------------------------------------------

  const SHOP := Config("checkout", "billing", 1800)
  const ARRIVES := Row(Entry, 0, None, Some("a"), false, None, None, "", "")
  const AT_DESK := Row(ZoneEnter, 1, None, Some("a"), false, None, None, "checkout", "")

  const SALE := Transaction("t", 1)

  const BOTH := [ARRIVES, AT_DESK]

  lemma {:induction false} OneKey()
    ensures BOTH[..1] == [ARRIVES] && VisitorKey(ARRIVES) == "a" && VisitorKey(AT_DESK) == "a"
    ensures Sub([ARRIVES], "a") == [ARRIVES] && Keys([ARRIVES]) == {"a"}
    ensures Sub(BOTH, "a") == BOTH && Keys(BOTH) == {"a"}
  {
    assert BOTH[..1] == [ARRIVES] && [ARRIVES][..0] == [];
    assert Sub([ARRIVES], "a") == [ARRIVES];
    assert Keys([ARRIVES]) == {"a"};
  }

  lemma {:induction false} OneVisitor()
    ensures VisitorsOf(SHOP.window, BOTH) == map["a" := Visitor([], Some([AT_DESK]), None, 0)]
  {
    OneKey();
    hide Sub, Keys, VisitorKey;
    var w := SHOP.window;
    var v := Visitor([], Some([AT_DESK]), None, 0);
    RunOfBoth(w);
    hide VisitorRun, VisitorStep;
    assert VisitorsOf(w, BOTH).Keys == {"a"};
    assert VisitorsOf(w, BOTH)["a"] == VisitorRun(w, Sub(BOTH, "a"));
  }

  lemma {:induction false} RunOfBoth(w: int)
    ensures VisitorRun(w, BOTH) == Visitor([], Some([AT_DESK]), None, 0)
  {
    assert [ARRIVES][..0] == [];
    assert VisitorRun(w, [ARRIVES]) == Visitor([], Some([]), None, 0);
    assert BOTH[|BOTH| - 1] == AT_DESK && BOTH[..|BOTH| - 1] == [ARRIVES];
    assert VisitorRun(w, BOTH) == VisitorStep(w, VisitorRun(w, [ARRIVES]), AT_DESK);
    assert [] + [AT_DESK] == [AT_DESK];
  }

  lemma {:induction false} OneSeen()
    ensures SeenAtBilling(SHOP, BOTH) == {"a"} && BillingTimes(SHOP, BOTH, "a") == [1]
  {
    OneKey();
    hide VisitorKey;
    assert [ARRIVES][..0] == [];
    assert SeenAtBilling(SHOP, [ARRIVES]) == {} && BillingTimes(SHOP, [ARRIVES], "a") == [];
  }

  lemma {:induction false} CountSingle(cfg: Config, what: Measure, log: seq<Row>)
    ensures CountLogs(cfg, what, [log]) == Weight(cfg, what, log)
  {
    hide Weight;
    assert [log][..0] == [];
    assert CountLogs(cfg, what, []) == 0;
  }

  /** When a stream has one visitor with one session, what is counted is that session. */
  lemma {:induction false} OneStays(cfg: Config, what: Measure, rows: seq<Row>, k: string, log: seq<Row>)
    requires VisitorsOf(cfg.window, rows) == map[k := Visitor([], Some(log), None, 0)]
    ensures ReferenceCount(cfg, what, rows) == if what.OfMerged? then 0 else Weight(cfg, what, log)
  {
    hide VisitorsOf, CountLogs, Weight, Total;
    var v := Visitor([], Some(log), None, 0);
    assert Sessions(v) == [log];
    CountSingle(cfg, what, log);
    LogsMergeNothing(cfg, [log]);
    hide Sessions;
    var counts := CountsOf(cfg, what, VisitorsOf(cfg.window, rows));
    assert counts == map[k := CountVisitor(cfg, what, v)];
    TotalSingle(counts, k);
  }

  lemma {:induction false} OneConverted()
    ensures Converted(SHOP, BOTH, [SALE], 300) == {"a"}
  {
    OneSeen();
    hide BillingTimes, SeenAtBilling;
    assert Matches(300, [SALE][0], 1) && MatchedBy(300, [SALE], 1);
  }

  lemma {:induction false} NoQueueSeen()
    ensures Weight(SHOP, OfStage(BillingQueueStage), [AT_DESK]) == 0
  {
    assert !SawBilling(SHOP, [AT_DESK]);
    hide SawBilling, SawZone, SawPurchase;
  }

  /** A visitor who walks up to the desk past the queue, and one sale: a purchase, but nobody in the billing queue. */
  lemma {:induction false} PurchaseWithoutQueue()
    ensures var counts := ReportedCounts(SHOP, BOTH, [SALE], 300);
      && BillingQueueStage in counts && PurchaseStage in counts
      && counts[BillingQueueStage] == 0 && counts[PurchaseStage] == 1
  {
    OneConverted();
    OneVisitor();
    OneStays(SHOP, OfSessions, BOTH, "a", [AT_DESK]);
    OneStays(SHOP, OfStage(BillingQueueStage), BOTH, "a", [AT_DESK]);
    NoQueueSeen();
    StagesCounted(SHOP, BOTH, BillingQueueStage);
    hide ReferenceCount, StaffCount, Converted, VisitorsOf;
  }
}
