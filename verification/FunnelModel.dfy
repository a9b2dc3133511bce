/**
 The event rows the funnel reads, the routing of a row to a visitor, and the reference
 definition of a funnel: every visitor is looked at alone, a session is just the log of rows
 it absorbed, and the stages it reached are read off that log.
 */
module FunnelModel {
  import opened Options
  import opened Sums
  import Text

  datatype EventKind =
    | Entry | Exit | Reentry
    | ZoneEnter | ZoneExit | ZoneDwell | Dwell
    | QueueJoin | QueueLeave
    | OtherKind

  /** One row of the session event query; `at` is in microseconds. */
  datatype Row = Row(
    kind: EventKind,
    at: int,
    trackId: Option<int>,
    person: Option<string>,
    staff: bool,
    visitorId: Option<string>,
    priorVisitorId: Option<string>,
    zoneId: string,
    queueId: string)

  datatype Config = Config(checkoutZone: string, billingQueue: string, window: int)

  datatype Stage = EntryStage | ZoneVisitStage | BillingQueueStage | PurchaseStage

  const STAGE_ORDER: seq<Stage> := [EntryStage, ZoneVisitStage, BillingQueueStage, PurchaseStage]

  /** Python truthiness of an optional string. */
  predicate Truthy(s: Option<string>) {
    s.Some? && s.value != ""
  }

  function VisitorKey(r: Row): string {
    if Truthy(r.visitorId) then r.visitorId.value
    else if Truthy(r.person) then r.person.value
    else if r.trackId.Some? then "track-" + Text.Decimal(r.trackId.value)
    else "anon-" + Text.Decimal(r.at)
  }

  function ReentryVisitorId(r: Row): Option<string> {
    if Truthy(r.visitorId) then r.visitorId
    else if Truthy(r.priorVisitorId) then r.priorVisitorId
    else None
  }

  /** The visitor a row is dispatched to. */
  function Route(r: Row): string {
    if r.kind.Reentry? && ReentryVisitorId(r).Some? then ReentryVisitorId(r).value else VisitorKey(r)
  }

  // ---------------------------------------------------------------------------
  // What a session's log shows
  // ---------------------------------------------------------------------------

  predicate ZoneRow(r: Row) {
    (r.kind.ZoneEnter? || r.kind.ZoneExit? || r.kind.ZoneDwell? || r.kind.Dwell?) && r.zoneId != ""
  }

  predicate BillingJoin(cfg: Config, r: Row) {
    r.kind.QueueJoin? && r.queueId == cfg.billingQueue
  }

  predicate CheckoutRow(cfg: Config, r: Row) {
    ZoneRow(r) && r.zoneId == cfg.checkoutZone
  }

  predicate ZoneAt(log: seq<Row>, i: int) {
    0 <= i < |log| && ZoneRow(log[i])
  }

  ghost predicate SawZone(log: seq<Row>) {
    exists i :: ZoneAt(log, i)
  }

  predicate BillingAt(cfg: Config, log: seq<Row>, i: int, j: int) {
    ZoneAt(log, i) && i < j < |log| && BillingJoin(cfg, log[j])
  }

  predicate PurchaseAt(cfg: Config, log: seq<Row>, i: int, j: int, k: int) {
    BillingAt(cfg, log, i, j) && j < k < |log| && CheckoutRow(cfg, log[k])
  }

  ghost predicate SawBilling(cfg: Config, log: seq<Row>) {
    exists i, j :: BillingAt(cfg, log, i, j)
  }

  ghost predicate SawPurchase(cfg: Config, log: seq<Row>) {
    exists i, j, k :: PurchaseAt(cfg, log, i, j, k)
  }

  /** The stages a session with this log has reached: an ordered pattern was seen. */
  ghost function Reached(cfg: Config, log: seq<Row>): set<Stage> {
    {EntryStage}
    + (if SawZone(log) then {ZoneVisitStage} else {})
    + (if SawBilling(cfg, log) then {BillingQueueStage} else {})
    + (if SawPurchase(cfg, log) then {PurchaseStage} else {})
  }

  // ---------------------------------------------------------------------------
  // One visitor alone
  // ---------------------------------------------------------------------------

  /**
   A visitor's finished session logs, the log of the running session if there is one, the time
   of the last exit while a return could still be merged, and how often a return was merged.
   */
  datatype Visitor = Visitor(closed: seq<seq<Row>>, active: Option<seq<Row>>, exitAt: Option<int>, merged: nat)

  const NEW_VISITOR := Visitor([], None, None, 0)

  ghost predicate ValidVisitor(v: Visitor) {
    && (v.exitAt.Some? ==> |v.closed| > 0)
    && (v.exitAt.None? && v.active.None? ==> v.closed == [])
  }

  predicate CanResume(w: int, v: Visitor, at: int) {
    v.active.None? && v.exitAt.Some? && |v.closed| > 0 && at - v.exitAt.value <= w
  }

  function Resumed(v: Visitor): Visitor
    requires |v.closed| > 0
  {
    Visitor(v.closed[..|v.closed| - 1], Some(v.closed[|v.closed| - 1]), None, v.merged + 1)
  }

  function TryResume(w: int, v: Visitor, at: int): Visitor {
    if CanResume(w, v, at) then Resumed(v) else v
  }

  function VisitorStep(w: int, v: Visitor, r: Row): Visitor {
    match r.kind
    case Entry | Reentry =>
      var u := TryResume(w, v, r.at);
      if u.active.Some? then u else u.(active := Some([]))
    case Exit =>
      if v.active.Some? then Visitor(v.closed + [v.active.value], None, Some(r.at), v.merged) else v
    case _ =>
      var u := TryResume(w, v, r.at);
      if u.active.Some? then u.(active := Some(u.active.value + [r])) else u
  }

  function VisitorRun(w: int, rows: seq<Row>): (v: Visitor)
    ensures ValidVisitor(v)
  {
    if rows == [] then NEW_VISITOR
    else VisitorStep(w, VisitorRun(w, rows[..|rows| - 1]), rows[|rows| - 1])
  }

  /** The non-staff rows dispatched to visitor `k`, in stream order. */
  function Sub(rows: seq<Row>, k: string): seq<Row> {
    if rows == [] then []
    else
      var last := rows[|rows| - 1];
      Sub(rows[..|rows| - 1], k) + (if !last.staff && Route(last) == k then [last] else [])
  }

  function StaffCount(rows: seq<Row>): nat {
    if rows == [] then 0
    else StaffCount(rows[..|rows| - 1]) + (if rows[|rows| - 1].staff then 1 else 0)
  }

  /** The visitors that non-staff rows are dispatched to. */
  function Keys(rows: seq<Row>): set<string> {
    if rows == [] then {}
    else
      var last := rows[|rows| - 1];
      Keys(rows[..|rows| - 1]) + (if last.staff then {} else {Route(last)})
  }

  function Sessions(v: Visitor): seq<seq<Row>> {
    v.closed + (if v.active.Some? then [v.active.value] else [])
  }

  // ---------------------------------------------------------------------------
  // Totals
  // ---------------------------------------------------------------------------

  /** What is counted: sessions that reached a stage, sessions, or merged returns. */
  datatype Measure = OfStage(stage: Stage) | OfSessions | OfMerged

  function One(b: bool): nat {
    if b then 1 else 0
  }

  ghost function Weight(cfg: Config, what: Measure, log: seq<Row>): nat {
    match what
    case OfStage(s) => One(s in Reached(cfg, log))
    case OfSessions => 1
    case OfMerged => 0
  }

  ghost function CountLogs(cfg: Config, what: Measure, logs: seq<seq<Row>>): nat {
    if logs == [] then 0
    else CountLogs(cfg, what, logs[..|logs| - 1]) + Weight(cfg, what, logs[|logs| - 1])
  }

  ghost function CountVisitor(cfg: Config, what: Measure, v: Visitor): nat {
    CountLogs(cfg, what, Sessions(v)) + (if what.OfMerged? then v.merged else 0)
  }

  datatype Funnel = Funnel(stageCounts: map<Stage, nat>, staffExcluded: nat, reentryMerged: nat, sessionCount: nat)

  /** Every visitor of the stream, each run on that visitor's own rows. */
  ghost function VisitorsOf(w: int, rows: seq<Row>): map<string, Visitor> {
    map k | k in Keys(rows) :: VisitorRun(w, Sub(rows, k))
  }

  ghost function CountsOf(cfg: Config, what: Measure, visitors: map<string, Visitor>): map<string, nat> {
    map k | k in visitors :: CountVisitor(cfg, what, visitors[k])
  }

  ghost function ReferenceCount(cfg: Config, what: Measure, rows: seq<Row>): nat {
    Total(CountsOf(cfg, what, VisitorsOf(cfg.window, rows)))
  }

  /** The reference funnel: visitors are aggregated alone and their counts added. */
  ghost function ReferenceFunnel(cfg: Config, rows: seq<Row>): Funnel {
    Funnel(
      map s | s in STAGE_ORDER :: ReferenceCount(cfg, OfStage(s), rows),
      StaffCount(rows),
      ReferenceCount(cfg, OfMerged, rows),
      ReferenceCount(cfg, OfSessions, rows))
  }

  // ---------------------------------------------------------------------------
  // Facts the aggregator and the theorems share
  // ---------------------------------------------------------------------------

  /** How one more row changes what a log shows. */
  lemma {:induction false} ZoneGrows(log: seq<Row>, r: Row)
    ensures SawZone(log + [r]) <==> SawZone(log) || ZoneRow(r)
  {
    var g := log + [r];
    if i :| ZoneAt(log, i) {
      assert ZoneAt(g, i);
    }
    if ZoneRow(r) {
      assert ZoneAt(g, |log|);
    }
    if i :| ZoneAt(g, i) {
      assert i < |log| ==> ZoneAt(log, i);
    }
  }

  lemma {:induction false} BillingGrows(cfg: Config, log: seq<Row>, r: Row)
    ensures SawBilling(cfg, log + [r]) <==> SawBilling(cfg, log) || (SawZone(log) && BillingJoin(cfg, r))
  {
    var g := log + [r];
    if i, j :| BillingAt(cfg, log, i, j) {
      assert ZoneAt(g, i) && BillingAt(cfg, g, i, j);
    }
    if SawZone(log) && BillingJoin(cfg, r) {
      var i :| ZoneAt(log, i);
      assert ZoneAt(g, i) && BillingAt(cfg, g, i, |log|);
    }
    if i, j :| BillingAt(cfg, g, i, j) {
      assert ZoneAt(log, i);
      assert j < |log| ==> BillingAt(cfg, log, i, j);
    }
  }

  lemma {:induction false} PurchaseGrows(cfg: Config, log: seq<Row>, r: Row)
    ensures SawPurchase(cfg, log + [r]) <==> SawPurchase(cfg, log) || (SawBilling(cfg, log) && CheckoutRow(cfg, r))
  {
    var g := log + [r];
    if i, j, k :| PurchaseAt(cfg, log, i, j, k) {
      assert BillingAt(cfg, g, i, j) && PurchaseAt(cfg, g, i, j, k);
    }
    if SawBilling(cfg, log) && CheckoutRow(cfg, r) {
      var i, j :| BillingAt(cfg, log, i, j);
      assert BillingAt(cfg, g, i, j) && PurchaseAt(cfg, g, i, j, |log|);
    }
    if i, j, k :| PurchaseAt(cfg, g, i, j, k) {
      assert ZoneAt(log, i) && BillingAt(cfg, log, i, j);
      assert k < |log| ==> PurchaseAt(cfg, log, i, j, k);
    }
  }

  /** The stages follow from one row more as the source marks them. */
  lemma {:induction false} ReachedGrows(cfg: Config, log: seq<Row>, r: Row)
    ensures var s, t := Reached(cfg, log), Reached(cfg, log + [r]);
      && (ZoneVisitStage in t <==> ZoneVisitStage in s || ZoneRow(r))
      && (BillingQueueStage in t <==> BillingQueueStage in s || (ZoneVisitStage in s && BillingJoin(cfg, r)))
      && (PurchaseStage in t <==> PurchaseStage in s || (BillingQueueStage in s && CheckoutRow(cfg, r)))
  {
    ZoneGrows(log, r);
    BillingGrows(cfg, log, r);
    PurchaseGrows(cfg, log, r);
  }

  function Index(s: Stage): nat {
    match s
    case EntryStage => 0
    case ZoneVisitStage => 1
    case BillingQueueStage => 2
    case PurchaseStage => 3
  }

  /** A non-empty prefix of the stage order. */
  ghost predicate IsStagePrefix(s: set<Stage>) {
    EntryStage in s && forall a, b | b in s && Index(a) <= Index(b) :: a in s
  }

  lemma {:induction false} ReachedIsPrefix(cfg: Config, log: seq<Row>)
    ensures IsStagePrefix(Reached(cfg, log))
  {
    if i, j, k :| PurchaseAt(cfg, log, i, j, k) {
      assert BillingAt(cfg, log, i, j);
    }
    if i, j :| BillingAt(cfg, log, i, j) {
      assert ZoneAt(log, i);
    }
  }
}
