/** The plain visitor counter of the store metrics, and its agreement with the funnel. */
module SessionMetrics {
  import opened Options
  import opened FunnelModel
  import opened FunnelTheorems

  /** What the metrics remember of a visitor. */
  datatype VisitorRecord = VisitorRecord(enteredAt: int, exited: bool, checkoutVisited: bool, joined: set<string>,
                                         left: set<string>)

  /** The visitors with an arrival row, named as the metrics name them. */
  function ArrivedVisitors(rows: seq<Row>): set<string> {
    set r | r in rows && IsArrival(r) :: VisitorKey(r)
  }

  function NewRecord(at: int): VisitorRecord {
    VisitorRecord(at, false, false, {}, {})
  }

  /** What a row does to the record of its own visitor. */
  function Recorded(rec: Option<VisitorRecord>, checkoutZone: string, r: Row): Option<VisitorRecord> {
    if r.kind.Entry? || (r.kind.Reentry? && rec.None?) then Some(NewRecord(r.at))
    else if rec.None? then None
    else
      var v := rec.value;
      match r.kind
      case Exit => Some(v.(exited := true))
      case ZoneEnter | ZoneDwell | ZoneExit => Some(if r.zoneId == checkoutZone then v.(checkoutVisited := true) else v)
      case QueueJoin => Some(if r.queueId != "" then v.(joined := v.joined + {r.queueId}) else v)
      case QueueLeave => Some(if r.queueId != "" then v.(left := v.left + {r.queueId}) else v)
      case _ => rec
  }

  /** The record of one visitor, from its own rows alone. */
  function RecordOf(rows: seq<Row>, checkoutZone: string, k: string): Option<VisitorRecord> {
    if rows == [] then None
    else
      var rec := RecordOf(rows[..|rows| - 1], checkoutZone, k);
      var last := rows[|rows| - 1];
      if last.staff || VisitorKey(last) != k then rec else Recorded(rec, checkoutZone, last)
  }

  // ---------------------------------------------------------------------------
  // What a record says
  // ---------------------------------------------------------------------------

  /** The visitor's own rows, as the metrics name visitors. */
  function OwnRows(rows: seq<Row>, k: string): seq<Row> {
    if rows == [] then []
    else
      var last := rows[|rows| - 1];
      OwnRows(rows[..|rows| - 1], k) + (if !last.staff && VisitorKey(last) == k then [last] else [])
  }

  /** The row a record dates from: the latest ENTRY, or without any the first REENTRY. */
  ghost predicate StartsRecord(own: seq<Row>, i: nat) {
    && i < |own|
    && (if own[i].kind.Entry? then forall j | i < j < |own| :: !own[j].kind.Entry?
        else own[i].kind.Reentry? && (forall j | 0 <= j < |own| :: !own[j].kind.Entry?)
             && forall j | 0 <= j < i :: !own[j].kind.Reentry?)
  }

  predicate NeverArrives(own: seq<Row>) {
    forall j | 0 <= j < |own| :: !own[j].kind.Entry? && !own[j].kind.Reentry?
  }

  predicate ExitAfter(own: seq<Row>, i: nat) {
    exists j :: i < j < |own| && own[j].kind.Exit?
  }

  predicate IsCheckout(r: Row, checkoutZone: string) {
    (r.kind.ZoneEnter? || r.kind.ZoneExit? || r.kind.ZoneDwell?) && r.zoneId == checkoutZone
  }

  predicate CheckoutAfter(own: seq<Row>, i: nat, checkoutZone: string) {
    exists j :: i < j < |own| && IsCheckout(own[j], checkoutZone)
  }

  function QueuesAfter(own: seq<Row>, i: nat, kind: EventKind): set<string> {
    set j | i < j < |own| && own[j].kind == kind && own[j].queueId != "" :: own[j].queueId
  }

  /** The record tells what happened since the row it dates from. */
  ghost predicate RecordTold(own: seq<Row>, checkoutZone: string, i: nat, v: VisitorRecord) {
    && StartsRecord(own, i)
    && v.enteredAt == own[i].at
    && (v.exited <==> ExitAfter(own, i))
    && (v.checkoutVisited <==> CheckoutAfter(own, i, checkoutZone))
    && v.joined == QueuesAfter(own, i, QueueJoin) && v.left == QueuesAfter(own, i, QueueLeave)
  }

  ghost predicate IsTold(own: seq<Row>, checkoutZone: string, v: VisitorRecord) {
    exists i: nat :: RecordTold(own, checkoutZone, i, v)
  }

  lemma {:induction false} AfterAppend(own: seq<Row>, r: Row, i: nat, checkoutZone: string)
    requires i < |own|
    ensures ExitAfter(own + [r], i) <==> ExitAfter(own, i) || r.kind.Exit?
    ensures CheckoutAfter(own + [r], i, checkoutZone) <==> CheckoutAfter(own, i, checkoutZone) || IsCheckout(r, checkoutZone)
    ensures QueuesAfter(own + [r], i, QueueJoin)
      == QueuesAfter(own, i, QueueJoin) + (if r.kind.QueueJoin? && r.queueId != "" then {r.queueId} else {})
    ensures QueuesAfter(own + [r], i, QueueLeave)
      == QueuesAfter(own, i, QueueLeave) + (if r.kind.QueueLeave? && r.queueId != "" then {r.queueId} else {})
  {
    hide IsCheckout;
    var g, n := own + [r], |own|;
    assert g[n] == r && forall j | 0 <= j < n :: g[j] == own[j];
    if ExitAfter(own, i) {
      var j :| i < j < n && own[j].kind.Exit?;
      assert g[j].kind.Exit?;
    }
    if CheckoutAfter(own, i, checkoutZone) {
      var j :| i < j < n && IsCheckout(own[j], checkoutZone);
      assert IsCheckout(g[j], checkoutZone);
    }
  }

  lemma {:induction false} StartsAppend(own: seq<Row>, r: Row, i: nat)
    requires StartsRecord(own, i)
    ensures StartsRecord(own + [r], if r.kind.Entry? then |own| else i)
  {
    var g := own + [r];
    assert g[|own|] == r && forall j | 0 <= j < |own| :: g[j] == own[j];
  }

  lemma {:induction false} NewTold(own: seq<Row>, r: Row, checkoutZone: string)
    requires r.kind.Entry? || (r.kind.Reentry? && NeverArrives(own))
    ensures RecordTold(own + [r], checkoutZone, |own|, NewRecord(r.at))
  {
  }

  lemma {:induction false} RecordedTold(own: seq<Row>, r: Row, checkoutZone: string, i: nat, v: VisitorRecord)
    requires RecordTold(own, checkoutZone, i, v)
    ensures var next := Recorded(Some(v), checkoutZone, r);
      next.Some? && RecordTold(own + [r], checkoutZone, if r.kind.Entry? then |own| else i, next.value)
  {
    StartsAppend(own, r, i);
    if r.kind.Entry? {
      NewTold(own, r, checkoutZone);
    } else {
      AfterAppend(own, r, i, checkoutZone);
      assert (own + [r])[i] == own[i];
      hide StartsRecord, ExitAfter, CheckoutAfter, QueuesAfter;
    }
  }

  /** Every visitor's record tells what its own rows show since its latest ENTRY, or its first REENTRY if it never had one. */
  lemma {:induction false} RecordsTold(rows: seq<Row>, checkoutZone: string, k: string)
    ensures var rec, own := RecordOf(rows, checkoutZone, k), OwnRows(rows, k);
      && (rec.None? <==> NeverArrives(own))
      && (rec.Some? ==> IsTold(own, checkoutZone, rec.value))
  {
    if rows != [] {
      var front, last := rows[..|rows| - 1], rows[|rows| - 1];
      RecordsTold(front, checkoutZone, k);
      if !last.staff && VisitorKey(last) == k {
        RecordOn(OwnRows(front, k), last, checkoutZone, RecordOf(front, checkoutZone, k));
      } else {
        assert OwnRows(rows, k) == OwnRows(front, k);
      }
    }
  }

  lemma {:induction false} RecordOn(own: seq<Row>, r: Row, checkoutZone: string, rec: Option<VisitorRecord>)
    requires rec.None? <==> NeverArrives(own)
    requires rec.Some? ==> IsTold(own, checkoutZone, rec.value)
    ensures var next, g := Recorded(rec, checkoutZone, r), own + [r];
      && (next.None? <==> NeverArrives(g))
      && (next.Some? ==> IsTold(g, checkoutZone, next.value))
  {
    hide RecordTold;
    var g := own + [r];
    assert g[|own|] == r && forall j | 0 <= j < |own| :: g[j] == own[j];
    if rec.Some? {
      var i: nat :| RecordTold(own, checkoutZone, i, rec.value);
      RecordedTold(own, r, checkoutZone, i, rec.value);
    } else if r.kind.Entry? || r.kind.Reentry? {
      NewTold(own, r, checkoutZone);
    }
  }

  /** A visitor has a record exactly after an arrival. */
  lemma {:induction false} RecordedVisitors(rows: seq<Row>, checkoutZone: string, k: string)
    ensures RecordOf(rows, checkoutZone, k).Some? <==> k in ArrivedVisitors(rows)
  {
    if rows != [] {
      var front, last := rows[..|rows| - 1], rows[|rows| - 1];
      RecordedVisitors(front, checkoutZone, k);
      hide VisitorKey;
      assert rows == front + [last];
      assert k in ArrivedVisitors(rows) <==> k in ArrivedVisitors(front) || (IsArrival(last) && VisitorKey(last) == k) by {
        ArrivedMore(front, last, k);
      }
    }
  }

  lemma {:induction false} ArrivedMore(front: seq<Row>, last: Row, k: string)
    ensures k in ArrivedVisitors(front + [last]) <==> k in ArrivedVisitors(front) || (IsArrival(last) && VisitorKey(last) == k)
  {
    hide VisitorKey, IsArrival;
    var rows := front + [last];
    assert last in rows && forall r | r in front :: r in rows;
  }

  function RecordAt(sessions: map<string, VisitorRecord>, k: string): Option<VisitorRecord> {
    if k in sessions then Some(sessions[k]) else None
  }

  /** The session table: every visitor's record is that of its own rows, whatever other visitors do in between. */
  method ComputeSessions(rows: seq<Row>, checkoutZone: string)
    returns (sessions: map<string, VisitorRecord>, staffExcluded: nat)
    ensures forall k: string :: RecordAt(sessions, k) == RecordOf(rows, checkoutZone, k)
    ensures staffExcluded == StaffCount(rows)
  {
    hide VisitorKey;
    sessions, staffExcluded := map[], 0;
    for i := 0 to |rows|
      invariant forall k: string :: RecordAt(sessions, k) == RecordOf(rows[..i], checkoutZone, k)
      invariant staffExcluded == StaffCount(rows[..i])
    {
      var r := rows[i];
      assert rows[..i + 1][..i] == rows[..i];
      if r.staff {
        staffExcluded := staffExcluded + 1;
      } else {
        var key := VisitorKey(r);
        assert RecordAt(sessions, key) == RecordOf(rows[..i], checkoutZone, key);
        match r.kind {
          case Entry =>
            sessions := sessions[key := NewRecord(r.at)];
          case Reentry =>
            if key !in sessions {
              sessions := sessions[key := NewRecord(r.at)];
            }
          case Exit =>
            if key in sessions {
              sessions := sessions[key := sessions[key].(exited := true)];
            }
          case ZoneEnter | ZoneDwell | ZoneExit =>
            if r.zoneId == checkoutZone && key in sessions {
              sessions := sessions[key := sessions[key].(checkoutVisited := true)];
            }
          case QueueJoin =>
            if key in sessions && r.queueId != "" {
              sessions := sessions[key := sessions[key].(joined := sessions[key].joined + {r.queueId})];
            }
          case QueueLeave =>
            if key in sessions && r.queueId != "" {
              sessions := sessions[key := sessions[key].(left := sessions[key].left + {r.queueId})];
            }
          case _ =>
        }
      }
    }
    assert rows[..|rows|] == rows;
  }

  predicate ReentriesNamed(rows: seq<Row>) {
    forall r | r in rows && r.kind.Reentry? :: Truthy(r.visitorId)
  }

  /** When REENTRY rows name their visitor, both analyses know the same arrivals. */
  lemma {:induction false} SameArrivals(rows: seq<Row>)
    requires ReentriesNamed(rows)
    ensures ArrivedVisitors(rows) == ArrivalKeys(rows)
  {
    forall k: string
      ensures k in ArrivedVisitors(rows) <==> k in ArrivalKeys(rows)
    {
      if k in ArrivedVisitors(rows) {
        var r :| r in rows && IsArrival(r) && VisitorKey(r) == k;
        SubMembers(rows, k, r);
        KeyHasRows(rows, k);
      }
      if k in ArrivalKeys(rows) {
        var r :| r in Sub(rows, k) && IsArrival(r);
        SubMembers(rows, k, r);
      }
    }
  }

  /** The metrics count the visitors on record. */
  method UniqueVisitors(rows: seq<Row>, checkoutZone: string) returns (unique: nat)
    ensures unique == |ArrivedVisitors(rows)|
  {
    hide VisitorKey;
    var sessions, _ := ComputeSessions(rows, checkoutZone);
    forall k: string
      ensures k in sessions <==> k in ArrivedVisitors(rows)
    {
      RecordedVisitors(rows, checkoutZone, k);
    }
    assert sessions.Keys == ArrivedVisitors(rows);
    unique := |sessions|;
  }

  /**
   With a window at least as long as the stream and named re-entries, the funnel's session count
   is the metrics' number of unique visitors.
   */
  lemma {:induction false} FunnelAgreesWithMetrics(cfg: Config, rows: seq<Row>)
    requires SpanWithin(rows, cfg.window) && ReentriesNamed(rows)
    ensures ReferenceFunnel(cfg, rows).sessionCount == |ArrivedVisitors(rows)|
  {
    WindowCollapse(cfg, rows);
    SameArrivals(rows);
  }
}
