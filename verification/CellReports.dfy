/** What a cell state report says, told from the planogram, the detected rows and the steps of the sequence matcher. */
module CellReports {
  import opened Options
  import opened StableSort
  import opened PlanogramModel
  import opened GridDetection
  import opened CellStates
  import opened Text

  // ---------------------------------------------------------------------------
  // One report
  // ---------------------------------------------------------------------------

  /** The step that covers a reference position. */
  predicate Covers(ops: seq<Opcode>, n: nat, p: nat) {
    n < |ops| && ops[n].i1 <= p < ops[n].i2
  }

  predicate SaysEmpty(c: CellReport) {
    c.state.CellEmpty? && c.detected.None? && c.track.None?
  }

  /** The report on a cell whose reference position is aligned by one step with the detected row. */
  ghost predicate StepTold(op: Opcode, current: Row, c: CellReport)
    requires op.i1 <= c.item
  {
    var j := op.j1 + (c.item - op.i1);
    match op.tag
    case EqualTag =>
      && c.state.CellOk? && c.detected == Some(c.expected) && c.track.None?
      && j < |current.items| && current.items[j].sku == c.expected
    case ReplaceTag =>
      if j < op.j2 then
        && c.state.CellMisplaced? && j < |current.items|
        && c.detected == Some(current.items[j].sku) && c.track == current.items[j].track
      else SaysEmpty(c)
    case _ => SaysEmpty(c)
  }

  /**
   The report is on a cell of the planogram and names the product expected there. In a row without a detected row it says
   empty; otherwise the step that covers the cell decides, with the detected item it is aligned with.
   */
  ghost predicate ReportTold(rows: seq<Row>, current: seq<Row>, opcodes: (seq<string>, seq<string>) -> seq<Opcode>,
                             c: CellReport) {
    && c.row < |rows| && c.item < |rows[c.row].items| && c.expected == rows[c.row].items[c.item].sku
    && if c.row >= |current| then SaysEmpty(c)
       else RowTold(opcodes(Skus(rows[c.row].items), Skus(current[c.row].items)), current[c.row], c)
  }

  ghost predicate RowTold(ops: seq<Opcode>, current: Row, c: CellReport) {
    exists n: nat :: Covers(ops, n, c.item) && StepTold(ops[n], current, c)
  }

  lemma {:induction false} StepCovers(ops: seq<Opcode>, a: seq<string>, b: seq<string>, p: nat)
    requires Chain(ops, a, b) && p < Reached(ops).0
    ensures exists n: nat :: Covers(ops, n, p)
  {
    var front, last := ops[..|ops| - 1], ops[|ops| - 1];
    ChainFront(ops, a, b);
    if p < last.i1 {
      hide Chain;
      StepCovers(front, a, b, p);
      var n: nat :| Covers(front, n, p);
      assert Covers(ops, n, p);
    } else {
      assert Covers(ops, |front|, p);
    }
  }

  lemma {:induction false} EqualItems(op: Opcode, reference: Row, current: Row, p: nat)
    requires Fits(op, Skus(reference.items), Skus(current.items)) && op.tag == EqualTag
    requires op.i1 <= p < op.i2 && p < |reference.items|
    ensures var j := op.j1 + (p - op.i1);
      j < |current.items| && current.items[j].sku == reference.items[p].sku
  {
    var a, b := Skus(reference.items), Skus(current.items);
    var j := op.j1 + (p - op.i1);
    SkusLength(current.items);
    SkusAt(reference.items, p);
    SkusAt(current.items, j);
    assert a[op.i1..op.i2][p - op.i1] == b[op.j1..op.j2][p - op.i1];
  }

  /** The verdict on a cell of a compared row, told. */
  lemma {:induction false} VerdictTold(reference: Row, current: Row, ops: seq<Opcode>, p: nat)
    requires Tiles(ops, Skus(reference.items), Skus(current.items)) && p < |reference.items|
    ensures RowTold(ops, current, Report(Finding(reference.index, p, reference.items[p].sku, VerdictAt(ops, current, p))))
  {
    SkusLength(reference.items);
    StepCovers(ops, Skus(reference.items), Skus(current.items), p);
    var n: nat :| Covers(ops, n, p);
    CoveredTold(reference, current, ops, n, p);
    hide StepTold, VerdictAt;
  }

  lemma {:induction false} CoveredTold(reference: Row, current: Row, ops: seq<Opcode>, n: nat, p: nat)
    requires Tiles(ops, Skus(reference.items), Skus(current.items)) && p < |reference.items| && Covers(ops, n, p)
    ensures StepTold(ops[n], current, Report(Finding(reference.index, p, reference.items[p].sku, VerdictAt(ops, current, p))))
  {
    var a, b := Skus(reference.items), Skus(current.items);
    SkusLength(current.items);
    VerdictOf(ops, n, a, b, current, p);
    StepFits(ops, n, a, b);
    hide Chain, VerdictAt, Reached, Skus, Fits;
    if ops[n].tag == EqualTag {
      EqualItems(ops[n], reference, current, p);
    }
  }

  // ---------------------------------------------------------------------------
  // All reports
  // ---------------------------------------------------------------------------

  ghost predicate AllTold(rows: seq<Row>, current: seq<Row>, opcodes: (seq<string>, seq<string>) -> seq<Opcode>,
                          found: seq<Finding>) {
    forall i | 0 <= i < |found| :: ReportTold(rows, current, opcodes, Report(found[i]))
  }

  lemma {:induction false} RowFindingsTold(rows: seq<Row>, current: seq<Row>,
                                           opcodes: (seq<string>, seq<string>) -> seq<Opcode>, r: nat, n: nat)
    requires r < |rows| && rows[r].index == r && n <= |rows[r].items|
    requires r < |current| ==>
      Tiles(opcodes(Skus(rows[r].items), Skus(current[r].items)), Skus(rows[r].items), Skus(current[r].items))
    ensures var now := if r < |current| then Some(current[r]) else None;
      var ops := if now.None? then [] else opcodes(Skus(rows[r].items), Skus(now.value.items));
      AllTold(rows, current, opcodes, RowFindings(rows[r], now, ops, n))
  {
    hide Tiles, RowTold, VerdictAt;
    if n > 0 {
      RowFindingsTold(rows, current, opcodes, r, n - 1);
      if r < |current| {
        VerdictTold(rows[r], current[r], opcodes(Skus(rows[r].items), Skus(current[r].items)), n - 1);
      }
    }
  }

  /** Every finding on a numbered grid makes a report that is told. */
  lemma {:induction false} FindingsTold(rows: seq<Row>, current: seq<Row>,
                                        opcodes: (seq<string>, seq<string>) -> seq<Opcode>, n: nat)
    requires RowsNumbered(rows) && n <= |rows|
    requires forall a: seq<string>, b: seq<string> :: Tiles(opcodes(a, b), a, b)
    ensures AllTold(rows, current, opcodes, GridFindings(rows[..n], current, opcodes))
  {
    hide ReportTold, RowFindings, Tiles;
    if n > 0 {
      FindingsTold(rows, current, opcodes, n - 1);
      RowFindingsTold(rows, current, opcodes, n - 1, |rows[n - 1].items|);
      assert rows[..n][..n - 1] == rows[..n - 1];
    }
  }

  lemma {:induction false} PickedTold(rows: seq<Row>, current: seq<Row>,
                                      opcodes: (seq<string>, seq<string>) -> seq<Opcode>, kind: Kind, found: seq<Finding>)
    requires AllTold(rows, current, opcodes, found)
    ensures AllTold(rows, current, opcodes, Pick(kind, found))
  {
    hide ReportTold;
    if found != [] {
      PickedTold(rows, current, opcodes, kind, found[..|found| - 1]);
    }
  }

  function CountState(states: seq<CellReport>, state: CellState): nat {
    if states == [] then 0
    else CountState(states[..|states| - 1], state) + (if states[|states| - 1].state == state then 1 else 0)
  }

  lemma {:induction false} CountConcat(a: seq<CellReport>, b: seq<CellReport>, state: CellState)
    ensures CountState(a + b, state) == CountState(a, state) + CountState(b, state)
  {
    if b == [] {
      assert a + b == a;
    } else {
      CountConcat(a, b[..|b| - 1], state);
      assert (a + b)[..|a + b| - 1] == a + b[..|b| - 1];
    }
  }

  function StateOf(kind: Kind): CellState {
    match kind
    case MatchKind => CellOk
    case MismatchKind => CellMisplaced
    case MissingKind => CellEmpty
  }

  lemma {:induction false} CountAppend(states: seq<CellReport>, c: CellReport, state: CellState)
    ensures CountState(states + [c], state) == CountState(states, state) + (if c.state == state then 1 else 0)
  {
    assert (states + [c])[..|states|] == states;
  }

  lemma {:induction false} ReportsAppend(found: seq<Finding>, f: Finding)
    ensures Reports(found + [f]) == Reports(found) + [Report(f)]
  {
    assert (found + [f])[..|found|] == found;
  }

  lemma {:induction false} StateOfReport(f: Finding)
    ensures Report(f).state == StateOf(KindOf(f))
  {
  }

  /** One finding more adds its report to those of its kind. */
  lemma {:induction false} PickedMore(kind: Kind, found: seq<Finding>, f: Finding, state: CellState)
    ensures var before, after := Pick(kind, found), Pick(kind, found + [f]);
      && |after| == |before| + (if KindOf(f) == kind then 1 else 0)
      && CountState(Reports(after), state)
        == CountState(Reports(before), state) + (if KindOf(f) == kind && Report(f).state == state then 1 else 0)
  {
    hide *;
    PickAppend(kind, found, f);
    ReportsAppend(Pick(kind, found), f);
    CountAppend(Reports(Pick(kind, found)), Report(f), state);
  }

  lemma {:induction false} PickedCount(kind: Kind, found: seq<Finding>, state: CellState)
    ensures CountState(Reports(Pick(kind, found)), state) == if state == StateOf(kind) then |Pick(kind, found)| else 0
  {
    if found == [] {
      NothingCounted(kind, state);
    } else {
      var front, last := found[..|found| - 1], found[|found| - 1];
      assert front + [last] == found;
      StateOfReport(last);
      hide *;
      PickedCount(kind, front, state);
      PickedMore(kind, front, last, state);
    }
  }

  lemma {:induction false} NothingCounted(kind: Kind, state: CellState)
    ensures CountState(Reports(Pick(kind, [])), state) == 0 && Pick(kind, []) == []
  {
  }

  lemma {:induction false} ReportsLength(found: seq<Finding>)
    ensures |Reports(found)| == |found|
  {
    if found != [] {
      ReportsLength(found[..|found| - 1]);
    }
  }

  lemma {:induction false} ReportsAt(found: seq<Finding>, i: nat)
    requires i < |found| && |Reports(found)| == |found|
    ensures Reports(found)[i] == Report(found[i])
  {
    ReportsLength(found[..|found| - 1]);
    if i < |found| - 1 {
      ReportsAt(found[..|found| - 1], i);
    }
  }

  /** The findings in the order they are reported: matches, mismatches, and what is missing. */
  function ByKind(found: seq<Finding>): seq<Finding> {
    Pick(MatchKind, found) + Pick(MismatchKind, found) + Pick(MissingKind, found)
  }

  /** Every report of a planogram says what the detected rows show of its cell, and each state is counted. */
  lemma {:induction false} ReportsTold(rows: seq<Row>, current: seq<Row>,
                                       opcodes: (seq<string>, seq<string>) -> seq<Opcode>)
    requires RowsNumbered(rows)
    requires forall a: seq<string>, b: seq<string> :: Tiles(opcodes(a, b), a, b)
    ensures var found := GridFindings(rows, current, opcodes);
      var states := Reports(ByKind(found));
      && (forall i | 0 <= i < |states| :: ReportTold(rows, current, opcodes, states[i]))
      && CountState(states, CellOk) == |Pick(MatchKind, found)|
      && CountState(states, CellMisplaced) == |Pick(MismatchKind, found)|
      && CountState(states, CellEmpty) == |Pick(MissingKind, found)|
  {
    var found := GridFindings(rows, current, opcodes);
    assert rows[..|rows|] == rows;
    FindingsTold(rows, current, opcodes, |rows|);
    PickedTold(rows, current, opcodes, MatchKind, found);
    PickedTold(rows, current, opcodes, MismatchKind, found);
    PickedTold(rows, current, opcodes, MissingKind, found);
    hide ReportTold, GridFindings, Pick, Reports;
    var sorted := ByKind(found);
    forall i | 0 <= i < |Reports(sorted)|
      ensures ReportTold(rows, current, opcodes, Reports(sorted)[i])
    {
      ReportsLength(sorted);
      ReportsAt(sorted, i);
    }
    KindsCounted(found, CellOk);
    KindsCounted(found, CellMisplaced);
    KindsCounted(found, CellEmpty);
  }

  lemma {:induction false} KindsCounted(found: seq<Finding>, state: CellState)
    ensures CountState(Reports(ByKind(found)), state) == match state
      case CellOk => |Pick(MatchKind, found)|
      case CellMisplaced => |Pick(MismatchKind, found)|
      case CellEmpty => |Pick(MissingKind, found)|
  {
    var matches, mismatches, missing := Pick(MatchKind, found), Pick(MismatchKind, found), Pick(MissingKind, found);
    MapConcat(matches, mismatches, Report);
    MapConcat(matches + mismatches, missing, Report);
    CountConcat(Reports(matches), Reports(mismatches), state);
    CountConcat(Reports(matches) + Reports(mismatches), Reports(missing), state);
    PickedCount(MatchKind, found, state);
    PickedCount(MismatchKind, found, state);
    PickedCount(MissingKind, found, state);
    hide CountState, Map, Pick;
  }

  /** With nothing detected, every cell is reported empty. */
  lemma {:induction false} NothingIsEmpty(rows: seq<Row>, opcodes: (seq<string>, seq<string>) -> seq<Opcode>)
    requires RowsNumbered(rows)
    requires forall a: seq<string>, b: seq<string> :: Tiles(opcodes(a, b), a, b)
    ensures var states := Reports(ByKind(GridFindings(rows, [], opcodes)));
      |states| == ItemCount(rows) && forall i | 0 <= i < |states| :: SaysEmpty(states[i])
  {
    hide GridFindings, Reports, Tiles, RowTold, Pick;
    ReportsTold(rows, [], opcodes);
    EveryCellReportedOnce(rows, [], opcodes, 0, 0);
  }

  // ---------------------------------------------------------------------------
  // Which detections are compared
  // ---------------------------------------------------------------------------

  /** The item stands for the detection: its box, its track and its product, or its class if it has none. */
  predicate StandsFor(i: ClusterItem, d: Detection) {
    && i.box == d.box && i.track == d.track
    && (if d.sku.Some? && d.sku.value != "" then i.sku == d.sku.value else i.sku == "class_" + Natural(d.classId))
  }

  ghost function ConfidentAt(detections: seq<Detection>, threshold: real): set<nat> {
    set i: nat | i < |detections| && detections[i].confidence >= threshold
  }

  lemma {:induction false} ConfidentAppend(detections: seq<Detection>, d: Detection, threshold: real)
    ensures |ConfidentAt(detections + [d], threshold)|
      == |ConfidentAt(detections, threshold)| + (if d.confidence >= threshold then 1 else 0)
  {
    var n := |detections|;
    assert ConfidentAt(detections + [d], threshold)
      == ConfidentAt(detections, threshold) + (if d.confidence >= threshold then {n} else {});
    assert n !in ConfidentAt(detections, threshold);
  }

  /** Exactly the detections at or above the threshold are compared, in their order. */
  lemma {:induction false} ConsideredExactly(detections: seq<Detection>, threshold: real, i: nat)
    ensures |Considered(detections, threshold)| == |ConfidentAt(detections, threshold)|
    ensures i in ConfidentAt(detections, threshold) ==>
      var m := |ConfidentAt(detections[..i], threshold)|;
      m < |Considered(detections, threshold)| && StandsFor(Considered(detections, threshold)[m], detections[i])
  {
    if detections != [] {
      var front, last := detections[..|detections| - 1], detections[|detections| - 1];
      assert front + [last] == detections;
      ConsideredExactly(front, threshold, i);
      ConfidentAppend(front, last, threshold);
      if i < |front| {
        assert front[..i] == detections[..i];
      } else if i == |front| {
        assert detections[..i] == front;
      }
    }
  }
}
