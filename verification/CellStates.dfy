/** Matching detections against a planogram, row by row, and the cell states reported for it. */
module CellStates {
  import opened Options
  import opened Sequences
  import opened OrderedMaps
  import opened Groups
  import opened StableSort
  import opened PlanogramModel
  import opened GridDetection
  import opened Text

  datatype MatchResult = MatchResult(matches: seq<Finding>, mismatches: seq<Finding>, missing: seq<Finding>,
                                     referenceTotal: nat, currentTotal: nat)

  /** A detection as the camera model reports it. */
  datatype Detection = Detection(box: Box, sku: Option<string>, classId: nat, confidence: real, track: Option<int>)

  datatype CellState = CellOk | CellMisplaced | CellEmpty

  datatype CellReport = CellReport(row: nat, item: nat, state: CellState, expected: string, detected: Option<string>,
                                   track: Option<int>)

  datatype Summary = Summary(ok: nat, misplaced: nat, empty: nat, total: nat)

  function Report(f: Finding): CellReport {
    match f.verdict
    case Match => CellReport(f.row, f.item, CellOk, f.expected, Some(f.expected), None)
    case Mismatch(detected, track) => CellReport(f.row, f.item, CellMisplaced, f.expected, Some(detected), track)
    case Missing => CellReport(f.row, f.item, CellEmpty, f.expected, None, None)
  }

  function Reports(findings: seq<Finding>): seq<CellReport> {
    Map(findings, Report)
  }

  /** Detections that are confident enough, with the class standing in for an unknown product. */
  function Considered(detections: seq<Detection>, threshold: real): seq<ClusterItem> {
    if detections == [] then []
    else
      var d := detections[|detections| - 1];
      Considered(detections[..|detections| - 1], threshold) + (if d.confidence >= threshold then [AsItem(d)] else [])
  }

  function AsItem(d: Detection): ClusterItem {
    ClusterItem(d.box, if d.sku.Some? && d.sku.value != "" then d.sku.value else "class_" + Natural(d.classId), d.track)
  }

  /** The rows that cells are compared with: none when nothing could be detected. */
  function CurrentRows(items: seq<ClusterItem>, labels: seq<ClusterItem> -> seq<int>): seq<Row>
    requires |labels(items)| == |items|
  {
    if items == [] || Detect(items, labels(items)).None? then [] else Detect(items, labels(items)).value.rows
  }

  lemma {:induction false} VerdictInStep(ops: seq<Opcode>, n: nat, a: seq<string>, b: seq<string>, current: Row,
                                         p: nat)
    requires Chain(ops, a, b) && n < |ops| && ops[n].i1 <= p < ops[n].i2
    ensures VerdictAt(ops[..n + 1], current, p) ==
      if ops[n].tag == EqualTag then Match
      else
        var j := ops[n].j1 + (p - ops[n].i1);
        if ops[n].tag == ReplaceTag && j < ops[n].j2 && j < |current.items|
        then Mismatch(current.items[j].sku, current.items[j].track) else Missing
  {
  }

  /** Later steps do not change the verdict on an earlier position. */
  lemma {:induction false} VerdictStays(ops: seq<Opcode>, n: nat, a: seq<string>, b: seq<string>, current: Row,
                                        p: nat)
    requires Chain(ops, a, b) && n <= |ops| && p < Reached(ops[..n]).0
    ensures VerdictAt(ops, current, p) == VerdictAt(ops[..n], current, p)
  {
    if n == |ops| {
      assert ops[..n] == ops;
    } else {
      var front := ops[..|ops| - 1];
      ChainFront(ops, a, b);
      assert front[..n] == ops[..n];
      ReachedGrows(front, n, a, b);
      VerdictStays(front, n, a, b, current, p);
    }
  }

  lemma {:induction false} ReachedGrows(ops: seq<Opcode>, n: nat, a: seq<string>, b: seq<string>)
    requires Chain(ops, a, b) && n <= |ops|
    ensures Reached(ops[..n]).0 <= Reached(ops).0
  {
    if n == |ops| {
      assert ops[..n] == ops;
    } else {
      var front := ops[..|ops| - 1];
      ChainFront(ops, a, b);
      assert front[..n] == ops[..n];
      ReachedGrows(front, n, a, b);
    }
  }

  class GridDetector {
    /** The clustering and the sequence matcher are known by their contracts only. */
    const labels: seq<ClusterItem> -> seq<int>
    const opcodes: (seq<string>, seq<string>) -> seq<Opcode>

    ghost predicate Valid() {
      && (forall items: seq<ClusterItem> :: |labels(items)| == |items|)
      && (forall a: seq<string>, b: seq<string> :: Tiles(opcodes(a, b), a, b))
    }

    constructor (labels: seq<ClusterItem> -> seq<int>, opcodes: (seq<string>, seq<string>) -> seq<Opcode>)
      requires forall items: seq<ClusterItem> :: |labels(items)| == |items|
      requires forall a: seq<string>, b: seq<string> :: Tiles(opcodes(a, b), a, b)
      ensures Valid() && this.labels == labels && this.opcodes == opcodes
    {
      this.labels, this.opcodes := labels, opcodes;
    }

    method ClusterByY(items: seq<ClusterItem>) returns (clusters: seq<seq<ClusterItem>>)
      requires Valid()
      ensures |labels(items)| == |items| && clusters == RowClusters(items, labels(items))
    {
      hide Tiles, Put;
      var ls := labels(items);
      var groups: Clusters := [];
      for i := 0 to |items|
        invariant groups == Grouped(items[..i], ls[..i])
      {
        assert items[..i + 1][..i] == items[..i] && ls[..i + 1][..i] == ls[..i];
        if ls[i] >= 0 {
          groups := Put(groups, ls[i], items[i]);
        }
      }
      assert items[..|items|] == items && ls[..|items|] == ls;
      clusters := SortedBy(Values(groups), MeanY);
    }

    /** The validators run on every row and on the grid; a refusal is an error like having nothing to detect. */
    method DetectGrid(items: seq<ClusterItem>) returns (grid: Option<Grid>)
      requires Valid()
      ensures |labels(items)| == |items| && grid == Detect(items, labels(items))
    {
      hide Tiles, MakeRow, MakeGrid, MeanY, RowClusters, Ordered, Grouped, SortedBy;
      if items == [] {
        assert Detect([], []) == None by { NothingDetected(); }
        assert labels(items) == [];
        return None;
      }
      var clusters := ClusterByY(items);
      RowClustersNotEmpty(items, labels(items));
      if clusters == [] {
        return None;
      }
      var rows: seq<Row> := [];
      for i := 0 to |clusters|
        invariant rows == RowsOf(clusters[..i])
        invariant i > 0 ==> MeanY(clusters[0]) >= 0.0
      {
        assert clusters[..i + 1][..i] == clusters[..i];
        RowOfIsValid(clusters[i], i);
        MeansFollow(clusters, i);
        var row := MakeRow(i, MeanY(clusters[i]), RowItems(clusters[i]));
        if row.None? {
          FirstIsNegative(clusters, i);
          return None;
        }
        rows := rows + [row.value];
      }
      assert clusters[..|clusters|] == clusters;
      DetectedIsValid(items, labels(items));
      grid := MakeGrid(rows);
    }

    /** The findings of one row, of each kind in order. */
    method MatchRows(reference: Row, current: Row)
      returns (matches: seq<Finding>, mismatches: seq<Finding>, missing: seq<Finding>)
      requires Valid()
      ensures var found := FindingsOfRow(reference, Some(current), opcodes);
        matches == Pick(MatchKind, found) && mismatches == Pick(MismatchKind, found) && missing == Pick(MissingKind, found)
    {
      hide VerdictAt, Pick, RowFindings, Chain, Fits;
      var a, b := Skus(reference.items), Skus(current.items);
      var ops := opcodes(a, b);
      SkusLength(reference.items);
      SkusLength(current.items);
      matches, mismatches, missing := [], [], [];
      NoFindings(reference, Some(current), ops);
      assert Tiles(ops, a, b);
      for n := 0 to |ops|
        invariant Reached(ops[..n]).0 <= |reference.items|
        invariant Sorted(reference, current, ops, Reached(ops[..n]).0, matches, mismatches, missing)
      {
        var op := ops[n];
        StepFits(ops, n, a, b);
        for p := op.i1 to op.i2
          invariant Sorted(reference, current, ops, p, matches, mismatches, missing)
        {
          VerdictOf(ops, n, a, b, current, p);
          var f := Finding(reference.index, p, reference.items[p].sku, VerdictAt(ops, current, p));
          FindingAppend(reference, Some(current), ops, p);
          PickAppend(MatchKind, RowFindings(reference, Some(current), ops, p), f);
          PickAppend(MismatchKind, RowFindings(reference, Some(current), ops, p), f);
          PickAppend(MissingKind, RowFindings(reference, Some(current), ops, p), f);
          if op.tag == EqualTag {
            matches := matches + [Finding(reference.index, p, reference.items[p].sku, Match)];
          } else if op.tag == ReplaceTag && p - op.i1 < op.j2 - op.j1 {
            var seen := current.items[op.j1 + (p - op.i1)];
            mismatches := mismatches + [Finding(reference.index, p, reference.items[p].sku, Mismatch(seen.sku, seen.track))];
          } else {
            missing := missing + [Finding(reference.index, p, reference.items[p].sku, Missing)];
          }
        }
      }
      assert ops[..|ops|] == ops;
    }

    /** Every cell of some rows missing. */
    method AllMissing(rows: seq<Row>) returns (missing: seq<Finding>)
      ensures var found := GridFindings(rows, [], opcodes);
        missing == found && OnlyMissing(found)
    {
      hide RowFindings, Pick;
      missing := [];
      NoFindings(Row(0, 0.0, []), None, []);
      assert OnlyMissing([]);
      hide OnlyMissing;
      for i := 0 to |rows|
        invariant missing == GridFindings(rows[..i], [], opcodes) && OnlyMissing(missing)
      {
        assert rows[..i + 1][..i] == rows[..i];
        var before := missing;
        var row := rows[i];
        NoFindings(row, None, []);
        assert before + [] == before;
        for p := 0 to |row.items|
          invariant missing == before + RowFindings(row, None, [], p) && OnlyMissing(missing)
        {
          var f := Finding(row.index, p, row.items[p].sku, Missing);
          MissingAppend(row, p);
          OnlyMissingAppend(missing, f);
          Regroup(before, RowFindings(row, None, [], p), [f]);
          missing := missing + [f];
        }
      }
      assert rows[..|rows|] == rows;
    }

    /**
     Rows are compared rank by rank; reference rows beyond the detected ones are missing, as is everything when
     nothing can be detected. The findings are those of the reference comparison, split by kind.
     */
    method MatchGrids(reference: Grid, items: seq<ClusterItem>) returns (result: MatchResult)
      requires Valid()
      ensures |labels(items)| == |items|
      ensures var current := CurrentRows(items, labels);
        var found := GridFindings(reference.rows, current, opcodes);
        result == MatchResult(Pick(MatchKind, found), Pick(MismatchKind, found), Pick(MissingKind, found),
                              ItemCount(reference.rows), ItemCount(current))
    {
      hide RowFindings, Pick, Tiles, Detect, FindingsOfRow;
      assert |labels(items)| == |items|;
      var rows := reference.rows;
      var detected: Option<Grid> := None;
      if items != [] {
        detected := DetectGrid(items);
      }
      if detected.None? {
        var missing := AllMissing(rows);
        return MatchResult([], [], missing, ItemCount(rows), 0);
      }
      var current := detected.value.rows;
      var matches, mismatches, missing := [], [], [];
      NoFindings(Row(0, 0.0, []), None, []);
      for i := 0 to |rows|
        invariant Split(GridFindings(rows[..i], current, opcodes), matches, mismatches, missing)
      {
        assert rows[..i + 1][..i] == rows[..i];
        var now := if i < |current| then Some(current[i]) else None;
        var rowMatches, rowMismatches, rowMissing := [], [], [];
        if now.None? {
          rowMissing := AllMissing([rows[i]]);
          OneRowMissing(rows[i], opcodes);
        } else {
          rowMatches, rowMismatches, rowMissing := MatchRows(rows[i], now.value);
        }
        SplitConcat(GridFindings(rows[..i], current, opcodes), FindingsOfRow(rows[i], now, opcodes), matches, mismatches,
                    missing, rowMatches, rowMismatches, rowMissing);
        matches, mismatches, missing := matches + rowMatches, mismatches + rowMismatches, missing + rowMissing;
      }
      assert rows[..|rows|] == rows;
      result := MatchResult(matches, mismatches, missing, ItemCount(rows), ItemCount(current));
    }
  }

  ghost predicate Split(found: seq<Finding>, matches: seq<Finding>, mismatches: seq<Finding>, missing: seq<Finding>) {
    matches == Pick(MatchKind, found) && mismatches == Pick(MismatchKind, found) && missing == Pick(MissingKind, found)
  }

  lemma {:induction false} SplitConcat(a: seq<Finding>, b: seq<Finding>, matches: seq<Finding>,
                                       mismatches: seq<Finding>, missing: seq<Finding>, matches': seq<Finding>,
                                       mismatches': seq<Finding>, missing': seq<Finding>)
    requires Split(a, matches, mismatches, missing) && Split(b, matches', mismatches', missing')
    ensures Split(a + b, matches + matches', mismatches + mismatches', missing + missing')
  {
    PickConcat(MatchKind, a, b);
    PickConcat(MismatchKind, a, b);
    PickConcat(MissingKind, a, b);
  }

  /** All findings are of what is missing. */
  ghost predicate OnlyMissing(found: seq<Finding>) {
    Pick(MissingKind, found) == found && Pick(MatchKind, found) == [] && Pick(MismatchKind, found) == []
  }

  lemma {:induction false} OnlyMissingAppend(found: seq<Finding>, f: Finding)
    requires OnlyMissing(found) && f.verdict == Missing
    ensures OnlyMissing(found + [f])
  {
    PickAppend(MissingKind, found, f);
    PickAppend(MatchKind, found, f);
    PickAppend(MismatchKind, found, f);
    hide Pick;
  }

  lemma {:induction false} MissingAppend(row: Row, p: nat)
    requires p < |row.items|
    ensures RowFindings(row, None, [], p + 1) ==
      RowFindings(row, None, [], p) + [Finding(row.index, p, row.items[p].sku, Missing)]
  {
  }

  lemma {:induction false} OneRowMissing(row: Row, opcodes: (seq<string>, seq<string>) -> seq<Opcode>)
    ensures GridFindings([row], [], opcodes) == FindingsOfRow(row, None, opcodes)
  {
    assert [row][..0] == [];
    assert [] + FindingsOfRow(row, None, opcodes) == FindingsOfRow(row, None, opcodes);
  }

  /** Cell states and summary of a planogram, from what the camera reported. */
  method ComputeCellStates(detector: GridDetector, planogram: Grid, detections: seq<Detection>, threshold: real)
    returns (states: seq<CellReport>, summary: Summary)
    requires detector.Valid() && ValidGrid(planogram)
    ensures var items := Considered(detections, threshold);
      && |detector.labels(items)| == |items|
      && var found := GridFindings(planogram.rows, CurrentRows(items, detector.labels), detector.opcodes);
         && states == Reports(Pick(MatchKind, found) + Pick(MismatchKind, found) + Pick(MissingKind, found))
         && summary == Summary(|Pick(MatchKind, found)|, |Pick(MismatchKind, found)|, |Pick(MissingKind, found)|,
                               ItemCount(planogram.rows))
  {
    hide Pick, GridFindings, GridDetector.Valid, Detect, ValidRow, Ordered;
    var items: seq<ClusterItem> := [];
    for i := 0 to |detections|
      invariant items == Considered(detections[..i], threshold)
    {
      assert detections[..i + 1][..i] == detections[..i];
      if detections[i].confidence >= threshold {
        items := items + [AsItem(detections[i])];
      }
    }
    assert detections[..|detections|] == detections;
    if items == [] {
      var missing := detector.AllMissing(planogram.rows);
      GridCount(planogram.rows, [], detector.opcodes, 0, 0);
      states := Map(missing, Report);
      assert [] + [] + missing == missing && |detector.labels(items)| == |items| by { hide *; DetectorLabels(detector, items); }
      return states, Summary(0, 0, ItemCount(planogram.rows), ItemCount(planogram.rows));
    }
    hide CurrentRows;
    var result := detector.MatchGrids(planogram, items);
    states := Map(result.matches, Report);
    states := states + Map(result.mismatches, Report);
    states := states + Map(result.missing, Report);
    MapConcat(result.matches, result.mismatches, Report);
    MapConcat(result.matches + result.mismatches, result.missing, Report);
    summary := Summary(|result.matches|, |result.mismatches|, |result.missing|, ItemCount(planogram.rows));
  }

  lemma {:induction false} DetectorLabels(detector: GridDetector, items: seq<ClusterItem>)
    requires detector.Valid()
    ensures |detector.labels(items)| == |items|
  {
  }

  function ReportCount(states: seq<CellReport>, row: nat, item: nat): nat {
    if states == [] then 0
    else
      var last := states[|states| - 1];
      ReportCount(states[..|states| - 1], row, item) + (if last.row == row && last.item == item then 1 else 0)
  }

  lemma {:induction false} ReportsCount(findings: seq<Finding>, row: nat, item: nat)
    ensures ReportCount(Reports(findings), row, item) == Count(findings, row, item) && |Reports(findings)| == |findings|
  {
    if findings != [] {
      ReportsCount(findings[..|findings| - 1], row, item);
      var r := Reports(findings);
      assert r[..|r| - 1] == Reports(findings[..|findings| - 1]);
    }
  }

  /**
   Whatever was detected and however the matcher aligned it, each cell of the planogram is reported exactly once as
   ok, misplaced or empty, no other cell is, and the three counts add up to the number of cells.
   */
  lemma {:induction false} EveryCellReportedOnce(rows: seq<Row>, current: seq<Row>,
                                                 opcodes: (seq<string>, seq<string>) -> seq<Opcode>, row: nat,
                                                 item: nat)
    requires RowsNumbered(rows)
    ensures var found := GridFindings(rows, current, opcodes);
      var states := Reports(Pick(MatchKind, found) + Pick(MismatchKind, found) + Pick(MissingKind, found));
      && ReportCount(states, row, item) == (if row < |rows| && item < |rows[row].items| then 1 else 0)
      && |states| == ItemCount(rows)
      && |Pick(MatchKind, found)| + |Pick(MismatchKind, found)| + |Pick(MissingKind, found)| == ItemCount(rows)
  {
    hide Pick, Count, Reports, ReportCount, GridFindings;
    var found := GridFindings(rows, current, opcodes);
    GridCount(rows, current, opcodes, row, item);
    PicksPartition(found, row, item);
    ReportsCount(Pick(MatchKind, found) + Pick(MismatchKind, found) + Pick(MissingKind, found), row, item);
  }

  /** The three lists hold the findings on the first `n` cells, sorted by kind. */
  ghost predicate Sorted(reference: Row, current: Row, ops: seq<Opcode>, n: nat, matches: seq<Finding>,
                         mismatches: seq<Finding>, missing: seq<Finding>)
    requires n <= |reference.items|
  {
    var found := RowFindings(reference, Some(current), ops, n);
    matches == Pick(MatchKind, found) && mismatches == Pick(MismatchKind, found) && missing == Pick(MissingKind, found)
  }

  lemma {:induction false} NoFindings(reference: Row, current: Option<Row>, ops: seq<Opcode>)
    ensures RowFindings(reference, current, ops, 0) == [] && Reached([]).0 == 0
    ensures forall k: Kind :: Pick(k, []) == []
  {
  }

  lemma {:induction false} FindingAppend(reference: Row, current: Option<Row>, ops: seq<Opcode>, p: nat)
    requires p < |reference.items| && current.Some?
    ensures RowFindings(reference, current, ops, p + 1) ==
      RowFindings(reference, current, ops, p) + [Finding(reference.index, p, reference.items[p].sku, VerdictAt(ops, current.value, p))]
  {
    hide VerdictAt;
  }

  lemma {:induction false} StepFits(ops: seq<Opcode>, n: nat, a: seq<string>, b: seq<string>)
    requires Chain(ops, a, b) && n < |ops|
    ensures Fits(ops[n], a, b) && ops[n].i1 <= ops[n].i2 <= |a| && ops[n].j1 <= ops[n].j2 <= |b|
    ensures Reached(ops[..n]).0 == ops[n].i1 && Reached(ops[..n + 1]).0 == ops[n].i2
    ensures ops[n].tag == DeleteTag ==> ops[n].j1 == ops[n].j2
    ensures ops[n].tag == InsertTag ==> ops[n].i1 == ops[n].i2
  {
  }

  /** The verdict on a position that step `n` covers. */
  lemma {:induction false} VerdictOf(ops: seq<Opcode>, n: nat, a: seq<string>, b: seq<string>, current: Row, p: nat)
    requires Chain(ops, a, b) && n < |ops| && ops[n].i1 <= p < ops[n].i2 && |b| == |current.items|
    ensures VerdictAt(ops, current, p) ==
      if ops[n].tag == EqualTag then Match
      else
        var j := ops[n].j1 + (p - ops[n].i1);
        if ops[n].tag == ReplaceTag && j < ops[n].j2 && j < |current.items|
        then Mismatch(current.items[j].sku, current.items[j].track) else Missing
  {
    hide VerdictAt;
    StepFits(ops, n, a, b);
    VerdictStays(ops, n + 1, a, b, current, p);
    VerdictInStep(ops, n, a, b, current, p);
  }

  lemma {:induction false} NothingDetected()
    ensures Detect([], []) == None
  {
  }

  function RowItems(cluster: seq<ClusterItem>): seq<Item> {
    ToItems(SortedBy(cluster, LeftEdge))
  }

  lemma {:induction false} FirstIsNegative(clusters: seq<seq<ClusterItem>>, i: nat)
    requires i < |clusters| && Ordered(clusters, MeanY) && MeanY(clusters[i]) < 0.0
    ensures MeanY(clusters[0]) < 0.0
  {
    MeansFollow(clusters, i);
  }
}
