/** Planogram grids and their validators, and the reference comparison of a grid with what was detected. */
module PlanogramModel {
  import opened Options
  import opened StableSort

  datatype Box = Box(x1: real, y1: real, x2: real, y2: real)

  function NotNegative(v: real): real {
    if v < 0.0 then 0.0 else v
  }

  /** A bounding box never keeps a negative coordinate. */
  function Clamped(b: Box): Box {
    Box(NotNegative(b.x1), NotNegative(b.y1), NotNegative(b.x2), NotNegative(b.y2))
  }

  /** A coordinate and its clamped form: never negative, and changed only if it was. */
  predicate IsClamped(raw: real, kept: real) {
    kept >= 0.0 && (raw >= 0.0 ==> kept == raw) && (raw < 0.0 ==> kept == 0.0)
  }

  lemma {:induction false} ClampedMeans(b: Box)
    ensures var c := Clamped(b);
      IsClamped(b.x1, c.x1) && IsClamped(b.y1, c.y1) && IsClamped(b.x2, c.x2) && IsClamped(b.y2, c.y2)
  {
  }

  datatype Item = Item(index: nat, box: Box, sku: string, track: Option<int>)

  datatype Row = Row(index: nat, avgY: real, items: seq<Item>)

  datatype Grid = Grid(rows: seq<Row>)

  function ItemX(i: Item): real {
    i.box.x1
  }

  function RowY(r: Row): real {
    r.avgY
  }

  predicate ItemsNumbered(items: seq<Item>) {
    forall i | 0 <= i < |items| :: items[i].index == i
  }

  predicate RowsNumbered(rows: seq<Row>) {
    forall i | 0 <= i < |rows| :: rows[i].index == i
  }

  /** A row as the validators leave it. */
  predicate ValidRow(r: Row) {
    r.avgY >= 0.0 && r.items != [] && ItemsNumbered(r.items) && Ordered(r.items, ItemX)
  }

  predicate ValidGrid(g: Grid) {
    && g.rows != [] && RowsNumbered(g.rows) && Ordered(g.rows, RowY)
    && forall i | 0 <= i < |g.rows| :: ValidRow(g.rows[i])
  }

  /** Building a row sorts its items and demands that their numbers follow; nothing is built otherwise. */
  function MakeRow(index: nat, avgY: real, items: seq<Item>): Option<Row> {
    var sorted := SortedBy(items, ItemX);
    if avgY < 0.0 || items == [] || !ItemsNumbered(sorted) then None else Some(Row(index, avgY, sorted))
  }

  function MakeGrid(rows: seq<Row>): Option<Grid> {
    var sorted := SortedBy(rows, RowY);
    if rows == [] || !RowsNumbered(sorted) then None else Some(Grid(sorted))
  }

  /** Whatever the validators let through is numbered and in order. */
  lemma {:induction false} MadeRowIsValid(index: nat, avgY: real, items: seq<Item>)
    ensures MakeRow(index, avgY, items).Some? ==> ValidRow(MakeRow(index, avgY, items).value)
  {
    SortedByIsSorted(items, ItemX);
    hide SortedBy, Ordered;
  }

  /** Items that come numbered in order pass, unless the row lies above the image. */
  lemma {:induction false} OrderedRowPasses(index: nat, avgY: real, items: seq<Item>)
    requires items != [] && ItemsNumbered(items) && Ordered(items, ItemX)
    ensures MakeRow(index, avgY, items) == if avgY < 0.0 then None else Some(Row(index, avgY, items))
  {
    SortedByOfOrdered(items, ItemX);
    hide SortedBy, Ordered;
  }

  lemma {:induction false} OrderedGridPasses(rows: seq<Row>)
    requires rows != [] && RowsNumbered(rows) && Ordered(rows, RowY)
    ensures MakeGrid(rows) == Some(Grid(rows))
  {
    SortedByOfOrdered(rows, RowY);
    hide SortedBy, Ordered;
  }

  function ItemCount(rows: seq<Row>): nat {
    if rows == [] then 0 else ItemCount(rows[..|rows| - 1]) + |rows[|rows| - 1].items|
  }

  // ---------------------------------------------------------------------------
  // Comparing a reference row with a detected row
  // ---------------------------------------------------------------------------

  datatype Tag = EqualTag | ReplaceTag | DeleteTag | InsertTag

  /** One step of turning the reference sequence [i1, i2) into the detected sequence [j1, j2). */
  datatype Opcode = Opcode(tag: Tag, i1: nat, i2: nat, j1: nat, j2: nat)

  /** Steps that go through both sequences from the start, without gap or overlap; equal stretches are equal. */
  ghost predicate Chain(ops: seq<Opcode>, a: seq<string>, b: seq<string>) {
    && (forall k | 0 <= k < |ops| :: Fits(ops[k], a, b))
    && (forall k | 0 < k < |ops| :: ops[k].i1 == ops[k - 1].i2 && ops[k].j1 == ops[k - 1].j2)
    && (ops != [] ==> ops[0].i1 == 0 && ops[0].j1 == 0)
  }

  /** Where the first steps have come to. */
  function Reached(ops: seq<Opcode>): (nat, nat) {
    if ops == [] then (0, 0) else (ops[|ops| - 1].i2, ops[|ops| - 1].j2)
  }

  /** The contract of the sequence matcher: its steps go through both sequences entirely. */
  ghost predicate Tiles(ops: seq<Opcode>, a: seq<string>, b: seq<string>) {
    Chain(ops, a, b) && Reached(ops) == (|a|, |b|)
  }

  ghost predicate Fits(op: Opcode, a: seq<string>, b: seq<string>) {
    && op.i1 <= op.i2 <= |a| && op.j1 <= op.j2 <= |b|
    && (op.tag == EqualTag ==> op.i2 - op.i1 == op.j2 - op.j1 && a[op.i1..op.i2] == b[op.j1..op.j2])
    && (op.tag == DeleteTag ==> op.j1 == op.j2)
    && (op.tag == InsertTag ==> op.i1 == op.i2)
  }

  /** What the comparison says about one cell. */
  datatype Verdict = Match | Mismatch(detected: string, track: Option<int>) | Missing

  /** The verdict on position `p`, by the step that covers it. */
  function VerdictAt(ops: seq<Opcode>, current: Row, p: nat): Verdict {
    if ops == [] then Missing
    else
      var op := ops[|ops| - 1];
      if p < op.i1 then VerdictAt(ops[..|ops| - 1], current, p)
      else if op.tag == EqualTag then Match
      else
        var j := op.j1 + (p - op.i1);
        if op.tag == ReplaceTag && j < op.j2 && j < |current.items| then Mismatch(current.items[j].sku, current.items[j].track)
        else Missing
  }

  /** The detected position that the covering step aligns with `p`. */
  function AlignedWith(ops: seq<Opcode>, p: nat): nat {
    if ops == [] then p
    else
      var op := ops[|ops| - 1];
      if p < op.i1 then AlignedWith(ops[..|ops| - 1], p) else op.j1 + (p - op.i1)
  }

  lemma {:induction false} ChainFront(ops: seq<Opcode>, a: seq<string>, b: seq<string>)
    requires Chain(ops, a, b) && ops != []
    ensures Chain(ops[..|ops| - 1], a, b) && Fits(ops[|ops| - 1], a, b)
    ensures Reached(ops[..|ops| - 1]) == (ops[|ops| - 1].i1, ops[|ops| - 1].j1)
  {
    hide Fits;
  }

  /** A match is aligned with a detected item of the same kind. */
  lemma {:induction false} MatchIsSameSku(ops: seq<Opcode>, a: seq<string>, current: Row, p: nat)
    requires Chain(ops, a, Skus(current.items)) && p < Reached(ops).0 && VerdictAt(ops, current, p) == Match
    ensures p < |a| && AlignedWith(ops, p) < Reached(ops).1 && AlignedWith(ops, p) < |current.items|
    ensures a[p] == current.items[AlignedWith(ops, p)].sku
  {
    var op := ops[|ops| - 1];
    ChainFront(ops, a, Skus(current.items));
    SkusLength(current.items);
    if p < op.i1 {
      MatchIsSameSku(ops[..|ops| - 1], a, current, p);
    } else {
      assert a[op.i1..op.i2][p - op.i1] == Skus(current.items)[op.j1..op.j2][p - op.i1];
      SkusAt(current.items, op.j1 + (p - op.i1));
    }
  }

  /** Matches keep the order of both rows: together they are a common subsequence. */
  lemma {:induction false} MatchesKeepOrder(ops: seq<Opcode>, a: seq<string>, current: Row, p: nat, q: nat)
    requires Chain(ops, a, Skus(current.items)) && p < q < Reached(ops).0
    requires VerdictAt(ops, current, p) == Match && VerdictAt(ops, current, q) == Match
    ensures AlignedWith(ops, p) < AlignedWith(ops, q)
  {
    var op, front := ops[|ops| - 1], ops[..|ops| - 1];
    ChainFront(ops, a, Skus(current.items));
    hide Chain, Fits, Skus;
    if q < op.i1 {
      MatchesKeepOrder(front, a, current, p, q);
    } else if p < op.i1 {
      MatchIsSameSku(front, a, current, p);
    }
  }

  /** A cell with its verdict. */
  datatype Finding = Finding(row: nat, item: nat, expected: string, verdict: Verdict)

  datatype Kind = MatchKind | MismatchKind | MissingKind

  function KindOf(f: Finding): Kind {
    match f.verdict
    case Match => MatchKind
    case Mismatch(_, _) => MismatchKind
    case Missing => MissingKind
  }

  /** The verdicts on the first `n` cells of a row; without a detected row all are missing. */
  function RowFindings(reference: Row, current: Option<Row>, ops: seq<Opcode>, n: nat): seq<Finding>
    requires n <= |reference.items|
  {
    if n == 0 then []
    else
      var verdict := if current.None? then Missing else VerdictAt(ops, current.value, n - 1);
      RowFindings(reference, current, ops, n - 1) + [Finding(reference.index, n - 1, reference.items[n - 1].sku, verdict)]
  }

  /** The findings of one kind, in order. */
  function Pick(kind: Kind, findings: seq<Finding>): seq<Finding> {
    if findings == [] then []
    else
      var last := findings[|findings| - 1];
      Pick(kind, findings[..|findings| - 1]) + (if KindOf(last) == kind then [last] else [])
  }

  lemma {:induction false} PickAppend(kind: Kind, findings: seq<Finding>, f: Finding)
    ensures Pick(kind, findings + [f]) == if KindOf(f) == kind then Pick(kind, findings) + [f] else Pick(kind, findings)
  {
    assert (findings + [f])[..|findings|] == findings;
  }

  lemma {:induction false} PickConcat(kind: Kind, a: seq<Finding>, b: seq<Finding>)
    ensures Pick(kind, a + b) == Pick(kind, a) + Pick(kind, b)
  {
    if b == [] {
      assert a + b == a;
    } else {
      PickConcat(kind, a, b[..|b| - 1]);
      assert (a + b)[..|a + b| - 1] == a + b[..|b| - 1];
    }
  }

  // ---------------------------------------------------------------------------
  // Each cell exactly once
  // ---------------------------------------------------------------------------

  function Count(findings: seq<Finding>, row: nat, item: nat): nat {
    if findings == [] then 0
    else
      var last := findings[|findings| - 1];
      Count(findings[..|findings| - 1], row, item) + (if last.row == row && last.item == item then 1 else 0)
  }

  lemma {:induction false} CountConcat(a: seq<Finding>, b: seq<Finding>, row: nat, item: nat)
    ensures Count(a + b, row, item) == Count(a, row, item) + Count(b, row, item)
  {
    if b == [] {
      assert a + b == a;
    } else {
      CountConcat(a, b[..|b| - 1], row, item);
      assert (a + b)[..|a + b| - 1] == a + b[..|b| - 1];
    }
  }

  /** Splitting findings by kind loses and doubles none. */
  lemma {:induction false} PicksPartition(findings: seq<Finding>, row: nat, item: nat)
    ensures |Pick(MatchKind, findings)| + |Pick(MismatchKind, findings)| + |Pick(MissingKind, findings)| == |findings|
    ensures Count(Pick(MatchKind, findings) + Pick(MismatchKind, findings) + Pick(MissingKind, findings), row, item)
      == Count(findings, row, item)
  {
    CountConcat(Pick(MatchKind, findings), Pick(MismatchKind, findings), row, item);
    CountConcat(Pick(MatchKind, findings) + Pick(MismatchKind, findings), Pick(MissingKind, findings), row, item);
    PicksCount(findings, row, item);
  }

  lemma {:induction false} PicksCount(findings: seq<Finding>, row: nat, item: nat)
    ensures |Pick(MatchKind, findings)| + |Pick(MismatchKind, findings)| + |Pick(MissingKind, findings)| == |findings|
    ensures Count(Pick(MatchKind, findings), row, item) + Count(Pick(MismatchKind, findings), row, item)
      + Count(Pick(MissingKind, findings), row, item) == Count(findings, row, item)
  {
    if findings != [] {
      var front, last := findings[..|findings| - 1], findings[|findings| - 1];
      PicksCount(front, row, item);
      assert front + [last] == findings;
      hide Pick, Count;
      PickAppend(MatchKind, front, last);
      PickAppend(MismatchKind, front, last);
      PickAppend(MissingKind, front, last);
      CountConcat(front, [last], row, item);
      CountConcat(Pick(KindOf(last), front), [last], row, item);
    }
  }

  /** All findings of a grid, given the detected rows and the steps for each. */
  function GridFindings(rows: seq<Row>, current: seq<Row>,
                        opcodes: (seq<string>, seq<string>) -> seq<Opcode>): seq<Finding> {
    if rows == [] then []
    else
      var n := |rows| - 1;
      GridFindings(rows[..n], current, opcodes) + FindingsOfRow(rows[n], if n < |current| then Some(current[n]) else None, opcodes)
  }

  function FindingsOfRow(reference: Row, current: Option<Row>,
                         opcodes: (seq<string>, seq<string>) -> seq<Opcode>): seq<Finding> {
    RowFindings(reference, current,
                if current.None? then [] else opcodes(Skus(reference.items), Skus(current.value.items)), |reference.items|)
  }

  function Skus(items: seq<Item>): seq<string> {
    if items == [] then [] else Skus(items[..|items| - 1]) + [items[|items| - 1].sku]
  }

  lemma {:induction false} SkusAt(items: seq<Item>, i: nat)
    requires i < |items|
    ensures |Skus(items)| == |items| && Skus(items)[i] == items[i].sku
  {
    SkusLength(items);
    if i < |items| - 1 {
      SkusAt(items[..|items| - 1], i);
    }
  }

  lemma {:induction false} SkusLength(items: seq<Item>)
    ensures |Skus(items)| == |items|
  {
    if items != [] {
      SkusLength(items[..|items| - 1]);
    }
  }

  lemma {:induction false} RowCount(reference: Row, current: Option<Row>, ops: seq<Opcode>, n: nat, row: nat,
                                    item: nat)
    requires n <= |reference.items|
    ensures |RowFindings(reference, current, ops, n)| == n
    ensures Count(RowFindings(reference, current, ops, n), row, item) == if row == reference.index && item < n then 1 else 0
  {
    if n > 0 {
      RowCount(reference, current, ops, n - 1, row, item);
      var f := RowFindings(reference, current, ops, n);
      assert f[..n - 1] == RowFindings(reference, current, ops, n - 1);
      hide VerdictAt;
    }
  }

  /** Every cell of a numbered grid is found on exactly once, nothing else is, and there are as many findings as items. */
  lemma {:induction false} GridCount(rows: seq<Row>, current: seq<Row>,
                                     opcodes: (seq<string>, seq<string>) -> seq<Opcode>, row: nat, item: nat)
    requires RowsNumbered(rows)
    ensures |GridFindings(rows, current, opcodes)| == ItemCount(rows)
    ensures Count(GridFindings(rows, current, opcodes), row, item) ==
      if row < |rows| && item < |rows[row].items| then 1 else 0
  {
    if rows != [] {
      var n := |rows| - 1;
      GridCount(rows[..n], current, opcodes, row, item);
      var now := if n < |current| then Some(current[n]) else None;
      var ops := if now.None? then [] else opcodes(Skus(rows[n].items), Skus(now.value.items));
      RowCount(rows[n], now, ops, |rows[n].items|, row, item);
      CountConcat(GridFindings(rows[..n], current, opcodes), RowFindings(rows[n], now, ops, |rows[n].items|), row, item);
      hide RowFindings, Count;
    }
  }
}
