/**
 The life of an alert told from the operations of a run: what each operation does to the alerts, when an alert is open,
 and what an open alert says.
 */
module AlertLives {
  import opened Options
  import opened AlertStore

  // ---------------------------------------------------------------------------
  // One operation, seen on the alerts alone
  // ---------------------------------------------------------------------------

  ghost predicate OpenIn(s: Store, c: Cell, id: string) {
    s.IsOpen(id) && s.alerts[id].cell == c
  }

  ghost predicate NoneOpen(s: Store, c: Cell) {
    forall id: string :: !OpenIn(s, c, id)
  }

  /** The alerts are those of `s`, except that alert `id` is now `a`. */
  ghost predicate OnlyChanged(s: Store, t: Store, id: string, a: Alert) {
    t.alerts == s.alerts[id := a]
  }

  /** Clearing a cell dismisses its open alerts, and leaves confirmed ones and those of other cells as they are. */
  lemma {:induction false} ClearedExactly(s: Store, c: Cell, now: int)
    requires s.Agrees()
    ensures var t := s.Clear(c, now);
      && t.alerts.Keys == s.alerts.Keys
      && forall id | id in s.alerts ::
           t.alerts[id] == if OpenIn(s, c, id) then s.alerts[id].(dismissed := true, updatedAt := now) else s.alerts[id]
    ensures NoneOpen(s.Clear(c, now), c)
  {
    forall id: string | OpenIn(s, c, id)
      ensures s.GetByCell(c) == Some(s.alerts[id])
      ensures forall j: string | OpenIn(s, c, j) :: j == id
    {
      OneOpenPerCell(s, id, id);
      forall j: string | OpenIn(s, c, j)
        ensures j == id
      {
        OneOpenPerCell(s, id, j);
      }
    }
    FoundIsOpen(s, c);
    hide Store.Agrees, Store.GetByCell;
  }

  /** An alert found by cell that is not confirmed is that cell's open alert. */
  lemma {:induction false} FoundIsOpen(s: Store, c: Cell)
    requires s.Agrees()
    ensures var a := s.GetByCell(c);
      a.Some? && !a.value.confirmed ==> OpenIn(s, c, a.value.alertId) && a.value == s.alerts[a.value.alertId]
  {
  }

  /**
   Generating refreshes the cell's open alert if there is one: its time, its frame count, and further evidence. Otherwise it
   opens an alert that says what the request says, unless the frame count is refused. No other alert changes.
   */
  lemma {:induction false} GeneratedExactly(s: Store, r: AlertRequest, evidence: seq<string>, newId: string, now: int)
    requires s.Agrees() && newId !in s.alerts
    ensures var t := s.Generate(r, evidence, newId, now);
      && (forall id | OpenIn(s, r.cell, id) ::
            OnlyChanged(s, t, id, s.alerts[id].(
              lastSeen := now, updatedAt := now, consecutiveFrames := r.consecutiveFrames,
              evidencePaths := s.alerts[id].evidencePaths + evidence)))
      && (NoneOpen(s, r.cell) && r.consecutiveFrames < 1 ==> t == s)
      && (NoneOpen(s, r.cell) && r.consecutiveFrames >= 1 ==>
            && newId in t.alerts && OnlyChanged(s, t, newId, t.alerts[newId]) && t.IsOpen(newId)
            && Says(t.alerts[newId], newId, r, now) && t.alerts[newId].lastSeen == t.alerts[newId].updatedAt == now
            && t.alerts[newId].consecutiveFrames == r.consecutiveFrames && t.alerts[newId].evidencePaths == evidence)
  {
    FoundIsOpen(s, r.cell);
    forall id | OpenIn(s, r.cell, id)
      ensures s.GetByCell(r.cell) == Some(s.alerts[id])
    {
      OneOpenPerCell(s, id, id);
    }
    KeyedIn(s);
    hide Store.Agrees, Store.GetByCell;
  }

  lemma {:induction false} KeyedIn(s: Store)
    requires s.Agrees()
    ensures forall id | id in s.alerts :: s.alerts[id].alertId == id
  {
  }

  /** The parts of an alert that are fixed when it is opened. */
  predicate Says(a: Alert, id: string, r: AlertRequest, firstSeen: int) {
    && a.alertId == id && a.cell == r.cell && a.kind == r.kind && a.expectedSku == r.expectedSku
    && a.detectedSku == r.detectedSku && a.firstSeen == firstSeen
  }

  /** A confirmed alert is still the one found by its cell; a dismissed one is not, and nothing else is found there then. */
  lemma {:induction false} FoundAfterwards(s: Store, id: string, staff: string, now: int)
    requires s.Agrees() && s.IsOpen(id)
    ensures var c, t := s.alerts[id].cell, s.Confirm(id, staff, now);
      id in t.alerts && t.alerts[id].confirmed && t.GetByCell(c) == Some(t.alerts[id])
    ensures s.Dismiss(id, now).GetByCell(s.alerts[id].cell).None?
  {
    OneOpenPerCell(s, id, id);
  }

  // ---------------------------------------------------------------------------
  // A whole run
  // ---------------------------------------------------------------------------

  /** The operation ends alert `id` of cell `c`, if it is open. */
  predicate Ends(op: Op, id: string, c: Cell) {
    match op
    case GenerateOp(_, _, _, _) => false
    case ClearOp(cell, _) => cell == c
    case ConfirmOp(i, _, _) => i == id
    case DismissOp(i, _) => i == id
  }

  predicate Generates(op: Op, c: Cell) {
    op.GenerateOp? && op.request.cell == c
  }

  /** Operation `i` opens alert `id`: it asks for one in a cell that has none open. */
  ghost predicate Opens(ops: seq<Op>, i: nat, id: string) {
    && i < |ops| && ops[i].GenerateOp? && ops[i].newId == id && ops[i].request.consecutiveFrames >= 1
    && NoneOpen(Run(ops[..i]), ops[i].request.cell)
  }

  /** Operation `i` opened alert `id`, and none since has ended it. */
  ghost predicate Lives(ops: seq<Op>, i: nat, id: string) {
    && Opens(ops, i, id)
    && forall j | i < j < |ops| :: !Ends(ops[j], id, ops[i].request.cell)
  }

  /** The evidence handed in for a cell from operation `i` on. */
  function Evidence(ops: seq<Op>, i: nat, c: Cell): seq<string> {
    if |ops| <= i then []
    else
      var last := ops[|ops| - 1];
      Evidence(ops[..|ops| - 1], i, c) + (if Generates(last, c) then last.evidence else [])
  }

  /** The last operation that generated for a cell. */
  predicate LatestFor(ops: seq<Op>, j: nat, c: Cell) {
    j < |ops| && Generates(ops[j], c) && forall m | j < m < |ops| :: !Generates(ops[m], c)
  }

  /** An alert opened by operation `i` and still open: refreshed by every later request for its cell. */
  ghost predicate AlertTold(ops: seq<Op>, i: nat, id: string, a: Alert)
    requires i < |ops| && ops[i].GenerateOp?
  {
    var c := ops[i].request.cell;
    && Says(a, id, ops[i].request, ops[i].now) && a.Open()
    && a.evidencePaths == Evidence(ops, i, c)
    && forall j: nat | LatestFor(ops, j, c) ::
         a.lastSeen == a.updatedAt == ops[j].now && a.consecutiveFrames == ops[j].request.consecutiveFrames
  }

  predicate Fresh(s: Store, op: Op) {
    op.GenerateOp? ==> op.newId !in s.alerts
  }

  /** The operation opens an alert under `id`. */
  ghost predicate Creates(s: Store, op: Op, id: string) {
    op.GenerateOp? && op.newId == id && op.request.consecutiveFrames >= 1 && NoneOpen(s, op.request.cell)
  }

  /** An open alert after a request for its cell. */
  function Refreshed(a: Alert, op: Op): Alert
    requires op.GenerateOp?
  {
    a.(lastSeen := op.now, updatedAt := op.now, consecutiveFrames := op.request.consecutiveFrames,
       evidencePaths := a.evidencePaths + op.evidence)
  }

  /** What an operation does to one open alert. */
  lemma {:induction false} OpenStep(s: Store, op: Op, id: string)
    requires s.Agrees() && Fresh(s, op)
    ensures var t := Apply(s, op);
      && (t.IsOpen(id) <==> (s.IsOpen(id) && !Ends(op, id, s.alerts[id].cell)) || Creates(s, op, id))
      && (s.IsOpen(id) && t.IsOpen(id) ==>
            t.alerts[id] == if Generates(op, s.alerts[id].cell) then Refreshed(s.alerts[id], op) else s.alerts[id])
  {
    match op {
      case GenerateOp(r, e, newId, now) =>
        GeneratedExactly(s, r, e, newId, now);
        GenerateOpens(s, op, id);
      case ClearOp(c, now) =>
        ClearedExactly(s, c, now);
        hide Store.Clear, Store.Agrees;
      case ConfirmOp(i, staff, now) =>
      case DismissOp(i, now) =>
    }
  }

  lemma {:induction false} GenerateOpens(s: Store, op: Op, id: string)
    requires s.Agrees() && Fresh(s, op) && op.GenerateOp?
    ensures var t := Apply(s, op);
      && (t.IsOpen(id) <==> s.IsOpen(id) || Creates(s, op, id))
      && (s.IsOpen(id) ==>
            t.alerts[id] == if op.request.cell == s.alerts[id].cell then Refreshed(s.alerts[id], op) else s.alerts[id])
  {
    var r, t := op.request, Apply(s, op);
    GeneratedExactly(s, r, op.evidence, op.newId, op.now);
    hide Store.Generate, Store.Agrees, Says;
    if NoneOpen(s, r.cell) {
      assert s.IsOpen(id) ==> !OpenIn(s, r.cell, id);
    } else {
      var open :| OpenIn(s, r.cell, open);
      if OpenIn(s, r.cell, id) {
        OneOpenPerCell(s, open, id);
      }
    }
  }

  // ---------------------------------------------------------------------------
  // One operation more
  // ---------------------------------------------------------------------------

  lemma {:induction false} LivesAppend(ops: seq<Op>, op: Op, i: nat, id: string)
    ensures Lives(ops, i, id) ==> i < |ops| && ops[i].GenerateOp?
    ensures Lives(ops + [op], i, id) ==> i <= |ops|
    ensures i < |ops| ==>
      (Lives(ops + [op], i, id) <==> Lives(ops, i, id) && !Ends(op, id, ops[i].request.cell))
    ensures Lives(ops + [op], |ops|, id) <==> Creates(Run(ops), op, id)
  {
    hide Run, Ends;
    var g := ops + [op];
    assert g[|ops|] == op && g[..|ops|] == ops;
    assert forall j | 0 <= j < |ops| :: g[j] == ops[j];
    if i < |ops| {
      assert g[..i] == ops[..i];
    }
  }

  lemma {:induction false} LatestAppend(ops: seq<Op>, op: Op, j: nat, c: Cell)
    ensures LatestFor(ops + [op], j, c) <==>
      if j == |ops| then Generates(op, c) else LatestFor(ops, j, c) && !Generates(op, c)
  {
    assert (ops + [op])[|ops|] == op && forall m | 0 <= m < |ops| :: (ops + [op])[m] == ops[m];
  }

  lemma {:induction false} EvidenceAppend(ops: seq<Op>, op: Op, i: nat, c: Cell)
    requires i <= |ops|
    ensures Evidence(ops + [op], i, c) == Evidence(ops, i, c) + (if Generates(op, c) then op.evidence else [])
  {
    assert (ops + [op])[..|ops|] == ops;
  }

  lemma {:induction false} ToldAppend(ops: seq<Op>, op: Op, i: nat, id: string, a: Alert)
    requires i < |ops| && ops[i].GenerateOp? && AlertTold(ops, i, id, a)
    ensures AlertTold(ops + [op], i, id, if Generates(op, a.cell) then Refreshed(a, op) else a)
  {
    hide Evidence, LatestFor;
    var c := ops[i].request.cell;
    EvidenceAppend(ops, op, i, c);
    assert (ops + [op])[i] == ops[i] && (ops + [op])[|ops|] == op;
    assert a.evidencePaths + [] == a.evidencePaths;
    forall j: nat
      ensures LatestFor(ops + [op], j, c) <==> if j == |ops| then Generates(op, c) else LatestFor(ops, j, c) && !Generates(op, c)
      ensures LatestFor(ops, j, c) ==> j < |ops|
    {
      LatestAppend(ops, op, j, c);
      LatestPlace(ops, j, c);
    }
    assert forall j: nat | j < |ops| :: (ops + [op])[j] == ops[j];
  }

  lemma {:induction false} LatestPlace(ops: seq<Op>, j: nat, c: Cell)
    ensures LatestFor(ops, j, c) ==> j < |ops| && ops[j].GenerateOp?
  {
  }

  /** A new alert says what its request says. */
  lemma {:induction false} CreatedTold(ops: seq<Op>, op: Op, id: string)
    requires Run(ops).Agrees() && Fresh(Run(ops), op) && Creates(Run(ops), op, id)
    ensures var t := Apply(Run(ops), op); t.IsOpen(id) && AlertTold(ops + [op], |ops|, id, t.alerts[id])
  {
    var g, n, c := ops + [op], |ops|, op.request.cell;
    GeneratedExactly(Run(ops), op.request, op.evidence, op.newId, op.now);
    EvidenceAppend(ops, op, n, c);
    assert g[n] == op;
    hide Run, NoneOpen, Store.Generate, Store.Agrees, LatestFor;
    forall j: nat
      ensures LatestFor(g, j, c) <==> j == n
    {
      LatestAppend(ops, op, j, c);
      LatestPlace(ops, j, c);
    }
  }

  /** Alert `id` is open exactly if some operation opened it and none has ended it, and it says what the run tells. */
  ghost predicate OpenTold(ops: seq<Op>, id: string) {
    var s := Run(ops);
    && (s.IsOpen(id) <==> exists i: nat :: Lives(ops, i, id))
    && (forall i: nat | Lives(ops, i, id) && s.IsOpen(id) :: AlertTold(ops, i, id, s.alerts[id]))
  }

  lemma {:induction false} RunAppend(ops: seq<Op>, op: Op)
    ensures Run(ops + [op]) == Apply(Run(ops), op)
  {
    assert (ops + [op])[..|ops|] == ops;
  }

  lemma {:induction false} StepTold(ops: seq<Op>, op: Op, id: string)
    requires Run(ops).Agrees() && Fresh(Run(ops), op) && OpenTold(ops, id)
    ensures OpenTold(ops + [op], id)
  {
    var s, t, g := Run(ops), Run(ops + [op]), ops + [op];
    RunAppend(ops, op);
    OpenStep(s, op, id);
    hide Run, Apply, Store.Agrees, Lives, AlertTold, Ends, NoneOpen;
    LivesAppend(ops, op, |ops|, id);
    if Creates(s, op, id) {
      assert Lives(g, |ops|, id);
    }
    if s.IsOpen(id) {
      var i: nat :| Lives(ops, i, id);
      LivesAppend(ops, op, i, id);
      CellTold(ops, i, id, s.alerts[id]);
      assert t.IsOpen(id) && !Creates(s, op, id) ==> Lives(g, i, id);
    }
    forall i: nat | Lives(g, i, id)
      ensures t.IsOpen(id) && AlertTold(g, i, id, t.alerts[id])
    {
      LivesAppend(ops, op, i, id);
      if i == |ops| {
        CreatedTold(ops, op, id);
      } else {
        CellTold(ops, i, id, s.alerts[id]);
        ToldAppend(ops, op, i, id, s.alerts[id]);
      }
    }
  }

  lemma {:induction false} CellTold(ops: seq<Op>, i: nat, id: string, a: Alert)
    requires i < |ops| && ops[i].GenerateOp? && AlertTold(ops, i, id, a)
    ensures a.cell == ops[i].request.cell
  {
  }

  lemma {:induction false} PrefixFine(ops: seq<Op>, op: Op)
    requires FreshIds(ops + [op]) && SafeDismissals(ops + [op])
    ensures FreshIds(ops) && SafeDismissals(ops) && Fresh(Run(ops), op)
  {
    hide Run, SafeDismiss;
    var g := ops + [op];
    assert g[..|ops|] == ops && g[|ops|] == op;
    assert forall i | 0 <= i < |ops| :: g[i] == ops[i] && g[..i] == ops[..i];
  }

  /** In every run whose dismissals are safe, each alert's life is told by the operations. */
  lemma {:induction false} LivesTold(ops: seq<Op>, id: string)
    requires FreshIds(ops) && SafeDismissals(ops)
    ensures OpenTold(ops, id)
  {
    if ops == [] {
      NothingTold(id);
    } else {
      var front, last := ops[..|ops| - 1], ops[|ops| - 1];
      assert front + [last] == ops;
      PrefixFine(front, last);
      LivesTold(front, id);
      SafeRunAgrees(front, |front|);
      assert front[..|front|] == front;
      hide *;
      StepTold(front, last, id);
    }
  }

  lemma {:induction false} NothingTold(id: string)
    ensures OpenTold([], id)
  {
  }

  /** A cell that was cleared has no open alert until one is generated for it again. */
  lemma {:induction false} ClearedUntilGenerated(ops: seq<Op>, k: nat, c: Cell)
    requires FreshIds(ops) && SafeDismissals(ops)
    requires k < |ops| && ops[k].ClearOp? && ops[k].cell == c
    requires forall j | k < j < |ops| :: !Generates(ops[j], c)
    ensures NoneOpen(Run(ops), c)
  {
    forall id: string
      ensures !OpenIn(Run(ops), c, id)
    {
      LivesTold(ops, id);
      if OpenIn(Run(ops), c, id) {
        var i: nat :| Lives(ops, i, id);
        CellTold(ops, i, id, Run(ops).alerts[id]);
      }
    }
  }

  // ---------------------------------------------------------------------------
  // Who confirmed an alert
  // ---------------------------------------------------------------------------

  /** Operation `j` confirms alert `id`, which exists by then. */
  ghost predicate Confirms(ops: seq<Op>, j: nat, id: string) {
    j < |ops| && ops[j].ConfirmOp? && ops[j].id == id && id in Run(ops[..j]).alerts
  }

  ghost predicate LastConfirms(ops: seq<Op>, j: nat, id: string) {
    Confirms(ops, j, id) && forall m: nat | Confirms(ops, m, id) :: m <= j
  }

  /** An alert is confirmed exactly if some operation confirmed it, and names who did so last and when. */
  ghost predicate ConfirmationTold(ops: seq<Op>, id: string) {
    var s := Run(ops);
    id in s.alerts ==>
      && (s.alerts[id].confirmed <==> exists j: nat :: Confirms(ops, j, id))
      && (forall j: nat | LastConfirms(ops, j, id) ::
            s.alerts[id].confirmedBy == Some(ops[j].staff) && s.alerts[id].confirmedAt == Some(ops[j].now))
  }

  predicate ConfirmsNow(s: Store, op: Op, id: string) {
    op.ConfirmOp? && op.id == id && id in s.alerts
  }

  lemma {:induction false} ConfirmsAppend(ops: seq<Op>, op: Op, j: nat, id: string)
    ensures Confirms(ops + [op], j, id) <==> if j == |ops| then ConfirmsNow(Run(ops), op, id) else Confirms(ops, j, id)
    ensures Confirms(ops, j, id) ==> j < |ops|
  {
    hide Run;
    var g := ops + [op];
    if j < |ops| {
      assert g[..j] == ops[..j] && g[j] == ops[j];
    } else if j == |ops| {
      assert g[..j] == ops && g[j] == op;
    }
  }

  lemma {:induction false} LastConfirmsAppend(ops: seq<Op>, op: Op, j: nat, id: string)
    ensures LastConfirms(ops + [op], j, id) <==>
      if ConfirmsNow(Run(ops), op, id) then j == |ops| else LastConfirms(ops, j, id)
    ensures LastConfirms(ops, j, id) ==> j < |ops|
  {
    hide Run, Confirms, ConfirmsNow;
    var g := ops + [op];
    forall m: nat
      ensures Confirms(g, m, id) <==> if m == |ops| then ConfirmsNow(Run(ops), op, id) else Confirms(ops, m, id)
      ensures Confirms(ops, m, id) ==> m < |ops|
    {
      ConfirmsAppend(ops, op, m, id);
    }
    assert ConfirmsNow(Run(ops), op, id) ==> Confirms(g, |ops|, id);
    assert forall m: nat | Confirms(ops, m, id) :: Confirms(g, m, id);
    assert forall m: nat | Confirms(g, m, id) :: m == |ops| || Confirms(ops, m, id);
  }

  lemma {:induction false} SomeConfirms(ops: seq<Op>, op: Op, id: string)
    ensures (exists j: nat :: Confirms(ops + [op], j, id)) <==>
      ConfirmsNow(Run(ops), op, id) || exists j: nat :: Confirms(ops, j, id)
  {
    hide Run, Confirms, ConfirmsNow;
    ConfirmsAppend(ops, op, |ops|, id);
    if j: nat :| Confirms(ops, j, id) {
      ConfirmsAppend(ops, op, j, id);
    }
    if j: nat :| Confirms(ops + [op], j, id) {
      ConfirmsAppend(ops, op, j, id);
    }
  }

  /** Only a confirmation changes who confirmed an alert; a new alert is not confirmed. */
  lemma {:induction false} ConfirmStep(s: Store, op: Op, id: string)
    requires s.Agrees() && Fresh(s, op)
    ensures var t := Apply(s, op);
      id in t.alerts ==>
        var a := t.alerts[id];
        if ConfirmsNow(s, op, id) then a.confirmed && a.confirmedBy == Some(op.staff) && a.confirmedAt == Some(op.now)
        else if id in s.alerts then
          var b := s.alerts[id];
          a.confirmed == b.confirmed && a.confirmedBy == b.confirmedBy && a.confirmedAt == b.confirmedAt
        else !a.confirmed
  {
    match op {
      case GenerateOp(r, e, newId, now) =>
        GeneratedExactly(s, r, e, newId, now);
        hide Store.Generate, Store.Agrees;
      case ClearOp(c, now) =>
        ClearedExactly(s, c, now);
        hide Store.Clear, Store.Agrees;
      case ConfirmOp(i, staff, now) =>
      case DismissOp(i, now) =>
    }
  }

  lemma {:induction false} ConfirmationStep(ops: seq<Op>, op: Op, id: string)
    requires Run(ops).Agrees() && Fresh(Run(ops), op) && ConfirmationTold(ops, id)
    requires id !in Run(ops).alerts ==> forall j: nat :: !Confirms(ops, j, id)
    ensures ConfirmationTold(ops + [op], id)
  {
    var s, t, g := Run(ops), Run(ops + [op]), ops + [op];
    RunAppend(ops, op);
    ConfirmStep(s, op, id);
    assert g[|ops|] == op && forall j | 0 <= j < |ops| :: g[j] == ops[j];
    SomeConfirms(ops, op, id);
    hide Run, Apply, Store.Agrees, Confirms, LastConfirms;
    forall j: nat
      ensures LastConfirms(g, j, id) <==> if ConfirmsNow(s, op, id) then j == |ops| else LastConfirms(ops, j, id)
      ensures LastConfirms(ops, j, id) ==> j < |ops|
    {
      LastConfirmsAppend(ops, op, j, id);
    }
    if id in t.alerts && id !in s.alerts {
      NoneConfirmed(ops, id);
    }
  }

  lemma {:induction false} NoneConfirmed(ops: seq<Op>, id: string)
    requires forall j: nat :: !Confirms(ops, j, id)
    ensures forall j: nat :: !LastConfirms(ops, j, id)
  {
  }

  lemma {:induction false} AlertsStay(ops: seq<Op>, op: Op, id: string)
    requires Run(ops).Agrees() && Fresh(Run(ops), op) && id in Run(ops).alerts
    ensures id in Run(ops + [op]).alerts
  {
    RunAppend(ops, op);
  }

  lemma {:induction false} ConfirmedExactly(ops: seq<Op>, id: string)
    requires FreshIds(ops) && SafeDismissals(ops)
    ensures ConfirmationTold(ops, id)
    ensures id !in Run(ops).alerts ==> forall j: nat :: !Confirms(ops, j, id)
  {
    if ops != [] {
      var front, last := ops[..|ops| - 1], ops[|ops| - 1];
      assert front + [last] == ops;
      PrefixFine(front, last);
      ConfirmedExactly(front, id);
      SafeRunAgrees(front, |front|);
      assert front[..|front|] == front;
      ConfirmationStep(front, last, id);
      hide Run, Confirms, ConfirmationTold;
      if id !in Run(ops).alerts {
        if id in Run(front).alerts {
          AlertsStay(front, last, id);
        }
        forall j: nat
          ensures !Confirms(ops, j, id)
        {
          ConfirmsAppend(front, last, j, id);
        }
      }
    }
  }
}
