/**
 The alert data as four redundant indexes: alerts by id, the set of active ids, the ids of each
 shelf, and the latest alert of each cell. Operations are stated on this value; the laws say when
 the indexes answer as a scan of all alerts would.
 */
module AlertStore {
  import opened Options

  datatype Cell = Cell(shelfId: string, rowIdx: nat, itemIdx: nat)

  datatype AlertType = OOS | MISPLACEMENT | UNKNOWN

  datatype Alert = Alert(
    alertId: string,
    cell: Cell,
    kind: AlertType,
    expectedSku: string,
    detectedSku: Option<string>,
    firstSeen: int,
    lastSeen: int,
    confirmed: bool,
    confirmedBy: Option<string>,
    confirmedAt: Option<int>,
    dismissed: bool,
    evidencePaths: seq<string>,
    consecutiveFrames: nat,
    updatedAt: int)
  {
    predicate Open() {
      !confirmed && !dismissed
    }
  }

  datatype AlertRequest = AlertRequest(cell: Cell, kind: AlertType, expectedSku: string, detectedSku: Option<string>,
                                       consecutiveFrames: nat)

  datatype Store = Store(
    alerts: map<string, Alert>,
    active: set<string>,
    shelves: map<string, set<string>>,
    cells: map<Cell, string>)
  {
    function Shelf(shelfId: string): set<string> {
      if shelfId in shelves then shelves[shelfId] else {}
    }

    // -------------------------------------------------------------------------
    // Repository operations
    // -------------------------------------------------------------------------

    function Create(a: Alert): Store {
      Store(
        alerts[a.alertId := a],
        active + (if a.dismissed then {} else {a.alertId}),
        shelves[a.cell.shelfId := Shelf(a.cell.shelfId) + {a.alertId}],
        cells[a.cell := a.alertId])
    }

    function GetByCell(c: Cell): Option<Alert> {
      if c !in cells || cells[c] !in alerts || alerts[cells[c]].dismissed then None else Some(alerts[cells[c]])
    }

    function Put(a: Alert): Store {
      Store(alerts[a.alertId := a], active, shelves, cells)
    }

    function Confirm(id: string, staff: string, now: int): Store {
      if id !in alerts then this
      else
        var a := alerts[id].(confirmed := true, confirmedBy := Some(staff), confirmedAt := Some(now), updatedAt := now);
        Store(alerts[id := a], active - {id}, shelves, cells)
    }

    function Dismiss(id: string, now: int): Store {
      if id !in alerts then this
      else
        var a := alerts[id].(dismissed := true, updatedAt := now);
        Store(alerts[id := a], active - {id}, shelves, cells - {a.cell})
    }

    /** The ids `get_active_alerts` looks at; an empty shelf name counts as none. */
    function Candidates(shelfId: Option<string>): set<string> {
      if shelfId.Some? && shelfId.value != "" then Shelf(shelfId.value) else active
    }

    function ActiveAlerts(shelfId: Option<string>): set<Alert> {
      set id | id in Candidates(shelfId) && id in alerts && alerts[id].Open() :: alerts[id]
    }

    // -------------------------------------------------------------------------
    // Use cases
    // -------------------------------------------------------------------------

    /** Refresh the open alert of the cell, or open a new one under `newId`. */
    function Generate(r: AlertRequest, evidence: seq<string>, newId: string, now: int): Store {
      var existing := GetByCell(r.cell);
      if existing.Some? && existing.value.Open() then
        var a := existing.value;
        Put(a.(lastSeen := now, consecutiveFrames := r.consecutiveFrames, evidencePaths := a.evidencePaths + evidence,
               updatedAt := now))
      else if r.consecutiveFrames < 1 then this
      else Create(NewAlert(r, evidence, newId, now))
    }

    function Clear(c: Cell, now: int): Store {
      var a := GetByCell(c);
      if a.Some? && !a.value.confirmed then Dismiss(a.value.alertId, now) else this
    }

    // -------------------------------------------------------------------------
    // Agreement of the indexes
    // -------------------------------------------------------------------------

    ghost predicate IsOpen(id: string) {
      id in alerts && alerts[id].Open()
    }

    /** Alerts are stored under their own ids. */
    ghost predicate Keyed() {
      forall id | id in alerts :: alerts[id].alertId == id
    }

    ghost predicate Agrees() {
      && Keyed()
      && (forall id :: id in active <==> IsOpen(id))
      && ShelvesComplete()
      && CellsNamed()
      && OpenPointed()
    }

    /** Every alert is filed under its shelf, and only there. */
    ghost predicate ShelvesComplete() {
      && (forall id | id in alerts :: id in Shelf(alerts[id].cell.shelfId))
      && (forall sh, id | sh in shelves && id in shelves[sh] :: id in alerts && alerts[id].cell.shelfId == sh)
    }

    /** A cell pointer names an alert of that cell. */
    ghost predicate CellsNamed() {
      forall c | c in cells :: cells[c] in alerts && alerts[cells[c]].cell == c
    }

    /** An open alert is the one its cell points to. */
    ghost predicate OpenPointed() {
      forall id | IsOpen(id) :: alerts[id].cell in cells && cells[alerts[id].cell] == id
    }
  }

  function NewAlert(r: AlertRequest, evidence: seq<string>, id: string, now: int): Alert {
    Alert(id, r.cell, r.kind, r.expectedSku, r.detectedSku, now, now, false, None, None, false, evidence,
          r.consecutiveFrames, now)
  }

  const EMPTY_STORE := Store(map[], {}, map[], map[])

  /** Dismissing `id` takes no other open alert's cell pointer away. */
  ghost predicate SafeDismiss(s: Store, id: string) {
    id in s.alerts ==>
      var c := s.alerts[id].cell;
      c in s.cells && s.cells[c] != id ==> !s.IsOpen(s.cells[c])
  }

  datatype Op =
    | GenerateOp(request: AlertRequest, evidence: seq<string>, newId: string, now: int)
    | ClearOp(cell: Cell, now: int)
    | ConfirmOp(id: string, staff: string, now: int)
    | DismissOp(id: string, now: int)

  function Apply(s: Store, op: Op): Store {
    match op
    case GenerateOp(r, e, id, now) => s.Generate(r, e, id, now)
    case ClearOp(c, now) => s.Clear(c, now)
    case ConfirmOp(id, staff, now) => s.Confirm(id, staff, now)
    case DismissOp(id, now) => s.Dismiss(id, now)
  }

  function Run(ops: seq<Op>): Store {
    if ops == [] then EMPTY_STORE else Apply(Run(ops[..|ops| - 1]), ops[|ops| - 1])
  }

  /** Generated ids are new. */
  ghost predicate FreshIds(ops: seq<Op>) {
    forall i | 0 <= i < |ops| && ops[i].GenerateOp? :: ops[i].newId !in Run(ops[..i]).alerts
  }

  /** Every dismissal is safe at the moment it is made. */
  ghost predicate SafeDismissals(ops: seq<Op>) {
    forall i | 0 <= i < |ops| && ops[i].DismissOp? :: SafeDismiss(Run(ops[..i]), ops[i].id)
  }

  // ---------------------------------------------------------------------------
  // What each operation keeps
  // ---------------------------------------------------------------------------

  /** A new alert is listed as active unless it comes dismissed; nothing else changes in the list. */
  lemma {:induction false} CreatedIsListed(s: Store, a: Alert, id: string)
    ensures id in s.Create(a).active <==> id in s.active || (id == a.alertId && !a.dismissed)
  {
  }

  lemma {:induction false} CreateAgrees(s: Store, a: Alert)
    requires s.Agrees() && a.alertId !in s.alerts && a.Open()
    requires forall id | s.IsOpen(id) :: s.alerts[id].cell != a.cell
    ensures s.Create(a).Agrees()
  {
    hide Store.ShelvesComplete, Store.CellsNamed, Store.OpenPointed;
    CreateShelves(s, a);
    CreateCells(s, a);
    CreatePointed(s, a);
  }

  lemma {:induction false} CreateShelves(s: Store, a: Alert)
    requires s.ShelvesComplete() && a.alertId !in s.alerts
    ensures s.Create(a).ShelvesComplete()
  {
  }

  lemma {:induction false} CreateCells(s: Store, a: Alert)
    requires s.CellsNamed() && a.alertId !in s.alerts
    ensures s.Create(a).CellsNamed()
  {
  }

  lemma {:induction false} CreatePointed(s: Store, a: Alert)
    requires s.OpenPointed() && a.alertId !in s.alerts
    requires forall id | s.IsOpen(id) :: s.alerts[id].cell != a.cell
    ensures s.Create(a).OpenPointed()
  {
    var t := s.Create(a);
    forall id | t.IsOpen(id)
      ensures t.alerts[id].cell in t.cells && t.cells[t.alerts[id].cell] == id
    {
      assert id != a.alertId ==> s.IsOpen(id);
    }
  }

  lemma {:induction false} PutAgrees(s: Store, a: Alert)
    requires s.Agrees() && a.alertId in s.alerts
    requires a.cell == s.alerts[a.alertId].cell && a.Open() && s.alerts[a.alertId].Open()
    ensures s.Put(a).Agrees()
  {
    var t := s.Put(a);
    assert forall id :: t.IsOpen(id) <==> s.IsOpen(id);
  }

  lemma {:induction false} ConfirmAgrees(s: Store, id: string, staff: string, now: int)
    requires s.Agrees()
    ensures s.Confirm(id, staff, now).Agrees()
  {
    var t := s.Confirm(id, staff, now);
    assert forall j :: t.IsOpen(j) <==> s.IsOpen(j) && j != id;
  }

  lemma {:induction false} DismissAgrees(s: Store, id: string, now: int)
    requires s.Agrees() && SafeDismiss(s, id)
    ensures s.Dismiss(id, now).Agrees()
  {
    if id in s.alerts {
      hide Store.ShelvesComplete, Store.CellsNamed, Store.OpenPointed, SafeDismiss;
      DismissShelves(s, id, now);
      DismissCells(s, id, now);
      DismissPointed(s, id, now);
    }
  }

  lemma {:induction false} DismissShelves(s: Store, id: string, now: int)
    requires s.ShelvesComplete() && id in s.alerts
    ensures s.Dismiss(id, now).ShelvesComplete()
  {
  }

  lemma {:induction false} DismissCells(s: Store, id: string, now: int)
    requires s.CellsNamed() && id in s.alerts
    ensures s.Dismiss(id, now).CellsNamed()
  {
  }

  lemma {:induction false} DismissPointed(s: Store, id: string, now: int)
    requires s.OpenPointed() && s.CellsNamed() && SafeDismiss(s, id) && id in s.alerts
    ensures s.Dismiss(id, now).OpenPointed()
  {
    var t := s.Dismiss(id, now);
    forall j | t.IsOpen(j)
      ensures t.alerts[j].cell in t.cells && t.cells[t.alerts[j].cell] == j
    {
      assert s.IsOpen(j) && s.alerts[j].cell != s.alerts[id].cell;
    }
  }

  lemma {:induction false} UnsafeDismissBreaks(s: Store, id: string, now: int)
    requires s.Agrees() && !SafeDismiss(s, id)
    ensures !s.Dismiss(id, now).OpenPointed()
  {
    var t := s.Dismiss(id, now);
    var c := s.alerts[id].cell;
    var other := s.cells[c];
    assert t.IsOpen(other) && t.alerts[other].cell == c && c !in t.cells;
  }

  /** A dismissal keeps the indexes in agreement exactly when it is safe. */
  lemma {:induction false} DismissAgreesIff(s: Store, id: string, now: int)
    requires s.Agrees()
    ensures s.Dismiss(id, now).Agrees() <==> SafeDismiss(s, id)
  {
    hide Store.Dismiss, Store.OpenPointed, Store.CellsNamed, SafeDismiss;
    if SafeDismiss(s, id) {
      DismissAgrees(s, id, now);
    } else {
      UnsafeDismissBreaks(s, id, now);
    }
  }

  /** Dismissing an open alert is always safe. */
  lemma {:induction false} OpenIsSafe(s: Store, id: string)
    requires s.Agrees() && s.IsOpen(id)
    ensures SafeDismiss(s, id)
  {
  }

  lemma {:induction false} GenerateAgrees(s: Store, r: AlertRequest, evidence: seq<string>, newId: string, now: int)
    requires s.Agrees() && newId !in s.alerts
    ensures s.Generate(r, evidence, newId, now).Agrees()
  {
    var existing := s.GetByCell(r.cell);
    if existing.Some? && existing.value.Open() {
      var a := existing.value;
      PutAgrees(s, a.(lastSeen := now, consecutiveFrames := r.consecutiveFrames,
                      evidencePaths := a.evidencePaths + evidence, updatedAt := now));
    } else if r.consecutiveFrames >= 1 {
      CreateAgrees(s, NewAlert(r, evidence, newId, now));
    }
  }

  lemma {:induction false} ClearAgrees(s: Store, c: Cell, now: int)
    requires s.Agrees()
    ensures s.Clear(c, now).Agrees()
  {
    var a := s.GetByCell(c);
    if a.Some? && !a.value.confirmed {
      OpenIsSafe(s, a.value.alertId);
      DismissAgreesIff(s, a.value.alertId, now);
    }
  }

  lemma {:induction false} ApplyAgrees(s: Store, op: Op)
    requires s.Agrees()
    requires op.GenerateOp? ==> op.newId !in s.alerts
    requires op.DismissOp? ==> SafeDismiss(s, op.id)
    ensures Apply(s, op).Agrees()
  {
    match op {
      case GenerateOp(r, e, id, now) => GenerateAgrees(s, r, e, id, now);
      case ClearOp(c, now) => ClearAgrees(s, c, now);
      case ConfirmOp(id, staff, now) => ConfirmAgrees(s, id, staff, now);
      case DismissOp(id, now) => DismissAgreesIff(s, id, now);
    }
  }

  lemma {:induction false} RunStep(ops: seq<Op>, i: nat)
    requires i < |ops|
    ensures Run(ops[..i + 1]) == Apply(Run(ops[..i]), ops[i])
  {
    assert ops[..i + 1][..i] == ops[..i];
  }

  lemma {:induction false} SafeRunAgrees(ops: seq<Op>, i: nat)
    requires FreshIds(ops) && SafeDismissals(ops) && i <= |ops|
    ensures Run(ops[..i]).Agrees()
  {
    if i > 0 {
      SafeRunAgrees(ops, i - 1);
      RunStep(ops, i - 1);
      hide *;
      ApplyAgrees(Run(ops[..i - 1]), ops[i - 1]);
    }
  }

  /** The indexes agree in every state of a run exactly when every dismissal in it is safe. */
  lemma {:induction false} RunAgreesIff(ops: seq<Op>)
    requires FreshIds(ops)
    ensures (forall i | 0 <= i <= |ops| :: Run(ops[..i]).Agrees()) <==> SafeDismissals(ops)
  {
    if SafeDismissals(ops) {
      forall i | 0 <= i <= |ops|
        ensures Run(ops[..i]).Agrees()
      {
        SafeRunAgrees(ops, i);
      }
    }
    if forall i | 0 <= i <= |ops| :: Run(ops[..i]).Agrees() {
      forall i | 0 <= i < |ops| && ops[i].DismissOp?
        ensures SafeDismiss(Run(ops[..i]), ops[i].id)
      {
        hide Run, SafeDismiss, Store.Agrees, Store.Dismiss;
        RunStep(ops, i);
        DismissAgreesIff(Run(ops[..i]), ops[i].id, ops[i].now);
      }
    }
  }

  // ---------------------------------------------------------------------------
  // What agreement gives
  // ---------------------------------------------------------------------------

  /** Both active-alert queries answer as a filtered scan of all alerts. */
  lemma {:induction false} QueriesAreScans(s: Store, shelfId: string)
    requires s.Agrees()
    ensures s.ActiveAlerts(None) == set id | id in s.alerts && s.alerts[id].Open() :: s.alerts[id]
    ensures shelfId != "" ==>
      s.ActiveAlerts(Some(shelfId))
        == set id | id in s.alerts && s.alerts[id].Open() && s.alerts[id].cell.shelfId == shelfId :: s.alerts[id]
  {
    var scan := set id | id in s.alerts && s.alerts[id].Open() :: s.alerts[id];
    forall a
      ensures a in s.ActiveAlerts(None) <==> a in scan
    {
      if a in scan {
        var id :| id in s.alerts && s.alerts[id].Open() && s.alerts[id] == a;
        assert s.IsOpen(id) && id in s.Candidates(None);
      }
    }
    if shelfId != "" {
      var onShelf := set id | id in s.alerts && s.alerts[id].Open() && s.alerts[id].cell.shelfId == shelfId :: s.alerts[id];
      forall a
        ensures a in s.ActiveAlerts(Some(shelfId)) <==> a in onShelf
      {
        if a in onShelf {
          var id :| id in s.alerts && s.alerts[id].Open() && s.alerts[id].cell.shelfId == shelfId && s.alerts[id] == a;
          assert id in s.Candidates(Some(shelfId));
        }
      }
    }
  }

  /** An empty shelf name asks for the alerts of all shelves. */
  lemma {:induction false} NoShelfIsAllShelves(s: Store)
    requires s.Agrees()
    ensures s.ActiveAlerts(Some("")) == set id | id in s.alerts && s.alerts[id].Open() :: s.alerts[id]
  {
    QueriesAreScans(s, "");
    assert s.ActiveAlerts(Some("")) == s.ActiveAlerts(None);
  }

  /** A cell has at most one open alert, and it is the one found by cell. */
  lemma {:induction false} OneOpenPerCell(s: Store, i: string, j: string)
    requires s.Agrees() && s.IsOpen(i)
    ensures s.GetByCell(s.alerts[i].cell) == Some(s.alerts[i])
    ensures s.IsOpen(j) && s.alerts[j].cell == s.alerts[i].cell ==> j == i
  {
  }

  lemma {:induction false} RunOfFive(a: Op, b: Op, c: Op, d: Op, e: Op)
    ensures var ops := [a, b, c, d, e];
      && Run(ops[..0]) == EMPTY_STORE
      && Run(ops[..1]) == Apply(EMPTY_STORE, a)
      && Run(ops[..2]) == Apply(Run(ops[..1]), b)
      && Run(ops[..3]) == Apply(Run(ops[..2]), c)
      && Run(ops[..4]) == Apply(Run(ops[..3]), d)
      && Run(ops) == Apply(Run(ops[..4]), e)
  {
    hide Apply;
    var ops := [a, b, c, d, e];
    assert ops[..1][..0] == ops[..0] && ops[..2][..1] == ops[..1] && ops[..3][..2] == ops[..2]
      && ops[..4][..3] == ops[..3];
  }

  /** Dismissing a confirmed alert hides the cell's open one, and the next frame opens a second. */
  lemma {:induction false} DismissingConfirmedDuplicates(r: AlertRequest)
    requires r.consecutiveFrames >= 1
    ensures var ops := [GenerateOp(r, [], "a", 1), ConfirmOp("a", "staff", 2), GenerateOp(r, [], "b", 3),
                        DismissOp("a", 4), GenerateOp(r, [], "c", 5)];
      var s := Run(ops);
      FreshIds(ops) && !SafeDismiss(Run(ops[..3]), "a") && s.IsOpen("b") && s.IsOpen("c") && s.alerts["b"].cell == s.alerts["c"].cell
  {
    hide Run;
    var o1, o2, o3 := GenerateOp(r, [], "a", 1), ConfirmOp("a", "staff", 2), GenerateOp(r, [], "b", 3);
    var o4, o5 := DismissOp("a", 4), GenerateOp(r, [], "c", 5);
    RunOfFive(o1, o2, o3, o4, o5);
    var ops := [o1, o2, o3, o4, o5];
    FirstConfirmed(r);
    SecondOpened(r, Run(ops[..2]));
    hide *;
    FirstDismissed(r, Run(ops[..3]));
    ThirdOpened(r, Run(ops[..4]));
    FreshOfFive(r, ops);
  }

  /** One alert, confirmed, which its cell still points to. */
  ghost predicate OneConfirmed(r: AlertRequest, s: Store) {
    && s.alerts.Keys == {"a"} && s.alerts["a"].cell == r.cell && s.alerts["a"].confirmed && !s.alerts["a"].dismissed
    && s.cells == map[r.cell := "a"]
  }

  /** A second alert is open and its cell points to it. */
  ghost predicate SecondPointed(r: AlertRequest, s: Store) {
    && s.alerts.Keys == {"a", "b"} && s.alerts["a"].cell == r.cell && s.alerts["b"].cell == r.cell && s.alerts["b"].Open()
    && s.cells == map[r.cell := "b"]
  }

  /** The second alert is open, but its cell points to nothing. */
  ghost predicate SecondHidden(r: AlertRequest, s: Store) {
    s.alerts.Keys == {"a", "b"} && s.alerts["b"].cell == r.cell && s.alerts["b"].Open() && s.cells == map[]
  }

  lemma {:induction false} FirstConfirmed(r: AlertRequest)
    requires r.consecutiveFrames >= 1
    ensures var s1 := Apply(EMPTY_STORE, GenerateOp(r, [], "a", 1));
      s1.alerts.Keys == {"a"} && OneConfirmed(r, Apply(s1, ConfirmOp("a", "staff", 2)))
  {
    var s1 := Apply(EMPTY_STORE, GenerateOp(r, [], "a", 1));
    assert s1.alerts == map["a" := NewAlert(r, [], "a", 1)];
  }

  lemma {:induction false} SecondOpened(r: AlertRequest, s: Store)
    requires r.consecutiveFrames >= 1 && OneConfirmed(r, s)
    ensures SecondPointed(r, Apply(s, GenerateOp(r, [], "b", 3)))
  {
    assert Apply(s, GenerateOp(r, [], "b", 3)) == s.Create(NewAlert(r, [], "b", 3));
  }

  lemma {:induction false} FirstDismissed(r: AlertRequest, s: Store)
    requires SecondPointed(r, s)
    ensures !SafeDismiss(s, "a") && SecondHidden(r, Apply(s, DismissOp("a", 4)))
  {
  }

  lemma {:induction false} ThirdOpened(r: AlertRequest, s: Store)
    requires r.consecutiveFrames >= 1 && SecondHidden(r, s)
    ensures var t := Apply(s, GenerateOp(r, [], "c", 5));
      t.IsOpen("b") && t.IsOpen("c") && t.alerts["b"].cell == t.alerts["c"].cell
  {
    assert Apply(s, GenerateOp(r, [], "c", 5)) == s.Create(NewAlert(r, [], "c", 5));
  }

  lemma {:induction false} FreshOfFive(r: AlertRequest, ops: seq<Op>)
    requires |ops| == 5 && ops[0] == GenerateOp(r, [], "a", 1) && ops[1].ConfirmOp?
    requires ops[2] == GenerateOp(r, [], "b", 3) && ops[3].DismissOp? && ops[4] == GenerateOp(r, [], "c", 5)
    requires Run(ops[..0]) == EMPTY_STORE && OneConfirmed(r, Run(ops[..2])) && SecondHidden(r, Run(ops[..4]))
    ensures FreshIds(ops)
  {
    hide Run;
  }
}
