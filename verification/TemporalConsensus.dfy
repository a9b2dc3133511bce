/** The tracker of shelf cells: one mutable record per cell, updated frame by frame. */
module TemporalConsensus {
  import opened Options
  import opened Sequences
  import opened ConsensusModel

  datatype CellKey = CellKey(shelfId: string, rowIdx: nat, itemIdx: nat)

  datatype CellUpdate = CellUpdate(rowIdx: nat, itemIdx: nat, state: CellState, expectedSku: string,
                                   detectedSku: Option<string>)

  datatype AlertKind = OosAlert | MisplacementAlert

  datatype AlertData = AlertData(cell: CellKey, kind: AlertKind, expectedSku: string, detectedSku: Option<string>,
                                 consecutiveFrames: nat)

  class CellTemporalState {
    const key: CellKey
    const expectedSku: string
    var currentState: CellState
    var consecutiveEmptyFrames: nat
    var consecutiveMisplacedFrames: nat
    var consecutiveOkFrames: nat
    var lastDetectedSku: Option<string>
    var lastUpdateTime: int
    var stateHistory: seq<CellState>
    // Everything observed since the record was created.
    ghost var observed: seq<CellState>

    ghost predicate Valid()
      reads this
    {
      && currentState == Current(observed)
      && consecutiveEmptyFrames == Counter(Empty, observed)
      && consecutiveMisplacedFrames == Counter(Misplaced, observed)
      && consecutiveOkFrames == Counter(Ok, observed)
      && stateHistory == LastOf(observed, MAX_HISTORY)
    }

    constructor (key: CellKey, expectedSku: string, now: int)
      ensures this.key == key && Valid() && observed == [] && lastUpdateTime == now
    {
      this.key, this.expectedSku := key, expectedSku;
      currentState := Unknown;
      consecutiveEmptyFrames, consecutiveMisplacedFrames, consecutiveOkFrames := 0, 0, 0;
      lastDetectedSku, lastUpdateTime := None, now;
      stateHistory, observed := [], [];
    }

    method Update(newState: CellState, detectedSku: Option<string>, now: int)
      requires Valid()
      modifies this
      ensures Valid() && observed == old(observed) + [newState]
      ensures lastUpdateTime == now && lastDetectedSku == detectedSku
    {
      hide Counter, LastOf;
      CounterStep(Empty, observed, newState);
      CounterStep(Misplaced, observed, newState);
      CounterStep(Ok, observed, newState);
      LastOfStep(observed, newState);
      lastUpdateTime := now;
      lastDetectedSku := detectedSku;
      stateHistory := stateHistory + [newState];
      if |stateHistory| > MAX_HISTORY {
        stateHistory := stateHistory[1..];
      }
      match newState {
        case Empty =>
          consecutiveEmptyFrames := consecutiveEmptyFrames + 1;
          consecutiveMisplacedFrames := 0;
          consecutiveOkFrames := 0;
        case Misplaced =>
          consecutiveEmptyFrames := 0;
          consecutiveMisplacedFrames := consecutiveMisplacedFrames + 1;
          consecutiveOkFrames := 0;
        case Ok =>
          consecutiveEmptyFrames := 0;
          consecutiveMisplacedFrames := 0;
          consecutiveOkFrames := consecutiveOkFrames + 1;
        case _ =>
      }
      currentState := newState;
      observed := observed + [newState];
    }

    predicate ShouldTriggerOosAlert(nConfirm: nat)
      reads this
    {
      consecutiveEmptyFrames >= nConfirm && !Oscillating(stateHistory)
    }

    predicate ShouldTriggerMisplacementAlert(nConfirm: nat)
      reads this
    {
      consecutiveMisplacedFrames >= nConfirm && !Oscillating(stateHistory)
    }

    predicate ShouldClearAlert(nClear: nat)
      reads this
    {
      consecutiveOkFrames >= nClear
    }
  }

  lemma {:induction false} CounterStep(s: CellState, h: seq<CellState>, x: CellState)
    requires IsVerdict(s)
    ensures Counter(s, h + [x]) == if x == s then Counter(s, h) + 1 else if IsVerdict(x) then 0 else Counter(s, h)
  {
    assert (h + [x])[..|h|] == h;
  }

  /** The ring takes one more and drops the oldest when it is full. */
  lemma {:induction false} LastOfStep(h: seq<CellState>, x: CellState)
    ensures var kept := LastOf(h, MAX_HISTORY) + [x];
      LastOf(h + [x], MAX_HISTORY) == if |kept| > MAX_HISTORY then kept[1..] else kept
  {
  }

  // ---------------------------------------------------------------------------
  // What a list of cell updates brings about, on whole histories
  // ---------------------------------------------------------------------------

  type Histories = map<CellKey, seq<CellState>>

  datatype Outcome = Outcome(histories: Histories, oos: seq<AlertData>, misplaced: seq<AlertData>, cleared: seq<CellKey>)

  function HistoryOf(h: Histories, k: CellKey): seq<CellState> {
    if k in h then h[k] else []
  }

  function Emit<T>(b: bool, x: T): seq<T> {
    if b then [x] else []
  }

  function ObserveOne(nConfirm: nat, nClear: nat, o: Outcome, k: CellKey, u: CellUpdate): Outcome {
    var h := HistoryOf(o.histories, k) + [u.state];
    Outcome(
      o.histories[k := h],
      o.oos + Emit(Raises(Empty, nConfirm, h), AlertData(k, OosAlert, u.expectedSku, None, Counter(Empty, h))),
      o.misplaced + Emit(Raises(Misplaced, nConfirm, h),
                         AlertData(k, MisplacementAlert, u.expectedSku, u.detectedSku, Counter(Misplaced, h))),
      o.cleared + Emit(Clears(nConfirm, nClear, h), k))
  }

  lemma {:induction false} ObserveOneMeans(nConfirm: nat, nClear: nat, o: Outcome, k: CellKey, u: CellUpdate)
    ensures var h := HistoryOf(o.histories, k) + [u.state];
      && h != []
      && o.histories[k := HistoryOf(o.histories, k)][k := h] == o.histories[k := h]
      && ObserveOne(nConfirm, nClear, o, k, u) == Outcome(
        o.histories[k := h],
        o.oos + Emit(Raises(Empty, nConfirm, h), AlertData(k, OosAlert, u.expectedSku, None, Counter(Empty, h))),
        o.misplaced + Emit(Raises(Misplaced, nConfirm, h),
                           AlertData(k, MisplacementAlert, u.expectedSku, u.detectedSku, Counter(Misplaced, h))),
        o.cleared + Emit(Clears(nConfirm, nClear, h), k))
  {
  }

  function KeyOf(shelfId: string, u: CellUpdate): CellKey {
    CellKey(shelfId, u.rowIdx, u.itemIdx)
  }

  function Observe(nConfirm: nat, nClear: nat, shelfId: string, h: Histories, updates: seq<CellUpdate>): Outcome {
    if updates == [] then Outcome(h, [], [], [])
    else
      var last := updates[|updates| - 1];
      ObserveOne(nConfirm, nClear, Observe(nConfirm, nClear, shelfId, h, updates[..|updates| - 1]), KeyOf(shelfId, last), last)
  }

  /** When each cell was last updated, after a frame at time `now`. */
  function TimesAfter(shelfId: string, times: map<CellKey, int>, updates: seq<CellUpdate>,
                      now: int): map<CellKey, int> {
    if updates == [] then times
    else TimesAfter(shelfId, times, updates[..|updates| - 1], now)[KeyOf(shelfId, updates[|updates| - 1]) := now]
  }

  lemma {:induction false} ObserveStep(nConfirm: nat, nClear: nat, shelfId: string, h: Histories,
                                       updates: seq<CellUpdate>, i: nat, times: map<CellKey, int>, now: int)
    requires i < |updates|
    ensures Observe(nConfirm, nClear, shelfId, h, updates[..i + 1])
      == ObserveOne(nConfirm, nClear, Observe(nConfirm, nClear, shelfId, h, updates[..i]), KeyOf(shelfId, updates[i]), updates[i])
    ensures TimesAfter(shelfId, times, updates[..i + 1], now)
      == TimesAfter(shelfId, times, updates[..i], now)[KeyOf(shelfId, updates[i]) := now]
  {
    assert updates[..i + 1][..i] == updates[..i];
  }

  /** The histories of the cells updated at or after `since`. */
  function Unexpired(h: Histories, times: map<CellKey, int>, since: int): Histories {
    map k | k in h && k in times && times[k] >= since :: h[k]
  }

  function AlertsFor(alerts: seq<AlertData>, kind: AlertKind, k: CellKey): nat {
    if alerts == [] then 0
    else
      var last := alerts[|alerts| - 1];
      AlertsFor(alerts[..|alerts| - 1], kind, k) + (if last.cell == k && last.kind == kind then 1 else 0)
  }

  function ClearsFor(cleared: seq<CellKey>, k: CellKey): nat {
    if cleared == [] then 0
    else ClearsFor(cleared[..|cleared| - 1], k) + (if cleared[|cleared| - 1] == k then 1 else 0)
  }

  lemma {:induction false} AlertsForEmit(alerts: seq<AlertData>, b: bool, a: AlertData, kind: AlertKind, k: CellKey)
    ensures AlertsFor(alerts + Emit(b, a), kind, k)
      == AlertsFor(alerts, kind, k) + (if b && a.cell == k && a.kind == kind then 1 else 0)
  {
    if b {
      assert (alerts + [a])[..|alerts|] == alerts;
    } else {
      assert alerts + [] == alerts;
    }
  }

  lemma {:induction false} ClearsForEmit(cleared: seq<CellKey>, b: bool, c: CellKey, k: CellKey)
    ensures ClearsFor(cleared + Emit(b, c), k) == ClearsFor(cleared, k) + (if b && c == k then 1 else 0)
  {
    if b {
      assert (cleared + [c])[..|cleared|] == cleared;
    } else {
      assert cleared + [] == cleared;
    }
  }

  lemma {:induction false} AlertsConcat(a: seq<AlertData>, b: seq<AlertData>, kind: AlertKind, k: CellKey)
    ensures AlertsFor(a + b, kind, k) == AlertsFor(a, kind, k) + AlertsFor(b, kind, k)
  {
    if b == [] {
      assert a + b == a;
    } else {
      AlertsConcat(a, b[..|b| - 1], kind, k);
      assert (a + b)[..|a + b| - 1] == a + b[..|b| - 1];
    }
  }

  lemma {:induction false} ClearsConcat(a: seq<CellKey>, b: seq<CellKey>, k: CellKey)
    ensures ClearsFor(a + b, k) == ClearsFor(a, k) + ClearsFor(b, k)
  {
    if b == [] {
      assert a + b == a;
    } else {
      ClearsConcat(a, b[..|b| - 1], k);
      assert (a + b)[..|a + b| - 1] == a + b[..|b| - 1];
    }
  }

  /** What a cell's alerts and clears amount to when its history was `before` and now is that of the outcome. */
  ghost predicate Accounted(nConfirm: nat, nClear: nat, before: seq<CellState>, o: Outcome, k: CellKey) {
    var h := HistoryOf(o.histories, k);
    && AlertsFor(o.oos, OosAlert, k) == RaiseCount(Empty, nConfirm, h) - RaiseCount(Empty, nConfirm, before)
    && AlertsFor(o.misplaced, MisplacementAlert, k) == RaiseCount(Misplaced, nConfirm, h) - RaiseCount(Misplaced, nConfirm, before)
    && AlertsFor(o.oos, MisplacementAlert, k) == 0 && AlertsFor(o.misplaced, OosAlert, k) == 0
    && ClearsFor(o.cleared, k) == ClearCount(nConfirm, nClear, h) - ClearCount(nConfirm, nClear, before)
  }

  /** The update of a shelf is about the cell. */
  predicate IsAbout(shelfId: string, u: CellUpdate, k: CellKey) {
    k.shelfId == shelfId && k.rowIdx == u.rowIdx && k.itemIdx == u.itemIdx
  }

  /** What a list of updates says about one cell. */
  function StatesFor(shelfId: string, updates: seq<CellUpdate>, k: CellKey): seq<CellState> {
    if updates == [] then []
    else
      var last := updates[|updates| - 1];
      StatesFor(shelfId, updates[..|updates| - 1], k) + (if IsAbout(shelfId, last, k) then [last.state] else [])
  }

  /**
   The alerts and clears emitted for a cell are those its own observation history calls for, whatever it was before and
   however the updates of different cells are mixed.
   */
  lemma {:induction false} EmissionsPerCell(nConfirm: nat, nClear: nat, shelfId: string, h: Histories,
                                            updates: seq<CellUpdate>, k: CellKey)
    ensures var o := Observe(nConfirm, nClear, shelfId, h, updates);
      && Accounted(nConfirm, nClear, HistoryOf(h, k), o, k)
      && HistoryOf(o.histories, k) == HistoryOf(h, k) + StatesFor(shelfId, updates, k)
  {
    hide *;
    if updates == [] {
      NothingEmitted(nConfirm, nClear, shelfId, h, k);
    } else {
      var front, last := updates[..|updates| - 1], updates[|updates| - 1];
      EmissionsPerCell(nConfirm, nClear, shelfId, h, front, k);
      OneMore(nConfirm, nClear, shelfId, h, updates, k);
      EmissionsOne(nConfirm, nClear, HistoryOf(h, k), Observe(nConfirm, nClear, shelfId, h, front), KeyOf(shelfId, last), last, k);
      Regroup(HistoryOf(h, k), StatesFor(shelfId, front, k), if KeyOf(shelfId, last) == k then [last.state] else []);
    }
  }

  lemma {:induction false} NothingEmitted(nConfirm: nat, nClear: nat, shelfId: string, h: Histories, k: CellKey)
    ensures var o := Observe(nConfirm, nClear, shelfId, h, []);
      && Accounted(nConfirm, nClear, HistoryOf(h, k), o, k)
      && HistoryOf(o.histories, k) == HistoryOf(h, k) + StatesFor(shelfId, [], k)
  {
    hide RaiseCount, ClearCount;
  }

  lemma {:induction false} OneMore(nConfirm: nat, nClear: nat, shelfId: string, h: Histories, updates: seq<CellUpdate>,
                                   k: CellKey)
    requires updates != []
    ensures var front, last := updates[..|updates| - 1], updates[|updates| - 1];
      && Observe(nConfirm, nClear, shelfId, h, updates)
        == ObserveOne(nConfirm, nClear, Observe(nConfirm, nClear, shelfId, h, front), KeyOf(shelfId, last), last)
      && StatesFor(shelfId, updates, k) == StatesFor(shelfId, front, k) + (if KeyOf(shelfId, last) == k then [last.state] else [])
  {
    hide ObserveOne;
  }

  lemma {:induction false} CountsGrow(nConfirm: nat, nClear: nat, h: seq<CellState>, s: CellState)
    ensures RaiseCount(Empty, nConfirm, h + [s])
      == RaiseCount(Empty, nConfirm, h) + (if Raises(Empty, nConfirm, h + [s]) then 1 else 0)
    ensures RaiseCount(Misplaced, nConfirm, h + [s])
      == RaiseCount(Misplaced, nConfirm, h) + (if Raises(Misplaced, nConfirm, h + [s]) then 1 else 0)
    ensures ClearCount(nConfirm, nClear, h + [s])
      == ClearCount(nConfirm, nClear, h) + (if Clears(nConfirm, nClear, h + [s]) then 1 else 0)
  {
    hide Raises, Clears;
    assert (h + [s])[..|h|] == h;
  }

  lemma {:induction false} EmissionsOne(nConfirm: nat, nClear: nat, before: seq<CellState>, o: Outcome, key: CellKey,
                                        u: CellUpdate, k: CellKey)
    requires Accounted(nConfirm, nClear, before, o, k)
    ensures var p := ObserveOne(nConfirm, nClear, o, key, u);
      && Accounted(nConfirm, nClear, before, p, k)
      && HistoryOf(p.histories, k) == HistoryOf(o.histories, k) + (if key == k then [u.state] else [])
  {
    hide Raises, Clears, Counter, RaiseCount, ClearCount, AlertsFor, ClearsFor, Emit;
    var h := HistoryOf(o.histories, key) + [u.state];
    CountsGrow(nConfirm, nClear, HistoryOf(o.histories, key), u.state);
    var oos := AlertData(key, OosAlert, u.expectedSku, None, Counter(Empty, h));
    var misplaced := AlertData(key, MisplacementAlert, u.expectedSku, u.detectedSku, Counter(Misplaced, h));
    AlertsForEmit(o.oos, Raises(Empty, nConfirm, h), oos, OosAlert, k);
    AlertsForEmit(o.oos, Raises(Empty, nConfirm, h), oos, MisplacementAlert, k);
    AlertsForEmit(o.misplaced, Raises(Misplaced, nConfirm, h), misplaced, OosAlert, k);
    AlertsForEmit(o.misplaced, Raises(Misplaced, nConfirm, h), misplaced, MisplacementAlert, k);
    ClearsForEmit(o.cleared, Clears(nConfirm, nClear, h), key, k);
  }

  /** The alert is the one that update `i` calls for: it names the update's cell and products, and the length of the run. */
  predicate NamesUpdate(shelfId: string, h: Histories, updates: seq<CellUpdate>, i: nat, a: AlertData) {
    && i < |updates| && IsAbout(shelfId, updates[i], a.cell) && a.expectedSku == updates[i].expectedSku
    && match a.kind
       case OosAlert =>
         a.detectedSku.None? && a.consecutiveFrames == CountAt(Empty, shelfId, h, updates, i, a.cell)
       case MisplacementAlert =>
         a.detectedSku == updates[i].detectedSku && a.consecutiveFrames == CountAt(Misplaced, shelfId, h, updates, i, a.cell)
  }

  /** The counter of a cell's history up to update `i`. */
  function CountAt(s: CellState, shelfId: string, h: Histories, updates: seq<CellUpdate>, i: nat, k: CellKey): nat
    requires i < |updates|
  {
    Counter(s, HistoryOf(h, k) + StatesFor(shelfId, updates[..i + 1], k))
  }

  ghost predicate AllNamed(shelfId: string, h: Histories, updates: seq<CellUpdate>, alerts: seq<AlertData>, kind: AlertKind) {
    forall j | 0 <= j < |alerts| :: alerts[j].kind == kind && IsNamed(shelfId, h, updates, alerts[j])
  }

  ghost predicate IsNamed(shelfId: string, h: Histories, updates: seq<CellUpdate>, a: AlertData) {
    exists i: nat :: NamesUpdate(shelfId, h, updates, i, a)
  }

  lemma {:induction false} StillNamed(shelfId: string, h: Histories, updates: seq<CellUpdate>, a: AlertData)
    requires updates != [] && IsNamed(shelfId, h, updates[..|updates| - 1], a)
    ensures IsNamed(shelfId, h, updates, a)
  {
    var front := updates[..|updates| - 1];
    var i: nat :| NamesUpdate(shelfId, h, front, i, a);
    assert front[..i + 1] == updates[..i + 1];
    hide Counter, StatesFor;
    assert NamesUpdate(shelfId, h, updates, i, a);
  }

  lemma {:induction false} LastNamed(nConfirm: nat, nClear: nat, shelfId: string, h: Histories, updates: seq<CellUpdate>,
                                     a: AlertData, kind: AlertKind)
    requires updates != []
    requires var front, u := updates[..|updates| - 1], updates[|updates| - 1];
      var now := HistoryOf(Observe(nConfirm, nClear, shelfId, h, front).histories, KeyOf(shelfId, u)) + [u.state];
      a == match kind
        case OosAlert => AlertData(KeyOf(shelfId, u), kind, u.expectedSku, None, Counter(Empty, now))
        case MisplacementAlert => AlertData(KeyOf(shelfId, u), kind, u.expectedSku, u.detectedSku, Counter(Misplaced, now))
    ensures IsNamed(shelfId, h, updates, a)
  {
    var front, u := updates[..|updates| - 1], updates[|updates| - 1];
    var k := KeyOf(shelfId, u);
    EmissionsPerCell(nConfirm, nClear, shelfId, h, front, k);
    OneMore(nConfirm, nClear, shelfId, h, updates, k);
    Regroup(HistoryOf(h, k), StatesFor(shelfId, front, k), [u.state]);
    assert updates[..|updates|] == updates;
    hide Counter, StatesFor, Observe, HistoryOf, Raises, Clears;
    assert NamesUpdate(shelfId, h, updates, |updates| - 1, a);
  }

  /** Each alert names the cell, the products and the length of the run of the update that raised it. */
  lemma {:induction false} AlertsNamed(nConfirm: nat, nClear: nat, shelfId: string, h: Histories, updates: seq<CellUpdate>)
    ensures var o := Observe(nConfirm, nClear, shelfId, h, updates);
      AllNamed(shelfId, h, updates, o.oos, OosAlert) && AllNamed(shelfId, h, updates, o.misplaced, MisplacementAlert)
  {
    if updates != [] {
      var front, u := updates[..|updates| - 1], updates[|updates| - 1];
      var before := Observe(nConfirm, nClear, shelfId, h, front);
      var o := Observe(nConfirm, nClear, shelfId, h, updates);
      AlertsNamed(nConfirm, nClear, shelfId, h, front);
      hide Observe, Raises, Clears, Counter, IsNamed, HistoryOf;
      NamedOn(nConfirm, nClear, shelfId, h, updates, before.oos, o.oos, OosAlert);
      NamedOn(nConfirm, nClear, shelfId, h, updates, before.misplaced, o.misplaced, MisplacementAlert);
    }
  }

  lemma {:induction false} NamedOn(nConfirm: nat, nClear: nat, shelfId: string, h: Histories, updates: seq<CellUpdate>,
                                   earlier: seq<AlertData>, alerts: seq<AlertData>, kind: AlertKind)
    requires updates != [] && AllNamed(shelfId, h, updates[..|updates| - 1], earlier, kind)
    requires var o := Observe(nConfirm, nClear, shelfId, h, updates[..|updates| - 1]);
      var p := Observe(nConfirm, nClear, shelfId, h, updates);
      if kind.OosAlert? then earlier == o.oos && alerts == p.oos else earlier == o.misplaced && alerts == p.misplaced
    ensures AllNamed(shelfId, h, updates, alerts, kind)
  {
    hide Raises, Clears, Counter, IsNamed, HistoryOf;
    forall j | 0 <= j < |alerts|
      ensures alerts[j].kind == kind && IsNamed(shelfId, h, updates, alerts[j])
    {
      if j < |earlier| {
        assert alerts[j] == earlier[j];
        StillNamed(shelfId, h, updates, alerts[j]);
      } else {
        LastNamed(nConfirm, nClear, shelfId, h, updates, alerts[j], kind);
      }
    }
  }

  // ---------------------------------------------------------------------------
  // One cell alone over frames, shelves and timeouts
  // ---------------------------------------------------------------------------

  datatype ShelfFrame = ShelfFrame(shelfId: string, updates: seq<CellUpdate>, now: int)

  datatype Rules = Rules(nConfirm: nat, nClear: nat, timeout: int)

  /** What is known of a cell, and how often it has raised and cleared. */
  datatype CellLife = CellLife(history: seq<CellState>, updated: Option<int>, oos: int, misplaced: int, cleared: int)

  /** A frame adds its own shelf's observations; then a cell not seen within the timeout is forgotten. */
  function LifeStep(r: Rules, life: CellLife, f: ShelfFrame, k: CellKey): CellLife {
    var seen := StatesFor(f.shelfId, f.updates, k);
    var h, updated := life.history + seen, if seen == [] then life.updated else Some(f.now);
    var kept := updated.Some? && f.now - updated.value <= r.timeout;
    CellLife(
      if kept then h else [],
      if kept then updated else None,
      life.oos + RaiseCount(Empty, r.nConfirm, h) - RaiseCount(Empty, r.nConfirm, life.history),
      life.misplaced + RaiseCount(Misplaced, r.nConfirm, h) - RaiseCount(Misplaced, r.nConfirm, life.history),
      life.cleared + ClearCount(r.nConfirm, r.nClear, h) - ClearCount(r.nConfirm, r.nClear, life.history))
  }

  function CellRun(r: Rules, frames: seq<ShelfFrame>, k: CellKey): CellLife {
    if frames == [] then CellLife([], None, 0, 0, 0)
    else LifeStep(r, CellRun(r, frames[..|frames| - 1], k), frames[|frames| - 1], k)
  }

  function TimeOf(times: map<CellKey, int>, k: CellKey): Option<int> {
    if k in times then Some(times[k]) else None
  }

  /** The tables and the emissions so far show a cell's own life. */
  ghost predicate Lives(r: Rules, frames: seq<ShelfFrame>, h: Histories, times: map<CellKey, int>, alerts: seq<AlertData>,
                        cleared: seq<CellKey>, k: CellKey) {
    CellRun(r, frames, k) == CellLife(HistoryOf(h, k), TimeOf(times, k), AlertsFor(alerts, OosAlert, k),
                                      AlertsFor(alerts, MisplacementAlert, k), ClearsFor(cleared, k))
  }

  lemma {:induction false} TimesPerCell(shelfId: string, times: map<CellKey, int>, updates: seq<CellUpdate>, now: int,
                                        k: CellKey)
    ensures TimeOf(TimesAfter(shelfId, times, updates, now), k)
      == if StatesFor(shelfId, updates, k) == [] then TimeOf(times, k) else Some(now)
  {
    if updates != [] {
      TimesPerCell(shelfId, times, updates[..|updates| - 1], now, k);
    }
  }

  function UnexpiredTimes(times: map<CellKey, int>, since: int): map<CellKey, int> {
    map k | k in times && times[k] >= since :: times[k]
  }

  lemma {:induction false} UnexpiredPerCell(h: Histories, times: map<CellKey, int>, since: int, k: CellKey)
    requires h.Keys == times.Keys
    ensures var kept := TimeOf(times, k).Some? && TimeOf(times, k).value >= since;
      && HistoryOf(Unexpired(h, times, since), k) == (if kept then HistoryOf(h, k) else [])
      && TimeOf(UnexpiredTimes(times, since), k) == (if kept then TimeOf(times, k) else None)
  {
  }

  /** One more frame: every cell's life goes on. */
  lemma {:induction false} LivesOn(r: Rules, frames: seq<ShelfFrame>, f: ShelfFrame, h: Histories,
                                   times: map<CellKey, int>, alerts: seq<AlertData>, cleared: seq<CellKey>, k: CellKey)
    requires Lives(r, frames, h, times, alerts, cleared, k)
    requires Observe(r.nConfirm, r.nClear, f.shelfId, h, f.updates).histories.Keys
      == TimesAfter(f.shelfId, times, f.updates, f.now).Keys
    ensures var o := Observe(r.nConfirm, r.nClear, f.shelfId, h, f.updates);
      var after := TimesAfter(f.shelfId, times, f.updates, f.now);
      Lives(r, frames + [f], Unexpired(o.histories, after, f.now - r.timeout), UnexpiredTimes(after, f.now - r.timeout),
            alerts + (o.oos + o.misplaced), cleared + o.cleared, k)
  {
    hide Observe, TimesAfter, RaiseCount, ClearCount, AlertsFor, ClearsFor, Unexpired, UnexpiredTimes, HistoryOf, StatesFor;
    var o := Observe(r.nConfirm, r.nClear, f.shelfId, h, f.updates);
    assert (frames + [f])[..|frames|] == frames;
    EmissionsPerCell(r.nConfirm, r.nClear, f.shelfId, h, f.updates, k);
    TimesPerCell(f.shelfId, times, f.updates, f.now, k);
    UnexpiredPerCell(o.histories, TimesAfter(f.shelfId, times, f.updates, f.now), f.now - r.timeout, k);
    AlertsConcat(alerts, o.oos + o.misplaced, OosAlert, k);
    AlertsConcat(alerts, o.oos + o.misplaced, MisplacementAlert, k);
    AlertsConcat(o.oos, o.misplaced, OosAlert, k);
    AlertsConcat(o.oos, o.misplaced, MisplacementAlert, k);
    ClearsConcat(cleared, o.cleared, k);
  }

  // ---------------------------------------------------------------------------
  // The manager
  // ---------------------------------------------------------------------------

  class TemporalConsensusManager {
    const nConfirm: nat
    const nClear: nat
    const stateTimeout: int
    var cells: map<CellKey, CellTemporalState>

    ghost predicate Valid()
      reads this, cells.Values
    {
      forall k | k in cells :: cells[k].key == k && cells[k].Valid()
    }

    ghost function Observed(): Histories
      reads this, cells.Values
    {
      map k | k in cells :: cells[k].observed
    }

    ghost function UpdateTimes(): map<CellKey, int>
      reads this, cells.Values
    {
      map k | k in cells :: cells[k].lastUpdateTime
    }

    constructor (nConfirm: nat, nClear: nat, stateTimeout: int)
      ensures Valid() && Observed() == map[] && cells == map[]
      ensures this.nConfirm == nConfirm && this.nClear == nClear && this.stateTimeout == stateTimeout
    {
      this.nConfirm, this.nClear, this.stateTimeout := nConfirm, nClear, stateTimeout;
      cells := map[];
    }

    /** The record of cell `k`, made if there is none. */
    method CellAt(k: CellKey, expectedSku: string, now: int) returns (cell: CellTemporalState)
      requires Valid()
      modifies this
      ensures Valid() && k in cells && cells[k] == cell && fresh(cells.Values - old(cells.Values))
      ensures cell.observed == HistoryOf(old(Observed()), k) && cell.currentState == Current(cell.observed)
      ensures Observed() == old(Observed())[k := HistoryOf(old(Observed()), k)]
      ensures UpdateTimes() == old(UpdateTimes())[k := cell.lastUpdateTime]
    {
      hide CellTemporalState.Valid;
      if k !in cells {
        cell := AddCell(k, expectedSku, now);
        return;
      }
      cell := cells[k];
      CurrentOfValid(cell);
      assert Observed() == Observed()[k := cell.observed];
      assert UpdateTimes() == UpdateTimes()[k := cell.lastUpdateTime];
    }

    lemma {:induction false} CurrentOfValid(cell: CellTemporalState)
      requires cell.Valid()
      ensures cell.currentState == Current(cell.observed)
    {
    }

    method AddCell(k: CellKey, expectedSku: string, now: int) returns (cell: CellTemporalState)
      requires Valid() && k !in cells
      modifies this
      ensures Valid() && cells == old(cells)[k := cell] && fresh(cell)
      ensures cell.observed == [] && cell.currentState == Current(cell.observed) && cell.lastUpdateTime == now
      ensures Observed() == old(Observed())[k := []]
      ensures UpdateTimes() == old(UpdateTimes())[k := now]
    {
      hide CellTemporalState.Valid;
      cell := new CellTemporalState(k, expectedSku, now);
      CurrentOfValid(cell);
      cells := cells[k := cell];
      assert forall j | j in old(cells) :: j in cells && cells[j] == old(cells)[j];
    }

    /** One cell's observation and the alerts it gives rise to. */
    method ObserveCell(k: CellKey, u: CellUpdate, now: int, ghost before: Outcome)
      returns (oos: seq<AlertData>, misplaced: seq<AlertData>, cleared: seq<CellKey>)
      requires Valid() && before.histories == Observed()
      modifies this, cells.Values
      ensures Valid() && fresh(cells.Values - old(cells.Values))
      ensures Outcome(Observed(), before.oos + oos, before.misplaced + misplaced, before.cleared + cleared)
        == ObserveOne(nConfirm, nClear, before, k, u)
      ensures UpdateTimes() == old(UpdateTimes())[k := now]
    {
      hide *;
      var cell := CellAt(k, u.expectedSku, now);
      oos, misplaced, cleared := ObserveKnownCell(k, cell, u, now);
      ObserveOneMeans(nConfirm, nClear, before, k, u);
    }

    method ObserveKnownCell(k: CellKey, cell: CellTemporalState, u: CellUpdate, now: int)
      returns (oos: seq<AlertData>, misplaced: seq<AlertData>, cleared: seq<CellKey>)
      requires Valid() && k in cells && cells[k] == cell
      requires cell.currentState == Current(cell.observed)
      modifies cell
      ensures Valid()
      ensures var h := old(cell.observed) + [u.state];
        && Observed() == old(Observed())[k := h]
        && oos == Emit(Raises(Empty, nConfirm, h), AlertData(k, OosAlert, u.expectedSku, None, Counter(Empty, h)))
        && misplaced == Emit(Raises(Misplaced, nConfirm, h),
                             AlertData(k, MisplacementAlert, u.expectedSku, u.detectedSku, Counter(Misplaced, h)))
        && cleared == Emit(Clears(nConfirm, nClear, h), k)
      ensures UpdateTimes() == old(UpdateTimes())[k := now]
    {
      hide *;
      var previousState := cell.currentState;
      ghost var h := cell.observed + [u.state];
      assert h[..|h| - 1] == cell.observed;
      Advance(k, cell, u, now);
      oos, misplaced, cleared := Judge(k, cell, u, previousState, h);
    }

    method Advance(k: CellKey, cell: CellTemporalState, u: CellUpdate, now: int)
      requires Valid() && k in cells && cells[k] == cell
      modifies cell
      ensures Valid() && cell.Valid() && cell.observed == old(cell.observed) + [u.state]
      ensures Observed() == old(Observed())[k := cell.observed]
      ensures UpdateTimes() == old(UpdateTimes())[k := now]
    {
      hide CellTemporalState.Valid;
      cell.Update(u.state, u.detectedSku, now);
    }

    method Judge(k: CellKey, cell: CellTemporalState, u: CellUpdate, previousState: CellState,
                 ghost h: seq<CellState>)
      returns (oos: seq<AlertData>, misplaced: seq<AlertData>, cleared: seq<CellKey>)
      requires cell.Valid() && cell.observed == h && h != []
      requires previousState == Current(h[..|h| - 1])
      ensures oos == Emit(Raises(Empty, nConfirm, h), AlertData(k, OosAlert, u.expectedSku, None, Counter(Empty, h)))
      ensures misplaced == Emit(Raises(Misplaced, nConfirm, h),
        AlertData(k, MisplacementAlert, u.expectedSku, u.detectedSku, Counter(Misplaced, h)))
      ensures cleared == Emit(Clears(nConfirm, nClear, h), k)
    {
      oos, misplaced, cleared := [], [], [];
      if cell.ShouldTriggerOosAlert(nConfirm) {
        if previousState != Empty || cell.consecutiveEmptyFrames == nConfirm {
          oos := [AlertData(k, OosAlert, u.expectedSku, None, cell.consecutiveEmptyFrames)];
        }
      }
      if cell.ShouldTriggerMisplacementAlert(nConfirm) {
        if previousState != Misplaced || cell.consecutiveMisplacedFrames == nConfirm {
          misplaced := [AlertData(k, MisplacementAlert, u.expectedSku, u.detectedSku, cell.consecutiveMisplacedFrames)];
        }
      }
      if cell.ShouldClearAlert(nClear) {
        var hadOosAlert := HadAlert(Empty, cell.stateHistory, nConfirm, nClear);
        var hadMisplacementAlert := HadAlert(Misplaced, cell.stateHistory, nConfirm, nClear);
        if hadOosAlert || hadMisplacementAlert {
          cleared := [k];
        }
      }
    }

    /** Forget the cells not updated for longer than the timeout. */
    method CleanupStaleStates(now: int)
      requires Valid()
      modifies this
      ensures Valid()
      ensures cells == map k | k in old(cells) && now - old(cells)[k].lastUpdateTime <= stateTimeout :: old(cells)[k]
      ensures Observed() == Unexpired(old(Observed()), old(UpdateTimes()), now - stateTimeout)
      ensures UpdateTimes() == UnexpiredTimes(old(UpdateTimes()), now - stateTimeout)
    {
      hide CellTemporalState.Valid;
      RemoveStale(now);
    }

    method RemoveStale(now: int)
      modifies this`cells
      ensures cells == map k | k in old(cells) && now - old(cells)[k].lastUpdateTime <= stateTimeout :: old(cells)[k]
    {
      var left := cells.Keys;
      while left != {}
        invariant left <= old(cells).Keys
        invariant forall k | k in cells :: k in old(cells) && cells[k] == old(cells)[k]
        invariant forall k | k in old(cells) ::
          k in cells <==> k in left || now - old(cells)[k].lastUpdateTime <= stateTimeout
      {
        var k :| k in left;
        if now - cells[k].lastUpdateTime > stateTimeout {
          cells := cells - {k};
        }
        left := left - {k};
      }
    }

    /** A shelf's frame: every update is observed in turn, then stale cells are forgotten. */
    method UpdateCellStates(shelfId: string, updates: seq<CellUpdate>, now: int)
      returns (newAlerts: seq<AlertData>, cleared: seq<CellKey>)
      requires Valid()
      modifies this, cells.Values
      ensures Valid() && fresh(cells.Values - old(cells.Values))
      ensures var o := Observe(nConfirm, nClear, shelfId, old(Observed()), updates);
        && newAlerts == o.oos + o.misplaced && cleared == o.cleared
        && Observed() == Unexpired(o.histories, TimesAfter(shelfId, old(UpdateTimes()), updates, now), now - stateTimeout)
        && o.histories.Keys == TimesAfter(shelfId, old(UpdateTimes()), updates, now).Keys
      ensures UpdateTimes() == UnexpiredTimes(TimesAfter(shelfId, old(UpdateTimes()), updates, now), now - stateTimeout)
    {
      hide ObserveOne, Observe, TimesAfter, CellTemporalState.Valid, Unexpired, UnexpiredTimes;
      var oos, misplaced;
      oos, misplaced, cleared := ObserveAll(shelfId, updates, now);
      assert Observed().Keys == UpdateTimes().Keys;
      newAlerts := oos + misplaced;
      CleanupStaleStates(now);
    }

    method ObserveAll(shelfId: string, updates: seq<CellUpdate>, now: int)
      returns (oos: seq<AlertData>, misplaced: seq<AlertData>, cleared: seq<CellKey>)
      requires Valid()
      modifies this, cells.Values
      ensures Valid() && fresh(cells.Values - old(cells.Values))
      ensures Outcome(Observed(), oos, misplaced, cleared)
        == Observe(nConfirm, nClear, shelfId, old(Observed()), updates)
      ensures UpdateTimes() == TimesAfter(shelfId, old(UpdateTimes()), updates, now)
    {
      oos, misplaced, cleared := [], [], [];
      for i := 0 to |updates|
        invariant Valid() && fresh(cells.Values - old(cells.Values))
        invariant Outcome(Observed(), oos, misplaced, cleared)
          == Observe(nConfirm, nClear, shelfId, old(Observed()), updates[..i])
        invariant UpdateTimes() == TimesAfter(shelfId, old(UpdateTimes()), updates[..i], now)
      {
        hide *;
        ghost var before, times, o := old(Observed()), old(UpdateTimes()), Outcome(Observed(), oos, misplaced, cleared);
        ObserveStep(nConfirm, nClear, shelfId, before, updates, i, times, now);
        var a, b, c := ObserveCell(KeyOf(shelfId, updates[i]), updates[i], now, o);
        oos, misplaced, cleared := oos + a, misplaced + b, cleared + c;
        assert Outcome(Observed(), oos, misplaced, cleared) == ObserveOne(nConfirm, nClear, o, KeyOf(shelfId, updates[i]), updates[i]);
      }
      assert updates[..|updates|] == updates;
    }
  }

  lemma {:induction false} NothingLived(r: Rules, k: CellKey)
    ensures Lives(r, [], map[], map[], [], [], k)
  {
  }

  /** Over any frames of any shelves, and through all timeouts, every cell lives exactly its own life. */
  method TrackShelves(r: Rules, frames: seq<ShelfFrame>)
    returns (manager: TemporalConsensusManager, alerts: seq<AlertData>, cleared: seq<CellKey>)
    ensures manager.Valid()
    ensures forall k: CellKey :: Lives(r, frames, manager.Observed(), manager.UpdateTimes(), alerts, cleared, k)
  {
    hide Lives, CellTemporalState.Valid, Observe, TimesAfter, Unexpired, UnexpiredTimes;
    manager := new TemporalConsensusManager(r.nConfirm, r.nClear, r.timeout);
    alerts, cleared := [], [];
    forall k: CellKey
      ensures Lives(r, [], map[], map[], [], [], k)
    {
      NothingLived(r, k);
    }
    for i := 0 to |frames|
      invariant manager.Valid() && fresh(manager) && fresh(manager.cells.Values)
      invariant manager.nConfirm == r.nConfirm && manager.nClear == r.nClear && manager.stateTimeout == r.timeout
      invariant forall k: CellKey :: Lives(r, frames[..i], manager.Observed(), manager.UpdateTimes(), alerts, cleared, k)
    {
      ghost var h, times := manager.Observed(), manager.UpdateTimes();
      var newAlerts, newCleared := manager.UpdateCellStates(frames[i].shelfId, frames[i].updates, frames[i].now);
      assert frames[..i] + [frames[i]] == frames[..i + 1];
      ghost var before, clearedBefore, past := alerts, cleared, frames[..i + 1];
      alerts, cleared := alerts + newAlerts, cleared + newCleared;
      forall k: CellKey
        ensures Lives(r, past, manager.Observed(), manager.UpdateTimes(), alerts, cleared, k)
      {
        LivesOn(r, frames[..i], frames[i], h, times, before, clearedBefore, k);
      }
    }
    assert frames[..|frames|] == frames;
  }
}
