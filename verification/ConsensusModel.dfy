/**
 When a shelf cell raises or clears an alert, stated on the cell's whole observation history.
 The tracker itself only keeps three counters and the last ten observations.
 */
module ConsensusModel {

  datatype CellState = Ok | OutOfStock | Misplaced | Empty | Unknown

  const MAX_HISTORY := 10
  const OSCILLATION_WINDOW := 5

  /** The states the cell-state computation produces. */
  predicate IsVerdict(s: CellState) {
    s.Ok? || s.Misplaced? || s.Empty?
  }

  predicate Verdicts(h: seq<CellState>) {
    forall i | 0 <= i < |h| :: IsVerdict(h[i])
  }

  function LastOf(h: seq<CellState>, n: nat): (r: seq<CellState>)
    ensures |r| == if |h| <= n then |h| else n
  {
    if |h| <= n then h else h[|h| - n..]
  }

  /** The consecutive-frame counter for `s`: verdicts other than `s` reset it, other states do not. */
  function Counter(s: CellState, h: seq<CellState>): nat {
    if h == [] then 0
    else
      var last, before := h[|h| - 1], Counter(s, h[..|h| - 1]);
      if last == s && IsVerdict(s) then before + 1
      else if IsVerdict(last) then 0
      else before
  }

  /** The length of the run of `s` at the end of the history. */
  function TrailingRun(s: CellState, h: seq<CellState>): nat {
    if h == [] || h[|h| - 1] != s then 0 else TrailingRun(s, h[..|h| - 1]) + 1
  }

  function States(h: seq<CellState>): set<CellState> {
    set s | s in h
  }

  /** More than two different states among the last five of the kept observations. */
  predicate Oscillating(kept: seq<CellState>) {
    |kept| >= OSCILLATION_WINDOW && |States(LastOf(kept, OSCILLATION_WINDOW))| > 2
  }

  function Current(h: seq<CellState>): CellState {
    if h == [] then Unknown else h[|h| - 1]
  }

  /** The alert test for `s` made right after the last observation of `h`. */
  predicate Raises(s: CellState, nConfirm: nat, h: seq<CellState>)
    requires h != []
  {
    && Counter(s, h) >= nConfirm
    && !Oscillating(LastOf(h, MAX_HISTORY))
    && (Current(h[..|h| - 1]) != s || Counter(s, h) == nConfirm)
  }

  function Count(s: CellState, h: seq<CellState>): nat {
    if h == [] then 0 else Count(s, h[..|h| - 1]) + (if h[|h| - 1] == s then 1 else 0)
  }

  /** The observations before the last `nClear` kept ones, as far back as `nConfirm` more. */
  function ConfirmWindow(kept: seq<CellState>, nConfirm: nat, nClear: nat): seq<CellState>
    requires |kept| >= nConfirm + nClear
  {
    // A slice that ends at minus zero is empty.
    if nClear == 0 then [] else kept[|kept| - (nConfirm + nClear)..|kept| - nClear]
  }

  predicate HadAlert(s: CellState, kept: seq<CellState>, nConfirm: nat, nClear: nat) {
    |kept| >= nConfirm + nClear && Count(s, ConfirmWindow(kept, nConfirm, nClear)) >= nConfirm
  }

  /** The clear test made right after the last observation of `h`. */
  predicate Clears(nConfirm: nat, nClear: nat, h: seq<CellState>) {
    && Counter(Ok, h) >= nClear
    && (HadAlert(Empty, LastOf(h, MAX_HISTORY), nConfirm, nClear)
        || HadAlert(Misplaced, LastOf(h, MAX_HISTORY), nConfirm, nClear))
  }

  // ---------------------------------------------------------------------------
  // Counters are run lengths
  // ---------------------------------------------------------------------------

  lemma {:induction false} CounterIsRun(s: CellState, h: seq<CellState>)
    requires Verdicts(h) && IsVerdict(s)
    ensures Counter(s, h) == TrailingRun(s, h)
  {
    if h != [] {
      CounterIsRun(s, h[..|h| - 1]);
    }
  }

  /** The trailing run is the longest suffix made of `s` only. */
  lemma {:induction false} RunMeans(s: CellState, h: seq<CellState>)
    ensures TrailingRun(s, h) <= |h|
    ensures forall i | |h| - TrailingRun(s, h) <= i < |h| :: h[i] == s
    ensures TrailingRun(s, h) < |h| ==> h[|h| - TrailingRun(s, h) - 1] != s
  {
    if h != [] && h[|h| - 1] == s {
      RunMeans(s, h[..|h| - 1]);
    }
  }

  lemma {:induction false} RunAtLeast(s: CellState, h: seq<CellState>, n: nat)
    requires n <= |h| && forall i | |h| - n <= i < |h| :: h[i] == s
    ensures TrailingRun(s, h) >= n
  {
    RunMeans(s, h);
    var k := |h| - TrailingRun(s, h) - 1;
    assert k >= 0 ==> h[k] != s;
  }

  // ---------------------------------------------------------------------------
  // Oscillation
  // ---------------------------------------------------------------------------

  lemma {:induction false} LastOfLast(h: seq<CellState>)
    ensures |h| >= OSCILLATION_WINDOW ==>
      LastOf(LastOf(h, MAX_HISTORY), OSCILLATION_WINDOW) == h[|h| - OSCILLATION_WINDOW..]
    ensures |LastOf(h, MAX_HISTORY)| >= OSCILLATION_WINDOW <==> |h| >= OSCILLATION_WINDOW
  {
  }

  const VERDICTS: set<CellState> := {Ok, Misplaced, Empty}

  lemma {:induction false} ThreeStates(s: set<CellState>)
    requires s <= VERDICTS
    ensures |s| > 2 <==> s == VERDICTS
  {
    assert |VERDICTS| == 3;
    SubsetSmaller(s, VERDICTS);
  }

  lemma {:induction false} SubsetSmaller(s: set<CellState>, t: set<CellState>)
    requires s <= t
    ensures |s| <= |t| && (|s| == |t| ==> s == t)
  {
    assert t == s + (t - s);
  }

  /** All three verdicts occur among the last five observations. */
  predicate Unsettled(h: seq<CellState>) {
    |h| >= 5 && VERDICTS <= States(h[|h| - 5..])
  }

  /** Five verdicts oscillate exactly when all three verdicts occur among them. */
  lemma {:induction false} OscillatingMeans(h: seq<CellState>)
    requires Verdicts(h)
    ensures Oscillating(LastOf(h, MAX_HISTORY)) <==> Unsettled(h)
  {
    LastOfLast(h);
    if |h| >= OSCILLATION_WINDOW {
      ThreeStates(States(h[|h| - OSCILLATION_WINDOW..]));
    }
  }

  // ---------------------------------------------------------------------------
  // Raising
  // ---------------------------------------------------------------------------

  /** An alert is raised at the `nConfirm`-th frame of a run, unless the cell is unsettled, and nowhere else. */
  lemma {:induction false} RaiseExactly(s: CellState, nConfirm: nat, h: seq<CellState>)
    requires h != [] && Verdicts(h) && nConfirm >= 1 && (s.Empty? || s.Misplaced?)
    ensures Raises(s, nConfirm, h) <==> TrailingRun(s, h) == nConfirm && !Unsettled(h)
  {
    CounterIsRun(s, h);
    OscillatingMeans(h);
    var front := h[..|h| - 1];
    if TrailingRun(s, h) >= nConfirm && Current(front) != s {
      assert TrailingRun(s, front) == 0;
    }
  }

  /** Two alerts for the same cell and kind are separated by an observation of another state. */
  lemma {:induction false} OneRaisePerRun(s: CellState, nConfirm: nat, h: seq<CellState>, i: nat, j: nat)
    requires Verdicts(h) && nConfirm >= 1 && (s.Empty? || s.Misplaced?)
    requires 0 < i < j <= |h| && Raises(s, nConfirm, h[..i]) && Raises(s, nConfirm, h[..j])
    ensures exists k | i <= k < j :: h[k] != s
  {
    RaiseExactly(s, nConfirm, h[..i]);
    RaiseExactly(s, nConfirm, h[..j]);
    if forall k | i <= k < j :: h[k] == s {
      RunMeans(s, h[..i]);
      var n := TrailingRun(s, h[..i]) + (j - i);
      forall m | j - n <= m < j
        ensures h[..j][m] == s
      {
        assert m < i ==> h[m] == h[..i][m];
      }
      RunAtLeast(s, h[..j], n);
    }
  }

  /** With four or more confirming frames nothing suppresses the alert of a run. */
  lemma {:induction false} LongConfirmNeverSuppressed(s: CellState, nConfirm: nat, h: seq<CellState>)
    requires h != [] && Verdicts(h) && nConfirm >= 4 && (s.Empty? || s.Misplaced?)
    ensures Raises(s, nConfirm, h) <==> TrailingRun(s, h) == nConfirm
  {
    RaiseExactly(s, nConfirm, h);
    if TrailingRun(s, h) == nConfirm && |h| >= OSCILLATION_WINDOW {
      RunMeans(s, h);
      var five := h[|h| - OSCILLATION_WINDOW..];
      assert forall m | 1 <= m < 5 :: five[m] == s;
      ThirdVerdict(five[0], s);
    }
  }

  /** Every run that reaches four or more confirming frames does raise its alert, at its `nConfirm`-th frame. */
  lemma {:induction false} LongConfirmAlwaysRaises(s: CellState, nConfirm: nat, h: seq<CellState>)
    requires Verdicts(h) && nConfirm >= 4 && (s.Empty? || s.Misplaced?)
    requires TrailingRun(s, h) >= nConfirm
    ensures TrailingRun(s, h) <= |h|
    ensures Raises(s, nConfirm, h[..|h| - TrailingRun(s, h) + nConfirm])
  {
    RunMeans(s, h);
    var i := |h| - TrailingRun(s, h) + nConfirm;
    var early := h[..i];
    assert forall m | i - nConfirm <= m < i :: early[m] == h[m];
    RunAtLeast(s, early, nConfirm);
    RunMeans(s, early);
    assert i > nConfirm ==> early[i - nConfirm - 1] == h[i - nConfirm - 1] != s;
    LongConfirmNeverSuppressed(s, nConfirm, early);
  }

  /** Two states leave a verdict out. */
  lemma {:induction false} ThirdVerdict(a: CellState, b: CellState)
    ensures exists c: CellState :: c in VERDICTS && c != a && c != b
  {
    assert Ok in VERDICTS && Misplaced in VERDICTS && Empty in VERDICTS;
  }

  /**
   With three confirming frames the alert of a run is suppressed exactly when the two observations
   before the run are one each of the other two verdicts.
   */
  lemma {:induction false} ThreeConfirmSuppression(s: CellState, h: seq<CellState>)
    requires h != [] && Verdicts(h) && (s.Empty? || s.Misplaced?)
    ensures Raises(s, 3, h) <==>
      TrailingRun(s, h) == 3
      && !(|h| >= 5 && {h[|h| - 5], h[|h| - 4]} == VERDICTS - {s})
  {
    RaiseExactly(s, 3, h);
    hide Raises, TrailingRun, States;
    if TrailingRun(s, h) == 3 && |h| >= 5 {
      RunMeans(s, h);
      FiveStates(s, h);
      var pair := {h[|h| - 5], h[|h| - 4]};
      assert pair <= VERDICTS;
      SpareTwo(pair, s);
      if VERDICTS <= pair + {s} {
        TwoOfThree(pair, s);
      }
    }
  }

  lemma {:induction false} FiveStates(s: CellState, h: seq<CellState>)
    requires |h| >= 5 && forall i | |h| - 3 <= i < |h| :: h[i] == s
    ensures States(h[|h| - OSCILLATION_WINDOW..]) == {h[|h| - 5], h[|h| - 4]} + {s}
  {
    assert h[|h| - OSCILLATION_WINDOW..] == [h[|h| - 5], h[|h| - 4], s, s, s];
  }

  lemma {:induction false} SpareTwo(pair: set<CellState>, s: CellState)
    ensures pair == VERDICTS - {s} ==> VERDICTS <= pair + {s}
  {
  }

  lemma {:induction false} TwoOfThree(pair: set<CellState>, s: CellState)
    requires s in VERDICTS && pair <= VERDICTS && VERDICTS <= pair + {s} && |pair| <= 2
    ensures pair == VERDICTS - {s}
  {
    assert |VERDICTS| == 3;
    SubsetSmaller(VERDICTS, pair + {s});
    assert s in pair ==> pair + {s} == pair;
  }

  /** Without another verdict the counter only grows, by the observations of `s`. */
  lemma {:induction false} CounterGrows(s: CellState, h: seq<CellState>, i: nat, j: nat)
    requires IsVerdict(s) && i <= j <= |h| && forall k | i <= k < j :: h[k] == s || !IsVerdict(h[k])
    ensures Counter(s, h[..j]) >= Counter(s, h[..i])
    ensures Counter(s, h[..j]) == Counter(s, h[..i]) <==> s !in h[i..j]
    decreases j
  {
    if i < j {
      CounterGrows(s, h, i, j - 1);
      assert h[..j][..j - 1] == h[..j - 1] && h[i..j] == h[i..j - 1] + [h[j - 1]];
    }
  }

  /**
   While no other verdict comes in between, an alert is raised again exactly by an observation, in a settled window,
   whose predecessor is not `s` or that finds the counter still where it was. Only states that are not verdicts can
   bring that about.
   */
  lemma {:induction false} RepeatsExactly(s: CellState, nConfirm: nat, h: seq<CellState>, i: nat, j: nat)
    requires IsVerdict(s) && 0 < i < j <= |h| && forall k | i <= k < j :: h[k] == s || !IsVerdict(h[k])
    requires Raises(s, nConfirm, h[..i])
    ensures Raises(s, nConfirm, h[..j]) <==>
      && !Oscillating(LastOf(h[..j], MAX_HISTORY))
      && (h[j - 2] != s || (Counter(s, h[..i]) == nConfirm && s !in h[i..j]))
  {
    CounterGrows(s, h, i, j);
    assert h[..j][..j - 1] == h[..j - 1] && Current(h[..j - 1]) == h[j - 2];
    hide Counter, Oscillating;
  }

  /** Such a state does break the rule: the counters survive it, so it raises again. */
  lemma {:induction false} UnknownRaisesAgain()
    ensures var h := [Empty, Empty, Empty, Unknown];
      Raises(Empty, 3, h[..3]) && Raises(Empty, 3, h) && TrailingRun(Empty, h) == 0
  {
    var h := [Empty, Empty, Empty, Unknown];
    assert h[..3] == [Empty, Empty, Empty] && h[..3][..2] == [Empty, Empty] && h[..3][..2][..1] == [Empty];
    assert Counter(Empty, [Empty]) == 1;
    assert Counter(Empty, [Empty, Empty]) == 2;
    assert Counter(Empty, h[..3]) == 3;
    assert Counter(Empty, h) == 3;
  }

  /** How many alerts for `s` a whole history has raised. */
  function RaiseCount(s: CellState, nConfirm: nat, h: seq<CellState>): nat {
    if h == [] then 0
    else RaiseCount(s, nConfirm, h[..|h| - 1]) + (if Raises(s, nConfirm, h) then 1 else 0)
  }

  function ClearCount(nConfirm: nat, nClear: nat, h: seq<CellState>): nat {
    if h == [] then 0
    else ClearCount(nConfirm, nClear, h[..|h| - 1]) + (if Clears(nConfirm, nClear, h) then 1 else 0)
  }

  // ---------------------------------------------------------------------------
  // Clearing
  // ---------------------------------------------------------------------------

  lemma {:induction false} CountMeans(s: CellState, h: seq<CellState>)
    ensures Count(s, h) <= |h|
    ensures Count(s, h) == |h| <==> forall i | 0 <= i < |h| :: h[i] == s
  {
    if h != [] {
      CountMeans(s, h[..|h| - 1]);
    }
  }

  /** The history ends in `nConfirm` observations of `s` followed by `nClear` of OK. */
  predicate EndsCleared(s: CellState, nConfirm: nat, nClear: nat, h: seq<CellState>) {
    && |h| >= nConfirm + nClear
    && (forall i | |h| - nClear - nConfirm <= i < |h| - nClear :: h[i] == s)
    && (forall i | |h| - nClear <= i < |h| :: h[i] == Ok)
  }

  lemma {:induction false} HadAlertMeans(s: CellState, nConfirm: nat, nClear: nat, h: seq<CellState>)
    requires nConfirm >= 1 && nClear >= 1
    ensures HadAlert(s, LastOf(h, MAX_HISTORY), nConfirm, nClear) <==>
      && nConfirm + nClear <= MAX_HISTORY && |h| >= nConfirm + nClear
      && forall i | |h| - nClear - nConfirm <= i < |h| - nClear :: h[i] == s
  {
    var kept := LastOf(h, MAX_HISTORY);
    if |kept| >= nConfirm + nClear {
      var window := ConfirmWindow(kept, nConfirm, nClear);
      assert window == h[|h| - nClear - nConfirm..|h| - nClear];
      CountMeans(s, window);
      assert (forall i | 0 <= i < |window| :: window[i] == s)
        <==> forall i | |h| - nClear - nConfirm <= i < |h| - nClear :: h[i] == s by {
        forall i | |h| - nClear - nConfirm <= i < |h| - nClear
          ensures h[i] == window[i - (|h| - nClear - nConfirm)]
        {
        }
      }
    }
  }

  /**
   A clear is emitted exactly when the whole history ends in a confirmed run followed by exactly
   `nClear` OK frames; with more than ten frames to remember it is never emitted.
   */
  lemma {:induction false} ClearExactly(nConfirm: nat, nClear: nat, h: seq<CellState>)
    requires Verdicts(h) && nConfirm >= 1 && nClear >= 1
    ensures Clears(nConfirm, nClear, h) <==>
      nConfirm + nClear <= 10
      && (EndsCleared(Empty, nConfirm, nClear, h) || EndsCleared(Misplaced, nConfirm, nClear, h))
  {
    CounterIsRun(Ok, h);
    RunMeans(Ok, h);
    HadAlertMeans(Empty, nConfirm, nClear, h);
    HadAlertMeans(Misplaced, nConfirm, nClear, h);
    if |h| >= nClear && forall i | |h| - nClear <= i < |h| :: h[i] == Ok {
      RunAtLeast(Ok, h, nClear);
    }
  }

  /** A tracker that clears after no OK frames at all never clears. */
  lemma {:induction false} NoClearsAfterNothing(nConfirm: nat, h: seq<CellState>)
    requires nConfirm >= 1
    ensures !Clears(nConfirm, 0, h)
  {
    assert Count(Empty, []) == 0 && Count(Misplaced, []) == 0;
  }

  /** Two clears of a cell are separated by an observation other than OK. */
  lemma {:induction false} OneClearPerOkRun(nConfirm: nat, nClear: nat, h: seq<CellState>, i: nat, j: nat)
    requires Verdicts(h) && nConfirm >= 1 && nClear >= 1
    requires i < j <= |h| && Clears(nConfirm, nClear, h[..i]) && Clears(nConfirm, nClear, h[..j])
    ensures exists k | i <= k < j :: h[k] != Ok
  {
    ClearExactly(nConfirm, nClear, h[..i]);
    ClearExactly(nConfirm, nClear, h[..j]);
    var k := j - nClear - 1;
    assert h[..j][k] != Ok && h[k] == h[..j][k];
    forall m | i - nClear <= m < i
      ensures h[m] == Ok
    {
      assert h[..i][m] == h[m];
    }
    assert i <= k < j;
  }
}
