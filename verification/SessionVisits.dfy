/**
 The zone visits of a session told from the zone signals that reached it: where a visit begins and ends, which
 signals belong to it, and what dwell it has.
 */
module SessionVisits {
  import opened Options
  import opened SessionModel
  import opened SessionTheorems

  // ---------------------------------------------------------------------------
  // Reading the signals
  // ---------------------------------------------------------------------------

  predicate IsZone(e: Signal) {
    e.kind.ZoneEnter? || e.kind.ZoneExit? || e.kind.ZoneDwell?
  }

  /** A signal that shows the visitor in its zone: an enter that names a zone, or a dwell. */
  predicate Shows(e: Signal) {
    (e.kind.ZoneEnter? && e.zone != "") || e.kind.ZoneDwell?
  }

  predicate LeavesZone(e: Signal, zone: string) {
    e.kind.ZoneExit? && e.zone == zone
  }

  predicate NotLeft(mine: seq<Signal>, zone: string, from: nat, to: nat) {
    forall j | from <= j < to && j < |mine| :: !LeavesZone(mine[j], zone)
  }

  /** The visitor is in the zone: some signal showed it there, and none since has it leave. */
  ghost predicate InZone(mine: seq<Signal>, zone: string) {
    exists i: nat :: ShownAt(mine, zone, i) && NotLeft(mine, zone, i, |mine|)
  }

  predicate ShownAt(mine: seq<Signal>, zone: string, i: nat) {
    i < |mine| && Shows(mine[i]) && mine[i].zone == zone
  }

  /** A visit begins with a signal that shows the visitor in a zone it was not in. */
  ghost predicate Begins(past: seq<Signal>, e: Signal) {
    Shows(e) && !InZone(past, e.zone)
  }

  /** The places of the signals that begin a visit. */
  ghost function BeginsAt(mine: seq<Signal>): (places: seq<nat>)
    ensures forall k | 0 <= k < |places| :: places[k] < |mine|
  {
    if mine == [] then []
    else
      var past, last := mine[..|mine| - 1], mine[|mine| - 1];
      BeginsAt(past) + (if Begins(past, last) then [|past|] else [])
  }

  /** The visit begun at place `b` is reached by the dwells in its zone up to the first exit from it, and by that exit. */
  predicate Reaches(mine: seq<Signal>, b: nat, i: nat) {
    && b <= i < |mine|
    && (mine[i].kind.ZoneDwell? || mine[i].kind.ZoneExit?) && mine[i].zone == mine[b].zone
    && NotLeft(mine, mine[b].zone, b, i)
  }

  predicate EndsAt(mine: seq<Signal>, b: nat, i: nat) {
    Reaches(mine, b, i) && mine[i].kind.ZoneExit?
  }

  /** The largest of 0 and the dwells reported by the signals that reached the visit. */
  ghost predicate IsPeak(mine: seq<Signal>, b: nat, dwell: real) {
    && dwell >= 0.0
    && (forall i: nat | Reaches(mine, b, i) :: mine[i].dwell <= dwell)
    && (dwell == 0.0 || exists i: nat :: Reaches(mine, b, i) && mine[i].dwell == dwell)
  }

  ghost function DwellsAt(mine: seq<Signal>, b: nat): set<nat> {
    set i: nat | i < |mine| && Reaches(mine, b, i) && mine[i].kind.ZoneDwell?
  }

  /** The number a visit gets when its signal gives none: its place among the visits after an enter, 1 after a dwell. */
  function SequenceOf(e: Signal, k: nat): int {
    if e.sequence.Some? then e.sequence.value else if e.kind.ZoneEnter? then k + 1 else 1
  }

  /** What never changes about the visit begun at `b`, the `k`-th one, and how often it dwelled. */
  ghost predicate IsVisit(mine: seq<Signal>, b: nat, k: nat, v: ZoneVisit)
    requires b < |mine|
  {
    && v.zone == mine[b].zone && v.enteredAt == mine[b].at && v.sequence == SequenceOf(mine[b], k)
    && v.dwellEvents == |DwellsAt(mine, b)|
  }

  /** A visit of a session still active. */
  ghost predicate VisitTold(mine: seq<Signal>, b: nat, k: nat, v: ZoneVisit)
    requires b < |mine|
  {
    && IsVisit(mine, b, k, v)
    && IsPeak(mine, b, v.dwell)
    && (v.exitedAt.None? <==> NotLeft(mine, mine[b].zone, b, |mine|))
    && (forall i: nat | EndsAt(mine, b, i) :: v.exitedAt == Some(mine[i].at))
  }

  ghost predicate VisitsTold(mine: seq<Signal>, visits: seq<ZoneVisit>) {
    && |visits| == |BeginsAt(mine)|
    && forall k | 0 <= k < |visits| :: VisitTold(mine, BeginsAt(mine)[k], k, visits[k])
  }

  /** A visit of a session that was closed at `at`: one nobody reported a dwell for has lasted until then. */
  ghost predicate ClosedTold(mine: seq<Signal>, b: nat, k: nat, v: ZoneVisit, at: real)
    requires b < |mine|
  {
    && IsVisit(mine, b, k, v)
    && (forall i: nat | EndsAt(mine, b, i) :: v.exitedAt == Some(mine[i].at) && IsPeak(mine, b, v.dwell))
    && (NotLeft(mine, mine[b].zone, b, |mine|) ==>
          && v.exitedAt == Some(at)
          && if IsPeak(mine, b, 0.0) then v.dwell == Larger(0.0, at - mine[b].at) else IsPeak(mine, b, v.dwell))
  }

  ghost predicate VisitsClosed(mine: seq<Signal>, visits: seq<ZoneVisit>, at: real) {
    && |visits| == |BeginsAt(mine)|
    && forall k | 0 <= k < |visits| :: ClosedTold(mine, BeginsAt(mine)[k], k, visits[k], at)
  }

  // ---------------------------------------------------------------------------
  // One signal more
  // ---------------------------------------------------------------------------

  lemma {:induction false} NotLeftAppend(mine: seq<Signal>, e: Signal, zone: string, from: nat)
    requires from <= |mine|
    ensures NotLeft(mine + [e], zone, from, |mine| + 1) <==> NotLeft(mine, zone, from, |mine|) && !LeavesZone(e, zone)
    ensures forall to: nat | to <= |mine| :: NotLeft(mine + [e], zone, from, to) <==> NotLeft(mine, zone, from, to)
  {
    assert (mine + [e])[|mine|] == e;
    assert forall j | 0 <= j < |mine| :: (mine + [e])[j] == mine[j];
  }

  lemma {:induction false} InZoneAppend(mine: seq<Signal>, e: Signal, zone: string)
    ensures InZone(mine + [e], zone) <==>
      if LeavesZone(e, zone) then false else InZone(mine, zone) || (Shows(e) && e.zone == zone)
  {
    var g, n := mine + [e], |mine|;
    assert g[n] == e && forall j | 0 <= j < n :: g[j] == mine[j];
    if InZone(g, zone) {
      var i: nat :| ShownAt(g, zone, i) && NotLeft(g, zone, i, |g|);
      NotLeftAppend(mine, e, zone, i);
      assert i < n ==> ShownAt(mine, zone, i);
    }
    if InZone(mine, zone) && !LeavesZone(e, zone) {
      var i: nat :| ShownAt(mine, zone, i) && NotLeft(mine, zone, i, n);
      NotLeftAppend(mine, e, zone, i);
      assert ShownAt(g, zone, i);
    }
    if Shows(e) && e.zone == zone {
      assert ShownAt(g, zone, n) && NotLeft(g, zone, n, |g|);
    }
  }

  lemma {:induction false} BeginsAtAppend(mine: seq<Signal>, e: Signal)
    ensures BeginsAt(mine + [e]) == BeginsAt(mine) + (if Begins(mine, e) then [|mine|] else [])
  {
    assert (mine + [e])[..|mine|] == mine;
  }

  predicate ReachesNow(mine: seq<Signal>, b: nat, e: Signal)
    requires b < |mine|
  {
    (e.kind.ZoneDwell? || e.kind.ZoneExit?) && e.zone == mine[b].zone && NotLeft(mine, mine[b].zone, b, |mine|)
  }

  lemma {:induction false} ReachesAppend(mine: seq<Signal>, e: Signal, b: nat, i: nat)
    requires b < |mine|
    ensures Reaches(mine + [e], b, i) <==> if i == |mine| then ReachesNow(mine, b, e) else Reaches(mine, b, i)
  {
    NotLeftAppend(mine, e, mine[b].zone, b);
    assert (mine + [e])[|mine|] == e && forall j | 0 <= j < |mine| :: (mine + [e])[j] == mine[j];
    hide NotLeft;
  }

  lemma {:induction false} PeakAppend(mine: seq<Signal>, e: Signal, b: nat, dwell: real)
    requires b < |mine| && IsPeak(mine, b, dwell)
    ensures IsPeak(mine + [e], b, if ReachesNow(mine, b, e) then Larger(dwell, e.dwell) else dwell)
  {
    hide Reaches, ReachesNow;
    var g := mine + [e];
    assert g[|mine|] == e && forall j | 0 <= j < |mine| :: g[j] == mine[j];
    forall i: nat
      ensures Reaches(g, b, i) <==> if i == |mine| then ReachesNow(mine, b, e) else Reaches(mine, b, i)
      ensures Reaches(mine, b, i) ==> i < |mine|
    {
      ReachesAppend(mine, e, b, i);
      ReachedPlace(mine, b, i);
    }
    if dwell != 0.0 {
      var i: nat :| Reaches(mine, b, i) && mine[i].dwell == dwell;
      assert Reaches(g, b, i) && g[i].dwell == dwell;
    }
    if ReachesNow(mine, b, e) {
      assert Reaches(g, b, |mine|) && g[|mine|].dwell == e.dwell;
    }
  }

  lemma {:induction false} ReachedPlace(mine: seq<Signal>, b: nat, i: nat)
    ensures Reaches(mine, b, i) ==> b <= i < |mine|
  {
  }

  lemma {:induction false} DwellsAppend(mine: seq<Signal>, e: Signal, b: nat)
    requires b < |mine|
    ensures |DwellsAt(mine + [e], b)| == |DwellsAt(mine, b)| + (if ReachesNow(mine, b, e) && e.kind.ZoneDwell? then 1 else 0)
  {
    hide Reaches, ReachesNow;
    var g, n := mine + [e], |mine|;
    assert g[n] == e && forall j | 0 <= j < n :: g[j] == mine[j];
    forall i: nat
      ensures Reaches(g, b, i) <==> if i == n then ReachesNow(mine, b, e) else Reaches(mine, b, i)
    {
      ReachesAppend(mine, e, b, i);
    }
    assert DwellsAt(g, b) == DwellsAt(mine, b) + (if ReachesNow(mine, b, e) && e.kind.ZoneDwell? then {n} else {});
    assert n !in DwellsAt(mine, b);
  }

  /** What a signal does to a visit: the latest open visit of its zone. */
  function Touched(v: ZoneVisit, e: Signal): ZoneVisit {
    if v.zone != e.zone || v.exitedAt.Some? then v
    else if e.kind.ZoneExit? then ChangedVisit(v, Leave(e.at, e.dwell))
    else if e.kind.ZoneDwell? then ChangedVisit(v, VisitChange.Dwell(e.dwell))
    else v
  }

  lemma {:induction false} VisitAppend(mine: seq<Signal>, e: Signal, b: nat, k: nat, v: ZoneVisit)
    requires b < |mine| && VisitTold(mine, b, k, v)
    ensures VisitTold(mine + [e], b, k, Touched(v, e))
  {
    hide IsPeak, DwellsAt, NotLeft, Reaches;
    var g := mine + [e];
    assert g[b] == mine[b] && g[|mine|] == e && forall j | 0 <= j < |mine| :: g[j] == mine[j];
    PeakAppend(mine, e, b, v.dwell);
    DwellsAppend(mine, e, b);
    NotLeftAppend(mine, e, mine[b].zone, b);
    forall i: nat
      ensures Reaches(g, b, i) <==> if i == |mine| then ReachesNow(mine, b, e) else Reaches(mine, b, i)
      ensures Reaches(mine, b, i) ==> i < |mine|
    {
      ReachesAppend(mine, e, b, i);
      ReachedPlace(mine, b, i);
    }
  }

  /** The visit a signal begins. */
  function Begun(e: Signal, k: nat): ZoneVisit {
    ZoneVisit(e.zone, SequenceOf(e, k), e.at, None, 0.0, 0)
  }

  lemma {:induction false} BegunTold(mine: seq<Signal>, e: Signal, k: nat)
    requires Shows(e)
    ensures VisitTold(mine + [e], |mine|, k, Touched(Begun(e, k), e))
  {
    var g, n := mine + [e], |mine|;
    assert g[n] == e;
    assert forall i: nat :: Reaches(g, n, i) <==> i == n && e.kind.ZoneDwell?;
    assert DwellsAt(g, n) == if e.kind.ZoneDwell? then {n} else {};
    if e.kind.ZoneDwell? {
      assert Reaches(g, n, n) && g[n].dwell == e.dwell;
    }
  }

  // ---------------------------------------------------------------------------
  // The visits of a session after one signal more
  // ---------------------------------------------------------------------------

  predicate OpenAt(visits: seq<ZoneVisit>, zone: string, k: nat) {
    k < |visits| && visits[k].zone == zone && visits[k].exitedAt.None?
  }

  lemma {:induction false} VisitingSomewhere(visits: seq<ZoneVisit>, zone: string)
    ensures Visiting(visits, zone) <==> exists k: nat :: OpenAt(visits, zone, k)
  {
    if visits != [] {
      var front := visits[..|visits| - 1];
      VisitingSomewhere(front, zone);
      assert forall k: nat | k < |front| :: OpenAt(front, zone, k) <==> OpenAt(visits, zone, k);
      assert OpenAt(visits, zone, |front|) || forall k: nat :: OpenAt(visits, zone, k) ==> OpenAt(front, zone, k);
      if k: nat :| OpenAt(front, zone, k) {
        assert OpenAt(visits, zone, k);
      }
    }
  }

  /** With one open visit in a zone at most, changing the latest one changes exactly the open one. */
  lemma {:induction false} UpdateExactly(visits: seq<ZoneVisit>, zone: string, c: VisitChange)
    requires OpenCount(visits, zone) <= 1
    ensures |UpdateVisit(visits, zone, c)| == |visits|
    ensures forall k: nat | k < |visits| ::
      UpdateVisit(visits, zone, c)[k] == if OpenAt(visits, zone, k) then ChangedVisit(visits[k], c) else visits[k]
  {
    if visits != [] {
      var front, last := visits[..|visits| - 1], visits[|visits| - 1];
      UpdateExactly(front, zone, c);
      VisitingSomewhere(front, zone);
      VisitingCounts(front, zone);
      assert forall k: nat | k < |front| :: OpenAt(front, zone, k) <==> OpenAt(visits, zone, k);
    }
  }

  /** The visits a zone signal leaves a session with. */
  function VisitsAfter(visits: seq<ZoneVisit>, e: Signal): seq<ZoneVisit> {
    var begun := if Shows(e) && !Visiting(visits, e.zone) then visits + [Begun(e, |visits|)] else visits;
    match e.kind
    case ZoneExit => UpdateVisit(visits, e.zone, Leave(e.at, e.dwell))
    case ZoneDwell => UpdateVisit(begun, e.zone, VisitChange.Dwell(e.dwell))
    case _ => begun
  }

  /** Each visit is touched by the signal, after the one it begins has joined them. */
  lemma {:induction false} AfterExactly(visits: seq<ZoneVisit>, e: Signal)
    requires OneOpenPerZone(visits) && IsZone(e)
    ensures var begun := if Shows(e) && !Visiting(visits, e.zone) then visits + [Begun(e, |visits|)] else visits;
      && OneOpenPerZone(VisitsAfter(visits, e))
      && |VisitsAfter(visits, e)| == |begun|
      && forall k: nat | k < |begun| :: VisitsAfter(visits, e)[k] == Touched(begun[k], e)
  {
    hide OneOpenPerZone, Visiting;
    var begun := if Shows(e) && !Visiting(visits, e.zone) then visits + [Begun(e, |visits|)] else visits;
    if Shows(e) && !Visiting(visits, e.zone) {
      OpenKeepsOneOpen(visits, Begun(e, |visits|));
    }
    OneOpenIn(begun, e.zone);
    if e.kind.ZoneExit? {
      UpdateKeepsOneOpen(begun, e.zone, Leave(e.at, e.dwell));
      UpdateExactly(begun, e.zone, Leave(e.at, e.dwell));
    } else if e.kind.ZoneDwell? {
      UpdateKeepsOneOpen(begun, e.zone, VisitChange.Dwell(e.dwell));
      UpdateExactly(begun, e.zone, VisitChange.Dwell(e.dwell));
    }
  }

  lemma {:induction false} OneOpenIn(visits: seq<ZoneVisit>, zone: string)
    requires OneOpenPerZone(visits)
    ensures OpenCount(visits, zone) <= 1
  {
  }

  /** The visits and the zones the visitor is in, told by the signals. */
  ghost predicate Told(mine: seq<Signal>, visits: seq<ZoneVisit>) {
    && OneOpenPerZone(visits) && VisitsTold(mine, visits)
    && forall zone: string :: Visiting(visits, zone) <==> InZone(mine, zone)
  }

  lemma {:induction false} NothingTold()
    ensures Told([], [])
  {
  }

  lemma {:induction false} ToldAppend(mine: seq<Signal>, visits: seq<ZoneVisit>, e: Signal)
    requires Told(mine, visits) && IsZone(e)
    ensures Told(mine + [e], VisitsAfter(visits, e))
  {
    VisitsAppend(mine, visits, e);
    AfterExactly(visits, e);
    hide OneOpenPerZone, VisitsTold, VisitsAfter;
    forall zone: string
      ensures Visiting(VisitsAfter(visits, e), zone) <==> InZone(mine + [e], zone)
    {
      ZonesAppend(mine, visits, e, zone);
    }
  }

  lemma {:induction false} VisitsAppend(mine: seq<Signal>, visits: seq<ZoneVisit>, e: Signal)
    requires Told(mine, visits) && IsZone(e)
    ensures VisitsTold(mine + [e], VisitsAfter(visits, e))
  {
    AfterExactly(visits, e);
    BeginsAtAppend(mine, e);
    hide OneOpenPerZone, VisitTold, VisitsAfter, Touched, InZone, BeginsAt, Visiting;
    var next, places := VisitsAfter(visits, e), BeginsAt(mine + [e]);
    forall k: nat | k < |next|
      ensures VisitTold(mine + [e], places[k], k, next[k])
    {
      if k < |visits| {
        VisitAppend(mine, e, BeginsAt(mine)[k], k, visits[k]);
      } else {
        BegunTold(mine, e, k);
      }
    }
  }

  /** The open visits after a signal: those it does not end, and the one it begins. */
  lemma {:induction false} OpenAfter(visits: seq<ZoneVisit>, e: Signal, zone: string, k: nat)
    requires OneOpenPerZone(visits) && IsZone(e)
    ensures OpenAt(VisitsAfter(visits, e), zone, k) <==>
      if k == |visits| then Shows(e) && e.zone == zone && !Visiting(visits, zone)
      else OpenAt(visits, zone, k) && !LeavesZone(e, zone)
  {
    AfterExactly(visits, e);
    hide OneOpenPerZone, Visiting, VisitsAfter;
  }

  lemma {:induction false} ZonesAppend(mine: seq<Signal>, visits: seq<ZoneVisit>, e: Signal, zone: string)
    requires Told(mine, visits) && IsZone(e)
    ensures Visiting(VisitsAfter(visits, e), zone) <==> InZone(mine + [e], zone)
  {
    InZoneAppend(mine, e, zone);
    VisitingSomewhere(visits, zone);
    VisitingSomewhere(VisitsAfter(visits, e), zone);
    hide OneOpenPerZone, VisitsTold, InZone, Visiting, VisitsAfter, OpenAt;
    forall k: nat
      ensures OpenAt(VisitsAfter(visits, e), zone, k) <==>
        if k == |visits| then Shows(e) && e.zone == zone && !Visiting(visits, zone)
        else OpenAt(visits, zone, k) && !LeavesZone(e, zone)
      ensures OpenAt(visits, zone, k) ==> k < |visits|
    {
      OpenAfter(visits, e, zone, k);
      OpenPlace(visits, zone, k);
    }
    if Shows(e) && e.zone == zone && !Visiting(visits, zone) {
      assert OpenAt(VisitsAfter(visits, e), zone, |visits|);
    }
  }

  lemma {:induction false} OpenPlace(visits: seq<ZoneVisit>, zone: string, k: nat)
    ensures OpenAt(visits, zone, k) ==> k < |visits|
  {
  }

  /** A visit either has no exit from its zone after it began, or exactly one exit that ends it. */
  lemma {:induction false} EndsOnce(mine: seq<Signal>, b: nat)
    requires b < |mine|
    ensures !NotLeft(mine, mine[b].zone, b, |mine|) <==> exists i: nat :: EndsAt(mine, b, i)
    ensures forall i: nat, j: nat | EndsAt(mine, b, i) && EndsAt(mine, b, j) :: i == j
  {
    if !NotLeft(mine, mine[b].zone, b, |mine|) {
      var j :| b <= j < |mine| && LeavesZone(mine[j], mine[b].zone);
      FirstExit(mine, b, j);
    }
  }

  lemma {:induction false} FirstExit(mine: seq<Signal>, b: nat, j: nat)
    requires b <= j < |mine| && LeavesZone(mine[j], mine[b].zone)
    ensures exists i: nat :: EndsAt(mine, b, i)
    decreases j
  {
    if NotLeft(mine, mine[b].zone, b, j) {
      assert EndsAt(mine, b, j);
    } else {
      var i :| b <= i < j && LeavesZone(mine[i], mine[b].zone);
      FirstExit(mine, b, i);
    }
  }

  lemma {:induction false} CloseEach(visits: seq<ZoneVisit>, at: real)
    ensures |CloseVisits(visits, at)| == |visits|
    ensures forall k | 0 <= k < |visits| :: CloseVisits(visits, at)[k] == CloseVisit(visits[k], at)
  {
    if visits != [] {
      CloseEach(visits[..|visits| - 1], at);
    }
  }

  lemma {:induction false} OnePeak(mine: seq<Signal>, b: nat, x: real, y: real)
    requires IsPeak(mine, b, x) && IsPeak(mine, b, y)
    ensures x == y
  {
    hide Reaches;
  }

  lemma {:induction false} VisitClosed(mine: seq<Signal>, b: nat, k: nat, v: ZoneVisit, at: real)
    requires b < |mine| && VisitTold(mine, b, k, v)
    ensures ClosedTold(mine, b, k, CloseVisit(v, at), at)
  {
    EndsOnce(mine, b);
    hide IsPeak, NotLeft, Reaches, DwellsAt;
    if IsPeak(mine, b, 0.0) {
      OnePeak(mine, b, v.dwell, 0.0);
    }
    NotNegative(mine, b, v.dwell);
  }

  lemma {:induction false} NotNegative(mine: seq<Signal>, b: nat, dwell: real)
    requires IsPeak(mine, b, dwell)
    ensures dwell >= 0.0
  {
  }

  /** Closing a session closes each told visit. */
  lemma {:induction false} ClosingTold(mine: seq<Signal>, visits: seq<ZoneVisit>, at: real)
    requires VisitsTold(mine, visits)
    ensures VisitsClosed(mine, CloseVisits(visits, at), at)
  {
    CloseEach(visits, at);
    hide VisitTold, ClosedTold, CloseVisits;
    forall k | 0 <= k < |visits|
      ensures ClosedTold(mine, BeginsAt(mine)[k], k, CloseVisit(visits[k], at), at)
    {
      VisitClosed(mine, BeginsAt(mine)[k], k, visits[k], at);
    }
  }
}
