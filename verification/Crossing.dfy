/** Planar geometry of entry lines, over exact reals: on which side a point lies and which way a move crosses. */
module Crossing {
  import opened Options
  import opened Tracks

  /** Which perpendicular points into the store; any other word in the layout selects the left normal. */
  datatype Inward = Bottom | Top | Left | Right | LeftNormal

  datatype Line = Line(p1: Point, p2: Point, inward: Inward, length: real) {
    function Dx(): real { p2.x - p1.x }

    function Dy(): real { p2.y - p1.y }

    /** The stored length is the distance of the end points. */
    predicate Measured() {
      length >= 0.0 && length * length == Dx() * Dx() + Dy() * Dy()
    }
  }

  datatype Direction = Entry | Exit

  const SIDE_EPSILON := 0.001
  const LENGTH_EPSILON := 0.000001
  const MOVE_EPSILON := 0.000001

  function Orient(p: Point, q: Point, r: Point): real {
    (q.x - p.x) * (r.y - p.y) - (q.y - p.y) * (r.x - p.x)
  }

  function CrossSign(line: Line, point: Point): real {
    Orient(line.p1, line.p2, point)
  }

  function InwardNormal(line: Line): Point {
    if line.length < LENGTH_EPSILON then Point(0.0, -1.0)
    else
      var n := Point(-line.Dy() / line.length, line.Dx() / line.length);
      var opposite := Point(-n.x, -n.y);
      match line.inward
      case Bottom => if n.y < 0.0 then n else opposite
      case Top => if n.y > 0.0 then n else opposite
      case Left => if n.x < 0.0 then n else opposite
      case Right => if n.x > 0.0 then n else opposite
      case LeftNormal => n
  }

  predicate SegmentsIntersect(a1: Point, a2: Point, b1: Point, b2: Point) {
    var o1, o2, o3, o4 := Orient(a1, a2, b1), Orient(a1, a2, b2), Orient(b1, b2, a1), Orient(b1, b2, a2);
    !(o1 == 0.0 && o2 == 0.0 && o3 == 0.0 && o4 == 0.0) && o1 * o2 < 0.0 && o3 * o4 < 0.0
  }

  function Side(value: real): int {
    if value > SIDE_EPSILON then 1 else if value < -SIDE_EPSILON then -1 else 0
  }

  /** How far a move goes along the inward normal. */
  function NormalMove(line: Line, prev: Point, curr: Point): real {
    var n := InwardNormal(line);
    (curr.x - prev.x) * n.x + (curr.y - prev.y) * n.y
  }

  function ClassifyCrossing(prev: Point, curr: Point, line: Line): Option<Direction> {
    var prevSide, currSide := Side(CrossSign(line, prev)), Side(CrossSign(line, curr));
    var crossed := SegmentsIntersect(prev, curr, line.p1, line.p2);
    if !crossed && (prevSide == 0 || currSide == 0 || prevSide == currSide) then None
    else if crossed && prevSide != 0 && currSide != 0 && prevSide == currSide then None
    else
      var move := NormalMove(line, prev, curr);
      if -MOVE_EPSILON < move < MOVE_EPSILON then None
      else if move > 0.0 then Some(Entry) else Some(Exit)
  }

  // ---------------------------------------------------------------------------
  // Depth inside the store
  // ---------------------------------------------------------------------------

  /** Whether the chosen normal is the left one. */
  predicate LeftIsInward(line: Line) {
    match line.inward
    case Bottom => line.Dx() < 0.0
    case Top => line.Dx() > 0.0
    case Left => line.Dy() > 0.0
    case Right => line.Dy() < 0.0
    case LeftNormal => true
  }

  /** The cross product counted positive towards the inside. */
  function Depth(line: Line, point: Point): real {
    if LeftIsInward(line) then CrossSign(line, point) else -CrossSign(line, point)
  }

  lemma {:induction false} QuotientSign(x: real, y: real)
    requires y > 0.0
    ensures (x / y > 0.0 <==> x > 0.0) && (x / y < 0.0 <==> x < 0.0)
  {
    assert x == (x / y) * y;
  }

  lemma {:induction false} DivideSum(a: real, b: real, c: real, d: real, y: real)
    requires y > 0.0
    ensures a * (b / y) + c * (d / y) == (a * b + c * d) / y
    ensures a * (-(b / y)) + c * (-(d / y)) == -((a * b + c * d) / y)
    ensures (-b) / y == -(b / y)
  {
    assert a * (b / y) == (a * b) / y;
    assert c * (d / y) == (c * d) / y;
  }

  /** On a line means within a thousandth of it, by the cross product. */
  lemma {:induction false} SideMeans(value: real)
    ensures Side(value) == (if value > 0.001 then 1 else if value < -0.001 then -1 else 0)
  {
  }

  /** For a line too short to have a direction, moving up counts as moving in. */
  lemma {:induction false} ShortLineFacesUp(line: Line, prev: Point, curr: Point)
    requires line.length < 0.000001
    ensures NormalMove(line, prev, curr) == prev.y - curr.y
  {
  }

  lemma {:induction false} NormalIsChosen(line: Line)
    requires line.length >= 0.000001
    ensures var n := Point(-line.Dy() / line.length, line.Dx() / line.length);
      InwardNormal(line) == if LeftIsInward(line) then n else Point(-n.x, -n.y)
  {
    QuotientSign(line.Dx(), line.length);
    QuotientSign(-line.Dy(), line.length);
  }

  lemma {:induction false} CrossDifference(line: Line, prev: Point, curr: Point)
    ensures CrossSign(line, curr) - CrossSign(line, prev)
      == (curr.x - prev.x) * -line.Dy() + (curr.y - prev.y) * line.Dx()
  {
  }

  /** The normal part of a move is the change of depth, per unit of length. */
  lemma {:induction false} MoveIsDepthChange(line: Line, prev: Point, curr: Point)
    requires line.length >= 0.000001
    ensures NormalMove(line, prev, curr) == (Depth(line, curr) - Depth(line, prev)) / line.length
  {
    hide CrossSign, LeftIsInward, InwardNormal;
    NormalIsChosen(line);
    CrossDifference(line, prev, curr);
    DivideSum(curr.x - prev.x, -line.Dy(), curr.y - prev.y, line.Dx(), line.length);
    DivideSum(1.0, CrossSign(line, curr) - CrossSign(line, prev), 0.0, 0.0, line.length);
  }

  lemma {:induction false} OppositeSigns(x: real, y: real)
    ensures x * y < 0.0 <==> x < 0.0 < y || y < 0.0 < x
  {
    if (x > 0.0 && y > 0.0) || (x < 0.0 && y < 0.0) {
      assert x * y > 0.0;
    } else if x < 0.0 < y {
      assert -x * y > 0.0;
    } else if y < 0.0 < x {
      assert x * -y > 0.0;
    }
  }

  /** The move reaches the other side of the line: through the segment itself, or clearly from side to side. */
  predicate Passes(line: Line, prev: Point, curr: Point) {
    SegmentsIntersect(prev, curr, line.p1, line.p2)
    || (Side(CrossSign(line, prev)) != 0 && Side(CrossSign(line, curr)) != 0)
  }

  /**
   An entry is exactly a move from strictly outside to strictly inside that passes the line and is not
   negligible along the normal; an exit is the same the other way round.
   */
  lemma {:induction false} ClassifyExactly(prev: Point, curr: Point, line: Line)
    requires line.length >= 0.000001
    ensures var before, after := Depth(line, prev), Depth(line, curr);
      ClassifyCrossing(prev, curr, line) ==
        if !Passes(line, prev, curr) then None
        else if before < 0.0 < after && (after - before) / line.length >= MOVE_EPSILON then Some(Entry)
        else if after < 0.0 < before && (before - after) / line.length >= MOVE_EPSILON then Some(Exit)
        else None
  {
    hide CrossSign, LeftIsInward, InwardNormal, NormalMove;
    var before, after := Depth(line, prev), Depth(line, curr);
    MoveIsDepthChange(line, prev, curr);
    QuotientSign(after - before, line.length);
    DivideSum(1.0, after - before, 0.0, 0.0, line.length);
    assert (before - after) / line.length == -((after - before) / line.length);
    IntersectIsOpposite(line, prev, curr);
    hide SegmentsIntersect;
  }

  lemma {:induction false} IntersectIsOpposite(line: Line, prev: Point, curr: Point)
    ensures SegmentsIntersect(prev, curr, line.p1, line.p2) ==>
      Depth(line, prev) < 0.0 < Depth(line, curr) || Depth(line, curr) < 0.0 < Depth(line, prev)
  {
    OppositeSigns(CrossSign(line, prev), CrossSign(line, curr));
    hide Orient, LeftIsInward;
  }

  function Flip(d: Option<Direction>): Option<Direction> {
    match d
    case None => None
    case Some(Entry) => Some(Exit)
    case Some(Exit) => Some(Entry)
  }

  lemma {:induction false} ReversedIntersect(prev: Point, curr: Point, b1: Point, b2: Point)
    ensures SegmentsIntersect(curr, prev, b1, b2) == SegmentsIntersect(prev, curr, b1, b2)
    ensures SegmentsIntersect(prev, curr, b2, b1) == SegmentsIntersect(prev, curr, b1, b2)
  {
    assert Orient(curr, prev, b1) == -Orient(prev, curr, b1) && Orient(curr, prev, b2) == -Orient(prev, curr, b2);
    assert Orient(b2, b1, prev) == -Orient(b1, b2, prev) && Orient(b2, b1, curr) == -Orient(b1, b2, curr);
    hide Orient;
    NegatedProduct(Orient(prev, curr, b1), Orient(prev, curr, b2));
    NegatedProduct(Orient(b1, b2, prev), Orient(b1, b2, curr));
    assert Orient(prev, curr, b1) * Orient(prev, curr, b2) == Orient(prev, curr, b2) * Orient(prev, curr, b1);
    assert Orient(b1, b2, prev) * Orient(b1, b2, curr) == Orient(b1, b2, curr) * Orient(b1, b2, prev);
  }

  lemma {:induction false} NegatedProduct(x: real, y: real)
    ensures -x * -y == x * y
  {
  }

  /** Going back along the same move is the opposite crossing. */
  lemma {:induction false} ReversedMove(prev: Point, curr: Point, line: Line)
    ensures ClassifyCrossing(curr, prev, line) == Flip(ClassifyCrossing(prev, curr, line))
  {
    ReversedIntersect(prev, curr, line.p1, line.p2);
    ReversedNormalMove(prev, curr, line);
    hide SegmentsIntersect, CrossSign, NormalMove;
  }

  lemma {:induction false} ReversedNormalMove(prev: Point, curr: Point, line: Line)
    ensures NormalMove(line, curr, prev) == -NormalMove(line, prev, curr)
  {
    hide InwardNormal;
    var n := InwardNormal(line);
    assert (prev.x - curr.x) * n.x == -((curr.x - prev.x) * n.x);
    assert (prev.y - curr.y) * n.y == -((curr.y - prev.y) * n.y);
  }

  function Swapped(line: Line): Line {
    line.(p1 := line.p2, p2 := line.p1)
  }

  /** The layout's word does not tell the two perpendiculars apart, so the order of the end points does. */
  predicate OrderDecides(line: Line) {
    match line.inward
    case Bottom => line.Dx() == 0.0
    case Top => line.Dx() == 0.0
    case Left => line.Dy() == 0.0
    case Right => line.Dy() == 0.0
    case LeftNormal => true
  }

  lemma {:induction false} SwappedDepth(line: Line, p: Point)
    ensures CrossSign(Swapped(line), p) == -CrossSign(line, p)
    ensures Depth(Swapped(line), p) == if OrderDecides(line) then -Depth(line, p) else Depth(line, p)
  {
    var l, px, py := line, p.x, p.y;
    assert CrossSign(Swapped(l), p) ==
      -(l.p2.x - l.p1.x) * (py - l.p1.y - l.Dy()) + (l.p2.y - l.p1.y) * (px - l.p1.x - l.Dx());
    assert l.Dx() * l.Dy() == l.Dy() * l.Dx();
  }

  /** Swapping the end points turns entries into exits exactly when their order is all that decides; else nothing changes. */
  lemma {:induction false} SwappedLine(prev: Point, curr: Point, line: Line)
    requires line.length >= 0.000001
    ensures ClassifyCrossing(prev, curr, Swapped(line)) ==
      if OrderDecides(line) then Flip(ClassifyCrossing(prev, curr, line)) else ClassifyCrossing(prev, curr, line)
  {
    var before, after := Depth(line, prev), Depth(line, curr);
    SwappedDepth(line, prev);
    SwappedDepth(line, curr);
    ReversedIntersect(prev, curr, line.p1, line.p2);
    hide SegmentsIntersect, CrossSign, NormalMove, OrderDecides, Depth, ClassifyCrossing;
    ClassifyExactly(prev, curr, line);
    ClassifyExactly(prev, curr, Swapped(line));
    assert -after - -before == before - after && -before - -after == after - before;
  }

  // ---------------------------------------------------------------------------
  // Paths that keep clear of the line
  // ---------------------------------------------------------------------------

  predicate Inside(line: Line, p: Point) {
    Depth(line, p) > 0.0
  }

  /** Off the line by more than the side epsilon. */
  predicate Clear(line: Line, p: Point) {
    Side(CrossSign(line, p)) != 0
  }

  /** Between clear points only the sides matter. */
  lemma {:induction false} ClearMove(prev: Point, curr: Point, line: Line)
    requires LENGTH_EPSILON <= line.length <= 2000.0 && Clear(line, prev) && Clear(line, curr)
    ensures ClassifyCrossing(prev, curr, line) ==
      if Inside(line, prev) == Inside(line, curr) then None else if Inside(line, curr) then Some(Entry) else Some(Exit)
  {
    hide CrossSign, LeftIsInward, NormalMove, ClassifyCrossing, SegmentsIntersect;
    ClassifyExactly(prev, curr, line);
    LargeMove(Depth(line, curr) - Depth(line, prev), line.length);
    LargeMove(Depth(line, prev) - Depth(line, curr), line.length);
  }

  lemma {:induction false} LargeMove(x: real, length: real)
    requires 0.0 < length <= 2000.0
    ensures x > 0.002 ==> x / length >= MOVE_EPSILON
  {
    QuotientSign(x - MOVE_EPSILON * length, length);
    assert x / length == (x - MOVE_EPSILON * length) / length + MOVE_EPSILON;
  }

  /** The crossings along a path, in order. */
  function CrossingsOf(line: Line, path: seq<Point>): seq<Direction> {
    if |path| < 2 then []
    else
      var step := ClassifyCrossing(path[|path| - 2], path[|path| - 1], line);
      CrossingsOf(line, path[..|path| - 1]) + (if step.Some? then [step.value] else [])
  }

  function Count(directions: seq<Direction>, d: Direction): nat {
    if directions == [] then 0
    else Count(directions[..|directions| - 1], d) + (if directions[|directions| - 1] == d then 1 else 0)
  }

  predicate Alternating(directions: seq<Direction>) {
    forall i | 0 < i < |directions| :: directions[i - 1] != directions[i]
  }

  /** What the crossings so far say about the sides at the two ends of a path. */
  ghost predicate Tells(c: seq<Direction>, first: bool, last: bool) {
    && Alternating(c)
    && Count(c, Entry) - Count(c, Exit) == (if last then 1 else 0) - (if first then 1 else 0)
    && last == if c == [] then first else c[|c| - 1] == Entry
  }

  lemma {:induction false} TellsMore(c: seq<Direction>, d: Direction, first: bool, last: bool)
    requires Tells(c, first, last) && last == (d == Exit)
    ensures Tells(c + [d], first, !last)
  {
    assert (c + [d])[..|c|] == c;
  }

  /**
   Along a path that keeps clear of the line, entries and exits alternate, the last of them says on which side the
   path ends, and entries minus exits is the change of side over the whole path.
   */
  lemma {:induction false} ClearPath(line: Line, path: seq<Point>)
    requires LENGTH_EPSILON <= line.length <= 2000.0 && path != [] && forall i | 0 <= i < |path| :: Clear(line, path[i])
    ensures Tells(CrossingsOf(line, path), Inside(line, path[0]), Inside(line, path[|path| - 1]))
  {
    hide ClassifyCrossing, Inside, Clear, Tells;
    if |path| == 1 {
      assert Tells([], Inside(line, path[0]), Inside(line, path[0])) by { NothingTold(Inside(line, path[0])); }
    } else {
      var front := path[..|path| - 1];
      ClearPath(line, front);
      ClearMove(path[|path| - 2], path[|path| - 1], line);
      var c := CrossingsOf(line, front);
      var step := ClassifyCrossing(path[|path| - 2], path[|path| - 1], line);
      if step.Some? {
        TellsMore(c, step.value, Inside(line, path[0]), Inside(line, path[|path| - 2]));
      } else {
        assert c + [] == c;
      }
    }
  }

  lemma {:induction false} NothingTold(inside: bool)
    ensures Tells([], inside, inside)
  {
  }
}
