/** How the cursor leaves one screen and enters another (crates/wx-core/src/layout.rs:163-428,
    crates/wx-proto/src/geom.rs). Coordinates are reals. */
module Crossings {
  import opened Wrappers
  import opened Ints
  import opened Geometry
  import opened GlobalLayouts

  datatype Point = Point(x: real, y: real)

  datatype Edge = Left | Right | Top | Bottom
  {
    function Opposite(): Edge {
      match this
      case Left => Right
      case Right => Left
      case Top => Bottom
      case Bottom => Top
    }
  }

  const ENTRY_INSET := 1.0
  const NUDGE := 0.001

  predicate Contains(r: Rect, p: Point) {
    r.x as real <= p.x < r.Right() as real && r.y as real <= p.y < r.Bottom() as real
  }

  /** A rectangle with room inside. The saturating edges leave none in a rectangle that starts on the last
      storable coordinate, however wide it says it is. */
  predicate Roomy(r: Rect) {
    !r.IsEmpty() && r.x < I32_MAX && r.y < I32_MAX
  }

  function ClampReal(v: real, lo: real, hi: real): real
    requires lo <= hi
  {
    if v < lo then lo else if v > hi then hi else v
  }

  /** Clamping demands ordered bounds, which a non-empty rectangle without room does not give it. */
  lemma ClampOrderedExactlyWhenRoomy(r: Rect)
    requires !r.IsEmpty()
    ensures r.x as real <= r.Right() as real - NUDGE && r.y as real <= r.Bottom() as real - NUDGE <==> Roomy(r)
  {
  }

  /** The nearest point inside; none where the bounds are out of order, which stops the program. */
  function ClampInto(r: Rect, p: Point): (q: Option<Point>)
    ensures q.None? <==> !r.IsEmpty() && !Roomy(r)
    ensures Roomy(r) ==> Contains(r, q.value)
  {
    if r.IsEmpty() then Some(Point(r.x as real, r.y as real))
    else if !Roomy(r) then None
    else Some(Point(ClampReal(p.x, r.x as real, r.Right() as real - NUDGE),
                    ClampReal(p.y, r.y as real, r.Bottom() as real - NUDGE)))
  }

  /** A rectangle without extent has only its corner to give. */
  lemma EmptyClampsToCorner(r: Rect, p: Point)
    requires r.IsEmpty()
    ensures ClampInto(r, p) == Some(Point(r.x as real, r.y as real))
  {
  }

  function Apart(a: real, b: real): real {
    if a < b then b - a else a - b
  }

  /** Inside, and not in the last sliver before the far sides. */
  predicate WellInside(r: Rect, p: Point) {
    r.x as real <= p.x <= r.Right() as real - 0.001 && r.y as real <= p.y <= r.Bottom() as real - 0.001
  }

  /** Clamping takes the point well inside that is nearest, on each axis by itself. */
  lemma ClampIsNearest(r: Rect, p: Point, q: Point)
    requires Roomy(r) && WellInside(r, q)
    ensures var c := ClampInto(r, p).value;
            WellInside(r, c) && Apart(c.x, p.x) <= Apart(q.x, p.x) && Apart(c.y, p.y) <= Apart(q.y, p.y)
  {
  }

  function Find(ps: seq<Placement>, id: MonitorRef): (r: Option<Placement>)
    ensures r.Some? ==> r.value in ps && r.value.monitor == id
    ensures r.None? <==> !Places(ps, id)
  {
    if ps == [] then None
    else if ps[0].monitor == id then Some(ps[0])
    else Find(ps[1..], id)
  }

  // --- Leaving a screen ----------------------------------------------------

  function Fraction(gap: real, d: real): (t: real)
    requires d != 0.0
    ensures d * t == gap
  {
    gap / d
  }

  /** Where a path along one axis meets the side it heads for, as a fraction of the path; not when that lies
      behind the start or beyond the end. */
  function Meets(lo: real, hi: real, from: real, d: real, low: Edge, high: Edge): Option<(real, Edge)> {
    if d == 0.0 then None else
      var t := Fraction((if d > 0.0 then hi else lo) - from, d);
      if 0.0 <= t <= 1.0 then Some((t, if d > 0.0 then high else low)) else None
  }

  function At(from: real, d: real, t: real): real {
    from + d * t
  }

  /** The edge crossed first along the path. */
  function ExitEdge(r: Rect, from: Point, to: Point): Option<(Edge, Point)> {
    var dx, dy := to.x - from.x, to.y - from.y;
    var sideways := Meets(r.x as real, r.Right() as real, from.x, dx, Left, Right);
    var upright := Meets(r.y as real, r.Bottom() as real, from.y, dy, Top, Bottom);
    var best := if upright.Some? && (sideways.None? || upright.value.0 < sideways.value.0) then upright else sideways;
    if best.None? then None
    else Some((best.value.1, Point(At(from.x, dx, best.value.0), At(from.y, dy, best.value.0))))
  }

  /** On that side of the rectangle. */
  predicate OnEdge(r: Rect, edge: Edge, p: Point) {
    && r.x as real <= p.x <= r.Right() as real && r.y as real <= p.y <= r.Bottom() as real
    && match edge
       case Left => p.x == r.x as real
       case Right => p.x == r.Right() as real
       case Top => p.y == r.y as real
       case Bottom => p.y == r.Bottom() as real
  }

  lemma ProductOrder(d: real, s: real, t: real)
    ensures d > 0.0 ==> (s < t <==> d * s < d * t)
    ensures d < 0.0 ==> (s < t <==> d * s > d * t)
  {
    if s < t {
      assert d > 0.0 ==> d * (t - s) > 0.0;
      assert d < 0.0 ==> d * (t - s) < 0.0;
    } else if t < s {
      assert d > 0.0 ==> d * (s - t) > 0.0;
      assert d < 0.0 ==> d * (s - t) < 0.0;
    }
  }

  lemma FractionOrder(gap: real, d: real, t: real)
    requires d != 0.0
    ensures d > 0.0 ==> (Fraction(gap, d) < t <==> gap < d * t) && (t < Fraction(gap, d) <==> d * t < gap)
    ensures d < 0.0 ==> (Fraction(gap, d) < t <==> gap > d * t) && (t < Fraction(gap, d) <==> d * t > gap)
  {
    var end := Fraction(gap, d);
    ProductOrder(d, end, t);
    ProductOrder(d, t, end);
  }

  /** Between two sides, the far one included. */
  predicate Within(lo: real, hi: real, v: real) {
    lo <= v <= hi
  }

  /** A fraction of the way is on the way; less than none of it is behind, more than all of it is past. */
  lemma SignAndSize(d: real, t: real, part: real)
    requires part == d * t
    ensures d > 0.0 ==> (t < 0.0 ==> part < 0.0) && (t > 1.0 ==> part > d) && (0.0 <= t <= 1.0 ==> 0.0 <= part <= d)
    ensures d < 0.0 ==> (t < 0.0 ==> part > 0.0) && (t > 1.0 ==> part < d) && (0.0 <= t <= 1.0 ==> d <= part <= 0.0)
  {
    var rest := 1.0 - t;
    assert d * rest == d - part;
    if d > 0.0 {
      assert t < 0.0 ==> d * t < 0.0;
      assert t >= 0.0 ==> d * t >= 0.0;
      assert rest < 0.0 ==> d * rest < 0.0;
      assert rest >= 0.0 ==> d * rest >= 0.0;
    } else if d < 0.0 {
      assert t < 0.0 ==> d * t > 0.0;
      assert t >= 0.0 ==> d * t <= 0.0;
      assert rest < 0.0 ==> d * rest > 0.0;
      assert rest >= 0.0 ==> d * rest <= 0.0;
    }
  }

  /** A path that starts between two sides and never meets one stays between them. */
  lemma UnmetStaysWithin(lo: real, hi: real, from: real, d: real, low: Edge, high: Edge, t: real)
    requires lo <= from < hi && 0.0 <= t <= 1.0 && Meets(lo, hi, from, d, low, high).None?
    ensures lo <= from + d < hi && Within(lo, hi, At(from, d, t))
  {
    hide Fraction;
    if d != 0.0 {
      var gap := (if d > 0.0 then hi else lo) - from;
      var end := Fraction(gap, d);
      assert end < 0.0 || end > 1.0;
      SignAndSize(d, end, gap);
      SignAndSize(d, t, d * t);
      assert d > 0.0 ==> d < gap;
      assert d < 0.0 ==> d > gap;
    }
  }

  lemma MetOnTheSide(lo: real, hi: real, from: real, d: real, low: Edge, high: Edge)
    requires lo <= from < hi && Meets(lo, hi, from, d, low, high).Some?
    ensures var (t, edge) := Meets(lo, hi, from, d, low, high).value;
            0.0 <= t <= 1.0 && if d > 0.0 then edge == high && At(from, d, t) == hi else edge == low && At(from, d, t) == lo
  {
    hide Fraction;
  }

  lemma BeforeMeetingWithin(lo: real, hi: real, from: real, d: real, low: Edge, high: Edge, t: real)
    requires lo <= from < hi && Meets(lo, hi, from, d, low, high).Some?
    requires 0.0 <= t <= Meets(lo, hi, from, d, low, high).value.0
    ensures Within(lo, hi, At(from, d, t))
  {
    hide Fraction;
    ProductOrder(d, t, 0.0);
    FractionOrder((if d > 0.0 then hi else lo) - from, d, t);
  }

  lemma AcrossWithin(lo: real, hi: real, from: real, d: real, low: Edge, high: Edge, t: real)
    requires lo <= from < hi && 0.0 <= t <= 1.0
    requires var met := Meets(lo, hi, from, d, low, high); met.Some? ==> t <= met.value.0
    ensures Within(lo, hi, At(from, d, t))
  {
    if Meets(lo, hi, from, d, low, high).None? {
      UnmetStaysWithin(lo, hi, from, d, low, high, t);
    } else {
      BeforeMeetingWithin(lo, hi, from, d, low, high, t);
    }
  }

  /** A path that starts inside and ends outside meets some side. */
  lemma ExitExists(r: Rect, from: Point, to: Point)
    requires Contains(r, from) && !Contains(r, to)
    ensures ExitEdge(r, from, to).Some?
  {
    var sideways := Meets(r.x as real, r.Right() as real, from.x, to.x - from.x, Left, Right);
    var upright := Meets(r.y as real, r.Bottom() as real, from.y, to.y - from.y, Top, Bottom);
    if sideways.None? {
      UnmetStaysWithin(r.x as real, r.Right() as real, from.x, to.x - from.x, Left, Right, 1.0);
    }
    if upright.None? {
      UnmetStaysWithin(r.y as real, r.Bottom() as real, from.y, to.y - from.y, Top, Bottom, 1.0);
    }
  }

  /** It leaves through an edge, at a point of that edge. */
  lemma ExitIsOnTheEdge(r: Rect, from: Point, to: Point)
    requires Contains(r, from) && ExitEdge(r, from, to).Some?
    ensures var (edge, exit) := ExitEdge(r, from, to).value; OnEdge(r, edge, exit)
  {
    var sideways := Meets(r.x as real, r.Right() as real, from.x, to.x - from.x, Left, Right);
    var upright := Meets(r.y as real, r.Bottom() as real, from.y, to.y - from.y, Top, Bottom);
    if upright.Some? && (sideways.None? || upright.value.0 < sideways.value.0) {
      MetOnTheSide(r.y as real, r.Bottom() as real, from.y, to.y - from.y, Top, Bottom);
      AcrossWithin(r.x as real, r.Right() as real, from.x, to.x - from.x, Left, Right, upright.value.0);
    } else {
      MetOnTheSide(r.x as real, r.Right() as real, from.x, to.x - from.x, Left, Right);
      AcrossWithin(r.y as real, r.Bottom() as real, from.y, to.y - from.y, Top, Bottom, sideways.value.0);
    }
  }

  /** The point that far along the path. */
  function Along(from: Point, to: Point, t: real): Point {
    Point(At(from.x, to.x - from.x, t), At(from.y, to.y - from.y, t))
  }

  lemma EarlierIsBefore(r: Rect, from: Point, to: Point, t: real, s: real)
    requires 0.0 <= s <= t
    requires r.x as real <= from.x <= r.Right() as real && r.y as real <= from.y <= r.Bottom() as real
    requires r.x as real <= Along(from, to, t).x <= r.Right() as real
    requires r.y as real <= Along(from, to, t).y <= r.Bottom() as real
    ensures r.x as real <= Along(from, to, s).x <= r.Right() as real
    ensures r.y as real <= Along(from, to, s).y <= r.Bottom() as real
  {
    BetweenAlong(from.x, to.x - from.x, t, s);
    BetweenAlong(from.y, to.y - from.y, t, s);
  }

  lemma BetweenAlong(from: real, d: real, t: real, s: real)
    requires 0.0 <= s <= t
    ensures from <= At(from, d, s) <= At(from, d, t) || from >= At(from, d, s) >= At(from, d, t)
  {
    ProductOrder(d, s, t);
    ProductOrder(d, 0.0, s);
    if s == t {
      assert d * s == d * t;
    }
    if s == 0.0 {
      assert d * s == 0.0;
    }
    if d == 0.0 {
      assert d * s == 0.0 && d * t == 0.0;
    }
  }

  /** The exit point is on the path, and up to it the path has not left the rectangle. */
  lemma ExitIsOnThePath(r: Rect, from: Point, to: Point) returns (t: real)
    requires Contains(r, from) && ExitEdge(r, from, to).Some?
    ensures 0.0 <= t <= 1.0 && ExitEdge(r, from, to).value.1 == Along(from, to, t)
    ensures forall s :: 0.0 <= s <= t ==>
              && r.x as real <= Along(from, to, s).x <= r.Right() as real
              && r.y as real <= Along(from, to, s).y <= r.Bottom() as real
  {
    var sideways := Meets(r.x as real, r.Right() as real, from.x, to.x - from.x, Left, Right);
    var upright := Meets(r.y as real, r.Bottom() as real, from.y, to.y - from.y, Top, Bottom);
    t := if upright.Some? && (sideways.None? || upright.value.0 < sideways.value.0) then upright.value.0 else sideways.value.0;
    ExitIsOnTheEdge(r, from, to);
    hide Meets, At;
    forall s | 0.0 <= s <= t
      ensures && r.x as real <= Along(from, to, s).x <= r.Right() as real
              && r.y as real <= Along(from, to, s).y <= r.Bottom() as real
    {
      EarlierIsBefore(r, from, to, t, s);
    }
  }

  /** Through a corner it is a side, not the top or bottom, that the path leaves by. */
  lemma CornerLeavesSideways(r: Rect, from: Point, to: Point)
    requires Contains(r, from) && ExitEdge(r, from, to).Some?
    requires var p := ExitEdge(r, from, to).value.1;
             p.x == (if to.x > from.x then r.Right() else r.x) as real && p.y == (if to.y > from.y then r.Bottom() else r.y) as real
    requires to.x != from.x
    ensures ExitEdge(r, from, to).value.0 == if to.x > from.x then Right else Left
  {
    hide Fraction, Contains;
    var dx, dy := to.x - from.x, to.y - from.y;
    var sideways := Meets(r.x as real, r.Right() as real, from.x, dx, Left, Right);
    var upright := Meets(r.y as real, r.Bottom() as real, from.y, dy, Top, Bottom);
    if upright.Some? && (sideways.None? || upright.value.0 < sideways.value.0) {
      var t := upright.value.0;
      var side := (if dx > 0.0 then r.Right() else r.x) as real;
      assert At(from.x, dx, t) == side;
      assert dx * t == side - from.x;
      OnlyFraction(side - from.x, dx, t);
    }
  }

  lemma OnlyFraction(gap: real, d: real, t: real)
    requires d != 0.0 && d * t == gap
    ensures Fraction(gap, d) == t
  {
    var f := Fraction(gap, d);
    ProductOrder(d, f, t);
    ProductOrder(d, t, f);
  }

  // --- Choosing a destination ----------------------------------------------

  /** How far beyond that edge a candidate lies; negative when it does not. */
  function TrueGap(from: Rect, candidate: Rect, edge: Edge): int {
    match edge
    case Right => candidate.x - from.Right()
    case Left => from.x - candidate.Right()
    case Bottom => candidate.y - from.Bottom()
    case Top => from.y - candidate.Bottom()
  }

  /** The same, subtracted in 32 bits. */
  function AxisGap(from: Rect, candidate: Rect, edge: Edge): (r: Option<int>)
    ensures r.Some? ==> r.value >= 0
  {
    var gap := WrapToI32(TrueGap(from, candidate, edge));
    if gap >= 0 then Some(gap) else None
  }

  function Outside(lo: real, hi: real, v: real): real {
    if v < lo then lo - v else if v >= hi then v - (hi - 1.0) else 0.0
  }

  /** How far the exit point sits outside the candidate, along the edge. */
  function PerpendicularOffset(r: Rect, exit: Point, edge: Edge): real {
    match edge
    case Left => Outside(r.y as real, r.Bottom() as real, exit.y)
    case Right => Outside(r.y as real, r.Bottom() as real, exit.y)
    case Top => Outside(r.x as real, r.Right() as real, exit.x)
    case Bottom => Outside(r.x as real, r.Right() as real, exit.x)
  }

  /** The part of the candidate's side that faces the edge, from its first unit to past its last. */
  function Facing(r: Rect, edge: Edge): (int, int) {
    if edge in {Left, Right} then (r.y, r.Bottom()) else (r.x, r.Right())
  }

  function AlongEdge(p: Point, edge: Edge): real {
    if edge in {Left, Right} then p.y else p.x
  }

  /** None exactly where the candidate's side covers the exit point; otherwise the distance to the nearest of its
      units, first to last. */
  lemma OffsetIsDistance(r: Rect, exit: Point, edge: Edge, unit: int)
    requires var (first, past) := Facing(r, edge); first <= unit < past
    ensures var (first, past) := Facing(r, edge);
            var v, offset := AlongEdge(exit, edge), PerpendicularOffset(r, exit, edge);
            if first as real <= v < past as real then offset == 0.0
            else 0.0 < offset <= Apart(v, unit as real)
                 && (offset == Apart(v, first as real) || offset == Apart(v, (past - 1) as real))
  {
  }

  predicate Eligible(p: Placement, from: Placement, edge: Edge) {
    p.monitor != from.monitor && !p.bounds.IsEmpty() && AxisGap(from.bounds, p.bounds, edge).Some?
  }

  /** Another screen, not empty, that does lie beyond that edge. */
  predicate Beyond(p: Placement, from: Placement, edge: Edge) {
    p.monitor != from.monitor && !p.bounds.IsEmpty() && TrueGap(from.bounds, p.bounds, edge) >= 0
  }

  predicate GapFits(p: Placement, from: Placement, edge: Edge) {
    I32_MIN <= TrueGap(from.bounds, p.bounds, edge) <= I32_MAX
  }

  function Gap(p: Placement, from: Placement, edge: Edge): real {
    var gap := AxisGap(from.bounds, p.bounds, edge);
    if gap.Some? then gap.value as real else 0.0
  }

  /** Another screen counts as lying beyond the edge when it does, and not when it does not, exactly when the
      gap fits in 32 bits: a gap that does not always reads the wrong way round. */
  lemma EligibleExactlyWhenGapFits(p: Placement, from: Placement, edge: Edge)
    requires p.monitor != from.monitor && !p.bounds.IsEmpty()
    ensures (Eligible(p, from, edge) <==> Beyond(p, from, edge)) <==> GapFits(p, from, edge)
    ensures GapFits(p, from, edge) && Beyond(p, from, edge) ==>
              Gap(p, from, edge) == TrueGap(from.bounds, p.bounds, edge) as real
  {
    var gap := TrueGap(from.bounds, p.bounds, edge);
    if gap > I32_MAX {
      assert WrapToI32(gap) == gap - 0x1_0000_0000;
    } else if gap < I32_MIN {
      assert WrapToI32(gap) == gap + 0x1_0000_0000;
    }
  }

  /** Two screens far apart: the one on the left is taken to lie to the right, and not to the left. */
  lemma FarApartReadsBackwards(a: MonitorRef, b: MonitorRef)
    requires a != b
    ensures var from := Placement(a, Rect(2_000_000_000, 0, 1920, 1080), 0);
            var far := Placement(b, Rect(-2_000_000_000, 0, 1920, 1080), 0);
            && Beyond(far, from, Left) && !Eligible(far, from, Left)
            && !Beyond(far, from, Right) && Eligible(far, from, Right)
            && Gap(far, from, Right) == 294_965_376.0
  {
    assert WrapToI32(3_999_998_080) == 3_999_998_080 - 0x1_0000_0000;
    assert WrapToI32(-4_000_001_920) == -4_000_001_920 + 0x1_0000_0000;
  }

  function Score(p: Placement, from: Placement, exit: Point, edge: Edge): real {
    Gap(p, from, edge) + PerpendicularOffset(p.bounds, exit, edge)
  }

  /** Beyond that edge; with `ahead`, also straight ahead of the exit point. */
  predicate Candidate(p: Placement, ahead: bool, from: Placement, exit: Point, edge: Edge) {
    Eligible(p, from, edge) && (ahead ==> PerpendicularOffset(p.bounds, exit, edge) == 0.0)
  }

  /** The candidate a left-to-right scan ends up with. */
  function Scan(ps: seq<Placement>, ahead: bool, from: Placement, exit: Point, edge: Edge): (r: Option<nat>)
    ensures r.Some? ==> r.value < |ps| && Candidate(ps[r.value], ahead, from, exit, edge)
    decreases |ps|
  {
    if ps == [] then None else
      var n := |ps| - 1;
      var best := Scan(ps[..n], ahead, from, exit, edge);
      if !Candidate(ps[n], ahead, from, exit, edge) then best
      else if best.Some? && Score(ps[best.value], from, exit, edge) <= Score(ps[n], from, exit, edge) then best
      else Some(n)
  }

  /** The first of the candidates that score best. A candidate straight ahead scores its gap alone. */
  lemma {:induction false} ScanFindsFirstBest(ps: seq<Placement>, ahead: bool, from: Placement, exit: Point, edge: Edge)
    ensures var best := Scan(ps, ahead, from, exit, edge);
            if best.None? then forall p <- ps :: !Candidate(p, ahead, from, exit, edge)
            else forall j :: 0 <= j < |ps| && Candidate(ps[j], ahead, from, exit, edge) ==>
              Score(ps[best.value], from, exit, edge) < Score(ps[j], from, exit, edge)
              || (Score(ps[best.value], from, exit, edge) == Score(ps[j], from, exit, edge) && best.value <= j)
    decreases |ps|
  {
    hide Candidate, Score;
    if ps != [] {
      var n := |ps| - 1;
      ScanFindsFirstBest(ps[..n], ahead, from, exit, edge);
      assert forall j :: 0 <= j < n ==> ps[j] == ps[..n][j];
      assert forall p <- ps :: p == ps[n] || p in ps[..n];
    }
  }

  datatype Crossing = Crossing(to: MonitorRef, entry: Point, via: Edge)

  /** Where leaving by an edge leads. `Stuck` is a destination without room to clamp into, where the program
      stops. */
  datatype Way = Nowhere | Across(crossing: Crossing) | Stuck(to: MonitorRef)

  function EntryPoint(r: Rect, exit: Point, via: Edge): (q: Option<Point>)
    ensures q.None? <==> !r.IsEmpty() && !Roomy(r)
    ensures Roomy(r) ==> Contains(r, q.value)
  {
    ClampInto(r, match via
      case Left => Point(r.x as real + ENTRY_INSET, exit.y)
      case Right => Point(r.Right() as real - ENTRY_INSET, exit.y)
      case Top => Point(exit.x, r.y as real + ENTRY_INSET)
      case Bottom => Point(exit.x, r.Bottom() as real - ENTRY_INSET))
  }

  /** The screen a cursor leaving through that edge at that point reaches. */
  function Destination(ps: seq<Placement>, from: Placement, exit: Point, edge: Edge): (r: Option<nat>)
    ensures r.Some? ==> r.value < |ps| && Eligible(ps[r.value], from, edge)
  {
    var ahead := Scan(ps, true, from, exit, edge);
    if ahead.Some? then ahead else Scan(ps, false, from, exit, edge)
  }

  function Entering(to: Placement, exit: Point, via: Edge): Way {
    var entry := EntryPoint(to.bounds, exit, via);
    if entry.None? then Stuck(to.monitor) else Across(Crossing(to.monitor, entry.value, via))
  }

  function Resolve(ps: seq<Placement>, from: Placement, exit: Point, edge: Edge): Way {
    var to := Destination(ps, from, exit, edge);
    if to.None? then Nowhere else Entering(ps[to.value], exit, edge.Opposite())
  }

  lemma ScanStep(ps: seq<Placement>, k: nat, ahead: bool, from: Placement, exit: Point, edge: Edge)
    requires k < |ps|
    ensures var best := Scan(ps[..k], ahead, from, exit, edge);
            var kept := best.Some? && Score(ps[best.value], from, exit, edge) <= Score(ps[k], from, exit, edge);
            Scan(ps[..k + 1], ahead, from, exit, edge)
              == (if !Candidate(ps[k], ahead, from, exit, edge) || kept then best else Some(k))
  {
    assert ps[..k + 1][..k] == ps[..k];
  }

  method ResolveCrossing(ps: seq<Placement>, from: Placement, exit: Point, edge: Edge) returns (r: Way)
    ensures r == Resolve(ps, from, exit, edge)
  {
    hide AxisGap, EntryPoint, Score;
    var covering: Option<nat>, nearest: Option<nat> := None, None;
    for k := 0 to |ps|
      invariant covering == Scan(ps[..k], true, from, exit, edge)
      invariant nearest == Scan(ps[..k], false, from, exit, edge)
    {
      ScanStep(ps, k, true, from, exit, edge);
      ScanStep(ps, k, false, from, exit, edge);
      if !Eligible(ps[k], from, edge) {
        continue;
      }
      var score := Score(ps[k], from, exit, edge);
      if PerpendicularOffset(ps[k].bounds, exit, edge) == 0.0
         && (covering.None? || score < Score(ps[covering.value], from, exit, edge)) {
        covering := Some(k);
      }
      if nearest.None? || score < Score(ps[nearest.value], from, exit, edge) {
        nearest := Some(k);
      }
    }
    assert ps[..|ps|] == ps;
    var best := if covering.Some? then covering else nearest;
    if best.None? {
      return Nowhere;
    }
    return Entering(ps[best.value], exit, edge.Opposite());
  }

  /** A crossing lands strictly inside another screen, which lies beyond the edge it left by exactly when the
      gap fits; the program stops exactly when that screen has no room inside. */
  lemma CrossingLandsInside(ps: seq<Placement>, from: Placement, exit: Point, edge: Edge)
    requires Resolve(ps, from, exit, edge) != Nowhere
    ensures var way := Resolve(ps, from, exit, edge);
            exists p <- ps ::
              && Eligible(p, from, edge) && (Beyond(p, from, edge) <==> GapFits(p, from, edge))
              && (way.Stuck? <==> !Roomy(p.bounds))
              && (way.Stuck? ==> way.to == p.monitor)
              && (way.Across? ==> way.crossing.to == p.monitor && Contains(p.bounds, way.crossing.entry))
  {
    var p := ps[Destination(ps, from, exit, edge).value];
    EligibleExactlyWhenGapFits(p, from, edge);
    assert p in ps;
  }

  /** Whether there is anywhere to go depends on the edge alone, not on where along it the cursor leaves:
      asking about the midpoint is asking about every point. */
  lemma NeighbourExactlyWhenOneIsEligible(ps: seq<Placement>, from: Placement, exit: Point, edge: Edge)
    ensures Resolve(ps, from, exit, edge) != Nowhere <==> exists p <- ps :: Eligible(p, from, edge)
  {
    hide Score, PerpendicularOffset, AxisGap, EntryPoint, Scan, Eligible;
    ScanFindsFirstBest(ps, false, from, exit, edge);
    if exists p <- ps :: Eligible(p, from, edge) {
      var p :| p in ps && Eligible(p, from, edge);
      assert Candidate(p, false, from, exit, edge);
    }
  }

  /** Another screen further beyond the edge, or further behind it, than 32 bits can say. */
  predicate FarAhead(p: Placement, from: Placement, edge: Edge) {
    p.monitor != from.monitor && !p.bounds.IsEmpty() && TrueGap(from.bounds, p.bounds, edge) > I32_MAX
  }

  predicate FarBehind(p: Placement, from: Placement, edge: Edge) {
    p.monitor != from.monitor && !p.bounds.IsEmpty() && TrueGap(from.bounds, p.bounds, edge) < I32_MIN
  }

  predicate NearAhead(p: Placement, from: Placement, edge: Edge) {
    Beyond(p, from, edge) && GapFits(p, from, edge)
  }

  /** The cursor has somewhere to go exactly when a screen lies beyond the edge, exactly when some such screen
      is within 32 bits of it, or else screens too far ahead and screens too far behind are both there or
      both missing. With every gap in range, always. */
  lemma NeighbourIsGeometricExactly(ps: seq<Placement>, from: Placement, exit: Point, edge: Edge)
    ensures (Resolve(ps, from, exit, edge) != Nowhere <==> exists p <- ps :: Beyond(p, from, edge)) <==>
              || (exists p <- ps :: NearAhead(p, from, edge))
              || ((exists p <- ps :: FarAhead(p, from, edge)) <==> (exists p <- ps :: FarBehind(p, from, edge)))
    ensures GapsFit(ps, from, edge) ==>
              (Resolve(ps, from, exit, edge) != Nowhere <==> exists p <- ps :: Beyond(p, from, edge))
  {
    NeighbourExactlyWhenOneIsEligible(ps, from, exit, edge);
    EligibleIsNearAheadOrFarBehind(ps, from, edge);
  }

  ghost predicate GapsFit(ps: seq<Placement>, from: Placement, edge: Edge) {
    forall p <- ps :: GapFits(p, from, edge)
  }

  lemma EligibleIsNearAheadOrFarBehind(ps: seq<Placement>, from: Placement, edge: Edge)
    ensures forall p <- ps :: Eligible(p, from, edge) <==> NearAhead(p, from, edge) || FarBehind(p, from, edge)
    ensures forall p <- ps :: Beyond(p, from, edge) <==> NearAhead(p, from, edge) || FarAhead(p, from, edge)
  {
    forall p <- ps
      ensures Eligible(p, from, edge) <==> NearAhead(p, from, edge) || FarBehind(p, from, edge)
    {
      if p.monitor != from.monitor && !p.bounds.IsEmpty() {
        EligibleExactlyWhenGapFits(p, from, edge);
      }
    }
  }

  /** Unchanged, unless it is in the last sliver before the far side. */
  function UpTo(v: real, side: i32): real {
    if v <= side as real - NUDGE then v else side as real - NUDGE
  }

  /** A screen straight ahead is preferred, nearest first by the 32-bit gap, which is the true one where the gaps
      fit; and the cursor keeps its place along the seam. */
  lemma StraightAheadKeepsItsHeight(ps: seq<Placement>, from: Placement, exit: Point, edge: Edge)
    requires exists p <- ps :: Candidate(p, true, from, exit, edge)
    ensures Destination(ps, from, exit, edge).Some?
    ensures var to := ps[Destination(ps, from, exit, edge).value];
            var way := Resolve(ps, from, exit, edge);
            && Candidate(to, true, from, exit, edge)
            && (forall p <- ps :: Candidate(p, true, from, exit, edge) ==> Gap(to, from, edge) <= Gap(p, from, edge))
            && (way.Across? ==>
                  if edge in {Left, Right} then way.crossing.entry.y == UpTo(exit.y, to.bounds.Bottom())
                  else way.crossing.entry.x == UpTo(exit.x, to.bounds.Right()))
  {
    ScanFindsFirstBest(ps, true, from, exit, edge);
  }

  /** With every gap in range, the screen reached is one straight ahead and beyond the edge, and no other such
      screen is closer to it. */
  lemma NearestStraightAhead(ps: seq<Placement>, from: Placement, exit: Point, edge: Edge)
    requires GapsFit(ps, from, edge)
    requires exists p <- ps :: Beyond(p, from, edge) && PerpendicularOffset(p.bounds, exit, edge) == 0.0
    ensures Destination(ps, from, exit, edge).Some?
    ensures var to := ps[Destination(ps, from, exit, edge).value];
            && Beyond(to, from, edge) && PerpendicularOffset(to.bounds, exit, edge) == 0.0
            && forall p <- ps :: Beyond(p, from, edge) && PerpendicularOffset(p.bounds, exit, edge) == 0.0 ==>
                 TrueGap(from.bounds, to.bounds, edge) <= TrueGap(from.bounds, p.bounds, edge)
  {
    hide Scan, PerpendicularOffset, AxisGap, TrueGap;
    EligibleIsNearAheadOrFarBehind(ps, from, edge);
    GapsAreTrue(ps, from, edge);
    var p :| p in ps && Beyond(p, from, edge) && PerpendicularOffset(p.bounds, exit, edge) == 0.0;
    assert Candidate(p, true, from, exit, edge);
    StraightAheadKeepsItsHeight(ps, from, exit, edge);
    var to := ps[Destination(ps, from, exit, edge).value];
    assert to in ps;
    forall q <- ps | Beyond(q, from, edge) && PerpendicularOffset(q.bounds, exit, edge) == 0.0
      ensures TrueGap(from.bounds, to.bounds, edge) <= TrueGap(from.bounds, q.bounds, edge)
    {
      assert Candidate(q, true, from, exit, edge);
    }
  }

  /** With every gap in range and no screen straight ahead, the one reached has the least distance, out to it and along
      the edge together, of all that lie beyond the edge. */
  lemma NearestAskew(ps: seq<Placement>, from: Placement, exit: Point, edge: Edge)
    requires GapsFit(ps, from, edge) && exists p <- ps :: Beyond(p, from, edge)
    requires forall p <- ps :: Beyond(p, from, edge) ==> PerpendicularOffset(p.bounds, exit, edge) != 0.0
    ensures Destination(ps, from, exit, edge).Some?
    ensures var to := ps[Destination(ps, from, exit, edge).value];
            && Beyond(to, from, edge)
            && forall p <- ps :: Beyond(p, from, edge) ==>
                 TrueGap(from.bounds, to.bounds, edge) as real + PerpendicularOffset(to.bounds, exit, edge)
                 <= TrueGap(from.bounds, p.bounds, edge) as real + PerpendicularOffset(p.bounds, exit, edge)
  {
    hide Scan, PerpendicularOffset, Gap, Eligible, Beyond, TrueGap;
    GapsAreTrue(ps, from, edge);
    ScanFindsFirstBest(ps, true, from, exit, edge);
    ScanFindsFirstBest(ps, false, from, exit, edge);
    var found := Destination(ps, from, exit, edge);
    assert found == Scan(ps, false, from, exit, edge) by {
      NothingAhead(ps, from, exit, edge);
    }
    var p :| p in ps && Beyond(p, from, edge);
    assert Candidate(p, false, from, exit, edge);
    var to := ps[found.value];
    assert to in ps;
    forall q <- ps | Beyond(q, from, edge)
      ensures Score(to, from, exit, edge) <= Score(q, from, exit, edge)
    {
      assert Candidate(q, false, from, exit, edge);
      var j :| 0 <= j < |ps| && ps[j] == q;
    }
  }

  lemma NothingAhead(ps: seq<Placement>, from: Placement, exit: Point, edge: Edge)
    requires GapsFit(ps, from, edge)
    requires forall p <- ps :: Beyond(p, from, edge) ==> PerpendicularOffset(p.bounds, exit, edge) != 0.0
    ensures Scan(ps, true, from, exit, edge).None?
    ensures Destination(ps, from, exit, edge) == Scan(ps, false, from, exit, edge)
  {
    hide PerpendicularOffset, Beyond;
    GapsAreTrue(ps, from, edge);
    assert forall p <- ps :: !Candidate(p, true, from, exit, edge);
    hide Scan, GapsFit, Eligible, Candidate;
  }

  lemma GapsAreTrue(ps: seq<Placement>, from: Placement, edge: Edge)
    requires GapsFit(ps, from, edge)
    ensures forall p <- ps :: Eligible(p, from, edge) <==> Beyond(p, from, edge)
    ensures forall p <- ps :: Beyond(p, from, edge) ==> Gap(p, from, edge) == TrueGap(from.bounds, p.bounds, edge) as real
  {
    forall p <- ps
      ensures Eligible(p, from, edge) <==> Beyond(p, from, edge)
      ensures Beyond(p, from, edge) ==> Gap(p, from, edge) == TrueGap(from.bounds, p.bounds, edge) as real
    {
      if p.monitor != from.monitor && !p.bounds.IsEmpty() {
        EligibleExactlyWhenGapFits(p, from, edge);
      }
    }
  }

  // --- Where the cursor comes in -------------------------------------------

  /** How far inside that side of the rectangle. */
  function Depth(r: Rect, side: Edge, p: Point): real {
    match side
    case Left => p.x - r.x as real
    case Right => r.Right() as real - p.x
    case Top => p.y - r.y as real
    case Bottom => r.Bottom() as real - p.y
  }

  /** The rectangle's extent from that side to the opposite one, up to the last storable coordinate. */
  function Reach(r: Rect, side: Edge): int {
    if side in {Left, Right} then r.Right() - r.x else r.Bottom() - r.y
  }

  /** A crossing comes in through the side facing the one it left by, at most one unit inside it, and exactly one
      where the screen is at least two units across that way. */
  lemma EntersAtTheSide(ps: seq<Placement>, from: Placement, exit: Point, edge: Edge)
    requires Resolve(ps, from, exit, edge).Across?
    ensures var crossing := Resolve(ps, from, exit, edge).crossing;
            && crossing.via == (match edge case Left => Right case Right => Left case Top => Bottom case Bottom => Top)
            && exists p <- ps ::
                 && p.monitor == crossing.to && Eligible(p, from, edge)
                 && 0.0 < Depth(p.bounds, crossing.via, crossing.entry) <= 1.0
                 && (Reach(p.bounds, crossing.via) >= 2 ==> Depth(p.bounds, crossing.via, crossing.entry) == 1.0)
  {
    var p := ps[Destination(ps, from, exit, edge).value];
    hide Destination, Eligible;
    assert p in ps;
  }

  /** One unit on from the exit point, away from the screen left. */
  function OneOn(exit: Point, edge: Edge): Point {
    match edge
    case Left => Point(exit.x - 1.0, exit.y)
    case Right => Point(exit.x + 1.0, exit.y)
    case Top => Point(exit.x, exit.y - 1.0)
    case Bottom => Point(exit.x, exit.y + 1.0)
  }

  /** Between screens that abut, straight ahead, the cursor goes one unit past the shared edge, and along it stays
      where it was up to the last sliver before the far corner. */
  lemma AbuttingGoesOneOn(ps: seq<Placement>, from: Placement, exit: Point, edge: Edge)
    requires OnEdge(from.bounds, edge, exit) && Resolve(ps, from, exit, edge).Across?
    requires var to := ps[Destination(ps, from, exit, edge).value].bounds;
             && TrueGap(from.bounds, to, edge) == 0 && Reach(to, edge) >= 2 && PerpendicularOffset(to, exit, edge) == 0.0
    ensures var to := ps[Destination(ps, from, exit, edge).value].bounds;
            var entry, on := Resolve(ps, from, exit, edge).crossing.entry, OneOn(exit, edge);
            if edge in {Left, Right} then entry == Point(on.x, UpTo(on.y, to.Bottom()))
            else entry == Point(UpTo(on.x, to.Right()), on.y)
  {
    hide Destination;
  }
}
