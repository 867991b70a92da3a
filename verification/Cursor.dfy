/** The authoritative cursor (crates/wx-core/src/cursor.rs). Coordinates and deltas are reals. */
module Cursors {
  import opened Wrappers
  import opened Ints
  import opened Geometry
  import opened GlobalLayouts
  import opened Crossings

  datatype Cursor = Cursor(monitor: MonitorRef, pos: Point, remainder: Point, lastNorm: Point, locked: bool)

  datatype Motion =
    | Moved(monitor: MonitorRef, pos: Point)
    | Transitioned(from: MonitorRef, to: MonitorRef, entry: Point, via: Edge)
    | Blocked(monitor: MonitorRef, pos: Point)

  datatype WarpError = UnknownMonitor(monitor: MonitorRef) | DegenerateMonitor(monitor: MonitorRef)

  // --- Cursor scale --------------------------------------------------------

  function Pow2(e: nat): (r: real)
    ensures r >= 1.0
  {
    if e == 0 then 1.0 else 2.0 * Pow2(e - 1)
  }

  /** The value of a single-precision bit pattern; none for an infinity or a NaN. */
  function Float32(bits: u32): Option<real> {
    var exponent, fraction := bits / 0x80_0000 % 0x100, bits % 0x80_0000;
    if exponent == 0xff then None
    else Some(if bits < 0x8000_0000 then Magnitude(exponent, fraction) else -Magnitude(exponent, fraction))
  }

  function Magnitude(exponent: nat, fraction: nat): real {
    var mantissa := (if exponent == 0 then fraction else 0x80_0000 + fraction) as real;
    Quotient(Product(mantissa, Pow2(Max(exponent, 1))), Pow2(150))
  }

  function Product(a: real, b: real): real {
    a * b
  }

  function Quotient(a: real, b: real): (q: real)
    requires b > 0.0
    ensures Product(q, b) == a
  {
    a / b
  }

  /** Zero, negative and non-finite scales all mean unscaled. */
  function EffectiveScale(bits: u32): (r: real)
    ensures r > 0.0
  {
    var scale := Float32(bits);
    if scale.Some? && scale.value > 0.0 then scale.value else 1.0
  }

  lemma {:induction false} Pow2Sum(a: nat, b: nat)
    ensures Pow2(a + b) == Pow2(a) * Pow2(b)
  {
    if a > 0 {
      Pow2Sum(a - 1, b);
    }
  }

  lemma Pow2Of23()
    ensures Pow2(23) == 8388608.0
  {
    assert Pow2(7) == 128.0 && Pow2(8) == 256.0;
    Pow2Sum(8, 8);
    Pow2Sum(16, 7);
  }

  /** The scale placements start out with decodes to one. */
  lemma UnscaledIsOne()
    ensures EffectiveScale(0x3f80_0000) == 1.0
  {
    hide Pow2;
    Pow2Of23();
    Pow2Sum(23, 127);
    var mantissa := 0x80_0000 as real;
    assert mantissa * Pow2(127) / Pow2(150) == 1.0;
    assert 0x3f80_0000 / 0x80_0000 % 0x100 == 127 && 0x3f80_0000 % 0x80_0000 == 0;
  }

  lemma FieldsOf(sign: nat, exponent: nat, fraction: nat)
    requires sign < 2 && exponent < 0x100 && fraction < 0x80_0000
    ensures var bits := sign * 0x8000_0000 + exponent * 0x80_0000 + fraction;
            && bits / 0x80_0000 % 0x100 == exponent && bits % 0x80_0000 == fraction && (bits < 0x8000_0000 <==> sign == 0)
  {
  }

  lemma ProductSign(a: real, b: real)
    requires b > 0.0
    ensures Product(a, b) > 0.0 <==> a > 0.0
    ensures Product(a, b) < 0.0 <==> a < 0.0
  {
    ProductOrder(b, 0.0, a);
    ProductOrder(b, a, 0.0);
    assert Product(a, b) == b * a;
  }

  lemma MagnitudeExactly(exponent: nat, fraction: nat)
    ensures Product(Magnitude(exponent, fraction), Pow2(150))
         == if exponent == 0 then Product(fraction as real, 2.0) else Product((0x80_0000 + fraction) as real, Pow2(exponent))
    ensures Magnitude(exponent, fraction) >= 0.0
    ensures Magnitude(exponent, fraction) > 0.0 <==> exponent > 0 || fraction > 0
  {
    assert Pow2(1) == 2.0;
    hide Pow2, Product, Quotient;
    var mantissa := (if exponent == 0 then fraction else 0x80_0000 + fraction) as real;
    var power := Pow2(Max(exponent, 1));
    ProductSign(mantissa, power);
    ProductSign(Magnitude(exponent, fraction), Pow2(150));
  }

  /** A positive finite scale counts for what its bits say: 23 bits of fraction, with a leading one unless the exponent
      is nought, times two to the exponent, biased by 150 with the fraction's own bits. A negative or zero one, an
      infinity, and what is not a number all count for one. */
  lemma ScaleExactly(sign: nat, exponent: nat, fraction: nat)
    requires sign < 2 && exponent < 0x100 && fraction < 0x80_0000
    ensures var bits := sign * 0x8000_0000 + exponent * 0x80_0000 + fraction;
            && 0 <= bits <= U32_MAX
            && var scale := EffectiveScale(bits);
            if sign == 1 || exponent == 0xff || (exponent == 0 && fraction == 0) then scale == 1.0
            else if exponent == 0 then Product(scale, Pow2(150)) == Product(fraction as real, 2.0)
            else Product(scale, Pow2(150)) == Product((0x80_0000 + fraction) as real, Pow2(exponent))
  {
    hide Product, Magnitude, Pow2;
    FieldsOf(sign, exponent, fraction);
    MagnitudeExactly(exponent, fraction);
    hide Pow2, Magnitude, Product;
  }

  // --- Motion --------------------------------------------------------------

  /** Truncation toward zero. */
  function Trunc(v: real): (r: int)
    ensures -1.0 < v - r as real < 1.0
    ensures v >= 0.0 ==> r as real <= v
    ensures v <= 0.0 ==> r as real >= v
  {
    if v >= 0.0 then v.Floor else -((-v).Floor)
  }

  /** Position as a fraction of the rectangle, kept within it. */
  function Normalized(r: Rect, p: Point): Point
    requires !r.IsEmpty()
  {
    Point(ClampReal((p.x - r.x as real) / r.w as real, 0.0, 1.0),
          ClampReal((p.y - r.y as real) / r.h as real, 0.0, 1.0))
  }

  function Denormalized(r: Rect, n: Point): Point {
    Point(r.x as real + n.x * r.w as real, r.y as real + n.y * r.h as real)
  }

  function Sanitized(n: Point): Point {
    Point(ClampReal(n.x, 0.0, 1.0), ClampReal(n.y, 0.0, 1.0))
  }

  function Scaled(d: Point, scale: real): Point {
    Point(d.x * scale, d.y * scale)
  }

  /** Accumulated motion: what is spent now, in whole units, and what is kept. */
  function Accumulate(remainder: Point, s: Point): (r: (Point, Point))
    ensures r.0.x + r.1.x == remainder.x + s.x && r.0.y + r.1.y == remainder.y + s.y
    ensures -1.0 < r.1.x < 1.0 && -1.0 < r.1.y < 1.0
  {
    var wanted := Point(remainder.x + s.x, remainder.y + s.y);
    var step := Point(Trunc(wanted.x) as real, Trunc(wanted.y) as real);
    (step, Point(wanted.x - step.x, wanted.y - step.y))
  }

  function Parked(c: Cursor, r: Rect, pos: Point): Cursor
    requires !r.IsEmpty()
  {
    c.(pos := pos, lastNorm := Normalized(r, pos))
  }

  function ResolveMove(ps: seq<Placement>, from: Placement, origin: Point, target: Point): Way {
    if Contains(from.bounds, target) then Nowhere else
      var exit := ExitEdge(from.bounds, origin, target);
      if exit.None? then Nowhere else Resolve(ps, from, exit.value.1, exit.value.0)
  }

  function Target(c: Cursor, held: Placement, d: Point): Point {
    var step := Accumulate(c.remainder, Scaled(d, EffectiveScale(held.scale))).0;
    Point(c.pos.x + step.x, c.pos.y + step.y)
  }

  /** Pushed against a side it cannot leave by; none where there is no room to clamp into, and the program stops. */
  function Stopped(c: Cursor, r: Rect, target: Point): Option<(Cursor, Motion)>
    requires !r.IsEmpty()
  {
    var pos := ClampInto(r, target);
    if pos.None? then None else
      var after := Parked(c, r, pos.value);
      Some((after, Blocked(c.monitor, after.lastNorm)))
  }

  /** With the motion already accumulated: stay, stop at the side, or cross. */
  function Settled(c: Cursor, ps: seq<Placement>, held: Placement, target: Point): Option<(Cursor, Motion)>
    requires !held.bounds.IsEmpty()
  {
    var rect := held.bounds;
    if Contains(rect, target) then
      var after := Parked(c, rect, target);
      Some((after, Moved(c.monitor, after.lastNorm)))
    else
      match if c.locked then Nowhere else ResolveMove(ps, held, c.pos, target)
      case Nowhere => Stopped(c, rect, target)
      case Stuck(_) => None
      case Across(crossing) =>
        var landed := Landing(ps, crossing.to, rect);
        var after := Parked(c.(monitor := crossing.to, remainder := Point(0.0, 0.0)), landed, crossing.entry);
        Some((after, Transitioned(c.monitor, crossing.to, after.lastNorm, crossing.via)))
  }

  function Landing(ps: seq<Placement>, to: MonitorRef, otherwise: Rect): (r: Rect)
    requires !otherwise.IsEmpty()
    ensures !r.IsEmpty()
  {
    var landing := Find(ps, to);
    if landing.Some? && !landing.value.bounds.IsEmpty() then landing.value.bounds else otherwise
  }

  function Spent(c: Cursor, held: Placement, d: Point): Cursor {
    c.(remainder := Accumulate(c.remainder, Scaled(d, EffectiveScale(held.scale))).1)
  }

  /** One motion; none where it stops the program. */
  function MovedBy(c: Cursor, ps: seq<Placement>, d: Point): Option<(Cursor, Motion)> {
    var held := Find(ps, c.monitor);
    if held.None? || held.value.bounds.IsEmpty() then Some((c, Blocked(c.monitor, c.lastNorm)))
    else Settled(Spent(c, held.value, d), ps, held.value, Target(c, held.value, d))
  }

  /** A warp; none where it stops the program. */
  function WarpedTo(c: Cursor, ps: seq<Placement>, monitor: MonitorRef, entry: Point):
    Option<(Cursor, Result<Point, WarpError>)>
  {
    var held := Find(ps, monitor);
    if held.None? then Some((c, Err(UnknownMonitor(monitor))))
    else if held.value.bounds.IsEmpty() then Some((c, Err(DegenerateMonitor(monitor))))
    else
      var rect := held.value.bounds;
      var pos := ClampInto(rect, Denormalized(rect, Sanitized(entry)));
      if pos.None? then None else
        var after := Parked(c.(monitor := monitor, remainder := Point(0.0, 0.0)), rect, pos.value);
        Some((after, Ok(after.lastNorm)))
  }

  class VirtualCursor {
    var monitor: MonitorRef
    var pos: Point
    var remainder: Point
    var lastNorm: Point
    var locked: bool

    function View(): Cursor
      reads this
    {
      Cursor(monitor, pos, remainder, lastNorm, locked)
    }

    /** On a screen with room inside; the caller has looked it up. */
    constructor (monitor: MonitorRef, rect: Rect, entry: Point)
      requires Roomy(rect)
      ensures var p := ClampInto(rect, Denormalized(rect, Sanitized(entry))).value;
              View() == Cursor(monitor, p, Point(0.0, 0.0), Normalized(rect, p), false)
    {
      var p := ClampInto(rect, Denormalized(rect, Sanitized(entry))).value;
      this.monitor, pos, remainder := monitor, p, Point(0.0, 0.0);
      lastNorm, locked := Normalized(rect, p), false;
    }

    method ToggleLock() returns (now: bool)
      modifies this`locked
      ensures now == locked == !old(locked)
    {
      locked := !locked;
      return locked;
    }

    method Renormalize(rect: Rect) returns (norm: Point)
      requires !rect.IsEmpty()
      modifies this`lastNorm
      ensures norm == lastNorm == Normalized(rect, pos)
    {
      lastNorm := Normalized(rect, pos);
      return lastNorm;
    }

    /** Spend as much accumulated motion as amounts to whole units. */
    method Spend(s: Point) returns (step: Point)
      modifies this`remainder
      ensures (step, remainder) == Accumulate(old(remainder), s)
    {
      var wanted := Point(remainder.x + s.x, remainder.y + s.y);
      step := Point(Trunc(wanted.x) as real, Trunc(wanted.y) as real);
      remainder := Point(wanted.x - step.x, wanted.y - step.y);
    }

    method Settle(ps: seq<Placement>, held: Placement, target: Point) returns (motion: Option<Motion>)
      requires !held.bounds.IsEmpty()
      modifies this
      ensures var after := Settled(old(View()), ps, held, target);
              if after.None? then motion.None? else (View(), motion) == (after.value.0, Some(after.value.1))
    {
      var rect := held.bounds;
      if Contains(rect, target) {
        pos := target;
        var norm := Renormalize(rect);
        return Some(Moved(monitor, norm));
      }
      var way := Nowhere;
      if !locked {
        var exit := ExitEdge(rect, pos, target);
        if exit.Some? {
          way := ResolveCrossing(ps, held, exit.value.1, exit.value.0);
        }
      }
      match way {
        case Stuck(_) => return None;
        case Across(crossing) =>
          var from := monitor;
          monitor := crossing.to;
          pos := crossing.entry;
          remainder := Point(0.0, 0.0);
          var norm := Renormalize(Landing(ps, monitor, rect));
          return Some(Transitioned(from, monitor, norm, crossing.via));
        case Nowhere =>
          var p := ClampInto(rect, target);
          if p.None? {
            return None;
          }
          pos := p.value;
          var norm := Renormalize(rect);
          return Some(Blocked(monitor, norm));
      }
    }

    /** No motion comes back where the program stops. */
    method MoveBy(ps: seq<Placement>, d: Point) returns (motion: Option<Motion>)
      modifies this
      ensures var after := MovedBy(old(View()), ps, d);
              if after.None? then motion.None? else (View(), motion) == (after.value.0, Some(after.value.1))
    {
      hide Settled, EffectiveScale, Scaled;
      var held := Find(ps, monitor);
      if held.None? || held.value.bounds.IsEmpty() {
        return Some(Blocked(monitor, lastNorm));
      }
      var step := Spend(Scaled(d, EffectiveScale(held.value.scale)));
      motion := Settle(ps, held.value, Point(pos.x + step.x, pos.y + step.y));
    }

    /** No result comes back where the program stops. */
    method WarpTo(ps: seq<Placement>, monitor: MonitorRef, entry: Point) returns (r: Option<Result<Point, WarpError>>)
      modifies this
      ensures var after := WarpedTo(old(View()), ps, monitor, entry);
              if after.None? then r.None? else (View(), r) == (after.value.0, Some(after.value.1))
    {
      var held := Find(ps, monitor);
      if held.None? {
        return Some(Err(UnknownMonitor(monitor)));
      }
      var rect := held.value.bounds;
      if rect.IsEmpty() {
        return Some(Err(DegenerateMonitor(monitor)));
      }
      this.monitor := monitor;
      var p := ClampInto(rect, Denormalized(rect, Sanitized(entry)));
      if p.None? {
        return None;
      }
      pos := p.value;
      remainder := Point(0.0, 0.0);
      var norm := Renormalize(rect);
      return Some(Ok(norm));
    }
  }

  // --- What every motion keeps ---------------------------------------------

  /** On a screen of the layout, inside it, with less than a unit of motion held back on each axis. */
  ghost predicate AtHome(c: Cursor, ps: seq<Placement>) {
    && Find(ps, c.monitor).Some? && Roomy(Find(ps, c.monitor).value.bounds)
    && Contains(Find(ps, c.monitor).value.bounds, c.pos)
    && -1.0 < c.remainder.x < 1.0 && -1.0 < c.remainder.y < 1.0
  }

  lemma {:induction false} FindUnique(ps: seq<Placement>, p: Placement)
    requires DistinctIds(ps) && p in ps
    ensures Find(ps, p.monitor) == Some(p)
  {
    if ps[0] != p {
      var i :| 0 <= i < |ps| && ps[i] == p;
      assert ps[0].monitor != ps[i].monitor;
      assert ps[1..][i - 1] == p;
      FindUnique(ps[1..], p);
    }
  }

  /** Wherever motion takes the cursor, it ends up inside a screen of the layout. */
  lemma MotionStaysHome(c: Cursor, ps: seq<Placement>, d: Point)
    requires DistinctIds(ps) && AtHome(c, ps)
    ensures MovedBy(c, ps, d).Some? ==> AtHome(MovedBy(c, ps, d).value.0, ps)
  {
    var held := Find(ps, c.monitor).value;
    var target := Target(c, held, d);
    var way := ResolveMove(ps, held, c.pos, target);
    if !Contains(held.bounds, target) && !c.locked && way.Across? {
      var exit := ExitEdge(held.bounds, c.pos, target).value;
      CrossingLandsInside(ps, held, exit.1, exit.0);
      var p :| p in ps && Eligible(p, held, exit.0) && way.crossing.to == p.monitor && Contains(p.bounds, way.crossing.entry);
      FindUnique(ps, p);
    }
  }

  /** The edge an unlocked cursor leaves its screen by, and where. */
  function Leaving(c: Cursor, held: Placement, d: Point): Option<(Edge, Point)> {
    ExitEdge(held.bounds, c.pos, Target(c, held, d))
  }

  lemma LeavesThroughAnEdge(c: Cursor, held: Placement, d: Point)
    requires Contains(held.bounds, c.pos) && !Contains(held.bounds, Target(c, held, d))
    ensures Leaving(c, held, d).Some? && OnEdge(held.bounds, Leaving(c, held, d).value.0, Leaving(c, held, d).value.1)
  {
    hide Target;
    ExitExists(held.bounds, c.pos, Target(c, held, d));
    ExitIsOnTheEdge(held.bounds, c.pos, Target(c, held, d));
  }

  lemma SettledByWay(c: Cursor, ps: seq<Placement>, held: Placement, target: Point)
    requires Roomy(held.bounds) && !c.locked && !Contains(held.bounds, target)
    requires ExitEdge(held.bounds, c.pos, target).Some?
    ensures var exit := ExitEdge(held.bounds, c.pos, target).value;
            var way, after := Resolve(ps, held, exit.1, exit.0), Settled(c, ps, held, target);
            && (way == Nowhere ==> after.Some? && after.value.1.Blocked?)
            && (way.Stuck? ==> after.None?)
            && (way.Across? ==> after.Some? && after.value.1.Transitioned?
                                && after.value.1.via == way.crossing.via && after.value.0.monitor == way.crossing.to)
  {
    hide ExitEdge, Resolve, Normalized, Landing;
  }

  /** An unlocked cursor that is pushed off its screen leaves it, into another monitor through the opposite edge,
      or stopping the program where that monitor has no room, exactly when another screen is eligible beyond
      the edge it leaves through. */
  lemma CrossesExactlyWhenOneIsEligible(c: Cursor, ps: seq<Placement>, d: Point)
    requires DistinctIds(ps) && AtHome(c, ps) && !c.locked
    requires !Contains(Find(ps, c.monitor).value.bounds, Target(c, Find(ps, c.monitor).value, d))
    ensures var held := Find(ps, c.monitor).value;
            var exit := Leaving(c, held, d);
            var after := MovedBy(c, ps, d);
            && exit.Some? && OnEdge(held.bounds, exit.value.0, exit.value.1)
            && (after.None? || after.value.1.Transitioned? <==> exists p <- ps :: Eligible(p, held, exit.value.0))
            && (after.None? <==> Resolve(ps, held, exit.value.1, exit.value.0).Stuck?)
            && (after.Some? && after.value.1.Transitioned? ==>
                  after.value.1.via == exit.value.0.Opposite() && after.value.0.monitor != c.monitor)
  {
    hide Target, Resolve, Settled, ExitEdge, Contains, OnEdge, EffectiveScale, Accumulate, Scaled, AxisGap;
    var held := Find(ps, c.monitor).value;
    LeavesThroughAnEdge(c, held, d);
    var exit := Leaving(c, held, d).value;
    SettledByWay(Spent(c, held, d), ps, held, Target(c, held, d));
    NeighbourExactlyWhenOneIsEligible(ps, held, exit.1, exit.0);
    if Resolve(ps, held, exit.1, exit.0) != Nowhere {
      CrossingLandsInside(ps, held, exit.1, exit.0);
      if Resolve(ps, held, exit.1, exit.0).Across? {
        ViaIsOpposite(ps, held, exit.1, exit.0);
      }
    }
  }

  lemma ViaIsOpposite(ps: seq<Placement>, from: Placement, exit: Point, edge: Edge)
    requires Resolve(ps, from, exit, edge).Across?
    ensures Resolve(ps, from, exit, edge).crossing.via == edge.Opposite()
  {
  }

  /** With every gap in range, that is exactly when another screen does lie beyond the edge. */
  lemma CrossesExactlyWhenSomethingLiesBeyond(c: Cursor, ps: seq<Placement>, d: Point)
    requires DistinctIds(ps) && AtHome(c, ps) && !c.locked
    requires !Contains(Find(ps, c.monitor).value.bounds, Target(c, Find(ps, c.monitor).value, d))
    ensures var held := Find(ps, c.monitor).value;
            var exit := Leaving(c, held, d);
            var after := MovedBy(c, ps, d);
            && exit.Some?
            && ((after.None? || after.value.1.Transitioned? <==> exists p <- ps :: Beyond(p, held, exit.value.0)) <==>
                  || (exists p <- ps :: NearAhead(p, held, exit.value.0))
                  || ((exists p <- ps :: FarAhead(p, held, exit.value.0))
                      <==> (exists p <- ps :: FarBehind(p, held, exit.value.0))))
  {
    hide Target, Resolve, MovedBy, AxisGap, TrueGap;
    var held := Find(ps, c.monitor).value;
    CrossesExactlyWhenOneIsEligible(c, ps, d);
    var exit := Leaving(c, held, d).value;
    NeighbourExactlyWhenOneIsEligible(ps, held, exit.1, exit.0);
    NeighbourIsGeometricExactly(ps, held, exit.1, exit.0);
  }

  /** The position as the fractions of that rectangle that are reported. */
  ghost predicate Reports(r: Rect, norm: Point, pos: Point) {
    && norm.x * r.w as real == pos.x - r.x as real && norm.y * r.h as real == pos.y - r.y as real
    && 0.0 <= norm.x <= 1.0 && 0.0 <= norm.y <= 1.0
  }

  lemma InsideIsReported(r: Rect, p: Point)
    requires Contains(r, p)
    ensures Reports(r, Normalized(r, p), p)
  {
    PartIsReported(p.x - r.x as real, r.w as real);
    PartIsReported(p.y - r.y as real, r.h as real);
  }

  /** What is reported never leaves the unit square, wherever the position is. */
  lemma NothingElseIsReported(r: Rect, p: Point)
    requires !r.IsEmpty()
    ensures 0.0 <= Normalized(r, p).x <= 1.0 && 0.0 <= Normalized(r, p).y <= 1.0
  {
  }

  lemma PartIsReported(part: real, whole: real)
    requires 0.0 <= part <= whole && whole > 0.0
    ensures 0.0 <= part / whole <= 1.0 && part / whole * whole == part
  {
    var f := part / whole;
    assert whole * f == part;
    ProductOrder(whole, 1.0, f);
    ProductOrder(whole, f, 0.0);
  }

  /** A crossing puts the cursor into the screen reached, at most one unit inside the side it came in by and exactly
      one where the screen is two or more units across; with nothing held back. */
  lemma CrossesToTheSide(c: Cursor, ps: seq<Placement>, d: Point)
    requires DistinctIds(ps) && AtHome(c, ps) && MovedBy(c, ps, d).Some? && MovedBy(c, ps, d).value.1.Transitioned?
    ensures var (after, motion) := MovedBy(c, ps, d).value;
            && motion.from == c.monitor && motion.to == after.monitor && Find(ps, after.monitor).Some?
            && after.remainder == Point(0.0, 0.0) && after.locked == c.locked
            && var landed := Find(ps, after.monitor).value.bounds;
            && 0.0 < Depth(landed, motion.via, after.pos) <= 1.0
            && (Reach(landed, motion.via) >= 2 ==> Depth(landed, motion.via, after.pos) == 1.0)
  {
    hide Target, Resolve, Normalized, ExitEdge, Depth, Reach, Eligible, EffectiveScale;
    var held := Find(ps, c.monitor).value;
    var exit := ExitEdge(held.bounds, c.pos, Target(c, held, d)).value;
    var crossing := Resolve(ps, held, exit.1, exit.0).crossing;
    EntersAtTheSide(ps, held, exit.1, exit.0);
    var p :| p in ps && p.monitor == crossing.to && Eligible(p, held, exit.0)
             && 0.0 < Depth(p.bounds, crossing.via, crossing.entry) <= 1.0
             && (Reach(p.bounds, crossing.via) >= 2 ==> Depth(p.bounds, crossing.via, crossing.entry) == 1.0);
    FindUnique(ps, p);
  }

  /** Between screens that abut, straight ahead, it ends up one unit past the shared edge. */
  lemma CrossesOneUnitOn(c: Cursor, ps: seq<Placement>, d: Point)
    requires DistinctIds(ps) && AtHome(c, ps) && MovedBy(c, ps, d).Some? && MovedBy(c, ps, d).value.1.Transitioned?
    requires var held := Find(ps, c.monitor).value;
             var exit := Leaving(c, held, d);
             && exit.Some? && Destination(ps, held, exit.value.1, exit.value.0).Some?
             && var to := ps[Destination(ps, held, exit.value.1, exit.value.0).value].bounds;
             && TrueGap(held.bounds, to, exit.value.0) == 0 && Reach(to, exit.value.0) >= 2
             && PerpendicularOffset(to, exit.value.1, exit.value.0) == 0.0
    ensures var held := Find(ps, c.monitor).value;
            var (edge, exit) := Leaving(c, held, d).value;
            var to := ps[Destination(ps, held, exit, edge).value].bounds;
            var on := OneOn(exit, edge);
            MovedBy(c, ps, d).value.0.pos
            == if edge in {Left, Right} then Point(on.x, UpTo(on.y, to.Bottom())) else Point(UpTo(on.x, to.Right()), on.y)
  {
    hide Target, Normalized, ExitEdge, TrueGap, PerpendicularOffset, EntryPoint, Destination, OnEdge, EffectiveScale;
    var held := Find(ps, c.monitor).value;
    var exit := ExitEdge(held.bounds, c.pos, Target(c, held, d)).value;
    ExitIsOnTheEdge(held.bounds, c.pos, Target(c, held, d));
    AbuttingGoesOneOn(ps, held, exit.1, exit.0);
  }

  /** A cursor that is stopped is moved to the place well inside its own screen that is nearest to where it was
      going, on each axis by itself, so that it slides along the side it is pushed against. */
  lemma StopsNearest(c: Cursor, ps: seq<Placement>, d: Point, q: Point)
    requires AtHome(c, ps) && MovedBy(c, ps, d).Some? && MovedBy(c, ps, d).value.1.Blocked?
    requires WellInside(Find(ps, c.monitor).value.bounds, q)
    ensures var held, (after, motion) := Find(ps, c.monitor).value, MovedBy(c, ps, d).value;
            var target := Target(c, held, d);
            && after.monitor == c.monitor == motion.monitor && !Contains(held.bounds, target)
            && after.remainder == Spent(c, held, d).remainder
            && WellInside(held.bounds, after.pos)
            && Apart(after.pos.x, target.x) <= Apart(q.x, target.x) && Apart(after.pos.y, target.y) <= Apart(q.y, target.y)
  {
    hide Target, Resolve, Normalized, ExitEdge, EffectiveScale, ClampInto, Scaled, Accumulate, Apart;
    var held := Find(ps, c.monitor).value;
    ClampIsNearest(held.bounds, Target(c, held, d), q);
  }

  /** Whatever the motion, what is reported is the screen the cursor is on and where in it, as fractions. */
  lemma MotionIsReported(c: Cursor, ps: seq<Placement>, d: Point)
    requires DistinctIds(ps) && AtHome(c, ps) && MovedBy(c, ps, d).Some?
    ensures var (after, motion) := MovedBy(c, ps, d).value;
            && Find(ps, after.monitor).Some?
            && Reports(Find(ps, after.monitor).value.bounds, after.lastNorm, after.pos)
            && (match motion
                case Moved(monitor, pos) => monitor == after.monitor && pos == after.lastNorm
                case Blocked(monitor, pos) => monitor == after.monitor && pos == after.lastNorm
                case Transitioned(_, to, entry, _) => to == after.monitor && entry == after.lastNorm)
  {
    MotionStaysHome(c, ps, d);
    LastIsNormalized(c, ps, d);
    hide MovedBy, Normalized;
    var (after, _) := MovedBy(c, ps, d).value;
    InsideIsReported(Find(ps, after.monitor).value.bounds, after.pos);
  }

  lemma LastIsNormalized(c: Cursor, ps: seq<Placement>, d: Point)
    requires DistinctIds(ps) && AtHome(c, ps) && MovedBy(c, ps, d).Some? && AtHome(MovedBy(c, ps, d).value.0, ps)
    ensures var (after, motion) := MovedBy(c, ps, d).value;
            && after.lastNorm == Normalized(Find(ps, after.monitor).value.bounds, after.pos)
            && (match motion
                case Moved(monitor, pos) => monitor == after.monitor && pos == after.lastNorm
                case Blocked(monitor, pos) => monitor == after.monitor && pos == after.lastNorm
                case Transitioned(_, to, entry, _) => to == after.monitor && entry == after.lastNorm)
  {
    hide Target, Resolve, ExitEdge, EffectiveScale, ClampInto, Scaled, Accumulate;
  }

  // --- Runs ----------------------------------------------------------------

  /** Where a run of motions leads; none where one of them stops the program. */
  function After(c: Cursor, ps: seq<Placement>, deltas: seq<Point>): Option<Cursor>
    decreases deltas
  {
    if deltas == [] then Some(c)
    else if MovedBy(c, ps, deltas[0]).None? then None
    else After(MovedBy(c, ps, deltas[0]).value.0, ps, deltas[1..])
  }

  predicate StaysOn(c: Cursor, ps: seq<Placement>, d: Point) {
    MovedBy(c, ps, d).Some? && MovedBy(c, ps, d).value.1.Moved?
  }

  /** No step of the run is clamped or crosses. */
  predicate Free(c: Cursor, ps: seq<Placement>, deltas: seq<Point>)
    decreases deltas
  {
    deltas == [] || (StaysOn(c, ps, deltas[0]) && Free(MovedBy(c, ps, deltas[0]).value.0, ps, deltas[1..]))
  }

  function Total(deltas: seq<Point>): Point {
    if deltas == [] then Point(0.0, 0.0)
    else Point(deltas[0].x + Total(deltas[1..]).x, deltas[0].y + Total(deltas[1..]).y)
  }

  lemma {:induction false} RunStaysHome(c: Cursor, ps: seq<Placement>, deltas: seq<Point>)
    requires DistinctIds(ps) && AtHome(c, ps)
    ensures After(c, ps, deltas).Some? ==> AtHome(After(c, ps, deltas).value, ps)
    decreases deltas
  {
    hide MovedBy, AtHome;
    if deltas != [] {
      MotionStaysHome(c, ps, deltas[0]);
      if MovedBy(c, ps, deltas[0]).Some? {
        RunStaysHome(MovedBy(c, ps, deltas[0]).value.0, ps, deltas[1..]);
      }
    }
  }

  lemma Distribute(scale: real, a: real, b: real)
    ensures scale * (a + b) == a * scale + scale * b
  {
  }

  lemma SettledExact(c: Cursor, ps: seq<Placement>, held: Placement, s: Point)
    requires !held.bounds.IsEmpty()
    requires Settled(c, ps, held, s).Some? && Settled(c, ps, held, s).value.1.Moved?
    ensures var next := Settled(c, ps, held, s).value.0;
            next.monitor == c.monitor && next.pos == s && next.remainder == c.remainder && next.locked == c.locked
  {
  }

  lemma FreeStepIsExact(c: Cursor, ps: seq<Placement>, d: Point)
    requires Find(ps, c.monitor).Some? && StaysOn(c, ps, d)
    ensures var next, scale := MovedBy(c, ps, d).value.0, EffectiveScale(Find(ps, c.monitor).value.scale);
            && next.monitor == c.monitor
            && next.pos.x + next.remainder.x == c.pos.x + c.remainder.x + d.x * scale
            && next.pos.y + next.remainder.y == c.pos.y + c.remainder.y + d.y * scale
            && -1.0 < next.remainder.x < 1.0 && -1.0 < next.remainder.y < 1.0
  {
    hide Settled, EffectiveScale, Accumulate;
    var held := Find(ps, c.monitor).value;
    SettledExact(Spent(c, held, d), ps, held, Target(c, held, d));
  }

  /** The integration is exact: over a free run, position plus what is held back advances by the scale times
      the summed deltas, so the position itself lags by less than a unit. */
  lemma {:induction false} FreeRunIsExact(c: Cursor, ps: seq<Placement>, deltas: seq<Point>)
    requires Find(ps, c.monitor).Some? && Free(c, ps, deltas)
    ensures After(c, ps, deltas).Some?
    ensures var end, scale := After(c, ps, deltas).value, EffectiveScale(Find(ps, c.monitor).value.scale);
            && end.monitor == c.monitor
            && end.pos.x + end.remainder.x == c.pos.x + c.remainder.x + scale * Total(deltas).x
            && end.pos.y + end.remainder.y == c.pos.y + c.remainder.y + scale * Total(deltas).y
            && (deltas != [] ==> -1.0 < end.remainder.x < 1.0 && -1.0 < end.remainder.y < 1.0)
    decreases deltas
  {
    hide MovedBy, EffectiveScale;
    if deltas != [] {
      var scale := EffectiveScale(Find(ps, c.monitor).value.scale);
      FreeStepIsExact(c, ps, deltas[0]);
      FreeRunIsExact(MovedBy(c, ps, deltas[0]).value.0, ps, deltas[1..]);
      Distribute(scale, deltas[0].x, Total(deltas[1..]).x);
      Distribute(scale, deltas[0].y, Total(deltas[1..]).y);
    }
  }

  lemma ScaledAlike(d: Point, scale: real)
    requires d.x == d.y
    ensures Scaled(d, scale).x == Scaled(d, scale).y
  {
  }

  lemma AccumulatedAlike(remainder: Point, s: Point)
    requires remainder.x == remainder.y && s.x == s.y
    ensures var (step, kept) := Accumulate(remainder, s); step.x == step.y && kept.x == kept.y
  {
  }

  lemma DiagonalStep(c: Cursor, ps: seq<Placement>, d: Point)
    requires StaysOn(c, ps, d) && c.remainder.x == c.remainder.y && d.x == d.y
    ensures var next := MovedBy(c, ps, d).value.0;
            next.pos.x - c.pos.x == next.pos.y - c.pos.y && next.remainder.x == next.remainder.y
  {
    hide Settled, EffectiveScale, Scaled, Accumulate;
    var held := Find(ps, c.monitor).value;
    var scale := EffectiveScale(held.scale);
    ScaledAlike(d, scale);
    AccumulatedAlike(c.remainder, Scaled(d, scale));
    SettledExact(Spent(c, held, d), ps, held, Target(c, held, d));
  }

  /** A drag along the diagonal stays on it: equal deltas on both axes give equal travel, at any scale. */
  lemma {:induction false} DiagonalStaysStraight(c: Cursor, ps: seq<Placement>, deltas: seq<Point>)
    requires Free(c, ps, deltas)
    requires c.remainder.x == c.remainder.y && forall d <- deltas :: d.x == d.y
    ensures After(c, ps, deltas).Some?
    ensures var end := After(c, ps, deltas).value;
            end.pos.x - c.pos.x == end.pos.y - c.pos.y && end.remainder.x == end.remainder.y
    decreases deltas
  {
    hide MovedBy;
    if deltas != [] {
      assert deltas[0] in deltas;
      DiagonalStep(c, ps, deltas[0]);
      DiagonalStaysStraight(MovedBy(c, ps, deltas[0]).value.0, ps, deltas[1..]);
    }
  }

  lemma LockedStepStays(c: Cursor, ps: seq<Placement>, d: Point)
    requires c.locked
    ensures MovedBy(c, ps, d).Some? ==> MovedBy(c, ps, d).value.0.monitor == c.monitor && MovedBy(c, ps, d).value.0.locked
    ensures AtHome(c, ps) ==> MovedBy(c, ps, d).Some?
  {
    hide EffectiveScale, Accumulate, Normalized, Scaled;
  }

  /** A locked cursor never leaves its screen, whatever the deltas and whatever lies beyond; and from inside a
      screen no run of motions stops the program. */
  lemma {:induction false} LockedRunStays(c: Cursor, ps: seq<Placement>, deltas: seq<Point>)
    requires c.locked
    ensures After(c, ps, deltas).Some? ==> After(c, ps, deltas).value.monitor == c.monitor && After(c, ps, deltas).value.locked
    ensures DistinctIds(ps) && AtHome(c, ps) ==> After(c, ps, deltas).Some?
    decreases deltas
  {
    hide MovedBy, AtHome, DistinctIds;
    if deltas != [] {
      LockedStepStays(c, ps, deltas[0]);
      if DistinctIds(ps) && AtHome(c, ps) {
        MotionStaysHome(c, ps, deltas[0]);
      }
      if MovedBy(c, ps, deltas[0]).Some? {
        LockedRunStays(MovedBy(c, ps, deltas[0]).value.0, ps, deltas[1..]);
      }
    }
  }

  /** A warp lands inside the named screen, even when locked, or says why not and leaves the cursor alone; it
      stops the program exactly when that screen is not empty and has no room inside. */
  lemma WarpLandsInside(c: Cursor, ps: seq<Placement>, monitor: MonitorRef, entry: Point)
    ensures var held, after := Find(ps, monitor), WarpedTo(c, ps, monitor, entry);
            if held.None? || held.value.bounds.IsEmpty() then after.Some? && after.value.0 == c && after.value.1.Err?
            else if !Roomy(held.value.bounds) then after.None?
            else after.Some? && after.value.1.Ok? && AtHome(after.value.0, ps)
                 && after.value.0.monitor == monitor && after.value.0.locked == c.locked
  {
  }

  /** That part of the way across: nothing of it below nought, and all of it above one. */
  function PartWay(start: int, extent: nat, part: real): real {
    if part < 0.0 then start as real else if part > 1.0 then (start + extent) as real
    else start as real + part * extent as real
  }

  lemma AskedFor(r: Rect, entry: Point)
    ensures Denormalized(r, Sanitized(entry)) == Point(PartWay(r.x, r.w, entry.x), PartWay(r.y, r.h, entry.y))
  {
  }

  /** It lands the asked parts of the way across and down, or at the nearest place well inside, and reports the
      fractions of where it landed. */
  lemma WarpLandsWhereAsked(c: Cursor, ps: seq<Placement>, monitor: MonitorRef, entry: Point, q: Point)
    requires Find(ps, monitor).Some? && Roomy(Find(ps, monitor).value.bounds)
    requires WellInside(Find(ps, monitor).value.bounds, q)
    ensures var r := Find(ps, monitor).value.bounds;
            var x, y := PartWay(r.x, r.w, entry.x), PartWay(r.y, r.h, entry.y);
            && WarpedTo(c, ps, monitor, entry).Some?
            && var (after, result) := WarpedTo(c, ps, monitor, entry).value;
            && WellInside(r, after.pos)
            && Apart(after.pos.x, x) <= Apart(q.x, x) && Apart(after.pos.y, y) <= Apart(q.y, y)
            && Reports(r, after.lastNorm, after.pos) && result == Ok(after.lastNorm)
            && after.remainder == Point(0.0, 0.0)
  {
    hide Normalized, Apart, ClampInto, PartWay, Denormalized, Sanitized, Reports;
    var r := Find(ps, monitor).value.bounds;
    var asked := Denormalized(r, Sanitized(entry));
    AskedFor(r, entry);
    ClampIsNearest(r, asked, q);
    InsideIsReported(r, ClampInto(r, asked).value);
  }
}
