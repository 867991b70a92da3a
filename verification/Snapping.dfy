/** The layout editor's geometry (ui/src/snap.js), and how its free spot compares with the agent's own
    placement (crates/wx-agent/src/autolayout.rs:55-106). */
module Snapping {
  import opened Wrappers
  import opened Ints
  import opened Geometry
  import opened GlobalLayouts
  import opened Autolayout
  import opened AutolayoutGeometry

  // --- Where an unplaced screen goes ---------------------------------------

  /** Bounding box of every rectangle, empty ones included. */
  function Extent(rects: seq<Rect>): Option<Box> {
    if rects == [] then None
    else
      var rest, box := Extent(rects[..|rects| - 1]), BoxOf(rects[|rects| - 1]);
      Some(if rest.None? then box else Join(rest.value, box))
  }

  method BoundsOf(rects: seq<Rect>) returns (r: Option<Box>)
    ensures r == Extent(rects)
  {
    r := None;
    for i := 0 to |rects|
      invariant r == Extent(rects[..i])
    {
      assert rects[..i + 1][..i] == rects[..i];
      r := Some(if r.None? then BoxOf(rects[i]) else Join(r.value, BoxOf(rects[i])));
    }
    assert rects[..|rects|] == rects;
  }

  /** Half of a whole number, rounded to the nearest whole number, halves upwards. */
  function RoundedHalf(n: int): int {
    (n + 1) / 2
  }

  function NextFreeSpot(existing: seq<Rect>, h: u32): (int, int) {
    var bounds := Extent(existing);
    if bounds.None? then (0, 0)
    else (bounds.value.right, RoundedHalf(2 * bounds.value.top + (bounds.value.bottom - bounds.value.top) - h))
  }

  lemma SingleScreen(m: Monitor)
    requires !m.bounds.IsEmpty()
    ensures Usable([m]) == [m] && BlockOf([m]) == m.bounds
  {
    assert ScreenBounds([m]) == [m.bounds];
    assert [m.bounds][..0] == [];
    assert Hull([m.bounds]) == Some(BoxOf(m.bounds));
  }

  /** Where the agent puts one screen: at the origin, or beside the other machines' screens. */
  function AgentSpot(ps: seq<Placement>, node: NodeId, h: u32): (int, int) {
    match MeshOf(ps, node)
    case None => (0, 0)
    case Some(mesh) => (ClampToI32(mesh.x + mesh.w), ClampToI32(mesh.y + mesh.h / 2 - h / 2))
  }

  lemma PlacedAtAgentSpot(ps: seq<Placement>, node: NodeId, m: Monitor)
    requires !m.bounds.IsEmpty()
    ensures var placed := PlaceNode(ps, node, [m]);
            |placed| == 1 && (placed[0].bounds.x, placed[0].bounds.y) == AgentSpot(ps, node, m.bounds.h)
  {
    hide MeshOf, Usable, BlockOf;
    SingleScreen(m);
  }

  /** Halving the sum of two edges less a height, rounded up, against halving each: they agree for a sum that
      is one of two, which depend on the parities. */
  lemma HalvesAgreeExactly(sum: int, top: int, height: nat, h: nat)
    ensures RoundedHalf(sum - h) == top + height / 2 - h / 2
       <==> h % 2 - height % 2 - 1 <= sum - (2 * top + height) <= h % 2 - height % 2
  {
  }

  lemma {:induction false} ExtentTight(rects: seq<Rect>)
    ensures Extent(rects).None? <==> rects == []
    ensures Extent(rects).Some? ==> forall r <- rects :: Holds(Extent(rects).value, r)
  {
    if rects != [] {
      var init, last := rects[..|rects| - 1], rects[|rects| - 1];
      ExtentTight(init);
      assert forall r :: r in rects <==> r in init || r == last;
    }
  }

  /** The box of everything reaches at least as far right as the other machines' screens do. */
  lemma ExtentReachesMesh(ps: seq<Placement>, node: NodeId)
    requires Mesh(ps, node).Some?
    ensures ps != [] && Extent(PlacedBounds(ps)).Some?
    ensures Mesh(ps, node).value.right <= Extent(PlacedBounds(ps)).value.right
  {
    var others := PlacedBounds(Others(ps, node));
    HullIsTight(others);
    ExtentTight(PlacedBounds(ps));
    var edge :| Inside(edge, others) && edge.x + edge.w == Mesh(ps, node).value.right;
    PlacedInside(ps, node, edge);
    var p :| p in ps && p.bounds == edge;
    var i :| 0 <= i < |ps| && ps[i] == p;
    assert PlacedBounds(ps)[i] == edge;
    assert edge in PlacedBounds(ps);
  }

  lemma AgentColumn(ps: seq<Placement>, node: NodeId, h: u32)
    requires Mesh(ps, node).Some?
    ensures var right := Mesh(ps, node).value.right;
            AgentSpot(ps, node, h).0 == if right <= I32_MAX then right else I32_MAX
  {
    AnchorEdge(ps, node, Rect(0, 0, 0, h));
  }

  /** The two spots are level: their middles apart by no more than the parities allow or, where the agent's would
      not be storable, the editor's on the last row there is. */
  ghost predicate Level(all: Box, mesh: Rect, h: u32) {
    var y := mesh.y + mesh.h / 2 - h / 2;
    if y < I32_MIN then 2 * I32_MIN - 1 <= all.top + all.bottom - h <= 2 * I32_MIN
    else if y > I32_MAX then 2 * I32_MAX - 1 <= all.top + all.bottom - h <= 2 * I32_MAX
    else h % 2 - mesh.h % 2 - 1 <= all.top + all.bottom - (2 * mesh.y + mesh.h) <= h % 2 - mesh.h % 2
  }

  lemma HalfExactly(n: int, half: int)
    ensures RoundedHalf(n) == half <==> 2 * half - 1 <= n <= 2 * half
  {
  }

  /** For any placements and any screen. The editor measures every placement, the machine's own and empty ones
      included; the agent only the other machines' non-empty ones. Where those are absent the agent uses the
      origin. Otherwise the two spots agree exactly when both measures end at the same storable right edge and
      their middles are level. */
  lemma SameSpotExactly(ps: seq<Placement>, node: NodeId, m: Monitor)
    requires !m.bounds.IsEmpty()
    ensures var placed := PlaceNode(ps, node, [m]);
            var all, mesh, h := Extent(PlacedBounds(ps)), Mesh(ps, node), m.bounds.h;
            |placed| == 1
            && ((placed[0].bounds.x, placed[0].bounds.y) == NextFreeSpot(PlacedBounds(ps), h) <==>
                  if ps == [] then true
                  else if mesh.None? then all.value.right == 0 && -1 <= all.value.top + all.value.bottom - h <= 0
                  else all.value.right == mesh.value.right <= I32_MAX && Level(all.value, MeshOf(ps, node).value, h))
  {
    hide PlaceNode, RoundedHalf, Extent, Hull, AgentSpot;
    PlacedAtAgentSpot(ps, node, m);
    ExtentTight(PlacedBounds(ps));
    if Mesh(ps, node).Some? {
      SameSpotBesideMesh(ps, node, m.bounds.h);
    } else {
      SameSpotAtOrigin(ps, node, m.bounds.h);
    }
  }

  lemma SameSpotAtOrigin(ps: seq<Placement>, node: NodeId, h: u32)
    requires Mesh(ps, node).None?
    ensures AgentSpot(ps, node, h) == NextFreeSpot(PlacedBounds(ps), h) <==>
              if ps == [] then true
              else Extent(PlacedBounds(ps)).Some?
                   && var all := Extent(PlacedBounds(ps)).value; all.right == 0 && -1 <= all.top + all.bottom - h <= 0
  {
    ExtentTight(PlacedBounds(ps));
    hide Extent;
  }

  lemma SameSpotBesideMesh(ps: seq<Placement>, node: NodeId, h: u32)
    requires Mesh(ps, node).Some?
    ensures Extent(PlacedBounds(ps)).Some? && ps != []
    ensures var all, mesh := Extent(PlacedBounds(ps)).value, Mesh(ps, node).value;
            AgentSpot(ps, node, h) == NextFreeSpot(PlacedBounds(ps), h) <==>
              all.right == mesh.right <= I32_MAX && Level(all, MeshOf(ps, node).value, h)
  {
    ExtentReachesMesh(ps, node);
    AgentColumn(ps, node, h);
    var all, mesh := Extent(PlacedBounds(ps)).value, MeshOf(ps, node).value;
    HalvesAgreeExactly(all.top + all.bottom, mesh.y, mesh.h, h);
    HalfExactly(all.top + all.bottom - h, I32_MIN);
    HalfExactly(all.top + all.bottom - h, I32_MAX);
    hide Extent, Hull, RoundedHalf;
    assert 2 * all.top + (all.bottom - all.top) - h == all.top + all.bottom - h;
  }

  lemma {:induction false} ExtentIsHull(rects: seq<Rect>)
    requires forall r <- rects :: !r.IsEmpty()
    ensures Extent(rects) == Hull(rects)
  {
    if rects != [] {
      assert rects[|rects| - 1] in rects;
      ExtentIsHull(rects[..|rects| - 1]);
    }
  }

  /** Beside other machines' non-empty screens alone, in storable coordinates: the spots agree exactly when the
      mesh's height is even or the screen's is odd. */
  lemma SameSpotExactlyByParity(ps: seq<Placement>, node: NodeId, m: Monitor)
    requires ps != [] && (forall p <- ps :: p.monitor.node != node && !p.bounds.IsEmpty()) && !m.bounds.IsEmpty()
    requires Mesh(ps, node).Some? && Mesh(ps, node).value.right <= I32_MAX && Mesh(ps, node).value.bottom <= I32_MAX
    requires I32_MIN <= MeshOf(ps, node).value.y + MeshOf(ps, node).value.h / 2 - m.bounds.h / 2
    ensures var mesh, placed := MeshOf(ps, node).value, PlaceNode(ps, node, [m]);
            |placed| == 1
            && ((placed[0].bounds.x, placed[0].bounds.y) == NextFreeSpot(PlacedBounds(ps), m.bounds.h)
                <==> !(mesh.h % 2 == 1 && m.bounds.h % 2 == 0))
  {
    hide PlaceNode, Extent, Hull, NextFreeSpot, PlacedBounds, Others, Level;
    SameSpotExactly(ps, node, m);
    AllOthers(ps, node);
    NoneEmpty(ps);
    ExtentIsHull(PlacedBounds(ps));
    BoxRange(PlacedBounds(ps));
    LevelByParity(Mesh(ps, node).value, m.bounds.h);
  }

  lemma LevelByParity(mesh: Box, h: u32)
    requires I32_MIN <= mesh.left <= mesh.right <= I32_MAX && I32_MIN <= mesh.top <= mesh.bottom <= I32_MAX
    requires I32_MIN <= mesh.top + (mesh.bottom - mesh.top) / 2 - h / 2
    ensures Clamped(mesh).y == mesh.top && Clamped(mesh).h == mesh.bottom - mesh.top
    ensures Level(mesh, Clamped(mesh), h) <==> !(Clamped(mesh).h % 2 == 1 && h % 2 == 0)
  {
  }

  lemma NoneEmpty(ps: seq<Placement>)
    requires forall p <- ps :: !p.bounds.IsEmpty()
    ensures forall r <- PlacedBounds(ps) :: !r.IsEmpty()
  {
    forall r <- PlacedBounds(ps)
      ensures !r.IsEmpty()
    {
      var i :| 0 <= i < |ps| && PlacedBounds(ps)[i] == r;
      assert ps[i] in ps;
    }
  }

  /** An empty placement far to the right draws the editor's spot there, and not the agent's. */
  lemma EmptyPlacementMovesTheSpot(a: MonitorRef, b: MonitorRef, node: NodeId, m: Monitor)
    requires a.node != node && b.node != node && m.bounds == Rect(0, 0, 1280, 800)
    ensures var ps := [Placement(a, Rect(0, 0, 1920, 1080), UNSCALED), Placement(b, Rect(5000, 0, 0, 0), UNSCALED)];
            && NextFreeSpot(PlacedBounds(ps), m.bounds.h).0 == 5000
            && |PlaceNode(ps, node, [m])| == 1 && PlaceNode(ps, node, [m])[0].bounds.x == 1920
  {
    var screen, empty := Rect(0, 0, 1920, 1080), Rect(5000, 0, 0, 0);
    var ps := [Placement(a, screen, UNSCALED), Placement(b, empty, UNSCALED)];
    assert PlacedBounds(ps) == [screen, empty];
    assert [screen, empty][..1] == [screen] && [screen][..0] == [];
    assert Extent([screen]) == Some(BoxOf(screen)) && Hull([screen]) == Some(BoxOf(screen));
    assert ps[1..] == [ps[1]] && ps[1..][1..] == [];
    assert Others(ps[1..], node) == [ps[1]];
    assert Others(ps, node) == ps;
    PlacedAtAgentSpot(ps, node, m);
  }

  // --- Snapping one axis ---------------------------------------------------

  datatype Span = Span(start: real, end: real)

  /** A position to snap to, and the edge it lines up with. */
  datatype Snap = Snap(value: real, edge: real)

  function CandidatesOf(o: Span, size: real): (r: seq<Snap>)
    ensures |r| == 4
  {
    [Snap(o.end, o.end), Snap(o.start - size, o.start), Snap(o.start, o.start), Snap(o.end - size, o.end)]
  }

  /** Placed there, the dragged span has one of its ends on one of the other's, the one the guide is drawn at. */
  predicate LinesUp(c: Snap, o: Span, size: real) {
    (c.edge == o.start || c.edge == o.end) && (c.value == c.edge || c.value + size == c.edge)
  }

  /** Every candidate lines an end up with an end, and every such position is a candidate: first butting up against
      the other, then level with it. */
  lemma CandidatesLineUp(o: Span, size: real, c: Snap)
    ensures c in CandidatesOf(o, size) <==> LinesUp(c, o, size)
    ensures CandidatesOf(o, size)[0].value == o.end && CandidatesOf(o, size)[1].value + size == o.start
    ensures CandidatesOf(o, size)[2].value == o.start && CandidatesOf(o, size)[3].value + size == o.end
  {
    var cs := CandidatesOf(o, size);
    assert c in cs <==> c == cs[0] || c == cs[1] || c == cs[2] || c == cs[3];
    if LinesUp(c, o, size) {
      assert c.value == c.edge || c.value == c.edge - size;
    }
  }

  /** A snap puts an end of the dragged span on an end of one of the others, no further away than the tolerance; with
      none, no such position is that near. */
  lemma SnapLinesUp(start: real, size: real, others: seq<Span>, tolerance: real)
    ensures var snapped := SnapAxis(start, size, others, tolerance);
            if snapped.Some?
            then (exists o <- others :: LinesUp(snapped.value, o, size)) && Distance(snapped.value.value, start) <= tolerance
            else forall o <- others :: forall c: Snap :: LinesUp(c, o, size) ==> Distance(c.value, start) > tolerance
  {
    hide CandidatesOf, Nearest, LinesUp, Distance;
    var cs := Candidates(others, size);
    NearestIsFirstNearest(cs, start, tolerance);
    CandidatesAre(others, size);
    hide Candidates;
    var found := SnapAxis(start, size, others, tolerance);
    if found.Some? {
      var i: nat :| FirstNearest(cs, i, start, tolerance) && cs[i] == found.value;
      assert cs[i] in cs;
    }
  }

  lemma {:induction false} CandidatesAre(others: seq<Span>, size: real)
    ensures forall c: Snap :: c in Candidates(others, size) <==> exists o <- others :: LinesUp(c, o, size)
  {
    hide CandidatesOf, LinesUp;
    if others != [] {
      var n := |others| - 1;
      CandidatesAre(others[..n], size);
      assert forall o :: o in others <==> o in others[..n] || o == others[n];
      forall c: Snap
        ensures c in CandidatesOf(others[n], size) <==> LinesUp(c, others[n], size)
      {
        CandidatesLineUp(others[n], size, c);
      }
    }
  }

  function Candidates(others: seq<Span>, size: real): seq<Snap> {
    if others == [] then [] else Candidates(others[..|others| - 1], size) + CandidatesOf(others[|others| - 1], size)
  }

  function Distance(a: real, b: real): real {
    if a < b then b - a else a - b
  }

  lemma DistanceIsThatFar(a: real, b: real)
    ensures Distance(a, b) >= 0.0 && (a + Distance(a, b) == b || b + Distance(a, b) == a)
  {
  }

  function Nearer(best: Option<Snap>, c: Snap, start: real, tolerance: real): Option<Snap> {
    if Distance(c.value, start) > tolerance then best
    else if best.Some? && Distance(best.value.value, start) <= Distance(c.value, start) then best
    else Some(c)
  }

  function Nearest(cs: seq<Snap>, start: real, tolerance: real): Option<Snap> {
    if cs == [] then None else Nearer(Nearest(cs[..|cs| - 1], start, tolerance), cs[|cs| - 1], start, tolerance)
  }

  function SnapAxis(start: real, size: real, others: seq<Span>, tolerance: real): Option<Snap> {
    Nearest(Candidates(others, size), start, tolerance)
  }

  lemma NearestAppends(cs: seq<Snap>, c: Snap, start: real, tolerance: real)
    ensures Nearest(cs + [c], start, tolerance) == Nearer(Nearest(cs, start, tolerance), c, start, tolerance)
  {
    hide Nearer;
    assert (cs + [c])[..|cs|] == cs;
  }

  /** Consider each of some candidates, in order. */
  method Consider(best: Option<Snap>, ghost before: seq<Snap>, cs: seq<Snap>, start: real, tolerance: real)
    returns (r: Option<Snap>)
    requires best == Nearest(before, start, tolerance)
    ensures r == Nearest(before + cs, start, tolerance)
  {
    hide Nearer, Nearest;
    r := best;
    assert before + cs[..0] == before;
    for k := 0 to |cs|
      invariant r == Nearest(before + cs[..k], start, tolerance)
    {
      NearestAppends(before + cs[..k], cs[k], start, tolerance);
      assert before + cs[..k] + [cs[k]] == before + cs[..k + 1];
      r := Nearer(r, cs[k], start, tolerance);
    }
    assert cs[..|cs|] == cs;
  }

  method SnapOneAxis(start: real, size: real, others: seq<Span>, tolerance: real) returns (best: Option<Snap>)
    ensures best == SnapAxis(start, size, others, tolerance)
  {
    hide Nearer, CandidatesOf;
    best := None;
    for i := 0 to |others|
      invariant best == Nearest(Candidates(others[..i], size), start, tolerance)
    {
      assert others[..i + 1][..i] == others[..i];
      best := Consider(best, Candidates(others[..i], size), CandidatesOf(others[i], size), start, tolerance);
    }
    assert others[..|others|] == others;
  }

  ghost predicate FirstNearest(cs: seq<Snap>, i: nat, start: real, tolerance: real) {
    && i < |cs| && Distance(cs[i].value, start) <= tolerance
    && (forall j :: 0 <= j < i ==> Distance(cs[i].value, start) < Distance(cs[j].value, start))
    && (forall j :: i <= j < |cs| ==> Distance(cs[i].value, start) <= Distance(cs[j].value, start))
  }

  ghost predicate IsFirstNearest(cs: seq<Snap>, found: Option<Snap>, start: real, tolerance: real) {
    if found.None? then forall c <- cs :: Distance(c.value, start) > tolerance
    else exists i: nat :: FirstNearest(cs, i, start, tolerance) && cs[i] == found.value
  }

  lemma OneMoreCandidate(cs: seq<Snap>, c: Snap, best: Option<Snap>, start: real, tolerance: real)
    requires IsFirstNearest(cs, best, start, tolerance)
    ensures IsFirstNearest(cs + [c], Nearer(best, c, start, tolerance), start, tolerance)
  {
    hide Distance;
    var more := cs + [c];
    assert forall d <- more :: d == c || d in cs;
    assert forall j :: 0 <= j < |cs| ==> more[j] == cs[j] && cs[j] in cs;
    var i: nat := |cs|;
    if best.Some? {
      i :| FirstNearest(cs, i, start, tolerance) && cs[i] == best.value;
    }
    if Nearer(best, c, start, tolerance) != best {
      assert FirstNearest(more, |cs|, start, tolerance);
    } else if best.Some? {
      assert FirstNearest(more, i, start, tolerance);
    }
  }

  /** The first of the nearest candidates within the tolerance, if any is. */
  lemma {:induction false} NearestIsFirstNearest(cs: seq<Snap>, start: real, tolerance: real)
    ensures IsFirstNearest(cs, Nearest(cs, start, tolerance), start, tolerance)
  {
    hide Distance, Nearer;
    if cs != [] {
      var n := |cs| - 1;
      NearestIsFirstNearest(cs[..n], start, tolerance);
      OneMoreCandidate(cs[..n], cs[n], Nearest(cs[..n], start, tolerance), start, tolerance);
      assert cs == cs[..n] + [cs[n]];
    }
  }

  /** A snapped screen stays put: snapping it again, however close, keeps it where it is. */
  lemma SnapIsStable(start: real, size: real, others: seq<Span>, tolerance: real, again: real)
    requires SnapAxis(start, size, others, tolerance).Some? && again >= 0.0
    ensures var at := SnapAxis(start, size, others, tolerance).value.value;
            var next := SnapAxis(at, size, others, again);
            next.Some? && next.value.value == at
  {
    var cs := Candidates(others, size);
    NearestIsFirstNearest(cs, start, tolerance);
    var snapped := Nearest(cs, start, tolerance).value;
    assert snapped in cs && Distance(snapped.value, snapped.value) == 0.0;
    NearestIsFirstNearest(cs, snapped.value, again);
  }
}
