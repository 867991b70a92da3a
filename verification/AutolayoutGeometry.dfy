/** Where a placed block ends up, and when saturation spoils it (crates/wx-agent/src/autolayout.rs:55-106). */
module AutolayoutGeometry {
  import opened Wrappers
  import opened Ints
  import opened Geometry
  import opened GlobalLayouts
  import opened Autolayout

  /** The screens of the other machines, measured exactly. */
  function Mesh(ps: seq<Placement>, node: NodeId): Option<Box> {
    Hull(PlacedBounds(Others(ps, node)))
  }

  function Block(monitors: seq<Monitor>): Option<Box> {
    Hull(ScreenBounds(Usable(monitors)))
  }

  lemma BlockExists(monitors: seq<Monitor>)
    ensures Block(monitors).Some? <==> Usable(monitors) != []
    ensures Block(monitors).Some? ==> Tight(ScreenBounds(Usable(monitors)), Block(monitors).value)
  {
    var usable := Usable(monitors);
    HullIsTight(ScreenBounds(usable));
    assert forall i :: 0 <= i < |usable| ==> usable[i] in usable && ScreenBounds(usable)[i] == usable[i].bounds;
  }

  lemma BoxRange(rects: seq<Rect>)
    ensures Hull(rects).Some? ==>
      var b := Hull(rects).value;
      I32_MIN <= b.left < b.right <= I32_MAX + U32_MAX && I32_MIN <= b.top < b.bottom <= I32_MAX + U32_MAX
      && b.left <= I32_MAX && b.top <= I32_MAX
  {
    HullIsTight(rects);
    if Hull(rects).Some? {
      var b := Hull(rects).value;
      var l :| Inside(l, rects) && l.x == b.left;
      var t :| Inside(t, rects) && t.y == b.top;
      assert Holds(b, l) && Holds(b, t);
    }
  }

  /** Nothing computed on the way overflows 64 bits: the boxes, their extents, the anchor, the translation,
      and each translated origin. */
  lemma ArithmeticFits(ps: seq<Placement>, node: NodeId, monitors: seq<Monitor>, m: Monitor)
    requires m in Usable(monitors)
    ensures var block := BlockOf(Usable(monitors));
            var (ax, ay) := Anchor(MeshOf(ps, node), block);
            var (dx, dy) := Shift(ps, node, Usable(monitors));
            && FitsI64(ax) && FitsI64(ay) && FitsI64(dx) && FitsI64(dy)
            && FitsI64(m.bounds.x + dx) && FitsI64(m.bounds.y + dy)
    ensures var mesh := Mesh(ps, node);
            mesh.Some? ==> FitsI64(mesh.value.right - mesh.value.left) && FitsI64(mesh.value.bottom - mesh.value.top)
  {
    BoxRange(PlacedBounds(Others(ps, node)));
  }

  /** With a mesh there, the block's left edge before saturation is the mesh's right edge when that is a
      storable coordinate, and past every storable one otherwise. */
  lemma AnchorEdge(ps: seq<Placement>, node: NodeId, block: Rect)
    requires Mesh(ps, node).Some?
    ensures var right := Mesh(ps, node).value.right;
            var ax := Anchor(MeshOf(ps, node), block).0;
            if right <= I32_MAX then ax == right else ax >= I32_MAX
    ensures I32_MIN < Anchor(MeshOf(ps, node), block).0
  {
    BoxRange(PlacedBounds(Others(ps, node)));
  }

  /** The top left corner of the box around some screens. */
  ghost predicate Corner(usable: seq<Monitor>, x: int, y: int) {
    && (forall m <- usable :: x <= m.bounds.x && y <= m.bounds.y)
    && (exists m <- usable :: m.bounds.x == x)
    && (exists m <- usable :: m.bounds.y == y)
  }

  lemma BlockCorner(monitors: seq<Monitor>)
    requires Usable(monitors) != []
    ensures Block(monitors).Some?
    ensures var block := BlockOf(Usable(monitors)); Corner(Usable(monitors), block.x, block.y)
  {
    var usable := Usable(monitors);
    BlockExists(monitors);
    BoxRange(ScreenBounds(usable));
    var box := Block(monitors).value;
    forall m <- usable
      ensures box.left <= m.bounds.x && box.top <= m.bounds.y
    {
      ScreenInside(usable, m.bounds);
      assert Holds(box, m.bounds);
    }
    var l :| Inside(l, ScreenBounds(usable)) && l.x == box.left;
    var t :| Inside(t, ScreenBounds(usable)) && t.y == box.top;
    ScreenInside(usable, l);
    ScreenInside(usable, t);
  }

  ghost predicate ClearOf(placed: seq<Placement>, ps: seq<Placement>, node: NodeId) {
    forall p <- placed, q <- ps :: q.monitor.node != node && !q.bounds.IsEmpty() ==> q.bounds.x + q.bounds.w <= p.bounds.x
  }

  /** The block lies entirely to the right of every other machine's screens, abutting them, exactly when the
      mesh's right edge is a storable coordinate. Past that every screen lands on the last storable column. */
  lemma AbutsExactlyWhenStorable(ps: seq<Placement>, node: NodeId, monitors: seq<Monitor>)
    requires Mesh(ps, node).Some? && Usable(monitors) != []
    ensures var right := Mesh(ps, node).value.right;
            var placed := PlaceNode(ps, node, monitors);
            && (ClearOf(placed, ps, node) <==> right <= I32_MAX)
            && (right <= I32_MAX ==> exists p <- placed :: p.bounds.x == right)
            && (right > I32_MAX ==> forall p <- placed :: p.bounds.x == I32_MAX)
  {
    var right := Mesh(ps, node).value.right;
    AnchorEdge(ps, node, BlockOf(Usable(monitors)));
    LeftEdges(ps, node, monitors);
    var placed := PlaceNode(ps, node, monitors);
    assert placed[0] in placed;
    ClearExactly(placed, ps, node, if right <= I32_MAX then right else I32_MAX);
  }

  lemma ClearExactly(placed: seq<Placement>, ps: seq<Placement>, node: NodeId, x: int)
    requires Mesh(ps, node).Some?
    requires (forall p <- placed :: x <= p.bounds.x) && exists p <- placed :: p.bounds.x == x
    ensures ClearOf(placed, ps, node) <==> Mesh(ps, node).value.right <= x
  {
    var bounds, right := PlacedBounds(Others(ps, node)), Mesh(ps, node).value.right;
    HullIsTight(bounds);
    if ClearOf(placed, ps, node) {
      var edge :| Inside(edge, bounds) && edge.x + edge.w == right;
      PlacedInside(ps, node, edge);
      var q :| q in ps && q.monitor.node != node && q.bounds == edge;
      var p :| p in placed && p.bounds.x == x;
    }
    if right <= x {
      forall p <- placed, q <- ps | q.monitor.node != node && !q.bounds.IsEmpty()
        ensures q.bounds.x + q.bounds.w <= p.bounds.x
      {
        PlacedInside(ps, node, q.bounds);
        assert Holds(Mesh(ps, node).value, q.bounds);
      }
    }
  }

  /** The leftmost screen lands on the anchor, saturated, and none lands left of it; likewise the topmost. */
  ghost predicate StartsAt(placed: seq<Placement>, x: int, y: int) {
    && (forall p <- placed :: x <= p.bounds.x && y <= p.bounds.y)
    && (exists p <- placed :: p.bounds.x == x)
    && (exists p <- placed :: p.bounds.y == y)
  }

  lemma ShiftedStart(usable: seq<Monitor>, node: NodeId, shift: (int, int), x: int, y: int)
    requires Corner(usable, x, y)
    ensures StartsAt(PlaceAll(usable, node, shift), ClampToI32(x + shift.0), ClampToI32(y + shift.1))
  {
    var placed := PlaceAll(usable, node, shift);
    var l :| l in usable && l.bounds.x == x;
    var i :| 0 <= i < |usable| && usable[i] == l;
    var t :| t in usable && t.bounds.y == y;
    var j :| 0 <= j < |usable| && usable[j] == t;
    assert placed[i] in placed && placed[j] in placed;
    forall p <- placed
      ensures ClampToI32(x + shift.0) <= p.bounds.x && ClampToI32(y + shift.1) <= p.bounds.y
    {
      var k :| 0 <= k < |placed| && placed[k] == p;
      assert usable[k] in usable;
    }
  }

  lemma LeftEdges(ps: seq<Placement>, node: NodeId, monitors: seq<Monitor>)
    requires Usable(monitors) != []
    ensures var (ax, ay) := Anchor(MeshOf(ps, node), BlockOf(Usable(monitors)));
            StartsAt(PlaceNode(ps, node, monitors), ClampToI32(ax), ClampToI32(ay))
  {
    hide Usable, PlaceAll, BlockOf, MeshOf, Corner, StartsAt;
    var usable := Usable(monitors);
    var block := BlockOf(usable);
    BlockCorner(monitors);
    ShiftedStart(usable, node, Shift(ps, node, usable), block.x, block.y);
  }

  predicate Storable(v: int) {
    I32_MIN <= v <= I32_MAX
  }

  /** Along one axis: every distance between two coordinates survives moving them all and saturating. */
  ghost predicate AxisKept(from: seq<int>, to: seq<int>)
    requires |from| == |to|
  {
    forall i, j :: 0 <= i < |from| && 0 <= j < |from| ==> to[i] - to[j] == from[i] - from[j]
  }

  ghost predicate AllEqual(vs: seq<int>) {
    forall i, j :: 0 <= i < |vs| && 0 <= j < |vs| ==> vs[i] == vs[j]
  }

  ghost predicate AllStorable(vs: seq<int>, shift: int) {
    forall i :: 0 <= i < |vs| ==> Storable(vs[i] + shift)
  }

  function Moved(vs: seq<int>, shift: int): (r: seq<int>)
    ensures |r| == |vs| && forall i :: 0 <= i < |r| ==> r[i] == ClampToI32(vs[i] + shift)
  {
    seq(|vs|, i requires 0 <= i < |vs| => ClampToI32(vs[i] + shift))
  }

  /** A distance that is not zero survives saturation only between two coordinates that do not saturate. */
  lemma PairKept(a: int, b: int)
    requires a != b && ClampToI32(a) - ClampToI32(b) == a - b
    ensures Storable(a) && Storable(b)
  {
  }

  lemma AxisKeptExactly(vs: seq<int>, shift: int)
    ensures AxisKept(vs, Moved(vs, shift)) <==> AllStorable(vs, shift) || AllEqual(vs)
  {
    var to := Moved(vs, shift);
    if AxisKept(vs, to) && !AllEqual(vs) {
      var i, j :| 0 <= i < |vs| && 0 <= j < |vs| && vs[i] != vs[j];
      forall k | 0 <= k < |vs|
        ensures Storable(vs[k] + shift)
      {
        var l := if vs[k] != vs[i] then i else j;
        assert to[k] - to[l] == vs[k] - vs[l];
        PairKept(vs[k] + shift, vs[l] + shift);
      }
    }
  }

  function ScreenXs(usable: seq<Monitor>): (r: seq<int>)
    ensures |r| == |usable| && forall i :: 0 <= i < |r| ==> r[i] == usable[i].bounds.x
  {
    seq(|usable|, i requires 0 <= i < |usable| => usable[i].bounds.x)
  }

  function ScreenYs(usable: seq<Monitor>): (r: seq<int>)
    ensures |r| == |usable| && forall i :: 0 <= i < |r| ==> r[i] == usable[i].bounds.y
  {
    seq(|usable|, i requires 0 <= i < |usable| => usable[i].bounds.y)
  }

  function PlacedXs(placed: seq<Placement>): (r: seq<int>)
    ensures |r| == |placed| && forall i :: 0 <= i < |r| ==> r[i] == placed[i].bounds.x
  {
    seq(|placed|, i requires 0 <= i < |placed| => placed[i].bounds.x)
  }

  function PlacedYs(placed: seq<Placement>): (r: seq<int>)
    ensures |r| == |placed| && forall i :: 0 <= i < |r| ==> r[i] == placed[i].bounds.y
  {
    seq(|placed|, i requires 0 <= i < |placed| => placed[i].bounds.y)
  }

  /** Sizes, ids and number always survive. */
  lemma SizesKept(ps: seq<Placement>, node: NodeId, monitors: seq<Monitor>)
    ensures var placed, usable := PlaceNode(ps, node, monitors), Usable(monitors);
            && |placed| == |usable|
            && forall i :: 0 <= i < |placed| ==>
                 placed[i].bounds.w == usable[i].bounds.w && placed[i].bounds.h == usable[i].bounds.h
                 && placed[i].monitor == MonitorRef(node, usable[i].id)
  {
  }

  /** For all inputs, along each axis: the screens keep their distances exactly when none of their coordinates
      saturates, or they all share that coordinate. */
  lemma ArrangementKeptExactly(ps: seq<Placement>, node: NodeId, monitors: seq<Monitor>)
    ensures var placed, usable := PlaceNode(ps, node, monitors), Usable(monitors);
            var (dx, dy) := Shift(ps, node, usable);
            && |placed| == |usable|
            && (AxisKept(ScreenXs(usable), PlacedXs(placed))
                <==> AllStorable(ScreenXs(usable), dx) || AllEqual(ScreenXs(usable)))
            && (AxisKept(ScreenYs(usable), PlacedYs(placed))
                <==> AllStorable(ScreenYs(usable), dy) || AllEqual(ScreenYs(usable)))
  {
    var usable := Usable(monitors);
    var (dx, dy) := Shift(ps, node, usable);
    PlacedMoved(usable, node, (dx, dy));
    AxisKeptExactly(ScreenXs(usable), dx);
    AxisKeptExactly(ScreenYs(usable), dy);
  }

  lemma PlacedMoved(usable: seq<Monitor>, node: NodeId, shift: (int, int))
    ensures var placed := PlaceAll(usable, node, shift);
            PlacedXs(placed) == Moved(ScreenXs(usable), shift.0) && PlacedYs(placed) == Moved(ScreenYs(usable), shift.1)
  {
  }

  /** The topmost placed screen sits so that the two half-height centres agree exactly when the anchor's
      height is storable. */
  lemma CentredExactlyWhenStorable(ps: seq<Placement>, node: NodeId, monitors: seq<Monitor>)
    requires Mesh(ps, node).Some? && Usable(monitors) != []
    ensures var mesh, block := MeshOf(ps, node).value, BlockOf(Usable(monitors));
            var ay := Anchor(Some(mesh), block).1;
            (exists p <- PlaceNode(ps, node, monitors) ::
               (forall q <- PlaceNode(ps, node, monitors) :: p.bounds.y <= q.bounds.y)
               && p.bounds.y + block.h / 2 == mesh.y + mesh.h / 2)
            <==> I32_MIN <= ay <= I32_MAX
  {
    var placed := PlaceNode(ps, node, monitors);
    var mesh, block := MeshOf(ps, node).value, BlockOf(Usable(monitors));
    var ay := Anchor(Some(mesh), block).1;
    LeftEdges(ps, node, monitors);
    var top :| top in placed && top.bounds.y == ClampToI32(ay);
    assert forall q <- placed :: top.bounds.y <= q.bounds.y;
  }

  /** A mesh whose right edge is not storable: the new screen lands on top of one already there. */
  lemma OverlapPastTheEdge(a: NodeId, b: NodeId)
    requires a != b
    ensures var there := Placement(MonitorRef(a, 1), Rect(I32_MAX - 100, 0, 1920, 1080), UNSCALED);
            var placed := PlaceNode([there], b, [Monitor(1, Rect(0, 0, 1920, 1080))]);
            |placed| == 1 && placed[0].bounds == Rect(I32_MAX, 0, 1920, 1080)
            && placed[0].bounds.x < there.bounds.x + there.bounds.w
  {
    var there := Placement(MonitorRef(a, 1), Rect(I32_MAX - 100, 0, 1920, 1080), UNSCALED);
    var screen := Monitor(1, Rect(0, 0, 1920, 1080));
    assert Usable([screen]) == [screen];
    assert Others([there], b) == [there];
    SingleHull(PlacedBounds([there]));
    SingleHull(ScreenBounds([screen]));
  }

  lemma SingleHull(rects: seq<Rect>)
    requires |rects| == 1 && !rects[0].IsEmpty()
    ensures Hull(rects) == Some(BoxOf(rects[0]))
  {
    assert rects[..0] == [];
  }
}
