/** Rectangles of the global desktop, and the smallest box around several
    (crates/wx-proto/src/geom.rs, crates/wx-agent/src/autolayout.rs). */
module Geometry {
  import opened Wrappers
  import opened Ints

  datatype Rect = Rect(x: i32, y: i32, w: u32, h: u32)
  {
    predicate IsEmpty() { w == 0 || h == 0 }

    /** Right edge, saturating. */
    function Right(): i32 { ClampToI32(x + w) }

    function Bottom(): i32 { ClampToI32(y + h) }
  }

  /** An unbounded bounding box. */
  datatype Box = Box(left: int, top: int, right: int, bottom: int)

  function BoxOf(r: Rect): Box {
    Box(r.x, r.y, r.x + r.w, r.y + r.h)
  }

  function Join(a: Box, b: Box): Box {
    Box(Min(a.left, b.left), Min(a.top, b.top), Max(a.right, b.right), Max(a.bottom, b.bottom))
  }

  /** The exact bounding box of the non-empty rectangles. */
  function Hull(rects: seq<Rect>): Option<Box> {
    if rects == [] then None else
      var rest := Hull(rects[..|rects| - 1]);
      var r := rects[|rects| - 1];
      if r.IsEmpty() then rest
      else if rest.None? then Some(BoxOf(r))
      else Some(Join(rest.value, BoxOf(r)))
  }

  /** A box as a rectangle, clamped on the way out. */
  function Clamped(b: Box): Rect {
    Rect(ClampToI32(b.left), ClampToI32(b.top),
         Clamp(b.right - b.left, 0, U32_MAX), Clamp(b.bottom - b.top, 0, U32_MAX))
  }

  function Union(rects: seq<Rect>): Option<Rect> {
    var hull := Hull(rects);
    if hull.None? then None else Some(Clamped(hull.value))
  }

  method UnionOf(rects: seq<Rect>) returns (r: Option<Rect>)
    ensures r == Union(rects)
  {
    var acc: Option<Box> := None;
    for i := 0 to |rects|
      invariant acc == Hull(rects[..i])
    {
      assert rects[..i + 1][..i] == rects[..i];
      if rects[i].IsEmpty() {
        continue;
      }
      var b := BoxOf(rects[i]);
      acc := Some(if acc.None? then b else Join(acc.value, b));
    }
    assert rects[..|rects|] == rects;
    return if acc.None? then None else Some(Clamped(acc.value));
  }

  predicate Holds(b: Box, r: Rect) {
    b.left <= r.x && b.top <= r.y && r.x + r.w <= b.right && r.y + r.h <= b.bottom
  }

  predicate Inside(r: Rect, rects: seq<Rect>) {
    r in rects && !r.IsEmpty()
  }

  /** The tightest box: it holds every non-empty rectangle, and each side is touched by one. */
  ghost predicate Tight(rects: seq<Rect>, b: Box) {
    && (forall r :: Inside(r, rects) ==> Holds(b, r))
    && (exists r :: Inside(r, rects) && r.x == b.left)
    && (exists r :: Inside(r, rects) && r.y == b.top)
    && (exists r :: Inside(r, rects) && r.x + r.w == b.right)
    && (exists r :: Inside(r, rects) && r.y + r.h == b.bottom)
  }

  lemma {:induction false} HullIsTight(rects: seq<Rect>)
    ensures Hull(rects).None? <==> forall r <- rects :: r.IsEmpty()
    ensures Hull(rects).Some? ==> Tight(rects, Hull(rects).value)
  {
    if rects != [] {
      var init, last := rects[..|rects| - 1], rects[|rects| - 1];
      HullIsTight(init);
      assert forall r :: r in rects <==> r in init || r == last;
      assert forall r :: Inside(r, rects) <==> Inside(r, init) || (r == last && !last.IsEmpty());
      if !last.IsEmpty() && Hull(init).Some? {
        JoinIsTight(rects, init, Hull(init).value, last);
      } else if !last.IsEmpty() {
        assert Inside(last, rects);
      } else {
        TightTransfers(init, rects, Hull(init));
      }
    }
  }

  lemma TightTransfers(a: seq<Rect>, b: seq<Rect>, box: Option<Box>)
    requires forall r :: Inside(r, a) <==> Inside(r, b)
    requires box.Some? ==> Tight(a, box.value)
    ensures box.Some? ==> Tight(b, box.value)
  {
  }

  lemma JoinIsTight(rects: seq<Rect>, init: seq<Rect>, a: Box, last: Rect)
    requires !last.IsEmpty() && Tight(init, a)
    requires forall r :: Inside(r, rects) <==> Inside(r, init) || r == last
    ensures Tight(rects, Join(a, BoxOf(last)))
  {
    var l :| Inside(l, init) && l.x == a.left;
    var t :| Inside(t, init) && t.y == a.top;
    var r :| Inside(r, init) && r.x + r.w == a.right;
    var m :| Inside(m, init) && m.y + m.h == a.bottom;
    assert Inside(l, rects) && Inside(t, rects) && Inside(r, rects) && Inside(m, rects) && Inside(last, rects);
  }

  lemma TightContains(a: seq<Rect>, big: Box, b: seq<Rect>, small: Box)
    requires Tight(a, big) && Tight(b, small) && forall r :: Inside(r, b) ==> Inside(r, a)
    ensures big.left <= small.left && big.top <= small.top && small.right <= big.right && small.bottom <= big.bottom
  {
    var l :| Inside(l, b) && l.x == small.left;
    var t :| Inside(t, b) && t.y == small.top;
    var r :| Inside(r, b) && r.x + r.w == small.right;
    var m :| Inside(m, b) && m.y + m.h == small.bottom;
    assert Holds(big, l) && Holds(big, t) && Holds(big, r) && Holds(big, m);
  }

  lemma SomeWhenInside(rects: seq<Rect>, r: Rect)
    requires Inside(r, rects)
    ensures Hull(rects).Some?
  {
    HullIsTight(rects);
  }

  lemma InsideWhenSome(rects: seq<Rect>) returns (r: Rect)
    requires Hull(rects).Some?
    ensures Inside(r, rects)
  {
    HullIsTight(rects);
    r :| Inside(r, rects) && r.x == Hull(rects).value.left;
  }

  lemma HullContains(a: seq<Rect>, b: seq<Rect>)
    requires Hull(b).Some? && forall r :: Inside(r, b) ==> Inside(r, a)
    ensures Hull(a).Some? && Join(Hull(a).value, Hull(b).value) == Hull(a).value
  {
    var r := InsideWhenSome(b);
    SomeWhenInside(a, r);
    HullIsTight(a);
    HullIsTight(b);
    TightContains(a, Hull(a).value, b, Hull(b).value);
  }

  /** The box depends only on which non-empty rectangles there are, not on their order or repetition. */
  lemma HullIgnoresOrder(a: seq<Rect>, b: seq<Rect>)
    requires forall r :: Inside(r, a) <==> Inside(r, b)
    ensures Hull(a) == Hull(b)
  {
    if Hull(b).Some? {
      HullContains(a, b);
    }
    if Hull(a).Some? {
      HullContains(b, a);
    }
  }
}
