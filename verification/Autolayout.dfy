/** First-pass placement of a machine's screens (crates/wx-agent/src/autolayout.rs). */
module Autolayout {
  import opened Occurrences
  import opened Wrappers
  import opened Ints
  import opened Geometry
  import opened GlobalLayouts

  /** Bit pattern of a cursor scale of 1.0. */
  const UNSCALED: u32 := 0x3f80_0000

  function Usable(monitors: seq<Monitor>): (r: seq<Monitor>)
    ensures forall m :: m in r <==> m in monitors && !m.bounds.IsEmpty()
    ensures |r| <= |monitors|
  {
    if monitors == [] then []
    else (if monitors[0].bounds.IsEmpty() then [] else [monitors[0]]) + Usable(monitors[1..])
  }

  function ScreenBounds(monitors: seq<Monitor>): (r: seq<Rect>)
    ensures |r| == |monitors| && forall i :: 0 <= i < |r| ==> r[i] == monitors[i].bounds
  {
    seq(|monitors|, i requires 0 <= i < |monitors| => monitors[i].bounds)
  }

  function PlacedBounds(ps: seq<Placement>): (r: seq<Rect>)
    ensures |r| == |ps| && forall i :: 0 <= i < |r| ==> r[i] == ps[i].bounds
  {
    seq(|ps|, i requires 0 <= i < |ps| => ps[i].bounds)
  }

  /** Hard against the mesh's right edge, centred on its vertical middle; the origin with no mesh. */
  function Anchor(others: Option<Rect>, block: Rect): (int, int) {
    match others
    case Some(rect) => (rect.x + rect.w, rect.y + rect.h / 2 - block.h / 2)
    case None => (0, 0)
  }

  function BlockOf(usable: seq<Monitor>): Rect {
    var block := Union(ScreenBounds(usable));
    if block.Some? then block.value else Rect(0, 0, 0, 0)
  }

  function MeshOf(ps: seq<Placement>, node: NodeId): Option<Rect> {
    Union(PlacedBounds(Others(ps, node)))
  }

  /** From the machine's own desktop space into the global one. */
  function Shift(ps: seq<Placement>, node: NodeId, usable: seq<Monitor>): (int, int) {
    var block := BlockOf(usable);
    var anchor := Anchor(MeshOf(ps, node), block);
    (anchor.0 - block.x, anchor.1 - block.y)
  }

  function PlaceOne(m: Monitor, node: NodeId, shift: (int, int)): Placement {
    Placement(MonitorRef(node, m.id),
              Rect(ClampToI32(m.bounds.x + shift.0), ClampToI32(m.bounds.y + shift.1), m.bounds.w, m.bounds.h),
              UNSCALED)
  }

  function PlaceAll(usable: seq<Monitor>, node: NodeId, shift: (int, int)): (r: seq<Placement>)
    ensures |r| == |usable| && forall i :: 0 <= i < |r| ==> r[i] == PlaceOne(usable[i], node, shift)
  {
    seq(|usable|, i requires 0 <= i < |usable| => PlaceOne(usable[i], node, shift))
  }

  function PlaceNode(ps: seq<Placement>, node: NodeId, monitors: seq<Monitor>): seq<Placement> {
    var usable := Usable(monitors);
    PlaceAll(usable, node, Shift(ps, node, usable))
  }

  predicate SamePlacements(a: seq<Placement>, b: seq<Placement>) {
    |a| == |b| && forall x <- a :: x in b
  }

  predicate NeedsPlacement(ps: seq<Placement>, node: NodeId, monitors: seq<Monitor>) {
    exists m <- monitors :: !m.bounds.IsEmpty() && !Places(ps, MonitorRef(node, m.id))
  }

  /** What `apply` makes of a layout, and whether it changed anything. */
  function Applied(layout: Layout, node: NodeId, monitors: seq<Monitor>): (Layout, bool) {
    var wanted := PlaceNode(layout.placements, node, monitors);
    var existing := Of(layout.placements, node);
    if SamePlacements(existing, wanted) then (layout, false)
    else (Layout(InsertedAll(RemovedAll(layout.placements, existing), wanted), layout.revision + 1), true)
  }

  function Forgotten(layout: Layout, node: NodeId): (Layout, bool) {
    var doomed := Of(layout.placements, node);
    if doomed == [] then (layout, false)
    else (Layout(RemovedAll(layout.placements, doomed), layout.revision + 1), true)
  }

  method RemoveEach(layout: GlobalLayout, gone: seq<Placement>)
    requires layout.Valid()
    modifies layout
    ensures layout.Valid() && layout.revision == old(layout.revision)
    ensures layout.ToLayout().placements == RemovedAll(old(layout.ToLayout().placements), gone)
  {
    ghost var start := layout.ToLayout().placements;
    for i := 0 to |gone|
      invariant layout.Valid() && layout.revision == old(layout.revision)
      invariant RemovedAll(layout.ToLayout().placements, gone[i..]) == RemovedAll(start, gone)
    {
      assert gone[i..][1..] == gone[i + 1..];
      layout.Remove(gone[i].monitor);
    }
  }

  method InsertEach(layout: GlobalLayout, wanted: seq<Placement>)
    requires layout.Valid()
    modifies layout
    ensures layout.Valid() && layout.revision == old(layout.revision)
    ensures layout.ToLayout().placements == InsertedAll(old(layout.ToLayout().placements), wanted)
  {
    ghost var start := layout.ToLayout().placements;
    for i := 0 to |wanted|
      invariant layout.Valid() && layout.revision == old(layout.revision)
      invariant InsertedAll(layout.ToLayout().placements, wanted[i..]) == InsertedAll(start, wanted)
    {
      assert wanted[i..][1..] == wanted[i + 1..];
      layout.Insert(wanted[i]);
    }
  }

  method Apply(layout: GlobalLayout, node: NodeId, monitors: seq<Monitor>) returns (changed: bool)
    requires layout.Valid()
    modifies layout
    ensures layout.Valid() && (layout.ToLayout(), changed) == Applied(old(layout.ToLayout()), node, monitors)
  {
    hide PlaceNode, SamePlacements;
    var now := layout.ToLayout();
    var wanted := PlaceNode(now.placements, node, monitors);
    var existing := Of(now.placements, node);
    if SamePlacements(existing, wanted) {
      return false;
    }
    RemoveEach(layout, existing);
    InsertEach(layout, wanted);
    layout.SetRevision(layout.revision + 1);
    return true;
  }

  method ForgetNode(layout: GlobalLayout, node: NodeId) returns (changed: bool)
    requires layout.Valid()
    modifies layout
    ensures layout.Valid() && (layout.ToLayout(), changed) == Forgotten(old(layout.ToLayout()), node)
  {
    hide Of, RemovedAll;
    var doomed := Of(layout.ToLayout().placements, node);
    if doomed == [] {
      return false;
    }
    RemoveEach(layout, doomed);
    layout.SetRevision(layout.revision + 1);
    return true;
  }

  // --- What replacing a node's placements leaves ---------------------------

  lemma {:induction false} RemovedKeepsOthers(ps: seq<Placement>, id: MonitorRef)
    ensures Others(Removed(ps, id), id.node) == Others(ps, id.node)
  {
    if ps != [] {
      RemovedKeepsOthers(ps[1..], id);
      if ps[0].monitor == id {
        assert Removed(ps, id) == Removed(ps[1..], id);
      } else {
        assert Removed(ps, id)[1..] == Removed(ps[1..], id);
      }
    }
  }

  lemma {:induction false} AllOthers(ps: seq<Placement>, node: NodeId)
    requires forall p <- ps :: p.monitor.node != node
    ensures Others(ps, node) == ps
  {
    if ps != [] {
      AllOthers(ps[1..], node);
    }
  }

  lemma {:induction false} RemovedAllLeavesOthers(ps: seq<Placement>, node: NodeId, gone: seq<Placement>)
    requires forall g <- gone :: g.monitor.node == node
    requires forall p <- ps :: p.monitor.node == node ==> Places(gone, p.monitor)
    ensures RemovedAll(ps, gone) == Others(ps, node)
    decreases gone
  {
    if gone == [] {
      AllOthers(ps, node);
    } else {
      var id := gone[0].monitor;
      RemovedMembers(ps, id);
      RemovedKeepsOthers(ps, id);
      assert forall k :: Places(gone, k) ==> k == id || Places(gone[1..], k);
      RemovedAllLeavesOthers(Removed(ps, id), node, gone[1..]);
    }
  }

  lemma {:induction false} InsertedBehind(a: seq<Placement>, b: seq<Placement>, p: Placement)
    requires !Places(a, p.monitor)
    ensures Inserted(a + b, p) == a + Inserted(b, p)
  {
    if a == [] {
      assert a + b == b;
    } else {
      assert a[0] in a && forall q <- a[1..] :: q in a;
      assert (a + b)[1..] == a[1..] + b;
      InsertedBehind(a[1..], b, p);
    }
  }

  lemma {:induction false} InsertedAllBehind(a: seq<Placement>, b: seq<Placement>, more: seq<Placement>)
    requires forall p <- more :: !Places(a, p.monitor)
    ensures InsertedAll(a + b, more) == a + InsertedAll(b, more)
    decreases more
  {
    if more != [] {
      InsertedBehind(a, b, more[0]);
      InsertedAllBehind(a, Inserted(b, more[0]), more[1..]);
    }
  }

  lemma {:induction false} InsertedAllMembers(ps: seq<Placement>, more: seq<Placement>)
    ensures forall id :: Places(InsertedAll(ps, more), id) <==> Places(ps, id) || Places(more, id)
    ensures DistinctIds(ps) ==> DistinctIds(InsertedAll(ps, more))
    decreases more
  {
    if more != [] {
      InsertedPlaces(ps, more[0]);
      if DistinctIds(ps) {
        InsertedMembers(ps, more[0]);
      }
      InsertedAllMembers(Inserted(ps, more[0]), more[1..]);
      assert forall id :: Places(more, id) <==> id == more[0].monitor || Places(more[1..], id);
    }
  }

  lemma {:induction false} InsertedAllDistinct(ps: seq<Placement>, more: seq<Placement>)
    requires DistinctIds(ps + more)
    ensures InsertedAll(ps, more) == ps + more
    decreases more
  {
    if more != [] {
      var all := ps + more;
      forall q <- ps
        ensures q.monitor != more[0].monitor
      {
        var i :| 0 <= i < |ps| && ps[i] == q;
        assert all[i] == q && all[|ps|] == more[0];
      }
      InsertedPlaces(ps, more[0]);
      assert (ps + [more[0]]) + more[1..] == all;
      InsertedAllDistinct(ps + [more[0]], more[1..]);
    } else {
      assert ps + more == ps;
    }
  }

  /** Applying keeps every other machine's placements, in order, and puts this one's behind them. */
  lemma ChangedPlacements(layout: Layout, node: NodeId, monitors: seq<Monitor>)
    requires Applied(layout, node, monitors).1
    ensures Applied(layout, node, monitors).0.placements
         == Others(layout.placements, node) + InsertedAll([], PlaceNode(layout.placements, node, monitors))
  {
    var ps := layout.placements;
    var existing, wanted := Of(ps, node), PlaceNode(ps, node, monitors);
    OfMembers(ps, node);
    assert forall p <- ps :: p.monitor.node == node ==> p in existing;
    RemovedAllLeavesOthers(ps, node, existing);
    InsertedAllBehind(Others(ps, node), [], wanted);
    assert Others(ps, node) + [] == Others(ps, node);
  }

  // --- Splitting a list by node --------------------------------------------

  lemma {:induction false} OfConcat(a: seq<Placement>, b: seq<Placement>, node: NodeId)
    ensures Of(a + b, node) == Of(a, node) + Of(b, node)
  {
    hide OneOf;
    if a == [] {
      assert a + b == b;
    } else {
      assert (a + b)[0] == a[0] && (a + b)[1..] == a[1..] + b;
      OfConcat(a[1..], b, node);
    }
  }

  lemma {:induction false} OthersConcat(a: seq<Placement>, b: seq<Placement>, node: NodeId)
    ensures Others(a + b, node) == Others(a, node) + Others(b, node)
  {
    hide OneOther;
    if a == [] {
      assert a + b == b;
    } else {
      assert (a + b)[0] == a[0] && (a + b)[1..] == a[1..] + b;
      OthersConcat(a[1..], b, node);
    }
  }

  lemma {:induction false} AllOf(ps: seq<Placement>, node: NodeId)
    requires forall p <- ps :: p.monitor.node == node
    ensures Of(ps, node) == ps && Others(ps, node) == []
  {
    if ps != [] {
      AllOf(ps[1..], node);
    }
  }

  lemma {:induction false} OfOthers(ps: seq<Placement>, node: NodeId)
    ensures Of(Others(ps, node), node) == [] && Others(Others(ps, node), node) == Others(ps, node)
  {
    if ps != [] {
      OfOthers(ps[1..], node);
      if ps[0].monitor.node != node {
        assert Others(ps, node)[1..] == Others(ps[1..], node);
      } else {
        assert Others(ps, node) == Others(ps[1..], node);
      }
    }
  }

  lemma {:induction false} InsertedAllOneNode(ps: seq<Placement>, more: seq<Placement>, node: NodeId)
    requires (forall p <- ps :: p.monitor.node == node) && forall p <- more :: p.monitor.node == node
    ensures forall p <- InsertedAll(ps, more) :: p.monitor.node == node
    decreases more
  {
    if more != [] {
      OneNodeInserted(ps, more[0], node);
      InsertedAllOneNode(Inserted(ps, more[0]), more[1..], node);
    }
  }

  lemma {:induction false} OneNodeInserted(ps: seq<Placement>, p: Placement, node: NodeId)
    requires p.monitor.node == node && forall q <- ps :: q.monitor.node == node
    ensures forall q <- Inserted(ps, p) :: q.monitor.node == node
  {
    if ps != [] {
      OneNodeInserted(ps[1..], p, node);
    }
  }

  /** Other machines' placements are never touched, and this machine's become exactly the wanted ones. */
  lemma AppliedSplit(layout: Layout, node: NodeId, monitors: seq<Monitor>)
    ensures var after := Applied(layout, node, monitors).0.placements;
            && Others(after, node) == Others(layout.placements, node)
            && (Applied(layout, node, monitors).1 ==>
                  Of(after, node) == InsertedAll([], PlaceNode(layout.placements, node, monitors)))
  {
    if Applied(layout, node, monitors).1 {
      var ps := layout.placements;
      var wanted := PlaceNode(ps, node, monitors);
      ChangedPlacements(layout, node, monitors);
      InsertedAllOneNode([], wanted, node);
      OfConcat(Others(ps, node), InsertedAll([], wanted), node);
      OthersConcat(Others(ps, node), InsertedAll([], wanted), node);
      OfOthers(ps, node);
      AllOf(InsertedAll([], wanted), node);
    }
  }

  // --- Sets by counting ----------------------------------------------------

  /** The one-directional check is equality of sets: the existing placements have distinct ids, so if each
      is wanted and there are as many wanted, nothing else is wanted and nothing is wanted twice. */
  lemma SameIsSetEquality(a: seq<Placement>, b: seq<Placement>)
    requires DistinctIds(a)
    ensures SamePlacements(a, b) <==> DistinctIds(b) && forall p :: p in a <==> p in b
  {
    ElementsCount(a);
    ElementsCount(b);
    assert NoRepeats(a);
    if SamePlacements(a, b) {
      assert Elements(a) <= Elements(b);
      SubsetOfSameSize(Elements(a), Elements(b));
      forall p
        ensures p in a <==> p in b
      {
        assert p in a <==> p in Elements(a);
        assert p in b <==> p in Elements(b);
      }
      DistinctTransfers(a, b);
    }
    if DistinctIds(b) && forall p :: p in a <==> p in b {
      assert NoRepeats(b);
      assert Elements(a) == Elements(b);
    }
  }

  lemma DistinctTransfers(a: seq<Placement>, b: seq<Placement>)
    requires DistinctIds(a) && NoRepeats(b) && forall p <- b :: p in a
    ensures DistinctIds(b)
  {
    forall i, j | 0 <= i < j < |b|
      ensures b[i].monitor != b[j].monitor
    {
      assert b[i] in b && b[j] in b;
      var k :| 0 <= k < |a| && a[k] == b[i];
      var l :| 0 <= l < |a| && a[l] == b[j];
      assert b[i] != b[j];
    }
  }

  // --- What apply promises -------------------------------------------------

  ghost predicate DistinctScreens(monitors: seq<Monitor>) {
    forall i, j :: 0 <= i < j < |Usable(monitors)| ==> Usable(monitors)[i].id != Usable(monitors)[j].id
  }

  lemma WantedDistinct(ps: seq<Placement>, node: NodeId, monitors: seq<Monitor>)
    ensures DistinctIds(PlaceNode(ps, node, monitors)) <==> DistinctScreens(monitors)
    ensures forall p <- PlaceNode(ps, node, monitors) :: p.monitor.node == node
  {
    var usable := Usable(monitors);
    var wanted := PlaceNode(ps, node, monitors);
    assert forall i :: 0 <= i < |usable| ==> wanted[i].monitor == MonitorRef(node, usable[i].id);
    if DistinctIds(wanted) {
      forall i, j | 0 <= i < j < |usable|
        ensures usable[i].id != usable[j].id
      {
        assert wanted[i].monitor != wanted[j].monitor;
      }
    }
  }

  lemma {:induction false} OfDistinct(ps: seq<Placement>, node: NodeId)
    requires DistinctIds(ps)
    ensures DistinctIds(Of(ps, node))
  {
    if ps != [] {
      OfDistinct(ps[1..], node);
      OfMembers(ps[1..], node);
    }
  }

  /** Placing depends only on the other machines' placements and the screens. */
  lemma PlaceNodeLocal(a: seq<Placement>, b: seq<Placement>, node: NodeId, monitors: seq<Monitor>)
    requires Others(a, node) == Others(b, node)
    ensures PlaceNode(a, node, monitors) == PlaceNode(b, node, monitors)
  {
    hide PlaceAll, BlockOf, Usable, Anchor, Union, PlacedBounds, ScreenBounds, Others;
  }

  /** `apply` twice: the second call reports no change exactly when the usable screens have distinct ids.
      With a repeated id it reports a change, and bumps the revision, every time. */
  lemma IdempotentExactlyWhenDistinct(layout: Layout, node: NodeId, monitors: seq<Monitor>)
    requires DistinctIds(layout.placements)
    ensures var once := Applied(layout, node, monitors).0;
            && (!Applied(once, node, monitors).1 <==> DistinctScreens(monitors))
            && (DistinctScreens(monitors) ==> Applied(once, node, monitors).0 == once)
  {
    var once := Applied(layout, node, monitors).0;
    var wanted := PlaceNode(layout.placements, node, monitors);
    AppliedSplit(layout, node, monitors);
    PlaceNodeLocal(layout.placements, once.placements, node, monitors);
    WantedDistinct(layout.placements, node, monitors);
    OfDistinct(layout.placements, node);
    SameIsSetEquality(Of(layout.placements, node), wanted);
    if Applied(layout, node, monitors).1 {
      InsertedAllMembers([], wanted);
      SameIsSetEquality(Of(once.placements, node), wanted);
      if DistinctScreens(monitors) {
        assert [] + wanted == wanted;
        InsertedAllDistinct([], wanted);
      }
    }
  }

  /** The layout changes, and its revision goes up by one, exactly when this machine's placements are not
      already the wanted ones; either way the result keeps ids distinct and holds the wanted placements. */
  lemma ChangesExactlyWhenDifferent(layout: Layout, node: NodeId, monitors: seq<Monitor>)
    requires DistinctIds(layout.placements) && DistinctScreens(monitors)
    ensures var (after, changed) := Applied(layout, node, monitors);
            var wanted := PlaceNode(layout.placements, node, monitors);
            && (!changed <==> forall p :: p in Of(layout.placements, node) <==> p in wanted)
            && after.revision == layout.revision + (if changed then 1 else 0)
            && (forall p :: p in Of(after.placements, node) <==> p in wanted)
  {
    var wanted := PlaceNode(layout.placements, node, monitors);
    WantedDistinct(layout.placements, node, monitors);
    OfDistinct(layout.placements, node);
    SameIsSetEquality(Of(layout.placements, node), wanted);
    AppliedSplit(layout, node, monitors);
    assert [] + wanted == wanted;
    InsertedAllDistinct([], wanted);
  }

  lemma {:induction false} OthersDistinct(ps: seq<Placement>, node: NodeId)
    requires DistinctIds(ps)
    ensures DistinctIds(Others(ps, node))
  {
    if ps != [] {
      OthersDistinct(ps[1..], node);
      OfMembers(ps[1..], node);
    }
  }

  lemma AppliedDistinct(layout: Layout, node: NodeId, monitors: seq<Monitor>)
    requires DistinctIds(layout.placements)
    ensures DistinctIds(Applied(layout, node, monitors).0.placements)
  {
    if Applied(layout, node, monitors).1 {
      var wanted := PlaceNode(layout.placements, node, monitors);
      ChangedPlacements(layout, node, monitors);
      OthersDistinct(layout.placements, node);
      OfMembers(layout.placements, node);
      WantedDistinct(layout.placements, node, monitors);
      InsertedAllMembers([], wanted);
      InsertedAllOneNode([], wanted, node);
    }
  }

  /** Afterwards every usable screen has its place; and where one was missing, the revision goes up. */
  lemma NothingLeftToPlace(layout: Layout, node: NodeId, monitors: seq<Monitor>)
    requires DistinctIds(layout.placements)
    ensures !NeedsPlacement(Applied(layout, node, monitors).0.placements, node, monitors)
    ensures NeedsPlacement(layout.placements, node, monitors) ==> Applied(layout, node, monitors).1
  {
    var ps := layout.placements;
    var after := Applied(layout, node, monitors).0.placements;
    var wanted := PlaceNode(ps, node, monitors);
    OfDistinct(ps, node);
    OfMembers(ps, node);
    OfMembers(after, node);
    AppliedSplit(layout, node, monitors);
    SameIsSetEquality(Of(ps, node), wanted);
    InsertedAllMembers([], wanted);
    forall m <- monitors | !m.bounds.IsEmpty()
      ensures Places(after, MonitorRef(node, m.id))
    {
      PlacesWanted(ps, node, monitors, m);
    }
  }

  lemma PlacesWanted(ps: seq<Placement>, node: NodeId, monitors: seq<Monitor>, m: Monitor)
    requires m in monitors && !m.bounds.IsEmpty()
    ensures Places(PlaceNode(ps, node, monitors), MonitorRef(node, m.id))
  {
    var usable := Usable(monitors);
    var i :| 0 <= i < |usable| && usable[i] == m;
    var p := PlaceNode(ps, node, monitors)[i];
    assert p.monitor == MonitorRef(node, m.id);
  }

  /** A machine's placements after `apply`: the wanted ones, one for each id. */
  lemma AppliedOf(layout: Layout, node: NodeId, monitors: seq<Monitor>)
    requires DistinctIds(layout.placements)
    ensures var wanted := InsertedAll([], PlaceNode(layout.placements, node, monitors));
            forall p :: p in Of(Applied(layout, node, monitors).0.placements, node) <==> p in wanted
  {
    var wanted := PlaceNode(layout.placements, node, monitors);
    AppliedSplit(layout, node, monitors);
    OfDistinct(layout.placements, node);
    SameIsSetEquality(Of(layout.placements, node), wanted);
    if !Applied(layout, node, monitors).1 {
      assert [] + wanted == wanted;
      InsertedAllDistinct([], wanted);
    }
  }

  /** Forgetting takes away exactly the machine's placements and keeps the rest in order; it reports a change, and
      raises the revision by one, exactly when there were any. */
  lemma ForgottenExactly(layout: Layout, node: NodeId)
    requires DistinctIds(layout.placements)
    ensures var (after, changed) := Forgotten(layout, node);
            && (changed <==> exists p <- layout.placements :: p.monitor.node == node)
            && after.revision == layout.revision + (if changed then 1 else 0)
            && after.placements == Others(layout.placements, node)
            && forall p :: p in after.placements <==> p in layout.placements && p.monitor.node != node
  {
    ForgottenKeepsOthers(layout, node);
    OfMembers(layout.placements, node);
    var mine := Of(layout.placements, node);
    hide Of, Others, RemovedAll;
    assert mine != [] ==> mine[0] in mine;
  }

  lemma ForgottenKeepsOthers(layout: Layout, node: NodeId)
    requires DistinctIds(layout.placements)
    ensures var bare := Forgotten(layout, node).0.placements;
            bare == Others(layout.placements, node) && Of(bare, node) == [] && Others(bare, node) == bare && DistinctIds(bare)
  {
    var ps := layout.placements;
    OfMembers(ps, node);
    RemovedAllLeavesOthers(ps, node, Of(ps, node));
    if Of(ps, node) == [] {
      AllOthers(ps, node);
    }
    OfOthers(ps, node);
    OthersDistinct(ps, node);
  }

  /** Forgetting a machine and placing it again arrives at the placements a direct apply does. */
  lemma ForgetThenApply(layout: Layout, node: NodeId, monitors: seq<Monitor>)
    requires DistinctIds(layout.placements)
    ensures var direct := Applied(layout, node, monitors).0.placements;
            var again := Applied(Forgotten(layout, node).0, node, monitors).0.placements;
            forall p :: p in direct <==> p in again
    ensures Of(Forgotten(layout, node).0.placements, node) == []
  {
    hide Applied, Forgotten, PlaceNode;
    var bare := Forgotten(layout, node).0;
    ForgottenKeepsOthers(layout, node);
    PlaceNodeLocal(layout.placements, bare.placements, node, monitors);
    AppliedOf(layout, node, monitors);
    AppliedOf(bare, node, monitors);
    AppliedSplit(layout, node, monitors);
    AppliedSplit(bare, node, monitors);
    OfMembers(Applied(layout, node, monitors).0.placements, node);
    OfMembers(Applied(bare, node, monitors).0.placements, node);
  }

  lemma PlacedInside(ps: seq<Placement>, node: NodeId, r: Rect)
    ensures Inside(r, PlacedBounds(Others(ps, node)))
       <==> !r.IsEmpty() && exists p <- ps :: p.monitor.node != node && p.bounds == r
  {
    var others := Others(ps, node);
    OfMembers(ps, node);
    if Inside(r, PlacedBounds(others)) {
      var i :| 0 <= i < |others| && PlacedBounds(others)[i] == r;
      assert others[i] in ps;
    }
    if !r.IsEmpty() && exists p <- ps :: p.monitor.node != node && p.bounds == r {
      var p :| p in ps && p.monitor.node != node && p.bounds == r;
      var i :| 0 <= i < |others| && others[i] == p;
      assert PlacedBounds(others)[i] == r;
    }
  }

  lemma ScreenInside(usable: seq<Monitor>, r: Rect)
    ensures Inside(r, ScreenBounds(usable)) <==> !r.IsEmpty() && exists m <- usable :: m.bounds == r
  {
    if Inside(r, ScreenBounds(usable)) {
      var i :| 0 <= i < |usable| && ScreenBounds(usable)[i] == r;
      assert usable[i] in usable;
    }
    if !r.IsEmpty() && exists m <- usable :: m.bounds == r {
      var m :| m in usable && m.bounds == r;
      var i :| 0 <= i < |usable| && usable[i] == m;
      assert ScreenBounds(usable)[i] == r;
    }
  }

  lemma SameShift(a: seq<Placement>, b: seq<Placement>, node: NodeId, us: seq<Monitor>, vs: seq<Monitor>)
    requires (forall p :: p in a <==> p in b) && (forall m :: m in us <==> m in vs)
    ensures Shift(a, node, us) == Shift(b, node, vs)
  {
    hide PlacedBounds, ScreenBounds, Others, Hull;
    forall r
      ensures Inside(r, PlacedBounds(Others(a, node))) <==> Inside(r, PlacedBounds(Others(b, node)))
    {
      PlacedInside(a, node, r);
      PlacedInside(b, node, r);
    }
    forall r
      ensures Inside(r, ScreenBounds(us)) <==> Inside(r, ScreenBounds(vs))
    {
      ScreenInside(us, r);
      ScreenInside(vs, r);
    }
    HullIgnoresOrder(PlacedBounds(Others(a, node)), PlacedBounds(Others(b, node)));
    HullIgnoresOrder(ScreenBounds(us), ScreenBounds(vs));
  }

  /** Neither the order the OS lists screens in nor the order they were inserted in matters. */
  lemma OrderIsIgnored(a: seq<Placement>, b: seq<Placement>, node: NodeId, ms: seq<Monitor>, ns: seq<Monitor>)
    requires (forall p :: p in a <==> p in b) && (forall m :: m in ms <==> m in ns)
    ensures forall p :: p in PlaceNode(a, node, ms) <==> p in PlaceNode(b, node, ns)
  {
    var us, vs := Usable(ms), Usable(ns);
    SameShift(a, b, node, us, vs);
    SamePlaced(us, vs, node, Shift(a, node, us));
  }

  lemma SamePlaced(us: seq<Monitor>, vs: seq<Monitor>, node: NodeId, shift: (int, int))
    requires forall m :: m in us <==> m in vs
    ensures forall p :: p in PlaceAll(us, node, shift) <==> p in PlaceAll(vs, node, shift)
  {
    PlacedAmong(us, vs, node, shift);
    PlacedAmong(vs, us, node, shift);
  }

  lemma PlacedAmong(us: seq<Monitor>, vs: seq<Monitor>, node: NodeId, shift: (int, int))
    requires forall m <- us :: m in vs
    ensures forall p <- PlaceAll(us, node, shift) :: p in PlaceAll(vs, node, shift)
  {
    forall p <- PlaceAll(us, node, shift)
      ensures p in PlaceAll(vs, node, shift)
    {
      var i :| 0 <= i < |us| && PlaceAll(us, node, shift)[i] == p;
      assert us[i] in vs;
      var j :| 0 <= j < |vs| && vs[j] == us[i];
      assert PlaceAll(vs, node, shift)[j] == p;
    }
  }
}
