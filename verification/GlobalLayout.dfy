/** Monitor placements, indexed for lookup and in a stable order (crates/wx-core/src/layout.rs). */
module GlobalLayouts {
  import opened Wrappers
  import opened Ints
  import opened Geometry
  import Fnv

  /** A machine's public key. */
  type NodeId = key: seq<Fnv.byte> | |key| == 32 witness seq(32, _ => 0)

  datatype MonitorRef = MonitorRef(node: NodeId, monitor: u32)

  /** `scale` is the bit pattern of the cursor scale; the layout only ever compares it. */
  datatype Placement = Placement(monitor: MonitorRef, bounds: Rect, scale: u32)

  datatype Monitor = Monitor(id: u32, bounds: Rect)

  /** A layout as it goes over the wire. */
  datatype Layout = Layout(placements: seq<Placement>, revision: nat)

  // --- Placement lists -----------------------------------------------------

  predicate Places(ps: seq<Placement>, id: MonitorRef) {
    exists p <- ps :: p.monitor == id
  }

  ghost predicate DistinctIds(ps: seq<Placement>) {
    forall i, j :: 0 <= i < j < |ps| ==> ps[i].monitor != ps[j].monitor
  }

  /** Replace the placement of that monitor where it stands, or add it at the end. */
  function Inserted(ps: seq<Placement>, p: Placement): seq<Placement> {
    if ps == [] then [p]
    else if ps[0].monitor == p.monitor then [p] + ps[1..]
    else [ps[0]] + Inserted(ps[1..], p)
  }

  function InsertedAll(ps: seq<Placement>, more: seq<Placement>): seq<Placement>
    decreases more
  {
    if more == [] then ps else InsertedAll(Inserted(ps, more[0]), more[1..])
  }

  function Removed(ps: seq<Placement>, id: MonitorRef): seq<Placement> {
    if ps == [] then []
    else (if ps[0].monitor == id then [] else [ps[0]]) + Removed(ps[1..], id)
  }

  function RemovedAll(ps: seq<Placement>, gone: seq<Placement>): seq<Placement>
    decreases gone
  {
    if gone == [] then ps else RemovedAll(Removed(ps, gone[0].monitor), gone[1..])
  }

  function OneOf(p: Placement, node: NodeId): seq<Placement> {
    if p.monitor.node == node then [p] else []
  }

  function Of(ps: seq<Placement>, node: NodeId): seq<Placement> {
    if ps == [] then [] else OneOf(ps[0], node) + Of(ps[1..], node)
  }

  function OneOther(p: Placement, node: NodeId): seq<Placement> {
    if p.monitor.node == node then [] else [p]
  }

  function Others(ps: seq<Placement>, node: NodeId): seq<Placement> {
    if ps == [] then [] else OneOther(ps[0], node) + Others(ps[1..], node)
  }

  lemma {:induction false} OfMembers(ps: seq<Placement>, node: NodeId)
    ensures forall p :: p in Of(ps, node) <==> p in ps && p.monitor.node == node
    ensures forall p :: p in Others(ps, node) <==> p in ps && p.monitor.node != node
  {
    if ps != [] {
      OfMembers(ps[1..], node);
    }
  }

  lemma PlacesSplit(ps: seq<Placement>, id: MonitorRef)
    requires ps != []
    ensures Places(ps, id) <==> ps[0].monitor == id || Places(ps[1..], id)
  {
    assert forall q :: q in ps <==> q == ps[0] || q in ps[1..];
  }

  lemma {:induction false} InsertedPlaces(ps: seq<Placement>, p: Placement)
    ensures forall id :: Places(Inserted(ps, p), id) <==> Places(ps, id) || id == p.monitor
    ensures !Places(ps, p.monitor) ==> Inserted(ps, p) == ps + [p]
  {
    var r := Inserted(ps, p);
    if ps == [] {
      assert p in r;
    } else {
      InsertedPlaces(ps[1..], p);
      assert r[1..] == if ps[0].monitor == p.monitor then ps[1..] else Inserted(ps[1..], p);
      PlacesSplit(ps, p.monitor);
      forall id
        ensures Places(r, id) <==> Places(ps, id) || id == p.monitor
      {
        PlacesSplit(ps, id);
        PlacesSplit(r, id);
      }
    }
  }

  lemma DistinctSplit(ps: seq<Placement>)
    requires ps != []
    ensures DistinctIds(ps) <==> DistinctIds(ps[1..]) && !Places(ps[1..], ps[0].monitor)
  {
    if DistinctIds(ps) {
      assert forall i :: 0 <= i < |ps[1..]| ==> ps[1..][i] == ps[i + 1];
    } else {
      var i, j :| 0 <= i < j < |ps| && ps[i].monitor == ps[j].monitor;
      assert ps[j] == ps[1..][j - 1] && ps[j] in ps[1..];
      if i > 0 {
        assert ps[i] == ps[1..][i - 1];
      }
    }
  }

  lemma {:induction false} InsertedMembers(ps: seq<Placement>, p: Placement)
    requires DistinctIds(ps)
    ensures DistinctIds(Inserted(ps, p))
    ensures forall q :: q in Inserted(ps, p) <==> q == p || (q in ps && q.monitor != p.monitor)
  {
    hide DistinctIds;
    var r := Inserted(ps, p);
    if ps == [] {
      SingleDistinct(p);
    } else {
      DistinctSplit(ps);
      InsertedMembers(ps[1..], p);
      InsertedPlaces(ps[1..], p);
      assert r[1..] == if ps[0].monitor == p.monitor then ps[1..] else Inserted(ps[1..], p);
      DistinctSplit(r);
      assert forall q :: q in ps <==> q == ps[0] || q in ps[1..];
      assert forall q :: q in r <==> q == r[0] || q in r[1..];
    }
  }

  lemma SingleDistinct(p: Placement)
    ensures DistinctIds([p])
  {
  }

  lemma {:induction false} RemovedMembers(ps: seq<Placement>, id: MonitorRef)
    ensures forall p :: p in Removed(ps, id) <==> p in ps && p.monitor != id
    ensures DistinctIds(ps) ==> DistinctIds(Removed(ps, id))
  {
    if ps != [] {
      RemovedMembers(ps[1..], id);
      if DistinctIds(ps) {
        assert forall q <- ps[1..] :: q.monitor != ps[0].monitor;
      }
    }
  }

  // --- The layout object ---------------------------------------------------

  function Listed(placements: map<MonitorRef, Placement>, order: seq<MonitorRef>): seq<Placement>
    requires forall id <- order :: id in placements
  {
    if order == [] then [] else [placements[order[0]]] + Listed(placements, order[1..])
  }

  function Without(order: seq<MonitorRef>, id: MonitorRef): seq<MonitorRef> {
    if order == [] then [] else (if order[0] == id then [] else [order[0]]) + Without(order[1..], id)
  }

  ghost predicate Indexed(placements: map<MonitorRef, Placement>, order: seq<MonitorRef>) {
    && (forall id :: id in placements <==> id in order)
    && (forall id <- order :: placements[id].monitor == id)
    && (forall i, j :: 0 <= i < j < |order| ==> order[i] != order[j])
  }

  lemma {:induction false} ListedSound(placements: map<MonitorRef, Placement>, order: seq<MonitorRef>)
    requires forall id <- order :: id in placements && placements[id].monitor == id
    requires forall i, j :: 0 <= i < j < |order| ==> order[i] != order[j]
    ensures |Listed(placements, order)| == |order|
    ensures forall i :: 0 <= i < |order| ==> Listed(placements, order)[i] == placements[order[i]]
    ensures DistinctIds(Listed(placements, order))
    ensures forall id :: Places(Listed(placements, order), id) <==> id in order
  {
    if order != [] {
      ListedSound(placements, order[1..]);
      var ps := Listed(placements, order);
      forall id
        ensures Places(ps, id) <==> id in order
      {
        assert Places(ps, id) <==> ps[0].monitor == id || Places(ps[1..], id);
      }
    }
  }

  lemma {:induction false} ListedUntouched(a: map<MonitorRef, Placement>, b: map<MonitorRef, Placement>,
                                           order: seq<MonitorRef>)
    requires forall id <- order :: id in a && id in b && a[id] == b[id]
    ensures Listed(a, order) == Listed(b, order)
  {
    if order != [] {
      ListedUntouched(a, b, order[1..]);
    }
  }

  lemma {:induction false} ListedInsert(m: map<MonitorRef, Placement>, order: seq<MonitorRef>, p: Placement)
    requires forall id <- order :: id in m && m[id].monitor == id
    requires forall i, j :: 0 <= i < j < |order| ==> order[i] != order[j]
    ensures var order' := if p.monitor in order then order else order + [p.monitor];
            Listed(m[p.monitor := p], order') == Inserted(Listed(m, order), p)
  {
    var m' := m[p.monitor := p];
    if order == [] {
      assert Listed(m', [p.monitor]) == [p] + Listed(m', []);
    } else if order[0] == p.monitor {
      ListedUntouched(m, m', order[1..]);
    } else {
      ListedInsert(m, order[1..], p);
      var order' := if p.monitor in order then order else order + [p.monitor];
      assert order'[1..] == if p.monitor in order[1..] then order[1..] else order[1..] + [p.monitor];
    }
  }

  lemma {:induction false} ListedRemove(m: map<MonitorRef, Placement>, order: seq<MonitorRef>, id: MonitorRef)
    requires forall k <- order :: k in m && m[k].monitor == k
    ensures forall k :: k in Without(order, id) <==> k in order && k != id
    ensures Listed(m - {id}, Without(order, id)) == Removed(Listed(m, order), id)
  {
    if order != [] {
      ListedRemove(m, order[1..], id);
      if order[0] != id {
        assert Without(order, id)[1..] == Without(order[1..], id);
      } else {
        assert Without(order, id) == Without(order[1..], id);
        assert Removed(Listed(m, order), id) == Removed(Listed(m, order[1..]), id);
      }
    }
  }

  lemma {:induction false} WithoutDistinct(order: seq<MonitorRef>, id: MonitorRef)
    requires forall i, j :: 0 <= i < j < |order| ==> order[i] != order[j]
    ensures forall k :: k in Without(order, id) <==> k in order && k != id
    ensures forall i, j :: 0 <= i < j < |Without(order, id)| ==> Without(order, id)[i] != Without(order, id)[j]
  {
    if order != [] {
      WithoutDistinct(order[1..], id);
      assert order[0] !in order[1..];
    }
  }

  class GlobalLayout {
    var placements: map<MonitorRef, Placement>
    var order: seq<MonitorRef>
    var revision: nat

    ghost predicate Valid()
      reads this
    {
      Indexed(placements, order)
    }

    function ToLayout(): (r: Layout)
      reads this
      requires Valid()
      ensures DistinctIds(r.placements)
    {
      ListedSound(placements, order);
      Layout(Listed(placements, order), revision)
    }

    /** Nothing exactly for a monitor without a place. */
    function RectOf(id: MonitorRef): (r: Option<Rect>)
      reads this
      requires Valid()
      ensures r.None? <==> !Places(ToLayout().placements, id)
    {
      ListedSound(placements, order);
      if id in placements then Some(placements[id].bounds) else None
    }

    /** An empty layout. */
    constructor ()
      ensures Valid() && ToLayout() == Layout([], 0)
    {
      placements, order, revision := map[], [], 0;
    }

    /** A layout off the wire. Of two placements of one monitor, the later one stands. */
    constructor FromLayout(layout: Layout)
      ensures Valid() && ToLayout() == Layout(InsertedAll([], layout.placements), layout.revision)
    {
      placements, order, revision := map[], [], layout.revision;
      new;
      for i := 0 to |layout.placements|
        invariant Valid() && revision == layout.revision
        invariant InsertedAll(Listed(placements, order), layout.placements[i..]) == InsertedAll([], layout.placements)
      {
        assert layout.placements[i..][1..] == layout.placements[i + 1..];
        Insert(layout.placements[i]);
      }
    }

    method Insert(p: Placement)
      requires Valid()
      modifies this
      ensures Valid() && revision == old(revision)
      ensures Listed(placements, order) == Inserted(old(Listed(placements, order)), p)
    {
      ListedInsert(placements, order, p);
      if p.monitor !in placements {
        order := order + [p.monitor];
      }
      placements := placements[p.monitor := p];
    }

    method Remove(id: MonitorRef)
      requires Valid()
      modifies this
      ensures Valid() && revision == old(revision)
      ensures Listed(placements, order) == Removed(old(Listed(placements, order)), id)
    {
      ListedRemove(placements, order, id);
      WithoutDistinct(order, id);
      placements := placements - {id};
      order := Without(order, id);
    }

    method SetRevision(revision: nat)
      requires Valid()
      modifies this`revision
      ensures Valid() && this.revision == revision
    {
      this.revision := revision;
    }
  }
}
