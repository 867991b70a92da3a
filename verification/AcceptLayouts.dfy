/** Which of two layouts stands (crates/wx-agent/src/engine.rs:1045-1113). */
module AcceptLayouts {
  import opened Geometry
  import opened GlobalLayouts
  import Fnv
  import opened LexOrders

  /** What the key compares of a placement: everything but the cursor scale. */
  datatype Spot = Spot(monitor: MonitorRef, bounds: Rect)

  function SpotOf(p: Placement): Spot {
    Spot(p.monitor, p.bounds)
  }

  function Spots(ps: seq<Placement>): seq<Spot> {
    if ps == [] then [] else [SpotOf(ps[0])] + Spots(ps[1..])
  }

  /** Character codes of the lower-case hexadecimal form. */
  function HexDigit(n: nat): int
    requires n < 16
  {
    if n < 10 then '0' as int + n else 'a' as int + n - 10
  }

  function Hex(bytes: seq<Fnv.byte>): (r: seq<int>)
    ensures |r| == 2 * |bytes|
  {
    if bytes == [] then []
    else [HexDigit(bytes[0] / 16), HexDigit(bytes[0] % 16)] + Hex(bytes[1..])
  }

  /** One row of the key. The hex form always has 64 characters, so comparing the row element by element is
      comparing the tuple component by component. */
  function Row(s: Spot): seq<int> {
    Hex(s.monitor.node) + [s.monitor.monitor, s.bounds.x, s.bounds.y, s.bounds.w, s.bounds.h]
  }

  function Rows(ps: seq<Placement>): seq<seq<int>> {
    if ps == [] then [] else [Row(SpotOf(ps[0]))] + Rows(ps[1..])
  }

  predicate NumberLess(x: int, y: int) { x < y }

  predicate RowLess(a: seq<int>, b: seq<int>) { LexLess(NumberLess, a, b) }

  function Key(layout: Layout): seq<seq<int>> {
    Sorted(RowLess, Rows(layout.placements))
  }

  predicate Accepts(current: Layout, incoming: Layout) {
    if incoming.revision != current.revision then incoming.revision > current.revision
    else if |incoming.placements| != |current.placements| then |incoming.placements| > |current.placements|
    else LexLess(RowLess, Key(incoming), Key(current))
  }

  // --- The row order -------------------------------------------------------

  lemma RowsTotal()
    ensures StrictTotal(NumberLess) && StrictTotal(RowLess)
  {
    forall a: seq<int>
      ensures !RowLess(a, a)
    {
      LexIrreflexive(NumberLess, a);
    }
    forall a: seq<int>, b: seq<int> | a != b
      ensures RowLess(a, b) || RowLess(b, a)
    {
      LexTotal(NumberLess, a, b);
    }
    forall a: seq<int>, b: seq<int>, c: seq<int> | RowLess(a, b) && RowLess(b, c)
      ensures RowLess(a, c)
    {
      LexTransitive(NumberLess, a, b, c);
    }
  }

  lemma {:induction false} HexTellsApart(a: seq<Fnv.byte>, b: seq<Fnv.byte>)
    requires |a| == |b| && Hex(a) == Hex(b)
    ensures a == b
  {
    if a != [] {
      assert Hex(a)[0] == Hex(b)[0] && Hex(a)[1] == Hex(b)[1];
      assert a[0] == 16 * (a[0] / 16) + a[0] % 16 && b[0] == 16 * (b[0] / 16) + b[0] % 16;
      assert Hex(a)[2..] == Hex(a[1..]) && Hex(b)[2..] == Hex(b[1..]);
      HexTellsApart(a[1..], b[1..]);
      assert a == [a[0]] + a[1..] && b == [b[0]] + b[1..];
    }
  }

  lemma RowTellsApart(s: Spot, t: Spot)
    requires Row(s) == Row(t)
    ensures s == t
  {
    var a, b := Row(s), Row(t);
    assert a[..64] == Hex(s.monitor.node) && b[..64] == Hex(t.monitor.node);
    HexTellsApart(s.monitor.node, t.monitor.node);
    assert a[64] == s.monitor.monitor && a[65] == s.bounds.x && a[66] == s.bounds.y;
    assert a[67] == s.bounds.w && a[68] == s.bounds.h;
  }

  lemma {:induction false} RowCount(ps: seq<Placement>, s: Spot)
    ensures multiset(Rows(ps))[Row(s)] == multiset(Spots(ps))[s]
  {
    if ps != [] {
      RowCount(ps[1..], s);
      if Row(SpotOf(ps[0])) == Row(s) {
        RowTellsApart(SpotOf(ps[0]), s);
      }
    }
  }

  lemma {:induction false} RowHasSpot(ps: seq<Placement>, row: seq<int>) returns (s: Spot)
    requires row in Rows(ps)
    ensures s in Spots(ps) && Row(s) == row
  {
    if Row(SpotOf(ps[0])) == row {
      s := SpotOf(ps[0]);
    } else {
      s := RowHasSpot(ps[1..], row);
    }
  }

  lemma SameRows(a: seq<Placement>, b: seq<Placement>)
    ensures multiset(Rows(a)) == multiset(Rows(b)) <==> multiset(Spots(a)) == multiset(Spots(b))
  {
    hide Rows, Spots;
    if multiset(Rows(a)) == multiset(Rows(b)) {
      forall s: Spot
        ensures multiset(Spots(a))[s] == multiset(Spots(b))[s]
      {
        RowCount(a, s);
        RowCount(b, s);
      }
    }
    if multiset(Spots(a)) == multiset(Spots(b)) {
      RowsFollow(a, b);
      RowsFollow(b, a);
      forall row: seq<int>
        ensures multiset(Rows(a))[row] == multiset(Rows(b))[row]
      {
        if row in Rows(a) {
          assert row in multiset(Rows(a));
        }
      }
    }
  }

  lemma RowsFollow(a: seq<Placement>, b: seq<Placement>)
    requires multiset(Spots(a)) == multiset(Spots(b))
    ensures forall row :: row in Rows(a) ==> multiset(Rows(a))[row] == multiset(Rows(b))[row]
  {
    forall row | row in Rows(a)
      ensures multiset(Rows(a))[row] == multiset(Rows(b))[row]
    {
      var s := RowHasSpot(a, row);
      RowCount(a, s);
      RowCount(b, s);
    }
  }

  // --- The order on layouts ------------------------------------------------

  /** Neither side would take the other. */
  predicate Tied(a: Layout, b: Layout) {
    !Accepts(a, b) && !Accepts(b, a)
  }

  lemma {:induction false} CountSpots(ps: seq<Placement>)
    ensures |Spots(ps)| == |ps| && |Rows(ps)| == |ps|
    ensures forall i :: 0 <= i < |ps| ==> Spots(ps)[i] == SpotOf(ps[i])
  {
    if ps != [] {
      CountSpots(ps[1..]);
    }
  }

  lemma KeysTotal()
    ensures StrictTotal(RowLess)
    ensures forall a: seq<seq<int>> :: !LexLess(RowLess, a, a)
  {
    RowsTotal();
    forall a: seq<seq<int>>
      ensures !LexLess(RowLess, a, a)
    {
      LexIrreflexive(RowLess, a);
    }
  }

  /** Never both ways, and never itself. */
  lemma AcceptAsymmetric(a: Layout, b: Layout)
    requires Accepts(a, b)
    ensures !Accepts(b, a) && a != b
  {
    KeysTotal();
    if a.revision == b.revision && |a.placements| == |b.placements| && Accepts(b, a) {
      LexTransitive(RowLess, Key(a), Key(b), Key(a));
    }
  }

  lemma AcceptTransitive(a: Layout, b: Layout, c: Layout)
    requires Accepts(a, b) && Accepts(b, c)
    ensures Accepts(a, c)
  {
    KeysTotal();
    if a.revision == b.revision == c.revision && |a.placements| == |b.placements| == |c.placements| {
      LexTransitive(RowLess, Key(c), Key(b), Key(a));
    }
  }

  /** A tie is agreement: the same revision and the same screens in the same places, whatever the order they
      are listed in and whatever their cursor scales. */
  lemma TiedExactlyWhenAgreed(a: Layout, b: Layout)
    ensures Tied(a, b) <==> a.revision == b.revision && multiset(Spots(a.placements)) == multiset(Spots(b.placements))
  {
    KeysTotal();
    CountSpots(a.placements);
    CountSpots(b.placements);
    SortedUnique(RowLess, Rows(a.placements), Rows(b.placements));
    SameRows(a.placements, b.placements);
    if multiset(Spots(a.placements)) == multiset(Spots(b.placements)) {
      assert |multiset(Spots(a.placements))| == |multiset(Spots(b.placements))|;
    }
    if a.revision == b.revision && |a.placements| == |b.placements| && Key(a) != Key(b) {
      LexTotal(RowLess, Key(a), Key(b));
    }
  }

  lemma TiedTransitive(a: Layout, b: Layout, c: Layout)
    requires Tied(a, b) && Tied(b, c)
    ensures Tied(a, c)
  {
    TiedExactlyWhenAgreed(a, b);
    TiedExactlyWhenAgreed(b, c);
    TiedExactlyWhenAgreed(a, c);
  }

  /** Layouts that tie are interchangeable on either side of the comparison. */
  lemma AcceptRespectsTies(a: Layout, b: Layout, c: Layout)
    requires Tied(a, b)
    ensures Accepts(a, c) <==> Accepts(b, c)
    ensures Accepts(c, a) <==> Accepts(c, b)
  {
    TiedExactlyWhenAgreed(a, b);
    CountSpots(a.placements);
    CountSpots(b.placements);
    assert |multiset(Spots(a.placements))| == |multiset(Spots(b.placements))|;
    SameRows(a.placements, b.placements);
    RowsTotal();
    SortedUnique(RowLess, Rows(a.placements), Rows(b.placements));
  }

  lemma {:induction false} SpotMembers(ps: seq<Placement>, s: Spot)
    ensures s in Spots(ps) <==> exists p <- ps :: SpotOf(p) == s
  {
    if ps != [] {
      SpotMembers(ps[1..], s);
      assert forall p :: p in ps <==> p == ps[0] || p in ps[1..];
    }
  }

  lemma SpotsWithoutOne(ps: seq<Placement>, k: nat)
    requires k < |ps|
    ensures multiset(Spots(ps)) == multiset{SpotOf(ps[k])} + multiset(Spots(ps[..k] + ps[k + 1..]))
  {
    hide Spots, Rows, SpotOf;
    var fewer, all := ps[..k] + ps[k + 1..], Spots(ps);
    CountSpots(ps);
    CountSpots(fewer);
    forall i | 0 <= i < |fewer|
      ensures (all[..k] + all[k + 1..])[i] == Spots(fewer)[i]
    {
    }
    assert all[..k] + all[k + 1..] == Spots(fewer);
    WithoutOne(all, k);
  }

  lemma {:induction false} SpotsPermuted(a: seq<Placement>, b: seq<Placement>)
    requires multiset(a) == multiset(b)
    ensures multiset(Spots(a)) == multiset(Spots(b))
    decreases |a|
  {
    hide SpotOf;
    assert |multiset(a)| == |a| && |multiset(b)| == |b|;
    if a != [] {
      assert a[0] in multiset(b);
      var k :| 0 <= k < |b| && b[k] == a[0];
      var fewer := b[..k] + b[k + 1..];
      RestAgrees(a, b, k);
      SpotsPermuted(a[1..], fewer);
      SpotsWithoutOne(b, k);
    }
  }

  /** Listing a layout's placements in another order changes no verdict, on either side. */
  lemma AcceptIgnoresOrder(a: Layout, b: Layout, c: Layout)
    requires a.revision == b.revision && multiset(a.placements) == multiset(b.placements)
    ensures Accepts(a, c) <==> Accepts(b, c)
    ensures Accepts(c, a) <==> Accepts(c, b)
  {
    SpotsPermuted(a.placements, b.placements);
    TiedExactlyWhenAgreed(a, b);
    AcceptRespectsTies(a, b, c);
  }

  /** One layout ranks at least as high as the other: it would not give way to it. */
  predicate Covers(a: Layout, b: Layout) {
    !Accepts(a, b)
  }

  lemma CoversTransitive(a: Layout, b: Layout, c: Layout)
    requires Covers(a, b) && Covers(b, c)
    ensures Covers(a, c)
  {
    if Accepts(a, c) {
      if Accepts(c, b) {
        AcceptTransitive(a, c, b);
      } else {
        AcceptRespectsTies(b, c, a);
      }
    }
  }

  lemma CoversItself(a: Layout)
    ensures Covers(a, a)
  {
    TiedExactlyWhenAgreed(a, a);
  }

  lemma CoversAccepted(current: Layout, incoming: Layout)
    requires Accepts(current, incoming)
    ensures Covers(incoming, current)
  {
    AcceptAsymmetric(current, incoming);
  }

  // --- Which way it goes ---------------------------------------------------

  /** A deliberate edit beats a guess: the higher revision is taken whatever it holds, and never given up for a
      lower one. */
  lemma HigherRevision(a: Layout, b: Layout)
    requires a.revision < b.revision
    ensures Accepts(a, b) && !Accepts(b, a)
  {
    hide Key;
  }

  /** At one revision the layout that places more is taken, and never given up for one that places fewer. */
  lemma MorePlacements(a: Layout, b: Layout)
    requires a.revision == b.revision && |a.placements| < |b.placements|
    ensures Accepts(a, b) && !Accepts(b, a)
  {
    hide Key;
  }

  lemma ProperlyFewer<T>(a: multiset<T>, b: multiset<T>)
    requires a < b
    ensures |a| < |b|
  {
    assert b == a + (b - a);
    assert b - a == multiset{} ==> b == a;
  }

  /** So a layout that knows of everything another does and more is taken for it, and never the other way round. */
  lemma FullerIsTaken(a: Layout, b: Layout)
    requires a.revision == b.revision && multiset(Spots(a.placements)) < multiset(Spots(b.placements))
    ensures Accepts(a, b) && !Accepts(b, a)
  {
    CountSpots(a.placements);
    CountSpots(b.placements);
    ProperlyFewer(multiset(Spots(a.placements)), multiset(Spots(b.placements)));
    assert |multiset(Spots(a.placements))| == |a.placements| && |multiset(Spots(b.placements))| == |b.placements|;
    MorePlacements(a, b);
  }

  /** What is taken never has fewer placements at the same revision, nor a lower revision. */
  lemma TakenIsNoPoorer(a: Layout, b: Layout)
    requires Accepts(a, b)
    ensures a.revision <= b.revision && (a.revision == b.revision ==> |a.placements| <= |b.placements|)
  {
    hide Key;
  }

  predicate BytesLess(a: seq<Fnv.byte>, b: seq<Fnv.byte>)
    requires |a| == |b|
  {
    a != [] && (a[0] < b[0] || (a[0] == b[0] && BytesLess(a[1..], b[1..])))
  }

  /** The canonical order of spots: by machine, then monitor, then across, down, width and height. */
  predicate Smaller(s: Spot, t: Spot) {
    var a, b := s.bounds, t.bounds;
    if s.monitor.node != t.monitor.node then BytesLess(s.monitor.node, t.monitor.node)
    else if s.monitor.monitor != t.monitor.monitor then s.monitor.monitor < t.monitor.monitor
    else if a.x != b.x then a.x < b.x
    else if a.y != b.y then a.y < b.y
    else if a.w != b.w then a.w < b.w
    else a.h < b.h
  }

  lemma {:induction false} CommonFront(front: seq<int>, a: seq<int>, b: seq<int>)
    ensures RowLess(front + a, front + b) <==> RowLess(a, b)
  {
    if front == [] {
      assert front + a == a && front + b == b;
    } else {
      CommonFront(front[1..], a, b);
      assert (front + a)[1..] == front[1..] + a && (front + b)[1..] == front[1..] + b;
    }
  }

  lemma FirstNumber(x: int, a: seq<int>, y: int, b: seq<int>)
    ensures RowLess([x] + a, [y] + b) <==> x < y || (x == y && RowLess(a, b))
  {
    assert ([x] + a)[1..] == a && ([y] + b)[1..] == b;
  }

  lemma DigitsKeepOrder(x: nat, y: nat)
    requires x < 16 && y < 16
    ensures HexDigit(x) < HexDigit(y) <==> x < y
  {
  }

  /** Hexadecimal compares as the bytes do. */
  lemma {:induction false} HexKeepsOrder(a: seq<Fnv.byte>, b: seq<Fnv.byte>, more: seq<int>, other: seq<int>)
    requires |a| == |b| && a != b
    ensures RowLess(Hex(a) + more, Hex(b) + other) <==> BytesLess(a, b)
  {
    var x, y := Hex(a) + more, Hex(b) + other;
    var p, q := [HexDigit(a[0] / 16), HexDigit(a[0] % 16)], [HexDigit(b[0] / 16), HexDigit(b[0] % 16)];
    assert x == p + (Hex(a[1..]) + more) && y == q + (Hex(b[1..]) + other);
    if a[0] == b[0] {
      assert a == [a[0]] + a[1..] && b == [b[0]] + b[1..];
      HexKeepsOrder(a[1..], b[1..], more, other);
      CommonFront(p, Hex(a[1..]) + more, Hex(b[1..]) + other);
    } else {
      assert a[0] == 16 * (a[0] / 16) + a[0] % 16 && b[0] == 16 * (b[0] / 16) + b[0] % 16;
      var restX, restY := Hex(a[1..]) + more, Hex(b[1..]) + other;
      assert x == [p[0]] + ([p[1]] + restX) && y == [q[0]] + ([q[1]] + restY);
      FirstNumber(p[0], [p[1]] + restX, q[0], [q[1]] + restY);
      FirstNumber(p[1], restX, q[1], restY);
      DigitsKeepOrder(a[0] / 16, b[0] / 16);
      DigitsKeepOrder(b[0] / 16, a[0] / 16);
      DigitsKeepOrder(a[0] % 16, b[0] % 16);
      DigitsKeepOrder(b[0] % 16, a[0] % 16);
    }
  }

  function Numbers(s: Spot): seq<int> {
    [s.monitor.monitor, s.bounds.x, s.bounds.y, s.bounds.w, s.bounds.h]
  }

  lemma SmallerRow(s: Spot, t: Spot)
    ensures RowLess(Row(s), Row(t)) <==> Smaller(s, t)
  {
    hide Hex, RowLess, BytesLess;
    var a, b := Numbers(s), Numbers(t);
    assert Row(s) == Hex(s.monitor.node) + a && Row(t) == Hex(t.monitor.node) + b;
    if s.monitor.node != t.monitor.node {
      HexKeepsOrder(s.monitor.node, t.monitor.node, a, b);
    } else {
      CommonFront(Hex(s.monitor.node), a, b);
      SmallerNumbers(s, t);
    }
  }

  lemma SmallerNumbers(s: Spot, t: Spot)
    requires s.monitor.node == t.monitor.node
    ensures RowLess(Numbers(s), Numbers(t)) <==> Smaller(s, t)
  {
    var a, b := Numbers(s), Numbers(t);
    FirstNumber(a[0], a[1..], b[0], b[1..]);
    FirstNumber(a[1], a[2..], b[1], b[2..]);
    FirstNumber(a[2], a[3..], b[2], b[3..]);
    FirstNumber(a[3], a[4..], b[3], b[4..]);
    FirstNumber(a[4], [], b[4], []);
    assert a == [a[0]] + a[1..] && a[1..] == [a[1]] + a[2..] && a[2..] == [a[2]] + a[3..] && a[3..] == [a[3]] + a[4..];
    assert b == [b[0]] + b[1..] && b[1..] == [b[1]] + b[2..] && b[2..] == [b[2]] + b[3..] && b[3..] == [b[3]] + b[4..];
    assert a[4..] == [a[4]] + [] && b[4..] == [b[4]] + [];
    assert !RowLess([], []);
    hide RowLess;
  }

  /** The least spot the two layouts hold differently often is held more often by the first. */
  ghost predicate FirstInFavour(a: Layout, b: Layout) {
    exists s: Spot :: InFavour(a, b, s)
  }

  ghost predicate InFavour(a: Layout, b: Layout, s: Spot) {
    var p, q := multiset(Spots(a.placements)), multiset(Spots(b.placements));
    p[s] > q[s] && forall t: Spot :: Smaller(t, s) ==> p[t] == q[t]
  }

  lemma RowsInFavour(a: Layout, b: Layout)
    ensures FirstMore(RowLess, multiset(Rows(a.placements)), multiset(Rows(b.placements))) <==> FirstInFavour(a, b)
  {
    hide Rows, Spots, RowLess, Smaller, Row, MoreAt, InFavour;
    var p, q := multiset(Rows(a.placements)), multiset(Rows(b.placements));
    if s: Spot :| InFavour(a, b, s) {
      SpotInFavour(a, b, s);
    }
    if row: seq<int> :| MoreAt(RowLess, p, q, row) {
      assert row in p by {
        assert MoreAt(RowLess, p, q, row);
        MoreIsIn(p, q, row);
      }
      var s := RowHasSpot(a.placements, row);
      SpotInFavour(a, b, s);
    }
  }

  lemma MoreIsIn(p: multiset<seq<int>>, q: multiset<seq<int>>, row: seq<int>)
    requires MoreAt(RowLess, p, q, row)
    ensures row in p
  {
    hide RowLess;
  }

  lemma SpotInFavour(a: Layout, b: Layout, s: Spot)
    ensures MoreAt(RowLess, multiset(Rows(a.placements)), multiset(Rows(b.placements)), Row(s)) <==> InFavour(a, b, s)
  {
    hide Rows, Spots, RowLess, Smaller, Row;
    var p, q := multiset(Rows(a.placements)), multiset(Rows(b.placements));
    forall t: Spot
      ensures p[Row(t)] == multiset(Spots(a.placements))[t] && q[Row(t)] == multiset(Spots(b.placements))[t]
      ensures RowLess(Row(t), Row(s)) <==> Smaller(t, s)
    {
      RowCount(a.placements, t);
      RowCount(b.placements, t);
      SmallerRow(t, s);
    }
    if InFavour(a, b, s) {
      forall row: seq<int> | RowLess(row, Row(s))
        ensures p[row] == q[row]
      {
        if row in p {
          var t := RowHasSpot(a.placements, row);
        } else if row in q {
          var t := RowHasSpot(b.placements, row);
        }
      }
    }
  }

  /** With as many placements at one revision, the canonically smaller layout is taken: the one that has more of the
      least spot they hold differently often. */
  lemma SmallerIsTaken(a: Layout, b: Layout)
    requires a.revision == b.revision && |a.placements| == |b.placements|
    ensures Accepts(a, b) <==> FirstInFavour(b, a)
  {
    RowsTotal();
    hide Rows, Spots, RowLess, FirstInFavour, LexLess, Sorted, Ascending, StrictTotal;
    var p, q := Rows(a.placements), Rows(b.placements);
    CountSpots(a.placements);
    CountSpots(b.placements);
    SortedAscends(RowLess, p);
    SortedAscends(RowLess, q);
    SameLengthSorted(p);
    SameLengthSorted(q);
    SmallerExactly(RowLess, Key(b), Key(a));
    RowsInFavour(b, a);
  }

  lemma SameLengthSorted(rows: seq<seq<int>>)
    ensures |Sorted(RowLess, rows)| == |rows|
  {
    hide Sorted, RowLess;
    SameLength(Sorted(RowLess, rows), rows);
  }
}
