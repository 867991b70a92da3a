/** Lexicographic order over sequences, and sorting by it, for any strict total order on the elements. */
module LexOrders {
  ghost predicate StrictTotal<T(!new)>(less: (T, T) -> bool) {
    && (forall x: T :: !less(x, x))
    && (forall x: T, y: T :: x != y ==> less(x, y) || less(y, x))
    && (forall x: T, y: T, z: T :: less(x, y) && less(y, z) ==> less(x, z))
  }

  predicate LexLess<T(==)>(less: (T, T) -> bool, a: seq<T>, b: seq<T>) {
    if b == [] then false
    else a == [] || less(a[0], b[0]) || (a[0] == b[0] && LexLess(less, a[1..], b[1..]))
  }

  lemma {:induction false} LexIrreflexive<T(!new)>(less: (T, T) -> bool, a: seq<T>)
    requires StrictTotal(less)
    ensures !LexLess(less, a, a)
  {
    if a != [] {
      LexIrreflexive(less, a[1..]);
    }
  }

  lemma {:induction false} LexTotal<T(!new)>(less: (T, T) -> bool, a: seq<T>, b: seq<T>)
    requires StrictTotal(less) && a != b
    ensures LexLess(less, a, b) || LexLess(less, b, a)
  {
    if a != [] && b != [] && a[0] == b[0] {
      assert a == [a[0]] + a[1..] && b == [b[0]] + b[1..];
      LexTotal(less, a[1..], b[1..]);
    }
  }

  lemma {:induction false} LexTransitive<T(!new)>(less: (T, T) -> bool, a: seq<T>, b: seq<T>, c: seq<T>)
    requires StrictTotal(less) && LexLess(less, a, b) && LexLess(less, b, c)
    ensures LexLess(less, a, c)
  {
    if a != [] && a[0] == b[0] && b[0] == c[0] && !less(a[0], c[0]) {
      LexTransitive(less, a[1..], b[1..], c[1..]);
    }
  }

  // --- Sorting -------------------------------------------------------------

  function Place<T(==)>(less: (T, T) -> bool, x: T, s: seq<T>): (r: seq<T>)
    ensures multiset(r) == multiset{x} + multiset(s)
  {
    if s == [] then [x]
    else if less(s[0], x) then
      assert s == [s[0]] + s[1..];
      [s[0]] + Place(less, x, s[1..])
    else [x] + s
  }

  function Sorted<T(==)>(less: (T, T) -> bool, s: seq<T>): (r: seq<T>)
    ensures multiset(r) == multiset(s)
  {
    if s == [] then [] else
      assert s == [s[0]] + s[1..];
      Place(less, s[0], Sorted(less, s[1..]))
  }

  ghost predicate Ascending<T(!new)>(less: (T, T) -> bool, s: seq<T>) {
    forall i, j :: 0 <= i < j < |s| ==> !less(s[j], s[i])
  }

  lemma {:induction false} PlaceAscends<T(!new)>(less: (T, T) -> bool, x: T, s: seq<T>)
    requires StrictTotal(less) && Ascending(less, s)
    ensures Ascending(less, Place(less, x, s))
  {
    var r := Place(less, x, s);
    if s != [] && less(s[0], x) {
      PlaceAscends(less, x, s[1..]);
      forall j | 0 < j < |r|
        ensures !less(r[j], r[0])
      {
        assert r[j] in multiset(r[1..]);
        assert r[1..] == Place(less, x, s[1..]);
        if r[j] != x {
          assert r[j] in s[1..];
          var k :| 0 <= k < |s[1..]| && s[1..][k] == r[j];
          assert s[k + 1] == r[j];
        }
      }
      forall i, j | 0 <= i < j < |r|
        ensures !less(r[j], r[i])
      {
        if i > 0 {
          assert r[i] == r[1..][i - 1] && r[j] == r[1..][j - 1];
        }
      }
    } else if s != [] {
      forall j | 0 < j < |r|
        ensures !less(r[j], x)
      {
        assert r[j] == s[j - 1];
      }
    }
  }

  lemma {:induction false} SortedAscends<T(!new)>(less: (T, T) -> bool, s: seq<T>)
    requires StrictTotal(less)
    ensures Ascending(less, Sorted(less, s))
  {
    if s != [] {
      SortedAscends(less, s[1..]);
      PlaceAscends(less, s[0], Sorted(less, s[1..]));
    }
  }

  lemma WithoutOne<T>(s: seq<T>, k: nat)
    requires k < |s|
    ensures multiset(s) == multiset{s[k]} + multiset(s[..k] + s[k + 1..])
  {
    assert s == s[..k] + [s[k]] + s[k + 1..];
  }

  lemma FirstIsLeast<T(!new)>(less: (T, T) -> bool, s: seq<T>, x: T)
    requires Ascending(less, s) && StrictTotal(less) && x in s
    ensures !less(x, s[0])
  {
    var i :| 0 <= i < |s| && s[i] == x;
  }

  lemma CancelOne<T>(x: T, p: multiset<T>, q: multiset<T>)
    requires multiset{x} + p == multiset{x} + q
    ensures p == q
  {
    assert p == multiset{x} + p - multiset{x};
    assert q == multiset{x} + q - multiset{x};
  }

  /** Two lists of the same elements, each without one occurrence of the same one. */
  lemma RestAgrees<T>(a: seq<T>, b: seq<T>, k: nat)
    requires a != [] && k < |b| && b[k] == a[0] && multiset(a) == multiset(b)
    ensures multiset(a[1..]) == multiset(b[..k] + b[k + 1..])
  {
    WithoutOne(a, 0);
    WithoutOne(b, k);
    assert a[..0] + a[1..] == a[1..];
    CancelOne(a[0], multiset(a[1..]), multiset(b[..k] + b[k + 1..]));
  }

  lemma FirstsAgree<T(!new)>(less: (T, T) -> bool, a: seq<T>, b: seq<T>)
    requires StrictTotal(less) && Ascending(less, a) && Ascending(less, b) && multiset(a) == multiset(b)
    requires a != [] && b != []
    ensures a[0] == b[0]
  {
    assert a[0] in multiset(a) && b[0] in multiset(b);
    assert a[0] in b && b[0] in a;
    FirstIsLeast(less, a, b[0]);
    FirstIsLeast(less, b, a[0]);
  }

  lemma RestAscends<T(!new)>(less: (T, T) -> bool, s: seq<T>)
    requires Ascending(less, s) && s != []
    ensures Ascending(less, s[1..])
  {
  }

  /** An ascending list is determined by its elements. */
  lemma {:induction false} AscendingUnique<T(!new)>(less: (T, T) -> bool, a: seq<T>, b: seq<T>)
    requires StrictTotal(less) && Ascending(less, a) && Ascending(less, b) && multiset(a) == multiset(b)
    ensures a == b
    decreases |a|
  {
    hide StrictTotal, Ascending;
    SameLength(a, b);
    if a != [] {
      FirstsAgree(less, a, b);
      RestAgrees(a, b, 0);
      assert b[..0] + b[1..] == b[1..];
      RestAscends(less, a);
      RestAscends(less, b);
      AscendingUnique(less, a[1..], b[1..]);
      assert a == [a[0]] + a[1..];
      assert b == [b[0]] + b[1..];
    }
  }

  lemma SameLength<T>(a: seq<T>, b: seq<T>)
    requires multiset(a) == multiset(b)
    ensures |a| == |b|
  {
    assert |multiset(a)| == |a| && |multiset(b)| == |b|;
  }

  lemma SortedUnique<T(!new)>(less: (T, T) -> bool, a: seq<T>, b: seq<T>)
    requires StrictTotal(less)
    ensures Sorted(less, a) == Sorted(less, b) <==> multiset(a) == multiset(b)
  {
    if multiset(a) == multiset(b) {
      SortedAscends(less, a);
      SortedAscends(less, b);
      AscendingUnique(less, Sorted(less, a), Sorted(less, b));
    }
  }

  // --- Comparing sorted lists by what is in them ----------------------------

  /** The least thing the two hold differently often is held more often by the first. */
  ghost predicate FirstMore<T(!new)>(less: (T, T) -> bool, a: multiset<T>, b: multiset<T>) {
    exists x: T :: MoreAt(less, a, b, x)
  }

  ghost predicate MoreAt<T(!new)>(less: (T, T) -> bool, a: multiset<T>, b: multiset<T>, x: T) {
    a[x] > b[x] && forall y: T :: less(y, x) ==> a[y] == b[y]
  }

  lemma NoneBelow<T(!new)>(less: (T, T) -> bool, s: seq<T>, y: T)
    requires StrictTotal(less) && Ascending(less, s) && s != [] && less(y, s[0])
    ensures multiset(s)[y] == 0
  {
    if y in s {
      FirstIsLeast(less, s, y);
    }
  }

  lemma SmallerFirst<T(!new)>(less: (T, T) -> bool, a: seq<T>, b: seq<T>)
    requires StrictTotal(less) && Ascending(less, a) && Ascending(less, b) && a != [] && b != [] && less(a[0], b[0])
    ensures MoreAt(less, multiset(a), multiset(b), a[0])
    ensures !FirstMore(less, multiset(b), multiset(a))
  {
    assert a[0] in multiset(a);
    NoneBelow(less, b, a[0]);
    forall y | less(y, a[0])
      ensures multiset(a)[y] == multiset(b)[y]
    {
      NoneBelow(less, a, y);
      NoneBelow(less, b, y);
    }
    forall x: T
      ensures !MoreAt(less, multiset(b), multiset(a), x)
    {
      if x in b {
        FirstIsLeast(less, b, x);
        assert less(a[0], x);
      }
    }
  }

  lemma SameFirst<T(!new)>(less: (T, T) -> bool, a: seq<T>, b: seq<T>)
    requires a != [] && b != [] && a[0] == b[0]
    ensures FirstMore(less, multiset(a), multiset(b)) <==> FirstMore(less, multiset(a[1..]), multiset(b[1..]))
  {
    assert a == [a[0]] + a[1..] && b == [b[0]] + b[1..];
    assert forall x: T :: multiset(a)[x] - multiset(a[1..])[x] == multiset(b)[x] - multiset(b[1..])[x];
    assert forall x: T :: MoreAt(less, multiset(a), multiset(b), x) <==> MoreAt(less, multiset(a[1..]), multiset(b[1..]), x);
  }

  /** Of two ascending lists of one length the lexicographically smaller is the one that has more of the least thing
      they hold differently often. */
  lemma {:induction false} SmallerExactly<T(!new)>(less: (T, T) -> bool, a: seq<T>, b: seq<T>)
    requires StrictTotal(less) && Ascending(less, a) && Ascending(less, b) && |a| == |b|
    ensures LexLess(less, a, b) <==> FirstMore(less, multiset(a), multiset(b))
    decreases |a|
  {
    hide StrictTotal, Ascending, FirstMore;
    if a == [] {
      NothingMore(less);
    } else if a[0] == b[0] {
      RestAscends(less, a);
      RestAscends(less, b);
      SmallerExactly(less, a[1..], b[1..]);
      SameFirst(less, a, b);
      NotLess(less, a[0]);
    } else {
      EitherLess(less, a[0], b[0]);
      if less(a[0], b[0]) {
        SmallerFirst(less, a, b);
        IsFirstMore(less, a, b, a[0]);
      } else {
        SmallerFirst(less, b, a);
      }
    }
  }

  lemma IsFirstMore<T(!new)>(less: (T, T) -> bool, a: seq<T>, b: seq<T>, x: T)
    requires MoreAt(less, multiset(a), multiset(b), x)
    ensures FirstMore(less, multiset(a), multiset(b))
  {
  }

  lemma NothingMore<T(!new)>(less: (T, T) -> bool)
    ensures !FirstMore<T>(less, multiset([]), multiset([]))
  {
  }

  lemma NotLess<T(!new)>(less: (T, T) -> bool, x: T)
    requires StrictTotal(less)
    ensures !less(x, x)
  {
  }

  lemma EitherLess<T(!new)>(less: (T, T) -> bool, x: T, y: T)
    requires StrictTotal(less) && x != y
    ensures less(x, y) <==> !less(y, x)
  {
  }
}
