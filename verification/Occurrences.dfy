/** Counting the different elements of a sequence. */
module Occurrences {
  function Elements<T>(s: seq<T>): set<T> {
    set x | x in s
  }

  ghost predicate NoRepeats<T>(s: seq<T>) {
    forall i, j :: 0 <= i < j < |s| ==> s[i] != s[j]
  }

  lemma {:induction false} ElementsCount<T>(s: seq<T>)
    ensures |Elements(s)| <= |s|
    ensures |Elements(s)| == |s| <==> NoRepeats(s)
  {
    if s != [] {
      ElementsCount(s[1..]);
      assert Elements(s) == {s[0]} + Elements(s[1..]);
      if s[0] in s[1..] {
        assert Elements(s) == Elements(s[1..]);
        var j :| 0 <= j < |s[1..]| && s[1..][j] == s[0];
        assert s[j + 1] == s[0];
      } else {
        assert NoRepeats(s) <==> NoRepeats(s[1..]);
      }
    }
  }

  lemma SubsetOfSameSize<T>(a: set<T>, b: set<T>)
    requires a <= b && |a| >= |b|
    ensures a == b
  {
    assert b == a + (b - a);
  }

  lemma SubsetSize<T>(a: set<T>, b: set<T>)
    requires a <= b
    ensures |a| <= |b|
  {
    assert b == a + (b - a);
  }
}
