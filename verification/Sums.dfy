/** Adding up a weight over a sequence: counting jobs, measuring outstanding work. */
module Sums {
  function Sum<T>(weigh: T -> nat, s: seq<T>): nat {
    if s == [] then 0 else weigh(s[0]) + Sum(weigh, s[1..])
  }

  lemma {:induction false} SumConcat<T>(weigh: T -> nat, a: seq<T>, b: seq<T>)
    ensures Sum(weigh, a + b) == Sum(weigh, a) + Sum(weigh, b)
  {
    if a == [] {
      assert a + b == b;
    } else {
      assert (a + b)[1..] == a[1..] + b;
      SumConcat(weigh, a[1..], b);
    }
  }

  lemma SumAppend<T>(weigh: T -> nat, s: seq<T>, x: T)
    ensures Sum(weigh, s + [x]) == Sum(weigh, s) + weigh(x)
  {
    SumConcat(weigh, s, [x]);
  }

  lemma SumRemove<T>(weigh: T -> nat, s: seq<T>, i: nat)
    requires i < |s|
    ensures Sum(weigh, s) == Sum(weigh, s[..i] + s[i + 1..]) + weigh(s[i])
  {
    assert s == s[..i] + ([s[i]] + s[i + 1..]);
    SumConcat(weigh, s[..i], [s[i]] + s[i + 1..]);
    SumConcat(weigh, [s[i]], s[i + 1..]);
    SumConcat(weigh, s[..i], s[i + 1..]);
  }

  lemma SumUpdate<T>(weigh: T -> nat, s: seq<T>, i: nat, x: T)
    requires i < |s|
    ensures Sum(weigh, s[i := x]) + weigh(s[i]) == Sum(weigh, s) + weigh(x)
  {
    SumRemove(weigh, s, i);
    SumRemove(weigh, s[i := x], i);
    assert s[i := x][..i] == s[..i] && s[i := x][i + 1..] == s[i + 1..];
  }

  lemma {:induction false} SumMember<T>(weigh: T -> nat, s: seq<T>, i: nat)
    requires i < |s|
    ensures weigh(s[i]) <= Sum(weigh, s)
  {
    SumRemove(weigh, s, i);
  }
}
