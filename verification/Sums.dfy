/** Integer sums over sequences, weighted by a function of the element. */
module Sums {

  /** Taken from the end, so that it unfolds along appends. */
  function Sum<T>(s: seq<T>, w: T -> int): int {
    if s == [] then 0 else Sum(s[..|s| - 1], w) + w(s[|s| - 1])
  }

  lemma {:induction false} SumConcat<T>(s: seq<T>, t: seq<T>, w: T -> int)
    ensures Sum(s + t, w) == Sum(s, w) + Sum(t, w)
  {
    if t == [] {
      assert s + t == s;
    } else {
      assert (s + t)[..|s + t| - 1] == s + t[..|t| - 1];
      SumConcat(s, t[..|t| - 1], w);
    }
  }

  lemma {:induction false} SumAppend<T>(s: seq<T>, x: T, w: T -> int)
    ensures Sum(s + [x], w) == Sum(s, w) + w(x)
  {
    assert (s + [x])[..|s|] == s;
  }

  lemma {:induction false} SumPair<T>(x: T, y: T, w: T -> int)
    ensures Sum([x, y], w) == w(x) + w(y)
  {
    SumAppend([], x, w);
    SumAppend([x], y, w);
    assert [] + [x] == [x] && [x] + [y] == [x, y];
  }

  /** Dropping one element lowers the sum by that element's weight. */
  lemma {:induction false} SumRemove<T>(s: seq<T>, k: nat, w: T -> int)
    requires k < |s|
    ensures Sum(s, w) == Sum(s[..k] + s[k + 1..], w) + w(s[k])
  {
    assert s == s[..k] + [s[k]] + s[k + 1..];
    SumConcat(s[..k] + [s[k]], s[k + 1..], w);
    SumAppend(s[..k], s[k], w);
    SumConcat(s[..k], s[k + 1..], w);
  }

  lemma {:induction false} SumUpdate<T>(s: seq<T>, k: nat, x: T, w: T -> int)
    requires k < |s|
    ensures Sum(s[k := x], w) == Sum(s, w) - w(s[k]) + w(x)
  {
    SumRemove(s, k, w);
    SumRemove(s[k := x], k, w);
    assert s[k := x][..k] == s[..k] && s[k := x][k + 1..] == s[k + 1..];
  }

  lemma {:induction false} MultisetRemove<T>(s: seq<T>, k: nat)
    requires k < |s|
    ensures multiset(s[..k] + s[k + 1..]) == multiset(s) - multiset{s[k]}
  {
    assert s == s[..k] + [s[k]] + s[k + 1..];
  }

  /** A sum does not depend on the order of the elements. */
  lemma {:induction false} SumPermutation<T>(s: seq<T>, t: seq<T>, w: T -> int)
    requires multiset(s) == multiset(t)
    ensures Sum(s, w) == Sum(t, w)
    decreases |s|
  {
    hide Sum;
    assert |s| == |multiset(s)| == |multiset(t)| == |t|;
    if s == [] {
      assert s == t;
    } else {
      var x := s[0];
      assert x in multiset(s);
      assert x in t;
      var k :| 0 <= k < |t| && t[k] == x;
      MultisetRemove(s, 0);
      MultisetRemove(t, k);
      SumRemove(s, 0, w);
      SumRemove(t, k, w);
      SumPermutation(s[..0] + s[1..], t[..k] + t[k + 1..], w);
    }
  }

  lemma {:induction false} SumPointwise<A, B>(s: seq<A>, v: A -> int, t: seq<B>, w: B -> int)
    requires |s| == |t|
    requires forall i :: 0 <= i < |s| ==> v(s[i]) == w(t[i])
    ensures Sum(s, v) == Sum(t, w)
  {
    if s != [] {
      SumPointwise(s[..|s| - 1], v, t[..|t| - 1], w);
    }
  }

  lemma {:induction false} SumSplit<T>(s: seq<T>, u: T -> int, v: T -> int, w: T -> int)
    requires forall x :: x in s ==> u(x) == v(x) + w(x)
    ensures Sum(s, u) == Sum(s, v) + Sum(s, w)
  {
    if s != [] {
      SumSplit(s[..|s| - 1], u, v, w);
    }
  }

  lemma {:induction false} SumNonNegative<T>(s: seq<T>, w: T -> int)
    requires forall x :: x in s ==> 0 <= w(x)
    ensures 0 <= Sum(s, w)
  {
    if s != [] {
      SumNonNegative(s[..|s| - 1], w);
    }
  }

  lemma {:induction false} SumMonotone<T>(s: seq<T>, v: T -> int, w: T -> int)
    requires forall x :: x in s ==> v(x) <= w(x)
    ensures Sum(s, v) <= Sum(s, w)
  {
    if s != [] {
      SumMonotone(s[..|s| - 1], v, w);
    }
  }
}
