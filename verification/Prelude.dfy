/** Shared vocabulary: Option, the 64-bit unsigned integers of the Go code,
    sums, and iteration orders of Go maps. */
module Prelude {

  datatype Option<+T> = None | Some(value: T)

  const TWO64: nat := 0x1_0000_0000_0000_0000

  type Address = string
  type Ip = string

  type uint64 = x: int | 0 <= x < TWO64

  /** Unsigned 64-bit wrap-around: what Go stores for an exact result x. */
  function Wrap(x: int): uint64 {
    x % TWO64
  }

  lemma WrapAdd(x: int, y: int)
    ensures Wrap(Wrap(x) + y) == Wrap(x + y)
  {
  }

  lemma WrapSub(x: int, y: int)
    ensures Wrap(x - Wrap(y)) == Wrap(x - y)
  {
  }

  lemma MulMonotone(c: nat, a: int, b: int)
    requires a <= b
    ensures c * a <= c * b
  {
    assert c * b == c * a + c * (b - a);
  }

  lemma MulDistributes(c: int, a: int, b: int)
    ensures c * (a + b) == c * a + c * b
    ensures (a + b) * c == a * c + b * c
  {
  }

  function Min(x: int, y: int): int {
    if x <= y then x else y
  }

  function Max(x: int, y: int): int {
    if x >= y then x else y
  }

  predicate Between(lo: int, t: int, hi: int) {
    lo <= t < hi
  }

  function Interval(lo: int, hi: int): set<int> {
    set t: int | lo <= t < hi && Between(lo, t, hi)
  }

  lemma {:induction false} IntervalSize(lo: int, hi: int)
    requires lo <= hi
    ensures |Interval(lo, hi)| == hi - lo
    decreases hi - lo
  {
    if lo < hi {
      IntervalSize(lo, hi - 1);
      assert Interval(lo, hi) == Interval(lo, hi - 1) + {hi - 1};
    } else {
      assert forall t :: t !in Interval(lo, hi);
    }
  }

  function Sum(s: seq<int>): int {
    if s == [] then 0 else Sum(s[..|s| - 1]) + s[|s| - 1]
  }

  lemma SumAppend(s: seq<int>, x: int)
    ensures Sum(s + [x]) == Sum(s) + x
  {
    assert (s + [x])[..|s|] == s;
  }

  lemma {:induction false} SumNonNegative(s: seq<int>)
    requires forall i | 0 <= i < |s| :: 0 <= s[i]
    ensures 0 <= Sum(s)
  {
    if s == [] {
    } else {
      SumNonNegative(s[..|s| - 1]);
    }
  }

  ghost predicate Distinct<T>(s: seq<T>) {
    forall i, j | 0 <= i < j < |s| :: s[i] != s[j]
  }

  /** Ranging over a Go map visits every key exactly once, in some order. */
  ghost predicate IsOrder<T>(order: seq<T>, keys: set<T>) {
    && Distinct(order)
    && (forall k | k in order :: k in keys)
    && (forall k | k in keys :: k in order)
  }

  function Without<T>(s: seq<T>, i: nat): seq<T>
    requires i < |s|
  {
    s[..i] + s[i + 1..]
  }

  lemma FrontAndLast<T>(s: seq<T>)
    requires s != []
    ensures s == s[..|s| - 1] + [s[|s| - 1]]
  {
  }

  lemma SplitAt<T>(s: seq<T>, i: nat)
    requires i < |s|
    ensures s == s[..i] + [s[i]] + s[i + 1..]
  {
  }

  lemma OrderWithout<T>(s: seq<T>, i: nat, keys: set<T>)
    requires IsOrder(s, keys) && i < |s|
    ensures IsOrder(Without(s, i), keys - {s[i]})
  {
    var r := Without(s, i);
    forall k | k in keys - {s[i]} ensures k in r {
      var j :| 0 <= j < |s| && s[j] == k;
      assert r[if j < i then j else j - 1] == k;
    }
  }

  lemma OrderSnoc<T>(order: seq<T>, keys: set<T>, k: T)
    requires IsOrder(order, keys) && k !in keys
    ensures IsOrder(order + [k], keys + {k})
  {
    assert forall x | x in order :: x in order + [k];
    assert (order + [k])[|order|] == k;
  }

  lemma {:induction false} OrderLength<T>(order: seq<T>, keys: set<T>)
    requires IsOrder(order, keys)
    ensures |order| == |keys|
    decreases |order|
  {
    if order == [] {
      assert forall k <- keys :: k in order;
      assert keys == {};
    } else {
      var n := |order| - 1;
      assert order[n] in keys;
      OrderWithout(order, n, keys);
      OrderLength(Without(order, n), keys - {order[n]});
    }
  }

  /** Sum of f over a sequence. */
  function SumOf<T>(f: T -> int, s: seq<T>): int {
    if s == [] then 0 else SumOf(f, s[..|s| - 1]) + f(s[|s| - 1])
  }

  lemma SumOfSnoc<T>(f: T -> int, s: seq<T>, x: T)
    ensures SumOf(f, s + [x]) == SumOf(f, s) + f(x)
  {
    assert (s + [x])[..|s|] == s;
  }

  lemma {:induction false} SumOfInsert<T>(f: T -> int, front: seq<T>, x: T, back: seq<T>)
    ensures SumOf(f, front + [x] + back) == SumOf(f, front + back) + f(x)
  {
    if back == [] {
      assert front + [x] + back == front + [x] && front + back == front;
      SumOfSnoc(f, front, x);
    } else {
      var n := |back| - 1;
      SumOfInsert(f, front, x, back[..n]);
      assert front + [x] + back == front + [x] + back[..n] + [back[n]];
      assert front + back == front + back[..n] + [back[n]];
      SumOfSnoc(f, front + [x] + back[..n], back[n]);
      SumOfSnoc(f, front + back[..n], back[n]);
    }
  }

  lemma SumOfWithout<T>(f: T -> int, s: seq<T>, i: nat)
    requires i < |s|
    ensures SumOf(f, Without(s, i)) == SumOf(f, s) - f(s[i])
  {
    SplitAt(s, i);
    SumOfInsert(f, s[..i], s[i], s[i + 1..]);
  }

  lemma MultisetWithout<T>(s: seq<T>, i: nat)
    requires i < |s|
    ensures multiset(Without(s, i)) == multiset(s) - multiset{s[i]}
  {
    SplitAt(s, i);
    assert multiset(s) == multiset(Without(s, i)) + multiset{s[i]};
  }

  lemma {:induction false} DistinctCount<T>(s: seq<T>, x: T)
    requires Distinct(s)
    ensures multiset(s)[x] == if x in s then 1 else 0
  {
    if s == [] {
    } else {
      var n := |s| - 1;
      FrontAndLast(s);
      DistinctCount(s[..n], x);
      if x == s[n] {
        assert x !in s[..n];
      }
    }
  }

  /** Without repetition, the same elements are the same multiset. */
  lemma DistinctSame<T>(s: seq<T>, t: seq<T>)
    requires Distinct(s) && Distinct(t) && forall x :: x in s <==> x in t
    ensures multiset(s) == multiset(t)
  {
    forall x ensures multiset(s)[x] == multiset(t)[x] {
      DistinctCount(s, x);
      DistinctCount(t, x);
    }
  }

  lemma IndexIn<T>(s: seq<T>, x: T) returns (i: nat)
    requires x in multiset(s)
    ensures i < |s| && s[i] == x
  {
    assert x in s;
    i :| 0 <= i < |s| && s[i] == x;
  }

  /** Sums do not depend on the order of the terms. */
  lemma {:induction false} SumOfPermutes<T>(f: T -> int, s: seq<T>, t: seq<T>)
    requires multiset(s) == multiset(t)
    ensures SumOf(f, s) == SumOf(f, t)
    decreases |s|
  {
    if s == [] {
      assert |multiset(t)| == 0;
    } else {
      var k := IndexIn(t, s[0]);
      MultisetWithout(s, 0);
      MultisetWithout(t, k);
      SumOfPermutes(f, Without(s, 0), Without(t, k));
      SumOfWithout(f, s, 0);
      SumOfWithout(f, t, k);
    }
  }
}
