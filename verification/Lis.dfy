// The reference program "longest-increasing-subsequence": patience tails with binary search.
module Lis {

  /** idx lists positions below n, in increasing order, whose elements strictly increase. */
  predicate Increasing(a: seq<int>, n: nat, idx: seq<nat>)
    decreases |idx|
  {
    n <= |a| &&
    (idx != [] ==>
      var last, front := idx[|idx| - 1], idx[..|idx| - 1];
      last < n && Increasing(a, last, front) && (front != [] ==> a[front[|front| - 1]] < a[last]))
  }

  /** Some increasing subsequence of the first n elements has length slot + 1 and ends in `last`. */
  ghost predicate EndsIn(a: seq<int>, n: nat, slot: nat, last: int) {
    exists idx :: Increasing(a, n, idx) && |idx| == slot + 1 && a[idx[slot]] == last
  }

  ghost predicate Reached(a: seq<int>, n: nat, tails: seq<int>) {
    forall k {:trigger EndsIn(a, n, k, tails[k])} :: 0 <= k < |tails| ==> EndsIn(a, n, k, tails[k])
  }

  ghost predicate Sorted(tails: seq<int>) {
    forall j, k :: 0 <= j < k < |tails| ==> tails[j] < tails[k]
  }

  /** No increasing subsequence of the first n elements is longer than the tails or beats its slot. */
  ghost predicate Least(a: seq<int>, n: nat, tails: seq<int>) {
    forall idx :: Increasing(a, n, idx) && idx != [] ==> |idx| <= |tails| && tails[|idx| - 1] <= a[idx[|idx| - 1]]
  }

  /** tails[k] is the least last element of an increasing subsequence of length k + 1. */
  ghost predicate Tails(a: seq<int>, n: nat, tails: seq<int>) {
    n <= |a| && Sorted(tails) && Reached(a, n, tails) && Least(a, n, tails)
  }

  /** The list after x has been put at slot k. */
  function Place(tails: seq<int>, k: nat, x: int): seq<int>
    requires k <= |tails|
  {
    if k == |tails| then tails + [x] else tails[k := x]
  }

  /** bisect.bisect_left on a sorted list. */
  method BisectLeft(s: seq<int>, x: int) returns (k: nat)
    requires Sorted(s)
    ensures k <= |s|
    ensures forall i :: 0 <= i < k ==> s[i] < x
    ensures forall i :: k <= i < |s| ==> x <= s[i]
  {
    var lo, hi := 0, |s|;
    while lo < hi
      invariant 0 <= lo <= hi <= |s|
      invariant forall i :: 0 <= i < lo ==> s[i] < x
      invariant forall i :: hi <= i < |s| ==> x <= s[i]
    {
      var mid := (lo + hi) / 2;
      if s[mid] < x {
        lo := mid + 1;
      } else {
        hi := mid;
      }
    }
    k := lo;
  }

  /** Writing a[n] at its place keeps every slot reached by some subsequence. */
  lemma PlacedReached(a: seq<int>, n: nat, tails: seq<int>, k: nat)
    requires n < |a| && k <= |tails| && Reached(a, n, tails)
    requires k > 0 ==> tails[k - 1] < a[n]
    ensures Reached(a, n + 1, Place(tails, k, a[n]))
  {
    var next := Place(tails, k, a[n]);
    forall i | 0 <= i < |next| ensures EndsIn(a, n + 1, i, next[i]) {
      if i != k {
        assert EndsIn(a, n, i, tails[i]);
        var idx :| Increasing(a, n, idx) && |idx| == i + 1 && a[idx[i]] == tails[i];
        assert Increasing(a, n + 1, idx);
      } else if k == 0 {
        assert Increasing(a, n + 1, [n]);
      } else {
        assert EndsIn(a, n, k - 1, tails[k - 1]);
        var idx :| Increasing(a, n, idx) && |idx| == k && a[idx[k - 1]] == tails[k - 1];
        var longer := idx + [n];
        assert longer[..|longer| - 1] == idx;
        assert Increasing(a, n + 1, longer);
      }
    }
  }

  /** No subsequence beats the tails once a[n] has been written at slot k. */
  lemma PlacedLeast(a: seq<int>, n: nat, tails: seq<int>, k: nat)
    requires n < |a| && k <= |tails| && Least(a, n, tails)
    requires forall j :: k <= j < |tails| ==> a[n] <= tails[j]
    requires forall j :: 0 <= j < k ==> tails[j] < a[n]
    ensures Least(a, n + 1, Place(tails, k, a[n]))
  {
    var next := Place(tails, k, a[n]);
    var n' := n + 1;
    forall idx | Increasing(a, n', idx) && idx != []
      ensures |idx| <= |next| && next[|idx| - 1] <= a[idx[|idx| - 1]]
    {
      var last, front := idx[|idx| - 1], idx[..|idx| - 1];
      if last < n {
        assert Increasing(a, n, idx);
      } else if front != [] {
        assert Increasing(a, n, front);
        assert tails[|front| - 1] <= a[front[|front| - 1]];
      }
    }
  }

  /** The program prints the greatest length of a strictly increasing subsequence. */
  method LongestIncreasing(a: seq<int>) returns (ans: nat)
    ensures exists idx :: Increasing(a, |a|, idx) && |idx| == ans
    ensures forall idx :: Increasing(a, |a|, idx) ==> |idx| <= ans
  {
    var tails: seq<int> := [];
    for n := 0 to |a|
      invariant Tails(a, n, tails)
    {
      var k := BisectLeft(tails, a[n]);
      PlacedReached(a, n, tails, k);
      PlacedLeast(a, n, tails, k);
      tails := Place(tails, k, a[n]);
    }
    ans := |tails|;
    if ans == 0 {
      assert Increasing(a, |a|, []);
    } else {
      assert EndsIn(a, |a|, ans - 1, tails[ans - 1]);
    }
  }
}
