// The reference program "segment-tree": a lazy range-add / range-sum tree stored
// in two arrays, proved to answer exactly like a plain array.
module SegmentTree {

  function Pow2(k: nat): (r: nat)
    ensures r >= 1
  {
    if k == 0 then 1 else 2 * Pow2(k - 1)
  }

  /** The sum a[lo] + ... + a[hi - 1]. */
  function Sum(a: seq<int>, lo: nat, hi: nat): int
    requires lo <= hi <= |a|
  {
    if lo == hi then 0 else Sum(a, lo, hi - 1) + a[hi - 1]
  }

  /** The plain array after adding x to every element of a[lo..hi]. */
  function AddRange(a: seq<int>, lo: nat, hi: nat, x: int): (r: seq<int>)
    requires lo <= hi <= |a|
    ensures |r| == |a|
  {
    seq(|a|, i requires 0 <= i < |a| => if lo <= i < hi then a[i] + x else a[i])
  }

  lemma {:induction false} SumSplit(a: seq<int>, lo: nat, mid: nat, hi: nat)
    requires lo <= mid <= hi <= |a|
    ensures Sum(a, lo, hi) == Sum(a, lo, mid) + Sum(a, mid, hi)
    decreases hi - mid
  {
    if mid < hi {
      SumSplit(a, lo, mid, hi - 1);
    }
  }

  lemma {:induction false} SumAdded(a: seq<int>, b: seq<int>, lo: nat, hi: nat, x: int)
    requires lo <= hi <= |a| && |b| == |a|
    requires forall i :: lo <= i < hi ==> b[i] == a[i] + x
    ensures Sum(b, lo, hi) == Sum(a, lo, hi) + x * (hi - lo)
    decreases hi - lo
  {
    if lo < hi {
      SumAdded(a, b, lo, hi - 1, x);
      assert x * (hi - lo) == x * (hi - 1 - lo) + x;
    }
  }

  /** Node p covers the positions l..r and has room below it for k more levels. */
  predicate Fits(size: nat, p: nat, l: nat, r: nat, k: nat) {
    1 <= p && l <= r && r - l + 1 <= Pow2(k) && (p + 1) * Pow2(k) <= size
  }

  lemma FitsChildren(size: nat, p: nat, l: nat, r: nat, k: nat)
    requires Fits(size, p, l, r, k)
    ensures p < size
    ensures l < r ==> k >= 1 && 2 * p + 1 < size
    ensures l < r ==> Fits(size, 2 * p, l, (l + r) / 2, k - 1)
    ensures l < r ==> Fits(size, 2 * p + 1, (l + r) / 2 + 1, r, k - 1)
  {
    assert (p + 1) * Pow2(k) >= p + 1;
    if l < r {
      var w := Pow2(k - 1);
      assert (p + 1) * Pow2(k) == (2 * p + 2) * w;
      assert (2 * p + 1) * w <= (2 * p + 2) * w;
      assert (2 * p + 2) * w >= 2 * p + 2;
    }
  }

  /** Node q lies in the subtree of p, at most k levels down. */
  ghost predicate Below(p: nat, q: nat, k: nat)
    decreases k
  {
    q == p || (k > 0 && (Below(2 * p, q, k - 1) || Below(2 * p + 1, q, k - 1)))
  }

  lemma {:induction false} BelowAtLeast(p: nat, q: nat, k: nat)
    requires Below(p, q, k)
    ensures q >= p
    decreases k
  {
    if q != p {
      if Below(2 * p, q, k - 1) {
        BelowAtLeast(2 * p, q, k - 1);
      } else {
        BelowAtLeast(2 * p + 1, q, k - 1);
      }
    }
  }

  lemma {:induction false} SubtreesDisjoint(p: nat, s: nat, q: nat, k: nat)
    requires p < s < 2 * p
    ensures !(Below(p, q, k) && Below(s, q, k))
    decreases k
  {
    if Below(p, q, k) && Below(s, q, k) {
      BelowAtLeast(s, q, k);
      var c := if Below(2 * p, q, k - 1) then 2 * p else 2 * p + 1;
      BelowAtLeast(c, q, k - 1);
      var d := if Below(2 * s, q, k - 1) then 2 * s else 2 * s + 1;
      SubtreesDisjoint(c, d, q, k - 1);
    }
  }

  /** Arrays t and z agree with t' and z' on the whole subtree of p. */
  ghost predicate SameBelow(t: seq<int>, z: seq<int>, t': seq<int>, z': seq<int>, p: nat, k: nat) {
    |t| == |z| == |t'| == |z'| &&
    forall q: nat :: q < |t| && Below(p, q, k) ==> t'[q] == t[q] && z'[q] == z[q]
  }

  /** Arrays t and z agree with t' and z' everywhere outside the subtree of p. */
  ghost predicate SameOutside(t: seq<int>, z: seq<int>, t': seq<int>, z': seq<int>, p: nat, k: nat) {
    |t| == |z| == |t'| == |z'| &&
    forall q: nat :: q < |t| && !Below(p, q, k) ==> t'[q] == t[q] && z'[q] == z[q]
  }

  /** The subtree of p represents a[l..r]; `off` is the total of the increments that are still
      waiting in the lazy marks of p's ancestors. */
  ghost predicate Shows(t: seq<int>, z: seq<int>, p: nat, l: nat, r: nat, k: nat, a: seq<int>, off: int)
    requires |t| == |z| && Fits(|t|, p, l, r, k) && r < |a|
    decreases k
  {
    FitsChildren(|t|, p, l, r, k);
    var m := (l + r) / 2;
    t[p] + off * (r - l + 1) == Sum(a, l, r + 1) &&
    (l < r ==> Shows(t, z, 2 * p, l, m, k - 1, a, off + z[p]) &&
               Shows(t, z, 2 * p + 1, m + 1, r, k - 1, a, off + z[p]))
  }

  lemma {:induction false} ShowsFrame(t: seq<int>, z: seq<int>, t': seq<int>, z': seq<int>,
                                      p: nat, l: nat, r: nat, k: nat, a: seq<int>, off: int)
    requires SameBelow(t, z, t', z', p, k)
    requires Fits(|t|, p, l, r, k) && r < |a| && Shows(t, z, p, l, r, k, a, off)
    ensures Shows(t', z', p, l, r, k, a, off)
    decreases k
  {
    FitsChildren(|t|, p, l, r, k);
    assert Below(p, p, k);
    if l < r {
      var m := (l + r) / 2;
      ShowsFrame(t, z, t', z', 2 * p, l, m, k - 1, a, off + z[p]);
      ShowsFrame(t, z, t', z', 2 * p + 1, m + 1, r, k - 1, a, off + z[p]);
    }
  }

  /** If every element of the range grows by x, a pending offset larger by x shows the new range. */
  lemma {:induction false} ShowsLift(t: seq<int>, z: seq<int>, p: nat, l: nat, r: nat, k: nat,
                                     a: seq<int>, b: seq<int>, off: int, x: int)
    requires |t| == |z| && Fits(|t|, p, l, r, k) && r < |a| == |b|
    requires forall i :: l <= i <= r ==> b[i] == a[i] + x
    requires Shows(t, z, p, l, r, k, a, off)
    ensures Shows(t, z, p, l, r, k, b, off + x)
    decreases k
  {
    FitsChildren(|t|, p, l, r, k);
    SumAdded(a, b, l, r + 1, x);
    assert (off + x) * (r - l + 1) == off * (r - l + 1) + x * (r - l + 1);
    if l < r {
      var m := (l + r) / 2;
      ShowsLift(t, z, 2 * p, l, m, k - 1, a, b, off + z[p], x);
      ShowsLift(t, z, 2 * p + 1, m + 1, r, k - 1, a, b, off + z[p], x);
      assert off + z[p] + x == off + x + z[p];
    }
  }

  /** The levels below the root of a tree over n positions. */
  function Levels(n: nat): (k: nat)
    requires n >= 1
    ensures n <= Pow2(k) < 2 * n
  {
    if n == 1 then 0
    else
      var j := Levels((n + 1) / 2);
      assert j >= 1 ==> Pow2(j) == 2 * Pow2(j - 1);
      j + 1
  }

  /** The two subtrees of p (of k levels each) share no node and do not contain p. */
  lemma Siblings(p: nat, left: nat, right: nat, k: nat)
    requires p >= 1 && left == 2 * p && right == 2 * p + 1
    ensures !Below(left, p, k) && !Below(right, p, k)
    ensures forall q :: Below(left, q, k) ==> !Below(right, q, k)
  {
    if Below(left, p, k) { BelowAtLeast(left, p, k); }
    if Below(right, p, k) { BelowAtLeast(right, p, k); }
    forall q | Below(left, q, k) ensures !Below(right, q, k) {
      SubtreesDisjoint(left, right, q, k);
    }
  }

  lemma ChildFrame(t: seq<int>, z: seq<int>, t': seq<int>, z': seq<int>, p: nat, child: nat, other: nat, k: nat)
    requires p >= 1 && 2 * p + 1 < |t|
    requires (child == 2 * p && other == 2 * p + 1) || (child == 2 * p + 1 && other == 2 * p)
    requires SameOutside(t, z, t', z', child, k)
    ensures SameOutside(t, z, t', z', p, k + 1) && SameBelow(t, z, t', z', other, k)
    ensures t'[p] == t[p] && z'[p] == z[p]
  {
    assert forall q :: Below(child, q, k) ==> Below(p, q, k + 1);
    Siblings(p, 2 * p, 2 * p + 1, k);
  }

  /** Work below one child leaves p, what the other child shows and everything outside p alone. */
  lemma ChildStep(t: seq<int>, z: seq<int>, t': seq<int>, z': seq<int>, p: nat, child: nat, other: nat, k: nat,
                  l: nat, r: nat, a: seq<int>)
    requires p >= 1 && 2 * p + 1 < |t|
    requires (child == 2 * p && other == 2 * p + 1) || (child == 2 * p + 1 && other == 2 * p)
    requires SameOutside(t, z, t', z', child, k)
    requires Fits(|t|, other, l, r, k) && r < |a| && Shows(t, z, other, l, r, k, a, 0)
    ensures SameOutside(t, z, t', z', p, k + 1)
    ensures Shows(t', z', other, l, r, k, a, 0)
    ensures t'[p] == t[p] && z'[p] == z[p]
  {
    ChildFrame(t, z, t', z', p, child, other, k);
    ShowsFrame(t, z, t', z', other, l, r, k, a, 0);
  }

  lemma OutsideTransitive(t0: seq<int>, z0: seq<int>, t1: seq<int>, z1: seq<int>, t2: seq<int>, z2: seq<int>, p: nat, k: nat)
    requires SameOutside(t0, z0, t1, z1, p, k) && SameOutside(t1, z1, t2, z2, p, k)
    ensures SameOutside(t0, z0, t2, z2, p, k)
  {
  }

  /** Work on p's own entries leaves both subtrees and everything outside p alone. */
  lemma NodeStep(t: seq<int>, z: seq<int>, t': seq<int>, z': seq<int>, p: nat, k: nat)
    requires p >= 1 && 2 * p + 1 < |t|
    requires |t| == |z| == |t'| == |z'| && t' == t[p := t'[p]] && z' == z[p := z'[p]]
    ensures SameOutside(t, z, t', z', p, k + 1)
    ensures SameBelow(t, z, t', z', 2 * p, k) && SameBelow(t, z, t', z', 2 * p + 1, k)
  {
    Siblings(p, 2 * p, 2 * p + 1, k);
    assert Below(p, p, k + 1);
  }

  /** The sum of the positions that lie both in l..r and in ql..qr. */
  function Common(a: seq<int>, l: nat, r: nat, ql: nat, qr: nat): int
    requires l <= r < |a| && ql <= qr < |a|
  {
    var lo, hi := if ql <= l then l else ql, (if qr <= r then qr else r) + 1;
    if lo <= hi then Sum(a, lo, hi) else 0
  }

  lemma CommonSplit(a: seq<int>, l: nat, m: nat, r: nat, ql: nat, qr: nat)
    requires l <= m < r < |a| && ql <= qr < |a| && ql <= r && l <= qr
    ensures Common(a, l, r, ql, qr)
         == (if ql <= m then Common(a, l, m, ql, qr) else 0)
          + (if qr > m then Common(a, m + 1, r, ql, qr) else 0)
  {
    if ql <= m < qr {
      SumSplit(a, if ql <= l then l else ql, m + 1, (if qr <= r then qr else r) + 1);
    }
  }

  class Tree {
    const n: nat
    const tr: array<int>
    const lazy: array<int>

    ghost predicate Valid() {
      n >= 1 && tr.Length == 4 * n && lazy.Length == 4 * n && tr != lazy
    }

    /** The subtree of p shows a[l..r] once all ancestors have been pushed. */
    ghost predicate Holds(p: nat, l: nat, r: nat, k: nat, a: seq<int>)
      reads tr, lazy
    {
      Valid() && r < |a| && Fits(4 * n, p, l, r, k) && Shows(tr[..], lazy[..], p, l, r, k, a, 0)
    }

    /** The tree represents the plain array a. */
    ghost predicate Represents(a: seq<int>)
      reads tr, lazy
    {
      Valid() && |a| == n && Holds(1, 0, n - 1, Levels(n), a)
    }

    constructor (a: seq<int>)
      requires |a| >= 1
      ensures fresh(tr) && fresh(lazy)
      ensures Represents(a)
    {
      n := |a|;
      tr := new int[4 * |a|](_ => 0);
      lazy := new int[4 * |a|](_ => 0);
      new;
      Build(a, 1, 0, n - 1, Levels(n));
    }

    method Build(a: seq<int>, p: nat, l: nat, r: nat, ghost k: nat)
      requires Valid() && r < |a| && Fits(4 * n, p, l, r, k)
      requires forall q :: 0 <= q < 4 * n ==> lazy[q] == 0
      modifies tr
      ensures Holds(p, l, r, k, a)
      ensures SameOutside(old(tr[..]), old(lazy[..]), tr[..], lazy[..], p, k)
      decreases k
    {
      FitsChildren(4 * n, p, l, r, k);
      if l == r {
        tr[p] := a[l];
        assert Below(p, p, k);
        return;
      }
      var m := (l + r) / 2;
      ghost var t, z := tr[..], lazy[..];
      Build(a, 2 * p, l, m, k - 1);
      ChildFrame(t, z, tr[..], z, p, 2 * p, 2 * p + 1, k - 1);
      ghost var t' := tr[..];
      Build(a, 2 * p + 1, m + 1, r, k - 1);
      ChildStep(t', z, tr[..], z, p, 2 * p + 1, 2 * p, k - 1, l, m, a);
      ghost var t'' := tr[..];
      Pull(p, l, r, k, a);
      OutsideTransitive(t, z, t', z, t'', z, p, k);
      OutsideTransitive(t, z, t'', z, tr[..], z, p, k);
    }

    /** Adds x to the whole range of p: b is a with x added there. */
    method Apply(p: nat, l: nat, r: nat, x: int, ghost k: nat, ghost a: seq<int>, ghost off: int)
      requires Valid() && r < |a| && Fits(4 * n, p, l, r, k)
      requires Shows(tr[..], lazy[..], p, l, r, k, a, off + x)
      modifies tr, lazy
      ensures Shows(tr[..], lazy[..], p, l, r, k, a, off)
      ensures SameOutside(old(tr[..]), old(lazy[..]), tr[..], lazy[..], p, k)
      ensures lazy[p] == old(lazy[p]) + x
    {
      FitsChildren(4 * n, p, l, r, k);
      assert Below(p, p, k);
      ghost var t, z := tr[..], lazy[..];
      tr[p] := tr[p] + x * (r - l + 1);
      lazy[p] := lazy[p] + x;
      assert (off + x) * (r - l + 1) == off * (r - l + 1) + x * (r - l + 1);
      if l < r {
        ghost var m := (l + r) / 2;
        NodeStep(t, z, tr[..], lazy[..], p, k - 1);
        assert off + x + z[p] == off + lazy[p];
        ShowsFrame(t, z, tr[..], lazy[..], 2 * p, l, m, k - 1, a, off + lazy[p]);
        ShowsFrame(t, z, tr[..], lazy[..], 2 * p + 1, m + 1, r, k - 1, a, off + lazy[p]);
      }
    }

    /** Hands p's mark down to its children; what p shows does not change. */
    method Push(p: nat, l: nat, r: nat, ghost k: nat, ghost a: seq<int>)
      requires Holds(p, l, r, k, a)
      modifies tr, lazy
      ensures Holds(p, l, r, k, a)
      ensures SameOutside(old(tr[..]), old(lazy[..]), tr[..], lazy[..], p, k)
      ensures l < r ==> lazy[p] == 0
    {
      FitsChildren(4 * n, p, l, r, k);
      assert Below(p, p, k);
      if lazy[p] != 0 && l < r {
        var m := (l + r) / 2;
        var x := lazy[p];
        Siblings(p, 2 * p, 2 * p + 1, k - 1);
        Apply(2 * p, l, m, x, k - 1, a, 0);
        ghost var t, z := tr[..], lazy[..];
        ShowsFrame(old(tr[..]), old(lazy[..]), t, z, 2 * p + 1, m + 1, r, k - 1, a, x);
        Apply(2 * p + 1, m + 1, r, x, k - 1, a, 0);
        ghost var t', z' := tr[..], lazy[..];
        lazy[p] := 0;
        ShowsFrame(t, z, tr[..], lazy[..], 2 * p, l, m, k - 1, a, 0);
        ShowsFrame(t', z', tr[..], lazy[..], 2 * p + 1, m + 1, r, k - 1, a, 0);
      }
    }

    /** Recomputes p from its children, which already show b. */
    method Pull(p: nat, l: nat, r: nat, ghost k: nat, ghost b: seq<int>)
      requires Valid() && r < |b| && l < r && Fits(4 * n, p, l, r, k)
      requires lazy[p] == 0
      requires k >= 1 && Holds(2 * p, l, (l + r) / 2, k - 1, b) && Holds(2 * p + 1, (l + r) / 2 + 1, r, k - 1, b)
      modifies tr
      ensures Holds(p, l, r, k, b)
      ensures SameOutside(old(tr[..]), lazy[..], tr[..], lazy[..], p, k)
    {
      FitsChildren(4 * n, p, l, r, k);
      ghost var t, z := tr[..], lazy[..];
      tr[p] := tr[2 * p] + tr[2 * p + 1];
      NodeStep(t, z, tr[..], lazy[..], p, k - 1);
      ShowsFrame(t, z, tr[..], lazy[..], 2 * p, l, (l + r) / 2, k - 1, b, 0);
      ShowsFrame(t, z, tr[..], lazy[..], 2 * p + 1, (l + r) / 2 + 1, r, k - 1, b, 0);
      SumSplit(b, l, (l + r) / 2 + 1, r + 1);
    }

    /** Adds x to positions ql..qr of the represented range: it showed a, it will show b. */
    method Change(p: nat, l: nat, r: nat, ql: nat, qr: nat, x: int, ghost k: nat, ghost a: seq<int>, ghost b: seq<int>)
      requires Holds(p, l, r, k, a)
      requires ql <= qr < |a| && ql <= r && l <= qr
      requires b == AddRange(a, ql, qr + 1, x)
      modifies tr, lazy
      ensures Holds(p, l, r, k, b)
      ensures SameOutside(old(tr[..]), old(lazy[..]), tr[..], lazy[..], p, k)
      decreases k, 1
    {
      FitsChildren(4 * n, p, l, r, k);
      if ql <= l && r <= qr {
        ShowsLift(tr[..], lazy[..], p, l, r, k, a, b, 0, x);
        Apply(p, l, r, x, k, b, 0);
        return;
      }
      Push(p, l, r, k, a);
      ghost var t, z := tr[..], lazy[..];
      ChangeChildren(p, l, r, ql, qr, x, k, a, b);
      ghost var t', z' := tr[..], lazy[..];
      Pull(p, l, r, k, b);
      OutsideTransitive(old(tr[..]), old(lazy[..]), t, z, t', z', p, k);
      OutsideTransitive(old(tr[..]), old(lazy[..]), t', z', tr[..], lazy[..], p, k);
    }

    /** A recursive call of Change, made only if the child's range is hit; the other child keeps showing c. */
    method ChangeChild(hit: bool, child: nat, l: nat, r: nat, ql: nat, qr: nat, x: int, ghost k: nat, ghost a: seq<int>, ghost b: seq<int>,
                       ghost p: nat, ghost other: nat, ghost ol: nat, ghost or: nat, ghost c: seq<int>)
      requires Holds(child, l, r, k, a) && ql <= qr < |a| && (hit <==> ql <= r && l <= qr)
      requires b == AddRange(a, ql, qr + 1, x)
      requires p >= 1 && 2 * p + 1 < 4 * n && lazy[p] == 0 && Holds(other, ol, or, k, c)
      requires (child == 2 * p && other == 2 * p + 1) || (child == 2 * p + 1 && other == 2 * p)
      modifies tr, lazy
      ensures Holds(child, l, r, k, b) && Holds(other, ol, or, k, c) && lazy[p] == 0
      ensures SameOutside(old(tr[..]), old(lazy[..]), tr[..], lazy[..], p, k + 1)
      decreases k, 2
    {
      if hit {
        ghost var t, z := tr[..], lazy[..];
        Change(child, l, r, ql, qr, x, k, a, b);
        ChildStep(t, z, tr[..], lazy[..], p, child, other, k, ol, or, c);
      } else {
        ShowsLift(tr[..], lazy[..], child, l, r, k, a, b, 0, 0);
      }
    }

    /** The two recursive calls of Change. */
    method ChangeChildren(p: nat, l: nat, r: nat, ql: nat, qr: nat, x: int, ghost k: nat, ghost a: seq<int>, ghost b: seq<int>)
      requires Holds(p, l, r, k, a) && l < r && lazy[p] == 0
      requires ql <= qr < |a| && ql <= r && l <= qr
      requires b == AddRange(a, ql, qr + 1, x)
      modifies tr, lazy
      ensures k >= 1 && Holds(2 * p, l, (l + r) / 2, k - 1, b) && Holds(2 * p + 1, (l + r) / 2 + 1, r, k - 1, b)
      ensures lazy[p] == 0
      ensures SameOutside(old(tr[..]), old(lazy[..]), tr[..], lazy[..], p, k)
      decreases k, 0
    {
      FitsChildren(4 * n, p, l, r, k);
      var m := (l + r) / 2;
      ChangeChild(ql <= m, 2 * p, l, m, ql, qr, x, k - 1, a, b, p, 2 * p + 1, m + 1, r, a);
      ghost var t, z := tr[..], lazy[..];
      ChangeChild(qr > m, 2 * p + 1, m + 1, r, ql, qr, x, k - 1, a, b, p, 2 * p, l, m, b);
      OutsideTransitive(old(tr[..]), old(lazy[..]), t, z, tr[..], lazy[..], p, k);
    }

    /** The sum of the represented positions that lie both in l..r and in ql..qr. */
    method Query(p: nat, l: nat, r: nat, ql: nat, qr: nat, ghost k: nat, ghost a: seq<int>) returns (ans: int)
      requires Holds(p, l, r, k, a)
      requires ql <= qr < |a| && ql <= r && l <= qr
      modifies tr, lazy
      ensures Holds(p, l, r, k, a)
      ensures SameOutside(old(tr[..]), old(lazy[..]), tr[..], lazy[..], p, k)
      ensures ans == Common(a, l, r, ql, qr)
      decreases k, 1
    {
      FitsChildren(4 * n, p, l, r, k);
      if ql <= l && r <= qr {
        return tr[p];
      }
      Push(p, l, r, k, a);
      ghost var t, z := tr[..], lazy[..];
      ans := QueryChildren(p, l, r, ql, qr, k, a);
      OutsideTransitive(old(tr[..]), old(lazy[..]), t, z, tr[..], lazy[..], p, k);
    }

    /** A recursive call of Query, made only if the child's range is hit; nothing that is shown changes. */
    method QueryChild(hit: bool, child: nat, l: nat, r: nat, ql: nat, qr: nat, ghost k: nat, ghost a: seq<int>,
                      ghost p: nat, ghost other: nat, ghost ol: nat, ghost or: nat) returns (ans: int)
      requires Holds(child, l, r, k, a) && ql <= qr < |a| && (hit <==> ql <= r && l <= qr)
      requires p >= 1 && 2 * p + 1 < 4 * n && Holds(other, ol, or, k, a)
      requires (child == 2 * p && other == 2 * p + 1) || (child == 2 * p + 1 && other == 2 * p)
      modifies tr, lazy
      ensures Holds(child, l, r, k, a) && Holds(other, ol, or, k, a) && lazy[p] == old(lazy[p]) && tr[p] == old(tr[p])
      ensures SameOutside(old(tr[..]), old(lazy[..]), tr[..], lazy[..], p, k + 1)
      ensures ans == if hit then Common(a, l, r, ql, qr) else 0
      decreases k, 2
    {
      ans := 0;
      if hit {
        ghost var t, z := tr[..], lazy[..];
        ans := Query(child, l, r, ql, qr, k, a);
        ChildStep(t, z, tr[..], lazy[..], p, child, other, k, ol, or, a);
      }
    }

    /** The two recursive calls of Query. */
    method QueryChildren(p: nat, l: nat, r: nat, ql: nat, qr: nat, ghost k: nat, ghost a: seq<int>) returns (ans: int)
      requires Holds(p, l, r, k, a) && l < r && lazy[p] == 0
      requires ql <= qr < |a| && ql <= r && l <= qr
      modifies tr, lazy
      ensures Holds(p, l, r, k, a)
      ensures SameOutside(old(tr[..]), old(lazy[..]), tr[..], lazy[..], p, k)
      ensures ans == Common(a, l, r, ql, qr)
      decreases k, 0
    {
      FitsChildren(4 * n, p, l, r, k);
      var m := (l + r) / 2;
      ans := QueryChild(ql <= m, 2 * p, l, m, ql, qr, k - 1, a, p, 2 * p + 1, m + 1, r);
      ghost var t, z := tr[..], lazy[..];
      var right := QueryChild(qr > m, 2 * p + 1, m + 1, r, ql, qr, k - 1, a, p, 2 * p, l, m);
      ans := ans + right;
      OutsideTransitive(old(tr[..]), old(lazy[..]), t, z, tr[..], lazy[..], p, k);
      CommonSplit(a, l, m, r, ql, qr);
    }
  }

  // ----- the whole program against a plain array -----

  /** One input line, with the positions already shifted to start at 0. */
  datatype Op = Add(l: nat, r: nat, delta: int) | Ask(l: nat, r: nat)

  /** The plain array after one operation. */
  function After(a: seq<int>, op: Op): (b: seq<int>)
    requires op.l <= op.r < |a|
    ensures |b| == |a|
  {
    match op
    case Add(l, r, delta) => AddRange(a, l, r + 1, delta)
    case Ask(_, _) => a
  }

  /** What one operation prints when it is carried out on a plain array. */
  function Output(a: seq<int>, op: Op): seq<int>
    requires op.l <= op.r < |a|
  {
    match op
    case Add(_, _, _) => []
    case Ask(l, r) => [Sum(a, l, r + 1)]
  }

  function Expected(a: seq<int>, ops: seq<Op>): seq<int>
    requires forall op :: op in ops ==> op.l <= op.r < |a|
    decreases |ops|
  {
    if ops == [] then [] else Output(a, ops[0]) + Expected(After(a, ops[0]), ops[1..])
  }

  lemma ExpectedStep(a: seq<int>, ops: seq<Op>, i: nat)
    requires forall op :: op in ops ==> op.l <= op.r < |a|
    requires i < |ops|
    ensures Expected(a, ops[i..]) == Output(a, ops[i]) + Expected(After(a, ops[i]), ops[i + 1..])
  {
    assert ops[i..][1..] == ops[i + 1..];
  }

  lemma PrintedNext(a: seq<int>, ops: seq<Op>, i: nat, printed: seq<int>, all: seq<int>)
    requires forall op :: op in ops ==> op.l <= op.r < |a|
    requires i < |ops| && printed + Expected(a, ops[i..]) == all
    ensures printed + Output(a, ops[i]) + Expected(After(a, ops[i]), ops[i + 1..]) == all
  {
    ExpectedStep(a, ops, i);
  }

  method Execute(tree: Tree, op: Op, ghost a: seq<int>) returns (printed: seq<int>)
    requires tree.Represents(a) && op.l <= op.r < |a|
    modifies tree.tr, tree.lazy
    ensures tree.Represents(After(a, op))
    ensures printed == Output(a, op)
  {
    match op {
      case Add(l, r, delta) =>
        tree.Change(1, 0, tree.n - 1, l, r, delta, Levels(tree.n), a, After(a, op));
        printed := [];
      case Ask(l, r) =>
        var ans := tree.Query(1, 0, tree.n - 1, l, r, Levels(tree.n), a);
        printed := [ans];
    }
  }

  /** After any sequence of range additions every query prints the exact range sum. */
  method Solve(a: seq<int>, ops: seq<Op>) returns (printed: seq<int>)
    requires |a| >= 1
    requires forall op :: op in ops ==> op.l <= op.r < |a|
    ensures printed == Expected(a, ops)
  {
    var tree := new Tree(a);
    printed := [];
    ghost var now, all := a, Expected(a, ops);
    var i := 0;
    while i < |ops|
      invariant 0 <= i <= |ops|
      invariant |now| == |a| && tree.Represents(now)
      invariant fresh(tree.tr) && fresh(tree.lazy)
      invariant printed + Expected(now, ops[i..]) == all
    {
      var line := Execute(tree, ops[i], now);
      PrintedNext(now, ops, i, printed, all);
      printed := printed + line;
      now := After(now, ops[i]);
      i := i + 1;
    }
    assert ops[i..] == [];
  }
}
