// The reference program "huffman": merging the two least heaps is optimal.
module Huffman {

  /** A way to merge: each inner node is one merge, its leaves are the heaps at the start. */
  datatype Tree = Leaf(w: int) | Node(left: Tree, right: Tree)

  function Total(t: Tree): int {
    match t
    case Leaf(w) => w
    case Node(l, r) => Total(l) + Total(r)
  }

  /** Every merge costs the weight of what it produces. */
  function Cost(t: Tree): int {
    match t
    case Leaf(_) => 0
    case Node(l, r) => Cost(l) + Cost(r) + Total(l) + Total(r)
  }

  function Leaves(t: Tree): multiset<int> {
    match t
    case Leaf(w) => multiset{w}
    case Node(l, r) => Leaves(l) + Leaves(r)
  }

  /** The least cost of merging these heaps into one. */
  ghost predicate LeastCost(heaps: multiset<int>, c: int) {
    (exists t :: Leaves(t) == heaps && Cost(t) == c) && forall t :: Leaves(t) == heaps ==> c <= Cost(t)
  }

  // ----- leaves by their paths -----

  type Path = seq<bool>

  function Child(t: Tree, right: bool): Tree
    requires t.Node?
  {
    if right then t.right else t.left
  }

  predicate IsLeaf(t: Tree, p: Path)
    decreases p
  {
    if p == [] then t.Leaf? else t.Node? && IsLeaf(Child(t, p[0]), p[1..])
  }

  function At(t: Tree, p: Path): int
    requires IsLeaf(t, p)
    decreases p
  {
    if p == [] then t.w else At(Child(t, p[0]), p[1..])
  }

  function Put(t: Tree, p: Path, w: int): Tree
    requires IsLeaf(t, p)
    decreases p
  {
    if p == [] then Leaf(w)
    else if p[0] then Node(t.left, Put(t.right, p[1..], w))
    else Node(Put(t.left, p[1..], w), t.right)
  }

  lemma {:induction false} PutLeaves(t: Tree, p: Path, w: int)
    requires IsLeaf(t, p)
    ensures IsLeaf(Put(t, p, w), p) && At(Put(t, p, w), p) == w
    ensures At(t, p) in Leaves(t) && Leaves(Put(t, p, w)) + multiset{At(t, p)} == Leaves(t) + multiset{w}
    decreases p
  {
    if p != [] {
      var here, there := Child(t, p[0]), Child(t, !p[0]);
      PutLeaves(here, p[1..], w);
      Lift(t, Put(t, p, w), p[0], here, Put(here, p[1..], w), there, multiset{At(t, p)}, multiset{w});
    }
  }

  lemma Regroup(a: multiset<int>, x: multiset<int>, b: multiset<int>, y: multiset<int>, rest: multiset<int>)
    requires a + x == b + y
    ensures (a + rest) + x == (b + rest) + y && (rest + a) + x == (rest + b) + y
  {
    assert (a + rest) + x == (a + x) + rest && (b + rest) + y == (b + y) + rest;
    assert rest + a == a + rest && rest + b == b + rest;
  }

  lemma Swapped(a: multiset<int>, b: multiset<int>)
    ensures a + b == b + a
  {
  }

  lemma Cancel(a: multiset<int>, b: multiset<int>, x: multiset<int>)
    requires a + x == b + x
    ensures a == b
  {
    assert a == (a + x) - x && b == (b + x) - x;
  }

  lemma {:induction false} PutTotal(t: Tree, p: Path, w: int)
    requires IsLeaf(t, p)
    ensures Total(Put(t, p, w)) == Total(t) + w - At(t, p)
    decreases p
  {
    if p != [] {
      PutTotal(Child(t, p[0]), p[1..], w);
    }
  }

  /** A leaf pays its weight once for every merge above it. */
  lemma {:induction false} PutCost(t: Tree, p: Path, w: int)
    requires IsLeaf(t, p)
    ensures Cost(Put(t, p, w)) == Cost(t) + |p| * (w - At(t, p))
    decreases p
  {
    if p != [] {
      PutCost(Child(t, p[0]), p[1..], w);
      PutTotal(Child(t, p[0]), p[1..], w);
      OneMore(|p| - 1, w - At(t, p));
    }
  }

  lemma OneMore(n: nat, d: int)
    ensures (n + 1) * d == n * d + d
  {
  }

  lemma {:induction false} PutElsewhere(t: Tree, p: Path, w: int, q: Path)
    requires IsLeaf(t, p) && q != p
    ensures IsLeaf(Put(t, p, w), q) <==> IsLeaf(t, q)
    ensures IsLeaf(t, q) ==> At(Put(t, p, w), q) == At(t, q)
    decreases p
  {
    if p != [] && q != [] && p[0] == q[0] {
      assert p == [p[0]] + p[1..] && q == [q[0]] + q[1..];
      PutElsewhere(Child(t, p[0]), p[1..], w, q[1..]);
    }
  }

  /** A leaf with this weight, other than the one at p. */
  lemma {:induction false} OtherLeaf(t: Tree, p: Path, w: int) returns (q: Path)
    requires IsLeaf(t, p) && w in Leaves(t) - multiset{At(t, p)}
    ensures IsLeaf(t, q) && At(t, q) == w && q != p
    decreases p
  {
    PutLeaves(t, p, w);
    var here, there := Child(t, p[0]), Child(t, !p[0]);
    PutLeaves(here, p[1..], w);
    if w in Leaves(there) {
      var r := SomeLeaf(there, w);
      q := [!p[0]] + r;
    } else {
      var r := OtherLeaf(here, p[1..], w);
      q := [p[0]] + r;
      assert q[1..] == r && p == [p[0]] + p[1..];
    }
  }

  lemma {:induction false} SomeLeaf(t: Tree, w: int) returns (q: Path)
    requires w in Leaves(t)
    ensures IsLeaf(t, q) && At(t, q) == w
  {
    match t
    case Leaf(_) => q := [];
    case Node(l, r) =>
      if w in Leaves(l) {
        var rest := SomeLeaf(l, w);
        q := [false] + rest;
        assert q[1..] == rest;
      } else {
        var rest := SomeLeaf(r, w);
        q := [true] + rest;
        assert q[1..] == rest;
      }
  }

  function Height(t: Tree): nat {
    match t
    case Leaf(_) => 0
    case Node(l, r) => 1 + if Height(l) < Height(r) then Height(r) else Height(l)
  }

  lemma {:induction false} WithinHeight(t: Tree, q: Path)
    requires IsLeaf(t, q)
    ensures |q| <= Height(t)
    decreases q
  {
    if q != [] {
      WithinHeight(Child(t, q[0]), q[1..]);
    }
  }

  /** Two leaves side by side, as deep as any. */
  lemma {:induction false} DeepestPair(t: Tree) returns (p: Path)
    requires t.Node?
    ensures IsLeaf(t, p + [false]) && IsLeaf(t, p + [true]) && |p| + 1 == Height(t)
  {
    if Height(t) == 1 {
      p := [];
      assert t.left.Leaf? && t.right.Leaf?;
    } else {
      var b := Height(t.left) < Height(t.right);
      var rest := DeepestPair(Child(t, b));
      p := [b] + rest;
      assert (p + [false])[1..] == rest + [false] && (p + [true])[1..] == rest + [true];
    }
  }

  // ----- exchange and collapse -----

  /** Two leaves change places. */
  function Swap(t: Tree, p: Path, q: Path): Tree
    requires IsLeaf(t, p) && IsLeaf(t, q) && q != p
  {
    PutElsewhere(t, p, At(t, q), q);
    Put(Put(t, p, At(t, q)), q, At(t, p))
  }

  lemma SwapLeaves(t: Tree, p: Path, q: Path)
    requires IsLeaf(t, p) && IsLeaf(t, q) && q != p
    ensures Leaves(Swap(t, p, q)) == Leaves(t) && Height(Swap(t, p, q)) == Height(t)
    ensures IsLeaf(Swap(t, p, q), p) && At(Swap(t, p, q), p) == At(t, q)
  {
    var half := Put(t, p, At(t, q));
    PutElsewhere(t, p, At(t, q), q);
    PutLeaves(t, p, At(t, q));
    PutLeaves(half, q, At(t, p));
    PutElsewhere(half, q, At(t, p), p);
    Cancel(Leaves(Swap(t, p, q)), Leaves(t), multiset{At(t, q)});
    SameHeight(t, p, At(t, q));
    SameHeight(half, q, At(t, p));
  }

  lemma SwapElsewhere(t: Tree, p: Path, q: Path, r: Path)
    requires IsLeaf(t, p) && IsLeaf(t, q) && q != p && IsLeaf(t, r)
    ensures IsLeaf(Swap(t, p, q), r) && (r != p && r != q ==> At(Swap(t, p, q), r) == At(t, r))
  {
    var half := Put(t, p, At(t, q));
    PutElsewhere(t, p, At(t, q), q);
    PutLeaves(t, p, At(t, q));
    PutLeaves(half, q, At(t, p));
    if r != p {
      PutElsewhere(t, p, At(t, q), r);
    }
    if r != q {
      PutElsewhere(half, q, At(t, p), r);
    }
  }

  /** A lighter leaf that goes deeper never makes merging dearer. */
  lemma SwapCost(t: Tree, deep: Path, q: Path)
    requires IsLeaf(t, deep) && IsLeaf(t, q) && q != deep && |q| <= |deep| && At(t, q) <= At(t, deep)
    ensures Cost(Swap(t, deep, q)) <= Cost(t)
  {
    var x, y := At(t, deep), At(t, q);
    var half := Put(t, deep, y);
    PutElsewhere(t, deep, y, q);
    PutCost(t, deep, y);
    PutCost(half, q, x);
    Deeper(|deep|, |q|, x - y);
  }

  lemma {:induction false} SameHeight(t: Tree, p: Path, w: int)
    requires IsLeaf(t, p)
    ensures Height(Put(t, p, w)) == Height(t)
    decreases p
  {
    if p != [] {
      SameHeight(Child(t, p[0]), p[1..], w);
    }
  }

  lemma Deeper(deep: nat, q: nat, d: int)
    requires q <= deep && d >= 0
    ensures deep * (-d) + q * d <= 0
  {
    assert deep * (-d) + q * d == -((deep - q) * d);
  }

  function Pair(x: int, y: int): multiset<int> {
    multiset{x} + multiset{y}
  }

  /** The pair below p becomes one leaf. */
  function Collapse(t: Tree, p: Path): Tree
    requires IsLeaf(t, p + [false]) && IsLeaf(t, p + [true])
    decreases p
  {
    if p == [] then
      Leaf(Total(t))
    else
      assert (p + [false])[1..] == p[1..] + [false] && (p + [true])[1..] == p[1..] + [true];
      if p[0] then Node(t.left, Collapse(t.right, p[1..])) else Node(Collapse(t.left, p[1..]), t.right)
  }

  lemma {:induction false} CollapseLeaves(t: Tree, p: Path, x: int, y: int)
    requires IsLeaf(t, p + [false]) && IsLeaf(t, p + [true]) && At(t, p + [false]) == x && At(t, p + [true]) == y
    ensures Leaves(Collapse(t, p)) + Pair(x, y) == Leaves(t) + multiset{x + y}
    decreases p
  {
    if p == [] {
      CollapseTop(t);
    } else {
      PathsBelow(p);
      var here, there := Child(t, p[0]), Child(t, !p[0]);
      CollapseLeaves(here, p[1..], x, y);
      Lift(t, Collapse(t, p), p[0], here, Collapse(here, p[1..]), there, Pair(x, y), multiset{x + y});
    }
  }

  lemma CollapseTop(t: Tree)
    requires IsLeaf(t, [] + [false]) && IsLeaf(t, [] + [true])
    ensures Leaves(Collapse(t, [])) + Pair(At(t, [] + [false]), At(t, [] + [true]))
            == Leaves(t) + multiset{At(t, [] + [false]) + At(t, [] + [true])}
  {
    PairAtTop(t);
    var x, y := t.left.w, t.right.w;
    assert t == Node(Leaf(x), Leaf(y)) && Leaves(t) == Pair(x, y);
    assert Total(t.left) == x && Total(t.right) == y;
    assert Total(t) == x + y;
    Swapped(multiset{x + y}, Pair(x, y));
  }

  /** What changes below one child changes the leaves of the whole tree likewise. */
  lemma Lift(t: Tree, u: Tree, right: bool, here: Tree, changed: Tree, there: Tree, x: multiset<int>, y: multiset<int>)
    requires t == (if right then Node(there, here) else Node(here, there))
    requires u == (if right then Node(there, changed) else Node(changed, there))
    requires Leaves(changed) + x == Leaves(here) + y
    ensures Leaves(u) + x == Leaves(t) + y
  {
    Regroup(Leaves(changed), x, Leaves(here), y, Leaves(there));
  }

  lemma PairAtTop(t: Tree)
    requires IsLeaf(t, [] + [false]) && IsLeaf(t, [] + [true])
    ensures t.Node? && t.left.Leaf? && t.right.Leaf?
    ensures At(t, [] + [false]) == t.left.w && At(t, [] + [true]) == t.right.w
  {
    assert [] + [false] == [false] && [] + [true] == [true];
    assert [false][1..] == [] && [true][1..] == [];
  }

  lemma PathsBelow(p: Path)
    requires p != []
    ensures forall b: bool {:trigger p + [b]} :: (p + [b])[1..] == p[1..] + [b] && (p + [b])[0] == p[0]
  {
  }

  lemma {:induction false} CollapseCost(t: Tree, p: Path)
    requires IsLeaf(t, p + [false]) && IsLeaf(t, p + [true])
    ensures Total(Collapse(t, p)) == Total(t)
    ensures Cost(t) == Cost(Collapse(t, p)) + At(t, p + [false]) + At(t, p + [true])
    decreases p
  {
    if p == [] {
      PairAtTop(t);
    } else {
      PathsBelow(p);
      CollapseCost(Child(t, p[0]), p[1..]);
    }
  }

  // ----- merging the two least heaps first is optimal -----

  /** x is one of the heaps and none is lighter. */
  predicate Least(heaps: multiset<int>, x: int) {
    x in heaps && forall y :: y in heaps ==> x <= y
  }

  /** The heaps after a and b were merged. */
  predicate Merged(before: multiset<int>, a: int, b: int, after: multiset<int>) {
    after + Pair(a, b) == before + multiset{a + b}
  }

  lemma {:induction false} HasLeaves(t: Tree)
    ensures |Leaves(t)| >= 1 && (t.Node? ==> |Leaves(t)| >= 2)
  {
    match t
    case Leaf(_) =>
    case Node(l, r) =>
      HasLeaves(l);
      HasLeaves(r);
  }

  /** The weight a can be moved to a deepest place without making the tree dearer. */
  lemma BringDown(t: Tree, deep: Path, q: Path) returns (u: Tree)
    requires IsLeaf(t, deep) && IsLeaf(t, q) && |deep| == Height(t) && At(t, q) <= At(t, deep)
    ensures IsLeaf(u, deep) && At(u, deep) == At(t, q) && Leaves(u) == Leaves(t) && Cost(u) <= Cost(t) && Height(u) == Height(t)
    ensures forall r :: IsLeaf(t, r) ==> IsLeaf(u, r)
    ensures forall r :: IsLeaf(t, r) && r != deep && r != q ==> IsLeaf(u, r) && At(u, r) == At(t, r)
  {
    if q == deep {
      u := t;
    } else {
      WithinHeight(t, q);
      u := Swap(t, deep, q);
      SwapLeaves(t, deep, q);
      SwapCost(t, deep, q);
      forall r | IsLeaf(t, r)
        ensures IsLeaf(u, r) && (r != deep && r != q ==> At(u, r) == At(t, r))
      {
        SwapElsewhere(t, deep, q, r);
      }
    }
  }

  /** Any way to merge can be turned into one that first merges the two least heaps and is no dearer. */
  lemma LeastFirst(t: Tree, a: int, b: int) returns (u: Tree)
    requires t.Node? && Least(Leaves(t), a) && Least(Leaves(t) - multiset{a}, b)
    ensures Merged(Leaves(t), a, b, Leaves(u)) && Cost(u) + a + b <= Cost(t)
  {
    var p := DeepestPair(t);
    var left, right := p + [false], p + [true];
    assert left[|p|] != right[|p|];
    var t1 := BringFirst(t, left, right, a);
    var r := OtherLeaf(t1, left, b);
    var t2 := BringSecond(t1, left, right, r, a, b);
    CollapseLeaves(t2, p, a, b);
    CollapseCost(t2, p);
    u := Collapse(t2, p);
  }

  lemma BringFirst(t: Tree, left: Path, right: Path, a: int) returns (u: Tree)
    requires IsLeaf(t, left) && IsLeaf(t, right) && |left| == Height(t) && Least(Leaves(t), a)
    ensures IsLeaf(u, left) && IsLeaf(u, right) && At(u, left) == a
    ensures Leaves(u) == Leaves(t) && Cost(u) <= Cost(t) && Height(u) == Height(t)
  {
    var q := SomeLeaf(t, a);
    PutLeaves(t, left, 0);
    u := BringDown(t, left, q);
  }

  lemma BringSecond(t: Tree, left: Path, right: Path, r: Path, a: int, b: int) returns (u: Tree)
    requires IsLeaf(t, left) && IsLeaf(t, right) && left != right && IsLeaf(t, r) && r != left && |right| == Height(t)
    requires At(t, left) == a && At(t, r) == b && Least(Leaves(t) - multiset{a}, b)
    ensures IsLeaf(u, left) && IsLeaf(u, right) && At(u, left) == a && At(u, right) == b
    ensures Leaves(u) == Leaves(t) && Cost(u) <= Cost(t)
  {
    RestHas(t, left, right);
    u := BringDown(t, right, r);
  }

  /** What stands at another place is among the rest. */
  lemma {:induction false} RestHas(t: Tree, p: Path, q: Path)
    requires IsLeaf(t, p) && IsLeaf(t, q) && p != q
    ensures At(t, q) in Leaves(t) - multiset{At(t, p)}
    decreases p
  {
    var half := Put(t, p, At(t, p) - 1);
    PutLeaves(t, p, At(t, p) - 1);
    PutElsewhere(t, p, At(t, p) - 1, q);
    PutLeaves(half, q, 0);
    var x, y := At(t, p), At(t, q);
    assert y in Leaves(half);
    if y == x {
      assert (Leaves(half) + multiset{x})[x] == (Leaves(t) + multiset{x - 1})[x];
    } else {
      PutLeaves(t, q, 0);
    }
  }

  /** The last merge undone: one leaf becomes the two heaps that made it. */
  function Expand(t: Tree, p: Path, a: int, b: int): Tree
    requires IsLeaf(t, p)
    decreases p
  {
    if p == [] then Node(Leaf(a), Leaf(b))
    else if p[0] then Node(t.left, Expand(t.right, p[1..], a, b))
    else Node(Expand(t.left, p[1..], a, b), t.right)
  }

  lemma {:induction false} ExpandLeaves(t: Tree, p: Path, a: int, b: int)
    requires IsLeaf(t, p) && At(t, p) == a + b
    ensures Leaves(Expand(t, p, a, b)) + multiset{a + b} == Leaves(t) + Pair(a, b)
    decreases p
  {
    if p == [] {
      Swapped(Pair(a, b), multiset{a + b});
    } else {
      var here, there := Child(t, p[0]), Child(t, !p[0]);
      ExpandLeaves(here, p[1..], a, b);
      Lift(t, Expand(t, p, a, b), p[0], here, Expand(here, p[1..], a, b), there, multiset{a + b}, Pair(a, b));
    }
  }

  lemma {:induction false} ExpandCost(t: Tree, p: Path, a: int, b: int)
    requires IsLeaf(t, p) && At(t, p) == a + b
    ensures Total(Expand(t, p, a, b)) == Total(t) && Cost(Expand(t, p, a, b)) == Cost(t) + a + b
    decreases p
  {
    if p != [] {
      ExpandCost(Child(t, p[0]), p[1..], a, b);
    }
  }

  /** The least cost after the greedy merge, plus the merge, is the least cost. */
  lemma GreedyMerge(heaps: multiset<int>, a: int, b: int, after: multiset<int>, c: int)
    requires |heaps| >= 2 && Least(heaps, a) && Least(heaps - multiset{a}, b) && Merged(heaps, a, b, after) && LeastCost(after, c)
    ensures LeastCost(heaps, c + a + b)
  {
    TwoHeaps(heaps, a, b);
    MergeUndone(heaps, a, b, after, c);
    forall v | Leaves(v) == heaps
      ensures c + a + b <= Cost(v)
    {
      HasLeaves(v);
      var less := LeastFirst(v, a, b);
      Cancel(Leaves(less), after, Pair(a, b));
    }
  }

  lemma TwoHeaps(heaps: multiset<int>, a: int, b: int)
    requires a in heaps && b in heaps - multiset{a}
    ensures Pair(a, b) <= heaps && heaps - multiset{a} - multiset{b} + Pair(a, b) == heaps
  {
  }

  lemma SumIsThere(heaps: multiset<int>, a: int, b: int, after: multiset<int>)
    requires Pair(a, b) <= heaps && Merged(heaps, a, b, after)
    ensures a + b in after
  {
    assert (after + Pair(a, b))[a + b] == (heaps + multiset{a + b})[a + b];
  }

  lemma UndoMerge(t: Tree, heaps: multiset<int>, a: int, b: int) returns (u: Tree)
    requires Merged(heaps, a, b, Leaves(t)) && a + b in Leaves(t)
    ensures Leaves(u) == heaps && Cost(u) == Cost(t) + a + b
  {
    var q := SomeLeaf(t, a + b);
    u := Expand(t, q, a, b);
    ExpandLeaves(t, q, a, b);
    ExpandCost(t, q, a, b);
    Cancel(Leaves(u), heaps, multiset{a + b});
  }

  lemma MergeUndone(heaps: multiset<int>, a: int, b: int, after: multiset<int>, c: int)
    requires Pair(a, b) <= heaps && Merged(heaps, a, b, after) && exists t :: Leaves(t) == after && Cost(t) == c
    ensures exists u :: Leaves(u) == heaps && Cost(u) == c + a + b
  {
    SumIsThere(heaps, a, b, after);
    var t :| Leaves(t) == after && Cost(t) == c;
    var u := UndoMerge(t, heaps, a, b);
  }

  lemma OneHeap(x: int)
    ensures LeastCost(multiset{x}, 0)
  {
    assert Leaves(Leaf(x)) == multiset{x} && Cost(Leaf(x)) == 0;
    forall t | Leaves(t) == multiset{x}
      ensures 0 <= Cost(t)
    {
      HasLeaves(t);
    }
  }

  lemma Removed(heaps: seq<int>, k: nat)
    requires k < |heaps|
    ensures multiset(heaps[..k] + heaps[k + 1..]) + multiset{heaps[k]} == multiset(heaps)
  {
    assert heaps == heaps[..k] + [heaps[k]] + heaps[k + 1..];
  }

  /** heapq.heappop */
  method PopLeast(heaps: seq<int>) returns (x: int, rest: seq<int>)
    requires |heaps| >= 1
    ensures Least(multiset(heaps), x) && multiset(rest) == multiset(heaps) - multiset{x} && |rest| == |heaps| - 1
  {
    var k := 0;
    for i := 1 to |heaps|
      invariant k < |heaps| && forall j :: 0 <= j < i ==> heaps[k] <= heaps[j]
    {
      if heaps[i] < heaps[k] {
        k := i;
      }
    }
    Removed(heaps, k);
    x, rest := heaps[k], heaps[..k] + heaps[k + 1..];
    assert forall y :: y in multiset(heaps) ==> y in heaps;
  }

  /** Every way to merge what is left costs as much more as has been paid. */
  ghost predicate Paid(start: multiset<int>, heaps: multiset<int>, ans: int) {
    forall c {:trigger LeastCost(heaps, c)} :: LeastCost(heaps, c) ==> LeastCost(start, ans + c)
  }

  lemma PaidNext(start: multiset<int>, heaps: multiset<int>, ans: int, a: int, b: int, after: multiset<int>)
    requires Paid(start, heaps, ans) && |heaps| >= 2 && Least(heaps, a) && Least(heaps - multiset{a}, b) && Merged(heaps, a, b, after)
    ensures Paid(start, after, ans + (a + b))
  {
    forall c | LeastCost(after, c)
      ensures LeastCost(start, ans + (a + b) + c)
    {
      GreedyMerge(heaps, a, b, after, c);
      assert LeastCost(heaps, c + a + b);
      assert ans + (c + a + b) == ans + (a + b) + c;
    }
  }

  /** The program prints the least total cost of merging all heaps into one. */
  method MergeAll(start: seq<int>) returns (ans: int)
    requires |start| >= 1
    ensures LeastCost(multiset(start), ans)
  {
    var heaps := start;
    ans := 0;
    while |heaps| > 1
      invariant |heaps| >= 1 && Paid(multiset(start), multiset(heaps), ans)
      decreases |heaps|
    {
      var a, one := PopLeast(heaps);
      var b, two := PopLeast(one);
      TwoHeaps(multiset(heaps), a, b);
      MergeAfterPops(multiset(heaps), a, b, multiset(two));
      PaidNext(multiset(start), multiset(heaps), ans, a, b, multiset(two) + multiset{a + b});
      assert multiset(two + [a + b]) == multiset(two) + multiset{a + b};
      heaps := two + [a + b];
      ans := ans + (a + b);
    }
    LastHeap(heaps);
    assert LeastCost(multiset(start), ans + 0);
  }

  lemma MergeAfterPops(heaps: multiset<int>, a: int, b: int, rest: multiset<int>)
    requires rest == heaps - multiset{a} - multiset{b} && rest + Pair(a, b) == heaps
    ensures Merged(heaps, a, b, rest + multiset{a + b})
  {
    assert (rest + multiset{a + b}) + Pair(a, b) == (rest + Pair(a, b)) + multiset{a + b};
  }

  lemma LastHeap(heaps: seq<int>)
    requires |heaps| == 1
    ensures LeastCost(multiset(heaps), 0)
  {
    assert heaps == [heaps[0]];
    OneHeap(heaps[0]);
  }
}
