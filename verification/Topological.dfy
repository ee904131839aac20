// The reference program "dependency-topological-order": Kahn's algorithm with a heap.
module Topological {

  /** g[u] lists the tasks that must come after u; an edge may be listed more than once. */
  type Graph = seq<seq<nat>>

  predicate ValidGraph(g: Graph) {
    forall u, i :: 0 <= u < |g| && 0 <= i < |g[u]| ==> g[u][i] < |g|
  }

  // ----- what the problem asks for -----

  /** v comes right after these tasks: it is not among them, and all that it depends on is. */
  ghost predicate CanFollow(g: Graph, done: seq<nat>, v: nat) {
    v < |g| && v !in done && forall u {:trigger g[u]} :: 0 <= u < |g| && v in g[u] ==> u in done
  }

  /** An order in which every task can follow those before it. */
  ghost predicate Feasible(g: Graph, order: seq<nat>) {
    forall k {:trigger order[k]} :: 0 <= k < |order| ==> CanFollow(g, order[..k], order[k])
  }

  ghost predicate TopologicalOrder(g: Graph, order: seq<nat>) {
    |order| == |g| && Feasible(g, order)
  }

  /** At the first place where they differ a has the smaller number. */
  ghost predicate NotAfter(a: seq<nat>, b: seq<nat>) {
    a == b || exists k: nat :: k < |a| && k < |b| && a[..k] == b[..k] && a[k] < b[k]
  }

  // ----- in-degrees -----

  function Times(s: seq<nat>, v: nat): nat {
    if s == [] then 0 else (if s[0] == v then 1 else 0) + Times(s[1..], v)
  }

  /** How many edges into v start at one of the first n tasks, those done left out. */
  function Missing(g: Graph, done: seq<nat>, v: nat, n: nat): nat
    requires n <= |g|
  {
    if n == 0 then 0 else Missing(g, done, v, n - 1) + if n - 1 in done then 0 else Times(g[n - 1], v)
  }

  lemma {:induction false} TimesIn(s: seq<nat>, v: nat)
    ensures Times(s, v) > 0 <==> v in s
  {
    if s != [] {
      TimesIn(s[1..], v);
      assert s == [s[0]] + s[1..];
    }
  }

  lemma {:induction false} NothingMissing(g: Graph, done: seq<nat>, v: nat, n: nat)
    requires n <= |g|
    ensures Missing(g, done, v, n) == 0 <==> forall u {:trigger g[u]} :: 0 <= u < n && v in g[u] ==> u in done
  {
    if n > 0 {
      NothingMissing(g, done, v, n - 1);
      TimesIn(g[n - 1], v);
    }
  }

  /** When u is done its edges are no longer missing. */
  lemma {:induction false} OneMoreDone(g: Graph, done: seq<nat>, u: nat, v: nat, n: nat)
    requires n <= |g| && u < |g| && u !in done
    ensures Missing(g, done, v, n) == Missing(g, done + [u], v, n) + if u < n then Times(g[u], v) else 0
  {
    if n > 0 {
      OneMoreDone(g, done, u, v, n - 1);
    }
  }

  // ----- why the least choice gives the least order -----

  /** Every task of the order is the least that could stand there. */
  ghost predicate Greedy(g: Graph, order: seq<nat>) {
    forall k {:trigger order[k]} :: 0 <= k < |order| ==>
      CanFollow(g, order[..k], order[k]) && forall w: nat :: CanFollow(g, order[..k], w) ==> order[k] <= w
  }

  lemma {:induction false} FeasibleIsDistinct(g: Graph, order: seq<nat>)
    requires Feasible(g, order)
    ensures forall i, j {:trigger order[i], order[j]} :: 0 <= i < j < |order| ==> order[i] != order[j]
    ensures forall k :: 0 <= k < |order| ==> order[k] < |g|
  {
    forall i, j | 0 <= i < j < |order|
      ensures order[i] != order[j]
    {
      assert CanFollow(g, order[..j], order[j]);
      assert order[..j][i] == order[i];
    }
  }

  /** Where a feasible order first leaves the greedy one it takes a larger number. */
  lemma {:induction false} GreedyIsLeast(g: Graph, ans: seq<nat>, order: seq<nat>, k: nat)
    requires Greedy(g, ans) && Feasible(g, order) && |ans| == |order| && k <= |ans| && ans[..k] == order[..k]
    ensures NotAfter(ans, order)
    decreases |ans| - k
  {
    if k == |ans| {
      assert ans[..k] == ans && order[..k] == order;
    } else {
      assert CanFollow(g, order[..k], order[k]);
      assert ans[k] <= order[k];
      if ans[k] == order[k] {
        assert ans[..k + 1] == ans[..k] + [ans[k]] && order[..k + 1] == order[..k] + [order[k]];
        GreedyIsLeast(g, ans, order, k + 1);
      }
    }
  }

  /** As long as not everything is done, a complete order shows what can come next. */
  lemma SomethingCanFollow(g: Graph, done: seq<nat>, order: seq<nat>)
    requires TopologicalOrder(g, order) && |done| < |g|
    requires forall k :: 0 <= k < |done| ==> done[k] < |g|
    ensures exists v: nat :: CanFollow(g, done, v)
  {
    FeasibleIsDistinct(g, order);
    var k := FirstOpen(g, done, order);
    assert CanFollow(g, order[..k], order[k]);
    forall u | 0 <= u < |g| && order[k] in g[u]
      ensures u in done
    {
      assert u in order[..k];
      var i :| 0 <= i < k && order[..k][i] == u;
      assert order[i] == u;
    }
    assert CanFollow(g, done, order[k]);
  }

  lemma FirstOpen(g: Graph, done: seq<nat>, order: seq<nat>) returns (k: nat)
    requires |order| == |g| && |done| < |g|
    requires forall i, j {:trigger order[i], order[j]} :: 0 <= i < j < |order| ==> order[i] != order[j]
    ensures k < |order| && order[k] !in done && forall i :: 0 <= i < k ==> order[i] in done
  {
    k := 0;
    while k < |order| && order[k] in done
      invariant k <= |order| && forall i :: 0 <= i < k ==> order[i] in done
    {
      k := k + 1;
    }
    if k == |order| {
      TooMany(order, done);
    }
  }

  /** Distinct numbers that all occur in a list are no more than the list is long. */
  lemma {:induction false} TooMany(order: seq<nat>, done: seq<nat>)
    requires forall i, j {:trigger order[i], order[j]} :: 0 <= i < j < |order| ==> order[i] != order[j]
    requires forall i :: 0 <= i < |order| ==> order[i] in done
    ensures |order| <= |done|
    decreases |done|
  {
    if order != [] {
      var n := |order| - 1;
      var last := order[n];
      var k :| 0 <= k < |done| && done[k] == last;
      var fewer := done[..k] + done[k + 1..];
      forall i | 0 <= i < n
        ensures order[..n][i] in fewer
      {
        assert order[i] in done && order[i] != last;
        var m :| 0 <= m < |done| && done[m] == order[i];
        assert m < k ==> fewer[m] == order[i];
        assert m > k ==> fewer[m - 1] == order[i];
      }
      TooMany(order[..n], fewer);
    }
  }

  // ----- the program -----

  lemma {:induction false} TimesUpTo(s: seq<nat>, v: nat, i: nat)
    requires i < |s|
    ensures Times(s[..i + 1], v) == Times(s[..i], v) + if s[i] == v then 1 else 0
    ensures Times(s[i..], v) == (if s[i] == v then 1 else 0) + Times(s[i + 1..], v)
  {
    assert s[i..][1..] == s[i + 1..];
    if i > 0 {
      TimesUpTo(s[1..], v, i - 1);
      assert s[..i + 1][1..] == s[1..][..i] && s[..i][1..] == s[1..][..i - 1];
    } else {
      assert s[..1] == [s[0]] && s[..1][1..] == [];
    }
  }

  /** The edges into v, counted over the first u tasks and the first i edges of the next. */
  ghost predicate CountedTo(g: Graph, d: seq<nat>, u: nat, i: nat)
    requires u < |g| && i <= |g[u]|
  {
    |d| == |g| && forall v {:trigger d[v]} :: 0 <= v < |g| ==> d[v] == Missing(g, [], v, u) + Times(g[u][..i], v)
  }

  ghost predicate Counted(g: Graph, d: seq<nat>, u: nat)
    requires u <= |g|
  {
    |d| == |g| && forall v {:trigger d[v]} :: 0 <= v < |g| ==> d[v] == Missing(g, [], v, u)
  }

  lemma CountNext(g: Graph, d: seq<nat>, u: nat, i: nat)
    requires ValidGraph(g) && u < |g| && i < |g[u]| && CountedTo(g, d, u, i)
    ensures var v := g[u][i];
            v < |d| && CountedTo(g, d[v := d[v] + 1], u, i + 1)
  {
    forall v: nat | v < |g|
      ensures Times(g[u][..i + 1], v) == Times(g[u][..i], v) + if g[u][i] == v then 1 else 0
    {
      TimesUpTo(g[u], v, i);
    }
  }

  lemma CountedRow(g: Graph, d: seq<nat>, u: nat)
    requires u < |g|
    ensures Counted(g, d, u) ==> CountedTo(g, d, u, 0)
    ensures CountedTo(g, d, u, |g[u]|) ==> Counted(g, d, u + 1)
  {
    assert g[u][..|g[u]|] == g[u];
  }

  method InDegrees(g: Graph) returns (d: array<nat>)
    requires ValidGraph(g)
    ensures fresh(d) && Counted(g, d[..], |g|)
  {
    d := new nat[|g|](_ => 0);
    for u := 0 to |g|
      invariant Counted(g, d[..], u)
    {
      CountedRow(g, d[..], u);
      for i := 0 to |g[u]|
        invariant CountedTo(g, d[..], u, i)
      {
        CountNext(g, d[..], u, i);
        ghost var next := d[..][g[u][i] := d[g[u][i]] + 1];
        d[g[u][i]] := d[g[u][i]] + 1;
        assert d[..] == next;
      }
      CountedRow(g, d[..], u);
    }
  }

  /** The heap holds exactly the open tasks that nothing open precedes. */
  ghost predicate Ready(g: Graph, done: seq<nat>, d: seq<nat>, q: set<nat>) {
    |d| == |g| &&
    (forall v {:trigger d[v]} :: 0 <= v < |g| ==> d[v] == Missing(g, done, v, |g|)) &&
    (forall v: nat :: v in q <==> v < |g| && v !in done && d[v] == 0) &&
    (forall v: nat :: v in done ==> v < |g| && d[v] == 0)
  }

  /** The task u is done, and its first i edges have been taken off. */
  ghost predicate Releasing(g: Graph, done: seq<nat>, u: nat, i: nat, d: seq<nat>, q: set<nat>)
    requires u < |g| && i <= |g[u]|
  {
    |d| == |g| &&
    (forall v {:trigger d[v]} :: 0 <= v < |g| ==> d[v] == Missing(g, done + [u], v, |g|) + Times(g[u][i..], v)) &&
    (forall v: nat :: v in q <==> v < |g| && v !in done + [u] && d[v] == 0) &&
    (forall v: nat :: v in done + [u] ==> v < |g| && d[v] == 0 && v !in g[u])
  }

  lemma StartRelease(g: Graph, done: seq<nat>, d: seq<nat>, q: set<nat>, u: nat)
    requires Ready(g, done, d, q) && u in q
    ensures u < |g| && Releasing(g, done, u, 0, d, q - {u})
  {
    assert g[u][0..] == g[u];
    forall v: nat | v < |g|
      ensures d[v] == Missing(g, done + [u], v, |g|) + Times(g[u], v)
    {
      OneMoreDone(g, done, u, v, |g|);
    }
    forall v | v in done + [u]
      ensures v < |g| && d[v] == 0 && v !in g[u]
    {
      NothingMissing(g, done, v, |g|);
    }
  }

  lemma ReleaseNext(g: Graph, done: seq<nat>, u: nat, i: nat, d: seq<nat>, q: set<nat>)
    requires ValidGraph(g) && u < |g| && i < |g[u]| && Releasing(g, done, u, i, d, q)
    ensures var v := g[u][i];
            v < |d| && d[v] > 0 && Releasing(g, done, u, i + 1, d[v := d[v] - 1], if d[v] == 1 then q + {v} else q)
  {
    var w := g[u][i];
    forall v: nat | v < |g|
      ensures Times(g[u][i..], v) == (if g[u][i] == v then 1 else 0) + Times(g[u][i + 1..], v)
    {
      TimesUpTo(g[u], v, i);
    }
    assert w in g[u];
  }

  lemma EndRelease(g: Graph, done: seq<nat>, u: nat, d: seq<nat>, q: set<nat>)
    requires u < |g| && Releasing(g, done, u, |g[u]|, d, q)
    ensures Ready(g, done + [u], d, q)
  {
    assert g[u][|g[u]|..] == [];
  }

  /** The loop over g[u]. */
  method Release(g: Graph, d: array<nat>, heap: set<nat>, u: nat, ghost done: seq<nat>) returns (q: set<nat>)
    requires ValidGraph(g) && u in heap && Ready(g, done, d[..], heap)
    modifies d
    ensures Ready(g, done + [u], d[..], q)
  {
    StartRelease(g, done, d[..], heap, u);
    q := heap - {u};
    for i := 0 to |g[u]|
      invariant Releasing(g, done, u, i, d[..], q)
    {
      ReleaseNext(g, done, u, i, d[..], q);
      var v := g[u][i];
      ghost var next := d[..][v := d[v] - 1];
      d[v] := d[v] - 1;
      assert d[..] == next;
      if d[v] == 0 {
        q := q + {v};
      }
    }
    EndRelease(g, done, u, d[..], q);
  }

  /** The heap holds what can come next. */
  lemma ReadyCanFollow(g: Graph, done: seq<nat>, d: seq<nat>, q: set<nat>, v: nat)
    requires Ready(g, done, d, q)
    ensures v in q <==> CanFollow(g, done, v)
  {
    if v < |g| {
      NothingMissing(g, done, v, |g|);
    }
  }

  lemma GreedyNext(g: Graph, done: seq<nat>, u: nat)
    requires Greedy(g, done) && CanFollow(g, done, u) && forall w: nat :: CanFollow(g, done, w) ==> u <= w
    ensures Greedy(g, done + [u])
  {
    var more := done + [u];
    forall k | 0 <= k < |more|
      ensures CanFollow(g, more[..k], more[k]) && forall w: nat :: CanFollow(g, more[..k], w) ==> more[k] <= w
    {
      assert more[..k] == done[..k];
      assert k == |done| ==> done[..k] == done;
      assert k < |done| ==> more[k] == done[k];
    }
  }

  predicate Lowest(q: set<nat>, u: nat) {
    u in q && forall w: nat :: w in q ==> u <= w
  }

  /** heapq.heappop on a heap of task numbers */
  method PopLeast(q: set<nat>) returns (u: nat)
    requires q != {}
    ensures Lowest(q, u)
  {
    LeastExists(q);
    u :| Lowest(q, u);
  }

  lemma {:induction false} LeastExists(q: set<nat>)
    requires q != {}
    ensures exists u: nat :: Lowest(q, u)
    decreases |q|
  {
    var x :| x in q;
    if q == {x} {
      assert Lowest(q, x);
    } else {
      var rest := q - {x};
      assert rest != {} by {
        assert q == rest + {x};
      }
      LeastExists(rest);
      var y: nat :| Lowest(rest, y);
      assert forall w: nat :: w in q ==> w == x || w in rest;
      assert Lowest(q, if x <= y then x else y);
    }
  }

  lemma NoMoreThanAll(g: Graph, order: seq<nat>)
    requires Feasible(g, order)
    ensures |order| <= |g|
  {
    FeasibleIsDistinct(g, order);
    var all := seq(|g|, i => i);
    assert forall i :: 0 <= i < |order| ==> all[order[i]] == order[i];
    TooMany(order, all);
  }

  /** Prints the lexicographically least topological order, or IMPOSSIBLE (here: not possible) exactly when
      there is none. */
  method LeastOrder(g: Graph) returns (possible: bool, order: seq<nat>)
    requires ValidGraph(g)
    ensures possible <==> exists o :: TopologicalOrder(g, o)
    ensures possible ==> TopologicalOrder(g, order) && forall o :: TopologicalOrder(g, o) ==> NotAfter(order, o)
  {
    var d := InDegrees(g);
    order := [];
    var q := set v: nat | v < |g| && d[v] == 0;
    assert forall v: nat :: v < |g| ==> d[..][v] == d[v];
    while q != {}
      invariant Ready(g, order, d[..], q) && Greedy(g, order)
      decreases |g| - |order|
    {
      var u := PopLeast(q);
      ReadyCanFollow(g, order, d[..], q, u);
      forall w: nat | CanFollow(g, order, w)
        ensures u <= w
      {
        ReadyCanFollow(g, order, d[..], q, w);
      }
      GreedyNext(g, order, u);
      NoMoreThanAll(g, order + [u]);
      q := Release(g, d, q, u, order);
      order := order + [u];
    }
    possible := |order| == |g|;
    assert Feasible(g, order);
    assert possible ==> TopologicalOrder(g, order);
    forall o | TopologicalOrder(g, o)
      ensures possible && NotAfter(order, o)
    {
      if |order| < |g| {
        SomethingCanFollow(g, order, o);
        var v: nat :| CanFollow(g, order, v);
        ReadyCanFollow(g, order, d[..], q, v);
      } else {
        NoMoreThanAll(g, order);
        GreedyIsLeast(g, order, o, 0);
      }
    }
  }
}
