// The reference program "nonnegative-single-source-shortest-path": heap Dijkstra
// that skips stale heap entries.
module Dijkstra {

  datatype Edge = Edge(to: nat, w: nat)
  type Graph = seq<seq<Edge>>

  predicate ValidGraph(g: Graph) {
    forall u, i :: 0 <= u < |g| && 0 <= i < |g[u]| ==> g[u][i].to < |g|
  }

  // ----- what a shortest distance is -----

  /** The edges lead from s to t. */
  predicate Walk(g: Graph, s: nat, edges: seq<Edge>, t: nat)
    decreases |edges|
  {
    s < |g| && if edges == [] then s == t else edges[0] in g[s] && Walk(g, edges[0].to, edges[1..], t)
  }

  function Weight(edges: seq<Edge>): nat {
    if edges == [] then 0 else edges[0].w + Weight(edges[1..])
  }

  ghost predicate Reachable(g: Graph, s: nat, t: nat) {
    exists edges :: Walk(g, s, edges, t)
  }

  ghost predicate ShortestWeight(g: Graph, s: nat, t: nat, x: nat) {
    (exists edges :: Walk(g, s, edges, t) && Weight(edges) == x) &&
    forall edges :: Walk(g, s, edges, t) ==> x <= Weight(edges)
  }

  lemma {:induction false} WalkAppend(g: Graph, s: nat, edges: seq<Edge>, u: nat, e: Edge)
    requires ValidGraph(g) && u < |g| && Walk(g, s, edges, u) && e in g[u]
    ensures Walk(g, s, edges + [e], e.to) && Weight(edges + [e]) == Weight(edges) + e.w
    decreases |edges|
  {
    if edges == [] {
      assert edges + [e] == [e];
      assert [e][1..] == [];
    } else {
      WalkAppend(g, edges[0].to, edges[1..], u, e);
      assert (edges + [e])[1..] == edges[1..] + [e];
    }
  }

  // ----- the algorithm's state -----

  datatype Distance = Infinite | At(value: nat)

  /** A heap entry: a tentative distance and its vertex. */
  datatype Entry = Entry(key: nat, vertex: nat)

  predicate Before(a: Entry, b: Entry) {
    a.key < b.key || (a.key == b.key && a.vertex <= b.vertex)
  }

  lemma {:induction false} LeastExists(q: set<Entry>)
    requires q != {}
    ensures exists a :: a in q && forall b :: b in q ==> Before(a, b)
    decreases |q|
  {
    var x :| x in q;
    var rest := q - {x};
    if rest == {} {
      assert q == {x};
    } else {
      LeastExists(rest);
      var a :| a in rest && forall b :: b in rest ==> Before(a, b);
      var least := if Before(x, a) then x else a;
      assert forall b :: b in q ==> b == x || b in rest;
      assert least in q && forall b :: b in q ==> Before(least, b);
    }
  }

  /** heapq.heappop: removes the least entry. */
  method PopLeast(q: set<Entry>) returns (least: Entry, rest: set<Entry>)
    requires q != {}
    ensures least in q && forall b :: b in q ==> Before(least, b)
    ensures rest == q - {least}
  {
    LeastExists(q);
    least :| least in q && forall b :: b in q ==> Before(least, b);
    rest := q - {least};
  }

  /** Every tentative distance is the weight of some walk. */
  ghost predicate Witnessed(g: Graph, s: nat, d: seq<Distance>) {
    |d| == |g| &&
    forall v :: 0 <= v < |g| && d[v].At? ==> exists edges :: Walk(g, s, edges, v) && Weight(edges) == d[v].value
  }

  /** The edge e out of u cannot improve the distance of its end. */
  predicate Settled(d: seq<Distance>, u: nat, e: Edge) {
    u < |d| && e.to < |d| && d[u].At? && d[e.to].At? && d[e.to].value <= d[u].value + e.w
  }

  /** Heap, distances and the set of expanded vertices belong together. */
  ghost predicate HeapOk(n: nat, d: seq<Distance>, q: set<Entry>, done: set<nat>) {
    |d| == n &&
    (forall v :: v in done ==> v < n && d[v].At?) &&
    (forall v :: 0 <= v < n && d[v].At? ==> v in done || Entry(d[v].value, v) in q) &&
    (forall a :: a in q ==> a.vertex < n && d[a.vertex].At? && d[a.vertex].value <= a.key) &&
    (forall a :: a in q && a.vertex in done ==> d[a.vertex].value < a.key) &&
    (forall a, u :: a in q && u in done ==> d[u].value <= a.key)
  }

  /** All edges of the expanded vertices are settled. */
  ghost predicate Closed(g: Graph, d: seq<Distance>, done: set<nat>) {
    |d| == |g| && forall u, e :: u in done && u < |g| && e in g[u] ==> Settled(d, u, e)
  }

  /** When every edge is settled, no walk is lighter than the distances say. */
  lemma {:induction false} ClosedIsLowerBound(g: Graph, d: seq<Distance>, done: set<nat>, u: nat, edges: seq<Edge>, t: nat)
    requires ValidGraph(g) && Closed(g, d, done)
    requires forall v :: 0 <= v < |g| && d[v].At? ==> v in done
    requires Walk(g, u, edges, t) && d[u].At?
    ensures t < |g| && d[t].At? && d[t].value <= d[u].value + Weight(edges)
    decreases |edges|
  {
    if edges != [] {
      assert Settled(d, u, edges[0]);
      ClosedIsLowerBound(g, d, done, edges[0].to, edges[1..], t);
    }
  }

  /** Pushing an improved distance keeps the heap in step; the pushed entry was not there before,
      so a set of entries loses nothing against Python's list. */
  lemma PushKeepsHeap(n: nat, d: seq<Distance>, q: set<Entry>, done: set<nat>, v: nat, x: nat)
    requires HeapOk(n, d, q, done) && v < n
    requires d[v].At? ==> x < d[v].value
    requires forall u :: u in done ==> d[u].value <= x
    ensures Entry(x, v) !in q && v !in done
    ensures HeapOk(n, d[v := At(x)], q + {Entry(x, v)}, done)
  {
  }

  lemma RelaxKeepsWitnesses(g: Graph, s: nat, d: seq<Distance>, u: nat, e: Edge)
    requires ValidGraph(g) && u < |g| && e in g[u] && e.to < |g|
    requires Witnessed(g, s, d) && d[u].At?
    ensures Witnessed(g, s, d[e.to := At(d[u].value + e.w)])
  {
    var edges :| Walk(g, s, edges, u) && Weight(edges) == d[u].value;
    WalkAppend(g, s, edges, u, e);
  }

  lemma RelaxKeepsSettled(d: seq<Distance>, u: nat, e: Edge, v: nat, x: nat)
    requires Settled(d, u, e) && v < |d| && v != u
    requires d[v].At? ==> x <= d[v].value
    ensures Settled(d[v := At(x)], u, e)
  {
  }


  /** The invariant of the main loop. */
  ghost predicate Searching(g: Graph, s: nat, d: seq<Distance>, q: set<Entry>, done: set<nat>) {
    s < |g| && HeapOk(|g|, d, q, done) && Witnessed(g, s, d) && Closed(g, d, done) && d[s] == At(0)
  }

  /** The first i edges of u, which is at distance du, have been relaxed. */
  ghost predicate Relaxing(g: Graph, s: nat, d: seq<Distance>, q: set<Entry>, done: set<nat>, u: nat, du: nat, i: nat) {
    s < |g| && u < |g| && i <= |g[u]| && u in done &&
    HeapOk(|g|, d, q, done) && Witnessed(g, s, d) && Closed(g, d, done - {u}) &&
    d[s] == At(0) && d[u] == At(du) &&
    (forall v :: v in done ==> d[v].value <= du) &&
    (forall j :: 0 <= j < i ==> Settled(d, u, g[u][j]))
  }

  /** The least entry, if it is not stale, belongs to a vertex that was never expanded. */
  lemma ExpandLeast(g: Graph, s: nat, d: seq<Distance>, q: set<Entry>, done: set<nat>, a: Entry)
    requires Searching(g, s, d, q, done) && a in q && d[a.vertex] == At(a.key)
    requires forall b :: b in q ==> Before(a, b)
    ensures a.vertex !in done
    ensures Relaxing(g, s, d, q - {a}, done + {a.vertex}, a.vertex, a.key, 0)
  {
    assert done + {a.vertex} - {a.vertex} == done;
  }

  lemma RelaxStep(g: Graph, s: nat, d: seq<Distance>, q: set<Entry>, done: set<nat>, u: nat, du: nat, i: nat, x: nat)
    requires ValidGraph(g) && Relaxing(g, s, d, q, done, u, du, i) && i < |g[u]|
    requires x == du + g[u][i].w
    requires d[g[u][i].to].At? ==> x < d[g[u][i].to].value
    ensures Relaxing(g, s, d[g[u][i].to := At(x)], q + {Entry(x, g[u][i].to)}, done, u, du, i + 1)
  {
    var v := g[u][i].to;
    PushKeepsHeap(|g|, d, q, done, v, x);
    RelaxKeepsWitnesses(g, s, d, u, g[u][i]);
    forall j | 0 <= j < i ensures Settled(d[v := At(x)], u, g[u][j]) {
      RelaxKeepsSettled(d, u, g[u][j], v, x);
    }
    forall w, f | w in done - {u} && w < |g| && f in g[w] ensures Settled(d[v := At(x)], w, f) {
      RelaxKeepsSettled(d, w, f, v, x);
    }
  }

  lemma RelaxDone(g: Graph, s: nat, d: seq<Distance>, q: set<Entry>, done: set<nat>, u: nat, du: nat)
    requires u < |g| && Relaxing(g, s, d, q, done, u, du, |g[u]|)
    ensures Searching(g, s, d, q, done)
  {
    assert forall f :: f in g[u] ==> Settled(d, u, f);
  }

  lemma RelaxSkip(g: Graph, s: nat, d: seq<Distance>, q: set<Entry>, done: set<nat>, u: nat, du: nat, i: nat)
    requires ValidGraph(g) && Relaxing(g, s, d, q, done, u, du, i) && i < |g[u]|
    requires d[g[u][i].to].At? && d[g[u][i].to].value <= du + g[u][i].w
    ensures Relaxing(g, s, d, q, done, u, du, i + 1)
  {
  }

  predicate Improves(d: seq<Distance>, e: Edge, du: nat)
    requires e.to < |d|
  {
    d[e.to] == Infinite || du + e.w < d[e.to].value
  }

  /** The distances after relaxing one edge out of a vertex at distance du. */
  function Shortened(d: seq<Distance>, e: Edge, du: nat): seq<Distance>
    requires e.to < |d|
  {
    if Improves(d, e, du) then d[e.to := At(du + e.w)] else d
  }

  function Pushed(d: seq<Distance>, q: set<Entry>, e: Edge, du: nat): set<Entry>
    requires e.to < |d|
  {
    if Improves(d, e, du) then q + {Entry(du + e.w, e.to)} else q
  }

  lemma RelaxNext(g: Graph, s: nat, d: seq<Distance>, q: set<Entry>, done: set<nat>, u: nat, du: nat, i: nat)
    requires ValidGraph(g) && Relaxing(g, s, d, q, done, u, du, i) && i < |g[u]|
    ensures u < |g| == |d| && g[u][i].to < |g|
    ensures Relaxing(g, s, Shortened(d, g[u][i], du), Pushed(d, q, g[u][i], du), done, u, du, i + 1)
  {
    if Improves(d, g[u][i], du) {
      RelaxStep(g, s, d, q, done, u, du, i, du + g[u][i].w);
    } else {
      RelaxSkip(g, s, d, q, done, u, du, i);
    }
  }

  method RelaxEdge(d: array<Distance>, q: set<Entry>, e: Edge, du: nat) returns (q': set<Entry>)
    requires e.to < d.Length
    modifies d
    ensures d[..] == Shortened(old(d[..]), e, du) && q' == Pushed(old(d[..]), q, e, du)
  {
    q' := q;
    if d[e.to] == Infinite || du + e.w < d[e.to].value {
      d[e.to] := At(du + e.w);
      q' := q + {Entry(du + e.w, e.to)};
    }
  }

  /** The for-loop over g[u]: relaxes every edge of the vertex just popped. */
  method RelaxEdges(g: Graph, s: nat, d: array<Distance>, q: set<Entry>, u: nat, du: nat, ghost done: set<nat>)
    returns (q': set<Entry>)
    requires ValidGraph(g) && u < |g| && Relaxing(g, s, d[..], q, done, u, du, 0)
    modifies d
    ensures Searching(g, s, d[..], q', done)
  {
    q' := q;
    ghost var now := d[..];
    for i := 0 to |g[u]|
      invariant now == d[..] && Relaxing(g, s, now, q', done, u, du, i)
    {
      RelaxNext(g, s, now, q', done, u, du, i);
      q' := RelaxEdge(d, q', g[u][i], du);
      now := Shortened(now, g[u][i], du);
    }
    RelaxDone(g, s, now, q', done, u, du);
  }

  /** An empty heap means that the distances are the answers. */
  lemma EmptyHeapIsOptimal(g: Graph, s: nat, d: seq<Distance>, done: set<nat>, t: nat)
    requires ValidGraph(g) && Searching(g, s, d, {}, done) && t < |g|
    ensures d[t] == Infinite <==> !Reachable(g, s, t)
    ensures d[t].At? ==> ShortestWeight(g, s, t, d[t].value)
  {
    forall edges | Walk(g, s, edges, t) ensures d[t].At? && d[t].value <= Weight(edges) {
      ClosedIsLowerBound(g, d, done, s, edges, t);
    }
  }

  lemma SubsetCount(done: set<nat>, n: nat)
    requires forall v :: v in done ==> v < n
    ensures |done| <= n
  {
    if n > 0 {
      SubsetCount(done - {n - 1}, n - 1);
    }
  }

  lemma SearchingBounds(g: Graph, s: nat, d: seq<Distance>, q: set<Entry>, done: set<nat>)
    requires Searching(g, s, d, q, done)
    ensures |d| == |g| && (forall a :: a in q ==> a.vertex < |g|) && |done| <= |g|
  {
    SubsetCount(done, |g|);
  }

  lemma StaleIsDropped(g: Graph, s: nat, d: seq<Distance>, q: set<Entry>, done: set<nat>, a: Entry)
    requires Searching(g, s, d, q, done) && a in q && a.vertex < |d| && d[a.vertex] != At(a.key)
    ensures Searching(g, s, d, q - {a}, done)
  {
  }

  /** One pass of the main loop: a stale entry is dropped, a vertex that is reached is expanded. */
  method PopAndExpand(g: Graph, s: nat, d: array<Distance>, q: set<Entry>, ghost done: set<nat>)
    returns (q': set<Entry>, ghost done': set<nat>)
    requires ValidGraph(g) && Searching(g, s, d[..], q, done) && q != {}
    modifies d
    ensures Searching(g, s, d[..], q', done')
    ensures |done'| == |done| + 1 || (done' == done && |q'| < |q|)
  {
    var least, rest := PopLeast(q);
    SearchingBounds(g, s, d[..], q, done);
    var u := least.vertex;
    if At(least.key) == d[u] {
      ExpandLeast(g, s, d[..], q, done, least);
      done' := done + {u};
      q' := RelaxEdges(g, s, d, rest, u, least.key, done');
    } else {
      StaleIsDropped(g, s, d[..], q, done, least);
      q', done' := rest, done;
    }
  }

  /** Prints the weight of a lightest walk from s to t, or -1 exactly when there is no walk. */
  method ShortestPath(g: Graph, s: nat, t: nat) returns (ans: int)
    requires ValidGraph(g) && s < |g| && t < |g|
    ensures ans == -1 <==> !Reachable(g, s, t)
    ensures ans != -1 ==> ans >= 0 && ShortestWeight(g, s, t, ans)
  {
    var d := new Distance[|g|](_ => Infinite);
    d[s] := At(0);
    var q := {Entry(0, s)};
    ghost var done: set<nat> := {};
    assert Walk(g, s, [], s) && Weight([]) == 0;
    while q != {}
      invariant Searching(g, s, d[..], q, done) && |done| <= |g|
      decreases |g| - |done|, |q|
    {
      q, done := PopAndExpand(g, s, d, q, done);
      SearchingBounds(g, s, d[..], q, done);
    }
    ans := if d[t] == Infinite then -1 else d[t].value;
    EmptyHeapIsOptimal(g, s, d[..], done, t);
  }
}
