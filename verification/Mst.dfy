// The reference program "mst": Kruskal with a disjoint-set forest, path halving and union by size.
module Mst {

  /** An edge as the program stores it, weight first. */
  datatype Edge = Edge(w: int, u: nat, v: nat)

  predicate ValidEdges(n: nat, es: seq<Edge>) {
    forall i :: 0 <= i < |es| ==> es[i].u < n && es[i].v < n
  }

  function Weight(es: seq<Edge>): int {
    if es == [] then 0 else Weight(es[..|es| - 1]) + es[|es| - 1].w
  }

  // ----- what the problem asks for -----

  predicate Closed(es: seq<Edge>, s: set<nat>) {
    forall i {:trigger es[i]} :: 0 <= i < |es| ==> (es[i].u in s <==> es[i].v in s)
  }

  /** The edges connect all n vertices: no proper part that contains vertex 0 is closed. */
  ghost predicate Connects(n: nat, es: seq<Edge>) {
    forall s: set<nat> {:trigger Closed(es, s)} :: 0 in s && Closed(es, s) ==> forall v: nat :: v < n ==> v in s
  }

  predicate Among(ts: seq<Edge>, es: seq<Edge>) {
    forall i {:trigger ts[i]} :: 0 <= i < |ts| ==> ts[i] in es
  }

  /** n - 1 of the given edges that connect everything. */
  ghost predicate SpanningTree(n: nat, es: seq<Edge>, ts: seq<Edge>) {
    Among(ts, es) && |ts| == n - 1 && Connects(n, ts)
  }

  // ----- components as labels -----

  /** Every vertex carries the label of its component; an edge renames one label. */
  function Merge(ls: seq<nat>, e: Edge): (r: seq<nat>)
    requires e.u < |ls| && e.v < |ls|
    ensures |r| == |ls|
  {
    seq(|ls|, i requires 0 <= i < |ls| => if ls[i] == ls[e.u] then ls[e.v] else ls[i])
  }

  function Labels(n: nat, es: seq<Edge>): (ls: seq<nat>)
    requires ValidEdges(n, es)
    ensures |ls| == n
  {
    if es == [] then seq(n, i => i) else Merge(Labels(n, es[..|es| - 1]), es[|es| - 1])
  }

  function Values(ls: seq<nat>): set<nat> {
    set x | x in ls
  }

  /** The number of components. */
  function Parts(n: nat, es: seq<Edge>): nat
    requires ValidEdges(n, es)
  {
    |Values(Labels(n, es))|
  }

  /** The second labelling joins all that the first one joins. */
  predicate Finer(a: seq<nat>, b: seq<nat>) {
    |a| == |b| && forall i, j {:trigger a[i], a[j]} :: 0 <= i < |a| && 0 <= j < |a| && a[i] == a[j] ==> b[i] == b[j]
  }

  lemma {:induction false} FinerHasMore(a: seq<nat>, b: seq<nat>)
    requires Finer(a, b)
    ensures |Values(b)| <= |Values(a)|
  {
    if a != [] {
      var n := |a| - 1;
      assert Finer(a[..n], b[..n]);
      FinerHasMore(a[..n], b[..n]);
      LastValue(a);
      LastValue(b);
      if a[n] in a[..n] {
        var i :| 0 <= i < n && a[..n][i] == a[n];
        assert b[i] == b[n] && b[..n][i] == b[n];
      }
    }
  }

  lemma LastValue(ls: seq<nat>)
    requires ls != []
    ensures var n := |ls| - 1;
            |Values(ls)| == |Values(ls[..n])| + if ls[n] in ls[..n] then 0 else 1
  {
    var n := |ls| - 1;
    assert forall x :: x in ls <==> x in ls[..n] || x == ls[n];
    if ls[n] in ls[..n] {
      assert Values(ls) == Values(ls[..n]);
    } else {
      assert Values(ls) == Values(ls[..n]) + {ls[n]};
    }
  }

  lemma MergeCounts(ls: seq<nat>, e: Edge)
    requires e.u < |ls| && e.v < |ls|
    ensures ls[e.u] == ls[e.v] ==> Merge(ls, e) == ls
    ensures ls[e.u] != ls[e.v] ==> |Values(Merge(ls, e))| == |Values(ls)| - 1
  {
    if ls[e.u] != ls[e.v] {
      var r := Merge(ls, e);
      assert r[e.v] == ls[e.v];
      forall x | x in Values(ls) - {ls[e.u]}
        ensures x in Values(r)
      {
        var i :| 0 <= i < |ls| && ls[i] == x;
        assert r[i] == x;
      }
      assert Values(r) == Values(ls) - {ls[e.u]};
      assert ls[e.u] in Values(ls);
    }
  }

  /** A labelling that agrees on the ends of every edge joins all that the edges join. */
  lemma {:induction false} LabelsAreFinest(n: nat, es: seq<Edge>, f: seq<nat>)
    requires ValidEdges(n, es) && |f| == n
    requires forall i {:trigger es[i]} :: 0 <= i < |es| ==> f[es[i].u] == f[es[i].v]
    ensures Finer(Labels(n, es), f)
  {
    if es != [] {
      var before, e := es[..|es| - 1], es[|es| - 1];
      LabelsAreFinest(n, before, f);
      var a, b := Labels(n, before), Labels(n, es);
      assert f[e.u] == f[e.v];
      forall i, j | 0 <= i < n && 0 <= j < n && b[i] == b[j]
        ensures f[i] == f[j]
      {
        assert a[i] == a[e.u] ==> f[i] == f[e.u];
        assert a[j] == a[e.u] ==> f[j] == f[e.u];
        assert a[i] == a[e.v] ==> f[i] == f[e.v];
        assert a[j] == a[e.v] ==> f[j] == f[e.v];
      }
    }
  }

  lemma {:induction false} EdgesAgree(n: nat, es: seq<Edge>)
    requires ValidEdges(n, es)
    ensures forall i {:trigger es[i]} :: 0 <= i < |es| ==> Labels(n, es)[es[i].u] == Labels(n, es)[es[i].v]
  {
    if es != [] {
      var before := es[..|es| - 1];
      EdgesAgree(n, before);
      assert forall i :: 0 <= i < |before| ==> es[i] == before[i];
    }
  }

  /** More edges, fewer components. */
  lemma AmongHasMoreParts(n: nat, ts: seq<Edge>, es: seq<Edge>)
    requires ValidEdges(n, es) && Among(ts, es)
    ensures ValidEdges(n, ts) && Finer(Labels(n, ts), Labels(n, es)) && Parts(n, es) <= Parts(n, ts)
  {
    EdgesAgree(n, es);
    forall i | 0 <= i < |ts|
      ensures ts[i].u < n && ts[i].v < n && Labels(n, es)[ts[i].u] == Labels(n, es)[ts[i].v]
    {
      assert ts[i] in es;
      var k :| 0 <= k < |es| && es[k] == ts[i];
    }
    LabelsAreFinest(n, ts, Labels(n, es));
    FinerHasMore(Labels(n, ts), Labels(n, es));
  }

  lemma {:induction false} PartsBounds(n: nat, es: seq<Edge>, k: nat)
    requires ValidEdges(n, es) && k <= |es|
    ensures Parts(n, es[..k]) - (|es| - k) <= Parts(n, es) <= n && n - |es| <= Parts(n, es)
    decreases |es|
  {
    if es == [] {
      OwnLabels(n);
    } else {
      var before, e := es[..|es| - 1], es[|es| - 1];
      MergeCounts(Labels(n, before), e);
      if k == |es| {
        PartsBounds(n, before, k - 1);
        assert es[..k] == es;
      } else {
        PartsBounds(n, before, k);
        assert before[..k] == es[..k];
      }
    }
  }

  lemma {:induction false} OwnLabels(n: nat)
    ensures |Values(Labels(n, []))| == n
  {
    if n > 0 {
      OwnLabels(n - 1);
      var ls := Labels(n, []);
      LastValue(ls);
      assert ls[..n - 1] == Labels(n - 1, []);
    }
  }

  // ----- connected means one component -----

  lemma {:induction false} ClosedIsUnion(n: nat, es: seq<Edge>, s: set<nat>)
    requires ValidEdges(n, es) && Closed(es, s)
    ensures forall i, j {:trigger Labels(n, es)[i], Labels(n, es)[j]} ::
              0 <= i < n && 0 <= j < n && Labels(n, es)[i] == Labels(n, es)[j] ==> (i in s <==> j in s)
  {
    var f := seq(n, i requires 0 <= i < n => if i in s then 1 else 0);
    LabelsAreFinest(n, es, f);
    var ls := Labels(n, es);
    assert forall i, j {:trigger ls[i], ls[j]} :: 0 <= i < n && 0 <= j < n && ls[i] == ls[j] ==> f[i] == f[j];
  }

  lemma OnePart(n: nat, es: seq<Edge>)
    requires ValidEdges(n, es) && n >= 1
    ensures Connects(n, es) <==> Parts(n, es) == 1
  {
    var ls := Labels(n, es);
    assert ls[0] in Values(ls);
    if Parts(n, es) == 1 {
      assert Values(ls) == {ls[0]} by { SingleValue(Values(ls), ls[0]); }
      forall s: set<nat> | 0 in s && Closed(es, s)
        ensures forall v: nat :: v < n ==> v in s
      {
        ClosedIsUnion(n, es, s);
        forall v: nat | v < n
          ensures v in s
        {
          assert ls[v] in Values(ls) && ls[v] == ls[0];
        }
      }
    }
    if Connects(n, es) {
      EdgesAgree(n, es);
      var s := set v: nat | v < n && ls[v] == ls[0];
      assert Closed(es, s);
      assert forall v: nat :: v < n ==> v in s;
      forall x | x in ls
        ensures x == ls[0]
      {
        var v: nat :| v < n && ls[v] == x;
        assert v in s;
      }
      assert Values(ls) == {ls[0]};
    }
  }

  lemma SingleValue(s: set<nat>, x: nat)
    requires |s| == 1 && x in s
    ensures s == {x}
  {
    assert |s - {x}| == 0;
    assert s == (s - {x}) + {x};
  }

  /** In a spanning tree every edge joins two components of the edges before it. */
  lemma TreePrefix(n: nat, ts: seq<Edge>, k: nat)
    requires ValidEdges(n, ts) && n >= 1 && |ts| == n - 1 && Connects(n, ts) && k <= |ts|
    ensures Parts(n, ts[..k]) == n - k
  {
    OnePart(n, ts);
    PartsBounds(n, ts, k);
    PartsBounds(n, ts[..k], 0);
  }

  // ----- the greedy choice -----

  /** The edges that join two components of the edges before them. */
  function Greedy(n: nat, es: seq<Edge>): seq<Edge>
    requires ValidEdges(n, es)
  {
    if es == [] then []
    else
      var before, e := es[..|es| - 1], es[|es| - 1];
      Greedy(n, before) + if Labels(n, before)[e.u] != Labels(n, before)[e.v] then [e] else []
  }

  lemma {:induction false} GreedyAmong(n: nat, es: seq<Edge>)
    requires ValidEdges(n, es)
    ensures Among(Greedy(n, es), es) && ValidEdges(n, Greedy(n, es))
  {
    if es != [] {
      var before, e := es[..|es| - 1], es[|es| - 1];
      GreedyAmong(n, before);
      var gs := Greedy(n, before);
      assert forall i :: 0 <= i < |gs| ==> gs[i] in before;
      assert forall x :: x in before ==> x in es;
    }
  }

  lemma LabelsNext(n: nat, es: seq<Edge>, e: Edge)
    requires ValidEdges(n, es) && e.u < n && e.v < n
    ensures ValidEdges(n, es + [e]) && Labels(n, es + [e]) == Merge(Labels(n, es), e)
  {
    assert (es + [e])[..|es|] == es;
  }

  lemma {:induction false} GreedyKeepsParts(n: nat, es: seq<Edge>)
    requires ValidEdges(n, es)
    ensures Among(Greedy(n, es), es) && ValidEdges(n, Greedy(n, es))
    ensures Labels(n, Greedy(n, es)) == Labels(n, es) && |Greedy(n, es)| == n - Parts(n, es)
  {
    GreedyAmong(n, es);
    if es == [] {
      OwnLabels(n);
    } else {
      var before, e := es[..|es| - 1], es[|es| - 1];
      GreedyKeepsParts(n, before);
      MergeCounts(Labels(n, before), e);
      if Labels(n, before)[e.u] != Labels(n, before)[e.v] {
        LabelsNext(n, Greedy(n, before), e);
      } else {
        assert Greedy(n, es) == Greedy(n, before);
      }
    }
  }

  lemma {:induction false} GreedyPrefix(n: nat, es: seq<Edge>, k: nat)
    requires ValidEdges(n, es) && k <= |es|
    ensures Greedy(n, es[..k]) <= Greedy(n, es)
    decreases |es|
  {
    if k < |es| {
      GreedyPrefix(n, es[..|es| - 1], k);
      assert es[..|es| - 1][..k] == es[..k];
    } else {
      assert es[..k] == es;
    }
  }

  // ----- sorted(edges) -----

  /** The order of tuples (w, u, v). */
  predicate Before(a: Edge, b: Edge) {
    a.w < b.w || (a.w == b.w && (a.u < b.u || (a.u == b.u && a.v <= b.v)))
  }

  predicate Sorted(es: seq<Edge>) {
    forall i, j {:trigger es[i], es[j]} :: 0 <= i < j < |es| ==> Before(es[i], es[j])
  }

  function Insert(es: seq<Edge>, e: Edge): seq<Edge> {
    if es == [] || Before(es[|es| - 1], e) then es + [e] else Insert(es[..|es| - 1], e) + [es[|es| - 1]]
  }

  function Sort(es: seq<Edge>): seq<Edge> {
    if es == [] then [] else Insert(Sort(es[..|es| - 1]), es[|es| - 1])
  }

  lemma {:induction false} InsertKeeps(es: seq<Edge>, e: Edge)
    ensures |Insert(es, e)| == |es| + 1 && Weight(Insert(es, e)) == Weight(es) + e.w
    ensures forall x :: x in Insert(es, e) <==> x in es || x == e
  {
    if es == [] || Before(es[|es| - 1], e) {
      assert (es + [e])[..|es|] == es;
    } else {
      var init, last := es[..|es| - 1], es[|es| - 1];
      InsertKeeps(init, e);
      var r := Insert(init, e);
      assert (r + [last])[..|r|] == r;
      assert forall x :: x in es <==> x in init || x == last;
    }
  }

  lemma {:induction false} InsertSorts(es: seq<Edge>, e: Edge)
    requires Sorted(es)
    ensures Sorted(Insert(es, e))
  {
    if es == [] || Before(es[|es| - 1], e) {
      assert forall i :: 0 <= i < |es| - 1 ==> Before(es[i], es[|es| - 1]);
    } else {
      var init, last := es[..|es| - 1], es[|es| - 1];
      InsertSorts(init, e);
      InsertKeeps(init, e);
      var r := Insert(init, e);
      forall i | 0 <= i < |r|
        ensures Before(r[i], last)
      {
        assert r[i] in r;
        if r[i] != e {
          var k :| 0 <= k < |init| && init[k] == r[i];
          assert Before(es[k], es[|es| - 1]);
        }
      }
    }
  }

  lemma {:induction false} SortSorts(es: seq<Edge>)
    ensures Sorted(Sort(es)) && |Sort(es)| == |es| && Weight(Sort(es)) == Weight(es)
    ensures forall x :: x in Sort(es) <==> x in es
  {
    if es != [] {
      var init, last := es[..|es| - 1], es[|es| - 1];
      SortSorts(init);
      InsertSorts(Sort(init), last);
      InsertKeeps(Sort(init), last);
      assert forall x :: x in es <==> x in init || x == last;
    }
  }

  // ----- why the greedy tree is lightest -----

  /** How many of the sorted edges weigh at most w. */
  function UpTo(es: seq<Edge>, w: int): (k: nat)
    requires Sorted(es)
    ensures k <= |es|
    ensures forall i {:trigger es[i]} :: 0 <= i < |es| ==> (i < k <==> es[i].w <= w)
  {
    if es == [] then 0
    else if es[|es| - 1].w <= w then
      assert forall i :: 0 <= i < |es| - 1 ==> Before(es[i], es[|es| - 1]);
      |es|
    else
      var k := UpTo(es[..|es| - 1], w);
      assert forall i :: 0 <= i < |es| - 1 ==> es[..|es| - 1][i] == es[i];
      k
  }

  /** The light edges of a list are among the light edges of any list that holds it. */
  lemma LightAmong(es: seq<Edge>, ts: seq<Edge>, k: nat)
    requires Sorted(es) && Sorted(ts) && Among(ts, es) && k < |ts|
    ensures Among(ts[..k + 1], es[..UpTo(es, ts[k].w)])
  {
    var light, first := es[..UpTo(es, ts[k].w)], ts[..k + 1];
    forall i | 0 <= i < |first|
      ensures first[i] in light
    {
      assert first[i] == ts[i] && (i == k || Before(ts[i], ts[k])) && ts[i] in es;
      var m :| 0 <= m < |es| && es[m] == ts[i];
      assert light[m] == ts[i];
    }
  }

  lemma GreedyPrefixIsLight(n: nat, es: seq<Edge>, w: int, k: nat)
    requires ValidEdges(n, es) && Sorted(es) && k < |Greedy(n, es[..UpTo(es, w)])|
    ensures k < |Greedy(n, es)| && Greedy(n, es)[k].w <= w
  {
    var light := es[..UpTo(es, w)];
    GreedyAmong(n, light);
    GreedyPrefix(n, es, UpTo(es, w));
    var g := Greedy(n, light)[k];
    assert g in light;
    var m :| 0 <= m < |light| && light[m] == g;
    assert es[m] == g;
  }

  /** The k-th greedy edge is no heavier than the k-th edge of any spanning tree. */
  lemma KthIsLightest(n: nat, es: seq<Edge>, ts: seq<Edge>, k: nat)
    requires ValidEdges(n, es) && Sorted(es) && Sorted(ts) && SpanningTree(n, es, ts) && n >= 1 && k < |ts|
    ensures k < |Greedy(n, es)| && Greedy(n, es)[k].w <= ts[k].w
  {
    var light := es[..UpTo(es, ts[k].w)];
    LightAmong(es, ts, k);
    AmongHasMoreParts(n, ts, es);
    TreePrefix(n, ts, k + 1);
    AmongHasMoreParts(n, ts[..k + 1], light);
    GreedyKeepsParts(n, light);
    GreedyPrefixIsLight(n, es, ts[k].w, k);
  }

  lemma {:induction false} LighterEach(a: seq<Edge>, b: seq<Edge>)
    requires |a| == |b| && forall i :: 0 <= i < |a| ==> a[i].w <= b[i].w
    ensures Weight(a) <= Weight(b)
  {
    if a != [] {
      LighterEach(a[..|a| - 1], b[..|b| - 1]);
    }
  }

  lemma SameEdges(n: nat, es: seq<Edge>, ts: seq<Edge>)
    requires forall x :: x in es <==> x in ts
    requires Connects(n, es)
    ensures Connects(n, ts)
  {
    forall s: set<nat> | 0 in s && Closed(ts, s)
      ensures forall v: nat :: v < n ==> v in s
    {
      forall i | 0 <= i < |es|
        ensures es[i].u in s <==> es[i].v in s
      {
        assert es[i] in es;
        var k :| 0 <= k < |ts| && ts[k] == es[i];
      }
      assert Closed(es, s);
    }
  }

  /** Nothing is lighter than the greedy choice, and it connects everything if anything does. */
  lemma GreedyIsLightest(n: nat, es: seq<Edge>, ts: seq<Edge>)
    requires ValidEdges(n, es) && Sorted(es) && SpanningTree(n, es, ts) && n >= 1
    ensures |Greedy(n, es)| == n - 1 && Weight(Greedy(n, es)) <= Weight(ts)
  {
    var sorted := Sort(ts);
    SortSorts(ts);
    SameEdges(n, ts, sorted);
    forall i | 0 <= i < |sorted|
      ensures sorted[i] in es
    {
      assert sorted[i] in ts;
      var k :| 0 <= k < |ts| && ts[k] == sorted[i];
    }
    assert SpanningTree(n, es, sorted);
    var gs := Greedy(n, es);
    GreedyKeepsParts(n, es);
    AmongHasMoreParts(n, ts, es);
    AmongHasMoreParts(n, gs, es);
    OnePart(n, ts);
    OnePart(n, es);
    assert Labels(n, es)[0] in Values(Labels(n, es));
    assert |gs| == n - 1;
    forall k | 0 <= k < |gs|
      ensures gs[k].w <= sorted[k].w
    {
      KthIsLightest(n, es, sorted, k);
    }
    LighterEach(gs, sorted);
  }

  /** When the greedy choice has n - 1 edges it is a spanning tree. */
  lemma GreedyIsTree(n: nat, es: seq<Edge>)
    requires ValidEdges(n, es) && n >= 1 && |Greedy(n, es)| == n - 1
    ensures SpanningTree(n, es, Greedy(n, es))
  {
    GreedyKeepsParts(n, es);
    OnePart(n, Greedy(n, es));
  }

  // ----- the disjoint-set forest -----

  /** One vertex of the forest: its parent is in the same component and on a higher level. */
  ghost predicate Node(p: seq<nat>, root: seq<nat>, level: seq<nat>, top: nat, v: nat)
    requires |p| == |root| == |level| && v < |p|
  {
    p[v] < |p| && root[v] < |p| && root[p[v]] == root[v] && root[root[v]] == root[v] && (p[v] == v <==> root[v] == v)
    && level[v] <= top && (p[v] != v ==> level[v] < level[p[v]])
  }

  /** Parents p stand for the components given by `root`; levels grow towards the root. */
  ghost predicate Forest(p: seq<nat>, root: seq<nat>, level: seq<nat>, top: nat) {
    |p| == |root| == |level| && forall v: nat {:trigger Node(p, root, level, top, v)} :: v < |p| ==> Node(p, root, level, top, v)
  }

  /** find with path halving: the parents change, the components do not. */
  method Find(p: array<nat>, x: nat, ghost root: seq<nat>, ghost level: seq<nat>, ghost top: nat) returns (r: nat)
    requires x < p.Length && Forest(p[..], root, level, top)
    modifies p
    ensures Forest(p[..], root, level, top) && r < p.Length && r == root[x] && p[r] == r
  {
    r := x;
    assert Node(p[..], root, level, top, r);
    while p[r] != r
      invariant r < p.Length && Node(p[..], root, level, top, r) && Forest(p[..], root, level, top) && root[r] == root[x]
      decreases top - level[r]
    {
      HalvingKeeps(p[..], root, level, top, r);
      ghost var halved := p[..][r := p[p[r]]];
      p[r] := p[p[r]];
      assert p[..] == halved;
      r := p[r];
      assert Node(p[..], root, level, top, r);
    }
  }

  lemma HalvingKeeps(p: seq<nat>, root: seq<nat>, level: seq<nat>, top: nat, x: nat)
    requires Forest(p, root, level, top) && x < |p| && p[x] != x
    ensures p[x] < |p| && p[p[x]] < |p| && Forest(p[x := p[p[x]]], root, level, top) && level[x] < level[p[p[x]]] <= top
    ensures root[p[p[x]]] == root[x]
  {
    assert Node(p, root, level, top, x) && Node(p, root, level, top, p[x]) && Node(p, root, level, top, p[p[x]]);
    var q := p[x := p[p[x]]];
    forall v: nat {:trigger Node(q, root, level, top, v)} | v < |q|
      ensures Node(q, root, level, top, v)
    {
      assert Node(p, root, level, top, v);
    }
  }

  /** Which component a vertex belongs to once the roots a and b are joined. */
  function JoinRoots(root: seq<nat>, a: nat, b: nat): (r: seq<nat>)
    ensures |r| == |root|
  {
    seq(|root|, i requires 0 <= i < |root| => if root[i] == b then a else root[i])
  }

  lemma JoinKeeps(p: seq<nat>, root: seq<nat>, level: seq<nat>, top: nat, a: nat, b: nat)
    requires Forest(p, root, level, top) && a < |p| && b < |p| && a != b && p[a] == a && p[b] == b
    ensures var l := if level[a] > level[b] then level[a] else level[b] + 1;
            Forest(p[b := a], JoinRoots(root, a, b), level[a := l], top + 1)
    ensures root[a] == a && root[b] == b
  {
    var l := if level[a] > level[b] then level[a] else level[b] + 1;
    var q, r, h := p[b := a], JoinRoots(root, a, b), level[a := l];
    assert Node(p, root, level, top, a) && Node(p, root, level, top, b);
    forall v: nat {:trigger Node(q, r, h, top + 1, v)} | v < |q|
      ensures Node(q, r, h, top + 1, v)
    {
      assert Node(p, root, level, top, v);
      assert Node(p, root, level, top, root[v]);
    }
  }

  /** Two vertices have the same root exactly if they have the same label. */
  ghost predicate Agree(root: seq<nat>, ls: seq<nat>) {
    |root| == |ls| && forall i, j {:trigger root[i], root[j]} {:trigger ls[i], ls[j]} ::
      0 <= i < |ls| && 0 <= j < |ls| ==> (root[i] == root[j] <==> ls[i] == ls[j])
  }

  lemma AgreeAfterJoin(root: seq<nat>, ls: seq<nat>, e: Edge, a: nat, b: nat)
    requires Agree(root, ls) && e.u < |ls| && e.v < |ls| && root[e.u] != root[e.v]
    requires (a == root[e.u] && b == root[e.v]) || (a == root[e.v] && b == root[e.u])
    ensures Agree(JoinRoots(root, a, b), Merge(ls, e))
  {
    var r, l := JoinRoots(root, a, b), Merge(ls, e);
    forall i, j | 0 <= i < |ls| && 0 <= j < |ls|
      ensures r[i] == r[j] <==> l[i] == l[j]
    {
      assert (root[i] == root[e.u] <==> ls[i] == ls[e.u]) && (root[i] == root[e.v] <==> ls[i] == ls[e.v]);
      assert (root[j] == root[e.u] <==> ls[j] == ls[e.u]) && (root[j] == root[e.v] <==> ls[j] == ls[e.v]);
    }
  }

  /** The forest stands for the components of the edges seen so far. */
  ghost predicate Mirrors(n: nat, p: seq<nat>, root: seq<nat>, level: seq<nat>, top: nat, es: seq<Edge>)
    requires ValidEdges(n, es)
  {
    |p| == n && Forest(p, root, level, top) && Agree(root, Labels(n, es))
  }

  lemma MirrorsSkip(n: nat, p: seq<nat>, root: seq<nat>, level: seq<nat>, top: nat, es: seq<Edge>, e: Edge)
    requires ValidEdges(n, es) && e.u < n && e.v < n && Mirrors(n, p, root, level, top, es) && root[e.u] == root[e.v]
    ensures ValidEdges(n, es + [e]) && Mirrors(n, p, root, level, top, es + [e])
    ensures Greedy(n, es + [e]) == Greedy(n, es)
  {
    LabelsNext(n, es, e);
    MergeCounts(Labels(n, es), e);
    GreedyNext(n, es, e);
  }

  lemma MirrorsJoin(n: nat, p: seq<nat>, root: seq<nat>, level: seq<nat>, top: nat, es: seq<Edge>, e: Edge, a: nat, b: nat)
    returns (root': seq<nat>, level': seq<nat>)
    requires ValidEdges(n, es) && e.u < n && e.v < n && Mirrors(n, p, root, level, top, es) && root[e.u] != root[e.v]
    requires (a == root[e.u] && b == root[e.v]) || (a == root[e.v] && b == root[e.u])
    requires a < n && b < n && p[a] == a && p[b] == b
    ensures ValidEdges(n, es + [e]) && Mirrors(n, p[b := a], root', level', top + 1, es + [e])
    ensures Greedy(n, es + [e]) == Greedy(n, es) + [e]
  {
    JoinKeeps(p, root, level, top, a, b);
    AgreeAfterJoin(root, Labels(n, es), e, a, b);
    LabelsNext(n, es, e);
    GreedyNext(n, es, e);
    root' := JoinRoots(root, a, b);
    level' := level[a := if level[a] > level[b] then level[a] else level[b] + 1];
  }

  lemma GreedyNext(n: nat, es: seq<Edge>, e: Edge)
    requires ValidEdges(n, es) && e.u < n && e.v < n
    ensures ValidEdges(n, es + [e])
    ensures Greedy(n, es + [e]) == Greedy(n, es) + if Labels(n, es)[e.u] != Labels(n, es)[e.v] then [e] else []
  {
    assert (es + [e])[..|es|] == es;
  }

  function Own(n: nat): (r: seq<nat>)
    ensures |r| == n && forall i :: 0 <= i < n ==> r[i] == i
  {
    seq(n, i => i)
  }

  function Zeros(n: nat): (r: seq<nat>)
    ensures |r| == n && forall i :: 0 <= i < n ==> r[i] == 0
  {
    seq(n, _ => 0)
  }

  lemma OwnRoots(n: nat)
    ensures Mirrors(n, Own(n), Own(n), Zeros(n), 0, [])
  {
    forall v: nat {:trigger Node(Own(n), Own(n), Zeros(n), 0, v)} | v < n
      ensures Node(Own(n), Own(n), Zeros(n), 0, v)
    {
    }
  }

  /** One pass of the loop. */
  method Consider(n: nat, p: array<nat>, size: array<nat>, e: Edge, ghost done: seq<Edge>,
                  ghost root: seq<nat>, ghost level: seq<nat>, ghost top: nat)
    returns (chosen: bool, ghost root': seq<nat>, ghost level': seq<nat>, ghost top': nat)
    requires p.Length == n == size.Length && p != size && ValidEdges(n, done) && e.u < n && e.v < n
    requires Mirrors(n, p[..], root, level, top, done)
    modifies p, size
    ensures ValidEdges(n, done + [e]) && Mirrors(n, p[..], root', level', top', done + [e])
    ensures Greedy(n, done + [e]) == if chosen then Greedy(n, done) + [e] else Greedy(n, done)
  {
    var a := Find(p, e.u, root, level, top);
    var b := Find(p, e.v, root, level, top);
    root', level', top' := root, level, top;
    chosen := a != b;
    if !chosen {
      MirrorsSkip(n, p[..], root, level, top, done, e);
      return;
    }
    assert Node(p[..], root, level, top, a) && Node(p[..], root, level, top, e.u);
    if size[a] < size[b] {
      a, b := b, a;
    }
    root', level' := MirrorsJoin(n, p[..], root, level, top, done, e, a, b);
    top' := top + 1;
    ghost var joined := p[..][b := a];
    p[b] := a;
    size[a] := size[a] + size[b];
    assert p[..] == joined;
  }

  /** Number and weight of the greedy choice among these edges. */
  ghost predicate Weighed(n: nat, es: seq<Edge>, cnt: nat, ans: int)
    requires ValidEdges(n, es)
  {
    cnt == |Greedy(n, es)| && ans == Weight(Greedy(n, es))
  }

  lemma WeighedNext(n: nat, es: seq<Edge>, e: Edge, chosen: bool, cnt: nat, ans: int)
    requires ValidEdges(n, es) && ValidEdges(n, es + [e]) && Weighed(n, es, cnt, ans)
    requires Greedy(n, es + [e]) == if chosen then Greedy(n, es) + [e] else Greedy(n, es)
    ensures if chosen then Weighed(n, es + [e], cnt + 1, ans + e.w) else Weighed(n, es + [e], cnt, ans)
  {
    WeightNext(Greedy(n, es), e);
  }

  /** The loop over the sorted edges counts and weighs the greedy choice. */
  method Choose(n: nat, es: seq<Edge>) returns (ans: int, cnt: nat)
    requires ValidEdges(n, es)
    ensures Weighed(n, es, cnt, ans)
  {
    var p := new nat[n](i => i);
    var size := new nat[n](_ => 1);
    ans, cnt := 0, 0;
    ghost var root, level, top, done: seq<Edge> := Own(n), Zeros(n), 0, [];
    OwnRoots(n);
    assert p[..] == Own(n);
    for i := 0 to |es|
      invariant done == es[..i] && ValidEdges(n, done) && Mirrors(n, p[..], root, level, top, done) && Weighed(n, done, cnt, ans)
    {
      var e := es[i];
      var chosen;
      chosen, root, level, top := Consider(n, p, size, e, done, root, level, top);
      WeighedNext(n, done, e, chosen, cnt, ans);
      if chosen {
        ans, cnt := ans + e.w, cnt + 1;
      }
      done := done + [e];
    }
    assert done == es;
  }

  /** The program prints the least weight of a spanning tree, and -1 when there is none. */
  method Kruskal(n: nat, edges: seq<Edge>) returns (printed: int)
    requires n >= 1 && ValidEdges(n, edges)
    ensures (exists ts :: SpanningTree(n, edges, ts)) ==>
              (exists ts :: SpanningTree(n, edges, ts) && Weight(ts) == printed) &&
              forall ts :: SpanningTree(n, edges, ts) ==> printed <= Weight(ts)
    ensures !(exists ts :: SpanningTree(n, edges, ts)) ==> printed == -1
  {
    SortValid(n, edges);
    var ans, cnt := Choose(n, Sort(edges));
    printed := if cnt == n - 1 then ans else -1;
    GreedyAnswers(n, edges, printed);
  }

  lemma WeightNext(es: seq<Edge>, e: Edge)
    ensures Weight(es + [e]) == Weight(es) + e.w
  {
    assert (es + [e])[..|es|] == es;
  }

  lemma SortValid(n: nat, edges: seq<Edge>)
    requires ValidEdges(n, edges)
    ensures ValidEdges(n, Sort(edges))
  {
    SortSorts(edges);
    forall i | 0 <= i < |Sort(edges)|
      ensures Sort(edges)[i].u < n && Sort(edges)[i].v < n
    {
      assert Sort(edges)[i] in edges;
    }
  }

  /** Sorting changes which trees come first, not which trees there are. */
  lemma SortedTrees(n: nat, edges: seq<Edge>, ts: seq<Edge>)
    ensures SpanningTree(n, edges, ts) <==> SpanningTree(n, Sort(edges), ts)
  {
    SortSorts(edges);
  }

  lemma GreedyAnswers(n: nat, edges: seq<Edge>, printed: int)
    requires n >= 1 && ValidEdges(n, edges) && ValidEdges(n, Sort(edges))
    requires printed == if |Greedy(n, Sort(edges))| == n - 1 then Weight(Greedy(n, Sort(edges))) else -1
    ensures (exists ts :: SpanningTree(n, edges, ts)) ==>
              (exists ts :: SpanningTree(n, edges, ts) && Weight(ts) == printed) &&
              forall ts :: SpanningTree(n, edges, ts) ==> printed <= Weight(ts)
    ensures !(exists ts :: SpanningTree(n, edges, ts)) ==> printed == -1
  {
    var es := Sort(edges);
    SortSorts(edges);
    forall ts | SpanningTree(n, edges, ts)
      ensures |Greedy(n, es)| == n - 1 && Weight(Greedy(n, es)) <= Weight(ts)
    {
      SortedTrees(n, edges, ts);
      GreedyIsLightest(n, es, ts);
    }
    if |Greedy(n, es)| == n - 1 {
      GreedyIsTree(n, es);
      SortedTrees(n, edges, Greedy(n, es));
    }
  }
}
