// Loading the configuration of an agent: a worklist over one snapshot, and the SQL predicate of fixed depth
// that must agree with it.
module ConfigGraph {
  import opened ConfigTables

  function Any(): Body -> bool {
    (body: Body) => true
  }

  /** A version and all that it refers to, directly or not. */
  ghost function Descendants(s: State, v: nat): set<nat>
    requires Typed(s) && v in s.versions
    decreases Rank(KindOf(s, v))
  {
    assert VersionTyped(s, v);
    {v} + (set c, d | c in References(s.versions[v].body).Keys && d in Descendants(s, c) :: d)
  }

  // ---- the predicate of the query side ----

  predicate CredentialBound(s: State, v: nat) {
    v in s.bindings && s.bindings[v] in s.credentials && !s.credentials[s.bindings[v]]
  }

  ghost predicate DependenciesAvailable(s: State, v: nat, depth: nat)
    requires v in s.versions
    decreases depth
  {
    (KindOf(s, v) == Provider ==> CredentialBound(s, v)) &&
    if depth == 0 then forall c: nat :: (v, c) !in s.links
    else forall c: nat :: (v, c) in s.links && c in s.versions ==> !Disabled(s, c) && DependenciesAvailable(s, c, depth - 1)
  }

  lemma LinksAreReferences(s: State, v: nat)
    requires Typed(s) && LinksOk(s) && v in s.versions
    ensures VersionTyped(s, v)
    ensures forall c: nat :: (v, c) in s.links <==> c in References(s.versions[v].body)
    ensures forall c :: c in References(s.versions[v].body) ==> c in s.versions && Rank(KindOf(s, c)) < Rank(KindOf(s, v))
    ensures (KindOf(s, v) == Provider ==> CredentialBound(s, v)) <==> CredentialOk(s, s.versions[v].body)
  {
    assert VersionTyped(s, v);
  }

  lemma {:induction false} AvailableThenSound(s: State, v: nat, depth: nat)
    requires Typed(s) && LinksOk(s) && v in s.versions && depth >= Rank(KindOf(s, v)) && DependenciesAvailable(s, v, depth)
    ensures Sound(s, v, Any())
    decreases depth
  {
    LinksAreReferences(s, v);
    forall c | c in References(s.versions[v].body)
      ensures !Disabled(s, c) && Sound(s, c, Any())
    {
      assert (v, c) in s.links;
      AvailableThenSound(s, c, depth - 1);
    }
  }

  lemma {:induction false} SoundThenAvailable(s: State, v: nat, depth: nat)
    requires Typed(s) && LinksOk(s) && v in s.versions && depth >= Rank(KindOf(s, v)) && Sound(s, v, Any())
    ensures DependenciesAvailable(s, v, depth)
    decreases depth
  {
    LinksAreReferences(s, v);
    forall c | c in References(s.versions[v].body)
      ensures depth > 0 && !Disabled(s, c) && DependenciesAvailable(s, c, depth - 1)
    {
      assert Sound(s, c, Any());
      SoundThenAvailable(s, c, depth - 1);
    }
  }

  /** The predicate sees everything below a version as soon as its depth reaches the rank of the version. */
  lemma AvailableIsSound(s: State, v: nat, depth: nat)
    requires Typed(s) && LinksOk(s) && v in s.versions && depth >= Rank(KindOf(s, v))
    ensures DependenciesAvailable(s, v, depth) <==> Sound(s, v, Any())
  {
    if DependenciesAvailable(s, v, depth) {
      AvailableThenSound(s, v, depth);
    }
    if Sound(s, v, Any()) {
      SoundThenAvailable(s, v, depth);
    }
  }

  // ---- load_graph ----

  /** Everything that one visit checks. */
  ghost predicate Settled(s: State, seen: set<nat>, v: nat, accepts: Body -> bool)
    requires v in s.versions
  {
    accepts(s.versions[v].body) && CredentialOk(s, s.versions[v].body) &&
    forall c :: c in References(s.versions[v].body) ==> c in seen && c in s.versions && !Disabled(s, c)
  }

  lemma {:induction false} SettledIsSound(s: State, seen: set<nat>, v: nat, accepts: Body -> bool)
    requires Typed(s) && v in seen && forall x :: x in seen ==> x in s.versions && Settled(s, seen, x, accepts)
    ensures Sound(s, v, accepts) && Descendants(s, v) <= seen
    decreases Rank(KindOf(s, v))
  {
    assert VersionTyped(s, v);
    forall c | c in References(s.versions[v].body)
      ensures Sound(s, c, accepts) && Descendants(s, c) <= seen
    {
      SettledIsSound(s, seen, c, accepts);
    }
  }

  lemma {:induction false} DescendantsClosed(s: State, root: nat, v: nat, c: nat)
    requires Typed(s) && root in s.versions && v in Descendants(s, root) && v in s.versions && c in References(s.versions[v].body)
    ensures c in s.versions && c in Descendants(s, root)
    decreases Rank(KindOf(s, root))
  {
    assert VersionTyped(s, root) && VersionTyped(s, v);
    if v == root {
      assert c in Descendants(s, c);
    } else {
      var b :| b in References(s.versions[root].body).Keys && v in Descendants(s, b);
      DescendantsClosed(s, b, v, c);
    }
  }

  ghost predicate Closed(s: State, all: set<nat>) {
    forall v :: v in all ==> v in s.versions && References(s.versions[v].body).Keys <= all
  }

  lemma DescendantsAreClosed(s: State, root: nat)
    requires Typed(s) && root in s.versions
    ensures Closed(s, Descendants(s, root)) && root in Descendants(s, root)
  {
    forall v | v in Descendants(s, root)
      ensures v in s.versions && References(s.versions[v].body).Keys <= Descendants(s, root)
    {
      DescendantStored(s, root, v);
      forall c | c in References(s.versions[v].body)
        ensures c in Descendants(s, root)
      {
        DescendantsClosed(s, root, v, c);
      }
    }
  }

  lemma {:induction false} DescendantStored(s: State, root: nat, v: nat)
    requires Typed(s) && root in s.versions && v in Descendants(s, root)
    ensures v in s.versions && (Sound(s, root, Any()) ==> Sound(s, v, Any()))
    decreases Rank(KindOf(s, root))
  {
    assert VersionTyped(s, root);
    if v != root {
      var b :| b in References(s.versions[root].body).Keys && v in Descendants(s, b);
      DescendantStored(s, b, v);
    }
  }

  /** The traversal sees nothing outside `all`, and copies the rows as they are. */
  ghost predicate Copied(s: State, all: set<nat>, graph: map<nat, Version>) {
    graph.Keys <= all && forall v :: v in graph ==> v in s.versions && graph[v] == s.versions[v]
  }

  /** Visits the references of one version; the ones not seen yet join the graph and the queue. */
  method Visit(s: State, ghost all: set<nat>, item: nat, before: map<nat, Version>, rest: seq<nat>)
    returns (ok: bool, graph: map<nat, Version>, queue: seq<nat>)
    requires Typed(s) && Closed(s, all) && Copied(s, all, before) && item in before
    ensures Copied(s, all, graph) && before.Keys <= graph.Keys
    ensures forall v :: v in queue <==> v in rest || (v in graph && v !in before)
    ensures graph.Keys == before.Keys ==> queue == rest
    ensures if ok then Settled(s, graph.Keys, item, Any()) else !Sound(s, item, Any())
  {
    graph, queue := before, rest;
    assert VersionTyped(s, item) && item in all;
    var body := s.versions[item].body;
    if !CredentialOk(s, body) {
      return false, graph, queue;
    }
    var refs := References(body);
    var todo := refs.Keys;
    while todo != {}
      invariant todo <= refs.Keys && Copied(s, all, graph) && before.Keys <= graph.Keys
      invariant forall v :: v in queue <==> v in rest || (v in graph && v !in before)
      invariant graph.Keys == before.Keys ==> queue == rest
      invariant forall c :: c in refs && c !in todo ==> c in graph && !Disabled(s, c)
      decreases |todo|
    {
      var c :| c in todo;
      todo := todo - {c};
      if c !in graph {
        graph, queue := graph[c := s.versions[c]], queue + [c];
      }
      if KindOf(s, c) != refs[c] || Disabled(s, c) {
        return false, graph, queue;
      }
    }
    return true, graph, queue;
  }

  /** The current version of an agent that is neither archived nor disabled. */
  predicate Runnable(s: State, key: string) {
    var rid := Rid(Agent, key);
    rid in s.resources && s.resources[rid].current.Some? && s.resources[rid].current.value in s.versions
    && !s.versions[s.resources[rid].current.value].archived && !s.resources[rid].disabled
  }

  /** Everything seen is settled, but for what is still queued. */
  ghost predicate Progress(s: State, all: set<nat>, graph: map<nat, Version>, queue: seq<nat>) {
    Copied(s, all, graph) && (forall v :: v in queue ==> v in graph) &&
    forall v :: v in graph && v !in queue ==> Settled(s, graph.Keys, v, Any())
  }

  lemma VisitMakesProgress(s: State, all: set<nat>, before: map<nat, Version>, rest: seq<nat>, item: nat,
                           graph: map<nat, Version>, queue: seq<nat>)
    requires Progress(s, all, before, rest + [item]) && Copied(s, all, graph)
    requires before.Keys <= graph.Keys && item in graph && Settled(s, graph.Keys, item, Any())
    requires forall v :: v in queue <==> v in rest || (v in graph && v !in before)
    ensures Progress(s, all, graph, queue)
  {
    forall v | v in graph && v !in queue
      ensures Settled(s, graph.Keys, v, Any())
    {
      assert v == item || Settled(s, before.Keys, v, Any());
    }
  }

  lemma FewerLeft(all: set<nat>, before: set<nat>, after: set<nat>) returns (left: nat)
    requires before <= after <= all
    ensures left == |all - after| && (left < |all - before| || before == after)
  {
    left := |all - after|;
    if before != after {
      var v :| v in after && v !in before;
      assert all - before == (all - after) + (after - before);
      assert v in after - before;
    }
  }

  lemma NothingSettledYet(s: State, all: set<nat>, root: nat)
    requires Closed(s, all) && root in all
    ensures Progress(s, all, map[root := s.versions[root]], [root])
  {
  }

  /** One turn of the loop: the last version of the queue is taken and visited. */
  method Advance(s: State, ghost all: set<nat>, before: map<nat, Version>, waiting: seq<nat>)
    returns (broken: Option<nat>, graph: map<nat, Version>, queue: seq<nat>)
    requires Typed(s) && Closed(s, all) && Progress(s, all, before, waiting) && waiting != []
    ensures broken.Some? ==> broken.value in all && broken.value in s.versions && !Sound(s, broken.value, Any())
    ensures broken == None ==> Progress(s, all, graph, queue) && before.Keys <= graph.Keys
    ensures broken == None && graph.Keys == before.Keys ==> |queue| < |waiting|
  {
    var item, rest := waiting[|waiting| - 1], waiting[..|waiting| - 1];
    assert waiting == rest + [item];
    var ok;
    ok, graph, queue := Visit(s, all, item, before, rest);
    if !ok {
      return Some(item), graph, queue;
    }
    VisitMakesProgress(s, all, before, rest, item, graph, queue);
    broken := None;
  }

  method Explore(s: State, ghost all: set<nat>, root: nat) returns (broken: Option<nat>, graph: map<nat, Version>)
    requires Typed(s) && Closed(s, all) && root in all
    ensures broken.Some? ==> broken.value in all && broken.value in s.versions && !Sound(s, broken.value, Any())
    ensures broken == None ==> Progress(s, all, graph, []) && root in graph
  {
    graph := map[root := s.versions[root]];
    var queue: seq<nat> := [root];
    NothingSettledYet(s, all, root);
    ghost var left := |all - graph.Keys|;
    while queue != []
      invariant Progress(s, all, graph, queue) && root in graph && left == |all - graph.Keys|
      decreases left, |queue|
    {
      ghost var before := graph.Keys;
      broken, graph, queue := Advance(s, all, graph, queue);
      if broken.Some? {
        return;
      }
      left := FewerLeft(all, before, graph.Keys);
    }
    broken := None;
  }

  method Traverse(s: State, root: nat) returns (result: Option<map<nat, Version>>)
    requires Typed(s) && root in s.versions
    ensures result.Some? <==> Sound(s, root, Any())
    ensures result.Some? ==> result.value.Keys == Descendants(s, root)
                             && forall v :: v in result.value ==> v in s.versions && result.value[v] == s.versions[v]
  {
    DescendantsAreClosed(s, root);
    var broken, graph := Explore(s, Descendants(s, root), root);
    if broken.Some? {
      DescendantStored(s, root, broken.value);
      return None;
    }
    SettledIsSound(s, graph.Keys, root, Any());
    return Some(graph);
  }

  /** The traversal ends, returns exactly the versions reachable from the root, and succeeds exactly when the
      query's predicate of depth 3 says that the agent is available. */
  method LoadGraph(s: State, key: string) returns (result: Option<(nat, map<nat, Version>)>)
    requires Inv(s)
    ensures result.Some? <==>
            Runnable(s, key) && DependenciesAvailable(s, s.resources[Rid(Agent, key)].current.value, 3)
    ensures result.Some? ==>
              var (root, graph) := result.value;
              Some(root) == s.resources[Rid(Agent, key)].current && graph.Keys == Descendants(s, root)
              && forall v :: v in graph ==> v in s.versions && graph[v] == s.versions[v]
  {
    if !Runnable(s, key) {
      return None;
    }
    var rid := Rid(Agent, key);
    assert CurrentOk(s, rid);
    var root := s.resources[rid].current.value;
    AvailableIsSound(s, root, 3);
    var graph := Traverse(s, root);
    return if graph.Some? then Some((root, graph.value)) else None;
  }
}
