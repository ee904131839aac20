// The configuration store: each method is one transaction that updates the rows in place.
module ConfigStore {
  import opened ConfigTables
  import opened ConfigGraph

  ghost predicate AllSound(s: State, vs: seq<nat>, accepts: Body -> bool)
    requires Typed(s)
  {
    forall v :: v in vs ==> v in s.versions && Sound(s, v, accepts)
  }

  /** The traversal below the direct references `start`: what is visited is settled, and what still waits is
      sound if the direct references are. The queue may hold duplicates. */
  ghost predicate Checking(s: State, visited: set<nat>, queue: seq<nat>, start: seq<nat>, accepts: Body -> bool)
    requires Typed(s)
  {
    var seen := visited + (set v | v in queue);
    seen <= s.versions.Keys && (forall v :: v in start ==> v in seen) &&
    (forall v :: v in visited ==> v in s.versions && Settled(s, seen, v, accepts)) &&
    (AllSound(s, start, accepts) ==> AllSound(s, queue, accepts))
  }

  lemma SkipKeeps(s: State, visited: set<nat>, rest: seq<nat>, item: nat, start: seq<nat>, accepts: Body -> bool)
    requires Typed(s) && Checking(s, visited, rest + [item], start, accepts) && item in visited
    ensures Checking(s, visited, rest, start, accepts)
  {
    assert visited + (set v | v in rest) == visited + (set v | v in rest + [item]);
    assert forall v :: v in rest ==> v in rest + [item];
  }

  lemma VisitKeeps(s: State, visited: set<nat>, rest: seq<nat>, item: nat, children: seq<nat>, start: seq<nat>, accepts: Body -> bool)
    requires Typed(s) && Checking(s, visited, rest + [item], start, accepts) && item in s.versions
    requires accepts(s.versions[item].body) && CredentialOk(s, s.versions[item].body)
    requires forall c :: c in children <==> c in References(s.versions[item].body)
    requires forall c :: c in children ==> c in s.versions && !Disabled(s, c)
    ensures Checking(s, visited + {item}, rest + children, start, accepts)
  {
    var seen := visited + (set v | v in rest + [item]);
    var more := visited + {item} + (set v | v in rest + children);
    assert more == seen + (set v | v in children);
    forall v | v in visited + {item}
      ensures v in s.versions && Settled(s, more, v, accepts)
    {
      assert v == item || Settled(s, seen, v, accepts);
    }
    if AllSound(s, start, accepts) {
      assert item in rest + [item] && Sound(s, item, accepts);
      forall v | v in rest + children
        ensures v in s.versions && Sound(s, v, accepts)
      {
        assert v in rest ==> v in rest + [item];
      }
    }
  }

  /** Checks one version; its references are queued. */
  method CheckVersion(s: State, v: nat, accepts: Body -> bool) returns (ok: bool, children: seq<nat>)
    requires Typed(s) && v in s.versions
    ensures ok ==> forall c :: c in children <==> c in References(s.versions[v].body)
    ensures ok ==> accepts(s.versions[v].body) && CredentialOk(s, s.versions[v].body)
                   && forall c :: c in children ==> c in s.versions && !Disabled(s, c)
    ensures !ok ==> !Sound(s, v, accepts)
  {
    assert VersionTyped(s, v);
    var body := s.versions[v].body;
    children := [];
    if !accepts(body) || !CredentialOk(s, body) {
      return false, children;
    }
    var refs := References(body);
    var todo := refs.Keys;
    while todo != {}
      invariant todo <= refs.Keys && forall c :: c in children <==> c in refs && c !in todo
      invariant forall c :: c in children ==> c in s.versions && !Disabled(s, c)
      decreases |todo|
    {
      var c :| c in todo;
      todo := todo - {c};
      if KindOf(s, c) != refs[c] || Disabled(s, c) {
        return false, children;
      }
      children := children + [c];
    }
    ok := true;
  }

  lemma OneLess(all: set<nat>, visited: set<nat>, v: nat)
    requires v in all && v !in visited
    ensures |all - (visited + {v})| < |all - visited|
  {
    assert all - visited == (all - (visited + {v})) + {v};
  }

  /** One turn of the worklist. */
  method CheckNext(s: State, before: set<nat>, waiting: seq<nat>, ghost start: seq<nat>, accepts: Body -> bool)
    returns (ok: bool, visited: set<nat>, queue: seq<nat>)
    requires Typed(s) && Checking(s, before, waiting, start, accepts) && waiting != []
    ensures if ok then Checking(s, visited, queue, start, accepts) else !AllSound(s, start, accepts)
    ensures ok ==> |s.versions.Keys - visited| < |s.versions.Keys - before| || (visited == before && |queue| < |waiting|)
  {
    var item, rest := waiting[|waiting| - 1], waiting[..|waiting| - 1];
    assert waiting == rest + [item];
    if item in before {
      SkipKeeps(s, before, rest, item, start, accepts);
      return true, before, rest;
    }
    assert item in waiting && item in s.versions;
    OneLess(s.versions.Keys, before, item);
    var children;
    ok, children := CheckVersion(s, item, accepts);
    visited, queue := before + {item}, rest + children;
    if ok {
      VisitKeeps(s, before, rest, item, children, start, accepts);
    }
  }

  lemma NothingVisitedYet(s: State, start: seq<nat>, accepts: Body -> bool)
    requires Typed(s) && forall v :: v in start ==> v in s.versions
    ensures Checking(s, {}, start, start, accepts)
  {
  }

  lemma AllVisited(s: State, visited: set<nat>, start: seq<nat>, accepts: Body -> bool)
    requires Typed(s) && Checking(s, visited, [], start, accepts)
    ensures AllSound(s, start, accepts)
  {
    forall v | v in start
      ensures v in s.versions && Sound(s, v, accepts)
    {
      var none: seq<nat> := [];
      assert visited + (set x | x in none) == visited;
      SettledIsSound(s, visited, v, accepts);
    }
  }

  /** The worklist over everything below the direct references. */
  method CheckBelow(s: State, start: seq<nat>, accepts: Body -> bool) returns (ok: bool)
    requires Typed(s) && forall v :: v in start ==> v in s.versions
    ensures ok <==> AllSound(s, start, accepts)
  {
    var visited: set<nat>, queue := {}, start;
    NothingVisitedYet(s, start, accepts);
    ghost var left := |s.versions.Keys - visited|;
    while queue != []
      invariant Checking(s, visited, queue, start, accepts) && left == |s.versions.Keys - visited|
      decreases left, |queue|
    {
      ok, visited, queue := CheckNext(s, visited, queue, start, accepts);
      if !ok {
        return;
      }
      left := |s.versions.Keys - visited|;
    }
    AllVisited(s, visited, start, accepts);
    return true;
  }

  predicate Direct(s: State, v: nat, kind: Kind, kept: set<nat>) {
    v in s.versions && KindOf(s, v) == kind && !Disabled(s, v) && (s.versions[v].archived ==> v in kept)
  }

  /** The skills seen so far, by key. */
  ghost predicate SkillKeys(s: State, refs: map<nat, Kind>, seen: seq<nat>, skills: map<string, nat>) {
    (forall v :: v in seen && v in refs && v in s.versions && refs[v] == Skill ==>
       s.versions[v].rid.key in skills && skills[s.versions[v].rid.key] == v) &&
    (forall k :: k in skills ==>
       skills[k] in seen && skills[k] in refs && skills[k] in s.versions && refs[skills[k]] == Skill && s.versions[skills[k]].rid.key == k)
  }

  ghost predicate DifferentKeys(s: State, refs: map<nat, Kind>) {
    forall v, w :: v in refs && w in refs && v in s.versions && w in s.versions && refs[v] == Skill && refs[w] == Skill && v != w ==>
      s.versions[v].rid.key != s.versions[w].rid.key
  }

  /** The direct references, one by one. */
  method CheckDirect(s: State, refs: map<nat, Kind>, kept: set<nat>) returns (ok: bool, start: seq<nat>)
    ensures ok <==> (forall v :: v in refs ==> Direct(s, v, refs[v], kept)) && DifferentKeys(s, refs)
    ensures ok ==> forall v :: v in start <==> v in refs
  {
    var todo := refs.Keys;
    var skills: map<string, nat> := map[];
    start := [];
    while todo != {}
      invariant todo <= refs.Keys && forall v :: v in start <==> v in refs && v !in todo
      invariant forall v :: v in start ==> Direct(s, v, refs[v], kept)
      invariant SkillKeys(s, refs, start, skills)
      decreases |todo|
    {
      var v :| v in todo;
      todo := todo - {v};
      if !Direct(s, v, refs[v], kept) {
        return false, start;
      }
      if refs[v] == Skill {
        var key := s.versions[v].rid.key;
        if key in skills {
          assert skills[key] != v;
          return false, start;
        }
        skills := skills[key := v];
      }
      start := start + [v];
    }
    ok := true;
  }

  /** _check_references: the direct references one by one, then the worklist. */
  method CheckReferences(s: State, body: Body, kept: set<nat>, accepts: Body -> bool) returns (ok: bool)
    requires Typed(s)
    ensures ok <==> ReferencesOk(s, body, kept, accepts)
  {
    if !CredentialOk(s, body) || !DistinctReferences(body) {
      return false;
    }
    var start;
    ok, start := CheckDirect(s, References(body), kept);
    if ok {
      ok := CheckBelow(s, start, accepts);
    }
  }

  class ConfigurationStore {
    var resources: map<Rid, Resource>
    var versions: map<nat, Version>
    var links: set<(nat, nat)>
    var bindings: map<nat, nat>
    var credentials: map<nat, bool>
    var audits: map<string, Audit>

    function Snapshot(): State
      reads this
    {
      State(resources, versions, links, bindings, credentials, audits)
    }

    /** The tables are in order, as they are in every reachable state. */
    ghost predicate Valid()
      reads this
    {
      Inv(Snapshot())
    }

    constructor ()
      ensures Valid() && Snapshot() == Reached(Start)
    {
      resources, versions, links, bindings, credentials, audits := map[], map[], {}, map[], map[], map[];
      new;
      NothingYet();
    }

    /** The rows of a save that was accepted. */
    method Insert(write: Write, body: Body, id: nat)
      modifies this
      ensures Snapshot() == Saved(old(Snapshot()), write, body, id)
    {
      var resource := if write.rid in resources then resources[write.rid] else Resource(None, false);
      var before := resource.current;
      if before.Some? && before.value in versions {
        versions := versions[before.value := versions[before.value].(archived := true)];
      }
      versions := versions[id := Version(write.rid, before, body, false)];
      links := links + (set c | c in References(body) :: (id, c));
      if body.ProviderBody? {
        bindings := bindings[id := body.credential];
      }
      resources := resources[write.rid := Resource(Some(id), resource.disabled)];
      audits := audits[write.request := Audit(write.actor, SaveOf(write, body), write.rid, before, Some(id))];
    }

    method CreateOrReplace(write: Write, body: Body, checks: Checks, id: nat) returns (result: Result)
      requires Valid() && Possible(Snapshot(), Save(write, body, checks, id))
      modifies this
      ensures Valid()
      ensures result == SaveResult(old(Snapshot()), write, body, checks, id)
      ensures Snapshot() == Next(old(Snapshot()), Save(write, body, checks, id))
      ensures result.Done? ==>
                result.id == id && id in versions && versions[id] == Version(write.rid, write.expected, body, false)
                && write.rid in resources && resources[write.rid].current == Some(id)
    {
      StepKeeps(Snapshot(), Save(write, body, checks, id));
      if write.request in audits {
        assert AuditOk(Snapshot(), audits[write.request]);
        return Replay(audits[write.request], write.actor, SaveOf(write, body));
      }
      var resource := if write.rid in resources then resources[write.rid] else Resource(None, false);
      var before := resource.current;
      if before != write.expected {
        return Stale;
      }
      if !checks.valid || !checks.accepts(body) || !SourceOk(Snapshot(), write, body) {
        return Refused;
      }
      var ok := CheckReferences(Snapshot(), body, OldLinks(Snapshot(), Preserved(before, write.source)), checks.accepts);
      if !ok {
        return Refused;
      }
      Insert(write, body, id);
      return Done(id);
    }

    method ChangeState(write: Write, action: Action) returns (result: Result)
      requires Valid()
      modifies this
      ensures Valid()
      ensures result == ChangeResult(old(Snapshot()), write, action)
      ensures Snapshot() == Next(old(Snapshot()), Change(write, action))
      ensures result.Done? && action != Archive ==>
                versions == old(versions) && write.rid in resources && (resources[write.rid].disabled <==> action == Disable)
      ensures result.Done? && action == Archive ==>
                resources == old(resources) && result.id in versions && versions[result.id].archived
    {
      StepKeeps(Snapshot(), Change(write, action));
      if write.request in audits {
        assert AuditOk(Snapshot(), audits[write.request]);
        return Replay(audits[write.request], write.actor, ChangeOf(write, action));
      }
      if write.rid !in resources {
        return Missing;
      }
      assert CurrentOk(Snapshot(), write.rid);
      var current := resources[write.rid].current.value;
      if write.expected != Some(current) {
        return Stale;
      }
      if action == Archive {
        versions := versions[current := versions[current].(archived := true)];
      } else {
        resources := resources[write.rid := resources[write.rid].(disabled := action == Disable)];
      }
      audits := audits[write.request := Audit(write.actor, ChangeOf(write, action), write.rid, Some(current), None)];
      return Done(current);
    }
  }
}
