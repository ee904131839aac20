// Configuration, effects: what saves and switches leave behind, over every run.
module ConfigEffects {
  import opened ConfigTables
  import opened ConfigGraph

  /** This step switches the resource with this action. */
  ghost predicate Switches(before: Trace, step: Step, rid: Rid, action: Action)
    requires Legal(before)
  {
    step.Change? && step.write.rid == rid && step.action == action && ChangeResult(Reached(before), step.write, action).Done?
  }

  /** The last accepted switch of this resource turned it off. */
  ghost predicate SwitchedOff(t: Trace, rid: Rid)
    requires Legal(t)
  {
    t.Then? &&
    if Switches(t.before, t.step, rid, Disable) then true
    else if Switches(t.before, t.step, rid, Enable) then false
    else SwitchedOff(t.before, rid)
  }

  /** This step retires the version: by an archive of it, or by a save that replaces it. */
  ghost predicate Retires(s: State, step: Step, rid: Rid, v: nat)
    requires Inv(s)
  {
    match step
    case Save(write, body, checks, id) => write.rid == rid && write.expected == Some(v) && SaveResult(s, write, body, checks, id).Done?
    case Change(write, action) =>
      write.rid == rid && write.expected == Some(v) && action == Archive && ChangeResult(s, write, action).Done?
    case SetCredential(_, _) => false
  }

  ghost predicate Retired(t: Trace, rid: Rid, v: nat)
    requires Legal(t)
  {
    t.Then? && (Retires(Reached(t.before), t.step, rid, v) || Retired(t.before, rid, v))
  }

  lemma SwitchStep(s: State, step: Step, rid: Rid)
    requires Inv(s) && Possible(s, step)
    ensures Lookup(Next(s, step), rid).disabled ==
            if step.Change? && step.write.rid == rid && step.action != Archive && ChangeResult(s, step.write, step.action).Done?
            then step.action == Disable else Lookup(s, rid).disabled
  {
    if step.Change? {
      assert step.write.rid in s.resources ==> CurrentOk(s, step.write.rid);
    }
  }

  /** In every reachable state a resource is disabled exactly if its last switch turned it off: saves, archives
      and everything that happens to other resources leave the switch alone. */
  lemma {:induction false} DisabledIsSwitchedOff(t: Trace, rid: Rid)
    requires Legal(t)
    ensures Lookup(Reached(t), rid).disabled <==> SwitchedOff(t, rid)
  {
    if t.Then? {
      DisabledIsSwitchedOff(t.before, rid);
      SwitchStep(Reached(t.before), t.step, rid);
    }
  }

  /** What a version holds never changes, and it is archived only by its own archive or by its successor. */
  lemma VersionStep(s: State, step: Step, v: nat)
    requires Inv(s) && Possible(s, step) && v in s.versions
    ensures v in Next(s, step).versions
    ensures var x, y := s.versions[v], Next(s, step).versions[v];
            y == x.(archived := y.archived) && (y.archived <==> x.archived || Retires(s, step, x.rid, v))
  {
    if !step.SetCredential? && step.write.rid in s.resources {
      assert CurrentOk(s, step.write.rid);
    }
  }

  lemma ChangeAddsNothing(s: State, write: Write, action: Action)
    requires Inv(s)
    ensures Next(s, Change(write, action)).versions.Keys == s.versions.Keys
  {
    assert write.rid in s.resources ==> CurrentOk(s, write.rid);
  }

  lemma NewVersionStep(s: State, step: Step, v: nat)
    requires Inv(s) && Possible(s, step) && v !in s.versions && v in Next(s, step).versions
    ensures step.Save? && SaveResult(s, step.write, step.body, step.checks, step.id).Done? && step.id == v
    ensures Next(s, step).versions[v] == Version(step.write.rid, step.write.expected, step.body, false)
  {
    if step.Change? {
      ChangeAddsNothing(s, step.write, step.action);
    } else if step.Save? {
      SavedVersions(s, step.write, step.body, step.id);
    }
  }

  lemma OnlyKnownRetire(s: State, step: Step, rid: Rid, v: nat)
    requires Inv(s) && v !in s.versions
    ensures !Retires(s, step, rid, v)
  {
    if rid in s.resources {
      assert CurrentOk(s, rid);
    }
  }

  lemma {:induction false} RetiredWasThere(t: Trace, rid: Rid, v: nat)
    requires Legal(t) && Retired(t, rid, v)
    ensures v in Reached(t).versions && Reached(t).versions[v].rid == rid
  {
    var s := Reached(t.before);
    if Retired(t.before, rid, v) {
      RetiredWasThere(t.before, rid, v);
    } else {
      assert rid in s.resources ==> CurrentOk(s, rid);
    }
    VersionStep(s, t.step, v);
  }

  /** In every reachable state a version is archived exactly if it was archived itself or replaced by a save. */
  lemma {:induction false} ArchivedIsRetired(t: Trace, v: nat)
    requires Legal(t) && v in Reached(t).versions
    ensures var version := Reached(t).versions[v]; version.archived <==> Retired(t, version.rid, v)
  {
    var s := Reached(t.before);
    if v in s.versions {
      ArchivedIsRetired(t.before, v);
      VersionStep(s, t.step, v);
    } else {
      NewVersionStep(s, t.step, v);
      var rid := Reached(t).versions[v].rid;
      if Retired(t.before, rid, v) {
        RetiredWasThere(t.before, rid, v);
      }
      OnlyKnownRetire(s, t.step, rid, v);
    }
  }

  /** An accepted save stores its body as it was given, after the version that it expected; at every later time
      both are still there. */
  lemma {:induction false} SavedForGood(t: Trace, later: Trace, write: Write, body: Body, checks: Checks, id: nat)
    requires Legal(later) && Precedes(Then(t, Save(write, body, checks, id)), later)
    requires Legal(Then(t, Save(write, body, checks, id))) && SaveResult(Reached(t), write, body, checks, id).Done?
    ensures id in Reached(later).versions
    ensures var version := Reached(later).versions[id];
            version.rid == write.rid && version.previous == write.expected && version.body == body
  {
    var saved := Then(t, Save(write, body, checks, id));
    if later == saved {
      SavedVersions(Reached(t), write, body, id);
    } else {
      SavedForGood(t, later.before, write, body, checks, id);
      VersionStep(Reached(later.before), later.step, id);
    }
  }

  /** Right after it, it is the current version. */
  lemma SavedIsCurrent(t: Trace, write: Write, body: Body, checks: Checks, id: nat)
    requires Legal(Then(t, Save(write, body, checks, id))) && SaveResult(Reached(t), write, body, checks, id).Done?
    ensures Lookup(Reached(Then(t, Save(write, body, checks, id))), write.rid).current == Some(id)
  {
  }

  /** Whether an agent can run follows from the history: its current version was not archived, and its last
      switch did not turn it off. */
  lemma RunnableByHistory(t: Trace, key: string)
    requires Legal(t)
    ensures var current := Lookup(Reached(t), Rid(Agent, key)).current;
            Runnable(Reached(t), key) <==>
            current.Some? && !Retired(t, Rid(Agent, key), current.value) && !SwitchedOff(t, Rid(Agent, key))
  {
    var rid := Rid(Agent, key);
    DisabledIsSwitchedOff(t, rid);
    if rid in Reached(t).resources {
      assert CurrentOk(Reached(t), rid);
      ArchivedIsRetired(t, Reached(t).resources[rid].current.value);
    }
  }

  /** An agent that was disabled or archived does not run. */
  lemma StoppedAgent(t: Trace, write: Write, action: Action)
    requires Legal(Then(t, Change(write, action))) && write.rid.kind == Agent && action != Enable
    requires ChangeResult(Reached(t), write, action).Done?
    ensures !Runnable(Reached(Then(t, Change(write, action))), write.rid.key)
  {
    var later := Then(t, Change(write, action));
    assert write.rid == Rid(Agent, write.rid.key);
    RunnableByHistory(later, write.rid.key);
    assert CurrentOk(Reached(t), write.rid);
    assert action == Archive ==> Retires(Reached(t), later.step, write.rid, write.expected.value);
  }

  /** Disabling an agent that is on and enabling it again gives back what it was. */
  lemma OffAndOn(t: Trace, off: Write, on: Write)
    requires off.rid == on.rid && off.rid.kind == Agent
    requires Legal(t) && Legal(Then(t, Change(off, Disable))) && Legal(Then(Then(t, Change(off, Disable)), Change(on, Enable)))
    requires ChangeResult(Reached(t), off, Disable).Done? && ChangeResult(Reached(Then(t, Change(off, Disable))), on, Enable).Done?
    ensures var u := Reached(Then(Then(t, Change(off, Disable)), Change(on, Enable)));
            !Lookup(u, off.rid).disabled && u.versions == Reached(t).versions &&
            (!SwitchedOff(t, off.rid) ==> (Runnable(u, off.rid.key) <==> Runnable(Reached(t), off.rid.key)))
  {
    var between := Then(t, Change(off, Disable));
    var later := Then(between, Change(on, Enable));
    assert off.rid == Rid(Agent, off.rid.key);
    assert CurrentOk(Reached(t), off.rid) && CurrentOk(Reached(between), off.rid);
    DisabledIsSwitchedOff(t, off.rid);
    DisabledIsSwitchedOff(later, off.rid);
  }

  /** A change is accepted exactly when its request is new and it expects the current version. */
  lemma ChangeAccepted(t: Trace, write: Write, action: Action)
    requires Legal(t)
    ensures ChangeResult(Reached(t), write, action).Done? <==>
            write.request !in Reached(t).audits && write.expected.Some? && Lookup(Reached(t), write.rid).current == write.expected
  {
  }

  /** The references of a body are accepted exactly if each is of the right kind, enabled, current or kept from
      before, and usable with all that is below it, and no two skills have the same key. */
  ghost predicate GoodReferences(s: State, body: Body, kept: set<nat>, accepts: Body -> bool)
    requires Typed(s)
  {
    var refs := References(body);
    (body.ProviderBody? ==> body.credential in s.credentials && !s.credentials[body.credential]) && DistinctReferences(body) &&
    (forall v {:trigger v in refs} :: v in refs ==>
      v in s.versions && KindOf(s, v) == refs[v] && !Disabled(s, v) && (s.versions[v].archived ==> v in kept) && Sound(s, v, accepts)) &&
    forall v, w {:trigger v in refs, w in refs} ::
      v in refs && w in refs && refs[v] == refs[w] == Skill && v != w ==> s.versions[v].rid.key != s.versions[w].rid.key
  }

  lemma GoodReferencesAccepted(s: State, body: Body, kept: set<nat>, accepts: Body -> bool)
    requires Typed(s)
    ensures ReferencesOk(s, body, kept, accepts) <==> GoodReferences(s, body, kept, accepts)
  {
    var refs := References(body);
    forall v | v in refs
      ensures ReferenceOk(s, v, refs[v], kept, accepts) <==>
              v in s.versions && KindOf(s, v) == refs[v] && !Disabled(s, v) && (s.versions[v].archived ==> v in kept) && Sound(s, v, accepts)
    {
    }
  }

  /** A save is accepted exactly when its request is new, it expects the current version, other components
      have nothing against it, a source that it names has the same content, and its references are good, where
      those of the version before and of the source may be old. */
  lemma SaveAccepted(t: Trace, write: Write, body: Body, checks: Checks, id: nat)
    requires Legal(t)
    ensures var s := Reached(t);
            SaveResult(s, write, body, checks, id).Done? <==>
            write.request !in s.audits && Lookup(s, write.rid).current == write.expected && checks.valid && checks.accepts(body) &&
            (write.source.Some? ==>
              write.source.value in s.versions && s.versions[write.source.value].rid == write.rid && s.versions[write.source.value].body == body) &&
            GoodReferences(s, body, OldLinks(s, Preserved(write.expected, write.source)), checks.accepts)
  {
    GoodReferencesAccepted(Reached(t), body, OldLinks(Reached(t), Preserved(write.expected, write.source)), checks.accepts);
  }
}
