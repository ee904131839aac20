// Immutable configuration: versions chained per resource, compare and swap, replay by request id.
module ConfigTables {

  datatype Option<+T> = None | Some(value: T)

  datatype Kind = Agent | Skill | Model | Prompt | Provider

  /** The part of each body that the store looks at; the rest is opaque text. */
  datatype Body =
    | AgentBody(prompt: nat, model: nat, skills: seq<nat>, rest: string)
    | SkillBody(skillPrompt: Option<nat>, rest: string)
    | ModelBody(provider: Option<nat>, rest: string)
    | PromptBody(rest: string)
    | ProviderBody(credential: nat, rest: string)

  datatype Rid = Rid(kind: Kind, key: string)

  datatype Resource = Resource(current: Option<nat>, disabled: bool)

  datatype Version = Version(rid: Rid, previous: Option<nat>, body: Body, archived: bool)

  datatype Write = Write(rid: Rid, actor: int, request: string, expected: Option<nat>, source: Option<nat>)

  datatype Action = Archive | Disable | Enable

  /** What a request asked for; its hash is taken to be injective. */
  datatype Fingerprint = SaveOf(write: Write, body: Body) | ChangeOf(write: Write, action: Action)

  datatype Audit = Audit(actor: int, fingerprint: Fingerprint, rid: Rid, oldId: Option<nat>, newId: Option<nat>)

  datatype State = State(
    resources: map<Rid, Resource>,
    versions: map<nat, Version>,
    links: set<(nat, nat)>,
    bindings: map<nat, nat>,      // provider version -> credential
    credentials: map<nat, bool>,  // credential -> revoked
    audits: map<string, Audit>)

  // ---- references ----

  function BodyKind(body: Body): Kind {
    match body
    case AgentBody(_, _, _, _) => Agent
    case SkillBody(_, _) => Skill
    case ModelBody(_, _) => Model
    case PromptBody(_) => Prompt
    case ProviderBody(_, _) => Provider
  }

  function Rank(kind: Kind): nat {
    match kind
    case Agent => 2
    case Skill => 1
    case Model => 1
    case Prompt => 0
    case Provider => 0
  }

  predicate DistinctReferences(body: Body) {
    body.AgentBody? ==>
      body.prompt != body.model && body.prompt !in body.skills && body.model !in body.skills &&
      forall i, j :: 0 <= i < j < |body.skills| ==> body.skills[i] != body.skills[j]
  }

  /** Agents refer to a prompt, a model and skills, skills to prompts, models to providers: never upwards. */
  function References(body: Body): (refs: map<nat, Kind>)
    ensures forall v :: v in refs ==> Rank(refs[v]) < Rank(BodyKind(body))
  {
    match body
    case AgentBody(prompt, model, skills, _) => map[prompt := Prompt, model := Model] + (map v | v in skills :: Skill)
    case SkillBody(prompt, _) => if prompt.Some? then map[prompt.value := Prompt] else map[]
    case ModelBody(provider, _) => if provider.Some? then map[provider.value := Provider] else map[]
    case PromptBody(_) => map[]
    case ProviderBody(_, _) => map[]
  }

  function KindOf(s: State, v: nat): Kind
    requires v in s.versions
  {
    s.versions[v].rid.kind
  }

  ghost predicate VersionTyped(s: State, v: nat)
    requires v in s.versions
  {
    var version := s.versions[v];
    version.rid in s.resources && version.rid.kind == BodyKind(version.body) && DistinctReferences(version.body) &&
    forall c :: c in References(version.body) ==> c in s.versions && KindOf(s, c) == References(version.body)[c]
  }

  ghost predicate Typed(s: State) {
    forall v {:trigger VersionTyped(s, v)} :: v in s.versions ==> VersionTyped(s, v)
  }

  predicate Disabled(s: State, v: nat)
    requires v in s.versions
  {
    s.versions[v].rid in s.resources && s.resources[s.versions[v].rid].disabled
  }

  predicate CredentialOk(s: State, body: Body) {
    body.ProviderBody? ==> body.credential in s.credentials && !s.credentials[body.credential]
  }

  /** This version and everything it refers to, directly or not, is usable. */
  ghost predicate Sound(s: State, v: nat, accepts: Body -> bool)
    requires Typed(s) && v in s.versions
    decreases Rank(KindOf(s, v))
  {
    assert VersionTyped(s, v);
    accepts(s.versions[v].body) && CredentialOk(s, s.versions[v].body) &&
    forall c :: c in References(s.versions[v].body) ==> !Disabled(s, c) && Sound(s, c, accepts)
  }

  function OldLinks(s: State, preserved: set<nat>): set<nat> {
    set e | e in s.links && e.0 in preserved :: e.1
  }

  /** A direct reference that a new version may have: of the right kind, enabled, current or kept from before. */
  ghost predicate ReferenceOk(s: State, v: nat, kind: Kind, kept: set<nat>, accepts: Body -> bool)
    requires Typed(s)
  {
    v in s.versions && KindOf(s, v) == kind && !Disabled(s, v) && (s.versions[v].archived ==> v in kept) && Sound(s, v, accepts)
  }

  ghost predicate ReferencesOk(s: State, body: Body, kept: set<nat>, accepts: Body -> bool)
    requires Typed(s)
  {
    CredentialOk(s, body) && DistinctReferences(body) &&
    (forall v :: v in References(body) ==> ReferenceOk(s, v, References(body)[v], kept, accepts)) &&
    // no two skills with the same key
    forall v, w :: v in References(body) && w in References(body) && References(body)[v] == Skill == References(body)[w] && v != w ==>
      s.versions[v].rid.key != s.versions[w].rid.key
  }

  // ---- the two writes ----

  datatype Result = Replayed(id: nat) | Conflict | Stale | Missing | Refused | Done(id: nat)

  function Lookup(s: State, rid: Rid): Resource {
    if rid in s.resources then s.resources[rid] else Resource(None, false)
  }

  function Replay(audit: Audit, actor: int, fingerprint: Fingerprint): Result
    requires audit.newId.Some? || audit.oldId.Some?
  {
    if audit.fingerprint != fingerprint || audit.actor != actor then Conflict
    else Replayed(if audit.newId.Some? then audit.newId.value else audit.oldId.value)
  }

  function Preserved(before: Option<nat>, source: Option<nat>): set<nat> {
    (if before.Some? then {before.value} else {}) + (if source.Some? then {source.value} else {})
  }

  predicate SourceOk(s: State, write: Write, body: Body) {
    write.source.Some? ==>
      write.source.value in s.versions && s.versions[write.source.value].rid == write.rid && s.versions[write.source.value].body == body
  }

  /** `valid` stands for the checks of other components: the validator, knowledge bases, the test expiry. */
  datatype Checks = Checks(accepts: Body -> bool, valid: bool)

  ghost function SaveResult(s: State, write: Write, body: Body, checks: Checks, id: nat): Result
    requires Typed(s) && AuditsOk(s)
  {
    if write.request in s.audits then Replay(s.audits[write.request], write.actor, SaveOf(write, body))
    else if Lookup(s, write.rid).current != write.expected then Stale
    else if !checks.valid || !checks.accepts(body) || !SourceOk(s, write, body) then Refused
    else if !ReferencesOk(s, body, OldLinks(s, Preserved(write.expected, write.source)), checks.accepts) then Refused
    else Done(id)
  }

  /** The new current version is inserted, the one before it is archived. */
  function Saved(s: State, write: Write, body: Body, id: nat): State {
    var before := Lookup(s, write.rid).current;
    var rest := if before.Some? && before.value in s.versions
                then s.versions[before.value := s.versions[before.value].(archived := true)] else s.versions;
    State(
      s.resources[write.rid := Resource(Some(id), Lookup(s, write.rid).disabled)],
      rest[id := Version(write.rid, before, body, false)],
      s.links + (set c | c in References(body) :: (id, c)),
      if body.ProviderBody? then s.bindings[id := body.credential] else s.bindings,
      s.credentials,
      s.audits[write.request := Audit(write.actor, SaveOf(write, body), write.rid, before, Some(id))])
  }

  ghost function ChangeResult(s: State, write: Write, action: Action): Result
    requires AuditsOk(s)
  {
    if write.request in s.audits then Replay(s.audits[write.request], write.actor, ChangeOf(write, action))
    else if Lookup(s, write.rid).current == None then Missing
    else if Lookup(s, write.rid).current != write.expected then Stale
    else Done(write.expected.value)
  }

  function Changed(s: State, write: Write, action: Action): State
    requires write.rid in s.resources && write.expected.Some? && write.expected.value in s.versions
  {
    var before := write.expected.value;
    s.(versions := if action == Archive then s.versions[before := s.versions[before].(archived := true)] else s.versions,
       resources := if action == Archive then s.resources
                    else s.resources[write.rid := s.resources[write.rid].(disabled := action == Disable)],
       audits := s.audits[write.request := Audit(write.actor, ChangeOf(write, action), write.rid, write.expected, None)])
  }

  // ---- all runs ----

  datatype Step =
    | Save(write: Write, body: Body, checks: Checks, id: nat)
    | Change(write: Write, action: Action)
    | SetCredential(credential: nat, revoked: bool)

  /** parse_config gives a body of the kind that is written, and a UUID is fresh. */
  predicate Possible(s: State, step: Step) {
    step.Save? ==> BodyKind(step.body) == step.write.rid.kind && step.id !in s.versions
  }

  ghost function Next(s: State, step: Step): State
    requires Inv(s) && Possible(s, step)
  {
    match step
    case Save(write, body, checks, id) =>
      if SaveResult(s, write, body, checks, id).Done? then Saved(s, write, body, id) else s
    case Change(write, action) =>
      assert write.rid in s.resources ==> CurrentOk(s, write.rid);
      if ChangeResult(s, write, action).Done? then Changed(s, write, action) else s
    case SetCredential(credential, revoked) => s.(credentials := s.credentials[credential := revoked])
  }

  // ---- the invariant ----

  function Last(h: seq<nat>): Option<nat> {
    if h == [] then None else Some(h[|h| - 1])
  }

  /** Each version of h names the one before it as its previous version, and the first names none. */
  ghost predicate Linked(versions: map<nat, Version>, rid: Rid, h: seq<nat>) {
    h == [] ||
    (var n := |h| - 1;
     h[n] in versions && versions[h[n]].rid == rid && versions[h[n]].previous == Last(h[..n]) && h[n] !in h[..n] &&
     Linked(versions, rid, h[..n]))
  }

  ghost predicate IsHistory(s: State, rid: Rid, h: seq<nat>) {
    Linked(s.versions, rid, h) && Last(h) == Lookup(s, rid).current &&
    forall v :: v in s.versions && s.versions[v].rid == rid ==> v in h
  }

  ghost predicate ChainOk(s: State, rid: Rid) {
    exists h :: IsHistory(s, rid, h)
  }

  ghost predicate CurrentOk(s: State, rid: Rid)
    requires rid in s.resources
  {
    s.resources[rid].current.Some? && s.resources[rid].current.value in s.versions
    && s.versions[s.resources[rid].current.value].rid == rid
  }

  ghost predicate AuditOk(s: State, audit: Audit) {
    (audit.newId.Some? || audit.oldId.Some?) &&
    (audit.newId.Some? ==> audit.newId.value in s.versions) && (audit.oldId.Some? ==> audit.oldId.value in s.versions)
  }

  ghost predicate AuditsOk(s: State) {
    forall r {:trigger s.audits[r]} :: r in s.audits ==> AuditOk(s, s.audits[r])
  }

  ghost predicate LinksOk(s: State) {
    (forall v, c :: (v, c) in s.links <==> v in s.versions && c in References(s.versions[v].body)) &&
    (forall v :: v in s.versions && s.versions[v].body.ProviderBody? ==> v in s.bindings && s.bindings[v] == s.versions[v].body.credential)
  }

  ghost predicate Inv(s: State) {
    Typed(s) && AuditsOk(s) && LinksOk(s) &&
    (forall r {:trigger CurrentOk(s, r)} :: r in s.resources ==> CurrentOk(s, r)) &&
    (forall r {:trigger ChainOk(s, r)} :: ChainOk(s, r)) &&
    // every version that is not current is archived
    (forall v :: v in s.versions && Lookup(s, s.versions[v].rid).current != Some(v) ==> s.versions[v].archived)
  }

  // ---- every step keeps the invariant ----

  /** Versions never change, except that they are archived. */
  ghost predicate Unchanged(versions: map<nat, Version>, later: map<nat, Version>) {
    forall v {:trigger later[v]} {:trigger versions[v]} :: v in versions ==>
      v in later && later[v] == versions[v].(archived := later[v].archived) && (versions[v].archived ==> later[v].archived)
  }

  lemma {:induction false} LinkedLater(versions: map<nat, Version>, later: map<nat, Version>, rid: Rid, h: seq<nat>)
    requires Unchanged(versions, later) && Linked(versions, rid, h)
    ensures Linked(later, rid, h)
  {
    if h != [] {
      LinkedLater(versions, later, rid, h[..|h| - 1]);
      assert later[h[|h| - 1]].rid == versions[h[|h| - 1]].rid;
    }
  }

  lemma {:induction false} LinkedIn(versions: map<nat, Version>, rid: Rid, h: seq<nat>)
    requires Linked(versions, rid, h)
    ensures forall v :: v in h ==> v in versions && versions[v].rid == rid
  {
    if h != [] {
      LinkedIn(versions, rid, h[..|h| - 1]);
      assert forall v :: v in h ==> v in h[..|h| - 1] || v == h[|h| - 1];
    }
  }

  /** A resource whose row and versions stay keeps its chain. */
  lemma ChainLater(s: State, u: State, rid: Rid)
    requires ChainOk(s, rid) && Unchanged(s.versions, u.versions) && Lookup(u, rid).current == Lookup(s, rid).current
    requires forall v :: v in u.versions && v !in s.versions ==> u.versions[v].rid != rid
    ensures ChainOk(u, rid)
  {
    var h :| IsHistory(s, rid, h);
    LinkedLater(s.versions, u.versions, rid, h);
    assert forall v :: v in u.versions && u.versions[v].rid == rid ==> v in s.versions && s.versions[v].rid == rid;
    assert IsHistory(u, rid, h);
  }

  lemma ChainGrows(s: State, u: State, rid: Rid, id: nat)
    requires ChainOk(s, rid) && Unchanged(s.versions, u.versions) && id !in s.versions && id in u.versions
    requires u.versions[id].rid == rid && u.versions[id].previous == Lookup(s, rid).current && Lookup(u, rid).current == Some(id)
    requires forall v :: v in u.versions ==> v in s.versions || v == id
    ensures ChainOk(u, rid)
  {
    var h :| IsHistory(s, rid, h);
    LinkedLater(s.versions, u.versions, rid, h);
    LinkedIn(s.versions, rid, h);
    assert (h + [id])[..|h + [id]| - 1] == h;
    assert forall v :: v in u.versions && u.versions[v].rid == rid && v != id ==> v in s.versions && s.versions[v].rid == rid;
    assert IsHistory(u, rid, h + [id]);
  }

  lemma SavedVersions(s: State, write: Write, body: Body, id: nat)
    requires Inv(s) && id !in s.versions
    ensures var u := Saved(s, write, body, id);
            Unchanged(s.versions, u.versions) && id in u.versions
            && u.versions[id] == Version(write.rid, Lookup(s, write.rid).current, body, false)
            && forall v :: v in u.versions ==> v in s.versions || v == id
    ensures Lookup(s, write.rid).current.Some? ==> Lookup(s, write.rid).current.value in s.versions
                                                   && s.versions[Lookup(s, write.rid).current.value].rid == write.rid
  {
    if write.rid in s.resources {
      assert CurrentOk(s, write.rid);
    }
  }

  lemma SavedTyped(s: State, write: Write, body: Body, checks: Checks, id: nat)
    requires Inv(s) && Possible(s, Save(write, body, checks, id)) && SaveResult(s, write, body, checks, id).Done?
    ensures Typed(Saved(s, write, body, id))
  {
    var u := Saved(s, write, body, id);
    SavedVersions(s, write, body, id);
    forall v | v in u.versions
      ensures VersionTyped(u, v)
    {
      if v == id {
        forall c | c in References(body)
          ensures c in u.versions && KindOf(u, c) == References(body)[c]
        {
          assert ReferenceOk(s, c, References(body)[c], OldLinks(s, Preserved(write.expected, write.source)), checks.accepts);
          assert u.versions[c].rid == s.versions[c].rid;
        }
      } else {
        assert VersionTyped(s, v);
        assert u.versions[v].body == s.versions[v].body && u.versions[v].rid == s.versions[v].rid;
        forall c | c in References(s.versions[v].body)
          ensures c in u.versions && KindOf(u, c) == KindOf(s, c)
        {
          assert u.versions[c].rid == s.versions[c].rid;
        }
      }
    }
  }

  lemma SavedLinks(s: State, write: Write, body: Body, id: nat)
    requires Inv(s) && id !in s.versions
    ensures LinksOk(Saved(s, write, body, id)) && AuditsOk(Saved(s, write, body, id))
  {
    var u := Saved(s, write, body, id);
    SavedVersions(s, write, body, id);
    forall v, c
      ensures (v, c) in u.links <==> v in u.versions && c in References(u.versions[v].body)
    {
      assert (v, c) in u.links <==> (v, c) in s.links || (v == id && c in References(body));
      assert v in s.versions ==> u.versions[v].body == s.versions[v].body;
    }
    forall v | v in u.versions && u.versions[v].body.ProviderBody?
      ensures v in u.bindings && u.bindings[v] == u.versions[v].body.credential
    {
      assert v in s.versions ==> u.versions[v].body == s.versions[v].body;
    }
    forall r | r in u.audits
      ensures AuditOk(u, u.audits[r])
    {
      assert r in s.audits ==> AuditOk(s, s.audits[r]);
    }
  }

  lemma SavedChains(s: State, write: Write, body: Body, id: nat)
    requires Inv(s) && id !in s.versions
    ensures var u := Saved(s, write, body, id);
            (forall r {:trigger CurrentOk(u, r)} :: r in u.resources ==> CurrentOk(u, r)) &&
            (forall r {:trigger ChainOk(u, r)} :: ChainOk(u, r)) &&
            (forall v :: v in u.versions && Lookup(u, u.versions[v].rid).current != Some(v) ==> u.versions[v].archived)
  {
    var u := Saved(s, write, body, id);
    SavedVersions(s, write, body, id);
    forall r | r in u.resources
      ensures CurrentOk(u, r)
    {
      assert r in s.resources && r != write.rid ==> CurrentOk(s, r) && u.versions[s.resources[r].current.value].rid == r;
    }
    forall r
      ensures ChainOk(u, r)
    {
      assert ChainOk(s, r);
      if r == write.rid {
        ChainGrows(s, u, r, id);
      } else {
        ChainLater(s, u, r);
      }
    }
    forall v | v in u.versions && Lookup(u, u.versions[v].rid).current != Some(v)
      ensures u.versions[v].archived
    {
      assert v in s.versions && u.versions[v].rid == s.versions[v].rid;
    }
  }

  /** No version and no resource is added, and every resource keeps its current version. */
  ghost predicate SameShape(s: State, u: State) {
    Unchanged(s.versions, u.versions) && u.versions.Keys == s.versions.Keys && u.resources.Keys == s.resources.Keys &&
    (forall r :: r in s.resources ==> u.resources[r].current == s.resources[r].current) && u.links == s.links && u.bindings == s.bindings
  }

  lemma ShapeTyped(s: State, u: State)
    requires Inv(s) && SameShape(s, u)
    ensures Typed(u) && LinksOk(u)
  {
    assert forall v :: v in u.versions ==> u.versions[v].body == s.versions[v].body && u.versions[v].rid == s.versions[v].rid;
    forall v | v in u.versions
      ensures VersionTyped(u, v)
    {
      assert VersionTyped(s, v);
    }
  }

  lemma ShapeChains(s: State, u: State)
    requires Inv(s) && SameShape(s, u)
    ensures forall r {:trigger ChainOk(u, r)} :: ChainOk(u, r)
    ensures forall r {:trigger CurrentOk(u, r)} :: r in u.resources ==> CurrentOk(u, r)
    ensures forall v :: v in u.versions && Lookup(u, u.versions[v].rid).current != Some(v) ==> u.versions[v].archived
  {
    forall r
      ensures ChainOk(u, r)
    {
      assert ChainOk(s, r);
      ChainLater(s, u, r);
    }
    forall r | r in u.resources
      ensures CurrentOk(u, r)
    {
      assert CurrentOk(s, r);
      assert u.versions[s.resources[r].current.value].rid == r;
    }
    assert forall v :: v in u.versions ==> u.versions[v].rid == s.versions[v].rid;
  }

  lemma ChangeKeeps(s: State, write: Write, action: Action)
    requires Inv(s) && ChangeResult(s, write, action).Done?
    requires write.rid in s.resources && write.expected.Some? && write.expected.value in s.versions
    ensures Inv(Changed(s, write, action))
  {
    var u := Changed(s, write, action);
    ShapeTyped(s, u);
    ShapeChains(s, u);
    forall r | r in u.audits
      ensures AuditOk(u, u.audits[r])
    {
      assert r in s.audits ==> AuditOk(s, s.audits[r]);
    }
  }

  lemma CredentialKeeps(s: State, credential: nat, revoked: bool)
    requires Inv(s)
    ensures Inv(s.(credentials := s.credentials[credential := revoked]))
  {
    var u := s.(credentials := s.credentials[credential := revoked]);
    ShapeTyped(s, u);
    ShapeChains(s, u);
    forall r | r in u.audits
      ensures AuditOk(u, u.audits[r])
    {
      assert AuditOk(s, s.audits[r]);
    }
  }

  lemma StepKeeps(s: State, step: Step)
    requires Inv(s) && Possible(s, step)
    ensures Inv(Next(s, step))
  {
    match step
    case Save(write, body, checks, id) =>
      if SaveResult(s, write, body, checks, id).Done? {
        SavedTyped(s, write, body, checks, id);
        SavedLinks(s, write, body, id);
        SavedChains(s, write, body, id);
      }
    case Change(write, action) =>
      if ChangeResult(s, write, action).Done? {
        assert CurrentOk(s, write.rid);
        ChangeKeeps(s, write, action);
      }
    case SetCredential(credential, revoked) => CredentialKeeps(s, credential, revoked);
  }

  // ---- the main results ----

  datatype Trace = Start | Then(before: Trace, step: Step)

  ghost predicate Legal(t: Trace)
    decreases t, 0
  {
    match t
    case Start => true
    case Then(before, step) => Legal(before) && Possible(Reached(before), step)
  }

  /** The state after a run; every reachable state satisfies the invariant. */
  ghost function Reached(t: Trace): (s: State)
    requires Legal(t)
    ensures Inv(s)
    decreases t, 1
  {
    match t
    case Start =>
      NothingYet();
      State(map[], map[], {}, map[], map[], map[])
    case Then(before, step) =>
      StepKeeps(Reached(before), step);
      Next(Reached(before), step)
  }

  lemma NothingYet()
    ensures Inv(State(map[], map[], {}, map[], map[], map[]))
  {
    var s := State(map[], map[], {}, map[], map[], map[]);
    forall r
      ensures ChainOk(s, r)
    {
      assert IsHistory(s, r, []);
    }
  }

  /** In a chain only one version comes after a given one, and only one comes first. */
  lemma {:induction false} ChainUnforked(versions: map<nat, Version>, rid: Rid, h: seq<nat>, a: nat, b: nat)
    requires Linked(versions, rid, h) && a in h && b in h
    requires a in versions && b in versions && versions[a].previous == versions[b].previous
    ensures a == b
  {
    var n := |h| - 1;
    assert forall v :: v in h ==> v in h[..n] || v == h[n];
    if a in h[..n] && b in h[..n] {
      ChainUnforked(versions, rid, h[..n], a, b);
    } else if a in h[..n] {
      PreviousIsEarlier(versions, rid, h[..n], a);
    } else if b in h[..n] {
      PreviousIsEarlier(versions, rid, h[..n], b);
    }
  }

  lemma {:induction false} PreviousIsEarlier(versions: map<nat, Version>, rid: Rid, h: seq<nat>, v: nat)
    requires Linked(versions, rid, h) && v in h && v in versions
    ensures versions[v].previous != Last(h)
    ensures versions[v].previous.Some? ==> versions[v].previous.value in h
  {
    var n := |h| - 1;
    assert forall x :: x in h ==> x in h[..n] || x == h[n];
    assert forall x :: x in h[..n] ==> x in h;
    if v in h[..n] {
      PreviousIsEarlier(versions, rid, h[..n], v);
    }
  }

  ghost predicate Unforked(s: State, rid: Rid) {
    forall a, b :: a in s.versions && b in s.versions && s.versions[a].rid == rid && s.versions[b].rid == rid && a != b ==>
      s.versions[a].previous != s.versions[b].previous
  }

  /** The versions of a resource are one chain of previous ids that ends at the current version: all but that
      one are archived, and no two of them follow the same version. */
  lemma OneChain(t: Trace, rid: Rid)
    requires Legal(t)
    ensures ChainOk(Reached(t), rid) && Unforked(Reached(t), rid)
    ensures var s := Reached(t);
            forall v :: v in s.versions && s.versions[v].rid == rid && Lookup(s, rid).current != Some(v) ==> s.versions[v].archived
  {
    var s := Reached(t);
    assert ChainOk(s, rid);
    var h :| IsHistory(s, rid, h);
    forall a, b | a in s.versions && b in s.versions && s.versions[a].rid == rid && s.versions[b].rid == rid && a != b
      ensures s.versions[a].previous != s.versions[b].previous
    {
      if s.versions[a].previous == s.versions[b].previous {
        ChainUnforked(s.versions, rid, h, a, b);
      }
    }
  }

  ghost predicate Precedes(t: Trace, later: Trace) {
    t == later || (later.Then? && Precedes(t, later.before))
  }

  /** This expected id has lost: it is not the current version and never can be again. */
  predicate Superseded(s: State, rid: Rid, expected: Option<nat>) {
    Lookup(s, rid).current != expected && (expected.Some? ==> expected.value in s.versions)
  }

  lemma SupersededForGood(s: State, step: Step, rid: Rid, expected: Option<nat>)
    requires Inv(s) && Possible(s, step) && Superseded(s, rid, expected)
    ensures Superseded(Next(s, step), rid, expected)
  {
    if rid in s.resources {
      assert CurrentOk(s, rid);
    }
    if step.Save? && SaveResult(s, step.write, step.body, step.checks, step.id).Done? {
      SavedVersions(s, step.write, step.body, step.id);
    }
  }

  lemma {:induction false} StaysSuperseded(t: Trace, later: Trace, rid: Rid, expected: Option<nat>)
    requires Legal(later) && Precedes(t, later) && Legal(t) && Superseded(Reached(t), rid, expected)
    ensures Superseded(Reached(later), rid, expected)
  {
    if t != later {
      LegalBefore(t, later.before);
      StaysSuperseded(t, later.before, rid, expected);
      SupersededForGood(Reached(later.before), later.step, rid, expected);
    }
  }

  lemma {:induction false} LegalBefore(t: Trace, later: Trace)
    requires Legal(later) && Precedes(t, later)
    ensures Legal(t)
  {
    if t != later {
      LegalBefore(t, later.before);
    }
  }

  lemma WinnerSupersedes(s: State, write: Write, body: Body, checks: Checks, id: nat)
    requires Inv(s) && Possible(s, Save(write, body, checks, id)) && SaveResult(s, write, body, checks, id).Done?
    ensures Superseded(Next(s, Save(write, body, checks, id)), write.rid, write.expected)
    ensures var u := Next(s, Save(write, body, checks, id));
            write.request in u.audits
            && u.audits[write.request] == Audit(write.actor, SaveOf(write, body), write.rid, write.expected, Some(id))
  {
    SavedVersions(s, write, body, id);
  }

  /** Of the saves that race on one expected id at most one wins: once one went through, no other save with
      that expected id is ever accepted. */
  lemma OneWinner(t: Trace, later: Trace, write: Write, body: Body, checks: Checks, id: nat,
                  rival: Write, content: Body, others: Checks, another: nat)
    requires Legal(later) && Precedes(Then(t, Save(write, body, checks, id)), later)
    requires Legal(Then(t, Save(write, body, checks, id))) && SaveResult(Reached(t), write, body, checks, id).Done?
    requires rival.rid == write.rid && rival.expected == write.expected
    ensures !SaveResult(Reached(later), rival, content, others, another).Done?
  {
    var won := Then(t, Save(write, body, checks, id));
    WinnerSupersedes(Reached(t), write, body, checks, id);
    StaysSuperseded(won, later, write.rid, write.expected);
  }

  lemma AuditsStay(s: State, step: Step, request: string)
    requires Inv(s) && Possible(s, step) && request in s.audits
    ensures request in Next(s, step).audits && Next(s, step).audits[request] == s.audits[request]
  {
    if step.Change? && ChangeResult(s, step.write, step.action).Done? {
      assert step.write.rid in s.resources ==> CurrentOk(s, step.write.rid);
    }
  }

  lemma {:induction false} AuditsForGood(t: Trace, later: Trace, request: string)
    requires Legal(later) && Precedes(t, later) && Legal(t) && request in Reached(t).audits
    ensures request in Reached(later).audits && Reached(later).audits[request] == Reached(t).audits[request]
  {
    if t != later {
      LegalBefore(t, later.before);
      AuditsForGood(t, later.before, request);
      AuditsStay(Reached(later.before), later.step, request);
    }
  }

  /** Replaying a save, at any later time, gives the id of the version that it made, and changes nothing;
      the same request id with another content or actor is a conflict. */
  lemma SaveReplays(t: Trace, later: Trace, write: Write, body: Body, checks: Checks, id: nat, again: Step)
    requires Legal(later) && Precedes(Then(t, Save(write, body, checks, id)), later)
    requires Legal(Then(t, Save(write, body, checks, id))) && SaveResult(Reached(t), write, body, checks, id).Done?
    requires again.Save? && again.write.request == write.request && Possible(Reached(later), again)
    ensures SaveResult(Reached(later), again.write, again.body, again.checks, again.id)
            == if again.write == write && again.body == body then Replayed(id) else Conflict
    ensures Next(Reached(later), again) == Reached(later)
  {
    WinnerSupersedes(Reached(t), write, body, checks, id);
    AuditsForGood(Then(t, Save(write, body, checks, id)), later, write.request);
  }

  lemma ChangeIsAudited(s: State, write: Write, action: Action)
    requires Inv(s) && ChangeResult(s, write, action).Done?
    ensures write.expected.Some?
    ensures var u := Next(s, Change(write, action));
            write.request in u.audits
            && u.audits[write.request] == Audit(write.actor, ChangeOf(write, action), write.rid, write.expected, None)
  {
    assert write.rid in s.resources ==> CurrentOk(s, write.rid);
  }

  lemma ChangeReplays(t: Trace, later: Trace, write: Write, action: Action, again: Step)
    requires Legal(later) && Precedes(Then(t, Change(write, action)), later)
    requires Legal(Then(t, Change(write, action))) && ChangeResult(Reached(t), write, action).Done?
    requires again.Change? && again.write.request == write.request
    ensures ChangeResult(Reached(later), again.write, again.action)
            == if again.write == write && again.action == action then Replayed(write.expected.value) else Conflict
    ensures Next(Reached(later), again) == Reached(later)
  {
    ChangeIsAudited(Reached(t), write, action);
    AuditsForGood(Then(t, Change(write, action)), later, write.request);
  }
}
