// Knowledge indexing, effects: what an accepted call leaves behind, in every state that a run can reach.
module RagEffects {
  import opened RagTables
  import opened RagIndex

  // ----- publication and content, as invariants -----

  /** Once the current version of a document is READY it is the published one. */
  predicate Published(db: Db, d: int)
    requires d in db.documents
  {
    var current := db.documents[d].current;
    current in db.tasks && db.tasks[current].state == READY ==> db.documents[d].active == Some(current)
  }

  /** A version holds what its upload request asked for, and the answer to that request names it. */
  predicate FromUpload(db: Db, v: VersionId)
    requires v in db.versions
  {
    var version := db.versions[v];
    v.request in db.requests && version.document in db.documents &&
    var request := db.requests[v.request];
    request.body.Upload? && request.body.chunks == version.chunks && request.body.base == db.documents[version.document].base
    && request.response == Uploaded(v, version.document)
  }

  ghost predicate InStep(db: Db) {
    (forall d {:trigger Published(db, d)} :: d in db.documents ==> Published(db, d)) &&
    (forall v {:trigger FromUpload(db, v)} :: v in db.versions ==> FromUpload(db, v))
  }

  lemma SameUploads(a: Db, b: Db)
    requires InStep(a) && b.versions == a.versions && a.documents.Keys <= b.documents.Keys
    requires forall d :: d in a.documents ==> b.documents[d].base == a.documents[d].base
    requires forall r :: r in a.requests ==> r in b.requests && b.requests[r] == a.requests[r]
    ensures forall v {:trigger FromUpload(b, v)} :: v in b.versions ==> FromUpload(b, v)
  {
    forall v | v in b.versions
      ensures FromUpload(b, v)
    {
      assert FromUpload(a, v);
    }
  }

  lemma UploadInStep(db: Db, version: VersionId, document: int, base: int, chunks: seq<string>, now: int, request: Request)
    requires TablesOk(db) && InStep(db) && version.request !in db.requests && version !in db.versions
    requires document in db.documents ==> db.documents[document].base == base
    requires request.body.Upload? && request.body.chunks == chunks && request.body.base == base
    requires request.response == Uploaded(version, document)
    ensures InStep(Stored(db, version, document, base, chunks, now, request))
  {
    var after := Stored(db, version, document, base, chunks, now, request);
    forall d | d in after.documents
      ensures Published(after, d)
    {
      if d != document {
        assert Published(db, d) && DocumentOk(db, d);
      }
    }
    forall v | v in after.versions
      ensures FromUpload(after, v)
    {
      if v != version {
        assert FromUpload(db, v) && VersionOk(db, v);
      }
    }
  }

  lemma ChangeInStep(db: Db, document: int, expected: VersionId, action: Action, now: int)
    requires TablesOk(db) && InStep(db)
    ensures InStep(ChangeDocument(db, document, expected, action, now).0)
  {
    var after := ChangeDocument(db, document, expected, action, now).0;
    SameUploads(db, after);
    forall d | d in after.documents
      ensures Published(after, d)
    {
      assert Published(db, d);
    }
  }

  lemma WriteInStep(db: Db, actor: int, request: int, body: Body, newId: int, now: int)
    requires TablesOk(db) && InStep(db) && newId !in db.documents
    ensures InStep(Write(db, actor, request, body, newId, now).0)
  {
    var after := Write(db, actor, request, body, newId, now).0;
    if after != db {
      match body
      case CreateBase(base) =>
        SameUploads(db, after);
        forall d | d in after.documents
          ensures Published(after, d)
        {
          assert Published(db, d);
        }
      case Upload(base, target, chunks) =>
        var document := if target.Some? then target.value.0 else newId;
        var version := VersionId(actor, request);
        NewVersion(db, version);
        UploadInStep(db, version, document, base, chunks, now, Request(actor, body, Uploaded(version, document)));
      case Change(document, expected, action) =>
        var changed := ChangeDocument(db, document, expected, action, now).0;
        ChangeInStep(db, document, expected, action, now);
        SameUploads(changed, after);
        forall d | d in after.documents
          ensures Published(after, d)
        {
          assert Published(changed, d);
        }
    }
  }

  /** Rewriting one task keeps publication in step if it does not become READY. */
  lemma TaskInStep(a: Db, b: Db, v: VersionId)
    requires InStep(a) && v in a.tasks && v in b.tasks && b.tasks[v].state != READY
    requires b == a.(tasks := a.tasks[v := b.tasks[v]], log := b.log, issued := b.issued)
    ensures InStep(b)
  {
    SameUploads(a, b);
    forall d | d in b.documents
      ensures Published(b, d)
    {
      assert Published(a, d);
    }
  }

  lemma FinishInStep(db: Db, v: VersionId, token: nat, count: nat, error: Option<string>, now: int)
    requires TablesOk(db) && InStep(db) && v in db.versions && db.versions[v].document in db.documents
    ensures InStep(Finish(db, v, token, count, error, now).0)
  {
    var after := Finish(db, v, token, count, error, now).0;
    SameUploads(db, after);
    forall d | d in after.documents
      ensures Published(after, d)
    {
      assert Published(db, d) && DocumentOk(db, d);
    }
  }

  lemma WorkInStep(s: System, token: nat, move: Move)
    requires RagIndex.Inv(s) && InStep(s.db) && Working(s, token)
    ensures InStep(WorkerStep(s, token, move).db)
  {
    var v, phase := s.workers[token].version, s.workers[token].phase;
    if move.Beat? || move.Check? {
      var after := Heartbeat(s.db, v, token, move.now).0;
      if after != s.db {
        TaskInStep(s.db, after, v);
      }
    } else if move.FinishTask? && phase.Finishing? {
      FinishInStep(s.db, v, token, phase.count, phase.error, move.now);
    }
  }

  lemma NextInStep(s: System, step: Step)
    requires RagIndex.Inv(s) && InStep(s.db)
    ensures InStep(Next(s, step).db)
  {
    match step {
      case Admin(actor, request, body, newId, now) =>
        if newId !in s.db.documents { WriteInStep(s.db, actor, request, body, newId, now); }
      case ClaimTask(v, now) =>
        if Claimable(s.db, v, now) { TaskInStep(s.db, Claim(s.db, v, now).0, v); }
      case LateWrite(_, _) =>
      case Work(token, move) =>
        if Working(s, token) { WorkInStep(s, token, move); }
    }
  }

  lemma {:induction false} RunInStep(s: System, steps: seq<Step>)
    requires RagIndex.Inv(s) && InStep(s.db)
    ensures InStep(Run(s, steps).db)
    decreases |steps|
  {
    if steps != [] {
      NextKeeps(s, steps[0]);
      NextInStep(s, steps[0]);
      RunInStep(Next(s, steps[0]), steps[1..]);
    }
  }

  /** Every reachable state is in order and in step. */
  lemma Reachable(steps: seq<Step>)
    ensures RagIndex.Inv(Run(INITIAL, steps)) && InStep(Run(INITIAL, steps).db)
  {
    InitialInv();
    RunKeeps(INITIAL, steps);
    RunInStep(INITIAL, steps);
  }

  // ----- publication -----

  /** In every reachable state the current version of a document is the published one exactly if it is READY. */
  lemma CurrentIsPublished(steps: seq<Step>, d: int)
    requires d in Run(INITIAL, steps).db.documents
    ensures var db := Run(INITIAL, steps).db;
            var current := db.documents[d].current;
            current in db.tasks && (db.documents[d].active == Some(current) <==> db.tasks[current].state == READY)
  {
    Reachable(steps);
    var db := Run(INITIAL, steps).db;
    assert Published(db, d) && DocumentOk(db, d) && VersionOk(db, db.documents[d].current);
  }

  /** Only the row of this task and the published version of this document may differ. */
  ghost predicate Elsewhere(a: Db, b: Db, v: VersionId, d: int) {
    b.bases == a.bases && b.versions == a.versions && b.requests == a.requests && b.issued == a.issued &&
    b.tasks.Keys == a.tasks.Keys && b.documents.Keys == a.documents.Keys &&
    (forall w :: w in a.tasks && w != v ==> b.tasks[w] == a.tasks[w]) &&
    (forall e :: e in a.documents && e != d ==> b.documents[e] == a.documents[e]) &&
    (d in a.documents ==> b.documents[d].base == a.documents[d].base && b.documents[d].current == a.documents[d].current
                          && b.documents[d].enabled == a.documents[d].enabled)
  }

  /** What the finish of the newest claim leaves behind. Success publishes the current version; a version that
      was superseded, or a failure, publishes nothing. A failure waits for another claim, twice as long each
      time, until the task was claimed four times since its last retry. */
  lemma FinishDecides(steps: seq<Step>, token: nat, now: int)
    requires var s := Run(INITIAL, steps);
             token in s.workers && s.workers[token].phase.Finishing? && HoldsLease(s.db, s.workers[token].version, token, now)
    ensures var s, u := Run(INITIAL, steps), Next(Run(INITIAL, steps), Work(token, FinishTask(now)));
            var v, error := s.workers[token].version, s.workers[token].phase.error;
            v in s.db.versions && v in u.db.tasks && s.db.versions[v].document in s.db.documents &&
            var d, task := s.db.versions[v].document, u.db.tasks[v];
            Elsewhere(s.db, u.db, v, d) && task.lease == None && task.error == error && token !in u.workers &&
            var claims := ClaimsSinceReset(s.db.log, v);
            (task.state == if error == None then READY else if claims < 4 then PENDING else FAILED) &&
            (error == None ==> task.count == |s.db.versions[v].chunks|) &&
            task.next == now + 1000 * Pow2(claims) &&
            u.db.documents[d].active == if error == None && s.db.documents[d].current == v then Some(v) else s.db.documents[d].active
  {
    Reachable(steps);
    var s := Run(INITIAL, steps);
    var v, phase := s.workers[token].version, s.workers[token].phase;
    assert WorkerOk(s, token) && VersionOk(s.db, v);
    FinishLeaves(s.db, v, token, phase.count, phase.error, now);
  }

  lemma FinishLeaves(db: Db, v: VersionId, token: nat, count: nat, error: Option<string>, now: int)
    requires v in db.versions && VersionOk(db, v) && HoldsLease(db, v, token, now)
    ensures var u, d := Finish(db, v, token, count, error, now).0, db.versions[v].document;
            v in u.tasks && Elsewhere(db, u, v, d) &&
            var task, claims := u.tasks[v], ClaimsSinceReset(db.log, v);
            task == Task(if error == None then READY else if claims < 4 then PENDING else FAILED,
                         claims, None, now + 1000 * Pow2(claims), count, error) &&
            u.documents[d].active == if error == None && db.documents[d].current == v then Some(v) else db.documents[d].active
  {
  }

  lemma {:induction false} RunOneMore(s: System, steps: seq<Step>, step: Step)
    ensures Run(s, steps + [step]) == Next(Run(s, steps), step)
    decreases |steps|
  {
    if steps == [] {
      assert [step][1..] == [];
      assert steps + [step] == [step];
    } else {
      assert (steps + [step])[1..] == steps[1..] + [step];
      RunOneMore(Next(s, steps[0]), steps[1..], step);
    }
  }

  // ----- content -----

  /** Whatever retrieval may return is the text of an upload to one of the knowledge bases that were asked,
      chunk by chunk as it was uploaded. */
  lemma RetrievedIsAnUpload(steps: seq<Step>, bases: set<int>, ids: set<VersionId>, v: VersionId)
    requires var s := Run(INITIAL, steps); Active(s.db, bases, v) || Pinned(s.db, bases, ids, v)
    ensures var s := Run(INITIAL, steps);
            v.request in s.db.requests &&
            var request := s.db.requests[v.request];
            request.actor == v.actor && request.body.Upload? && request.body.base in bases &&
            forall i: nat :: i < |request.body.chunks| ==> (v, i) in s.index && s.index[(v, i)].text == request.body.chunks[i]
  {
    Reachable(steps);
    RetrievedIsComplete(steps, bases, ids, v);
    var s := Run(INITIAL, steps);
    assert FromUpload(s.db, v) && VersionOk(s.db, v);
    if Active(s.db, bases, v) {
      var d :| d in s.db.documents && s.db.documents[d].base in bases && s.db.documents[d].active == Some(v);
      assert DocumentOk(s.db, d);
    }
  }

  // ----- claims and leases -----

  /** A task that is due is claimed for a minute under a token of its own, or given up after four claims. */
  lemma ClaimDecides(steps: seq<Step>, v: VersionId, now: int)
    requires Claimable(Run(INITIAL, steps).db, v, now)
    ensures var s, u := Run(INITIAL, steps), Run(INITIAL, steps + [ClaimTask(v, now)]);
            v in u.db.tasks && u.db.documents == s.db.documents && u.db.versions == s.db.versions && u.db.requests == s.db.requests &&
            u.db.tasks == s.db.tasks[v := u.db.tasks[v]] &&
            var claims, task, token := ClaimsSinceReset(s.db.log, v), u.db.tasks[v], s.db.issued;
            if claims < 4 then
              task.state == RUNNING && task.lease == Some(Lease(token, now + 60_000)) && NewestClaim(u.db.log, v) == Some(token)
              && ClaimsSinceReset(u.db.log, v) == claims + 1
              && token !in s.workers && u.workers == s.workers[token := Worker(v, Fetching)]
            else task.state == FAILED && task.error == Some("AGENT_RAG_RETRIES_EXHAUSTED") && u.workers == s.workers && u.db.log == s.db.log
  {
    Reachable(steps);
    var s := Run(INITIAL, steps);
    assert VersionOk(s.db, v);
    assert s.db.issued in s.workers ==> WorkerOk(s, s.db.issued);
    ClaimLeaves(s.db, v, now);
    RunOneMore(INITIAL, steps, ClaimTask(v, now));
  }

  lemma ClaimLeaves(db: Db, v: VersionId, now: int)
    requires VersionOk(db, v) && Claimable(db, v, now)
    ensures var (u, token) := Claim(db, v, now);
            v in u.tasks && u.documents == db.documents && u.versions == db.versions && u.requests == db.requests &&
            u.tasks == db.tasks[v := u.tasks[v]] &&
            var claims, task := ClaimsSinceReset(db.log, v), u.tasks[v];
            if claims < 4 then
              token == Some(db.issued) && task.state == RUNNING && task.lease == Some(Lease(db.issued, now + 60_000))
              && NewestClaim(u.log, v) == token && ClaimsSinceReset(u.log, v) == claims + 1
            else token == None && task.state == FAILED && task.error == Some("AGENT_RAG_RETRIES_EXHAUSTED") && u.log == db.log
  {
  }

  /** The holder of the newest claim, before its lease has run out, has it for another minute; nobody else
      changes anything. */
  lemma BeatDecides(steps: seq<Step>, token: nat, now: int)
    requires token in Run(INITIAL, steps).workers
    ensures var s, u := Run(INITIAL, steps), Run(INITIAL, steps + [Work(token, Beat(now))]);
            var v := s.workers[token].version;
            v in s.db.tasks &&
            var held := s.db.tasks[v].state == RUNNING && NewestClaim(s.db.log, v) == Some(token) && HoldsLease(s.db, v, token, now);
            u.db == if held then s.db.(tasks := s.db.tasks[v := s.db.tasks[v].(lease := Some(Lease(token, now + 60_000)))]) else s.db
  {
    Reachable(steps);
    var s := Run(INITIAL, steps);
    assert WorkerOk(s, token) && VersionOk(s.db, s.workers[token].version);
    RunOneMore(INITIAL, steps, Work(token, Beat(now)));
  }

  // ----- administrators -----

  /** A request under a new id, on the newest version of a document, that the state of the document permits. */
  ghost predicate Permitted(db: Db, document: int, expected: VersionId, action: Action) {
    document in db.documents && db.documents[document].current == expected &&
    (action == Enable ==> db.documents[document].active.Some?) &&
    (action == Retry ==> expected in db.tasks && db.tasks[expected].state == FAILED)
  }

  /** Enabling and archiving switch a document on and off; a retry makes its task due at once, with four claims
      ahead. Nothing else changes, and a request that is not permitted changes nothing. */
  lemma ChangeDecides(steps: seq<Step>, actor: int, request: int, document: int, expected: VersionId, action: Action, newId: int, now: int)
    requires var db := Run(INITIAL, steps).db; request !in db.requests && newId !in db.documents
    ensures var db := Run(INITIAL, steps).db;
            var body := Change(document, expected, action);
            var (u, reply) := Write(db, actor, request, body, newId, now);
            (reply.Done? <==> Permitted(db, document, expected, action)) &&
            (reply.Error? ==> u == db) &&
            (reply.Done? ==>
              reply == Done(Changed(document, expected, action)) && u.requests == db.requests[request := Request(actor, body, reply.response)] &&
              document in u.documents && expected in u.tasks && expected in db.tasks &&
              u.documents == db.documents[document := db.documents[document].(enabled := u.documents[document].enabled)] &&
              u.tasks == db.tasks[expected := u.tasks[expected]] && u.versions == db.versions && u.bases == db.bases &&
              match action
              case Enable => u.documents[document].enabled && u.tasks[expected] == db.tasks[expected]
              case Archive => !u.documents[document].enabled && u.tasks[expected] == db.tasks[expected]
              case Retry => u.documents == db.documents && Claimable(u, expected, now) && ClaimsSinceReset(u.log, expected) == 0
                            && u.tasks[expected] == Task(PENDING, 0, None, now, db.tasks[expected].count, None))
  {
    Reachable(steps);
    var db := Run(INITIAL, steps).db;
    if document in db.documents {
      assert DocumentOk(db, document) && VersionOk(db, db.documents[document].current);
      assert db.documents[document := db.documents[document]] == db.documents;
      assert expected in db.tasks ==> db.tasks[expected := db.tasks[expected]] == db.tasks;
    }
  }

  predicate On(db: Db, d: int) {
    d in db.documents && db.documents[d].enabled
  }

  lemma WriteSwitches(db: Db, actor: int, request: int, body: Body, newId: int, now: int, d: int)
    ensures var u := Write(db, actor, request, body, newId, now).0;
            On(u, d) != On(db, d) ==>
              body.Change? && body.document == d && Permitted(db, d, body.expected, body.action)
              && body.action == if On(u, d) then Enable else Archive
  {
  }

  lemma WorkSwitchesNothing(s: System, token: nat, move: Move, d: int)
    requires Working(s, token)
    ensures On(WorkerStep(s, token, move).db, d) == On(s.db, d)
  {
  }

  /** A step that switches a document on or off is a permitted Enable or Archive of it; uploads, claims and
      finishes leave the switch alone, and a new document is off. */
  lemma EnabledOnlyByChange(steps: seq<Step>, step: Step, d: int)
    ensures var db, u := Run(INITIAL, steps).db, Run(INITIAL, steps + [step]).db;
            On(u, d) != On(db, d) ==>
            step.Admin? && step.body.Change? && step.body.document == d && Permitted(db, d, step.body.expected, step.body.action)
            && step.body.action == if On(u, d) then Enable else Archive
  {
    RunOneMore(INITIAL, steps, step);
    var s := Run(INITIAL, steps);
    match step {
      case Admin(actor, request, body, newId, now) =>
        if newId !in s.db.documents { WriteSwitches(s.db, actor, request, body, newId, now, d); }
      case ClaimTask(v, now) =>
      case LateWrite(_, _) =>
      case Work(token, move) =>
        if Working(s, token) { WorkSwitchesNothing(s, token, move, d); }
    }
  }

  /** An upload is accepted exactly for a knowledge base that exists and, if it replaces a document of that base,
      for its newest version. It becomes the newest version, waiting for its first claim, and what was
      published stays published. */
  lemma UploadDecides(steps: seq<Step>, actor: int, request: int, base: int, target: Option<(int, VersionId)>, chunks: seq<string>,
                      newId: int, now: int)
    requires var db := Run(INITIAL, steps).db; request !in db.requests && newId !in db.documents
    ensures var db := Run(INITIAL, steps).db;
            var (u, reply) := Write(db, actor, request, Upload(base, target, chunks), newId, now);
            var v, d := VersionId(actor, request), if target.Some? then target.value.0 else newId;
            (reply.Done? <==> base in db.bases && (target.Some? ==> d in db.documents && db.documents[d].base == base
                                                                    && db.documents[d].current == target.value.1)) &&
            (reply.Error? ==> u == db) &&
            (reply.Done? ==>
              reply == Done(Uploaded(v, d)) && v !in db.versions && v in u.versions && v in u.tasks && d in u.documents &&
              u.versions == db.versions[v := u.versions[v]] && u.versions[v].document == d && u.versions[v].chunks == chunks &&
              (forall w :: w in db.versions ==> u.versions[w].order < u.versions[v].order) &&
              u.tasks == db.tasks[v := Task(PENDING, 0, None, now, 0, None)] && Claimable(u, v, now) &&
              u.documents == db.documents[d := u.documents[d]] && u.documents[d].current == v && u.documents[d].base == base &&
              if d in db.documents then
                u.documents[d].active == db.documents[d].active && u.documents[d].enabled == db.documents[d].enabled
              else u.documents[d].active == None && !u.documents[d].enabled)
  {
    Reachable(steps);
    var db := Run(INITIAL, steps).db;
    NewVersion(db, VersionId(actor, request));
    forall w | w in db.versions
      ensures db.versions[w].order < |db.versions|
    {
      assert VersionOk(db, w);
    }
  }

  // ----- a worker that nobody disturbs -----

  /** The steps of a worker from the check before this chunk to the end of its writing. */
  function Batches(token: nat, offset: nat, n: nat, now: int): seq<Step>
    decreases if offset < n then n - offset else 0
  {
    if offset >= n then [Work(token, Check(now))]
    else [Work(token, Check(now)), Work(token, WriteBatch({}, true))] + Batches(token, offset + BATCH, n, now)
  }

  function Job(v: VersionId, token: nat, n: nat, now: int): seq<Step> {
    [ClaimTask(v, now), Work(token, Fetched(true))] + Batches(token, 0, n, now)
  }

  /** A worker that holds its task and has written so many chunks of it. */
  ghost predicate HoldsTask(s: System, v: VersionId, token: nat, phase: Phase, now: int) {
    token in s.workers && s.workers[token] == Worker(v, phase) && Working(s, token)
    && HoldsLease(s.db, v, token, now) && s.db.tasks[v].state == RUNNING
  }

  ghost predicate SameContent(a: Db, b: Db) {
    b.documents == a.documents && b.versions == a.versions
  }

  lemma TwoSteps(s: System, a: Step, b: Step, rest: seq<Step>)
    ensures Run(s, [a, b] + rest) == Run(Next(Next(s, a), b), rest)
  {
    assert ([a, b] + rest)[1..] == [b] + rest && ([b] + rest)[1..] == rest;
  }

  lemma OneBatch(s: System, v: VersionId, token: nat, offset: nat, now: int)
    requires HoldsTask(s, v, token, Checking(offset), now) && offset < |s.db.versions[v].chunks|
    ensures var u := Next(Next(s, Work(token, Check(now))), Work(token, WriteBatch({}, true)));
            HoldsTask(u, v, token, Checking(offset + BATCH), now) && SameContent(s.db, u.db)
  {
  }

  lemma {:induction false} BatchesWrite(s: System, v: VersionId, token: nat, offset: nat, now: int)
    requires HoldsTask(s, v, token, Checking(offset), now)
    ensures var n := |s.db.versions[v].chunks|;
            var u := Run(s, Batches(token, offset, n, now));
            HoldsTask(u, v, token, Finishing(n, None), now) && SameContent(s.db, u.db)
    decreases if offset < |s.db.versions[v].chunks| then |s.db.versions[v].chunks| - offset else 0
  {
    var n := |s.db.versions[v].chunks|;
    if offset >= n {
      assert [Work(token, Check(now))][1..] == [];
    } else {
      OneBatch(s, v, token, offset, now);
      TwoSteps(s, Work(token, Check(now)), Work(token, WriteBatch({}, true)), Batches(token, offset + BATCH, n, now));
      BatchesWrite(Next(Next(s, Work(token, Check(now))), Work(token, WriteBatch({}, true))), v, token, offset + BATCH, now);
    }
  }

  lemma Claims(s: System, v: VersionId, now: int)
    requires Claimable(s.db, v, now) && VersionOk(s.db, v) && ClaimsSinceReset(s.db.log, v) < 4
    ensures var u := Next(s, ClaimTask(v, now));
            HoldsTask(u, v, s.db.issued, Fetching, now) && SameContent(s.db, u.db)
  {
    ClaimLeaves(s.db, v, now);
  }

  lemma Fetches(s: System, v: VersionId, token: nat, now: int)
    requires HoldsTask(s, v, token, Fetching, now) && 1 <= |s.db.versions[v].chunks| <= 1000
    ensures var u := Next(s, Work(token, Fetched(true)));
            HoldsTask(u, v, token, Checking(0), now) && SameContent(s.db, u.db)
  {
  }

  /** A worker that claims a due task and is disturbed by nobody while its lease runs publishes the version, if it
      is still the current one: so the guards of all these steps can be met, for every text of 1 to 1000 chunks. */
  lemma UndisturbedJobPublishes(steps: seq<Step>, v: VersionId, now: int)
    requires var db := Run(INITIAL, steps).db;
             Claimable(db, v, now) && ClaimsSinceReset(db.log, v) < 4 && v in db.versions && 1 <= |db.versions[v].chunks| <= 1000
    ensures var s := Run(INITIAL, steps);
            var n, d := |s.db.versions[v].chunks|, s.db.versions[v].document;
            var u := Next(Run(s, Job(v, s.db.issued, n, now)), Work(s.db.issued, FinishTask(now)));
            v in u.db.tasks && u.db.tasks[v].state == READY && u.db.tasks[v].count == n && d in s.db.documents && d in u.db.documents &&
            (s.db.documents[d].current == v ==> u.db.documents[d].active == Some(v))
  {
    Reachable(steps);
    var s := Run(INITIAL, steps);
    var token, n := s.db.issued, |s.db.versions[v].chunks|;
    assert VersionOk(s.db, v);
    Claims(s, v, now);
    Fetches(Next(s, ClaimTask(v, now)), v, token, now);
    TwoSteps(s, ClaimTask(v, now), Work(token, Fetched(true)), Batches(token, 0, n, now));
    BatchesWrite(Next(Next(s, ClaimTask(v, now)), Work(token, Fetched(true))), v, token, 0, now);
  }

  /** What is enabled and indexed is found: the current version of an enabled document, once READY, is returned
      for its knowledge base, and may be pinned. */
  lemma IndexedIsFound(steps: seq<Step>, bases: set<int>, d: int)
    requires var db := Run(INITIAL, steps).db;
             d in db.documents && db.documents[d].enabled && db.documents[d].base in bases &&
             db.documents[d].current in db.tasks && db.tasks[db.documents[d].current].state == READY
    ensures var db := Run(INITIAL, steps).db;
            Active(db, bases, db.documents[d].current) && Pinned(db, bases, {db.documents[d].current}, db.documents[d].current)
  {
    Reachable(steps);
    var db := Run(INITIAL, steps).db;
    assert Published(db, d) && DocumentOk(db, d);
  }
}
