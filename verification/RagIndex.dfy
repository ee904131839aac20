// Knowledge indexing, the whole system: administrators, many workers and the vector index,
// interleaved step by step.
module RagIndex {
  import opened RagTables

  /** Where a worker is in its task. Between two phases other workers and administrators may act. */
  datatype Phase =
    | Fetching
    | Checking(offset: nat)
    | Writing(offset: nat)
    | Finishing(count: nat, error: Option<string>)

  /** A worker that claimed `version`; workers are known by the token of their claim. */
  datatype Worker = Worker(version: VersionId, phase: Phase)

  /** A point of the vector index; its id depends on version and chunk number only. */
  datatype Point = Point(version: VersionId, number: nat, text: string)

  type Index = map<(VersionId, nat), Point>

  datatype System = System(db: Db, workers: map<nat, Worker>, index: Index, clock: int)

  const INITIAL := System(RagTables.EMPTY, map[], map[], 0)
  const BATCH := 8
  const MAX_CHUNKS := 1000

  datatype Step =
    | Admin(actor: int, request: int, body: Body, newId: int, now: int)
    | ClaimTask(version: VersionId, now: int)
    | LateWrite(version: VersionId, number: nat)
    | Work(token: nat, move: Move)

  /** What a worker does next. `landed` says which points of a failed write reached the index all the
      same; a LateWrite is a point of a timed-out request that arrives later. */
  datatype Move =
    | Beat(now: int)
    | Fetched(ok: bool)
    | Check(now: int)
    | WriteBatch(landed: set<nat>, ok: bool)
    | Fail(error: string)
    | Crash
    | FinishTask(now: int)

  /** The chunks with the given numbers are written over whatever the index held. */
  function Put(index: Index, v: VersionId, chunks: seq<string>, numbers: set<nat>): Index {
    index + map i | i in numbers && i < |chunks| :: (v, i) := Point(v, i, chunks[i])
  }

  predicate InBatch(offset: nat, i: nat) {
    offset <= i < offset + BATCH
  }

  /** chunks[offset : offset + 8] by number. */
  function Batch(chunks: seq<string>, offset: nat): set<nat> {
    set i: nat | i < |chunks| && InBatch(offset, i)
  }

  function ClockOf(step: Step): Option<int> {
    match step
    case Admin(_, _, _, _, now) => Some(now)
    case ClaimTask(_, now) => Some(now)
    case LateWrite(_, _) => None
    case Work(_, move) => if move.Beat? || move.Check? || move.FinishTask? then Some(move.now) else None
  }

  /** One atomic step; a step that is not possible in s leaves s alone. */
  function Next(s: System, step: Step): System {
    var after := Act(s, step);
    match ClockOf(step)
    case Some(now) => if now > s.clock then after.(clock := now) else after
    case None => after
  }

  function Act(s: System, step: Step): System {
    match step
    case Admin(actor, request, body, newId, now) =>
      if newId in s.db.documents then s else s.(db := Write(s.db, actor, request, body, newId, now).0)
    case ClaimTask(v, now) =>
      if !Claimable(s.db, v, now) then s
      else
        (match Claim(s.db, v, now)
         case (db, None) => s.(db := db)
         case (db, Some(token)) => s.(db := db, workers := s.workers[token := Worker(v, Fetching)]))
    case LateWrite(v, number) =>
      if v in s.db.versions then s.(index := Put(s.index, v, s.db.versions[v].chunks, {number})) else s
    case Work(token, move) => if Working(s, token) then WorkerStep(s, token, move) else s
  }

  predicate Working(s: System, token: nat) {
    token in s.workers && s.workers[token].version in s.db.versions &&
    s.db.versions[s.workers[token].version].document in s.db.documents
  }

  function WorkerStep(s: System, token: nat, move: Move): System
    requires Working(s, token)
  {
    var v, phase := s.workers[token].version, s.workers[token].phase;
    var chunks := s.db.versions[v].chunks;
    match move
    case Beat(now) => s.(db := Heartbeat(s.db, v, token, now).0)
    case Fetched(ok) =>
      if !phase.Fetching? then s
      else if ok && 1 <= |chunks| <= MAX_CHUNKS then At(s, token, Checking(0))
      else At(s, token, Finishing(0, Some("AGENT_RAG_INDEX_FAILED")))
    case Check(now) =>
      if !phase.Checking? then s
      else if phase.offset >= |chunks| then At(s, token, Finishing(|chunks|, None))
      else
        var (db, held) := Heartbeat(s.db, v, token, now);
        if held then At(s.(db := db), token, Writing(phase.offset))
        else s.(workers := s.workers - {token})
    case WriteBatch(landed, ok) =>
      if !phase.Writing? then s
      else
        var batch := Batch(chunks, phase.offset);
        if ok then At(s.(index := Put(s.index, v, chunks, batch)), token, Checking(phase.offset + BATCH))
        else At(s.(index := Put(s.index, v, chunks, batch * landed)), token, Finishing(0, Some("AGENT_RAG_INDEX_FAILED")))
    case Fail(error) => if phase.Finishing? then s else At(s, token, Finishing(0, Some(error)))
    case Crash => s.(workers := s.workers - {token})
    case FinishTask(now) =>
      if !phase.Finishing? then s
      else s.(db := Finish(s.db, v, token, phase.count, phase.error, now).0, workers := s.workers - {token})
  }

  function At(s: System, token: nat, phase: Phase): System
    requires token in s.workers
  {
    s.(workers := s.workers[token := s.workers[token].(phase := phase)])
  }

  function Run(s: System, steps: seq<Step>): System
    decreases |steps|
  {
    if steps == [] then s else Run(Next(s, steps[0]), steps[1..])
  }

  // ----- what retrieval may return -----

  /** KnowledgeStore.active */
  predicate Active(db: Db, bases: set<int>, v: VersionId) {
    exists d :: d in db.documents && db.documents[d].base in bases && db.documents[d].enabled && db.documents[d].active == Some(v)
  }

  /** KnowledgeStore.pinned */
  predicate Pinned(db: Db, bases: set<int>, ids: set<VersionId>, v: VersionId) {
    v in ids && v in db.versions && v in db.tasks && db.tasks[v].state == READY &&
    db.versions[v].document in db.documents &&
    var doc := db.documents[db.versions[v].document]; doc.enabled && doc.base in bases
  }

  // ----- the invariant -----

  /** The first n chunks of v are in the index, with their own text. */
  ghost predicate Present(index: Index, v: VersionId, chunks: seq<string>, n: nat) {
    n <= |chunks| && forall i: nat :: i < n ==> (v, i) in index && index[(v, i)] == Point(v, i, chunks[i])
  }

  ghost predicate WorkerOk(s: System, token: nat) {
    token in s.workers && token < s.db.issued &&
    var v, phase := s.workers[token].version, s.workers[token].phase;
    v in s.db.versions && ClaimedFor(s.db.log, token) == Some(v) &&
    var chunks := s.db.versions[v].chunks;
    (phase.Checking? ==> Present(s.index, v, chunks, if phase.offset < |chunks| then phase.offset else |chunks|)) &&
    (phase.Writing? ==> phase.offset < |chunks| && Present(s.index, v, chunks, phase.offset)) &&
    (phase.Finishing? && phase.error == None ==> phase.count == |chunks| && Present(s.index, v, chunks, |chunks|))
  }

  ghost predicate ReadyComplete(s: System, v: VersionId) {
    v in s.db.tasks && s.db.tasks[v].state == READY ==>
      v in s.db.versions && s.db.tasks[v].count == |s.db.versions[v].chunks| &&
      Present(s.index, v, s.db.versions[v].chunks, |s.db.versions[v].chunks|)
  }

  ghost predicate Inv(s: System) {
    TablesOk(s.db) &&
    (forall token {:trigger WorkerOk(s, token)} :: token in s.workers ==> WorkerOk(s, token)) &&
    (forall v {:trigger ReadyComplete(s, v)} :: ReadyComplete(s, v)) &&
    (forall v: VersionId, i: nat :: (v, i) in s.index ==>
      v in s.db.versions && i < |s.db.versions[v].chunks| && s.index[(v, i)] == Point(v, i, s.db.versions[v].chunks[i]))
  }

  // ----- every step keeps the invariant -----

  /** No task became READY except possibly v's, and no token was handed out twice. */
  ghost predicate Later(a: Db, b: Db, v: Option<VersionId>) {
    TablesOk(b) && Forward(a, b) && a.issued <= b.issued &&
    (forall t: nat :: ClaimedFor(a.log, t).Some? ==> ClaimedFor(b.log, t) == ClaimedFor(a.log, t)) &&
    (forall w :: w in b.tasks && b.tasks[w].state == READY && Some(w) != v ==>
      w in a.tasks && a.tasks[w].state == READY)
  }

  lemma AdminLater(db: Db, actor: int, request: int, body: Body, newId: int, now: int)
    requires TablesOk(db) && newId !in db.documents
    ensures Later(db, Write(db, actor, request, body, newId, now).0, None)
  {
    WriteKeeps(db, actor, request, body, newId, now);
    AdminMakesNothingReady(db, actor, request, body, newId, now);
    assert forall t: nat :: ClaimedFor(Write(db, actor, request, body, newId, now).0.log, t) == ClaimedFor(db.log, t);
  }

  lemma AdminMakesNothingReady(db: Db, actor: int, request: int, body: Body, newId: int, now: int)
    ensures var after := Write(db, actor, request, body, newId, now).0;
            forall w :: w in after.tasks && after.tasks[w].state == READY ==> w in db.tasks && db.tasks[w].state == READY
  {
  }

  lemma ClaimLater(db: Db, v: VersionId, now: int)
    requires TablesOk(db) && Claimable(db, v, now)
    ensures Later(db, Claim(db, v, now).0, None)
  {
    ClaimKeeps(db, v, now);
    var after := Claim(db, v, now).0;
    forall t: nat | ClaimedFor(db.log, t).Some? ensures ClaimedFor(after.log, t) == ClaimedFor(db.log, t) {
      assert t < db.issued;
    }
  }

  lemma HeartbeatLater(db: Db, v: VersionId, token: nat, now: int)
    requires TablesOk(db)
    ensures Later(db, Heartbeat(db, v, token, now).0, None)
  {
    HeartbeatKeeps(db, v, token, now);
  }

  lemma FinishLater(db: Db, v: VersionId, token: nat, count: nat, error: Option<string>, now: int)
    requires TablesOk(db) && v in db.versions && db.versions[v].document in db.documents
    ensures Later(db, Finish(db, v, token, count, error, now).0, if error == None then Some(v) else None)
  {
    FinishKeeps(db, v, token, count, error, now);
  }

  /** The index only gained or rewrote points with the right text. */
  ghost predicate IndexGrows(a: System, b: System) {
    (forall p :: p in a.index ==> p in b.index) &&
    (forall v: VersionId, i: nat :: (v, i) in b.index ==>
      ((v, i) in a.index && b.index[(v, i)] == a.index[(v, i)]) ||
      (v in a.db.versions && i < |a.db.versions[v].chunks| && b.index[(v, i)] == Point(v, i, a.db.versions[v].chunks[i])))
  }

  lemma PresentKept(a: System, b: System, v: VersionId, n: nat)
    requires IndexGrows(a, b) && v in a.db.versions && Present(a.index, v, a.db.versions[v].chunks, n)
    ensures Present(b.index, v, a.db.versions[v].chunks, n)
  {
  }

  lemma WorkerKept(a: System, b: System, token: nat)
    requires WorkerOk(a, token) && IndexGrows(a, b) && Forward(a.db, b.db) && a.db.issued <= b.db.issued
    requires ClaimedFor(b.db.log, token) == ClaimedFor(a.db.log, token)
    requires token in b.workers && b.workers[token] == a.workers[token]
    ensures WorkerOk(b, token)
  {
    var worker := a.workers[token];
    var chunks := a.db.versions[worker.version].chunks;
    match worker.phase
    case Fetching =>
    case Checking(offset) => PresentKept(a, b, worker.version, if offset < |chunks| then offset else |chunks|);
    case Writing(offset) => PresentKept(a, b, worker.version, offset);
    case Finishing(_, error) => if error == None { PresentKept(a, b, worker.version, |chunks|); }
  }

  /** The general step: one worker may move, one version may become READY. */
  lemma StepKeeps(a: System, b: System, token: Option<nat>, v: Option<VersionId>)
    requires Inv(a) && Later(a.db, b.db, v) && IndexGrows(a, b)
    requires forall t :: t in b.workers && Some(t) != token ==> t in a.workers && b.workers[t] == a.workers[t]
    requires token.Some? && token.value in b.workers ==> WorkerOk(b, token.value)
    requires v.Some? ==> ReadyComplete(b, v.value)
    ensures Inv(b)
  {
    forall t | t in b.workers ensures WorkerOk(b, t) {
      if Some(t) != token {
        assert WorkerOk(a, t);
        WorkerKept(a, b, t);
      }
    }
    forall w ensures ReadyComplete(b, w) {
      if w in b.db.tasks && b.db.tasks[w].state == READY && Some(w) != v {
        assert ReadyComplete(a, w);
        PresentKept(a, b, w, |a.db.versions[w].chunks|);
      }
    }
  }

  lemma SameDb(db: Db)
    requires TablesOk(db)
    ensures Later(db, db, None)
  {
  }

  lemma PutGrows(s: System, v: VersionId, numbers: set<nat>, b: System)
    requires v in s.db.versions && b.index == Put(s.index, v, s.db.versions[v].chunks, numbers)
    ensures IndexGrows(s, b)
    ensures forall i: nat :: i in numbers && i < |s.db.versions[v].chunks| ==>
      (v, i) in b.index && b.index[(v, i)] == Point(v, i, s.db.versions[v].chunks[i])
  {
  }

  /** A worker that only moves to another phase. */
  lemma MoveKeeps(s: System, token: nat, phase: Phase)
    requires Inv(s) && token in s.workers && WorkerOk(At(s, token, phase), token)
    ensures Inv(At(s, token, phase))
  {
    SameDb(s.db);
    StepKeeps(s, At(s, token, phase), Some(token), None);
  }

  lemma CheckKeeps(s: System, token: nat, now: int)
    requires Inv(s) && Working(s, token)
    ensures Inv(WorkerStep(s, token, Check(now)))
  {
    var v, phase := s.workers[token].version, s.workers[token].phase;
    var b := WorkerStep(s, token, Check(now));
    assert WorkerOk(s, token);
    if phase.Checking? && phase.offset >= |s.db.versions[v].chunks| {
      MoveKeeps(s, token, Finishing(|s.db.versions[v].chunks|, None));
    } else if phase.Checking? {
      HeartbeatLater(s.db, v, token, now);
      if token in b.workers {
        PresentKept(s, b, v, phase.offset);
      }
      StepKeeps(s, b, Some(token), None);
    }
  }

  lemma WriteBatchKeeps(s: System, token: nat, landed: set<nat>, ok: bool)
    requires Inv(s) && Working(s, token)
    ensures Inv(WorkerStep(s, token, WriteBatch(landed, ok)))
  {
    var v, phase := s.workers[token].version, s.workers[token].phase;
    var b := WorkerStep(s, token, WriteBatch(landed, ok));
    if phase.Writing? {
      var batch := Batch(s.db.versions[v].chunks, phase.offset);
      assert WorkerOk(s, token);
      PutGrows(s, v, if ok then batch else batch * landed, b);
      PresentKept(s, b, v, phase.offset);
      SameDb(s.db);
      StepKeeps(s, b, Some(token), None);
    }
  }

  lemma FinishTaskKeeps(s: System, token: nat, now: int)
    requires Inv(s) && Working(s, token)
    ensures Inv(WorkerStep(s, token, FinishTask(now)))
  {
    var v, phase := s.workers[token].version, s.workers[token].phase;
    if phase.Finishing? {
      assert WorkerOk(s, token) && ReadyComplete(s, v);
      FinishLater(s.db, v, token, phase.count, phase.error, now);
      StepKeeps(s, WorkerStep(s, token, FinishTask(now)), Some(token), if phase.error == None then Some(v) else None);
    }
  }

  lemma WorkerStepKeeps(s: System, token: nat, move: Move)
    requires Inv(s) && Working(s, token)
    ensures Inv(WorkerStep(s, token, move))
  {
    assert WorkerOk(s, token);
    var b := WorkerStep(s, token, move);
    match move {
      case Beat(now) =>
        HeartbeatLater(s.db, s.workers[token].version, token, now);
        StepKeeps(s, b, None, None);
      case Check(now) => CheckKeeps(s, token, now);
      case WriteBatch(landed, ok) => WriteBatchKeeps(s, token, landed, ok);
      case FinishTask(now) => FinishTaskKeeps(s, token, now);
      case Crash =>
        SameDb(s.db);
        StepKeeps(s, b, None, None);
      case Fetched(_) => if b != s { MoveKeeps(s, token, b.workers[token].phase); }
      case Fail(_) => if b != s { MoveKeeps(s, token, b.workers[token].phase); }
    }
  }

  lemma ClaimTaskKeeps(s: System, v: VersionId, now: int)
    requires Inv(s) && Claimable(s.db, v, now)
    ensures Inv(Act(s, ClaimTask(v, now)))
  {
    ClaimLater(s.db, v, now);
    var b := Act(s, ClaimTask(v, now));
    StepKeeps(s, b, if Claim(s.db, v, now).1.Some? then Some(s.db.issued) else None, None);
  }

  lemma ActKeeps(s: System, step: Step)
    requires Inv(s)
    ensures Inv(Act(s, step))
  {
    match step {
      case Admin(actor, request, body, newId, now) =>
        if newId !in s.db.documents {
          AdminLater(s.db, actor, request, body, newId, now);
          StepKeeps(s, Act(s, step), None, None);
        }
      case ClaimTask(v, now) =>
        if Claimable(s.db, v, now) { ClaimTaskKeeps(s, v, now); }
      case LateWrite(v, number) =>
        if v in s.db.versions {
          PutGrows(s, v, {number}, Act(s, step));
          SameDb(s.db);
          StepKeeps(s, Act(s, step), None, None);
        }
      case Work(token, move) =>
        if Working(s, token) { WorkerStepKeeps(s, token, move); }
    }
  }

  lemma NextKeeps(s: System, step: Step)
    requires Inv(s)
    ensures Inv(Next(s, step))
  {
    ActKeeps(s, step);
    var b := Act(s, step);
    SameDb(b.db);
    StepKeeps(b, Next(s, step), None, None);
  }

  // ----- the main results: every run, every interleaving -----

  /** Every state that any sequence of steps can reach is in order. */
  lemma {:induction false} RunKeeps(s: System, steps: seq<Step>)
    requires Inv(s)
    ensures Inv(Run(s, steps))
    decreases |steps|
  {
    if steps != [] {
      NextKeeps(s, steps[0]);
      RunKeeps(Next(s, steps[0]), steps[1..]);
    }
  }

  lemma InitialInv()
    ensures Inv(INITIAL)
  {
  }

  lemma WorkForward(s: System, token: nat, move: Move)
    requires Inv(s) && Working(s, token)
    ensures Forward(s.db, WorkerStep(s, token, move).db)
  {
    var v, phase := s.workers[token].version, s.workers[token].phase;
    Unchanged(s.db);
    if move.Beat? || move.Check? {
      HeartbeatKeeps(s.db, v, token, move.now);
    } else if move.FinishTask? && phase.Finishing? {
      FinishKeeps(s.db, v, token, phase.count, phase.error, move.now);
    }
  }

  lemma NextForward(s: System, step: Step)
    requires Inv(s)
    ensures Forward(s.db, Next(s, step).db)
  {
    Unchanged(s.db);
    match step {
      case Admin(actor, request, body, newId, now) =>
        if newId !in s.db.documents { WriteKeeps(s.db, actor, request, body, newId, now); }
      case ClaimTask(v, now) => if Claimable(s.db, v, now) { ClaimKeeps(s.db, v, now); }
      case LateWrite(_, _) =>
      case Work(token, move) => if Working(s, token) { WorkForward(s, token, move); }
    }
  }

  lemma ForwardTransitive(a: Db, b: Db, c: Db)
    requires Forward(a, b) && Forward(b, c)
    ensures Forward(a, c)
  {
    forall d | d in a.documents ensures d in c.documents && ForwardDocument(c.versions, a.documents[d], c.documents[d]) {
      assert ForwardDocument(b.versions, a.documents[d], b.documents[d]);
    }
  }

  /** Along any run uploads and answered requests stay, READY is never left, and every document's
      current and published version only moves forward in upload order. */
  lemma {:induction false} RunForward(s: System, steps: seq<Step>)
    requires Inv(s)
    ensures Forward(s.db, Run(s, steps).db)
    decreases |steps|
  {
    if steps == [] {
      Unchanged(s.db);
    } else {
      NextKeeps(s, steps[0]);
      NextForward(s, steps[0]);
      RunForward(Next(s, steps[0]), steps[1..]);
      ForwardTransitive(s.db, Next(s, steps[0]).db, Run(Next(s, steps[0]), steps[1..]).db);
    }
  }

  /** Whatever retrieval may return in a reachable state has every chunk of its text in the index, and
      the index holds no other text for it. */
  lemma RetrievedIsComplete(steps: seq<Step>, bases: set<int>, ids: set<VersionId>, v: VersionId)
    requires var s := Run(INITIAL, steps); Active(s.db, bases, v) || Pinned(s.db, bases, ids, v)
    ensures var s := Run(INITIAL, steps);
            v in s.db.versions &&
            Present(s.index, v, s.db.versions[v].chunks, |s.db.versions[v].chunks|) &&
            forall i: nat :: (v, i) in s.index ==> i < |s.db.versions[v].chunks|
  {
    InitialInv();
    RunKeeps(INITIAL, steps);
    var s := Run(INITIAL, steps);
    if Active(s.db, bases, v) {
      var d :| d in s.db.documents && s.db.documents[d].active == Some(v);
      assert DocumentOk(s.db, d);
    }
    assert ReadyComplete(s, v);
  }

  /** A finish takes effect exactly when the worker's claim is the newest one of its task, has not been
      given back and has not run out; otherwise tasks and documents stay as they are. */
  lemma FinishOnlyNewestClaim(steps: seq<Step>, token: nat, now: int)
    requires var s := Run(INITIAL, steps); token in s.workers && s.workers[token].phase.Finishing?
    ensures var s := Run(INITIAL, steps);
            var v, phase := s.workers[token].version, s.workers[token].phase;
            v in s.db.tasks && v in s.db.versions && s.db.versions[v].document in s.db.documents &&
            var (after, effective) := Finish(s.db, v, token, phase.count, phase.error, now);
            (effective <==> NewestClaim(s.db.log, v) == Some(token) && s.db.tasks[v].lease.Some? && s.db.tasks[v].lease.value.until > now) &&
            (!effective ==> after == s.db) &&
            Next(s, Work(token, FinishTask(now))).db == after
  {
    InitialInv();
    RunKeeps(INITIAL, steps);
    var s := Run(INITIAL, steps);
    assert WorkerOk(s, token) && VersionOk(s.db, s.workers[token].version);
  }

  /** No claim is finished twice, and between two retries a task is claimed at most four times. */
  lemma ClaimsAreBounded(steps: seq<Step>, token: nat, v: VersionId)
    ensures var db := Run(INITIAL, steps).db;
            Finishes(db.log, token) <= 1 && ClaimsSinceReset(db.log, v) <= MAX_ATTEMPTS
  {
    InitialInv();
    RunKeeps(INITIAL, steps);
    var db := Run(INITIAL, steps).db;
    assert Finishes(db.log, token) <= 1;
    if v in db.versions {
      assert VersionOk(db, v);
    } else {
      assert ClaimsSinceReset(db.log, v) == 0;
    }
  }

  // ----- with one clock that never runs backwards -----

  /** Only a RUNNING task has a lease that is still running. */
  ghost predicate LeasesTimely(db: Db, clock: int) {
    forall v {:trigger Timed(db, v, clock)} :: Timed(db, v, clock)
  }

  predicate Timed(db: Db, v: VersionId, clock: int) {
    v in db.tasks && db.tasks[v].lease.Some? && db.tasks[v].state != RUNNING ==> db.tasks[v].lease.value.until < clock
  }

  predicate Timely(s: System, steps: seq<Step>)
    decreases |steps|
  {
    steps == [] ||
    ((ClockOf(steps[0]).Some? ==> s.clock <= ClockOf(steps[0]).value) && Timely(Next(s, steps[0]), steps[1..]))
  }

  /** Every transaction leaves a task's lease alone, ends it, or starts it on a RUNNING task; the claim
      that gives a task up does so after its lease has run out. */
  lemma ActTimed(s: System, step: Step, v: VersionId)
    requires Inv(s) && Timed(s.db, v, s.clock)
    requires ClockOf(step).Some? ==> s.clock <= ClockOf(step).value
    ensures Timed(Act(s, step).db, v, if ClockOf(step).Some? then ClockOf(step).value else s.clock)
  {
    match step {
      case Work(token, move) => if Working(s, token) { WorkTimed(s, token, move, v); }
      case Admin(actor, request, body, newId, now) => AdminTimed(s.db, actor, request, body, newId, now, v, s.clock);
      case ClaimTask(claimed, now) => if Claimable(s.db, claimed, now) { ClaimTimed(s.db, claimed, now, v, s.clock); }
      case LateWrite(_, _) =>
    }
  }

  lemma AdminTimed(db: Db, actor: int, request: int, body: Body, newId: int, now: int, v: VersionId, clock: int)
    requires Timed(db, v, clock)
    ensures Timed(Write(db, actor, request, body, newId, now).0, v, clock)
  {
    if body.Change? {
      assert Timed(ChangeDocument(db, body.document, body.expected, body.action, now).0, v, clock);
    } else {
      assert Timed(Perform(db, actor, request, body, newId, now).0, v, clock);
    }
  }

  lemma ClaimTimed(db: Db, claimed: VersionId, now: int, v: VersionId, clock: int)
    requires TablesOk(db) && Claimable(db, claimed, now) && Timed(db, v, clock) && clock <= now
    ensures Timed(Claim(db, claimed, now).0, v, now)
  {
    assert VersionOk(db, claimed);
  }

  lemma WorkTimed(s: System, token: nat, move: Move, v: VersionId)
    requires Inv(s) && Working(s, token) && Timed(s.db, v, s.clock)
    ensures Timed(WorkerStep(s, token, move).db, v, s.clock)
  {
  }

  lemma LeasesStayTimely(s: System, step: Step)
    requires Inv(s) && LeasesTimely(s.db, s.clock)
    requires ClockOf(step).Some? ==> s.clock <= ClockOf(step).value
    ensures LeasesTimely(Next(s, step).db, Next(s, step).clock)
  {
    var b := Next(s, step);
    forall v ensures Timed(b.db, v, b.clock) {
      assert Timed(s.db, v, s.clock);
      ActTimed(s, step, v);
    }
  }

  lemma {:induction false} RunStaysTimely(s: System, steps: seq<Step>)
    requires Inv(s) && LeasesTimely(s.db, s.clock) && Timely(s, steps)
    ensures LeasesTimely(Run(s, steps).db, Run(s, steps).clock)
    decreases |steps|
  {
    if steps != [] {
      NextKeeps(s, steps[0]);
      LeasesStayTimely(s, steps[0]);
      RunStaysTimely(Next(s, steps[0]), steps[1..]);
    }
  }

  /** With such a clock a finish also never revives a task that was given up: it takes effect only
      while the task is RUNNING. */
  lemma FinishOnlyRunning(steps: seq<Step>, token: nat, now: int)
    requires Timely(INITIAL, steps)
    requires var s := Run(INITIAL, steps); token in s.workers && s.clock <= now
    ensures var s := Run(INITIAL, steps);
            var v := s.workers[token].version;
            HoldsLease(s.db, v, token, now) ==> s.db.tasks[v].state == RUNNING
  {
    InitialInv();
    RunStaysTimely(INITIAL, steps);
    var s := Run(INITIAL, steps);
    assert Timed(s.db, s.workers[token].version, s.clock);
  }
}
