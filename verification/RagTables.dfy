// Knowledge indexing, the tables: the transactions behind leases and publication, as functions on the
// table contents, and what they keep.
module RagTables {

  datatype Option<+T> = None | Some(value: T)

  /** uuid5 over uploader and request: equal only for the same uploader and request. */
  datatype VersionId = VersionId(actor: int, request: int)

  datatype Document = Document(base: int, current: VersionId, active: Option<VersionId>, enabled: bool)

  /** An uploaded text never changes: its document, its place in the upload order and its chunks. */
  datatype Version = Version(document: int, order: nat, chunks: seq<string>)

  datatype TaskState = PENDING | RUNNING | READY | FAILED

  datatype Lease = Lease(token: nat, until: int)

  datatype Task = Task(state: TaskState, attempts: nat, lease: Option<Lease>, next: int, count: nat, error: Option<string>)

  datatype Action = Retry | Enable | Archive

  /** What a request asks for; its fingerprint identifies all of it. */
  datatype Body =
    | CreateBase(base: int)
    | Upload(base: int, target: Option<(int, VersionId)>, chunks: seq<string>)
    | Change(document: int, expected: VersionId, action: Action)

  datatype Response = BaseCreated(base: int) | Uploaded(version: VersionId, document: int) | Changed(document: int, version: VersionId, action: Action)

  datatype Request = Request(actor: int, body: Body, response: Response)

  datatype Reply = Done(response: Response) | Error(code: string)

  /** What happened to the leases, oldest first. */
  datatype Event = Claimed(version: VersionId, token: nat) | Reset(version: VersionId) | Finished(version: VersionId, token: nat)
  datatype Log = Start | Then(before: Log, event: Event)

  datatype Db = Db(
    bases: set<int>,
    documents: map<int, Document>,
    versions: map<VersionId, Version>,
    tasks: map<VersionId, Task>,
    requests: map<int, Request>,
    issued: nat,
    log: Log)

  const EMPTY := Db({}, map[], map[], map[], map[], 0, Start)
  const MAX_ATTEMPTS := 4
  const LEASE := 60_000

  function Pow2(n: nat): nat { if n == 0 then 1 else 2 * Pow2(n - 1) }

  // ----- transactions -----

  /** Inserts an uploaded version and points its document at it. */
  function StoreUpload(db: Db, version: VersionId, document: int, base: int, chunks: seq<string>, now: int): Db {
    var row := if document in db.documents then db.documents[document].(current := version)
               else Document(base, version, None, false);
    db.(documents := db.documents[document := row],
        versions := db.versions[version := Version(document, |db.versions|, chunks)],
        tasks := db.tasks[version := Task(PENDING, 0, None, now, 0, None)])
  }

  function ChangeDocument(db: Db, document: int, expected: VersionId, action: Action, now: int): (Db, Reply) {
    if document !in db.documents then (db, Error("AGENT_RAG_NOT_FOUND"))
    else
      var doc := db.documents[document];
      if doc.current != expected || expected !in db.tasks then (db, Error("AGENT_RAG_STALE"))
      else
        var task := db.tasks[expected];
        var reply := Done(Changed(document, expected, action));
        match action
        case Retry =>
          if task.state != FAILED then (db, Error("AGENT_RAG_STALE"))
          else
            (db.(tasks := db.tasks[expected := task.(state := PENDING, attempts := 0, next := now, error := None, lease := None)],
                 log := Then(db.log, Reset(expected))), reply)
        case Enable =>
          if doc.active == None then (db, Error("AGENT_RAG_NOT_READY"))
          else (db.(documents := db.documents[document := doc.(enabled := true)]), reply)
        case Archive =>
          (db.(documents := db.documents[document := doc.(enabled := false)]), reply)
  }

  function Perform(db: Db, actor: int, request: int, body: Body, newId: int, now: int): (Db, Reply) {
    match body
    case CreateBase(base) => (db.(bases := db.bases + {base}), Done(BaseCreated(base)))
    case Upload(base, target, chunks) =>
      var version := VersionId(actor, request);
      (match target
       case None =>
         (StoreUpload(db, version, newId, base, chunks, now), Done(Uploaded(version, newId)))
       case Some((document, expected)) =>
         if document !in db.documents || db.documents[document].base != base then (db, Error("AGENT_RAG_NOT_FOUND"))
         else if db.documents[document].current != expected then (db, Error("AGENT_RAG_STALE"))
         else (StoreUpload(db, version, document, base, chunks, now), Done(Uploaded(version, document))))
    case Change(document, expected, action) => ChangeDocument(db, document, expected, action, now)
  }

  /** KnowledgeStore.write: an admin request, carried out at most once. `newId` is a fresh document id. */
  function Write(db: Db, actor: int, request: int, body: Body, newId: int, now: int): (Db, Reply) {
    if body.Upload? && body.base !in db.bases then (db, Error("AGENT_RAG_NOT_FOUND"))
    else if request in db.requests then
      var saved := db.requests[request];
      if saved.actor != actor || saved.body != body then (db, Error("AGENT_RAG_REQUEST_CONFLICT"))
      else (db, Done(saved.response))
    else
      var (after, reply) := Perform(db, actor, request, body, newId, now);
      match reply
      case Error(_) => (db, reply)
      case Done(response) => (after.(requests := after.requests[request := Request(actor, body, response)]), reply)
  }

  predicate Claimable(db: Db, v: VersionId, now: int) {
    v in db.tasks &&
    var task := db.tasks[v];
    (task.state == PENDING && task.next <= now) || (task.state == RUNNING && task.lease.Some? && task.lease.value.until < now)
  }

  /** KnowledgeStore.claim on the row that the query returned; the new token is db.issued. */
  function Claim(db: Db, v: VersionId, now: int): (Db, Option<nat>)
    requires Claimable(db, v, now)
  {
    var task := db.tasks[v];
    if task.attempts >= MAX_ATTEMPTS then
      (db.(tasks := db.tasks[v := task.(state := FAILED, error := Some("AGENT_RAG_RETRIES_EXHAUSTED"))]), None)
    else
      (db.(tasks := db.tasks[v := task.(state := RUNNING, lease := Some(Lease(db.issued, now + LEASE)), attempts := task.attempts + 1)],
           issued := db.issued + 1,
           log := Then(db.log, Claimed(v, db.issued))), Some(db.issued))
  }

  /** The lease on v is the caller's and has not run out. */
  predicate HoldsLease(db: Db, v: VersionId, token: nat, now: int) {
    v in db.tasks && db.tasks[v].lease.Some? && db.tasks[v].lease.value.token == token && db.tasks[v].lease.value.until > now
  }

  function Heartbeat(db: Db, v: VersionId, token: nat, now: int): (Db, bool) {
    if HoldsLease(db, v, token, now) && db.tasks[v].state == RUNNING then
      (db.(tasks := db.tasks[v := db.tasks[v].(lease := Some(Lease(token, now + LEASE)))]), true)
    else (db, false)
  }

  function Finish(db: Db, v: VersionId, token: nat, count: nat, error: Option<string>, now: int): (Db, bool)
    requires v in db.versions && db.versions[v].document in db.documents
  {
    if !HoldsLease(db, v, token, now) then (db, false)
    else
      var task := db.tasks[v];
      var state := if error == None then READY else if task.attempts >= MAX_ATTEMPTS then FAILED else PENDING;
      var next := task.(state := state, count := count, error := error, lease := None, next := now + 1000 * Pow2(task.attempts));
      var document := db.versions[v].document;
      var doc := db.documents[document];
      var published := if error == None && doc.current == v then doc.(active := Some(v)) else doc;
      (db.(tasks := db.tasks[v := next], documents := db.documents[document := published],
           log := Then(db.log, Finished(v, token))), true)
  }

  // ----- reading the log -----

  /** The token of the newest claim of v. */
  function NewestClaim(log: Log, v: VersionId): Option<nat> {
    match log
    case Start => None
    case Then(before, Claimed(w, token)) => if w == v then Some(token) else NewestClaim(before, v)
    case Then(before, _) => NewestClaim(before, v)
  }

  /** The version a token was handed out for. */
  function ClaimedFor(log: Log, token: nat): Option<VersionId> {
    match log
    case Start => None
    case Then(before, Claimed(v, t)) => if t == token then Some(v) else ClaimedFor(before, token)
    case Then(before, _) => ClaimedFor(before, token)
  }

  /** How often v has been claimed since an administrator last retried it. */
  function ClaimsSinceReset(log: Log, v: VersionId): nat {
    match log
    case Start => 0
    case Then(before, Reset(w)) => if w == v then 0 else ClaimsSinceReset(before, v)
    case Then(before, Claimed(w, _)) => ClaimsSinceReset(before, v) + (if w == v then 1 else 0)
    case Then(before, _) => ClaimsSinceReset(before, v)
  }

  /** How many finishes of this token took effect. */
  function Finishes(log: Log, token: nat): nat {
    match log
    case Start => 0
    case Then(before, Finished(_, t)) => Finishes(before, token) + (if t == token then 1 else 0)
    case Then(before, _) => Finishes(before, token)
  }

  // ----- the invariant of the tables -----

  predicate TaskOk(db: Db, v: VersionId) {
    v in db.tasks &&
    var task := db.tasks[v];
    task.attempts == ClaimsSinceReset(db.log, v) <= MAX_ATTEMPTS &&
    (task.state == PENDING ==> task.attempts < MAX_ATTEMPTS) &&
    (task.state == RUNNING ==> task.lease.Some?) &&
    (task.state in {PENDING, READY} ==> task.lease == None) &&
    (task.lease.Some? ==>
      task.lease.value.token < db.issued && NewestClaim(db.log, v) == Some(task.lease.value.token) &&
      ClaimedFor(db.log, task.lease.value.token) == Some(v) && Finishes(db.log, task.lease.value.token) == 0)
  }

  predicate VersionOk(db: Db, v: VersionId) {
    v in db.versions && db.versions[v].document in db.documents && db.versions[v].order < |db.versions| &&
    v.request in db.requests && db.requests[v.request].actor == v.actor && db.requests[v.request].body.Upload? &&
    TaskOk(db, v)
  }

  ghost predicate DocumentOk(db: Db, d: int) {
    d in db.documents &&
    var doc := db.documents[d];
    doc.current in db.versions && db.versions[doc.current].document == d &&
    (doc.enabled ==> doc.active.Some?) &&
    (doc.active.Some? ==>
      doc.active.value in db.versions && db.versions[doc.active.value].document == d &&
      doc.active.value in db.tasks && db.tasks[doc.active.value].state == READY) &&
    forall v {:trigger NotNewer(db, v, d)} :: NotNewer(db, v, d)
  }

  /** v is not an upload to d that came after d's current version. */
  predicate NotNewer(db: Db, v: VersionId, d: int) {
    d in db.documents && db.documents[d].current in db.versions &&
    (v in db.versions && db.versions[v].document == d ==>
      db.versions[v].order <= db.versions[db.documents[d].current].order)
  }

  /** Tokens that were never issued left no trace, and no token finished twice. */
  ghost predicate TokensOk(log: Log, issued: nat) {
    (forall token: nat :: token >= issued ==> ClaimedFor(log, token) == None && Finishes(log, token) == 0) &&
    (forall token: nat :: Finishes(log, token) <= 1)
  }

  ghost predicate TablesOk(db: Db) {
    db.tasks.Keys == db.versions.Keys &&
    (forall v {:trigger VersionOk(db, v)} :: v in db.versions ==> VersionOk(db, v)) &&
    (forall v {:trigger ClaimsSinceReset(db.log, v)} :: v !in db.versions ==> ClaimsSinceReset(db.log, v) == 0) &&
    (forall d {:trigger DocumentOk(db, d)} :: d in db.documents ==> DocumentOk(db, d)) &&
    TokensOk(db.log, db.issued)
  }

  /** What no transaction takes back: answered requests and uploads stay as they are, READY stays READY with its chunk count,
      and each document's current and published versions only move forward in upload order. */
  ghost predicate Forward(a: Db, b: Db) {
    a.bases <= b.bases &&
    (forall r :: r in a.requests ==> r in b.requests && b.requests[r] == a.requests[r]) &&
    (forall v :: v in a.versions ==> v in b.versions && b.versions[v] == a.versions[v]) &&
    (forall v :: v in a.tasks && a.tasks[v].state == READY ==>
      v in b.tasks && b.tasks[v].state == READY && b.tasks[v].count == a.tasks[v].count) &&
    (forall d :: d in a.documents ==> d in b.documents && ForwardDocument(b.versions, a.documents[d], b.documents[d]))
  }

  predicate ForwardDocument(versions: map<VersionId, Version>, a: Document, b: Document) {
    NotBefore(versions, a.current, b.current) &&
    (a.active.Some? ==> b.active.Some? && NotBefore(versions, a.active.value, b.active.value))
  }

  predicate NotBefore(versions: map<VersionId, Version>, v: VersionId, w: VersionId) {
    v == w || (v in versions && w in versions && versions[v].order <= versions[w].order)
  }

  // ----- every transaction keeps the invariant and moves forward -----

  /** Documents stay in order when tasks and versions only move forward and no document changes. */
  lemma SameDocuments(a: Db, b: Db)
    requires TablesOk(a)
    requires b.documents == a.documents && b.versions == a.versions
    requires forall v :: v in a.tasks && a.tasks[v].state == READY ==> v in b.tasks && b.tasks[v].state == READY
    ensures forall d :: d in b.documents ==> DocumentOk(b, d)
  {
    forall d | d in b.documents ensures DocumentOk(b, d) {
      assert DocumentOk(a, d);
      forall v ensures NotNewer(b, v, d) {
        assert NotNewer(a, v, d);
      }
    }
  }

  lemma TokensKept(log: Log, issued: nat, event: Event)
    requires TokensOk(log, issued)
    requires event.Claimed? ==> event.token == issued
    requires event.Finished? ==> event.token < issued && Finishes(log, event.token) == 0
    ensures TokensOk(Then(log, event), if event.Claimed? then issued + 1 else issued)
  {
    var after, n := Then(log, event), if event.Claimed? then issued + 1 else issued;
    forall token: nat ensures Finishes(after, token) <= 1 {
      assert Finishes(log, token) <= 1;
    }
    forall token: nat | token >= n ensures ClaimedFor(after, token) == None && Finishes(after, token) == 0 {
      assert ClaimedFor(log, token) == None;
    }
  }

  /** Rewriting tasks that were not READY takes nothing back. */
  lemma TasksForward(a: Db, b: Db)
    requires b == a.(tasks := b.tasks, log := b.log, issued := b.issued)
    requires forall v :: v in a.tasks && a.tasks[v].state == READY ==> v in b.tasks && b.tasks[v] == a.tasks[v]
    ensures Forward(a, b)
  {
  }

  /** A transaction that rewrites one task, which was not READY, keeps everything else in order. */
  lemma OneTask(a: Db, b: Db, v: VersionId)
    requires TablesOk(a) && v in a.tasks && v in b.tasks && a.tasks[v].state != READY
    requires b == a.(tasks := a.tasks[v := b.tasks[v]], log := b.log, issued := b.issued)
    requires TokensOk(b.log, b.issued)
    requires forall w {:trigger TaskOk(b, w)} :: w in a.versions ==> TaskOk(b, w)
    requires forall w {:trigger ClaimsSinceReset(b.log, w)} :: w !in a.versions ==> ClaimsSinceReset(b.log, w) == 0
    ensures TablesOk(b) && Forward(a, b)
  {
    TasksForward(a, b);
    SameDocuments(a, b);
    forall w | w in b.versions ensures VersionOk(b, w) {
      assert VersionOk(a, w) && TaskOk(b, w);
    }
    assert b.tasks.Keys == b.versions.Keys;
  }

  /** Versions stay in order when neither tasks nor versions change and no document or request goes away. */
  lemma SameVersions(a: Db, b: Db)
    requires TablesOk(a)
    requires b == a.(bases := b.bases, documents := b.documents, requests := b.requests)
    requires a.documents.Keys <= b.documents.Keys
    requires forall r :: r in a.requests ==> r in b.requests && b.requests[r] == a.requests[r]
    ensures forall v :: v in b.versions ==> VersionOk(b, v)
  {
    forall v | v in b.versions ensures VersionOk(b, v) {
      assert VersionOk(a, v);
    }
  }

  lemma DocumentsForward(a: Db, b: Db)
    requires b == a.(bases := b.bases, documents := b.documents, requests := b.requests) && a.bases <= b.bases
    requires forall r :: r in a.requests ==> r in b.requests && b.requests[r] == a.requests[r]
    requires forall d :: d in a.documents ==> d in b.documents && ForwardDocument(a.versions, a.documents[d], b.documents[d])
    ensures Forward(a, b)
  {
  }

  /** A transaction that rewrites one document row keeps everything else in order. */
  lemma OneDocument(a: Db, b: Db, d: int)
    requires TablesOk(a) && d in a.documents && d in b.documents
    requires b == a.(documents := a.documents[d := b.documents[d]])
    requires b.documents[d].current == a.documents[d].current
    requires DocumentOk(b, d) && ForwardDocument(a.versions, a.documents[d], b.documents[d])
    ensures TablesOk(b) && Forward(a, b)
  {
    SameVersions(a, b);
    DocumentsForward(a, b);
    forall e | e in b.documents ensures DocumentOk(b, e) {
      assert DocumentOk(a, e);
      forall w ensures NotNewer(b, w, e) {
        assert NotNewer(a, w, e);
      }
    }
  }

  /** The tables after an upload, its request included. */
  function Stored(db: Db, version: VersionId, document: int, base: int, chunks: seq<string>, now: int, request: Request): Db {
    var after := StoreUpload(db, version, document, base, chunks, now);
    after.(requests := after.requests[version.request := request])
  }

  /** A new request gives a new version id. */
  lemma NewVersion(db: Db, version: VersionId)
    requires TablesOk(db) && version.request !in db.requests
    ensures version !in db.versions && ClaimsSinceReset(db.log, version) == 0
  {
    assert version in db.versions ==> VersionOk(db, version);
    assert ClaimsSinceReset(db.log, version) == 0;
  }

  lemma UploadKeepsVersions(db: Db, version: VersionId, document: int, base: int, chunks: seq<string>, now: int, request: Request)
    requires TablesOk(db) && version.request !in db.requests
    requires request.actor == version.actor && request.body.Upload?
    ensures var saved := Stored(db, version, document, base, chunks, now, request);
            forall v :: v in saved.versions ==> VersionOk(saved, v)
  {
    var saved := Stored(db, version, document, base, chunks, now, request);
    NewVersion(db, version);
    forall v | v in saved.versions ensures VersionOk(saved, v) {
      if v != version { assert VersionOk(db, v); }
    }
  }

  lemma UploadKeepsDocuments(db: Db, version: VersionId, document: int, base: int, chunks: seq<string>, now: int, request: Request)
    requires TablesOk(db) && version.request !in db.requests
    ensures var saved := Stored(db, version, document, base, chunks, now, request);
            forall d :: d in saved.documents ==> DocumentOk(saved, d)
  {
    var saved := Stored(db, version, document, base, chunks, now, request);
    NewVersion(db, version);
    forall d | d in saved.documents ensures DocumentOk(saved, d) {
      if d in db.documents { assert DocumentOk(db, d); }
      forall v ensures NotNewer(saved, v, d) {
        if v in db.versions { assert VersionOk(db, v); }
        if d in db.documents { assert NotNewer(db, v, d); }
      }
    }
  }

  lemma UploadForward(db: Db, version: VersionId, document: int, base: int, chunks: seq<string>, now: int, request: Request)
    requires TablesOk(db) && version.request !in db.requests && version !in db.versions
    ensures Forward(db, Stored(db, version, document, base, chunks, now, request))
  {
    var saved := Stored(db, version, document, base, chunks, now, request);
    if document in db.documents {
      assert DocumentOk(db, document);
      assert VersionOk(db, db.documents[document].current);
    }
  }

  lemma UploadKeeps(db: Db, version: VersionId, document: int, base: int, chunks: seq<string>, now: int, request: Request)
    requires TablesOk(db) && version.request !in db.requests
    requires request.actor == version.actor && request.body.Upload?
    ensures version !in db.versions
    ensures var saved := Stored(db, version, document, base, chunks, now, request);
            TablesOk(saved) && Forward(db, saved)
  {
    NewVersion(db, version);
    UploadKeepsVersions(db, version, document, base, chunks, now, request);
    UploadKeepsDocuments(db, version, document, base, chunks, now, request);
    UploadForward(db, version, document, base, chunks, now, request);
  }

  lemma RetryKeeps(db: Db, v: VersionId, task: Task)
    requires TablesOk(db) && v in db.tasks && db.tasks[v].state == FAILED
    requires task.state == PENDING && task.attempts == 0 && task.lease == None
    ensures var after := db.(tasks := db.tasks[v := task], log := Then(db.log, Reset(v)));
            TablesOk(after) && Forward(db, after)
  {
    var after := db.(tasks := db.tasks[v := task], log := Then(db.log, Reset(v)));
    forall w | w in db.versions ensures TaskOk(after, w) {
      assert VersionOk(db, w);
    }
    TokensKept(db.log, db.issued, Reset(v));
    OneTask(db, after, v);
  }

  lemma ToggleKeeps(db: Db, document: int, enabled: bool)
    requires TablesOk(db) && document in db.documents
    requires enabled ==> db.documents[document].active.Some?
    ensures var after := db.(documents := db.documents[document := db.documents[document].(enabled := enabled)]);
            TablesOk(after) && Forward(db, after)
  {
    var after := db.(documents := db.documents[document := db.documents[document].(enabled := enabled)]);
    assert DocumentOk(db, document);
    forall v ensures NotNewer(after, v, document) {
      assert NotNewer(db, v, document);
    }
    OneDocument(db, after, document);
  }

  lemma ChangeKeeps(db: Db, document: int, expected: VersionId, action: Action, now: int)
    requires TablesOk(db)
    ensures var after := ChangeDocument(db, document, expected, action, now).0;
            TablesOk(after) && Forward(db, after)
  {
    if document in db.documents && expected in db.tasks {
      var doc, task := db.documents[document], db.tasks[expected];
      if action == Retry {
        if task.state == FAILED {
          RetryKeeps(db, expected, task.(state := PENDING, attempts := 0, next := now, error := None, lease := None));
        }
      } else if action == Archive || doc.active.Some? {
        ToggleKeeps(db, document, action == Enable);
      }
    }
  }

  lemma ClaimKeeps(db: Db, v: VersionId, now: int)
    requires TablesOk(db) && Claimable(db, v, now)
    ensures var after := Claim(db, v, now).0; TablesOk(after) && Forward(db, after)
  {
    var after := Claim(db, v, now).0;
    assert VersionOk(db, v);
    assert ClaimedFor(db.log, db.issued) == None && Finishes(db.log, db.issued) == 0;
    forall w | w in db.versions ensures TaskOk(after, w) {
      assert VersionOk(db, w);
    }
    TokensKept(db.log, db.issued, Claimed(v, db.issued));
    OneTask(db, after, v);
  }

  lemma HeartbeatKeeps(db: Db, v: VersionId, token: nat, now: int)
    requires TablesOk(db)
    ensures var after := Heartbeat(db, v, token, now).0; TablesOk(after) && Forward(db, after)
  {
    var after := Heartbeat(db, v, token, now).0;
    if after != db {
      forall w | w in db.versions ensures TaskOk(after, w) {
        assert VersionOk(db, w);
      }
      OneTask(db, after, v);
    } else {
      Unchanged(db);
    }
  }

  lemma Unchanged(db: Db)
    ensures Forward(db, db)
  {
  }

  /** Publishing the current version keeps a document in order. */
  lemma PublishKeeps(db: Db, v: VersionId)
    requires TablesOk(db) && v in db.versions && v in db.tasks && db.tasks[v].state == READY
    requires db.versions[v].document in db.documents && db.documents[db.versions[v].document].current == v
    ensures var d := db.versions[v].document;
            var after := db.(documents := db.documents[d := db.documents[d].(active := Some(v))]);
            TablesOk(after) && Forward(db, after)
  {
    var document := db.versions[v].document;
    var after := db.(documents := db.documents[document := db.documents[document].(active := Some(v))]);
    assert DocumentOk(db, document);
    forall w ensures NotNewer(after, w, document) {
      assert NotNewer(db, w, document);
    }
    if db.documents[document].active.Some? {
      assert NotNewer(db, db.documents[document].active.value, document);
    }
    OneDocument(db, after, document);
  }

  lemma ReleaseKeeps(db: Db, v: VersionId, token: nat, task: Task)
    requires TablesOk(db) && v in db.tasks && db.tasks[v].lease.Some? && db.tasks[v].lease.value.token == token
    requires task.attempts == db.tasks[v].attempts && task.lease == None
    requires task.state in {READY, FAILED} || (task.state == PENDING && task.attempts < MAX_ATTEMPTS)
    ensures var after := db.(tasks := db.tasks[v := task], log := Then(db.log, Finished(v, token)));
            TablesOk(after) && Forward(db, after)
  {
    var after := db.(tasks := db.tasks[v := task], log := Then(db.log, Finished(v, token)));
    assert VersionOk(db, v);
    forall w | w in db.versions ensures TaskOk(after, w) {
      assert VersionOk(db, w);
    }
    TokensKept(db.log, db.issued, Finished(v, token));
    OneTask(db, after, v);
  }

  lemma FinishKeeps(db: Db, v: VersionId, token: nat, count: nat, error: Option<string>, now: int)
    requires TablesOk(db) && v in db.versions && db.versions[v].document in db.documents
    ensures var after := Finish(db, v, token, count, error, now).0; TablesOk(after) && Forward(db, after)
  {
    var after := Finish(db, v, token, count, error, now).0;
    if HoldsLease(db, v, token, now) {
      var released := db.(tasks := after.tasks, log := after.log);
      ReleaseKeeps(db, v, token, after.tasks[v]);
      var document := db.versions[v].document;
      if error == None && db.documents[document].current == v {
        PublishKeeps(released, v);
        assert after == released.(documents := after.documents);
      } else {
        assert after.documents == db.documents;
        assert after == released;
      }
    }
  }

  /** A transaction that adds bases or requests only. */
  lemma RequestKeeps(a: Db, b: Db)
    requires TablesOk(a) && b == a.(bases := b.bases, requests := b.requests) && a.bases <= b.bases
    requires forall r :: r in a.requests ==> r in b.requests && b.requests[r] == a.requests[r]
    ensures TablesOk(b) && Forward(a, b)
  {
    SameDocuments(a, b);
    SameVersions(a, b);
    DocumentsForward(a, b);
  }

  /** Whatever an administrator asks for, under any request id. */
  lemma WriteKeeps(db: Db, actor: int, request: int, body: Body, newId: int, now: int)
    requires TablesOk(db) && newId !in db.documents
    ensures var after := Write(db, actor, request, body, newId, now).0; TablesOk(after) && Forward(db, after)
  {
    Unchanged(db);
    var (performed, reply) := Perform(db, actor, request, body, newId, now);
    if request !in db.requests && reply.Done? && !(body.Upload? && body.base !in db.bases) {
      var saved := Request(actor, body, reply.response);
      match body
      case CreateBase(base) =>
        RequestKeeps(db, performed.(requests := performed.requests[request := saved]));
      case Upload(base, target, chunks) =>
        var document := if target.Some? then target.value.0 else newId;
        UploadKeeps(db, VersionId(actor, request), document, base, chunks, now, saved);
      case Change(document, expected, action) =>
        ChangeKeeps(db, document, expected, action, now);
        RequestKeeps(performed, performed.(requests := performed.requests[request := saved]));
    }
  }

  /** Repeating an answered request, after whatever happened since, gives the same answer and
      changes nothing. */
  lemma WriteReplays(db: Db, actor: int, request: int, body: Body, newId: int, now: int, since: Db, newId': int, later: int)
    requires Write(db, actor, request, body, newId, now).1.Done?
    requires Forward(Write(db, actor, request, body, newId, now).0, since)
    ensures Write(since, actor, request, body, newId', later) == (since, Write(db, actor, request, body, newId, now).1)
  {
    var (after, reply) := Write(db, actor, request, body, newId, now);
    assert request in after.requests;
  }
}
