// Knowledge indexing, the store object: each method is one transaction that updates the rows in place.
module RagStore {
  import opened RagTables

  class KnowledgeStore {
    var bases: set<int>
    var documents: map<int, Document>
    var versions: map<VersionId, Version>
    var tasks: map<VersionId, Task>
    var requests: map<int, Request>
    var issued: nat  // lease tokens handed out so far: uuid4 never repeats one
    ghost var log: Log

    ghost function Tables(): Db
      reads this
    {
      Db(bases, documents, versions, tasks, requests, issued, log)
    }

    /** The tables are in order, as they are in every reachable state. */
    ghost predicate Valid()
      reads this
    {
      TablesOk(Tables())
    }

    constructor ()
      ensures Valid() && Tables() == EMPTY
    {
      bases, documents, versions, tasks, requests, issued, log := {}, map[], map[], map[], map[], 0, Start;
    }

    method Write(actor: int, request: int, body: Body, newId: int, now: int) returns (reply: Reply)
      requires Valid() && newId !in documents
      modifies this
      ensures Valid() && Forward(old(Tables()), Tables())
      ensures (Tables(), reply) == RagTables.Write(old(Tables()), actor, request, body, newId, now)
    {
      WriteKeeps(Tables(), actor, request, body, newId, now);
      if body.Upload? && body.base !in bases {
        return Error("AGENT_RAG_NOT_FOUND");
      }
      if request in requests {
        var saved := requests[request];
        if saved.actor != actor || saved.body != body {
          return Error("AGENT_RAG_REQUEST_CONFLICT");
        }
        return Done(saved.response);
      }
      match body {
        case CreateBase(base) =>
          bases := bases + {base};
          reply := Done(BaseCreated(base));
        case Upload(base, target, chunks) =>
          reply := StoreVersion(VersionId(actor, request), base, target, chunks, newId, now);
        case Change(document, expected, action) =>
          reply := ChangeState(document, expected, action, now);
      }
      if reply.Done? {
        requests := requests[request := Request(actor, body, reply.response)];
      }
    }

    /** The mutation of upload. */
    method StoreVersion(version: VersionId, base: int, target: Option<(int, VersionId)>, chunks: seq<string>, newId: int, now: int)
      returns (reply: Reply)
      modifies this
      ensures (Tables(), reply) ==
              RagTables.Perform(old(Tables()), version.actor, version.request, Upload(base, target, chunks), newId, now)
    {
      var document := newId;
      if target.Some? {
        document := target.value.0;
        if document !in documents || documents[document].base != base {
          return Error("AGENT_RAG_NOT_FOUND");
        }
        if documents[document].current != target.value.1 {
          return Error("AGENT_RAG_STALE");
        }
      }
      if document !in documents {
        documents := documents[document := Document(base, version, None, false)];
      }
      versions := versions[version := Version(document, |versions|, chunks)];
      documents := documents[document := documents[document].(current := version)];
      tasks := tasks[version := Task(PENDING, 0, None, now, 0, None)];
      reply := Done(Uploaded(version, document));
      assert documents == old(documents)[document := documents[document]];
    }

    /** The mutation of change: retry, enable or archive. */
    method ChangeState(document: int, expected: VersionId, action: Action, now: int) returns (reply: Reply)
      modifies this
      ensures (Tables(), reply) == ChangeDocument(old(Tables()), document, expected, action, now)
    {
      if document !in documents {
        return Error("AGENT_RAG_NOT_FOUND");
      }
      var doc := documents[document];
      if doc.current != expected || expected !in tasks {
        return Error("AGENT_RAG_STALE");
      }
      var task := tasks[expected];
      if action == Retry {
        if task.state != FAILED {
          return Error("AGENT_RAG_STALE");
        }
        tasks := tasks[expected := task.(state := PENDING, attempts := 0, next := now, error := None, lease := None)];
        log := Then(log, Reset(expected));
      } else {
        if action == Enable && doc.active == None {
          return Error("AGENT_RAG_NOT_READY");
        }
        documents := documents[document := doc.(enabled := action == Enable)];
      }
      reply := Done(Changed(document, expected, action));
    }

    /** `row` is the unlocked row the query found, if any. */
    method Claim(row: Option<VersionId>, now: int) returns (token: Option<nat>)
      requires Valid() && (row.Some? ==> Claimable(Tables(), row.value, now))
      modifies this
      ensures Valid() && Forward(old(Tables()), Tables())
      ensures (Tables(), token) ==
              if row == None then (old(Tables()), None) else RagTables.Claim(old(Tables()), row.value, now)
      ensures token.Some? ==>
                row.Some? && row.value in tasks && token.value == old(issued) < issued &&
                tasks[row.value].state == RUNNING && tasks[row.value].lease == Some(Lease(token.value, now + 60_000))
    {
      if row == None {
        return None;
      }
      ClaimKeeps(Tables(), row.value, now);
      var v := row.value;
      var task := tasks[v];
      if task.attempts >= 4 {
        tasks := tasks[v := task.(state := FAILED, error := Some("AGENT_RAG_RETRIES_EXHAUSTED"))];
        return None;
      }
      token := Some(issued);
      tasks := tasks[v := task.(state := RUNNING, lease := Some(Lease(issued, now + LEASE)), attempts := task.attempts + 1)];
      log := Then(log, Claimed(v, issued));
      issued := issued + 1;
    }

    method Heartbeat(v: VersionId, token: nat, now: int) returns (held: bool)
      requires Valid()
      modifies this
      ensures Valid() && Forward(old(Tables()), Tables())
      ensures (Tables(), held) == RagTables.Heartbeat(old(Tables()), v, token, now)
      ensures held <==> v in old(tasks) && old(tasks)[v].state == RUNNING && HoldsLease(old(Tables()), v, token, now)
      ensures tasks == if held then old(tasks)[v := old(tasks)[v].(lease := Some(Lease(token, now + 60_000)))] else old(tasks)
    {
      HeartbeatKeeps(Tables(), v, token, now);
      if v !in tasks || tasks[v].lease == None || tasks[v].lease.value.token != token
         || tasks[v].state != RUNNING || tasks[v].lease.value.until <= now {
        return false;
      }
      tasks := tasks[v := tasks[v].(lease := Some(Lease(token, now + LEASE)))];
      held := true;
    }

    method Finish(v: VersionId, token: nat, count: nat, error: Option<string>, now: int) returns (effective: bool)
      requires Valid() && v in versions && versions[v].document in documents && v in tasks
      modifies this
      ensures Valid() && Forward(old(Tables()), Tables())
      ensures (Tables(), effective) == RagTables.Finish(old(Tables()), v, token, count, error, now)
      ensures effective <==> HoldsLease(old(Tables()), v, token, now)
      ensures effective ==>
                var task, claims := tasks[v], ClaimsSinceReset(old(log), v);
                task.lease == None && task.count == count && task.error == error &&
                task.state == if error == None then READY else if claims < 4 then PENDING else FAILED
      ensures var d := versions[v].document;
              documents[d].active == if effective && error == None && old(documents)[d].current == v then Some(v) else old(documents)[d].active
    {
      FinishKeeps(Tables(), v, token, count, error, now);
      assert VersionOk(Tables(), v);
      var document := versions[v].document;
      var doc, task := documents[document], tasks[v];
      if task.lease == None || task.lease.value.token != token || task.lease.value.until <= now {
        return false;
      }
      var state := if error == None then READY else if task.attempts >= 4 then FAILED else PENDING;
      tasks := tasks[v := task.(state := state, count := count, error := error, lease := None,
                                next := now + 1000 * Pow2(task.attempts))];
      log := Then(log, Finished(v, token));
      if error == None && doc.current == v {
        documents := documents[document := doc.(active := Some(v))];
      }
      effective := true;
      assert documents == old(documents)[document := documents[document]];
    }
  }
}
