// The memory worker's coalescing queue: no notification is lost, not even one refused by a full queue.
module MemoryQueue {

  datatype Job = Job(user: int, conversation: string)

  datatype Option<+T> = None | Some(value: T)

  /** What happened, oldest first: a notification was taken, or the processing of a job began. */
  datatype Event = Noticed(job: Job) | Began(job: Job)
  datatype Log = Start | Then(before: Log, event: Event)

  /** The last notification of this conversation has no later processing yet. */
  predicate Owed(log: Log, job: Job) {
    match log
    case Start => false
    case Then(before, Noticed(j)) => j == job || Owed(before, job)
    case Then(before, Began(j)) => j != job && Owed(before, job)
  }

  /** The notifications taken, oldest first. */
  function Notices(log: Log): seq<Job> {
    match log
    case Start => []
    case Then(before, Noticed(j)) => Notices(before) + [j]
    case Then(before, Began(_)) => Notices(before)
  }

  predicate WellFormed(job: Job) {
    job.user > 0 && job.conversation != ""
  }

  /** The notifications of a script that notify_completed does not reject at once. */
  function Accepted(jobs: seq<Job>): seq<Job> {
    if jobs == [] then [] else Accepted(jobs[..|jobs| - 1]) + (if WellFormed(jobs[|jobs| - 1]) then [jobs[|jobs| - 1]] else [])
  }

  lemma {:induction false} AcceptedConcat(a: seq<Job>, b: seq<Job>)
    ensures Accepted(a + b) == Accepted(a) + Accepted(b)
    decreases |b|
  {
    if b == [] {
      assert a + b == a;
    } else {
      AcceptedConcat(a, b[..|b| - 1]);
      assert (a + b)[..|a + b| - 1] == a + b[..|b| - 1];
    }
  }

  function Flatten(script: seq<seq<Job>>): seq<Job> {
    if script == [] then [] else Flatten(script[..|script| - 1]) + script[|script| - 1]
  }

  class Worker {
    const capacity: nat
    var queue: seq<Job>
    var pending: set<Job>
    var rerun: set<Job>
    var overflow: set<Job>
    var stopping: bool
    ghost var active: Option<Job>  // taken from the queue, not finished yet
    ghost var log: Log

    ghost predicate Valid()
      reads this
    {
      1 <= capacity && |queue| <= capacity &&
      (forall i, j :: 0 <= i < j < |queue| ==> queue[i] != queue[j]) &&
      // pending is the disjoint union of the queued, the overflowed and the active jobs
      (forall k :: k in pending <==> k in queue || k in overflow || active == Some(k)) &&
      (forall k :: k in queue ==> k !in overflow) &&
      (active.Some? ==> active.value !in queue && active.value !in overflow) &&
      rerun <= pending &&
      (forall k :: Owed(log, k) ==> k in queue || k in overflow || (active == Some(k) && k in rerun))
    }

    constructor (queueSize: nat)
      requires queueSize >= 1
      ensures Valid() && capacity == queueSize && !stopping && active == None && log == Start && pending == {}
    {
      capacity := queueSize;
      queue, pending, rerun, overflow := [], {}, {}, {};
      stopping, active, log := false, None, Start;
    }

    /** The result says whether the job was taken at once; a False on a full queue is kept all the same. */
    method NotifyCompleted(job: Job) returns (taken: bool)
      requires Valid()
      modifies this
      ensures Valid() && stopping == old(stopping) && active == old(active)
      ensures log == if old(stopping) || !WellFormed(job) then old(log) else Then(old(log), Noticed(job))
      ensures old(stopping) || !WellFormed(job) ==>
                !taken && queue == old(queue) && pending == old(pending) && rerun == old(rerun) && overflow == old(overflow)
      ensures !old(stopping) && WellFormed(job) ==> job in pending && (taken <==> job in old(pending) || |old(queue)| < capacity)
      ensures pending <= old(pending) + {job} && old(queue) <= queue
      ensures !old(stopping) && WellFormed(job) && job in old(pending) ==>
                rerun == old(rerun) + {job} && queue == old(queue) && overflow == old(overflow)
      ensures !old(stopping) && WellFormed(job) && job !in old(pending) ==>
                rerun == old(rerun) && (if taken then queue == old(queue) + [job] else overflow == old(overflow) + {job})
    {
      if stopping || job.user <= 0 || job.conversation == "" {
        return false;
      }
      log := Then(log, Noticed(job));
      if job in pending {
        rerun := rerun + {job};
        return true;
      }
      assert job !in overflow;  // the source's second test cannot succeed
      pending := pending + {job};
      if |queue| == capacity {
        overflow := overflow + {job};
        return false;
      }
      queue := queue + [job];
      return true;
    }

    method PromoteOverflow()
      requires Valid()
      modifies this`queue, this`overflow
      ensures Valid() && old(queue) <= queue
      ensures overflow == {} || |queue| == capacity
      ensures queue == [] ==> old(queue) == [] && old(overflow) == {}
    {
      while overflow != {} && |queue| < capacity
        invariant Valid() && old(queue) <= queue
        invariant queue == [] ==> old(queue) == [] && overflow == old(overflow)
        decreases |overflow|
      {
        var job :| job in overflow;
        overflow := overflow - {job};
        queue := queue + [job];
      }
    }

    /** queue.get() on a non-empty queue; processing starts. */
    method Take() returns (job: Job)
      requires Valid() && active == None && queue != []
      modifies this`queue, this`active, this`log
      ensures Valid() && job == old(queue[0]) && active == Some(job) && log == Then(old(log), Began(job))
      ensures queue == old(queue[1..])
    {
      job := queue[0];
      queue := queue[1..];
      active := Some(job);
      log := Then(log, Began(job));
    }

    /** A job that was notified again while it ran is queued again, otherwise it is done. */
    method FinishJob(job: Job)
      requires Valid() && active == Some(job)
      modifies this`queue, this`pending, this`rerun, this`overflow, this`active
      ensures Valid() && active == None
      ensures job in old(rerun) ==> pending == old(pending) && rerun == old(rerun) - {job}
      ensures job in old(rerun) ==>
                if |old(queue)| < capacity then queue == old(queue) + [job] else overflow == old(overflow) + {job}
      ensures job !in old(rerun) ==> pending == old(pending) - {job} && rerun == old(rerun) && queue == old(queue)
    {
      active := None;
      if job !in rerun {
        pending := pending - {job};
        return;
      }
      rerun := rerun - {job};
      if |queue| < capacity {
        queue := queue + [job];
      } else {
        overflow := overflow + {job};
      }
    }

    /** While the worker waits, the rest of the program runs: the notifications of script[turn] arrive,
        or, when the script is used up, close() asks the worker to stop. */
    method Wait(script: seq<seq<Job>>, turn: nat) returns (next: nat)
      requires Valid() && turn <= |script| && (stopping ==> turn == |script|)
      modifies this
      ensures Valid() && active == old(active) && (stopping ==> next == |script|)
      ensures if turn < |script| then next == turn + 1 && stopping == old(stopping) else next == turn && stopping
      ensures old(stopping) ==> queue == old(queue) && pending == old(pending) && rerun == old(rerun) && overflow == old(overflow)
      ensures Notices(log) == old(Notices(log)) + (if turn < |script| then Accepted(script[turn]) else [])
      ensures forall k :: Owed(old(log), k) ==> Owed(log, k)
    {
      next := turn;
      if turn == |script| {
        stopping := true;
        return;
      }
      var jobs := script[turn];
      for i := 0 to |jobs|
        invariant Valid() && active == old(active) && !stopping
        invariant Notices(log) == old(Notices(log)) + Accepted(jobs[..i])
        invariant forall k :: Owed(old(log), k) ==> Owed(log, k)
      {
        var _ := NotifyCompleted(jobs[i]);
        assert jobs[..i + 1][..i] == jobs[..i];
      }
      assert jobs[..|jobs|] == jobs;
      next := turn + 1;
    }

    /** Waits while some notifications arrive, keeping track of all those heard since `before`. */
    method Listen(script: seq<seq<Job>>, turn: nat, ghost before: seq<Job>) returns (next: nat)
      requires Valid() && turn <= |script| && (stopping ==> turn == |script|)
      requires Notices(log) == before + Accepted(Flatten(script[..turn]))
      modifies this
      ensures Valid() && active == old(active) && turn <= next <= |script| && (stopping ==> next == |script|)
      ensures Notices(log) == before + Accepted(Flatten(script[..next]))
      ensures old(stopping) || turn < next || stopping
      ensures old(stopping) ==> stopping && queue == old(queue) && pending == old(pending) && rerun == old(rerun) && overflow == old(overflow)
    {
      next := Wait(script, turn);
      ScriptStep(script, turn, next);
    }

    /** One round of the worker's loop: wait for a job, process it while more notifications arrive. */
    method Round(script: seq<seq<Job>>, turn: nat, ghost before: seq<Job>) returns (next: nat)
      requires Valid() && active == None && turn <= |script| && (stopping ==> turn == |script|)
      requires Notices(log) == before + Accepted(Flatten(script[..turn]))
      requires !stopping || queue != [] || overflow != {}
      modifies this
      ensures Valid() && active == None && turn <= next <= |script| && (stopping ==> next == |script|)
      ensures Notices(log) == before + Accepted(Flatten(script[..next]))
      ensures !old(stopping) ==> turn < next || stopping
      ensures old(stopping) ==> stopping && |pending| + |rerun| < |old(pending)| + |old(rerun)|
    {
      PromoteOverflow();
      next := Listen(script, turn, before);
      if queue == [] {
        return;  // the wait for a job timed out
      }
      var job := Take();
      next := Listen(script, next, before);
      ghost var waiting, again := pending, rerun;
      FinishJob(job);
      assert if job in again then |again - {job}| < |again| else |waiting - {job}| < |waiting|;
    }

    /** The worker's loop, under any schedule of notifications followed by close(): it ends, nothing is
        left anywhere, and every notification was followed by a processing that began after it. */
    method Run(script: seq<seq<Job>>)
      requires Valid() && active == None && !stopping
      modifies this
      ensures Valid() && active == None
      ensures queue == [] && overflow == {} && pending == {} && rerun == {}
      ensures Notices(log) == old(Notices(log)) + Accepted(Flatten(script))
      ensures forall k :: !Owed(log, k)
    {
      var turn := 0;
      while !stopping || queue != [] || overflow != {}
        invariant Valid() && active == None && turn <= |script| && (stopping ==> turn == |script|)
        invariant Notices(log) == old(Notices(log)) + Accepted(Flatten(script[..turn]))
        decreases if stopping then 0 else 1 + |script| - turn, |pending| + |rerun|
      {
        turn := Round(script, turn, old(Notices(log)));
      }
      assert script[..turn] == script;
      assert pending == {};
    }

    lemma ScriptStep(script: seq<seq<Job>>, turn: nat, next: nat)
      requires turn <= next <= |script| && next <= turn + 1
      ensures Accepted(Flatten(script[..next])) ==
              Accepted(Flatten(script[..turn])) + (if turn < next then Accepted(script[turn]) else [])
    {
      if turn < next {
        assert script[..next][..turn] == script[..turn];
        AcceptedConcat(Flatten(script[..turn]), script[turn]);
      }
    }
  }
}
