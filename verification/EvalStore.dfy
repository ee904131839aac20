// The evaluation store itself: each method is one transaction that updates the rows in place.
module EvalStore {
  import opened EvalTables

  function RunningRows(rows: map<(nat, nat), ModelRow>): set<(nat, nat)> {
    set k | k in rows && rows[k].status == Reviewing
  }

  function NoLongerPending(results: map<nat, Result>): map<nat, Result> {
    map r | r in results ::
      if results[r].modelStatus == Pending then results[r].(modelStatus := Unavailable, modelError := INTERRUPTED) else results[r]
  }

  function NoLongerRunning(results: map<nat, Result>, ran: set<(nat, nat)>): map<nat, Result> {
    map r | r in results ::
      if (r, results[r].modelAttempt) in ran && results[r].modelStatus == Reviewing
      then results[r].(modelStatus := Unavailable, modelError := INTERRUPTED) else results[r]
  }

  /** The update of the pending results and that of the interrupted ones together recover every result. */
  lemma RecoveryInThree(results: map<nat, Result>, rows: map<(nat, nat), ModelRow>, s: State)
    requires s.results == results && s.modelReviews == rows
    ensures NoLongerRunning(NoLongerPending(results), RunningRows(rows)) == RecoverReviews(s).results
  {
    forall r | r in results
      ensures NoLongerRunning(NoLongerPending(results), RunningRows(rows))[r] == RecoveredResult(s, r)
    {
    }
  }

  class EvaluationStore {
    var runs: map<nat, EvalRun>
    var results: map<nat, Result>
    var modelReviews: map<(nat, nat), ModelRow>
    var modelRequests: map<string, (nat, nat)>
    var reviews: map<(nat, nat), ReviewRow>
    var reviewRequests: map<string, (nat, nat)>

    function Snapshot(): State
      reads this
    {
      State(runs, results, modelReviews, modelRequests, reviews, reviewRequests)
    }

    /** The tables are in step, as they are in every reachable state. */
    ghost predicate Valid()
      reads this
    {
      Inv(Snapshot())
    }

    constructor ()
      ensures Valid() && Snapshot() == Reached(Start)
    {
      runs, results, modelReviews, modelRequests, reviews, reviewRequests := map[], map[], map[], map[], map[], map[];
      new;
      InvAlways(Start);
    }

    method RequestCancel(run: nat, expected: nat, request: string)
      requires Valid()
      modifies this`runs
      ensures Valid()
      ensures Snapshot() == Next(old(Snapshot()), DoCancel(run, expected, request))
    {
      StepKeeps(Snapshot(), DoCancel(run, expected, request));
      if run !in runs || runs[run].cancelRequest == Some(request) {
        return;
      }
      if Open(runs[run]) && runs[run].version == expected {
        runs := runs[run := runs[run].(cancelRequested := true, cancelRequest := Some(request), version := runs[run].version + 1)];
      }
    }

    method FinishRun(run: nat, status: RunStatus)
      requires Valid() && status != Queued && status != Running
      modifies this`runs
      ensures Valid()
      ensures Snapshot() == Next(old(Snapshot()), DoFinishRun(run, status))
    {
      StepKeeps(Snapshot(), DoFinishRun(run, status));
      if run in runs && Open(runs[run]) {
        var last := if runs[run].cancelRequested then Cancelled else status;
        runs := runs[run := runs[run].(status := last, version := runs[run].version + 1)];
      }
    }

    method AddResult(id: nat, run: nat, caseId: string, repeat: nat, status: ResultStatus, checks: Checks, reviewer: bool)
      requires Valid()
      modifies this`runs, this`results
      ensures Valid()
      ensures Snapshot() == Next(old(Snapshot()), DoAdd(id, run, caseId, repeat, status, checks, reviewer))
    {
      StepKeeps(Snapshot(), DoAdd(id, run, caseId, repeat, status, checks, reviewer));
      if !CanAdd(Snapshot(), id, run, caseId, repeat) {
        return;  // a key or a check constraint refuses the row
      }
      results := results[id := NewResult(run, caseId, repeat, status, checks, reviewer)];
      var row := runs[run];
      runs := runs[run := row.(completed := row.completed + 1,
                               hardFailures := row.hardFailures + Bit(checks.hardFail == Some(true)),
                               errors := row.errors + Bit(status == Broken),
                               version := row.version + 1)];
    }

    method BeginModelReview(target: nat, actor: int, request: string, expected: nat, retry: bool) returns (answer: Answer)
      requires Valid()
      modifies this`results, this`modelReviews, this`modelRequests
      ensures Valid()
      ensures answer == BeginAnswer(old(Snapshot()), target, actor, request, expected, retry)
      ensures Snapshot() == Next(old(Snapshot()), DoBegin(target, actor, request, expected, retry))
    {
      StepKeeps(Snapshot(), DoBegin(target, actor, request, expected, retry));
      if target !in results || results[target].run !in runs {
        return NotFound;
      }
      if request in modelRequests && modelRequests[request] in modelReviews {
        var row := modelReviews[modelRequests[request]];
        return if row.actor != actor || row.fingerprint != BeginOf(target, expected, retry) then Conflict
               else Duplicate(modelRequests[request].1);
      }
      var current := results[target];
      if !runs[current.run].reviewed {
        return NotEnabled;
      }
      if !Reviewable(current) {
        return NotReady;
      }
      if retry {
        if current.modelAttempt != expected || current.modelStatus != Unavailable {
          return Stale;
        }
      } else if current.modelAttempt != 0 || expected != 0 {
        return Stale;
      }
      var attempt := InsertAttempt(target, actor, request, BeginOf(target, expected, retry));
      return Begun(attempt);
    }

    /** The row of a new attempt, and the result that waits for it. */
    method InsertAttempt(target: nat, actor: int, request: string, fingerprint: Fingerprint) returns (attempt: nat)
      requires target in results
      modifies this`results, this`modelReviews, this`modelRequests
      ensures attempt == old(results[target]).modelAttempt + 1
      ensures modelReviews == old(modelReviews)[(target, attempt) := ModelRow(actor, fingerprint, Reviewing, None, None)]
      ensures modelRequests == old(modelRequests)[request := (target, attempt)]
      ensures results == old(results)[target := old(results[target]).(modelStatus := Reviewing, modelAttempt := attempt, modelReview := None, modelError := None)]
    {
      attempt := results[target].modelAttempt + 1;
      modelReviews := modelReviews[(target, attempt) := ModelRow(actor, fingerprint, Reviewing, None, None)];
      modelRequests := modelRequests[request := (target, attempt)];
      results := results[target := results[target].(modelStatus := Reviewing, modelAttempt := attempt, modelReview := None, modelError := None)];
    }

    method FinishModelReview(target: nat, attempt: nat, review: Option<Review>, error: Option<string>)
      requires Valid()
      modifies this`results, this`modelReviews
      ensures Valid()
      ensures Snapshot() == Next(old(Snapshot()), DoFinish(target, attempt, review, error))
    {
      StepKeeps(Snapshot(), DoFinish(target, attempt, review, error));
      if !StillRunning(Snapshot(), target, attempt) {
        return;
      }
      var status := if review.Some? then Reviewed else Unavailable;
      results := results[target := results[target].(modelStatus := status, modelReview := review, modelError := error)];
      var key := (target, attempt);
      if key in modelReviews {
        modelReviews := modelReviews[key := modelReviews[key].(status := status, review := review, error := error)];
      }
    }

    /** Three updates: the pending results, the running rows, and then the results of the rows that ran. */
    method RecoverOrphanedModelReviews()
      requires Valid()
      modifies this`results, this`modelReviews
      ensures Valid()
      ensures Snapshot() == Next(old(Snapshot()), DoRecoverReviews)
    {
      StepKeeps(Snapshot(), DoRecoverReviews);
      RecoveryInThree(results, modelReviews, Snapshot());
      var ran := RunningRows(modelReviews);
      results := NoLongerPending(results);
      modelReviews := map k | k in modelReviews :: RecoveredRow(modelReviews[k]);
      results := NoLongerRunning(results, ran);
    }

    method SaveReview(target: nat, actor: int, request: string, expected: nat, manual: Manual) returns (answer: Answer)
      requires Valid()
      modifies this`results, this`reviews, this`reviewRequests
      ensures Valid()
      ensures answer == SaveAnswer(old(Snapshot()), target, actor, request, expected, manual)
      ensures Snapshot() == Next(old(Snapshot()), DoSave(target, actor, request, expected, manual))
    {
      StepKeeps(Snapshot(), DoSave(target, actor, request, expected, manual));
      if target !in results {
        return NotFound;
      }
      if request in reviewRequests && reviewRequests[request] in reviews {
        var row := reviews[reviewRequests[request]];
        return if row.actor != actor || row.fingerprint != ReviewOf(target, expected, manual) then Conflict
               else Duplicate(reviewRequests[request].1);
      }
      var current := results[target];
      if current.reviewVersion != expected {
        return Stale;
      }
      if manual.pass && !Reviewable(current) {
        return HardFailure;
      }
      results := results[target := current.(manual := Some(manual), reviewVersion := expected + 1)];
      reviews := reviews[(target, expected + 1) := ReviewRow(actor, ReviewOf(target, expected, manual), current.manual, manual)];
      reviewRequests := reviewRequests[request := (target, expected + 1)];
      return Accepted(expected + 1);
    }
  }
}
