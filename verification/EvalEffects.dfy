// Evaluation, effects: what is stored is what was given, and when a call is accepted.
module EvalEffects {
  import opened EvalTables

  // ---- model reviews ----

  /** A finish of this attempt of this result came, while the attempt was running, with this review and error. */
  ghost predicate Given(h: History, r: nat, attempt: nat, review: Option<Review>, error: Option<string>) {
    h.Then? &&
    ((h.step == DoFinish(r, attempt, review, error) && StillRunning(Reached(h.before), r, attempt))
     || Given(h.before, r, attempt, review, error))
  }

  /** What a review row holds came from outside: a review only with the finish that brought it. */
  ghost predicate RowFromFinish(h: History, key: (nat, nat))
    requires key in Reached(h).modelReviews
  {
    var row := Reached(h).modelReviews[key];
    row.review.Some? || row.status == Reviewed ==>
      row.review.Some? && row.status == Reviewed && Given(h, key.0, key.1, row.review, row.error)
  }

  lemma RowStep(s: State, step: Step, key: (nat, nat))
    requires Inv(s) && Possible(s, step) && key in Next(s, step).modelReviews
    ensures var row := Next(s, step).modelReviews[key];
            (row.review.Some? || row.status == Reviewed) ==>
              (key in s.modelReviews && s.modelReviews[key] == row) ||
              (step == DoFinish(key.0, key.1, row.review, row.error) && StillRunning(s, key.0, key.1)
               && row.review.Some? && row.status == Reviewed)
  {
    if key in s.modelReviews && s.modelReviews[key].status == Reviewing {
      RunningHasNoReview(s, key);
    }
    match step
    case DoFinish(target, attempt, review, error) => assert (target, attempt) == key ==> target == key.0 && attempt == key.1;
    case DoBegin(_, _, _, _, _) =>
    case DoRecoverReviews =>
    case _ => assert Next(s, step).modelReviews == s.modelReviews;
  }

  /** The row of a running attempt is the newest one, so the result shows what it holds. */
  lemma RunningHasNoReview(s: State, key: (nat, nat))
    requires Inv(s) && key in s.modelReviews && s.modelReviews[key].status == Reviewing
    ensures key.0 in s.results && StillRunning(s, key.0, key.1) && s.modelReviews[key].review == None
  {
    assert key.0 in s.results && ModelOk(s, key.0);
    assert key == (key.0, key.1);
  }

  /** In every reachable state every stored review is, word for word, one that a finish brought while the
      attempt was running. */
  lemma {:induction false} StoredReviewWasGiven(h: History, key: (nat, nat))
    requires Legal(h) && key in Reached(h).modelReviews
    ensures RowFromFinish(h, key)
  {
    var s := Reached(h.before);
    InvAlways(h.before);
    RowStep(s, h.step, key);
    if key in s.modelReviews {
      StoredReviewWasGiven(h.before, key);
    }
  }

  /** So is the review that a result shows. */
  lemma ShownReviewWasGiven(h: History, r: nat)
    requires Legal(h) && r in Reached(h).results
    ensures var x := Reached(h).results[r];
            (x.modelReview.Some? <==> x.modelStatus == Reviewed) &&
            (x.modelReview.Some? ==> exists error :: Given(h, r, x.modelAttempt, x.modelReview, error))
  {
    InvAlways(h);
    var s := Reached(h);
    assert ModelOk(s, r);
    if s.results[r].modelReview.Some? {
      var key := (r, s.results[r].modelAttempt);
      StoredReviewWasGiven(h, key);
      assert Given(h, r, key.1, s.results[r].modelReview, s.modelReviews[key].error);
    }
  }

  /** The finish of a running attempt stores exactly what it brought, in the result and in the row, and nothing
      else; the row keeps it for ever, and the result too if it was a review. */
  lemma FinishStores(h: History, later: History, r: nat, attempt: nat, review: Option<Review>, error: Option<string>)
    requires Legal(later) && Precedes(Then(h, DoFinish(r, attempt, review, error)), later) && Legal(h)
    requires StillRunning(Reached(h), r, attempt)
    ensures var s, u := Reached(h), Reached(Then(h, DoFinish(r, attempt, review, error)));
            var status := if review.Some? then Reviewed else Unavailable;
            r in s.results && (r, attempt) in s.modelReviews &&
            u == s.(results := s.results[r := s.results[r].(modelStatus := status, modelReview := review, modelError := error)],
                    modelReviews := s.modelReviews[(r, attempt) :=
                      s.modelReviews[(r, attempt)].(status := status, review := review, error := error)])
    ensures (r, attempt) in Reached(later).modelReviews && r in Reached(later).results
    ensures var row, x := Reached(later).modelReviews[(r, attempt)], Reached(later).results[r];
            row.review == review && row.error == error && (row.status == Reviewed <==> review.Some?) &&
            (row.status == Unavailable <==> review == None) &&
            (review.Some? ==> x.modelAttempt == attempt && x.modelReview == review && x.modelError == error)
  {
    InvAlways(h);
    assert ModelOk(Reached(h), r);
    var done := Then(h, DoFinish(r, attempt, review, error));
    RowsAreFinal(done, later, (r, attempt));
    if review.Some? {
      ReviewIsFinal(done, later, r);
    } else {
      ResultKeeps(done, later, r);
    }
  }

  /** A review may begin exactly if its request is new, the run has a reviewer and the result passed without a
      hard failure; and, as a first one, if no attempt was ever made, as a retry, if the newest attempt, or
      the wait for the first one, ended without a review. */
  lemma BeginAccepted(h: History, target: nat, actor: int, request: string, expected: nat, retry: bool)
    requires Legal(h)
    ensures var s := Reached(h);
            BeginAnswer(s, target, actor, request, expected, retry).Begun? <==>
            request !in s.modelRequests && target in s.results && s.results[target].run in s.runs && s.runs[s.results[target].run].reviewed
            && s.results[target].status == Passed && s.results[target].checks.hardFail == Some(false) &&
            if !retry then expected == 0 && forall a: nat :: (target, a) !in s.modelReviews
            else if expected == 0 then (forall a: nat :: (target, a) !in s.modelReviews) && s.results[target].modelStatus == Unavailable
            else (target, expected) in s.modelReviews && (target, expected + 1) !in s.modelReviews
                 && s.modelReviews[(target, expected)].status == Unavailable
  {
    InvAlways(h);
    var s := Reached(h);
    if target in s.results {
      assert ModelOk(s, target);
      assert forall a: nat :: (target, a) in s.modelReviews <==> 1 <= a <= s.results[target].modelAttempt;
      var n := s.results[target].modelAttempt;
      assert n > 0 ==> (target, n) in s.modelReviews;
    }
  }

  /** The attempt that begins is the next one; its row says who asked for it, and it runs. */
  lemma BeginStores(h: History, target: nat, actor: int, request: string, expected: nat, retry: bool)
    requires Legal(h) && BeginAnswer(Reached(h), target, actor, request, expected, retry).Begun?
    ensures var s, u := Reached(h), Reached(Then(h, DoBegin(target, actor, request, expected, retry)));
            var attempt := BeginAnswer(s, target, actor, request, expected, retry).attempt;
            attempt == expected + 1 && (target, attempt) !in s.modelReviews && (target, attempt) in u.modelReviews &&
            StillRunning(u, target, attempt) && u.modelReviews[(target, attempt)].status == Reviewing &&
            u.modelReviews[(target, attempt)].actor == actor && u.modelReviews[(target, attempt)].review == None &&
            request in u.modelRequests && u.modelRequests[request] == (target, attempt)
  {
    InvAlways(h);
    assert ModelOk(Reached(h), target);
  }

  // ---- results and human reviews ----

  /** The row of a result as the run wrote it: what reviews never touch. */
  ghost predicate SameResult(x: Result, y: Result) {
    y.run == x.run && y.caseId == x.caseId && y.repeat == x.repeat && y.status == x.status && y.checks == x.checks
  }

  lemma {:induction false} ResultKeeps(h: History, later: History, r: nat)
    requires Legal(later) && Precedes(h, later) && r in Reached(h).results
    ensures r in Reached(later).results && SameResult(Reached(h).results[r], Reached(later).results[r])
  {
    if h != later {
      ResultKeeps(h, later.before, r);
      ResultStep(Reached(later.before), later.step, r);
    }
  }

  lemma ResultStep(s: State, step: Step, r: nat)
    requires r in s.results
    ensures r in Next(s, step).results && SameResult(s.results[r], Next(s, step).results[r])
  {
  }

  /** A result is stored exactly as it was added, and stays so, in a run that had room for it; it then waits for a
      model review exactly if there is a reviewer and it passed without a hard failure. */
  lemma AddStores(h: History, later: History, id: nat, run: nat, caseId: string, repeat: nat, status: ResultStatus, checks: Checks, reviewer: bool)
    requires Legal(later) && Precedes(Then(h, DoAdd(id, run, caseId, repeat, status, checks, reviewer)), later) && Legal(h)
    requires CanAdd(Reached(h), id, run, caseId, repeat)
    ensures id in Reached(later).results
    ensures var x := Reached(later).results[id];
            x.run == run && x.caseId == caseId && x.repeat == repeat && x.status == status && x.checks == checks
    ensures var added := Then(h, DoAdd(id, run, caseId, repeat, status, checks, reviewer));
            id in Reached(added).results &&
            var x := Reached(added).results[id];
            x.manual == None && x.reviewVersion == 0 && x.modelAttempt == 0 && x.modelReview == None &&
            (x.modelStatus == Pending <==> reviewer && status == Passed && checks.hardFail != Some(true)) &&
            (x.modelStatus == NotRequested <==> !reviewer)
  {
    var added := Then(h, DoAdd(id, run, caseId, repeat, status, checks, reviewer));
    ResultKeeps(added, later, id);
  }

  /** Two results of a run never have the same case and repeat. */
  lemma {:induction false} CasesOnce(h: History, a: nat, b: nat)
    requires Legal(h) && a in Reached(h).results && b in Reached(h).results
    requires var x, y := Reached(h).results[a], Reached(h).results[b]; x.run == y.run && x.caseId == y.caseId && x.repeat == y.repeat
    ensures a == b
  {
    var s := Reached(h.before);
    if a in s.results && b in s.results {
      ResultStep(s, h.step, a);
      ResultStep(s, h.step, b);
      CasesOnce(h.before, a, b);
    } else {
      OneNewResult(s, h.step, a, b);
    }
  }

  lemma OneNewResult(s: State, step: Step, a: nat, b: nat)
    requires a in Next(s, step).results && b in Next(s, step).results && (a !in s.results || b !in s.results)
    requires var x, y := Next(s, step).results[a], Next(s, step).results[b]; x.run == y.run && x.caseId == y.caseId && x.repeat == y.repeat
    ensures a == b
  {
  }

  /** A human review is accepted exactly if its request is new, it knows the newest version and does not pass a
      result that is not known to be free of hard failures; it is stored as it was given. */
  lemma SaveStores(h: History, target: nat, actor: int, request: string, expected: nat, manual: Manual)
    requires Legal(h)
    ensures var s, u := Reached(h), Reached(Then(h, DoSave(target, actor, request, expected, manual)));
            var accepted := SaveAnswer(s, target, actor, request, expected, manual).Accepted?;
            (accepted <==> target in s.results && request !in s.reviewRequests && s.results[target].reviewVersion == expected
                           && (manual.pass ==> s.results[target].status == Passed && s.results[target].checks.hardFail == Some(false))) &&
            (!accepted ==> u == s) &&
            (accepted ==>
              (target, expected + 1) !in s.reviews && target in u.results &&
              u.results == s.results[target := s.results[target].(manual := Some(manual), reviewVersion := expected + 1)] &&
              (target, expected + 1) in u.reviews && u.reviews[(target, expected + 1)].after == manual &&
              u.reviews[(target, expected + 1)].before == s.results[target].manual && u.reviews[(target, expected + 1)].actor == actor)
  {
    InvAlways(h);
    var s := Reached(h);
    if target in s.results {
      assert ManualOk(s, target);
    }
  }

  lemma HumanRowStays(s: State, step: Step, key: (nat, nat))
    requires Inv(s) && key in s.reviews
    ensures key in Next(s, step).reviews && Next(s, step).reviews[key] == s.reviews[key]
  {
    assert key.0 in s.results && ManualOk(s, key.0);
    assert key == (key.0, key.1);
    if step.DoSave? && step.target in s.results {
      assert ManualOk(s, step.target);
    }
  }

  /** A human review row never changes. */
  lemma {:induction false} HumanRowsAreFinal(h: History, later: History, key: (nat, nat))
    requires Legal(later) && Precedes(h, later) && key in Reached(h).reviews
    ensures key in Reached(later).reviews && Reached(later).reviews[key] == Reached(h).reviews[key]
  {
    if h != later {
      HumanRowsAreFinal(h, later.before, key);
      InvAlways(later.before);
      HumanRowStays(Reached(later.before), later.step, key);
    }
  }

  // ---- runs ----

  lemma CancelStays(s: State, step: Step, run: nat)
    requires Possible(s, step) && run in s.runs && s.runs[run].cancelRequested
    ensures run in Next(s, step).runs && Next(s, step).runs[run].cancelRequested
    ensures Next(s, step).runs[run].status == s.runs[run].status || Next(s, step).runs[run].status in {Running, Failed, Cancelled}
    ensures step.DoFinishRun? && step.run == run && Open(s.runs[run]) ==> Next(s, step).runs[run].status == Cancelled
  {
  }

  /** A cancellation is accepted exactly while the run is open, at its version, and under another request than
      the last one; from then on the run can end in no other way than cancelled, unless the service crashes. */
  lemma {:induction false} CancelTakesEffect(h: History, later: History, run: nat, expected: nat, request: string)
    requires Legal(later) && Legal(h) && Precedes(Then(h, DoCancel(run, expected, request)), later) && run in Reached(h).runs
    requires Open(Reached(h).runs[run]) && Reached(h).runs[run].version == expected && Reached(h).runs[run].cancelRequest != Some(request)
    ensures run in Reached(later).runs && Reached(later).runs[run].cancelRequested
    ensures Reached(later).runs[run].status in {Queued, Running, Failed, Cancelled}
    ensures Open(Reached(later).runs[run]) ==>
              forall status :: Reached(Then(later, DoFinishRun(run, status))).runs[run].status == Cancelled
  {
    if later != Then(h, DoCancel(run, expected, request)) {
      CancelTakesEffect(h, later.before, run, expected, request);
      CancelStays(Reached(later.before), later.step, run);
    }
  }

  lemma RunChanges(s: State, step: Step, run: nat)
    requires Possible(s, step) && run in s.runs
    ensures run in Next(s, step).runs
    ensures var x, y := s.runs[run], Next(s, step).runs[run];
            y.total == x.total && y.reviewed == x.reviewed && (y != x ==> y.version == x.version + 1)
  {
    match step
    case DoRecoverRuns => assert Next(s, step).runs[run] == Orphaned(s.runs[run]);
    case _ =>
  }

  lemma RunsOnlyByTheirSteps(s: State, step: Step, run: nat)
    requires Possible(s, step) && run in s.runs && run in Next(s, step).runs
    ensures step.DoCreate? || step.DoBegin? || step.DoFinish? || step.DoRecoverReviews? || step.DoSave? ==> Next(s, step).runs[run] == s.runs[run]
  {
  }

  /** What a step makes of a run: every change counts its version up by one, and each kind of step does what its
      name says and nothing else. */
  lemma RunStep(h: History, step: Step, run: nat)
    requires Legal(Then(h, step)) && run in Reached(h).runs
    ensures run in Reached(Then(h, step)).runs
    ensures var x, y := Reached(h).runs[run], Reached(Then(h, step)).runs[run];
            y.total == x.total && y.reviewed == x.reviewed && (y != x ==> y.version == x.version + 1) &&
            match step
            case DoMark(r) => y == if r == run && x.status == Queued then x.(status := Running, version := x.version + 1) else x
            case DoCancel(r, expected, request) =>
              if r == run && Open(x) && x.version == expected && x.cancelRequest != Some(request)
              then y.cancelRequested && y.cancelRequest == Some(request) && y.status == x.status else y == x
            case DoFinishRun(r, status) =>
              if r == run && Open(x) then y.status == (if x.cancelRequested then Cancelled else status) && !Open(y) else y == x
            case DoRecoverRuns => if Open(x) then y.status == Failed && y.cancelRequested else y == x
            case DoAdd(_, r, _, _, _, _, _) => y.status == x.status && y.cancelRequested == x.cancelRequested && (r != run ==> y == x)
            case _ => y == x
  {
    RunChanges(Reached(h), step, run);
    RunsOnlyByTheirSteps(Reached(h), step, run);
  }

  /** A result is accepted exactly if its id is new, its run has fewer results than planned, and none for the same
      case and repeat. */
  lemma AddAccepted(h: History, id: nat, run: nat, caseId: string, repeat: nat)
    requires Legal(h)
    ensures var s := Reached(h);
            CanAdd(s, id, run, caseId, repeat) <==>
            run in s.runs && id !in s.results && |Rows(s.results, InRun(run))| < s.runs[run].total
            && forall r :: r in s.results && s.results[r].run == run ==> !(s.results[r].caseId == caseId && s.results[r].repeat == repeat)
  {
    InvAlways(h);
    assert run in Reached(h).runs ==> RunOk(Reached(h), run);
  }

  /** Recovery ends what was running or waiting, with its reason, and touches nothing else. */
  lemma RecoveryStores(h: History)
    requires Legal(h)
    ensures var s, u := Reached(h), Reached(Then(h, DoRecoverReviews));
            u == s.(results := u.results, modelReviews := u.modelReviews) &&
            u.results.Keys == s.results.Keys && u.modelReviews.Keys == s.modelReviews.Keys &&
            (forall r :: r in s.results ==>
              u.results[r] == if s.results[r].modelStatus == Pending || s.results[r].modelStatus == Reviewing
                              then s.results[r].(modelStatus := Unavailable, modelError := Some("AGENT_EVAL_REVIEW_INTERRUPTED"))
                              else s.results[r]) &&
            (forall k :: k in s.modelReviews ==>
              u.modelReviews[k] == if s.modelReviews[k].status == Reviewing
                                   then s.modelReviews[k].(status := Unavailable, error := Some("AGENT_EVAL_REVIEW_INTERRUPTED"))
                                   else s.modelReviews[k])
  {
    InvAlways(h);
    var s := Reached(h);
    forall r | r in s.results
      ensures RecoveredResult(s, r) == if s.results[r].modelStatus == Pending || s.results[r].modelStatus == Reviewing
                                       then s.results[r].(modelStatus := Unavailable, modelError := Some("AGENT_EVAL_REVIEW_INTERRUPTED"))
                                       else s.results[r]
    {
      RunningIsRecovered(s, r);
    }
  }

  lemma RunningIsRecovered(s: State, r: nat)
    requires r in s.results && ModelOk(s, r)
    ensures RecoveredResult(s, r) == if s.results[r].modelStatus == Pending || s.results[r].modelStatus == Reviewing
                                     then s.results[r].(modelStatus := Unavailable, modelError := Some("AGENT_EVAL_REVIEW_INTERRUPTED"))
                                     else s.results[r]
  {
  }

  /** A result is shown as passed exactly if it passed without a hard failure and the newest human review says so;
      without one, the review of its newest model attempt; and where none was asked for, its own checks. */
  lemma VerdictByReviews(h: History, r: nat)
    requires Legal(h) && r in Reached(h).results
    ensures var s := Reached(h);
            var x := s.results[r];
            (ShownPass(x) <==>
              x.status == Passed && x.checks.hardFail == Some(false) &&
              if (r, 1) in s.reviews then (r, x.reviewVersion) in s.reviews && (r, x.reviewVersion + 1) !in s.reviews
                                          && s.reviews[(r, x.reviewVersion)].after.pass
              else if x.modelStatus == NotRequested then x.checks.pass == Some(true)
              else (r, x.modelAttempt) in s.modelReviews && (r, x.modelAttempt + 1) !in s.modelReviews &&
                   var row := s.modelReviews[(r, x.modelAttempt)];
                   row.status == Reviewed && row.review.Some? && row.review.value.pass == Some(true) && row.review.value.hardFail == Some(false))
  {
    InvAlways(h);
    var s := Reached(h);
    assert ModelOk(s, r) && ManualOk(s, r);
    var x := s.results[r];
    assert (r, 1) in s.reviews <==> x.reviewVersion > 0;
    assert x.reviewVersion > 0 ==> (r, x.reviewVersion) in s.reviews;
    assert (r, x.reviewVersion + 1) !in s.reviews;
    assert (r, x.modelAttempt + 1) !in s.modelReviews;
    assert x.modelAttempt > 0 ==> (r, x.modelAttempt) in s.modelReviews;
  }
}
