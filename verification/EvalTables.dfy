// Evaluation results with their human and model reviews: tables that every transaction keeps in step.
module EvalTables {

  datatype Option<+T> = None | Some(value: T)

  datatype RunStatus = Queued | Running | Completed | Failed | Cancelled
  datatype ResultStatus = Passed | Broken | Aborted  // COMPLETED, FAILED, CANCELLED
  datatype ReviewStatus = NotRequested | Pending | Reviewing | Reviewed | Unavailable | Skipped

  /** JSON documents: a key may be missing. */
  datatype Checks = Checks(pass: Option<bool>, hardFail: Option<bool>)
  datatype Review = Review(pass: Option<bool>, hardFail: Option<bool>, text: string)
  datatype Manual = Manual(pass: bool, text: string, actor: int)

  datatype EvalRun = EvalRun(
    status: RunStatus, total: nat, completed: nat, hardFailures: nat, errors: nat,
    cancelRequested: bool, cancelRequest: Option<string>, version: nat, reviewed: bool)

  datatype Result = Result(
    run: nat, caseId: string, repeat: nat, status: ResultStatus, checks: Checks,
    reviewVersion: nat, manual: Option<Manual>,
    modelStatus: ReviewStatus, modelAttempt: nat, modelReview: Option<Review>, modelError: Option<string>)

  datatype Fingerprint = BeginOf(result: nat, expected: nat, retry: bool) | ReviewOf(result: nat, expected: nat, manual: Manual)

  datatype ModelRow = ModelRow(actor: int, fingerprint: Fingerprint, status: ReviewStatus, review: Option<Review>, error: Option<string>)

  datatype ReviewRow = ReviewRow(actor: int, fingerprint: Fingerprint, before: Option<Manual>, after: Manual)

  /** A model review row is found by (result, attempt), a human one by (result, version), and each by the
      unique id of the request that made it. */
  datatype State = State(
    runs: map<nat, EvalRun>,
    results: map<nat, Result>,
    modelReviews: map<(nat, nat), ModelRow>,
    modelRequests: map<string, (nat, nat)>,
    reviews: map<(nat, nat), ReviewRow>,
    reviewRequests: map<string, (nat, nat)>)

  // ---- runs ----

  predicate Open(run: EvalRun) {
    run.status == Queued || run.status == Running
  }

  function MarkRunning(s: State, run: nat): State {
    if run in s.runs && s.runs[run].status == Queued
    then s.(runs := s.runs[run := s.runs[run].(status := Running, version := s.runs[run].version + 1)])
    else s
  }

  function RequestCancel(s: State, run: nat, expected: nat, request: string): State {
    if run in s.runs && s.runs[run].cancelRequest != Some(request) && Open(s.runs[run]) && s.runs[run].version == expected
    then s.(runs := s.runs[run := s.runs[run].(cancelRequested := true, cancelRequest := Some(request), version := expected + 1)])
    else s
  }

  /** A cancelled run ends as CANCELLED whatever its task says. */
  function FinishRun(s: State, run: nat, status: RunStatus): State {
    if run in s.runs && Open(s.runs[run])
    then s.(runs := s.runs[run := s.runs[run].(status := if s.runs[run].cancelRequested then Cancelled else status,
                                               version := s.runs[run].version + 1)])
    else s
  }

  function Orphaned(run: EvalRun): EvalRun {
    if Open(run) then run.(status := Failed, cancelRequested := true, version := run.version + 1) else run
  }

  function RecoverRuns(s: State): State {
    s.(runs := map r | r in s.runs :: Orphaned(s.runs[r]))
  }

  // ---- results ----

  /** The status under which a result waits for its model review. */
  function FirstStatus(status: ResultStatus, checks: Checks, reviewer: bool): ReviewStatus {
    if !reviewer then NotRequested
    else if status != Passed || checks.hardFail == Some(true) then Skipped
    else Pending
  }

  predicate CanAdd(s: State, id: nat, run: nat, caseId: string, repeat: nat) {
    run in s.runs && id !in s.results && s.runs[run].completed < s.runs[run].total
    && forall r :: r in s.results && s.results[r].run == run ==> s.results[r].caseId != caseId || s.results[r].repeat != repeat
  }

  function Bit(b: bool): nat {
    if b then 1 else 0
  }

  function Counted(run: EvalRun, status: ResultStatus, checks: Checks): EvalRun {
    run.(completed := run.completed + 1, hardFailures := run.hardFailures + Bit(checks.hardFail == Some(true)),
         errors := run.errors + Bit(status == Broken), version := run.version + 1)
  }

  function NewResult(run: nat, caseId: string, repeat: nat, status: ResultStatus, checks: Checks, reviewer: bool): Result {
    Result(run, caseId, repeat, status, checks, 0, None, FirstStatus(status, checks, reviewer), 0, None, None)
  }

  function AddResult(s: State, id: nat, run: nat, caseId: string, repeat: nat, status: ResultStatus, checks: Checks, reviewer: bool): State {
    if CanAdd(s, id, run, caseId, repeat)
    then s.(results := s.results[id := NewResult(run, caseId, repeat, status, checks, reviewer)],
            runs := s.runs[run := Counted(s.runs[run], status, checks)])
    else s
  }

  // ---- model reviews ----

  datatype Answer = Duplicate(attempt: nat) | Begun(attempt: nat) | NotFound | Conflict | NotEnabled | NotReady | Stale | Accepted(version: nat) | HardFailure

  /** Completed and known not to be a hard failure. */
  predicate Reviewable(result: Result) {
    result.status == Passed && result.checks.hardFail == Some(false)
  }

  function BeginAnswer(s: State, result: nat, actor: int, request: string, expected: nat, retry: bool): Answer {
    if result !in s.results || s.results[result].run !in s.runs then NotFound
    else if request in s.modelRequests && s.modelRequests[request] in s.modelReviews then
      var row := s.modelReviews[s.modelRequests[request]];
      if row.actor != actor || row.fingerprint != BeginOf(result, expected, retry) then Conflict else Duplicate(s.modelRequests[request].1)
    else if !s.runs[s.results[result].run].reviewed then NotEnabled
    else if !Reviewable(s.results[result]) then NotReady
    else if retry && (s.results[result].modelAttempt != expected || s.results[result].modelStatus != Unavailable) then Stale
    else if !retry && (s.results[result].modelAttempt != 0 || expected != 0) then Stale
    else Begun(s.results[result].modelAttempt + 1)
  }

  function Begin(s: State, result: nat, actor: int, request: string, expected: nat, retry: bool): State {
    if BeginAnswer(s, result, actor, request, expected, retry).Begun? then
      var attempt := s.results[result].modelAttempt + 1;
      s.(modelReviews := s.modelReviews[(result, attempt) := ModelRow(actor, BeginOf(result, expected, retry), Reviewing, None, None)],
         modelRequests := s.modelRequests[request := (result, attempt)],
         results := s.results[result := s.results[result].(modelStatus := Reviewing, modelAttempt := attempt, modelReview := None, modelError := None)])
    else s
  }

  predicate StillRunning(s: State, result: nat, attempt: nat) {
    result in s.results && s.results[result].modelAttempt == attempt && s.results[result].modelStatus == Reviewing
  }

  function FinishReview(s: State, result: nat, attempt: nat, review: Option<Review>, error: Option<string>): State {
    if StillRunning(s, result, attempt) then
      var status := if review.Some? then Reviewed else Unavailable;
      s.(results := s.results[result := s.results[result].(modelStatus := status, modelReview := review, modelError := error)],
         modelReviews := if (result, attempt) in s.modelReviews
                         then s.modelReviews[(result, attempt) := s.modelReviews[(result, attempt)].(status := status, review := review, error := error)]
                         else s.modelReviews)
    else s
  }

  const INTERRUPTED := Some("AGENT_EVAL_REVIEW_INTERRUPTED")

  function RecoveredRow(row: ModelRow): ModelRow {
    if row.status == Reviewing then row.(status := Unavailable, error := INTERRUPTED) else row
  }

  /** A result that waits, or whose running attempt has a running row, becomes unavailable. */
  function RecoveredResult(s: State, r: nat): Result
    requires r in s.results
  {
    var x := s.results[r];
    var key := (r, x.modelAttempt);
    if x.modelStatus == Pending || (x.modelStatus == Reviewing && key in s.modelReviews && s.modelReviews[key].status == Reviewing)
    then x.(modelStatus := Unavailable, modelError := INTERRUPTED) else x
  }

  function RecoverReviews(s: State): State {
    s.(results := map r | r in s.results :: RecoveredResult(s, r),
       modelReviews := map k | k in s.modelReviews :: RecoveredRow(s.modelReviews[k]))
  }

  // ---- human reviews ----

  function SaveAnswer(s: State, result: nat, actor: int, request: string, expected: nat, manual: Manual): Answer {
    if result !in s.results then NotFound
    else if request in s.reviewRequests && s.reviewRequests[request] in s.reviews then
      var row := s.reviews[s.reviewRequests[request]];
      if row.actor != actor || row.fingerprint != ReviewOf(result, expected, manual) then Conflict else Duplicate(s.reviewRequests[request].1)
    else if s.results[result].reviewVersion != expected then Stale
    else if manual.pass && !Reviewable(s.results[result]) then HardFailure
    else Accepted(expected + 1)
  }

  function SaveReview(s: State, result: nat, actor: int, request: string, expected: nat, manual: Manual): State {
    if SaveAnswer(s, result, actor, request, expected, manual).Accepted? then
      var key := (result, expected + 1);
      s.(results := s.results[result := s.results[result].(manual := Some(manual), reviewVersion := expected + 1)],
         reviews := s.reviews[key := ReviewRow(actor, ReviewOf(result, expected, manual), s.results[result].manual, manual)],
         reviewRequests := s.reviewRequests[request := key])
    else s
  }

  // ---- all runs of the system ----

  datatype Step =
    | DoCreate(id: nat, total: nat, reviewed: bool)
    | DoMark(run: nat)
    | DoCancel(run: nat, expected: nat, request: string)
    | DoFinishRun(run: nat, status: RunStatus)
    | DoRecoverRuns
    | DoAdd(id: nat, run: nat, caseId: string, repeat: nat, result: ResultStatus, checks: Checks, reviewer: bool)
    | DoBegin(target: nat, actor: int, request: string, expected: nat, retry: bool)
    | DoFinish(target: nat, attempt: nat, review: Option<Review>, error: Option<string>)
    | DoRecoverReviews
    | DoSave(target: nat, actor: int, request: string, expected: nat, manual: Manual)

  /** Fresh UUIDs; tasks finish runs with a terminal status. */
  predicate Possible(s: State, step: Step) {
    (step.DoCreate? ==> step.id !in s.runs) &&
    (step.DoFinishRun? ==> step.status != Queued && step.status != Running)
  }

  function Next(s: State, step: Step): State {
    match step
    case DoCreate(id, total, reviewed) => s.(runs := s.runs[id := EvalRun(Queued, total, 0, 0, 0, false, None, 1, reviewed)])
    case DoMark(run) => MarkRunning(s, run)
    case DoCancel(run, expected, request) => RequestCancel(s, run, expected, request)
    case DoFinishRun(run, status) => FinishRun(s, run, status)
    case DoRecoverRuns => RecoverRuns(s)
    case DoAdd(id, run, caseId, repeat, status, checks, reviewer) => AddResult(s, id, run, caseId, repeat, status, checks, reviewer)
    case DoBegin(target, actor, request, expected, retry) => Begin(s, target, actor, request, expected, retry)
    case DoFinish(target, attempt, review, error) => FinishReview(s, target, attempt, review, error)
    case DoRecoverReviews => RecoverReviews(s)
    case DoSave(target, actor, request, expected, manual) => SaveReview(s, target, actor, request, expected, manual)
  }

  datatype History = Start | Then(before: History, step: Step)

  function Reached(h: History): State {
    match h
    case Start => State(map[], map[], map[], map[], map[], map[])
    case Then(before, step) => Next(Reached(before), step)
  }

  predicate Legal(h: History) {
    match h
    case Start => true
    case Then(before, step) => Legal(before) && Possible(Reached(before), step)
  }

  // ---- the invariant ----

  function Rows(results: map<nat, Result>, counts: Result -> bool): set<nat> {
    set r | r in results && counts(results[r])
  }

  function InRun(run: nat): Result -> bool {
    (x: Result) => x.run == run
  }

  function HardIn(run: nat): Result -> bool {
    (x: Result) => x.run == run && x.checks.hardFail == Some(true)
  }

  function BrokenIn(run: nat): Result -> bool {
    (x: Result) => x.run == run && x.status == Broken
  }

  /** The counters of a run are the counts of its result rows; a completed run was never cancelled. */
  ghost predicate RunOk(s: State, run: nat)
    requires run in s.runs
  {
    var x := s.runs[run];
    x.completed == |Rows(s.results, InRun(run))| <= x.total && x.hardFailures == |Rows(s.results, HardIn(run))| && x.errors == |Rows(s.results, BrokenIn(run))|
    && (x.status == Completed ==> !x.cancelRequested)
  }

  predicate Terminal(status: ReviewStatus) {
    status == Reviewed || status == Unavailable
  }

  /** The attempts 1..n of a result have rows; all but the last are over, and the last says what the result says. */
  ghost predicate ModelOk(s: State, r: nat)
    requires r in s.results
  {
    var x := s.results[r];
    (forall a: nat :: (r, a) in s.modelReviews <==> 1 <= a <= x.modelAttempt) &&
    (forall a: nat :: (r, a) in s.modelReviews && a < x.modelAttempt ==> Terminal(s.modelReviews[(r, a)].status)) &&
    (x.modelReview.Some? <==> x.modelStatus == Reviewed) &&
    if x.modelAttempt == 0 then x.modelStatus != Reviewing && x.modelStatus != Reviewed
    else
      var row := s.modelReviews[(r, x.modelAttempt)];
      row.status == x.modelStatus && row.review == x.modelReview && (x.modelStatus == Reviewing || Terminal(x.modelStatus)) && Reviewable(x)
  }

  /** The versions 1..n of the human review have rows, each starting from the one before. */
  ghost predicate ManualOk(s: State, r: nat)
    requires r in s.results
  {
    var x := s.results[r];
    (forall v: nat :: (r, v) in s.reviews <==> 1 <= v <= x.reviewVersion) &&
    (x.reviewVersion == 0 <==> x.manual == None) &&
    (x.reviewVersion > 0 ==> x.manual == Some(s.reviews[(r, x.reviewVersion)].after)) &&
    (forall v: nat, w: nat :: (r, v) in s.reviews && (r, w) in s.reviews && w == v + 1 ==> s.reviews[(r, w)].before == Some(s.reviews[(r, v)].after)) &&
    ((r, 1) in s.reviews ==> s.reviews[(r, 1)].before == None) &&
    (x.manual.Some? && x.manual.value.pass ==> Reviewable(x))
  }

  ghost predicate RequestsOk(s: State) {
    (forall q :: q in s.modelRequests ==> s.modelRequests[q] in s.modelReviews) &&
    (forall q :: q in s.reviewRequests ==> s.reviewRequests[q] in s.reviews) &&
    (forall k :: k in s.modelReviews ==> k.0 in s.results) &&
    (forall k :: k in s.reviews ==> k.0 in s.results)
  }

  ghost predicate Inv(s: State) {
    RequestsOk(s) &&
    (forall r {:trigger RunOk(s, r)} :: r in s.runs ==> RunOk(s, r)) &&
    (forall r {:trigger ModelOk(s, r)} :: r in s.results ==> ModelOk(s, r)) &&
    (forall r {:trigger ManualOk(s, r)} :: r in s.results ==> ManualOk(s, r)) &&
    (forall r :: r in s.results ==> s.results[r].run in s.runs)
  }

  // ---- every step keeps the invariant ----

  /** The row of a run changed, but not its counters. */
  ghost predicate SameCounters(x: EvalRun, y: EvalRun) {
    y.total == x.total && y.completed == x.completed && y.hardFailures == x.hardFailures && y.errors == x.errors
    && (y.status == Completed ==> !y.cancelRequested)
  }

  /** Only rows of runs change; a new run has no results. */
  ghost predicate RunsOnly(s: State, u: State) {
    u.results == s.results && u.modelReviews == s.modelReviews && u.modelRequests == s.modelRequests
    && u.reviews == s.reviews && u.reviewRequests == s.reviewRequests && s.runs.Keys <= u.runs.Keys &&
    (forall r {:trigger u.runs[r]} :: r in s.runs ==> u.runs[r] == s.runs[r] || SameCounters(s.runs[r], u.runs[r])) &&
    (forall r {:trigger u.runs[r]} :: r in u.runs && r !in s.runs ==> SameCounters(EvalRun(Queued, u.runs[r].total, 0, 0, 0, false, None, 1, true), u.runs[r]))
  }

  lemma NoRows(s: State, run: nat)
    requires forall r :: r in s.results ==> s.results[r].run != run
    ensures Rows(s.results, InRun(run)) == {} && Rows(s.results, HardIn(run)) == {} && Rows(s.results, BrokenIn(run)) == {}
  {
  }

  lemma RunsKeep(s: State, u: State)
    requires Inv(s) && RunsOnly(s, u)
    ensures Inv(u)
  {
    forall r | r in u.runs
      ensures RunOk(u, r)
    {
      if r in s.runs {
        assert RunOk(s, r);
      } else {
        NoRows(s, r);
      }
    }
    forall r | r in u.results
      ensures ModelOk(u, r) && ManualOk(u, r)
    {
      assert ModelOk(s, r) && ManualOk(s, r);
    }
  }

  lemma OneRun(s: State, run: nat, x: EvalRun)
    requires run in s.runs && SameCounters(s.runs[run], x)
    ensures RunsOnly(s, s.(runs := s.runs[run := x]))
  {
  }

  lemma RecoverRunsOnly(s: State)
    requires forall r :: r in s.runs && s.runs[r].status == Completed ==> !s.runs[r].cancelRequested
    ensures RunsOnly(s, RecoverRuns(s))
  {
  }

  lemma RunStepKeeps(s: State, step: Step)
    requires Possible(s, step) && Next(s, step) != s && forall r {:trigger RunOk(s, r)} :: r in s.runs ==> RunOk(s, r)
    requires step.DoCreate? || step.DoMark? || step.DoCancel? || step.DoFinishRun? || step.DoRecoverRuns?
    ensures RunsOnly(s, Next(s, step))
  {
    match step
    case DoCreate(_, _, _) =>
    case DoMark(run) => OneRun(s, run, MarkRunning(s, run).runs[run]);
    case DoCancel(run, expected, request) => OneRun(s, run, RequestCancel(s, run, expected, request).runs[run]);
    case DoFinishRun(run, status) => OneRun(s, run, FinishRun(s, run, status).runs[run]);
    case DoRecoverRuns =>
      assert forall r :: r in s.runs ==> RunOk(s, r);
      RecoverRunsOnly(s);
  }

  lemma RowsGrow(results: map<nat, Result>, id: nat, x: Result, counts: Result -> bool)
    requires id !in results
    ensures |Rows(results[id := x], counts)| == |Rows(results, counts)| + Bit(counts(x))
  {
    if counts(x) {
      assert Rows(results[id := x], counts) == Rows(results, counts) + {id};
    } else {
      assert Rows(results[id := x], counts) == Rows(results, counts);
    }
  }

  lemma AddCounts(s: State, u: State, id: nat, x: Result, r: nat)
    requires r in s.runs && RunOk(s, r) && r in u.runs && id !in s.results && u.results == s.results[id := x]
    requires u.runs[r] == if x.run == r then Counted(s.runs[r], x.status, x.checks) else s.runs[r]
    requires x.run == r ==> s.runs[r].completed < s.runs[r].total
    ensures RunOk(u, r)
  {
    RowsGrow(s.results, id, x, InRun(r));
    RowsGrow(s.results, id, x, HardIn(r));
    RowsGrow(s.results, id, x, BrokenIn(r));
  }

  lemma AddKeeps(s: State, id: nat, run: nat, caseId: string, repeat: nat, status: ResultStatus, checks: Checks, reviewer: bool)
    requires Inv(s) && CanAdd(s, id, run, caseId, repeat)
    ensures Inv(AddResult(s, id, run, caseId, repeat, status, checks, reviewer))
  {
    var u := AddResult(s, id, run, caseId, repeat, status, checks, reviewer);
    forall r | r in u.runs
      ensures RunOk(u, r)
    {
      assert RunOk(s, r);
      AddCounts(s, u, id, NewResult(run, caseId, repeat, status, checks, reviewer), r);
    }
    forall r | r in u.results
      ensures ModelOk(u, r) && ManualOk(u, r)
    {
      if r in s.results {
        assert ModelOk(s, r) && ManualOk(s, r);
      } else {
        assert forall a: nat :: (r, a) !in s.modelReviews && (r, a) !in s.reviews;
      }
    }
  }

  /** A transaction on reviews: the results keep their identity, status and checks. */
  ghost predicate SameCore(s: State, u: State) {
    u.runs == s.runs && u.results.Keys == s.results.Keys &&
    forall r {:trigger u.results[r]} {:trigger s.results[r]} :: r in s.results ==>
      u.results[r].run == s.results[r].run && u.results[r].status == s.results[r].status && u.results[r].checks == s.results[r].checks
  }

  lemma CoreKeepsRuns(s: State, u: State)
    requires Inv(s) && SameCore(s, u)
    ensures forall r {:trigger RunOk(u, r)} :: r in u.runs ==> RunOk(u, r)
    ensures forall r :: r in u.results ==> u.results[r].run in u.runs
  {
    forall r | r in u.runs
      ensures RunOk(u, r)
    {
      assert RunOk(s, r);
      assert Rows(u.results, InRun(r)) == Rows(s.results, InRun(r)) && Rows(u.results, HardIn(r)) == Rows(s.results, HardIn(r)) && Rows(u.results, BrokenIn(r)) == Rows(s.results, BrokenIn(r));
    }
  }

  /** Nothing about the model reviews of this result changed. */
  ghost predicate SameModel(s: State, u: State, r: nat)
    requires r in s.results && r in u.results
  {
    var x, y := s.results[r], u.results[r];
    y.modelStatus == x.modelStatus && y.modelAttempt == x.modelAttempt && y.modelReview == x.modelReview &&
    forall a: nat {:trigger (r, a) in u.modelReviews} {:trigger (r, a) in s.modelReviews} ::
      ((r, a) in u.modelReviews <==> (r, a) in s.modelReviews) && ((r, a) in s.modelReviews ==> u.modelReviews[(r, a)] == s.modelReviews[(r, a)])
  }

  lemma ModelLater(s: State, u: State, r: nat)
    requires SameCore(s, u) && r in s.results && r in u.results && ModelOk(s, r) && SameModel(s, u, r)
    ensures ModelOk(u, r)
  {
  }

  lemma ManualLater(s: State, u: State)
    requires Inv(s) && SameCore(s, u) && u.reviews == s.reviews
    requires forall r :: r in s.results ==> u.results[r].manual == s.results[r].manual && u.results[r].reviewVersion == s.results[r].reviewVersion
    ensures forall r {:trigger ManualOk(u, r)} :: r in u.results ==> ManualOk(u, r)
  {
    forall r | r in u.results
      ensures ManualOk(u, r)
    {
      assert ManualOk(s, r);
    }
  }

  lemma BeginModel(s: State, result: nat, actor: int, request: string, expected: nat, retry: bool)
    requires BeginAnswer(s, result, actor, request, expected, retry).Begun? && ModelOk(s, result)
    ensures ModelOk(Begin(s, result, actor, request, expected, retry), result)
  {
  }

  /** Only this result, and only its rows in the table of model reviews, may change. */
  ghost predicate OnlyResult(s: State, u: State, result: nat) {
    result in s.results && result in u.results && u.runs == s.runs && u.results == s.results[result := u.results[result]] &&
    u.results[result].run == s.results[result].run && u.results[result].status == s.results[result].status
    && u.results[result].checks == s.results[result].checks &&
    forall k: (nat, nat) {:trigger k in u.modelReviews} {:trigger k in s.modelReviews} :: k.0 != result ==>
      (k in u.modelReviews <==> k in s.modelReviews) && (k in s.modelReviews ==> u.modelReviews[k] == s.modelReviews[k])
  }

  lemma OthersKeep(s: State, u: State, result: nat)
    requires Inv(s) && OnlyResult(s, u, result) && ModelOk(u, result)
    ensures SameCore(s, u)
    ensures forall r {:trigger ModelOk(u, r)} :: r in u.results ==> ModelOk(u, r)
  {
    forall r | r in u.results
      ensures ModelOk(u, r)
    {
      assert ModelOk(s, r);
      if r != result {
        ModelLater(s, u, r);
      }
    }
  }

  lemma BeginKeeps(s: State, result: nat, actor: int, request: string, expected: nat, retry: bool)
    requires Inv(s) && BeginAnswer(s, result, actor, request, expected, retry).Begun?
    ensures Inv(Begin(s, result, actor, request, expected, retry))
  {
    var u := Begin(s, result, actor, request, expected, retry);
    assert ModelOk(s, result);
    BeginModel(s, result, actor, request, expected, retry);
    OthersKeep(s, u, result);
    CoreKeepsRuns(s, u);
    ManualLater(s, u);
  }

  lemma FinishModel(s: State, result: nat, attempt: nat, review: Option<Review>, error: Option<string>)
    requires StillRunning(s, result, attempt) && ModelOk(s, result)
    ensures ModelOk(FinishReview(s, result, attempt, review, error), result)
  {
  }

  lemma FinishKeeps(s: State, result: nat, attempt: nat, review: Option<Review>, error: Option<string>)
    requires Inv(s) && StillRunning(s, result, attempt)
    ensures Inv(FinishReview(s, result, attempt, review, error))
  {
    var u := FinishReview(s, result, attempt, review, error);
    assert ModelOk(s, result);
    FinishModel(s, result, attempt, review, error);
    OthersKeep(s, u, result);
    CoreKeepsRuns(s, u);
    ManualLater(s, u);
  }

  lemma RecoverModel(s: State, r: nat)
    requires r in s.results && ModelOk(s, r)
    ensures ModelOk(RecoverReviews(s), r)
  {
  }

  lemma RecoverKeeps(s: State)
    requires Inv(s)
    ensures Inv(RecoverReviews(s))
  {
    var u := RecoverReviews(s);
    CoreKeepsRuns(s, u);
    ManualLater(s, u);
    forall r | r in u.results
      ensures ModelOk(u, r)
    {
      assert ModelOk(s, r);
      RecoverModel(s, r);
    }
  }

  lemma SaveManual(s: State, result: nat, actor: int, request: string, expected: nat, manual: Manual, r: nat)
    requires SaveAnswer(s, result, actor, request, expected, manual).Accepted? && r in s.results && ManualOk(s, r)
    ensures ManualOk(SaveReview(s, result, actor, request, expected, manual), r)
  {
  }

  lemma SaveKeeps(s: State, result: nat, actor: int, request: string, expected: nat, manual: Manual)
    requires Inv(s) && SaveAnswer(s, result, actor, request, expected, manual).Accepted?
    ensures Inv(SaveReview(s, result, actor, request, expected, manual))
  {
    var u := SaveReview(s, result, actor, request, expected, manual);
    assert ModelOk(s, result);
    OthersKeep(s, u, result);
    CoreKeepsRuns(s, u);
    forall r | r in u.results
      ensures ManualOk(u, r)
    {
      assert ManualOk(s, r);
      SaveManual(s, result, actor, request, expected, manual, r);
    }
  }

  lemma StepKeeps(s: State, step: Step)
    requires Inv(s) && Possible(s, step)
    ensures Inv(Next(s, step))
  {
    match step
    case DoAdd(id, run, caseId, repeat, status, checks, reviewer) =>
      if CanAdd(s, id, run, caseId, repeat) {
        AddKeeps(s, id, run, caseId, repeat, status, checks, reviewer);
      }
    case DoBegin(target, actor, request, expected, retry) =>
      if BeginAnswer(s, target, actor, request, expected, retry).Begun? {
        BeginKeeps(s, target, actor, request, expected, retry);
      }
    case DoFinish(target, attempt, review, error) =>
      if StillRunning(s, target, attempt) {
        FinishKeeps(s, target, attempt, review, error);
      }
    case DoRecoverReviews => RecoverKeeps(s);
    case DoSave(target, actor, request, expected, manual) =>
      if SaveAnswer(s, target, actor, request, expected, manual).Accepted? {
        SaveKeeps(s, target, actor, request, expected, manual);
      }
    case _ =>
      if Next(s, step) != s {
        RunStepKeeps(s, step);
        RunsKeep(s, Next(s, step));
      }
  }

  lemma {:induction false} InvAlways(h: History)
    requires Legal(h)
    ensures Inv(Reached(h))
  {
    match h
    case Start =>
    case Then(before, step) =>
      InvAlways(before);
      StepKeeps(Reached(before), step);
  }

  // ---- the main results ----

  lemma {:induction false} AttemptsCounted<T>(rows: map<(nat, nat), T>, r: nat, n: nat)
    requires forall a: nat :: (r, a) in rows <==> 1 <= a <= n
    ensures |set k | k in rows && k.0 == r| == n
  {
    var all := set k | k in rows && k.0 == r;
    if n == 0 {
      assert forall k :: k in all ==> (r, k.1) in rows;
      assert all == {};
    } else {
      var fewer := rows - {(r, n)};
      AttemptsCounted(fewer, r, n - 1);
      assert (r, n) in rows;
      assert all == (set k | k in fewer && k.0 == r) + {(r, n)};
    }
  }

  /** The attempt counter of a result is the number of its review rows; only the last row can be running, and
      it is exactly when the result says so; result and last row always tell the same story. */
  lemma ReviewsInStep(h: History, r: nat)
    requires Legal(h) && r in Reached(h).results
    ensures var s := Reached(h);
            var x := s.results[r];
            |set k | k in s.modelReviews && k.0 == r| == x.modelAttempt &&
            (forall a: nat :: (r, a) in s.modelReviews && s.modelReviews[(r, a)].status == Reviewing
                              <==> a == x.modelAttempt && x.modelStatus == Reviewing) &&
            (x.modelAttempt > 0 ==> (r, x.modelAttempt) in s.modelReviews &&
                                    s.modelReviews[(r, x.modelAttempt)].status == x.modelStatus &&
                                    s.modelReviews[(r, x.modelAttempt)].review == x.modelReview)
  {
    InvAlways(h);
    assert ModelOk(Reached(h), r);
    AttemptsCounted(Reached(h).modelReviews, r, Reached(h).results[r].modelAttempt);
  }

  /** A review that comes late, after a retry or a recovery, changes nothing. */
  lemma LateFinishIsIgnored(h: History, r: nat, attempt: nat, review: Option<Review>, error: Option<string>)
    requires Legal(h)
    requires (r, attempt) !in Reached(h).modelReviews || Reached(h).modelReviews[(r, attempt)].status != Reviewing
    ensures FinishReview(Reached(h), r, attempt, review, error) == Reached(h)
  {
    InvAlways(h);
    assert r in Reached(h).results ==> ModelOk(Reached(h), r);
  }

  ghost predicate Precedes(h: History, later: History) {
    h == later || (later.Then? && Precedes(h, later.before))
  }

  lemma RowStays(s: State, step: Step, key: (nat, nat))
    requires forall r {:trigger ModelOk(s, r)} :: r in s.results ==> ModelOk(s, r)
    requires Possible(s, step) && key in s.modelReviews && key.0 in s.results && s.modelReviews[key].status != Reviewing
    ensures key in Next(s, step).modelReviews && Next(s, step).modelReviews[key] == s.modelReviews[key]
  {
    assert ModelOk(s, key.0);
    assert key == (key.0, key.1);
    assert step.DoFinish? && step.target in s.results ==> ModelOk(s, step.target);
    assert step.DoBegin? && step.target in s.results ==> ModelOk(s, step.target);
  }

  /** The verdict of an attempt is final. */
  lemma {:induction false} RowsAreFinal(h: History, later: History, key: (nat, nat))
    requires Legal(later) && Precedes(h, later)
    requires key in Reached(h).modelReviews && Reached(h).modelReviews[key].status != Reviewing
    ensures key in Reached(later).modelReviews && Reached(later).modelReviews[key] == Reached(h).modelReviews[key]
  {
    if h != later {
      RowsAreFinal(h, later.before, key);
      InvAlways(later.before);
      RowStays(Reached(later.before), later.step, key);
    }
  }

  lemma ReviewStays(s: State, step: Step, r: nat)
    requires Possible(s, step) && r in s.results && ModelOk(s, r) && s.results[r].modelStatus == Reviewed
    ensures r in Next(s, step).results
    ensures var x, y := s.results[r], Next(s, step).results[r];
            y.modelStatus == Reviewed && y.modelAttempt == x.modelAttempt && y.modelReview == x.modelReview && y.modelError == x.modelError
  {
  }

  /** A result whose model review succeeded keeps it: no retry, late finish or recovery replaces it. */
  lemma {:induction false} ReviewIsFinal(h: History, later: History, r: nat)
    requires Legal(later) && Precedes(h, later)
    requires r in Reached(h).results && Reached(h).results[r].modelStatus == Reviewed
    ensures r in Reached(later).results
    ensures var x, y := Reached(h).results[r], Reached(later).results[r];
            y.modelStatus == Reviewed && y.modelAttempt == x.modelAttempt && y.modelReview == x.modelReview && y.modelError == x.modelError
  {
    if h != later {
      ReviewIsFinal(h, later.before, r);
      InvAlways(later.before);
      ReviewStays(Reached(later.before), later.step, r);
    }
  }

  /** After a crash recovery no review is running or pending, in either table. */
  lemma RecoveryLeavesNothingRunning(h: History)
    requires Legal(h)
    ensures var u := Next(Reached(h), DoRecoverReviews);
            (forall r :: r in u.results ==> u.results[r].modelStatus != Reviewing && u.results[r].modelStatus != Pending) &&
            (forall k :: k in u.modelReviews ==> u.modelReviews[k].status != Reviewing)
  {
    InvAlways(h);
    var s := Reached(h);
    forall r | r in s.results
      ensures RecoveredResult(s, r).modelStatus != Reviewing && RecoveredResult(s, r).modelStatus != Pending
    {
      assert ModelOk(s, r);
    }
  }

  /** The counters of a run are the counts of its result rows. */
  lemma CountersAreCounts(h: History, run: nat)
    requires Legal(h) && run in Reached(h).runs
    ensures var s := Reached(h);
            s.runs[run].completed == |set r | r in s.results && s.results[r].run == run| <= s.runs[run].total &&
            s.runs[run].hardFailures == |set r | r in s.results && s.results[r].run == run && s.results[r].checks.hardFail == Some(true)| &&
            s.runs[run].errors == |set r | r in s.results && s.results[r].run == run && s.results[r].status == Broken|
  {
    InvAlways(h);
    var s := Reached(h);
    assert RunOk(s, run);
    assert (set r | r in s.results && s.results[r].run == run) == Rows(s.results, InRun(run));
    assert (set r | r in s.results && s.results[r].run == run && s.results[r].checks.hardFail == Some(true)) == Rows(s.results, HardIn(run));
    assert (set r | r in s.results && s.results[r].run == run && s.results[r].status == Broken) == Rows(s.results, BrokenIn(run));
  }

  lemma RunStepEnds(s: State, step: Step, run: nat)
    requires run in s.runs && Possible(s, step)
    ensures run in Next(s, step).runs
    ensures !Open(s.runs[run]) ==> Next(s, step).runs[run].status == s.runs[run].status
    ensures s.runs[run].cancelRequested && s.runs[run].status != Completed ==>
              Next(s, step).runs[run].cancelRequested && Next(s, step).runs[run].status != Completed
  {
    assert step.DoRecoverRuns? ==> Next(s, step).runs[run] == Orphaned(s.runs[run]);
  }

  /** The status of a run that has ended never changes again, and a run whose cancellation was accepted
      never becomes COMPLETED. */
  lemma {:induction false} EndsForGood(h: History, later: History, run: nat)
    requires Legal(later) && Precedes(h, later) && run in Reached(h).runs
    ensures run in Reached(later).runs
    ensures !Open(Reached(h).runs[run]) ==> Reached(later).runs[run].status == Reached(h).runs[run].status
    ensures Reached(h).runs[run].cancelRequested ==> Reached(later).runs[run].cancelRequested && Reached(later).runs[run].status != Completed
  {
    if h != later {
      EndsForGood(h, later.before, run);
      RunStepEnds(Reached(later.before), later.step, run);
    } else {
      InvAlways(h);
      assert RunOk(Reached(h), run);
    }
  }

  /** Repeating the request of a review, however much later, names the attempt it began and changes nothing. */
  lemma RequestsReplay(h: History, later: History, target: nat, actor: int, request: string, expected: nat, retry: bool)
    requires Legal(later) && Precedes(Then(h, DoBegin(target, actor, request, expected, retry)), later) && Legal(h)
    requires BeginAnswer(Reached(h), target, actor, request, expected, retry).Begun?
    ensures BeginAnswer(Reached(later), target, actor, request, expected, retry)
            == Duplicate(BeginAnswer(Reached(h), target, actor, request, expected, retry).attempt)
    ensures Begin(Reached(later), target, actor, request, expected, retry) == Reached(later)
  {
    var begun := Then(h, DoBegin(target, actor, request, expected, retry));
    InvAlways(h);
    RequestStays(begun, later, request);
    InvAlways(later);
  }

  lemma RequestKept(s: State, step: Step, request: string)
    requires RequestsOk(s) && Possible(s, step) && request in s.modelRequests
    ensures request in Next(s, step).modelRequests && Next(s, step).modelRequests[request] == s.modelRequests[request]
  {
  }

  /** A row keeps who asked for it and what was asked. */
  lemma AskerKept(s: State, step: Step, key: (nat, nat))
    requires key in s.modelReviews && key.0 in s.results && ModelOk(s, key.0)
    ensures var u := Next(s, step);
            key in u.modelReviews && u.modelReviews[key].actor == s.modelReviews[key].actor
            && u.modelReviews[key].fingerprint == s.modelReviews[key].fingerprint
  {
    assert key == (key.0, key.1);
  }

  lemma ResultKept(s: State, step: Step, r: nat)
    requires r in s.results && s.results[r].run in s.runs
    ensures r in Next(s, step).results && Next(s, step).results[r].run == s.results[r].run && s.results[r].run in Next(s, step).runs
  {
  }

  lemma {:induction false} RequestStays(h: History, later: History, request: string)
    requires Legal(later) && Precedes(h, later) && request in Reached(h).modelRequests
    ensures var s, u := Reached(h), Reached(later);
            request in u.modelRequests && u.modelRequests[request] == s.modelRequests[request] &&
            var key := s.modelRequests[request];
            key in s.modelReviews && key in u.modelReviews && u.modelReviews[key].actor == s.modelReviews[key].actor
            && u.modelReviews[key].fingerprint == s.modelReviews[key].fingerprint && key.0 in u.results && u.results[key.0].run in u.runs
  {
    if h != later {
      RequestStays(h, later.before, request);
      InvAlways(later.before);
      var s := Reached(later.before);
      var key := s.modelRequests[request];
      assert ModelOk(s, key.0);
      RequestKept(s, later.step, request);
      AskerKept(s, later.step, key);
      ResultKept(s, later.step, key.0);
    } else {
      InvAlways(h);
    }
  }

  /** The human reviews of a result are a chain: as many as its version says, each recording the one before,
      and the last is the one in force. */
  lemma HumanReviewsChained(h: History, r: nat)
    requires Legal(h) && r in Reached(h).results
    ensures var s := Reached(h);
            var x := s.results[r];
            |set k | k in s.reviews && k.0 == r| == x.reviewVersion &&
            (x.reviewVersion > 0 ==> (r, x.reviewVersion) in s.reviews && x.manual == Some(s.reviews[(r, x.reviewVersion)].after)) &&
            (forall v: nat, w: nat :: (r, v) in s.reviews && (r, w) in s.reviews && w == v + 1 ==>
               s.reviews[(r, w)].before == Some(s.reviews[(r, v)].after))
  {
    InvAlways(h);
    assert ManualOk(Reached(h), r);
    AttemptsCounted(Reached(h).reviews, r, Reached(h).results[r].reviewVersion);
  }

  // ---- the verdict, written twice ----

  /** SQL truth values: a missing key is NULL. */
  datatype Truth = True | False | Null

  function Column(value: Option<bool>): Truth {
    if value == None then Null else if value.value then True else False
  }

  function And(a: Truth, b: Truth): Truth {
    if a == False || b == False then False else if a == Null || b == Null then Null else True
  }

  function Is(a: Truth, b: Truth): Truth {
    if a == b then True else False
  }

  function Fact(b: bool): Truth {
    if b then True else False
  }

  /** _effective_pass: the three-valued condition of the queries. */
  function EffectivePass(x: Result): Truth {
    And(And(Fact(x.status == Passed), Is(Column(x.checks.hardFail), False)),
        Is(if x.reviewVersion > 0 then Column(if x.manual.Some? then Some(x.manual.value.pass) else None)
           else if x.modelStatus != NotRequested then
             And(And(Fact(x.modelStatus == Reviewed), Is(Column(if x.modelReview.Some? then x.modelReview.value.pass else None), True)),
                 Is(Column(if x.modelReview.Some? then x.modelReview.value.hardFail else None), False))
           else Column(x.checks.pass), True))
  }

  /** dict.get with a default. */
  function Get(value: Option<bool>, default: bool): bool {
    if value.Some? then value.value else default
  }

  /** result_public: the verdict that is shown. */
  function ShownPass(x: Result): bool {
    var semantic := if x.modelStatus != NotRequested
                    then x.modelStatus == Reviewed && x.modelReview.Some? && x.modelReview.value.pass == Some(true)
                         && x.modelReview.value.hardFail == Some(false)
                    else Get(x.checks.pass, false);
    x.status == Passed && !Get(x.checks.hardFail, true) && (if x.manual.Some? then x.manual.value.pass else semantic)
  }

  /** The query looks at the version counter, the projection at the document. */
  predicate VersionMatches(x: Result) {
    x.reviewVersion > 0 <==> x.manual.Some?
  }

  lemma VerdictsAgree(x: Result)
    requires VersionMatches(x)
    ensures EffectivePass(x) == Fact(ShownPass(x))
  {
  }

  /** On every reachable row the query's verdict is a proper truth value, the one that is shown; a human
      review never passes a result that is not known to be free of a hard failure. */
  lemma VerdictOfEveryResult(h: History, r: nat)
    requires Legal(h) && r in Reached(h).results
    ensures EffectivePass(Reached(h).results[r]) == Fact(ShownPass(Reached(h).results[r]))
    ensures ShownPass(Reached(h).results[r]) ==> Reviewable(Reached(h).results[r])
    ensures Reached(h).results[r].manual.Some? ==> ShownPass(Reached(h).results[r]) == Reached(h).results[r].manual.value.pass
  {
    InvAlways(h);
    assert ManualOk(Reached(h), r);
    VerdictsAgree(Reached(h).results[r]);
  }

  function CountedPass(run: nat): Result -> bool {
    (x: Result) => x.run == run && EffectivePass(x) == True
  }

  function VisiblePass(run: nat): Result -> bool {
    (x: Result) => x.run == run && ShownPass(x)
  }

  /** The number of passes that run_metrics reports is the number of results that are shown as passed. */
  lemma MetricsCountWhatIsShown(h: History, run: nat)
    requires Legal(h)
    ensures |Rows(Reached(h).results, CountedPass(run))| == |Rows(Reached(h).results, VisiblePass(run))|
  {
    var results := Reached(h).results;
    forall r | r in results
      ensures CountedPass(run)(results[r]) <==> VisiblePass(run)(results[r])
    {
      VerdictOfEveryResult(h, r);
    }
    assert Rows(results, CountedPass(run)) == Rows(results, VisiblePass(run));
  }
}
