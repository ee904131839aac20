// The reason-act loop: every run stays within its budget, repeats no tool call and answers every call.
module ReAct {
  import opened DirectAnswer

  /** What the model's code does not decide: what the providers and the tools return, when time is up. */
  datatype Oracle = Oracle(provider: Provider, results: nat -> ToolResult, expired: nat -> bool) {
    function Reply(attempt: nat): Reply {
      provider.At(attempt)
    }

    function Result(call: nat): ToolResult {
      results(call)
    }

    predicate Expired(superstep: nat) {
      expired(superstep)
    }
  }

  /** What running a call gives, as JSON; `late` means the deadline has passed before it could run. */
  datatype ToolResult = ToolResult(output: string, late: bool)

  /** The tools of a run: decoding and validating arguments, and permission, are foreign. */
  datatype Tools = Tools(names: set<string>, decode: string -> Option<string>, accepts: (string, string) -> bool, permitted: string -> bool) {
    /** Whether calls are offered to the model at all. */
    predicate Offered() {
      names != {}
    }
  }

  /** A tool call that was executed, with its arguments in canonical form. */
  datatype Execution = Execution(id: string, name: string, arguments: string)

  const NO_ARGUMENTS := "{}"
  const INVALID_ARGUMENT := "TOOL_INVALID_ARGUMENT"
  const RECURSION_LIMIT := 128

  function Ids(done: seq<Execution>): set<string> {
    set e | e in done :: e.id
  }

  /** The fingerprint of a call, taken to be injective, is the pair of its name and arguments. */
  function Prints(done: seq<Execution>): set<(string, string)> {
    set e | e in done :: (e.name, e.arguments)
  }

  /** Two executions differ both in their call ids and in their fingerprints. */
  predicate Differ(a: Execution, b: Execution) {
    a.id != b.id && (a.name, a.arguments) != (b.name, b.arguments)
  }

  ghost predicate NoRepeats(done: seq<Execution>) {
    forall i, j {:trigger Differ(done[i], done[j])} :: 0 <= i < j < |done| ==> Differ(done[i], done[j])
  }

  ghost predicate Allowed(tools: Tools, e: Execution) {
    e.name in tools.names && tools.permitted(e.name) && tools.accepts(e.name, e.arguments)
  }

  ghost predicate AllAllowed(tools: Tools, done: seq<Execution>) {
    forall i {:trigger Allowed(tools, done[i])} :: 0 <= i < |done| ==> Allowed(tools, done[i])
  }

  /** The calls that were not rejected, in order, with their decoded arguments. */
  function Approved(calls: seq<Call>, parsed: seq<string>, rejected: map<string, string>): seq<Execution>
    requires |calls| == |parsed|
  {
    if calls == [] then []
    else
      var n := |calls| - 1;
      if calls[n].id in rejected then Approved(calls[..n], parsed[..n], rejected)
      else Approved(calls[..n], parsed[..n], rejected) + [Execution(calls[n].id, calls[n].name, parsed[n])]
  }

  lemma {:induction false} RejectLater(calls: seq<Call>, parsed: seq<string>, rejected: map<string, string>, id: string, code: string)
    requires |calls| == |parsed| && forall i :: 0 <= i < |calls| ==> calls[i].id != id
    ensures Approved(calls, parsed, rejected[id := code]) == Approved(calls, parsed, rejected)
  {
    if calls != [] {
      RejectLater(calls[..|calls| - 1], parsed[..|calls| - 1], rejected, id, code);
    }
  }

  /** The calls with valid arguments, in order: what a round should execute. */
  function Granted(tools: Tools, calls: seq<Call>): seq<Execution> {
    if calls == [] then []
    else
      var n := |calls| - 1;
      if Sound(tools, calls[n]) then Granted(tools, calls[..n]) + [Granting(tools, calls[n])] else Granted(tools, calls[..n])
  }

  predicate Sound(tools: Tools, call: Call) {
    tools.decode(call.arguments).Some? && tools.accepts(call.name, tools.decode(call.arguments).value)
  }

  function Granting(tools: Tools, call: Call): Execution
    requires Sound(tools, call)
  {
    Execution(call.id, call.name, tools.decode(call.arguments).value)
  }

  /** A call that does not end the run by itself. */
  predicate Proper(tools: Tools, seen: set<string>, call: Call) {
    call.name in tools.names && call.id !in seen && (tools.decode(call.arguments).Some? ==> tools.permitted(call.name))
  }

  lemma GrantedNext(tools: Tools, calls: seq<Call>, i: nat)
    requires i < |calls|
    ensures Granted(tools, calls[..i + 1]) ==
            if Sound(tools, calls[i]) then Granted(tools, calls[..i]) + [Granting(tools, calls[i])] else Granted(tools, calls[..i])
  {
    assert calls[..i + 1][..i] == calls[..i];
  }

  lemma {:induction false} GrantedPrefix(tools: Tools, calls: seq<Call>, i: nat)
    requires i <= |calls|
    ensures Granted(tools, calls[..i]) <= Granted(tools, calls)
  {
    if i < |calls| {
      GrantedPrefix(tools, calls[..|calls| - 1], i);
      assert calls[..|calls| - 1][..i] == calls[..i];
    } else {
      assert calls[..i] == calls;
    }
  }

  /** What has been executed when a round is over. */
  function GrantedAfter(tools: Tools, before: seq<Execution>, calls: seq<Call>): seq<Execution> {
    if calls == [] then before
    else
      var n := |calls| - 1;
      var earlier := GrantedAfter(tools, before, calls[..n]);
      if Sound(tools, calls[n]) then earlier + [Granting(tools, calls[n])] else earlier
  }

  lemma {:induction false} GrantedAfterIs(tools: Tools, before: seq<Execution>, calls: seq<Call>)
    ensures GrantedAfter(tools, before, calls) == before + Granted(tools, calls)
  {
    if calls != [] {
      GrantedAfterIs(tools, before, calls[..|calls| - 1]);
    }
  }

  lemma {:induction false} GrantedIds(tools: Tools, calls: seq<Call>)
    ensures forall e :: e in Granted(tools, calls) ==> exists j :: 0 <= j < |calls| && calls[j].id == e.id
  {
    if calls != [] {
      var n := |calls| - 1;
      GrantedIds(tools, calls[..n]);
      forall e | e in Granted(tools, calls)
        ensures exists j :: 0 <= j < |calls| && calls[j].id == e.id
      {
        if e in Granted(tools, calls[..n]) {
          var j :| 0 <= j < n && calls[..n][j].id == e.id;
          assert calls[j].id == e.id;
        } else {
          assert calls[n].id == e.id;
        }
      }
    }
  }

  /** A fingerprint that was seen before makes the whole round repeat itself. */
  lemma RepeatsItself(tools: Tools, executed: seq<Execution>, calls: seq<Call>, i: nat)
    requires i < |calls| && Sound(tools, calls[i])
    requires var e := Granting(tools, calls[i]);
             (e.name, e.arguments) in Prints(executed + Granted(tools, calls[..i]))
    ensures !NoRepeats(executed + Granted(tools, calls))
  {
    var e := Granting(tools, calls[i]);
    var before := executed + Granted(tools, calls[..i]);
    var all := executed + Granted(tools, calls);
    var x :| x in before && (x.name, x.arguments) == (e.name, e.arguments);
    var k :| 0 <= k < |before| && before[k] == x;
    GrantedNext(tools, calls, i);
    GrantedPrefix(tools, calls, i + 1);
    assert before + [e] <= all;
    assert all[k] == x && all[|before|] == e && !Differ(all[k], all[|before|]);
  }

  /** No two of these repeat each other, and none repeats an id or a fingerprint that was seen before. */
  ghost predicate NothingOld(next: seq<Execution>, ids: set<string>, prints: set<(string, string)>) {
    NoRepeats(next) && forall i {:trigger New(next[i], ids, prints)} :: 0 <= i < |next| ==> New(next[i], ids, prints)
  }

  predicate New(e: Execution, ids: set<string>, prints: set<(string, string)>) {
    e.id !in ids && (e.name, e.arguments) !in prints
  }

  lemma OldOrRepeated(executed: seq<Execution>, next: seq<Execution>)
    requires NoRepeats(executed)
    ensures NoRepeats(executed + next) <==> NothingOld(next, Ids(executed), Prints(executed))
  {
    var all := executed + next;
    assert forall i :: 0 <= i < |next| ==> all[|executed| + i] == next[i];
    if NoRepeats(all) {
      forall i | 0 <= i < |next|
        ensures New(next[i], Ids(executed), Prints(executed))
      {
        forall k | 0 <= k < |executed|
          ensures Differ(executed[k], next[i])
        {
          assert Differ(all[k], all[|executed| + i]);
        }
      }
      forall i, j | 0 <= i < j < |next|
        ensures Differ(next[i], next[j])
      {
        assert Differ(all[|executed| + i], all[|executed| + j]);
      }
    }
    if NothingOld(next, Ids(executed), Prints(executed)) {
      forall i, j | 0 <= i < j < |all|
        ensures Differ(all[i], all[j])
      {
        if j < |executed| {
          assert Differ(executed[i], executed[j]);
        } else if i < |executed| {
          assert New(next[j - |executed|], Ids(executed), Prints(executed));
          assert executed[i].id in Ids(executed) && (executed[i].name, executed[i].arguments) in Prints(executed);
        } else {
          assert Differ(next[i - |executed|], next[j - |executed|]);
        }
      }
    }
  }

  function OutputIds(items: seq<Item>): seq<string> {
    if items == [] then []
    else if items[|items| - 1].Output? then OutputIds(items[..|items| - 1]) + [items[|items| - 1].id]
    else OutputIds(items[..|items| - 1])
  }

  function IdsOf(calls: seq<Call>): seq<string> {
    seq(|calls|, i requires 0 <= i < |calls| => calls[i].id)
  }

  function CallIds(items: seq<Item>): seq<string> {
    IdsOf(Calls(items))
  }

  lemma {:induction false} ItemsConcat(a: seq<Item>, b: seq<Item>)
    ensures Calls(a + b) == Calls(a) + Calls(b) && OutputIds(a + b) == OutputIds(a) + OutputIds(b)
  {
    if b == [] {
      assert a + b == a;
    } else {
      ItemsConcat(a, b[..|b| - 1]);
      assert (a + b)[..|a + b| - 1] == a + b[..|b| - 1];
    }
  }

  lemma {:induction false} OnlyCalls(items: seq<Item>)
    requires NoOutputs(items)
    ensures OutputIds(items) == []
  {
    if items != [] {
      OnlyCalls(items[..|items| - 1]);
    }
  }

  function Outputs(calls: seq<Call>, texts: seq<string>): seq<Item>
    requires |texts| == |calls|
  {
    seq(|calls|, i requires 0 <= i < |calls| => Output(calls[i].id, texts[i]))
  }

  lemma {:induction false} OutputsAnswer(calls: seq<Call>, texts: seq<string>)
    requires |texts| == |calls|
    ensures Calls(Outputs(calls, texts)) == [] && OutputIds(Outputs(calls, texts)) == IdsOf(calls)
  {
    if calls != [] {
      var n := |calls| - 1;
      OutputsAnswer(calls[..n], texts[..n]);
      assert Outputs(calls, texts)[..n] == Outputs(calls[..n], texts[..n]);
    }
  }

  lemma IdsConcat(a: seq<Call>, b: seq<Call>)
    ensures IdsOf(a + b) == IdsOf(a) + IdsOf(b)
  {
  }

  /** What a round appends: the calls, then an output for each of them. */
  lemma RoundAnswers(items: seq<Item>, continuation: seq<Item>, calls: seq<Call>, texts: seq<string>)
    requires NoOutputs(continuation) && Calls(continuation) == calls && |texts| == |calls|
    ensures var more := items + (continuation + Outputs(calls, texts));
            CallIds(more) == CallIds(items) + IdsOf(calls) && OutputIds(more) == OutputIds(items) + IdsOf(calls)
  {
    var additions := continuation + Outputs(calls, texts);
    ItemsConcat(items, additions);
    ItemsConcat(continuation, Outputs(calls, texts));
    OnlyCalls(continuation);
    OutputsAnswer(calls, texts);
    assert Calls(additions) == calls + [] == calls;
    assert OutputIds(additions) == [] + IdsOf(calls) == IdsOf(calls);
    IdsConcat(Calls(items), calls);
  }

  /** The estimate for items that go back; `measure` is the size of an item's JSON. */
  function Sizes(measure: Item -> nat, items: seq<Item>): nat {
    if items == [] then 0 else Sizes(measure, items[..|items| - 1]) + measure(items[|items| - 1]) + 128
  }

  lemma {:induction false} SizesConcat(measure: Item -> nat, a: seq<Item>, b: seq<Item>)
    ensures Sizes(measure, a + b) == Sizes(measure, a) + Sizes(measure, b)
  {
    if b == [] {
      assert a + b == a;
    } else {
      SizesConcat(measure, a, b[..|b| - 1]);
      assert (a + b)[..|a + b| - 1] == a + b[..|b| - 1];
    }
  }

  // ---- what a round makes of its calls ----

  function Rejection(code: string): string {
    "{\"ok\": false, \"error_code\": \"" + code + "\"}"
  }

  /** A call whose arguments are not valid is told so; any other gets what its tool returned. */
  function Observation(tools: Tools, call: Call, result: ToolResult): string {
    if Sound(tools, call) then result.output else Rejection(INVALID_ARGUMENT)
  }

  /** The observations of the first n calls, when `base` calls were made before. */
  function ObservedFirst(tools: Tools, calls: seq<Call>, oracle: Oracle, base: nat, n: nat): (texts: seq<string>)
    requires n <= |calls|
    ensures |texts| == n
  {
    if n == 0 then [] else ObservedFirst(tools, calls, oracle, base, n - 1) + [Observation(tools, calls[n - 1], oracle.Result(base + n - 1))]
  }

  function Observations(tools: Tools, calls: seq<Call>, oracle: Oracle, base: nat): seq<string> {
    ObservedFirst(tools, calls, oracle, base, |calls|)
  }

  /** A call that does not end the run while it is handled. */
  predicate Handled(tools: Tools, call: Call, result: ToolResult, maxResult: nat) {
    !result.late && (Sound(tools, call) ==> Utf8Size(result.output) <= maxResult)
  }

  predicate HandledAt(tools: Tools, calls: seq<Call>, oracle: Oracle, base: nat, i: nat, maxResult: nat)
    requires i < |calls|
  {
    Handled(tools, calls[i], oracle.Result(base + i), maxResult)
  }

  ghost predicate FirstHandled(tools: Tools, calls: seq<Call>, oracle: Oracle, base: nat, n: nat, maxResult: nat)
    requires n <= |calls|
  {
    forall i {:trigger HandledAt(tools, calls, oracle, base, i, maxResult)} ::
      0 <= i < n ==> HandledAt(tools, calls, oracle, base, i, maxResult)
  }

  ghost predicate AllHandled(tools: Tools, calls: seq<Call>, oracle: Oracle, base: nat, maxResult: nat) {
    FirstHandled(tools, calls, oracle, base, |calls|, maxResult)
  }

  /** This call is rejected exactly if its arguments are not valid. */
  ghost predicate MarkedAt(tools: Tools, call: Call, rejected: map<string, string>) {
    (call.id in rejected <==> !Sound(tools, call)) && (call.id in rejected ==> rejected[call.id] == INVALID_ARGUMENT)
  }

  /** The first n calls are rejected exactly where their arguments are not valid. */
  ghost predicate Marked(tools: Tools, calls: seq<Call>, n: nat, rejected: map<string, string>)
    requires n <= |calls|
  {
    forall i {:trigger MarkedAt(tools, calls[i], rejected)} :: 0 <= i < n ==> MarkedAt(tools, calls[i], rejected)
  }

  lemma MarkedNext(tools: Tools, calls: seq<Call>, i: nat, rejected: map<string, string>)
    requires i < |calls| && DistinctIds(calls) && Marked(tools, calls, i, rejected) && !Sound(tools, calls[i])
    ensures Marked(tools, calls, i + 1, rejected[calls[i].id := INVALID_ARGUMENT])
  {
    forall j | 0 <= j < i
      ensures MarkedAt(tools, calls[j], rejected[calls[i].id := INVALID_ARGUMENT])
    {
      assert MarkedAt(tools, calls[j], rejected);
    }
  }

  // ---- what a run has sent, as its replies and results determine it ----

  function CallsIn(reply: Reply): seq<Call> {
    if reply.Finished? then OutputCalls(reply.output) else []
  }

  /** How many calls the completed attempts made. */
  function CallCount(attempts: seq<Attempt>, oracle: Oracle): nat {
    if attempts == [] then 0
    else
      var n := |attempts| - 1;
      CallCount(attempts[..n], oracle) + if attempts[n].completed then |CallsIn(oracle.Reply(n))| else 0
  }

  /** The size of what a round adds to the conversation: what was sent back, then the observations. */
  function RoundSize(tools: Tools, measure: Item -> nat, calls: seq<Call>, continuation: seq<Item>, oracle: Oracle, base: nat): nat {
    Sizes(measure, continuation) + Sizes(measure, Outputs(calls, Observations(tools, calls, oracle, base)))
  }

  /** The size of everything that is sent beside the first messages after these attempts. */
  function SentSize(tools: Tools, measure: Item -> nat, attempts: seq<Attempt>, oracle: Oracle): nat {
    if attempts == [] then 0
    else
      var n := |attempts| - 1;
      SentSize(tools, measure, attempts[..n], oracle) +
      if attempts[n].completed && oracle.Reply(n).Finished? then
        RoundSize(tools, measure, OutputCalls(oracle.Reply(n).output), Continuation(oracle.Reply(n).output), oracle, CallCount(attempts[..n], oracle))
      else 0
  }

  /** The calls of the last reply. */
  function LastCalls(attempts: seq<Attempt>, oracle: Oracle): seq<Call> {
    if attempts == [] then [] else CallsIn(oracle.Reply(|attempts| - 1))
  }

  /** The last reply is an answer. */
  ghost predicate Finishes(attempts: seq<Attempt>, tools: bool, oracle: Oracle) {
    attempts != [] && attempts[|attempts| - 1].completed
    && var reply := oracle.Reply(|attempts| - 1);
       Accepted(reply, tools) && !reply.blank && (tools ==> OutputCalls(reply.output) == [])
  }

  /** The last reply is accepted, and this is what it asks for. */
  ghost predicate Asked(attempts: seq<Attempt>, tools: bool, oracle: Oracle, calls: seq<Call>, continuation: seq<Item>) {
    attempts != [] && attempts[|attempts| - 1].completed
    && var reply := oracle.Reply(|attempts| - 1);
       Accepted(reply, tools) && Completion(calls, continuation) == Meaning(reply, tools)
  }

  lemma AskedIsValid(attempts: seq<Attempt>, tools: bool, oracle: Oracle, calls: seq<Call>, continuation: seq<Item>)
    requires Asked(attempts, tools, oracle, calls, continuation)
    ensures calls == [] ==> Finishes(attempts, tools, oracle)
    ensures calls != [] ==> calls == LastCalls(attempts, oracle) && ValidCompletion(Completion(calls, continuation), true, false)
  {
    MeaningIsValid(oracle.Reply(|attempts| - 1), tools);
  }

  /** Attempts that did not complete add nothing. */
  lemma {:induction false} NothingAdded(tools: Tools, measure: Item -> nat, attempts: seq<Attempt>, before: nat, oracle: Oracle)
    requires before <= |attempts| && forall i :: before <= i < |attempts| ==> !attempts[i].completed
    ensures SentSize(tools, measure, attempts, oracle) == SentSize(tools, measure, attempts[..before], oracle)
    ensures CallCount(attempts, oracle) == CallCount(attempts[..before], oracle)
  {
    if before == |attempts| {
      assert attempts[..before] == attempts;
    } else {
      var n := |attempts| - 1;
      NothingAdded(tools, measure, attempts[..n], before, oracle);
      assert attempts[..n][..before] == attempts[..before];
    }
  }

  /** Every attempt of a run is billed for its reply and for all that was sent until then. */
  ghost predicate Booked(attempts: seq<Attempt>, tools: Tools, measure: Item -> nat, estimate: nat, oracle: Oracle) {
    attempts == [] ||
    var n := |attempts| - 1;
    Booked(attempts[..n], tools, measure, estimate, oracle) &&
    Billed(attempts[n], oracle.Reply(n), tools.Offered(), estimate + SentSize(tools, measure, attempts[..n], oracle))
  }

  lemma LedgerBefore(attempts: seq<Attempt>, before: nat, p: Prepared, tools: bool, provider: Provider)
    requires before < |attempts| && Ledger(attempts, before, p, tools, provider)
    ensures Ledger(attempts[..|attempts| - 1], before, p, tools, provider)
  {
    var most := attempts[..|attempts| - 1];
    forall i | before <= i < |most|
      ensures Entry(most, i, provider.At(i), p, tools)
    {
      assert most[..i] == attempts[..i] && Entry(attempts, i, provider.At(i), p, tools);
    }
  }

  /** A call's attempts are all billed for what was sent when the call began. */
  lemma {:induction false} CallBooked(earlier: seq<Attempt>, attempts: seq<Attempt>, p: Prepared, tools: Tools, measure: Item -> nat, estimate: nat, oracle: Oracle)
    requires earlier <= attempts && Booked(earlier, tools, measure, estimate, oracle)
    requires p.inputEstimate == estimate + SentSize(tools, measure, earlier, oracle)
    requires Ledger(attempts, |earlier|, p, tools.Offered(), oracle.provider)
    requires forall i :: |earlier| <= i < |attempts| - 1 ==> !attempts[i].completed
    ensures Booked(attempts, tools, measure, estimate, oracle)
  {
    if |attempts| == |earlier| {
      assert attempts == earlier;
    } else {
      var n := |attempts| - 1;
      LedgerBefore(attempts, |earlier|, p, tools.Offered(), oracle.provider);
      CallBooked(earlier, attempts[..n], p, tools, measure, estimate, oracle);
      assert Entry(attempts, n, oracle.Reply(n), p, tools.Offered());
      NothingAdded(tools, measure, attempts[..n], |earlier|, oracle);
      assert attempts[..n][..|earlier|] == earlier;
    }
  }

  /** The attempts since `earlier` are one answered call. */
  ghost predicate OneCall(earlier: seq<Attempt>, attempts: seq<Attempt>) {
    earlier < attempts && attempts[|attempts| - 1].completed && forall i :: |earlier| <= i < |attempts| - 1 ==> !attempts[i].completed
  }

  /** What an answered call that asks for tools adds to the calls and to the conversation. */
  lemma RoundRecorded(earlier: seq<Attempt>, attempts: seq<Attempt>, tools: Tools, measure: Item -> nat, oracle: Oracle, calls: seq<Call>, continuation: seq<Item>)
    requires OneCall(earlier, attempts) && Asked(attempts, tools.Offered(), oracle, calls, continuation) && calls != []
    ensures CallCount(attempts, oracle) == CallCount(earlier, oracle) + |calls|
    ensures SentSize(tools, measure, attempts, oracle) ==
            SentSize(tools, measure, earlier, oracle) + RoundSize(tools, measure, calls, continuation, oracle, CallCount(earlier, oracle))
  {
    var n := |attempts| - 1;
    NothingAdded(tools, measure, attempts[..n], |earlier|, oracle);
    assert attempts[..n][..|earlier|] == earlier;
  }

  datatype Verdict = Stop | Reject | Accept(arguments: string)

  /** Why a run fails: its time is up, it cannot afford another call, the last call found no answer, or its
      calls were not permitted or could not be handled. */
  datatype Cause = Late | OverBudget | NoAnswer | NotPermitted | NotHandled

  datatype Outcome = Answer | Failure(cause: Cause)

  class ReActRun {
    const prepared: Prepared
    const tools: Tools
    const summary: ModelSummary
    const measure: Item -> nat
    const maxResult: nat
    ghost const given: seq<Item>  // the first messages
    var items: seq<Item>  // provider_items
    var steps: nat
    var toolCalls: nat
    var spentInput: nat
    var spentOutput: nat
    var extraInput: nat
    var seenIds: set<string>
    var seenPrints: set<(string, string)>
    var executed: seq<Execution>

    /** Everything charged so far, failed attempts included, is within the budget of the run. */
    ghost predicate WithinBudget()
      reads this, summary
    {
      spentInput == ChargedInput(summary.attempts) <= prepared.budget.maxInput &&
      spentOutput == ChargedOutput(summary.attempts) <= prepared.budget.maxOutput &&
      steps <= |summary.attempts| <= prepared.budget.maxModelCalls &&
      toolCalls <= prepared.budget.maxToolCalls
    }

    /** Every call the model made has exactly one output, in the same order. */
    ghost predicate Answered()
      reads this
    {
      OutputIds(items) == CallIds(items) && |OutputIds(items)| == toolCalls
    }

    ghost predicate NothingRepeated()
      reads this
    {
      NoRepeats(executed) && seenIds == Ids(executed) && seenPrints == Prints(executed) && |executed| <= toolCalls
      && AllAllowed(tools, executed)
    }

    /** The input estimate has grown by exactly the items that were added to the first messages. */
    ghost predicate Measured()
      reads this
    {
      Sizes(measure, items) == Sizes(measure, given) + extraInput
    }

    ghost predicate Valid()
      reads this, summary
    {
      WithinBudget() && Answered() && NothingRepeated() && Measured()
    }

    constructor (prepared: Prepared, tools: Tools, measure: Item -> nat, maxResult: nat, messages: seq<Item>)
      requires forall i :: 0 <= i < |messages| ==> messages[i].Message?
      ensures Valid() && fresh(summary) && this.prepared == prepared && this.tools == tools
      ensures this.measure == measure && this.maxResult == maxResult
      ensures steps == 0 && toolCalls == 0 && items == given == messages && summary.attempts == []
    {
      this.prepared, this.tools, this.measure, this.maxResult, given := prepared, tools, measure, maxResult, messages;
      summary := new ModelSummary();
      items, steps, toolCalls, spentInput, spentOutput, extraInput := messages, 0, 0, 0, 0, 0;
      seenIds, seenPrints, executed := {}, {}, [];
      new;
      NoCallsYet(messages);
    }

    /** The call that the loop would make next: longer input, and no more output than remains. */
    function NextCall(): Prepared
      reads this
      requires spentOutput <= prepared.budget.maxOutput
    {
      var remaining := prepared.budget.maxOutput - spentOutput;
      prepared.(inputEstimate := prepared.inputEstimate + extraInput,
                maxOutput := if prepared.maxOutput < remaining then prepared.maxOutput else remaining)
    }

    /** Calls and output remain, and the input fits window and budget. */
    ghost predicate CanCall()
      reads this, summary
      requires spentOutput <= prepared.budget.maxOutput
    {
      |summary.attempts| < prepared.budget.maxModelCalls && spentOutput < prepared.budget.maxOutput
      && Affordable(NextCall()) && spentInput + NextCall().inputEstimate <= prepared.budget.maxInput
    }

    /** A call is allowed exactly while it can be paid for. */
    method CheckBudget() returns (current: Option<Prepared>)
      requires Valid()
      ensures current == if CanCall() then Some(NextCall()) else None
      ensures current.Some? ==> current.value.inputEstimate + Sizes(measure, given) == prepared.inputEstimate + Sizes(measure, items)
    {
      if |summary.attempts| >= prepared.budget.maxModelCalls {
        return None;
      }
      var remaining := prepared.budget.maxOutput - spentOutput;
      if remaining <= 0 {
        return None;
      }
      var now := prepared.(inputEstimate := prepared.inputEstimate + extraInput,
                           maxOutput := if prepared.maxOutput < remaining then prepared.maxOutput else remaining);
      if !Affordable(now) || spentInput + now.inputEstimate > prepared.budget.maxInput {
        return None;
      }
      return Some(now);
    }

    /** A call of the model. An answered one completes its last attempt and enters all its charges in the
        books; one without an answer leaves the reason in the attempts. */
    method Reason(current: Prepared, oracle: Oracle) returns (response: Response)
      requires Valid() && current.budget == prepared.budget
      modifies this`steps, this`spentInput, this`spentOutput, summary
      ensures old(summary.attempts) <= summary.attempts && |summary.attempts| <= prepared.budget.maxModelCalls
      ensures Ledger(summary.attempts, old(|summary.attempts|), current, tools.Offered(), oracle.provider)
      ensures forall i :: old(|summary.attempts|) <= i < |summary.attempts| - 1 ==> !summary.attempts[i].completed
      ensures response.Answered? <==> |summary.attempts| > old(|summary.attempts|) && summary.attempts[|summary.attempts| - 1].completed
      ensures response.Answered? ==> Valid() && steps == old(steps) + 1
      ensures response.Answered? ==> Asked(summary.attempts, tools.Offered(), oracle, response.calls, response.continuation)
      ensures response.Failed? ==>
                GivesUp(summary.attempts, old(|summary.attempts|), current, tools.Offered(), oracle.provider)
                && steps == old(steps) && spentInput == old(spentInput) && spentOutput == old(spentOutput)
    {
      ghost var before := |summary.attempts|;
      response := Stream(summary, current, tools.Offered(), spentInput, spentOutput, oracle.provider);
      if |summary.attempts| > 0 {
        RepeatedIncomplete(summary.attempts, before, |summary.attempts| - 1, tools.Offered(), oracle.provider);
      }
      if response.Answered? {
        steps := steps + 1;
        spentInput, spentOutput := spentInput + response.spentInput, spentOutput + response.spentOutput;
      }
    }

    /** A round of calls that may run: within the number of calls, each of them proper, and none a repetition. */
    ghost predicate Permitted(calls: seq<Call>)
      reads this
    {
      calls != [] && toolCalls + |calls| <= prepared.budget.maxToolCalls
      && (forall i {:trigger calls[i]} :: 0 <= i < |calls| ==> Proper(tools, seenIds, calls[i]))
      && NothingOld(Granted(tools, calls), seenIds, seenPrints)
    }

    /** Every call is decoded and checked. A call with bad arguments is rejected but the run goes on; a call that
        is not permitted, reuses the id of an executed call or repeats one ends the run. */
    method ValidateAction(calls: seq<Call>, late: bool)
      returns (ok: bool, parsed: seq<string>, rejected: map<string, string>)
      requires Valid() && DistinctIds(calls)
      modifies this`seenIds, this`seenPrints
      ensures ok <==> !late && old(Permitted(calls))
      ensures ok ==> |parsed| == |calls| && Approved(calls, parsed, rejected) == Granted(tools, calls)
      ensures ok ==> Marked(tools, calls, |calls|, rejected)
      ensures ok ==> Checked(tools, executed, Granted(tools, calls), seenIds, seenPrints)
      ensures !ok ==> seenIds == old(seenIds) && seenPrints == old(seenPrints) && (late || !Permitted(calls))
    {
      OldOrRepeated(executed, Granted(tools, calls));
      parsed, rejected := [], map[];
      if late || calls == [] || toolCalls + |calls| > prepared.budget.maxToolCalls {
        return false, parsed, rejected;
      }
      var ids, prints := seenIds, seenPrints;
      assert executed + [] == executed;
      for i := 0 to |calls|
        invariant Checking(calls, i, parsed, rejected, ids, prints)
        invariant seenIds == old(seenIds) && seenPrints == old(seenPrints)
      {
        var call := calls[i];
        var verdict := Judge(call, ids, prints);
        match verdict {
          case Stop =>
            StopIsRight(calls, i, parsed, rejected, ids, prints);
            return false, parsed, rejected;
          case Reject =>
            RejectStep(calls, i, parsed, rejected, ids, prints);
            parsed, rejected := parsed + [NO_ARGUMENTS], rejected[call.id := INVALID_ARGUMENT];
          case Accept(arguments) =>
            AcceptStep(calls, i, parsed, rejected, ids, prints);
            ids, prints, parsed := ids + {call.id}, prints + {(call.name, arguments)}, parsed + [arguments];
        }
      }
      assert calls[..|calls|] == calls;
      seenIds, seenPrints := ids, prints;
      return true, parsed, rejected;
    }

    /** The checks on one call, in their order. */
    method Judge(call: Call, ids: set<string>, prints: set<(string, string)>) returns (verdict: Verdict)
      ensures verdict == if !Proper(tools, ids, call) then Stop
                         else if !Sound(tools, call) then Reject
                         else if (call.name, Granting(tools, call).arguments) in prints then Stop
                         else Accept(Granting(tools, call).arguments)
    {
      if call.name !in tools.names || call.id in ids {
        return Stop;
      }
      var decoded := tools.decode(call.arguments);
      if decoded == None {
        return Reject;
      }
      if !tools.permitted(call.name) {
        return Stop;
      }
      if !tools.accepts(call.name, decoded.value) {
        return Reject;
      }
      return if (call.name, decoded.value) in prints then Stop else Accept(decoded.value);
    }

    /** The first i calls have been checked, and none of them ends the run. */
    ghost predicate Checking(calls: seq<Call>, i: nat, parsed: seq<string>, rejected: map<string, string>,
                             ids: set<string>, prints: set<(string, string)>)
      reads this
    {
      i <= |calls| && |parsed| == i && (forall j :: i <= j < |calls| ==> calls[j].id !in rejected) &&
      Approved(calls[..i], parsed, rejected) == Granted(tools, calls[..i]) && Checked(tools, executed, Granted(tools, calls[..i]), ids, prints) &&
      Marked(tools, calls, i, rejected) &&
      forall j {:trigger calls[j]} :: 0 <= j < i ==> Proper(tools, seenIds, calls[j])
    }

    lemma StopIsRight(calls: seq<Call>, i: nat, parsed: seq<string>, rejected: map<string, string>, ids: set<string>, prints: set<(string, string)>)
      requires NothingRepeated() && DistinctIds(calls) && i < |calls| && Checking(calls, i, parsed, rejected, ids, prints)
      requires !Proper(tools, ids, calls[i]) || (Sound(tools, calls[i]) && (calls[i].name, Granting(tools, calls[i]).arguments) in prints)
      ensures !Proper(tools, seenIds, calls[i]) || !NoRepeats(executed + Granted(tools, calls))
    {
      IdIsNew(calls, i, ids, prints);
      if Proper(tools, ids, calls[i]) {
        RepeatsItself(tools, executed, calls, i);
      }
    }

    lemma RejectStep(calls: seq<Call>, i: nat, parsed: seq<string>, rejected: map<string, string>, ids: set<string>, prints: set<(string, string)>)
      requires NothingRepeated() && DistinctIds(calls) && i < |calls| && Checking(calls, i, parsed, rejected, ids, prints)
      requires Proper(tools, ids, calls[i]) && !Sound(tools, calls[i])
      ensures Checking(calls, i + 1, parsed + [NO_ARGUMENTS], rejected[calls[i].id := INVALID_ARGUMENT], ids, prints)
    {
      IdIsNew(calls, i, ids, prints);
      GrantedNext(tools, calls, i);
      assert calls[..i + 1][..i] == calls[..i];
      MarkedNext(tools, calls, i, rejected);
      RejectNext(calls[..i + 1], parsed, rejected, INVALID_ARGUMENT);
    }

    lemma AcceptStep(calls: seq<Call>, i: nat, parsed: seq<string>, rejected: map<string, string>, ids: set<string>, prints: set<(string, string)>)
      requires NothingRepeated() && DistinctIds(calls) && i < |calls| && Checking(calls, i, parsed, rejected, ids, prints)
      requires Proper(tools, ids, calls[i]) && Sound(tools, calls[i]) && (calls[i].name, Granting(tools, calls[i]).arguments) !in prints
      ensures var e := Granting(tools, calls[i]);
              Checking(calls, i + 1, parsed + [e.arguments], rejected, ids + {e.id}, prints + {(e.name, e.arguments)})
    {
      IdIsNew(calls, i, ids, prints);
      GrantedNext(tools, calls, i);
      assert calls[..i + 1][..i] == calls[..i];
      AcceptNext(calls[..i + 1], parsed, rejected, Granting(tools, calls[i]).arguments);
      CheckedNext(tools, executed, Granted(tools, calls[..i]), ids, prints, Granting(tools, calls[i]));
    }

    /** An id that this round has not used is in use exactly if an executed call has it. */
    lemma IdIsNew(calls: seq<Call>, i: nat, ids: set<string>, prints: set<(string, string)>)
      requires NothingRepeated() && DistinctIds(calls) && i < |calls| && Checked(tools, executed, Granted(tools, calls[..i]), ids, prints)
      ensures calls[i].id in ids <==> calls[i].id in seenIds
    {
      var granted := Granted(tools, calls[..i]);
      GrantedIds(tools, calls[..i]);
      assert forall e :: e in executed + granted <==> e in executed || e in granted;
      assert forall e :: e in granted ==> e.id != calls[i].id;
      if calls[i].id in Ids(executed + granted) {
        var e :| e in executed + granted && e.id == calls[i].id;
        assert e in executed;
      }
      if calls[i].id in Ids(executed) {
        var e :| e in executed && e.id == calls[i].id;
        assert e in executed + granted;
      }
    }

    /** Handles one call: a rejected one is only reported, an approved one runs. */
    method Handle(calls: seq<Call>, parsed: seq<string>, rejected: map<string, string>, oracle: Oracle, i: nat, ghost before: seq<Execution>)
      returns (ok: bool, text: string, ghost ran: nat)
      requires WithinBudget() && |parsed| == |calls| && i < |calls| && MarkedAt(tools, calls[i], rejected)
      requires executed == RunAfter(before, calls, parsed, rejected, i)
      modifies this`executed
      ensures ok <==> HandledAt(tools, calls, oracle, toolCalls, i, maxResult)
      ensures ok ==> text == Observation(tools, calls[i], oracle.Result(toolCalls + i))
      ensures i <= ran <= i + 1 && executed == RunAfter(before, calls, parsed, rejected, ran) && (ok ==> ran == i + 1)
    {
      ran := i + 1;
      var call, result := calls[i], oracle.Result(toolCalls + i);
      if result.late {
        return false, "", i;
      }
      if call.id in rejected {
        return true, Rejection(rejected[call.id]), ran;
      }
      executed := executed + [Execution(call.id, call.name, parsed[i])];
      return Utf8Size(result.output) <= maxResult, result.output, ran;
    }

    /** The approved calls run, in order; every call, rejected or not, gets its observation. Money and calls
        are within the limits whenever a tool runs. */
    method Act(calls: seq<Call>, parsed: seq<string>, rejected: map<string, string>, oracle: Oracle)
      returns (ok: bool, texts: seq<string>, ghost ran: nat)
      requires WithinBudget() && |parsed| == |calls| && toolCalls + |calls| <= prepared.budget.maxToolCalls
      requires Marked(tools, calls, |calls|, rejected)
      modifies this`executed, this`toolCalls
      ensures ran <= |calls| && executed == RunAfter(old(executed), calls, parsed, rejected, ran)
      ensures ok ==> ran == |calls| && texts == Observations(tools, calls, oracle, old(toolCalls))
      ensures ok <==> AllHandled(tools, calls, oracle, old(toolCalls), maxResult)
      ensures toolCalls == if ok then old(toolCalls) + |calls| else old(toolCalls)
    {
      texts := [];
      for i := 0 to |calls|
        invariant toolCalls == old(toolCalls) && executed == RunAfter(old(executed), calls, parsed, rejected, i)
        invariant texts == ObservedFirst(tools, calls, oracle, toolCalls, i)
        invariant FirstHandled(tools, calls, oracle, toolCalls, i, maxResult)
      {
        var text;
        ok, text, ran := Handle(calls, parsed, rejected, oracle, i, old(executed));
        if !ok {
          return;
        }
        texts := texts + [text];
      }
      ran := |calls|;
      toolCalls := toolCalls + |calls|;
      ok := true;
    }

    /** The round goes back to the provider: its calls, and one output for each. */
    method Observe(calls: seq<Call>, continuation: seq<Item>, texts: seq<string>)
      requires NoOutputs(continuation) && Calls(continuation) == calls && |texts| == |calls|
      requires OutputIds(items) == CallIds(items) && |OutputIds(items)| + |calls| == toolCalls && Measured()
      modifies this`items, this`extraInput
      ensures Answered() && OutputIds(items) == old(OutputIds(items)) + IdsOf(calls)
      ensures items == old(items) + (continuation + Outputs(calls, texts))
      ensures Measured() && extraInput == old(extraInput) + Sizes(measure, continuation) + Sizes(measure, Outputs(calls, texts))
    {
      RoundAnswers(items, continuation, calls, texts);
      var additions := continuation + Outputs(calls, texts);
      SizesConcat(measure, items, additions);
      SizesConcat(measure, continuation, Outputs(calls, texts));
      items := items + additions;
      extraInput := extraInput + Sizes(measure, additions);
    }

    /** The nodes act and observe, for a round that was found valid. */
    method Carry(calls: seq<Call>, continuation: seq<Item>, parsed: seq<string>, rejected: map<string, string>, oracle: Oracle)
      returns (ok: bool)
      requires WithinBudget() && Answered() && Measured() && |executed| <= toolCalls && toolCalls + |calls| <= prepared.budget.maxToolCalls
      requires NoOutputs(continuation) && Calls(continuation) == calls
      requires |parsed| == |calls| && Marked(tools, calls, |calls|, rejected)
      requires Approved(calls, parsed, rejected) == Granted(tools, calls)
      requires Checked(tools, executed, Granted(tools, calls), seenIds, seenPrints)
      modifies this`executed, this`toolCalls, this`items, this`extraInput
      ensures ok <==> AllHandled(tools, calls, oracle, old(toolCalls), maxResult)
      ensures ok ==> Valid() && executed == GrantedAfter(tools, old(executed), calls) && toolCalls == old(toolCalls) + |calls|
      ensures ok ==> extraInput == old(extraInput) + RoundSize(tools, measure, calls, continuation, oracle, old(toolCalls))
      ensures !ok ==> toolCalls == old(toolCalls)
      ensures Harmless()
    {
      ghost var before := executed;
      var texts;
      ghost var ran;
      ok, texts, ran := Act(calls, parsed, rejected, oracle);
      PartOfRound(tools, before, calls, parsed, rejected, ran, seenIds, seenPrints);
      if ok {
        Observe(calls, continuation, texts);
      }
    }

    /** The nodes validate_action, act and observe; `nodes` says how many of them were entered. */
    method Round(calls: seq<Call>, continuation: seq<Item>, late: bool, oracle: Oracle) returns (ok: bool, nodes: nat)
      requires Valid() && ValidCompletion(Completion(calls, continuation), true, false)
      modifies this`seenIds, this`seenPrints, this`executed, this`toolCalls, this`items, this`extraInput
      ensures 1 <= nodes <= 3 && (ok ==> nodes == 3 && Valid())
      ensures ok ==> !late && old(Permitted(calls)) && AllHandled(tools, calls, oracle, old(toolCalls), maxResult)
      ensures ok ==> executed == GrantedAfter(tools, old(executed), calls) && toolCalls == old(toolCalls) + |calls|
      ensures ok ==> extraInput == old(extraInput) + RoundSize(tools, measure, calls, continuation, oracle, old(toolCalls))
      ensures !ok && nodes == 1 ==> late || !Permitted(calls)
      ensures !ok && nodes > 1 ==> !AllHandled(tools, calls, oracle, toolCalls, maxResult)
      ensures Harmless()
    {
      var parsed, rejected;
      nodes := 1;
      ok, parsed, rejected := ValidateAction(calls, late);
      if ok {
        ok := Carry(calls, continuation, parsed, rejected, oracle);
        nodes := if ok then 3 else 2;
      }
    }

    /** What no run ever breaks, whatever becomes of it. */
    ghost predicate Harmless()
      reads this
    {
      NoRepeats(executed) && AllAllowed(tools, executed) && |executed| <= prepared.budget.maxToolCalls
    }

    /** The state of the graph when it is about to check the budget: all that was sent and billed follows from
        the provider's replies and the tools' results. */
    ghost predicate InStep(oracle: Oracle)
      reads this, summary
    {
      toolCalls == CallCount(summary.attempts, oracle) && extraInput == SentSize(tools, measure, summary.attempts, oracle)
      && Booked(summary.attempts, tools, measure, prepared.inputEstimate, oracle)
      && (summary.attempts != [] ==> summary.attempts[|summary.attempts| - 1].completed) && Valid()
    }

    /** Why the last call of a run found no answer. */
    ghost predicate Unanswered(oracle: Oracle, before: nat)
      reads this, summary
    {
      before <= |summary.attempts| && (before > 0 ==> summary.attempts[before - 1].completed)
      && (forall i :: before <= i < |summary.attempts| ==> !summary.attempts[i].completed)
      && spentOutput <= prepared.budget.maxOutput && GivesUp(summary.attempts, before, NextCall(), tools.Offered(), oracle.provider)
    }

    /** The cause of a failure, as it shows in the state where the run stopped. */
    ghost predicate Explained(cause: Cause, oracle: Oracle, supersteps: nat)
      reads this, summary
    {
      match cause
      case Late => oracle.Expired(supersteps)
      case OverBudget => Valid() && !CanCall()
      case NoAnswer => exists before :: Unanswered(oracle, before)
      case NotPermitted => oracle.Expired(supersteps) || !Permitted(LastCalls(summary.attempts, oracle))
      case NotHandled => !AllHandled(tools, LastCalls(summary.attempts, oracle), oracle, toolCalls, maxResult)
    }

    /** The state in which the call that is now answered began: the round it asks for has not been added. */
    ghost predicate Pending(oracle: Oracle, earlier: seq<Attempt>)
      reads this, summary
    {
      OneCall(earlier, summary.attempts) && toolCalls == CallCount(earlier, oracle) && extraInput == SentSize(tools, measure, earlier, oracle)
      && Booked(summary.attempts, tools, measure, prepared.inputEstimate, oracle)
    }

    /** The node reason, with what it means for the whole run. */
    method Ask(current: Prepared, oracle: Oracle) returns (response: Response)
      requires InStep(oracle) && CanCall() && current == NextCall()
      modifies this`steps, this`spentInput, this`spentOutput, summary
      ensures response.Answered? ==> Valid() && steps == old(steps) + 1
      ensures response.Answered? ==> Asked(summary.attempts, tools.Offered(), oracle, response.calls, response.continuation)
      ensures response.Answered? ==> Pending(oracle, old(summary.attempts))
      ensures response.Failed? ==> Accounted(oracle) && Unanswered(oracle, old(|summary.attempts|))
    {
      ghost var earlier := summary.attempts;
      response := Reason(current, oracle);
      CallBooked(earlier, summary.attempts, current, tools, measure, prepared.inputEstimate, oracle);
    }

    /** The nodes after reason when tools are called. */
    method Follow(calls: seq<Call>, continuation: seq<Item>, oracle: Oracle, superstep: nat, ghost earlier: seq<Attempt>)
      returns (cause: Option<Cause>, nodes: nat)
      requires Valid() && calls != [] && Asked(summary.attempts, tools.Offered(), oracle, calls, continuation) && Pending(oracle, earlier)
      modifies this`seenIds, this`seenPrints, this`executed, this`toolCalls, this`items, this`extraInput
      ensures 1 <= nodes <= 3 && (cause == None ==> nodes == 3 && InStep(oracle))
      ensures cause.Some? ==> Accounted(oracle) && Explained(cause.value, oracle, superstep + nodes)
    {
      AskedIsValid(summary.attempts, tools.Offered(), oracle, calls, continuation);
      RoundRecorded(earlier, summary.attempts, tools, measure, oracle, calls, continuation);
      var ok;
      ok, nodes := Round(calls, continuation, oracle.Expired(superstep + 1), oracle);
      if ok {
        return None, nodes;
      }
      return Some(if nodes == 1 then NotPermitted else NotHandled), nodes;
    }

    /** Whatever becomes of a run: bounded attempts, each billed for what it sent, and no call repeated. */
    ghost predicate Accounted(oracle: Oracle)
      reads this, summary
    {
      |summary.attempts| <= prepared.budget.maxModelCalls && Harmless()
      && Booked(summary.attempts, tools, measure, prepared.inputEstimate, oracle)
    }

    /** What is true of every run that has ended. */
    ghost predicate Ended(outcome: Outcome, oracle: Oracle, supersteps: nat)
      reads this, summary
    {
      match outcome
      case Answer => Accounted(oracle) && Finishes(summary.attempts, tools.Offered(), oracle) && Valid()
      case Failure(cause) => Accounted(oracle) && Explained(cause, oracle, supersteps)
    }

    /** The nodes after check_budget. */
    method Turn(current: Prepared, oracle: Oracle, superstep: nat) returns (outcome: Option<Outcome>, nodes: nat)
      requires InStep(oracle) && CanCall() && current == NextCall()
      modifies this, summary
      ensures 1 <= nodes <= 4 && (outcome == None ==> nodes == 4 && InStep(oracle) && steps == old(steps) + 1)
      ensures outcome.Some? ==> Ended(outcome.value, oracle, superstep + nodes)
      ensures outcome == Some(Answer) ==> nodes == 3 && steps == old(steps) + 1
    {
      ghost var earlier := summary.attempts;
      var response := Ask(current, oracle);
      if response.Failed? {
        return Some(Failure(NoAnswer)), 1;
      }
      if response.calls == [] {
        AskedIsValid(summary.attempts, tools.Offered(), oracle, response.calls, response.continuation);
        return Some(Answer), 3;  // validate_answer and finalize
      }
      var cause;
      cause, nodes := Follow(response.calls, response.continuation, oracle, superstep + 1, earlier);
      nodes := nodes + 1;
      if cause.Some? {
        return Some(Failure(cause.value)), nodes;
      }
      outcome := None;
    }

    /** Once around the cycle. */
    method Cycle(oracle: Oracle, superstep: nat) returns (outcome: Option<Outcome>, nodes: nat)
      requires InStep(oracle)
      modifies this, summary
      ensures nodes <= 5 && (outcome == None ==> nodes == 5 && InStep(oracle) && steps == old(steps) + 1)
      ensures outcome.Some? ==> Ended(outcome.value, oracle, superstep + nodes)
      ensures outcome == Some(Answer) ==> nodes == 4 && steps == old(steps) + 1
      ensures nodes > 1 ==> old(steps) < prepared.budget.maxModelCalls
    {
      if oracle.Expired(superstep + 1) {
        return Some(Failure(Late)), 1;
      }
      var current := CheckBudget();
      if current == None {
        return Some(Failure(OverBudget)), 1;
      }
      outcome, nodes := Turn(current.value, oracle, superstep + 1);
      nodes := nodes + 1;
    }

    /** The whole graph. Each node is one superstep. However the run ends, it made at most max_model_calls
        attempts, each billed for its reply and for all that was sent until then, repeated no tool call and
        stayed far below the recursion limit; an answer comes within budget, and a failure has its cause. */
    method Run(oracle: Oracle) returns (outcome: Outcome, supersteps: nat)
      requires Valid() && InRange(prepared.budget, prepared.maxRetries)
      requires steps == 0 && toolCalls == 0 && items == given && summary.attempts == []
      modifies this, summary
      ensures supersteps <= 82 < RECURSION_LIMIT && (outcome.Answer? ==> supersteps <= 80)
      ensures Ended(outcome, oracle, supersteps)
    {
      supersteps := 1;
      while true
        invariant InStep(oracle) && supersteps == 1 + 5 * steps
        decreases prepared.budget.maxModelCalls - steps
      {
        var done, nodes := Cycle(oracle, supersteps);
        supersteps := supersteps + nodes;
        if done.Some? {
          return done.value, supersteps;
        }
      }
    }
  }

  /** What the checks so far have established about the calls that were approved. */
  ghost predicate Checked(tools: Tools, executed: seq<Execution>, approved: seq<Execution>, ids: set<string>, prints: set<(string, string)>) {
    var done := executed + approved;
    NoRepeats(done) && AllAllowed(tools, done) && ids == Ids(done) && prints == Prints(done)
  }

  lemma CheckedNext(tools: Tools, executed: seq<Execution>, approved: seq<Execution>, ids: set<string>, prints: set<(string, string)>, e: Execution)
    requires Checked(tools, executed, approved, ids, prints) && Allowed(tools, e) && e.id !in ids && (e.name, e.arguments) !in prints
    ensures Checked(tools, executed, approved + [e], ids + {e.id}, prints + {(e.name, e.arguments)})
  {
    var done := executed + approved;
    forall i | 0 <= i < |done|
      ensures Differ(done[i], e)
    {
      assert done[i] in done && done[i].id in Ids(done) && (done[i].name, done[i].arguments) in Prints(done);
    }
    AddedIds(done, e);
    assert executed + (approved + [e]) == done + [e];
  }

  /** Whatever part of an approved round has run: nothing is repeated, and all of it was allowed. */
  lemma PartOfRound(tools: Tools, before: seq<Execution>, calls: seq<Call>, parsed: seq<string>, rejected: map<string, string>, ran: nat,
                    ids: set<string>, prints: set<(string, string)>)
    requires |calls| == |parsed| && ran <= |calls|
    requires Approved(calls, parsed, rejected) == Granted(tools, calls) && Checked(tools, before, Granted(tools, calls), ids, prints)
    ensures var done := RunAfter(before, calls, parsed, rejected, ran);
            NoRepeats(done) && AllAllowed(tools, done) && |done| <= |before| + ran
            && (ran == |calls| ==> done == GrantedAfter(tools, before, calls) && ids == Ids(done) && prints == Prints(done))
  {
    var done, all := RunAfter(before, calls, parsed, rejected, ran), before + Granted(tools, calls);
    RunAfterIs(before, calls, parsed, rejected, ran);
    GrantedAfterIs(tools, before, calls);
    forall i | 0 <= i < |done|
      ensures done[i] == all[i]
    {
    }
    forall i, j | 0 <= i < j < |done|
      ensures Differ(done[i], done[j])
    {
      assert Differ(all[i], all[j]);
    }
  }

  lemma AddedIds(done: seq<Execution>, e: Execution)
    ensures Ids(done + [e]) == Ids(done) + {e.id} && Prints(done + [e]) == Prints(done) + {(e.name, e.arguments)}
  {
    assert forall x :: x in done + [e] <==> x in done || x == e;
  }

  lemma AcceptNext(calls: seq<Call>, parsed: seq<string>, rejected: map<string, string>, arguments: string)
    requires |calls| == |parsed| + 1 && calls[|calls| - 1].id !in rejected
    ensures var n := |calls| - 1;
            Approved(calls, parsed + [arguments], rejected) ==
            Approved(calls[..n], parsed, rejected) + [Execution(calls[n].id, calls[n].name, arguments)]
  {
    assert (parsed + [arguments])[..|calls| - 1] == parsed;
  }

  lemma {:induction false} ApprovedPrefix(calls: seq<Call>, parsed: seq<string>, rejected: map<string, string>, i: nat)
    requires |calls| == |parsed| && i <= |calls|
    ensures Approved(calls[..i], parsed[..i], rejected) <= Approved(calls, parsed, rejected)
  {
    if i == |calls| {
      assert calls[..i] == calls && parsed[..i] == parsed;
    } else {
      var n := |calls| - 1;
      ApprovedPrefix(calls[..n], parsed[..n], rejected, i);
      assert calls[..n][..i] == calls[..i] && parsed[..n][..i] == parsed[..i];
    }
  }

  /** What has run after the first i calls of a round. */
  function RunAfter(before: seq<Execution>, calls: seq<Call>, parsed: seq<string>, rejected: map<string, string>, i: nat): seq<Execution>
    requires |calls| == |parsed| && i <= |calls|
  {
    if i == 0 then before
    else
      var earlier := RunAfter(before, calls, parsed, rejected, i - 1);
      if calls[i - 1].id in rejected then earlier else earlier + [Execution(calls[i - 1].id, calls[i - 1].name, parsed[i - 1])]
  }

  /** The approved calls among them, and all of these in the end. */
  lemma {:induction false} RunAfterIs(before: seq<Execution>, calls: seq<Call>, parsed: seq<string>, rejected: map<string, string>, i: nat)
    requires |calls| == |parsed| && i <= |calls|
    ensures var ran, all := RunAfter(before, calls, parsed, rejected, i), before + Approved(calls, parsed, rejected);
            ran <= all && |ran| <= |before| + i && (i == |calls| ==> ran == all)
  {
    RunAfterApproved(before, calls, parsed, rejected, i);
    ApprovedPrefix(calls, parsed, rejected, i);
    if i == |calls| {
      assert calls[..i] == calls && parsed[..i] == parsed;
    }
  }

  lemma {:induction false} RunAfterApproved(before: seq<Execution>, calls: seq<Call>, parsed: seq<string>, rejected: map<string, string>, i: nat)
    requires |calls| == |parsed| && i <= |calls|
    ensures RunAfter(before, calls, parsed, rejected, i) == before + Approved(calls[..i], parsed[..i], rejected)
    ensures |Approved(calls[..i], parsed[..i], rejected)| <= i
  {
    if i > 0 {
      RunAfterApproved(before, calls, parsed, rejected, i - 1);
      assert calls[..i][..i - 1] == calls[..i - 1] && parsed[..i][..i - 1] == parsed[..i - 1];
    }
  }

  lemma RejectNext(calls: seq<Call>, parsed: seq<string>, rejected: map<string, string>, code: string)
    requires |calls| == |parsed| + 1 && DistinctIds(calls)
    ensures var n := |calls| - 1;
            Approved(calls, parsed + [NO_ARGUMENTS], rejected[calls[n].id := code]) == Approved(calls[..n], parsed, rejected)
  {
    var n := |calls| - 1;
    assert (parsed + [NO_ARGUMENTS])[..n] == parsed;
    RejectLater(calls[..n], parsed, rejected, calls[n].id, code);
  }

  lemma {:induction false} NoCallsYet(messages: seq<Item>)
    requires forall i :: 0 <= i < |messages| ==> messages[i].Message?
    ensures Calls(messages) == [] && OutputIds(messages) == []
  {
    if messages != [] {
      NoCallsYet(messages[..|messages| - 1]);
    }
  }
}
