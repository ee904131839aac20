// One model call with its retries: what history is sent, what every attempt costs, when a retry is allowed.
module DirectAnswer {

  datatype Option<+T> = None | Some(value: T)

  datatype Budget = Budget(maxToolCalls: nat, maxModelCalls: nat, maxInput: nat, maxOutput: nat)

  /** The ranges that RuntimeBudget and ProviderConfig enforce. */
  predicate InRange(budget: Budget, maxRetries: nat) {
    budget.maxToolCalls <= 32 && 1 <= budget.maxModelCalls <= 16 && 1 <= budget.maxInput <= 128_000
    && 1 <= budget.maxOutput <= 32_000 && maxRetries <= 2
  }

  datatype Prepared = Prepared(budget: Budget, contextWindow: nat, maxRetries: nat, inputEstimate: nat, maxOutput: nat)

  // ---- prepare ----

  datatype HistoryMessage = HistoryMessage(role: string, bytes: nat)

  predicate Pair(messages: seq<HistoryMessage>, i: nat)
    requires i + 1 < |messages|
  {
    messages[i].role == "user" && messages[i + 1].role == "assistant"
  }

  function PairCost(messages: seq<HistoryMessage>, i: nat): nat
    requires i + 1 < |messages|
  {
    messages[i].bytes + messages[i + 1].bytes + 256
  }

  function PairsCost(messages: seq<HistoryMessage>): nat {
    if |messages| < 2 then 0 else PairCost(messages, 0) + PairsCost(messages[2..])
  }

  predicate AllPairs(messages: seq<HistoryMessage>) {
    messages == [] || (|messages| >= 2 && Pair(messages, 0) && AllPairs(messages[2..]))
  }

  function Candidates(history: seq<HistoryMessage>): seq<HistoryMessage> {
    if |history| <= 40 then history else history[|history| - 40..]
  }

  lemma PairPrepended(c: seq<HistoryMessage>, next: nat)
    requires 2 <= next <= |c| && Pair(c, next - 2) && AllPairs(c[next..])
    ensures AllPairs(c[next - 2..]) && PairsCost(c[next - 2..]) == PairCost(c, next - 2) + PairsCost(c[next..])
    ensures c[next - 2..next] + c[next..] == c[next - 2..]
  {
    assert c[next - 2..][2..] == c[next..];
  }

  function TextBytes(messages: seq<HistoryMessage>): nat {
    if messages == [] then 0 else messages[0].bytes + TextBytes(messages[1..])
  }

  lemma {:induction false} PairsCostBytes(messages: seq<HistoryMessage>)
    requires AllPairs(messages)
    ensures PairsCost(messages) == TextBytes(messages) + 128 * |messages| && |messages| % 2 == 0
  {
    if messages != [] {
      assert messages[1..][1..] == messages[2..];
      PairsCostBytes(messages[2..]);
    }
  }

  /** What is seen of the candidates is seen of the history, up to 40 messages. */
  lemma NewestOfHistory(history: seq<HistoryMessage>, kept: seq<HistoryMessage>, next: nat)
    requires var c := Candidates(history); next <= |c| && kept == c[next..] && |kept| % 2 == 0
    ensures |kept| <= 40 && |kept| <= |history| && kept == history[|history| - |kept|..]
    ensures var before := |history| - |kept| - 2;
            if next >= 2 then before >= 0 && Candidates(history)[next - 2..next] == history[before..before + 2] else |kept| == 40 || before < 0
    ensures next >= 2 ==>
              var before := |history| - |kept| - 2;
              Pair(Candidates(history), next - 2) == Pair(history, before)
              && PairCost(Candidates(history), next - 2) == history[before].bytes + history[before + 1].bytes + 256
  {
  }

  /** This input estimate leaves the run's budget and the context window enough room. */
  predicate HasRoom(p: Prepared, estimate: int) {
    estimate <= p.budget.maxInput && estimate + p.maxOutput <= p.contextWindow
  }

  /** The history that is kept is the longest run of whole question-answer pairs at the end of the history, of at
      most 40 messages, that fits; the estimate is the fixed part plus the bytes kept and 128 for each message. */
  method Prepare(budget: Budget, profileOutput: nat, contextWindow: nat, maxRetries: nat, fixed: nat, history: seq<HistoryMessage>)
    returns (prepared: Prepared, kept: seq<HistoryMessage>)
    ensures prepared.budget == budget && prepared.contextWindow == contextWindow && prepared.maxRetries == maxRetries
    ensures prepared.maxOutput == if profileOutput < budget.maxOutput then profileOutput else budget.maxOutput
    ensures |kept| <= 40 && |kept| % 2 == 0 && |kept| <= |history| && kept == history[|history| - |kept|..] && AllPairs(kept)
    ensures prepared.inputEstimate == fixed + TextBytes(kept) + 128 * |kept|
    ensures kept != [] ==> HasRoom(prepared, prepared.inputEstimate)
    ensures var next := |history| - |kept| - 2;
            |kept| == 40 || next < 0 || !Pair(history, next)
            || !HasRoom(prepared, prepared.inputEstimate + history[next].bytes + history[next + 1].bytes + 256)
  {
    var maxOutput := if profileOutput < budget.maxOutput then profileOutput else budget.maxOutput;
    var limit := InputLimit(budget, contextWindow, maxOutput);
    var estimate := fixed;
    var c := Candidates(history);
    kept := [];
    var next := |c|;
    while next >= 2
      invariant 0 <= next <= |c| && kept == c[next..] && AllPairs(kept) && estimate == fixed + PairsCost(kept)
      invariant kept != [] ==> estimate <= limit
      decreases next
    {
      if !Pair(c, next - 2) {
        break;
      }
      var cost := PairCost(c, next - 2);
      if estimate + cost > limit {
        break;
      }
      estimate := estimate + cost;
      PairPrepended(c, next);
      kept := c[next - 2..next] + kept;
      next := next - 2;
    }
    prepared := Prepared(budget, contextWindow, maxRetries, estimate, maxOutput);
    PairsCostBytes(kept);
    NewestOfHistory(history, kept, next);
  }

  function InputLimit(budget: Budget, contextWindow: nat, maxOutput: nat): int {
    if budget.maxInput < contextWindow - maxOutput then budget.maxInput else contextWindow - maxOutput
  }

  predicate Affordable(p: Prepared) {
    p.inputEstimate <= p.budget.maxInput && p.inputEstimate + p.maxOutput <= p.contextWindow
  }

  // ---- what the provider sends ----

  /** The last field is the size of the call's JSON. */
  datatype Call = Call(id: string, name: string, arguments: string, size: nat)

  /** An item of a response; the text of a reasoning item is what may be sent back of it. */
  datatype OutputItem = Reasoning(kept: Option<string>) | FunctionCall(call: Call) | Text | Malformed | Unsupported

  /** What goes back to the provider in the next round. */
  datatype Item = Message | Thought(text: string) | Called(call: Call) | Output(id: string, text: string)

  datatype Usage = Usage(input: nat, output: nat)

  /** One attempt: the stream breaks, or it ends with a completed response. `bytes` is the text sent so far. */
  datatype Reply =
    | Broken(bytes: nat, retryable: bool)
    | Finished(bytes: nat, blank: bool, output: seq<OutputItem>, usage: Option<Usage>)

  /** What the provider answers, attempt by attempt. */
  datatype Provider = Provider(answers: nat -> Reply) {
    function At(i: nat): Reply {
      answers(i)
    }
  }

  datatype Completion = Completion(calls: seq<Call>, continuation: seq<Item>) | Rejected(retryable: bool)

  const LONGEST_ARGUMENTS := 8192
  const MOST_CALLS := 32

  function Utf8Width(c: char): nat {
    var point := c as int;
    if point < 0x80 then 1 else if point < 0x800 then 2 else if point < 0x1_0000 then 3 else 4
  }

  /** The length of a text in bytes, at least its length in characters. */
  function Utf8Size(text: string): (size: nat)
    ensures size >= |text|
  {
    if text == [] then 0 else Utf8Size(text[..|text| - 1]) + Utf8Width(text[|text| - 1])
  }

  predicate DistinctIds(calls: seq<Call>) {
    forall i, j :: 0 <= i < j < |calls| ==> calls[i].id != calls[j].id
  }

  function Calls(items: seq<Item>): seq<Call> {
    if items == [] then []
    else if items[|items| - 1].Called? then Calls(items[..|items| - 1]) + [items[|items| - 1].call]
    else Calls(items[..|items| - 1])
  }

  /** The calls that a response contains. */
  function OutputCalls(output: seq<OutputItem>): seq<Call> {
    if output == [] then []
    else if output[|output| - 1].FunctionCall? then OutputCalls(output[..|output| - 1]) + [output[|output| - 1].call]
    else OutputCalls(output[..|output| - 1])
  }

  /** The items of a response that the next round sends back, in order. */
  function Continuation(output: seq<OutputItem>): seq<Item> {
    if output == [] then []
    else
      var earlier := Continuation(output[..|output| - 1]);
      match output[|output| - 1]
      case Reasoning(Some(text)) => earlier + [Thought(text)]
      case FunctionCall(call) => earlier + [Called(call)]
      case _ => earlier
  }

  predicate Invalid(item: OutputItem) {
    item.Malformed? || (item.FunctionCall? && |item.call.arguments| > LONGEST_ARGUMENTS)
  }

  /** A well-formed item that is not supported or too much. */
  predicate Excessive(output: seq<OutputItem>, i: nat)
    requires i < |output|
  {
    var item := output[i];
    !Invalid(item) && (item.Unsupported? ||
                       (item.FunctionCall? && (Utf8Size(item.call.arguments) > LONGEST_ARGUMENTS || |OutputCalls(output[..i])| >= MOST_CALLS)))
  }

  predicate Fine(output: seq<OutputItem>, i: nat)
    requires i < |output|
  {
    !Invalid(output[i]) && !Excessive(output, i)
  }

  /** The first item that is not fine is one that asking again would not mend. */
  ghost predicate Refused(output: seq<OutputItem>) {
    exists i {:trigger Excessive(output, i)} :: 0 <= i < |output| && Excessive(output, i) && forall j :: 0 <= j < i ==> Fine(output, j)
  }

  predicate Usable(item: OutputItem) {
    !item.Malformed? && !item.Unsupported? && (item.FunctionCall? ==> Utf8Size(item.call.arguments) <= LONGEST_ARGUMENTS)
  }

  ghost predicate AllUsable(output: seq<OutputItem>) {
    (forall i {:trigger output[i]} :: 0 <= i < |output| ==> Usable(output[i])) && |OutputCalls(output)| <= MOST_CALLS
  }

  /** A response that is accepted: without tools any visible text, with tools usable items only, at most 32
      calls with different ids, and text if there is no call. */
  ghost predicate Acceptable(reply: Reply, tools: bool)
    requires reply.Finished?
  {
    if !tools then !reply.blank
    else AllUsable(reply.output) && DistinctIds(OutputCalls(reply.output)) && (OutputCalls(reply.output) == [] ==> !reply.blank)
  }

  ghost predicate Accepted(reply: Reply, tools: bool) {
    reply.Finished? && Acceptable(reply, tools)
  }

  /** A failure that may be tried again: a connection that says so, or an invalid response of which nothing
      was shown. One that is not supported or too large is final. */
  ghost predicate Repeatable(reply: Reply, tools: bool) {
    if reply.Broken? then reply.retryable
    else !Acceptable(reply, tools) && reply.bytes == 0 && !(tools && Refused(reply.output))
  }

  /** What a reply means. */
  ghost function Meaning(reply: Reply, tools: bool): Completion {
    if !Accepted(reply, tools) then Rejected(Repeatable(reply, tools))
    else if !tools || OutputCalls(reply.output) == [] then Completion([], [])
    else Completion(OutputCalls(reply.output), Continuation(reply.output))
  }

  lemma {:induction false} MoreCalls(output: seq<OutputItem>, i: nat)
    requires i <= |output|
    ensures |OutputCalls(output[..i])| <= |OutputCalls(output)|
  {
    if i < |output| {
      MoreCalls(output[..|output| - 1], i);
      assert output[..|output| - 1][..i] == output[..i];
    } else {
      assert output[..i] == output;
    }
  }

  lemma NextItem(output: seq<OutputItem>, i: nat)
    requires i < |output|
    ensures OutputCalls(output[..i + 1]) ==
            if output[i].FunctionCall? then OutputCalls(output[..i]) + [output[i].call] else OutputCalls(output[..i])
    ensures Continuation(output[..i + 1]) ==
            match output[i]
            case Reasoning(Some(text)) => Continuation(output[..i]) + [Thought(text)]
            case FunctionCall(call) => Continuation(output[..i]) + [Called(call)]
            case _ => Continuation(output[..i])
    ensures |OutputCalls(output[..i + 1])| <= |OutputCalls(output)|
  {
    assert output[..i + 1][..i] == output[..i];
    MoreCalls(output, i + 1);
  }

  lemma CallsNext(items: seq<Item>, item: Item)
    ensures Calls(items + [item]) == if item.Called? then Calls(items) + [item.call] else Calls(items)
  {
    assert (items + [item])[..|items|] == items;
  }

  predicate NoOutputs(items: seq<Item>) {
    forall i :: 0 <= i < |items| ==> !items[i].Output?
  }

  /** All calls of a response are sent back. */
  lemma {:induction false} ContinuationCalls(output: seq<OutputItem>)
    ensures Calls(Continuation(output)) == OutputCalls(output) && NoOutputs(Continuation(output))
  {
    if output != [] {
      var n := |output| - 1;
      ContinuationCalls(output[..n]);
      match output[n] {
        case Reasoning(Some(text)) => CallsNext(Continuation(output[..n]), Thought(text));
        case FunctionCall(call) => CallsNext(Continuation(output[..n]), Called(call));
        case _ =>
      }
    }
  }

  /** A completed response: at most 32 calls with different ids, all of them to be sent back; or an answer. */
  ghost predicate ValidCompletion(done: Completion, tools: bool, blank: bool)
    requires done.Completion?
  {
    DistinctIds(done.calls) && |done.calls| <= MOST_CALLS && (!tools ==> done.calls == []) && (done.calls == [] ==> !blank)
    && NoOutputs(done.continuation) && Calls(done.continuation) == done.calls
  }

  lemma MeaningIsValid(reply: Reply, tools: bool)
    requires Accepted(reply, tools)
    ensures Meaning(reply, tools).Completion? && ValidCompletion(Meaning(reply, tools), tools, reply.blank)
  {
    ContinuationCalls(reply.output);
  }

  /** The first item that is not fine decides. */
  lemma FirstFlaw(output: seq<OutputItem>, i: nat)
    requires i < |output| && !Fine(output, i) && forall j :: 0 <= j < i ==> Fine(output, j)
    ensures Refused(output) <==> Excessive(output, i)
    ensures !AllUsable(output)
  {
    NextItem(output, i);
    if Refused(output) {
      var k: nat :| k < |output| && Excessive(output, k) && forall j :: 0 <= j < k ==> Fine(output, j);
      assert k < i ==> Fine(output, k);
    }
  }

  lemma NoFlaw(output: seq<OutputItem>)
    requires |OutputCalls(output)| <= MOST_CALLS && forall j :: 0 <= j < |output| ==> Fine(output, j)
    ensures AllUsable(output) && !Refused(output)
  {
    forall j | 0 <= j < |output|
      ensures Usable(output[j]) && !Excessive(output, j)
    {
      assert Fine(output, j);
    }
  }

  datatype Flaw = Nothing | Again | Final

  /** The loop over the items of a response. */
  method Collect(output: seq<OutputItem>) returns (flaw: Flaw, calls: seq<Call>, continuation: seq<Item>)
    ensures flaw == Nothing <==> AllUsable(output)
    ensures flaw == Final <==> Refused(output)
    ensures flaw == Nothing ==> calls == OutputCalls(output) && continuation == Continuation(output)
  {
    calls, continuation := [], [];
    for i := 0 to |output|
      invariant |calls| <= MOST_CALLS && calls == OutputCalls(output[..i]) && continuation == Continuation(output[..i])
      invariant forall j :: 0 <= j < i ==> Fine(output, j)
    {
      NextItem(output, i);
      var item := output[i];
      if Invalid(item) {
        FirstFlaw(output, i);
        return Again, calls, continuation;
      }
      match item {
        case Reasoning(kept) =>
          continuation := if kept.Some? then continuation + [Thought(kept.value)] else continuation;
        case FunctionCall(call) =>
          if Utf8Size(call.arguments) > LONGEST_ARGUMENTS || |calls| >= MOST_CALLS {
            FirstFlaw(output, i);
            return Final, calls, continuation;
          }
          calls, continuation := calls + [call], continuation + [Called(call)];
        case Text =>
        case Malformed =>
        case Unsupported =>
          FirstFlaw(output, i);
          return Final, calls, continuation;
      }
      assert Fine(output, i);
    }
    assert output[..|output|] == output;
    NoFlaw(output);
    flaw := Nothing;
  }

  /** _complete, and what the client makes of its failures. */
  method Complete(reply: Reply, tools: bool) returns (done: Completion)
    requires reply.Finished?
    ensures done == Meaning(reply, tools)
  {
    var again := Rejected(reply.bytes == 0);
    if !tools {
      return if reply.blank then again else Completion([], []);
    }
    var flaw, calls, continuation := Collect(reply.output);
    if flaw != Nothing {
      return if flaw == Again then again else Rejected(false);
    }
    if calls == [] && reply.blank {
      return again;
    }
    if !DistinctIds(calls) {
      return again;
    }
    return Completion(calls, if calls == [] then [] else continuation);
  }

  // ---- the retrying stream ----

  datatype Attempt = Attempt(input: nat, output: nat, bytes: nat, completed: bool)

  /** The bill of a run: everything that was charged, failed attempts included. */
  function ChargedInput(attempts: seq<Attempt>): nat {
    if attempts == [] then 0 else ChargedInput(attempts[..|attempts| - 1]) + attempts[|attempts| - 1].input
  }

  function ChargedOutput(attempts: seq<Attempt>): nat {
    if attempts == [] then 0 else ChargedOutput(attempts[..|attempts| - 1]) + attempts[|attempts| - 1].output
  }

  function CallBytes(calls: seq<Call>): nat {
    if calls == [] then 0 else CallBytes(calls[..|calls| - 1]) + calls[|calls| - 1].size
  }

  class ModelSummary {
    var attempts: seq<Attempt>

    constructor ()
      ensures attempts == []
    {
      attempts := [];
    }
  }

  datatype Response =
    | Answered(calls: seq<Call>, continuation: seq<Item>, blank: bool, spentInput: nat, spentOutput: nat)
    | Failed

  /** An accepted reply is billed by the provider's figures if it brings any. Otherwise the input is billed by
      the estimate and the output by what was received: the calls of an accepted reply, else the text. */
  ghost predicate Billed(attempt: Attempt, reply: Reply, tools: bool, estimate: nat) {
    attempt.bytes == reply.bytes &&
    if Accepted(reply, tools) && reply.usage.Some? then
      attempt.input == reply.usage.value.input && attempt.output == reply.usage.value.output
    else
      attempt.input == estimate &&
      attempt.output == if Accepted(reply, tools) && tools && OutputCalls(reply.output) != [] then CallBytes(OutputCalls(reply.output))
                        else reply.bytes
  }

  /** The cost of an attempt, after these charges, is within what the call and the run may spend. */
  predicate Fits(p: Prepared, input: nat, output: nat, attempt: Attempt) {
    input + attempt.input <= p.budget.maxInput && attempt.output <= p.maxOutput && output + attempt.output <= p.budget.maxOutput
  }

  /** An attempt, made after these charges, is billed as it should be, and is completed exactly if its reply is
      accepted and its cost fits. */
  ghost predicate Settled(attempt: Attempt, reply: Reply, p: Prepared, tools: bool, input: nat, output: nat) {
    Billed(attempt, reply, tools, p.inputEstimate) && (attempt.completed <==> Accepted(reply, tools) && Fits(p, input, output, attempt))
  }

  method Try(p: Prepared, tools: bool, input: nat, output: nat, reply: Reply) returns (attempt: Attempt, done: Completion)
    ensures done == Meaning(reply, tools)
    ensures Settled(attempt, reply, p, tools, input, output)
  {
    if reply.Finished? {
      done := Complete(reply, tools);
    } else {
      done := Rejected(reply.retryable);
    }
    attempt := Charge(reply, done, p.inputEstimate);
    attempt := attempt.(completed := done.Completion? && Fits(p, input, output, attempt));
  }

  /** What an attempt costs: the provider's figures if it gave any, else the estimate and the bytes received. */
  function Charge(reply: Reply, done: Completion, estimate: nat): Attempt
    requires done.Completion? ==> reply.Finished?
  {
    if done.Completion? && reply.usage.Some? then Attempt(reply.usage.value.input, reply.usage.value.output, reply.bytes, false)
    else Attempt(estimate, if done.Completion? && done.calls != [] then CallBytes(done.calls) else reply.bytes, reply.bytes, false)
  }

  ghost predicate Entry(attempts: seq<Attempt>, i: nat, reply: Reply, p: Prepared, tools: bool)
    requires i < |attempts|
  {
    Settled(attempts[i], reply, p, tools, ChargedInput(attempts[..i]), ChargedOutput(attempts[..i]))
  }

  /** The books of a call, attempt by attempt. */
  ghost predicate Ledger(attempts: seq<Attempt>, before: nat, p: Prepared, tools: bool, provider: Provider) {
    before <= |attempts| &&
    forall i {:trigger Entry(attempts, i, provider.At(i), p, tools)} :: before <= i < |attempts| ==> Entry(attempts, i, provider.At(i), p, tools)
  }

  ghost predicate RepeatedAt(attempts: seq<Attempt>, i: nat, reply: Reply, tools: bool)
    requires i < |attempts|
  {
    attempts[i].bytes == 0 && !attempts[i].completed && Repeatable(reply, tools)
  }

  /** These attempts failed in a way that may be repeated, and nothing of them reached the caller. */
  ghost predicate Repeated(attempts: seq<Attempt>, from: nat, to: nat, tools: bool, provider: Provider)
    requires to <= |attempts|
  {
    forall i {:trigger RepeatedAt(attempts, i, provider.At(i), tools)} :: from <= i < to ==> RepeatedAt(attempts, i, provider.At(i), tools)
  }

  lemma LedgerNext(attempts: seq<Attempt>, attempt: Attempt, before: nat, p: Prepared, tools: bool, provider: Provider)
    requires Ledger(attempts, before, p, tools, provider)
    requires Settled(attempt, provider.At(|attempts|), p, tools, ChargedInput(attempts), ChargedOutput(attempts))
    ensures Ledger(attempts + [attempt], before, p, tools, provider)
    ensures ChargedInput(attempts + [attempt]) == ChargedInput(attempts) + attempt.input
    ensures ChargedOutput(attempts + [attempt]) == ChargedOutput(attempts) + attempt.output
  {
    var more := attempts + [attempt];
    assert more[..|attempts|] == attempts;
    forall i | before <= i < |more|
      ensures Entry(more, i, provider.At(i), p, tools)
    {
      if i < |attempts| {
        assert more[..i] == attempts[..i] && Entry(attempts, i, provider.At(i), p, tools);
      }
    }
  }

  lemma RepeatedNext(attempts: seq<Attempt>, attempt: Attempt, before: nat, tools: bool, provider: Provider)
    requires Repeated(attempts, before, |attempts|, tools, provider)
    ensures Repeated(attempts + [attempt], before, |attempts|, tools, provider)
    ensures attempt.bytes == 0 && !attempt.completed && Repeatable(provider.At(|attempts|), tools)
            ==> Repeated(attempts + [attempt], before, |attempts| + 1, tools, provider)
  {
    var more := attempts + [attempt];
    forall i | before <= i < |attempts|
      ensures RepeatedAt(more, i, provider.At(i), tools)
    {
      assert RepeatedAt(attempts, i, provider.At(i), tools);
    }
  }

  lemma RepeatedIncomplete(attempts: seq<Attempt>, from: nat, to: nat, tools: bool, provider: Provider)
    requires to <= |attempts| && Repeated(attempts, from, to, tools, provider)
    ensures forall i :: from <= i < to ==> !attempts[i].completed
  {
    forall i | from <= i < to
      ensures !attempts[i].completed
    {
      assert RepeatedAt(attempts, i, provider.At(i), tools);
    }
  }

  /** One attempt, entered in the books. */
  method TryAndRecord(summary: ModelSummary, p: Prepared, tools: bool, input: nat, output: nat, ghost before: nat, provider: Provider)
    returns (attempt: Attempt, done: Completion)
    requires input == ChargedInput(summary.attempts) && output == ChargedOutput(summary.attempts)
    requires Ledger(summary.attempts, before, p, tools, provider) && Repeated(summary.attempts, before, |summary.attempts|, tools, provider)
    modifies summary
    ensures summary.attempts == old(summary.attempts) + [attempt]
    ensures input + attempt.input == ChargedInput(summary.attempts) && output + attempt.output == ChargedOutput(summary.attempts)
    ensures Ledger(summary.attempts, before, p, tools, provider)
    ensures Repeated(summary.attempts, before, old(|summary.attempts|), tools, provider)
    ensures var reply := provider.At(old(|summary.attempts|));
            done == Meaning(reply, tools) && attempt.bytes == reply.bytes
            && (attempt.completed <==> done.Completion? && Fits(p, input, output, attempt))
            && (reply.bytes == 0 && done == Rejected(true) ==> Repeated(summary.attempts, before, |summary.attempts|, tools, provider))
  {
    attempt, done := Try(p, tools, input, output, provider.At(|summary.attempts|));
    LedgerNext(summary.attempts, attempt, before, p, tools, provider);
    RepeatedNext(summary.attempts, attempt, before, tools, provider);
    summary.attempts := summary.attempts + [attempt];
  }

  /** Why a call ends without an answer: the run's calls, its input or the retries are used up, or the last
      attempt showed something, failed for good, or was accepted at a cost that does not fit. */
  ghost predicate GivesUp(attempts: seq<Attempt>, before: nat, p: Prepared, tools: bool, provider: Provider) {
    var n := |attempts|;
    n == p.budget.maxModelCalls || ChargedInput(attempts) + p.inputEstimate > p.budget.maxInput || n == before + p.maxRetries + 1
    || (n > before && (attempts[n - 1].bytes > 0 || !Repeatable(provider.At(n - 1), tools)))
  }

  /** An answered call: its last attempt completed, and the whole bill is within the budget of the run. */
  ghost predicate Paid(attempts: seq<Attempt>, p: Prepared, spentInput: nat, spentOutput: nat, response: Response)
    requires response.Answered?
  {
    attempts != [] && attempts[|attempts| - 1].completed && attempts[|attempts| - 1].output <= p.maxOutput
    && spentInput + response.spentInput == ChargedInput(attempts) <= p.budget.maxInput
    && spentOutput + response.spentOutput == ChargedOutput(attempts) <= p.budget.maxOutput
  }

  /** The attempts of one call: the provider's answers come in order. A call is answered
      exactly when its last attempt completed, and fails only when it may not go on. */
  method Stream(summary: ModelSummary, p: Prepared, tools: bool, spentInput: nat, spentOutput: nat, provider: Provider)
    returns (response: Response)
    requires |summary.attempts| <= p.budget.maxModelCalls
    requires spentInput == ChargedInput(summary.attempts) && spentOutput == ChargedOutput(summary.attempts)
    modifies summary
    ensures old(summary.attempts) <= summary.attempts
    ensures |summary.attempts| <= p.budget.maxModelCalls && |summary.attempts| <= old(|summary.attempts|) + p.maxRetries + 1
    ensures Ledger(summary.attempts, old(|summary.attempts|), p, tools, provider)
    ensures |summary.attempts| > 0 ==> Repeated(summary.attempts, old(|summary.attempts|), |summary.attempts| - 1, tools, provider)
    ensures response.Answered? <==> |summary.attempts| > old(|summary.attempts|) && summary.attempts[|summary.attempts| - 1].completed
    ensures response.Answered? ==> Paid(summary.attempts, p, spentInput, spentOutput, response)
    ensures response.Answered? ==>
              var reply := provider.At(|summary.attempts| - 1);
              Completion(response.calls, response.continuation) == Meaning(reply, tools) && reply.Finished? && response.blank == reply.blank
    ensures response.Failed? ==> GivesUp(summary.attempts, old(|summary.attempts|), p, tools, provider)
  {
    var input, output := spentInput, spentOutput;
    ghost var before := |summary.attempts|;
    for index := 0 to p.maxRetries + 1
      invariant old(summary.attempts) <= summary.attempts && |summary.attempts| == before + index <= p.budget.maxModelCalls
      invariant index <= p.maxRetries && spentInput <= input == ChargedInput(summary.attempts) && spentOutput <= output == ChargedOutput(summary.attempts)
      invariant Ledger(summary.attempts, before, p, tools, provider)
      invariant Repeated(summary.attempts, before, |summary.attempts|, tools, provider)
    {
      if |summary.attempts| >= p.budget.maxModelCalls || input + p.inputEstimate > p.budget.maxInput {
        RepeatedIncomplete(summary.attempts, before, |summary.attempts|, tools, provider);
        return Failed;
      }
      var reply := provider.At(|summary.attempts|);
      var attempt, done := TryAndRecord(summary, p, tools, input, output, before, provider);
      input, output := input + attempt.input, output + attempt.output;
      if attempt.completed {
        return Answered(done.calls, done.continuation, reply.blank, input - spentInput, output - spentOutput);
      }
      if done.Completion? || reply.bytes > 0 || !done.retryable || index == p.maxRetries {
        return Failed;
      }
    }
    assert false;  // the last attempt either answers or fails
  }
}
