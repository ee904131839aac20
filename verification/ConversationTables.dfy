// Conversations, runs and messages: what every transaction of the store keeps, over any run of the system.
module ConversationTables {

  datatype Option<+T> = None | Some(value: T)

  datatype Status = Running | Completed | Failed | Cancelled | Interrupted

  datatype Role = User | Assistant

  datatype Conversation = Conversation(user: int, agentKey: Option<string>)

  datatype Run = Run(conversation: nat, user: int, status: Status, deadline: int, finishedAt: Option<int>, errorCode: Option<string>)

  datatype Message = Message(id: nat, conversation: nat, run: nat, role: Role, content: string)

  datatype Tables = Tables(conversations: map<nat, Conversation>, runs: map<nat, Run>, messages: seq<Message>)

  datatype Request = Request(id: string, configSource: string, agentKey: Option<string>, content: string, deadline: int)

  datatype Outcome = Done | InvalidInput | NotFound | AgentConflict | ActiveConflict | StateConflict

  /** The identifiers that a transaction draws: UUIDs that were never used and the next message id. */
  datatype Ids = Ids(conversation: nat, run: nat, message: nat)

  const LONGEST_CONTENT := 32_000

  // ---- the transactions ----

  predicate Space(c: char) {
    '\t' <= c <= '\r' || '\U{1c}' <= c <= ' '
  }

  predicate Blank(text: string) {
    forall i :: 0 <= i < |text| ==> Space(text[i])
  }

  predicate ValidRequest(user: int, request: Request, now: int) {
    user > 0 && !Blank(request.content) && |request.content| <= LONGEST_CONTENT
    && 1 <= |request.id| <= 128 && 1 <= |request.configSource| <= 64
    && (request.agentKey.Some? ==> 1 <= |request.agentKey.value| <= 64)
    && request.deadline > now
  }

  predicate Owned(t: Tables, user: int, conversation: nat) {
    conversation in t.conversations && t.conversations[conversation].user == user
  }

  /** The key that a conversation is bound to; an unset key counts as "demo". */
  function BoundKey(conversation: Conversation): string {
    if conversation.agentKey == None || conversation.agentKey.value == "" then "demo" else conversation.agentKey.value
  }

  /** The unique key over the conversation ids of the running runs. */
  ghost predicate Active(t: Tables, conversation: nat) {
    exists r :: r in t.runs && t.runs[r].status == Running && t.runs[r].conversation == conversation
  }

  ghost function CreateOutcome(t: Tables, user: int, conversation: Option<nat>, request: Request, now: int): Outcome {
    if !ValidRequest(user, request, now) then InvalidInput
    else if conversation == None then Done
    else if !Owned(t, user, conversation.value) then NotFound
    else if request.agentKey != Some(BoundKey(t.conversations[conversation.value])) then AgentConflict
    else if Active(t, conversation.value) then ActiveConflict
    else Done
  }

  /** The rows of a new run with its user message, in a conversation that is created when none is named. */
  function Created(t: Tables, user: int, conversation: Option<nat>, request: Request, ids: Ids): Tables {
    var c := if conversation == None then ids.conversation else conversation.value;
    Tables(if conversation == None then t.conversations[c := Conversation(user, request.agentKey)] else t.conversations,
           t.runs[ids.run := Run(c, user, Running, request.deadline, None, None)],
           t.messages + [Message(ids.message, c, ids.run, User, request.content)])
  }

  function FinishOutcome(t: Tables, user: int, run: nat, status: Status, answer: Option<string>, now: int): Outcome {
    if status == Running then StateConflict
    else if status == Completed && (answer == None || answer.value == "" || |answer.value| > LONGEST_CONTENT) then StateConflict
    else if status != Completed && answer != None then StateConflict
    else if run !in t.runs || t.runs[run].user != user then NotFound
    else if !Owned(t, user, t.runs[run].conversation) then NotFound
    else if status == Completed && t.runs[run].deadline <= now then StateConflict
    else if t.runs[run].status != Running then StateConflict
    else Done
  }

  function Finished(t: Tables, run: nat, status: Status, answer: Option<string>, error: Option<string>, now: int, id: nat): Tables
    requires run in t.runs && (status == Completed ==> answer.Some?)
  {
    t.(runs := t.runs[run := t.runs[run].(status := status, finishedAt := Some(now), errorCode := error)],
       messages := if status != Completed then t.messages
                   else t.messages + [Message(id, t.runs[run].conversation, run, Assistant, answer.value)])
  }

  predicate ToStop(run: Run, restart: bool, now: int) {
    run.status == Running && (restart || run.deadline <= now)
  }

  /** A run stopped from outside: at a restart, or because its deadline has passed. */
  function Stopped(run: Run, restart: bool, now: int): Run {
    if ToStop(run, restart, now)
    then run.(status := Interrupted, finishedAt := Some(now),
              errorCode := Some(if restart then "AGENT_RESTARTED" else "AGENT_DEADLINE_EXCEEDED"))
    else run
  }

  function StopRuns(t: Tables, restart: bool, now: int): Tables {
    t.(runs := map r | r in t.runs :: Stopped(t.runs[r], restart, now))
  }

  // ---- all runs of the system ----

  datatype Step =
    | CreateRun(user: int, conversation: Option<nat>, request: Request, ids: Ids, now: int)
    | FinishRun(user: int, run: nat, status: Status, answer: Option<string>, error: Option<string>, ids: Ids, now: int)
    | ExpireRuns(now: int)
    | InterruptRuns(now: int)

  /** UUIDs are fresh and AUTO_INCREMENT only goes up; it may leave gaps. */
  predicate FreshIds(t: Tables, ids: Ids) {
    ids.conversation !in t.conversations && ids.run !in t.runs && ids.message > LastId(t.messages)
  }

  function LastId(ms: seq<Message>): nat {
    if ms == [] then 0 else ms[|ms| - 1].id
  }

  predicate Possible(t: Tables, step: Step) {
    (step.CreateRun? || step.FinishRun?) ==> FreshIds(t, step.ids)
  }

  ghost function Next(t: Tables, step: Step): Tables {
    match step
    case CreateRun(user, conversation, request, ids, now) =>
      if CreateOutcome(t, user, conversation, request, now) == Done then Created(t, user, conversation, request, ids) else t
    case FinishRun(user, run, status, answer, error, ids, now) =>
      if FinishOutcome(t, user, run, status, answer, now) == Done
      then Finished(t, run, status, answer, error, now, ids.message) else t
    case ExpireRuns(now) => StopRuns(t, false, now)
    case InterruptRuns(now) => StopRuns(t, true, now)
  }

  datatype History = Begin | Later(before: History, step: Step)

  ghost function Outcomes(h: History): Tables {
    match h
    case Begin => Tables(map[], map[], [])
    case Later(before, step) => Next(Outcomes(before), step)
  }

  ghost predicate Legal(h: History) {
    match h
    case Begin => true
    case Later(before, step) => Legal(before) && Possible(Outcomes(before), step)
  }

  // ---- messages come in pairs ----

  /** The newest message of a conversation. */
  function Latest(ms: seq<Message>, conversation: nat): Option<Message> {
    if ms == [] then None
    else if ms[|ms| - 1].conversation == conversation then Some(ms[|ms| - 1])
    else Latest(ms[..|ms| - 1], conversation)
  }

  /** This message is a user message and nothing in its conversation came after it. */
  predicate Unanswered(ms: seq<Message>, conversation: nat, run: nat) {
    var u := Latest(ms, conversation);
    u.Some? && u.value.role == User && u.value.run == run
  }

  /** A user message opens a run; an assistant message directly follows, in its conversation, the only
      other message of its run. */
  ghost predicate Follows(ms: seq<Message>, m: Message) {
    m.id > LastId(ms) &&
    (m.role == User ==> forall k :: 0 <= k < |ms| ==> ms[k].run != m.run) &&
    (m.role == Assistant ==>
      Unanswered(ms, m.conversation, m.run) &&
      forall k :: 0 <= k < |ms| && ms[k].run == m.run ==> ms[k] == Latest(ms, m.conversation).value)
  }

  ghost predicate Paired(ms: seq<Message>) {
    ms == [] || (Paired(ms[..|ms| - 1]) && Follows(ms[..|ms| - 1], ms[|ms| - 1]))
  }

  datatype Turn = Turn(run: nat, userId: nat, answerId: nat, question: string, answer: string)

  function TurnOf(u: Message, a: Message): Turn {
    Turn(u.run, u.id, a.id, u.content, a.content)
  }

  /** The completed turns of a conversation: each assistant message with the message before it. */
  function Turns(ms: seq<Message>, conversation: nat): seq<Turn> {
    if ms == [] then []
    else
      var earlier, m := ms[..|ms| - 1], ms[|ms| - 1];
      if m.conversation == conversation && m.role == Assistant && Latest(earlier, conversation).Some?
      then Turns(earlier, conversation) + [TurnOf(Latest(earlier, conversation).value, m)]
      else Turns(earlier, conversation)
  }

  /** Turns do not interleave: each is over before the next one begins. */
  ghost predicate Ordered(turns: seq<Turn>) {
    (forall i :: 0 <= i < |turns| ==> 0 < turns[i].userId < turns[i].answerId) &&
    (forall i, j :: 0 <= i < j < |turns| ==> turns[i].answerId < turns[j].userId)
  }

  lemma {:induction false} LatestIsThere(ms: seq<Message>, conversation: nat)
    requires Paired(ms)
    ensures var m := Latest(ms, conversation);
            m.Some? ==> m.value in ms && m.value.conversation == conversation && 0 < m.value.id <= LastId(ms)
  {
    if ms != [] && ms[|ms| - 1].conversation != conversation {
      LatestIsThere(ms[..|ms| - 1], conversation);
      assert forall m :: m in ms[..|ms| - 1] ==> m in ms;
    }
  }

  lemma OrderedAppend(turns: seq<Turn>, turn: Turn)
    requires Ordered(turns) && 0 < turn.userId < turn.answerId
    requires turns != [] ==> turns[|turns| - 1].answerId < turn.userId
    ensures Ordered(turns + [turn])
  {
    var all := turns + [turn];
    forall i, j | 0 <= i < j < |all|
      ensures all[i].answerId < all[j].userId
    {
      assert j < |turns| || i == |turns| - 1 || turns[i].answerId < turns[|turns| - 1].userId;
    }
  }

  /** The newest turn ends no later than the newest message, and before it when that is still unanswered. */
  predicate TurnsBefore(turns: seq<Turn>, latest: Option<Message>) {
    turns != [] ==> latest.Some? && turns[|turns| - 1].answerId <= latest.value.id
                    && (latest.value.role == User ==> turns[|turns| - 1].answerId < latest.value.id)
  }

  lemma {:induction false} TurnsOrdered(ms: seq<Message>, conversation: nat)
    requires Paired(ms)
    ensures Ordered(Turns(ms, conversation))
    ensures TurnsBefore(Turns(ms, conversation), Latest(ms, conversation))
  {
    if ms != [] {
      var earlier, m := ms[..|ms| - 1], ms[|ms| - 1];
      TurnsOrdered(earlier, conversation);
      LatestIsThere(earlier, conversation);
      var latest := Latest(earlier, conversation);
      if m.conversation == conversation && m.role == Assistant && latest.Some? {
        OrderedAppend(Turns(earlier, conversation), TurnOf(latest.value, m));
      }
    }
  }

  /** A row of the join of runs, user messages and assistant messages of one run. */
  predicate Row(ms: seq<Message>, conversation: nat, u: Message, a: Message) {
    u in ms && a in ms && u.run == a.run && u.conversation == conversation && a.conversation == conversation
    && u.role == User && a.role == Assistant && u.id < a.id
  }

  lemma {:induction false} RowIsTurn(ms: seq<Message>, conversation: nat, u: Message, a: Message)
    requires Paired(ms) && Row(ms, conversation, u, a)
    ensures TurnOf(u, a) in Turns(ms, conversation)
  {
    var earlier, m := ms[..|ms| - 1], ms[|ms| - 1];
    assert forall x :: x in ms ==> x in earlier || x == m;
    IdsBelow(earlier);
    if a == m {
      assert u in earlier;
    } else {
      assert a in earlier && a.id <= LastId(earlier);
      assert u in earlier;
      RowIsTurn(earlier, conversation, u, a);
    }
  }

  lemma {:induction false} IdsBelow(ms: seq<Message>)
    requires Paired(ms)
    ensures forall m :: m in ms ==> 0 < m.id <= LastId(ms)
  {
    if ms != [] {
      IdsBelow(ms[..|ms| - 1]);
      assert forall x :: x in ms ==> x in ms[..|ms| - 1] || x == ms[|ms| - 1];
    }
  }

  lemma {:induction false} TurnIsRow(ms: seq<Message>, conversation: nat, turn: Turn) returns (u: Message, a: Message)
    requires Paired(ms) && turn in Turns(ms, conversation)
    ensures Row(ms, conversation, u, a) && turn == TurnOf(u, a)
  {
    var earlier, m := ms[..|ms| - 1], ms[|ms| - 1];
    assert forall x :: x in earlier ==> x in ms;
    if turn in Turns(earlier, conversation) {
      u, a := TurnIsRow(earlier, conversation, turn);
    } else {
      LatestIsThere(earlier, conversation);
      u, a := Latest(earlier, conversation).value, m;
    }
  }

  // ---- the invariant ----

  ghost predicate RunOk(t: Tables, r: nat)
    requires r in t.runs
  {
    var run := t.runs[r];
    Owned(t, run.user, run.conversation) &&
    (run.status == Running ==> Unanswered(t.messages, run.conversation, r)) &&
    (run.status == Running <==> run.finishedAt == None) &&
    (run.status == Completed ==> run.finishedAt.value < run.deadline) &&
    (run.status == Completed <==> exists m :: m in t.messages && m.run == r && m.role == Assistant) &&
    (exists m :: m in t.messages && m.run == r && m.role == User)
  }

  ghost predicate MessageOk(t: Tables, m: Message) {
    m.run in t.runs && m.conversation == t.runs[m.run].conversation && m.content != "" && |m.content| <= LONGEST_CONTENT
  }

  ghost predicate Inv(t: Tables) {
    Paired(t.messages) &&
    (forall r {:trigger RunOk(t, r)} :: r in t.runs ==> RunOk(t, r)) &&
    (forall m {:trigger MessageOk(t, m)} :: m in t.messages ==> MessageOk(t, m))
  }

  lemma {:induction false} UserMessageUnique(ms: seq<Message>, a: Message, b: Message)
    requires Paired(ms) && a in ms && b in ms && a.role == User && b.role == User && a.run == b.run
    ensures a == b
  {
    var earlier, m := ms[..|ms| - 1], ms[|ms| - 1];
    assert forall x :: x in ms ==> x in earlier || x == m;
    assert forall x :: x in earlier ==> exists k :: 0 <= k < |earlier| && earlier[k] == x;
    if a in earlier && b in earlier {
      UserMessageUnique(earlier, a, b);
    }
  }

  lemma PairedAppend(ms: seq<Message>, m: Message)
    requires Paired(ms) && Follows(ms, m)
    ensures Paired(ms + [m])
    ensures forall c :: Latest(ms + [m], c) == if m.conversation == c then Some(m) else Latest(ms, c)
  {
    assert (ms + [m])[..|ms + [m]| - 1] == ms;
  }

  /** The rest of a run's row looks the same after one more message in another conversation. */
  lemma RunOkLater(t: Tables, u: Tables, r: nat, m: Message)
    requires r in t.runs && RunOk(t, r) && r in u.runs && u.runs[r] == t.runs[r]
    requires forall c :: c in t.conversations ==> c in u.conversations && u.conversations[c] == t.conversations[c]
    requires u.messages == t.messages + [m] && m.run != r
    requires t.runs[r].status == Running ==> m.conversation != t.runs[r].conversation
    ensures RunOk(u, r)
  {
    assert u.messages[..|u.messages| - 1] == t.messages;
    assert forall x :: x in t.messages ==> x in u.messages;
    assert forall x :: x in u.messages && x.run == r ==> x in t.messages;
  }

  /** The row of a run that was just created, with its message the newest of its conversation. */
  lemma NewRunOk(u: Tables, r: nat, m: Message)
    requires r in u.runs && u.messages != [] && u.messages[|u.messages| - 1] == m && m.run == r && m.role == User
    requires u.runs[r].status == Running && u.runs[r].finishedAt == None && Owned(u, u.runs[r].user, u.runs[r].conversation)
    requires m.conversation == u.runs[r].conversation
    requires forall x :: x in u.messages && x.run == r ==> x == m
    ensures RunOk(u, r)
  {
    assert m in u.messages;
  }

  /** The other runs of a conversation in which a run is created are over, so their rows stay in order. */
  lemma CreateKeepsRun(t: Tables, user: int, conversation: Option<nat>, request: Request, ids: Ids, now: int, r: nat)
    requires Inv(t) && FreshIds(t, ids) && CreateOutcome(t, user, conversation, request, now) == Done
    requires r in t.runs
    ensures RunOk(Created(t, user, conversation, request, ids), r)
  {
    var u := Created(t, user, conversation, request, ids);
    assert RunOk(t, r);
    RunOkLater(t, u, r, u.messages[|u.messages| - 1]);
  }

  lemma CreateKeeps(t: Tables, user: int, conversation: Option<nat>, request: Request, ids: Ids, now: int)
    requires Inv(t) && FreshIds(t, ids) && CreateOutcome(t, user, conversation, request, now) == Done
    ensures Inv(Created(t, user, conversation, request, ids))
  {
    var u := Created(t, user, conversation, request, ids);
    var m := u.messages[|u.messages| - 1];
    assert forall k :: 0 <= k < |t.messages| ==> MessageOk(t, t.messages[k]);
    PairedAppend(t.messages, m);
    forall x | x in u.messages
      ensures MessageOk(u, x)
    {
      assert x in t.messages ==> MessageOk(t, x);
    }
    forall r | r in u.runs
      ensures RunOk(u, r)
    {
      if r == ids.run {
        assert forall x :: x in u.messages ==> x in t.messages || x == m;
        NewRunOk(u, r, m);
      } else {
        CreateKeepsRun(t, user, conversation, request, ids, now, r);
      }
    }
  }

  lemma FinishKeeps(t: Tables, user: int, run: nat, status: Status, answer: Option<string>, error: Option<string>, now: int, id: nat)
    requires Inv(t) && id > LastId(t.messages) && FinishOutcome(t, user, run, status, answer, now) == Done
    ensures Inv(Finished(t, run, status, answer, error, now, id))
  {
    var u := Finished(t, run, status, answer, error, now, id);
    assert RunOk(t, run);
    if status == Completed {
      AnswerKeeps(t, u, run, u.runs[run]);
    } else {
      forall r | r in u.runs
        ensures RunOk(u, r)
      {
        assert RunOk(t, r);
      }
      forall x | x in u.messages
        ensures MessageOk(u, x)
      {
        assert MessageOk(t, x);
      }
    }
  }

  /** The answer of a running run follows its question. */
  lemma AnswerFollows(t: Tables, run: nat, m: Message)
    requires Inv(t) && run in t.runs && t.runs[run].status == Running
    requires m.id > LastId(t.messages) && m.run == run && m.role == Assistant && m.conversation == t.runs[run].conversation
    ensures Follows(t.messages, m)
    ensures var u := Latest(t.messages, m.conversation);
            u.Some? && u.value in t.messages && u.value.run == run && u.value.role == User
  {
    assert RunOk(t, run);
    var question := Latest(t.messages, m.conversation).value;
    LatestIsThere(t.messages, m.conversation);
    forall k | 0 <= k < |t.messages| && t.messages[k].run == run
      ensures t.messages[k] == question
    {
      assert RunOk(t, run) && t.messages[k] in t.messages && t.messages[k].role == User;
      UserMessageUnique(t.messages, t.messages[k], question);
    }
  }

  /** A running run gets its answer. */
  lemma AnswerKeeps(t: Tables, u: Tables, run: nat, done: Run)
    requires Inv(t) && run in t.runs && t.runs[run].status == Running
    requires u.runs == t.runs[run := done] && done.status == Completed && done.finishedAt.Some? && done.finishedAt.value < done.deadline
    requires done.conversation == t.runs[run].conversation && done.user == t.runs[run].user
    requires u.conversations == t.conversations
    requires u.messages != [] && u.messages[..|u.messages| - 1] == t.messages
    requires var m := u.messages[|u.messages| - 1];
             m.id > LastId(t.messages) && m.run == run && m.role == Assistant && m.conversation == t.runs[run].conversation
             && m.content != "" && |m.content| <= LONGEST_CONTENT
    ensures Inv(u)
  {
    var m := u.messages[|u.messages| - 1];
    assert u.messages == t.messages + [m];
    AnswerFollows(t, run, m);
    var question := Latest(t.messages, m.conversation).value;
    PairedAppend(t.messages, m);
    assert m in u.messages && question in u.messages;
    assert RunOk(t, run) && RunOk(u, run);
    forall r | r in u.runs
      ensures RunOk(u, r)
    {
      if r != run {
        assert RunOk(t, r);
        assert t.runs[r].status == Running ==> Unanswered(t.messages, t.runs[r].conversation, r);
        RunOkLater(t, u, r, m);
      }
    }
    forall x | x in u.messages
      ensures MessageOk(u, x)
    {
      assert x in t.messages ==> MessageOk(t, x);
    }
  }

  lemma StopKeeps(t: Tables, restart: bool, now: int)
    requires Inv(t)
    ensures Inv(StopRuns(t, restart, now))
  {
    var u := StopRuns(t, restart, now);
    forall r | r in u.runs
      ensures RunOk(u, r)
    {
      assert RunOk(t, r);
    }
    forall x | x in u.messages
      ensures MessageOk(u, x)
    {
      assert MessageOk(t, x);
    }
  }

  lemma StepKeeps(t: Tables, step: Step)
    requires Inv(t) && Possible(t, step)
    ensures Inv(Next(t, step))
  {
    match step
    case CreateRun(user, conversation, request, ids, now) =>
      if CreateOutcome(t, user, conversation, request, now) == Done {
        CreateKeeps(t, user, conversation, request, ids, now);
      }
    case FinishRun(user, run, status, answer, error, ids, now) =>
      if FinishOutcome(t, user, run, status, answer, now) == Done {
        FinishKeeps(t, user, run, status, answer, error, now, ids.message);
      }
    case ExpireRuns(now) => StopKeeps(t, false, now);
    case InterruptRuns(now) => StopKeeps(t, true, now);
  }

  lemma {:induction false} InvAlways(h: History)
    requires Legal(h)
    ensures Inv(Outcomes(h))
  {
    match h
    case Begin =>
    case Later(before, step) =>
      InvAlways(before);
      StepKeeps(Outcomes(before), step);
  }

  // ---- the main results ----

  /** At most one run of a conversation is running. */
  lemma OneRunningRun(h: History, a: nat, b: nat)
    requires Legal(h)
    requires var runs := Outcomes(h).runs;
             a in runs && b in runs && runs[a].status == Running && runs[b].status == Running
             && runs[a].conversation == runs[b].conversation
    ensures a == b
  {
    InvAlways(h);
    assert RunOk(Outcomes(h), a) && RunOk(Outcomes(h), b);
  }

  ghost predicate Continues(h: History, later: History) {
    h == later || (later.Later? && Continues(h, later.before))
  }

  lemma {:induction false} TurnsGrow(ms: seq<Message>, more: seq<Message>, conversation: nat)
    requires ms <= more
    ensures Turns(ms, conversation) <= Turns(more, conversation)
    decreases |more|
  {
    if |ms| < |more| {
      TurnsGrow(ms, more[..|more| - 1], conversation);
    } else {
      assert ms == more;
    }
  }

  lemma StepUndoesNothing(t: Tables, step: Step, r: nat)
    requires Possible(t, step)
    ensures var u := Next(t, step);
            t.messages <= u.messages &&
            (r in t.runs ==> r in u.runs && u.runs[r].conversation == t.runs[r].conversation && u.runs[r].deadline == t.runs[r].deadline) &&
            (r in t.runs && t.runs[r].status != Running ==> u.runs[r] == t.runs[r])
  {
  }

  /** Terminal states are final, messages are only appended, and so the turns of a conversation only
      grow at the end. */
  lemma {:induction false} NothingIsUndone(h: History, later: History, r: nat, conversation: nat)
    requires Legal(later) && Continues(h, later)
    ensures var t, u := Outcomes(h), Outcomes(later);
            (r in t.runs ==> r in u.runs && u.runs[r].conversation == t.runs[r].conversation && u.runs[r].deadline == t.runs[r].deadline) &&
            (r in t.runs && t.runs[r].status != Running ==> u.runs[r] == t.runs[r])
    ensures Outcomes(h).messages <= Outcomes(later).messages
    ensures Turns(Outcomes(h).messages, conversation) <= Turns(Outcomes(later).messages, conversation)
  {
    if h != later {
      NothingIsUndone(h, later.before, r, conversation);
      StepUndoesNothing(Outcomes(later.before), later.step, r);
      TurnsGrow(Outcomes(h).messages, Outcomes(later).messages, conversation);
    }
  }

  /** A row of list_completed_turn_records, before ordering and limiting. */
  ghost predicate Joined(t: Tables, user: int, conversation: nat, turn: Turn) {
    exists u, a :: Row(t.messages, conversation, u, a) && turn == TurnOf(u, a) &&
                   u.run in t.runs && t.runs[u.run].status == Completed
                   && t.runs[u.run].user == user && t.runs[u.run].conversation == conversation
  }

  /** The join that reads the history of a conversation yields exactly its turns, one for every completed
      run; they do not interleave, so ordering by user id is ordering by assistant id. */
  lemma CompletedTurns(h: History, user: int, conversation: nat, turn: Turn)
    requires Legal(h) && Owned(Outcomes(h), user, conversation)
    ensures turn in Turns(Outcomes(h).messages, conversation) <==> Joined(Outcomes(h), user, conversation, turn)
    ensures Ordered(Turns(Outcomes(h).messages, conversation))
  {
    var t := Outcomes(h);
    InvAlways(h);
    TurnsOrdered(t.messages, conversation);
    if Joined(t, user, conversation, turn) {
      var u, a :| Row(t.messages, conversation, u, a) && turn == TurnOf(u, a);
      RowIsTurn(t.messages, conversation, u, a);
    }
    if turn in Turns(t.messages, conversation) {
      var u, a := TurnIsRow(t.messages, conversation, turn);
      assert MessageOk(t, u) && MessageOk(t, a) && RunOk(t, u.run);
    }
  }

  /** A completed run finished before its deadline; every other run that is over finished too. */
  lemma CompletedInTime(h: History, r: nat)
    requires Legal(h) && r in Outcomes(h).runs && Outcomes(h).runs[r].status != Running
    ensures var run := Outcomes(h).runs[r];
            run.finishedAt.Some? && (run.status == Completed ==> run.finishedAt.value < run.deadline)
  {
    InvAlways(h);
    assert RunOk(Outcomes(h), r);
  }

  /** Both sides of a stored turn are non-empty and at most 32,000 characters long. */
  lemma TurnsAreBounded(h: History, conversation: nat, turn: Turn)
    requires Legal(h) && turn in Turns(Outcomes(h).messages, conversation)
    ensures 1 <= |turn.question| <= LONGEST_CONTENT && 1 <= |turn.answer| <= LONGEST_CONTENT
  {
    InvAlways(h);
    var u, a := TurnIsRow(Outcomes(h).messages, conversation, turn);
    assert MessageOk(Outcomes(h), u) && MessageOk(Outcomes(h), a);
  }

  /** Every completed run of a conversation is one of its turns. */
  lemma CompletedRunIsTurn(h: History, r: nat)
    requires Legal(h) && r in Outcomes(h).runs && Outcomes(h).runs[r].status == Completed
    ensures exists turn :: turn in Turns(Outcomes(h).messages, Outcomes(h).runs[r].conversation) && turn.run == r
  {
    var t := Outcomes(h);
    InvAlways(h);
    assert RunOk(t, r);
    var u :| u in t.messages && u.run == r && u.role == User;
    var a :| a in t.messages && a.run == r && a.role == Assistant;
    AnswerAfterQuestion(t.messages, u, a);
    assert MessageOk(t, u) && MessageOk(t, a);
    RowIsTurn(t.messages, t.runs[r].conversation, u, a);
    assert TurnOf(u, a).run == r;
  }

  lemma {:induction false} AnswerAfterQuestion(ms: seq<Message>, u: Message, a: Message)
    requires Paired(ms) && u in ms && a in ms && u.run == a.run && u.role == User && a.role == Assistant
    ensures u.id < a.id
  {
    var earlier, m := ms[..|ms| - 1], ms[|ms| - 1];
    assert forall x :: x in ms ==> x in earlier || x == m;
    assert forall x :: x in earlier ==> exists k :: 0 <= k < |earlier| && earlier[k] == x;
    IdsBelow(earlier);
    if u in earlier && a in earlier {
      AnswerAfterQuestion(earlier, u, a);
    }
  }

  // ---- reading the turns of a conversation ----

  /** The rows whose assistant message is newer than the cursor. */
  function After(turns: seq<Turn>, cursor: nat): seq<Turn> {
    if turns == [] then []
    else After(turns[..|turns| - 1], cursor) +
         if turns[|turns| - 1].answerId > cursor then [turns[|turns| - 1]] else []
  }

  /** LIMIT min(max(limit, 1), 200). */
  function Bound(limit: int): nat {
    if limit < 1 then 1 else if limit > 200 then 200 else limit
  }

  function Oldest(turns: seq<Turn>, n: nat): seq<Turn> {
    if |turns| <= n then turns else turns[..n]
  }

  function Newest(turns: seq<Turn>, n: nat): seq<Turn> {
    if |turns| <= n then turns else turns[|turns| - n..]
  }

  /** list_completed_turn_records on the turns of a conversation in the order of their user messages.
      Without a cursor the newest rows are read whatever oldestFirst says. */
  function Page(turns: seq<Turn>, cursor: Option<nat>, limit: int, oldestFirst: bool): seq<Turn>
    requires cursor.Some? ==> cursor.value > 0
  {
    if cursor.Some? && oldestFirst then Oldest(After(turns, cursor.value), Bound(limit))
    else Newest(if cursor.Some? then After(turns, cursor.value) else turns, Bound(limit))
  }

  /** Because turns do not interleave, the cursor cuts the history in two: what is after the turn whose
      answer it names is exactly what the filter keeps. */
  lemma {:induction false} CursorCutsHistory(turns: seq<Turn>, k: nat, cursor: nat)
    requires Ordered(turns) && k <= |turns|
    requires if k == 0 then cursor == 0 else cursor == turns[k - 1].answerId
    ensures After(turns, cursor) == turns[k..]
  {
    if k < |turns| {
      var most := turns[..|turns| - 1];
      assert most[k..] + [turns[|turns| - 1]] == turns[k..];
      CursorCutsHistory(most, k, cursor);
      assert k > 0 ==> turns[k - 1].answerId < turns[|turns| - 1].userId;
    } else if k > 0 {
      AllBefore(turns, cursor);
    }
  }

  lemma {:induction false} AllBefore(turns: seq<Turn>, cursor: nat)
    requires forall i :: 0 <= i < |turns| ==> turns[i].answerId <= cursor
    ensures After(turns, cursor) == []
  {
    if turns != [] {
      AllBefore(turns[..|turns| - 1], cursor);
    }
  }
}
