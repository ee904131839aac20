// Conversations, effects: every row says what the calls that made it said.
module ConversationEffects {
  import opened ConversationTables

  /** The accepted call that created this run. */
  ghost function Creation(h: History, r: nat): Option<Step> {
    match h
    case Begin => None
    case Later(before, step) =>
      if step.CreateRun? && step.ids.run == r
         && CreateOutcome(Outcomes(before), step.user, step.conversation, step.request, step.now) == Done
      then Some(step) else Creation(before, r)
  }

  /** This step ends a running run. */
  ghost predicate Ends(t: Tables, step: Step, r: nat) {
    r in t.runs && t.runs[r].status == Running &&
    match step
    case CreateRun(_, _, _, _, _) => false
    case FinishRun(user, run, status, answer, error, ids, now) => run == r && FinishOutcome(t, user, run, status, answer, now) == Done
    case ExpireRuns(now) => t.runs[r].deadline <= now
    case InterruptRuns(now) => true
  }

  /** The step that ended this run. */
  ghost function Ending(h: History, r: nat): Option<Step> {
    match h
    case Begin => None
    case Later(before, step) =>
      if Ending(before, r).Some? then Ending(before, r)
      else if Ends(Outcomes(before), step, r) then Some(step) else None
  }

  /** The row of a run as its creation and its end determine it. */
  ghost predicate RowSays(run: Run, creation: Step, ending: Option<Step>)
    requires creation.CreateRun?
  {
    run.user == creation.user && run.deadline == creation.request.deadline &&
    run.conversation == (if creation.conversation.Some? then creation.conversation.value else creation.ids.conversation) &&
    match ending
    case None => run.status == Running && run.finishedAt == None && run.errorCode == None
    case Some(FinishRun(_, _, status, _, error, _, now)) => run.status == status && run.finishedAt == Some(now) && run.errorCode == error
    case Some(ExpireRuns(now)) =>
      run.status == Interrupted && run.finishedAt == Some(now) && run.errorCode == Some("AGENT_DEADLINE_EXCEEDED")
    case Some(InterruptRuns(now)) =>
      run.status == Interrupted && run.finishedAt == Some(now) && run.errorCode == Some("AGENT_RESTARTED")
    case Some(CreateRun(_, _, _, _, _)) => false
  }

  lemma RowStep(t: Tables, step: Step, r: nat, creation: Step, ending: Option<Step>)
    requires Possible(t, step) && r in t.runs && creation.CreateRun? && RowSays(t.runs[r], creation, ending)
    requires ending == None <==> t.runs[r].status == Running
    ensures r in Next(t, step).runs
    ensures RowSays(Next(t, step).runs[r], creation, if ending.Some? then ending else if Ends(t, step, r) then Some(step) else None)
    ensures Next(t, step).runs[r].status == Running <==> ending == None && !Ends(t, step, r)
  {
  }

  lemma NewRow(t: Tables, step: Step, r: nat)
    requires Possible(t, step) && r !in t.runs && r in Next(t, step).runs
    ensures step.CreateRun? && step.ids.run == r && CreateOutcome(t, step.user, step.conversation, step.request, step.now) == Done
    ensures RowSays(Next(t, step).runs[r], step, None)
  {
  }

  /** In every reachable state a run exists exactly if a call created it, and its row is what that call and the
      step that ended it say: user, conversation and deadline of the one; status, time and error code of the
      other. */
  lemma {:induction false} RunByHistory(h: History, r: nat)
    requires Legal(h)
    ensures r in Outcomes(h).runs <==> Creation(h, r).Some?
    ensures r in Outcomes(h).runs ==>
              Creation(h, r).value.CreateRun? && RowSays(Outcomes(h).runs[r], Creation(h, r).value, Ending(h, r)) &&
              (Ending(h, r) == None <==> Outcomes(h).runs[r].status == Running)
    ensures r !in Outcomes(h).runs ==> Ending(h, r) == None
  {
    match h
    case Begin =>
    case Later(before, step) =>
      RunByHistory(before, r);
      var t := Outcomes(before);
      if r in t.runs {
        RowStep(t, step, r, Creation(before, r).value, Ending(before, r));
      } else if r in Next(t, step).runs {
        NewRow(t, step, r);
      }
  }

  /** What a message says was said: a question by the call that created its run, an answer by the one that
      completed it. */
  ghost predicate MessageSays(m: Message, creation: Option<Step>, ending: Option<Step>) {
    creation.Some? && creation.value.CreateRun? &&
    match m.role
    case User => m.content == creation.value.request.content && m.id == creation.value.ids.message
    case Assistant => ending.Some? && ending.value.FinishRun? && ending.value.status == Completed && ending.value.answer == Some(m.content)
                      && m.id == ending.value.ids.message
  }

  lemma {:induction false} MessageByHistory(h: History, m: Message)
    requires Legal(h) && m in Outcomes(h).messages
    ensures MessageSays(m, Creation(h, m.run), Ending(h, m.run))
  {
    var before, step := h.before, h.step;
    var t := Outcomes(before);
    RunByHistory(before, m.run);
    if m in t.messages {
      MessageByHistory(before, m);
      InvAlways(before);
      assert MessageOk(t, m);
    } else {
      NewMessage(t, step, m);
    }
  }

  lemma NewMessage(t: Tables, step: Step, m: Message)
    requires Possible(t, step) && m !in t.messages && m in Next(t, step).messages
    ensures step.CreateRun? ==>
              CreateOutcome(t, step.user, step.conversation, step.request, step.now) == Done
              && m == Message(step.ids.message, m.conversation, step.ids.run, User, step.request.content)
    ensures step.FinishRun? ==>
              Ends(t, step, step.run) && step.status == Completed && step.answer.Some?
              && m == Message(step.ids.message, t.runs[step.run].conversation, step.run, Assistant, step.answer.value)
    ensures step.CreateRun? || step.FinishRun?
  {
  }

  /** Every turn that is ever read has the question that was asked and the answer that was given, word for word. */
  lemma TurnSaysWhatWasSaid(h: History, conversation: nat, turn: Turn)
    requires Legal(h) && turn in Turns(Outcomes(h).messages, conversation)
    ensures var asked, answered := Creation(h, turn.run), Ending(h, turn.run);
            asked.Some? && asked.value.CreateRun? && asked.value.request.content == turn.question && asked.value.ids.message == turn.userId &&
            answered.Some? && answered.value.FinishRun? && answered.value.answer == Some(turn.answer) && answered.value.ids.message == turn.answerId
  {
    InvAlways(h);
    var u, a := TurnIsRow(Outcomes(h).messages, conversation, turn);
    MessageByHistory(h, u);
    MessageByHistory(h, a);
  }

  lemma {:induction false} EndingIsFinal(h: History, later: History, r: nat)
    requires Legal(later) && Continues(h, later) && Ending(h, r).Some?
    ensures Ending(later, r) == Ending(h, r)
  {
    if h != later {
      EndingIsFinal(h, later.before, r);
    }
  }

  lemma {:induction false} CreationIsFinal(h: History, later: History, r: nat)
    requires Legal(later) && Continues(h, later) && Creation(h, r).Some?
    ensures Creation(later, r) == Creation(h, r)
  {
    if h != later {
      CreationIsFinal(h, later.before, r);
      RunByHistory(later.before, r);
    }
  }

  lemma {:induction false} LegalBefore(h: History, later: History)
    requires Legal(later) && Continues(h, later)
    ensures Legal(h)
  {
    if h != later {
      LegalBefore(h, later.before);
    }
  }

  /** After an accepted finish the row has the status, the error code and the time that were given, at every
      later time; and a completed run is a turn with exactly this answer and the question of its request. */
  lemma FinishStores(h: History, later: History, step: Step)
    requires Legal(later) && Continues(Later(h, step), later) && step.FinishRun?
    requires FinishOutcome(Outcomes(h), step.user, step.run, step.status, step.answer, step.now) == Done
    ensures var runs := Outcomes(later).runs;
            step.run in runs && runs[step.run].status == step.status && runs[step.run].finishedAt == Some(step.now)
            && runs[step.run].errorCode == step.error
    ensures step.status == Completed ==>
              Creation(h, step.run).Some? && Creation(h, step.run).value.CreateRun? &&
              exists turn :: turn in Turns(Outcomes(later).messages, Outcomes(later).runs[step.run].conversation) && turn.run == step.run
                        && Some(turn.answer) == step.answer && turn.question == Creation(h, step.run).value.request.content
  {
    var r := step.run;
    LegalBefore(Later(h, step), later);
    RunByHistory(h, r);
    assert Ending(Later(h, step), r) == Some(step);
    EndingIsFinal(Later(h, step), later, r);
    CreationIsFinal(Later(h, step), later, r);
    RunByHistory(later, r);
    if step.status == Completed {
      CompletedRunIsTurn(later, r);
      var conversation := Outcomes(later).runs[r].conversation;
      var turn :| turn in Turns(Outcomes(later).messages, conversation) && turn.run == r;
      TurnSaysWhatWasSaid(later, conversation, turn);
    }
  }

  /** A conversation belongs to the user who opened it, with the key of that first request, and never changes. */
  lemma ConversationStep(t: Tables, step: Step, c: nat)
    requires Possible(t, step)
    ensures c in t.conversations ==> c in Next(t, step).conversations && Next(t, step).conversations[c] == t.conversations[c]
    ensures c !in t.conversations && c in Next(t, step).conversations ==>
              step.CreateRun? && step.conversation == None && step.ids.conversation == c
              && Next(t, step).conversations[c] == Conversation(step.user, step.request.agentKey)
  {
  }

  /** A run is created exactly for a valid request that opens a conversation, or that comes from the owner of
      one, names its agent, and finds none of its runs running. */
  lemma CreateAccepted(h: History, user: int, conversation: Option<nat>, request: Request, now: int)
    ensures var t := Outcomes(h);
            CreateOutcome(t, user, conversation, request, now) == Done <==>
            user > 0 && request.deadline > now && (exists i :: 0 <= i < |request.content| && !Space(request.content[i]))
            && |request.content| <= 32_000 && 1 <= |request.id| <= 128 && 1 <= |request.configSource| <= 64
            && (request.agentKey.Some? ==> 1 <= |request.agentKey.value| <= 64) &&
            (conversation.Some? ==>
              conversation.value in t.conversations && t.conversations[conversation.value].user == user &&
              request.agentKey == (if t.conversations[conversation.value].agentKey in {None, Some("")} then Some("demo")
                                   else t.conversations[conversation.value].agentKey) &&
              forall r :: r in t.runs && t.runs[r].conversation == conversation.value ==> t.runs[r].status != Running)
  {
  }

  /** A run is finished exactly if it is the user's and still running, to a terminal status, with an answer
      exactly when it completes, and then before its deadline. */
  lemma FinishAccepted(h: History, user: int, run: nat, status: Status, answer: Option<string>, now: int)
    requires Legal(h)
    ensures var t := Outcomes(h);
            FinishOutcome(t, user, run, status, answer, now) == Done <==>
            run in t.runs && t.runs[run].user == user && t.runs[run].status == Running && status != Running &&
            (answer.Some? <==> status == Completed) &&
            (answer.Some? ==> 1 <= |answer.value| <= 32_000 && now < t.runs[run].deadline)
  {
    InvAlways(h);
    assert run in Outcomes(h).runs ==> RunOk(Outcomes(h), run);
  }

  /** A call that is refused changes nothing. */
  lemma RefusedChangesNothing(t: Tables, step: Step)
    requires step.CreateRun? || step.FinishRun?
    requires if step.CreateRun? then CreateOutcome(t, step.user, step.conversation, step.request, step.now) != Done
             else FinishOutcome(t, step.user, step.run, step.status, step.answer, step.now) != Done
    ensures Next(t, step) == t
  {
  }
}
