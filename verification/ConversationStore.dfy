// The store itself: each method is one transaction that updates the rows in place.
module ConversationStore {
  import opened ConversationTables

  /** The rows that an update which stops runs selects. */
  function Selected(runs: map<nat, Run>, restart: bool, now: int): set<nat> {
    set r | r in runs && ToStop(runs[r], restart, now)
  }

  class AgentStore {
    var conversations: map<nat, Conversation>
    var runs: map<nat, Run>
    var messages: seq<Message>

    ghost function Snapshot(): Tables
      reads this
    {
      Tables(conversations, runs, messages)
    }

    /** The rows are in order, as they are in every reachable state. */
    ghost predicate Valid()
      reads this
    {
      Inv(Snapshot())
    }

    constructor ()
      ensures Valid() && Snapshot() == Outcomes(Begin)
    {
      conversations, runs, messages := map[], map[], [];
    }

    method CreateRunWithUserMessage(user: int, conversation: Option<nat>, request: Request, ids: Ids, now: int)
      returns (outcome: Outcome)
      requires Valid() && FreshIds(Snapshot(), ids)
      modifies this
      ensures Valid()
      ensures outcome == CreateOutcome(old(Snapshot()), user, conversation, request, now)
      ensures Snapshot() == Next(old(Snapshot()), Step.CreateRun(user, conversation, request, ids, now))
    {
      StepKeeps(Snapshot(), Step.CreateRun(user, conversation, request, ids, now));
      if !ValidRequest(user, request, now) {
        return InvalidInput;
      }
      var c := ids.conversation;
      if conversation == None {
        conversations := conversations[c := Conversation(user, request.agentKey)];
      } else {
        c := conversation.value;
        if c !in conversations || conversations[c].user != user {
          return NotFound;
        }
        if request.agentKey != Some(BoundKey(conversations[c])) {
          return AgentConflict;
        }
        if exists r :: r in runs && runs[r].status == Running && runs[r].conversation == c {
          return ActiveConflict;
        }
      }
      runs := runs[ids.run := Run(c, user, Running, request.deadline, None, None)];
      messages := messages + [Message(ids.message, c, ids.run, User, request.content)];
      return Done;
    }

    method FinishRun(user: int, run: nat, status: Status, answer: Option<string>, error: Option<string>, ids: Ids, now: int)
      returns (outcome: Outcome)
      requires Valid() && FreshIds(Snapshot(), ids)
      modifies this
      ensures Valid()
      ensures outcome == FinishOutcome(old(Snapshot()), user, run, status, answer, now)
      ensures Snapshot() == Next(old(Snapshot()), Step.FinishRun(user, run, status, answer, error, ids, now))
    {
      StepKeeps(Snapshot(), Step.FinishRun(user, run, status, answer, error, ids, now));
      if status == Running {
        return StateConflict;
      }
      if status == Completed && (answer == None || answer.value == "" || |answer.value| > LONGEST_CONTENT) {
        return StateConflict;
      }
      if status != Completed && answer != None {
        return StateConflict;
      }
      if run !in runs || runs[run].user != user {
        return NotFound;
      }
      var row := runs[run];
      if row.conversation !in conversations || conversations[row.conversation].user != user {
        return NotFound;
      }
      if status == Completed && row.deadline <= now {
        return StateConflict;
      }
      if row.status != Running {
        return StateConflict;  // every other state is terminal
      }
      runs := runs[run := row.(status := status, finishedAt := Some(now), errorCode := error)];
      if status == Completed {
        messages := messages + [Message(ids.message, row.conversation, run, Assistant, answer.value)];
      }
      return Done;
    }

    /** Exactly the running runs whose deadline has passed are interrupted; the result is how many these are. */
    method ExpireRunningRuns(now: int) returns (count: nat)
      requires Valid()
      modifies this`runs
      ensures Valid()
      ensures runs.Keys == old(runs.Keys)
      ensures forall r {:trigger runs[r]} :: r in runs ==>
                var before := old(runs[r]);
                runs[r] == if before.status == Running && before.deadline <= now
                           then before.(status := Interrupted, finishedAt := Some(now), errorCode := Some("AGENT_DEADLINE_EXCEEDED"))
                           else before
      ensures count == |set r | r in old(runs) && old(runs[r]).status == Running && old(runs[r]).deadline <= now|
      ensures Snapshot() == Next(old(Snapshot()), Step.ExpireRuns(now))
    {
      StopKeeps(Snapshot(), false, now);
      count := StopAll(false, now);
      assert Snapshot() == StopRuns(old(Snapshot()), false, now);
      assert Selected(old(runs), false, now) ==
             (set r | r in old(runs) && old(runs[r]).status == Running && old(runs[r]).deadline <= now);
    }

    /** Exactly the running runs are interrupted; the result is how many these are. */
    method InterruptRunningRuns(now: int) returns (count: nat)
      requires Valid()
      modifies this`runs
      ensures Valid()
      ensures runs.Keys == old(runs.Keys)
      ensures forall r {:trigger runs[r]} :: r in runs ==>
                var before := old(runs[r]);
                runs[r] == if before.status == Running
                           then before.(status := Interrupted, finishedAt := Some(now), errorCode := Some("AGENT_RESTARTED"))
                           else before
      ensures count == |set r | r in old(runs) && old(runs[r]).status == Running|
      ensures Snapshot() == Next(old(Snapshot()), Step.InterruptRuns(now))
    {
      StopKeeps(Snapshot(), true, now);
      count := StopAll(true, now);
      assert Snapshot() == StopRuns(old(Snapshot()), true, now);
      assert Selected(old(runs), true, now) == (set r | r in old(runs) && old(runs[r]).status == Running);
    }

    /** The rows that the WHERE clause selects are updated one by one. */
    method StopAll(restart: bool, now: int) returns (count: nat)
      modifies this`runs
      ensures runs == map r | r in old(runs) :: Stopped(old(runs[r]), restart, now)
      ensures count == |Selected(old(runs), restart, now)|
    {
      ghost var all := runs;
      ghost var selected := Selected(all, restart, now);
      ghost var stopped: set<nat> := {};
      var rest := runs.Keys;
      count := 0;
      while rest != {}
        invariant rest <= runs.Keys == all.Keys
        invariant forall r {:trigger runs[r]} :: r in runs ==> runs[r] == if r in rest then all[r] else Stopped(all[r], restart, now)
        invariant stopped == (set r | r in selected && r !in rest) && count == |stopped|
        decreases |rest|
      {
        var r :| r in rest;
        rest := rest - {r};
        if runs[r].status == Running && (restart || runs[r].deadline <= now) {
          var code := if restart then "AGENT_RESTARTED" else "AGENT_DEADLINE_EXCEEDED";
          runs := runs[r := runs[r].(status := Interrupted, finishedAt := Some(now), errorCode := Some(code))];
          stopped, count := stopped + {r}, count + 1;
        }
      }
      assert stopped == selected;
    }
  }
}
