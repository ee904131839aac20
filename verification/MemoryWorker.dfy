// One worker archiving a conversation while turns keep arriving, and the context that is built for the model.
module MemoryWorker {
  import opened ConversationTables
  import opened MemoryArchive

  class ConversationMemory {
    const limits: Limits
    var turns: seq<Turn>
    var record: Option<Record>
    ghost var first: nat     // the turns that the first saved scan did not see
    ghost var archived: nat  // the cursor as a position: turns before it are summarised or skipped

    ghost predicate Valid()
      reads this
    {
      limits.Positive() && Ordered(turns) &&
      if record == None then archived == 0 else Covers(turns, record.value, first, archived, limits)
    }

    constructor (batch: nat, recent: nat)
      requires batch >= 1 && recent >= 1
      ensures Valid() && limits == Limits(batch, recent) && turns == [] && record == None
    {
      limits := Limits(batch, recent);
      turns, record, first, archived := [], None, 0, 0;
    }

    /** During an await some more of the turns complete. */
    method Arrive(all: seq<Turn>, more: nat)
      requires Valid() && Ordered(all) && turns <= all
      modifies this`turns
      ensures Valid() && old(turns) <= turns <= all
    {
      turns := all[..if |turns| + more <= |all| then |turns| + more else |all|];
    }

    method SaveConversationSummary(summary: seq<Turn>, covered: nat, expected: Option<nat>) returns (saved: bool)
      modifies this`record
      ensures saved <==> CanSave(turns, old(record), expected, covered)
      ensures record == if saved then Some(Saved(old(record), summary, covered)) else old(record)
    {
      if covered == 0 {
        return false;
      }
      if record == None {
        if expected != None && expected != Some(0) {
          return false;  // version conflict
        }
      } else if expected != Some(record.value.version) || covered < record.value.covered {
        return false;
      }
      if !exists i :: 0 <= i < |turns| && turns[i].answerId == covered {
        return false;
      }
      record := Some(Record(if record == None then 1 else record.value.version + 1, covered, summary));
      return true;
    }

    /** Where the next batch begins, when a scan sees this many turns. */
    ghost function Start(scanned: nat): nat
      reads this
    {
      if record == None then Unseen(scanned, limits) else archived
    }

    /** Read the record, then a page of turns after its cursor, and pick the batch to archive. */
    method Scan(all: seq<Turn>, arrivals: seq<nat>) returns (known: Option<Record>, batch: seq<Turn>, ghost scanned: nat)
      requires Valid() && Ordered(all) && turns <= all && |arrivals| == 4
      modifies this`turns
      ensures Valid() && old(turns) <= turns <= all && known == record
      ensures old(|turns|) <= scanned == |turns|
      ensures batch == [] <==> limits.recent >= 200 || scanned - Start(scanned) <= limits.recent
      ensures batch != [] ==> BatchAt(turns, Start(scanned), batch, limits)
    {
      Arrive(all, arrivals[0]);
      known := record;
      Arrive(all, arrivals[1]);
      scanned := |turns|;
      PickedContinues(turns, known, first, Start(scanned), limits);
      batch := Batch(Page(turns, Cursor(known), limits.batch + limits.recent, true), limits);
    }

    /** Save the summary of a batch that was picked while this record was current. */
    method Persist(known: Option<Record>, batch: seq<Turn>, ghost start: nat)
      requires Valid() && known == record && BatchAt(turns, start, batch, limits)
      requires known.Some? ==> start == archived
      modifies this`record, this`first, this`archived
      ensures Valid() && record == Some(Saved(known, Summarised(known) + batch, batch[|batch| - 1].answerId))
      ensures archived == start + |batch| && first == if known == None then start else old(first)
    {
      NextCanSave(turns, known, first, start, batch, limits);
      SavedIsCovered(turns, known, first, start, batch, limits);
      ghost var next := Saved(known, Summarised(known) + batch, batch[|batch| - 1].answerId);
      assert Covers(turns, next, if known == None then start else first, start + |batch|, limits);
      var _ := SaveConversationSummary(Summarised(known) + batch, batch[|batch| - 1].answerId, Version(known));
      first, archived := if known == None then start else first, start + |batch|;
    }

    /** One round of the worker; an await precedes each of its four steps. */
    method Round(all: seq<Turn>, arrivals: seq<nat>, generates: bool) returns (batch: seq<Turn>, ghost scanned: nat)
      requires Valid() && Ordered(all) && turns <= all && |arrivals| == 4
      modifies this`turns, this`record, this`first, this`archived
      ensures Valid() && old(turns) <= turns <= all && old(|turns|) <= scanned <= |turns|
      ensures batch == [] <==> limits.recent >= 200 || scanned - old(Start(scanned)) <= limits.recent
      ensures batch == [] || !generates ==> record == old(record) && archived == old(archived) && first == old(first)
      ensures batch != [] && generates ==>
                record == Some(Saved(old(record), Summarised(old(record)) + batch, batch[|batch| - 1].answerId))
      ensures batch != [] && generates ==>
                archived > old(archived) && first == if old(record) == None then Unseen(scanned, limits) else old(first)
    {
      var known;
      known, batch, scanned := Scan(all, arrivals);
      if batch == [] {
        return;
      }
      ghost var start := Start(scanned);
      Arrive(all, arrivals[2]);
      if !generates {
        return;
      }
      Arrive(all, arrivals[3]);
      Persist(known, batch, start);
    }

    /** _process: rounds until nothing but the recent turns is left, or a summary cannot be generated.
        The awaits see the turns of `all` arrive according to the schedule, and none after it is used up. */
    method Process(all: seq<Turn>, schedule: seq<seq<nat>>, generates: seq<bool>) returns (done: bool, ghost opening: nat, ghost scanned: nat)
      requires Valid() && Ordered(all) && turns <= all
      requires forall i :: 0 <= i < |schedule| ==> |schedule[i]| == 4
      modifies this`turns, this`record, this`first, this`archived
      ensures Valid() && old(turns) <= turns <= all && old(|turns|) <= opening <= scanned <= |turns|
      ensures Summarised(old(record)) <= Summarised(record) && archived >= old(archived)
      ensures old(record).Some? ==> first == old(first)
      // the first record skips what its scan did not see
      ensures old(record) == None && record.Some? ==> first == Unseen(opening, limits)
      // with at least 200 recent turns nothing is ever archived
      ensures limits.recent >= 200 ==> done && record == old(record)
      // otherwise only the recent turns of the last scan are left
      ensures done && limits.recent < 200 ==> scanned - archived <= limits.recent
      // and only the generator can stop the worker early
      ensures !done ==> exists i :: 0 <= i < |generates| && !generates[i]
    {
      var round := 0;
      opening := |turns|;
      scanned := |turns|;
      while true
        invariant Valid() && old(turns) <= turns <= all && old(|turns|) <= opening <= scanned <= |turns|
        invariant Summarised(old(record)) <= Summarised(record) && archived >= old(archived)
        invariant old(record).Some? ==> record.Some? && first == old(first)
        invariant round == 0 ==> record == old(record) && archived == old(archived)
        invariant round > 0 ==> record.Some? && limits.recent < 200
        invariant old(record) == None && record.Some? ==> first == Unseen(opening, limits)
        decreases |all| - archived
      {
        var batch;
        var ok := round < |generates| ==> generates[round];
        batch, scanned := Round(all, if round < |schedule| then schedule[round] else [0, 0, 0, 0], ok);
        if round == 0 {
          opening := scanned;
        }
        if batch == [] {
          return true, opening, scanned;
        }
        if !ok {
          return false, opening, scanned;
        }
        round := round + 1;
      }
    }
  }

  /** The compare and swap succeeds for a batch that starts where the current record ends. */
  lemma NextCanSave(turns: seq<Turn>, known: Option<Record>, first: nat, start: nat, batch: seq<Turn>, limits: Limits)
    requires Ordered(turns) && BatchAt(turns, start, batch, limits)
    requires known.Some? ==> Covers(turns, known.value, first, start, limits)
    ensures CanSave(turns, known, Version(known), batch[|batch| - 1].answerId)
  {
    var last := start + |batch| - 1;
    assert batch[|batch| - 1] == turns[last];
    assert 0 < start ==> turns[start - 1].answerId < turns[last].userId;
  }

  lemma SlicesJoin(turns: seq<Turn>, a: nat, b: nat, c: nat)
    requires a <= b <= c <= |turns|
    ensures turns[a..b] + turns[b..c] == turns[a..c]
  {
  }

  lemma FirstIsCovered(turns: seq<Turn>, start: nat, batch: seq<Turn>, limits: Limits)
    requires BatchAt(turns, start, batch, limits)
    ensures Covers(turns, Record(1, batch[|batch| - 1].answerId, batch), start, start + |batch|, limits)
  {
    assert batch[|batch| - 1] == turns[start + |batch| - 1];
  }

  lemma NextIsCovered(turns: seq<Turn>, record: Record, first: nat, start: nat, batch: seq<Turn>, limits: Limits)
    requires BatchAt(turns, start, batch, limits) && Covers(turns, record, first, start, limits)
    ensures Covers(turns, Record(record.version + 1, batch[|batch| - 1].answerId, record.summary + batch), first, start + |batch|, limits)
  {
    assert batch[|batch| - 1] == turns[start + |batch| - 1];
    SlicesJoin(turns, first, start, start + |batch|);
  }

  lemma SavedIsCovered(turns: seq<Turn>, known: Option<Record>, first: nat, start: nat, batch: seq<Turn>, limits: Limits)
    requires BatchAt(turns, start, batch, limits)
    requires known.Some? ==> Covers(turns, known.value, first, start, limits)
    ensures Covers(turns, Saved(known, Summarised(known) + batch, batch[|batch| - 1].answerId),
                   if known == None then start else first, start + |batch|, limits)
  {
    if known.Some? {
      NextIsCovered(turns, known.value, first, start, batch, limits);
    } else {
      assert [] + batch == batch;
      FirstIsCovered(turns, start, batch, limits);
    }
  }
}
