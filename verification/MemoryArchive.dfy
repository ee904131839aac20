// Old turns are archived into a versioned summary while new ones arrive: any number of workers, any
// interleaving of their reads and writes.
module MemoryArchive {
  import opened ConversationTables

  /** A summary is modelled by the turns that were fed into it, in order. */
  datatype Record = Record(version: nat, covered: nat, summary: seq<Turn>)

  datatype Limits = Limits(batch: nat, recent: nat) {
    predicate Positive() {
      batch >= 1 && recent >= 1
    }

    /** How many turns one scan can see. */
    function Scan(): nat {
      Bound(batch + recent)
    }
  }

  // ---- one round of a worker ----

  function Cursor(record: Option<Record>): Option<nat> {
    if record.Some? then Some(record.value.covered) else None
  }

  function Summarised(record: Option<Record>): seq<Turn> {
    if record.Some? then record.value.summary else []
  }

  /** turns[:-recent][:batch] */
  function Batch(page: seq<Turn>, limits: Limits): seq<Turn>
    requires limits.Positive()
  {
    if |page| <= limits.recent then [] else Oldest(page[..|page| - limits.recent], limits.batch)
  }

  predicate UsableCursor(record: Option<Record>) {
    record.Some? ==> record.value.covered > 0
  }

  /** The batch that a worker picks when it holds this record and these turns are stored. */
  function Picked(turns: seq<Turn>, record: Option<Record>, limits: Limits): seq<Turn>
    requires limits.Positive() && UsableCursor(record)
  {
    Batch(Page(turns, Cursor(record), limits.batch + limits.recent, true), limits)
  }

  /** The number of turns that a scan of this many turns without a cursor does not see. */
  function Unseen(turns: nat, limits: Limits): nat {
    if turns <= limits.Scan() then 0 else turns - limits.Scan()
  }

  /** save_conversation_summary: compare and swap on the version, cursor forward and on an existing turn. */
  predicate CanSave(turns: seq<Turn>, stored: Option<Record>, expected: Option<nat>, covered: nat) {
    covered > 0 &&
    (if stored == None then expected == None || expected == Some(0)
     else expected == Some(stored.value.version) && covered >= stored.value.covered) &&
    exists i :: 0 <= i < |turns| && turns[i].answerId == covered
  }

  function Version(record: Option<Record>): Option<nat> {
    if record.Some? then Some(record.value.version) else None
  }

  function Saved(stored: Option<Record>, summary: seq<Turn>, covered: nat): Record {
    Record(if stored.Some? then stored.value.version + 1 else 1, covered, summary)
  }

  // ---- the system ----

  datatype Phase =
    | Idle
    | HasRecord(record: Option<Record>)
    | HasBatch(record: Option<Record>, batch: seq<Turn>, scanned: nat)

  /** The last two fields only remember: how many turns the first saved scan did not see, how many saves there were. */
  datatype State = State(turns: seq<Turn>, record: Option<Record>, workers: map<nat, Phase>, skipped: nat, saves: nat)

  datatype Step = Complete(turn: Turn) | GetSummary(worker: nat) | ListTurns(worker: nat) | Fail(worker: nat) | Save(worker: nat)

  /** The store keeps both sides of a turn within these lengths. */
  predicate Bounded(turn: Turn) {
    1 <= |turn.question| <= LONGEST_CONTENT && 1 <= |turn.answer| <= LONGEST_CONTENT
  }

  predicate Enabled(s: State, step: Step) {
    match step
    case Complete(turn) =>
      Bounded(turn) && 0 < turn.userId < turn.answerId && (s.turns != [] ==> s.turns[|s.turns| - 1].answerId < turn.userId)
    case GetSummary(w) => w in s.workers
    case ListTurns(w) => w in s.workers && s.workers[w].HasRecord? && UsableCursor(s.workers[w].record)
    case Fail(w) => w in s.workers
    case Save(w) => w in s.workers && s.workers[w].HasBatch? && s.workers[w].batch != []
  }

  ghost function Next(s: State, step: Step, limits: Limits): State
    requires limits.Positive() && Enabled(s, step)
  {
    match step
    case Complete(turn) => s.(turns := s.turns + [turn])
    case GetSummary(w) => s.(workers := s.workers[w := HasRecord(s.record)])
    case ListTurns(w) =>
      var record := s.workers[w].record;
      var batch := Picked(s.turns, record, limits);
      s.(workers := s.workers[w := if batch == [] then Idle else HasBatch(record, batch, |s.turns|)])
    case Fail(w) => s.(workers := s.workers[w := Idle])
    case Save(w) => SaveStep(s, w, s.workers[w], limits)
  }

  ghost function SaveStep(s: State, w: nat, phase: Phase, limits: Limits): State
    requires phase.HasBatch? && phase.batch != []
  {
    var covered := phase.batch[|phase.batch| - 1].answerId;
    var rest := s.(workers := s.workers[w := Idle]);
    if CanSave(s.turns, s.record, Version(phase.record), covered)
    then rest.(record := Some(Saved(s.record, Summarised(phase.record) + phase.batch, covered)),
               skipped := if s.record == None then Unseen(phase.scanned, limits) else s.skipped,
               saves := s.saves + 1)
    else rest
  }

  datatype Trace = Started(workers: set<nat>) | Then(before: Trace, step: Step)

  ghost predicate Legal(h: Trace, limits: Limits)
    requires limits.Positive()
    decreases h, 0
  {
    match h
    case Started(_) => true
    case Then(before, step) => Legal(before, limits) && Enabled(Reached(before, limits), step)
  }

  ghost function Reached(h: Trace, limits: Limits): State
    requires limits.Positive() && Legal(h, limits)
    decreases h, 1
  {
    match h
    case Started(workers) => State([], None, map w | w in workers :: Idle, 0, 0)
    case Then(before, step) => Next(Reached(before, limits), step, limits)
  }

  // ---- the invariant ----

  /** The record covers exactly the turns first..k, in order and once each, and leaves the recent ones alone. */
  ghost predicate Covers(turns: seq<Turn>, record: Record, first: nat, k: nat, limits: Limits) {
    record.version >= 1 && first < k && k + limits.recent <= |turns| &&
    record.covered == turns[k - 1].answerId && record.summary == turns[first..k]
  }

  ghost predicate RecordOk(turns: seq<Turn>, record: Record, first: nat, limits: Limits) {
    exists k: nat :: Covers(turns, record, first, k, limits)
  }

  /** A record that some worker read earlier. */
  ghost predicate Snapshot(s: State, record: Option<Record>, limits: Limits) {
    record.Some? ==>
      RecordOk(s.turns, record.value, s.skipped, limits) &&
      s.record.Some? && record.value.version <= s.record.value.version &&
      (record.value.version == s.record.value.version ==> record == s.record)
  }

  /** The batch starts right after what the worker's record covers. */
  ghost predicate BatchAt(turns: seq<Turn>, start: nat, batch: seq<Turn>, limits: Limits) {
    batch != [] && start + |batch| + limits.recent <= |turns| && batch == turns[start..start + |batch|]
  }

  /** The batch starts where the record ends. */
  ghost predicate BatchNext(turns: seq<Turn>, record: Record, first: nat, batch: seq<Turn>, limits: Limits) {
    exists k: nat :: Covers(turns, record, first, k, limits) && BatchAt(turns, k, batch, limits)
  }

  ghost predicate PhaseOk(s: State, phase: Phase, limits: Limits) {
    match phase
    case Idle => true
    case HasRecord(record) => Snapshot(s, record, limits)
    case HasBatch(record, batch, scanned) =>
      Snapshot(s, record, limits) && scanned <= |s.turns| &&
      (record == None ==> BatchAt(s.turns, Unseen(scanned, limits), batch, limits)) &&
      (record.Some? ==> BatchNext(s.turns, record.value, s.skipped, batch, limits))
  }

  ghost predicate Inv(s: State, limits: Limits) {
    Ordered(s.turns) && (forall i {:trigger s.turns[i]} :: 0 <= i < |s.turns| ==> Bounded(s.turns[i])) &&
    (s.record.Some? ==> RecordOk(s.turns, s.record.value, s.skipped, limits)) &&
    (if s.record == None then s.saves == 0 else s.saves == s.record.value.version) &&
    (forall w {:trigger s.workers[w]} :: w in s.workers ==> PhaseOk(s, s.workers[w], limits))
  }

  // ---- the picked batch ----

  lemma PickedContinues(turns: seq<Turn>, record: Option<Record>, first: nat, k: nat, limits: Limits)
    requires limits.Positive() && Ordered(turns)
    requires if record == None then k == Unseen(|turns|, limits) else Covers(turns, record.value, first, k, limits)
    ensures UsableCursor(record)
    ensures Picked(turns, record, limits) != [] ==> BatchAt(turns, k, Picked(turns, record, limits), limits)
    ensures Picked(turns, record, limits) == [] <==> (if limits.recent >= 200 then true else |turns| - k <= limits.recent)
  {
    var n := limits.batch + limits.recent;
    if record.Some? {
      CursorCutsHistory(turns, k, record.value.covered);
      assert turns[k - 1].answerId > 0;
      assert Page(turns, Cursor(record), n, true) == Oldest(turns[k..], Bound(n));
    } else {
      assert Page(turns, None, n, true) == turns[k..];
    }
  }

  // ---- every step keeps the invariant ----

  lemma CoversLater(turns: seq<Turn>, more: seq<Turn>, record: Record, first: nat, limits: Limits)
    requires turns <= more && RecordOk(turns, record, first, limits)
    ensures RecordOk(more, record, first, limits)
  {
    var k: nat :| Covers(turns, record, first, k, limits);
    assert Covers(more, record, first, k, limits);
  }

  /** What is true of a worker stays true when turns are added. */
  lemma PhaseLater(s: State, u: State, phase: Phase, limits: Limits)
    requires PhaseOk(s, phase, limits) && s.turns <= u.turns && u.record == s.record && u.skipped == s.skipped
    ensures PhaseOk(u, phase, limits)
  {
    if !phase.Idle? && phase.record.Some? {
      CoversLater(s.turns, u.turns, phase.record.value, s.skipped, limits);
    }
    if phase.HasBatch? && phase.record.Some? {
      var k: nat :| Covers(s.turns, phase.record.value, s.skipped, k, limits) && BatchAt(s.turns, k, phase.batch, limits);
      assert Covers(u.turns, phase.record.value, s.skipped, k, limits) && BatchAt(u.turns, k, phase.batch, limits);
    }
  }

  lemma CompleteKeeps(s: State, turn: Turn, limits: Limits)
    requires limits.Positive() && Inv(s, limits) && Enabled(s, Complete(turn))
    ensures Inv(Next(s, Complete(turn), limits), limits)
  {
    var u := Next(s, Complete(turn), limits);
    OrderedAppend(s.turns, turn);
    if s.record.Some? {
      CoversLater(s.turns, u.turns, s.record.value, s.skipped, limits);
    }
    forall w | w in u.workers
      ensures PhaseOk(u, u.workers[w], limits)
    {
      PhaseLater(s, u, s.workers[w], limits);
    }
  }

  lemma ReadKeeps(s: State, step: Step, limits: Limits)
    requires limits.Positive() && Inv(s, limits) && Enabled(s, step)
    requires step.GetSummary? || step.ListTurns? || step.Fail?
    ensures Inv(Next(s, step, limits), limits)
  {
    var u := Next(s, step, limits);
    if step.ListTurns? {
      var record := s.workers[step.worker].record;
      if record.Some? {
        var k: nat :| Covers(s.turns, record.value, s.skipped, k, limits);
        PickedContinues(s.turns, record, s.skipped, k, limits);
      } else {
        PickedContinues(s.turns, record, 0, Unseen(|s.turns|, limits), limits);
      }
    }
    forall w | w in u.workers
      ensures PhaseOk(u, u.workers[w], limits)
    {
      if w in s.workers && u.workers[w] == s.workers[w] {
        PhaseLater(s, u, s.workers[w], limits);
      }
    }
  }

  lemma NextCovers(turns: seq<Turn>, record: Record, first: nat, batch: seq<Turn>, limits: Limits)
    requires BatchNext(turns, record, first, batch, limits)
    ensures batch != []
    ensures RecordOk(turns, Record(record.version + 1, batch[|batch| - 1].answerId, record.summary + batch), first, limits)
  {
    var k: nat :| Covers(turns, record, first, k, limits) && BatchAt(turns, k, batch, limits);
    assert turns[first..k] + turns[k..k + |batch|] == turns[first..k + |batch|];
    assert Covers(turns, Record(record.version + 1, batch[|batch| - 1].answerId, record.summary + batch), first, k + |batch|, limits);
  }

  lemma FirstCovers(turns: seq<Turn>, first: nat, batch: seq<Turn>, limits: Limits)
    requires BatchAt(turns, first, batch, limits)
    ensures RecordOk(turns, Record(1, batch[|batch| - 1].answerId, batch), first, limits)
  {
    assert Covers(turns, Record(1, batch[|batch| - 1].answerId, batch), first, first + |batch|, limits);
  }

  lemma SameRecord(s: State, record: Option<Record>, covered: nat, limits: Limits)
    requires Inv(s, limits) && Snapshot(s, record, limits) && CanSave(s.turns, s.record, Version(record), covered)
    ensures record == s.record
  {
  }

  lemma SavedIsRecord(turns: seq<Turn>, record: Option<Record>, first: nat, batch: seq<Turn>, limits: Limits)
    requires if record == None then BatchAt(turns, first, batch, limits) else BatchNext(turns, record.value, first, batch, limits)
    ensures batch != [] && RecordOk(turns, Saved(record, Summarised(record) + batch, batch[|batch| - 1].answerId), first, limits)
  {
    if record == None {
      assert [] + batch == batch;
      FirstCovers(turns, first, batch, limits);
    } else {
      NextCovers(turns, record.value, first, batch, limits);
    }
  }

  /** A save that passes the compare and swap extends the stored record by the worker's batch. */
  lemma SavedCovers(s: State, phase: Phase, limits: Limits)
    requires limits.Positive() && Inv(s, limits) && phase.HasBatch? && PhaseOk(s, phase, limits) && phase.batch != []
    requires CanSave(s.turns, s.record, Version(phase.record), phase.batch[|phase.batch| - 1].answerId)
    ensures phase.record == s.record
    ensures var first := if s.record == None then Unseen(phase.scanned, limits) else s.skipped;
            RecordOk(s.turns, Saved(s.record, Summarised(phase.record) + phase.batch, phase.batch[|phase.batch| - 1].answerId), first, limits)
  {
    SameRecord(s, phase.record, phase.batch[|phase.batch| - 1].answerId, limits);
    SavedIsRecord(s.turns, s.record, if s.record == None then Unseen(phase.scanned, limits) else s.skipped, phase.batch, limits);
  }

  lemma SaveKeeps(s: State, w: nat, limits: Limits)
    requires limits.Positive() && Inv(s, limits) && Enabled(s, Save(w))
    ensures Inv(Next(s, Save(w), limits), limits)
  {
    var u := Next(s, Save(w), limits);
    var phase := s.workers[w];
    if CanSave(s.turns, s.record, Version(phase.record), phase.batch[|phase.batch| - 1].answerId) {
      SavedCovers(s, phase, limits);
      forall v | v in u.workers
        ensures PhaseOk(u, u.workers[v], limits)
      {
        assert PhaseOk(s, s.workers[v], limits);
      }
    } else {
      forall v | v in u.workers
        ensures PhaseOk(u, u.workers[v], limits)
      {
        if v != w {
          PhaseLater(s, u, s.workers[v], limits);
        }
      }
    }
  }

  lemma {:induction false} InvAlways(h: Trace, limits: Limits)
    requires limits.Positive() && Legal(h, limits)
    ensures Inv(Reached(h, limits), limits)
  {
    match h
    case Started(_) =>
    case Then(before, step) =>
      InvAlways(before, limits);
      match step {
        case Complete(turn) => CompleteKeeps(Reached(before, limits), turn, limits);
        case Save(w) => SaveKeeps(Reached(before, limits), w, limits);
        case GetSummary(w) => ReadKeeps(Reached(before, limits), step, limits);
        case ListTurns(w) => ReadKeeps(Reached(before, limits), step, limits);
        case Fail(w) => ReadKeeps(Reached(before, limits), step, limits);
      }
  }

  // ---- the main results ----

  /** Whatever the workers do, the summary holds the turns skipped..k, each once and in order, never one of
      the newest `recent` turns, and its version counts the saves. */
  lemma ArchivedOnceInOrder(h: Trace, limits: Limits)
    requires limits.Positive() && Legal(h, limits) && Reached(h, limits).record.Some?
    ensures var s := Reached(h, limits);
            exists k: nat :: s.skipped < k && k + limits.recent <= |s.turns| && s.record.value.summary == s.turns[s.skipped..k]
                        && s.record.value.covered == s.turns[k - 1].answerId
    ensures Reached(h, limits).record.value.version == Reached(h, limits).saves
  {
    InvAlways(h, limits);
    var s := Reached(h, limits);
    var k: nat :| Covers(s.turns, s.record.value, s.skipped, k, limits);
    assert s.record.value.summary == s.turns[s.skipped..k];
  }

  ghost predicate Precedes(h: Trace, later: Trace) {
    h == later || (later.Then? && Precedes(h, later.before))
  }

  lemma StepOnlyAdds(s: State, step: Step, limits: Limits)
    requires limits.Positive() && Inv(s, limits) && Enabled(s, step) && s.record.Some?
    ensures var u := Next(s, step, limits);
            u.record.Some? && u.skipped == s.skipped && s.record.value.summary <= u.record.value.summary &&
            s.record.value.covered <= u.record.value.covered && s.record.value.version <= u.record.value.version
  {
    if step.Save? {
      var phase := s.workers[step.worker];
      if CanSave(s.turns, s.record, Version(phase.record), phase.batch[|phase.batch| - 1].answerId) {
        SavedCovers(s, phase, limits);
      }
    }
  }

  /** After the first save nothing more is skipped or forgotten; cursor and version only grow. */
  lemma {:induction false} OnlyAdds(h: Trace, later: Trace, limits: Limits)
    requires limits.Positive() && Legal(later, limits) && Precedes(h, later)
    ensures Legal(h, limits)
    ensures var s, u := Reached(h, limits), Reached(later, limits);
            s.record.Some? ==>
              u.record.Some? && u.skipped == s.skipped && s.record.value.summary <= u.record.value.summary &&
              s.record.value.covered <= u.record.value.covered && s.record.value.version <= u.record.value.version
  {
    if h != later {
      OnlyAdds(h, later.before, limits);
      InvAlways(later.before, limits);
      if Reached(h, limits).record.Some? {
        StepOnlyAdds(Reached(later.before, limits), later.step, limits);
      }
    }
  }

  // ---- what is never archived ----

  lemma InSlice(turns: seq<Turn>, a: nat, b: nat, i: nat)
    requires Ordered(turns) && a <= b <= |turns| && i < |turns|
    ensures turns[i] in turns[a..b] <==> a <= i < b
  {
    if a <= i < b {
      assert turns[a..b][i - a] == turns[i];
    }
    assert forall j :: 0 <= j < |turns| && j != i ==> turns[i].answerId != turns[j].answerId;
  }

  /** At every time after the first save, a turn that the cursor has passed is in the summary exactly if the
      first saved scan saw it. */
  lemma ArchivedIfSeen(h: Trace, later: Trace, i: nat, limits: Limits)
    requires limits.Positive() && Legal(later, limits) && Precedes(h, later)
    requires Legal(h, limits) && Reached(h, limits).record.Some? && i < |Reached(later, limits).turns|
    ensures var s, u := Reached(h, limits), Reached(later, limits);
            u.record.Some? && (u.turns[i] in u.record.value.summary <==> s.skipped <= i && u.turns[i].answerId <= u.record.value.covered)
  {
    OnlyAdds(h, later, limits);
    InvAlways(later, limits);
    var u := Reached(later, limits);
    var k: nat :| Covers(u.turns, u.record.value, u.skipped, k, limits);
    InSlice(u.turns, u.skipped, k, i);
    assert i < k - 1 ==> u.turns[i].answerId < u.turns[k - 1].userId;
    assert i >= k ==> u.turns[k - 1].answerId < u.turns[i].userId;
  }

  ghost predicate IsScan(scan: Trace) {
    scan.Then? && scan.step.ListTurns?
  }

  /** An earlier scan that saw this many turns. */
  ghost predicate ScannedAt(scan: Trace, h: Trace, scanned: nat, limits: Limits)
    requires limits.Positive()
  {
    IsScan(scan) && Precedes(scan, h) && Legal(scan, limits) && |Reached(scan, limits).turns| == scanned
  }

  /** The number that a worker remembers is that of a scan it made. */
  lemma {:induction false} RemembersScan(h: Trace, w: nat, limits: Limits) returns (scan: Trace)
    requires limits.Positive() && Legal(h, limits) && w in Reached(h, limits).workers && Reached(h, limits).workers[w].HasBatch?
    ensures ScannedAt(scan, h, Reached(h, limits).workers[w].scanned, limits)
  {
    var s := Reached(h.before, limits);
    if w in s.workers && Reached(h, limits).workers[w] == s.workers[w] {
      scan := RemembersScan(h.before, w, limits);
    } else {
      scan := h;
    }
  }

  /** What is skipped is what the scan of the first save did not see. */
  lemma {:induction false} SkippedAtFirstScan(h: Trace, limits: Limits) returns (scan: Trace)
    requires limits.Positive() && Legal(h, limits) && Reached(h, limits).record.Some?
    ensures IsScan(scan) && Precedes(scan, h) && Legal(scan, limits) && Reached(scan, limits).record == None
    ensures Reached(h, limits).skipped == Unseen(|Reached(scan, limits).turns|, limits)
  {
    var s := Reached(h.before, limits);
    if s.record.Some? {
      scan := SkippedAtFirstScan(h.before, limits);
      OnlyAdds(h.before, h, limits);
    } else {
      scan := RemembersScan(h.before, h.step.worker, limits);
      OnlyAdds(scan, h.before, limits);
    }
  }

  /** The flag oldest_first has no effect without a cursor. In every run, the scan behind the first save
      decides: the very first turn is archived, then and ever after, exactly if that scan could see all the turns
      there were; otherwise the turns it did not see are never archived. */
  lemma FirstScanDecides(h: Trace, later: Trace, limits: Limits) returns (scan: Trace)
    requires limits.Positive() && Legal(later, limits) && Precedes(h, later)
    requires Legal(h, limits) && Reached(h, limits).record.Some?
    ensures IsScan(scan) && Precedes(scan, h) && Legal(scan, limits) && Reached(scan, limits).record == None
    ensures var seen, u := |Reached(scan, limits).turns|, Reached(later, limits);
            u.record.Some? && u.turns != [] &&
            (u.turns[0] in u.record.value.summary <==> seen <= limits.Scan()) &&
            (forall i {:trigger u.turns[i]} :: 0 <= i < seen - limits.Scan() && i < |u.turns| ==> u.turns[i] !in u.record.value.summary)
  {
    scan := SkippedAtFirstScan(h, limits);
    var u := Reached(later, limits);
    OnlyAdds(h, later, limits);
    InvAlways(later, limits);
    var k: nat :| Covers(u.turns, u.record.value, u.skipped, k, limits);
    forall i | 0 <= i < k
      ensures u.turns[i] in u.record.value.summary <==> u.skipped <= i
    {
      InSlice(u.turns, u.skipped, k, i);
    }
    forall i | 0 <= i < |Reached(scan, limits).turns| - limits.Scan() && i < |u.turns|
      ensures u.turns[i] !in u.record.value.summary
    {
      InSlice(u.turns, u.skipped, k, i);
    }
  }

  // ---- the turns come from the store ----

  /** These turns completed one after the other. */
  function Told(turns: seq<Turn>): Trace {
    if turns == [] then Started({}) else Then(Told(turns[..|turns| - 1]), Complete(turns[|turns| - 1]))
  }

  lemma {:induction false} ToldIsLegal(turns: seq<Turn>, limits: Limits)
    requires limits.Positive() && Ordered(turns) && forall i :: 0 <= i < |turns| ==> Bounded(turns[i])
    ensures Legal(Told(turns), limits) && Reached(Told(turns), limits).turns == turns
  {
    if turns != [] {
      ToldIsLegal(turns[..|turns| - 1], limits);
    }
  }

  /** The turns of a conversation, in every history of the store, are turns that this system can be told. */
  lemma StoreTellsTurns(h: History, conversation: nat, limits: Limits)
    requires limits.Positive() && ConversationTables.Legal(h)
    ensures var turns := Turns(Outcomes(h).messages, conversation);
            Legal(Told(turns), limits) && Reached(Told(turns), limits).turns == turns
  {
    var turns := Turns(Outcomes(h).messages, conversation);
    ConversationTables.InvAlways(h);
    TurnsOrdered(Outcomes(h).messages, conversation);
    forall i | 0 <= i < |turns|
      ensures Bounded(turns[i])
    {
      TurnsAreBounded(h, conversation, turns[i]);
    }
    ToldIsLegal(turns, limits);
  }

  /** n turns completed, and worker 0 has not begun. */
  function Grown(n: nat): Trace {
    if n == 0 then Started({0}) else Then(Grown(n - 1), Complete(Turn(n, 2 * n - 1, 2 * n, "q", "a")))
  }

  lemma {:induction false} GrownIs(n: nat, limits: Limits)
    requires limits.Positive()
    ensures Legal(Grown(n), limits)
    ensures var s := Reached(Grown(n), limits);
            |s.turns| == n && s.record == None && s.workers == map[0 := Idle] && s.saves == 0 && s.skipped == 0 &&
            (n > 0 ==> s.turns[n - 1].answerId == 2 * n)
  {
    if n > 0 {
      GrownIs(n - 1, limits);
    }
  }

  lemma GrownIsOrdered(n: nat, limits: Limits)
    requires limits.Positive() && Legal(Grown(n), limits)
    ensures Ordered(Reached(Grown(n), limits).turns)
  {
    InvAlways(Grown(n), limits);
  }

  /** A worker's first round over n stored turns. */
  function FirstRound(n: nat): Trace {
    Then(Then(Then(Grown(n), GetSummary(0)), ListTurns(0)), Save(0))
  }

  /** A lone worker's first round: its batch becomes the record. */
  lemma FirstRoundSaves(s: State, limits: Limits)
    requires limits.Positive() && s.record == None && s.workers == map[0 := Idle]
    requires Picked(s.turns, None, limits) != []
    requires CanSave(s.turns, None, None, Picked(s.turns, None, limits)[|Picked(s.turns, None, limits)| - 1].answerId)
    ensures Enabled(s, GetSummary(0))
    ensures var s1 := Next(s, GetSummary(0), limits);
            Enabled(s1, ListTurns(0)) &&
            var s2 := Next(s1, ListTurns(0), limits);
            Enabled(s2, Save(0)) &&
            var s3 := Next(s2, Save(0), limits);
            s3.turns == s.turns && s3.record.Some? && s3.record.value.summary == Picked(s.turns, None, limits) && s3.skipped == Unseen(|s.turns|, limits)
  {
    var batch := Picked(s.turns, None, limits);
    var s1 := Next(s, GetSummary(0), limits);
    assert s1.workers[0] == HasRecord(None);
    var s2 := Next(s1, ListTurns(0), limits);
    assert s2.workers[0] == HasBatch(None, batch, |s.turns|);
    assert [] + batch == batch;
  }

  lemma OneStep(h: Trace, step: Step, limits: Limits)
    requires limits.Positive() && Legal(h, limits) && Enabled(Reached(h, limits), step)
    ensures Legal(Then(h, step), limits) && Reached(Then(h, step), limits) == Next(Reached(h, limits), step, limits)
  {
  }

  lemma BatchCanBeSaved(turns: seq<Turn>, start: nat, batch: seq<Turn>, limits: Limits)
    requires Ordered(turns) && BatchAt(turns, start, batch, limits)
    ensures CanSave(turns, None, None, batch[|batch| - 1].answerId)
  {
    assert batch[|batch| - 1] == turns[start + |batch| - 1];
  }

  /** The first batch over n stored turns. */
  lemma FirstBatch(turns: seq<Turn>, limits: Limits)
    requires limits.Positive() && limits.recent < 200 && Ordered(turns) && |turns| > limits.recent
    ensures var batch := Picked(turns, None, limits);
            batch != [] && CanSave(turns, None, None, batch[|batch| - 1].answerId)
            && (turns[0] in batch <==> |turns| <= limits.Scan())
  {
    var start := Unseen(|turns|, limits);
    PickedContinues(turns, None, 0, start, limits);
    var batch := Picked(turns, None, limits);
    BatchCanBeSaved(turns, start, batch, limits);
    InSlice(turns, start, start + |batch|, 0);
  }

  /** Both happen: a lone worker that begins when n turns are stored makes a first scan of n turns. */
  lemma FirstScanMaySkip(n: nat, limits: Limits)
    requires limits.Positive() && limits.recent < 200 && n > limits.recent
    ensures Legal(FirstRound(n), limits)
    ensures var s := Reached(FirstRound(n), limits);
            s.record.Some? && |s.turns| == n && s.skipped == Unseen(n, limits) &&
            (s.turns[0] in s.record.value.summary <==> n <= limits.Scan())
  {
    GrownIs(n, limits);
    GrownIsOrdered(n, limits);
    FirstBatch(Reached(Grown(n), limits).turns, limits);
    FirstRoundSaves(Reached(Grown(n), limits), limits);
    var h1 := Then(Grown(n), GetSummary(0));
    OneStep(Grown(n), GetSummary(0), limits);
    OneStep(h1, ListTurns(0), limits);
    OneStep(Then(h1, ListTurns(0)), Save(0), limits);
  }
}
