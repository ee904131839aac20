// The history that goes into the prompt beside the summary.
module ConversationContext {
  import opened ConversationTables
  import opened MemoryArchive

  const HISTORY_PAGE := 24
  const MAX_HISTORY_CHARS := 64_000

  function Cost(turn: Turn): nat {
    |turn.question| + |turn.answer|
  }

  function Chars(turns: seq<Turn>): nat {
    if turns == [] then 0 else Cost(turns[0]) + Chars(turns[1..])
  }

  /** The longest suffix with at most `recent` turns and `cap` characters. */
  ghost predicate LongestSuffix(turns: seq<Turn>, recent: nat, cap: nat, suffix: seq<Turn>) {
    |suffix| <= |turns| && |suffix| <= recent && Chars(suffix) <= cap && suffix == turns[|turns| - |suffix|..] &&
    (|suffix| == |turns| || |suffix| == recent || Cost(turns[|turns| - |suffix| - 1]) + Chars(suffix) > cap)
  }

  class ContextAssembler {
    const recent: nat
    const cap: nat

    constructor (recentTurns: nat, maxHistoryChars: nat)
      requires recentTurns >= 1 && maxHistoryChars >= 1
      ensures recent == recentTurns && cap == maxHistoryChars
    {
      recent, cap := recentTurns, maxHistoryChars;
    }

    method Assemble(record: Option<Record>, turns: seq<Turn>) returns (selected: seq<Turn>)
      ensures LongestSuffix(if record.Some? then After(turns, record.value.covered) else turns, recent, cap, selected)
    {
      var candidates := if record.Some? then After(turns, record.value.covered) else turns;
      selected := [];
      var chars := 0;
      var i := |candidates|;
      var last := if |candidates| <= recent then 0 else |candidates| - recent;
      while i > last
        invariant last <= i <= |candidates| && selected == candidates[i..] && chars == Chars(selected) <= cap
      {
        var turn := candidates[i - 1];
        var cost := Cost(turn);
        if selected != [] && chars + cost > cap {
          break;
        }
        if selected == [] && cost > cap {
          break;
        }
        i := i - 1;
        selected := [turn] + selected;
        chars := chars + cost;
        assert selected[1..] == candidates[i + 1..];
      }
    }
  }

  lemma {:induction false} SuffixCosts(turns: seq<Turn>, k: nat)
    requires k <= |turns|
    ensures Chars(turns[k..]) <= Chars(turns)
  {
    if k > 0 {
      assert turns[k..] == turns[1..][k - 1..];
      SuffixCosts(turns[1..], k - 1);
    } else {
      assert turns[k..] == turns;
    }
  }

  /** The first turn of the history that the summary does not stand for. */
  function Position(record: Option<Record>, k: nat): nat {
    if record == None then 0 else k
  }

  /** What the run reads: the newest turns after the cursor of the record it read before. Turns may have
      completed and workers may have saved in between. */
  function Read(turns: seq<Turn>, record: Option<Record>): seq<Turn>
    requires UsableCursor(record)
  {
    Page(turns, Cursor(record), HISTORY_PAGE, false)
  }

  lemma ReadIsSuffix(turns: seq<Turn>, record: Option<Record>, first: nat, k: nat, limits: Limits)
    requires Ordered(turns)
    requires record.Some? ==> Covers(turns, record.value, first, k, limits)
    ensures UsableCursor(record)
    ensures Position(record, k) <= |turns|
    ensures Read(turns, record) == Newest(turns[Position(record, k)..], HISTORY_PAGE)
    ensures record.Some? ==> After(Read(turns, record), record.value.covered) == Read(turns, record)
  {
    if record.Some? {
      CursorCutsHistory(turns, k, record.value.covered);
      assert turns[k - 1].answerId > 0;
      var page := Read(turns, record);
      forall i | 0 <= i < |page|
        ensures page[i].answerId > record.value.covered
      {
        assert turns[k - 1].answerId < turns[|turns| - |page| + i].userId;
      }
      AllAfter(page, record.value.covered);
    } else {
      assert turns[0..] == turns;
    }
  }

  lemma {:induction false} AllAfter(turns: seq<Turn>, cursor: nat)
    requires forall i :: 0 <= i < |turns| ==> turns[i].answerId > cursor
    ensures After(turns, cursor) == turns
  {
    if turns != [] {
      AllAfter(turns[..|turns| - 1], cursor);
    }
  }

  lemma WholeFits(turns: seq<Turn>, recent: nat, cap: nat, suffix: seq<Turn>)
    requires LongestSuffix(turns, recent, cap, suffix) && |turns| <= recent && Chars(turns) <= cap
    ensures suffix == turns
  {
    if |suffix| < |turns| {
      var wider := turns[|turns| - |suffix| - 1..];
      assert wider[1..] == suffix;
      SuffixCosts(turns, |turns| - |suffix| - 1);
    }
  }

  lemma NewestFits(turns: seq<Turn>, recent: nat, cap: nat, suffix: seq<Turn>)
    requires LongestSuffix(turns, recent, cap, suffix) && recent >= 1 && turns != [] && Cost(turns[|turns| - 1]) <= cap
    ensures suffix != [] && suffix[|suffix| - 1] == turns[|turns| - 1]
  {
  }

  /** What the run shows of the conversation, given the record it read and the turns stored since. */
  ghost predicate Shown(turns: seq<Turn>, record: Option<Record>, recent: nat, cap: nat, history: seq<Turn>)
    requires UsableCursor(record)
  {
    var page := Read(turns, record);
    LongestSuffix(if record.Some? then After(page, record.value.covered) else page, recent, cap, history)
  }

  lemma HistoryIsSuffix(turns: seq<Turn>, record: Option<Record>, first: nat, k: nat, limits: Limits,
                        recent: nat, cap: nat, history: seq<Turn>)
    requires Ordered(turns) && (record.Some? ==> Covers(turns, record.value, first, k, limits))
    requires UsableCursor(record) && Shown(turns, record, recent, cap, history)
    ensures Position(record, k) + |history| <= |turns| && history == turns[|turns| - |history|..]
  {
    ReadIsSuffix(turns, record, first, k, limits);
    SuffixOfNewest(turns, Position(record, k), recent, cap, history);
  }

  lemma SuffixOfNewest(turns: seq<Turn>, from: nat, recent: nat, cap: nat, history: seq<Turn>)
    requires from <= |turns| && LongestSuffix(Newest(turns[from..], HISTORY_PAGE), recent, cap, history)
    ensures from + |history| <= |turns| && history == turns[|turns| - |history|..]
  {
    var page := Newest(turns[from..], HISTORY_PAGE);
    assert page == turns[|turns| - |page|..];
  }

  lemma SlicesInOrder(turns: seq<Turn>, first: nat, k: nat, summary: seq<Turn>, history: seq<Turn>)
    requires Ordered(turns) && first <= k && k + |history| <= |turns|
    requires summary == turns[first..k] && history == turns[|turns| - |history|..]
    ensures Ordered(summary + history)
    ensures forall turn :: turn in summary + history ==> turn in turns
  {
    var both := summary + history;
    var gap := |turns| - |both|;
    assert forall i :: 0 <= i < |both| ==> both[i] == turns[if i < |summary| then first + i else gap + i];
  }

  lemma OrderedTogether(turns: seq<Turn>, record: Option<Record>, first: nat, k: nat, limits: Limits,
                     recent: nat, cap: nat, history: seq<Turn>)
    requires Ordered(turns) && (record.Some? ==> Covers(turns, record.value, first, k, limits))
    requires UsableCursor(record) && Shown(turns, record, recent, cap, history)
    ensures Ordered(Summarised(record) + history)
    ensures forall turn :: turn in Summarised(record) + history ==> turn in turns
  {
    HistoryIsSuffix(turns, record, first, k, limits, recent, cap, history);
    if record == None {
      SlicesInOrder(turns, 0, 0, [], history);
    } else {
      SlicesInOrder(turns, first, k, record.value.summary, history);
    }
  }

  lemma HalvesJoin(turns: seq<Turn>, position: nat, summary: seq<Turn>, history: seq<Turn>)
    requires position <= |turns| && summary == turns[..position] && history == turns[position..]
    ensures summary + history == turns
  {
  }

  lemma WholeTogether(turns: seq<Turn>, record: Option<Record>, k: nat, limits: Limits,
                       recent: nat, cap: nat, history: seq<Turn>)
    requires Ordered(turns) && (record.Some? ==> Covers(turns, record.value, 0, k, limits))
    requires UsableCursor(record) && Shown(turns, record, recent, cap, history)
    requires var rest := turns[if record == None then 0 else k..];
             |rest| <= recent && |rest| <= HISTORY_PAGE && Chars(rest) <= cap
    ensures Summarised(record) + history == turns
  {
    ReadIsSuffix(turns, record, 0, k, limits);
    var position := Position(record, k);
    WholeFits(turns[position..], recent, cap, history);
    HalvesJoin(turns, position, Summarised(record), history);
  }

  /** Nothing is missing only if nothing was skipped and all that the record does not stand for fits. */
  lemma OnlyIfItFits(turns: seq<Turn>, record: Option<Record>, first: nat, k: nat, limits: Limits,
                     recent: nat, cap: nat, history: seq<Turn>)
    requires Ordered(turns) && (record.Some? ==> Covers(turns, record.value, first, k, limits))
    requires UsableCursor(record) && Shown(turns, record, recent, cap, history) && Summarised(record) + history == turns
    ensures record.Some? ==> first == 0
    ensures Position(record, k) <= |turns|
    ensures var rest := turns[Position(record, k)..]; |rest| <= recent && |rest| <= HISTORY_PAGE && Chars(rest) <= cap
  {
    ReadIsSuffix(turns, record, first, k, limits);
    SuffixOfNewest(turns, Position(record, k), recent, cap, history);
    assert |Summarised(record)| + |history| == |turns|;
    assert |Summarised(record)| == if record == None then 0 else k - first;
    assert history == turns[Position(record, k)..];
  }

  lemma NewestTogether(turns: seq<Turn>, record: Option<Record>, first: nat, k: nat, limits: Limits,
                    recent: nat, cap: nat, history: seq<Turn>)
    requires Ordered(turns) && (record.Some? ==> Covers(turns, record.value, first, k, limits))
    requires UsableCursor(record) && Shown(turns, record, recent, cap, history) && recent >= 1 && cap >= MAX_HISTORY_CHARS
    requires turns != [] && Bounded(turns[|turns| - 1])
    requires limits.Positive()
    ensures history != [] && history[|history| - 1] == turns[|turns| - 1]
  {
    ReadIsSuffix(turns, record, first, k, limits);
    var page := Read(turns, record);
    assert page[|page| - 1] == turns[|turns| - 1];
    NewestFits(page, recent, cap, history);
  }

  // ---- in every run of the system ----

  lemma {:induction false} TurnsOnlyGrow(h: Trace, later: Trace, limits: Limits)
    requires limits.Positive() && MemoryArchive.Legal(later, limits) && Precedes(h, later)
    ensures MemoryArchive.Legal(h, limits) && Reached(h, limits).turns <= Reached(later, limits).turns
  {
    if h != later {
      TurnsOnlyGrow(h, later.before, limits);
    }
  }

  /** No record that a run can read has a cursor that the query would refuse. */
  lemma CursorUsable(h: Trace, limits: Limits)
    requires limits.Positive() && MemoryArchive.Legal(h, limits)
    ensures UsableCursor(Reached(h, limits).record)
  {
    MemoryArchive.InvAlways(h, limits);
    var s := Reached(h, limits);
    if s.record.Some? {
      var k: nat :| Covers(s.turns, s.record.value, s.skipped, k, limits);
      assert s.turns[k - 1].answerId > 0;
    }
  }

  /** A run read the record at one time and the turns at a later one, and this is the history it shows. Turns
      may have completed and workers may have saved in between. */
  ghost predicate Prompted(h: Trace, later: Trace, limits: Limits, recent: nat, cap: nat, history: seq<Turn>)
    requires limits.Positive()
  {
    MemoryArchive.Legal(later, limits) && MemoryArchive.Legal(h, limits) && Precedes(h, later) &&
    UsableCursor(Reached(h, limits).record) && Shown(Reached(later, limits).turns, Reached(h, limits).record, recent, cap, history)
  }

  /** A record that was read at one time still covers the turns that are read later. */
  lemma StillCovers(h: Trace, later: Trace, limits: Limits) returns (k: nat)
    requires limits.Positive() && MemoryArchive.Legal(later, limits) && MemoryArchive.Legal(h, limits) && Precedes(h, later)
    ensures Ordered(Reached(later, limits).turns)
    ensures var s := Reached(h, limits);
            s.record.Some? ==> Covers(Reached(later, limits).turns, s.record.value, s.skipped, k, limits)
  {
    TurnsOnlyGrow(h, later, limits);
    MemoryArchive.InvAlways(h, limits);
    MemoryArchive.InvAlways(later, limits);
    var s, turns := Reached(h, limits), Reached(later, limits).turns;
    k := 0;
    if s.record.Some? {
      CoversLater(s.turns, turns, s.record.value, s.skipped, limits);
      k :| Covers(turns, s.record.value, s.skipped, k, limits);
    }
  }

  /** Summary and history never show a turn twice, and they keep the order of the conversation. */
  lemma NothingTwice(h: Trace, later: Trace, limits: Limits, recent: nat, cap: nat, history: seq<Turn>)
    requires limits.Positive() && Prompted(h, later, limits, recent, cap, history)
    ensures var shown := Summarised(Reached(h, limits).record) + history;
            Ordered(shown) && forall turn :: turn in shown ==> turn in Reached(later, limits).turns
  {
    var k := StillCovers(h, later, limits);
    OrderedTogether(Reached(later, limits).turns, Reached(h, limits).record, Reached(h, limits).skipped, k, limits, recent, cap, history);
  }

  /** The turns that a record does not stand for. */
  function Unsummarised(turns: seq<Turn>, record: Option<Record>): seq<Turn> {
    if record.Some? then After(turns, record.value.covered) else turns
  }

  /** Together they are the whole conversation exactly when the first scan skipped nothing and the turns that
      the record does not stand for fit. */
  lemma NothingMissing(h: Trace, later: Trace, limits: Limits, recent: nat, cap: nat, history: seq<Turn>)
    requires limits.Positive() && Prompted(h, later, limits, recent, cap, history)
    ensures var s, turns := Reached(h, limits), Reached(later, limits).turns;
            var rest := Unsummarised(turns, s.record);
            Summarised(s.record) + history == turns <==>
            (s.record.Some? ==> s.skipped == 0) && |rest| <= recent && |rest| <= HISTORY_PAGE && Chars(rest) <= cap
  {
    var k := StillCovers(h, later, limits);
    var s, turns := Reached(h, limits), Reached(later, limits).turns;
    var rest := Unsummarised(turns, s.record);
    assert turns[0..] == turns;
    if s.record.Some? {
      CursorCutsHistory(turns, k, s.record.value.covered);
    }
    if (s.record.Some? ==> s.skipped == 0) && |rest| <= recent && |rest| <= HISTORY_PAGE && Chars(rest) <= cap {
      WholeTogether(turns, s.record, k, limits, recent, cap, history);
    }
    if Summarised(s.record) + history == turns {
      OnlyIfItFits(turns, s.record, s.skipped, k, limits, recent, cap, history);
    }
  }

  /** With the default cap the newest turn is always shown. */
  lemma NewestShown(h: Trace, later: Trace, limits: Limits, recent: nat, cap: nat, history: seq<Turn>)
    requires limits.Positive() && Prompted(h, later, limits, recent, cap, history)
    requires recent >= 1 && cap >= MAX_HISTORY_CHARS && Reached(later, limits).turns != []
    ensures var turns := Reached(later, limits).turns; history != [] && history[|history| - 1] == turns[|turns| - 1]
  {
    var k := StillCovers(h, later, limits);
    MemoryArchive.InvAlways(later, limits);
    NewestTogether(Reached(later, limits).turns, Reached(h, limits).record, Reached(h, limits).skipped, k, limits, recent, cap, history);
  }
}
