// The embedding server's document splitter: overlapping token windows cut at line ends.
module Splitter {

  /** The character span of one token. */
  datatype Token = Token(start: nat, end: nat)

  datatype Chunk = Chunk(number: nat, text: string, start: nat, end: nat)

  /** Tokens first .. stop - 1. */
  datatype Window = Window(first: nat, stop: nat)

  const WINDOW := 360
  const SHORTEST := 200
  const OVERLAP := 48

  predicate NotAfter(tokens: seq<Token>, i: nat, j: nat)
    requires i < |tokens| && j < |tokens|
  {
    tokens[i].start <= tokens[j].start && tokens[i].end <= tokens[j].end
  }

  /** What a tokenizer's offset mapping promises: spans inside the text, in reading order. */
  predicate ValidTokens(content: string, tokens: seq<Token>) {
    (forall i :: 0 <= i < |tokens| ==> tokens[i].start <= tokens[i].end <= |content|) &&
    (forall i: nat, j: nat {:trigger NotAfter(tokens, i, j)} :: i <= j < |tokens| ==> NotAfter(tokens, i, j))
  }

  /** content.rfind("\n", lo, hi) */
  function LastNewline(content: string, lo: nat, hi: nat): (b: int)
    requires hi <= |content|
    ensures b == -1 || (lo <= b < hi && content[b] == '\n')
    ensures forall c :: lo <= c < hi && content[c] == '\n' ==> c <= b
    decreases hi
  {
    if hi <= lo then -1 else if content[hi - 1] == '\n' then hi - 1 else LastNewline(content, lo, hi - 1)
  }

  /** The inner while loop: drop tokens that end after the line break, but keep SHORTEST of them. */
  function CutBack(tokens: seq<Token>, floor: nat, stop: nat, boundary: int): (s: nat)
    requires 1 <= floor <= stop <= |tokens|
    ensures floor <= s <= stop
    ensures s == floor || tokens[s - 1].end <= boundary
    ensures forall k :: s <= k < stop ==> tokens[k].end > boundary
    decreases stop
  {
    if stop > floor && tokens[stop - 1].end > boundary then CutBack(tokens, floor, stop - 1, boundary) else stop
  }

  /** Where the window that starts at `first` stops. */
  function Stop(content: string, tokens: seq<Token>, first: nat): (s: nat)
    requires ValidTokens(content, tokens) && first < |tokens|
    ensures first < s <= |tokens| && s <= first + WINDOW
    ensures s < |tokens| ==> s >= first + SHORTEST && first + WINDOW < |tokens|
  {
    if first + WINDOW >= |tokens| then |tokens|
    else
      var stop := first + WINDOW;
      var boundary := LastNewline(content, tokens[first + SHORTEST].start, tokens[stop - 1].end);
      if boundary >= tokens[first + SHORTEST].start then CutBack(tokens, first + SHORTEST, stop, boundary) else stop
  }

  // ----- the windows of a document -----

  /** The window starts at an existing token and stops where it should. */
  predicate InPlace(content: string, tokens: seq<Token>, w: Window)
    requires ValidTokens(content, tokens)
  {
    w.first < |tokens| && w.stop == Stop(content, tokens, w.first)
  }

  lemma InPlaceBounds(content: string, tokens: seq<Token>, w: Window)
    requires ValidTokens(content, tokens) && InPlace(content, tokens, w)
    ensures w.first < w.stop <= |tokens| && w.stop <= w.first + WINDOW
    ensures w.stop < |tokens| ==> w.first + SHORTEST <= w.stop && w.first + WINDOW < |tokens|
  {
  }

  predicate Joined(n: nat, ws: seq<Window>, i: nat, j: nat)
    requires i < |ws| && j < |ws|
  {
    j == i + 1 ==> ws[i].stop != n && ws[j].first == ws[i].stop - OVERLAP
  }

  /** Each of these windows shares 48 tokens with the next, and only the last may reach the end. */
  ghost predicate Chained(content: string, tokens: seq<Token>, first: nat, ws: seq<Window>)
    requires ValidTokens(content, tokens)
  {
    (ws != [] ==> ws[0].first == first) &&
    (forall i {:trigger InPlace(content, tokens, ws[i])} :: 0 <= i < |ws| ==> InPlace(content, tokens, ws[i])) &&
    (forall i: nat, j: nat {:trigger Joined(|tokens|, ws, i, j)} :: i < |ws| && j < |ws| ==> Joined(|tokens|, ws, i, j))
  }

  /** The windows that the document is cut into: chained from the first token to the last. */
  ghost predicate WindowsOf(content: string, tokens: seq<Token>, ws: seq<Window>)
    requires ValidTokens(content, tokens)
  {
    Chained(content, tokens, 0, ws) && (if tokens == [] then ws == [] else ws != [] && ws[|ws| - 1].stop == |tokens|)
  }

  /** Where the window after these starts. */
  function Upcoming(done: seq<Window>): int {
    if done == [] then 0 else done[|done| - 1].stop - OVERLAP
  }

  lemma ChainedNext(content: string, tokens: seq<Token>, done: seq<Window>, w: Window)
    requires ValidTokens(content, tokens) && Chained(content, tokens, 0, done)
    requires w.first == Upcoming(done) && InPlace(content, tokens, w)
    requires done != [] ==> done[|done| - 1].stop != |tokens|
    ensures Chained(content, tokens, 0, done + [w])
  {
    forall i: nat, j: nat | i <= |done| && j <= |done|
      ensures Joined(|tokens|, done + [w], i, j)
    {
      assert i < |done| && j < |done| ==> Joined(|tokens|, done, i, j);
    }
    forall i | 0 <= i <= |done|
      ensures InPlace(content, tokens, (done + [w])[i])
    {
      assert i < |done| ==> InPlace(content, tokens, done[i]);
    }
  }

  lemma ChainedTail(content: string, tokens: seq<Token>, first: nat, ws: seq<Window>)
    requires ValidTokens(content, tokens) && Chained(content, tokens, first, ws) && |ws| > 1
    ensures Chained(content, tokens, ws[1].first, ws[1..])
  {
    var tail := ws[1..];
    forall i: nat, j: nat | i < |tail| && j < |tail|
      ensures Joined(|tokens|, tail, i, j)
    {
      assert Joined(|tokens|, ws, i + 1, j + 1);
    }
    forall i | 0 <= i < |tail|
      ensures InPlace(content, tokens, tail[i])
    {
      assert InPlace(content, tokens, ws[i + 1]);
    }
  }

  /** The chunk holds exactly the characters of its span. */
  predicate HoldsText(content: string, c: Chunk) {
    c.start <= c.end <= |content| && c.text == content[c.start..c.end] && |c.text| == c.end - c.start
  }

  /** The chunk has this number and spans from the window's first token to its last. */
  predicate Spans(tokens: seq<Token>, c: Chunk, number: nat, w: Window) {
    w.first < w.stop <= |tokens| && c.number == number &&
    c.start == tokens[w.first].start && c.end == tokens[w.stop - 1].end
  }

  ghost predicate Written(content: string, tokens: seq<Token>, ws: seq<Window>, chunks: seq<Chunk>) {
    |chunks| == |ws| &&
    (forall c :: c in chunks ==> HoldsText(content, c)) &&
    (forall i :: 0 <= i < |ws| ==> Spans(tokens, chunks[i], i, ws[i]))
  }

  /** The chunks are those of the windows of the document, one for each. */
  ghost predicate IsSplit(content: string, tokens: seq<Token>, chunks: seq<Chunk>)
    requires ValidTokens(content, tokens)
  {
    exists ws :: WindowsOf(content, tokens, ws) && Written(content, tokens, ws, chunks)
  }

  /** One pass of the outer loop up to the chunk it appends: the window's stop and last character. */
  method FindStop(content: string, tokens: seq<Token>, offset: nat) returns (stop: nat, endChar: nat)
    requires ValidTokens(content, tokens) && offset < |tokens|
    ensures InPlace(content, tokens, Window(offset, stop)) && endChar == tokens[stop - 1].end
    ensures offset < stop && tokens[offset].start <= endChar <= |content|
  {
    stop := if offset + 360 < |tokens| then offset + 360 else |tokens|;
    endChar := tokens[stop - 1].end;
    if stop < |tokens| {
      var floor := tokens[offset + 200].start;
      var boundary := LastNewline(content, floor, endChar);
      if boundary >= floor {
        ghost var cut := CutBack(tokens, offset + 200, stop, boundary);
        while stop > offset + 200 && tokens[stop - 1].end > boundary
          invariant offset + 200 <= stop < |tokens|
          invariant cut == CutBack(tokens, offset + 200, stop, boundary)
        {
          stop := stop - 1;
        }
        endChar := tokens[stop - 1].end;
      }
    }
    assert NotAfter(tokens, offset, stop - 1);
  }

  lemma WrittenNext(content: string, tokens: seq<Token>, ws: seq<Window>, chunks: seq<Chunk>, w: Window, c: Chunk)
    requires Written(content, tokens, ws, chunks)
    requires HoldsText(content, c) && Spans(tokens, c, |chunks|, w)
    ensures Written(content, tokens, ws + [w], chunks + [c])
  {
  }

  /** The chunk of the window that starts at `offset`. */
  method NextChunk(content: string, tokens: seq<Token>, offset: nat, number: nat) returns (chunk: Chunk, stop: nat)
    requires ValidTokens(content, tokens) && offset < |tokens|
    ensures offset < stop <= |tokens| && InPlace(content, tokens, Window(offset, stop))
    ensures stop < |tokens| ==> stop >= offset + SHORTEST
    ensures HoldsText(content, chunk) && Spans(tokens, chunk, number, Window(offset, stop))
  {
    var endChar;
    stop, endChar := FindStop(content, tokens, offset);
    InPlaceBounds(content, tokens, Window(offset, stop));
    var startChar := tokens[offset].start;
    chunk := Chunk(number, content[startChar..endChar], startChar, endChar);
  }

  /** One chunk per window, in order, numbered from 0, each with the text of its span. */
  method SplitDocument(content: string, tokens: seq<Token>) returns (chunks: seq<Chunk>)
    requires ValidTokens(content, tokens)
    ensures IsSplit(content, tokens, chunks)
  {
    chunks := [];
    var offset := 0;
    ghost var windows: seq<Window> := [];
    while offset < |tokens|
      invariant Written(content, tokens, windows, chunks) && Chained(content, tokens, 0, windows) && offset == Upcoming(windows)
      invariant windows != [] ==> offset < |tokens| && windows[|windows| - 1].stop != |tokens|
      decreases |tokens| - offset
    {
      var chunk, stop := NextChunk(content, tokens, offset, |chunks|);
      WrittenNext(content, tokens, windows, chunks, Window(offset, stop), chunk);
      ChainedNext(content, tokens, windows, Window(offset, stop));
      chunks := chunks + [chunk];
      windows := windows + [Window(offset, stop)];
      if stop == |tokens| {
        break;
      }
      offset := stop - 48;
    }
    assert WindowsOf(content, tokens, windows);
  }

  // ----- what the windows are -----

  /** Every window but the last has 200 to 360 tokens, the last at most 360, and it is the last as soon as no
      more than 360 remain; each window shares exactly 48 tokens with the next, and the last ends with token n - 1. */
  ghost predicate Tiles(ws: seq<Window>, first: nat, n: nat)
    decreases |ws|
  {
    ws != [] && ws[0].first == first < ws[0].stop <= first + WINDOW &&
    if |ws| == 1 then ws[0].stop == n
    else first + WINDOW < n && first + SHORTEST <= ws[0].stop && Tiles(ws[1..], ws[0].stop - OVERLAP, n)
  }

  lemma {:induction false} WindowsTile(content: string, tokens: seq<Token>, first: nat, ws: seq<Window>)
    requires ValidTokens(content, tokens) && Chained(content, tokens, first, ws) && ws != [] && ws[|ws| - 1].stop == |tokens|
    ensures Tiles(ws, first, |tokens|)
    decreases |ws|
  {
    assert InPlace(content, tokens, ws[0]);
    InPlaceBounds(content, tokens, ws[0]);
    if |ws| > 1 {
      ChainedTail(content, tokens, first, ws);
      assert Joined(|tokens|, ws, 0, 1);
      WindowsTile(content, tokens, ws[1].first, ws[1..]);
    }
  }

  ghost predicate TokenCovered(ws: seq<Window>, k: nat) {
    exists w :: w in ws && w.first <= k < w.stop
  }

  /** The character lies in the text of some window, even if it lies between two tokens. */
  ghost predicate CharacterCovered(tokens: seq<Token>, ws: seq<Window>, c: nat) {
    exists w :: w in ws && w.first < w.stop <= |tokens| && tokens[w.first].start <= c < tokens[w.stop - 1].end
  }

  lemma {:induction false} TokenInTile(ws: seq<Window>, first: nat, n: nat, k: nat)
    requires Tiles(ws, first, n) && first <= k < n
    ensures TokenCovered(ws, k)
    decreases |ws|
  {
    if k < ws[0].stop {
      assert ws[0] in ws;
    } else {
      TokenInTile(ws[1..], ws[0].stop - OVERLAP, n, k);
      var w :| w in ws[1..] && w.first <= k < w.stop;
      assert w in ws;
    }
  }

  lemma {:induction false} CharacterInTile(content: string, tokens: seq<Token>, ws: seq<Window>, first: nat, c: nat)
    requires ValidTokens(content, tokens)
    requires Tiles(ws, first, |tokens|) && first < |tokens| && tokens[first].start <= c < tokens[|tokens| - 1].end
    ensures CharacterCovered(tokens, ws, c)
    decreases |ws|
  {
    var w := ws[0];
    if c < tokens[w.stop - 1].end {
      assert w in ws;
    } else {
      assert NotAfter(tokens, w.stop - OVERLAP, w.stop - 1);
      CharacterInTile(content, tokens, ws[1..], w.stop - OVERLAP, c);
      var v :| v in ws[1..] && v.first < v.stop <= |tokens| && tokens[v.first].start <= c < tokens[v.stop - 1].end;
      assert v in ws;
    }
  }

  /** Each window but the last moves on by at least 152 tokens, which bounds their number. */
  lemma {:induction false} TileCount(ws: seq<Window>, first: nat, n: nat)
    requires Tiles(ws, first, n) && first < n
    ensures if n - first <= WINDOW then |ws| == 1 else 152 * (|ws| - 1) <= n - first - 209
    decreases |ws|
  {
    if |ws| > 1 {
      TileCount(ws[1..], ws[0].stop - OVERLAP, n);
    }
  }

  /** Every token's span lies in the span of some chunk. */
  lemma EveryTokenCovered(content: string, tokens: seq<Token>, chunks: seq<Chunk>, k: nat)
    requires ValidTokens(content, tokens) && IsSplit(content, tokens, chunks) && k < |tokens|
    ensures exists i :: 0 <= i < |chunks| && chunks[i].start <= tokens[k].start && tokens[k].end <= chunks[i].end
  {
    var ws: seq<Window> :| WindowsOf(content, tokens, ws) && Written(content, tokens, ws, chunks);
    WindowsTile(content, tokens, 0, ws);
    TokenInTile(ws, 0, |tokens|, k);
    var w: Window :| w in ws && w.first <= k < w.stop;
    var i :| 0 <= i < |ws| && ws[i] == w;
    assert Spans(tokens, chunks[i], i, w);
    assert NotAfter(tokens, w.first, k) && NotAfter(tokens, k, w.stop - 1);
  }

  /** The chunk's text holds the character at this position of the document. */
  predicate Holds(content: string, chunk: Chunk, c: nat) {
    chunk.start <= c < |content| && c - chunk.start < |chunk.text| && chunk.text[c - chunk.start] == content[c]
  }

  lemma HoldsSpan(content: string, chunk: Chunk, c: nat)
    requires HoldsText(content, chunk) && chunk.start <= c < chunk.end
    ensures Holds(content, chunk, c)
  {
  }

  /** Every character between the first and the last token lies in the text of some chunk, even if it lies
      between two tokens. */
  lemma EveryCharacterCovered(content: string, tokens: seq<Token>, chunks: seq<Chunk>, c: nat)
    requires ValidTokens(content, tokens) && IsSplit(content, tokens, chunks)
    requires tokens != [] && tokens[0].start <= c < tokens[|tokens| - 1].end
    ensures exists i :: 0 <= i < |chunks| && Holds(content, chunks[i], c)
  {
    var ws: seq<Window> :| WindowsOf(content, tokens, ws) && Written(content, tokens, ws, chunks);
    WindowsTile(content, tokens, 0, ws);
    CharacterInTile(content, tokens, ws, 0, c);
    var w: Window :| w in ws && w.first < w.stop <= |tokens| && tokens[w.first].start <= c < tokens[w.stop - 1].end;
    var i :| 0 <= i < |ws| && ws[i] == w;
    assert Spans(tokens, chunks[i], i, w);
    HoldsSpan(content, chunks[i], c);
  }

  /** A document of at most 120 000 tokens gives 1 to 789 chunks, within the client's limit of 1000. */
  lemma ChunkLimit(content: string, tokens: seq<Token>, chunks: seq<Chunk>)
    requires ValidTokens(content, tokens) && IsSplit(content, tokens, chunks) && 0 < |tokens| <= 120_000
    ensures 1 <= |chunks| <= 789
  {
    var ws: seq<Window> :| WindowsOf(content, tokens, ws) && Written(content, tokens, ws, chunks);
    WindowsTile(content, tokens, 0, ws);
    TileCount(ws, 0, |tokens|);
  }

  /** A document without tokens gives no chunk. */
  lemma NothingToSplit(content: string, chunks: seq<Chunk>)
    requires ValidTokens(content, []) && IsSplit(content, [], chunks)
    ensures chunks == []
  {
  }

  /** When a line ends in the second half of a full window, the window stops at the last token that
      ends there, unless that would leave fewer than 200 tokens. */
  lemma CutAtLineEnd(content: string, tokens: seq<Token>, first: nat, b: nat)
    requires ValidTokens(content, tokens) && first + WINDOW < |tokens|
    requires tokens[first + SHORTEST].start <= b < tokens[first + WINDOW - 1].end && content[b] == '\n'
    requires forall c :: b < c < tokens[first + WINDOW - 1].end ==> content[c] != '\n'
    ensures var s := Stop(content, tokens, first);
            (s == first + SHORTEST || tokens[s - 1].end <= b) &&
            forall k :: s <= k < first + WINDOW ==> tokens[k].end > b
  {
    assert LastNewline(content, tokens[first + SHORTEST].start, tokens[first + WINDOW - 1].end) == b;
  }

  /** Without a line end in that half the window is as long as it can be. */
  lemma NoLineEndNoCut(content: string, tokens: seq<Token>, first: nat)
    requires ValidTokens(content, tokens) && first + WINDOW < |tokens|
    requires forall c :: tokens[first + SHORTEST].start <= c < tokens[first + WINDOW - 1].end ==> content[c] != '\n'
    ensures Stop(content, tokens, first) == first + WINDOW
  {
  }
}
