// The incremental reader of Responses server-sent events and the writer of the chat stream.
module Sse {

  type Byte = b: nat | b < 256

  const MAX_FRAME_BYTES := 262_144
  const NEWLINE: Byte := 10
  const RETURN: Byte := 13
  const SPACE: Byte := 32

  datatype Option<+T> = None | Some(value: T)

  /** Text of the protocol itself; every character used is ASCII. */
  function Ascii(s: string): (b: seq<Byte>)
    requires forall i :: 0 <= i < |s| ==> s[i] < 128 as char
    ensures |b| == |s|
  {
    seq(|s|, i requires 0 <= i < |s| => s[i] as int as Byte)
  }

  /** The position of the first newline, or the length when there is none. */
  function LineEnd(b: seq<Byte>): (n: nat)
    ensures n <= |b| && NEWLINE !in b[..n]
    ensures n < |b| ==> b[n] == NEWLINE
  {
    if b == [] || b[0] == NEWLINE then 0
    else
      var n := 1 + LineEnd(b[1..]);
      assert b[..n] == [b[0]] + b[1..][..n - 1];
      n
  }

  lemma LineEndUnique(b: seq<Byte>, n: nat)
    requires n < |b| && b[n] == NEWLINE && NEWLINE !in b[..n]
    ensures LineEnd(b) == n
  {
    var m := LineEnd(b);
    assert forall k :: 0 <= k < n ==> b[k] == b[..n][k];
    assert forall k :: 0 <= k < m ==> b[k] == b[..m][k];
  }

  /** bytes.rstrip(b"\r") */
  function StripReturns(b: seq<Byte>): seq<Byte> {
    if b != [] && b[|b| - 1] == RETURN then StripReturns(b[..|b| - 1]) else b
  }

  /** bytes.lstrip(b" ") */
  function StripSpaces(b: seq<Byte>): seq<Byte> {
    if b != [] && b[0] == SPACE then StripSpaces(b[1..]) else b
  }

  predicate Blank(b: Byte) {
    b == SPACE || 9 <= b <= 13
  }

  /** bytes.strip() */
  function Strip(b: seq<Byte>): seq<Byte> {
    if b != [] && Blank(b[0]) then Strip(b[1..])
    else if b != [] && Blank(b[|b| - 1]) then Strip(b[..|b| - 1])
    else b
  }

  predicate IsAscii(b: seq<Byte>) {
    forall i :: 0 <= i < |b| ==> b[i] < 128
  }

  /** b"\n".join(data) */
  function Join(data: seq<seq<Byte>>): seq<Byte> {
    if data == [] then [] else if |data| == 1 then data[0] else data[0] + [NEWLINE] + Join(data[1..])
  }

  function Concat(chunks: seq<seq<Byte>>): seq<Byte> {
    if chunks == [] then [] else chunks[0] + Concat(chunks[1..])
  }

  // ----- what a complete byte stream means -----

  datatype Event<J> = Event(name: Option<seq<Byte>>, payload: J)

  /** The events delivered, and whether the stream then ended normally. */
  datatype Outcome<J> = Outcome(events: seq<Event<J>>, ok: bool)

  /** The frame being collected: its event name, its data lines and its size so far. */
  datatype Frame = Frame(name: Option<seq<Byte>>, data: seq<seq<Byte>>, size: nat)

  const EMPTY := Frame(None, [], 0)

  datatype LineResult<J> = Rejected | Accepted(frame: Frame, events: seq<Event<J>>)

  /** One complete line, without its newline. `decode` stands for UTF-8 plus JSON-object decoding. */
  function ReadLine<J>(decode: seq<Byte> -> Option<J>, frame: Frame, raw: seq<Byte>): (r: LineResult<J>)
    ensures r.Accepted? ==> r.frame.size <= MAX_FRAME_BYTES
  {
    var size := frame.size + |raw| + 1;
    if size > MAX_FRAME_BYTES then Rejected
    else
      var line := StripReturns(raw);
      if line == [] then
        if frame.data == [] then Accepted(EMPTY, [])
        else
          match decode(Join(frame.data))
          case None => Rejected
          case Some(payload) => Accepted(EMPTY, [Event(frame.name, payload)])
      else if Ascii("data:") <= line then
        Accepted(Frame(frame.name, frame.data + [StripSpaces(line[5..])], size), [])
      else if Ascii("event:") <= line then
        var name := Strip(line[6..]);
        if IsAscii(name) then Accepted(Frame(Some(name), frame.data, size), []) else Rejected
      else
        Accepted(frame.(size := size), [])
  }

  function Prefixed<J>(events: seq<Event<J>>, rest: Outcome<J>): Outcome<J> {
    Outcome(events + rest.events, rest.ok)
  }

  /** The outcome of a whole stream of bytes, line by line. */
  function Meaning<J>(decode: seq<Byte> -> Option<J>, frame: Frame, b: seq<Byte>): Outcome<J>
    decreases |b|
  {
    var n := LineEnd(b);
    if n == |b| then Outcome([], b == [] && frame.data == [])
    else
      match ReadLine(decode, frame, b[..n])
      case Rejected => Outcome([], false)
      case Accepted(next, events) => Prefixed(events, Meaning(decode, next, b[n + 1..]))
  }

  /** The outcome of the rest of a stream once a line has been read. */
  function AfterLine<J>(decode: seq<Byte> -> Option<J>, line: LineResult<J>, rest: seq<Byte>): Outcome<J> {
    match line
    case Rejected => Outcome([], false)
    case Accepted(next, events) => Prefixed(events, Meaning(decode, next, rest))
  }

  // ----- the incremental reader -----

  lemma MoreBytesAfterLine<J>(decode: seq<Byte> -> Option<J>, frame: Frame, buffer: seq<Byte>, rest: seq<Byte>)
    requires LineEnd(buffer) < |buffer|
    ensures var n := LineEnd(buffer);
            Meaning(decode, frame, buffer + rest) ==
            AfterLine(decode, ReadLine(decode, frame, buffer[..n]), buffer[n + 1..] + rest)
  {
    var n := LineEnd(buffer);
    var b := buffer + rest;
    assert b[..n] == buffer[..n];
    LineEndUnique(b, n);
    assert b[n + 1..] == buffer[n + 1..] + rest;
  }

  /** Once an unfinished line is too long for its frame, no continuation can succeed. */
  lemma OversizedStaysRejected<J>(decode: seq<Byte> -> Option<J>, frame: Frame, buffer: seq<Byte>, rest: seq<Byte>)
    requires LineEnd(buffer) == |buffer|
    requires frame.size <= MAX_FRAME_BYTES < |buffer| + frame.size
    ensures Meaning(decode, frame, buffer + rest) == Outcome([], false)
  {
    var b := buffer + rest;
    assert forall i :: 0 <= i < |buffer| ==> b[i] == buffer[i];
    assert LineEnd(b) >= |buffer|;
  }

  lemma PrefixedTwice<J>(a: seq<Event<J>>, b: seq<Event<J>>, rest: Outcome<J>)
    ensures Prefixed(a, Prefixed(b, rest)) == Prefixed(a + b, rest)
  {
    assert a + (b + rest.events) == a + b + rest.events;
  }

  /** The inner loop: every complete line of the buffer is read. `rest` is what later chunks bring. */
  method Drain<J>(decode: seq<Byte> -> Option<J>, start: Frame, before: seq<Byte>, ghost rest: seq<Byte>)
    returns (events: seq<Event<J>>, ok: bool, frame: Frame, buffer: seq<Byte>)
    requires start.size <= MAX_FRAME_BYTES
    ensures ok ==> frame.size <= MAX_FRAME_BYTES && LineEnd(buffer) == |buffer|
    ensures Meaning(decode, start, before + rest)
            == if ok then Prefixed(events, Meaning(decode, frame, buffer + rest)) else Outcome(events, false)
  {
    frame, buffer, events := start, before, [];
    ghost var whole := Meaning(decode, start, before + rest);
    while NEWLINE in buffer
      invariant frame.size <= MAX_FRAME_BYTES
      invariant whole == Prefixed(events, Meaning(decode, frame, buffer + rest))
      decreases |buffer|
    {
      var n := LineEnd(buffer);
      MoreBytesAfterLine(decode, frame, buffer, rest);
      match ReadLine(decode, frame, buffer[..n]) {
        case Rejected =>
          ok := false;
          return;
        case Accepted(next, delivered) =>
          PrefixedTwice(events, delivered, Meaning(decode, next, buffer[n + 1..] + rest));
          events := events + delivered;
          frame := next;
          buffer := buffer[n + 1..];
      }
    }
    ok := true;
  }

  /** However the bytes are cut into chunks, events and outcome are those of the whole stream. */
  method SseData<J>(decode: seq<Byte> -> Option<J>, chunks: seq<seq<Byte>>)
    returns (events: seq<Event<J>>, ok: bool)
    ensures Outcome(events, ok) == Meaning(decode, EMPTY, Concat(chunks))
  {
    var buffer: seq<Byte> := [];
    var frame := EMPTY;
    events := [];
    ghost var whole := Meaning(decode, EMPTY, Concat(chunks));
    assert [] + Concat(chunks[0..]) == Concat(chunks);
    for i := 0 to |chunks|
      invariant frame.size <= MAX_FRAME_BYTES && LineEnd(buffer) == |buffer|
      invariant whole == Prefixed(events, Meaning(decode, frame, buffer + Concat(chunks[i..])))
    {
      ghost var rest, known := Concat(chunks[i + 1..]), events;
      assert buffer + Concat(chunks[i..]) == (buffer + chunks[i]) + rest;
      var delivered;
      delivered, ok, frame, buffer := Drain(decode, frame, buffer + chunks[i], rest);
      events := events + delivered;
      if !ok {
        return;
      }
      PrefixedTwice(known, delivered, Meaning(decode, frame, buffer + rest));
      if |buffer| + frame.size > MAX_FRAME_BYTES {
        OversizedStaysRejected(decode, frame, buffer, rest);
        return events, false;
      }
    }
    assert buffer + Concat(chunks[|chunks|..]) == buffer;
    ok := buffer == [] && frame.data == [];
  }

  // ----- the writer of the chat stream, read back -----

  /** What the chat endpoint sends: an encoded event or a heartbeat comment. */
  datatype Item = Sent(name: seq<Byte>, json: seq<Byte>) | Heartbeat

  function EncodeEvent(name: seq<Byte>, json: seq<Byte>): seq<Byte> {
    Ascii("event: ") + name + [NEWLINE] + (Ascii("data: ") + json + [NEWLINE] + [NEWLINE])
  }

  function Encoded(item: Item): seq<Byte> {
    match item
    case Sent(name, json) => EncodeEvent(name, json)
    case Heartbeat => Ascii(": heartbeat") + [NEWLINE] + [NEWLINE]
  }

  function Wire(items: seq<Item>): seq<Byte> {
    if items == [] then [] else Encoded(items[0]) + Wire(items[1..])
  }

  /** Event names are non-empty ASCII words and the JSON text of an object is one line. */
  predicate Encodable<J>(decode: seq<Byte> -> Option<J>, item: Item) {
    item.Sent? ==>
      IsAscii(item.name) && item.name != [] && NEWLINE !in item.name && NEWLINE !in item.json &&
      !Blank(item.name[0]) && !Blank(item.name[|item.name| - 1]) &&
      item.json != [] && item.json[0] != SPACE && item.json[|item.json| - 1] != RETURN &&
      decode(item.json).Some?
  }

  predicate FitsFrame(item: Item) {
    item.Sent? ==> |EncodeEvent(item.name, item.json)| <= MAX_FRAME_BYTES
  }

  /** The outcome a reader should see: every event back, up to the first oversized frame. */
  function Delivered<J>(decode: seq<Byte> -> Option<J>, items: seq<Item>): Outcome<J>
    requires forall item :: item in items ==> Encodable(decode, item)
  {
    if items == [] then Outcome([], true)
    else if !FitsFrame(items[0]) then Outcome([], false)
    else
      assert Encodable(decode, items[0]);
      Prefixed(if items[0].Sent? then [Event(Some(items[0].name), decode(items[0].json).value)] else [],
               Delivered(decode, items[1..]))
  }

  lemma MeaningOfLine<J>(decode: seq<Byte> -> Option<J>, frame: Frame, line: seq<Byte>, rest: seq<Byte>)
    requires NEWLINE !in line
    ensures Meaning(decode, frame, line + [NEWLINE] + rest) == AfterLine(decode, ReadLine(decode, frame, line), rest)
  {
    var b := line + [NEWLINE] + rest;
    assert b[..|line|] == line && b[|line| + 1..] == rest;
    LineEndUnique(b, |line|);
  }

  lemma EventLine<J>(decode: seq<Byte> -> Option<J>, name: seq<Byte>)
    requires IsAscii(name) && name != [] && !Blank(name[0]) && !Blank(name[|name| - 1])
    ensures var line := Ascii("event: ") + name;
            ReadLine(decode, EMPTY, line) ==
            if |line| + 1 > MAX_FRAME_BYTES then Rejected else Accepted(Frame(Some(name), [], |line| + 1), [])
  {
    var line := Ascii("event: ") + name;
    assert line[|line| - 1] == name[|name| - 1];
    assert StripReturns(line) == line;
    assert line[0] == 101 && Ascii("data:")[0] == 100;
    assert line[..6] == Ascii("event:");
    assert line[6..] == [SPACE] + name;
    assert (line[6..])[1..] == name;
    assert Strip(name) == name;
    assert Strip(line[6..]) == Strip(name);
  }

  lemma DataLine<J>(decode: seq<Byte> -> Option<J>, frame: Frame, json: seq<Byte>)
    requires json != [] && json[0] != SPACE && json[|json| - 1] != RETURN
    ensures var line := Ascii("data: ") + json;
            ReadLine(decode, frame, line) ==
            if frame.size + |line| + 1 > MAX_FRAME_BYTES then Rejected
            else Accepted(Frame(frame.name, frame.data + [json], frame.size + |line| + 1), [])
  {
    var line := Ascii("data: ") + json;
    assert line[|line| - 1] == json[|json| - 1];
    assert StripReturns(line) == line;
    assert line[..5] == Ascii("data:");
    assert line[5..] == [SPACE] + json;
    assert (line[5..])[1..] == json;
    assert StripSpaces(json) == json;
    assert StripSpaces(line[5..]) == StripSpaces(json);
  }

  lemma NothingBefore<J>(outcome: Outcome<J>)
    ensures Prefixed([], outcome) == outcome
  {
  }

  /** The empty line that closes a frame without data. */
  lemma BlankLine<J>(decode: seq<Byte> -> Option<J>, frame: Frame, rest: seq<Byte>)
    requires frame.data == [] && frame.size < MAX_FRAME_BYTES
    ensures Meaning(decode, frame, [NEWLINE] + rest) == Meaning(decode, EMPTY, rest)
  {
    assert [NEWLINE] + rest == [] + [NEWLINE] + rest;
    MeaningOfLine(decode, frame, [], rest);
    NothingBefore(Meaning(decode, EMPTY, rest));
  }

  /** The empty line that closes a frame with one data line. */
  lemma ClosingLine<J>(decode: seq<Byte> -> Option<J>, frame: Frame, json: seq<Byte>, rest: seq<Byte>)
    requires frame.data == [json] && decode(json).Some?
    ensures Meaning(decode, frame, [NEWLINE] + rest) ==
            if frame.size < MAX_FRAME_BYTES then Prefixed([Event(frame.name, decode(json).value)], Meaning(decode, EMPTY, rest))
            else Outcome([], false)
  {
    assert [NEWLINE] + rest == [] + [NEWLINE] + rest;
    MeaningOfLine(decode, frame, [], rest);
    assert Join(frame.data) == json;
  }

  /** The data line and the closing empty line of one event. */
  lemma ReadBackData<J>(decode: seq<Byte> -> Option<J>, frame: Frame, json: seq<Byte>, rest: seq<Byte>)
    requires frame.data == [] && frame.size <= MAX_FRAME_BYTES
    requires NEWLINE !in json && json != [] && json[0] != SPACE && json[|json| - 1] != RETURN && decode(json).Some?
    ensures Meaning(decode, frame, Ascii("data: ") + json + [NEWLINE] + ([NEWLINE] + rest)) ==
            if frame.size + |json| + 8 <= MAX_FRAME_BYTES
            then Prefixed([Event(frame.name, decode(json).value)], Meaning(decode, EMPTY, rest))
            else Outcome([], false)
  {
    var line := Ascii("data: ") + json;
    var tail := [NEWLINE] + rest;
    assert NEWLINE !in line by {
      assert forall i :: 0 <= i < |line| ==> line[i] != NEWLINE;
    }
    MeaningOfLine(decode, frame, line, tail);
    DataLine(decode, frame, json);
    if frame.size + |line| + 1 <= MAX_FRAME_BYTES {
      var full := Frame(frame.name, [json], frame.size + |line| + 1);
      assert frame.data + [json] == [json];
      ClosingLine(decode, full, json, rest);
      NothingBefore(Meaning(decode, full, tail));
    }
  }

  lemma ReadBackEvent<J>(decode: seq<Byte> -> Option<J>, name: seq<Byte>, json: seq<Byte>, rest: seq<Byte>)
    requires Encodable(decode, Sent(name, json))
    ensures Meaning(decode, EMPTY, EncodeEvent(name, json) + rest) ==
            if FitsFrame(Sent(name, json))
            then Prefixed([Event(Some(name), decode(json).value)], Meaning(decode, EMPTY, rest))
            else Outcome([], false)
  {
    var line := Ascii("event: ") + name;
    var tail := Ascii("data: ") + json + [NEWLINE] + ([NEWLINE] + rest);
    assert NEWLINE !in line by {
      assert forall i :: 0 <= i < |line| ==> line[i] != NEWLINE;
    }
    assert EncodeEvent(name, json) + rest == line + [NEWLINE] + tail;
    MeaningOfLine(decode, EMPTY, line, tail);
    EventLine(decode, name);
    if |line| + 1 <= MAX_FRAME_BYTES {
      var frame := Frame(Some(name), [], |line| + 1);
      ReadBackData(decode, frame, json, rest);
      assert Meaning(decode, EMPTY, line + [NEWLINE] + tail).events == [] + Meaning(decode, frame, tail).events;
    }
  }

  lemma HeartbeatLine<J>(decode: seq<Byte> -> Option<J>)
    ensures var line := Ascii(": heartbeat");
            ReadLine(decode, EMPTY, line) == Accepted(Frame(None, [], |line| + 1), []) && NEWLINE !in line && |line| == 11
  {
    var line := Ascii(": heartbeat");
    assert line[0] == 58 && line[|line| - 1] == 116;
    assert Ascii("data:")[0] == 100 && Ascii("event:")[0] == 101;
    assert forall i :: 0 <= i < |line| ==> line[i] != NEWLINE;
  }

  lemma ReadBackHeartbeat<J>(decode: seq<Byte> -> Option<J>, rest: seq<Byte>)
    ensures Meaning(decode, EMPTY, Ascii(": heartbeat") + [NEWLINE] + [NEWLINE] + rest) == Meaning(decode, EMPTY, rest)
  {
    var line := Ascii(": heartbeat");
    HeartbeatLine(decode);
    assert line + [NEWLINE] + [NEWLINE] + rest == line + [NEWLINE] + ([NEWLINE] + rest);
    MeaningOfLine(decode, EMPTY, line, [NEWLINE] + rest);
    BlankLine(decode, Frame(None, [], |line| + 1), rest);
    NothingBefore(Meaning(decode, EMPTY, rest));
  }

  /** Whatever follows what was written is read as if nothing had come before it. */
  lemma {:induction false} ReadBackAll<J>(decode: seq<Byte> -> Option<J>, items: seq<Item>, rest: seq<Byte>)
    requires forall item :: item in items ==> Encodable(decode, item)
    ensures Meaning(decode, EMPTY, Wire(items) + rest) ==
            if Delivered(decode, items).ok then Prefixed(Delivered(decode, items).events, Meaning(decode, EMPTY, rest))
            else Delivered(decode, items)
    decreases |items|
  {
    if items == [] {
      assert Wire(items) + rest == rest;
      NothingBefore(Meaning(decode, EMPTY, rest));
    } else {
      ReadBackAll(decode, items[1..], rest);
      assert Wire(items) + rest == Encoded(items[0]) + (Wire(items[1..]) + rest);
      match items[0] {
        case Sent(name, json) =>
          ReadBackEvent(decode, name, json, Wire(items[1..]) + rest);
          PrefixedTwice([Event(Some(name), decode(json).value)], Delivered(decode, items[1..]).events, Meaning(decode, EMPTY, rest));
        case Heartbeat =>
          ReadBackHeartbeat(decode, Wire(items[1..]) + rest);
          NothingBefore(Delivered(decode, items[1..]));
      }
    }
  }

  /** Reading what was written gives back exactly the events sent, heartbeats left out, and fails
      exactly at the first frame that is too large. */
  lemma RoundTrip<J>(decode: seq<Byte> -> Option<J>, items: seq<Item>)
    requires forall item :: item in items ==> Encodable(decode, item)
    ensures Meaning(decode, EMPTY, Wire(items)) == Delivered(decode, items)
  {
    ReadBackAll(decode, items, []);
    assert Wire(items) + [] == Wire(items);
    assert Delivered(decode, items).events + [] == Delivered(decode, items).events;
  }

  // ----- interrupted streams -----

  /** A stream that ends in an unfinished line never ends normally. */
  lemma {:induction false} UnfinishedFails<J>(decode: seq<Byte> -> Option<J>, frame: Frame, b: seq<Byte>)
    requires b != [] && b[|b| - 1] != NEWLINE
    ensures !Meaning(decode, frame, b).ok
    decreases |b|
  {
    var n := LineEnd(b);
    if n < |b| {
      var line := ReadLine(decode, frame, b[..n]);
      if line.Accepted? {
        UnfinishedFails(decode, line.frame, b[n + 1..]);
      }
    }
  }

  /** No complete line of b closes a frame. */
  predicate NoClosingLine(b: seq<Byte>)
    decreases |b|
  {
    var n := LineEnd(b);
    n == |b| || (StripReturns(b[..n]) != [] && NoClosingLine(b[n + 1..]))
  }

  lemma {:induction false} OpenFrameFails<J>(decode: seq<Byte> -> Option<J>, frame: Frame, b: seq<Byte>)
    requires frame.data != [] && NoClosingLine(b)
    ensures !Meaning(decode, frame, b).ok
    decreases |b|
  {
    var n := LineEnd(b);
    if n < |b| {
      var line := ReadLine(decode, frame, b[..n]);
      if line.Accepted? {
        OpenFrameFails(decode, line.frame, b[n + 1..]);
      }
    }
  }

  /** A stream with a data line that no later line closes never ends normally, whatever came before. */
  lemma {:induction false} UnclosedDataFails<J>(decode: seq<Byte> -> Option<J>, frame: Frame, before: seq<Byte>, line: seq<Byte>, after: seq<Byte>)
    requires before == [] || before[|before| - 1] == NEWLINE
    requires NEWLINE !in line && Ascii("data:") <= StripReturns(line) && NoClosingLine(after)
    ensures !Meaning(decode, frame, before + (line + [NEWLINE] + after)).ok
    decreases |before|
  {
    var data := line + [NEWLINE] + after;
    if before == [] {
      assert before + data == data;
      MeaningOfLine(decode, frame, line, after);
      var read := ReadLine(decode, frame, line);
      if read.Accepted? {
        assert read.frame.data != [];
        OpenFrameFails(decode, read.frame, after);
      }
    } else {
      var n := LineEnd(before);
      MoreBytesAfterLine(decode, frame, before, data);
      var read := ReadLine(decode, frame, before[..n]);
      if read.Accepted? {
        UnclosedDataFails(decode, read.frame, before[n + 1..], line, after);
      }
    }
  }

  /** The length of the first line of a frame, its newline included. */
  function FirstLine(item: Item): nat {
    match item
    case Sent(name, _) => |name| + 8
    case Heartbeat => 12
  }

  /** A data line that is cut off, or not followed by the closing line, gives no event and a failure. */
  lemma CutData<J>(decode: seq<Byte> -> Option<J>, frame: Frame, json: seq<Byte>, cut: nat)
    requires frame.data == [] && NEWLINE !in json && json != [] && json[0] != SPACE && json[|json| - 1] != RETURN
    requires 0 < cut <= |json| + 7
    ensures Meaning(decode, frame, (Ascii("data: ") + json + [NEWLINE])[..cut]) == Outcome([], false)
  {
    var line := Ascii("data: ") + json;
    assert NEWLINE !in line by {
      assert forall i :: 0 <= i < |line| ==> line[i] != NEWLINE;
    }
    var b := (line + [NEWLINE])[..cut];
    if cut <= |line| {
      assert b == line[..cut];
      assert LineEnd(b) == |b|;
    } else {
      assert b == line + [NEWLINE] + [];
      MeaningOfLine(decode, frame, line, []);
      DataLine(decode, frame, json);
    }
  }

  lemma EventLineRead<J>(decode: seq<Byte> -> Option<J>, name: seq<Byte>, rest: seq<Byte>)
    requires IsAscii(name) && name != [] && NEWLINE !in name && !Blank(name[0]) && !Blank(name[|name| - 1])
    ensures NEWLINE !in Ascii("event: ") + name
    ensures Meaning(decode, EMPTY, Ascii("event: ") + name + [NEWLINE] + rest) ==
            if |name| + 8 > MAX_FRAME_BYTES then Outcome([], false)
            else Meaning(decode, Frame(Some(name), [], |name| + 8), rest)
  {
    var line := Ascii("event: ") + name;
    assert forall i :: 0 <= i < |line| ==> line[i] != NEWLINE;
    MeaningOfLine(decode, EMPTY, line, rest);
    EventLine(decode, name);
    NothingBefore(Meaning(decode, Frame(Some(name), [], |name| + 8), rest));
  }

  lemma CutOfTwo(first: seq<Byte>, second: seq<Byte>, cut: nat)
    requires cut <= |first| + 1 + |second|
    ensures (first + [NEWLINE] + (second + [NEWLINE]))[..cut] ==
            if cut <= |first| then first[..cut] else first + [NEWLINE] + second[..cut - |first| - 1]
  {
  }

  lemma CutEvent<J>(decode: seq<Byte> -> Option<J>, name: seq<Byte>, json: seq<Byte>, cut: nat)
    requires Encodable(decode, Sent(name, json)) && 0 < cut < |EncodeEvent(name, json)|
    ensures Meaning(decode, EMPTY, EncodeEvent(name, json)[..cut]) ==
            Outcome([], cut == FirstLine(Sent(name, json)) <= MAX_FRAME_BYTES)
  {
    var line := Ascii("event: ") + name;
    var data := Ascii("data: ") + json + [NEWLINE];
    CutOfTwo(line, data, cut);
    if cut <= |line| {
      EventLineRead(decode, name, []);
      assert LineEnd(line[..cut]) == cut;
    } else {
      var rest := data[..cut - |line| - 1];
      EventLineRead(decode, name, rest);
      if rest != [] && |name| + 8 <= MAX_FRAME_BYTES {
        CutData(decode, Frame(Some(name), [], |name| + 8), json, |rest|);
      }
    }
  }

  lemma CutHeartbeat<J>(decode: seq<Byte> -> Option<J>, cut: nat)
    requires 0 < cut < 13
    ensures Meaning(decode, EMPTY, Encoded(Heartbeat)[..cut]) == Outcome([], cut == 12)
  {
    var line := Ascii(": heartbeat");
    HeartbeatLine(decode);
    var b := Encoded(Heartbeat)[..cut];
    if cut <= 11 {
      assert b == line[..cut];
      assert LineEnd(b) == |b|;
    } else {
      assert b == line + [NEWLINE] + [];
      MeaningOfLine(decode, EMPTY, line, []);
      NothingBefore(Meaning(decode, Frame(None, [], 12), []));
    }
  }

  /** A stream that is cut inside a frame delivers exactly the events before that frame. It fails, except
      when it is cut right after the first line, before any data: then the reader cannot tell, and ends
      normally. */
  lemma CutInsideFrame<J>(decode: seq<Byte> -> Option<J>, items: seq<Item>, item: Item, cut: nat)
    requires (forall i :: i in items ==> Encodable(decode, i)) && Encodable(decode, item) && 0 < cut < |Encoded(item)|
    ensures Meaning(decode, EMPTY, Wire(items) + Encoded(item)[..cut]) ==
            if !Delivered(decode, items).ok then Delivered(decode, items)
            else Outcome(Delivered(decode, items).events, cut == FirstLine(item) <= MAX_FRAME_BYTES)
  {
    ReadBackAll(decode, items, Encoded(item)[..cut]);
    match item {
      case Sent(name, json) => CutEvent(decode, name, json, cut);
      case Heartbeat => CutHeartbeat(decode, cut);
    }
    assert Delivered(decode, items).events + [] == Delivered(decode, items).events;
  }

  /** For example, a connection that is lost after the name of an event. */
  lemma LostAfterName<J>(decode: seq<Byte> -> Option<J>)
    ensures Meaning(decode, EMPTY, Ascii("event: token") + [NEWLINE]) == Outcome([], true)
  {
    var line := Ascii("event: ") + Ascii("token");
    assert Ascii("event: token") == line;
    assert NEWLINE !in line by {
      assert forall i :: 0 <= i < |line| ==> line[i] != NEWLINE;
    }
    assert line + [NEWLINE] == line + [NEWLINE] + [];
    MeaningOfLine(decode, EMPTY, line, []);
    EventLine(decode, Ascii("token"));
    NothingBefore(Meaning(decode, Frame(Some(Ascii("token")), [], |line| + 1), []));
  }

  // ----- payloads of several lines -----

  function LinesOf(text: seq<Byte>): (lines: seq<seq<Byte>>)
    ensures lines != []
    decreases |text|
  {
    var n := LineEnd(text);
    if n == |text| then [text] else [text[..n]] + LinesOf(text[n + 1..])
  }

  lemma {:induction false} LinesJoin(text: seq<Byte>)
    ensures Join(LinesOf(text)) == text && forall line :: line in LinesOf(text) ==> NEWLINE !in line
    decreases |text|
  {
    var n := LineEnd(text);
    if n < |text| {
      LinesJoin(text[n + 1..]);
      assert LinesOf(text)[1..] == LinesOf(text[n + 1..]);
      assert text == text[..n] + [NEWLINE] + text[n + 1..];
    }
  }

  /** Reading drops the spaces before the content of a line and the carriage returns after it. */
  predicate Plain(line: seq<Byte>) {
    NEWLINE !in line && (line != [] ==> line[0] != SPACE && line[|line| - 1] != RETURN)
  }

  function DataOf(line: seq<Byte>): (b: seq<Byte>)
    ensures |b| == |line| + 7
  {
    Ascii("data: ") + line + [NEWLINE]
  }

  /** One data line for each of these lines. */
  function DataLines(lines: seq<seq<Byte>>): seq<Byte> {
    if lines == [] then [] else DataOf(lines[0]) + DataLines(lines[1..])
  }

  lemma PlainLine<J>(decode: seq<Byte> -> Option<J>, frame: Frame, line: seq<Byte>)
    requires Plain(line)
    ensures ReadLine(decode, frame, Ascii("data: ") + line) ==
            if frame.size + |line| + 7 > MAX_FRAME_BYTES then Rejected
            else Accepted(Frame(frame.name, frame.data + [line], frame.size + |line| + 7), [])
  {
    if line != [] {
      DataLine(decode, frame, line);
    } else {
      var raw := Ascii("data: ");
      assert Ascii("data: ") + line == raw;
      assert raw[5] == SPACE && StripReturns(raw) == raw;
      assert raw[..5] == Ascii("data:");
      assert raw[5..] == [SPACE] && [SPACE][1..] == [];
      assert StripSpaces(raw[5..]) == line;
    }
  }

  lemma PlainLineRead<J>(decode: seq<Byte> -> Option<J>, frame: Frame, line: seq<Byte>, rest: seq<Byte>)
    requires Plain(line)
    ensures Meaning(decode, frame, DataOf(line) + rest) ==
            if frame.size + |line| + 7 > MAX_FRAME_BYTES then Outcome([], false)
            else Meaning(decode, Frame(frame.name, frame.data + [line], frame.size + |line| + 7), rest)
  {
    var raw := Ascii("data: ") + line;
    assert NEWLINE !in raw by {
      assert forall i :: 0 <= i < |raw| ==> raw[i] != NEWLINE;
    }
    MeaningOfLine(decode, frame, raw, rest);
    PlainLine(decode, frame, line);
    NothingBefore(Meaning(decode, Frame(frame.name, frame.data + [line], frame.size + |line| + 7), rest));
  }

  /** A reader that takes data lines one by one. */
  ghost predicate TakesLines<J>(read: (Frame, seq<Byte>) -> Outcome<J>) {
    forall frame: Frame, line: seq<Byte>, rest: seq<Byte> {:trigger read(frame, DataOf(line) + rest)} ::
      Plain(line) ==>
        read(frame, DataOf(line) + rest) ==
        if frame.size + |line| + 7 > MAX_FRAME_BYTES then Outcome([], false)
        else read(Frame(frame.name, frame.data + [line], frame.size + |line| + 7), rest)
  }

  /** It adds the contents of many data lines to the frame, or they overrun it. */
  lemma {:induction false} CollectLines<J>(read: (Frame, seq<Byte>) -> Outcome<J>, frame: Frame, lines: seq<seq<Byte>>, rest: seq<Byte>)
    requires TakesLines(read) && frame.size <= MAX_FRAME_BYTES && forall line :: line in lines ==> Plain(line)
    ensures read(frame, DataLines(lines) + rest) ==
            if frame.size + |DataLines(lines)| > MAX_FRAME_BYTES then Outcome([], false)
            else read(Frame(frame.name, frame.data + lines, frame.size + |DataLines(lines)|), rest)
    decreases |lines|
  {
    if lines == [] {
      assert DataLines(lines) + rest == rest && frame.data + lines == frame.data;
    } else {
      var more := DataLines(lines[1..]);
      assert DataLines(lines) + rest == DataOf(lines[0]) + (more + rest);
      var next := Frame(frame.name, frame.data + [lines[0]], frame.size + |lines[0]| + 7);
      if next.size <= MAX_FRAME_BYTES {
        CollectLines(read, next, lines[1..], rest);
        assert next.data + lines[1..] == frame.data + lines;
      }
    }
  }

  function Reader<J>(decode: seq<Byte> -> Option<J>): (Frame, seq<Byte>) -> Outcome<J> {
    (frame, b) => Meaning(decode, frame, b)
  }

  lemma MeaningTakesLines<J>(decode: seq<Byte> -> Option<J>)
    ensures TakesLines(Reader(decode))
  {
    forall frame: Frame, line: seq<Byte>, rest: seq<Byte> | Plain(line)
      ensures Reader(decode)(frame, DataOf(line) + rest) ==
              if frame.size + |line| + 7 > MAX_FRAME_BYTES then Outcome([], false)
              else Reader(decode)(Frame(frame.name, frame.data + [line], frame.size + |line| + 7), rest)
    {
      PlainLineRead(decode, frame, line, rest);
    }
  }

  /** A payload of several lines, sent as that many data lines, is read back whole; the limit is on the frame,
      its closing line included. */
  lemma LinesRoundTrip<J>(decode: seq<Byte> -> Option<J>, text: seq<Byte>, rest: seq<Byte>)
    requires forall line :: line in LinesOf(text) ==> Plain(line)
    ensures Meaning(decode, EMPTY, DataLines(LinesOf(text)) + ([NEWLINE] + rest)) ==
            if |DataLines(LinesOf(text))| >= MAX_FRAME_BYTES || decode(text) == None then Outcome([], false)
            else Prefixed([Event(None, decode(text).value)], Meaning(decode, EMPTY, rest))
  {
    var lines := LinesOf(text);
    MeaningTakesLines(decode);
    CollectLines(Reader(decode), EMPTY, lines, [NEWLINE] + rest);
    assert EMPTY.data + lines == lines;
    var full := Frame(None, lines, |DataLines(lines)|);
    CloseLines(decode, full, text, rest);
    assert Reader(decode)(full, [NEWLINE] + rest) == Meaning(decode, full, [NEWLINE] + rest);
  }

  lemma CloseLines<J>(decode: seq<Byte> -> Option<J>, frame: Frame, text: seq<Byte>, rest: seq<Byte>)
    requires frame.data == LinesOf(text)
    ensures Meaning(decode, frame, [NEWLINE] + rest) ==
            if frame.size >= MAX_FRAME_BYTES || decode(text) == None then Outcome([], false)
            else Prefixed([Event(frame.name, decode(text).value)], Meaning(decode, EMPTY, rest))
  {
    LinesJoin(text);
    assert [NEWLINE] + rest == [] + [NEWLINE] + rest;
    MeaningOfLine(decode, frame, [], rest);
  }
}
