/**
  Reading a replayed stream (streaming.py): the event-stream format of section 9.2.6 of the
  WHATWG HTML Standard, applied to what the serialiser prints.
*/
module ServerSentEvents {
  import opened JsonValues
  import opened Wrappers
  import opened Replay

  // ----- The format -----

  predicate NoBreak(line: string) {
    forall i :: 0 <= i < |line| ==> line[i] != '\n' && line[i] != '\r'
  }

  function BreakAt(text: string, from: nat): (k: nat)
    requires from <= |text|
    ensures from <= k <= |text|
    decreases |text| - from
  {
    if from == |text| || text[from] == '\n' || text[from] == '\r' then from else BreakAt(text, from + 1)
  }

  /** The lines that CR, LF or CR LF ends; text after the last line end is never dispatched. */
  function Lines(text: string): seq<string>
    decreases |text|
  {
    var k := BreakAt(text, 0);
    if k == |text| then [] else
      var next := if text[k] == '\r' && k + 1 < |text| && text[k + 1] == '\n' then k + 2 else k + 1;
      [text[..k]] + Lines(text[next..])
  }

  function ColonAt(line: string, from: nat): (k: nat)
    requires from <= |line|
    ensures from <= k <= |line|
    decreases |line| - from
  {
    if from == |line| || line[from] == ':' then from else ColonAt(line, from + 1)
  }

  /** A data field adds its value and a line feed to the buffer; other fields and comments add nothing. */
  function DataOf(line: string): string {
    var k := ColonAt(line, 0);
    if line[..k] != "data" then ""
    else if k == |line| then "\n"
    else if k + 1 < |line| && line[k + 1] == ' ' then line[k + 2..] + "\n"
    else line[k + 1..] + "\n"
  }

  /** A blank line dispatches the buffer, less its last line feed, unless it is empty. */
  function Dispatch(lines: seq<string>, buffer: string): seq<string> {
    if lines == [] then []
    else if lines[0] == "" then
      (if buffer == "" then [] else [buffer[..|buffer| - 1]]) + Dispatch(lines[1..], "")
    else Dispatch(lines[1..], buffer + DataOf(lines[0]))
  }

  function ParseStream(text: string): seq<string> {
    Dispatch(Lines(text), "")
  }

  // ----- Frames are read back -----

  function Concat(chunks: seq<string>): string {
    if chunks == [] then "" else chunks[0] + Concat(chunks[1..])
  }

  lemma {:induction false} BreakAfter(line: string, rest: string, from: nat)
    requires NoBreak(line) && from <= |line|
    ensures BreakAt(line + "\n" + rest, from) == |line|
    decreases |line| - from
  {
    var text := line + "\n" + rest;
    if from < |line| {
      assert text[from] == line[from];
      BreakAfter(line, rest, from + 1);
    } else {
      assert text[from] == '\n';
    }
  }

  lemma LinesOneMore(line: string, rest: string)
    requires NoBreak(line)
    ensures Lines(line + "\n" + rest) == [line] + Lines(rest)
  {
    var text := line + "\n" + rest;
    BreakAfter(line, rest, 0);
    assert text[..|line|] == line && text[|line|] == '\n' && text[|line| + 1..] == rest;
  }

  lemma LinesOfFrame(payload: string, rest: string)
    requires NoBreak(payload)
    ensures Lines(Frame(payload) + rest) == ["data: " + payload, ""] + Lines(rest)
  {
    FrameIsTwoLines("data: " + payload, rest);
    LineThenBlank("data: " + payload, rest);
  }

  lemma FrameIsTwoLines(line: string, rest: string)
    ensures line + "\n\n" + rest == line + "\n" + ("" + "\n" + rest)
  {
  }

  lemma LineThenBlank(line: string, rest: string)
    requires NoBreak(line)
    ensures Lines(line + "\n" + ("" + "\n" + rest)) == [line, ""] + Lines(rest)
  {
    var tail := "" + "\n" + rest;
    LinesOneMore("", rest);
    LinesOneMore(line, tail);
    TwoInFront(line, "", Lines(rest));
  }

  lemma TwoInFront(first: string, second: string, rest: seq<string>)
    ensures [first] + ([second] + rest) == [first, second] + rest
  {
  }

  lemma DataOfFrame(payload: string)
    ensures DataOf("data: " + payload) == payload + "\n"
  {
    var line := "data: " + payload;
    assert line[0] == 'd' && line[1] == 'a' && line[2] == 't' && line[3] == 'a' && line[4] == ':' && line[5] == ' ';
    assert ColonAt(line, 4) == 4 && ColonAt(line, 3) == 4;
    assert ColonAt(line, 2) == 4 && ColonAt(line, 1) == 4;
    assert ColonAt(line, 0) == 4;
    assert line[..4] == "data" && line[6..] == payload;
  }

  lemma FrameDispatches(payload: string, lines: seq<string>)
    ensures Dispatch(["data: " + payload, ""] + lines, "") == [payload] + Dispatch(lines, "")
  {
    var first := "data: " + payload;
    var all := [first, ""] + lines;
    DataOfFrame(payload);
    assert first != "" && "" + DataOf(first) == payload + "\n";
    assert all[1..] == [""] + lines && all[1..][1..] == lines;
    assert (payload + "\n")[..|payload|] == payload;
  }

  /** Whatever payloads without line breaks are framed, the reader gets back exactly those, in order. */
  lemma {:induction false} FramesAreReadBack(payloads: seq<string>)
    requires forall i :: 0 <= i < |payloads| ==> NoBreak(payloads[i])
    ensures ParseStream(Concat(seq(|payloads|, i requires 0 <= i < |payloads| => Frame(payloads[i])))) == payloads
  {
    var chunks := seq(|payloads|, i requires 0 <= i < |payloads| => Frame(payloads[i]));
    if payloads != [] {
      var rest := payloads[1..];
      var chunks' := seq(|rest|, i requires 0 <= i < |rest| => Frame(rest[i]));
      assert chunks[1..] == chunks';
      FramesAreReadBack(rest);
      LinesOfFrame(payloads[0], Concat(chunks'));
      FrameDispatches(payloads[0], Lines(Concat(chunks')));
    }
  }

  // ----- The stream of a completion -----

  function Payloads(print_: Json -> string, events: seq<Json>): seq<string> {
    seq(|events|, i requires 0 <= i < |events| => print_(events[i]))
  }

  /** The writer prints each of these events without a line break. */
  predicate OneLine(print_: Json -> string, events: seq<Json>) {
    forall i :: 0 <= i < |events| ==> NoBreak(print_(events[i]))
  }

  /** The reader inverts the writer on these events, and does not take the end marker for JSON. */
  predicate Reads(read: string -> Option<Json>, print_: Json -> string, events: seq<Json>) {
    (forall i :: 0 <= i < |events| ==> read(print_(events[i])) == Some(events[i])) && read(DONE) == None
  }

  /** What a client keeps: everything up to the end marker. */
  function Received(read: string -> Option<Json>, payloads: seq<string>): Option<seq<Json>> {
    if payloads == [] then None
    else if payloads[0] == DONE then Some([])
    else
      var first, rest := read(payloads[0]), Received(read, payloads[1..]);
      if first.None? || rest.None? then None else Some([first.value] + rest.value)
  }

  lemma {:induction false} ReceivedUpToDone(read: string -> Option<Json>, print_: Json -> string, events: seq<Json>)
    requires Reads(read, print_, events)
    ensures Received(read, Payloads(print_, events) + [DONE]) == Some(events)
  {
    var payloads := Payloads(print_, events) + [DONE];
    if events == [] {
      assert payloads[0] == DONE;
    } else {
      assert payloads[1..] == Payloads(print_, events[1..]) + [DONE];
      assert read(payloads[0]) == Some(events[0]);
      assert Reads(read, print_, events[1..]) by {
        assert forall i :: 0 <= i < |events[1..]| ==> events[1..][i] == events[i + 1];
      }
      ReceivedUpToDone(read, print_, events[1..]);
      assert [events[0]] + events[1..] == events;
    }
  }

  /**
    From the bytes of a replayed completion the reader recovers the printed events, then the
    end marker, which comes once and last; and a client has exactly the events of the
    completion when it meets that marker.
  */
  lemma StreamIsReadBack(
    read: string -> Option<Json>, print_: Json -> string, completion: Object, includeUsage: bool)
    requires WellFormed(completion)
    requires OneLine(print_, Events(completion, includeUsage)) && Reads(read, print_, Events(completion, includeUsage))
    ensures var events := Events(completion, includeUsage);
      var payloads := ParseStream(Concat(Stream(print_, completion, includeUsage)));
      && payloads == Payloads(print_, events) + [DONE]
      && DONE !in payloads[..|events|]
      && Received(read, payloads) == Some(events)
  {
    var events := Events(completion, includeUsage);
    var payloads := Payloads(print_, events) + [DONE];
    forall i | 0 <= i < |payloads| ensures NoBreak(payloads[i]) {
      if i < |events| {
        assert payloads[i] == print_(events[i]);
      }
    }
    var chunks := seq(|payloads|, i requires 0 <= i < |payloads| => Frame(payloads[i]));
    assert Frames(print_, events) + [Frame(DONE)] == chunks;
    FramesAreReadBack(payloads);
    ReceivedUpToDone(read, print_, events);
    forall i | 0 <= i < |events| ensures payloads[i] != DONE {
      assert read(payloads[i]) == Some(events[i]);
    }
  }

  /** Replay a completion to a client: whatever is not refused reaches it event by event. */
  method ReplayToClient(
    read: string -> Option<Json>, print_: Json -> string, completion: Object, includeUsage: bool, maxBytes: Option<nat>)
    returns (replay: Result<seq<string>, Refusal>, received: Option<seq<Json>>)
    requires WellFormed(completion) ==>
      && OneLine(print_, Events(completion, includeUsage)) && Reads(read, print_, Events(completion, includeUsage))
    ensures replay.Success? <==>
      WellFormed(completion) && Within(maxBytes, Size(Stream(print_, completion, includeUsage)))
    ensures replay.Success? ==> received == Some(Events(completion, includeUsage))
  {
    replay := ReplayCompletion(print_, completion, includeUsage, maxBytes);
    received := None;
    if replay.Success? {
      StreamIsReadBack(read, print_, completion, includeUsage);
      received := Received(read, ParseStream(Concat(replay.value)));
    }
  }

  // ----- Such writers and readers exist for any events -----

  function FirstAt(events: seq<Json>, event: Json): (k: nat)
    ensures k <= |events|
    ensures event in events ==> k < |events| && events[k] == event
  {
    if events == [] || events[0] == event then 0 else 1 + FirstAt(events[1..], event)
  }

  function Marks(n: nat): (marks: string)
    ensures |marks| == n && NoBreak(marks) && forall i :: 0 <= i < n ==> marks[i] == 'x'
  {
    if n == 0 then "" else "x" + Marks(n - 1)
  }

  lemma WriterAndReaderExist(events: seq<Json>) returns (read: string -> Option<Json>, print_: Json -> string)
    ensures OneLine(print_, events) && Reads(read, print_, events)
  {
    print_ := event => Marks(FirstAt(events, event));
    read := text => if |text| < |events| && text == Marks(|text|) then Some(events[|text|]) else None;
    assert DONE[0] != 'x' && |DONE| == 6;
    forall i | 0 <= i < |events| ensures read(print_(events[i])) == Some(events[i]) {
      assert events[i] in events;
    }
  }
}
