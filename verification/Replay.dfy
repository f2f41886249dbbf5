/**
  The validate-then-replay serialiser (streaming.py): an approved completion is printed as
  server-sent events.  Text is a sequence of characters that each stand for one byte; the
  JSON writer is a parameter, of which only one thing matters: it prints no line break.
*/
module Replay {
  import opened JsonValues
  import opened Wrappers

  type Object = map<string, Json>

  datatype Refusal = MalformedCompletion | ResponseTooLarge

  // ----- What a completion must look like -----

  predicate NonEmptyText(o: Object, key: string) {
    key in o && o[key].Str? && o[key].text != ""
  }

  /** The value under the key, with a missing key read as null. */
  function Field(o: Object, key: string): Json {
    if key in o then o[key] else Null
  }

  predicate ToolCallsOk(value: Json) {
    value.Null? || (value.Arr? && forall i :: 0 <= i < |value.items| ==> value.items[i].Obj?)
  }

  predicate ChoiceOk(choice: Json) {
    && choice.Obj?
    && Field(choice.fields, "message").Obj?
    && Field(choice.fields, "index").Int?
    && NonEmptyText(choice.fields, "finish_reason")
    && ToolCallsOk(Field(choice.fields["message"].fields, "tool_calls"))
  }

  predicate HeaderOk(completion: Object) {
    && NonEmptyText(completion, "id") && NonEmptyText(completion, "model")
    && Field(completion, "choices").Arr? && completion["choices"].items != []
  }

  predicate WellFormed(completion: Object) {
    && HeaderOk(completion)
    && forall i :: 0 <= i < |completion["choices"].items| ==> ChoiceOk(completion["choices"].items[i])
  }

  ghost predicate IsText(value: Json) {
    exists text: string :: text != "" && value == Str(text)
  }

  /** A choice with a message, an integer index, a finish reason, and tool calls that are objects, if there are any. */
  ghost predicate IsChoice(choice: Json) {
    && choice.Obj? && "message" in choice.fields && choice.fields["message"].Obj?
    && "index" in choice.fields && choice.fields["index"].Int?
    && "finish_reason" in choice.fields && IsText(choice.fields["finish_reason"])
    && var message := choice.fields["message"].fields;
       "tool_calls" in message && !message["tool_calls"].Null? ==>
         message["tool_calls"].Arr? && forall call :: call in message["tool_calls"].items ==> call.Obj?
  }

  lemma ChoiceOkIff(choice: Json)
    ensures ChoiceOk(choice) <==> IsChoice(choice)
  {
    if choice.Obj? && "finish_reason" in choice.fields && choice.fields["finish_reason"].Str? {
      assert choice.fields["finish_reason"] == Str(choice.fields["finish_reason"].text);
    }
  }

  /** What is replayed: a named completion of a named model, with at least one choice, and proper ones only. */
  lemma WellFormedIff(completion: Object)
    ensures WellFormed(completion) <==>
      && "id" in completion && IsText(completion["id"]) && "model" in completion && IsText(completion["model"])
      && "choices" in completion && completion["choices"].Arr? && completion["choices"].items != []
      && forall choice :: choice in completion["choices"].items ==> IsChoice(choice)
  {
    if "id" in completion && completion["id"].Str? {
      assert completion["id"] == Str(completion["id"].text);
    }
    if "model" in completion && completion["model"].Str? {
      assert completion["model"] == Str(completion["model"].text);
    }
    if "choices" in completion && completion["choices"].Arr? {
      forall choice | choice in completion["choices"].items ensures ChoiceOk(choice) <==> IsChoice(choice) {
        ChoiceOkIff(choice);
      }
    }
  }

  // ----- The events of a completion -----

  const OPTIONAL_BASE := ["created", "system_fingerprint", "service_tier", "x-shiftedx-projection-v1"]

  function ChunkBase(completion: Object): Object {
    map["id" := Field(completion, "id"),
        "object" := Str("chat.completion.chunk"),
        "model" := Field(completion, "model")]
    + map key | key in completion && key in OPTIONAL_BASE :: completion[key]
  }

  function ChunkOf(completion: Object, index: Json, delta: Object, finish: Json): Json {
    var choice := Obj(map["index" := index, "delta" := Obj(delta), "finish_reason" := finish]);
    Obj(ChunkBase(completion)["choices" := Arr([choice])])
  }

  /** A tool call with its position, which the call's own "index" overrides. */
  function Numbered(call: Object, position: int): Object {
    map["index" := Int(position)] + call
  }

  function NumberedCalls(calls: seq<Json>): seq<Json>
    requires forall i :: 0 <= i < |calls| ==> calls[i].Obj?
  {
    seq(|calls|, i requires 0 <= i < |calls| => Obj(Numbered(calls[i].fields, i)))
  }

  /** The message without null fields, its tool calls numbered. */
  function Delta(message: Object): Object
    requires ToolCallsOk(Field(message, "tool_calls"))
  {
    var plain := map key | key in message && key != "refusal" && key != "tool_calls" && !message[key].Null? ::
      message[key];
    var called := if Field(message, "tool_calls").Null? then plain
                  else plain["tool_calls" := Arr(NumberedCalls(message["tool_calls"].items))];
    if Field(message, "refusal").Null? then called else called["refusal" := message["refusal"]]
  }

  function ChoiceEvents(completion: Object, choice: Json): (Json, Json)
    requires ChoiceOk(choice)
  {
    var c := choice.fields;
    (ChunkOf(completion, c["index"], Delta(c["message"].fields), Null),
     ChunkOf(completion, c["index"], map[], c["finish_reason"]))
  }

  /** The two events each choice turns into; None for a malformed one. */
  type Expansion = Json -> Option<(Json, Json)>

  function Expand(completion: Object): Expansion {
    choice => if ChoiceOk(choice) then Some(ChoiceEvents(completion, choice)) else None
  }

  predicate ExpandsUpTo(expand: Expansion, choices: seq<Json>, n: nat)
    requires n <= |choices|
  {
    forall j :: 0 <= j < n ==> expand(choices[j]).Some?
  }

  /** The events of the first n choices. */
  function EventsUpTo(expand: Expansion, choices: seq<Json>, n: nat): seq<Json>
    requires n <= |choices| && ExpandsUpTo(expand, choices, n)
  {
    if n == 0 then [] else
      var (delta, finish) := expand(choices[n - 1]).value;
      EventsUpTo(expand, choices, n - 1) + [delta, finish]
  }

  function UsageEvents(completion: Object, includeUsage: bool): seq<Json> {
    if includeUsage && Field(completion, "usage").Obj? then
      [Obj(ChunkBase(completion)["choices" := Arr([])]["usage" := completion["usage"]])]
    else []
  }

  function Events(completion: Object, includeUsage: bool): seq<Json>
    requires WellFormed(completion)
  {
    var choices := completion["choices"].items;
    EventsUpTo(Expand(completion), choices, |choices|) + UsageEvents(completion, includeUsage)
  }

  // ----- Framing and size -----

  const DONE := "[DONE]"

  function Frame(payload: string): string {
    "data: " + payload + "\n\n"
  }

  function Frames(print_: Json -> string, events: seq<Json>): seq<string> {
    seq(|events|, i requires 0 <= i < |events| => Frame(print_(events[i])))
  }

  function Size(chunks: seq<string>): nat {
    if chunks == [] then 0 else Size(chunks[..|chunks| - 1]) + |chunks[|chunks| - 1]|
  }

  lemma {:induction false} SizeOfPrefix(chunks: seq<string>, more: seq<string>)
    ensures Size(chunks) <= Size(chunks + more)
  {
    if more == [] {
      assert chunks + more == chunks;
    } else {
      assert (chunks + more)[..|chunks + more| - 1] == chunks + more[..|more| - 1];
      SizeOfPrefix(chunks, more[..|more| - 1]);
    }
  }

  /** Everything the client gets, the end marker last. */
  function Stream(print_: Json -> string, completion: Object, includeUsage: bool): seq<string>
    requires WellFormed(completion)
  {
    Frames(print_, Events(completion, includeUsage)) + [Frame(DONE)]
  }

  predicate Within(maxBytes: Option<nat>, size: nat) {
    maxBytes.Some? ==> size <= maxBytes.value
  }

  /** Print one event behind the chunks so far, or refuse it for size. */
  method Append(print_: Json -> string, event: Json, maxBytes: Option<nat>, chunks: seq<string>, total: nat)
    returns (ok: bool, chunks': seq<string>, total': nat)
    requires total == Size(chunks) && Within(maxBytes, total)
    ensures ok <==> Within(maxBytes, Size(chunks + [Frame(print_(event))]))
    ensures ok ==> chunks' == chunks + [Frame(print_(event))] && total' == Size(chunks') && Within(maxBytes, total')
  {
    var chunk := Frame(print_(event));
    chunks', total' := chunks + [chunk], total + |chunk|;
    assert chunks'[..|chunks|] == chunks;
    ok := maxBytes.None? || total' <= maxBytes.value;
  }

  lemma FramesOneMore(print_: Json -> string, events: seq<Json>, event: Json)
    ensures Frames(print_, events + [event]) == Frames(print_, events) + [Frame(print_(event))]
  {
  }

  /** A stream that has outgrown the limit part way is over the limit as a whole. */
  lemma TooLargeAlready(
    print_: Json -> string, done: seq<Json>, rest: seq<Json>, maxBytes: Option<nat>)
    requires !Within(maxBytes, Size(Frames(print_, done)))
    ensures !Within(maxBytes, Size(Frames(print_, done + rest) + [Frame(DONE)]))
  {
    assert Frames(print_, done + rest) + [Frame(DONE)] == Frames(print_, done) + (Frames(print_, rest) + [Frame(DONE)]);
    SizeOfPrefix(Frames(print_, done), Frames(print_, rest) + [Frame(DONE)]);
  }

  /** Print both events of one choice behind the chunks so far. */
  method AppendBoth(
    print_: Json -> string, delta: Json, finish: Json, maxBytes: Option<nat>, chunks: seq<string>, total: nat,
    ghost events: seq<Json>)
    returns (ok: bool, chunks': seq<string>, total': nat)
    requires chunks == Frames(print_, events) && total == Size(chunks) && Within(maxBytes, total)
    ensures ok <==> Within(maxBytes, Size(Frames(print_, events + [delta, finish])))
    ensures ok ==> chunks' == Frames(print_, events + [delta, finish]) && total' == Size(chunks')
  {
    FramesOneMore(print_, events, delta);
    FramesOneMore(print_, events + [delta], finish);
    assert events + [delta, finish] == events + [delta] + [finish];
    ok, chunks', total' := Append(print_, delta, maxBytes, chunks, total);
    if !ok {
      SizeOfPrefix(Frames(print_, events + [delta]), [Frame(print_(finish))]);
      return;
    }
    ok, chunks', total' := Append(print_, finish, maxBytes, chunks', total');
  }

  /** The loop over the choices: it stops at the first malformed one, or when the limit is passed. */
  method AppendChoices(print_: Json -> string, expand: Expansion, choices: seq<Json>, maxBytes: Option<nat>)
    returns (refusal: Option<Refusal>, chunks: seq<string>, total: nat, ghost n: nat)
    ensures n <= |choices| && ExpandsUpTo(expand, choices, n)
    ensures refusal.None? ==>
      && n == |choices| && chunks == Frames(print_, EventsUpTo(expand, choices, n))
      && total == Size(chunks) && Within(maxBytes, total)
    ensures refusal == Some(MalformedCompletion) ==>
      && n < |choices| && expand(choices[n]).None?
      && Within(maxBytes, Size(Frames(print_, EventsUpTo(expand, choices, n))))
    ensures refusal == Some(ResponseTooLarge) ==>
      !Within(maxBytes, Size(Frames(print_, EventsUpTo(expand, choices, n))))
  {
    chunks, total, n := [], 0, 0;
    for i := 0 to |choices|
      invariant n == i && ExpandsUpTo(expand, choices, i)
      invariant chunks == Frames(print_, EventsUpTo(expand, choices, i))
      invariant total == Size(chunks) && Within(maxBytes, total)
    {
      var events := expand(choices[i]);
      if events.None? {
        return Some(MalformedCompletion), chunks, total, n;
      }
      var ok;
      ok, chunks, total := AppendBoth(
        print_, events.value.0, events.value.1, maxBytes, chunks, total, EventsUpTo(expand, choices, i));
      n := i + 1;
      if !ok {
        return Some(ResponseTooLarge), chunks, total, n;
      }
    }
    refusal := None;
  }

  method ReplayCompletion(print_: Json -> string, completion: Object, includeUsage: bool, maxBytes: Option<nat>)
    returns (replay: Result<seq<string>, Refusal>)
    ensures replay.Success? <==>
      WellFormed(completion) && Within(maxBytes, Size(Stream(print_, completion, includeUsage)))
    ensures replay.Success? ==> replay.value == Stream(print_, completion, includeUsage)
    ensures replay == Result.Failure(ResponseTooLarge) <==>
      && HeaderOk(completion)
      && (Outgrows(print_, completion, maxBytes)
          || (WellFormed(completion) && !Within(maxBytes, Size(Stream(print_, completion, includeUsage)))))
  {
    if !HeaderOk(completion) {
      return Result.Failure(MalformedCompletion);
    }
    var choices := completion["choices"].items;
    var expand := Expand(completion);
    var refusal, chunks, total, n := AppendChoices(print_, expand, choices, maxBytes);
    if refusal.Some? {
      if refusal.value.ResponseTooLarge? {
        assert OutgrownAt(print_, expand, choices, maxBytes, n);
        if WellFormed(completion) {
          OutgrownEarly(print_, completion, includeUsage, maxBytes, n);
        }
      } else {
        NotOutgrown(print_, expand, choices, maxBytes, n);
      }
      return Result.Failure(refusal.value);
    }
    replay := Close(print_, completion, includeUsage, maxBytes, chunks, total, EventsUpTo(expand, choices, n));
    NotOutgrown(print_, expand, choices, maxBytes, n);
  }

  /** The events of the first n choices are proper, and too large already. */
  ghost predicate OutgrownAt(
    print_: Json -> string, expand: Expansion, choices: seq<Json>, maxBytes: Option<nat>, n: nat)
  {
    && n <= |choices| && ExpandsUpTo(expand, choices, n)
    && !Within(maxBytes, Size(Frames(print_, EventsUpTo(expand, choices, n))))
  }

  /** The limit is passed before any malformed choice is met. */
  ghost predicate Outgrows(print_: Json -> string, completion: Object, maxBytes: Option<nat>)
    requires HeaderOk(completion)
  {
    exists n :: OutgrownAt(print_, Expand(completion), completion["choices"].items, maxBytes, n)
  }

  /** Events that fit up to a malformed choice, or to the last one, do so at every choice before. */
  lemma NotOutgrown(print_: Json -> string, expand: Expansion, choices: seq<Json>, maxBytes: Option<nat>, n: nat)
    requires n <= |choices| && ExpandsUpTo(expand, choices, n)
    requires Within(maxBytes, Size(Frames(print_, EventsUpTo(expand, choices, n))))
    requires n == |choices| || expand(choices[n]).None?
    ensures forall k :: !OutgrownAt(print_, expand, choices, maxBytes, k)
  {
    forall k: nat | k <= n && ExpandsUpTo(expand, choices, k)
      ensures Within(maxBytes, Size(Frames(print_, EventsUpTo(expand, choices, k))))
    {
      EventsGrow(print_, expand, choices, k, n);
    }
  }

  lemma {:induction false} EventsGrow(print_: Json -> string, expand: Expansion, choices: seq<Json>, k: nat, n: nat)
    requires k <= n <= |choices| && ExpandsUpTo(expand, choices, n)
    ensures Size(Frames(print_, EventsUpTo(expand, choices, k))) <= Size(Frames(print_, EventsUpTo(expand, choices, n)))
  {
    if k == n {
    } else {
      var before, two := EventsUpTo(expand, choices, n - 1), expand(choices[n - 1]).value;
      EventsGrow(print_, expand, choices, k, n - 1);
      assert Frames(print_, before + [two.0, two.1]) == Frames(print_, before) + Frames(print_, [two.0, two.1]);
      SizeOfPrefix(Frames(print_, before), Frames(print_, [two.0, two.1]));
    }
  }

  /** A stream that is too large after some choices is too large in the end. */
  lemma OutgrownEarly(
    print_: Json -> string, completion: Object, includeUsage: bool, maxBytes: Option<nat>, n: nat)
    requires WellFormed(completion) && n <= |completion["choices"].items|
    requires !Within(maxBytes, Size(Frames(print_, EventsUpTo(Expand(completion), completion["choices"].items, n))))
    ensures !Within(maxBytes, Size(Stream(print_, completion, includeUsage)))
  {
    var choices, expand := completion["choices"].items, Expand(completion);
    var later := ChoicesFrom(expand, choices, n);
    var rest := later + UsageEvents(completion, includeUsage);
    assert Events(completion, includeUsage) == EventsUpTo(expand, choices, n) + rest;
    TooLargeAlready(print_, EventsUpTo(expand, choices, n), rest, maxBytes);
  }

  lemma {:induction false} ChoicesFrom(expand: Expansion, choices: seq<Json>, n: nat) returns (rest: seq<Json>)
    requires n <= |choices| && ExpandsUpTo(expand, choices, |choices|)
    ensures EventsUpTo(expand, choices, |choices|) == EventsUpTo(expand, choices, n) + rest
    decreases |choices| - n
  {
    if n == |choices| {
      rest := [];
    } else {
      var later := ChoicesFrom(expand, choices, n + 1);
      rest := [expand(choices[n]).value.0, expand(choices[n]).value.1] + later;
    }
  }

  /** The usage event, if asked for and present, and the end marker. */
  method Close(
    print_: Json -> string, completion: Object, includeUsage: bool, maxBytes: Option<nat>, chunks: seq<string>,
    total: nat,
    ghost events: seq<Json>)
    returns (replay: Result<seq<string>, Refusal>)
    requires chunks == Frames(print_, events) && total == Size(chunks) && Within(maxBytes, total)
    ensures var all := Frames(print_, events + UsageEvents(completion, includeUsage)) + [Frame(DONE)];
      replay == if Within(maxBytes, Size(all)) then Success(all) else Result.Failure(ResponseTooLarge)
  {
    var chunks', total' := chunks, total;
    if includeUsage && Field(completion, "usage").Obj? {
      var usage := Obj(ChunkBase(completion)["choices" := Arr([])]["usage" := completion["usage"]]);
      FramesOneMore(print_, events, usage);
      var ok;
      ok, chunks', total' := Append(print_, usage, maxBytes, chunks, total);
      if !ok {
        TooLargeAlready(print_, events + [usage], [], maxBytes);
        assert events + [usage] + [] == events + [usage];
        return Result.Failure(ResponseTooLarge);
      }
    } else {
      assert events + UsageEvents(completion, includeUsage) == events;
    }
    var done := Frame(DONE);
    assert (chunks' + [done])[..|chunks'|] == chunks';
    if maxBytes.Some? && total' + |done| > maxBytes.value {
      return Result.Failure(ResponseTooLarge);
    }
    replay := Success(chunks' + [done]);
  }
}
