/**
  From a completion to its bytes and back (streaming.py): what a client that reads the
  server-sent events holds in the end, against the messages the completion was made of.
*/
module ReplayDelivery {
  import opened JsonValues
  import opened Wrappers
  import opened Replay
  import opened ServerSentEvents
  import opened ReplayClient

  function MessageOf(choice: Json): Object
    requires ChoiceOk(choice)
  {
    choice.fields["message"].fields
  }

  /** All but the tool calls: the fields that are not null, unchanged. */
  ghost predicate FieldsComeBack(message: Object, merged: Object) {
    && (forall key :: key in merged && key != "tool_calls" ==> key in message && merged[key] == message[key])
    && (forall key :: key in message && !message[key].Null? && key != "tool_calls" ==> key in merged)
    && (forall key :: key in merged ==> !Field(message, key).Null?)
  }

  /** The tool calls: filed by index, each at its position and nothing else. */
  ghost predicate CallsComeBack(message: Object, merged: Object)
    requires ToolCallsOk(Field(message, "tool_calls"))
  {
    if Field(message, "tool_calls").Null? then "tool_calls" !in merged
    else
      && Field(merged, "tool_calls").Arr?
      && var items := merged["tool_calls"].items; Rebuilt(Placed(items, |items|), Bodies(message["tool_calls"].items))
  }

  /** Distinct positions as places, each of an equal call, if there are tool calls at all. */
  ghost predicate CallsFit(message: Object)
    requires ToolCallsOk(Field(message, "tool_calls"))
  {
    !Field(message, "tool_calls").Null? ==>
      PlacesFit(Places(message["tool_calls"].items), Bodies(message["tool_calls"].items))
  }

  lemma MessageComesBackIff(message: Object)
    requires ToolCallsOk(Field(message, "tool_calls"))
    ensures FieldsComeBack(message, Delta(message))
    ensures CallsComeBack(message, Delta(message)) <==> CallsFit(message)
  {
    forall key ensures
      && (key in Delta(message) <==> !Field(message, key).Null?)
      && (key in Delta(message) && key != "tool_calls" ==> Delta(message)[key] == message[key])
    {
      DeltaIsMessage(message, key);
    }
    if !Field(message, "tool_calls").Null? {
      DeltaIsMessage(message, "tool_calls");
      CallsAreRebuiltIff(message["tool_calls"].items);
    }
  }

  /** The choice is there with its finish reason, once, and with its message. */
  ghost predicate ChoiceComesBack(choice: Json, parts: seq<Part>)
    requires ChoiceOk(choice)
  {
    var index := choice.fields["index"].number;
    && Finishes(parts, index) == [choice.fields["finish_reason"]]
    && FieldsComeBack(MessageOf(choice), Merged(parts, index)) && CallsComeBack(MessageOf(choice), Merged(parts, index))
  }

  /** As many choices as there are, and each of them. */
  ghost predicate ComesBack(completion: Object, parts: seq<Part>)
    requires WellFormed(completion)
  {
    var choices := completion["choices"].items;
    |IndicesSeen(parts)| == |choices| && forall k :: 0 <= k < |choices| ==> ChoiceComesBack(choices[k], parts)
  }

  ghost predicate AllCallsFit(completion: Object)
    requires WellFormed(completion)
  {
    var choices := completion["choices"].items;
    forall k :: 0 <= k < |choices| ==> CallsFit(MessageOf(choices[k]))
  }

  lemma ChoiceComesBackIff(completion: Object, includeUsage: bool, k: nat)
    requires WellFormed(completion) && DistinctIndices(Choices(completion)) && k < |completion["choices"].items|
    ensures var choice := completion["choices"].items[k];
      ChoiceComesBack(choice, PartsOf(Events(completion, includeUsage))) <==> CallsFit(MessageOf(choice))
  {
    ReplayRoundTrip(completion, includeUsage, k);
    MessageComesBackIff(MessageOf(completion["choices"].items[k]));
  }

  /**
    A replayed completion comes back whole exactly when its choices have distinct indices
    and the tool calls of each are placed as they stand.
  */
  lemma ComesBackIff(completion: Object, includeUsage: bool)
    requires WellFormed(completion)
    ensures ComesBack(completion, PartsOf(Events(completion, includeUsage)))
      <==> DistinctIndices(Choices(completion)) && AllCallsFit(completion)
  {
    var choices, parts := completion["choices"].items, PartsOf(Events(completion, includeUsage));
    ReplayRoundTrip(completion, includeUsage, 0);
    if DistinctIndices(Choices(completion)) {
      forall k | 0 <= k < |choices| ensures ChoiceComesBack(choices[k], parts) <==> CallsFit(MessageOf(choices[k])) {
        ChoiceComesBackIff(completion, includeUsage, k);
      }
    }
  }

  // ----- What every event carries -----

  /** What is filed under the key, if anything is. */
  function Has(o: Object, key: string): Option<Json> {
    if key in o then Some(o[key]) else None
  }

  ghost predicate IsOptional(key: string) {
    key == "created" || key == "system_fingerprint" || key == "service_tier" || key == "x-shiftedx-projection-v1"
  }

  /** The event names the completion and its model, says what it is, and carries the optional fields there are. */
  ghost predicate Carries(completion: Object, event: Json) {
    && event.Obj?
    && Field(event.fields, "id") == Field(completion, "id")
    && Field(event.fields, "model") == Field(completion, "model")
    && Field(event.fields, "object") == Str("chat.completion.chunk")
    && (forall key :: IsOptional(key) ==> Has(event.fields, key) == Has(completion, key))
    && (forall key :: key in event.fields ==> IsOptional(key) || key in {"id", "model", "object", "choices", "usage"})
  }

  ghost predicate CarriesChoice(completion: Object, event: Json) {
    && Carries(completion, event) && "usage" !in event.fields
    && Field(event.fields, "choices").Arr? && |event.fields["choices"].items| == 1
  }

  ghost predicate CarriesUsage(completion: Object, event: Json) {
    && Carries(completion, event)
    && Has(event.fields, "usage") == Has(completion, "usage") && Has(event.fields, "choices") == Some(Arr([]))
  }

  ghost predicate WantsUsage(completion: Object, includeUsage: bool) {
    includeUsage && "usage" in completion && completion["usage"].Obj?
  }

  /** Two events for every choice, and behind them, if it was asked for and is there, one for the usage. */
  ghost predicate EventsCarry(completion: Object, includeUsage: bool, events: seq<Json>)
    requires WellFormed(completion)
  {
    var n := 2 * |completion["choices"].items|;
    && |events| == n + (if WantsUsage(completion, includeUsage) then 1 else 0)
    && (forall k :: 0 <= k < n ==> CarriesChoice(completion, events[k]))
    && (WantsUsage(completion, includeUsage) ==> CarriesUsage(completion, events[n]))
  }

  lemma OptionalIff(key: string)
    ensures IsOptional(key) <==> key in OPTIONAL_BASE
    ensures IsOptional(key) ==> key !in {"id", "model", "object", "choices", "usage"}
  {
    if IsOptional(key) {
      assert key == OPTIONAL_BASE[0] || key == OPTIONAL_BASE[1] || key == OPTIONAL_BASE[2] || key == OPTIONAL_BASE[3];
      assert |key| == 7 || |key| == 18 || |key| == 12 || |key| == 24;
      assert |"id"| == 2 && |"model"| == 5 && |"object"| == 6;
      if |key| == 7 {
        assert key[0] == 'c' && key[1] == 'r' && "choices"[1] == 'h';
      }
    }
  }

  lemma BaseHas(completion: Object, key: string)
    ensures IsOptional(key) ==> Has(ChunkBase(completion), key) == Has(completion, key)
    ensures key in ChunkBase(completion) ==> IsOptional(key) || key in {"id", "model", "object"}
  {
    OptionalIff(key);
  }

  lemma BaseCarries(completion: Object)
    ensures Carries(completion, Obj(ChunkBase(completion)))
    ensures "usage" !in ChunkBase(completion) && "choices" !in ChunkBase(completion)
  {
    forall key
      ensures IsOptional(key) ==> Has(ChunkBase(completion), key) == Has(completion, key)
      ensures key in ChunkBase(completion) ==> IsOptional(key) || key in {"id", "model", "object"}
    {
      BaseHas(completion, key);
    }
    OptionalIff("id");
    OptionalIff("model");
    OptionalIff("object");
    OptionalIff("usage");
    OptionalIff("choices");
  }

  lemma ChunkCarries(completion: Object, index: Json, delta: Object, finish: Json)
    ensures CarriesChoice(completion, ChunkOf(completion, index, delta, finish))
  {
    BaseCarries(completion);
    OptionalIff("choices");
  }

  ghost function CarryingChoice(completion: Object): Json -> bool {
    event => CarriesChoice(completion, event)
  }

  lemma {:induction false} AllEventsHold(expand: Expansion, choices: seq<Json>, n: nat, holds: Json -> bool)
    requires n <= |choices| && ExpandsUpTo(expand, choices, n)
    requires forall j :: 0 <= j < n ==> holds(expand(choices[j]).value.0) && holds(expand(choices[j]).value.1)
    ensures |EventsUpTo(expand, choices, n)| == 2 * n
    ensures forall k :: 0 <= k < 2 * n ==> holds(EventsUpTo(expand, choices, n)[k])
  {
    if n == 0 {
    } else {
      AllEventsHold(expand, choices, n - 1, holds);
    }
  }

  lemma ChoiceEventsCarry(completion: Object)
    requires WellFormed(completion)
    ensures var choices := completion["choices"].items;
      var events := EventsUpTo(Expand(completion), choices, |choices|);
      |events| == 2 * |choices| && forall k :: 0 <= k < |events| ==> CarryingChoice(completion)(events[k])
  {
    var choices, expand := completion["choices"].items, Expand(completion);
    forall j | 0 <= j < |choices|
      ensures CarryingChoice(completion)(expand(choices[j]).value.0)
      ensures CarryingChoice(completion)(expand(choices[j]).value.1)
    {
      var c := choices[j].fields;
      ChunkCarries(completion, c["index"], Delta(c["message"].fields), Null);
      ChunkCarries(completion, c["index"], map[], c["finish_reason"]);
    }
    AllEventsHold(expand, choices, |choices|, CarryingChoice(completion));
  }

  lemma UsageCarries(completion: Object, includeUsage: bool)
    ensures WantsUsage(completion, includeUsage) ==>
      && |UsageEvents(completion, includeUsage)| == 1
      && CarriesUsage(completion, UsageEvents(completion, includeUsage)[0])
    ensures !WantsUsage(completion, includeUsage) ==> UsageEvents(completion, includeUsage) == []
  {
    BaseCarries(completion);
    OptionalIff("choices");
    OptionalIff("usage");
  }

  lemma CarriedTogether(completion: Object, includeUsage: bool, first: seq<Json>, last: seq<Json>)
    requires WellFormed(completion) && |first| == 2 * |completion["choices"].items|
    requires forall k :: 0 <= k < |first| ==> CarryingChoice(completion)(first[k])
    requires WantsUsage(completion, includeUsage) ==> |last| == 1 && CarriesUsage(completion, last[0])
    requires !WantsUsage(completion, includeUsage) ==> last == []
    ensures EventsCarry(completion, includeUsage, first + last)
  {
    forall k | 0 <= k < |first| ensures CarriesChoice(completion, (first + last)[k]) {
      assert CarryingChoice(completion)(first[k]);
    }
  }

  /** Every event carries what it must, and the usage goes out last, once, if it goes out. */
  lemma EventsCarryAll(completion: Object, includeUsage: bool)
    requires WellFormed(completion)
    ensures EventsCarry(completion, includeUsage, Events(completion, includeUsage))
  {
    var choices := completion["choices"].items;
    ChoiceEventsCarry(completion);
    UsageCarries(completion, includeUsage);
    CarriedTogether(
      completion, includeUsage, EventsUpTo(Expand(completion), choices, |choices|),
      UsageEvents(completion, includeUsage));
  }

  /** From the completion to its bytes, and from the bytes to what the client holds. */
  method Deliver(
    read: string -> Option<Json>, print_: Json -> string, completion: Object, includeUsage: bool, maxBytes: Option<nat>)
    returns (replay: Result<seq<string>, Refusal>, events: seq<Json>, parts: seq<Part>)
    requires WellFormed(completion) ==>
      && OneLine(print_, Events(completion, includeUsage)) && Reads(read, print_, Events(completion, includeUsage))
    ensures replay.Success? <==>
      WellFormed(completion) && Within(maxBytes, Size(Stream(print_, completion, includeUsage)))
    ensures replay.Success? ==> parts == PartsOf(events) && EventsCarry(completion, includeUsage, events)
    ensures replay.Success? ==>
      (ComesBack(completion, parts) <==> DistinctIndices(Choices(completion)) && AllCallsFit(completion))
  {
    var received;
    replay, received := ReplayToClient(read, print_, completion, includeUsage, maxBytes);
    events, parts := [], [];
    if replay.Success? {
      events, parts := received.value, PartsOf(received.value);
      ComesBackIff(completion, includeUsage);
      EventsCarryAll(completion, includeUsage);
    }
  }
}
