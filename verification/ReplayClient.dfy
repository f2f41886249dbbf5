/**
  Reassembling a replayed completion (streaming.py): a client merges the deltas of each
  choice by index, and its tool calls by position.
*/
module ReplayClient {
  import opened JsonValues
  import opened Wrappers
  import opened Replay
  import opened Sets

  // ----- What a client reads in the events -----

  datatype Part = Part(index: int, delta: Object, finish: Json)

  /** The one choice of a choice chunk; None for an event without choices. */
  function ReadChoice(event: Json): Option<Part> {
    if !event.Obj? || !Field(event.fields, "choices").Arr? || |event.fields["choices"].items| != 1 then None
    else
      var choice := event.fields["choices"].items[0];
      if choice.Obj? && Field(choice.fields, "index").Int? && Field(choice.fields, "delta").Obj? then
        Some(Part(choice.fields["index"].number, choice.fields["delta"].fields, Field(choice.fields, "finish_reason")))
      else None
  }

  function PartsOf(events: seq<Json>): seq<Part> {
    if events == [] then [] else
      PartsOf(events[..|events| - 1])
        + match ReadChoice(events[|events| - 1]) case Some(part) => [part] case None => []
  }

  /** All deltas of one choice, merged in order. */
  function Merged(parts: seq<Part>, index: int): Object {
    if parts == [] then map[] else
      Merged(parts[..|parts| - 1], index)
        + if parts[|parts| - 1].index == index then parts[|parts| - 1].delta else map[]
  }

  function Finishes(parts: seq<Part>, index: int): seq<Json> {
    if parts == [] then [] else
      var last := parts[|parts| - 1];
      Finishes(parts[..|parts| - 1], index) + if last.index == index && !last.finish.Null? then [last.finish] else []
  }

  function IndicesSeen(parts: seq<Part>): set<int> {
    if parts == [] then {} else IndicesSeen(parts[..|parts| - 1]) + {parts[|parts| - 1].index}
  }

  // ----- What the serialiser sent -----

  /** A choice as the serialiser replays it. */
  datatype Choice = Choice(index: int, delta: Object, finish: Json)

  function ReadMessage(choice: Json): Choice
    requires ChoiceOk(choice)
  {
    Choice(choice.fields["index"].number, Delta(choice.fields["message"].fields), choice.fields["finish_reason"])
  }

  function Choices(completion: Object): seq<Choice>
    requires WellFormed(completion)
  {
    var choices := completion["choices"].items;
    seq(|choices|, i requires 0 <= i < |choices| => ReadMessage(choices[i]))
  }

  function Sent(choices: seq<Choice>): seq<Part> {
    if choices == [] then [] else
      var c := choices[|choices| - 1];
      Sent(choices[..|choices| - 1]) + [Part(c.index, c.delta, Null), Part(c.index, map[], c.finish)]
  }

  lemma ChunkIsRead(completion: Object, index: int, delta: Object, finish: Json)
    ensures ReadChoice(ChunkOf(completion, Int(index), delta, finish)) == Some(Part(index, delta, finish))
  {
    var choice := map["index" := Int(index), "delta" := Obj(delta), "finish_reason" := finish];
    assert Field(choice, "index") == Int(index) && Field(choice, "delta") == Obj(delta);
    assert Field(choice, "finish_reason") == finish;
  }

  /** The client reads the two events of a choice as its delta and its finish. */
  ghost predicate ReadsAs(events: Option<(Json, Json)>, c: Choice) {
    && events.Some?
    && ReadChoice(events.value.0) == Some(Part(c.index, c.delta, Null))
    && ReadChoice(events.value.1) == Some(Part(c.index, map[], c.finish))
  }

  lemma ChoiceIsRead(completion: Object, choice: Json)
    requires ChoiceOk(choice)
    ensures ReadsAs(Expand(completion)(choice), ReadMessage(choice))
  {
    var c := ReadMessage(choice);
    assert choice.fields["index"] == Int(c.index);
    ChunkIsRead(completion, c.index, c.delta, Null);
    ChunkIsRead(completion, c.index, map[], c.finish);
  }

  lemma PartsOneMore(events: seq<Json>, event: Json)
    ensures PartsOf(events + [event]) ==
      PartsOf(events) + match ReadChoice(event) case Some(part) => [part] case None => []
  {
    assert (events + [event])[..|events|] == events;
  }

  lemma TwoMoreParts(events: seq<Json>, delta: Json, finish: Json, c: Choice)
    requires ReadsAs(Some((delta, finish)), c)
    ensures PartsOf(events + [delta, finish]) ==
      PartsOf(events) + [Part(c.index, c.delta, Null), Part(c.index, map[], c.finish)]
  {
    PartsOneMore(events, delta);
    PartsOneMore(events + [delta], finish);
    assert events + [delta] + [finish] == events + [delta, finish];
  }

  lemma SentUpTo(choices: seq<Choice>, n: nat)
    requires n < |choices|
    ensures Sent(choices[..n + 1]) == Sent(choices[..n])
      + [Part(choices[n].index, choices[n].delta, Null), Part(choices[n].index, map[], choices[n].finish)]
  {
    assert choices[..n + 1][..n] == choices[..n];
  }

  lemma {:induction false} EventsAreSent(expand: Expansion, raw: seq<Json>, choices: seq<Choice>, n: nat)
    requires n <= |raw| == |choices| && ExpandsUpTo(expand, raw, n)
    requires forall i :: 0 <= i < |raw| ==> ReadsAs(expand(raw[i]), choices[i])
    ensures PartsOf(EventsUpTo(expand, raw, n)) == Sent(choices[..n])
  {
    if n == 0 {
    } else {
      EventsAreSent(expand, raw, choices, n - 1);
      var pair := expand(raw[n - 1]).value;
      assert ReadsAs(expand(raw[n - 1]), choices[n - 1]);
      TwoMoreParts(EventsUpTo(expand, raw, n - 1), pair.0, pair.1, choices[n - 1]);
      SentUpTo(choices, n - 1);
    }
  }

  lemma UsageIsNoChoice(completion: Object)
    ensures ReadChoice(Obj(ChunkBase(completion)["choices" := Arr([])]["usage" := Field(completion, "usage")])).None?
  {
  }

  /** The usage event carries no choice, so the client's parts are those of the choices. */
  lemma ClientSeesSent(completion: Object, includeUsage: bool)
    requires WellFormed(completion)
    ensures PartsOf(Events(completion, includeUsage)) == Sent(Choices(completion))
  {
    var raw, choices, expand := completion["choices"].items, Choices(completion), Expand(completion);
    forall i | 0 <= i < |raw| ensures ReadsAs(expand(raw[i]), choices[i]) {
      ChoiceIsRead(completion, raw[i]);
    }
    EventsAreSent(expand, raw, choices, |raw|);
    assert choices[..|raw|] == choices;
    var events := EventsUpTo(expand, raw, |raw|);
    UsageIsNoChoice(completion);
    if includeUsage && Field(completion, "usage").Obj? {
      PartsOneMore(events, UsageEvents(completion, includeUsage)[0]);
    } else {
      assert events + [] == events;
    }
  }

  // ----- Choices are told apart by their index -----

  predicate DistinctIndices(choices: seq<Choice>) {
    forall i, j :: 0 <= i < j < |choices| ==> choices[i].index != choices[j].index
  }

  lemma {:induction false} NothingOfOthers(choices: seq<Choice>, index: int)
    requires forall i :: 0 <= i < |choices| ==> choices[i].index != index
    ensures Merged(Sent(choices), index) == map[] && Finishes(Sent(choices), index) == []
  {
    if choices == [] {
    } else {
      var m := |choices| - 1;
      NothingOfOthers(choices[..m], index);
      SentOneMore(choices, index);
    }
  }

  lemma PartIsMerged(parts: seq<Part>, part: Part, index: int)
    ensures Merged(parts + [part], index) == Merged(parts, index) + (if part.index == index then part.delta else map[])
    ensures Finishes(parts + [part], index) ==
      Finishes(parts, index) + (if part.index == index && !part.finish.Null? then [part.finish] else [])
  {
    assert (parts + [part])[..|parts|] == parts;
  }

  lemma SentOneMore(choices: seq<Choice>, index: int)
    requires choices != []
    ensures var m := |choices| - 1; var c, before := choices[m], Sent(choices[..m]);
      && Merged(Sent(choices), index) == Merged(before, index) + (if c.index == index then c.delta else map[])
      && Finishes(Sent(choices), index) ==
           Finishes(before, index) + (if c.index == index && !c.finish.Null? then [c.finish] else [])
  {
    var m := |choices| - 1;
    var c, before := choices[m], Sent(choices[..m]);
    var first, second := Part(c.index, c.delta, Null), Part(c.index, map[], c.finish);
    PartIsMerged(before, first, index);
    PartIsMerged(before + [first], second, index);
    assert before + [first, second] == before + [first] + [second];
  }

  /** With distinct indices, merging by index gives every choice its own delta and its one finish. */
  lemma {:induction false} EachChoiceIsRebuilt(choices: seq<Choice>, k: nat)
    requires DistinctIndices(choices) && k < |choices| && !choices[k].finish.Null?
    ensures Merged(Sent(choices), choices[k].index) == choices[k].delta
    ensures Finishes(Sent(choices), choices[k].index) == [choices[k].finish]
  {
    var m := |choices| - 1;
    SentOneMore(choices, choices[k].index);
    if k == m {
      NothingOfOthers(choices[..m], choices[k].index);
      assert map[] + choices[k].delta == choices[k].delta;
    } else {
      EachChoiceIsRebuilt(choices[..m], k);
      assert choices[..m][k] == choices[k];
      assert choices[k].delta + map[] == choices[k].delta;
    }
  }

  function Indices(choices: seq<Choice>): set<int> {
    if choices == [] then {} else Indices(choices[..|choices| - 1]) + {choices[|choices| - 1].index}
  }

  lemma {:induction false} SentIndices(choices: seq<Choice>)
    ensures IndicesSeen(Sent(choices)) == Indices(choices)
  {
    if choices == [] {
    } else {
      var m := |choices| - 1;
      SentIndices(choices[..m]);
      var before, all := Sent(choices[..m]), Sent(choices);
      assert all[..|before| + 1][..|before|] == before;
      assert all[..|all| - 1] == all[..|before| + 1];
    }
  }

  lemma {:induction false} InIndices(choices: seq<Choice>, index: int)
    ensures index in Indices(choices) <==> exists i :: 0 <= i < |choices| && choices[i].index == index
  {
    if choices == [] {
    } else {
      var m := |choices| - 1;
      InIndices(choices[..m], index);
      if index in Indices(choices[..m]) {
        var i :| 0 <= i < m && choices[..m][i].index == index;
        assert choices[i].index == index;
      }
      forall i | 0 <= i < m && choices[i].index == index ensures index in Indices(choices) {
        assert choices[..m][i].index == index;
      }
    }
  }

  lemma {:induction false} FewerIndicesThanChoices(choices: seq<Choice>)
    ensures |Indices(choices)| <= |choices|
    ensures |Indices(choices)| == |choices| <==> DistinctIndices(choices)
  {
    if choices == [] {
    } else {
      var m := |choices| - 1;
      var before, last := choices[..m], choices[m].index;
      FewerIndicesThanChoices(before);
      InIndices(before, last);
      assert forall i :: 0 <= i < m ==> before[i] == choices[i];
      if last in Indices(before) {
        assert Indices(choices) == Indices(before);
        var i :| 0 <= i < m && before[i].index == last;
        assert choices[i].index == choices[m].index;
      }
    }
  }

  // ----- The message comes back without its null fields -----

  /** Every field but the tool calls is the message's own, and exactly the null ones are gone. */
  lemma DeltaIsMessage(message: Object, key: string)
    requires ToolCallsOk(Field(message, "tool_calls"))
    ensures key in Delta(message) <==> !Field(message, key).Null?
    ensures key in Delta(message) && key != "tool_calls" ==> Delta(message)[key] == message[key]
    ensures "tool_calls" in Delta(message) ==>
      Delta(message)["tool_calls"] == Arr(NumberedCalls(message["tool_calls"].items))
  {
  }

  // ----- Tool calls come back by position -----

  function Without(call: Object, key: string): Object {
    map k | k in call && k != key :: call[k]
  }

  /** How a client files the entries of a tool-call list: under their "index", merging entries with the same one. */
  function Placed(entries: seq<Json>, n: nat): map<int, Object>
    requires n <= |entries|
  {
    if n == 0 then map[] else
      var before, entry := Placed(entries, n - 1), entries[n - 1];
      if entry.Obj? && Field(entry.fields, "index").Int? then
        var at := entry.fields["index"].number;
        before[at := (if at in before then before[at] else map[]) + Without(entry.fields, "index")]
      else before
  }

  /** Where a call is filed: under its own "index", which must be a whole number, or under its position. */
  function PlaceOf(call: Object, position: int): Option<int> {
    if "index" !in call then Some(position)
    else if call["index"].Int? then Some(call["index"].number)
    else None
  }

  predicate AllObjects(calls: seq<Json>) {
    forall j :: 0 <= j < |calls| ==> calls[j].Obj?
  }

  function Places(calls: seq<Json>): seq<Option<int>>
    requires AllObjects(calls)
  {
    seq(|calls|, j requires 0 <= j < |calls| => PlaceOf(calls[j].fields, j))
  }

  function Bodies(calls: seq<Json>): seq<Object>
    requires AllObjects(calls)
  {
    seq(|calls|, j requires 0 <= j < |calls| => Without(calls[j].fields, "index"))
  }

  /** The filing, read off the upstream calls. */
  function Filed(places: seq<Option<int>>, bodies: seq<Object>, n: nat): map<int, Object>
    requires n <= |places| == |bodies|
  {
    if n == 0 then map[] else
      var before := Filed(places, bodies, n - 1);
      match places[n - 1]
      case None => before
      case Some(at) => before[at := (if at in before then before[at] else map[]) + bodies[n - 1]]
  }

  /** A numbered entry shows the place and the body of its call. */
  predicate EntryShows(entry: Json, place: Option<int>, body: Object) {
    && entry.Obj? && Without(entry.fields, "index") == body
    && match place
       case Some(at) => Field(entry.fields, "index") == Int(at)
       case None => !Field(entry.fields, "index").Int?
  }

  lemma EntryIsNumbered(calls: seq<Json>, j: nat)
    requires AllObjects(calls) && j < |calls|
    ensures EntryShows(NumberedCalls(calls)[j], Places(calls)[j], Bodies(calls)[j])
  {
  }

  lemma {:induction false} ShownIsFiled(entries: seq<Json>, places: seq<Option<int>>, bodies: seq<Object>, n: nat)
    requires n <= |entries| == |places| == |bodies|
    requires forall j :: 0 <= j < n ==> EntryShows(entries[j], places[j], bodies[j])
    ensures Placed(entries, n) == Filed(places, bodies, n)
  {
    if n == 0 {
      assert Placed(entries, 0) == map[];
    } else {
      ShownIsFiled(entries, places, bodies, n - 1);
      assert EntryShows(entries[n - 1], places[n - 1], bodies[n - 1]);
    }
  }

  lemma PlacedIsFiled(calls: seq<Json>)
    requires AllObjects(calls)
    ensures Placed(NumberedCalls(calls), |calls|) == Filed(Places(calls), Bodies(calls), |calls|)
  {
    var entries, places, bodies := NumberedCalls(calls), Places(calls), Bodies(calls);
    forall j | 0 <= j < |calls| ensures EntryShows(entries[j], places[j], bodies[j]) {
      EntryIsNumbered(calls, j);
    }
    ShownIsFiled(entries, places, bodies, |calls|);
  }

  /** All bodies filed under one place, merged in order. */
  function MergedAt(places: seq<Option<int>>, bodies: seq<Object>, at: int, n: nat): Object
    requires n <= |places| == |bodies|
  {
    if n == 0 then map[] else
      MergedAt(places, bodies, at, n - 1) + if places[n - 1] == Some(at) then bodies[n - 1] else map[]
  }

  ghost predicate Used(places: seq<Option<int>>, at: int, n: nat)
    requires n <= |places|
  {
    exists j :: 0 <= j < n && places[j] == Some(at)
  }

  lemma {:induction false} FiledIsMerge(places: seq<Option<int>>, bodies: seq<Object>, at: int, n: nat)
    requires n <= |places| == |bodies|
    ensures at in Filed(places, bodies, n) <==> Used(places, at, n)
    ensures MergedAt(places, bodies, at, n) ==
      if at in Filed(places, bodies, n) then Filed(places, bodies, n)[at] else map[]
  {
    if n == 0 {
      assert !Used(places, at, 0);
    } else {
      FiledIsMerge(places, bodies, at, n - 1);
      assert Used(places, at, n) <==> Used(places, at, n - 1) || places[n - 1] == Some(at);
      var before := MergedAt(places, bodies, at, n - 1);
      assert before + map[] == before;
    }
  }

  /** At every place the client holds all the calls filed there, merged in order: calls with one place become one. */
  lemma CallsAreMerged(calls: seq<Json>, at: int)
    requires AllObjects(calls)
    ensures var placed := Placed(NumberedCalls(calls), |calls|);
      && (at in placed <==> Used(Places(calls), at, |calls|))
      && (at in placed ==> placed[at] == MergedAt(Places(calls), Bodies(calls), at, |calls|))
  {
    PlacedIsFiled(calls);
    FiledIsMerge(Places(calls), Bodies(calls), at, |calls|);
  }

  // ----- When the calls come back exactly -----

  /** Each of the first n calls has a place, and one that no earlier call has. */
  ghost predicate Apart(places: seq<Option<int>>, n: nat)
    requires n <= |places|
  {
    n == 0 || (Apart(places, n - 1) && places[n - 1].Some? && !Used(places, places[n - 1].value, n - 1))
  }

  function PlaceSet(places: seq<Option<int>>, n: nat): set<int>
    requires n <= |places|
  {
    if n == 0 then {} else
      PlaceSet(places, n - 1) + match places[n - 1] case Some(at) => {at} case None => {}
  }

  lemma {:induction false} InPlaceSet(places: seq<Option<int>>, at: int, n: nat)
    requires n <= |places|
    ensures at in PlaceSet(places, n) <==> Used(places, at, n)
  {
    if n == 0 {
      assert !Used(places, at, 0);
    } else {
      InPlaceSet(places, at, n - 1);
      assert Used(places, at, n) <==> Used(places, at, n - 1) || places[n - 1] == Some(at);
    }
  }

  lemma {:induction false} FewerPlacesThanCalls(places: seq<Option<int>>, n: nat)
    requires n <= |places|
    ensures |PlaceSet(places, n)| <= n
    ensures |PlaceSet(places, n)| == n <==> Apart(places, n)
  {
    if n == 0 {
      assert Apart(places, 0);
    } else {
      FewerPlacesThanCalls(places, n - 1);
      if places[n - 1].Some? {
        InPlaceSet(places, places[n - 1].value, n - 1);
      }
    }
  }

  lemma FiledAtPlaces(places: seq<Option<int>>, bodies: seq<Object>)
    requires |places| == |bodies|
    ensures Filed(places, bodies, |places|).Keys == PlaceSet(places, |places|)
  {
    forall at ensures at in Filed(places, bodies, |places|) <==> at in PlaceSet(places, |places|) {
      FiledIsMerge(places, bodies, at, |places|);
      InPlaceSet(places, at, |places|);
    }
  }

  lemma {:induction false} ApartIsFiledWhole(places: seq<Option<int>>, bodies: seq<Object>, n: nat, j: nat)
    requires j < n <= |places| == |bodies| && Apart(places, n)
    ensures places[j].Some? && places[j].value in Filed(places, bodies, n)
    ensures Filed(places, bodies, n)[places[j].value] == bodies[j]
  {
    if j == n - 1 {
      FiledIsMerge(places, bodies, places[j].value, n - 1);
      assert map[] + bodies[j] == bodies[j];
    } else {
      ApartIsFiledWhole(places, bodies, n - 1, j);
      assert Used(places, places[j].value, n - 1);
    }
  }

  /** Exactly the positions of the calls are filled, each with the body of its call. */
  ghost predicate Rebuilt(placed: map<int, Object>, bodies: seq<Object>) {
    && placed.Keys == UpTo(|bodies|)
    && forall k :: 0 <= k < |bodies| ==> placed[k] == bodies[k]
  }

  /** Distinct places among the positions of the calls, each belonging to an equal call. */
  ghost predicate PlacesFit(places: seq<Option<int>>, bodies: seq<Object>)
    requires |places| == |bodies|
  {
    Apart(places, |places|) && forall j :: 0 <= j < |places| ==> Fits(places, bodies, j)
  }

  /** The call is filed at the position of an equal one. */
  predicate Fits(places: seq<Option<int>>, bodies: seq<Object>, j: nat)
    requires j < |places| == |bodies|
  {
    places[j].Some? && 0 <= places[j].value < |places| && bodies[places[j].value] == bodies[j]
  }

  lemma FittingIsRebuilt(places: seq<Option<int>>, bodies: seq<Object>)
    requires |places| == |bodies| && PlacesFit(places, bodies)
    ensures Rebuilt(Filed(places, bodies, |places|), bodies)
  {
    var n := |places|;
    var filed := Filed(places, bodies, n);
    FiledAtPlaces(places, bodies);
    forall at | at in filed.Keys ensures at in UpTo(n) && filed[at] == bodies[at] {
      InPlaceSet(places, at, n);
      var j :| 0 <= j < n && places[j] == Some(at);
      ApartIsFiledWhole(places, bodies, n, j);
      assert Fits(places, bodies, j);
    }
    FewerPlacesThanCalls(places, n);
    FullSubset(filed.Keys, UpTo(n));
  }

  lemma RebuiltMeansFitting(places: seq<Option<int>>, bodies: seq<Object>)
    requires |places| == |bodies| && Rebuilt(Filed(places, bodies, |places|), bodies)
    ensures PlacesFit(places, bodies)
  {
    var n := |places|;
    FiledAtPlaces(places, bodies);
    FewerPlacesThanCalls(places, n);
    forall j | 0 <= j < n ensures Fits(places, bodies, j) {
      ApartIsFiledWhole(places, bodies, n, j);
      assert places[j].value in UpTo(n);
    }
  }

  /**
    The client gets back every call at its position, and nothing else, exactly when the
    places are distinct positions and every call is filed at the position of an equal one.
  */
  lemma CallsAreRebuiltIff(calls: seq<Json>)
    requires AllObjects(calls)
    ensures Rebuilt(Placed(NumberedCalls(calls), |calls|), Bodies(calls)) <==> PlacesFit(Places(calls), Bodies(calls))
  {
    PlacedIsFiled(calls);
    if PlacesFit(Places(calls), Bodies(calls)) {
      FittingIsRebuilt(Places(calls), Bodies(calls));
    }
    if Rebuilt(Placed(NumberedCalls(calls), |calls|), Bodies(calls)) {
      RebuiltMeansFitting(Places(calls), Bodies(calls));
    }
  }

  /** The client sees as many calls as there are exactly when all have places, and distinct ones. */
  lemma AllCallsAreSeenIff(calls: seq<Json>)
    requires AllObjects(calls)
    ensures |Placed(NumberedCalls(calls), |calls|).Keys| == |calls| <==> Apart(Places(calls), |calls|)
  {
    PlacedIsFiled(calls);
    FiledAtPlaces(Places(calls), Bodies(calls));
    FewerPlacesThanCalls(Places(calls), |calls|);
  }

  lemma {:induction false} OwnPositionsAreApart(places: seq<Option<int>>, n: nat)
    requires n <= |places| && forall j :: 0 <= j < n ==> places[j] == Some(j)
    ensures Apart(places, n)
  {
    if n == 0 {
      assert Apart(places, 0);
    } else {
      OwnPositionsAreApart(places, n - 1);
    }
  }

  /** So calls without an "index" of their own always come back. */
  lemma PlainCallsAreRebuilt(calls: seq<Json>)
    requires AllObjects(calls) && forall j :: 0 <= j < |calls| ==> "index" !in calls[j].fields
    ensures Rebuilt(Placed(NumberedCalls(calls), |calls|), Bodies(calls))
  {
    var places := Places(calls);
    PlacedIsFiled(calls);
    forall j | 0 <= j < |calls| ensures places[j] == Some(j) {}
    OwnPositionsAreApart(places, |calls|);
    FittingIsRebuilt(places, Bodies(calls));
  }

  lemma TwoAtOnePlace(first: Object, second: Object)
    ensures Filed([Some(0), Some(0)], [first, second], 2) == map[0 := first + second]
  {
    assert map[] + first == first;
    assert Filed([Some(0), Some(0)], [first, second], 1) == map[0 := first];
  }

  /** A call that brings the index of the first one is merged into it, and one call is lost. */
  lemma ForeignIndexMergesCalls(first: Object, second: Object)
    requires "index" !in first && "index" !in second
    ensures var calls := [Obj(first), Obj(second["index" := Int(0)])];
      Placed(NumberedCalls(calls), 2) == map[0 := first + second]
  {
    var calls := [Obj(first), Obj(second["index" := Int(0)])];
    assert Without(first, "index") == first && Without(second["index" := Int(0)], "index") == second;
    assert Bodies(calls) == [first, second];
    assert Places(calls) == [Some(0), Some(0)];
    PlacedIsFiled(calls);
    TwoAtOnePlace(first, second);
  }

  // ----- The round trip -----

  /**
    Whatever completion is replayed, its choices have distinct indices exactly when the
    client sees as many choices as there are; and then each choice comes back as its message
    without null fields, with its own finish reason, once.
  */
  lemma ReplayRoundTrip(completion: Object, includeUsage: bool, k: nat)
    requires WellFormed(completion) && k < |completion["choices"].items|
    ensures var parts, choices := PartsOf(Events(completion, includeUsage)), Choices(completion);
      && (|IndicesSeen(parts)| == |choices| <==> DistinctIndices(choices))
      && (DistinctIndices(choices) ==>
            && Merged(parts, choices[k].index) == choices[k].delta
            && Finishes(parts, choices[k].index) == [choices[k].finish])
  {
    ClientSeesSent(completion, includeUsage);
    SentIndices(Choices(completion));
    FewerIndicesThanChoices(Choices(completion));
    if DistinctIndices(Choices(completion)) {
      assert ChoiceOk(completion["choices"].items[k]);
      EachChoiceIsRebuilt(Choices(completion), k);
    }
  }
}
