/**
  The evidence chain of a qualification campaign (qualification_campaign.py): numbering of
  stages, event records, and when a directory of events and heads can be loaded again.

  A digest stands for SHA-256 over the canonical bytes of an event; it is any function, and
  the lemmas that need it say that it is injective.
*/
module CampaignChain {
  import opened Wrappers

  datatype Version = V1 | V2
  datatype Stage = Preflight | ScoreDirect | ScoreProxy
  datatype Status = Passed | Failed | Interrupted
  datatype Slot = Slot(ordinal: nat, lane: string, pair: nat)

  datatype Spec = Spec(version: Version, manifest: string, campaignId: string, slots: seq<Slot>)

  function EventCount(spec: Spec): nat {
    if spec.version.V2? then 17 else 13
  }

  /** A manifest lists six slots, or eight in the second version, numbered from one. */
  predicate Proper(spec: Spec) {
    && |spec.slots| == (if spec.version.V1? then 6 else 8)
    && forall i :: 0 <= i < |spec.slots| ==> spec.slots[i].ordinal == i + 1
  }

  // ----- Sequence numbers and stages -----

  datatype Request = Request(sequence: int, slot: Slot, stage: Stage)

  const PREFLIGHT_SLOT := Slot(0, "preflight", 0)

  function StageRequest(spec: Spec, sequence: int): Option<Request>
    requires Proper(spec)
  {
    if sequence == 1 then Some(Request(1, PREFLIGHT_SLOT, Preflight))
    else if 2 <= sequence <= EventCount(spec) then
      var offset := sequence - 2;
      Some(Request(sequence, spec.slots[offset / 2], if offset % 2 == 0 then ScoreDirect else ScoreProxy))
    else None
  }

  /** The runtime's own check of a request: it derives the sequence number back from slot and stage. */
  predicate StageBinds(spec: Spec, q: Request)
    requires Proper(spec)
  {
    if q.stage.Preflight? then q.sequence == 1 && q.slot == PREFLIGHT_SLOT
    else
      && 1 <= q.slot.ordinal <= |spec.slots| && q.slot == spec.slots[q.slot.ordinal - 1]
      && q.sequence == 2 + (q.slot.ordinal - 1) * 2 + if q.stage.ScoreDirect? then 0 else 1
  }

  /** The two numberings are inverse: a request binds exactly when it is the request of its number. */
  lemma BindingInvertsRequest(spec: Spec, q: Request)
    requires Proper(spec)
    ensures StageBinds(spec, q) <==> StageRequest(spec, q.sequence) == Some(q)
  {
    if StageBinds(spec, q) && !q.stage.Preflight? {
      var offset := q.sequence - 2;
      assert offset / 2 == q.slot.ordinal - 1;
    }
  }

  // ----- Results and events -----

  datatype StageResult = StageResult(
    status: Status, failureCategory: Option<string>, outcome: string, evidenceMatches: bool,
    instance: Option<string>, reconciliation: Option<string>, modelIdentity: Option<string>)

  datatype Event = Event(
    manifest: string, campaignId: string, sequence: int, slot: Slot, stage: Stage,
    status: Status, failureCategory: Option<string>, outcome: Option<string>, instance: Option<string>,
    reconciliation: Option<string>, previous: Option<nat>,
    predecessor: Option<string>, modelIdentity: Option<string>)

  datatype Head = Head(sequence: int, digest: nat)

  datatype File<T> = File(name: int, document: T)

  const PARTIAL_STAGE := "campaign_partial_stage"

  predicate IsSha(s: string) {
    |s| == 64 && forall i :: 0 <= i < 64 ==> '0' <= s[i] <= '9' || 'a' <= s[i] <= 'f'
  }

  predicate IsCategory(s: string) {
    1 <= |s| <= 64 && forall i :: 0 <= i < |s| ==> 'a' <= s[i] <= 'z' || '0' <= s[i] <= '9' || s[i] == '_'
  }

  predicate ValidResult(q: Request, r: StageResult) {
    && (r.status.Passed? <==> r.failureCategory.None?)
    && (r.failureCategory.Some? ==> IsCategory(r.failureCategory.value))
    && IsSha(r.outcome) && r.evidenceMatches
    && (r.instance.Some? ==> IsSha(r.instance.value))
    && (r.status.Passed? ==> r.instance.Some?)
    && (r.reconciliation.Some? ==> IsSha(r.reconciliation.value))
    && (r.status.Passed? ==> (q.stage.ScoreProxy? <==> r.reconciliation.Some?))
    && (!q.stage.ScoreProxy? ==> r.reconciliation.None?)
  }

  function PartialRecord(spec: Spec, q: Request, previous: Option<nat>): Event {
    Event(spec.manifest, spec.campaignId, q.sequence, q.slot, q.stage, Failed, Some(PARTIAL_STAGE),
          None, None, None, previous, None, None)
  }

  /** The event of a finished stage, unless the second version's extra requirements are not met. */
  function EventRecord(
    spec: Spec, q: Request, r: StageResult, previous: Option<nat>, predecessor: Option<string>): Option<Event> {
    var event := Event(spec.manifest, spec.campaignId, q.sequence, q.slot, q.stage, r.status, r.failureCategory,
                       Some(r.outcome), r.instance, r.reconciliation, previous, None, None);
    if spec.version.V1? then Some(event)
    else if !q.stage.Preflight?
      && ((r.modelIdentity.Some? && !IsSha(r.modelIdentity.value)) || (r.status.Passed? && r.modelIdentity.None?))
    then None
    else if q.stage.ScoreProxy? && (predecessor.None? || !IsSha(predecessor.value)) then None
    else Some(event.(predecessor := predecessor, modelIdentity := r.modelIdentity))
  }

  // ----- What is on disk, and when it can be loaded -----

  /** What inspecting the directory of a stage can find. */
  datatype Inspection = Absent | Complete(result: StageResult) | Partial | Contradictory

  type Stages = map<int, Inspection>

  function Inspect(stages: Stages, sequence: int): Inspection {
    if sequence in stages then stages[sequence] else Absent
  }

  predicate Named<T>(files: seq<File<T>>) {
    forall i :: 0 <= i < |files| ==> files[i].name == i + 1
  }

  /** The digest that the event after the first n ones points back to. */
  function DigestBefore(hash: Event -> nat, events: seq<File<Event>>, n: nat): Option<nat>
    requires n <= |events|
  {
    if n == 0 then None else Some(hash(events[n - 1].document))
  }

  function Predecessor(spec: Spec, q: Request, events: seq<File<Event>>, n: nat): Option<string>
    requires n <= |events|
  {
    if spec.version.V2? && q.stage.ScoreProxy? && n > 0 then events[n - 1].document.outcome else None
  }

  /** What the loader expects the (n+1)-st event to be, seeing only its failure category and the stage's evidence. */
  function Expected(
    spec: Spec, hash: Event -> nat, stages: Stages, events: seq<File<Event>>, n: nat,
    category: Option<string>): Option<Event>
    requires Proper(spec) && n <= |events|
  {
    var request := StageRequest(spec, n + 1);
    if request.None? then None
    else if category == Some(PARTIAL_STAGE) then Some(PartialRecord(spec, request.value, DigestBefore(hash, events, n)))
    else
      var inspection := Inspect(stages, n + 1);
      if !inspection.Complete? || !ValidResult(request.value, inspection.result) then None
      else EventRecord(spec, request.value, inspection.result, DigestBefore(hash, events, n),
                       Predecessor(spec, request.value, events, n))
  }

  predicate EventLoads(spec: Spec, hash: Event -> nat, stages: Stages, events: seq<File<Event>>, n: nat)
    requires Proper(spec) && n < |events|
  {
    Expected(spec, hash, stages, events, n, events[n].document.failureCategory) == Some(events[n].document)
  }

  predicate HeadLoads(hash: Event -> nat, events: seq<File<Event>>, heads: seq<File<Head>>, n: nat)
    requires n < |events|
  {
    if n < |heads| then heads[n].document == Head(n + 1, hash(events[n].document)) else n == |events| - 1
  }

  /** The event repeats no model instance of an earlier one. */
  predicate InstanceNew(events: seq<File<Event>>, n: nat)
    requires n < |events|
  {
    events[n].document.instance.Some? ==>
      forall j :: 0 <= j < n ==> events[j].document.instance != events[n].document.instance
  }

  predicate ListingOk(spec: Spec, events: seq<File<Event>>, heads: seq<File<Head>>) {
    && Named(events) && |events| <= EventCount(spec)
    && Named(heads) && (|heads| == |events| || |heads| + 1 == |events|)
  }

  predicate LoadsAt(
    spec: Spec, hash: Event -> nat, stages: Stages, events: seq<File<Event>>, heads: seq<File<Head>>, n: nat)
    requires Proper(spec) && n < |events|
  {
    EventLoads(spec, hash, stages, events, n) && HeadLoads(hash, events, heads, n) && InstanceNew(events, n)
  }

  predicate Loadable(spec: Spec, hash: Event -> nat, stages: Stages, events: seq<File<Event>>, heads: seq<File<Head>>)
    requires Proper(spec)
  {
    && ListingOk(spec, events, heads)
    && forall n :: 0 <= n < |events| ==> LoadsAt(spec, hash, stages, events, heads, n)
  }

  function Instances(events: seq<File<Event>>): set<string> {
    set i | 0 <= i < |events| && events[i].document.instance.Some? :: events[i].document.instance.value
  }

  /** Adding one event, with its head or not, makes no difference to the earlier ones. */
  lemma EarlierEventsStillLoad(
    spec: Spec, hash: Event -> nat, stages: Stages, events: seq<File<Event>>, heads: seq<File<Head>>,
    added: File<Event>, heads': seq<File<Head>>, n: nat)
    requires Proper(spec) && n < |events| == |heads| && LoadsAt(spec, hash, stages, events, heads, n)
    requires heads <= heads'
    ensures LoadsAt(spec, hash, stages, events + [added], heads', n)
  {
    var longer := events + [added];
    assert forall i :: 0 <= i < |events| ==> longer[i] == events[i];
  }

  /**
    The event just written for a valid result loads again exactly when the result does not
    carry the category reserved for partial stages.
  */
  lemma WrittenEventLoadsIff(
    spec: Spec, hash: Event -> nat, stages: Stages, events: seq<File<Event>>, r: StageResult, event: Event)
    requires Proper(spec) && |events| < EventCount(spec)
    requires StageRequest(spec, |events| + 1).Some? && Inspect(stages, |events| + 1) == Complete(r)
    requires var q := StageRequest(spec, |events| + 1).value;
      && ValidResult(q, r)
      && EventRecord(spec, q, r, DigestBefore(hash, events, |events|), Predecessor(spec, q, events, |events|))
         == Some(event)
    ensures EventLoads(spec, hash, stages, events + [File(|events| + 1, event)], |events|)
      <==> r.failureCategory != Some(PARTIAL_STAGE)
  {
    var longer := events + [File(|events| + 1, event)];
    assert DigestBefore(hash, longer, |events|) == DigestBefore(hash, events, |events|);
    var q := StageRequest(spec, |events| + 1).value;
    assert Predecessor(spec, q, longer, |events|) == Predecessor(spec, q, events, |events|);
    assert longer[|events|].document == event;
  }

  /** The reserved category is one a stage result may carry, so the exception does occur. */
  lemma ReservedCategoryIsAllowed(q: Request, r: StageResult)
    requires q.stage.Preflight?
    requires r == StageResult(Failed, Some(PARTIAL_STAGE), r.outcome, true, None, None, None) && IsSha(r.outcome)
    ensures ValidResult(q, r)
  {
    assert forall i :: 0 <= i < |PARTIAL_STAGE| ==> 'a' <= PARTIAL_STAGE[i] <= 'z' || PARTIAL_STAGE[i] == '_';
  }

  // ----- The chain under an injective digest -----

  ghost predicate Injective(hash: Event -> nat) {
    forall a, b :: hash(a) == hash(b) ==> a == b
  }

  /** Every event points back to the digest of the one before it. */
  predicate Linked(hash: Event -> nat, events: seq<File<Event>>) {
    events == [] || (
      var n := |events| - 1;
      && events[n].name == n + 1 && events[n].document.previous == DigestBefore(hash, events, n)
      && Linked(hash, events[..n]))
  }

  lemma {:induction false} LoadedPrefixIsLinked(
    spec: Spec, hash: Event -> nat, stages: Stages, events: seq<File<Event>>, n: nat)
    requires Proper(spec) && Named(events) && n <= |events|
    requires forall i :: 0 <= i < n ==> EventLoads(spec, hash, stages, events, i)
    ensures Linked(hash, events[..n])
  {
    if n == 0 {
    } else {
      assert EventLoads(spec, hash, stages, events, n - 1);
      LoadedPrefixIsLinked(spec, hash, stages, events, n - 1);
      assert events[..n][..n - 1] == events[..n - 1];
    }
  }

  lemma LoadableIsLinked(
    spec: Spec, hash: Event -> nat, stages: Stages, events: seq<File<Event>>, heads: seq<File<Head>>)
    requires Proper(spec) && Loadable(spec, hash, stages, events, heads)
    ensures Linked(hash, events)
  {
    forall i | 0 <= i < |events| ensures EventLoads(spec, hash, stages, events, i) {
      assert LoadsAt(spec, hash, stages, events, heads, i);
    }
    LoadedPrefixIsLinked(spec, hash, stages, events, |events|);
    assert events[..|events|] == events;
  }

  /** The digest of the last event determines every event of the chain. */
  lemma {:induction false} HeadDeterminesChain(hash: Event -> nat, a: seq<File<Event>>, b: seq<File<Event>>)
    requires Injective(hash) && Linked(hash, a) && Linked(hash, b)
    requires DigestBefore(hash, a, |a|) == DigestBefore(hash, b, |b|)
    ensures a == b
    decreases |a|
  {
    if a == [] {
    } else {
      var m, n := |a| - 1, |b| - 1;
      assert a[m].document == b[n].document;
      HeadDeterminesChain(hash, a[..m], b[..n]);
      assert a == a[..m] + [a[m]] && b == b[..n] + [b[n]];
    }
  }
}
