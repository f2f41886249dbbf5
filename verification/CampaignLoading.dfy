/**
  When a campaign directory can be loaded again (qualification_campaign.py): histories that
  start with an empty directory, under honest stages and under the reserved category.
*/
module CampaignLoading {
  import opened Wrappers
  import opened CampaignChain
  import opened Campaign
  import opened CampaignHistory

  // ----- Any campaign -----

  /** Whatever happens to a campaign from its first day on, its directories are sound and only grow. */
  lemma CampaignsAreSound(spec: Spec, hash: Event -> nat, occasions: seq<Occasion>, i: nat, j: nat)
    requires Proper(spec) && i <= j <= |occasions|
    ensures Inv(spec, hash, DiskAfter(spec, hash, EMPTY_DISK, occasions, j))
    ensures Keeps(DiskAfter(spec, hash, EMPTY_DISK, occasions, i), DiskAfter(spec, hash, EMPTY_DISK, occasions, j))
  {
    EmptyIsSound(spec, hash);
    HistoryOnlyGrows(spec, hash, EMPTY_DISK, occasions, i, j);
  }

  ghost predicate AllEventsLoad(spec: Spec, hash: Event -> nat, stages: Stages, events: seq<File<Event>>)
    requires Proper(spec)
  {
    forall n :: 0 <= n < |events| ==> EventLoads(spec, hash, stages, events, n)
  }

  /** A sound directory loads exactly when the evidence of the stages yields every event again. */
  lemma SoundLoadsIff(spec: Spec, hash: Event -> nat, d: Disk)
    requires Proper(spec) && Inv(spec, hash, d)
    ensures Loads(spec, hash, d) <==> AllEventsLoad(spec, hash, d.stages, d.events)
  {
    if AllEventsLoad(spec, hash, d.stages, d.events) {
      forall n | 0 <= n < |d.events| ensures LoadsAt(spec, hash, d.stages, d.events, d.heads, n) {
        assert InstanceNew(d.events, n);
      }
    } else {
      var n :| 0 <= n < |d.events| && !EventLoads(spec, hash, d.stages, d.events, n);
      assert !LoadsAt(spec, hash, d.stages, d.events, d.heads, n);
    }
  }

  // ----- Honest stages -----

  predicate Unreserved(i: Inspection) {
    i.Complete? ==> i.result.failureCategory != Some(PARTIAL_STAGE)
  }

  ghost predicate NoneReserved(stages: Stages) {
    forall s :: Unreserved(Inspect(stages, s))
  }

  ghost predicate CompletesStay(stages: Stages, stages': Stages) {
    forall s :: Inspect(stages, s).Complete? ==> Inspect(stages', s) == Inspect(stages, s)
  }

  /**
    A run that returns a result leaves it as complete evidence, evidence stays, and no result
    uses the reserved category.
  */
  ghost predicate Honest(d: Disk, o: Occasion) {
    match o
    case Advancing(inputs) =>
      && (inputs.runReturns.Some? ==> inputs.runLeaves == Complete(inputs.runReturns.value))
      && Unreserved(inputs.runLeaves)
    case Altering(stages) => CompletesStay(d.stages, stages) && NoneReserved(stages)
  }

  ghost predicate HonestHistory(spec: Spec, hash: Event -> nat, occasions: seq<Occasion>)
    requires Proper(spec)
  {
    forall k :: 0 <= k < |occasions| ==> Honest(DiskAfter(spec, hash, EMPTY_DISK, occasions, k), occasions[k])
  }

  ghost predicate Evident(spec: Spec, hash: Event -> nat, d: Disk)
    requires Proper(spec)
  {
    Inv(spec, hash, d) && AllEventsLoad(spec, hash, d.stages, d.events) && NoneReserved(d.stages)
  }

  lemma EventStillLoads(
    spec: Spec, hash: Event -> nat, stages: Stages, stages': Stages, events: seq<File<Event>>,
    events': seq<File<Event>>, n: nat)
    requires Proper(spec) && n < |events| && EventLoads(spec, hash, stages, events, n)
    requires CompletesStay(stages, stages') && events <= events'
    ensures EventLoads(spec, hash, stages', events', n)
  {
    assert forall i :: 0 <= i < |events| ==> events'[i] == events[i];
  }

  /** What the next stage yields is what the loader expects, once an honest run has left its evidence. */
  lemma NextEventLoads(spec: Spec, hash: Event -> nat, d: Disk, inputs: Inputs, stages': Stages)
    requires Proper(spec) && |d.events| < EventCount(spec) && Due(spec, hash, d, inputs)
    requires Honest(d, Advancing(inputs)) && NoneReserved(d.stages)
    requires stages' == AfterStart(d, NextRequest(spec, d), Instances(d.events), inputs).stages
    ensures var n := |d.events|;
      EventLoads(spec, hash, stages', d.events + [File(n + 1, NextEvent(spec, hash, d, inputs))], n)
  {
    var n, q, event := |d.events|, NextRequest(spec, d), NextEvent(spec, hash, d, inputs);
    var longer := d.events + [File(n + 1, event)];
    assert DigestBefore(hash, longer, n) == DigestBefore(hash, d.events, n);
    var obtained := Obtain(d, q, Instances(d.events), inputs);
    if obtained.Obtained? {
      var r := obtained.result;
      ObtainedIsEvident(d, q, Instances(d.events), inputs);
      WrittenEventLoadsIff(spec, hash, stages', d.events, r, event);
    }
  }

  lemma ObtainedIsEvident(d: Disk, q: Request, used: set<string>, inputs: Inputs)
    requires Honest(d, Advancing(inputs)) && NoneReserved(d.stages)
    ensures var obtained := Obtain(d, q, used, inputs);
      obtained.Obtained? ==>
        && ValidResult(q, obtained.result)
        && Inspect(AfterStart(d, q, used, inputs).stages, q.sequence) == Complete(obtained.result)
        && obtained.result.failureCategory != Some(PARTIAL_STAGE)
  {
    assert Unreserved(Inspect(d.stages, q.sequence));
  }

  lemma AdvanceKeepsEvident(spec: Spec, hash: Event -> nat, d: Disk, inputs: Inputs)
    requires Proper(spec) && Evident(spec, hash, d) && Honest(d, Advancing(inputs))
    ensures Evident(spec, hash, Advanced(spec, hash, d, inputs).disk)
  {
    var d' := Advanced(spec, hash, d, inputs).disk;
    AdvanceIsSound(spec, hash, d, inputs);
    StagesAfter(spec, hash, d, inputs);
    AdvanceAppends(spec, hash, d, inputs);
    if d'.events != d.events {
      NextEventLoads(spec, hash, d, inputs, d'.stages);
    }
    AllStillLoad(spec, hash, d.stages, d'.stages, d.events, d'.events);
  }

  lemma AllStillLoad(
    spec: Spec, hash: Event -> nat, stages: Stages, stages': Stages, events: seq<File<Event>>,
    events': seq<File<Event>>)
    requires Proper(spec) && AllEventsLoad(spec, hash, stages, events) && CompletesStay(stages, stages')
    requires events <= events' && |events'| <= |events| + 1
    requires |events'| > |events| ==> EventLoads(spec, hash, stages', events', |events|)
    ensures AllEventsLoad(spec, hash, stages', events')
  {
    forall n | 0 <= n < |events'| ensures EventLoads(spec, hash, stages', events', n) {
      if n < |events| {
        EventStillLoads(spec, hash, stages, stages', events, events', n);
      }
    }
  }

  /** The stage directories an honest advance leaves: the evidence that was there, and that of the stage it started. */
  lemma StagesAfter(spec: Spec, hash: Event -> nat, d: Disk, inputs: Inputs)
    requires Proper(spec) && NoneReserved(d.stages) && Unreserved(inputs.runLeaves)
    ensures var d' := Advanced(spec, hash, d, inputs).disk;
      && CompletesStay(d.stages, d'.stages) && NoneReserved(d'.stages)
      && (ReachesStage(spec, hash, d, inputs) ==>
            d'.stages == AfterStart(d, NextRequest(spec, d), Instances(d.events), inputs).stages)
  {
    StartsIff(spec, hash, d, inputs);
    var d' := Advanced(spec, hash, d, inputs).disk;
    forall s ensures Unreserved(Inspect(d'.stages, s)) {
      assert Unreserved(Inspect(d.stages, s));
    }
  }

  lemma HappenedKeepsEvident(spec: Spec, hash: Event -> nat, d: Disk, o: Occasion)
    requires Proper(spec) && Evident(spec, hash, d) && Honest(d, o)
    ensures Evident(spec, hash, Happened(spec, hash, d, o))
  {
    match o
    case Advancing(inputs) => AdvanceKeepsEvident(spec, hash, d, inputs);
    case Altering(stages) =>
      HappenedSoundly(spec, hash, d, o);
      AllStillLoad(spec, hash, d.stages, stages, d.events, d.events);
  }

  ghost predicate StaysEvident(spec: Spec, hash: Event -> nat, d: Disk, d': Disk)
    requires Proper(spec)
  {
    Evident(spec, hash, d) ==> Evident(spec, hash, d')
  }

  lemma {:induction false} EvidentThrough(spec: Spec, hash: Event -> nat, trace: seq<Disk>, j: nat)
    requires Proper(spec) && j < |trace| && Evident(spec, hash, trace[0])
    requires forall k :: 0 < k < |trace| ==> StaysEvident(spec, hash, trace[k - 1], trace[k])
    ensures Evident(spec, hash, trace[j])
  {
    if j == 0 {
    } else {
      EvidentThrough(spec, hash, trace, j - 1);
      assert StaysEvident(spec, hash, trace[j - 1], trace[j]);
    }
  }

  lemma EmptyIsEvident(spec: Spec, hash: Event -> nat)
    requires Proper(spec)
    ensures Evident(spec, hash, EMPTY_DISK)
  {
    EmptyIsSound(spec, hash);
  }

  lemma HonestIsEvident(spec: Spec, hash: Event -> nat, occasions: seq<Occasion>, j: nat)
    requires Proper(spec) && HonestHistory(spec, hash, occasions) && j <= |occasions|
    ensures Evident(spec, hash, DiskAfter(spec, hash, EMPTY_DISK, occasions, j))
  {
    var trace := Trace(spec, hash, EMPTY_DISK, occasions);
    EmptyIsEvident(spec, hash);
    forall k | 0 < k < |trace| ensures StaysEvident(spec, hash, trace[k - 1], trace[k]) {
      assert Honest(trace[k - 1], occasions[k - 1]);
      if Evident(spec, hash, trace[k - 1]) {
        HappenedKeepsEvident(spec, hash, trace[k - 1], occasions[k - 1]);
      }
    }
    EvidentThrough(spec, hash, trace, j);
  }

  /** With honest stages every directory of a campaign loads, whatever crashes and changes it went through. */
  lemma HonestCampaignsLoad(spec: Spec, hash: Event -> nat, occasions: seq<Occasion>, j: nat)
    requires Proper(spec) && HonestHistory(spec, hash, occasions) && j <= |occasions|
    ensures Loads(spec, hash, DiskAfter(spec, hash, EMPTY_DISK, occasions, j))
  {
    HonestIsEvident(spec, hash, occasions, j);
    SoundLoadsIff(spec, hash, DiskAfter(spec, hash, EMPTY_DISK, occasions, j));
  }

  // ----- Progress -----

  /** A result that may become the event of the stage. */
  predicate Usable(spec: Spec, q: Request, used: set<string>, r: StageResult) {
    && ValidResult(q, r) && (r.instance.Some? ==> r.instance.value !in used)
    && (spec.version.V2? && !q.stage.Preflight? ==>
        (r.modelIdentity.Some? ==> IsSha(r.modelIdentity.value)) && (r.status.Passed? ==> r.modelIdentity.Some?))
  }

  /** The stage was found partial, or there is a usable result, found or returned by the run that is started. */
  predicate Fit(spec: Spec, d: Disk, inputs: Inputs)
    requires Proper(spec) && |d.events| < EventCount(spec)
  {
    var q, used := NextRequest(spec, d), Instances(d.events);
    match Inspect(d.stages, q.sequence)
    case Partial => true
    case Contradictory => false
    case Complete(r) => Usable(spec, q, used, r)
    case Absent =>
      && Starts(d, q, used, inputs) && inputs.runReturns.Some? && Usable(spec, q, used, inputs.runReturns.value)
      && (!q.stage.Preflight? && inputs.runReturns.value.instance.Some? ==>
          inputs.runReturns.value.instance == inputs.readiness.instance)
  }

  /** A passed event that loads carries the digest of its stage outcome, so the next one finds its predecessor. */
  lemma PassedHasOutcome(spec: Spec, hash: Event -> nat, stages: Stages, events: seq<File<Event>>, n: nat)
    requires Proper(spec) && n < |events|
    requires EventLoads(spec, hash, stages, events, n) && events[n].document.status.Passed?
    ensures events[n].document.outcome.Some? && IsSha(events[n].document.outcome.value)
  {
  }

  /** In a directory that loads and has not stopped, a stage is due exactly when it is fit. */
  lemma DueIffFit(spec: Spec, hash: Event -> nat, d: Disk, inputs: Inputs)
    requires Proper(spec) && Loads(spec, hash, d) && !Stopped(d) && |d.events| < EventCount(spec)
    ensures Due(spec, hash, d, inputs) <==> Fit(spec, d, inputs)
  {
    var q, used := NextRequest(spec, d), Instances(d.events);
    var predecessor := Predecessor(spec, q, d.events, |d.events|);
    if spec.version.V2? && q.stage.ScoreProxy? {
      assert LoadsAt(spec, hash, d.stages, d.events, d.heads, |d.events| - 1);
      PassedHasOutcome(spec, hash, d.stages, d.events, |d.events| - 1);
    }
    ObtainedIffUsable(spec, d, q, used, inputs, DigestBefore(hash, d.events, |d.events|), predecessor);
  }

  lemma ObtainedIffUsable(
    spec: Spec, d: Disk, q: Request, used: set<string>, inputs: Inputs, previous: Option<nat>,
    predecessor: Option<string>)
    requires spec.version.V2? && q.stage.ScoreProxy? ==> predecessor.Some? && IsSha(predecessor.value)
    ensures var obtained := Obtain(d, q, used, inputs);
      obtained.Obtained? ==>
        (!Reuses(obtained, used) && EventRecord(spec, q, obtained.result, previous, predecessor).Some?
         <==> Usable(spec, q, used, obtained.result))
  {
  }

  /** And an advance that finds it fit, with three writes to make, adds its event and head. */
  lemma HonestCampaignsAdvance(spec: Spec, hash: Event -> nat, occasions: seq<Occasion>, j: nat, inputs: Inputs)
    requires Proper(spec) && HonestHistory(spec, hash, occasions) && j <= |occasions|
    requires var d := DiskAfter(spec, hash, EMPTY_DISK, occasions, j);
      !Stopped(d) && |d.events| < EventCount(spec) && Fit(spec, d, inputs) && inputs.writes >= 3
    ensures var d := DiskAfter(spec, hash, EMPTY_DISK, occasions, j);
      var d' := Advanced(spec, hash, d, inputs).disk;
      && |d'.events| == |d'.heads| == |d.events| + 1
      && (Honest(d, Advancing(inputs)) ==> Loads(spec, hash, d'))
  {
    var d := DiskAfter(spec, hash, EMPTY_DISK, occasions, j);
    HonestCampaignsLoad(spec, hash, occasions, j);
    HonestIsEvident(spec, hash, occasions, j);
    DueIffFit(spec, hash, d, inputs);
    AdvanceAppends(spec, hash, d, inputs);
    if Honest(d, Advancing(inputs)) {
      AdvanceKeepsEvident(spec, hash, d, inputs);
      SoundLoadsIff(spec, hash, Advanced(spec, hash, d, inputs).disk);
    }
  }

  // ----- The reserved category -----

  /** The event of a result that carries the category reserved for partial stages. */
  predicate CarriesReserved(event: Event) {
    event.failureCategory == Some(PARTIAL_STAGE) && event.outcome.Some?
  }

  predicate Stuck(d: Disk) {
    exists n :: 0 <= n < |d.events| && CarriesReserved(d.events[n].document)
  }

  /**
    A directory that holds such an event never loads, whatever the stages show; an advance
    raises and changes nothing.
  */
  lemma StuckNeverLoads(spec: Spec, hash: Event -> nat, d: Disk, inputs: Inputs)
    requires Proper(spec) && Stuck(d)
    ensures !Loads(spec, hash, d)
    ensures Advanced(spec, hash, d, inputs) == Progress(d, Raised(ChainInvalid))
  {
    var n :| 0 <= n < |d.events| && CarriesReserved(d.events[n].document);
    assert !EventLoads(spec, hash, d.stages, d.events, n);
    assert !LoadsAt(spec, hash, d.stages, d.events, d.heads, n);
    var staged := Staged(spec, hash, Repaired(hash, d), Instances(d.events), inputs, WritesLeft(d, inputs.writes));
    NotLoadedRaises(spec, hash, d, inputs.gate, inputs.writes, staged);
  }

  lemma NotLoadedRaises(spec: Spec, hash: Event -> nat, d: Disk, gate: Option<bool>, writes: nat, staged: Progress)
    ensures Entered(spec, hash, d, false, gate, writes, staged) == Progress(d, Raised(ChainInvalid))
  {
  }

  /** So the campaign is over: nothing but the stage directories changes any more. */
  lemma {:induction false} StuckForever(spec: Spec, hash: Event -> nat, d: Disk, occasions: seq<Occasion>, j: nat)
    requires Proper(spec) && Stuck(d) && j <= |occasions|
    ensures var d' := DiskAfter(spec, hash, d, occasions, j);
      Stuck(d') && d' == d.(stages := d'.stages)
  {
    if j == 0 {
    } else {
      StuckForever(spec, hash, d, occasions, j - 1);
      var before := DiskAfter(spec, hash, d, occasions, j - 1);
      match occasions[j - 1]
      case Advancing(inputs) => StuckNeverLoads(spec, hash, before, inputs);
      case Altering(_) =>
    }
  }

  /** A stage result that carries the category does end a campaign like that, as soon as its event is written. */
  lemma ReservedResultSticks(spec: Spec, hash: Event -> nat, d: Disk, inputs: Inputs)
    requires Proper(spec) && ReachesStage(spec, hash, d, inputs) && Due(spec, hash, d, inputs)
    requires inputs.writes > RepairWrites(d)
    requires var obtained := Obtain(d, NextRequest(spec, d), Instances(d.events), inputs);
      obtained.Obtained? && obtained.result.failureCategory == Some(PARTIAL_STAGE)
    ensures Stuck(Advanced(spec, hash, d, inputs).disk)
  {
    var d' := Advanced(spec, hash, d, inputs).disk;
    AdvanceAppends(spec, hash, d, inputs);
    assert CarriesReserved(d'.events[|d.events|].document);
  }
}
