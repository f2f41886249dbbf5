/**
  What an advance writes and answers (qualification_campaign.py), in terms of the stage, its
  result and the events before it.
*/
module CampaignEvents {
  import opened Wrappers
  import opened CampaignChain
  import opened Campaign
  import opened CampaignHistory
  import opened CampaignLoading

  // ----- The stage that is next -----

  /** The stage after n events: the preflight, then a direct and a proxy stage for every slot. */
  ghost predicate IsStage(spec: Spec, n: nat, slot: Slot, stage: Stage)
    requires Proper(spec) && n < EventCount(spec)
  {
    if n == 0 then stage.Preflight? && slot == Slot(0, "preflight", 0)
    else slot == spec.slots[(n - 1) / 2] && if n % 2 == 1 then stage.ScoreDirect? else stage.ScoreProxy?
  }

  lemma NextIsStage(spec: Spec, d: Disk)
    requires Proper(spec) && |d.events| < EventCount(spec)
    ensures var q := NextRequest(spec, d);
      q.sequence == |d.events| + 1 && IsStage(spec, |d.events|, q.slot, q.stage)
  {
  }

  // ----- What an event holds -----

  /** The event has its place in the chain of these events. */
  ghost predicate IsPlaced(spec: Spec, hash: Event -> nat, events: seq<File<Event>>, event: Event)
    requires Proper(spec) && |events| < EventCount(spec)
  {
    var n := |events|;
    && event.manifest == spec.manifest && event.campaignId == spec.campaignId
    && event.sequence == n + 1 && IsStage(spec, n, event.slot, event.stage)
    && event.previous == if n == 0 then None else Some(hash(events[n - 1].document))
  }

  /** The event says what the result says; the second version adds the model and the direct stage just before. */
  ghost predicate HoldsResult(spec: Spec, events: seq<File<Event>>, event: Event, r: StageResult) {
    && event.status == r.status && event.failureCategory == r.failureCategory
    && event.outcome == Some(r.outcome) && event.instance == r.instance && event.reconciliation == r.reconciliation
    && event.modelIdentity == (if spec.version.V2? then r.modelIdentity else None)
    && event.predecessor == (
         if !(spec.version.V2? && event.stage.ScoreProxy?) || events == [] then None
         else events[|events| - 1].document.outcome)
  }

  ghost predicate HoldsPartial(event: Event) {
    && event.status.Failed? && event.failureCategory == Some("campaign_partial_stage")
    && event.outcome.None? && event.instance.None? && event.reconciliation.None?
    && event.modelIdentity.None? && event.predecessor.None?
  }

  lemma RecordHoldsResult(spec: Spec, hash: Event -> nat, d: Disk, obtained: Obtained)
    requires Proper(spec) && |d.events| < EventCount(spec) && obtained.Obtained?
    requires EventOf(spec, hash, d, NextRequest(spec, d), obtained).Some?
    ensures var event := EventOf(spec, hash, d, NextRequest(spec, d), obtained).value;
      IsPlaced(spec, hash, d.events, event) && HoldsResult(spec, d.events, event, obtained.result)
  {
    NextIsStage(spec, d);
  }

  lemma RecordHoldsPartial(spec: Spec, hash: Event -> nat, d: Disk)
    requires Proper(spec) && |d.events| < EventCount(spec)
    ensures var event := EventOf(spec, hash, d, NextRequest(spec, d), FoundPartial);
      event.Some? && IsPlaced(spec, hash, d.events, event.value) && HoldsPartial(event.value)
  {
    NextIsStage(spec, d);
  }

  // ----- What an advance answers when it records a stage -----

  lemma RecordingAnswers(
    spec: Spec, hash: Event -> nat, d: Disk, event: Event, used: set<string>, gate: Option<bool>, writes: nat)
    requires writes >= 2
    ensures var p := Recorded(spec, hash, d, Some(event), false, used, gate, writes);
      && (!event.status.Passed? ==> p.advance.CampaignFailed?)
      && (event.status.Passed? && |d.events| + 1 != EventCount(spec) ==> p.advance.StageCompleted?)
  {
  }

  lemma StagingAnswers(spec: Spec, hash: Event -> nat, d: Disk, used: set<string>, inputs: Inputs, writes: nat)
    requires Proper(spec) && |d.events| < EventCount(spec) && writes >= 2
    requires var obtained := Obtain(d, NextRequest(spec, d), used, inputs);
      !Reuses(obtained, used) && EventOf(spec, hash, d, NextRequest(spec, d), obtained).Some?
    ensures var p := Staged(spec, hash, d, used, inputs, writes);
      var event := EventOf(spec, hash, d, NextRequest(spec, d), Obtain(d, NextRequest(spec, d), used, inputs)).value;
      && (!event.status.Passed? ==> p.advance.CampaignFailed?)
      && (event.status.Passed? && |d.events| + 1 != EventCount(spec) ==> p.advance.StageCompleted?)
  {
    var q := NextRequest(spec, d);
    var obtained, after := Obtain(d, q, used, inputs), AfterStart(d, q, used, inputs);
    SameStage(spec, hash, d, d.(runs := after.runs), used, inputs);
    var event := EventOf(spec, hash, d, q, obtained);
    assert EventOf(spec, hash, after, q, obtained) == event;
    RecordingAnswers(spec, hash, after, event.value, used, inputs.gate, writes);
  }

  lemma AdvanceAnswers(spec: Spec, hash: Event -> nat, d: Disk, inputs: Inputs)
    requires Proper(spec) && ReachesStage(spec, hash, d, inputs) && Due(spec, hash, d, inputs)
    requires inputs.writes >= RepairWrites(d) + 2
    ensures var p, event := Advanced(spec, hash, d, inputs), NextEvent(spec, hash, d, inputs);
      && (!event.status.Passed? ==> p.advance.CampaignFailed?)
      && (event.status.Passed? && |d.events| + 1 != EventCount(spec) ==> p.advance.StageCompleted?)
  {
    var loaded, used := Repaired(hash, d), Instances(d.events);
    StageReached(spec, hash, d, inputs);
    SameStage(spec, hash, d, loaded, used, inputs);
    StagingAnswers(spec, hash, loaded, used, inputs, WritesLeft(d, inputs.writes));
  }

  // ----- Results that may be recorded -----

  /** What the campaign asks of a result, case by case: of a passed one more than of any other. */
  ghost predicate Acceptable(spec: Spec, stage: Stage, used: set<string>, r: StageResult) {
    && IsSha(r.outcome) && r.evidenceMatches
    && (r.reconciliation.Some? ==> IsSha(r.reconciliation.value) && stage.ScoreProxy?)
    && (r.instance.Some? ==> IsSha(r.instance.value) && r.instance.value !in used)
    && (match r.status
        case Passed => r.failureCategory.None? && r.instance.Some? && (stage.ScoreProxy? ==> r.reconciliation.Some?)
        case _ => r.failureCategory.Some? && IsCategory(r.failureCategory.value))
    && (spec.version.V2? && !stage.Preflight? && r.modelIdentity.Some? ==> IsSha(r.modelIdentity.value))
    && (spec.version.V2? && !stage.Preflight? && r.status.Passed? ==> r.modelIdentity.Some?)
  }

  lemma AcceptableIsUsable(spec: Spec, q: Request, used: set<string>, r: StageResult)
    ensures Acceptable(spec, q.stage, used, r) <==> Usable(spec, q, used, r)
  {
  }

  // ----- Recording a result -----

  /** The next stage yields this result: found complete, or returned by the run that the advance starts. */
  ghost predicate Yields(spec: Spec, d: Disk, inputs: Inputs, r: StageResult)
    requires Proper(spec) && |d.events| < EventCount(spec)
  {
    var inspection := Inspect(d.stages, |d.events| + 1);
    || inspection == Complete(r)
    || (inspection.Absent? && inputs.runReturns == Some(r)
        && (d.events != [] ==>
              && inputs.readiness.ready && inputs.readiness.instance.Some?
              && IsSha(inputs.readiness.instance.value) && inputs.readiness.instance.value !in Instances(d.events)
              && (r.instance.Some? ==> r.instance == inputs.readiness.instance)))
  }

  lemma YieldedIsObtained(spec: Spec, d: Disk, inputs: Inputs, r: StageResult)
    requires Proper(spec) && |d.events| < EventCount(spec) && Yields(spec, d, inputs, r)
    requires ValidResult(NextRequest(spec, d), r)
    ensures Obtain(d, NextRequest(spec, d), Instances(d.events), inputs) == Obtained(r)
  {
    NextIsStage(spec, d);
  }

  lemma UsableIsFit(spec: Spec, d: Disk, inputs: Inputs, r: StageResult)
    requires Proper(spec) && |d.events| < EventCount(spec) && Yields(spec, d, inputs, r)
    requires Usable(spec, NextRequest(spec, d), Instances(d.events), r)
    ensures Fit(spec, d, inputs)
  {
    NextIsStage(spec, d);
  }

  /**
    A stage that yields an acceptable result is recorded as exactly that: the event holds the
    result in its place of the chain, its head holds its digest, and before the last stage
    the answer is that the stage completed if the result passed, and that the campaign
    failed if it did not.
  */
  lemma AdvanceRecordsResult(spec: Spec, hash: Event -> nat, d: Disk, inputs: Inputs, r: StageResult)
    requires Proper(spec) && Loads(spec, hash, d) && !Stopped(d) && |d.events| < EventCount(spec)
    requires Yields(spec, d, inputs, r)
    requires Acceptable(spec, NextRequest(spec, d).stage, Instances(d.events), r)
    requires inputs.writes >= RepairWrites(d) + 2
    ensures var n, p := |d.events|, Advanced(spec, hash, d, inputs);
      && |p.disk.events| == |p.disk.heads| == n + 1 && d.events <= p.disk.events
      && var event := p.disk.events[n].document;
      && p.disk.events[n].name == n + 1 && p.disk.heads[n] == File(n + 1, Head(n + 1, hash(event)))
      && IsPlaced(spec, hash, d.events, event) && HoldsResult(spec, d.events, event, r)
      && (!r.status.Passed? ==> p.advance.CampaignFailed?)
      && (r.status.Passed? && n + 1 < EventCount(spec) ==> p.advance.StageCompleted?)
  {
    AcceptableIsUsable(spec, NextRequest(spec, d), Instances(d.events), r);
    UsableIsFit(spec, d, inputs, r);
    DueIffFit(spec, hash, d, inputs);
    YieldedIsObtained(spec, d, inputs, r);
    AdvanceAppends(spec, hash, d, inputs);
    AdvanceAnswers(spec, hash, d, inputs);
    RecordHoldsResult(spec, hash, d, Obtained(r));
  }

  /** A partial stage is recorded as failed with the reserved category, and ends the campaign. */
  lemma AdvanceRecordsPartial(spec: Spec, hash: Event -> nat, d: Disk, inputs: Inputs)
    requires Proper(spec) && Loads(spec, hash, d) && !Stopped(d) && |d.events| < EventCount(spec)
    requires Inspect(d.stages, |d.events| + 1).Partial? && inputs.writes >= RepairWrites(d) + 2
    ensures var n, p := |d.events|, Advanced(spec, hash, d, inputs);
      && |p.disk.events| == |p.disk.heads| == n + 1 && d.events <= p.disk.events
      && var event := p.disk.events[n].document;
      && p.disk.events[n].name == n + 1 && p.disk.heads[n] == File(n + 1, Head(n + 1, hash(event)))
      && IsPlaced(spec, hash, d.events, event) && HoldsPartial(event) && p.advance.CampaignFailed?
  {
    NextIsStage(spec, d);
    DueIffFit(spec, hash, d, inputs);
    AdvanceAppends(spec, hash, d, inputs);
    AdvanceAnswers(spec, hash, d, inputs);
    RecordHoldsPartial(spec, hash, d);
  }

  // ----- Recording the last stage -----

  lemma LastRecordingCompletes(
    spec: Spec, hash: Event -> nat, d: Disk, event: Event, used: set<string>, gate: Option<bool>, writes: nat)
    requires writes >= 3 && |d.events| + 1 == EventCount(spec) && event.status.Passed? && gate.Some? && d.outcome.None?
    requires |used + InstanceOf(event)| == EventCount(spec)
    ensures var p := Recorded(spec, hash, d, Some(event), false, used, gate, writes);
      && p.advance == CampaignDone(gate.value)
      && p.disk.outcome == Some(CampaignOutcome(hash(event), EventCount(spec), gate.value))
  {
  }

  lemma LastStagingCompletes(
    spec: Spec, hash: Event -> nat, d: Disk, used: set<string>, inputs: Inputs, writes: nat, event: Event)
    requires Proper(spec) && |d.events| + 1 == EventCount(spec) && writes >= 3
    requires var obtained := Obtain(d, NextRequest(spec, d), used, inputs);
      !Reuses(obtained, used) && EventOf(spec, hash, d, NextRequest(spec, d), obtained) == Some(event)
    requires event.status.Passed? && inputs.gate.Some? && d.outcome.None?
    requires |used + InstanceOf(event)| == EventCount(spec)
    ensures var p := Staged(spec, hash, d, used, inputs, writes);
      && p.advance == CampaignDone(inputs.gate.value)
      && p.disk.outcome == Some(CampaignOutcome(hash(event), EventCount(spec), inputs.gate.value))
  {
    var q := NextRequest(spec, d);
    var obtained, after := Obtain(d, q, used, inputs), AfterStart(d, q, used, inputs);
    SameStage(spec, hash, d, d.(runs := after.runs), used, inputs);
    assert EventOf(spec, hash, after, q, obtained) == Some(event);
    LastRecordingCompletes(spec, hash, after, event, used, inputs.gate, writes);
  }

  lemma FullInstances(spec: Spec, hash: Event -> nat, d: Disk, events: seq<File<Event>>, last: File<Event>)
    requires Inv(spec, hash, d) && !Stopped(d) && d.events == events + [last] && |d.events| == EventCount(spec)
    ensures |Instances(events) + InstanceOf(last.document)| == EventCount(spec)
  {
    FullChainPassed(spec, hash, d);
    InstancesOneMore(d.events, |events|);
    assert d.events[..|events| + 1] == d.events && d.events[..|events|] == events;
  }

  /** The instances of all events of a campaign that passed its last stage. */
  lemma LastInstances(spec: Spec, hash: Event -> nat, d: Disk, inputs: Inputs)
    requires Proper(spec) && Inv(spec, hash, d) && ReachesStage(spec, hash, d, inputs) && Due(spec, hash, d, inputs)
    requires inputs.writes > RepairWrites(d) && |d.events| + 1 == EventCount(spec)
    requires NextEvent(spec, hash, d, inputs).status.Passed?
    ensures |Instances(d.events) + InstanceOf(NextEvent(spec, hash, d, inputs))| == EventCount(spec)
  {
    var d', last := Advanced(spec, hash, d, inputs).disk, File(|d.events| + 1, NextEvent(spec, hash, d, inputs));
    AdvanceIsSound(spec, hash, d, inputs);
    AdvanceAppends(spec, hash, d, inputs);
    FullInstances(spec, hash, d', d.events, last);
  }

  /** The last stage, passed, completes the campaign: the outcome names its event, the count and the gate's verdict. */
  lemma LastStageCompletes(spec: Spec, hash: Event -> nat, d: Disk, inputs: Inputs, r: StageResult)
    requires Proper(spec) && Inv(spec, hash, d) && Loads(spec, hash, d) && !Stopped(d)
    requires |d.events| + 1 == EventCount(spec) && Yields(spec, d, inputs, r) && r.status.Passed?
    requires Acceptable(spec, NextRequest(spec, d).stage, Instances(d.events), r)
    requires inputs.writes >= RepairWrites(d) + 3 && inputs.gate.Some? && d.outcome.None?
    ensures var p := Advanced(spec, hash, d, inputs);
      && |p.disk.events| == EventCount(spec) && p.advance == CampaignDone(inputs.gate.value)
      && p.disk.outcome == Some(CampaignOutcome(
           hash(p.disk.events[|d.events|].document), if spec.version.V2? then 17 else 13, inputs.gate.value))
  {
    var loaded, used := Repaired(hash, d), Instances(d.events);
    AdvanceRecordsResult(spec, hash, d, inputs, r);
    AcceptableIsUsable(spec, NextRequest(spec, d), used, r);
    UsableIsFit(spec, d, inputs, r);
    DueIffFit(spec, hash, d, inputs);
    YieldedIsObtained(spec, d, inputs, r);
    RecordHoldsResult(spec, hash, d, Obtained(r));
    LastInstances(spec, hash, d, inputs);
    AdvanceAppends(spec, hash, d, inputs);
    StageReached(spec, hash, d, inputs);
    SameStage(spec, hash, d, loaded, used, inputs);
    LastStagingCompletes(
      spec, hash, loaded, used, inputs, WritesLeft(d, inputs.writes), NextEvent(spec, hash, d, inputs));
  }

  // ----- Recording nothing -----

  predicate IsReady(readiness: Readiness, used: set<string>) {
    && readiness.ready && readiness.instance.Some?
    && IsSha(readiness.instance.value) && readiness.instance.value !in used
  }

  /** A valid result on another instance than the runtime was ready on. */
  predicate Strays(q: Request, readiness: Readiness, r: StageResult) {
    ValidResult(q, r) && r.instance.Some? && r.instance != readiness.instance
  }

  lemma ObtainRefuses(spec: Spec, d: Disk, inputs: Inputs)
    requires Proper(spec) && |d.events| < EventCount(spec)
    ensures var q, i, used := NextRequest(spec, d), Inspect(d.stages, |d.events| + 1), Instances(d.events);
      var obtained, readiness := Obtain(d, q, used, inputs), inputs.readiness;
      var starts := i.Absent? && (d.events == [] || IsReady(readiness, used));
      && (i.Contradictory? ==> obtained == NotObtained(StageStateInvalid))
      && (obtained.NeedsRestart? <==> i.Absent? && d.events != [] && !readiness.ready && readiness.instance.None?)
      && (i.Absent? && !starts && !obtained.NeedsRestart? ==> obtained == NotObtained(InstanceInvalid))
      && (starts && inputs.runReturns.None? ==> obtained == NotObtained(RunnerFailed))
      && (forall r :: (i == Complete(r) || (starts && inputs.runReturns == Some(r))) && !ValidResult(q, r) ==>
            obtained == NotObtained(StageOutcomeInvalid))
      && (forall r :: starts && d.events != [] && inputs.runReturns == Some(r) && Strays(q, readiness, r) ==>
            obtained == NotObtained(InstanceInvalid))
  {
    NextIsStage(spec, d);
  }

  lemma StagedAnswer(
    spec: Spec, hash: Event -> nat, d: Disk, obtained: Obtained, event: Option<Event>, used: set<string>,
    gate: Option<bool>, writes: nat)
    ensures var a := StagedAs(spec, hash, d, obtained, event, used, gate, writes).advance;
      && (obtained.NotObtained? ==> a == Raised(obtained.error))
      && (obtained.NeedsRestart? <==> a.RestartRequired?)
      && (Reuses(obtained, used) ==> a == Raised(InstanceReused))
      && (!obtained.NotObtained? && !obtained.NeedsRestart? && !Reuses(obtained, used) && event.None? ==>
            a == Raised(StageOutcomeInvalid))
  {
    RecordingConcludes(spec, hash, d, event, Reuses(obtained, used), used, gate, writes);
  }

  ghost predicate AnswersFor(obtained: Obtained, used: set<string>, event: Option<Event>, a: Advance) {
    && (obtained.NotObtained? ==> a == Raised(obtained.error))
    && (obtained.NeedsRestart? <==> a.RestartRequired?)
    && (Reuses(obtained, used) ==> a == Raised(InstanceReused))
    && (obtained.Obtained? && !Reuses(obtained, used) && event.None? ==> a == Raised(StageOutcomeInvalid))
  }

  lemma StagingAnswer(spec: Spec, hash: Event -> nat, d: Disk, used: set<string>, inputs: Inputs, writes: nat)
    requires Proper(spec) && |d.events| < EventCount(spec)
    ensures var q := NextRequest(spec, d);
      var obtained := Obtain(d, q, used, inputs);
      AnswersFor(
        obtained, used, EventOf(spec, hash, d, q, obtained), Staged(spec, hash, d, used, inputs, writes).advance)
  {
    var q := NextRequest(spec, d);
    var obtained, after := Obtain(d, q, used, inputs), AfterStart(d, q, used, inputs);
    SameStage(spec, hash, d, d.(runs := after.runs), used, inputs);
    assert EventOf(spec, hash, after, q, obtained) == EventOf(spec, hash, d, q, obtained);
    StagedAnswer(spec, hash, after, obtained, EventOf(spec, hash, after, q, obtained), used, inputs.gate, writes);
  }

  lemma StageAnswer(spec: Spec, hash: Event -> nat, d: Disk, inputs: Inputs)
    requires Proper(spec) && ReachesStage(spec, hash, d, inputs)
    ensures var q, used := NextRequest(spec, d), Instances(d.events);
      var obtained := Obtain(d, q, used, inputs);
      AnswersFor(obtained, used, EventOf(spec, hash, d, q, obtained), Advanced(spec, hash, d, inputs).advance)
  {
    var loaded, used := Repaired(hash, d), Instances(d.events);
    StageReached(spec, hash, d, inputs);
    SameStage(spec, hash, d, loaded, used, inputs);
    StagingAnswer(spec, hash, loaded, used, inputs, WritesLeft(d, inputs.writes));
  }

  /**
    An advance that reaches a stage it cannot record says why: a restart is required exactly
    if the runtime says so and a stage is to be started, and each defect has its error.
  */
  lemma AdvanceRefuses(spec: Spec, hash: Event -> nat, d: Disk, inputs: Inputs)
    requires Proper(spec) && ReachesStage(spec, hash, d, inputs)
    ensures var q, i, used := NextRequest(spec, d), Inspect(d.stages, |d.events| + 1), Instances(d.events);
      var a, readiness := Advanced(spec, hash, d, inputs).advance, inputs.readiness;
      var starts := i.Absent? && (d.events == [] || IsReady(readiness, used));
      && (a.RestartRequired? <==> i.Absent? && d.events != [] && !readiness.ready && readiness.instance.None?)
      && (i.Contradictory? ==> a == Raised(StageStateInvalid))
      && (i.Absent? && !starts && !a.RestartRequired? ==> a == Raised(InstanceInvalid))
      && (starts && inputs.runReturns.None? ==> a == Raised(RunnerFailed))
      && (forall r :: (i == Complete(r) || (starts && inputs.runReturns == Some(r))) && !ValidResult(q, r) ==>
            a == Raised(StageOutcomeInvalid))
      && (forall r :: starts && d.events != [] && inputs.runReturns == Some(r) && Strays(q, readiness, r) ==>
            a == Raised(InstanceInvalid))
      && (forall r :: Yields(spec, d, inputs, r) && ValidResult(q, r) && r.instance.Some? ==>
            r.instance.value in used ==> a == Raised(InstanceReused))
  {
    StageAnswer(spec, hash, d, inputs);
    ObtainRefuses(spec, d, inputs);
    forall r | Yields(spec, d, inputs, r) && ValidResult(NextRequest(spec, d), r)
      ensures Obtain(d, NextRequest(spec, d), Instances(d.events), inputs) == Obtained(r)
    {
      YieldedIsObtained(spec, d, inputs, r);
    }
  }

  /** A campaign that stopped stays as it is, but for a missing head. */
  lemma AdvanceOfStopped(spec: Spec, hash: Event -> nat, d: Disk, inputs: Inputs)
    requires Proper(spec) && Loads(spec, hash, d) && Stopped(d) && inputs.writes >= 1
    ensures var p := Advanced(spec, hash, d, inputs);
      p.advance.CampaignFailed? && |p.disk.heads| == |d.events| && p.disk == d.(heads := p.disk.heads)
  {
    var staged := Staged(spec, hash, Repaired(hash, d), Instances(d.events), inputs, WritesLeft(d, inputs.writes));
    EnteredCases(spec, hash, d, Loads(spec, hash, d), inputs.gate, inputs.writes, staged);
  }

  // ----- What the events of a loadable directory hold -----

  /** Every event of a directory that loads is a partial record, or holds the acceptable result that its stage shows. */
  lemma LoadedEventsHold(spec: Spec, hash: Event -> nat, d: Disk, n: nat)
    requires Proper(spec) && Loads(spec, hash, d) && n < |d.events|
    ensures var event, before := d.events[n].document, d.events[..n];
      && IsPlaced(spec, hash, before, event)
      && (HoldsPartial(event) ||
          (Inspect(d.stages, n + 1).Complete? && HoldsResult(spec, before, event, Inspect(d.stages, n + 1).result)
           && Acceptable(spec, event.stage, {}, Inspect(d.stages, n + 1).result)))
  {
    assert LoadsAt(spec, hash, d.stages, d.events, d.heads, n);
    NextIsStage(spec, Disk(d.events[..n], [], None, map[], []));
  }
}
