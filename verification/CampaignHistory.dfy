/**
  What every campaign directory keeps over whole histories (qualification_campaign.py):
  advances that die between any two writes, with any changes to the stage directories around
  them.
*/
module CampaignHistory {
  import opened Wrappers
  import opened CampaignChain
  import opened Campaign

  // ----- Sound directories -----

  ghost predicate HeadsMatch(hash: Event -> nat, d: Disk) {
    |d.heads| <= |d.events| &&
    forall n :: 0 <= n < |d.heads| ==> d.heads[n].document == Head(n + 1, hash(d.events[n].document))
  }

  ghost predicate PassedAllBut(events: seq<File<Event>>, last: nat) {
    forall n :: 0 <= n < |events| - last ==> events[n].document.status.Passed?
  }

  ghost predicate InstancesSound(events: seq<File<Event>>) {
    && (forall n :: 0 <= n < |events| ==> InstanceNew(events, n))
    && (forall n :: 0 <= n < |events| ==> events[n].document.status.Passed? ==> events[n].document.instance.Some?)
  }

  /** Linked events, all but the last passed, no model instance used twice. */
  ghost predicate EventsSound(hash: Event -> nat, events: seq<File<Event>>) {
    Linked(hash, events) && PassedAllBut(events, 1) && InstancesSound(events)
  }

  ghost predicate Inv(spec: Spec, hash: Event -> nat, d: Disk) {
    ListingOk(spec, d.events, d.heads) && HeadsMatch(hash, d) && EventsSound(hash, d.events)
  }

  /** What one advance may change: it only adds, at most one event, and only behind repaired heads. */
  ghost predicate Grows(d: Disk, d': Disk) {
    && d.events <= d'.events && |d'.events| <= |d.events| + 1
    && d.heads <= d'.heads
    && (|d'.events| > |d.events| ==> |d'.heads| >= |d.events| && !Stopped(d))
    && (d.outcome.Some? ==> d'.outcome == d.outcome)
    && d.runs <= d'.runs && |d'.runs| <= |d.runs| + 1 && (Stopped(d) ==> d'.runs == d.runs)
    && (forall s :: !Inspect(d.stages, s).Absent? ==> Inspect(d'.stages, s) == Inspect(d.stages, s))
  }

  lemma EmptyIsSound(spec: Spec, hash: Event -> nat)
    ensures Inv(spec, hash, EMPTY_DISK)
  {
  }

  // ----- Every part of an advance keeps a directory sound -----

  lemma AppendKeepsInstances(events: seq<File<Event>>, added: File<Event>)
    requires InstancesSound(events)
    requires added.document.instance.Some? ==> added.document.instance.value !in Instances(events)
    requires added.document.status.Passed? ==> added.document.instance.Some?
    ensures InstancesSound(events + [added])
  {
    var longer := events + [added];
    assert forall i :: 0 <= i < |events| ==> longer[i] == events[i];
    forall i | 0 <= i < |longer| ensures InstanceNew(longer, i) {
      if i < |events| {
        assert InstanceNew(events, i);
      } else {
        InstanceNewIff(longer, i);
        assert longer[..i] == events;
      }
    }
  }

  lemma AppendKeepsLinks(hash: Event -> nat, events: seq<File<Event>>, event: Event)
    requires Linked(hash, events) && event.previous == DigestBefore(hash, events, |events|)
    ensures Linked(hash, events + [File(|events| + 1, event)])
  {
    var longer := events + [File(|events| + 1, event)];
    assert longer[..|events|] == events;
    assert DigestBefore(hash, longer, |events|) == DigestBefore(hash, events, |events|);
  }

  lemma AppendKeepsPassed(events: seq<File<Event>>, added: File<Event>)
    requires PassedAllBut(events, 1) && (events != [] ==> events[|events| - 1].document.status.Passed?)
    ensures PassedAllBut(events + [added], 1)
  {
  }

  lemma RepairIsSound(spec: Spec, hash: Event -> nat, d: Disk)
    requires Inv(spec, hash, d)
    ensures var d' := Repaired(hash, d); Inv(spec, hash, d') && |d'.heads| == |d'.events| && d.heads <= d'.heads
  {
  }

  /** The event was written, with its head or without, or nothing was. */
  ghost predicate Wrote(hash: Event -> nat, d: Disk, event: Event, d': Disk) {
    exists writes: nat :: d' == Written(hash, d, event, writes)
  }

  /** The next stage was started, or nothing was. */
  ghost predicate Ran(d: Disk, d': Disk) {
    var s := |d.events| + 1;
    d' == d || (
      Inspect(d.stages, s).Absent? && d' == d.(stages := d'.stages, runs := d.runs + [s])
      && forall other :: other != s ==> Inspect(d'.stages, other) == Inspect(d.stages, other))
  }

  ghost predicate Closed(d: Disk, d': Disk) {
    d' == d.(outcome := d'.outcome) && (d.outcome.Some? ==> d'.outcome == d.outcome)
  }

  /** An event that may follow these: linked to them, and on a model instance of its own if it passed. */
  ghost predicate Follows(hash: Event -> nat, events: seq<File<Event>>, event: Event) {
    && event.previous == DigestBefore(hash, events, |events|)
    && (event.instance.Some? ==> event.instance.value !in Instances(events))
    && (event.status.Passed? ==> event.instance.Some?)
  }

  /** An advance in its parts: heads repaired, a stage started, an event written, the outcome written. */
  datatype Parts = Parts(loaded: Disk, ran: Disk, event: Event, written: Disk)

  ghost predicate MadeOf(spec: Spec, hash: Event -> nat, d: Disk, p: Parts, d': Disk) {
    && (p.loaded == d || p.loaded == Repaired(hash, d))
    && Ran(p.loaded, p.ran) && Wrote(hash, p.ran, p.event, p.written) && Closed(p.written, d')
    && (p.ran != p.loaded || p.written != p.ran || d' != p.written ==> p.loaded == Repaired(hash, d) && !Stopped(d))
    && (p.written != p.ran ==> |d.events| < EventCount(spec) && Follows(hash, d.events, p.event))
  }

  lemma ObtainedIsValid(d: Disk, q: Request, used: set<string>, inputs: Inputs)
    ensures var obtained := Obtain(d, q, used, inputs); obtained.Obtained? ==> ValidResult(q, obtained.result)
  {
  }

  lemma EventFollows(spec: Spec, hash: Event -> nat, d: Disk, q: Request, obtained: Obtained)
    requires EventOf(spec, hash, d, q, obtained).Some? && !Reuses(obtained, Instances(d.events))
    requires obtained.Obtained? ==> ValidResult(q, obtained.result)
    ensures Follows(hash, d.events, EventOf(spec, hash, d, q, obtained).value)
  {
  }

  lemma CompletingCloses(spec: Spec, hash: Event -> nat, d: Disk, used: set<string>, gate: Option<bool>, writes: nat)
    requires d.events != []
    ensures Closed(d, Completed(spec, hash, d, used, gate, writes).disk)
  {
  }

  lemma RecordingParts(
    spec: Spec, hash: Event -> nat, d: Disk, record: Option<Event>, reuses: bool, gate: Option<bool>, writes: nat)
    returns (event: Event, written: Disk)
    requires !reuses && record.Some? ==> Follows(hash, d.events, record.value)
    ensures Wrote(hash, d, event, written)
    ensures Closed(written, Recorded(spec, hash, d, record, reuses, Instances(d.events), gate, writes).disk)
    ensures written != d ==> Follows(hash, d.events, event)
  {
    if reuses || record.None? {
      event := PartialRecord(spec, Request(1, PREFLIGHT_SLOT, Preflight), None);
      written := Written(hash, d, event, 0);
    } else {
      event := record.value;
      written := Written(hash, d, event, writes);
      if writes >= 2 {
        CompletingCloses(spec, hash, written, Instances(d.events) + InstanceOf(event), gate, writes - 2);
      }
    }
  }

  lemma StagingParts(spec: Spec, hash: Event -> nat, d: Disk, inputs: Inputs, writes: nat)
    returns (ran: Disk, event: Event, written: Disk)
    requires Proper(spec)
    ensures Ran(d, ran) && Wrote(hash, ran, event, written)
    ensures Closed(written, Staged(spec, hash, d, Instances(d.events), inputs, writes).disk)
    ensures written != ran ==> Follows(hash, d.events, event)
  {
    var used, request := Instances(d.events), StageRequest(spec, |d.events| + 1);
    if request.None? {
      ran, event := d, PartialRecord(spec, Request(1, PREFLIGHT_SLOT, Preflight), None);
      written := Written(hash, ran, event, 0);
    } else {
      var q := request.value;
      ran := AfterStart(d, q, used, inputs);
      var obtained := Obtain(d, q, used, inputs);
      var record := EventOf(spec, hash, ran, q, obtained);
      ObtainedIsValid(d, q, used, inputs);
      if record.Some? && !Reuses(obtained, used) {
        EventFollows(spec, hash, ran, q, obtained);
      }
      event, written := StagedAsParts(spec, hash, ran, obtained, record, inputs.gate, writes);
    }
  }

  lemma StagedAsParts(
    spec: Spec, hash: Event -> nat, d: Disk, obtained: Obtained, record: Option<Event>, gate: Option<bool>, writes: nat)
    returns (event: Event, written: Disk)
    requires record.Some? && !Reuses(obtained, Instances(d.events)) ==> Follows(hash, d.events, record.value)
    ensures Wrote(hash, d, event, written)
    ensures Closed(written, StagedAs(spec, hash, d, obtained, record, Instances(d.events), gate, writes).disk)
    ensures written != d ==> Follows(hash, d.events, event)
  {
    var reuses := Reuses(obtained, Instances(d.events));
    event, written := RecordingParts(spec, hash, d, record, reuses, gate, writes);
    if obtained.NeedsRestart? || obtained.NotObtained? {
      written := Written(hash, d, event, 0);
    }
  }

  /** What an advance comes to: nothing, repaired heads, the outcome, or the next stage. */
  lemma EnteredCases(
    spec: Spec, hash: Event -> nat, d: Disk, loads: bool, gate: Option<bool>, writes: nat, staged: Progress)
    ensures var p, loaded := Entered(spec, hash, d, loads, gate, writes, staged), Repaired(hash, d);
      || (p.disk == d && (p.advance.Raised? || (p.advance.Died? && writes == 0))
          && (!loads || writes < RepairWrites(d)))
      || (p == Progress(loaded, CampaignFailed) && Stopped(d) && loads)
      || (loads && !Stopped(d) && |d.events| == EventCount(spec)
          && p == Completed(spec, hash, loaded, Instances(d.events), gate, WritesLeft(d, writes)))
      || (loads && RepairWrites(d) <= writes && !Stopped(d) && |d.events| != EventCount(spec) && p == staged)
  {
  }

  /** Every advance, of any directory, is made of such parts. */
  lemma AdvanceParts(spec: Spec, hash: Event -> nat, d: Disk, inputs: Inputs) returns (p: Parts)
    requires Proper(spec)
    ensures MadeOf(spec, hash, d, p, Advanced(spec, hash, d, inputs).disk)
  {
    var loaded := Repaired(hash, d);
    var staged := Staged(spec, hash, loaded, Instances(d.events), inputs, WritesLeft(d, inputs.writes));
    var ran, event, written := StagingParts(spec, hash, loaded, inputs, WritesLeft(d, inputs.writes));
    p := EnteredParts(spec, hash, d, Loads(spec, hash, d), inputs.gate, inputs.writes, staged, ran, event, written);
  }

  lemma EnteredParts(
    spec: Spec, hash: Event -> nat, d: Disk, loads: bool, gate: Option<bool>, writes: nat, staged: Progress,
    ran: Disk, event: Event, written: Disk) returns (p: Parts)
    requires var loaded := Repaired(hash, d);
      && Ran(loaded, ran) && Wrote(hash, ran, event, written) && Closed(written, staged.disk)
      && (written != ran ==> Follows(hash, d.events, event))
    requires loads ==> |d.events| <= EventCount(spec)
    ensures MadeOf(spec, hash, d, p, Entered(spec, hash, d, loads, gate, writes, staged).disk)
  {
    var loaded := Repaired(hash, d);
    EnteredCases(spec, hash, d, loads, gate, writes, staged);
    assert Wrote(hash, d, event, d) by { assert d == Written(hash, d, event, 0); }
    assert Wrote(hash, loaded, event, loaded) by { assert loaded == Written(hash, loaded, event, 0); }
    if !loads || writes < RepairWrites(d) {
      p := Parts(d, d, event, d);
    } else if Stopped(d) {
      p := Parts(loaded, loaded, event, loaded);
    } else if |d.events| == EventCount(spec) {
      p := Parts(loaded, loaded, event, loaded);
      CompletingCloses(spec, hash, loaded, Instances(d.events), gate, WritesLeft(d, writes));
    } else {
      p := Parts(loaded, ran, event, written);
    }
  }

  lemma WritingKeepsHeads(spec: Spec, hash: Event -> nat, d: Disk, event: Event, writes: nat)
    requires ListingOk(spec, d.events, d.heads) && HeadsMatch(hash, d) && |d.heads| == |d.events| < EventCount(spec)
    ensures var d' := Written(hash, d, event, writes); ListingOk(spec, d'.events, d'.heads) && HeadsMatch(hash, d')
  {
  }

  lemma AppendKeepsEvents(hash: Event -> nat, events: seq<File<Event>>, event: Event)
    requires EventsSound(hash, events) && Follows(hash, events, event)
    requires events != [] ==> events[|events| - 1].document.status.Passed?
    ensures EventsSound(hash, events + [File(|events| + 1, event)])
  {
    var added := File(|events| + 1, event);
    AppendKeepsLinks(hash, events, event);
    AppendKeepsPassed(events, added);
    AppendKeepsInstances(events, added);
  }

  lemma WritingIsSound(spec: Spec, hash: Event -> nat, d: Disk, event: Event, writes: nat)
    requires Inv(spec, hash, d) && |d.heads| == |d.events| < EventCount(spec) && !Stopped(d)
    requires Follows(hash, d.events, event)
    ensures Inv(spec, hash, Written(hash, d, event, writes))
  {
    if writes > 0 {
      WritingKeepsHeads(spec, hash, d, event, writes);
      AppendKeepsEvents(hash, d.events, event);
      assert Written(hash, d, event, writes).events == d.events + [File(|d.events| + 1, event)];
    }
  }

  lemma OnlyFilesMatter(spec: Spec, hash: Event -> nat, d: Disk, d': Disk)
    requires Inv(spec, hash, d) && d'.events == d.events && d'.heads == d.heads
    ensures Inv(spec, hash, d')
  {
  }

  lemma PartsAreSound(spec: Spec, hash: Event -> nat, d: Disk, p: Parts, d': Disk)
    requires Inv(spec, hash, d) && MadeOf(spec, hash, d, p, d')
    ensures Inv(spec, hash, d')
  {
    RepairIsSound(spec, hash, d);
    OnlyFilesMatter(spec, hash, p.loaded, p.ran);
    if p.written != p.ran {
      var writes: nat :| p.written == Written(hash, p.ran, p.event, writes);
      WritingIsSound(spec, hash, p.ran, p.event, writes);
    }
    OnlyFilesMatter(spec, hash, p.written, d');
  }

  lemma PartsGrow(spec: Spec, hash: Event -> nat, d: Disk, p: Parts, d': Disk)
    requires |d.heads| <= |d.events| <= |d.heads| + 1 && MadeOf(spec, hash, d, p, d')
    ensures Grows(d, d')
  {
    var writes: nat :| p.written == Written(hash, p.ran, p.event, writes);
  }

  /** An advance keeps a sound directory sound, wherever it dies, and only lets it grow. */
  lemma AdvanceIsSound(spec: Spec, hash: Event -> nat, d: Disk, inputs: Inputs)
    requires Proper(spec) && Inv(spec, hash, d)
    ensures Inv(spec, hash, Advanced(spec, hash, d, inputs).disk)
    ensures Grows(d, Advanced(spec, hash, d, inputs).disk)
  {
    var d' := Advanced(spec, hash, d, inputs).disk;
    var p := AdvanceParts(spec, hash, d, inputs);
    PartsAreSound(spec, hash, d, p, d');
    PartsGrow(spec, hash, d, p, d');
  }

  // ----- Whole histories -----

  /** What any later directory owes to an earlier one. */
  ghost predicate Keeps(d: Disk, d': Disk) {
    && d.events <= d'.events && d.heads <= d'.heads && d.runs <= d'.runs
    && (d.outcome.Some? ==> d'.outcome == d.outcome)
    && (Stopped(d) ==> d'.events == d.events && d'.runs == d.runs)
  }

  /** A step that keeps sound directories sound, and lets them grow only. */
  ghost predicate Soundly(spec: Spec, hash: Event -> nat, d: Disk, d': Disk) {
    Inv(spec, hash, d) ==> Inv(spec, hash, d') && Keeps(d, d')
  }

  lemma HappenedSoundly(spec: Spec, hash: Event -> nat, d: Disk, o: Occasion)
    requires Proper(spec)
    ensures Soundly(spec, hash, d, Happened(spec, hash, d, o))
  {
    if Inv(spec, hash, d) {
      match o
      case Advancing(inputs) => AdvanceIsSound(spec, hash, d, inputs);
      case Altering(stages) => OnlyFilesMatter(spec, hash, d, d.(stages := stages));
    }
  }

  /** The directory at the start and after every occasion. */
  function Trace(spec: Spec, hash: Event -> nat, d: Disk, occasions: seq<Occasion>): (trace: seq<Disk>)
    requires Proper(spec)
    ensures |trace| == |occasions| + 1
    ensures forall k :: 0 <= k < |trace| ==> trace[k] == DiskAfter(spec, hash, d, occasions, k)
  {
    seq(|occasions| + 1, k requires 0 <= k <= |occasions| => DiskAfter(spec, hash, d, occasions, k))
  }

  lemma {:induction false} KeepsThrough(spec: Spec, hash: Event -> nat, trace: seq<Disk>, i: nat, j: nat)
    requires i <= j < |trace| && Inv(spec, hash, trace[0])
    requires forall k :: 0 < k < |trace| ==> Soundly(spec, hash, trace[k - 1], trace[k])
    ensures Inv(spec, hash, trace[j]) && Keeps(trace[i], trace[j])
    decreases j
  {
    if j == 0 {
    } else {
      KeepsThrough(spec, hash, trace, if i < j then i else j - 1, j - 1);
      assert Soundly(spec, hash, trace[j - 1], trace[j]);
    }
  }

  /**
    Over any history of advances, crashes between writes and changes around the campaign:
    directories stay sound, events, heads and runs only grow, the outcome stays, and the
    first event that did not pass is the last.
  */
  lemma HistoryOnlyGrows(spec: Spec, hash: Event -> nat, d: Disk, occasions: seq<Occasion>, i: nat, j: nat)
    requires Proper(spec) && Inv(spec, hash, d) && i <= j <= |occasions|
    ensures Inv(spec, hash, DiskAfter(spec, hash, d, occasions, j))
    ensures Keeps(DiskAfter(spec, hash, d, occasions, i), DiskAfter(spec, hash, d, occasions, j))
  {
    var trace := Trace(spec, hash, d, occasions);
    forall k | 0 < k < |trace| ensures Soundly(spec, hash, trace[k - 1], trace[k]) {
      HappenedSoundly(spec, hash, trace[k - 1], occasions[k - 1]);
    }
    KeepsThrough(spec, hash, trace, i, j);
  }

  // ----- When a stage is started, and when it is started again -----

  /** The advance gets as far as the next stage. */
  predicate ReachesStage(spec: Spec, hash: Event -> nat, d: Disk, inputs: Inputs)
    requires Proper(spec)
  {
    Loads(spec, hash, d) && RepairWrites(d) <= inputs.writes && !Stopped(d) && |d.events| < EventCount(spec)
  }

  function NextRequest(spec: Spec, d: Disk): Request
    requires Proper(spec) && |d.events| < EventCount(spec)
  {
    StageRequest(spec, |d.events| + 1).value
  }

  lemma StageReached(spec: Spec, hash: Event -> nat, d: Disk, inputs: Inputs)
    requires Proper(spec) && ReachesStage(spec, hash, d, inputs)
    ensures Advanced(spec, hash, d, inputs)
      == Staged(spec, hash, Repaired(hash, d), Instances(d.events), inputs, WritesLeft(d, inputs.writes))
  {
    var staged := Staged(spec, hash, Repaired(hash, d), Instances(d.events), inputs, WritesLeft(d, inputs.writes));
    EnteredCases(spec, hash, d, Loads(spec, hash, d), inputs.gate, inputs.writes, staged);
  }

  lemma StageNotReached(spec: Spec, hash: Event -> nat, d: Disk, inputs: Inputs)
    requires Proper(spec) && !ReachesStage(spec, hash, d, inputs)
    ensures var d' := Advanced(spec, hash, d, inputs).disk;
      d'.runs == d.runs && d'.events == d.events && d'.stages == d.stages
  {
    var staged := Staged(spec, hash, Repaired(hash, d), Instances(d.events), inputs, WritesLeft(d, inputs.writes));
    EnteredElsewhere(spec, hash, d, Loads(spec, hash, d), inputs.gate, inputs.writes, staged);
  }

  lemma EnteredElsewhere(
    spec: Spec, hash: Event -> nat, d: Disk, loads: bool, gate: Option<bool>, writes: nat, staged: Progress)
    requires !loads || writes < RepairWrites(d) || Stopped(d) || |d.events| == EventCount(spec)
    ensures var d' := Entered(spec, hash, d, loads, gate, writes, staged).disk;
      d'.runs == d.runs && d'.events == d.events && d'.stages == d.stages
  {
    EnteredCases(spec, hash, d, loads, gate, writes, staged);
  }

  lemma StagingRuns(spec: Spec, hash: Event -> nat, d: Disk, used: set<string>, inputs: Inputs, writes: nat)
    requires Proper(spec) && |d.events| < EventCount(spec)
    ensures var d' := Staged(spec, hash, d, used, inputs, writes).disk;
      var after := AfterStart(d, NextRequest(spec, d), used, inputs);
      d'.runs == after.runs && d'.stages == after.stages
  {
    var q := NextRequest(spec, d);
    var obtained, after := Obtain(d, q, used, inputs), AfterStart(d, q, used, inputs);
    StagedAsKeepsRuns(spec, hash, after, obtained, EventOf(spec, hash, after, q, obtained), used, inputs.gate, writes);
  }

  lemma StagedAsKeepsRuns(
    spec: Spec, hash: Event -> nat, d: Disk, obtained: Obtained, event: Option<Event>, used: set<string>,
    gate: Option<bool>, writes: nat)
    ensures var d' := StagedAs(spec, hash, d, obtained, event, used, gate, writes).disk;
      d'.runs == d.runs && d'.stages == d.stages
  {
    RecordingKeepsRuns(spec, hash, d, event, Reuses(obtained, used), used, gate, writes);
  }

  lemma RecordingKeepsRuns(
    spec: Spec, hash: Event -> nat, d: Disk, event: Option<Event>, reuses: bool, used: set<string>, gate: Option<bool>,
    writes: nat)
    ensures var d' := Recorded(spec, hash, d, event, reuses, used, gate, writes).disk;
      d'.runs == d.runs && d'.stages == d.stages
  {
  }

  /** An advance starts exactly the next stage, and exactly when it reads as absent and the runtime is ready. */
  lemma StartsIff(spec: Spec, hash: Event -> nat, d: Disk, inputs: Inputs)
    requires Proper(spec)
    ensures var d' := Advanced(spec, hash, d, inputs).disk;
      if ReachesStage(spec, hash, d, inputs) && Starts(d, NextRequest(spec, d), Instances(d.events), inputs) then
        d'.runs == d.runs + [|d.events| + 1] && d'.stages == d.stages[|d.events| + 1 := inputs.runLeaves]
      else d'.runs == d.runs && d'.stages == d.stages
  {
    if ReachesStage(spec, hash, d, inputs) {
      var used, writes := Instances(d.events), WritesLeft(d, inputs.writes);
      StageReached(spec, hash, d, inputs);
      StagingRuns(spec, hash, Repaired(hash, d), used, inputs, writes);
    } else {
      StageNotReached(spec, hash, d, inputs);
    }
  }

  /** A step starts a stage only if its directory reads as absent. */
  ghost predicate StartsAbsent(d: Disk, d': Disk) {
    d'.runs == d.runs || (
      |d'.runs| == |d.runs| + 1 && d.runs <= d'.runs && Inspect(d.stages, d'.runs[|d.runs|]).Absent?)
  }

  lemma HappenedStartsAbsent(spec: Spec, hash: Event -> nat, d: Disk, o: Occasion)
    requires Proper(spec)
    ensures StartsAbsent(d, Happened(spec, hash, d, o))
  {
    match o
    case Advancing(inputs) => StartsIff(spec, hash, d, inputs);
    case Altering(_) =>
  }

  lemma {:induction false} NotStartedThrough(trace: seq<Disk>, s: int, i: nat, j: nat)
    requires i <= j < |trace| && forall k :: 0 < k < |trace| ==> StartsAbsent(trace[k - 1], trace[k])
    requires forall k :: i <= k < j ==> !Inspect(trace[k].stages, s).Absent?
    ensures trace[i].runs <= trace[j].runs
    ensures forall m :: |trace[i].runs| <= m < |trace[j].runs| ==> trace[j].runs[m] != s
  {
    if i == j {
    } else {
      NotStartedThrough(trace, s, i, j - 1);
      assert StartsAbsent(trace[j - 1], trace[j]);
    }
  }

  /** As long as a partial or complete stage goes on showing something, it is never started again. */
  lemma NeverRerun(spec: Spec, hash: Event -> nat, d: Disk, occasions: seq<Occasion>, s: int, i: nat, j: nat)
    requires Proper(spec) && i <= j <= |occasions|
    requires forall k :: i <= k < j ==> !Inspect(DiskAfter(spec, hash, d, occasions, k).stages, s).Absent?
    ensures var before := DiskAfter(spec, hash, d, occasions, i).runs;
      var after := DiskAfter(spec, hash, d, occasions, j).runs;
      before <= after && forall m :: |before| <= m < |after| ==> after[m] != s
  {
    var trace := Trace(spec, hash, d, occasions);
    forall k | 0 < k < |trace| ensures StartsAbsent(trace[k - 1], trace[k]) {
      HappenedStartsAbsent(spec, hash, trace[k - 1], occasions[k - 1]);
    }
    NotStartedThrough(trace, s, i, j);
  }

  /**
    A stage started before is started again, once the runtime is ready, iff all that its starts
    left reads as absent.
  */
  lemma StartedAgainIff(spec: Spec, hash: Event -> nat, d: Disk, inputs: Inputs)
    requires Proper(spec) && ReachesStage(spec, hash, d, inputs) && |d.events| + 1 in d.runs
    requires d.events == [] || ReadyWith(inputs.readiness, Instances(d.events))
    ensures Advanced(spec, hash, d, inputs).disk.runs == d.runs + [|d.events| + 1]
      <==> Inspect(d.stages, |d.events| + 1).Absent?
  {
    StartsIff(spec, hash, d, inputs);
  }

  /** And that does happen. */
  lemma StartedTwice(spec: Spec, hash: Event -> nat) returns (occasions: seq<Occasion>)
    requires Proper(spec)
    ensures |occasions| == 2 && DiskAfter(spec, hash, EMPTY_DISK, occasions, 2).runs == [1, 1]
  {
    var inputs := Inputs(Readiness(false, None), None, Absent, None, 0);
    occasions := [Advancing(inputs), Advancing(inputs)];
    var first := DiskAfter(spec, hash, EMPTY_DISK, occasions, 1);
    assert DiskAfter(spec, hash, EMPTY_DISK, occasions, 0) == EMPTY_DISK;
    StartsIff(spec, hash, EMPTY_DISK, inputs);
    assert first.events == [] && first.heads == [] && Inspect(first.stages, 1).Absent?;
    StartsIff(spec, hash, first, inputs);
  }

  /** No stage was started twice, and every started stage shows something. */
  ghost predicate RunsSound(d: Disk) {
    && (forall i :: 0 <= i < |d.runs| ==> !Inspect(d.stages, d.runs[i]).Absent?)
    && (forall i, j :: 0 <= i < j < |d.runs| ==> d.runs[i] != d.runs[j])
  }

  /** Every start leaves something, and nothing that shows stops showing. */
  ghost predicate Persists(spec: Spec, hash: Event -> nat, d: Disk, o: Occasion)
    requires Proper(spec)
  {
    match o
    case Advancing(inputs) => !inputs.runLeaves.Absent?
    case Altering(stages) => forall s :: !Inspect(d.stages, s).Absent? ==> !Inspect(stages, s).Absent?
  }

  ghost predicate RunsSoundly(d: Disk, d': Disk) {
    RunsSound(d) ==> RunsSound(d')
  }

  lemma HappenedRunsSoundly(spec: Spec, hash: Event -> nat, d: Disk, o: Occasion)
    requires Proper(spec) && Persists(spec, hash, d, o)
    ensures RunsSoundly(d, Happened(spec, hash, d, o))
  {
    match o
    case Advancing(inputs) => StartsIff(spec, hash, d, inputs);
    case Altering(_) =>
  }

  lemma {:induction false} RunsSoundThrough(trace: seq<Disk>, n: nat)
    requires n < |trace| && RunsSound(trace[0])
    requires forall k :: 0 < k < |trace| ==> RunsSoundly(trace[k - 1], trace[k])
    ensures RunsSound(trace[n])
  {
    if n == 0 {
    } else {
      RunsSoundThrough(trace, n - 1);
      assert RunsSoundly(trace[n - 1], trace[n]);
    }
  }

  /** Where everything persists, every stage of a history is started at most once. */
  lemma StartedAtMostOnce(spec: Spec, hash: Event -> nat, d: Disk, occasions: seq<Occasion>)
    requires Proper(spec) && RunsSound(d)
    requires forall k :: 0 <= k < |occasions| ==>
      Persists(spec, hash, DiskAfter(spec, hash, d, occasions, k), occasions[k])
    ensures RunsSound(DiskAfter(spec, hash, d, occasions, |occasions|))
  {
    var trace := Trace(spec, hash, d, occasions);
    forall k | 0 < k < |trace| ensures RunsSoundly(trace[k - 1], trace[k]) {
      HappenedRunsSoundly(spec, hash, trace[k - 1], occasions[k - 1]);
    }
    RunsSoundThrough(trace, |occasions|);
  }

  // ----- Progress -----

  /** What the next stage yields is fit to become an event. */
  predicate Due(spec: Spec, hash: Event -> nat, d: Disk, inputs: Inputs)
    requires Proper(spec) && |d.events| < EventCount(spec)
  {
    var q, used := NextRequest(spec, d), Instances(d.events);
    var obtained := Obtain(d, q, used, inputs);
    !Reuses(obtained, used) && EventOf(spec, hash, d, q, obtained).Some?
  }

  function NextEvent(spec: Spec, hash: Event -> nat, d: Disk, inputs: Inputs): Event
    requires Proper(spec) && |d.events| < EventCount(spec) && Due(spec, hash, d, inputs)
  {
    var q := NextRequest(spec, d);
    EventOf(spec, hash, d, q, Obtain(d, q, Instances(d.events), inputs)).value
  }

  /**
    An advance that reaches a stage fit to become an event, and lives to make three writes,
    appends exactly that event and its head; any other advance appends nothing, or the event
    without its head if it dies in between.
  */
  lemma AdvanceAppends(spec: Spec, hash: Event -> nat, d: Disk, inputs: Inputs)
    requires Proper(spec)
    ensures var d' := Advanced(spec, hash, d, inputs).disk;
      if !ReachesStage(spec, hash, d, inputs) || !Due(spec, hash, d, inputs) || inputs.writes == RepairWrites(d) then
        d'.events == d.events
      else
        && d'.events == d.events + [File(|d.events| + 1, NextEvent(spec, hash, d, inputs))]
        && (inputs.writes >= RepairWrites(d) + 2 ==>
             d'.heads == Repaired(hash, d).heads
               + [File(|d.events| + 1, Head(|d.events| + 1, hash(NextEvent(spec, hash, d, inputs))))])
  {
    if ReachesStage(spec, hash, d, inputs) {
      var loaded, used := Repaired(hash, d), Instances(d.events);
      StageReached(spec, hash, d, inputs);
      SameStage(spec, hash, d, loaded, used, inputs);
      StagingAppends(spec, hash, loaded, used, inputs, WritesLeft(d, inputs.writes));
    } else {
      StageNotReached(spec, hash, d, inputs);
    }
  }

  /** What a stage yields does not depend on the heads, nor an event on the run. */
  lemma SameStage(spec: Spec, hash: Event -> nat, d: Disk, d': Disk, used: set<string>, inputs: Inputs)
    requires Proper(spec) && |d.events| < EventCount(spec)
    requires d'.events == d.events && d'.stages == d.stages
    ensures var q := NextRequest(spec, d);
      && Obtain(d', q, used, inputs) == Obtain(d, q, used, inputs)
      && forall obtained :: EventOf(spec, hash, d', q, obtained) == EventOf(spec, hash, d, q, obtained)
  {
  }

  lemma StagingAppends(spec: Spec, hash: Event -> nat, d: Disk, used: set<string>, inputs: Inputs, writes: nat)
    requires Proper(spec) && |d.events| < EventCount(spec)
    ensures var q := NextRequest(spec, d);
      var obtained, d' := Obtain(d, q, used, inputs), Staged(spec, hash, d, used, inputs, writes).disk;
      AppendsFrom(hash, d, EventOf(spec, hash, d, q, obtained), Reuses(obtained, used), writes, d')
  {
    var q := NextRequest(spec, d);
    var obtained, after := Obtain(d, q, used, inputs), AfterStart(d, q, used, inputs);
    var event := EventOf(spec, hash, after, q, obtained);
    SameStage(spec, hash, d, d.(stages := d.stages, runs := after.runs), used, inputs);
    assert event == EventOf(spec, hash, d, q, obtained);
    StagedAsAppends(spec, hash, after, obtained, event, used, inputs.gate, writes);
  }

  lemma StagedAsAppends(
    spec: Spec, hash: Event -> nat, d: Disk, obtained: Obtained, event: Option<Event>, used: set<string>,
    gate: Option<bool>, writes: nat)
    requires obtained.NeedsRestart? || obtained.NotObtained? ==> event.None?
    ensures AppendsFrom(
      hash, d, event, Reuses(obtained, used), writes,
      StagedAs(spec, hash, d, obtained, event, used, gate, writes).disk)
  {
    RecordingAppends(spec, hash, d, event, Reuses(obtained, used), used, gate, writes);
  }

  ghost predicate AppendsFrom(hash: Event -> nat, d: Disk, event: Option<Event>, reuses: bool, writes: nat, d': Disk) {
    if reuses || event.None? then d'.events == d.events && d'.heads == d.heads
    else
      var written := Written(hash, d, event.value, writes);
      d'.events == written.events && d'.heads == written.heads
  }

  lemma RecordingAppends(
    spec: Spec, hash: Event -> nat, d: Disk, event: Option<Event>, reuses: bool, used: set<string>, gate: Option<bool>,
    writes: nat)
    ensures AppendsFrom(hash, d, event, reuses, writes, Recorded(spec, hash, d, event, reuses, used, gate, writes).disk)
  {
  }

  /** What the answer of an advance says about the directory it leaves behind. */
  ghost predicate Concludes(spec: Spec, d: Disk, p: Progress) {
    match p.advance
    case StageCompleted => |p.disk.events| == |d.events| + 1 && !Stopped(p.disk)
    case CampaignFailed => Stopped(p.disk)
    case RestartRequired => p.disk.events == d.events && p.disk.runs == d.runs && p.disk.outcome == d.outcome
    case CampaignDone(passed) =>
      && |p.disk.events| == EventCount(spec) && !Stopped(p.disk)
      && p.disk.outcome.Some? && p.disk.outcome.value.passed == passed
    case _ => true
  }

  lemma RecordingConcludes(
    spec: Spec, hash: Event -> nat, d: Disk, event: Option<Event>, reuses: bool, used: set<string>, gate: Option<bool>,
    writes: nat)
    ensures var p := Recorded(spec, hash, d, event, reuses, used, gate, writes);
      Concludes(spec, d, p) && !p.advance.RestartRequired? && (p.advance.Died? ==> writes < 3)
  {
  }

  lemma StagedAsConcludes(
    spec: Spec, hash: Event -> nat, d: Disk, obtained: Obtained, event: Option<Event>, used: set<string>,
    gate: Option<bool>, writes: nat)
    ensures var p := StagedAs(spec, hash, d, obtained, event, used, gate, writes);
      && Concludes(spec, d, p) && (p.advance.Died? ==> writes < 3)
      && (p.advance.RestartRequired? ==> obtained.NeedsRestart?)
  {
    RecordingConcludes(spec, hash, d, event, Reuses(obtained, used), used, gate, writes);
  }

  lemma StagingConcludes(spec: Spec, hash: Event -> nat, d: Disk, used: set<string>, inputs: Inputs, writes: nat)
    requires Proper(spec)
    ensures var p := Staged(spec, hash, d, used, inputs, writes);
      Concludes(spec, d, p) && (p.advance.Died? ==> writes < 3)
  {
    var request := StageRequest(spec, |d.events| + 1);
    if request.Some? {
      var q := request.value;
      var obtained, after := Obtain(d, q, used, inputs), AfterStart(d, q, used, inputs);
      var event := EventOf(spec, hash, after, q, obtained);
      StagedAsConcludes(spec, hash, after, obtained, event, used, inputs.gate, writes);
      RestartMeansNotStarted(d, q, used, inputs);
      StillConcludes(spec, d, after, StagedAs(spec, hash, after, obtained, event, used, inputs.gate, writes));
    }
  }

  lemma RestartMeansNotStarted(d: Disk, q: Request, used: set<string>, inputs: Inputs)
    ensures Obtain(d, q, used, inputs).NeedsRestart? ==> AfterStart(d, q, used, inputs) == d
    ensures AfterStart(d, q, used, inputs).events == d.events
  {
  }

  /** A start changes nothing that the answer speaks of. */
  lemma StillConcludes(spec: Spec, d: Disk, after: Disk, p: Progress)
    requires Concludes(spec, after, p) && after.events == d.events && (p.advance.RestartRequired? ==> after == d)
    ensures Concludes(spec, d, p)
  {
  }

  lemma EnteredConcludes(
    spec: Spec, hash: Event -> nat, d: Disk, loads: bool, gate: Option<bool>, writes: nat, staged: Progress)
    requires Concludes(spec, Repaired(hash, d), staged) && (staged.advance.Died? ==> WritesLeft(d, writes) < 3)
    ensures var p := Entered(spec, hash, d, loads, gate, writes, staged);
      Concludes(spec, d, p) && (p.advance.Died? ==> WritesLeft(d, writes) < 3)
  {
    EnteredCases(spec, hash, d, loads, gate, writes, staged);
  }

  /** Every answer tells the truth, and an advance that may still make three writes behind the repair does not die. */
  lemma AdvanceConcludes(spec: Spec, hash: Event -> nat, d: Disk, inputs: Inputs)
    requires Proper(spec)
    ensures Concludes(spec, d, Advanced(spec, hash, d, inputs))
    ensures Advanced(spec, hash, d, inputs).advance.Died? ==> WritesLeft(d, inputs.writes) < 3
  {
    var loaded, used, writes := Repaired(hash, d), Instances(d.events), WritesLeft(d, inputs.writes);
    StagingConcludes(spec, hash, loaded, used, inputs, writes);
    EnteredConcludes(
      spec, hash, d, Loads(spec, hash, d), inputs.gate, inputs.writes,
      Staged(spec, hash, loaded, used, inputs, writes));
  }

  /** A full chain that did not stop is completed by any advance with a verdict of the gate and two writes. */
  lemma FullChainCompletes(spec: Spec, hash: Event -> nat, d: Disk, inputs: Inputs)
    requires Proper(spec) && Inv(spec, hash, d) && Loads(spec, hash, d)
    requires |d.events| == EventCount(spec) && !Stopped(d) && inputs.gate.Some? && inputs.writes >= 2
    ensures var outcome := CampaignOutcome(
      hash(d.events[|d.events| - 1].document), EventCount(spec), inputs.gate.value);
      Advanced(spec, hash, d, inputs) ==
        if d.outcome.Some? && d.outcome.value != outcome then
          Progress(Repaired(hash, d), Raised(OutcomeInvalid))
        else Progress(Repaired(hash, d).(outcome := Some(outcome)), CampaignDone(inputs.gate.value))
  {
    FullChainPassed(spec, hash, d);
  }

  // ----- Full chains -----

  /** A full chain that did not stop: every stage passed, each on a model instance of its own. */
  lemma FullChainPassed(spec: Spec, hash: Event -> nat, d: Disk)
    requires Inv(spec, hash, d) && |d.events| == EventCount(spec) && !Stopped(d)
    ensures forall n :: 0 <= n < |d.events| ==> d.events[n].document.status.Passed?
    ensures |Instances(d.events)| == (if spec.version.V2? then 17 else 13)
  {
    assert d.events[|d.events| - 1].document.status.Passed?;
    DistinctInstancesCount(d.events, |d.events|);
    assert d.events[..|d.events|] == d.events;
  }

  lemma {:induction false} DistinctInstancesCount(events: seq<File<Event>>, n: nat)
    requires n <= |events| && InstancesSound(events)
    requires forall i :: 0 <= i < n ==> events[i].document.status.Passed?
    ensures |Instances(events[..n])| == n
  {
    if n == 0 {
    } else {
      DistinctInstancesCount(events, n - 1);
      InstancesOneMore(events, n - 1);
      assert InstanceNew(events, n - 1);
      InstanceNewIff(events, n - 1);
    }
  }

  /** Sound directories whose last heads carry the same digest hold the same events. */
  lemma EqualHeadsEqualChains(spec: Spec, hash: Event -> nat, d: Disk, d': Disk)
    requires Inv(spec, hash, d) && Inv(spec, hash, d') && Injective(hash)
    requires |d.heads| == |d.events| > 0 && |d'.heads| == |d'.events| > 0
    requires d.heads[|d.heads| - 1].document.digest == d'.heads[|d'.heads| - 1].document.digest
    ensures d.events == d'.events
  {
    HeadDeterminesChain(hash, d.events, d'.events);
  }

  // ----- When the next advance can read what this one wrote -----

  /**
    After an event is written for a valid result, the directory loads again if and only if
    the result does not carry the reserved category of partial stages.
  */
  lemma ReloadsUnlessReserved(
    spec: Spec, hash: Event -> nat, d: Disk, r: StageResult, event: Event, heads: seq<File<Head>>)
    requires Proper(spec) && Loadable(spec, hash, d.stages, d.events, d.heads)
    requires |d.heads| == |d.events| < EventCount(spec) && Inspect(d.stages, |d.events| + 1) == Complete(r)
    requires r.instance.Some? ==> r.instance.value !in Instances(d.events)
    requires var n := |d.events|; var q := StageRequest(spec, n + 1).value;
      && ValidResult(q, r)
      && EventRecord(spec, q, r, DigestBefore(hash, d.events, n), Predecessor(spec, q, d.events, n)) == Some(event)
    requires heads == d.heads || heads == d.heads + [File(|d.events| + 1, Head(|d.events| + 1, hash(event)))]
    ensures Loadable(spec, hash, d.stages, d.events + [File(|d.events| + 1, event)], heads)
      <==> r.failureCategory != Some(PARTIAL_STAGE)
  {
    var n := |d.events|;
    var added := File(n + 1, event);
    var longer := d.events + [added];
    WrittenEventLoadsIff(spec, hash, d.stages, d.events, r, event);
    forall i | 0 <= i < n ensures LoadsAt(spec, hash, d.stages, longer, heads, i) {
      assert LoadsAt(spec, hash, d.stages, d.events, d.heads, i);
      EarlierEventsStillLoad(spec, hash, d.stages, d.events, d.heads, added, heads, i);
    }
    InstanceNewIff(longer, n);
    assert longer[..n] == d.events;
    assert LoadsAt(spec, hash, d.stages, longer, heads, n) <==> EventLoads(spec, hash, d.stages, longer, n);
  }
}
