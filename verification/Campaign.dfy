/**
  Advancing a qualification campaign (qualification_campaign.py).

  Everything the campaign knows is in its private directory: event files, one head file per
  event, the run directories of the stages, and at the end one outcome file.  Every file
  write is atomic and never replaces a file; the process may die before any of them.
*/
module Campaign {
  import opened Wrappers
  import opened CampaignChain

  datatype CampaignOutcome = CampaignOutcome(headDigest: nat, eventCount: nat, passed: bool)

  /** The private directory, with a log of the stages ever started. */
  datatype Disk = Disk(
    events: seq<File<Event>>, heads: seq<File<Head>>, outcome: Option<CampaignOutcome>, stages: Stages, runs: seq<int>)

  const EMPTY_DISK := Disk([], [], None, map[], [])

  /** The last event did not pass. */
  predicate Stopped(d: Disk) {
    d.events != [] && !d.events[|d.events| - 1].document.status.Passed?
  }

  // ----- What one advance does -----

  datatype Error =
    | ChainInvalid | InstanceReused | InstanceInvalid | StageStateInvalid
    | StageOutcomeInvalid | RunnerFailed | OutcomeInvalid | GateFailed

  datatype Readiness = Readiness(ready: bool, instance: Option<string>)

  /**
    What the surroundings answer during one advance, and how many file writes it lives to
    make.  Starting a stage may leave anything behind, and may leave nothing that shows.
  */
  datatype Inputs = Inputs(
    readiness: Readiness, runReturns: Option<StageResult>, runLeaves: Inspection, gate: Option<bool>, writes: nat)

  datatype Advance =
    | StageCompleted
    | RestartRequired
    | CampaignFailed
    | CampaignDone(passed: bool)
    | Raised(error: Error)
    | Died

  datatype Progress = Progress(disk: Disk, advance: Advance)

  predicate HeadMissing(d: Disk) {
    |d.heads| < |d.events|
  }

  /** The directory with the head that a crash left out. */
  function Repaired(hash: Event -> nat, d: Disk): Disk {
    if !HeadMissing(d) then d else
      var n := |d.events|;
      d.(heads := d.heads + [File(n, Head(n, hash(d.events[n - 1].document)))])
  }

  /** The probe found a ready runtime on a model instance that was not used before. */
  predicate ReadyWith(readiness: Readiness, used: set<string>) {
    readiness.ready && readiness.instance.Some? && IsSha(readiness.instance.value) && readiness.instance.value !in used
  }

  /** A stage is started when its directory reads as absent and, after the preflight, the runtime is ready. */
  predicate Starts(d: Disk, q: Request, used: set<string>, inputs: Inputs) {
    Inspect(d.stages, q.sequence).Absent? && (q.stage.Preflight? || ReadyWith(inputs.readiness, used))
  }

  function AfterStart(d: Disk, q: Request, used: set<string>, inputs: Inputs): Disk {
    if !Starts(d, q, used, inputs) then d
    else d.(stages := d.stages[q.sequence := inputs.runLeaves], runs := d.runs + [q.sequence])
  }

  datatype Obtained = Obtained(result: StageResult) | FoundPartial | NeedsRestart | NotObtained(error: Error)

  /** The result of a stage: found complete, or returned by the run that was started. */
  function Obtain(d: Disk, q: Request, used: set<string>, inputs: Inputs): Obtained {
    match Inspect(d.stages, q.sequence)
    case Partial => FoundPartial
    case Contradictory => NotObtained(StageStateInvalid)
    case Complete(result) => if ValidResult(q, result) then Obtained(result) else NotObtained(StageOutcomeInvalid)
    case Absent =>
      var readiness := inputs.readiness;
      if !Starts(d, q, used, inputs) then
        if !readiness.ready && readiness.instance.None? then NeedsRestart else NotObtained(InstanceInvalid)
      else if inputs.runReturns.None? then NotObtained(RunnerFailed)
      else
        var result := inputs.runReturns.value;
        if !ValidResult(q, result) then NotObtained(StageOutcomeInvalid)
        else if !q.stage.Preflight? && result.instance.Some? && result.instance != readiness.instance then
          NotObtained(InstanceInvalid)
        else Obtained(result)
  }

  /** The record of a partial stage, or of a result that meets the requirements of its version. */
  function EventOf(spec: Spec, hash: Event -> nat, d: Disk, q: Request, obtained: Obtained): Option<Event> {
    var previous := DigestBefore(hash, d.events, |d.events|);
    match obtained
    case FoundPartial => Some(PartialRecord(spec, q, previous))
    case Obtained(result) => EventRecord(spec, q, result, previous, Predecessor(spec, q, d.events, |d.events|))
    case _ => None
  }

  predicate Reuses(obtained: Obtained, used: set<string>) {
    obtained.Obtained? && obtained.result.instance.Some? && obtained.result.instance.value in used
  }

  /** The event, then its head, as far as the writes last. */
  function Written(hash: Event -> nat, d: Disk, event: Event, writes: nat): Disk {
    var n := |d.events| + 1;
    if writes == 0 then d
    else if writes == 1 then d.(events := d.events + [File(n, event)])
    else d.(events := d.events + [File(n, event)], heads := d.heads + [File(n, Head(n, hash(event)))])
  }

  /** How each version names a wrong number of model instances. */
  function MiscountOf(spec: Spec): Error {
    if spec.version.V2? then ChainInvalid else InstanceInvalid
  }

  /** The outcome of a full chain, written once and only confirmed afterwards. */
  function Completed(
    spec: Spec, hash: Event -> nat, d: Disk, used: set<string>, gate: Option<bool>, writes: nat): Progress
    requires d.events != []
  {
    if |used| != EventCount(spec) then Progress(d, Raised(MiscountOf(spec)))
    else if gate.None? then Progress(d, Raised(GateFailed))
    else
      var outcome := CampaignOutcome(hash(d.events[|d.events| - 1].document), EventCount(spec), gate.value);
      if d.outcome.Some? && d.outcome.value != outcome then Progress(d, Raised(OutcomeInvalid))
      else if d.outcome.None? && writes == 0 then Progress(d, Died)
      else Progress(d.(outcome := Some(outcome)), CampaignDone(gate.value))
  }

  /** What becomes of a stage that was found partial or has a result, given the event it makes, if any. */
  function Recorded(
    spec: Spec, hash: Event -> nat, d: Disk, event: Option<Event>, reuses: bool, used: set<string>, gate: Option<bool>,
    writes: nat):
    Progress
  {
    if reuses then Progress(d, Raised(InstanceReused))
    else if event.None? then Progress(d, Raised(StageOutcomeInvalid))
    else
      var written, last := Written(hash, d, event.value, writes), |d.events| + 1 == EventCount(spec);
      if writes < 2 then Progress(written, Died)
      else if last && event.value.status.Passed? then
        Completed(spec, hash, written, used + InstanceOf(event.value), gate, writes - 2)
      else Progress(written, if event.value.status.Passed? then StageCompleted else CampaignFailed)
  }

  function InstanceOf(event: Event): set<string> {
    if event.instance.Some? then {event.instance.value} else {}
  }

  /** What becomes of the next stage, given how it was obtained and the event it makes. */
  function StagedAs(
    spec: Spec, hash: Event -> nat, d: Disk, obtained: Obtained, event: Option<Event>, used: set<string>,
    gate: Option<bool>, writes: nat):
    Progress
  {
    match obtained
    case NeedsRestart => Progress(d, RestartRequired)
    case NotObtained(error) => Progress(d, Raised(error))
    case _ => Recorded(spec, hash, d, event, Reuses(obtained, used), used, gate, writes)
  }

  function Staged(spec: Spec, hash: Event -> nat, d: Disk, used: set<string>, inputs: Inputs, writes: nat): Progress
    requires Proper(spec)
  {
    var request := StageRequest(spec, |d.events| + 1);
    if request.None? then Progress(d, Raised(ChainInvalid)) else
      var q := request.value;
      var obtained, after := Obtain(d, q, used, inputs), AfterStart(d, q, used, inputs);
      StagedAs(spec, hash, after, obtained, EventOf(spec, hash, after, q, obtained), used, inputs.gate, writes)
  }

  /** The rest of an advance behind loaded events and repaired heads, given what the next stage makes of it. */
  function Proceeded(
    spec: Spec, hash: Event -> nat, d: Disk, used: set<string>, gate: Option<bool>, writes: nat, staged: Progress):
    Progress
  {
    if Stopped(d) then Progress(d, CampaignFailed)
    else if |d.events| == EventCount(spec) then Completed(spec, hash, d, used, gate, writes)
    else staged
  }

  predicate Loads(spec: Spec, hash: Event -> nat, d: Disk)
    requires Proper(spec)
  {
    Loadable(spec, hash, d.stages, d.events, d.heads)
  }

  function RepairWrites(d: Disk): nat {
    if HeadMissing(d) then 1 else 0
  }

  function WritesLeft(d: Disk, writes: nat): nat {
    if writes < RepairWrites(d) then 0 else writes - RepairWrites(d)
  }

  /** An advance of a directory that loads or does not. */
  function Entered(
    spec: Spec, hash: Event -> nat, d: Disk, loads: bool, gate: Option<bool>, writes: nat, staged: Progress): Progress
  {
    if !loads then Progress(d, Raised(ChainInvalid))
    else if writes < RepairWrites(d) then Progress(d, Died)
    else Proceeded(spec, hash, Repaired(hash, d), Instances(d.events), gate, WritesLeft(d, writes), staged)
  }

  /** One advance, of any directory, at any crash point. */
  function Advanced(spec: Spec, hash: Event -> nat, d: Disk, inputs: Inputs): Progress
    requires Proper(spec)
  {
    var staged := Staged(spec, hash, Repaired(hash, d), Instances(d.events), inputs, WritesLeft(d, inputs.writes));
    Entered(spec, hash, d, Loads(spec, hash, d), inputs.gate, inputs.writes, staged)
  }

  // ----- The advance itself -----

  /** What happens to a directory: the campaign is advanced, or something else changes what stages left. */
  datatype Occasion = Advancing(inputs: Inputs) | Altering(stages: Stages)

  function Happened(spec: Spec, hash: Event -> nat, d: Disk, o: Occasion): Disk
    requires Proper(spec)
  {
    match o
    case Advancing(inputs) => Advanced(spec, hash, d, inputs).disk
    case Altering(stages) => d.(stages := stages)
  }

  /** The directory after the first n occasions. */
  function DiskAfter(spec: Spec, hash: Event -> nat, d: Disk, occasions: seq<Occasion>, n: nat): Disk
    requires Proper(spec) && n <= |occasions|
  {
    if n == 0 then d else Happened(spec, hash, DiskAfter(spec, hash, d, occasions, n - 1), occasions[n - 1])
  }

  class CampaignDirectory {
    const spec: Spec
    const hash: Event -> nat
    var disk: Disk

    constructor (spec: Spec, hash: Event -> nat)
      ensures disk == EMPTY_DISK && this.spec == spec && this.hash == hash
    {
      this.spec, this.hash, disk := spec, hash, EMPTY_DISK;
    }

    /** Write the last head if a crash left it out. */
    method RepairHead()
      modifies this
      ensures disk == Repaired(hash, old(disk))
    {
      if |disk.heads| < |disk.events| {
        var last := |disk.events|;
        disk := disk.(heads := disk.heads + [File(last, Head(last, hash(disk.events[last - 1].document)))]);
      }
    }

    /** Find or produce the result of the next stage; only an absent stage is run. */
    method ObtainResult(q: Request, used: set<string>, inputs: Inputs) returns (obtained: Obtained)
      modifies this
      ensures disk == AfterStart(old(disk), q, used, inputs)
      ensures obtained == Obtain(old(disk), q, used, inputs)
    {
      var inspection := Inspect(disk.stages, q.sequence);
      match inspection
      case Partial => return FoundPartial;
      case Contradictory => return NotObtained(StageStateInvalid);
      case Complete(result) =>
        return if ValidResult(q, result) then Obtained(result) else NotObtained(StageOutcomeInvalid);
      case Absent =>
        var readiness := inputs.readiness;
        if !q.stage.Preflight? {
          if !readiness.ready && readiness.instance.None? {
            return NeedsRestart;
          }
          if !ReadyWith(readiness, used) {
            return NotObtained(InstanceInvalid);
          }
        }
        disk := disk.(stages := disk.stages[q.sequence := inputs.runLeaves], runs := disk.runs + [q.sequence]);
        if inputs.runReturns.None? {
          return NotObtained(RunnerFailed);
        }
        var result := inputs.runReturns.value;
        if !ValidResult(q, result) {
          return NotObtained(StageOutcomeInvalid);
        }
        if !q.stage.Preflight? && result.instance.Some? && result.instance != readiness.instance {
          return NotObtained(InstanceInvalid);
        }
        return Obtained(result);
    }

    /** Two writes: the event, then its head.  Returns the writes left, or None if the process died. */
    method WriteEvent(event: Event, writes: nat) returns (left: Option<nat>)
      modifies this
      ensures disk == Written(hash, old(disk), event, writes)
      ensures left == if writes >= 2 then Some(writes - 2) else None
    {
      var n := |disk.events| + 1;
      if writes == 0 {
        return None;
      }
      disk := disk.(events := disk.events + [File(n, event)]);
      if writes == 1 {
        return None;
      }
      disk := disk.(heads := disk.heads + [File(n, Head(n, hash(event)))]);
      left := Some(writes - 2);
    }

    /** Reduce a full chain to the campaign outcome. */
    method CompleteCampaign(used: set<string>, gate: Option<bool>, writes: nat) returns (advance: Advance)
      requires disk.events != []
      modifies this
      ensures Progress(disk, advance) == Completed(spec, hash, old(disk), used, gate, writes)
    {
      if |used| != EventCount(spec) {
        return Raised(MiscountOf(spec));
      }
      if gate.None? {
        return Raised(GateFailed);
      }
      var outcome := CampaignOutcome(hash(disk.events[|disk.events| - 1].document), EventCount(spec), gate.value);
      if disk.outcome.Some? {
        if disk.outcome.value != outcome {
          return Raised(OutcomeInvalid);
        }
      } else if writes == 0 {
        return Died;
      } else {
        disk := disk.(outcome := Some(outcome));
      }
      advance := CampaignDone(gate.value);
    }

    /** Turn what was found or produced into an event, and complete the campaign behind the last one. */
    method RecordResult(q: Request, obtained: Obtained, used: set<string>, gate: Option<bool>, writes: nat)
      returns (advance: Advance)
      requires q.sequence == |disk.events| + 1
      modifies this
      ensures Progress(disk, advance) == Recorded(
        spec, hash, old(disk), EventOf(spec, hash, old(disk), q, obtained), Reuses(obtained, used), used, gate, writes)
    {
      if obtained.Obtained? && obtained.result.instance.Some? && obtained.result.instance.value in used {
        return Raised(InstanceReused);
      }
      var event := EventOf(spec, hash, disk, q, obtained);
      if event.None? {
        return Raised(StageOutcomeInvalid);
      }
      var left := WriteEvent(event.value, writes);
      if left.None? {
        return Died;
      }
      if q.sequence == EventCount(spec) && event.value.status.Passed? {
        advance := CompleteCampaign(used + InstanceOf(event.value), gate, left.value);
      } else {
        advance := if event.value.status.Passed? then StageCompleted else CampaignFailed;
      }
    }

    /** Advance by exactly the next stage, wherever a crash left the directory. */
    method Advance(inputs: Inputs) returns (advance: Advance)
      requires Proper(spec)
      modifies this
      ensures Progress(disk, advance) == Advanced(spec, hash, old(disk), inputs)
    {
      var used := ReadChain(spec, hash, disk.stages, disk.events, disk.heads);
      if used.None? {
        return Raised(ChainInvalid);
      }
      var repairs := RepairWrites(disk);
      if inputs.writes < repairs {
        return Died;
      }
      RepairHead();
      advance := Proceed(used.value, inputs, inputs.writes - repairs);
    }

    /** The rest of an advance, behind loaded events and repaired heads. */
    method Proceed(used: set<string>, inputs: Inputs, writes: nat) returns (advance: Advance)
      requires Proper(spec) && |disk.events| <= EventCount(spec)
      modifies this
      ensures Progress(disk, advance) ==
        Proceeded(spec, hash, old(disk), used, inputs.gate, writes, Staged(spec, hash, old(disk), used, inputs, writes))
    {
      if Stopped(disk) {
        return CampaignFailed;
      }
      if |disk.events| == EventCount(spec) {
        advance := CompleteCampaign(used, inputs.gate, writes);
        return;
      }
      var request := StageRequest(spec, |disk.events| + 1).value;
      var obtained := ObtainResult(request, used, inputs);
      match obtained
      case NeedsRestart => advance := RestartRequired;
      case NotObtained(error) => advance := Raised(error);
      case _ => advance := RecordResult(request, obtained, used, inputs.gate, writes);
    }

    /** Any history: advances at any crash points, with any changes around them. */
    method Live(occasions: seq<Occasion>)
      requires Proper(spec)
      modifies this
      ensures disk == DiskAfter(spec, hash, old(disk), occasions, |occasions|)
    {
      for n := 0 to |occasions|
        invariant disk == DiskAfter(spec, hash, old(disk), occasions, n)
      {
        match occasions[n] {
          case Advancing(inputs) =>
            var advance := Advance(inputs);
          case Altering(stages) => disk := disk.(stages := stages);
        }
      }
    }
  }

  /** Check any directory whatever against the evidence of its stages, and collect the model instances used. */
  method ReadChain(spec: Spec, hash: Event -> nat, stages: Stages, events: seq<File<Event>>, heads: seq<File<Head>>)
    returns (used: Option<set<string>>)
    requires Proper(spec)
    ensures used.Some? <==> Loadable(spec, hash, stages, events, heads)
    ensures used.Some? ==> used.value == Instances(events)
  {
    if !ListingOk(spec, events, heads) {
      return None;
    }
    var instances: set<string> := {};
    for n := 0 to |events|
      invariant forall j :: 0 <= j < n ==> LoadsAt(spec, hash, stages, events, heads, j)
      invariant instances == Instances(events[..n])
    {
      assert LoadsAt(spec, hash, stages, events, heads, n) <==>
        EventLoads(spec, hash, stages, events, n) && HeadLoads(hash, events, heads, n) && InstanceNew(events, n);
      if !EventLoads(spec, hash, stages, events, n) || !HeadLoads(hash, events, heads, n) {
        return None;
      }
      var instance := events[n].document.instance;
      InstanceNewIff(events, n);
      if instance.Some? && instance.value in instances {
        return None;
      }
      InstancesOneMore(events, n);
      if instance.Some? {
        instances := instances + {instance.value};
      }
    }
    assert events[..|events|] == events;
    used := Some(instances);
  }

  lemma InstanceNewIff(events: seq<File<Event>>, n: nat)
    requires n < |events|
    ensures InstanceNew(events, n) <==>
      (events[n].document.instance.Some? ==> events[n].document.instance.value !in Instances(events[..n]))
  {
    var before := events[..n];
    assert forall j :: 0 <= j < n ==> before[j] == events[j];
    if !InstanceNew(events, n) {
      var j :| 0 <= j < n && events[j].document.instance == events[n].document.instance;
      assert before[j].document.instance.value in Instances(before);
    }
  }

  lemma InstancesOneMore(events: seq<File<Event>>, n: nat)
    requires n < |events|
    ensures Instances(events[..n + 1]) == Instances(events[..n]) +
      if events[n].document.instance.Some? then {events[n].document.instance.value} else {}
  {
    var longer, shorter := events[..n + 1], events[..n];
    assert forall i :: 0 <= i < n ==> longer[i] == shorter[i];
    forall x | x in Instances(shorter) ensures x in Instances(longer) {
      var i :| 0 <= i < n && shorter[i].document.instance == Some(x);
      assert longer[i].document.instance == Some(x);
    }
    if events[n].document.instance.Some? {
      assert longer[n].document.instance == events[n].document.instance;
    }
  }
}
