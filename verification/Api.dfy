/**
  The HTTP surface around one chat request (api.py): which counters it leaves behind
  however it ends, and when a replayed response gives its admission back.
*/
module Api {
  import opened Wrappers
  import opened Harness
  import opened PolicyLoop

  /** What happens once the service has an answer: it is delivered, or the request fails before or after counting. */
  datatype Ending = Delivered | FailedBeforeCounting(error: UpstreamError) | FailedAfterCounting(error: UpstreamError)

  datatype Response = Released(outcome: Outcome) | ErrorResponse(error: UpstreamError) | Propagated

  class Counters {
    var blockedDuplicates: nat
    var blockedStalls: nat
    var correctionTurns: nat
    var receiptProjections: nat
    var errors: nat
    var deadlineExpiries: nat
    var cancellations: nat

    constructor ()
      ensures Interventions() == [0, 0, 0]
      ensures receiptProjections == errors == deadlineExpiries == cancellations == 0
    {
      blockedDuplicates, blockedStalls, correctionTurns, receiptProjections := 0, 0, 0, 0;
      errors, deadlineExpiries, cancellations := 0, 0, 0;
    }

    /** In the order in which a request snapshots its own. */
    function Interventions(): seq<nat>
      reads this`correctionTurns, this`blockedDuplicates, this`blockedStalls
    {
      [correctionTurns, blockedDuplicates, blockedStalls]
    }

    method AddInterventions(corrections: nat, duplicates: nat, stalls: nat)
      modifies this`correctionTurns, this`blockedDuplicates, this`blockedStalls
      ensures Interventions() == Sum(old(Interventions()), [corrections, duplicates, stalls])
    {
      correctionTurns := correctionTurns + corrections;
      blockedDuplicates := blockedDuplicates + duplicates;
      blockedStalls := blockedStalls + stalls;
    }

    method Observe(harness: AgentHarness, projected: bool)
      modifies this`correctionTurns, this`blockedDuplicates, this`blockedStalls, this`receiptProjections
      ensures Interventions() == Sum(old(Interventions()), PolicyLoop.Interventions(harness))
      ensures receiptProjections == old(receiptProjections) + if projected then 1 else 0
    {
      AddInterventions(harness.terminalCorrections, harness.blockedDuplicates, harness.blockedStalls);
      receiptProjections := receiptProjections + if projected then 1 else 0;
    }

    /** The handler of every proxy error, an expired deadline and a disconnected client included. */
    method HandleError(counts: array<nat>, error: UpstreamError)
      requires counts.Length == 3
      modifies this`correctionTurns, this`blockedDuplicates, this`blockedStalls
      modifies this`errors, this`deadlineExpiries, this`cancellations
      ensures Interventions() == Sum(old(Interventions()), counts[..])
      ensures errors == old(errors) + 1
      ensures deadlineExpiries == old(deadlineExpiries) + if error.DeadlineExpired? then 1 else 0
      ensures cancellations == old(cancellations) + if error.DownstreamDisconnected? then 1 else 0
    {
      AddInterventions(counts[0], counts[1], counts[2]);
      errors := errors + 1;
      if error.DeadlineExpired? {
        deadlineExpiries := deadlineExpiries + 1;
      }
      if error.DownstreamDisconnected? {
        cancellations := cancellations + 1;
      }
    }

    method HandleCancellation(counts: array<nat>)
      requires counts.Length == 3
      modifies this`correctionTurns, this`blockedDuplicates, this`blockedStalls, this`cancellations
      ensures Interventions() == Sum(old(Interventions()), counts[..])
      ensures cancellations == old(cancellations) + 1
    {
      AddInterventions(counts[0], counts[1], counts[2]);
      cancellations := cancellations + 1;
    }
  }

  function Sum(a: seq<nat>, b: seq<nat>): seq<nat>
    requires |a| == |b| == 3
  {
    [a[0] + b[0], a[1] + b[1], a[2] + b[2]]
  }

  /** The request failed with this error: a cancellation is passed on, any other is answered, and each is counted. */
  twostate predicate FailsWith(counters: Counters, response: Response, error: UpstreamError)
    reads counters
  {
    && response == (if error.Cancelled? then Propagated else ErrorResponse(error))
    && counters.errors == old(counters.errors) + (if error.Cancelled? then 0 else 1)
    && counters.deadlineExpiries == old(counters.deadlineExpiries) + (if error.DeadlineExpired? then 1 else 0)
    && counters.cancellations == old(counters.cancellations) +
         if error.Cancelled? || error.DownstreamDisconnected? then 1 else 0
  }

  /** The answer reached the client, and no failure is counted. */
  twostate predicate Delivers(counters: Counters, response: Response, outcome: Outcome)
    reads counters
  {
    && response == Released(outcome)
    && counters.errors == old(counters.errors) && counters.deadlineExpiries == old(counters.deadlineExpiries)
    && counters.cancellations == old(counters.cancellations)
  }

  /** The interventions of a request are counted once, and a projection unless delivering it failed before that. */
  twostate predicate CountsWork(counters: Counters, harness: AgentHarness, outcome: Outcome, ending: Ending)
    reads counters, harness
  {
    && counters.correctionTurns == old(counters.correctionTurns) + harness.terminalCorrections
    && counters.blockedDuplicates == old(counters.blockedDuplicates) + harness.blockedDuplicates
    && counters.blockedStalls == old(counters.blockedStalls) + harness.blockedStalls
    && counters.receiptProjections == old(counters.receiptProjections) +
         if outcome.ReleasedProjection? && !ending.FailedBeforeCounting? then 1 else 0
  }

  predicate IsReleasable(outcome: Outcome) {
    outcome.ReleasedBatch? || outcome.ReleasedAnswer? || outcome.ReleasedProjection?
  }

  method HandleFailure(error: UpstreamError, counters: Counters, counts: array<nat>) returns (response: Response)
    requires counts.Length == 3
    modifies counters
    ensures FailsWith(counters, response, error)
    ensures counters.Interventions() == Sum(old(counters.Interventions()), counts[..])
    ensures counters.receiptProjections == old(counters.receiptProjections)
  {
    if error.Cancelled? {
      counters.HandleCancellation(counts);
      return Propagated;
    }
    counters.HandleError(counts, error);
    return ErrorResponse(error);
  }

  /** The service is done: count what it did, and release its answer unless something still fails. */
  method Conclude(harness: AgentHarness, outcome: Outcome, ending: Ending, counters: Counters, counts: array<nat>)
    returns (response: Response)
    requires counts.Length == 3 && counts[..] == PolicyLoop.Interventions(harness)
    modifies counters, counts
    ensures CountsWork(counters, harness, outcome, ending)
    ensures outcome.Failed? ==> FailsWith(counters, response, outcome.error)
    ensures outcome.RetriesExhausted? ==> FailsWith(counters, response, ProxyFailure)
    ensures IsReleasable(outcome) && !ending.Delivered? ==> FailsWith(counters, response, ending.error)
    ensures IsReleasable(outcome) && ending.Delivered? ==> Delivers(counters, response, outcome)
  {
    if outcome.Failed? {
      response := HandleFailure(outcome.error, counters, counts);
      return;
    }
    if outcome.RetriesExhausted? {
      response := HandleFailure(ProxyFailure, counters, counts);
      return;
    }
    if ending.FailedBeforeCounting? {
      response := HandleFailure(ending.error, counters, counts);
      return;
    }
    counters.Observe(harness, outcome.ReleasedProjection?);
    counts[0], counts[1], counts[2] := 0, 0, 0;
    if ending.Delivered? {
      return Released(outcome);
    }
    response := HandleFailure(ending.error, counters, counts);
  }

  /** What a client gets: a batch of calls to execute, or a final answer, from the model or projected. */
  predicate IsBatch(response: Response) {
    response.Released? && response.outcome.ReleasedBatch?
  }

  predicate IsAnswer(response: Response) {
    response.Released? && (response.outcome.ReleasedAnswer? || response.outcome.ReleasedProjection?)
  }

  /**
    Serve one chat request.  Whichever way it ends, the global counters grow by exactly the
    interventions of this request, once.  A request whose last reply raised an error fails
    with that error, one that got malformed calls or ran out of retries with a proxy failure,
    one whose answer could not be delivered with the error of that; any other delivers what
    the service released.
  */
  method Chat(
    service: ChatService, harness: AgentHarness, request: Request, reply: nat -> Reply, ending: Ending,
    counters: Counters, counts: array<nat>)
    returns (response: Response, ghost outcome: Outcome, ghost attempts: seq<Attempt>)
    requires harness.Untouched() && counts.Length == 3
    modifies harness`blockedDuplicates, harness`blockedStalls, harness`lastActionBlocked, harness`forceFinalize
    modifies harness`terminalCorrections, counts, counters
    ensures CountsWork(counters, harness, outcome, ending)
    ensures attempts != [] && reply(|attempts| - 1).Raises? ==>
      FailsWith(counters, response, reply(|attempts| - 1).error)
    ensures attempts != [] && reply(|attempts| - 1).CallsNotAList? ==> FailsWith(counters, response, ProxyFailure)
    ensures outcome.RetriesExhausted? ==> FailsWith(counters, response, ProxyFailure)
    ensures IsReleasable(outcome) && !ending.Delivered? ==> FailsWith(counters, response, ending.error)
    ensures IsReleasable(outcome) && ending.Delivered? ==> Delivers(counters, response, outcome)
    ensures outcome.ReleasedProjection? <==> old(Projects(harness, request))
    ensures !outcome.ReleasedProjection? ==>
      service.Conversed(harness, StartPhase(harness.CurrentLedger(), request), reply, outcome, attempts)
    ensures IsAnswer(response) ==> harness.TerminalIssue(response.outcome.content).None?
    ensures IsBatch(response) ==> NoneWithheld(harness.CurrentLedger(), service.deniedTools, response.outcome.calls)
    ensures service.AnswerFollowsBlock(
      harness, StartPhase(harness.CurrentLedger(), request), reply, outcome, attempts)
  {
    counts[0], counts[1], counts[2] := 0, 0, 0;
    var released;
    released, attempts := service.Complete(harness, request, reply, counts);
    outcome := released;
    response := Conclude(harness, released, ending, counters, counts);
  }

  // ----- From the transcript to the answer -----

  /** Every successful mutation the client executed was followed by a successful verification. */
  ghost predicate EveryMutationVerified(roles: Roles, executions: seq<Execution>) {
    forall m :: 0 <= m < |executions| && executions[m].status.Success? && executions[m].name in roles.mutation ==>
      exists v :: m < v < |executions| && executions[v].status.Success? && executions[v].name in roles.verification
  }

  /** The call is permitted, and repeats no execution made after the last successful mutation. */
  ghost predicate FreshCall(roles: Roles, denied: set<string>, executions: seq<Execution>, call: ProposedCall) {
    && call.Call? && call.name !in denied
    && forall i :: 0 <= i < |executions| && executions[i].signature == call.signature ==>
      exists m :: i <= m < |executions| && executions[m].status.Success? && executions[m].name in roles.mutation
  }

  /**
    Rebuild the harness from the executions of the transcript, and serve: no answer before
    every mutation is verified, and no call that repeats an execution in an unchanged state.
  */
  method Serve(
    service: ChatService, availableTools: set<string>, contract: Contract, roles: Roles, executions: seq<Execution>,
    request: Request, reply: nat -> Reply, ending: Ending, counters: Counters, counts: array<nat>)
    returns (response: Response)
    requires counts.Length == 3
    modifies counts, counters
    ensures IsAnswer(response) ==> EveryMutationVerified(roles, executions)
    ensures IsBatch(response) ==>
      forall call :: call in response.outcome.calls ==> FreshCall(roles, service.deniedTools, executions, call)
  {
    var harness := Reconstruct(availableTools, contract, roles, executions);
    ghost var outcome, attempts;
    response, outcome, attempts := Chat(service, harness, request, reply, ending, counters, counts);
    if IsAnswer(response) {
      AnswerFollowsVerification(harness, response.outcome.content, executions);
    }
    if IsBatch(response) {
      forall call | call in response.outcome.calls ensures FreshCall(roles, service.deniedTools, executions, call) {
        PassedCallIsNew(harness.CurrentLedger(), service.deniedTools, executions, call);
      }
    }
  }

  lemma AnswerFollowsVerification(harness: AgentHarness, content: Content, executions: seq<Execution>)
    requires harness.Valid() && harness.TerminalIssue(content).None?
    requires |harness.receipts| == |executions|
    requires forall i :: 0 <= i < |executions| ==>
      harness.receipts[i].tool == executions[i].name && harness.receipts[i].status == executions[i].status
    ensures EveryMutationVerified(harness.roles, executions)
  {
    forall m | 0 <= m < |executions| && executions[m].status.Success? && executions[m].name in harness.roles.mutation
      ensures exists v ::
        m < v < |executions| && executions[v].status.Success? && executions[v].name in harness.roles.verification
    {
      harness.ReleasedAnswerIsVerified(content, m);
    }
  }

  lemma PassedCallIsNew(ledger: Ledger, denied: set<string>, executions: seq<Execution>, call: ProposedCall)
    requires ledger.Valid() && Verdict(ledger, denied, call).None? && |ledger.receipts| == |executions|
    requires forall i :: 0 <= i < |executions| ==>
      var r := ledger.receipts[i];
      r.tool == executions[i].name && r.signature == executions[i].signature && r.status == executions[i].status
    ensures FreshCall(ledger.roles, denied, executions, call)
  {
    PassedCallIsFresh(ledger, denied, call);
    forall i | 0 <= i < |executions| && executions[i].signature == call.signature
      ensures exists m ::
        i <= m < |executions| && executions[m].status.Success? && executions[m].name in ledger.roles.mutation
    {
      var m :| i <= m < |ledger.receipts| && SuccessfulMutation(ledger.roles, ledger.receipts[m]);
      assert executions[m].name in ledger.roles.mutation;
    }
  }

  // ----- Replay delivery -----

  datatype ReplayOutcome = Succeeded | ReplayCancelled | Deadline | ReplayFailed

  /** How sending the replayed events goes; after a deadline a last send is tried, which may be cut short too. */
  datatype Delivery = Sent | TimedOut(lastSendRaises: bool) | Disconnected | Broken

  /** A response that keeps the admission of its request until it has been delivered. */
  class ReplayResponse {
    var outcomeRecorded: bool
    var admissionReleased: bool
    ghost var outcomes: seq<ReplayOutcome>  // every outcome reported
    ghost var releases: nat                 // how often admission was given back

    ghost predicate Valid()
      reads this
    {
      && (outcomeRecorded <==> outcomes != []) && |outcomes| <= 1
      && releases == if admissionReleased then 1 else 0
    }

    constructor ()
      ensures Valid() && !outcomeRecorded && !admissionReleased
    {
      outcomeRecorded, admissionReleased, outcomes, releases := false, false, [], 0;
    }

    method RecordOutcome(outcome: ReplayOutcome)
      requires Valid()
      modifies this`outcomeRecorded, this`outcomes
      ensures Valid() && outcomeRecorded
      ensures outcomes == if old(outcomes) == [] then [outcome] else old(outcomes)
    {
      if !outcomeRecorded {
        outcomes := outcomes + [outcome];
        outcomeRecorded := true;
      }
    }

    method ReleaseOnce()
      requires Valid()
      modifies this`admissionReleased, this`releases
      ensures Valid() && admissionReleased && releases == 1
    {
      if !admissionReleased {
        admissionReleased := true;
        releases := releases + 1;
      }
    }

    /** However delivery goes, one outcome is reported and admission is given back exactly once. */
    method StreamResponse(delivery: Delivery) returns (raised: bool)
      requires Valid() && !outcomeRecorded && !admissionReleased
      modifies this
      ensures Valid() && releases == 1
      ensures outcomes == [match delivery
        case Sent => Succeeded
        case TimedOut(_) => Deadline
        case Disconnected => ReplayCancelled
        case Broken => ReplayFailed]
      ensures raised <==> delivery.Disconnected? || delivery.Broken? || delivery == TimedOut(true)
    {
      match delivery {
        case Sent => RecordOutcome(Succeeded);
        case TimedOut(lastSendRaises) =>
          RecordOutcome(Deadline);
          ReleaseOnce();
        case Disconnected => RecordOutcome(ReplayCancelled);
        case Broken => RecordOutcome(ReplayFailed);
      }
      ReleaseOnce();
      raised := delivery.Disconnected? || delivery.Broken? || delivery == TimedOut(true);
    }
  }
}
