/**
  The bounded policy loop of one request (service.py): ask the model, screen what it
  proposes, and release a batch of calls or an answer only past the harness gates.
*/
module PolicyLoop {
  import opened JsonValues
  import opened Wrappers
  import opened Harness
  import opened Projection

  datatype ProposedCall = NotAnObject | BadArguments | Call(name: string, signature: string)

  datatype Rejection = InvalidCall | InvalidArguments | Denied | Stalled | Repeated(prior: nat)

  /** Why a proposed call is withheld, if it is. */
  function Verdict(ledger: Ledger, denied: set<string>, call: ProposedCall): Option<Rejection> {
    match call
    case NotAnObject => Some(InvalidCall)
    case BadArguments => Some(InvalidArguments)
    case Call(name, signature) =>
      if name in denied then Some(Denied)
      else if ledger.Stalls(name) then Some(Stalled)
      else match ledger.Duplicate(signature)
        case None => None
        case Some(prior) => Some(Repeated(prior.id))
  }

  /** The call repeats a successful receipt and nothing is pending or open, so an answer may be given instead. */
  predicate FinalizableRepeat(ledger: Ledger, denied: set<string>, call: ProposedCall) {
    && IsRepeated(Verdict(ledger, denied, call))
    && ledger.Duplicate(call.signature).value.status.Success?
    && ledger.Settled()
  }

  ghost predicate NoneWithheld(ledger: Ledger, denied: set<string>, calls: seq<ProposedCall>) {
    forall i :: 0 <= i < |calls| ==> Verdict(ledger, denied, calls[i]).None?
  }

  ghost predicate AllFinalizable(ledger: Ledger, denied: set<string>, calls: seq<ProposedCall>) {
    forall i :: 0 <= i < |calls| ==> FinalizableRepeat(ledger, denied, calls[i])
  }

  predicate IsRepeated(verdict: Option<Rejection>) {
    verdict.Some? && verdict.value.Repeated?
  }

  /** How many of the first n calls repeat an earlier receipt, and how many stall. */
  function Repeats(ledger: Ledger, denied: set<string>, calls: seq<ProposedCall>, n: nat): nat
    requires n <= |calls|
  {
    if n == 0 then 0 else
    var here := if IsRepeated(Verdict(ledger, denied, calls[n - 1])) then 1 else 0;
    Repeats(ledger, denied, calls, n - 1) + here
  }

  function Stalls(ledger: Ledger, denied: set<string>, calls: seq<ProposedCall>, n: nat): nat
    requires n <= |calls|
  {
    if n == 0 then 0 else
    var here := if Verdict(ledger, denied, calls[n - 1]) == Some(Stalled) then 1 else 0;
    Stalls(ledger, denied, calls, n - 1) + here
  }

  /** Screen one call, and say whether a rejection of it still allows an answer. */
  method ScreenCall(call: ProposedCall, harness: AgentHarness, denied: set<string>)
    returns (verdict: Option<Rejection>, canFinalize: bool)
    modifies harness`blockedDuplicates, harness`blockedStalls, harness`lastActionBlocked, harness`forceFinalize
    ensures verdict == Verdict(harness.CurrentLedger(), denied, call)
    ensures verdict.Some? ==> canFinalize == FinalizableRepeat(harness.CurrentLedger(), denied, call)
    ensures harness.lastActionBlocked <==> old(harness.lastActionBlocked) || verdict.Some?
    ensures harness.blockedDuplicates ==
      old(harness.blockedDuplicates) + if IsRepeated(verdict) then 1 else 0
    ensures harness.blockedStalls == old(harness.blockedStalls) + if verdict == Some(Stalled) then 1 else 0
  {
    if call.NotAnObject? {
      harness.lastActionBlocked := true;
      return Some(InvalidCall), false;
    }
    if call.BadArguments? {
      harness.lastActionBlocked := true;
      return Some(InvalidArguments), false;
    }
    if call.name in denied {
      harness.lastActionBlocked := true;
      return Some(Denied), false;
    }
    var stalled := harness.StalledResult(call.name);
    if stalled {
      return Some(Stalled), false;
    }
    var prior := harness.CurrentLedger().Duplicate(call.signature);
    if prior.None? {
      return None, true;
    }
    harness.BlockedResult(prior.value);
    canFinalize := prior.value.status.Success? && harness.CurrentLedger().Settled();
    return Some(Repeated(prior.value.id)), canFinalize;
  }

  /** Screen one batch: what is withheld, how much of it, and what the harness remembers. */
  method RejectedResults(calls: seq<ProposedCall>, harness: AgentHarness, denied: set<string>)
    returns (rejected: seq<Option<Rejection>>, withheld: nat)
    modifies harness`blockedDuplicates, harness`blockedStalls, harness`lastActionBlocked, harness`forceFinalize
    ensures |rejected| == |calls|
    ensures forall i :: 0 <= i < |calls| ==> rejected[i] == Verdict(harness.CurrentLedger(), denied, calls[i])
    ensures withheld == 0 <==> forall i :: 0 <= i < |calls| ==> rejected[i].None?
    ensures harness.lastActionBlocked <==> old(harness.lastActionBlocked) || withheld > 0
    ensures harness.forceFinalize <==> calls != [] && AllFinalizable(harness.CurrentLedger(), denied, calls)
    ensures harness.blockedDuplicates ==
      old(harness.blockedDuplicates) + Repeats(harness.CurrentLedger(), denied, calls, |calls|)
    ensures harness.blockedStalls ==
      old(harness.blockedStalls) + Stalls(harness.CurrentLedger(), denied, calls, |calls|)
  {
    ghost var ledger := harness.CurrentLedger();
    rejected, withheld := [], 0;
    var everyRejectionCanFinalize := true;
    for n := 0 to |calls|
      invariant harness.CurrentLedger() == ledger
      invariant |rejected| == n
      invariant forall i :: 0 <= i < n ==> rejected[i] == Verdict(ledger, denied, calls[i])
      invariant withheld == 0 <==> forall i :: 0 <= i < n ==> rejected[i].None?
      invariant withheld <= n
      invariant withheld == n && everyRejectionCanFinalize <==>
        forall i :: 0 <= i < n ==> FinalizableRepeat(ledger, denied, calls[i])
      invariant harness.lastActionBlocked <==> old(harness.lastActionBlocked) || withheld > 0
      invariant harness.blockedDuplicates == old(harness.blockedDuplicates) + Repeats(ledger, denied, calls, n)
      invariant harness.blockedStalls == old(harness.blockedStalls) + Stalls(ledger, denied, calls, n)
    {
      var verdict, canFinalize := ScreenCall(calls[n], harness, denied);
      rejected := rejected + [verdict];
      if verdict.Some? {
        withheld := withheld + 1;
        everyRejectionCanFinalize := everyRejectionCanFinalize && canFinalize;
      }
    }
    harness.forceFinalize := withheld > 0 && withheld == |calls| && everyRejectionCanFinalize;
  }

  /** A call the screen lets pass is well formed, permitted, not stalled, and new in the current epoch. */
  lemma PassedCallIsFresh(ledger: Ledger, denied: set<string>, call: ProposedCall)
    requires ledger.Valid()
    ensures Verdict(ledger, denied, call).None? <==>
      && call.Call? && call.name !in denied && !ledger.Stalls(call.name)
      && forall i :: 0 <= i < |ledger.receipts| && ledger.receipts[i].signature == call.signature ==>
        exists m :: i <= m < |ledger.receipts| && SuccessfulMutation(ledger.roles, ledger.receipts[m])
  {
    if call.Call? {
      ledger.DuplicateExact(call.signature);
      forall i | 0 <= i < |ledger.receipts| && ledger.receipts[i].signature == call.signature
        ensures ledger.IsRepeat(call.signature, i) <==>
          !exists m :: i <= m < |ledger.receipts| && SuccessfulMutation(ledger.roles, ledger.receipts[m])
      {
      }
    }
  }

  /** The receipt that a call repeats: the latest of its signature, with no successful mutation since. */
  ghost predicate RepeatsReceipt(ledger: Ledger, signature: string, i: int) {
    && ledger.IsRepeat(signature, i)
    && forall j :: i < j < |ledger.receipts| ==> ledger.receipts[j].signature != signature
  }

  lemma RepeatedReceiptIsUnique(ledger: Ledger, signature: string, i: int, j: int)
    requires RepeatsReceipt(ledger, signature, i) && RepeatsReceipt(ledger, signature, j)
    ensures i == j
  {
    assert ledger.receipts[i].signature == ledger.receipts[j].signature == signature;
  }

  lemma RepeatedReceiptIsNumbered(ledger: Ledger, signature: string, i: int)
    requires Numbered(ledger.roles, ledger.receipts) && RepeatsReceipt(ledger, signature, i)
    ensures 0 <= i < |ledger.receipts| && ledger.receipts[i].id == i + 1
  {
    assert ledger.IsRepeat(signature, i);
  }

  lemma DuplicateIsRepeated(ledger: Ledger, signature: string)
    requires ledger.Valid()
    ensures var prior := ledger.Duplicate(signature);
      && (prior.Some? ==>
           prior.value.id >= 1 && RepeatsReceipt(ledger, signature, prior.value.id - 1)
           && ledger.receipts[prior.value.id - 1] == prior.value)
      && forall i :: RepeatsReceipt(ledger, signature, i) ==> prior.Some? && i == prior.value.id - 1
  {
    var prior := ledger.Duplicate(signature);
    ledger.DuplicateExact(signature);
    if prior.Some? {
      var i :| RepeatsReceipt(ledger, signature, i) && prior == Some(ledger.receipts[i]);
      RepeatedReceiptIsNumbered(ledger, signature, i);
      forall j | RepeatsReceipt(ledger, signature, j) ensures j == i {
        RepeatedReceiptIsUnique(ledger, signature, i, j);
      }
    }
  }

  /** Why a call is withheld, said about the history: the first reason there is. */
  lemma VerdictExact(ledger: Ledger, denied: set<string>, call: ProposedCall)
    requires ledger.Valid()
    ensures var verdict := Verdict(ledger, denied, call);
      && (verdict == Some(InvalidCall) <==> call.NotAnObject?)
      && (verdict == Some(InvalidArguments) <==> call.BadArguments?)
      && (verdict == Some(Denied) <==> call.Call? && call.name in denied)
      && (verdict == Some(Stalled) <==> call.Call? && call.name !in denied && ledger.Stalls(call.name))
      && forall id: nat :: verdict == Some(Repeated(id)) <==>
           && call.Call? && call.name !in denied && !ledger.Stalls(call.name)
           && RepeatsReceipt(ledger, call.signature, id - 1)
  {
    if call.Call? {
      DuplicateIsRepeated(ledger, call.signature);
    }
  }

  /** A finalizable repeat, said about the history: what it repeats succeeded, and nothing is owed. */
  lemma FinalizableExact(ledger: Ledger, denied: set<string>, call: ProposedCall)
    requires ledger.Valid()
    ensures FinalizableRepeat(ledger, denied, call) <==>
      && call.Call? && call.name !in denied && !ledger.Stalls(call.name)
      && (exists i :: RepeatsReceipt(ledger, call.signature, i) && ledger.receipts[i].status.Success?)
      && !AwaitsVerification(ledger.roles, ledger.receipts) && !HasOpenFailure(ledger.roles, ledger.receipts)
  {
    OpenMapEmpty(ledger.roles, ledger.receipts, ledger.fields.open);
    if call.Call? {
      DuplicateIsRepeated(ledger, call.signature);
    }
  }

  ghost function RepeatedAt(ledger: Ledger, denied: set<string>, calls: seq<ProposedCall>, n: int): set<int> {
    set i | 0 <= i < n && i < |calls| && IsRepeated(Verdict(ledger, denied, calls[i]))
  }

  ghost function StalledAt(ledger: Ledger, denied: set<string>, calls: seq<ProposedCall>, n: int): set<int> {
    set i | 0 <= i < n && i < |calls| && Verdict(ledger, denied, calls[i]) == Some(Stalled)
  }

  lemma {:induction false} RepeatsCount(ledger: Ledger, denied: set<string>, calls: seq<ProposedCall>, n: nat)
    requires n <= |calls|
    ensures Repeats(ledger, denied, calls, n) == |RepeatedAt(ledger, denied, calls, n)|
  {
    if n == 0 {
    } else {
      RepeatsCount(ledger, denied, calls, n - 1);
      var before, here := RepeatedAt(ledger, denied, calls, n - 1), IsRepeated(Verdict(ledger, denied, calls[n - 1]));
      assert RepeatedAt(ledger, denied, calls, n) == before + if here then {n - 1} else {};
      assert n - 1 !in before;
    }
  }

  lemma {:induction false} StallsCount(ledger: Ledger, denied: set<string>, calls: seq<ProposedCall>, n: nat)
    requires n <= |calls|
    ensures Stalls(ledger, denied, calls, n) == |StalledAt(ledger, denied, calls, n)|
  {
    if n == 0 {
    } else {
      StallsCount(ledger, denied, calls, n - 1);
      var before := StalledAt(ledger, denied, calls, n - 1);
      var here := Verdict(ledger, denied, calls[n - 1]) == Some(Stalled);
      assert StalledAt(ledger, denied, calls, n) == before + if here then {n - 1} else {};
      assert n - 1 !in before;
    }
  }

  // ----- The loop -----

  datatype Phase = Unsplit | Acquisition | Finalization

  /** A disconnected client is answered as a proxy error; a cancelled request is not answered. */
  datatype UpstreamError = ProxyFailure | Cancelled | DeadlineExpired | DownstreamDisconnected

  datatype Reply = Raises(error: UpstreamError) | CallsNotAList | Message(calls: seq<ProposedCall>, content: Content)

  datatype Outcome =
    | ReleasedBatch(calls: seq<ProposedCall>)
    | ReleasedAnswer(content: Content)
    | ReleasedProjection(content: Content)
    | RetriesExhausted
    | Failed(error: UpstreamError)

  // ----- What a request remembers from call to call -----

  /**
    What does not change while a request is answered: which batches pass the screen, which
    are wholly finalizable repeats, what screening counts, which answers the gate takes when
    nothing is blocked, and the phase the request starts in.
  */
  datatype Rules = Rules(
    passes: seq<ProposedCall> -> bool, finalizable: seq<ProposedCall> -> bool,
    repeats: seq<ProposedCall> -> nat, stalls: seq<ProposedCall> -> nat,
    answers: Content -> bool, start: Phase)

  ghost function RulesFor(ledger: Ledger, contract: Contract, denied: set<string>, start: Phase): Rules {
    Rules(
      calls => NoneWithheld(ledger, denied, calls),
      calls => calls != [] && AllFinalizable(ledger, denied, calls),
      calls => Repeats(ledger, denied, calls, |calls|),
      calls => Stalls(ledger, denied, calls, |calls|),
      content => Answerable(ledger, contract, content),
      start)
  }

  /** The rules of a request: each call by its verdict, the counts by their calls, an answer by what the gate asks. */
  lemma RulesAreExact(ledger: Ledger, contract: Contract, denied: set<string>, start: Phase)
    requires ledger.Valid()
    ensures var rules := RulesFor(ledger, contract, denied, start);
      && rules.start == start
      && (forall calls :: rules.passes(calls) <==>
           forall i :: 0 <= i < |calls| ==> Verdict(ledger, denied, calls[i]).None?)
      && (forall calls :: rules.finalizable(calls) <==>
           calls != [] && forall i :: 0 <= i < |calls| ==> FinalizableRepeat(ledger, denied, calls[i]))
      && (forall calls :: rules.repeats(calls) == |RepeatedAt(ledger, denied, calls, |calls|)|)
      && (forall calls :: rules.stalls(calls) == |StalledAt(ledger, denied, calls, |calls|)|)
      && forall content :: rules.answers(content) <==> GateOpens(ledger, contract, content)
  {
    var rules := RulesFor(ledger, contract, denied, start);
    forall calls
      ensures rules.repeats(calls) == |RepeatedAt(ledger, denied, calls, |calls|)|
      ensures rules.stalls(calls) == |StalledAt(ledger, denied, calls, |calls|)|
    {
      RepeatsCount(ledger, denied, calls, |calls|);
      StallsCount(ledger, denied, calls, |calls|);
    }
    forall content ensures rules.answers(content) <==> GateOpens(ledger, contract, content) {
      AnswerableExact(ledger, contract, content);
    }
  }

  /** What is carried from one upstream call to the next; the phase is that of the call before. */
  datatype Memory = Memory(
    phase: Phase, blocked: bool, forced: bool, corrections: nat, duplicates: nat, stalls: nat)

  function PhaseOf(rules: Rules, m: Memory): Phase {
    if !rules.start.Unsplit? && m.forced then Finalization else m.phase
  }

  /** Calls are screened except in finalization, where they are refused unread. */
  predicate IsScreened(phase: Phase, r: Reply) {
    r.Message? && r.calls != [] && !phase.Finalization?
  }

  ghost predicate AnswerPasses(rules: Rules, m: Memory, content: Content) {
    rules.answers(content) && (m.blocked ==> m.forced)
  }

  /** A batch is releasable outside finalization if no call of it is withheld, an answer if it passes the gate. */
  ghost predicate Releasable(rules: Rules, m: Memory, r: Reply) {
    r.Message? &&
    if r.calls != [] then !PhaseOf(rules, m).Finalization? && rules.passes(r.calls)
    else AnswerPasses(rules, m, r.content)
  }

  /** How one upstream call turns out: the request ends, or gives up, or asks again. */
  datatype Turn = Ends(outcome: Outcome) | GivesUp | GoesOn

  ghost function TurnOf(rules: Rules, m: Memory, r: Reply, retries: nat, maxRetries: nat): Turn {
    match r
    case Raises(error) => Ends(Failed(error))
    case CallsNotAList => Ends(Failed(ProxyFailure))
    case Message(calls, content) =>
      if Releasable(rules, m, r) then Ends(if calls != [] then ReleasedBatch(calls) else ReleasedAnswer(content))
      else if retries >= maxRetries || (!IsScreened(PhaseOf(rules, m), r) && m.corrections >= 2) then GivesUp
      else GoesOn
  }

  /** Screening leaves its marks whatever the turn is, a correction only if it is made. */
  ghost function MemoryAfter(rules: Rules, m: Memory, r: Reply, corrected: bool): Memory {
    var phase := PhaseOf(rules, m);
    if IsScreened(phase, r) then Memory(
      phase,
      m.blocked || !rules.passes(r.calls),
      rules.finalizable(r.calls),
      m.corrections,
      m.duplicates + rules.repeats(r.calls),
      m.stalls + rules.stalls(r.calls))
    else m.(phase := phase, corrections := m.corrections + if corrected then 1 else 0)
  }

  /** The memory before call n of a request that asks again after every call before it. */
  ghost function MemoryAt(rules: Rules, reply: nat -> Reply, n: nat): Memory {
    if n == 0 then Memory(rules.start, false, false, 0, 0, 0)
    else MemoryAfter(rules, MemoryAt(rules, reply, n - 1), reply(n - 1), true)
  }

  ghost function TurnAt(rules: Rules, reply: nat -> Reply, k: nat, maxRetries: nat): Turn {
    TurnOf(rules, MemoryAt(rules, reply, k), reply(k), k, maxRetries)
  }

  /** The memory that a request leaves behind after n calls, of which only the last may not ask again. */
  ghost function MemoryLeft(rules: Rules, reply: nat -> Reply, n: nat, maxRetries: nat): Memory {
    if n == 0 then MemoryAt(rules, reply, 0)
    else MemoryAfter(
      rules, MemoryAt(rules, reply, n - 1), reply(n - 1), TurnAt(rules, reply, n - 1, maxRetries).GoesOn?)
  }

  /** After calls that were all followed by another, that is the memory before the next one. */
  lemma LeftIsNext(rules: Rules, reply: nat -> Reply, n: nat, maxRetries: nat)
    requires GoesOnFor(rules, reply, n, maxRetries)
    ensures MemoryLeft(rules, reply, n, maxRetries) == MemoryAt(rules, reply, n)
  {
    if n > 0 {
      assert TurnAt(rules, reply, n - 1, maxRetries).GoesOn?;
    }
  }

  function Snapshot(m: Memory): seq<nat> {
    [m.corrections, m.duplicates, m.stalls]
  }

  /**
    What one upstream call saw: its phase, the retries so far, the snapshotted and actual
    counters, and whether its reply could be released as things stood.
  */
  datatype Attempt = Attempt(phase: Phase, retries: nat, counted: seq<nat>, actual: seq<nat>, releasable: bool)

  ghost function AttemptFrom(rules: Rules, m: Memory, r: Reply, k: nat): Attempt {
    Attempt(PhaseOf(rules, m), k, Snapshot(m), Snapshot(m), Releasable(rules, m, r))
  }

  ghost function AttemptAt(rules: Rules, reply: nat -> Reply, k: nat): Attempt {
    AttemptFrom(rules, MemoryAt(rules, reply, k), reply(k), k)
  }

  /** The first n upstream calls of a request, as the replies determine them. */
  ghost function Trace(rules: Rules, reply: nat -> Reply, n: nat): (attempts: seq<Attempt>)
    ensures |attempts| == n
  {
    if n == 0 then [] else Trace(rules, reply, n - 1) + [AttemptAt(rules, reply, n - 1)]
  }

  /** Each of the first n calls is followed by another. */
  ghost predicate GoesOnFor(rules: Rules, reply: nat -> Reply, n: nat, maxRetries: nat) {
    n == 0 || (GoesOnFor(rules, reply, n - 1, maxRetries) && TurnAt(rules, reply, n - 1, maxRetries).GoesOn?)
  }

  /** Every call but the last is followed by another, and the last one says how the request ends. */
  ghost predicate Concluded(
    rules: Rules, reply: nat -> Reply, n: nat, outcome: Outcome, maxCalls: nat, maxRetries: nat)
  {
    && n <= maxCalls
    && if n == 0 then maxCalls == 0 && outcome.RetriesExhausted?
       else GoesOnFor(rules, reply, n - 1, maxRetries) && match TurnAt(rules, reply, n - 1, maxRetries)
         case Ends(end) => outcome == end
         case GivesUp => outcome.RetriesExhausted?
         case GoesOn => n == maxCalls && outcome.RetriesExhausted?
  }

  /** The reply of the last attempt is the first releasable one and was released, or no attempt's was. */
  ghost predicate ReleasesFirst(attempts: seq<Attempt>, reply: nat -> Reply, outcome: Outcome) {
    var last := |attempts| - 1;
    && (forall k :: 0 <= k < last ==> !attempts[k].releasable)
    && match outcome
       case ReleasedBatch(calls) =>
         last >= 0 && attempts[last].releasable && reply(last).Message? && calls == reply(last).calls
       case ReleasedAnswer(content) =>
         && last >= 0 && attempts[last].releasable
         && reply(last).Message? && reply(last).calls == [] && content == reply(last).content
       case Failed(error) =>
         last >= 0 && !attempts[last].releasable &&
         (reply(last) == Raises(error) || (reply(last).CallsNotAList? && error.ProxyFailure?))
       case RetriesExhausted => last >= 0 ==> reply(last).Message? && !attempts[last].releasable
       case ReleasedProjection(_) => attempts == []
  }

  // ----- The loop, call by call -----

  /** The memory and the attempts after n calls, and whether each of them is followed by another. */
  datatype Talk = Talk(memory: Memory, attempts: seq<Attempt>, goesOn: bool)

  ghost function TalkAt(rules: Rules, reply: nat -> Reply, n: nat, maxRetries: nat): Talk {
    if n == 0 then Talk(Memory(rules.start, false, false, 0, 0, 0), [], true)
    else
      var before := TalkAt(rules, reply, n - 1, maxRetries);
      TalkAfter(rules, before, reply(n - 1), n - 1, maxRetries)
  }

  ghost function TalkAfter(rules: Rules, before: Talk, r: Reply, n: nat, maxRetries: nat): Talk {
    var m := before.memory;
    Talk(
      MemoryAfter(rules, m, r, true),
      before.attempts + [AttemptFrom(rules, m, r, n)],
      before.goesOn && TurnOf(rules, m, r, n, maxRetries).GoesOn?)
  }

  /** After n calls, each followed by another: the attempts and the memory are those that the replies determine. */
  ghost predicate Talked(
    rules: Rules, reply: nat -> Reply, n: nat, maxRetries: nat, m: Memory, attempts: seq<Attempt>)
  {
    TalkAt(rules, reply, n, maxRetries) == Talk(m, attempts, true)
  }

  lemma {:induction false} TalkIsTrace(rules: Rules, reply: nat -> Reply, n: nat, maxRetries: nat)
    ensures TalkAt(rules, reply, n, maxRetries) ==
      Talk(MemoryAt(rules, reply, n), Trace(rules, reply, n), GoesOnFor(rules, reply, n, maxRetries))
  {
    if n == 0 {
    } else {
      TalkIsTrace(rules, reply, n - 1, maxRetries);
    }
  }

  /** The request is over after n calls. */
  ghost predicate Finished(
    rules: Rules, reply: nat -> Reply, n: nat, outcome: Outcome, maxCalls: nat, maxRetries: nat, m: Memory,
    attempts: seq<Attempt>)
  {
    && Concluded(rules, reply, n, outcome, maxCalls, maxRetries)
    && m == MemoryLeft(rules, reply, n, maxRetries) && attempts == Trace(rules, reply, n)
  }

  lemma TalkStarts(rules: Rules, reply: nat -> Reply, maxRetries: nat)
    ensures Talked(rules, reply, 0, maxRetries, Memory(rules.start, false, false, 0, 0, 0), [])
  {
  }

  lemma TalkGoesOn(rules: Rules, reply: nat -> Reply, n: nat, maxRetries: nat, m: Memory, attempts: seq<Attempt>)
    requires Talked(rules, reply, n, maxRetries, m, attempts) && TurnOf(rules, m, reply(n), n, maxRetries).GoesOn?
    ensures Talked(
      rules, reply, n + 1, maxRetries, MemoryAfter(rules, m, reply(n), true),
      attempts + [AttemptFrom(rules, m, reply(n), n)])
  {
  }

  lemma TalkEnds(
    rules: Rules, reply: nat -> Reply, n: nat, outcome: Outcome, maxCalls: nat, maxRetries: nat, m: Memory,
    attempts: seq<Attempt>)
    requires Talked(rules, reply, n, maxRetries, m, attempts) && n < maxCalls
    requires var turn := TurnOf(rules, m, reply(n), n, maxRetries);
      turn == Ends(outcome) || (turn.GivesUp? && outcome.RetriesExhausted?)
    ensures Finished(
      rules, reply, n + 1, outcome, maxCalls, maxRetries, MemoryAfter(rules, m, reply(n), false),
      attempts + [AttemptFrom(rules, m, reply(n), n)])
  {
    TalkIsTrace(rules, reply, n, maxRetries);
    assert TurnAt(rules, reply, n, maxRetries) == TurnOf(rules, m, reply(n), n, maxRetries);
  }

  lemma TalkRunsOut(rules: Rules, reply: nat -> Reply, n: nat, maxRetries: nat, m: Memory, attempts: seq<Attempt>)
    requires Talked(rules, reply, n, maxRetries, m, attempts)
    ensures Finished(rules, reply, n, RetriesExhausted, n, maxRetries, m, attempts)
  {
    TalkIsTrace(rules, reply, n, maxRetries);
    LeftIsNext(rules, reply, n, maxRetries);
    if n > 0 {
      assert TurnAt(rules, reply, n - 1, maxRetries).GoesOn?;
    }
  }

  // ----- What the trace says about blocks -----

  /** The batch of this call was screened, and some call of it was withheld. */
  ghost predicate WithheldAt(rules: Rules, a: Attempt, r: Reply) {
    IsScreened(a.phase, r) && !rules.passes(r.calls)
  }

  /** The last upstream call whose batch was withheld, or -1. */
  ghost function LastWithheld(rules: Rules, attempts: seq<Attempt>, reply: nat -> Reply): (k: int)
    ensures -1 <= k < |attempts| && (k >= 0 ==> WithheldAt(rules, attempts[k], reply(k)))
  {
    if attempts == [] then -1 else
      var last := |attempts| - 1;
      if WithheldAt(rules, attempts[last], reply(last)) then last else LastWithheld(rules, attempts[..last], reply)
  }

  lemma {:induction false} LastWithheldIsLast(rules: Rules, attempts: seq<Attempt>, reply: nat -> Reply)
    ensures var k := LastWithheld(rules, attempts, reply);
      forall j :: k < j < |attempts| ==> !WithheldAt(rules, attempts[j], reply(j))
  {
    if attempts == [] {
    } else {
      LastWithheldIsLast(rules, attempts[..|attempts| - 1], reply);
    }
  }

  /** The latest withheld batch was wholly finalizable repeats. */
  ghost predicate LastIsFinalizable(rules: Rules, attempts: seq<Attempt>, reply: nat -> Reply) {
    var k := LastWithheld(rules, attempts, reply);
    k >= 0 && rules.finalizable(reply(k).calls)
  }

  /** If any batch was withheld in this request, the latest one must have been wholly finalizable repeats. */
  ghost predicate AnswerAllowed(rules: Rules, attempts: seq<Attempt>, reply: nat -> Reply) {
    LastWithheld(rules, attempts, reply) >= 0 ==> LastIsFinalizable(rules, attempts, reply)
  }

  lemma LastWithheldOneMore(rules: Rules, attempts: seq<Attempt>, next: Attempt, reply: nat -> Reply)
    ensures var longer := attempts + [next];
      LastWithheld(rules, longer, reply) ==
        if WithheldAt(rules, next, reply(|attempts|)) then |attempts| else LastWithheld(rules, attempts, reply)
  {
    assert (attempts + [next])[..|attempts|] == attempts;
  }

  lemma {:induction false} TraceHolds(rules: Rules, reply: nat -> Reply, n: nat, k: nat)
    requires k < n
    ensures Trace(rules, reply, n)[k] == AttemptAt(rules, reply, k)
  {
    if k == n - 1 {
    } else {
      TraceHolds(rules, reply, n - 1, k);
    }
  }

  /** The reply of call k is not one to release. */
  ghost predicate Unreleased(rules: Rules, reply: nat -> Reply, k: nat) {
    !Releasable(rules, MemoryAt(rules, reply, k), reply(k))
  }

  /** The two flags are exactly what the trace says about withheld batches. */
  ghost predicate FlagsTell(rules: Rules, m: Memory, attempts: seq<Attempt>, reply: nat -> Reply) {
    && (m.blocked <==> LastWithheld(rules, attempts, reply) >= 0)
    && (m.forced <==> LastIsFinalizable(rules, attempts, reply))
  }

  /**
    What a reply that is not released does to the flags: a withheld batch sets them anew,
    anything else leaves them.
  */
  lemma FlagsAfter(rules: Rules, m: Memory, r: Reply, a: Attempt)
    requires !Releasable(rules, m, r) && a.phase == PhaseOf(rules, m)
    ensures var after := MemoryAfter(rules, m, r, true);
      if WithheldAt(rules, a, r) then after.blocked && after.forced == rules.finalizable(r.calls)
      else after.blocked == m.blocked && after.forced == m.forced
  {
  }

  lemma FlagsStillTell(
    rules: Rules, m: Memory, after: Memory, attempts: seq<Attempt>, a: Attempt, reply: nat -> Reply)
    requires FlagsTell(rules, m, attempts, reply)
    requires var r := reply(|attempts|);
      if WithheldAt(rules, a, r) then after.blocked && after.forced == rules.finalizable(r.calls)
      else after.blocked == m.blocked && after.forced == m.forced
    ensures FlagsTell(rules, after, attempts + [a], reply)
  {
    LastWithheldOneMore(rules, attempts, a, reply);
  }

  lemma {:induction false} BlocksAreRemembered(rules: Rules, reply: nat -> Reply, n: nat)
    requires forall k :: 0 <= k < n ==> Unreleased(rules, reply, k)
    ensures FlagsTell(rules, MemoryAt(rules, reply, n), Trace(rules, reply, n), reply)
  {
    if n == 0 {
    } else {
      var m, a := MemoryAt(rules, reply, n - 1), AttemptAt(rules, reply, n - 1);
      BlocksAreRemembered(rules, reply, n - 1);
      assert Unreleased(rules, reply, n - 1);
      FlagsAfter(rules, m, reply(n - 1), a);
      FlagsStillTell(rules, m, MemoryAt(rules, reply, n), Trace(rules, reply, n - 1), a, reply);
    }
  }

  lemma TurnsAreNotReleased(rules: Rules, m: Memory, r: Reply, retries: nat, maxRetries: nat)
    ensures var turn := TurnOf(rules, m, r, retries, maxRetries);
      && (Releasable(rules, m, r) <==> turn.Ends? && !turn.outcome.Failed?)
      && (turn.GoesOn? ==> retries < maxRetries && (IsScreened(PhaseOf(rules, m), r) || m.corrections < 2))
  {
  }

  lemma {:induction false} EarlierAreNotReleased(rules: Rules, reply: nat -> Reply, n: nat, maxRetries: nat)
    requires GoesOnFor(rules, reply, n, maxRetries)
    ensures forall k :: 0 <= k < n ==> Unreleased(rules, reply, k)
  {
    if n == 0 {
    } else {
      EarlierAreNotReleased(rules, reply, n - 1, maxRetries);
      TurnsAreNotReleased(rules, MemoryAt(rules, reply, n - 1), reply(n - 1), n - 1, maxRetries);
      assert Unreleased(rules, reply, n - 1);
    }
  }

  lemma AnswerMeansUnblocked(rules: Rules, m: Memory, r: Reply, retries: nat, maxRetries: nat)
    requires TurnOf(rules, m, r, retries, maxRetries).Ends?
    requires TurnOf(rules, m, r, retries, maxRetries).outcome.ReleasedAnswer?
    ensures (m.blocked ==> m.forced) && r.Message? && r.calls == []
  {
  }

  /** An answer that ends a request follows no withheld batch, or one that was wholly finalizable repeats. */
  lemma AnswerIsAllowed(
    rules: Rules, reply: nat -> Reply, n: nat, outcome: Outcome, maxCalls: nat, maxRetries: nat)
    requires Concluded(rules, reply, n, outcome, maxCalls, maxRetries) && outcome.ReleasedAnswer?
    ensures AnswerAllowed(rules, Trace(rules, reply, n), reply)
  {
    EarlierAreNotReleased(rules, reply, n - 1, maxRetries);
    BlocksAreRemembered(rules, reply, n - 1);
    LastWithheldOneMore(rules, Trace(rules, reply, n - 1), AttemptAt(rules, reply, n - 1), reply);
    AnswerMeansUnblocked(rules, MemoryAt(rules, reply, n - 1), reply(n - 1), n - 1, maxRetries);
  }

  /** The intervention counters in the order they are snapshotted. */
  function Interventions(harness: AgentHarness): seq<nat>
    reads harness`terminalCorrections, harness`blockedDuplicates, harness`blockedStalls
  {
    [harness.terminalCorrections, harness.blockedDuplicates, harness.blockedStalls]
  }

  /** A latest exactly paired tool result, with what the transcript says about using it. */
  datatype Latest = Latest(name: string, result: ToolResult, degraded: bool, blocked: bool)

  datatype Request = Request(latest: Option<Latest>, phaseSplit: bool, toolChoiceNone: bool, degraded: bool)

  method SnapshotTiming(harness: AgentHarness, counts: array<nat>)
    requires counts.Length == 3
    modifies counts
    ensures counts[..] == Interventions(harness)
  {
    counts[0], counts[1], counts[2] := harness.terminalCorrections, harness.blockedDuplicates, harness.blockedStalls;
  }

  ghost predicate GoodTrace(attempts: seq<Attempt>, split: bool) {
    && (forall k :: 0 <= k < |attempts| ==> attempts[k].retries == k && attempts[k].counted == attempts[k].actual)
    && (forall k :: 0 <= k < |attempts| ==> (attempts[k].phase.Unsplit? <==> !split))
    && (forall j, k :: 0 <= j <= k < |attempts| && attempts[j].phase.Finalization? ==> attempts[k].phase.Finalization?)
  }

  lemma TraceExtends(attempts: seq<Attempt>, next: Attempt, split: bool)
    requires GoodTrace(attempts, split)
    requires next.retries == |attempts| && next.counted == next.actual && (next.phase.Unsplit? <==> !split)
    requires forall k :: 0 <= k < |attempts| && attempts[k].phase.Finalization? ==> next.phase.Finalization?
    ensures GoodTrace(attempts + [next], split)
  {
  }

  lemma {:induction false} TraceIsGood(rules: Rules, reply: nat -> Reply, n: nat)
    ensures GoodTrace(Trace(rules, reply, n), !rules.start.Unsplit?)
    ensures MemoryAt(rules, reply, n).phase.Unsplit? <==> rules.start.Unsplit?
    ensures forall k :: 0 <= k < n && Trace(rules, reply, n)[k].phase.Finalization? ==>
      MemoryAt(rules, reply, n).phase.Finalization?
  {
    if n == 0 {
    } else {
      TraceIsGood(rules, reply, n - 1);
      assert MemoryAt(rules, reply, n).phase == AttemptAt(rules, reply, n - 1).phase;
      TraceExtends(Trace(rules, reply, n - 1), AttemptAt(rules, reply, n - 1), !rules.start.Unsplit?);
    }
  }

  lemma {:induction false} CorrectionsBounded(rules: Rules, reply: nat -> Reply, n: nat, maxRetries: nat)
    requires GoesOnFor(rules, reply, n, maxRetries)
    ensures MemoryAt(rules, reply, n).corrections <= 2
    ensures n <= maxRetries || n == 0
  {
    if n == 0 {
    } else {
      CorrectionsBounded(rules, reply, n - 1, maxRetries);
      assert TurnAt(rules, reply, n - 1, maxRetries).GoesOn?;
      TurnsAreNotReleased(rules, MemoryAt(rules, reply, n - 1), reply(n - 1), n - 1, maxRetries);
    }
  }

  lemma LastTurnReleases(rules: Rules, m: Memory, r: Reply, retries: nat, maxRetries: nat)
    ensures var turn := TurnOf(rules, m, r, retries, maxRetries);
      && (Releasable(rules, m, r) ==>
            r.Message? && turn == Ends(if r.calls != [] then ReleasedBatch(r.calls) else ReleasedAnswer(r.content)))
      && (!Releasable(rules, m, r) && turn.Ends? ==>
            && turn.outcome.Failed?
            && (r == Raises(turn.outcome.error) || (r.CallsNotAList? && turn.outcome.error.ProxyFailure?)))
      && (!turn.Ends? ==> r.Message?)
  {
  }

  /** What is released is the first releasable reply. */
  lemma FirstIsReleased(
    rules: Rules, reply: nat -> Reply, n: nat, outcome: Outcome, maxCalls: nat, maxRetries: nat)
    requires Concluded(rules, reply, n, outcome, maxCalls, maxRetries)
    ensures ReleasesFirst(Trace(rules, reply, n), reply, outcome)
  {
    if n > 0 {
      EarlierAreNotReleased(rules, reply, n - 1, maxRetries);
    }
    var attempts := Trace(rules, reply, n);
    forall k | 0 <= k < n - 1 ensures !attempts[k].releasable {
      TraceHolds(rules, reply, n, k);
      assert Unreleased(rules, reply, k);
    }
    if n > 0 {
      TraceHolds(rules, reply, n, n - 1);
      LastTurnReleases(rules, MemoryAt(rules, reply, n - 1), reply(n - 1), n - 1, maxRetries);
    }
  }

  /** The bounds of a request, and why it may run out of retries. */
  lemma RequestIsBounded(
    rules: Rules, reply: nat -> Reply, n: nat, outcome: Outcome, maxCalls: nat, maxRetries: nat)
    requires Concluded(rules, reply, n, outcome, maxCalls, maxRetries)
    ensures n <= maxCalls && n <= maxRetries + 1
    ensures MemoryLeft(rules, reply, n, maxRetries).corrections <= 2
    ensures outcome.RetriesExhausted? ==>
      || n == maxCalls || n == maxRetries + 1
      || (MemoryLeft(rules, reply, n, maxRetries).corrections == 2 && reply(n - 1).Message?
          && (reply(n - 1).calls == [] || AttemptAt(rules, reply, n - 1).phase.Finalization?))
  {
    if n > 0 {
      CorrectionsBounded(rules, reply, n - 1, maxRetries);
      TurnsAreNotReleased(rules, MemoryAt(rules, reply, n - 1), reply(n - 1), n - 1, maxRetries);
    }
  }

  lemma BatchIsScreened(
    rules: Rules, reply: nat -> Reply, n: nat, outcome: Outcome, maxCalls: nat, maxRetries: nat)
    requires Concluded(rules, reply, n, outcome, maxCalls, maxRetries) && outcome.ReleasedBatch?
    ensures n > 0 && !AttemptAt(rules, reply, n - 1).phase.Finalization?
    ensures outcome.calls != [] && rules.passes(outcome.calls)
  {
  }

  lemma BlockedAfter(rules: Rules, m: Memory, r: Reply, a: Attempt, corrected: bool)
    requires a.phase == PhaseOf(rules, m)
    ensures MemoryAfter(rules, m, r, corrected).blocked <==> m.blocked || WithheldAt(rules, a, r)
  {
  }

  lemma BlockedStillTells(
    rules: Rules, m: Memory, blocked: bool, attempts: seq<Attempt>, a: Attempt, reply: nat -> Reply)
    requires FlagsTell(rules, m, attempts, reply)
    requires blocked <==> m.blocked || WithheldAt(rules, a, reply(|attempts|))
    ensures blocked <==> LastWithheld(rules, attempts + [a], reply) >= 0
  {
    LastWithheldOneMore(rules, attempts, a, reply);
  }

  /** The block flag that a request leaves behind says whether any batch of it was withheld. */
  lemma FlagTellsBlocks(rules: Rules, reply: nat -> Reply, n: nat, maxRetries: nat, corrected: bool)
    requires n > 0 && GoesOnFor(rules, reply, n - 1, maxRetries)
    ensures MemoryAfter(rules, MemoryAt(rules, reply, n - 1), reply(n - 1), corrected).blocked
      <==> LastWithheld(rules, Trace(rules, reply, n), reply) >= 0
  {
    var m, a := MemoryAt(rules, reply, n - 1), AttemptAt(rules, reply, n - 1);
    EarlierAreNotReleased(rules, reply, n - 1, maxRetries);
    BlocksAreRemembered(rules, reply, n - 1);
    BlockedAfter(rules, m, reply(n - 1), a, corrected);
    BlockedStillTells(
      rules, m, MemoryAfter(rules, m, reply(n - 1), corrected).blocked, Trace(rules, reply, n - 1), a, reply);
  }

  // ----- A request in terms of its replies -----

  /** Upstream call j brought a batch that was read, and not refused for coming in finalization. */
  ghost predicate BatchAt(attempts: seq<Attempt>, reply: nat -> Reply, j: int) {
    0 <= j < |attempts| && reply(j).Message? && reply(j).calls != [] && !attempts[j].phase.Finalization?
  }

  /** Batch j is the latest one before call k. */
  ghost predicate LatestBatch(attempts: seq<Attempt>, reply: nat -> Reply, j: int, k: int) {
    j < k && BatchAt(attempts, reply, j) && forall i :: j < i < k ==> !BatchAt(attempts, reply, i)
  }

  /** The latest batch before call k, if there was one, was wholly finalizable repeats. */
  ghost predicate Unblocked(rules: Rules, attempts: seq<Attempt>, reply: nat -> Reply, k: int) {
    forall j :: LatestBatch(attempts, reply, j, k) ==> rules.finalizable(reply(j).calls)
  }

  /** Some batch before call k was wholly finalizable repeats. */
  ghost predicate WasForced(rules: Rules, attempts: seq<Attempt>, reply: nat -> Reply, k: int) {
    exists j :: j < k && BatchAt(attempts, reply, j) && rules.finalizable(reply(j).calls)
  }

  /** The calls before call k that brought no batch to read: answers, and batches in finalization. */
  ghost function Unread(attempts: seq<Attempt>, reply: nat -> Reply, k: int): set<int> {
    set j | 0 <= j < k && !BatchAt(attempts, reply, j)
  }

  /** What the batches before call k add up to. */
  ghost function Total(
    count: seq<ProposedCall> -> nat, attempts: seq<Attempt>, reply: nat -> Reply, k: nat): nat
  {
    if k == 0 then 0 else
    var here := if BatchAt(attempts, reply, k - 1) then count(reply(k - 1).calls) else 0;
    Total(count, attempts, reply, k - 1) + here
  }

  ghost function PhaseSaid(rules: Rules, attempts: seq<Attempt>, reply: nat -> Reply, k: int): Phase {
    if rules.start.Unsplit? then Unsplit
    else if rules.start.Finalization? || WasForced(rules, attempts, reply, k) then Finalization
    else Acquisition
  }

  ghost predicate ReleasableSaid(rules: Rules, attempts: seq<Attempt>, reply: nat -> Reply, k: nat) {
    && reply(k).Message?
    && if reply(k).calls != [] then BatchAt(attempts, reply, k) && rules.passes(reply(k).calls)
       else rules.answers(reply(k).content) && Unblocked(rules, attempts, reply, k)
  }

  ghost function CountsSaid(
    rules: Rules, attempts: seq<Attempt>, reply: nat -> Reply, k: nat, corrections: nat): seq<nat>
  {
    [corrections, Total(rules.repeats, attempts, reply, k), Total(rules.stalls, attempts, reply, k)]
  }

  /** What call k of the trace says, read off the replies up to it. */
  ghost predicate AttemptSaid(rules: Rules, attempts: seq<Attempt>, reply: nat -> Reply, k: nat)
    requires k < |attempts|
  {
    var a := attempts[k];
    && a.retries == k && a.phase == PhaseSaid(rules, attempts, reply, k)
    && (a.releasable <==> ReleasableSaid(rules, attempts, reply, k))
    && a.counted == a.actual == CountsSaid(rules, attempts, reply, k, |Unread(attempts, reply, k)|)
  }

  /**
    After call k the model is to be asked again: for a withheld batch a retry must be left,
    for anything else a correction as well.
  */
  ghost predicate AsksAgain(attempts: seq<Attempt>, reply: nat -> Reply, k: nat, maxRetries: nat)
    requires k < |attempts|
  {
    && reply(k).Message? && !attempts[k].releasable && k < maxRetries
    && (BatchAt(attempts, reply, k) || |Unread(attempts, reply, k)| < 2)
  }

  /** What the last reply makes of the request. */
  ghost function EndSaid(attempts: seq<Attempt>, reply: nat -> Reply): Outcome {
    if attempts == [] then RetriesExhausted
    else match reply(|attempts| - 1)
      case Raises(error) => Failed(error)
      case CallsNotAList => Failed(ProxyFailure)
      case Message(calls, content) =>
        if !attempts[|attempts| - 1].releasable then RetriesExhausted
        else if calls != [] then ReleasedBatch(calls) else ReleasedAnswer(content)
  }

  /**
    The whole request in terms of its replies: what each call of it saw, that another call
    follows exactly if the model is to be asked again and a call is left, and how it ends.
  */
  ghost predicate Follows(
    rules: Rules, attempts: seq<Attempt>, reply: nat -> Reply, outcome: Outcome, maxCalls: nat, maxRetries: nat)
  {
    && (attempts == [] <==> maxCalls == 0)
    && (forall k :: 0 <= k < |attempts| ==> AttemptSaid(rules, attempts, reply, k))
    && (forall k :: 0 <= k < |attempts| ==>
         (k + 1 < |attempts| <==> AsksAgain(attempts, reply, k, maxRetries) && k + 1 < maxCalls))
    && outcome == EndSaid(attempts, reply)
  }

  /** The corrections that a request made. */
  ghost function Corrected(attempts: seq<Attempt>, reply: nat -> Reply, maxRetries: nat): set<int> {
    set j | 0 <= j < |attempts| && !BatchAt(attempts, reply, j) && AsksAgain(attempts, reply, j, maxRetries)
  }

  /** The counters that a request leaves behind. */
  ghost function CountsLeft(rules: Rules, attempts: seq<Attempt>, reply: nat -> Reply, maxRetries: nat): seq<nat> {
    CountsSaid(rules, attempts, reply, |attempts|, |Corrected(attempts, reply, maxRetries)|)
  }

  /** What is carried from call to call says of the calls before it. */
  ghost predicate MemorySaid(rules: Rules, m: Memory, attempts: seq<Attempt>, reply: nat -> Reply, k: nat) {
    && PhaseOf(rules, m) == PhaseSaid(rules, attempts, reply, k)
    && ((m.blocked ==> m.forced) <==> Unblocked(rules, attempts, reply, k))
    && Snapshot(m) == CountsSaid(rules, attempts, reply, k, |Unread(attempts, reply, k)|)
  }

  lemma UnblockedOneMore(rules: Rules, attempts: seq<Attempt>, reply: nat -> Reply, k: nat)
    ensures Unblocked(rules, attempts, reply, k + 1) <==>
      if BatchAt(attempts, reply, k) then rules.finalizable(reply(k).calls) else Unblocked(rules, attempts, reply, k)
  {
    if BatchAt(attempts, reply, k) {
      assert LatestBatch(attempts, reply, k, k + 1);
    } else {
      forall j ensures LatestBatch(attempts, reply, j, k + 1) <==> LatestBatch(attempts, reply, j, k) {}
    }
  }

  lemma ForcedOneMore(rules: Rules, attempts: seq<Attempt>, reply: nat -> Reply, k: nat)
    ensures WasForced(rules, attempts, reply, k + 1) <==>
      WasForced(rules, attempts, reply, k) || (BatchAt(attempts, reply, k) && rules.finalizable(reply(k).calls))
  {
  }

  lemma UnreadOneMore(attempts: seq<Attempt>, reply: nat -> Reply, k: nat)
    ensures |Unread(attempts, reply, k + 1)| ==
      |Unread(attempts, reply, k)| + if BatchAt(attempts, reply, k) then 0 else 1
  {
    var before := Unread(attempts, reply, k);
    assert Unread(attempts, reply, k + 1) == before + if BatchAt(attempts, reply, k) then {} else {k};
    assert k !in before;
  }

  lemma MemoryStillSaid(rules: Rules, m: Memory, r: Reply, attempts: seq<Attempt>, reply: nat -> Reply, k: nat)
    requires k < |attempts| && r == reply(k) && attempts[k].phase == PhaseOf(rules, m)
    requires r.Message? && !Releasable(rules, m, r) && MemorySaid(rules, m, attempts, reply, k)
    ensures MemorySaid(rules, MemoryAfter(rules, m, r, true), attempts, reply, k + 1)
  {
    UnblockedOneMore(rules, attempts, reply, k);
    ForcedOneMore(rules, attempts, reply, k);
    UnreadOneMore(attempts, reply, k);
  }

  /** The attempts are those of the replies. */
  ghost predicate IsTrace(rules: Rules, attempts: seq<Attempt>, reply: nat -> Reply) {
    forall k :: 0 <= k < |attempts| ==> attempts[k] == AttemptAt(rules, reply, k)
  }

  lemma GoingOnMeans(rules: Rules, m: Memory, r: Reply, retries: nat, maxRetries: nat)
    ensures TurnOf(rules, m, r, retries, maxRetries).GoesOn? <==>
      && r.Message? && !Releasable(rules, m, r) && retries < maxRetries
      && ((r.calls != [] && !PhaseOf(rules, m).Finalization?) || m.corrections < 2)
  {
  }

  ghost predicate Continues(rules: Rules, m: Memory, r: Reply) {
    r.Message? && !Releasable(rules, m, r)
  }

  ghost predicate ContinuesFor(rules: Rules, reply: nat -> Reply, n: nat) {
    n == 0 || (ContinuesFor(rules, reply, n - 1) && Continues(rules, MemoryAt(rules, reply, n - 1), reply(n - 1)))
  }

  lemma {:induction false} MemoryIsSaid(rules: Rules, attempts: seq<Attempt>, reply: nat -> Reply, k: nat)
    requires k <= |attempts| && IsTrace(rules, attempts, reply)
    requires ContinuesFor(rules, reply, k)
    ensures MemorySaid(rules, MemoryAt(rules, reply, k), attempts, reply, k)
  {
    if k == 0 {
      assert Unread(attempts, reply, 0) == {};
    } else {
      MemoryIsSaid(rules, attempts, reply, k - 1);
      StepIsSaid(rules, MemoryAt(rules, reply, k - 1), attempts, reply, k - 1);
    }
  }

  lemma StepIsSaid(rules: Rules, m: Memory, attempts: seq<Attempt>, reply: nat -> Reply, k: nat)
    requires k < |attempts| && IsTrace(rules, attempts, reply) && m == MemoryAt(rules, reply, k)
    requires Continues(rules, m, reply(k)) && MemorySaid(rules, m, attempts, reply, k)
    ensures MemorySaid(rules, MemoryAt(rules, reply, k + 1), attempts, reply, k + 1)
  {
    assert attempts[k] == AttemptAt(rules, reply, k);
    MemoryStillSaid(rules, m, reply(k), attempts, reply, k);
  }

  lemma AttemptIsSaid(rules: Rules, m: Memory, attempts: seq<Attempt>, reply: nat -> Reply, k: nat, maxRetries: nat)
    requires k < |attempts| && attempts[k] == AttemptFrom(rules, m, reply(k), k)
    requires MemorySaid(rules, m, attempts, reply, k)
    ensures AttemptSaid(rules, attempts, reply, k)
    ensures AsksAgain(attempts, reply, k, maxRetries) <==> TurnOf(rules, m, reply(k), k, maxRetries).GoesOn?
  {
    GoingOnMeans(rules, m, reply(k), k, maxRetries);
  }

  lemma {:induction false} GoingOnContinues(rules: Rules, reply: nat -> Reply, n: nat, maxRetries: nat)
    requires GoesOnFor(rules, reply, n, maxRetries)
    ensures ContinuesFor(rules, reply, n)
  {
    if n == 0 {
    } else {
      GoingOnContinues(rules, reply, n - 1, maxRetries);
      GoingOnMeans(rules, MemoryAt(rules, reply, n - 1), reply(n - 1), n - 1, maxRetries);
    }
  }

  lemma {:induction false} EarlierGoOn(rules: Rules, reply: nat -> Reply, n: nat, maxRetries: nat, k: nat)
    requires GoesOnFor(rules, reply, n, maxRetries) && k <= n
    ensures GoesOnFor(rules, reply, k, maxRetries)
    ensures k < n ==> TurnAt(rules, reply, k, maxRetries).GoesOn?
  {
    if k == n {
    } else {
      EarlierGoOn(rules, reply, n - 1, maxRetries, k);
    }
  }

  lemma CallIsRemembered(
    rules: Rules, attempts: seq<Attempt>, reply: nat -> Reply, n: nat, maxRetries: nat, k: nat)
    requires k < n == |attempts| && IsTrace(rules, attempts, reply) && GoesOnFor(rules, reply, n - 1, maxRetries)
    ensures MemorySaid(rules, MemoryAt(rules, reply, k), attempts, reply, k)
    ensures k < n - 1 ==> TurnAt(rules, reply, k, maxRetries).GoesOn?
  {
    EarlierGoOn(rules, reply, n - 1, maxRetries, k);
    GoingOnContinues(rules, reply, k, maxRetries);
    MemoryIsSaid(rules, attempts, reply, k);
  }

  /** Every call of a request is as said, and asks again exactly if its turn goes on. */
  lemma CallIsSaid(
    rules: Rules, attempts: seq<Attempt>, reply: nat -> Reply, n: nat, maxRetries: nat, k: nat)
    requires k < n == |attempts| && IsTrace(rules, attempts, reply) && GoesOnFor(rules, reply, n - 1, maxRetries)
    ensures MemorySaid(rules, MemoryAt(rules, reply, k), attempts, reply, k)
    ensures attempts[k] == AttemptAt(rules, reply, k) && AttemptSaid(rules, attempts, reply, k)
    ensures AsksAgain(attempts, reply, k, maxRetries) <==> TurnAt(rules, reply, k, maxRetries).GoesOn?
    ensures k < n - 1 ==> AsksAgain(attempts, reply, k, maxRetries)
  {
    CallIsRemembered(rules, attempts, reply, n, maxRetries, k);
    assert attempts[k] == AttemptAt(rules, reply, k);
    AttemptIsSaid(rules, MemoryAt(rules, reply, k), attempts, reply, k, maxRetries);
  }

  lemma TraceIsTrace(rules: Rules, reply: nat -> Reply, n: nat)
    ensures IsTrace(rules, Trace(rules, reply, n), reply)
  {
    forall k | 0 <= k < n ensures Trace(rules, reply, n)[k] == AttemptAt(rules, reply, k) {
      TraceHolds(rules, reply, n, k);
    }
  }

  lemma TurnEndsAsSaid(
    rules: Rules, m: Memory, attempts: seq<Attempt>, reply: nat -> Reply, k: nat, turn: Turn, maxRetries: nat,
    outcome: Outcome)
    requires |attempts| == k + 1 && attempts[k] == AttemptFrom(rules, m, reply(k), k)
    requires turn == TurnOf(rules, m, reply(k), k, maxRetries)
    requires outcome == if turn.Ends? then turn.outcome else RetriesExhausted
    ensures outcome == EndSaid(attempts, reply)
  {
  }

  /** A request is what its replies make it. */
  lemma ConcludedFollows(rules: Rules, reply: nat -> Reply, n: nat, outcome: Outcome, maxCalls: nat, maxRetries: nat)
    requires Concluded(rules, reply, n, outcome, maxCalls, maxRetries)
    ensures Follows(rules, Trace(rules, reply, n), reply, outcome, maxCalls, maxRetries)
  {
    var attempts := Trace(rules, reply, n);
    TraceIsTrace(rules, reply, n);
    if n > 0 {
      LastTurnConcludes(rules, reply, n, outcome, maxCalls, maxRetries);
      LastCallSays(rules, attempts, reply, n, TurnAt(rules, reply, n - 1, maxRetries), outcome, maxRetries);
      AllAskAgain(rules, attempts, reply, n, maxRetries);
    }
  }

  lemma CallAsks(rules: Rules, attempts: seq<Attempt>, reply: nat -> Reply, n: nat, maxRetries: nat, k: nat)
    requires k < n == |attempts| && IsTrace(rules, attempts, reply) && GoesOnFor(rules, reply, n - 1, maxRetries)
    ensures attempts[k] == AttemptAt(rules, reply, k)
    ensures AsksAgain(attempts, reply, k, maxRetries) <==> TurnAt(rules, reply, k, maxRetries).GoesOn?
    ensures k < n - 1 ==> AsksAgain(attempts, reply, k, maxRetries)
  {
    CallIsSaid(rules, attempts, reply, n, maxRetries, k);
  }

  lemma LastTurnConcludes(rules: Rules, reply: nat -> Reply, n: nat, outcome: Outcome, maxCalls: nat, maxRetries: nat)
    requires n > 0 && Concluded(rules, reply, n, outcome, maxCalls, maxRetries)
    ensures var turn := TurnAt(rules, reply, n - 1, maxRetries);
      && n <= maxCalls && GoesOnFor(rules, reply, n - 1, maxRetries) && (turn.GoesOn? ==> n == maxCalls)
      && outcome == if turn.Ends? then turn.outcome else RetriesExhausted
  {
  }

  lemma LastCallSays(
    rules: Rules, attempts: seq<Attempt>, reply: nat -> Reply, n: nat, turn: Turn, outcome: Outcome, maxRetries: nat)
    requires 0 < n == |attempts| && IsTrace(rules, attempts, reply) && GoesOnFor(rules, reply, n - 1, maxRetries)
    requires turn == TurnAt(rules, reply, n - 1, maxRetries)
    requires outcome == if turn.Ends? then turn.outcome else RetriesExhausted
    ensures outcome == EndSaid(attempts, reply)
    ensures AsksAgain(attempts, reply, n - 1, maxRetries) <==> turn.GoesOn?
  {
    CallAsks(rules, attempts, reply, n, maxRetries, n - 1);
    TurnEndsAsSaid(rules, MemoryAt(rules, reply, n - 1), attempts, reply, n - 1, turn, maxRetries, outcome);
  }

  lemma CorrectedIs(attempts: seq<Attempt>, reply: nat -> Reply, maxRetries: nat)
    requires attempts != [] && forall k :: 0 <= k < |attempts| - 1 ==> AsksAgain(attempts, reply, k, maxRetries)
    ensures var last := |attempts| - 1;
      |Corrected(attempts, reply, maxRetries)| == |Unread(attempts, reply, last)| +
        if !BatchAt(attempts, reply, last) && AsksAgain(attempts, reply, last, maxRetries) then 1 else 0
  {
    var last := |attempts| - 1;
    var before := Unread(attempts, reply, last);
    var corrects := !BatchAt(attempts, reply, last) && AsksAgain(attempts, reply, last, maxRetries);
    assert Corrected(attempts, reply, maxRetries) == before + if corrects then {last} else {};
    assert last !in before;
  }

  lemma CountsAfter(rules: Rules, m: Memory, attempts: seq<Attempt>, reply: nat -> Reply, k: nat, corrected: bool)
    requires k < |attempts| && attempts[k].phase == PhaseOf(rules, m) && MemorySaid(rules, m, attempts, reply, k)
    ensures Snapshot(MemoryAfter(rules, m, reply(k), corrected)) ==
      CountsSaid(
        rules, attempts, reply, k + 1,
        |Unread(attempts, reply, k)| + if !BatchAt(attempts, reply, k) && corrected then 1 else 0)
  {
  }

  lemma LastCounts(
    rules: Rules, m: Memory, attempts: seq<Attempt>, reply: nat -> Reply, n: nat, maxRetries: nat, goesOn: bool)
    requires 0 < n == |attempts| && attempts[n - 1].phase == PhaseOf(rules, m)
    requires MemorySaid(rules, m, attempts, reply, n - 1)
    requires forall k :: 0 <= k < n - 1 ==> AsksAgain(attempts, reply, k, maxRetries)
    requires AsksAgain(attempts, reply, n - 1, maxRetries) <==> goesOn
    ensures Snapshot(MemoryAfter(rules, m, reply(n - 1), goesOn)) == CountsLeft(rules, attempts, reply, maxRetries)
  {
    CorrectedIs(attempts, reply, maxRetries);
    CountsAfter(rules, m, attempts, reply, n - 1, goesOn);
  }

  lemma AllAskAgain(rules: Rules, attempts: seq<Attempt>, reply: nat -> Reply, n: nat, maxRetries: nat)
    requires 0 < n == |attempts| && IsTrace(rules, attempts, reply) && GoesOnFor(rules, reply, n - 1, maxRetries)
    ensures forall k :: 0 <= k < n ==> AttemptSaid(rules, attempts, reply, k)
    ensures forall k :: 0 <= k < n - 1 ==> AsksAgain(attempts, reply, k, maxRetries)
  {
    forall k | 0 <= k < n
      ensures AttemptSaid(rules, attempts, reply, k)
      ensures k < n - 1 ==> AsksAgain(attempts, reply, k, maxRetries)
    {
      CallIsSaid(rules, attempts, reply, n, maxRetries, k);
    }
  }

  lemma CountsBehind(
    rules: Rules, attempts: seq<Attempt>, reply: nat -> Reply, n: nat, maxRetries: nat, m: Memory, goesOn: bool)
    requires 0 < n == |attempts| && IsTrace(rules, attempts, reply) && GoesOnFor(rules, reply, n - 1, maxRetries)
    requires m == MemoryAt(rules, reply, n - 1) && goesOn == TurnAt(rules, reply, n - 1, maxRetries).GoesOn?
    ensures Snapshot(MemoryAfter(rules, m, reply(n - 1), goesOn)) == CountsLeft(rules, attempts, reply, maxRetries)
  {
    forall k | 0 <= k < n - 1 ensures AsksAgain(attempts, reply, k, maxRetries) {
      CallAsks(rules, attempts, reply, n, maxRetries, k);
    }
    CallAsks(rules, attempts, reply, n, maxRetries, n - 1);
    CallIsRemembered(rules, attempts, reply, n, maxRetries, n - 1);
    LastCounts(rules, m, attempts, reply, n, maxRetries, goesOn);
  }

  /** The counters that a request leaves behind are those of its replies. */
  lemma CountsAreSaid(rules: Rules, reply: nat -> Reply, n: nat, outcome: Outcome, maxCalls: nat, maxRetries: nat)
    requires Concluded(rules, reply, n, outcome, maxCalls, maxRetries)
    ensures Snapshot(MemoryLeft(rules, reply, n, maxRetries)) ==
      CountsLeft(rules, Trace(rules, reply, n), reply, maxRetries)
  {
    var attempts := Trace(rules, reply, n);
    TraceIsTrace(rules, reply, n);
    if n > 0 {
      CountsBehind(
        rules, attempts, reply, n, maxRetries, MemoryAt(rules, reply, n - 1),
        TurnAt(rules, reply, n - 1, maxRetries).GoesOn?);
    } else {
      assert Corrected(attempts, reply, maxRetries) == {};
    }
  }

  /** A split request that forbids tools starts in finalization when the state is already settled. */
  function StartPhase(ledger: Ledger, request: Request): Phase {
    if !request.phaseSplit then Unsplit
    else if request.toolChoiceNone && MayFinalizeAtOnce(ledger, request) then Finalization
    else Acquisition
  }

  predicate MayFinalizeAtOnce(ledger: Ledger, request: Request) {
    && ledger.receipts != [] && ledger.receipts[|ledger.receipts| - 1].status.Success?
    && !request.degraded && ledger.Settled()
  }

  /**
    The phase of the first call: a request that is not split has none, and a split one starts
    in finalization exactly if it forbids tools, nothing is degraded, the latest receipt is a
    success, and the history leaves nothing to verify.
  */
  lemma StartPhaseIff(ledger: Ledger, request: Request)
    requires ledger.Valid()
    ensures StartPhase(ledger, request).Unsplit? <==> !request.phaseSplit
    ensures StartPhase(ledger, request).Finalization? <==>
      && request.phaseSplit && request.toolChoiceNone && !request.degraded
      && ledger.receipts != [] && ledger.receipts[|ledger.receipts| - 1].status.Success?
      && !AwaitsVerification(ledger.roles, ledger.receipts) && !HasOpenFailure(ledger.roles, ledger.receipts)
  {
    OpenMapEmpty(ledger.roles, ledger.receipts, ledger.fields.open);
  }

  /** Local Projection answers the request. */
  predicate Projects(harness: AgentHarness, request: Request)
    reads harness
  {
    && request.latest.Some?
    && var latest := request.latest.value;
       DecideLocalProjection(harness, latest.name, latest.result, latest.degraded, latest.blocked).Eligible?
  }

  class ChatService {
    const maxUpstreamCalls: nat
    const maxInternalRetries: nat
    const deniedTools: set<string>

    constructor (maxUpstreamCalls: nat, maxInternalRetries: nat, deniedTools: set<string>)
      ensures this.maxUpstreamCalls == maxUpstreamCalls && this.maxInternalRetries == maxInternalRetries
      ensures this.deniedTools == deniedTools
    {
      this.maxUpstreamCalls, this.maxInternalRetries := maxUpstreamCalls, maxInternalRetries;
      this.deniedTools := deniedTools;
    }

    /** The request follows these rules: its own ledger and contract, and what the service denies. */
    ghost function RulesOf(harness: AgentHarness, start: Phase): Rules
      reads harness
    {
      RulesFor(harness.CurrentLedger(), harness.contract, deniedTools, start)
    }

    /** What the harness remembers of the upstream calls made so far. */
    ghost function Remembered(harness: AgentHarness, phase: Phase): Memory
      reads harness
    {
      Memory(phase, harness.lastActionBlocked, harness.forceFinalize, harness.terminalCorrections,
             harness.blockedDuplicates, harness.blockedStalls)
    }

    /** What the attempts and the outcome of a request must be, given what the replies were. */
    ghost predicate Conversed(
      harness: AgentHarness, start: Phase, reply: nat -> Reply, outcome: Outcome, attempts: seq<Attempt>)
      reads harness
    {
      var rules := RulesOf(harness, start);
      && attempts == Trace(rules, reply, |attempts|)
      && Concluded(rules, reply, |attempts|, outcome, maxUpstreamCalls, maxInternalRetries)
      && Follows(rules, attempts, reply, outcome, maxUpstreamCalls, maxInternalRetries)
      && Interventions(harness) == CountsLeft(rules, attempts, reply, maxInternalRetries)
      && (harness.lastActionBlocked <==> LastWithheld(rules, attempts, reply) >= 0)
      && (outcome.ReleasedAnswer? ==> AnswerAllowed(rules, attempts, reply))
    }

    /**
      If any batch was withheld in this request, an answer is released only if the latest was all
      finalizable repeats.
    */
    ghost predicate AnswerFollowsBlock(
      harness: AgentHarness, start: Phase, reply: nat -> Reply, outcome: Outcome, attempts: seq<Attempt>)
      reads harness
    {
      var k := LastWithheld(RulesOf(harness, start), attempts, reply);
      outcome.ReleasedAnswer? && k >= 0 ==> AllFinalizable(harness.CurrentLedger(), deniedTools, reply(k).calls)
    }

    /** What a release guarantees, read off the final state of the harness. */
    ghost predicate Gated(harness: AgentHarness, outcome: Outcome, attempts: seq<Attempt>, reply: nat -> Reply)
      reads harness
    {
      match outcome
      case ReleasedBatch(calls) =>
        && attempts != [] && !attempts[|attempts| - 1].phase.Finalization?
        && calls != [] && NoneWithheld(harness.CurrentLedger(), deniedTools, calls)
      case ReleasedAnswer(content) => attempts != [] && harness.TerminalIssue(content).None?
      case ReleasedProjection(content) => attempts == [] && harness.TerminalIssue(content).None?
      case RetriesExhausted =>
        || |attempts| == maxUpstreamCalls
        || |attempts| == maxInternalRetries + 1
        || (harness.terminalCorrections == 2 && attempts != [] && !BatchAt(attempts, reply, |attempts| - 1))
      case Failed(_) => attempts != []
    }

    /** Answer from the latest receipt when that is allowed, and by the model otherwise. */
    method Complete(harness: AgentHarness, request: Request, reply: nat -> Reply, counts: array<nat>)
      returns (outcome: Outcome, ghost attempts: seq<Attempt>)
      requires harness.Untouched() && counts.Length == 3
      modifies harness`blockedDuplicates, harness`blockedStalls, harness`lastActionBlocked, harness`forceFinalize
      modifies harness`terminalCorrections, counts
      ensures |attempts| <= maxUpstreamCalls && |attempts| <= maxInternalRetries + 1
      ensures harness.terminalCorrections <= 2
      ensures GoodTrace(attempts, request.phaseSplit)
      ensures counts[..] == Interventions(harness)
      ensures Gated(harness, outcome, attempts, reply) && ReleasesFirst(attempts, reply, outcome)
      ensures outcome.ReleasedProjection? <==> old(Projects(harness, request))
      ensures outcome.ReleasedProjection? ==>
        && request.latest.Some? && request.latest.value.result.Summary?
        && outcome.content == Document(
             Obj(map["status" := Str("passed"), "tests" := Int(request.latest.value.result.passed)]))
      ensures !outcome.ReleasedProjection? ==>
        Conversed(harness, StartPhase(harness.CurrentLedger(), request), reply, outcome, attempts)
      ensures AnswerFollowsBlock(harness, StartPhase(harness.CurrentLedger(), request), reply, outcome, attempts)
    {
      attempts := [];
      SnapshotTiming(harness, counts);
      if request.latest.Some? {
        var latest := request.latest.value;
        var decision := DecideLocalProjection(harness, latest.name, latest.result, latest.degraded, latest.blocked);
        if decision.Eligible? {
          ProjectedAnswerPassesGate(harness, latest.name, latest.result, latest.degraded, latest.blocked);
          SnapshotTiming(harness, counts);
          return ReleasedProjection(decision.Answer()), attempts;
        }
      }
      outcome, attempts := Converse(harness, StartPhase(harness.CurrentLedger(), request), reply, counts);
    }

    /**
      The retry loop.  `reply(k)` is what upstream call k brings; nothing is assumed
      about it.  The ghost result records every upstream call.
    */
    method Converse(harness: AgentHarness, start: Phase, reply: nat -> Reply, counts: array<nat>)
      returns (outcome: Outcome, ghost attempts: seq<Attempt>)
      requires harness.Untouched() && counts.Length == 3 && counts[..] == Interventions(harness)
      modifies harness`blockedDuplicates, harness`blockedStalls, harness`lastActionBlocked, harness`forceFinalize
      modifies harness`terminalCorrections, counts
      ensures |attempts| <= maxUpstreamCalls && |attempts| <= maxInternalRetries + 1
      ensures harness.terminalCorrections <= 2
      ensures GoodTrace(attempts, !start.Unsplit?)
      ensures counts[..] == Interventions(harness)
      ensures Gated(harness, outcome, attempts, reply) && ReleasesFirst(attempts, reply, outcome)
      ensures !outcome.ReleasedProjection? && Conversed(harness, start, reply, outcome, attempts)
      ensures AnswerFollowsBlock(harness, start, reply, outcome, attempts)
    {
      ghost var rules := RulesOf(harness, start);
      var phase;
      outcome, phase, attempts := AskUntilDone(harness, rules, start, reply, counts);
      ConcludeRequest(harness, rules, reply, |attempts|, outcome, phase);
    }

    /** The loop itself. */
    method AskUntilDone(
      harness: AgentHarness, ghost rules: Rules, start: Phase, reply: nat -> Reply, counts: array<nat>)
      returns (outcome: Outcome, phase: Phase, ghost attempts: seq<Attempt>)
      requires rules == RulesOf(harness, start)
      requires harness.Untouched() && counts.Length == 3 && counts[..] == Interventions(harness)
      modifies harness`blockedDuplicates, harness`blockedStalls, harness`lastActionBlocked, harness`forceFinalize
      modifies harness`terminalCorrections, counts
      ensures rules == RulesOf(harness, start) && counts[..] == Interventions(harness)
      ensures Finished(
        rules, reply, |attempts|, outcome, maxUpstreamCalls, maxInternalRetries, Remembered(harness, phase), attempts)
    {
      var upstreamCalls, internalRetries := 0, 0;
      phase, attempts := start, [];
      TalkStarts(rules, reply, maxInternalRetries);
      while upstreamCalls < maxUpstreamCalls
        invariant upstreamCalls == internalRetries == |attempts| <= maxUpstreamCalls
        invariant rules == RulesOf(harness, start) && counts[..] == Interventions(harness)
        invariant Talked(rules, reply, upstreamCalls, maxInternalRetries, Remembered(harness, phase), attempts)
        decreases maxUpstreamCalls - upstreamCalls
      {
        var turn;
        turn, phase, attempts :=
          TakeTurn(harness, rules, start, reply, phase, reply(upstreamCalls), internalRetries, counts, attempts);
        upstreamCalls := upstreamCalls + 1;
        if !turn.GoesOn? {
          return if turn.Ends? then turn.outcome else RetriesExhausted, phase, attempts;
        }
        internalRetries := internalRetries + 1;
      }
      outcome := RetriesExhausted;
      TalkRunsOut(rules, reply, upstreamCalls, maxInternalRetries, Remembered(harness, phase), attempts);
    }

    /** One turn of the loop. */
    method TakeTurn(
      harness: AgentHarness, ghost rules: Rules, start: Phase, ghost reply: nat -> Reply, phase: Phase, response: Reply,
      internalRetries: nat, counts: array<nat>, ghost attempts: seq<Attempt>)
      returns (turn: Turn, phase': Phase, ghost attempts': seq<Attempt>)
      requires rules == RulesOf(harness, start) && counts.Length == 3 && counts[..] == Interventions(harness)
      requires response == reply(internalRetries) && |attempts| == internalRetries < maxUpstreamCalls
      requires Talked(rules, reply, internalRetries, maxInternalRetries, Remembered(harness, phase), attempts)
      modifies harness`blockedDuplicates, harness`blockedStalls, harness`lastActionBlocked, harness`forceFinalize
      modifies harness`terminalCorrections, counts
      ensures rules == RulesOf(harness, start) && counts[..] == Interventions(harness)
      ensures |attempts'| == internalRetries + 1
      ensures var n, m := internalRetries + 1, Remembered(harness, phase');
        if turn.GoesOn? then Talked(rules, reply, n, maxInternalRetries, m, attempts')
        else Finished(
          rules, reply, n, if turn.Ends? then turn.outcome else RetriesExhausted,
          maxUpstreamCalls, maxInternalRetries, m, attempts')
    {
      ghost var m := Remembered(harness, phase);
      turn, phase', attempts' := Ask(harness, rules, start, phase, response, internalRetries, counts, attempts);
      if turn.GoesOn? {
        TalkGoesOn(rules, reply, internalRetries, maxInternalRetries, m, attempts);
      } else {
        TalkEnds(
          rules, reply, internalRetries, if turn.Ends? then turn.outcome else RetriesExhausted, maxUpstreamCalls,
          maxInternalRetries, m, attempts);
      }
    }

    /** The body of the loop: enter finalization if it was forced, call upstream, and take the reply. */
    method Ask(
      harness: AgentHarness, ghost rules: Rules, start: Phase, phase: Phase, response: Reply, internalRetries: nat,
      counts: array<nat>, ghost attempts: seq<Attempt>)
      returns (turn: Turn, phase': Phase, ghost attempts': seq<Attempt>)
      requires rules == RulesOf(harness, start) && counts.Length == 3 && counts[..] == Interventions(harness)
      modifies harness`blockedDuplicates, harness`blockedStalls, harness`lastActionBlocked, harness`forceFinalize
      modifies harness`terminalCorrections, counts
      ensures rules == RulesOf(harness, start) && counts[..] == Interventions(harness)
      ensures var m := old(Remembered(harness, phase));
        && turn == TurnOf(rules, m, response, internalRetries, maxInternalRetries)
        && Remembered(harness, phase') == MemoryAfter(rules, m, response, turn.GoesOn?)
        && attempts' == attempts + [AttemptFrom(rules, m, response, internalRetries)]
    {
      ghost var m := Remembered(harness, phase);
      phase' := phase;
      if !start.Unsplit? && harness.forceFinalize {
        phase' := Finalization;
      }
      attempts' := attempts +
        [Attempt(phase', internalRetries, counts[..], Interventions(harness), Releasable(rules, m, response))];
      turn := Exchange(harness, rules, m, phase', response, internalRetries, counts);
    }

    /** From the loop's bookkeeping to what is promised of the request. */
    lemma ConcludeRequest(
      harness: AgentHarness, rules: Rules, reply: nat -> Reply, n: nat, outcome: Outcome, phase: Phase)
      requires rules == RulesOf(harness, rules.start)
      requires Concluded(rules, reply, n, outcome, maxUpstreamCalls, maxInternalRetries)
      requires Remembered(harness, phase) == MemoryLeft(rules, reply, n, maxInternalRetries)
      ensures var attempts := Trace(rules, reply, n);
        && |attempts| == n <= maxUpstreamCalls && n <= maxInternalRetries + 1 && harness.terminalCorrections <= 2
        && GoodTrace(attempts, !rules.start.Unsplit?)
        && Gated(harness, outcome, attempts, reply) && ReleasesFirst(attempts, reply, outcome)
        && Conversed(harness, rules.start, reply, outcome, attempts)
        && AnswerFollowsBlock(harness, rules.start, reply, outcome, attempts)
    {
      TraceIsGood(rules, reply, n);
      if n > 0 {
        TraceHolds(rules, reply, n, n - 1);
      }
      RequestIsBounded(rules, reply, n, outcome, maxUpstreamCalls, maxInternalRetries);
      ConcludedFollows(rules, reply, n, outcome, maxUpstreamCalls, maxInternalRetries);
      CountsAreSaid(rules, reply, n, outcome, maxUpstreamCalls, maxInternalRetries);
      FirstIsReleased(rules, reply, n, outcome, maxUpstreamCalls, maxInternalRetries);
      if outcome.ReleasedAnswer? {
        AnswerIsAllowed(rules, reply, n, outcome, maxUpstreamCalls, maxInternalRetries);
        harness.GateIsAnswerable(outcome.content);
      }
      if outcome.ReleasedBatch? {
        BatchIsScreened(rules, reply, n, outcome, maxUpstreamCalls, maxInternalRetries);
      }
      if n > 0 {
        FlagTellsBlocks(
          rules, reply, n, maxInternalRetries, TurnAt(rules, reply, n - 1, maxInternalRetries).GoesOn?);
      }
    }

    /** One upstream call: how it turns out, and what the harness remembers of it. */
    method Exchange(
      harness: AgentHarness, ghost rules: Rules, ghost m: Memory, phase: Phase, response: Reply, internalRetries: nat,
      counts: array<nat>) returns (turn: Turn)
      requires rules == RulesOf(harness, rules.start) && Remembered(harness, m.phase) == m && phase == PhaseOf(rules, m)
      requires counts.Length == 3 && counts[..] == Interventions(harness)
      modifies harness`blockedDuplicates, harness`blockedStalls, harness`lastActionBlocked, harness`forceFinalize
      modifies harness`terminalCorrections, counts
      ensures turn == TurnOf(rules, m, response, internalRetries, maxInternalRetries)
      ensures Remembered(harness, phase) == MemoryAfter(rules, m, response, turn.GoesOn?)
      ensures counts[..] == Interventions(harness)
    {
      if response.Raises? {
        return Ends(Failed(response.error));
      }
      if response.CallsNotAList? {
        return Ends(Failed(ProxyFailure));
      }
      if response.calls != [] && !phase.Finalization? {
        var passed := ScreenBatch(harness, response.calls, counts);
        if passed {
          return Ends(ReleasedBatch(response.calls));
        }
        return if internalRetries >= maxInternalRetries then GivesUp else GoesOn;
      }
      harness.GateIsAnswerable(if response.calls == [] then response.content else Blank);
      if response.calls == [] && harness.TerminalIssue(response.content).None? {
        return Ends(ReleasedAnswer(response.content));
      }
      var corrected := Correct(harness, internalRetries, counts);
      turn := if corrected then GoesOn else GivesUp;
    }

    /** Screen a batch and snapshot the counters; it passes if nothing is withheld. */
    method ScreenBatch(harness: AgentHarness, calls: seq<ProposedCall>, counts: array<nat>) returns (passed: bool)
      requires calls != [] && counts.Length == 3
      modifies harness`blockedDuplicates, harness`blockedStalls, harness`lastActionBlocked, harness`forceFinalize
      modifies counts
      ensures passed <==> NoneWithheld(harness.CurrentLedger(), deniedTools, calls)
      ensures harness.lastActionBlocked <==> old(harness.lastActionBlocked) || !passed
      ensures harness.forceFinalize <==> AllFinalizable(harness.CurrentLedger(), deniedTools, calls)
      ensures harness.blockedDuplicates ==
        old(harness.blockedDuplicates) + Repeats(harness.CurrentLedger(), deniedTools, calls, |calls|)
      ensures harness.blockedStalls ==
        old(harness.blockedStalls) + Stalls(harness.CurrentLedger(), deniedTools, calls, |calls|)
      ensures counts[..] == Interventions(harness)
    {
      var rejected, withheld := RejectedResults(calls, harness, deniedTools);
      SnapshotTiming(harness, counts);
      passed := withheld == 0;
    }

    /** Ask for a correction if one is left. */
    method Correct(harness: AgentHarness, internalRetries: nat, counts: array<nat>) returns (corrected: bool)
      requires counts.Length == 3 && counts[..] == Interventions(harness)
      modifies harness`terminalCorrections, counts
      ensures corrected <==> old(harness.terminalCorrections) < 2 && internalRetries < maxInternalRetries
      ensures harness.terminalCorrections == old(harness.terminalCorrections) + if corrected then 1 else 0
      ensures counts[..] == Interventions(harness)
    {
      if harness.terminalCorrections >= 2 || internalRetries >= maxInternalRetries {
        return false;
      }
      harness.Correction();
      SnapshotTiming(harness, counts);
      return true;
    }
  }
}
