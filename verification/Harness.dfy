/**
  The harness policy state of one request (core.py).

  A harness keeps a list of receipts plus a handful of incremental fields.  The
  fields are what every decision reads; the receipts are what the documentation
  talks about.  `Valid()` says what each field means as a statement about the
  whole receipt history, and every method keeps it.
*/
module Harness {
  import opened JsonValues
  import opened Wrappers

  datatype Status = Success | Failure

  /** Tool names by role; a name may be in several sets as far as this module is concerned. */
  datatype Roles = Roles(mutation: set<string>, verification: set<string>, investigation: set<string>)

  datatype Receipt = Receipt(id: nat, tool: string, signature: string, status: Status, epoch: nat)

  /** A final answer as the JSON reader sees it: no text, text that is not JSON, or a document. */
  datatype Content = Blank | Malformed | Document(value: Json)

  datatype Contract = Contract(
    requiredKeys: Option<seq<string>>,
    requiredTypes: map<string, string>,
    enforceFailedExecutionClaim: bool,
    requireReceipt: bool)

  datatype Issue =
    | NoReceipt
    | ActionBlocked
    | LatestFailed
    | OpenFailures(tools: set<string>)
    | PendingVerification
    | WrongFailedExecutions(expected: nat)
    | EmptyAnswer
    | NotJson
    | NotObject
    | WrongKeys
    | WrongType

  // ----- What the history says -----

  predicate SuccessfulMutation(roles: Roles, r: Receipt) {
    r.status.Success? && r.tool in roles.mutation
  }

  predicate FailedVerification(roles: Roles, r: Receipt) {
    r.status.Failure? && r.tool in roles.verification
  }

  predicate SuccessfulVerification(roles: Roles, r: Receipt) {
    r.status.Success? && r.tool in roles.verification
  }

  ghost function MutationsIn(roles: Roles, h: seq<Receipt>): set<int> {
    set i | 0 <= i < |h| && SuccessfulMutation(roles, h[i])
  }

  /** Some successful mutation has no verification receipt, of either status, after it. */
  ghost predicate AwaitsVerification(roles: Roles, h: seq<Receipt>) {
    exists m :: 0 <= m < |h| && SuccessfulMutation(roles, h[m]) && NoVerificationAfter(roles, h, m)
  }

  ghost predicate NoVerificationAfter(roles: Roles, h: seq<Receipt>, m: int) {
    forall v :: 0 <= v < |h| && m < v ==> h[v].tool !in roles.verification
  }

  ghost predicate Latest(h: seq<Receipt>, tool: string, i: int) {
    0 <= i < |h| && h[i].tool == tool && forall j :: i < j < |h| ==> h[j].tool != tool
  }

  /** Receipt i is the latest one of its tool, and it is a failed verification. */
  ghost predicate OpenAt(roles: Roles, h: seq<Receipt>, tool: string, i: int) {
    Latest(h, tool, i) && FailedVerification(roles, h[i])
  }

  ghost predicate HasOpenFailure(roles: Roles, h: seq<Receipt>) {
    exists tool, i :: OpenAt(roles, h, tool, i)
  }

  predicate ResetsStall(roles: Roles, r: Receipt) {
    FailedVerification(roles, r) || SuccessfulMutation(roles, r)
  }

  /** Receipt i is a successful investigation made while a failed verification is open. */
  ghost predicate InvestigatesFailure(roles: Roles, h: seq<Receipt>, i: int) {
    0 <= i < |h| && h[i].status.Success? && h[i].tool in roles.investigation && HasOpenFailure(roles, h[..i + 1])
  }

  ghost predicate NoResetFrom(roles: Roles, h: seq<Receipt>, i: int) {
    forall j :: 0 <= j < |h| && i <= j ==> !ResetsStall(roles, h[j])
  }

  ghost function InvestigationsSinceReset(roles: Roles, h: seq<Receipt>): set<int> {
    set i | 0 <= i < |h| && InvestigatesFailure(roles, h, i) && NoResetFrom(roles, h, i)
  }

  /** Receipts are numbered from 1 and stamped with the number of successful mutations before them. */
  ghost predicate Numbered(roles: Roles, h: seq<Receipt>) {
    forall i :: 0 <= i < |h| ==> h[i].id == i + 1 && h[i].epoch == |MutationsIn(roles, h[..i])|
  }

  ghost predicate OpenMapExact(roles: Roles, h: seq<Receipt>, open: map<string, nat>) {
    && (forall tool :: tool in open ==> OpenAt(roles, h, tool, open[tool] as int - 1))
    && (forall tool, i :: OpenAt(roles, h, tool, i) ==> tool in open && open[tool] == i + 1)
  }

  predicate MatchesType(value: Json, typeName: string) {
    match typeName
    case "string" => value.Str?
    case "integer" => value.Int?
    case "number" => value.Int? || value.Float?
    case "boolean" => value.Bool?
    case _ => false
  }

  function Failures(h: seq<Receipt>): nat {
    if h == [] then 0 else Failures(h[..|h| - 1]) + if h[|h| - 1].status.Failure? then 1 else 0
  }

  predicate MistypedKey(value: map<string, Json>, types: map<string, string>, key: string) {
    key in types && key in value && !MatchesType(value[key], types[key])
  }

  /** bare_json_issue: the first defect of a final answer against its declared keys and types. */
  function BareJsonIssue(content: Content, keys: seq<string>, types: map<string, string>): Option<Issue> {
    match content
    case Blank => Some(EmptyAnswer)
    case Malformed => Some(NotJson)
    case Document(value) =>
      if !value.Obj? then Some(NotObject)
      else if value.fields.Keys != (set k | k in keys) then Some(WrongKeys)
      else if exists k | k in types :: MistypedKey(value.fields, types, k) then Some(WrongType)
      else None
  }

  /** The failed_executions claim, when the contract enforces it, equals the number of failed receipts. */
  predicate ClaimHolds(content: Content, contract: Contract, h: seq<Receipt>) {
    contract.enforceFailedExecutionClaim && content.Document? && content.value.Obj?
      && "failed_executions" in content.value.fields
    ==> content.value.fields["failed_executions"] == Int(Failures(h))
  }

  ghost function FailedReceipts(h: seq<Receipt>): set<int> {
    set i | 0 <= i < |h| && h[i].status.Failure?
  }

  ghost predicate IsOfType(value: Json, typeName: string) {
    || (typeName == "string" && value.Str?)
    || (typeName == "integer" && value.Int?)
    || (typeName == "number" && (value.Int? || value.Float?))
    || (typeName == "boolean" && value.Bool?)
  }

  /** An enforced claim about failed executions that is not their number. */
  ghost predicate ClaimIsWrong(content: Content, contract: Contract, h: seq<Receipt>) {
    && contract.enforceFailedExecutionClaim && content.Document? && content.value.Obj?
    && "failed_executions" in content.value.fields
    && content.value.fields["failed_executions"] != Int(|FailedReceipts(h)|)
  }

  ghost predicate HasExactly(fields: map<string, Json>, keys: seq<string>) {
    forall k :: k in fields <==> k in keys
  }

  ghost predicate HasMistyped(fields: map<string, Json>, types: map<string, string>) {
    exists k :: k in types && k in fields && !IsOfType(fields[k], types[k])
  }

  ghost predicate ContentConforms(content: Content, contract: Contract, h: seq<Receipt>) {
    && !ClaimIsWrong(content, contract, h)
    && (contract.requiredKeys.Some? ==>
        && content.Document? && content.value.Obj?
        && HasExactly(content.value.fields, contract.requiredKeys.value)
        && !HasMistyped(content.value.fields, contract.requiredTypes))
  }

  lemma {:induction false} FailuresCount(h: seq<Receipt>)
    ensures Failures(h) == |FailedReceipts(h)|
  {
    if h == [] {
    } else {
      var last := |h| - 1;
      var before := FailedReceipts(h[..last]);
      FailuresCount(h[..last]);
      assert FailedReceipts(h) == before + if h[last].status.Failure? then {last} else {};
      assert last !in before;
    }
  }

  lemma TypesMatch(value: Json, typeName: string)
    ensures MatchesType(value, typeName) <==> IsOfType(value, typeName)
  {
  }

  lemma MistypedIff(fields: map<string, Json>, types: map<string, string>)
    ensures (exists k | k in types :: MistypedKey(fields, types, k)) <==> HasMistyped(fields, types)
  {
    forall k | k in types && k in fields ensures MistypedKey(fields, types, k) <==> !IsOfType(fields[k], types[k]) {
      TypesMatch(fields[k], types[k]);
    }
    if HasMistyped(fields, types) {
      var k :| k in types && k in fields && !IsOfType(fields[k], types[k]);
      assert MistypedKey(fields, types, k);
    }
  }

  /** The defects of the content alone: the claim, then the declared keys and types. */
  ghost predicate ContentDefect(content: Content, contract: Contract, h: seq<Receipt>, issue: Issue) {
    match issue
    case WrongFailedExecutions(expected) => expected == |FailedReceipts(h)| && ClaimIsWrong(content, contract, h)
    case EmptyAnswer => contract.requiredKeys.Some? && content.Blank?
    case NotJson => contract.requiredKeys.Some? && content.Malformed?
    case NotObject => contract.requiredKeys.Some? && content.Document? && !content.value.Obj?
    case WrongKeys =>
      && contract.requiredKeys.Some? && content.Document? && content.value.Obj?
      && !HasExactly(content.value.fields, contract.requiredKeys.value)
    case WrongType =>
      && contract.requiredKeys.Some? && content.Document? && content.value.Obj?
      && HasMistyped(content.value.fields, contract.requiredTypes)
    case _ => false
  }

  lemma ClaimIsWrongIff(content: Content, contract: Contract, h: seq<Receipt>)
    ensures ClaimHolds(content, contract, h) <==> !ClaimIsWrong(content, contract, h)
  {
    FailuresCount(h);
  }

  lemma KeysDiffer(fields: map<string, Json>, keys: seq<string>)
    ensures fields.Keys == (set k | k in keys) <==> HasExactly(fields, keys)
  {
    if HasExactly(fields, keys) {
      assert fields.Keys == (set k | k in keys);
    } else {
      var k :| !(k in fields <==> k in keys);
      assert k in fields.Keys <==> k !in (set x | x in keys);
    }
  }

  /** The order in which defects are named. */
  function Rank(issue: Issue): nat {
    match issue
    case NoReceipt => 0
    case ActionBlocked => 1
    case LatestFailed => 2
    case OpenFailures(_) => 3
    case PendingVerification => 4
    case WrongFailedExecutions(_) => 5
    case EmptyAnswer => 6
    case NotJson => 7
    case NotObject => 8
    case WrongKeys => 9
    case WrongType => 10
  }

  lemma ContentIssueIsFirst(content: Content, contract: Contract, h: seq<Receipt>)
    requires contract.requiredKeys.Some?
    ensures var issue := BareJsonIssue(content, contract.requiredKeys.value, contract.requiredTypes);
      && (issue.Some? ==> Rank(issue.value) > 5 && ContentDefect(content, contract, h, issue.value))
      && forall other :: ContentDefect(content, contract, h, other) && Rank(other) > 5 ==>
           issue.Some? && Rank(issue.value) <= Rank(other)
  {
    if content.Document? && content.value.Obj? {
      KeysDiffer(content.value.fields, contract.requiredKeys.value);
      MistypedIff(content.value.fields, contract.requiredTypes);
    }
  }

  // ----- Growing the history by one receipt -----

  lemma MutationsGrow(roles: Roles, h: seq<Receipt>, r: Receipt)
    ensures MutationsIn(roles, h + [r]) == MutationsIn(roles, h) + (if SuccessfulMutation(roles, r) then {|h|} else {})
    ensures |MutationsIn(roles, h + [r])| == |MutationsIn(roles, h)| + if SuccessfulMutation(roles, r) then 1 else 0
  {
    assert |h| !in MutationsIn(roles, h);
  }

  lemma NumberedGrows(roles: Roles, h: seq<Receipt>, r: Receipt)
    requires Numbered(roles, h)
    requires r.id == |h| + 1 && r.epoch == |MutationsIn(roles, h)|
    ensures Numbered(roles, h + [r])
  {
    var g := h + [r];
    forall i | 0 <= i < |g| ensures g[i].id == i + 1 && g[i].epoch == |MutationsIn(roles, g[..i])| {
      assert g[..i] == h[..i];
      assert i == |h| ==> h[..i] == h;
    }
  }

  lemma OpenGrows(roles: Roles, h: seq<Receipt>, r: Receipt, tool: string, i: int)
    ensures OpenAt(roles, h + [r], tool, i) <==>
      if tool == r.tool then i == |h| && FailedVerification(roles, r) else OpenAt(roles, h, tool, i)
  {
    var g := h + [r];
    assert g[|h|] == r;
    if tool != r.tool && Latest(h, tool, i) {
      assert forall j :: i < j < |g| ==> g[j].tool != tool;
    }
    if Latest(g, tool, i) && i < |h| {
      assert forall j :: i < j < |h| ==> h[j] == g[j];
    }
  }

  lemma OpenMapGrows(
    roles: Roles, h: seq<Receipt>, r: Receipt, open: map<string, nat>, open': map<string, nat>)
    requires OpenMapExact(roles, h, open)
    requires open' == if FailedVerification(roles, r) then open[r.tool := |h| + 1] else open - {r.tool}
    ensures OpenMapExact(roles, h + [r], open')
  {
    var g := h + [r];
    forall tool, i ensures OpenAt(roles, g, tool, i) <==>
      if tool == r.tool then i == |h| && FailedVerification(roles, r) else OpenAt(roles, h, tool, i)
    {
      OpenGrows(roles, h, r, tool, i);
    }
  }

  lemma AwaitGrows(roles: Roles, h: seq<Receipt>, r: Receipt)
    ensures AwaitsVerification(roles, h + [r]) <==>
      SuccessfulMutation(roles, r) || (AwaitsVerification(roles, h) && r.tool !in roles.verification)
  {
    var g := h + [r];
    assert g[|h|] == r;
    if SuccessfulMutation(roles, r) {
      assert NoVerificationAfter(roles, g, |h|);
    } else if AwaitsVerification(roles, h) && r.tool !in roles.verification {
      var m :| 0 <= m < |h| && SuccessfulMutation(roles, h[m]) && NoVerificationAfter(roles, h, m);
      assert NoVerificationAfter(roles, g, m);
      assert SuccessfulMutation(roles, g[m]);
    }
    if AwaitsVerification(roles, g) && !SuccessfulMutation(roles, r) {
      var m :| 0 <= m < |g| && SuccessfulMutation(roles, g[m]) && NoVerificationAfter(roles, g, m);
      forall v | 0 <= v < |h| && m < v ensures h[v].tool !in roles.verification {
        assert g[v] == h[v];
      }
      assert NoVerificationAfter(roles, h, m);
    }
  }

  lemma StallGrows(roles: Roles, h: seq<Receipt>, r: Receipt)
    ensures var g := h + [r];
      |InvestigationsSinceReset(roles, g)| ==
        if ResetsStall(roles, r) then 0
        else |InvestigationsSinceReset(roles, h)| + if InvestigatesFailure(roles, g, |h|) then 1 else 0
  {
    var g := h + [r];
    assert g[|h|] == r;
    if ResetsStall(roles, r) {
      forall i | 0 <= i < |g| ensures !NoResetFrom(roles, g, i) {
        assert ResetsStall(roles, g[|h|]);
      }
      assert InvestigationsSinceReset(roles, g) == {};
    } else {
      forall i | 0 <= i < |h|
        ensures InvestigatesFailure(roles, g, i) == InvestigatesFailure(roles, h, i)
        ensures NoResetFrom(roles, g, i) == NoResetFrom(roles, h, i)
      {
        assert g[..i + 1] == h[..i + 1];
        if NoResetFrom(roles, g, i) {
          forall j | 0 <= j < |h| && i <= j ensures !ResetsStall(roles, h[j]) { assert g[j] == h[j]; }
        }
      }
      assert NoResetFrom(roles, g, |h|);
      var added := if InvestigatesFailure(roles, g, |h|) then {|h|} else {};
      assert InvestigationsSinceReset(roles, g) == InvestigationsSinceReset(roles, h) + added;
      assert |h| !in InvestigationsSinceReset(roles, h);
    }
  }

  /** The incremental fields, and the update that recording a receipt makes to them. */
  datatype Fields = Fields(epoch: nat, pending: bool, open: map<string, nat>, investigations: nat)

  function AnyVerification(roles: Roles, open: map<string, nat>): bool {
    exists tool | tool in open :: tool in roles.verification
  }

  function Step(roles: Roles, f: Fields, r: Receipt): Fields {
    var mutated := SuccessfulMutation(roles, r);
    var open := if FailedVerification(roles, r) then f.open[r.tool := r.id] else f.open - {r.tool};
    var investigated := r.status.Success? && r.tool in roles.investigation && AnyVerification(roles, open);
    Fields(
      f.epoch + if mutated then 1 else 0,
      mutated || (f.pending && r.tool !in roles.verification),
      open,
      if mutated || FailedVerification(roles, r) then 0 else f.investigations + if investigated then 1 else 0)
  }

  /** Every field is the function of the history it stands for. */
  ghost predicate FieldsExact(roles: Roles, h: seq<Receipt>, f: Fields) {
    && Numbered(roles, h)
    && f.epoch == |MutationsIn(roles, h)|
    && (f.pending <==> AwaitsVerification(roles, h))
    && OpenMapExact(roles, h, f.open)
    && f.investigations == |InvestigationsSinceReset(roles, h)|
  }

  lemma OpenMapEmpty(roles: Roles, h: seq<Receipt>, open: map<string, nat>)
    requires OpenMapExact(roles, h, open)
    ensures open != map[] <==> HasOpenFailure(roles, h)
    ensures AnyVerification(roles, open) <==> HasOpenFailure(roles, h)
  {
    if open != map[] {
      var tool :| tool in open;
      assert OpenAt(roles, h, tool, open[tool] as int - 1);
    }
    if tool, i :| OpenAt(roles, h, tool, i) {
      assert tool in open && tool in roles.verification;
    }
  }

  ghost predicate HasOpen(roles: Roles, h: seq<Receipt>, tool: string) {
    exists i :: OpenAt(roles, h, tool, i)
  }

  lemma OpenToolsAre(roles: Roles, h: seq<Receipt>, open: map<string, nat>)
    requires OpenMapExact(roles, h, open)
    ensures forall tool :: tool in open.Keys <==> HasOpen(roles, h, tool)
  {
  }

  lemma StepExact(roles: Roles, h: seq<Receipt>, f: Fields, r: Receipt)
    requires FieldsExact(roles, h, f) && r.id == |h| + 1 && r.epoch == f.epoch
    ensures FieldsExact(roles, h + [r], Step(roles, f, r))
  {
    var g := h + [r];
    var f' := Step(roles, f, r);
    NumberedGrows(roles, h, r);
    MutationsGrow(roles, h, r);
    AwaitGrows(roles, h, r);
    OpenMapGrows(roles, h, r, f.open, f'.open);
    OpenMapEmpty(roles, g, f'.open);
    StallGrows(roles, h, r);
    assert g[..|h| + 1] == g;
  }

  // ----- Whole-history safety -----

  /**
    What closes an obligation.  An open failure ends with the next success of the same tool,
    whether or not anything changed in between; a pending verification ends with any
    verification, failed ones included.
  */
  lemma ObligationsClose(roles: Roles, h: seq<Receipt>, f: Fields, r: Receipt)
    requires FieldsExact(roles, h, f)
    ensures forall tool :: tool in f.open ==>
      (tool !in Step(roles, f, r).open <==> r.tool == tool && r.status.Success?)
    ensures f.pending ==>
      (!Step(roles, f, r).pending <==> r.tool in roles.verification && !SuccessfulMutation(roles, r))
  {
    forall tool | tool in f.open ensures tool in roles.verification {
      assert OpenAt(roles, h, tool, f.open[tool] - 1);
    }
  }

  /**
    Neither needs a success or a change: a failed check ends the duty to verify, and another
    check of the tool ends the failure.
  */
  lemma FailedCheckEndsDuty()
    ensures var roles := Roles({"edit"}, {"check"}, {});
      var start := Fields(0, false, map[], 0);
      var edited := Step(roles, start, Receipt(1, "edit", "e", Status.Success, 0));
      var failed := Step(roles, edited, Receipt(2, "check", "c", Status.Failure, 1));
      var repeated := Step(roles, failed, Receipt(3, "check", "d", Status.Success, 1));
      && edited.pending && edited.open == map[]
      && !failed.pending && failed.open == map["check" := 2]
      && !repeated.pending && repeated.open == map[] && repeated.epoch == failed.epoch == edited.epoch
  {
  }

  /**
    The field that says "verification pending" is cleared by failed verifications as
    well, so on its own it does not show that a mutation was verified.  Together with
    the absence of open failures it does: every successful mutation is followed by a
    successful verification.  No disjointness of the roles is needed.
  */
  lemma SettledHistoryIsVerified(roles: Roles, h: seq<Receipt>, m: int)
    requires !AwaitsVerification(roles, h) && !HasOpenFailure(roles, h)
    requires 0 <= m < |h| && SuccessfulMutation(roles, h[m])
    ensures exists v :: m < v < |h| && SuccessfulVerification(roles, h[v])
  {
    assert !NoVerificationAfter(roles, h, m);
    var v :| 0 <= v < |h| && m < v && h[v].tool in roles.verification;
    var last := LatestFrom(h, v);
    assert !OpenAt(roles, h, h[v].tool, last);
    assert SuccessfulVerification(roles, h[last]);
  }

  /** The latest receipt of the tool of receipt i. */
  lemma LatestFrom(h: seq<Receipt>, i: int) returns (last: int)
    requires 0 <= i < |h|
    ensures i <= last < |h| && Latest(h, h[i].tool, last)
  {
    last := i;
    var j := i + 1;
    while j < |h|
      invariant i <= last < j <= |h|
      invariant h[last].tool == h[i].tool
      invariant forall k :: last < k < j ==> h[k].tool != h[i].tool
    {
      if h[j].tool == h[i].tool { last := j; }
      j := j + 1;
    }
  }

  /** The epoch stamp decides "after the last successful mutation". */
  lemma CurrentEpochMeansUnchangedState(roles: Roles, h: seq<Receipt>, i: int)
    requires Numbered(roles, h) && 0 <= i < |h|
    ensures h[i].epoch == |MutationsIn(roles, h)| <==>
      forall m :: i <= m < |h| ==> !SuccessfulMutation(roles, h[m])
  {
    var before, all := MutationsIn(roles, h[..i]), MutationsIn(roles, h);
    assert before <= all;
    if forall m :: i <= m < |h| ==> !SuccessfulMutation(roles, h[m]) {
      assert before == all;
    } else {
      var m :| i <= m < |h| && SuccessfulMutation(roles, h[m]);
      assert m in all && m !in before;
      StrictSubsetIsSmaller(before, all, m);
    }
  }

  lemma StrictSubsetIsSmaller(a: set<int>, b: set<int>, x: int)
    requires a <= b && x in b && x !in a
    ensures |a| < |b|
  {
    var rest := b - {x};
    assert a <= rest;
    SubsetIsNoLarger(a, rest);
    assert b == rest + {x};
  }

  lemma SubsetIsNoLarger(a: set<int>, b: set<int>)
    requires a <= b
    ensures |a| <= |b|
  {
    assert b == a + (b - a);
  }

  function DuplicateIn(h: seq<Receipt>, signature: string, epoch: nat): Option<Receipt> {
    if h == [] then None
    else
      var last := h[|h| - 1];
      if last.epoch == epoch && last.signature == signature then Some(last)
      else DuplicateIn(h[..|h| - 1], signature, epoch)
  }

  lemma {:induction false} DuplicateInExact(h: seq<Receipt>, signature: string, epoch: nat)
    ensures DuplicateIn(h, signature, epoch).None? ==>
      forall i :: 0 <= i < |h| ==> !(h[i].epoch == epoch && h[i].signature == signature)
    ensures DuplicateIn(h, signature, epoch).Some? ==>
      exists i :: 0 <= i < |h| && DuplicateIn(h, signature, epoch) == Some(h[i])
        && h[i].epoch == epoch && h[i].signature == signature
        && forall j :: i < j < |h| ==> !(h[j].epoch == epoch && h[j].signature == signature)
  {
    if h == [] {
    } else {
      var last := |h| - 1;
      if h[last].epoch == epoch && h[last].signature == signature {
      } else {
        DuplicateInExact(h[..last], signature, epoch);
      }
    }
  }

  /** The part of the harness state that only recording changes, and that screening reads. */
  datatype Ledger = Ledger(roles: Roles, availableTools: set<string>, receipts: seq<Receipt>, fields: Fields) {

    ghost predicate Valid() {
      FieldsExact(roles, receipts, fields)
    }

    predicate Settled() {
      !fields.pending && fields.open == map[]
    }

    /** An investigation is stalled when a failure is open, a mutation tool exists and three were made already. */
    predicate Stalls(name: string) {
      && name in roles.investigation
      && AnyVerification(roles, fields.open)
      && availableTools * roles.mutation != {}
      && fields.investigations >= 3
    }

    /** The stall rule, said about the history. */
    lemma StallsExact(name: string)
      requires Valid()
      ensures Stalls(name) <==>
        && name in roles.investigation
        && HasOpenFailure(roles, receipts)
        && (exists tool :: tool in availableTools && tool in roles.mutation)
        && |InvestigationsSinceReset(roles, receipts)| >= 3
    {
      OpenMapEmpty(roles, receipts, fields.open);
      if tool :| tool in availableTools && tool in roles.mutation {
        assert tool in availableTools * roles.mutation;
      }
    }

    /** The latest receipt of the current epoch with this signature. */
    function Duplicate(signature: string): Option<Receipt> {
      DuplicateIn(receipts, signature, fields.epoch)
    }

    /** Receipt i has this signature and no successful mutation happened at or after it. */
    ghost predicate IsRepeat(signature: string, i: int) {
      0 <= i < |receipts| && receipts[i].signature == signature &&
      forall m :: i <= m < |receipts| ==> !SuccessfulMutation(roles, receipts[m])
    }

    /** A duplicate is the latest receipt with that signature made after the last successful mutation. */
    lemma DuplicateExact(signature: string)
      requires Valid()
      ensures Duplicate(signature).None? ==> forall i :: !IsRepeat(signature, i)
      ensures Duplicate(signature).Some? ==>
        exists i :: IsRepeat(signature, i) && Duplicate(signature) == Some(receipts[i])
          && forall j :: i < j < |receipts| ==> receipts[j].signature != signature
    {
      DuplicateInExact(receipts, signature, fields.epoch);
      forall i | 0 <= i < |receipts|
        ensures receipts[i].epoch == fields.epoch <==>
          forall m :: i <= m < |receipts| ==> !SuccessfulMutation(roles, receipts[m])
      {
        CurrentEpochMeansUnchangedState(roles, receipts, i);
      }
      if Duplicate(signature).Some? {
        var i :| 0 <= i < |receipts| && Duplicate(signature) == Some(receipts[i])
          && receipts[i].epoch == fields.epoch && receipts[i].signature == signature
          && forall j :: i < j < |receipts| ==>
            !(receipts[j].epoch == fields.epoch && receipts[j].signature == signature);
        assert IsRepeat(signature, i);
        forall j | i < j < |receipts| ensures receipts[j].signature != signature {
          assert receipts[j].epoch == fields.epoch;
        }
      }
    }
  }

  /** What the gate asks of an answer, apart from unresolved blocks. */
  predicate Answerable(ledger: Ledger, contract: Contract, content: Content) {
    var receipts := ledger.receipts;
    && (contract.requireReceipt ==> receipts != [])
    && (receipts != [] ==> receipts[|receipts| - 1].status.Success?)
    && ledger.Settled()
    && ClaimHolds(content, contract, receipts)
    && (contract.requiredKeys.Some? ==>
        BareJsonIssue(content, contract.requiredKeys.value, contract.requiredTypes).None?)
  }

  /** What the gate asks, said about the history. */
  ghost predicate GateOpens(ledger: Ledger, contract: Contract, content: Content) {
    var receipts, roles := ledger.receipts, ledger.roles;
    && (contract.requireReceipt ==> receipts != [])
    && (receipts != [] ==> receipts[|receipts| - 1].status.Success?)
    && (forall tool, i :: Latest(receipts, tool, i) && tool in roles.verification ==> receipts[i].status.Success?)
    && !AwaitsVerification(roles, receipts)
    && ContentConforms(content, contract, receipts)
  }

  lemma AnswerableExact(ledger: Ledger, contract: Contract, content: Content)
    requires ledger.Valid()
    ensures Answerable(ledger, contract, content) <==> GateOpens(ledger, contract, content)
  {
    var receipts, roles := ledger.receipts, ledger.roles;
    OpenMapEmpty(roles, receipts, ledger.fields.open);
    forall tool, i ensures OpenAt(roles, receipts, tool, i) <==>
      Latest(receipts, tool, i) && tool in roles.verification && receipts[i].status.Failure? {}
    ClaimIsWrongIff(content, contract, receipts);
    if contract.requiredKeys.Some? && content.Document? && content.value.Obj? {
      KeysDiffer(content.value.fields, contract.requiredKeys.value);
      MistypedIff(content.value.fields, contract.requiredTypes);
    }
  }

  // ----- The stateful harness -----

  class AgentHarness {
    const availableTools: set<string>
    const contract: Contract
    const roles: Roles
    var epoch: nat
    var receipts: seq<Receipt>
    var pendingVerification: bool
    var blockedDuplicates: nat
    var blockedStalls: nat
    var lastActionBlocked: bool
    var forceFinalize: bool
    var terminalCorrections: nat
    var openFailures: map<string, nat>
    var investigationsSinceFailedVerification: nat

    /** Every incremental field is the function of the receipt history it stands for. */
    ghost predicate Valid()
      reads this`receipts, this`epoch, this`pendingVerification, this`openFailures
      reads this`investigationsSinceFailedVerification
    {
      CurrentLedger().Valid()
    }

    /** Nothing was blocked or corrected yet. */
    predicate Untouched()
      reads this`blockedDuplicates, this`blockedStalls, this`lastActionBlocked, this`forceFinalize
      reads this`terminalCorrections
    {
      !lastActionBlocked && !forceFinalize && blockedDuplicates == blockedStalls == terminalCorrections == 0
    }

    function CurrentLedger(): Ledger
      reads this`receipts, this`epoch, this`pendingVerification, this`openFailures
      reads this`investigationsSinceFailedVerification
    {
      Ledger(roles, availableTools, receipts, CurrentFields())
    }

    function CurrentFields(): Fields
      reads this`epoch, this`pendingVerification, this`openFailures, this`investigationsSinceFailedVerification
    {
      Fields(epoch, pendingVerification, openFailures, investigationsSinceFailedVerification)
    }

    constructor (availableTools: set<string>, contract: Contract, roles: Roles)
      ensures Valid() && Untouched() && receipts == []
      ensures this.availableTools == availableTools && this.contract == contract && this.roles == roles
    {
      this.availableTools, this.contract, this.roles := availableTools, contract, roles;
      epoch, receipts, pendingVerification := 0, [], false;
      blockedDuplicates, blockedStalls, terminalCorrections := 0, 0, 0;
      lastActionBlocked, forceFinalize := false, false;
      openFailures, investigationsSinceFailedVerification := map[], 0;
    }

    method Record(name: string, signature: string, status: Status) returns (receipt: Receipt)
      requires Valid()
      modifies this
      ensures Valid()
      ensures receipts == old(receipts) + [receipt]
      ensures receipt.tool == name && receipt.signature == signature && receipt.status == status
      ensures !lastActionBlocked && !forceFinalize
      ensures blockedDuplicates == old(blockedDuplicates) && blockedStalls == old(blockedStalls)
      ensures terminalCorrections == old(terminalCorrections)
    {
      StepExact(roles, receipts, CurrentFields(), Receipt(|receipts| + 1, name, signature, status, epoch));
      receipt := Append(name, signature, status);
    }

    /** The field updates of Record, whatever the fields hold. */
    method Append(name: string, signature: string, status: Status) returns (receipt: Receipt)
      modifies this
      ensures receipt == Receipt(|old(receipts)| + 1, name, signature, status, old(epoch))
      ensures receipts == old(receipts) + [receipt]
      ensures CurrentFields() == Step(roles, old(CurrentFields()), receipt)
      ensures !lastActionBlocked && !forceFinalize
      ensures blockedDuplicates == old(blockedDuplicates) && blockedStalls == old(blockedStalls)
      ensures terminalCorrections == old(terminalCorrections)
    {
      lastActionBlocked := false;
      forceFinalize := false;
      receipt := Receipt(|receipts| + 1, name, signature, status, epoch);
      receipts := receipts + [receipt];
      if status.Failure? && name in roles.verification {
        openFailures := openFailures[name := receipt.id];
        investigationsSinceFailedVerification := 0;
      } else {
        openFailures := openFailures - {name};
        if status.Success? && name in roles.investigation && AnyVerification(roles, openFailures) {
          investigationsSinceFailedVerification := investigationsSinceFailedVerification + 1;
        }
      }
      if status.Success? && name in roles.mutation {
        epoch := epoch + 1;
        pendingVerification := true;
        investigationsSinceFailedVerification := 0;
      } else if name in roles.verification && pendingVerification {
        pendingVerification := false;
      }
    }

    method BlockedResult(prior: Receipt)
      modifies this`blockedDuplicates, this`lastActionBlocked, this`forceFinalize
      ensures blockedDuplicates == old(blockedDuplicates) + 1 && lastActionBlocked
      ensures forceFinalize == (prior.status.Success? && CurrentLedger().Settled())
    {
      blockedDuplicates := blockedDuplicates + 1;
      lastActionBlocked := true;
      forceFinalize := prior.status.Success? && !pendingVerification && openFailures == map[];
    }

    method StalledResult(name: string) returns (stalled: bool)
      modifies this`blockedStalls, this`lastActionBlocked, this`forceFinalize
      ensures stalled == CurrentLedger().Stalls(name)
      ensures !stalled ==> unchanged(this)
      ensures stalled ==> blockedStalls == old(blockedStalls) + 1 && lastActionBlocked && !forceFinalize
    {
      if !CurrentLedger().Stalls(name) { return false; }
      blockedStalls := blockedStalls + 1;
      lastActionBlocked := true;
      forceFinalize := false;
      return true;
    }

    method Correction()
      modifies this`terminalCorrections
      ensures terminalCorrections == old(terminalCorrections) + 1
    {
      terminalCorrections := terminalCorrections + 1;
    }

    function TerminalIssue(content: Content): Option<Issue>
      reads this
    {
      if receipts == [] && contract.requireReceipt then Some(NoReceipt)
      else if lastActionBlocked && !forceFinalize then Some(ActionBlocked)
      else if receipts != [] && receipts[|receipts| - 1].status.Failure? then Some(LatestFailed)
      else if openFailures != map[] then Some(OpenFailures(openFailures.Keys))
      else if pendingVerification then Some(PendingVerification)
      else if !ClaimHolds(content, contract, receipts) then Some(WrongFailedExecutions(Failures(receipts)))
      else if contract.requiredKeys.None? then None
      else BareJsonIssue(content, contract.requiredKeys.value, contract.requiredTypes)
    }

    lemma GateIsAnswerable(content: Content)
      ensures TerminalIssue(content).None? <==>
        Answerable(CurrentLedger(), contract, content) && (lastActionBlocked ==> forceFinalize)
    {
    }

    /** The defects of an answer and of the history before it. */
    ghost predicate HasDefect(content: Content, issue: Issue)
      reads this
    {
      match issue
      case NoReceipt => contract.requireReceipt && receipts == []
      case ActionBlocked => lastActionBlocked && !forceFinalize
      case LatestFailed => receipts != [] && receipts[|receipts| - 1].status.Failure?
      case OpenFailures(tools) => tools != {} && forall tool :: tool in tools <==> HasOpen(roles, receipts, tool)
      case PendingVerification => AwaitsVerification(roles, receipts)
      case _ => ContentDefect(content, contract, receipts, issue)
    }

    lemma IssueIsDefect(content: Content)
      requires Valid()
      ensures var issue := TerminalIssue(content); issue.Some? ==> HasDefect(content, issue.value)
    {
      OpenToolsAre(roles, receipts, openFailures);
      ClaimIsWrongIff(content, contract, receipts);
      FailuresCount(receipts);
      if contract.requiredKeys.Some? {
        ContentIssueIsFirst(content, contract, receipts);
      }
    }

    lemma StateDefectIsNamed(content: Content, defect: Issue)
      requires OpenMapExact(roles, receipts, openFailures)
      requires pendingVerification <==> AwaitsVerification(roles, receipts)
      requires HasDefect(content, defect) && Rank(defect) < 5
      ensures var issue := TerminalIssue(content); issue.Some? && Rank(issue.value) <= Rank(defect)
    {
      if defect.OpenFailures? {
        var tool :| tool in defect.tools;
        OpenToolsAre(roles, receipts, openFailures);
        assert tool in openFailures;
      }
    }

    lemma ContentDefectIsNamed(content: Content, defect: Issue)
      requires ContentDefect(content, contract, receipts, defect)
      ensures var issue := TerminalIssue(content); issue.Some? && Rank(issue.value) <= Rank(defect)
    {
      ClaimIsWrongIff(content, contract, receipts);
      if contract.requiredKeys.Some? {
        ContentIssueIsFirst(content, contract, receipts);
      }
    }

    /** The gate names the first defect there is, and lets an answer pass exactly if there is none. */
    lemma TerminalIssueIsFirst(content: Content)
      requires Valid()
      ensures var issue := TerminalIssue(content);
        && (issue.Some? ==> HasDefect(content, issue.value))
        && forall other :: HasDefect(content, other) ==> issue.Some? && Rank(issue.value) <= Rank(other)
    {
      IssueIsDefect(content);
      forall other | HasDefect(content, other)
        ensures TerminalIssue(content).Some? && Rank(TerminalIssue(content).value) <= Rank(other)
      {
        if Rank(other) < 5 {
          StateDefectIsNamed(content, other);
        } else {
          ContentDefectIsNamed(content, other);
        }
      }
    }

    /** The gate, said about the history: exactly when it lets an answer pass. */
    lemma TerminalIssueExact(content: Content)
      requires Valid()
      ensures TerminalIssue(content).None? <==>
        GateOpens(CurrentLedger(), contract, content) && (lastActionBlocked ==> forceFinalize)
    {
      GateIsAnswerable(content);
      AnswerableExact(CurrentLedger(), contract, content);
    }

    /** Whatever was recorded: an answer the gate lets pass follows a verified state. */
    lemma ReleasedAnswerIsVerified(content: Content, m: int)
      requires Valid() && TerminalIssue(content).None?
      requires 0 <= m < |receipts| && SuccessfulMutation(roles, receipts[m])
      ensures exists v :: m < v < |receipts| && SuccessfulVerification(roles, receipts[v])
    {
      OpenMapEmpty(roles, receipts, openFailures);
      SettledHistoryIsVerified(roles, receipts, m);
    }
  }

  datatype Execution = Execution(name: string, signature: string, status: Status)

  /** Rebuild the state of a request by recording every visible execution in order. */
  method Reconstruct(availableTools: set<string>, contract: Contract, roles: Roles, executions: seq<Execution>)
    returns (harness: AgentHarness)
    ensures fresh(harness) && harness.Valid() && harness.Untouched()
    ensures harness.availableTools == availableTools && harness.contract == contract && harness.roles == roles
    ensures |harness.receipts| == |executions|
    ensures forall i :: 0 <= i < |executions| ==>
      var r := harness.receipts[i];
      r.tool == executions[i].name && r.signature == executions[i].signature && r.status == executions[i].status
  {
    harness := new AgentHarness(availableTools, contract, roles);
    for n := 0 to |executions|
      invariant fresh(harness) && harness.Valid() && harness.Untouched()
      invariant harness.availableTools == availableTools && harness.contract == contract && harness.roles == roles
      invariant |harness.receipts| == n
      invariant forall i :: 0 <= i < n ==>
        var r := harness.receipts[i];
        r.tool == executions[i].name && r.signature == executions[i].signature && r.status == executions[i].status
    {
      var _ := harness.Record(executions[n].name, executions[n].signature, executions[n].status);
    }
  }
}
