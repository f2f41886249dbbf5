/**
  Local Projection (projection.py): answering from the latest receipt without
  asking the model.
*/
module Projection {
  import opened JsonValues
  import opened Wrappers
  import opened Harness

  /** A tool result: the text "N passed", a document without duplicate keys, or anything else. */
  datatype ToolResult = Summary(passed: nat) | Parsed(value: Json) | Unparsable

  datatype Reason =
    | TranscriptDegraded | BlockedUnresolvedAction | PendingVerificationState | OpenFailure | NoReceiptYet
    | StaleReceipt | ReceiptNotSuccess | UnknownToolResult | NonlatestReceipt | UnsupportedSchema
    | MalformedToolResult | TerminalNotObject | SchemaKeysMismatch | SchemaTypeMismatch | UnpromotedRule

  datatype Rule = ProvenVerifierSummary | ExactPrimitiveObject

  datatype Decision = Rejected(reason: Reason) | Eligible(rule: Rule, candidate: map<string, Json>) {
    /** The projected answer; the JSON reader inverts the writer on it. */
    function Answer(): Content
      requires Eligible?
    {
      Document(Obj(candidate))
    }
  }

  const PRIMITIVE_TYPES := {"string", "integer", "number", "boolean"}

  predicate Distinct(keys: seq<string>) {
    forall i, j :: 0 <= i < j < |keys| ==> keys[i] != keys[j]
  }

  /** The declared keys with their types, when the contract is a primitive object contract. */
  function DeclaredSchema(contract: Contract): Option<seq<(string, string)>> {
    match contract.requiredKeys
    case None => None
    case Some(keys) =>
      var types := contract.requiredTypes;
      if keys == [] || !Distinct(keys) || types.Keys != (set k | k in keys) then None
      else if exists k | k in types :: types[k] !in PRIMITIVE_TYPES then None
      else Some(seq(|keys|, i requires 0 <= i < |keys| && keys[i] in types => (keys[i], types[keys[i]])))
  }

  function SchemaKeys(schema: seq<(string, string)>): set<string> {
    set field | field in schema :: field.0
  }

  /** The first defect of a parsed result against the schema. */
  function ParseExactTerminal(result: ToolResult, schema: seq<(string, string)>): (defect: Option<Reason>) {
    match result
    case Summary(_) => Some(MalformedToolResult)
    case Unparsable => Some(MalformedToolResult)
    case Parsed(value) =>
      if !value.Obj? then Some(TerminalNotObject)
      else if value.fields.Keys != SchemaKeys(schema) then Some(SchemaKeysMismatch)
      else if exists f | f in schema :: f.0 in value.fields && !MatchesType(value.fields[f.0], f.1) then
        Some(SchemaTypeMismatch)
      else None
  }

  predicate IsProvenSummary(harness: AgentHarness, name: string, result: ToolResult, schema: seq<(string, string)>) {
    name in harness.roles.verification && schema == [("status", "string"), ("tests", "integer")] && result.Summary?
  }

  function DecideShadowCandidate(
    harness: AgentHarness, name: string, result: ToolResult, degraded: bool, blocked: bool): Decision
    reads harness
  {
    if degraded then Rejected(TranscriptDegraded)
    else if blocked || harness.lastActionBlocked then Rejected(BlockedUnresolvedAction)
    else if harness.pendingVerification then Rejected(PendingVerificationState)
    else if harness.openFailures != map[] then Rejected(OpenFailure)
    else if harness.receipts == [] then Rejected(NoReceiptYet)
    else
      var latest := harness.receipts[|harness.receipts| - 1];
      if latest.epoch != harness.epoch then Rejected(StaleReceipt)
      else if !latest.status.Success? then Rejected(ReceiptNotSuccess)
      else if harness.availableTools != {} && name !in harness.availableTools then Rejected(UnknownToolResult)
      else if latest.tool != name then Rejected(NonlatestReceipt)
      else
        match DeclaredSchema(harness.contract)
        case None => Rejected(UnsupportedSchema)
        case Some(schema) =>
          if IsProvenSummary(harness, name, result, schema) then
            Eligible(ProvenVerifierSummary, map["status" := Str("passed"), "tests" := Int(result.passed)])
          else
            match ParseExactTerminal(result, schema)
            case Some(defect) => Rejected(defect)
            case None => Eligible(ExactPrimitiveObject, result.value.fields)
  }

  function DecideLocalProjection(
    harness: AgentHarness, name: string, result: ToolResult, degraded: bool, blocked: bool): Decision
    reads harness
  {
    var shadow := DecideShadowCandidate(harness, name, result, degraded, blocked);
    if shadow.Eligible? && !shadow.rule.ProvenVerifierSummary? then Rejected(UnpromotedRule) else shadow
  }

  lemma SchemaDeclaresTypes(contract: Contract)
    requires DeclaredSchema(contract).Some?
    ensures var schema := DeclaredSchema(contract).value;
      && SchemaKeys(schema) == contract.requiredTypes.Keys == (set k | k in contract.requiredKeys.value)
      && forall k :: k in contract.requiredTypes ==> (k, contract.requiredTypes[k]) in schema
  {
    var schema := DeclaredSchema(contract).value;
    var keys := contract.requiredKeys.value;
    forall k | k in contract.requiredTypes
      ensures (k, contract.requiredTypes[k]) in schema && k in SchemaKeys(schema)
    {
      assert k in (set x | x in keys);
      var i :| 0 <= i < |keys| && keys[i] == k;
      assert schema[i] == (k, contract.requiredTypes[k]);
    }
  }

  /**
    What the harness and the transcript must say: nothing degraded or blocked, nothing owed,
    and the latest receipt a success of just this tool, which the request declares if it
    declares any.
  */
  ghost predicate IsCurrent(harness: AgentHarness, name: string, degraded: bool, blocked: bool)
    reads harness
  {
    var receipts := harness.receipts;
    && !degraded && !blocked && !harness.lastActionBlocked
    && !AwaitsVerification(harness.roles, receipts) && !HasOpenFailure(harness.roles, receipts)
    && receipts != [] && receipts[|receipts| - 1].status.Success? && receipts[|receipts| - 1].tool == name
    && (harness.availableTools == {} || name in harness.availableTools)
  }

  /** A verifier's summary, for an answer of exactly a status and a number of tests. */
  ghost predicate IsVerifierSummary(harness: AgentHarness, name: string, result: ToolResult) {
    && name in harness.roles.verification && result.Summary?
    && harness.contract.requiredKeys == Some(["status", "tests"])
    && harness.contract.requiredTypes == map["status" := "string", "tests" := "integer"]
  }

  /** The contract declares an object: distinct keys, and exactly those typed, each with a primitive type. */
  ghost predicate DeclaresObject(contract: Contract) {
    && contract.requiredKeys.Some? && contract.requiredKeys.value != [] && Distinct(contract.requiredKeys.value)
    && (forall k :: k in contract.requiredTypes <==> k in contract.requiredKeys.value)
    && (forall k :: k in contract.requiredTypes ==>
          contract.requiredTypes[k] in {"string", "integer", "number", "boolean"})
  }

  /** A document with exactly the declared keys, all of primitive types and all well typed. */
  ghost predicate IsExactObject(contract: Contract, result: ToolResult) {
    && DeclaresObject(contract) && result.Parsed? && result.value.Obj?
    && HasExactly(result.value.fields, contract.requiredKeys.value)
    && !HasMistyped(result.value.fields, contract.requiredTypes)
  }

  lemma SchemaIff(contract: Contract)
    ensures DeclaredSchema(contract).Some? <==> DeclaresObject(contract)
  {
    if contract.requiredKeys.Some? {
      var keys, types := contract.requiredKeys.value, contract.requiredTypes;
      if forall k :: k in types <==> k in keys {
        assert types.Keys == (set k | k in keys);
      } else {
        var k :| !(k in types <==> k in keys);
        assert k in types.Keys <==> k !in (set x | x in keys);
      }
    }
  }

  lemma SummarySchemaDeclares(contract: Contract)
    requires DeclaredSchema(contract) == Some([("status", "string"), ("tests", "integer")])
    ensures contract.requiredKeys == Some(["status", "tests"])
    ensures contract.requiredTypes == map["status" := "string", "tests" := "integer"]
  {
    var keys, types, schema := contract.requiredKeys.value, contract.requiredTypes, DeclaredSchema(contract).value;
    assert |keys| == |schema| == 2;
    assert schema[0] == (keys[0], types[keys[0]]) && schema[1] == (keys[1], types[keys[1]]);
    assert keys == ["status", "tests"];
    SchemaIff(contract);
    assert types.Keys == {"status", "tests"};
  }

  lemma SummarySchemaIff(contract: Contract)
    ensures DeclaredSchema(contract) == Some([("status", "string"), ("tests", "integer")]) <==>
      && contract.requiredKeys == Some(["status", "tests"])
      && contract.requiredTypes == map["status" := "string", "tests" := "integer"]
  {
    SchemaIff(contract);
    if contract.requiredKeys == Some(["status", "tests"])
      && contract.requiredTypes == map["status" := "string", "tests" := "integer"] {
      var keys := contract.requiredKeys.value;
      assert keys[0] == "status" && keys[1] == "tests" && |keys[0]| != |keys[1]|;
      assert DeclaredSchema(contract).Some?;
      var schema := DeclaredSchema(contract).value;
      assert schema == [("status", "string"), ("tests", "integer")];
    }
    if DeclaredSchema(contract) == Some([("status", "string"), ("tests", "integer")]) {
      SummarySchemaDeclares(contract);
    }
  }

  lemma ExactObjectIff(contract: Contract, result: ToolResult)
    requires DeclaredSchema(contract).Some?
    ensures ParseExactTerminal(result, DeclaredSchema(contract).value).None? <==> IsExactObject(contract, result)
  {
    SchemaIff(contract);
    SchemaDeclaresTypes(contract);
    if result.Parsed? && result.value.Obj? {
      var schema, fields := DeclaredSchema(contract).value, result.value.fields;
      KeysDiffer(fields, contract.requiredKeys.value);
      forall f | f in schema && f.0 in fields
        ensures MatchesType(fields[f.0], f.1) <==> IsOfType(fields[f.0], contract.requiredTypes[f.0])
      {
        TypesMatch(fields[f.0], f.1);
      }
      if HasMistyped(fields, contract.requiredTypes) {
        var k :| k in contract.requiredTypes && k in fields && !IsOfType(fields[k], contract.requiredTypes[k]);
        assert (k, contract.requiredTypes[k]) in schema;
      }
    }
  }

  /** When a latest result may be shown as a candidate, and what the candidate is. */
  lemma ShadowCandidateIff(
    harness: AgentHarness, name: string, result: ToolResult, degraded: bool, blocked: bool)
    requires harness.Valid()
    ensures var d := DecideShadowCandidate(harness, name, result, degraded, blocked);
      && (d.Eligible? <==>
            IsCurrent(harness, name, degraded, blocked)
            && (IsVerifierSummary(harness, name, result) || IsExactObject(harness.contract, result)))
      && (d.Eligible? && IsExactObject(harness.contract, result) ==> d.candidate == result.value.fields)
  {
    StaleReceiptUnreachable(harness, name, result, degraded, blocked);
    OpenMapEmpty(harness.roles, harness.receipts, harness.openFailures);
    SchemaIff(harness.contract);
    SummarySchemaIff(harness.contract);
    if DeclaredSchema(harness.contract).Some? {
      ExactObjectIff(harness.contract, result);
    }
  }

  /** When a request is answered from its latest receipt: the verifier's summary, and nothing else. */
  lemma LocalProjectionIff(
    harness: AgentHarness, name: string, result: ToolResult, degraded: bool, blocked: bool)
    requires harness.Valid()
    ensures DecideLocalProjection(harness, name, result, degraded, blocked).Eligible? <==>
      IsCurrent(harness, name, degraded, blocked) && IsVerifierSummary(harness, name, result)
  {
    ShadowCandidateIff(harness, name, result, degraded, blocked);
    SummarySchemaIff(harness.contract);
  }

  // ----- Why a result is not projected -----

  /** The reasons against a projection, said about the history and the result. */
  ghost predicate HasReason(
    harness: AgentHarness, name: string, result: ToolResult, degraded: bool, blocked: bool, reason: Reason)
    reads harness
  {
    var receipts, contract := harness.receipts, harness.contract;
    match reason
    case TranscriptDegraded => degraded
    case BlockedUnresolvedAction => blocked || harness.lastActionBlocked
    case PendingVerificationState => AwaitsVerification(harness.roles, receipts)
    case OpenFailure => HasOpenFailure(harness.roles, receipts)
    case NoReceiptYet => receipts == []
    case StaleReceipt => false
    case ReceiptNotSuccess => receipts != [] && receipts[|receipts| - 1].status.Failure?
    case UnknownToolResult => harness.availableTools != {} && name !in harness.availableTools
    case NonlatestReceipt => receipts != [] && receipts[|receipts| - 1].tool != name
    case UnsupportedSchema => !DeclaresObject(contract)
    case _ => !IsVerifierSummary(harness, name, result) && HasResultReason(contract, result, reason)
  }

  /** The reasons that lie in the result itself. */
  ghost predicate HasResultReason(contract: Contract, result: ToolResult, reason: Reason) {
    match reason
    case MalformedToolResult => !result.Parsed?
    case TerminalNotObject => result.Parsed? && !result.value.Obj?
    case SchemaKeysMismatch =>
      && contract.requiredKeys.Some? && result.Parsed? && result.value.Obj?
      && !HasExactly(result.value.fields, contract.requiredKeys.value)
    case SchemaTypeMismatch =>
      result.Parsed? && result.value.Obj? && HasMistyped(result.value.fields, contract.requiredTypes)
    case UnpromotedRule => true
    case _ => false
  }

  /** The order in which reasons are named. */
  function ReasonRank(reason: Reason): nat {
    match reason
    case TranscriptDegraded => 0
    case BlockedUnresolvedAction => 1
    case PendingVerificationState => 2
    case OpenFailure => 3
    case NoReceiptYet => 4
    case StaleReceipt => 5
    case ReceiptNotSuccess => 6
    case UnknownToolResult => 7
    case NonlatestReceipt => 8
    case UnsupportedSchema => 9
    case MalformedToolResult => 10
    case TerminalNotObject => 11
    case SchemaKeysMismatch => 12
    case SchemaTypeMismatch => 13
    case UnpromotedRule => 14
  }

  lemma ParsingNamesFirst(contract: Contract, result: ToolResult)
    requires DeclaredSchema(contract).Some?
    ensures var defect := ParseExactTerminal(result, DeclaredSchema(contract).value);
      && (defect.Some? ==> 10 <= ReasonRank(defect.value) < 14 && HasResultReason(contract, result, defect.value))
      && forall other :: HasResultReason(contract, result, other) && ReasonRank(other) < 14 ==>
           defect.Some? && ReasonRank(defect.value) <= ReasonRank(other)
  {
    SchemaIff(contract);
    SchemaDeclaresTypes(contract);
    if result.Parsed? && result.value.Obj? {
      var schema, fields := DeclaredSchema(contract).value, result.value.fields;
      KeysDiffer(fields, contract.requiredKeys.value);
      if fields.Keys == SchemaKeys(schema) {
        ExactObjectIff(contract, result);
      }
    }
  }

  lemma ReasonHolds(harness: AgentHarness, name: string, result: ToolResult, degraded: bool, blocked: bool)
    requires harness.Valid()
    ensures var d := DecideLocalProjection(harness, name, result, degraded, blocked);
      d.Rejected? ==> HasReason(harness, name, result, degraded, blocked, d.reason)
  {
    StaleReceiptUnreachable(harness, name, result, degraded, blocked);
    OpenMapEmpty(harness.roles, harness.receipts, harness.openFailures);
    SchemaIff(harness.contract);
    SummarySchemaIff(harness.contract);
    if DeclaredSchema(harness.contract).Some? {
      ParsingNamesFirst(harness.contract, result);
    }
  }

  lemma StateReasonIsNamed(
    harness: AgentHarness, name: string, result: ToolResult, degraded: bool, blocked: bool, reason: Reason)
    requires harness.pendingVerification <==> AwaitsVerification(harness.roles, harness.receipts)
    requires harness.openFailures != map[] <==> HasOpenFailure(harness.roles, harness.receipts)
    requires HasReason(harness, name, result, degraded, blocked, reason) && ReasonRank(reason) < 9
    ensures var d := DecideLocalProjection(harness, name, result, degraded, blocked);
      d.Rejected? && ReasonRank(d.reason) <= ReasonRank(reason)
  {
  }

  lemma ResultReasonIsNamed(
    harness: AgentHarness, name: string, result: ToolResult, degraded: bool, blocked: bool, reason: Reason)
    requires HasReason(harness, name, result, degraded, blocked, reason) && ReasonRank(reason) >= 9
    ensures var d := DecideLocalProjection(harness, name, result, degraded, blocked);
      d.Rejected? && ReasonRank(d.reason) <= ReasonRank(reason)
  {
    SchemaIff(harness.contract);
    SummarySchemaIff(harness.contract);
    if DeclaredSchema(harness.contract).Some? {
      ParsingNamesFirst(harness.contract, result);
    }
  }

  /** The first reason there is is the one given, and a result is projected exactly if there is none. */
  lemma RejectionIsFirst(harness: AgentHarness, name: string, result: ToolResult, degraded: bool, blocked: bool)
    requires harness.Valid()
    ensures var d := DecideLocalProjection(harness, name, result, degraded, blocked);
      && (d.Rejected? ==> HasReason(harness, name, result, degraded, blocked, d.reason))
      && forall other :: HasReason(harness, name, result, degraded, blocked, other) ==>
           d.Rejected? && ReasonRank(d.reason) <= ReasonRank(other)
  {
    ReasonHolds(harness, name, result, degraded, blocked);
    OpenMapEmpty(harness.roles, harness.receipts, harness.openFailures);
    forall other | HasReason(harness, name, result, degraded, blocked, other)
      ensures var d := DecideLocalProjection(harness, name, result, degraded, blocked);
        d.Rejected? && ReasonRank(d.reason) <= ReasonRank(other)
    {
      if ReasonRank(other) < 9 {
        StateReasonIsNamed(harness, name, result, degraded, blocked, other);
      } else {
        ResultReasonIsNamed(harness, name, result, degraded, blocked, other);
      }
    }
  }

  // ----- What a projected answer is -----

  /**
    A shadow candidate passes the gate for model answers exactly when its
    failed_executions claim, if it makes an enforced one, is right.
  */
  lemma ShadowCandidatePassesIffClaimHolds(
    harness: AgentHarness, name: string, result: ToolResult, degraded: bool, blocked: bool)
    requires DecideShadowCandidate(harness, name, result, degraded, blocked).Eligible?
    ensures var d := DecideShadowCandidate(harness, name, result, degraded, blocked);
      harness.TerminalIssue(d.Answer()).None? <==> ClaimHolds(d.Answer(), harness.contract, harness.receipts)
  {
    var d := DecideShadowCandidate(harness, name, result, degraded, blocked);
    var contract := harness.contract;
    SchemaDeclaresTypes(contract);
    var schema := DeclaredSchema(contract).value;
    if d.rule.ProvenVerifierSummary? {
      assert schema[0] == ("status", "string") && schema[1] == ("tests", "integer");
      assert SchemaKeys(schema) == {"status", "tests"};
      assert d.candidate.Keys == {"status", "tests"};
      forall k | k in contract.requiredTypes ensures !MistypedKey(d.candidate, contract.requiredTypes, k) {
        assert (k, contract.requiredTypes[k]) in schema;
      }
    } else {
      forall k | k in contract.requiredTypes ensures !MistypedKey(d.candidate, contract.requiredTypes, k) {
        assert (k, contract.requiredTypes[k]) in schema;
      }
    }
    assert BareJsonIssue(d.Answer(), contract.requiredKeys.value, contract.requiredTypes).None?;
  }

  /**
    Every answer projected from a receipt passes the very gate model answers must
    pass, and reports the count of the latest receipt, a successful verification.
  */
  lemma ProjectedAnswerPassesGate(
    harness: AgentHarness, name: string, result: ToolResult, degraded: bool, blocked: bool)
    requires DecideLocalProjection(harness, name, result, degraded, blocked).Eligible?
    ensures var d := DecideLocalProjection(harness, name, result, degraded, blocked);
      && harness.TerminalIssue(d.Answer()).None?
      && harness.receipts != []
      && harness.receipts[|harness.receipts| - 1].tool == name
      && SuccessfulVerification(harness.roles, harness.receipts[|harness.receipts| - 1])
      && result.Summary? && d.candidate == map["status" := Str("passed"), "tests" := Int(result.passed)]
  {
    ShadowCandidatePassesIffClaimHolds(harness, name, result, degraded, blocked);
  }

  /** A projected answer inherits the verified-mutation theorem. */
  lemma ProjectedAnswerIsVerified(
    harness: AgentHarness, name: string, result: ToolResult, degraded: bool, blocked: bool, m: int)
    requires harness.Valid() && DecideLocalProjection(harness, name, result, degraded, blocked).Eligible?
    requires 0 <= m < |harness.receipts| && SuccessfulMutation(harness.roles, harness.receipts[m])
    ensures exists v :: m < v < |harness.receipts| && SuccessfulVerification(harness.roles, harness.receipts[v])
  {
    ProjectedAnswerPassesGate(harness, name, result, degraded, blocked);
    harness.ReleasedAnswerIsVerified(DecideLocalProjection(harness, name, result, degraded, blocked).Answer(), m);
  }

  /** On a state built by recording, the stale-receipt rejection can never be the answer. */
  lemma StaleReceiptUnreachable(
    harness: AgentHarness, name: string, result: ToolResult, degraded: bool, blocked: bool)
    requires harness.Valid()
    ensures DecideShadowCandidate(harness, name, result, degraded, blocked) != Rejected(StaleReceipt)
    ensures DecideLocalProjection(harness, name, result, degraded, blocked) != Rejected(StaleReceipt)
  {
    if harness.receipts != [] {
      var last := |harness.receipts| - 1;
      CurrentEpochMeansUnchangedState(harness.roles, harness.receipts, last);
      if SuccessfulMutation(harness.roles, harness.receipts[last]) {
        assert NoVerificationAfter(harness.roles, harness.receipts, last);
      }
    }
  }
}
