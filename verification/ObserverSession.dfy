/**
  A session of the qualification client (scripts/run_paired_agentic_trial.py): every call
  begins a turn of the observer cursor, consumes it and leaves a row; in the end nothing
  may be left over in the ledger.
*/
module ObserverSession {
  import opened Wrappers
  import opened Reconciliation
  import opened Accounting
  import opened ObserverCursor

  /**
    How a call ends.  An answered call brings its accounting; its turn may still turn out
    invalid.  The outcome of a failure may have been observed by the client.
  */
  datatype Ending =
    | Answered(
        upstreamCalls: nat, corrections: nat, duplicates: nat, stalls: nat, localProjection: bool, turnValid: bool,
        outcome: Option<RowOutcome>)
    | CallFailed(error: CallError, outcome: Option<RowOutcome>)

  /** A call with the ledger as it was when the call began and when its turn was consumed. */
  datatype Call = Call(before: seq<Observer>, observed: seq<Observer>, correlation: Option<nat>, ending: Ending)

  // ----- One call -----

  /** What the turn of the call holds. */
  function TurnOf(call: Call, cursor: nat, consumed: set<int>): seq<Observer>
    requires cursor <= |call.observed|
  {
    match call.correlation
    case None => call.observed[cursor..]
    case Some(expected) => Matching(call.observed, consumed, expected)
  }

  /** Consume the turn; if records are required and missing, it is consumed as it is, and the call fails. */
  method ConsumeCall(cursor: ModelBoundaryObserverCursor, call: Call) returns (turn: seq<Observer>, missing: bool)
    requires cursor.Valid() && cursor.cursor <= |call.observed| && (call.correlation.None? ==> cursor.active.None?)
    modifies cursor
    ensures cursor.Valid() && cursor.active.None?
    ensures turn == TurnOf(call, old(cursor.cursor), old(cursor.consumed)) && cursor.turns == old(cursor.turns) + [turn]
    ensures cursor.consumed == old(cursor.consumed) + SequencesOf(turn)
    ensures cursor.cursor == if call.correlation.None? then |call.observed| else old(cursor.cursor)
    ensures missing <==> turn == [] && call.ending.Answered? && !call.ending.localProjection
  {
    var required := call.ending.Answered? && !call.ending.localProjection;
    var consumed := cursor.ConsumeTurn(call.observed, required, call.correlation);
    missing := consumed.None?;
    if missing {
      consumed := cursor.ConsumeTurn(call.observed, false, call.correlation);
    }
    turn := consumed.value;
  }

  /** The accounting of the answer contradicts the observer. */
  predicate Refused(ending: Ending, turn: seq<Observer>)
    requires ending.Answered?
  {
    || ending.upstreamCalls != |turn|
    || (ending.localProjection && !(turn == [] && ending.corrections == ending.duplicates == ending.stalls == 0))
  }

  /** The row of a failed call says how it ended, as the client observed it or else as the error tells, and no more. */
  ghost predicate FailureRow(row: Row, error: CallError, observed: Option<RowOutcome>) {
    && !row.localProjection && row.corrections == row.duplicates == row.stalls == 0
    && (observed.Some? ==> row.outcome == observed.value)
    && (observed.None? ==> row.outcome == match error
         case CancelledError => Cancelled
         case HttpFailure(outcome) => outcome
         case TimedOut => Deadline
         case OtherError => Failed)
  }

  /** The row of an answered call repeats its accounting, or is that of a failure if the accounting was refused. */
  ghost predicate RowTells(row: Row, ending: Ending, turn: seq<Observer>) {
    match ending
    case CallFailed(error, outcome) => FailureRow(row, error, outcome)
    case Answered(_, corrections, duplicates, stalls, localProjection, _, outcome) =>
      if Refused(ending, turn) then FailureRow(row, OtherError, outcome)
      else
        && row.outcome.Succeeded? && row.localProjection == localProjection
        && row.corrections == corrections && row.duplicates == duplicates && row.stalls == stalls
  }

  /** The row of a consumed turn; it is lost if the accounting of the answer is refused while the call fails anyway. */
  method RecordCall(accounting: ProxyRequestAccounting, ending: Ending, turn: seq<Observer>, missing: bool)
    returns (recorded: bool)
    requires accounting.Valid() && Continues(accounting.turns, turn)
    modifies accounting
    ensures accounting.Valid()
    ensures recorded <==> !(ending.Answered? && Refused(ending, turn) && (missing || !ending.turnValid))
    ensures accounting.turns == old(accounting.turns) + if recorded then [turn] else []
    ensures recorded ==>
      && |accounting.records| == |old(accounting.records)| + 1 && old(accounting.records) <= accounting.records
      && RowTells(accounting.records[|old(accounting.records)|], ending, turn)
    ensures !recorded ==> accounting.records == old(accounting.records)
  {
    match ending
    case CallFailed(error, outcome) =>
      accounting.RecordFailure(turn, error, outcome);
      recorded := true;
    case Answered(upstreamCalls, corrections, duplicates, stalls, localProjection, turnValid, outcome) =>
      recorded := accounting.RecordSuccess(upstreamCalls, corrections, duplicates, stalls, turn, localProjection);
      if !recorded && !missing && turnValid {
        accounting.RecordFailure(turn, OtherError, outcome);
        recorded := true;
      }
  }

  // ----- Calls in order -----

  /** The turns so far are the ledger up to the point, and plain turns have moved the cursor along. */
  ghost predicate Abreast(
    correlated: bool, turns: seq<seq<Observer>>, consumed: set<int>, cursor: nat, point: nat, ledger: seq<Observer>)
  {
    InOrder(turns, point, ledger) && Booked(consumed, turns) && cursor == if correlated then 0 else point
  }

  /** The ledger has only grown and is valid, and the records of the digest come first among the new ones. */
  predicate Orderly(correlated: bool, call: Call, point: nat, ledger: seq<Observer>) {
    && ledger <= call.observed && ValidLedger(call.observed) && (call.correlation.Some? <==> correlated)
    && (correlated ==> DigestLeads(call.observed, point, |call.observed|, call.correlation.value))
  }

  function NextPoint(call: Call, point: nat): nat {
    match call.correlation
    case None => |call.observed|
    case Some(expected) => point + |Carrying(call.observed, point, |call.observed|, expected)|
  }

  /** Nothing is left over when a plain call begins, and an answered call has the records it needs, all valid. */
  predicate Smooth(call: Call, point: nat) {
    && (call.correlation.None? ==> |call.before| == point)
    && (call.ending.Answered? ==>
          call.ending.turnValid && (call.ending.localProjection || NextPoint(call, point) > point))
  }

  /** The turn of a call that comes in order: the records between two points of the ledger. */
  function Stretch(call: Call, point: nat): seq<Observer> {
    if point <= NextPoint(call, point) <= |call.observed| then call.observed[point..NextPoint(call, point)] else []
  }

  /**
    The call begins and leaves a row: nothing is left over when a plain call begins, and if
    its accounting is refused, its answer must be valid and have the records it needs.
  */
  predicate Kept(call: Call, point: nat) {
    && (call.correlation.None? ==> |call.before| == point)
    && (call.ending.Answered? && Refused(call.ending, Stretch(call, point)) ==>
          call.ending.turnValid && (call.ending.localProjection || Stretch(call, point) != []))
  }

  lemma SmoothIsKept(call: Call, point: nat)
    requires Smooth(call, point)
    ensures Kept(call, point)
  {
  }

  lemma MatchingIsStretch(observed: seq<Observer>, consumed: set<int>, point: nat, expected: nat)
    requires ValidLedger(observed) && point <= |observed| && consumed == SequencesOf(observed[..point])
    requires DigestLeads(observed, point, |observed|, expected)
    ensures var turn := Matching(observed, consumed, expected);
      && turn == Carrying(observed, point, |observed|, expected)
      && point + |turn| <= |observed| && turn == observed[point..point + |turn|]
  {
    assert observed[..|observed|] == observed;
    MatchingIsCarrying(observed, point, consumed, expected, |observed|);
    LeadingTurnIsStretch(observed, point, expected, |observed|);
  }

  /** The turn of a call that comes in order is the next stretch of the ledger. */
  lemma TurnIsStretch(
    correlated: bool, turns: seq<seq<Observer>>, consumed: set<int>, cursor: nat, point: nat, ledger: seq<Observer>,
    call: Call)
    requires Abreast(correlated, turns, consumed, cursor, point, ledger) && Orderly(correlated, call, point, ledger)
    ensures cursor <= |call.observed|
    ensures var turn := TurnOf(call, cursor, consumed);
      && turn == Stretch(call, point) && point + |turn| == NextPoint(call, point) <= |call.observed|
      && turn == call.observed[point..point + |turn|]
  {
    if correlated {
      SequencesUpTo(turns, consumed, point, ledger);
      assert ledger[..point] == call.observed[..point];
      MatchingIsStretch(call.observed, consumed, point, call.correlation.value);
    }
  }

  lemma TurnKeepsAbreast(
    correlated: bool, turns: seq<seq<Observer>>, consumed: set<int>, cursor: nat, point: nat, ledger: seq<Observer>,
    call: Call)
    requires Abreast(correlated, turns, consumed, cursor, point, ledger) && Orderly(correlated, call, point, ledger)
    ensures cursor <= |call.observed|
    ensures var turn := TurnOf(call, cursor, consumed);
      && Continues(turns, turn)
      && Abreast(
        correlated, turns + [turn], consumed + SequencesOf(turn), if correlated then cursor else |call.observed|,
        NextPoint(call, point), call.observed)
      && point + |turn| == NextPoint(call, point) && turn == Stretch(call, point)
  {
    TurnIsStretch(correlated, turns, consumed, cursor, point, ledger, call);
    var turn := TurnOf(call, cursor, consumed);
    BookedOneMore(consumed, turns, turn);
    assert ledger[..point] == call.observed[..point];
    StretchContinues(turns, turn, point, call.observed);
  }

  lemma SequencesUpTo(turns: seq<seq<Observer>>, consumed: set<int>, point: nat, ledger: seq<Observer>)
    requires InOrder(turns, point, ledger) && Booked(consumed, turns)
    ensures consumed == SequencesOf(ledger[..point])
  {
  }

  /** In order and drained: the turns put end to end are the ledger itself. */
  lemma DrainedIsWhole(turns: seq<seq<Observer>>, point: nat, ledger: seq<Observer>)
    requires InOrder(turns, point, ledger) && ValidLedger(ledger)
    requires forall o :: o in ledger ==> o.sequence in SequencesOf(Flatten(turns))
    ensures Flatten(turns) == ledger
  {
    if point < |ledger| {
      ConsumedBehind(ledger, point, SequencesOf(ledger[..point]), point);
    }
    assert ledger[..|ledger|] == ledger;
  }

  // ----- A whole session -----

  /** The rows pass every check against this ledger. */
  ghost predicate Reconciles(rows: seq<Row>, ledger: seq<Observer>) {
    && ValidLedger(ledger) && SequencesMatch(rows) && Tiles(rows, ledger) && PhaseRowsMatch(rows, ledger)
    && forall i :: 0 <= i < |rows| ==> ValidLedgerScalars(rows[i])
  }

  /** Where the turns of the first n calls end in the ledger. */
  function PointBefore(calls: seq<Call>, n: nat): nat
    requires n <= |calls|
  {
    if n == 0 then 0 else NextPoint(calls[n - 1], PointBefore(calls, n - 1))
  }

  /** The ledger as the call before left it. */
  function LedgerBefore(calls: seq<Call>, n: nat): seq<Observer>
    requires n <= |calls|
  {
    if n == 0 then [] else calls[n - 1].observed
  }

  predicate OrderlyAt(correlated: bool, calls: seq<Call>, n: nat)
    requires n < |calls|
  {
    Orderly(correlated, calls[n], PointBefore(calls, n), LedgerBefore(calls, n))
  }

  predicate SmoothAt(calls: seq<Call>, n: nat)
    requires n < |calls|
  {
    Smooth(calls[n], PointBefore(calls, n))
  }

  predicate KeptAt(calls: seq<Call>, n: nat)
    requires n < |calls|
  {
    Kept(calls[n], PointBefore(calls, n))
  }

  /** The row tells of call n, and of the records that the call added. */
  ghost predicate RowTellsAt(row: Row, calls: seq<Call>, n: nat)
    requires n < |calls|
  {
    RowTells(row, calls[n].ending, Stretch(calls[n], PointBefore(calls, n)))
  }

  ghost predicate InSession(
    correlated: bool, cursor: ModelBoundaryObserverCursor, accounting: ProxyRequestAccounting, point: nat,
    ledger: seq<Observer>)
    reads cursor, accounting
  {
    && cursor.Valid() && accounting.Valid() && cursor.active.None? && accounting.turns == cursor.turns
    && Abreast(correlated, cursor.turns, cursor.consumed, cursor.cursor, point, ledger)
  }

  /** One call; the session goes on unless the turn is refused at the start or its row is lost. */
  method CompleteProxy(
    correlated: bool, cursor: ModelBoundaryObserverCursor, accounting: ProxyRequestAccounting, call: Call,
    ghost point: nat, ghost ledger: seq<Observer>) returns (begun: bool, recorded: bool)
    requires InSession(correlated, cursor, accounting, point, ledger) && Orderly(correlated, call, point, ledger)
    modifies cursor, accounting
    ensures begun && recorded ==> InSession(correlated, cursor, accounting, NextPoint(call, point), call.observed)
    ensures !begun ==> InSession(correlated, cursor, accounting, point, ledger)
    ensures begun && recorded <==> Kept(call, point)
    ensures begun && recorded ==> var n := |old(accounting.records)|;
      && |accounting.records| == n + 1 && old(accounting.records) <= accounting.records
      && RowTells(accounting.records[n], call.ending, Stretch(call, point))
    ensures !(begun && recorded) ==> accounting.records == old(accounting.records)
  {
    recorded := false;
    TurnKeepsAbreast(correlated, cursor.turns, cursor.consumed, cursor.cursor, point, ledger, call);
    begun := cursor.BeginTurn(call.before, call.correlation);
    if begun {
      var turn, missing := ConsumeCall(cursor, call);
      recorded := RecordCall(accounting, call.ending, turn, missing);
    }
  }

  /** The first n calls left a row each, which tells of them. */
  ghost predicate ToldUpTo(rows: seq<Row>, calls: seq<Call>, n: nat) {
    && n == |rows| <= |calls|
    && forall k :: 0 <= k < n ==> KeptAt(calls, k) && RowTellsAt(rows[k], calls, k)
  }

  lemma ToldOneMore(rows: seq<Row>, rows': seq<Row>, calls: seq<Call>, n: nat)
    requires ToldUpTo(rows, calls, n) && n < |calls| && rows <= rows' && |rows'| == n + 1
    requires KeptAt(calls, n) && RowTellsAt(rows'[n], calls, n)
    ensures ToldUpTo(rows', calls, n + 1)
  {
  }

  /** Complete the calls up to the first that leaves no row. */
  method CompleteCalls(
    correlated: bool, calls: seq<Call>, cursor: ModelBoundaryObserverCursor, accounting: ProxyRequestAccounting)
    returns (n: nat)
    requires InSession(correlated, cursor, accounting, 0, []) && accounting.records == []
    requires forall k :: 0 <= k < |calls| ==> OrderlyAt(correlated, calls, k)
    modifies cursor, accounting
    ensures ToldUpTo(accounting.records, calls, n) && (n < |calls| ==> !KeptAt(calls, n))
    ensures n == |calls| ==>
      InSession(correlated, cursor, accounting, PointBefore(calls, n), LedgerBefore(calls, n))
  {
    n := 0;
    while n < |calls|
      invariant n <= |calls| && ToldUpTo(accounting.records, calls, n)
      invariant InSession(correlated, cursor, accounting, PointBefore(calls, n), LedgerBefore(calls, n))
    {
      ghost var before := accounting.records;
      assert OrderlyAt(correlated, calls, n);
      var begun, recorded := CompleteProxy(
        correlated, cursor, accounting, calls[n], PointBefore(calls, n), LedgerBefore(calls, n));
      if !begun || !recorded {
        return;
      }
      ToldOneMore(before, accounting.records, calls, n);
      n := n + 1;
    }
  }

  /**
    A session of calls whose turns come in order, all plain or all correlated.  It is
    complete exactly if every call begins and leaves a row; every row tells of its call; and
    if then the ledger is drained, the rows reconcile against the ledger itself, every record
    of which is in exactly one turn.
  */
  method RunSession(correlated: bool, calls: seq<Call>, final: seq<Observer>)
    returns (rows: seq<Row>, complete: bool, drained: bool, ghost turns: seq<seq<Observer>>)
    requires forall k :: 0 <= k < |calls| ==> OrderlyAt(correlated, calls, k)
    requires ValidLedger(final) && LedgerBefore(calls, |calls|) <= final
    ensures complete && drained ==> Flatten(turns) == final && Reconciles(rows, final)
    ensures complete && Flatten(turns) == final ==> drained
    ensures complete <==> forall k :: 0 <= k < |calls| ==> KeptAt(calls, k)
    ensures (forall k :: 0 <= k < |calls| ==> SmoothAt(calls, k)) ==> complete
    ensures |rows| <= |calls| && (complete ==> |rows| == |calls|)
    ensures forall k :: 0 <= k < |rows| ==> RowTellsAt(rows[k], calls, k)
  {
    var cursor := new ModelBoundaryObserverCursor();
    var accounting := new ProxyRequestAccounting();
    assert Flatten([]) == [];
    var n := CompleteCalls(correlated, calls, cursor, accounting);
    rows, complete, drained, turns := accounting.records, n == |calls|, false, cursor.turns;
    forall k | 0 <= k < |calls| && SmoothAt(calls, k) ensures KeptAt(calls, k) {
      SmoothIsKept(calls[k], PointBefore(calls, k));
    }
    if complete {
      drained := cursor.RequireDrained(final);
      if drained {
        DrainedReconciles(cursor.turns, rows, PointBefore(calls, n), LedgerBefore(calls, n), final);
      }
    }
  }

  lemma DrainedReconciles(
    turns: seq<seq<Observer>>, rows: seq<Row>, point: nat, ledger: seq<Observer>, final: seq<Observer>)
    requires RowsOf(rows, turns) && InOrder(turns, point, ledger) && ledger <= final && ValidLedger(final)
    requires forall o :: o in final ==> o.sequence in SequencesOf(Flatten(turns))
    ensures Flatten(turns) == final && Reconciles(rows, final)
  {
    assert ledger[..point] == final[..point];
    DrainedIsWhole(turns, point, final);
    RecordedRowsReconcile(rows, turns);
  }
}
