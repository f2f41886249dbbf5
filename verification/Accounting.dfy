/**
  The producer of request rows (scripts/run_paired_agentic_trial.py): one row for every
  downstream call, made from the attempts that the observer saw during that call.
*/
module Accounting {
  import opened Wrappers
  import opened Reconciliation

  /** How a failed call ended, as far as the exception tells. */
  datatype CallError = CancelledError | HttpFailure(outcome: RowOutcome) | TimedOut | OtherError

  /** The turn carries the ledger on: valid attempts, numbered from the next number up. */
  ghost predicate Continues(turns: seq<seq<Observer>>, turn: seq<Observer>) {
    forall k :: 0 <= k < |turn| ==> ValidObserver(turn[k], |Flatten(turns)| + k + 1)
  }

  ghost predicate RowsOf(records: seq<Row>, turns: seq<seq<Observer>>) {
    && SequencesMatch(records)
    && (forall i :: 0 <= i < |records| ==> ValidLedgerScalars(records[i]))
    && AllAccount(records, turns, 1) && AllDescribe(records, turns) && ValidLedger(Flatten(turns))
  }

  lemma {:induction false} FlattenOneMore(turns: seq<seq<Observer>>, turn: seq<Observer>)
    ensures Flatten(turns + [turn]) == Flatten(turns) + turn
  {
    if turns == [] {
      assert [turn][1..] == [];
      assert ([] + [turn])[0] == turn && ([] + [turn])[1..] == [];
      assert turns + [turn] == [turn];
    } else {
      assert (turns + [turn])[1..] == turns[1..] + [turn];
      FlattenOneMore(turns[1..], turn);
    }
  }

  lemma {:induction false} AccountsOneMore(
    rows: seq<Row>, turns: seq<seq<Observer>>, first: int, r: Row, turn: seq<Observer>)
    requires AllAccount(rows, turns, first) && Accounts(r, turn, first + |Flatten(turns)|)
    ensures AllAccount(rows + [r], turns + [turn], first)
  {
    if rows == [] {
      assert rows + [r] == [r] && turns + [turn] == [turn];
      assert [r][1..] == [] && [turn][1..] == [];
    } else {
      assert (turns + [turn])[1..] == turns[1..] + [turn] && (rows + [r])[1..] == rows[1..] + [r];
      AccountsOneMore(rows[1..], turns[1..], first + |turns[0]|, r, turn);
    }
  }

  lemma {:induction false} DescribesOneMore(rows: seq<Row>, turns: seq<seq<Observer>>, r: Row, turn: seq<Observer>)
    requires AllDescribe(rows, turns) && PhasesDescribe(r, turn)
    ensures AllDescribe(rows + [r], turns + [turn])
  {
    if rows == [] {
      assert rows + [r] == [r] && turns + [turn] == [turn];
      assert [r][1..] == [] && [turn][1..] == [];
    } else {
      assert (turns + [turn])[1..] == turns[1..] + [turn] && (rows + [r])[1..] == rows[1..] + [r];
      DescribesOneMore(rows[1..], turns[1..], r, turn);
    }
  }

  lemma {:induction false} FewerPhasesThanAttempts(turn: seq<Observer>)
    ensures |PhasesOf(turn)| <= |turn|
    ensures PhasesOf(turn) == {} <==> turn == []
  {
    if turn == [] {
    } else {
      var n := |turn| - 1;
      FewerPhasesThanAttempts(turn[..n]);
      assert turn == turn[..n] + [turn[n]];
      assert PhasesOf(turn) == PhasesOf(turn[..n]) + {turn[n].phase};
    }
  }

  class ProxyRequestAccounting {
    var records: seq<Row>
    /** The observer turn behind each row. */
    ghost var turns: seq<seq<Observer>>

    ghost predicate Valid()
      reads this
    {
      RowsOf(records, turns)
    }

    constructor ()
      ensures Valid() && records == [] && turns == []
    {
      records, turns := [], [];
    }

    /** A call that got an answer; refused when the accounting of the answer contradicts the observer. */
    method RecordSuccess(
      upstreamCalls: nat, corrections: nat, duplicates: nat, stalls: nat, turn: seq<Observer>, localProjection: bool)
      returns (recorded: bool)
      requires Valid() && Continues(turns, turn)
      modifies this
      ensures Valid()
      ensures recorded <==>
        upstreamCalls == |turn| && (localProjection ==> turn == [] && corrections == duplicates == stalls == 0)
      ensures recorded ==> turns == old(turns) + [turn] && |records| == |old(records)| + 1 && old(records) <= records
      ensures recorded ==> var row := records[|records| - 1];
        && row.outcome == Succeeded && row.localProjection == localProjection
        && row.corrections == corrections && row.duplicates == duplicates && row.stalls == stalls
      ensures !recorded ==> turns == old(turns) && records == old(records)
    {
      if upstreamCalls != |turn|
        || (localProjection
            && (turn != [] || upstreamCalls != 0 || corrections != 0 || duplicates != 0 || stalls != 0)) {
        return false;
      }
      Append(turn, Succeeded, localProjection, corrections, duplicates, stalls);
      recorded := true;
    }

    /** A call that failed: what the observer saw of it still counts. */
    method RecordFailure(turn: seq<Observer>, error: CallError, observed: Option<RowOutcome>)
      requires Valid() && Continues(turns, turn)
      modifies this
      ensures Valid() && turns == old(turns) + [turn]
      ensures |records| == |old(records)| + 1 && old(records) <= records
      ensures var row := records[|records| - 1];
        && !row.localProjection && row.corrections == row.duplicates == row.stalls == 0
        && (observed.Some? ==> row.outcome == observed.value)
        && (observed.None? && error.CancelledError? ==> row.outcome == Cancelled)
        && (observed.None? && error.TimedOut? ==> row.outcome == Deadline)
        && (observed.None? && error.HttpFailure? ==> row.outcome == error.outcome)
        && (observed.None? && error.OtherError? ==> row.outcome == Failed)
    {
      var outcome;
      if observed.Some? {
        outcome := observed.value;
      } else if error.CancelledError? {
        outcome := Cancelled;
      } else if error.HttpFailure? {
        outcome := error.outcome;
      } else if error.TimedOut? {
        outcome := Deadline;
      } else {
        outcome := Failed;
      }
      Append(turn, outcome, false, 0, 0, 0);
    }

    method Append(
      turn: seq<Observer>, outcome: RowOutcome, localProjection: bool, corrections: nat, duplicates: nat, stalls: nat)
      requires Valid() && Continues(turns, turn)
      requires localProjection ==> outcome == Succeeded && turn == [] && corrections == duplicates == stalls == 0
      modifies this
      ensures Valid() && turns == old(turns) + [turn]
      ensures |records| == |old(records)| + 1 && old(records) <= records
      ensures var row := records[|records| - 1];
        && row.outcome == outcome && row.localProjection == localProjection
        && row.corrections == corrections && row.duplicates == duplicates && row.stalls == stalls
    {
      var phases := set o | o in turn :: o.phase;
      var row := Row(
        |records| + 1, outcome, localProjection,
        if turn == [] then None else Some(turn[0].sequence),
        if turn == [] then None else Some(turn[|turn| - 1].sequence),
        |turn|, Successes(turn), InPhase(turn, Acquisition), InPhase(turn, Finalization), |turn| - |phases|,
        corrections, duplicates, stalls, if localProjection then 1 else 0);
      assert phases == PhasesOf(turn);
      NewRowDescribes(turns, row, turn);
      AccountsOneMore(records, turns, 1, row, turn);
      DescribesOneMore(records, turns, row, turn);
      FlattenOneMore(turns, turn);
      records, turns := records + [row], turns + [turn];
    }
  }

  /** A row made from a turn that carries the ledger on accounts for that turn. */
  lemma NewRowDescribes(turns: seq<seq<Observer>>, row: Row, turn: seq<Observer>)
    requires Continues(turns, turn) && row.sequence > 0
    requires row.start == (if turn == [] then None else Some(turn[0].sequence))
    requires row.end == (if turn == [] then None else Some(turn[|turn| - 1].sequence))
    requires row.attempts == |turn| && row.successes == Successes(turn)
    requires row.acquisitions == InPhase(turn, Acquisition) && row.finalizations == InPhase(turn, Finalization)
    requires row.retries == |turn| - |PhasesOf(turn)|
    requires row.corrections >= 0 && row.duplicates >= 0 && row.stalls >= 0
    requires row.avoided == if row.localProjection then 1 else 0
    requires row.localProjection ==>
      row.outcome == Succeeded && turn == [] && row.corrections == row.duplicates == row.stalls == 0
    ensures Accounts(row, turn, 1 + |Flatten(turns)|) && PhasesDescribe(row, turn) && ValidLedgerScalars(row)
  {
    FewerPhasesThanAttempts(turn);
    FewerSuccessesThanAttempts(turn);
    forall p | p in PhasesOf(turn) ensures p in {Acquisition, Finalization, Terminal} {
      var o :| o in turn && o.phase == p;
      var k :| 0 <= k < |turn| && turn[k] == o;
      assert ValidObserver(turn[k], |Flatten(turns)| + k + 1);
    }
  }

  /** A turn is what its row selects from the whole ledger. */
  lemma RowSelectsTurn(r: Row, turn: seq<Observer>, observers: seq<Observer>, first: nat)
    requires 0 < first <= |observers| + 1 - |turn| && turn == observers[first - 1..first - 1 + |turn|]
    requires Accounts(r, turn, first)
    ensures SelectsTurn(r) && Selected(r, observers) == turn
  {
  }

  lemma {:induction false} TurnsMatchPhases(
    rows: seq<Row>, turns: seq<seq<Observer>>, observers: seq<Observer>, first: nat)
    requires 0 < first <= |observers| + 1 && Flatten(turns) == observers[first - 1..]
    requires AllAccount(rows, turns, first) && AllDescribe(rows, turns)
    ensures PhaseRowsMatch(rows, observers)
    decreases |rows|
  {
    if rows == [] {
    } else {
      var turn, rest := turns[0], Flatten(turns[1..]);
      assert turn + rest == observers[first - 1..];
      assert |turn| + |rest| == |observers| - (first - 1);
      assert observers[first - 1..][..|turn|] == turn;
      assert observers[first - 1..][|turn|..] == observers[first + |turn| - 1..] == rest;
      RowSelectsTurn(rows[0], turn, observers, first);
      TurnsMatchPhases(rows[1..], turns[1..], observers, first + |turn|);
    }
  }

  /** Whatever was recorded, in whatever order, the rows pass every check against the turns put end to end. */
  lemma RecordedRowsReconcile(records: seq<Row>, turns: seq<seq<Observer>>)
    requires RowsOf(records, turns)
    ensures ValidLedger(Flatten(turns)) && SequencesMatch(records)
    ensures Tiles(records, Flatten(turns)) && PhaseRowsMatch(records, Flatten(turns))
    ensures forall i :: 0 <= i < |records| ==> ValidLedgerScalars(records[i])
  {
    assert Flatten(turns)[1 - 1..] == Flatten(turns);
    TurnsMatchPhases(records, turns, Flatten(turns), 1);
  }
}
