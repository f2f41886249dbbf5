/**
  Reconciliation of request rows with observed attempts (qualification_reconciliation.py).

  The observer numbers every upstream attempt it sees; a request row claims a range of
  those numbers and how they went.  The checks decide from the claims alone whether the
  rows account for the whole ledger, each attempt exactly once and in order.
*/
module Reconciliation {
  import opened Sets
  import opened Wrappers

  datatype Phase = Acquisition | Finalization | Terminal | Unknown

  datatype Observer = Observer(
    sequence: int, status: Option<int>, phase: Phase, digestOk: bool, correlation: Option<nat>)

  datatype RowOutcome = Succeeded | Failed | Cancelled | Deadline

  datatype Row = Row(
    sequence: int, outcome: RowOutcome, localProjection: bool,
    start: Option<int>, end: Option<int>, attempts: int, successes: int,
    acquisitions: int, finalizations: int, retries: int,
    corrections: int, duplicates: int, stalls: int, avoided: int)

  // ----- Well-formed ledgers and rows -----

  predicate ValidObserver(o: Observer, expected: int) {
    && o.sequence == expected && o.digestOk
    && (o.status.Some? ==> 100 <= o.status.value <= 599)
    && !o.phase.Unknown?
  }

  predicate ValidLedger(observers: seq<Observer>) {
    forall i :: 0 <= i < |observers| ==> ValidObserver(observers[i], i + 1)
  }

  predicate ValidScalars(r: Row) {
    && r.sequence > 0
    && (r.start.None? <==> r.end.None?)
    && (r.start.Some? ==> r.start.value > 0) && (r.end.Some? ==> r.end.value > 0)
    && 0 <= r.successes <= r.attempts && r.retries >= 0 && r.corrections >= 0 && r.duplicates >= 0 && r.stalls >= 0
    && r.avoided >= 0 && r.acquisitions >= 0 && r.finalizations >= 0
  }

  /** A Local Projection answers without any attempt, and says so. */
  predicate ProjectionRow(r: Row) {
    && r.outcome.Succeeded? && r.start.None? && r.end.None?
    && r.attempts == r.successes == r.retries == r.corrections == r.duplicates == r.stalls == 0
    && r.avoided == 1 && r.acquisitions == r.finalizations == 0
  }

  predicate ValidLedgerScalars(r: Row) {
    ValidScalars(r) && if r.localProjection then ProjectionRow(r) else r.avoided == 0
  }

  predicate SequencesMatch(rows: seq<Row>) {
    forall i :: 0 <= i < |rows| ==> rows[i].sequence == i + 1
  }

  // ----- What it means for rows to account for a ledger -----

  predicate Ok2xx(o: Observer) {
    o.status.Some? && 200 <= o.status.value < 300
  }

  function Successes(turn: seq<Observer>): nat {
    if turn == [] then 0 else Successes(turn[..|turn| - 1]) + if Ok2xx(turn[|turn| - 1]) then 1 else 0
  }

  function InPhase(turn: seq<Observer>, phase: Phase): nat {
    if turn == [] then 0 else InPhase(turn[..|turn| - 1], phase) + if turn[|turn| - 1].phase == phase then 1 else 0
  }

  function Is2xx(): Observer -> bool {
    (o: Observer) => o.status.Some? && 200 <= o.status.value <= 299
  }

  function IsOf(phase: Phase): Observer -> bool {
    (o: Observer) => o.phase == phase
  }

  lemma {:induction false} SuccessPlaces(turn: seq<Observer>)
    ensures Successes(turn) == |Where(turn, Is2xx())|
  {
    if turn == [] {
    } else {
      SuccessPlaces(turn[..|turn| - 1]);
      WhereLast(turn, Is2xx());
    }
  }

  lemma {:induction false} PhasePlaces(turn: seq<Observer>, phase: Phase)
    ensures InPhase(turn, phase) == |Where(turn, IsOf(phase))|
  {
    if turn == [] {
    } else {
      PhasePlaces(turn[..|turn| - 1], phase);
      WhereLast(turn, IsOf(phase));
    }
  }

  /** The success column counts the attempts with a status from 200 to 299, a phase column those of the phase. */
  lemma ColumnsCount(turn: seq<Observer>, phase: Phase)
    ensures Successes(turn) ==
      |set i | 0 <= i < |turn| && turn[i].status.Some? && 200 <= turn[i].status.value <= 299|
    ensures InPhase(turn, phase) == |set i | 0 <= i < |turn| && turn[i].phase == phase|
  {
    SuccessPlaces(turn);
    PhasePlaces(turn, phase);
    assert Where(turn, Is2xx()) ==
      set i | 0 <= i < |turn| && turn[i].status.Some? && 200 <= turn[i].status.value <= 299;
    assert Where(turn, IsOf(phase)) == set i | 0 <= i < |turn| && turn[i].phase == phase;
  }

  function PhasesOf(turn: seq<Observer>): set<Phase> {
    set o | o in turn :: o.phase
  }

  function Flatten(turns: seq<seq<Observer>>): seq<Observer> {
    if turns == [] then [] else turns[0] + Flatten(turns[1..])
  }

  /** The row describes this turn, whose first attempt has the given number. */
  predicate Accounts(r: Row, turn: seq<Observer>, first: int) {
    && ValidScalars(r)
    && if r.localProjection then turn == [] && ProjectionRow(r)
       else
         && r.avoided == 0 && r.attempts == |turn| && r.successes == Successes(turn)
         && if turn == [] then r.start.None? && r.end.None? && r.acquisitions == r.finalizations == 0
            else r.start == Some(first) && r.end == Some(first + |turn| - 1)
  }

  predicate AllAccount(rows: seq<Row>, turns: seq<seq<Observer>>, first: int)
    decreases |rows|
  {
    && |rows| == |turns|
    && (rows == [] || (Accounts(rows[0], turns[0], first) && AllAccount(rows[1..], turns[1..], first + |turns[0]|)))
  }

  /** The ledger can be cut into one turn per row, in order, with every row describing its turn. */
  ghost predicate Tiles(rows: seq<Row>, observers: seq<Observer>) {
    exists turns: seq<seq<Observer>> :: AllAccount(rows, turns, 1) && Flatten(turns) == observers
  }

  // ----- The partition check -----

  /** Python slicing: bounds beyond the end are cut back. */
  function Slice<T>(s: seq<T>, from: nat, to: nat): seq<T> {
    var hi := if to < |s| then to else |s|;
    if from < hi then s[from..hi] else []
  }

  predicate RowFits(r: Row, observers: seq<Observer>, next: nat)
    requires next > 0
  {
    && ValidScalars(r)
    && if r.localProjection then ProjectionRow(r)
       else if r.avoided != 0 then false
       else if r.attempts == 0 then
         r.start.None? && r.end.None? && r.successes == 0 && r.acquisitions == 0 && r.finalizations == 0
       else
         && r.start == Some(next) && r.end.Some? && r.end.value >= next
         && var selected := Slice(observers, next - 1, r.end.value);
            |selected| == r.end.value - next + 1 == r.attempts && r.successes == Successes(selected)
  }

  predicate Walk(rows: seq<Row>, observers: seq<Observer>, next: nat)
    requires next > 0
    decreases |rows|
  {
    if rows == [] then next == |observers| + 1
    else RowFits(rows[0], observers, next) && Walk(rows[1..], observers, next + rows[0].attempts)
  }

  method CountSuccesses(turn: seq<Observer>) returns (count: nat)
    ensures count == Successes(turn)
  {
    count := 0;
    for i := 0 to |turn|
      invariant count == Successes(turn[..i])
    {
      assert turn[..i + 1][..i] == turn[..i];
      if Ok2xx(turn[i]) {
        count := count + 1;
      }
    }
    assert turn[..|turn|] == turn;
  }

  /** The body of the walk: whether the row fits at the next attempt, and where the one after it starts. */
  method CheckRow(observers: seq<Observer>, record: Row, nextAttempt: nat) returns (fits: bool, after: nat)
    requires nextAttempt > 0
    ensures fits <==> RowFits(record, observers, nextAttempt)
    ensures fits ==> after == nextAttempt + record.attempts
  {
    after := nextAttempt;
    if !ValidScalars(record) {
      return false, after;
    }
    if record.localProjection {
      return ProjectionRow(record), after;
    }
    if record.avoided != 0 {
      return false, after;
    }
    if record.attempts == 0 {
      fits :=
        && record.start.None? && record.end.None?
        && record.successes == 0 && record.acquisitions == 0 && record.finalizations == 0;
      return;
    }
    if record.start != Some(nextAttempt) || record.end.value < nextAttempt {
      return false, after;
    }
    var end := record.end.value;
    var selected := Slice(observers, nextAttempt - 1, end);
    if |selected| != end - nextAttempt + 1 || record.attempts != |selected| {
      return false, after;
    }
    var successful := CountSuccesses(selected);
    return record.successes == successful, end + 1;
  }

  method AttemptPartitionMatches(observers: seq<Observer>, rows: seq<Row>) returns (ok: bool)
    ensures ok <==> ValidLedger(observers) && Tiles(rows, observers)
  {
    WalkIffTiles(rows, observers);
    if !ValidLedger(observers) {
      return false;
    }
    var nextAttempt: nat := 1;
    for i := 0 to |rows|
      invariant nextAttempt > 0
      invariant Walk(rows, observers, 1) == Walk(rows[i..], observers, nextAttempt)
    {
      assert rows[i..][0] == rows[i] && rows[i..][1..] == rows[i + 1..];
      var fits, after := CheckRow(observers, rows[i], nextAttempt);
      if !fits {
        return false;
      }
      nextAttempt := after;
    }
    ok := nextAttempt == |observers| + 1;
  }

  /** A row without attempts selects no turn, any other the range it claims. */
  predicate SelectsTurn(r: Row) {
    r.localProjection || r.attempts == 0 ||
    (r.start.Some? && r.end.Some? && 0 < r.start.value <= r.end.value)
  }

  function Selected(r: Row, observers: seq<Observer>): seq<Observer>
    requires SelectsTurn(r)
  {
    if r.localProjection || r.attempts == 0 then [] else Slice(observers, r.start.value - 1, r.end.value)
  }

  /** The turns that the rows select from the ledger. */
  function Cut(rows: seq<Row>, observers: seq<Observer>): seq<seq<Observer>> {
    if rows == [] then []
    else [if SelectsTurn(rows[0]) then Selected(rows[0], observers) else []] + Cut(rows[1..], observers)
  }

  lemma {:induction false} WalkStaysInside(rows: seq<Row>, observers: seq<Observer>, next: nat)
    requires next > 0 && Walk(rows, observers, next)
    ensures next <= |observers| + 1
    decreases |rows|
  {
    if rows == [] {
    } else {
      WalkStaysInside(rows[1..], observers, next + rows[0].attempts);
    }
  }

  /** The slice that a fitting row claims is the turn it accounts for, as either check selects it. */
  lemma FittingRowAccounts(r: Row, observers: seq<Observer>, next: nat)
    requires 0 < next && RowFits(r, observers, next)
    ensures var turn := Slice(observers, next - 1, next - 1 + r.attempts);
      Accounts(r, turn, next) && |turn| == r.attempts && SelectsTurn(r) && Selected(r, observers) == turn
  {
  }

  lemma SliceThenRest<T>(s: seq<T>, a: nat, b: nat)
    requires a <= b <= |s|
    ensures Slice(s, a, b) + s[b..] == s[a..]
  {
  }

  lemma AccountsInFront(rows: seq<Row>, turn: seq<Observer>, rest: seq<seq<Observer>>, first: int)
    requires rows != [] && Accounts(rows[0], turn, first) && AllAccount(rows[1..], rest, first + |turn|)
    ensures AllAccount(rows, [turn] + rest, first)
  {
    assert ([turn] + rest)[1..] == rest;
  }

  lemma {:induction false} CutAccounts(rows: seq<Row>, observers: seq<Observer>, next: nat)
    requires next > 0 && Walk(rows, observers, next)
    ensures AllAccount(rows, Cut(rows, observers), next)
    decreases |rows|
  {
    if rows == [] {
    } else {
      FittingRowAccounts(rows[0], observers, next);
      CutAccounts(rows[1..], observers, next + rows[0].attempts);
      AccountsInFront(rows, Selected(rows[0], observers), Cut(rows[1..], observers), next);
    }
  }

  lemma {:induction false} CutCovers(rows: seq<Row>, observers: seq<Observer>, next: nat)
    requires next > 0 && Walk(rows, observers, next)
    ensures next <= |observers| + 1 && Flatten(Cut(rows, observers)) == observers[next - 1..]
    decreases |rows|
  {
    WalkStaysInside(rows, observers, next);
    if rows != [] {
      var after := next + rows[0].attempts;
      CutCovers(rows[1..], observers, after);
      SliceThenRest(observers, next - 1, after - 1);
    }
  }

  lemma TurnIsSlice<T>(whole: seq<T>, from: nat, turn: seq<T>, rest: seq<T>)
    requires from <= |whole| && turn + rest == whole[from..]
    ensures from + |turn| <= |whole| && Slice(whole, from, from + |turn|) == turn && whole[from + |turn|..] == rest
  {
    assert |turn| + |rest| == |whole| - from;
    assert (turn + rest)[..|turn|] == turn && (turn + rest)[|turn|..] == rest;
  }

  lemma AccountingRowFits(r: Row, turn: seq<Observer>, observers: seq<Observer>, next: nat)
    requires 0 < next && Accounts(r, turn, next) && next - 1 + |turn| <= |observers|
    requires Slice(observers, next - 1, next - 1 + |turn|) == turn
    ensures RowFits(r, observers, next) && r.attempts == |turn|
  {
  }

  /** The first row fits the first turn, and the rest of the rows the rest of the ledger. */
  lemma FirstRowFits(rows: seq<Row>, turns: seq<seq<Observer>>, observers: seq<Observer>, next: nat)
    requires 0 < next <= |observers| + 1 && rows != []
    requires AllAccount(rows, turns, next) && Flatten(turns) == observers[next - 1..]
    ensures RowFits(rows[0], observers, next) && rows[0].attempts == |turns[0]|
    ensures var after := next + |turns[0]|;
      && after <= |observers| + 1
      && AllAccount(rows[1..], turns[1..], after) && Flatten(turns[1..]) == observers[after - 1..]
  {
    TurnIsSlice(observers, next - 1, turns[0], Flatten(turns[1..]));
    AccountingRowFits(rows[0], turns[0], observers, next);
  }

  lemma {:induction false} TurnsWalk(rows: seq<Row>, turns: seq<seq<Observer>>, observers: seq<Observer>, next: nat)
    requires 0 < next <= |observers| + 1
    requires AllAccount(rows, turns, next) && Flatten(turns) == observers[next - 1..]
    ensures Walk(rows, observers, next)
    decreases |rows|
  {
    if rows == [] {
      assert turns == [] && |observers[next - 1..]| == 0;
    } else {
      FirstRowFits(rows, turns, observers, next);
      TurnsWalk(rows[1..], turns[1..], observers, next + |turns[0]|);
    }
  }

  /** Walking the rows accepts exactly the ledgers that the rows tile. */
  lemma WalkIffTiles(rows: seq<Row>, observers: seq<Observer>)
    ensures Walk(rows, observers, 1) <==> Tiles(rows, observers)
  {
    if Walk(rows, observers, 1) {
      CutAccounts(rows, observers, 1);
      CutCovers(rows, observers, 1);
    }
    if Tiles(rows, observers) {
      var turns :| AllAccount(rows, turns, 1) && Flatten(turns) == observers;
      TurnsWalk(rows, turns, observers, 1);
    }
  }

  // ----- Acceptance in closed form -----

  function AttemptsBefore(rows: seq<Row>, n: nat): int
    requires n <= |rows|
  {
    if n == 0 then 0 else AttemptsBefore(rows, n - 1) + rows[n - 1].attempts
  }

  /** How many attempts of the turn have a status from 200 to 299. */
  ghost function Answered(turn: seq<Observer>): nat {
    |set k | 0 <= k < |turn| && turn[k].status.Some? && 200 <= turn[k].status.value <= 299|
  }

  /** What a row may say when the next attempt has this number. */
  ghost predicate RowSays(r: Row, observers: seq<Observer>, next: nat)
    requires next > 0
  {
    && r.sequence > 0 && r.retries >= 0 && r.corrections >= 0 && r.duplicates >= 0 && r.stalls >= 0
    && r.acquisitions >= 0 && r.finalizations >= 0 && r.attempts >= 0
    && if r.localProjection then
         && r.outcome.Succeeded? && r.start.None? && r.end.None? && r.avoided == 1
         && r.attempts == 0 && r.successes == 0 && r.acquisitions == 0 && r.finalizations == 0
         && r.retries == 0 && r.corrections == 0 && r.duplicates == 0 && r.stalls == 0
       else if r.attempts == 0 then
         && r.avoided == 0 && r.start.None? && r.end.None?
         && r.successes == 0 && r.acquisitions == 0 && r.finalizations == 0
       else
         && r.avoided == 0 && r.start == Some(next) && r.end == Some(next + r.attempts - 1)
         && next - 1 + r.attempts <= |observers|
         && r.successes == Answered(observers[next - 1..next - 1 + r.attempts])
  }

  ghost predicate RowSaysAt(rows: seq<Row>, observers: seq<Observer>, i: nat)
    requires i < |rows|
  {
    AttemptsBefore(rows, i) >= 0 && RowSays(rows[i], observers, AttemptsBefore(rows, i) + 1)
  }

  /** From here on every row says what it may where the attempts before it end, and all of them are accounted for. */
  ghost predicate RowsSay(rows: seq<Row>, observers: seq<Observer>, from: nat) {
    && from <= |rows| && AttemptsBefore(rows, |rows|) == |observers|
    && forall i :: from <= i < |rows| ==> RowSaysAt(rows, observers, i)
  }

  lemma {:induction false} FewerSuccessesThanAttempts(turn: seq<Observer>)
    ensures Successes(turn) <= |turn|
  {
    if turn == [] {
    } else {
      FewerSuccessesThanAttempts(turn[..|turn| - 1]);
    }
  }

  lemma SliceFitsIff(r: Row, observers: seq<Observer>, next: nat)
    requires next > 0 && r.attempts > 0 && !r.localProjection
    ensures RowFits(r, observers, next) <==> RowSays(r, observers, next)
  {
    if next - 1 + r.attempts <= |observers| {
      var turn := observers[next - 1..next - 1 + r.attempts];
      ColumnsCount(turn, Terminal);
      FewerSuccessesThanAttempts(turn);
    }
  }

  lemma RowFitsIff(r: Row, observers: seq<Observer>, next: nat)
    requires next > 0
    ensures RowFits(r, observers, next) <==> RowSays(r, observers, next)
  {
    if r.attempts > 0 && !r.localProjection {
      SliceFitsIff(r, observers, next);
    }
  }

  lemma RowsSayOneMore(rows: seq<Row>, observers: seq<Observer>, i: nat)
    requires i < |rows|
    ensures RowsSay(rows, observers, i) <==> RowSaysAt(rows, observers, i) && RowsSay(rows, observers, i + 1)
  {
  }

  lemma WalkOneMore(rows: seq<Row>, observers: seq<Observer>, i: nat, next: nat)
    requires i < |rows| && next > 0
    ensures Walk(rows[i..], observers, next) <==>
      RowFits(rows[i], observers, next) && Walk(rows[i + 1..], observers, next + rows[i].attempts)
  {
    assert rows[i..][0] == rows[i] && rows[i..][1..] == rows[i + 1..];
  }

  lemma WalkSaysOneMore(rows: seq<Row>, observers: seq<Observer>, i: nat, next: nat)
    requires i < |rows| && next > 0 && next == AttemptsBefore(rows, i) + 1
    requires RowFits(rows[i], observers, next) ==>
      (Walk(rows[i + 1..], observers, next + rows[i].attempts) <==> RowsSay(rows, observers, i + 1))
    ensures Walk(rows[i..], observers, next) <==> RowsSay(rows, observers, i)
  {
    RowFitsIff(rows[i], observers, next);
    RowsSayOneMore(rows, observers, i);
    WalkOneMore(rows, observers, i, next);
  }

  lemma {:induction false} WalkSays(rows: seq<Row>, observers: seq<Observer>, i: nat, next: nat)
    requires i <= |rows| && next > 0 && next == AttemptsBefore(rows, i) + 1
    ensures Walk(rows[i..], observers, next) <==> RowsSay(rows, observers, i)
    decreases |rows| - i
  {
    if i == |rows| {
    } else {
      if RowFits(rows[i], observers, next) {
        WalkSays(rows, observers, i + 1, next + rows[i].attempts);
      }
      WalkSaysOneMore(rows, observers, i, next);
    }
  }

  /**
    Rows tile a ledger exactly if they add up to it and each says, of the attempts behind
    those of the rows before it, what it may: the tiling is determined by the rows.
  */
  lemma TilesIff(rows: seq<Row>, observers: seq<Observer>)
    ensures Tiles(rows, observers) <==> RowsSay(rows, observers, 0)
  {
    WalkIffTiles(rows, observers);
    WalkSays(rows, observers, 0, 1);
    assert rows[0..] == rows;
  }

  /** A ledger is valid if its attempts are numbered from one, have a proper status if any, a digest and a phase. */
  lemma ValidLedgerIff(observers: seq<Observer>)
    ensures ValidLedger(observers) <==> forall i :: 0 <= i < |observers| ==>
      && observers[i].sequence == i + 1 && observers[i].digestOk
      && (observers[i].status.None? || 100 <= observers[i].status.value <= 599)
      && observers[i].phase in {Acquisition, Finalization, Terminal}
  {
    forall i | 0 <= i < |observers| ensures ValidObserver(observers[i], i + 1) <==>
      && observers[i].sequence == i + 1 && observers[i].digestOk
      && (observers[i].status.None? || 100 <= observers[i].status.value <= 599)
      && observers[i].phase in {Acquisition, Finalization, Terminal}
    {
    }
  }

  // ----- The phase check -----

  function DistinctPhases(acquisitions: nat, finalizations: nat, terminals: nat): nat {
    (if acquisitions > 0 then 1 else 0) + (if finalizations > 0 then 1 else 0) + (if terminals > 0 then 1 else 0)
  }

  /** Phase totals of the row are those of the turn, and every attempt but the first of its phase is a retry. */
  predicate PhasesDescribe(r: Row, turn: seq<Observer>) {
    && PhasesOf(turn) <= {Acquisition, Finalization, Terminal}
    && r.acquisitions == InPhase(turn, Acquisition) && r.finalizations == InPhase(turn, Finalization)
    && r.retries == r.attempts - |PhasesOf(turn)|
  }

  predicate PhaseRowMatches(r: Row, observers: seq<Observer>) {
    SelectsTurn(r) && PhasesDescribe(r, Selected(r, observers))
  }

  predicate PhaseRowsMatch(rows: seq<Row>, observers: seq<Observer>)
    decreases |rows|
  {
    rows == [] || (PhaseRowMatches(rows[0], observers) && PhaseRowsMatch(rows[1..], observers))
  }

  lemma {:induction false} CountsShowPhases(turn: seq<Observer>, phase: Phase)
    ensures phase in PhasesOf(turn) <==> InPhase(turn, phase) > 0
  {
    if turn == [] {
    } else {
      var n := |turn| - 1;
      CountsShowPhases(turn[..n], phase);
      assert forall o :: o in turn <==> o in turn[..n] || o == turn[n] by {
        assert turn == turn[..n] + [turn[n]];
      }
    }
  }

  /** Three counters find the number of distinct phases. */
  lemma CountersCountPhases(turn: seq<Observer>)
    requires PhasesOf(turn) <= {Acquisition, Finalization, Terminal}
    ensures |PhasesOf(turn)| ==
      DistinctPhases(InPhase(turn, Acquisition), InPhase(turn, Finalization), InPhase(turn, Terminal))
  {
    CountsShowPhases(turn, Acquisition);
    CountsShowPhases(turn, Finalization);
    CountsShowPhases(turn, Terminal);
    SizeOfThree(PhasesOf(turn));
  }

  lemma SizeOfThree(s: set<Phase>)
    requires s <= {Acquisition, Finalization, Terminal}
    ensures |s| ==
      (if Acquisition in s then 1 else 0) + (if Finalization in s then 1 else 0) + (if Terminal in s then 1 else 0)
  {
    var rest := s - {Acquisition};
    var last := rest - {Finalization};
    assert |s| == |rest| + if Acquisition in s then 1 else 0;
    assert |rest| == |last| + if Finalization in s then 1 else 0;
    assert last == if Terminal in s then {Terminal} else {};
  }

  /** Count the phases of a turn; None when one of them is no known phase. */
  method CountPhases(turn: seq<Observer>) returns (counts: Option<(nat, nat, nat)>)
    ensures counts.Some? <==> PhasesOf(turn) <= {Acquisition, Finalization, Terminal}
    ensures counts.Some? ==>
      counts.value == (InPhase(turn, Acquisition), InPhase(turn, Finalization), InPhase(turn, Terminal))
  {
    var acquisitions, finalizations, terminals := 0, 0, 0;
    for i := 0 to |turn|
      invariant acquisitions == InPhase(turn[..i], Acquisition) && finalizations == InPhase(turn[..i], Finalization)
      invariant terminals == InPhase(turn[..i], Terminal)
      invariant forall j :: 0 <= j < i ==> !turn[j].phase.Unknown?
    {
      assert turn[..i + 1][..i] == turn[..i];
      match turn[i].phase {
        case Terminal => terminals := terminals + 1;
        case Unknown =>
          assert turn[i].phase in PhasesOf(turn);
          return None;
        case Acquisition => acquisitions := acquisitions + 1;
        case Finalization => finalizations := finalizations + 1;
      }
    }
    assert turn[..|turn|] == turn;
    counts := Some((acquisitions, finalizations, terminals));
  }

  method PhaseCountsMatch(observers: seq<Observer>, rows: seq<Row>) returns (ok: bool)
    ensures ok <==> PhaseRowsMatch(rows, observers)
  {
    for i := 0 to |rows|
      invariant PhaseRowsMatch(rows, observers) == PhaseRowsMatch(rows[i..], observers)
    {
      var record := rows[i];
      assert rows[i..][0] == record && rows[i..][1..] == rows[i + 1..];
      if !SelectsTurn(record) {
        return false;
      }
      var selected := Selected(record, observers);
      var counts := CountPhases(selected);
      if counts.None? {
        return false;
      }
      CountersCountPhases(selected);
      var (acquisitions, finalizations, terminals) := counts.value;
      if record.acquisitions != acquisitions || record.finalizations != finalizations {
        return false;
      }
      if record.retries != record.attempts - DistinctPhases(acquisitions, finalizations, terminals) {
        return false;
      }
    }
    ok := true;
  }

  // ----- What an accepted ledger adds up to -----

  datatype Column = Attempts | SuccessColumn | AcquisitionColumn | FinalizationColumn

  function Cell(r: Row, c: Column): int {
    match c
    case Attempts => r.attempts
    case SuccessColumn => r.successes
    case AcquisitionColumn => r.acquisitions
    case FinalizationColumn => r.finalizations
  }

  function ColumnSum(rows: seq<Row>, c: Column): int {
    if rows == [] then 0 else Cell(rows[0], c) + ColumnSum(rows[1..], c)
  }

  function Observed(observers: seq<Observer>, c: Column): nat {
    match c
    case Attempts => |observers|
    case SuccessColumn => Successes(observers)
    case AcquisitionColumn => InPhase(observers, Acquisition)
    case FinalizationColumn => InPhase(observers, Finalization)
  }

  lemma {:induction false} ObservedSplits(a: seq<Observer>, b: seq<Observer>, c: Column)
    ensures Observed(a + b, c) == Observed(a, c) + Observed(b, c)
  {
    if b == [] {
      assert a + b == a;
    } else {
      var n := |b| - 1;
      assert (a + b)[..|a| + n] == a + b[..n];
      ObservedSplits(a, b[..n], c);
    }
  }

  predicate AllDescribe(rows: seq<Row>, turns: seq<seq<Observer>>)
    decreases |rows|
  {
    |rows| == |turns| && (rows == [] || (PhasesDescribe(rows[0], turns[0]) && AllDescribe(rows[1..], turns[1..])))
  }

  /** Rows accepted by the phase check describe the phases of the turns they select. */
  lemma {:induction false} CutRowsDescribe(rows: seq<Row>, observers: seq<Observer>)
    requires PhaseRowsMatch(rows, observers)
    ensures AllDescribe(rows, Cut(rows, observers))
  {
    if rows == [] {
    } else {
      CutRowsDescribe(rows[1..], observers);
    }
  }

  lemma {:induction false} ColumnsAddUp(rows: seq<Row>, turns: seq<seq<Observer>>, first: int, c: Column)
    requires AllAccount(rows, turns, first)
    requires c.AcquisitionColumn? || c.FinalizationColumn? ==> AllDescribe(rows, turns)
    ensures ColumnSum(rows, c) == Observed(Flatten(turns), c)
    decreases |rows|
  {
    if rows == [] {
    } else {
      ColumnsAddUp(rows[1..], turns[1..], first + |turns[0]|, c);
      ObservedSplits(turns[0], Flatten(turns[1..]), c);
    }
  }

  /** Accepted rows add up to the ledger: its attempts, its 2xx answers, and with the phase check its phases. */
  lemma AcceptedTotals(rows: seq<Row>, observers: seq<Observer>, c: Column)
    requires Tiles(rows, observers)
    requires c.AcquisitionColumn? || c.FinalizationColumn? ==> PhaseRowsMatch(rows, observers)
    ensures ColumnSum(rows, c) == Observed(observers, c)
  {
    WalkIffTiles(rows, observers);
    CutAccounts(rows, observers, 1);
    CutCovers(rows, observers, 1);
    if c.AcquisitionColumn? || c.FinalizationColumn? {
      CutRowsDescribe(rows, observers);
    }
    ColumnsAddUp(rows, Cut(rows, observers), 1, c);
  }
}
