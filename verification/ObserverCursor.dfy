/**
  The cursor that hands the observer ledger out turn by turn (qualification_contract.py).

  Without correlation a turn is everything new since the last one; with a correlation
  digest it is every record of that digest that no turn has taken yet.
*/
module ObserverCursor {
  import opened Wrappers
  import opened Reconciliation
  import opened Accounting

  function SequencesOf(records: seq<Observer>): set<int> {
    set o | o in records :: o.sequence
  }

  /** The records of one correlation digest that have not been consumed, in order. */
  function Matching(observed: seq<Observer>, consumed: set<int>, expected: nat): seq<Observer> {
    if observed == [] then [] else
      var last := observed[|observed| - 1];
      Matching(observed[..|observed| - 1], consumed, expected)
        + if last.sequence !in consumed && last.correlation == Some(expected) then [last] else []
  }

  /** What was consumed is what the turns hold. */
  ghost predicate Booked(consumed: set<int>, turns: seq<seq<Observer>>) {
    consumed == SequencesOf(Flatten(turns))
  }

  ghost predicate NoneTwice(records: seq<Observer>) {
    forall i, j :: 0 <= i < j < |records| ==> records[i].sequence != records[j].sequence
  }

  lemma BookedOneMore(consumed: set<int>, turns: seq<seq<Observer>>, turn: seq<Observer>)
    requires Booked(consumed, turns)
    ensures Booked(consumed + SequencesOf(turn), turns + [turn])
  {
    FlattenOneMore(turns, turn);
    var before := Flatten(turns);
    assert forall o :: o in before + turn <==> o in before || o in turn;
  }

  lemma {:induction false} MatchingExact(observed: seq<Observer>, consumed: set<int>, expected: nat, o: Observer)
    ensures o in Matching(observed, consumed, expected) <==>
      o in observed && o.sequence !in consumed && o.correlation == Some(expected)
  {
    if observed == [] {
    } else {
      var m := |observed| - 1;
      MatchingExact(observed[..m], consumed, expected, o);
      assert observed == observed[..m] + [observed[m]];
    }
  }

  lemma {:induction false} MatchingNoneTwice(observed: seq<Observer>, consumed: set<int>, expected: nat)
    requires NoneTwice(observed)
    ensures NoneTwice(Matching(observed, consumed, expected))
  {
    if observed == [] {
    } else {
      var m := |observed| - 1;
      var before := Matching(observed[..m], consumed, expected);
      MatchingNoneTwice(observed[..m], consumed, expected);
      forall i | 0 <= i < |before| ensures before[i].sequence != observed[m].sequence {
        MatchingExact(observed[..m], consumed, expected, before[i]);
        var j :| 0 <= j < m && observed[..m][j] == before[i];
        assert observed[j] == before[i];
      }
    }
  }

  predicate Empty(observed: seq<Observer>, cursor: nat, consumed: set<int>, expected: Option<nat>) {
    if expected.None? then |observed| == cursor else Matching(observed, consumed, expected.value) == []
  }

  class ModelBoundaryObserverCursor {
    var cursor: nat
    var consumed: set<int>
    var active: Option<nat>
    var turns: seq<seq<Observer>>

    ghost predicate Valid()
      reads this
    {
      Booked(consumed, turns)
    }

    constructor ()
      ensures Valid() && turns == [] && cursor == 0 && active.None? && consumed == {}
    {
      cursor, consumed, active, turns := 0, {}, None, [];
      assert SequencesOf(Flatten([])) == {};
    }

    /** Start a turn: with a digest it becomes the active one, without one nothing may be left over. */
    method BeginTurn(observed: seq<Observer>, correlation: Option<nat>) returns (ok: bool)
      requires Valid()
      modifies this`active
      ensures Valid()
      ensures ok <==> if correlation.Some? then old(active).None? else |observed| == cursor
      ensures active == if ok && correlation.Some? then correlation else old(active)
    {
      if correlation.Some? {
        if active.Some? {
          return false;
        }
        active := correlation;
        return true;
      }
      ok := |observed| == cursor;
    }

    method ConsumeTurn(observed: seq<Observer>, requireRecords: bool, correlation: Option<nat>)
      returns (turn: Option<seq<Observer>>)
      requires Valid()
      modifies this
      ensures Valid()
      ensures turn.None? ==> unchanged(this)
      ensures turn.Some? ==> turns == old(turns) + [turn.value] && active.None?
      ensures turn.Some? ==> consumed == old(consumed) + SequencesOf(turn.value)
      ensures var expected := if correlation.Some? then correlation else old(active);
        && (turn.Some? && expected.None? ==>
              old(cursor) <= |observed| == cursor && turn.value == observed[old(cursor)..])
        && (turn.Some? && expected.Some? ==>
              cursor == old(cursor) && turn.value == Matching(observed, old(consumed), expected.value))
        && (turn.None? <==>
              |observed| < old(cursor) || (requireRecords && Empty(observed, old(cursor), old(consumed), expected)))
    {
      if |observed| < cursor {
        return None;
      }
      var expected := if correlation.Some? then correlation else active;
      var records := if expected.None? then observed[cursor..] else Matching(observed, consumed, expected.value);
      if requireRecords && records == [] {
        return None;
      }
      BookedOneMore(consumed, turns, records);
      consumed := consumed + SequencesOf(records);
      cursor := if expected.None? then |observed| else cursor;
      active := None;
      turns := turns + [records];
      turn := Some(records);
    }

    /** Drained means that every record of the ledger is in some turn. */
    method RequireDrained(observed: seq<Observer>) returns (ok: bool)
      requires Valid()
      ensures ok <==> active.None? && forall o :: o in observed ==> o.sequence in SequencesOf(Flatten(turns))
    {
      ok := active.None? && forall o | o in observed :: o.sequence in consumed;
    }
  }

  // ----- Turns without correlation carry the ledger on -----

  /** As long as no correlation is used, the turns put end to end are the ledger up to the cursor. */
  ghost predicate InOrder(turns: seq<seq<Observer>>, cursor: nat, observed: seq<Observer>) {
    cursor <= |observed| && Flatten(turns) == observed[..cursor]
  }

  /**
    Then the next turn continues the ledger, as the accounting of requests needs it, and
    the turns stay in order; the ledger may have grown in between.
  */
  lemma NextTurnContinues(
    turns: seq<seq<Observer>>, cursor: nat, observed: seq<Observer>, observed': seq<Observer>)
    requires InOrder(turns, cursor, observed) && observed <= observed' && ValidLedger(observed')
    ensures Continues(turns, observed'[cursor..])
    ensures InOrder(turns + [observed'[cursor..]], |observed'|, observed')
  {
    var turn := observed'[cursor..];
    FlattenOneMore(turns, turn);
    assert observed[..cursor] == observed'[..cursor];
    assert observed'[..cursor] + turn == observed'[..|observed'|];
    forall k | 0 <= k < |turn| ensures ValidObserver(turn[k], |Flatten(turns)| + k + 1) {
      assert turn[k] == observed'[cursor + k];
    }
  }

  // ----- When a correlated turn carries the ledger on -----

  predicate Carries(o: Observer, expected: nat) {
    o.correlation == Some(expected)
  }

  /** From the cursor up to n, no record of the digest comes after a record without it. */
  predicate DigestLeads(observed: seq<Observer>, cursor: nat, n: nat, expected: nat)
    requires n <= |observed|
  {
    forall k, l :: cursor <= k <= l < n && Carries(observed[l], expected) ==> Carries(observed[k], expected)
  }

  predicate AllCarry(observed: seq<Observer>, cursor: nat, n: nat, expected: nat)
    requires n <= |observed|
  {
    forall k :: cursor <= k < n ==> Carries(observed[k], expected)
  }

  predicate NumberedOn(turn: seq<Observer>, cursor: nat) {
    forall k :: 0 <= k < |turn| ==> turn[k].sequence == cursor + k + 1
  }

  lemma ConsumedBehind(observed: seq<Observer>, cursor: nat, consumed: set<int>, n: nat)
    requires ValidLedger(observed) && cursor <= |observed|
    requires consumed == SequencesOf(observed[..cursor]) && n < |observed|
    ensures observed[n].sequence in consumed <==> n < cursor
  {
    if n < cursor {
      assert observed[..cursor][n] in observed[..cursor];
    } else {
      forall i | 0 <= i < cursor ensures observed[..cursor][i].sequence != observed[n].sequence {
        assert ValidObserver(observed[i], i + 1) && ValidObserver(observed[n], n + 1);
      }
    }
  }

  lemma MatchingOneMore(observed: seq<Observer>, cursor: nat, consumed: set<int>, expected: nat, n: nat)
    requires ValidLedger(observed) && cursor <= |observed|
    requires consumed == SequencesOf(observed[..cursor]) && n < |observed|
    ensures Matching(observed[..n + 1], consumed, expected) ==
      Matching(observed[..n], consumed, expected)
        + if cursor <= n && Carries(observed[n], expected) then [observed[n]] else []
  {
    assert observed[..n + 1][..n] == observed[..n];
    ConsumedBehind(observed, cursor, consumed, n);
  }

  /** The records of the digest between the cursor and n, in order. */
  function Carrying(observed: seq<Observer>, cursor: nat, n: nat, expected: nat): (turn: seq<Observer>)
    requires n <= |observed|
    ensures |turn| <= if cursor <= n then n - cursor else 0
  {
    if n <= cursor then [] else
      Carrying(observed, cursor, n - 1, expected) + if Carries(observed[n - 1], expected) then [observed[n - 1]] else []
  }

  lemma {:induction false} MatchingIsCarrying(
    observed: seq<Observer>, cursor: nat, consumed: set<int>, expected: nat, n: nat)
    requires ValidLedger(observed) && n <= |observed|
    requires cursor <= |observed| && consumed == SequencesOf(observed[..cursor])
    ensures Matching(observed[..n], consumed, expected) == Carrying(observed, cursor, n, expected)
  {
    if n == 0 {
    } else {
      MatchingIsCarrying(observed, cursor, consumed, expected, n - 1);
      MatchingOneMore(observed, cursor, consumed, expected, n - 1);
    }
  }

  lemma {:induction false} CarryingAll(observed: seq<Observer>, cursor: nat, expected: nat, n: nat)
    requires cursor <= n <= |observed|
    ensures |Carrying(observed, cursor, n, expected)| == n - cursor <==> AllCarry(observed, cursor, n, expected)
    decreases n
  {
    if n == cursor {
    } else {
      CarryingAll(observed, cursor, expected, n - 1);
    }
  }

  lemma {:induction false} CarryingIsSlice(observed: seq<Observer>, cursor: nat, expected: nat, n: nat)
    requires cursor <= n <= |observed| && AllCarry(observed, cursor, n, expected)
    ensures Carrying(observed, cursor, n, expected) == observed[cursor..n]
    decreases n
  {
    if n == cursor {
    } else {
      CarryingIsSlice(observed, cursor, expected, n - 1);
      assert Carries(observed[n - 1], expected);
      assert observed[cursor..n - 1] + [observed[n - 1]] == observed[cursor..n];
    }
  }

  lemma LastDoesNotCarry(observed: seq<Observer>, cursor: nat, expected: nat, n: nat)
    requires cursor <= n <= |observed| && DigestLeads(observed, cursor, n, expected)
    requires !AllCarry(observed, cursor, n, expected)
    ensures cursor < n && !Carries(observed[n - 1], expected) && DigestLeads(observed, cursor, n - 1, expected)
  {
  }

  lemma {:induction false} LeadingTurnIsStretch(observed: seq<Observer>, cursor: nat, expected: nat, n: nat)
    requires cursor <= n <= |observed| && DigestLeads(observed, cursor, n, expected)
    ensures var turn := Carrying(observed, cursor, n, expected);
      turn == observed[cursor..cursor + |turn|]
    decreases n
  {
    if AllCarry(observed, cursor, n, expected) {
      CarryingIsSlice(observed, cursor, expected, n);
    } else {
      LastDoesNotCarry(observed, cursor, expected, n);
      LeadingTurnIsStretch(observed, cursor, expected, n - 1);
      assert Carrying(observed, cursor, n, expected) == Carrying(observed, cursor, n - 1, expected);
    }
  }

  lemma {:induction false} NumberedTurnLeads(observed: seq<Observer>, cursor: nat, expected: nat, n: nat)
    requires NumberedOn(observed, 0) && cursor <= n <= |observed|
    requires NumberedOn(Carrying(observed, cursor, n, expected), cursor)
    ensures DigestLeads(observed, cursor, n, expected)
    decreases n
  {
    if n == cursor {
    } else {
      var before, turn := Carrying(observed, cursor, n - 1, expected), Carrying(observed, cursor, n, expected);
      assert NumberedOn(before, cursor) by {
        assert forall k :: 0 <= k < |before| ==> before[k] == turn[k];
      }
      NumberedTurnLeads(observed, cursor, expected, n - 1);
      if Carries(observed[n - 1], expected) {
        assert turn[|before|] == observed[n - 1];
        CarryingAll(observed, cursor, expected, n - 1);
      }
    }
  }

  /**
    While the turns put end to end are the ledger up to a point, a correlated turn carries
    it on exactly when no record of the digest comes after one without it; the turn is then
    the next stretch of the ledger, and the turns stay in order.
  */
  lemma CorrelatedTurnContinuesIff(
    turns: seq<seq<Observer>>, consumed: set<int>, point: nat, observed: seq<Observer>, expected: nat)
    requires InOrder(turns, point, observed) && Booked(consumed, turns) && ValidLedger(observed)
    ensures var turn := Matching(observed, consumed, expected);
      && (Continues(turns, turn) <==> DigestLeads(observed, point, |observed|, expected))
      && (Continues(turns, turn) ==> InOrder(turns + [turn], point + |turn|, observed))
  {
    var turn := Matching(observed, consumed, expected);
    assert observed[..|observed|] == observed;
    MatchingIsCarrying(observed, point, consumed, expected, |observed|);
    if Continues(turns, turn) {
      assert NumberedOn(turn, point) && NumberedOn(observed, 0);
      NumberedTurnLeads(observed, point, expected, |observed|);
    }
    if DigestLeads(observed, point, |observed|, expected) {
      LeadingTurnIsStretch(observed, point, expected, |observed|);
      StretchContinues(turns, turn, point, observed);
    }
  }

  lemma StretchContinues(turns: seq<seq<Observer>>, turn: seq<Observer>, point: nat, observed: seq<Observer>)
    requires InOrder(turns, point, observed) && ValidLedger(observed) && point + |turn| <= |observed|
    requires turn == observed[point..point + |turn|]
    ensures Continues(turns, turn) && InOrder(turns + [turn], point + |turn|, observed)
  {
    forall k | 0 <= k < |turn| ensures ValidObserver(turn[k], point + k + 1) {
      assert turn[k] == observed[point + k];
    }
    FlattenOneMore(turns, turn);
    assert observed[..point] + turn == observed[..point + |turn|];
  }

  // ----- Correlated turns take every record once -----

  lemma CorrelatedTurnIsNew(
    turns: seq<seq<Observer>>, consumed: set<int>, observed: seq<Observer>, expected: nat)
    requires Booked(consumed, turns) && NoneTwice(Flatten(turns)) && NoneTwice(observed)
    ensures NoneTwice(Flatten(turns + [Matching(observed, consumed, expected)]))
  {
    var turn := Matching(observed, consumed, expected);
    MatchingNoneTwice(observed, consumed, expected);
    FlattenOneMore(turns, turn);
    var before := Flatten(turns);
    var all := before + turn;
    forall i, j | 0 <= i < j < |all| ensures all[i].sequence != all[j].sequence {
      if i < |before| <= j {
        MatchingExact(observed, consumed, expected, turn[j - |before|]);
        assert before[i] in before && before[i].sequence in consumed;
      }
    }
  }

  /**
    Mixing the two ways breaks this: a turn without correlation takes the whole ledger from
    the cursor on, with any records a correlated turn has taken there already.  It takes
    none twice exactly when no consumed record lies behind the cursor.
  */
  lemma PlainTurnIsNewIff(
    turns: seq<seq<Observer>>, consumed: set<int>, cursor: nat, observed: seq<Observer>)
    requires Booked(consumed, turns) && NoneTwice(Flatten(turns)) && NoneTwice(observed) && cursor <= |observed|
    ensures NoneTwice(Flatten(turns + [observed[cursor..]])) <==>
      forall k :: cursor <= k < |observed| ==> observed[k].sequence !in consumed
  {
    var turn := observed[cursor..];
    FlattenOneMore(turns, turn);
    var before := Flatten(turns);
    var all := before + turn;
    if k :| cursor <= k < |observed| && observed[k].sequence in consumed {
      var o :| o in before && o.sequence == observed[k].sequence;
      var i :| 0 <= i < |before| && before[i] == o;
      assert all[i] == o && all[|before| + (k - cursor)] == observed[k];
    } else {
      forall i, j | 0 <= i < j < |all| ensures all[i].sequence != all[j].sequence {
        if i < |before| <= j {
          assert before[i] in before && all[j] == observed[cursor + (j - |before|)];
          assert before[i].sequence in consumed;
        } else if |before| <= i {
          assert all[i] == observed[cursor + (i - |before|)] && all[j] == observed[cursor + (j - |before|)];
        }
      }
    }
  }

  /** A plain turn that was started by the cursor takes none twice: nothing may be left over when it starts. */
  lemma BegunPlainTurnIsNew(
    turns: seq<seq<Observer>>, consumed: set<int>, cursor: nat, begun: seq<Observer>, observed: seq<Observer>)
    requires Booked(consumed, turns) && NoneTwice(Flatten(turns)) && NoneTwice(observed)
    requires |begun| == cursor && begun <= observed && consumed <= SequencesOf(begun)
    ensures NoneTwice(Flatten(turns + [observed[cursor..]]))
  {
    forall k | cursor <= k < |observed| ensures observed[k].sequence !in SequencesOf(begun) {
      forall i | 0 <= i < |begun| ensures begun[i].sequence != observed[k].sequence {
        assert begun[i] == observed[i];
      }
    }
    PlainTurnIsNewIff(turns, consumed, cursor, observed);
  }

  lemma TwoTurnsTogether(first: seq<Observer>, second: seq<Observer>)
    ensures Flatten([first, second]) == first + second
  {
    FlattenOneMore([], first);
    FlattenOneMore([first], second);
    assert [] + [first] == [first] && [first] + [second] == [first, second];
    assert Flatten([]) == [];
  }

  /** A correlated turn that slips in between the start and the end of a plain one: both take the same record. */
  method PlainTurnCanRepeat() returns (begun: bool, correlated: Option<seq<Observer>>, plain: Option<seq<Observer>>)
    ensures begun && correlated.Some? && plain == correlated && |plain.value| == 1
    ensures !NoneTwice(Flatten([correlated.value, plain.value]))
  {
    var record := Observer(1, Some(200), Acquisition, true, Some(7));
    var cursor := new ModelBoundaryObserverCursor();
    var first := cursor.BeginTurn([], None);
    var second := cursor.BeginTurn([], Some(7));
    correlated := cursor.ConsumeTurn([record], true, Some(7));
    begun := first && second;
    assert Matching([record], {}, 7) == [record] by {
      assert [record][..0] == [];
    }
    assert !Empty([record], 0, {}, Some(7));
    plain := cursor.ConsumeTurn([record], true, None);
    assert [record][0..] == [record];
    TwoTurnsTogether(correlated.value, plain.value);
    var both := [record] + [record];
    assert both[0].sequence == both[1].sequence;
  }
}
