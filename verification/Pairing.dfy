/**
  Validation and pairing of qualification rows (qualification_campaign_v2.py).

  A design fixes the cases, cache lanes and replicates; every key of this grid must have
  exactly one direct and one proxy row.  The code counts rows and refuses duplicates, and
  the pigeonhole principle does the rest.
*/
module Pairing {
  import opened Sets
  import opened Wrappers

  datatype Number = Finite(value: real) | NotFinite

  datatype Record = Record(
    caseOrdinal: int, cacheLane: string, replicate: int, arm: string,
    passed: bool, wall: Number, deadline: Number, critical: bool)

  datatype Design = Design(cases: nat, lanes: seq<string>, replicates: nat)

  const V2_DESIGN := Design(30, ["cold", "warm-prefix"], 4)

  datatype Key = Key(lane: string, replicate: int, ordinal: int)

  datatype Slot = Slot(key: Key, arm: string)

  /** What the statistics read of a valid row. */
  datatype Outcome = Outcome(passed: bool, wall: real, deadline: real, critical: bool)

  datatype Pair = Pair(direct: Outcome, proxy: Outcome)

  datatype Entry = Entry(key: Key, pair: Pair)

  datatype Failure = EvidenceIncomplete | RowInvalid | DuplicateRow | PairMismatch

  const DIRECT := "direct"
  const PROXY := "proxy"

  predicate Positive(n: Number) {
    n.Finite? && n.value > 0.0
  }

  predicate ValidRecord(design: Design, r: Record) {
    && 1 <= r.caseOrdinal <= design.cases && r.cacheLane in design.lanes && 1 <= r.replicate <= design.replicates
    && (r.arm == DIRECT || r.arm == PROXY)
    && Positive(r.wall) && Positive(r.deadline)
    && (r.passed ==> r.wall.value <= r.deadline.value)
  }

  function SlotOf(r: Record): Slot {
    Slot(Key(r.cacheLane, r.replicate, r.caseOrdinal), r.arm)
  }

  function OutcomeOf(r: Record): Outcome
    requires r.wall.Finite? && r.deadline.Finite?
  {
    Outcome(r.passed, r.wall.value, r.deadline.value, r.critical)
  }

  function KeyCount(design: Design): nat {
    |design.lanes| * (design.replicates * design.cases)
  }

  // ----- What the scan of the rows decides -----

  predicate RepeatsSlot(records: seq<Record>, i: nat)
    requires i < |records|
  {
    exists j :: 0 <= j < i && SlotOf(records[j]) == SlotOf(records[i])
  }

  /** One case, two deadlines. */
  predicate DeadlinesDiffer(a: Record, b: Record) {
    a.caseOrdinal == b.caseOrdinal && a.deadline != b.deadline
  }

  predicate ChangesDeadline(records: seq<Record>, i: nat)
    requires i < |records|
  {
    exists j :: 0 <= j < i && DeadlinesDiffer(records[j], records[i])
  }

  function Flaw(design: Design, records: seq<Record>, i: nat): Option<Failure>
    requires i < |records|
  {
    if !ValidRecord(design, records[i]) then Some(RowInvalid)
    else if RepeatsSlot(records, i) then Some(DuplicateRow)
    else if ChangesDeadline(records, i) then Some(PairMismatch)
    else None
  }

  function FirstFlaw(design: Design, records: seq<Record>, i: nat): Option<Failure>
    requires i <= |records|
    decreases |records| - i
  {
    if i == |records| then None
    else if Flaw(design, records, i).Some? then Flaw(design, records, i)
    else FirstFlaw(design, records, i + 1)
  }

  function Verdict(design: Design, records: seq<Record>): Option<Failure> {
    if |records| != 2 * KeyCount(design) then Some(EvidenceIncomplete) else FirstFlaw(design, records, 0)
  }

  /** The evidence the evaluator accepts, without mention of any order of the rows. */
  ghost predicate Complete(design: Design, records: seq<Record>) {
    && |records| == 2 * KeyCount(design)
    && (forall r :: r in records ==> ValidRecord(design, r))
    && (forall r :: r in records ==> multiset(records)[r] == 1)
    && (forall r, q :: r in records && q in records && SlotOf(r) == SlotOf(q) ==> r == q)
    && (forall r, q :: r in records && q in records && r.caseOrdinal == q.caseOrdinal ==> r.deadline == q.deadline)
  }

  ghost predicate Clean(design: Design, records: seq<Record>) {
    forall i :: 0 <= i < |records| ==> Flaw(design, records, i).None?
  }

  lemma {:induction false} NoFlawFrom(design: Design, records: seq<Record>, i: nat)
    requires i <= |records|
    ensures FirstFlaw(design, records, i).None? <==>
      forall j :: i <= j < |records| ==> Flaw(design, records, j).None?
    decreases |records| - i
  {
    if i == |records| {
    } else {
      NoFlawFrom(design, records, i + 1);
    }
  }

  lemma {:induction false} DistinctMeansOnce<T>(s: seq<T>)
    ensures (forall i, j :: 0 <= i < j < |s| ==> s[i] != s[j]) <==> (forall x :: x in s ==> multiset(s)[x] == 1)
  {
    if s == [] {
    } else {
      var last, rest := s[|s| - 1], s[..|s| - 1];
      assert s == rest + [last];
      DistinctMeansOnce(rest);
      assert multiset(s) == multiset(rest) + multiset{last};
      assert forall x :: x in rest ==> x in s;
      if forall x :: x in s ==> multiset(s)[x] == 1 {
        assert last in s && multiset(rest)[last] == 0;
        assert forall x :: x in rest ==> multiset(rest)[x] == multiset(s)[x];
      }
    }
  }

  lemma CleanMeansComplete(design: Design, records: seq<Record>)
    requires Clean(design, records) && |records| == 2 * KeyCount(design)
    ensures Complete(design, records)
  {
    forall i, j | 0 <= i < j < |records|
      ensures SlotOf(records[i]) != SlotOf(records[j])
      ensures records[i].caseOrdinal == records[j].caseOrdinal ==> records[i].deadline == records[j].deadline
    {
      assert Flaw(design, records, j).None?;
    }
    DistinctMeansOnce(records);
    forall i | 0 <= i < |records| ensures ValidRecord(design, records[i]) {
      assert Flaw(design, records, i).None?;
    }
  }

  lemma CompleteMeansClean(design: Design, records: seq<Record>)
    requires Complete(design, records)
    ensures Clean(design, records)
  {
    DistinctMeansOnce(records);
    forall i | 0 <= i < |records| ensures Flaw(design, records, i).None? {
      assert records[i] in records;
      forall j | 0 <= j < i
        ensures SlotOf(records[j]) != SlotOf(records[i])
        ensures records[j].caseOrdinal == records[i].caseOrdinal ==> records[j].deadline == records[i].deadline
      {
        assert records[j] in records && records[j] != records[i];
      }
    }
  }

  /** The scan accepts exactly the complete evidence. */
  lemma AcceptedIffComplete(design: Design, records: seq<Record>)
    ensures Verdict(design, records).None? <==> Complete(design, records)
  {
    NoFlawFrom(design, records, 0);
    if Complete(design, records) {
      CompleteMeansClean(design, records);
    } else if Verdict(design, records).None? {
      CleanMeansComplete(design, records);
    }
  }

  /** A row on the grid, of one of the two arms, with a time within its deadline if it passed. */
  ghost predicate IsProper(design: Design, r: Record) {
    && (exists l :: 0 <= l < |design.lanes| && r.cacheLane == design.lanes[l])
    && 1 <= r.replicate <= design.replicates && 1 <= r.caseOrdinal <= design.cases && r.arm in {"direct", "proxy"}
    && r.wall.Finite? && r.wall.value > 0.0 && r.deadline.Finite? && r.deadline.value > 0.0
    && (r.passed ==> r.wall.value <= r.deadline.value)
  }

  /** The two rows are of different cases, lanes, replicates or arms, and rows of one case have one deadline. */
  ghost predicate GoTogether(r: Record, q: Record) {
    && (r.caseOrdinal != q.caseOrdinal || r.cacheLane != q.cacheLane || r.replicate != q.replicate || r.arm != q.arm)
    && (r.caseOrdinal == q.caseOrdinal ==> r.deadline == q.deadline)
  }

  /** Complete evidence, row by row: two rows for every key of the grid, all proper, any two of which go together. */
  lemma CompleteMeans(design: Design, records: seq<Record>)
    ensures Complete(design, records) <==>
      && |records| == 2 * (|design.lanes| * (design.replicates * design.cases))
      && (forall i :: 0 <= i < |records| ==> IsProper(design, records[i]))
      && forall i, j :: 0 <= i < j < |records| ==> GoTogether(records[i], records[j])
    ensures |records| != 2 * (|design.lanes| * (design.replicates * design.cases)) ==>
      Verdict(design, records) == Some(EvidenceIncomplete)
  {
    forall i | 0 <= i < |records| ensures IsProper(design, records[i]) <==> ValidRecord(design, records[i]) {}
    if Complete(design, records) {
      CompleteMeansClean(design, records);
      forall i, j | 0 <= i < j < |records| ensures GoTogether(records[i], records[j]) {
        assert Flaw(design, records, j).None?;
      }
    }
    if |records| == 2 * KeyCount(design) && (forall i :: 0 <= i < |records| ==> IsProper(design, records[i]))
      && forall i, j :: 0 <= i < j < |records| ==> GoTogether(records[i], records[j]) {
      forall j | 0 <= j < |records| ensures Flaw(design, records, j).None? {
        forall i | 0 <= i < j
          ensures SlotOf(records[i]) != SlotOf(records[j]) && !DeadlinesDiffer(records[i], records[j])
        {
          assert GoTogether(records[i], records[j]);
        }
      }
      CleanMeansComplete(design, records);
    }
  }

  ghost predicate IsFine(design: Design, records: seq<Record>, i: nat)
    requires i < |records|
  {
    IsProper(design, records[i]) && forall j :: 0 <= j < i ==> GoTogether(records[j], records[i])
  }

  ghost predicate SameSlot(r: Record, q: Record) {
    r.caseOrdinal == q.caseOrdinal && r.cacheLane == q.cacheLane && r.replicate == q.replicate && r.arm == q.arm
  }

  /** The failure is that of the first row that is not fine: improper, or else a repetition, or else a mismatch. */
  lemma FirstBadRowDecides(design: Design, records: seq<Record>, i: nat)
    requires |records| == 2 * KeyCount(design) && i < |records|
    requires (forall j :: 0 <= j < i ==> IsFine(design, records, j)) && !IsFine(design, records, i)
    ensures var repeated := exists j :: 0 <= j < i && SameSlot(records[j], records[i]);
      Verdict(design, records) == Some(
        if !IsProper(design, records[i]) then RowInvalid else if repeated then DuplicateRow else PairMismatch)
  {
    forall j | 0 <= j <= i ensures Flaw(design, records, j).None? <==> IsFine(design, records, j) {
      FineIff(design, records, j);
    }
    FlawsUpTo(design, records, 0, i);
    forall j | 0 <= j < i
      ensures SameSlot(records[j], records[i]) <==> SlotOf(records[j]) == SlotOf(records[i])
    {
    }
  }

  lemma FineIff(design: Design, records: seq<Record>, i: nat)
    requires i < |records|
    ensures Flaw(design, records, i).None? <==> IsFine(design, records, i)
  {
    forall j | 0 <= j < i
      ensures GoTogether(records[j], records[i]) <==>
        SlotOf(records[j]) != SlotOf(records[i]) && !DeadlinesDiffer(records[j], records[i])
    {
    }
  }

  lemma {:induction false} FlawsUpTo(design: Design, records: seq<Record>, from: nat, i: nat)
    requires from <= i < |records| && Flaw(design, records, i).Some?
    requires forall j :: from <= j < i ==> Flaw(design, records, j).None?
    ensures FirstFlaw(design, records, from) == Flaw(design, records, i)
    decreases i - from
  {
    if from == i {
    } else {
      FlawsUpTo(design, records, from + 1, i);
    }
  }

  // ----- Pigeonhole: complete evidence fills the grid -----

  /** The n-th key in the order in which the grid is walked. */
  function KeyAt(design: Design, n: nat): (key: Key)
    requires n < KeyCount(design)
  {
    var perLane := design.replicates * design.cases;
    KeyInRange(|design.lanes|, design.replicates, design.cases, n);
    Key(design.lanes[n / perLane], n % perLane / design.cases + 1, n % perLane % design.cases + 1)
  }

  lemma Scaled(a: nat, b: nat, c: nat)
    requires a <= b
    ensures a * c <= b * c
  {
  }

  lemma KeyInRange(lanes: nat, replicates: nat, cases: nat, n: nat)
    requires n < lanes * (replicates * cases)
    ensures cases > 0 && replicates * cases > 0 && n / (replicates * cases) < lanes
  {
    assert lanes * 0 == 0;
    assert replicates * cases > 0;
    DivisionBound(lanes, replicates * cases, n);
  }

  lemma DivisionBound(a: nat, b: nat, n: nat)
    requires 0 < b && n < a * b
    ensures n / b < a
  {
    if n / b >= a {
      Scaled(a, n / b, b);
    }
  }

  lemma DivisionOf(a: nat, b: nat, c: nat)
    requires c < b
    ensures (a * b + c) / b == a && (a * b + c) % b == c
  {
    var q, m := (a * b + c) / b, (a * b + c) % b;
    assert b * q + m == a * b + c;
    if q < a {
      Scaled(q + 1, a, b);
    } else if q > a {
      Scaled(a + 1, q, b);
    }
  }

  /** The position of a key in the walk. */
  lemma KeyPosition(design: Design, lane: nat, replicate: int, ordinal: int) returns (n: nat)
    requires lane < |design.lanes| && 1 <= replicate <= design.replicates && 1 <= ordinal <= design.cases
    ensures n == lane * (design.replicates * design.cases) + ((replicate - 1) * design.cases + (ordinal - 1))
    ensures n < KeyCount(design) && KeyAt(design, n) == Key(design.lanes[lane], replicate, ordinal)
  {
    var cases, perLane := design.cases, design.replicates * design.cases;
    var inLane := (replicate - 1) * cases + (ordinal - 1);
    assert inLane < replicate * cases <= perLane by {
      Scaled(replicate, design.replicates, cases);
    }
    assert lane * perLane + inLane < (lane + 1) * perLane <= |design.lanes| * perLane by {
      Scaled(lane + 1, |design.lanes|, perLane);
    }
    DivisionOf(lane, perLane, inLane);
    DivisionOf(replicate - 1, cases, ordinal - 1);
    n := lane * perLane + inLane;
  }

  function SlotAt(design: Design, n: nat): Slot
    requires n < 2 * KeyCount(design)
  {
    Slot(KeyAt(design, n / 2), if n % 2 == 0 then DIRECT else PROXY)
  }

  function SlotsUpTo(design: Design, n: nat): (slots: set<Slot>)
    requires n <= 2 * KeyCount(design)
    ensures |slots| <= n
    ensures forall i :: 0 <= i < n ==> SlotAt(design, i) in slots
  {
    if n == 0 then {} else SlotsUpTo(design, n - 1) + {SlotAt(design, n - 1)}
  }

  ghost function SlotsSeen(records: seq<Record>): set<Slot> {
    set r | r in records :: SlotOf(r)
  }

  lemma {:induction false} DistinctSlotsCount(records: seq<Record>)
    requires forall i, j :: 0 <= i < j < |records| ==> SlotOf(records[i]) != SlotOf(records[j])
    ensures |SlotsSeen(records)| == |records|
  {
    if records == [] {
    } else {
      var last, rest := records[|records| - 1], records[..|records| - 1];
      DistinctSlotsCount(rest);
      assert records == rest + [last];
      assert SlotsSeen(records) == SlotsSeen(rest) + {SlotOf(last)};
      assert SlotOf(last) !in SlotsSeen(rest);
    }
  }

  lemma ValidSlotOnGrid(design: Design, r: Record)
    requires ValidRecord(design, r)
    ensures SlotOf(r) in SlotsUpTo(design, 2 * KeyCount(design))
  {
    var lane :| 0 <= lane < |design.lanes| && design.lanes[lane] == r.cacheLane;
    var n := KeyPosition(design, lane, r.replicate, r.caseOrdinal);
    DivisionOf(n, 2, if r.arm == DIRECT then 0 else 1);
    assert SlotAt(design, n * 2 + if r.arm == DIRECT then 0 else 1) == SlotOf(r);
  }

  /** No duplicate slot and the right count: so no slot of the grid can be missing. */
  lemma GridIsFull(design: Design, records: seq<Record>, n: nat)
    requires Clean(design, records) && |records| == 2 * KeyCount(design) && n < |records|
    ensures SlotAt(design, n) in SlotsSeen(records)
  {
    var grid := SlotsUpTo(design, |records|);
    forall i, j | 0 <= i < j < |records| ensures SlotOf(records[i]) != SlotOf(records[j]) {
      assert Flaw(design, records, j).None?;
    }
    DistinctSlotsCount(records);
    forall i | 0 <= i < |records| ensures SlotOf(records[i]) in grid {
      assert Flaw(design, records, i).None?;
      ValidSlotOnGrid(design, records[i]);
    }
    FullSubset(SlotsSeen(records), grid);
  }

  // ----- The pairing itself -----

  /** The row is that of the slot, and the outcome repeats what it says. */
  ghost predicate Holds(r: Record, slot: Slot, outcome: Outcome) {
    && r.cacheLane == slot.key.lane && r.replicate == slot.key.replicate && r.caseOrdinal == slot.key.ordinal
    && r.arm == slot.arm && outcome.passed == r.passed && outcome.critical == r.critical
    && r.wall == Finite(outcome.wall) && r.deadline == Finite(outcome.deadline)
    && outcome.wall > 0.0 && outcome.deadline > 0.0
  }

  /** Some row fills the slot with this outcome. */
  ghost predicate Fills(records: seq<Record>, slot: Slot, outcome: Outcome) {
    exists r :: r in records && Holds(r, slot, outcome)
  }

  ghost predicate PairsUp(design: Design, records: seq<Record>, entry: Entry, n: nat)
    requires n < KeyCount(design)
  {
    && entry.key == KeyAt(design, n)
    && Fills(records, Slot(entry.key, DIRECT), entry.pair.direct)
    && Fills(records, Slot(entry.key, PROXY), entry.pair.proxy)
    && entry.pair.direct.deadline == entry.pair.proxy.deadline
  }

  /** One entry for every key of the grid, in grid order, holding the two rows of that key. */
  ghost predicate Paired(design: Design, records: seq<Record>, entries: seq<Entry>) {
    && |entries| == KeyCount(design)
    && (forall n :: 0 <= n < |entries| ==> PairsUp(design, records, entries[n], n))
  }

  /** The rows scanned so far, filed by slot, and the deadline first seen for every case. */
  ghost predicate Filed(records: seq<Record>, raw: map<Slot, Record>, deadlines: map<int, Number>) {
    FiledBySlot(records, raw) && FiledByCase(records, deadlines)
  }

  ghost predicate FiledBySlot(records: seq<Record>, raw: map<Slot, Record>) {
    && (forall j :: 0 <= j < |records| ==> SlotOf(records[j]) in raw && raw[SlotOf(records[j])] == records[j])
    && (forall s :: s in raw ==> raw[s] in records && SlotOf(raw[s]) == s)
  }

  ghost predicate FiledByCase(records: seq<Record>, deadlines: map<int, Number>) {
    && (forall j :: 0 <= j < |records| ==>
          records[j].caseOrdinal in deadlines && deadlines[records[j].caseOrdinal] == records[j].deadline)
    && (forall o :: o in deadlines ==> exists j :: 0 <= j < |records| && records[j].caseOrdinal == o)
  }

  lemma SlotOneMore(records: seq<Record>, r: Record, raw: map<Slot, Record>)
    requires FiledBySlot(records, raw) && SlotOf(r) !in raw
    ensures FiledBySlot(records + [r], raw[SlotOf(r) := r])
  {
  }

  lemma CaseOneMore(records: seq<Record>, r: Record, deadlines: map<int, Number>, deadlines': map<int, Number>)
    requires FiledByCase(records, deadlines)
    requires deadlines' == if r.caseOrdinal in deadlines then deadlines else deadlines[r.caseOrdinal := r.deadline]
    requires deadlines'[r.caseOrdinal] == r.deadline
    ensures FiledByCase(records + [r], deadlines')
  {
    var longer := records + [r];
    forall o | o in deadlines' ensures exists j :: 0 <= j < |longer| && longer[j].caseOrdinal == o {
      if o in deadlines {
        var j :| 0 <= j < |records| && records[j].caseOrdinal == o;
        assert longer[j].caseOrdinal == o;
      } else {
        assert longer[|records|].caseOrdinal == o;
      }
    }
  }

  lemma FiledOneMore(
    records: seq<Record>, r: Record, raw: map<Slot, Record>, deadlines: map<int, Number>, deadlines': map<int, Number>)
    requires Filed(records, raw, deadlines) && SlotOf(r) !in raw
    requires deadlines' == if r.caseOrdinal in deadlines then deadlines else deadlines[r.caseOrdinal := r.deadline]
    requires deadlines'[r.caseOrdinal] == r.deadline
    ensures Filed(records + [r], raw[SlotOf(r) := r], deadlines')
  {
    SlotOneMore(records, r, raw);
    CaseOneMore(records, r, deadlines, deadlines');
  }

  lemma SlotIsFiled(
    design: Design, records: seq<Record>, raw: map<Slot, Record>, deadlines: map<int, Number>, n: nat)
    requires Clean(design, records) && |records| == 2 * KeyCount(design) && Filed(records, raw, deadlines)
    requires n < |records|
    ensures var slot := SlotAt(design, n);
      && slot in raw && ValidRecord(design, raw[slot]) && SlotOf(raw[slot]) == slot && raw[slot] in records
      && slot.key.ordinal in deadlines && raw[slot].deadline == deadlines[slot.key.ordinal]
  {
    GridIsFull(design, records, n);
    var j :| 0 <= j < |records| && SlotOf(records[j]) == SlotAt(design, n);
    assert Flaw(design, records, j).None?;
  }

  /** The second half of the pairing finds both arms of every key, with one deadline. */
  lemma KeyIsPaired(
    design: Design, records: seq<Record>, raw: map<Slot, Record>, deadlines: map<int, Number>, n: nat)
    requires Clean(design, records) && |records| == 2 * KeyCount(design) && Filed(records, raw, deadlines)
    requires n < KeyCount(design)
    ensures var key := KeyAt(design, n);
      && Slot(key, DIRECT) in raw && Slot(key, PROXY) in raw
      && var direct, proxy := raw[Slot(key, DIRECT)], raw[Slot(key, PROXY)];
      && ValidRecord(design, direct) && ValidRecord(design, proxy) && direct.deadline == proxy.deadline
      && Fills(records, Slot(key, DIRECT), OutcomeOf(direct)) && Fills(records, Slot(key, PROXY), OutcomeOf(proxy))
  {
    SlotIsFiled(design, records, raw, deadlines, n * 2);
    SlotIsFiled(design, records, raw, deadlines, n * 2 + 1);
    DivisionOf(n, 2, 0);
    DivisionOf(n, 2, 1);
  }

  /** What is on file answers the two questions the scan asks about the next row. */
  lemma FileAnswers(
    records: seq<Record>, i: nat, raw: map<Slot, Record>, deadlines: map<int, Number>)
    requires i < |records| && Filed(records[..i], raw, deadlines)
    ensures SlotOf(records[i]) in raw <==> RepeatsSlot(records, i)
    ensures ChangesDeadline(records, i) <==>
      records[i].caseOrdinal in deadlines && deadlines[records[i].caseOrdinal] != records[i].deadline
  {
    var seen := records[..i];
    assert forall j :: 0 <= j < i ==> seen[j] == records[j];
    if SlotOf(records[i]) in raw {
      var j :| 0 <= j < |seen| && seen[j] == raw[SlotOf(records[i])];
      assert SlotOf(records[j]) == SlotOf(records[i]);
    }
    if records[i].caseOrdinal in deadlines {
      var j :| 0 <= j < |seen| && seen[j].caseOrdinal == records[i].caseOrdinal;
      assert seen[j] == records[j];
    }
  }

  /** The body of the loop over the rows: the flaw of the next row, or the row put on file. */
  method ScanRow(design: Design, records: seq<Record>, i: nat, raw: map<Slot, Record>, deadlines: map<int, Number>)
    returns (failure: Option<Failure>, raw': map<Slot, Record>, deadlines': map<int, Number>)
    requires i < |records| && Filed(records[..i], raw, deadlines)
    ensures failure == Flaw(design, records, i)
    ensures failure.None? ==> Filed(records[..i + 1], raw', deadlines')
  {
    raw', deadlines' := raw, deadlines;
    var record := records[i];
    FileAnswers(records, i, raw, deadlines);
    if !ValidRecord(design, record) {
      return Some(RowInvalid), raw', deadlines';
    }
    if SlotOf(record) in raw {
      return Some(DuplicateRow), raw', deadlines';
    }
    if record.caseOrdinal !in deadlines {
      deadlines' := deadlines[record.caseOrdinal := record.deadline];
    }
    if deadlines'[record.caseOrdinal] != record.deadline {
      return Some(PairMismatch), raw', deadlines';
    }
    FiledOneMore(records[..i], record, raw, deadlines, deadlines');
    raw' := raw[SlotOf(record) := record];
    failure := None;
    assert records[..i + 1] == records[..i] + [record];
  }

  method Scan(design: Design, records: seq<Record>)
    returns (failure: Option<Failure>, raw: map<Slot, Record>, deadlines: map<int, Number>)
    ensures failure == FirstFlaw(design, records, 0)
    ensures failure.None? ==> Filed(records, raw, deadlines)
  {
    raw, deadlines := map[], map[];
    failure := None;
    for i := 0 to |records|
      invariant FirstFlaw(design, records, 0) == FirstFlaw(design, records, i)
      invariant Filed(records[..i], raw, deadlines)
      invariant failure.None?
    {
      failure, raw, deadlines := ScanRow(design, records, i, raw, deadlines);
      if failure.Some? {
        return;
      }
    }
    assert records[..|records|] == records;
  }

  method ValidateAndPair(design: Design, records: seq<Record>) returns (result: Result<seq<Entry>, Failure>)
    ensures result.Success? <==> Verdict(design, records).None?
    ensures result.Failure? ==> Verdict(design, records) == Some(result.error)
    ensures result.Success? ==> Paired(design, records, result.value)
  {
    if |records| != 2 * KeyCount(design) {
      return Result.Failure(EvidenceIncomplete);
    }
    var failure, raw, deadlines := Scan(design, records);
    if failure.Some? {
      return Result.Failure(failure.value);
    }
    NoFlawFrom(design, records, 0);
    var entries := CollectPairs(design, records, raw, deadlines);
    return Success(entries);
  }

  /**
    Walk the grid lane by lane and replicate by replicate.  The code still checks each key
    for a missing arm and for two deadlines; neither check can fail here.
  */
  method CollectPairs(
    design: Design, ghost records: seq<Record>, raw: map<Slot, Record>, ghost deadlines: map<int, Number>)
    returns (entries: seq<Entry>)
    requires Clean(design, records) && |records| == 2 * KeyCount(design) && Filed(records, raw, deadlines)
    ensures Paired(design, records, entries)
  {
    entries := [];
    for l := 0 to |design.lanes|
      invariant |entries| == l * (design.replicates * design.cases)
      invariant PairedSoFar(design, records, entries)
    {
      entries := CollectLane(design, records, raw, deadlines, l, entries);
    }
  }

  ghost predicate PairedSoFar(design: Design, records: seq<Record>, entries: seq<Entry>) {
    |entries| <= KeyCount(design) && forall n :: 0 <= n < |entries| ==> PairsUp(design, records, entries[n], n)
  }

  method CollectLane(
    design: Design, ghost records: seq<Record>, raw: map<Slot, Record>, ghost deadlines: map<int, Number>,
    lane: nat, collected: seq<Entry>) returns (entries: seq<Entry>)
    requires Clean(design, records) && |records| == 2 * KeyCount(design) && Filed(records, raw, deadlines)
    requires lane < |design.lanes| && |collected| == lane * (design.replicates * design.cases)
    requires PairedSoFar(design, records, collected)
    ensures |entries| == |collected| + design.replicates * design.cases && PairedSoFar(design, records, entries)
  {
    entries := collected;
    for replicate := 1 to design.replicates + 1
      invariant |entries| == |collected| + (replicate - 1) * design.cases
      invariant PairedSoFar(design, records, entries)
    {
      entries := CollectReplicate(design, records, raw, deadlines, lane, replicate, entries);
    }
  }

  method CollectReplicate(
    design: Design, ghost records: seq<Record>, raw: map<Slot, Record>, ghost deadlines: map<int, Number>,
    lane: nat, replicate: nat, collected: seq<Entry>) returns (entries: seq<Entry>)
    requires Clean(design, records) && |records| == 2 * KeyCount(design) && Filed(records, raw, deadlines)
    requires lane < |design.lanes| && 1 <= replicate <= design.replicates
    requires |collected| == lane * (design.replicates * design.cases) + (replicate - 1) * design.cases
    requires PairedSoFar(design, records, collected)
    ensures |entries| == |collected| + design.cases && PairedSoFar(design, records, entries)
  {
    entries := collected;
    for ordinal := 1 to design.cases + 1
      invariant |entries| == |collected| + (ordinal - 1)
      invariant PairedSoFar(design, records, entries)
    {
      ghost var n := KeyPosition(design, lane, replicate, ordinal);
      KeyIsPaired(design, records, raw, deadlines, n);
      var key := Key(design.lanes[lane], replicate, ordinal);
      var direct, proxy := raw[Slot(key, DIRECT)], raw[Slot(key, PROXY)];
      entries := entries + [Entry(key, Pair(OutcomeOf(direct), OutcomeOf(proxy)))];
    }
  }

  // ----- The order of the rows does not matter -----

  lemma FillsOnce(design: Design, records: seq<Record>, slot: Slot, a: Outcome, b: Outcome)
    requires Complete(design, records) && Fills(records, slot, a) && Fills(records, slot, b)
    ensures a == b
  {
  }

  lemma AcceptedAlike(design: Design, records: seq<Record>, shuffled: seq<Record>)
    requires multiset(records) == multiset(shuffled)
    ensures Complete(design, records) <==> Complete(design, shuffled)
  {
    assert |records| == |multiset(records)| == |multiset(shuffled)| == |shuffled|;
    assert forall r :: r in records <==> r in multiset(records);
    assert forall r :: r in shuffled <==> r in multiset(shuffled);
  }

  /** Reordered rows are accepted alike, and pair up to the very same entries. */
  lemma PairingIgnoresOrder(
    design: Design, records: seq<Record>, shuffled: seq<Record>, entries: seq<Entry>, entries': seq<Entry>)
    requires multiset(records) == multiset(shuffled)
    ensures Verdict(design, records).None? <==> Verdict(design, shuffled).None?
    ensures Verdict(design, records).None? && Paired(design, records, entries) && Paired(design, shuffled, entries')
      ==> entries == entries'
  {
    AcceptedIffComplete(design, records);
    AcceptedIffComplete(design, shuffled);
    AcceptedAlike(design, records, shuffled);
    if Complete(design, records) && Paired(design, records, entries) && Paired(design, shuffled, entries') {
      forall n | 0 <= n < |entries| ensures entries[n] == entries'[n] {
        assert PairsUp(design, records, entries[n], n) && PairsUp(design, shuffled, entries'[n], n);
        var key := KeyAt(design, n);
        FillsOnce(design, records, Slot(key, DIRECT), entries[n].pair.direct, entries'[n].pair.direct);
        FillsOnce(design, records, Slot(key, PROXY), entries[n].pair.proxy, entries'[n].pair.proxy);
      }
    }
  }

  // ----- Which failure is reported does depend on the order -----

  /** Some order of the rows gets this failure reported. */
  ghost predicate Reachable(design: Design, records: seq<Record>, failure: Failure) {
    exists shuffled :: multiset(shuffled) == multiset(records) && Verdict(design, shuffled) == Some(failure)
  }

  predicate HasInvalid(design: Design, records: seq<Record>) {
    exists i :: 0 <= i < |records| && !ValidRecord(design, records[i])
  }

  predicate Duplicates(design: Design, a: Record, b: Record) {
    ValidRecord(design, a) && ValidRecord(design, b) && SlotOf(a) == SlotOf(b)
  }

  predicate Clashes(design: Design, a: Record, b: Record) {
    ValidRecord(design, a) && ValidRecord(design, b) && SlotOf(a) != SlotOf(b) && DeadlinesDiffer(a, b)
  }

  predicate HasDuplicate(design: Design, records: seq<Record>) {
    exists i, j :: 0 <= i < j < |records| && Duplicates(design, records[i], records[j])
  }

  predicate HasClash(design: Design, records: seq<Record>) {
    exists i, j :: 0 <= i < j < |records| && Clashes(design, records[i], records[j])
  }

  /** The rows show this kind of flaw, in whatever order they are listed. */
  predicate Shows(design: Design, records: seq<Record>, failure: Failure) {
    match failure
    case EvidenceIncomplete => |records| != 2 * KeyCount(design)
    case RowInvalid => HasInvalid(design, records)
    case DuplicateRow => HasDuplicate(design, records)
    case PairMismatch => HasClash(design, records)
  }

  lemma {:induction false} FirstFlawAt(design: Design, records: seq<Record>, i: nat) returns (k: nat)
    requires i <= |records| && FirstFlaw(design, records, i).Some?
    ensures i <= k < |records| && Flaw(design, records, k) == FirstFlaw(design, records, i)
    ensures forall j :: i <= j < k ==> Flaw(design, records, j).None?
    decreases |records| - i
  {
    if Flaw(design, records, i).Some? {
      k := i;
    } else {
      k := FirstFlawAt(design, records, i + 1);
    }
  }

  /** A reported failure is one that the rows show. */
  lemma ReportedIsShown(design: Design, records: seq<Record>)
    requires |records| == 2 * KeyCount(design) && Verdict(design, records).Some?
    ensures Shows(design, records, Verdict(design, records).value)
  {
    var k := FirstFlawAt(design, records, 0);
    if Flaw(design, records, k) == Some(DuplicateRow) {
      var j :| 0 <= j < k && SlotOf(records[j]) == SlotOf(records[k]);
      assert Flaw(design, records, j).None?;
      assert Duplicates(design, records[j], records[k]);
    } else if Flaw(design, records, k) == Some(PairMismatch) {
      var j :| 0 <= j < k && DeadlinesDiffer(records[j], records[k]);
      assert Flaw(design, records, j).None?;
      assert Clashes(design, records[j], records[k]);
    }
  }

  lemma RestAndOne<T>(s: seq<T>, i: nat)
    requires i < |s|
    ensures multiset(s) == multiset(s[..i] + s[i + 1..]) + multiset{s[i]}
  {
    assert s == s[..i] + [s[i]] + s[i + 1..];
  }

  lemma OneLess<T>(a: multiset<T>, b: multiset<T>, x: T)
    requires a + multiset{x} == b + multiset{x}
    ensures a == b
  {
    assert a == (a + multiset{x}) - multiset{x};
  }

  /** Any row can be put in front of the others, which keep their order. */
  lemma OneInFront<T>(records: seq<T>, i: nat) returns (front: seq<T>)
    requires i < |records|
    ensures multiset(front) == multiset(records) && |front| == |records|
    ensures front[0] == records[i]
    ensures forall k :: 0 <= k < i ==> front[k + 1] == records[k]
  {
    RestAndOne(records, i);
    front := [records[i]] + (records[..i] + records[i + 1..]);
  }

  /** Any two rows can be put in front, in their order. */
  lemma PairInFront<T>(records: seq<T>, i: nat, j: nat) returns (front: seq<T>)
    requires i < j < |records|
    ensures multiset(front) == multiset(records) && |front| == |records|
    ensures front[0] == records[i] && front[1] == records[j]
  {
    var once := OneInFront(records, j);
    front := OneInFront(once, i + 1);
    assert front[0 + 1] == once[0] && once[i + 1] == records[i];
  }

  lemma ShownInFrontIsReported(design: Design, front: seq<Record>)
    requires |front| == 2 * KeyCount(design) && |front| >= 2
    ensures !ValidRecord(design, front[0]) ==> Verdict(design, front) == Some(RowInvalid)
    ensures Duplicates(design, front[0], front[1]) ==> Verdict(design, front) == Some(DuplicateRow)
    ensures Clashes(design, front[0], front[1]) ==> Verdict(design, front) == Some(PairMismatch)
  {
    assert FirstFlaw(design, front, 0) ==
      if Flaw(design, front, 0).Some? then Flaw(design, front, 0) else FirstFlaw(design, front, 1);
    if Duplicates(design, front[0], front[1]) {
      assert RepeatsSlot(front, 1) && Flaw(design, front, 0).None?;
      assert Flaw(design, front, 1) == Some(DuplicateRow);
    }
    if Clashes(design, front[0], front[1]) {
      assert !RepeatsSlot(front, 1) && ChangesDeadline(front, 1) && Flaw(design, front, 0).None?;
      assert Flaw(design, front, 1) == Some(PairMismatch);
    }
  }

  lemma ShownIsReachable(design: Design, records: seq<Record>, failure: Failure)
    requires |records| == 2 * KeyCount(design) && Shows(design, records, failure)
    ensures Reachable(design, records, failure)
  {
    match failure
    case RowInvalid =>
      var i :| 0 <= i < |records| && !ValidRecord(design, records[i]);
      var front := OneInFront(records, i);
      ShownInFrontIsReported(design, front);
    case DuplicateRow =>
      var i, j :| 0 <= i < j < |records| && Duplicates(design, records[i], records[j]);
      var front := PairInFront(records, i, j);
      ShownInFrontIsReported(design, front);
    case PairMismatch =>
      var i, j :| 0 <= i < j < |records| && Clashes(design, records[i], records[j]);
      var front := PairInFront(records, i, j);
      ShownInFrontIsReported(design, front);
  }

  lemma ShownIsOrderless(design: Design, records: seq<Record>, shuffled: seq<Record>, failure: Failure)
    requires multiset(records) == multiset(shuffled) && Shows(design, records, failure)
    ensures Shows(design, shuffled, failure)
  {
    assert |records| == |multiset(records)| == |multiset(shuffled)| == |shuffled|;
    match failure
    case EvidenceIncomplete =>
    case RowInvalid =>
      var i :| 0 <= i < |records| && !ValidRecord(design, records[i]);
      assert records[i] in multiset(shuffled);
    case DuplicateRow =>
      var i, j :| 0 <= i < j < |records| && Duplicates(design, records[i], records[j]);
      var k, l := BothOccur(records, shuffled, i, j);
      assert Duplicates(design, shuffled[k], shuffled[l]);
    case PairMismatch =>
      var i, j :| 0 <= i < j < |records| && Clashes(design, records[i], records[j]);
      var k, l := BothOccur(records, shuffled, i, j);
      assert Clashes(design, shuffled[k], shuffled[l]);
  }

  /** Two rows of a list are two rows of every shuffle of it. */
  lemma BothOccur<T>(records: seq<T>, shuffled: seq<T>, i: nat, j: nat) returns (k: nat, l: nat)
    requires multiset(records) == multiset(shuffled) && i < j < |records|
    ensures k < l < |shuffled|
    ensures
      || (shuffled[k] == records[i] && shuffled[l] == records[j])
      || (shuffled[k] == records[j] && shuffled[l] == records[i])
  {
    assert records[i] in multiset(shuffled);
    var p :| 0 <= p < |shuffled| && shuffled[p] == records[i];
    RestAndOne(records, i);
    RestAndOne(shuffled, p);
    var rest := shuffled[..p] + shuffled[p + 1..];
    var others := records[..i] + records[i + 1..];
    assert others[j - 1] == records[j];
    OneLess(multiset(rest), multiset(others), records[i]);
    assert records[j] in multiset(rest);
    var q :| 0 <= q < |rest| && rest[q] == records[j];
    k, l := if q < p then q else p, if q < p then p else q + 1;
  }

  /** With the right number of rows, exactly the kinds of flaw they show can be reported. */
  lemma ReachableIff(design: Design, records: seq<Record>, failure: Failure)
    requires |records| == 2 * KeyCount(design)
    ensures Reachable(design, records, failure) <==> Shows(design, records, failure)
  {
    if Shows(design, records, failure) {
      ShownIsReachable(design, records, failure);
    }
    if Reachable(design, records, failure) {
      var shuffled :| multiset(shuffled) == multiset(records) && Verdict(design, shuffled) == Some(failure);
      assert |records| == |multiset(records)| == |multiset(shuffled)| == |shuffled|;
      ReportedIsShown(design, shuffled);
      ShownIsOrderless(design, shuffled, records, failure);
    }
  }

  ghost predicate OrderIndependent(design: Design, records: seq<Record>) {
    forall shuffled :: multiset(shuffled) == multiset(records) ==> Verdict(design, shuffled) == Verdict(design, records)
  }

  /** The rows show at most one kind of flaw. */
  predicate AtMostOneKind(design: Design, records: seq<Record>) {
    && !(HasInvalid(design, records) && HasDuplicate(design, records))
    && !(HasInvalid(design, records) && HasClash(design, records))
    && !(HasDuplicate(design, records) && HasClash(design, records))
  }

  /** The verdict is the same in every order exactly when the count is wrong or at most one kind of flaw is there. */
  lemma OrderIndependentIff(design: Design, records: seq<Record>)
    ensures OrderIndependent(design, records) <==>
      |records| != 2 * KeyCount(design) || AtMostOneKind(design, records)
  {
    if |records| != 2 * KeyCount(design) {
      forall shuffled | multiset(shuffled) == multiset(records)
        ensures Verdict(design, shuffled) == Verdict(design, records)
      {
        assert |records| == |multiset(records)| == |multiset(shuffled)| == |shuffled|;
      }
    } else if AtMostOneKind(design, records) {
      forall shuffled | multiset(shuffled) == multiset(records)
        ensures Verdict(design, shuffled) == Verdict(design, records)
      {
        SameVerdict(design, records, shuffled);
      }
    } else {
      TwoKindsTwoVerdicts(design, records);
    }
  }

  lemma SameVerdict(design: Design, records: seq<Record>, shuffled: seq<Record>)
    requires |records| == 2 * KeyCount(design) && AtMostOneKind(design, records)
    requires multiset(shuffled) == multiset(records)
    ensures Verdict(design, shuffled) == Verdict(design, records)
  {
    assert |records| == |multiset(records)| == |multiset(shuffled)| == |shuffled|;
    AcceptedIffComplete(design, records);
    AcceptedIffComplete(design, shuffled);
    AcceptedAlike(design, records, shuffled);
    if Verdict(design, records).Some? {
      ReportedIsShown(design, records);
      ReportedIsShown(design, shuffled);
      ShownIsOrderless(design, shuffled, records, Verdict(design, shuffled).value);
    }
  }

  lemma TwoKindsTwoVerdicts(design: Design, records: seq<Record>)
    requires |records| == 2 * KeyCount(design) && !AtMostOneKind(design, records)
    ensures !OrderIndependent(design, records)
  {
    ReachableIff(design, records, RowInvalid);
    ReachableIff(design, records, DuplicateRow);
    ReachableIff(design, records, PairMismatch);
  }

  /** On the fixed design of 480 rows: two copies of a valid row and 478 late ones get two different verdicts. */
  lemma ReportedFailureDependsOnOrder() returns (a: seq<Record>, b: seq<Record>)
    ensures multiset(a) == multiset(b) && |a| == 480
    ensures Verdict(V2_DESIGN, a) == Some(DuplicateRow) && Verdict(V2_DESIGN, b) == Some(RowInvalid)
  {
    var row := Record(1, "cold", 1, DIRECT, true, Finite(1.0), Finite(2.0), false);
    var late := row.(wall := Finite(3.0));
    var valid, invalid := [row, row], seq(478, _ => late);
    a, b := valid + invalid, invalid + valid;
    assert V2_DESIGN.lanes[0] == "cold";
    assert a[0] == a[1] == row && b[0] == late;
    ShownInFrontIsReported(V2_DESIGN, a);
    ShownInFrontIsReported(V2_DESIGN, b);
  }
}
