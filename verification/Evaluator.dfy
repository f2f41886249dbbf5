/**
  The v2 qualification evaluator (qualification_campaign_v2.py): summaries of matched
  pairs, the promotion gates, and what better rows do to them.
*/
module Evaluator {
  import opened Wrappers
  import opened Pairing
  import opened Statistics
  import opened Binomial
  import opened Sets

  const QUALITY_SAFETY_PPM := -50_000
  const QUALITY_BENEFIT_PPM := 100_000
  const MIN_QUALITY_REPLICATES := 3
  const TIME_POOLED_PPM := 800_000
  const TIME_LANE_PPM := 900_000
  const TIME_REPLICATE_PPM := 900_000
  const MIN_TIME_REPLICATES := 3
  const CONDITIONAL_MIN_ROWS := 22
  const CONDITIONAL_P95_PPM := 1_250_000

  // ----- What a set of pairs adds up to -----

  datatype Side = DirectSide | ProxySide

  function Of(p: Pair, side: Side): Outcome {
    if side.DirectSide? then p.direct else p.proxy
  }

  /** A valid outcome costs its wall time, any other its whole deadline. */
  function Penalized(o: Outcome): real {
    if o.passed then o.wall else o.deadline
  }

  datatype Measure = DirectValid | ProxyValid | DirectOnly | ProxyOnly | CriticalProxyOnly | BothValid

  predicate Shows(p: Pair, m: Measure) {
    match m
    case DirectValid => p.direct.passed
    case ProxyValid => p.proxy.passed
    case DirectOnly => p.direct.passed && !p.proxy.passed
    case ProxyOnly => p.proxy.passed && !p.direct.passed
    case CriticalProxyOnly => p.proxy.critical && !p.direct.critical
    case BothValid => p.direct.passed && p.proxy.passed
  }

  function One(p: Pair, m: Measure): nat {
    if Shows(p, m) then 1 else 0
  }

  function Count(pairs: seq<Pair>, m: Measure): nat {
    if pairs == [] then 0 else Count(pairs[..|pairs| - 1], m) + One(pairs[|pairs| - 1], m)
  }

  function Loss(pairs: seq<Pair>, side: Side): real {
    if pairs == [] then 0.0 else Loss(pairs[..|pairs| - 1], side) + Penalized(Of(pairs[|pairs| - 1], side))
  }

  function PenalizedWalls(pairs: seq<Pair>, side: Side): seq<real> {
    seq(|pairs|, i requires 0 <= i < |pairs| => Penalized(Of(pairs[i], side)))
  }

  /** The walls of one side over the pairs in which both sides are valid. */
  function BothValidWalls(pairs: seq<Pair>, side: Side): seq<real> {
    if pairs == [] then [] else
      BothValidWalls(pairs[..|pairs| - 1], side)
        + if Shows(pairs[|pairs| - 1], BothValid) then [Of(pairs[|pairs| - 1], side).wall] else []
  }

  datatype Percentiles = Percentiles(p50: int, p95: int, p99: int)

  datatype Summary = Summary(
    rowCount: nat,
    directValid: nat, proxyValid: nat, successDeltaPpm: int, directOnly: nat, proxyOnly: nat,
    criticalProxyOnly: nat, bothValid: nat,
    directP95: Option<int>, proxyP95: Option<int>, p95RatioPpm: Option<int>,
    directMean: int, proxyMean: int, meanRatioPpm: Option<int>,
    directPercentiles: Percentiles, proxyPercentiles: Percentiles,
    directLoss: real, proxyLoss: real)

  function PercentilesOf(walls: seq<real>): Percentiles
    requires walls != []
  {
    Percentiles(Ceiling(Percentile(walls, 500_000) * 1_000_000.0),
                Ceiling(Percentile(walls, 950_000) * 1_000_000.0),
                Ceiling(Percentile(walls, 990_000) * 1_000_000.0))
  }

  /** The counts and losses of a summary are those of the pairs it was made from. */
  ghost predicate Totals(s: Summary, pairs: seq<Pair>) {
    && s.rowCount == |pairs|
    && s.directValid == Count(pairs, DirectValid) && s.proxyValid == Count(pairs, ProxyValid)
    && s.directOnly == Count(pairs, DirectOnly) && s.proxyOnly == Count(pairs, ProxyOnly)
    && s.criticalProxyOnly == Count(pairs, CriticalProxyOnly) && s.bothValid == Count(pairs, BothValid)
    && s.directLoss == Loss(pairs, DirectSide) && s.proxyLoss == Loss(pairs, ProxySide)
  }

  ghost predicate Rounded(s: Summary, pairs: seq<Pair>)
    requires pairs != []
  {
    && s.successDeltaPpm == SignedRatePpm(Count(pairs, ProxyValid) - Count(pairs, DirectValid), |pairs|)
    && s.p95RatioPpm == RatioPpm(P95(BothValidWalls(pairs, ProxySide)), P95(BothValidWalls(pairs, DirectSide)))
    && s.directP95 == Microseconds(P95(BothValidWalls(pairs, DirectSide)))
    && s.proxyP95 == Microseconds(P95(BothValidWalls(pairs, ProxySide)))
    && s.meanRatioPpm == RatioPpm(Some(Loss(pairs, ProxySide)), Some(Loss(pairs, DirectSide)))
    && s.directMean == MeanMicroseconds(Loss(pairs, DirectSide), |pairs|)
    && s.proxyMean == MeanMicroseconds(Loss(pairs, ProxySide), |pairs|)
    && s.directPercentiles == PercentilesOf(PenalizedWalls(pairs, DirectSide))
    && s.proxyPercentiles == PercentilesOf(PenalizedWalls(pairs, ProxySide))
  }

  /** The running totals of the summary loop. */
  datatype Running = Running(
    directSuccess: nat, proxySuccess: nat, directOnly: nat, proxyOnly: nat, critical: nat,
    directLoss: real, proxyLoss: real,
    directWalls: seq<real>, proxyWalls: seq<real>, bothDirect: seq<real>, bothProxy: seq<real>)

  predicate Counted(r: Running, pairs: seq<Pair>) {
    && r.directSuccess == Count(pairs, DirectValid) && r.proxySuccess == Count(pairs, ProxyValid)
    && r.directOnly == Count(pairs, DirectOnly) && r.proxyOnly == Count(pairs, ProxyOnly)
    && r.critical == Count(pairs, CriticalProxyOnly)
  }

  predicate Timed(r: Running, pairs: seq<Pair>) {
    && r.directLoss == Loss(pairs, DirectSide) && r.proxyLoss == Loss(pairs, ProxySide)
    && r.directWalls == PenalizedWalls(pairs, DirectSide) && r.proxyWalls == PenalizedWalls(pairs, ProxySide)
    && r.bothDirect == BothValidWalls(pairs, DirectSide) && r.bothProxy == BothValidWalls(pairs, ProxySide)
  }

  method Accumulate(r: Running, p: Pair, ghost before: seq<Pair>) returns (r': Running)
    requires Counted(r, before) && Timed(r, before)
    ensures Counted(r', before + [p]) && Timed(r', before + [p])
  {
    var direct, proxy := p.direct, p.proxy;
    var directPenalized := if direct.passed then direct.wall else direct.deadline;
    var proxyPenalized := if proxy.passed then proxy.wall else proxy.deadline;
    var both := direct.passed && proxy.passed;
    r' := Running(
      r.directSuccess + if direct.passed then 1 else 0,
      r.proxySuccess + if proxy.passed then 1 else 0,
      r.directOnly + if direct.passed && !proxy.passed then 1 else 0,
      r.proxyOnly + if proxy.passed && !direct.passed then 1 else 0,
      r.critical + if proxy.critical && !direct.critical then 1 else 0,
      r.directLoss + directPenalized,
      r.proxyLoss + proxyPenalized,
      r.directWalls + [directPenalized],
      r.proxyWalls + [proxyPenalized],
      if both then r.bothDirect + [direct.wall] else r.bothDirect,
      if both then r.bothProxy + [proxy.wall] else r.bothProxy);
    assert (before + [p])[..|before|] == before;
  }

  method SummarizePairs(pairs: seq<Pair>) returns (summary: Result<Summary, Failure>)
    ensures summary.Failure? <==> pairs == []
    ensures summary.Failure? ==> summary.error == EvidenceIncomplete
    ensures summary.Success? ==> Totals(summary.value, pairs) && Rounded(summary.value, pairs)
    ensures summary.Success? ==> AddsUp(summary.value, pairs)
  {
    if pairs == [] {
      return Result.Failure(EvidenceIncomplete);
    }
    var r := Running(0, 0, 0, 0, 0, 0.0, 0.0, [], [], [], []);
    for i := 0 to |pairs|
      invariant Counted(r, pairs[..i]) && Timed(r, pairs[..i])
    {
      r := Accumulate(r, pairs[i], pairs[..i]);
      assert pairs[..i + 1] == pairs[..i] + [pairs[i]];
    }
    assert pairs[..|pairs|] == pairs;
    summary := Success(Report(r, pairs));
    TotalsAddUp(summary.value, pairs);
  }

  /** The running totals rounded for the report. */
  function Report(r: Running, pairs: seq<Pair>): (s: Summary)
    requires pairs != [] && Counted(r, pairs) && Timed(r, pairs)
    ensures Totals(s, pairs) && Rounded(s, pairs)
  {
    BothValidCount(pairs, DirectSide);
    var count := |pairs|;
    var directP95, proxyP95 := P95(r.bothDirect), P95(r.bothProxy);
    Summary(
      count,
      r.directSuccess, r.proxySuccess, SignedRatePpm(r.proxySuccess - r.directSuccess, count),
      r.directOnly, r.proxyOnly, r.critical, |r.bothDirect|,
      Microseconds(directP95), Microseconds(proxyP95), RatioPpm(proxyP95, directP95),
      MeanMicroseconds(r.directLoss, count), MeanMicroseconds(r.proxyLoss, count),
      RatioPpm(Some(r.proxyLoss), Some(r.directLoss)),
      PercentilesOf(r.directWalls), PercentilesOf(r.proxyWalls),
      r.directLoss, r.proxyLoss)
  }

  lemma {:induction false} BothValidCount(pairs: seq<Pair>, side: Side)
    ensures |BothValidWalls(pairs, side)| == Count(pairs, BothValid)
  {
    if pairs == [] {
    } else {
      BothValidCount(pairs[..|pairs| - 1], side);
    }
  }

  // ----- What the numbers of a summary mean -----

  function Showing(m: Measure): Pair -> bool {
    p => Shows(p, m)
  }

  ghost function RowsThat(pairs: seq<Pair>, m: Measure): set<int> {
    Where(pairs, Showing(m))
  }

  lemma {:induction false} CountIs(pairs: seq<Pair>, m: Measure)
    ensures Count(pairs, m) == |RowsThat(pairs, m)|
  {
    if pairs == [] {
    } else {
      var last := |pairs| - 1;
      CountIs(pairs[..last], m);
      WhereLast(pairs, Showing(m));
    }
  }

  function Total(values: seq<real>): real {
    if values == [] then 0.0 else Total(values[..|values| - 1]) + values[|values| - 1]
  }

  lemma {:induction false} LossIsTotal(pairs: seq<Pair>, side: Side)
    ensures Loss(pairs, side) == Total(PenalizedWalls(pairs, side))
  {
    if pairs == [] {
    } else {
      LossIsTotal(pairs[..|pairs| - 1], side);
      var walls := PenalizedWalls(pairs, side);
      assert walls[..|walls| - 1] == PenalizedWalls(pairs[..|pairs| - 1], side);
    }
  }

  /** The counts are numbers of rows, and a loss adds up the wall of every valid row and the deadline of every other. */
  ghost predicate AddsUp(s: Summary, pairs: seq<Pair>) {
    && s.rowCount == |pairs|
    && s.directValid == |set i | 0 <= i < |pairs| && pairs[i].direct.passed|
    && s.proxyValid == |set i | 0 <= i < |pairs| && pairs[i].proxy.passed|
    && s.directOnly == |set i | 0 <= i < |pairs| && pairs[i].direct.passed && !pairs[i].proxy.passed|
    && s.proxyOnly == |set i | 0 <= i < |pairs| && pairs[i].proxy.passed && !pairs[i].direct.passed|
    && s.criticalProxyOnly == |set i | 0 <= i < |pairs| && pairs[i].proxy.critical && !pairs[i].direct.critical|
    && s.bothValid == |set i | 0 <= i < |pairs| && pairs[i].direct.passed && pairs[i].proxy.passed|
    && s.directLoss == Total(seq(|pairs|, i requires 0 <= i < |pairs| =>
         if pairs[i].direct.passed then pairs[i].direct.wall else pairs[i].direct.deadline))
    && s.proxyLoss == Total(seq(|pairs|, i requires 0 <= i < |pairs| =>
         if pairs[i].proxy.passed then pairs[i].proxy.wall else pairs[i].proxy.deadline))
  }

  lemma ValidCountsAddUp(pairs: seq<Pair>)
    ensures Count(pairs, DirectValid) == |set i | 0 <= i < |pairs| && pairs[i].direct.passed|
    ensures Count(pairs, ProxyValid) == |set i | 0 <= i < |pairs| && pairs[i].proxy.passed|
    ensures Count(pairs, BothValid) == |set i | 0 <= i < |pairs| && pairs[i].direct.passed && pairs[i].proxy.passed|
  {
    CountIs(pairs, DirectValid);
    assert RowsThat(pairs, DirectValid) == set i | 0 <= i < |pairs| && pairs[i].direct.passed;
    CountIs(pairs, ProxyValid);
    assert RowsThat(pairs, ProxyValid) == set i | 0 <= i < |pairs| && pairs[i].proxy.passed;
    CountIs(pairs, BothValid);
    assert RowsThat(pairs, BothValid) == set i | 0 <= i < |pairs| && pairs[i].direct.passed && pairs[i].proxy.passed;
  }

  lemma OneSidedCountsAddUp(pairs: seq<Pair>)
    ensures Count(pairs, DirectOnly) == |set i | 0 <= i < |pairs| && pairs[i].direct.passed && !pairs[i].proxy.passed|
    ensures Count(pairs, ProxyOnly) == |set i | 0 <= i < |pairs| && pairs[i].proxy.passed && !pairs[i].direct.passed|
    ensures Count(pairs, CriticalProxyOnly) ==
      |set i | 0 <= i < |pairs| && pairs[i].proxy.critical && !pairs[i].direct.critical|
  {
    CountIs(pairs, DirectOnly);
    assert RowsThat(pairs, DirectOnly) ==
      set i | 0 <= i < |pairs| && pairs[i].direct.passed && !pairs[i].proxy.passed;
    CountIs(pairs, ProxyOnly);
    assert RowsThat(pairs, ProxyOnly) ==
      set i | 0 <= i < |pairs| && pairs[i].proxy.passed && !pairs[i].direct.passed;
    CountIs(pairs, CriticalProxyOnly);
    assert RowsThat(pairs, CriticalProxyOnly) ==
      set i | 0 <= i < |pairs| && pairs[i].proxy.critical && !pairs[i].direct.critical;
  }

  lemma DirectLossAddsUp(pairs: seq<Pair>)
    ensures Loss(pairs, DirectSide) == Total(seq(|pairs|, i requires 0 <= i < |pairs| =>
      if pairs[i].direct.passed then pairs[i].direct.wall else pairs[i].direct.deadline))
  {
    LossIsTotal(pairs, DirectSide);
    assert PenalizedWalls(pairs, DirectSide) == seq(|pairs|, i requires 0 <= i < |pairs| =>
      if pairs[i].direct.passed then pairs[i].direct.wall else pairs[i].direct.deadline);
  }

  lemma ProxyLossAddsUp(pairs: seq<Pair>)
    ensures Loss(pairs, ProxySide) == Total(seq(|pairs|, i requires 0 <= i < |pairs| =>
      if pairs[i].proxy.passed then pairs[i].proxy.wall else pairs[i].proxy.deadline))
  {
    LossIsTotal(pairs, ProxySide);
    assert PenalizedWalls(pairs, ProxySide) == seq(|pairs|, i requires 0 <= i < |pairs| =>
      if pairs[i].proxy.passed then pairs[i].proxy.wall else pairs[i].proxy.deadline);
  }

  lemma TotalsAddUp(s: Summary, pairs: seq<Pair>)
    requires Totals(s, pairs)
    ensures AddsUp(s, pairs)
  {
    ValidCountsAddUp(pairs);
    OneSidedCountsAddUp(pairs);
    DirectLossAddsUp(pairs);
    ProxyLossAddsUp(pairs);
  }

  predicate IsFaster(p: Pair, side: Side, mark: real, inclusive: bool) {
    && p.direct.passed && p.proxy.passed
    && (Of(p, side).wall < mark || (inclusive && Of(p, side).wall == mark))
  }

  function Faster(side: Side, mark: real, inclusive: bool): Pair -> bool {
    p => IsFaster(p, side, mark, inclusive)
  }

  /** The rows valid on both sides in which this side took less time than the mark, or as much. */
  ghost function FasterRows(pairs: seq<Pair>, side: Side, mark: real, inclusive: bool): set<int> {
    Where(pairs, Faster(side, mark, inclusive))
  }

  lemma {:induction false} FasterRowsCount(pairs: seq<Pair>, side: Side, mark: real, inclusive: bool)
    ensures CountUpTo(BothValidWalls(pairs, side), mark, inclusive) == |FasterRows(pairs, side, mark, inclusive)|
  {
    if pairs == [] {
    } else {
      var last := |pairs| - 1;
      FasterRowsCount(pairs[..last], side, mark, inclusive);
      WhereLast(pairs, Faster(side, mark, inclusive));
      assert BothValidWalls(pairs[..last], side) + [] == BothValidWalls(pairs[..last], side);
      CountOneMore(BothValidWalls(pairs[..last], side), Of(pairs[last], side).wall, mark, inclusive);
    }
  }

  /**
    The conditional 95th percentile of a side, among the rows valid on both sides: fewer of
    them took less time than belong below its place, and more took no more.
  */
  lemma ConditionalP95Is(pairs: seq<Pair>, side: Side)
    requires BothValidWalls(pairs, side) != []
    ensures var p95 := P95(BothValidWalls(pairs, side));
      var n := |set i | 0 <= i < |pairs| && pairs[i].direct.passed && pairs[i].proxy.passed|;
      && p95.Some? && n > 0
      && |FasterRows(pairs, side, p95.value, false)| <= (n - 1) * 95 / 100 < |FasterRows(pairs, side, p95.value, true)|
  {
    var walls := BothValidWalls(pairs, side);
    var p95 := P95(walls).value;
    P95IsPercentile(walls);
    PercentileIsOrderStatistic(walls, 950_000);
    SameQuotient((|walls| - 1) * 95);
    BothValidCount(pairs, side);
    ValidCountsAddUp(pairs);
    FasterRowsCount(pairs, side, p95, false);
    FasterRowsCount(pairs, side, p95, true);
  }

  // ----- Scopes: the pool, a lane, a replicate of a lane -----

  datatype Scope = Pool | InLane(lane: string) | InReplicate(lane: string, replicate: int)

  predicate Covers(scope: Scope, key: Key) {
    match scope
    case Pool => true
    case InLane(lane) => key.lane == lane
    case InReplicate(lane, replicate) => key.lane == lane && key.replicate == replicate
  }

  function Select(entries: seq<Entry>, scope: Scope): seq<Pair> {
    if entries == [] then [] else
      var last := entries[|entries| - 1];
      Select(entries[..|entries| - 1], scope) + if Covers(scope, last.key) then [last.pair] else []
  }

  lemma {:induction false} Selected(entries: seq<Entry>, scope: Scope, n: nat)
    requires n < |entries| && Covers(scope, entries[n].key)
    ensures entries[n].pair in Select(entries, scope)
  {
    if n == |entries| - 1 {
    } else {
      Selected(entries[..|entries| - 1], scope, n);
    }
  }

  // ----- The gates, as properties of the matched pairs -----

  ghost predicate DeltaGate(pairs: seq<Pair>, thresholdPpm: int) {
    DeltaAtLeast(Count(pairs, ProxyValid) - Count(pairs, DirectValid), |pairs|, thresholdPpm)
  }

  ghost predicate RatioGate(pairs: seq<Pair>, thresholdPpm: int) {
    RatioAtMost(Loss(pairs, ProxySide), Loss(pairs, DirectSide), thresholdPpm)
  }

  ghost predicate QualityPass(entries: seq<Entry>, lane: string, replicate: nat) {
    DeltaGate(Select(entries, InReplicate(lane, replicate)), 0)
  }

  ghost predicate TimePass(entries: seq<Entry>, lane: string, replicate: nat) {
    RatioGate(Select(entries, InReplicate(lane, replicate)), TIME_REPLICATE_PPM)
  }

  ghost function QualityWins(entries: seq<Entry>, lane: string, replicates: nat): nat {
    if replicates == 0 then 0 else
      QualityWins(entries, lane, replicates - 1)
        + if QualityPass(entries, lane, replicates) then 1 else 0
  }

  ghost function TimeWins(entries: seq<Entry>, lane: string, replicates: nat): nat {
    if replicates == 0 then 0 else
      TimeWins(entries, lane, replicates - 1)
        + if TimePass(entries, lane, replicates) then 1 else 0
  }

  ghost predicate LaneSafety(entries: seq<Entry>, lane: string) {
    DeltaGate(Select(entries, InLane(lane)), QUALITY_SAFETY_PPM)
  }

  ghost predicate QualitySafety(design: Design, entries: seq<Entry>) {
    && Count(Select(entries, Pool), CriticalProxyOnly) == 0
    && DeltaGate(Select(entries, Pool), QUALITY_SAFETY_PPM)
    && forall l :: 0 <= l < |design.lanes| ==> LaneSafety(entries, design.lanes[l])
  }

  ghost predicate LaneEfficacy(design: Design, entries: seq<Entry>, lane: string) {
    && DeltaGate(Select(entries, InLane(lane)), 0)
    && QualityWins(entries, lane, design.replicates) >= MIN_QUALITY_REPLICATES
  }

  ghost predicate QualityEfficacy(design: Design, entries: seq<Entry>) {
    var pool := Select(entries, Pool);
    && DeltaGate(pool, QUALITY_BENEFIT_PPM)
    && (forall l :: 0 <= l < |design.lanes| ==> LaneEfficacy(design, entries, design.lanes[l]))
    && Supports(Count(pool, ProxyOnly), Count(pool, DirectOnly), MCNEMAR_ALPHA_PPM)
  }

  ghost predicate LaneTime(design: Design, entries: seq<Entry>, lane: string) {
    && RatioGate(Select(entries, InLane(lane)), TIME_LANE_PPM)
    && TimeWins(entries, lane, design.replicates) >= MIN_TIME_REPLICATES
  }

  ghost predicate UnconditionalTime(design: Design, entries: seq<Entry>) {
    && RatioGate(Select(entries, Pool), TIME_POOLED_PPM)
    && forall l :: 0 <= l < |design.lanes| ==> LaneTime(design, entries, design.lanes[l])
  }

  ghost predicate Promotes(design: Design, entries: seq<Entry>) {
    QualitySafety(design, entries) && QualityEfficacy(design, entries) && UnconditionalTime(design, entries)
  }

  datatype Status = Unavailable | Passed | Failed

  /**
    The conditional diagnostic of a lane: unavailable with fewer than 22 rows valid on both
    sides, and else passed exactly if the 95th percentile of the proxy is at most 1.25 times
    that of the direct arm.
  */
  ghost predicate StatusFits(status: Status, pairs: seq<Pair>) {
    var n := |set i | 0 <= i < |pairs| && pairs[i].direct.passed && pairs[i].proxy.passed|;
    var direct, proxy := P95(BothValidWalls(pairs, DirectSide)), P95(BothValidWalls(pairs, ProxySide));
    && (status.Unavailable? <==> n < 22)
    && (n >= 22 ==> direct.Some? && proxy.Some? && (status.Passed? <==> proxy.value * 4.0 <= direct.value * 5.0))
  }

  // ----- The evaluation -----

  datatype LaneReport = LaneReport(
    summary: Summary, replicates: seq<Summary>, qualityOk: bool, timeOk: bool, status: Status,
    qualityPasses: seq<bool>, timePasses: seq<bool>, qualityWins: nat, timeWins: nat)

  datatype Evaluation = Evaluation(
    pooled: Summary, lanes: seq<LaneReport>, mcnemar: McNemar,
    qualitySafety: bool, qualityEfficacy: bool, unconditionalTime: bool, promotionPassed: bool, conditional: Status)

  /** A design with at least one case, lane and replicate, as the fixed one has. */
  predicate Proper(design: Design) {
    design.cases > 0 && design.replicates > 0 && design.lanes != []
  }

  lemma V2DesignIsProper()
    ensures Proper(V2_DESIGN) && KeyCount(V2_DESIGN) == 240
    ensures forall i, j :: 0 <= i < j < |V2_DESIGN.lanes| ==> V2_DESIGN.lanes[i] != V2_DESIGN.lanes[j]
  {
  }

  predicate SoundOutcome(o: Outcome) {
    o.wall > 0.0 && o.deadline > 0.0 && (o.passed ==> o.wall <= o.deadline)
  }

  ghost predicate Sound(pairs: seq<Pair>) {
    forall i :: 0 <= i < |pairs| ==> SoundOutcome(pairs[i].direct) && SoundOutcome(pairs[i].proxy)
  }

  lemma {:induction false} PositiveWalls(pairs: seq<Pair>, side: Side)
    requires Sound(pairs)
    ensures forall w :: w in BothValidWalls(pairs, side) ==> w > 0.0
  {
    if pairs == [] {
    } else {
      PositiveWalls(pairs[..|pairs| - 1], side);
    }
  }

  /** With enough rows valid on both sides there is a ratio to compare, so the diagnostic cannot fail internally. */
  lemma ConditionalRatioDefined(pairs: seq<Pair>)
    requires Sound(pairs) && Count(pairs, BothValid) > 0
    ensures RatioPpm(P95(BothValidWalls(pairs, ProxySide)), P95(BothValidWalls(pairs, DirectSide))).Some?
  {
    BothValidCount(pairs, DirectSide);
    BothValidCount(pairs, ProxySide);
    var walls := BothValidWalls(pairs, DirectSide);
    PositiveWalls(pairs, DirectSide);
    P95IsPercentile(walls);
    P95IsPercentile(BothValidWalls(pairs, ProxySide));
    PercentileIsAValue(walls, 950_000);
  }

  /** The largest deadline on one side. */
  function MaxDeadline(pairs: seq<Pair>, side: Side): (m: real)
    requires pairs != []
    ensures forall i :: 0 <= i < |pairs| ==> Of(pairs[i], side).deadline <= m
    ensures exists i :: 0 <= i < |pairs| && Of(pairs[i], side).deadline == m
  {
    var last := |pairs| - 1;
    var deadline := Of(pairs[last], side).deadline;
    if last == 0 || MaxDeadline(pairs[..last], side) <= deadline then deadline else MaxDeadline(pairs[..last], side)
  }

  predicate PercentilesFit(p: Percentiles, deadline: real) {
    p.p50 <= p.p95 <= p.p99 <= Ceiling(deadline * 1_000_000.0)
  }

  lemma PenaltyWithinDeadline(pairs: seq<Pair>, side: Side)
    requires pairs != [] && Sound(pairs)
    ensures PercentilesFit(PercentilesOf(PenalizedWalls(pairs, side)), MaxDeadline(pairs, side))
  {
    var walls := PenalizedWalls(pairs, side);
    forall i | 0 <= i < |walls| ensures walls[i] <= MaxDeadline(pairs, side) {
      assert SoundOutcome(Of(pairs[i], side));
    }
    ReportedPercentilesInOrder(walls, MaxDeadline(pairs, side));
  }

  /** The percentiles of a summary never cross and never exceed the largest deadline of its pairs. */
  lemma SummaryPercentilesInOrder(pairs: seq<Pair>, s: Summary)
    requires pairs != [] && Sound(pairs) && Rounded(s, pairs)
    ensures PercentilesFit(s.directPercentiles, MaxDeadline(pairs, DirectSide))
    ensures PercentilesFit(s.proxyPercentiles, MaxDeadline(pairs, ProxySide))
  {
    PenaltyWithinDeadline(pairs, DirectSide);
    PenaltyWithinDeadline(pairs, ProxySide);
  }

  ghost predicate PercentilesCover(percentiles: Percentiles, walls: seq<real>, limit: int)
    requires walls != []
  {
    && (percentiles.p50 <= limit <==> Percentile(walls, 500_000) * 1_000_000.0 <= limit as real)
    && (percentiles.p95 <= limit <==> Percentile(walls, 950_000) * 1_000_000.0 <= limit as real)
    && (percentiles.p99 <= limit <==> Percentile(walls, 990_000) * 1_000_000.0 <= limit as real)
  }

  ghost predicate P95Covers(p95: Option<int>, walls: seq<real>, limit: int) {
    && (p95.Some? <==> walls != [])
    && (p95.Some? ==> (p95.value <= limit <==> Percentile(walls, 950_000) * 1_000_000.0 <= limit as real))
  }

  lemma ReportedPercentilesCover(walls: seq<real>, limit: int)
    requires walls != []
    ensures PercentilesCover(PercentilesOf(walls), walls, limit)
  {
    CeilingIsLeast(Percentile(walls, 500_000) * 1_000_000.0, limit);
    CeilingIsLeast(Percentile(walls, 950_000) * 1_000_000.0, limit);
    CeilingIsLeast(Percentile(walls, 990_000) * 1_000_000.0, limit);
  }

  lemma ReportedP95Covers(walls: seq<real>, limit: int)
    ensures P95Covers(Microseconds(P95(walls)), walls, limit)
  {
    P95IsPercentile(walls);
    if walls != [] {
      CeilingIsLeast(Percentile(walls, 950_000) * 1_000_000.0, limit);
    }
  }

  /** The reported rate rounds down and the reported ratio up: each is within a limit iff the exact number is. */
  lemma ReportedRatesMean(s: Summary, pairs: seq<Pair>, limit: int)
    requires pairs != [] && Totals(s, pairs) && Rounded(s, pairs)
    ensures s.successDeltaPpm >= limit <==> DeltaAtLeast(s.proxyValid - s.directValid, s.rowCount, limit)
    ensures s.directLoss > 0.0 ==>
      s.meanRatioPpm.Some? && (s.meanRatioPpm.value <= limit <==> RatioAtMost(s.proxyLoss, s.directLoss, limit))
  {
    ReportedRateMatchesGate(s.proxyValid - s.directValid, |pairs|, limit);
    if s.directLoss > 0.0 {
      ReportedRatioMatchesGate(s.proxyLoss, s.directLoss, limit);
    }
  }

  lemma MeansAreReported(s: Summary, pairs: seq<Pair>)
    requires pairs != [] && Totals(s, pairs) && Rounded(s, pairs)
    ensures s.rowCount > 0 && s.directMean == MeanMicroseconds(s.directLoss, s.rowCount)
    ensures s.proxyMean == MeanMicroseconds(s.proxyLoss, s.rowCount)
  {
  }

  ghost predicate MeanCovers(mean: int, loss: real, count: int, limit: int) {
    mean <= limit <==> loss * 1_000_000.0 <= count as real * limit as real
  }

  lemma MeanIsCovered(mean: int, loss: real, count: int, limit: int)
    requires count > 0 && mean == MeanMicroseconds(loss, count)
    ensures MeanCovers(mean, loss, count, limit)
  {
    ReportedTimesCover(loss, count, limit);
  }

  /** The reported means are those of the losses over all rows, rounded up. */
  lemma ReportedMeansCover(s: Summary, pairs: seq<Pair>)
    requires pairs != [] && Totals(s, pairs) && Rounded(s, pairs)
    ensures forall limit :: MeanCovers(s.directMean, s.directLoss, s.rowCount, limit)
    ensures forall limit :: MeanCovers(s.proxyMean, s.proxyLoss, s.rowCount, limit)
  {
    MeansAreReported(s, pairs);
    forall limit
      ensures MeanCovers(s.directMean, s.directLoss, s.rowCount, limit)
      ensures MeanCovers(s.proxyMean, s.proxyLoss, s.rowCount, limit)
    {
      MeanIsCovered(s.directMean, s.directLoss, s.rowCount, limit);
      MeanIsCovered(s.proxyMean, s.proxyLoss, s.rowCount, limit);
    }
  }

  /** The reported percentiles are those of their side, in the fewest whole microseconds that cover them. */
  lemma ReportedWallsCover(s: Summary, pairs: seq<Pair>, limit: int)
    requires pairs != [] && Rounded(s, pairs)
    ensures P95Covers(s.directP95, BothValidWalls(pairs, DirectSide), limit)
    ensures P95Covers(s.proxyP95, BothValidWalls(pairs, ProxySide), limit)
    ensures PercentilesCover(s.directPercentiles, PenalizedWalls(pairs, DirectSide), limit)
    ensures PercentilesCover(s.proxyPercentiles, PenalizedWalls(pairs, ProxySide), limit)
  {
    ReportedP95Covers(BothValidWalls(pairs, DirectSide), limit);
    ReportedP95Covers(BothValidWalls(pairs, ProxySide), limit);
    ReportedPercentilesCover(PenalizedWalls(pairs, DirectSide), limit);
    ReportedPercentilesCover(PenalizedWalls(pairs, ProxySide), limit);
  }

  predicate DeltaPasses(s: Summary, thresholdPpm: int) {
    DeltaAtLeast(s.proxyValid - s.directValid, s.rowCount, thresholdPpm)
  }

  predicate RatioPasses(s: Summary, thresholdPpm: int) {
    RatioAtMost(s.proxyLoss, s.directLoss, thresholdPpm)
  }

  /** Every lane and every replicate of a lane has pairs to summarize. */
  ghost predicate Occupied(entries: seq<Entry>, lane: string, replicates: nat) {
    && Select(entries, InLane(lane)) != []
    && forall r :: 1 <= r <= replicates ==> Select(entries, InReplicate(lane, r)) != []
  }

  ghost predicate SummaryJudged(pairs: seq<Pair>, report: LaneReport) {
    && Summarizes(report.summary, pairs)
    && report.qualityOk == DeltaGate(pairs, 0) && report.timeOk == RatioGate(pairs, TIME_LANE_PPM)
    && StatusFits(report.status, pairs)
  }

  ghost predicate QualityJudged(entries: seq<Entry>, lane: string, replicates: nat, passes: seq<bool>) {
    |passes| == replicates && forall r :: 1 <= r <= replicates ==> passes[r - 1] == QualityPass(entries, lane, r)
  }

  ghost predicate TimeJudged(entries: seq<Entry>, lane: string, replicates: nat, passes: seq<bool>) {
    |passes| == replicates && forall r :: 1 <= r <= replicates ==> passes[r - 1] == TimePass(entries, lane, r)
  }

  /** The summary is that of these pairs, exactly and as rounded for the report. */
  ghost predicate Summarizes(s: Summary, pairs: seq<Pair>) {
    pairs != [] && Totals(s, pairs) && Rounded(s, pairs)
  }

  ghost predicate ReplicatesSummarized(entries: seq<Entry>, lane: string, replicates: nat, summaries: seq<Summary>) {
    && |summaries| == replicates
    && forall r :: 1 <= r <= replicates ==> Summarizes(summaries[r - 1], Select(entries, InReplicate(lane, r)))
  }

  ghost predicate LaneJudged(design: Design, entries: seq<Entry>, lane: string, report: LaneReport) {
    && SummaryJudged(Select(entries, InLane(lane)), report)
    && ReplicatesSummarized(entries, lane, design.replicates, report.replicates)
    && QualityJudged(entries, lane, design.replicates, report.qualityPasses)
    && TimeJudged(entries, lane, design.replicates, report.timePasses)
    && report.qualityWins == QualityWins(entries, lane, design.replicates)
    && report.timeWins == TimeWins(entries, lane, design.replicates)
  }

  method JudgeLane(design: Design, entries: seq<Entry>, lane: string) returns (report: LaneReport)
    requires Occupied(entries, lane, design.replicates) && Sound(Select(entries, InLane(lane)))
    ensures LaneJudged(design, entries, lane, report)
  {
    var lanePairs := Select(entries, InLane(lane));
    var summary, qualityOk, timeOk, status := JudgeSummary(lanePairs);
    var summaries, qualityPasses, timePasses, qualityWins, timeWins :=
      JudgeReplicates(design.replicates, entries, lane);
    report := LaneReport(
      summary, summaries, qualityOk, timeOk, status, qualityPasses, timePasses, qualityWins, timeWins);
  }

  method JudgeSummary(pairs: seq<Pair>) returns (summary: Summary, qualityOk: bool, timeOk: bool, status: Status)
    requires pairs != [] && Sound(pairs)
    ensures Totals(summary, pairs) && Rounded(summary, pairs)
    ensures qualityOk == DeltaGate(pairs, 0) && timeOk == RatioGate(pairs, TIME_LANE_PPM)
    ensures StatusFits(status, pairs)
  {
    var result := SummarizePairs(pairs);
    summary := result.value;
    qualityOk, timeOk := DeltaPasses(summary, 0), RatioPasses(summary, TIME_LANE_PPM);
    ValidCountsAddUp(pairs);
    status := Unavailable;
    if summary.bothValid >= CONDITIONAL_MIN_ROWS {
      ConditionalRatioDefined(pairs);
      status := if summary.p95RatioPpm.value <= CONDITIONAL_P95_PPM then Passed else Failed;
      ConditionalRatioFits(pairs, summary.p95RatioPpm.value);
    }
  }

  lemma ConditionalRatioFits(pairs: seq<Pair>, ratioPpm: int)
    requires Sound(pairs) && Count(pairs, BothValid) > 0
    requires Some(ratioPpm) ==
      RatioPpm(P95(BothValidWalls(pairs, ProxySide)), P95(BothValidWalls(pairs, DirectSide)))
    ensures var direct, proxy := P95(BothValidWalls(pairs, DirectSide)), P95(BothValidWalls(pairs, ProxySide));
      && direct.Some? && proxy.Some?
      && (ratioPpm <= CONDITIONAL_P95_PPM <==> proxy.value * 4.0 <= direct.value * 5.0)
  {
    var direct, proxy := P95(BothValidWalls(pairs, DirectSide)), P95(BothValidWalls(pairs, ProxySide));
    ReportedRatioMatchesGate(proxy.value, direct.value, CONDITIONAL_P95_PPM);
  }

  lemma SummaryOneMore(entries: seq<Entry>, lane: string, replicates: nat, summaries: seq<Summary>, s: Summary)
    requires ReplicatesSummarized(entries, lane, replicates, summaries)
    requires Summarizes(s, Select(entries, InReplicate(lane, replicates + 1)))
    ensures ReplicatesSummarized(entries, lane, replicates + 1, summaries + [s])
  {
  }

  lemma QualityOneMore(entries: seq<Entry>, lane: string, replicates: nat, passes: seq<bool>, passed: bool)
    requires QualityJudged(entries, lane, replicates, passes) && passed == QualityPass(entries, lane, replicates + 1)
    ensures QualityJudged(entries, lane, replicates + 1, passes + [passed])
  {
  }

  lemma TimeOneMore(entries: seq<Entry>, lane: string, replicates: nat, passes: seq<bool>, passed: bool)
    requires TimeJudged(entries, lane, replicates, passes) && passed == TimePass(entries, lane, replicates + 1)
    ensures TimeJudged(entries, lane, replicates + 1, passes + [passed])
  {
  }

  /** The first replicates of the lane are summarized, judged and counted. */
  ghost predicate ReplicatesJudged(
    entries: seq<Entry>, lane: string, replicates: nat, summaries: seq<Summary>, qualityPasses: seq<bool>,
    timePasses: seq<bool>, qualityWins: nat, timeWins: nat)
  {
    && ReplicatesSummarized(entries, lane, replicates, summaries)
    && QualityJudged(entries, lane, replicates, qualityPasses) && TimeJudged(entries, lane, replicates, timePasses)
    && qualityWins == QualityWins(entries, lane, replicates) && timeWins == TimeWins(entries, lane, replicates)
  }

  lemma JudgedOneMore(
    entries: seq<Entry>, lane: string, replicates: nat, summaries: seq<Summary>, qualityPasses: seq<bool>,
    timePasses: seq<bool>, qualityWins: nat, timeWins: nat, summary: Summary, qualityPassed: bool, timePassed: bool)
    requires ReplicatesJudged(
      entries, lane, replicates, summaries, qualityPasses, timePasses, qualityWins, timeWins)
    requires Summarizes(summary, Select(entries, InReplicate(lane, replicates + 1)))
    requires qualityPassed == QualityPass(entries, lane, replicates + 1)
    requires timePassed == TimePass(entries, lane, replicates + 1)
    ensures ReplicatesJudged(
      entries, lane, replicates + 1, summaries + [summary], qualityPasses + [qualityPassed], timePasses + [timePassed],
      qualityWins + (if qualityPassed then 1 else 0), timeWins + (if timePassed then 1 else 0))
  {
    SummaryOneMore(entries, lane, replicates, summaries, summary);
    QualityOneMore(entries, lane, replicates, qualityPasses, qualityPassed);
    TimeOneMore(entries, lane, replicates, timePasses, timePassed);
  }

  method JudgeReplicates(replicates: nat, entries: seq<Entry>, lane: string)
    returns (summaries: seq<Summary>, qualityPasses: seq<bool>, timePasses: seq<bool>, qualityWins: nat, timeWins: nat)
    requires Occupied(entries, lane, replicates)
    ensures ReplicatesJudged(
      entries, lane, replicates, summaries, qualityPasses, timePasses, qualityWins, timeWins)
  {
    summaries, qualityPasses, timePasses, qualityWins, timeWins := [], [], [], 0, 0;
    for replicate := 1 to replicates + 1
      invariant ReplicatesJudged(
        entries, lane, replicate - 1, summaries, qualityPasses, timePasses, qualityWins, timeWins)
    {
      var summary, qualityPassed, timePassed := JudgeReplicate(entries, lane, replicate);
      JudgedOneMore(
        entries, lane, replicate - 1, summaries, qualityPasses, timePasses, qualityWins, timeWins, summary,
        qualityPassed, timePassed);
      summaries := summaries + [summary];
      qualityPasses, timePasses := qualityPasses + [qualityPassed], timePasses + [timePassed];
      if qualityPassed {
        qualityWins := qualityWins + 1;
      }
      if timePassed {
        timeWins := timeWins + 1;
      }
    }
  }

  method JudgeReplicate(
    entries: seq<Entry>, lane: string, replicate: nat) returns (summary: Summary, qualityPassed: bool, timePassed: bool)
    requires Select(entries, InReplicate(lane, replicate)) != []
    ensures Summarizes(summary, Select(entries, InReplicate(lane, replicate)))
    ensures qualityPassed == QualityPass(entries, lane, replicate) && timePassed == TimePass(entries, lane, replicate)
  {
    var result := SummarizePairs(Select(entries, InReplicate(lane, replicate)));
    summary := result.value;
    qualityPassed := DeltaPasses(summary, 0);
    timePassed := RatioPasses(summary, TIME_REPLICATE_PPM);
  }

  /** Some entry belongs to the replicate. */
  ghost predicate HasEntry(entries: seq<Entry>, lane: string, replicate: nat) {
    exists n :: 0 <= n < |entries| && Covers(InReplicate(lane, replicate), entries[n].key)
  }

  lemma ReplicateHasEntry(
    design: Design, records: seq<Record>, entries: seq<Entry>, l: nat, replicate: nat)
    requires Proper(design) && Paired(design, records, entries)
    requires l < |design.lanes| && 1 <= replicate <= design.replicates
    ensures HasEntry(entries, design.lanes[l], replicate)
  {
    var n := KeyPosition(design, l, replicate, 1);
    assert PairsUp(design, records, entries[n], n);
  }

  ghost predicate AllHaveEntries(entries: seq<Entry>, lane: string, replicates: nat) {
    forall r :: 1 <= r <= replicates ==> HasEntry(entries, lane, r)
  }

  lemma OccupiedByEntries(entries: seq<Entry>, lane: string, replicates: nat)
    requires replicates > 0 && AllHaveEntries(entries, lane, replicates)
    ensures Occupied(entries, lane, replicates)
  {
    forall r | 1 <= r <= replicates
      ensures Select(entries, InLane(lane)) != [] && Select(entries, InReplicate(lane, r)) != []
    {
      assert HasEntry(entries, lane, r);
      var n :| 0 <= n < |entries| && Covers(InReplicate(lane, r), entries[n].key);
      Selected(entries, InLane(lane), n);
      Selected(entries, InReplicate(lane, r), n);
    }
    assert HasEntry(entries, lane, 1);
  }

  /** Complete evidence leaves no lane and no replicate without pairs. */
  lemma LaneIsOccupied(design: Design, records: seq<Record>, entries: seq<Entry>, l: nat)
    requires Proper(design) && Paired(design, records, entries) && l < |design.lanes|
    ensures Occupied(entries, design.lanes[l], design.replicates)
  {
    forall r | 1 <= r <= design.replicates ensures HasEntry(entries, design.lanes[l], r) {
      ReplicateHasEntry(design, records, entries, l, r);
    }
    OccupiedByEntries(entries, design.lanes[l], design.replicates);
  }

  ghost predicate SoundEntries(entries: seq<Entry>) {
    forall n :: 0 <= n < |entries| ==> SoundOutcome(entries[n].pair.direct) && SoundOutcome(entries[n].pair.proxy)
  }

  lemma {:induction false} SelectIsSound(entries: seq<Entry>, scope: Scope)
    requires SoundEntries(entries)
    ensures Sound(Select(entries, scope))
  {
    if entries == [] {
    } else {
      SelectIsSound(entries[..|entries| - 1], scope);
    }
  }

  lemma PairedIsSound(design: Design, records: seq<Record>, entries: seq<Entry>)
    requires Complete(design, records) && Paired(design, records, entries)
    ensures SoundEntries(entries)
  {
    forall n | 0 <= n < |entries| ensures SoundOutcome(entries[n].pair.direct) && SoundOutcome(entries[n].pair.proxy) {
      assert PairsUp(design, records, entries[n], n);
    }
  }

  /** What the statistics rely on: sound pairs in every lane and replicate. */
  ghost predicate Ready(design: Design, entries: seq<Entry>) {
    && Proper(design) && Select(entries, Pool) != []
    && (forall l :: 0 <= l < |design.lanes| ==> Occupied(entries, design.lanes[l], design.replicates))
    && (forall l :: 0 <= l < |design.lanes| ==> Sound(Select(entries, InLane(design.lanes[l]))))
  }

  lemma PairedIsReady(design: Design, records: seq<Record>, entries: seq<Entry>)
    requires Proper(design) && Complete(design, records) && Paired(design, records, entries)
    ensures Ready(design, entries)
  {
    PairedIsSound(design, records, entries);
    forall l | 0 <= l < |design.lanes|
      ensures Occupied(entries, design.lanes[l], design.replicates) && Sound(Select(entries, InLane(design.lanes[l])))
    {
      LaneIsOccupied(design, records, entries, l);
      SelectIsSound(entries, InLane(design.lanes[l]));
    }
    PoolIsOccupied(entries, design.lanes[0]);
  }

  lemma PoolIsOccupied(entries: seq<Entry>, lane: string)
    requires Select(entries, InLane(lane)) != []
    ensures Select(entries, Pool) != []
  {
  }

  method JudgeLanes(design: Design, entries: seq<Entry>) returns (reports: seq<LaneReport>)
    requires Ready(design, entries)
    ensures ReportsFit(design, entries, reports)
  {
    reports := [];
    for l := 0 to |design.lanes|
      invariant |reports| == l
      invariant forall k :: 0 <= k < l ==> LaneJudged(design, entries, design.lanes[k], reports[k])
    {
      var report := JudgeLane(design, entries, design.lanes[l]);
      reports := reports + [report];
    }
  }

  /** The worst lane decides the conditional diagnostic, an unavailable lane before a failed one. */
  function OverallStatus(reports: seq<LaneReport>): Status {
    if exists l :: 0 <= l < |reports| && reports[l].status.Unavailable? then Unavailable
    else if exists l :: 0 <= l < |reports| && reports[l].status.Failed? then Failed
    else Passed
  }

  /** The conditional diagnostic passed if every lane did, and is unavailable if that of any lane is. */
  ghost predicate ConditionalFits(e: Evaluation) {
    && (e.conditional.Passed? <==> forall l :: 0 <= l < |e.lanes| ==> e.lanes[l].status.Passed?)
    && (e.conditional.Unavailable? <==> exists l :: 0 <= l < |e.lanes| && e.lanes[l].status.Unavailable?)
  }

  /** The numbers of the evaluation are those of the pool, of every lane, and of the exact test. */
  ghost predicate Reported(design: Design, entries: seq<Entry>, e: Evaluation) {
    var pool := Select(entries, Pool);
    && pool != [] && Totals(e.pooled, pool) && Rounded(e.pooled, pool)
    && ReportsFit(design, entries, e.lanes)
    && IsTestOf(e.mcnemar, Count(pool, ProxyOnly), Count(pool, DirectOnly))
  }

  method EvaluateQualification(design: Design, records: seq<Record>)
    returns (result: Result<Evaluation, Failure>, ghost entries: seq<Entry>)
    requires Proper(design)
    ensures result.Success? <==> Complete(design, records)
    ensures result.Failure? ==> Verdict(design, records) == Some(result.error)
    ensures result.Success? ==>
      && Paired(design, records, entries)
      && Reported(design, entries, result.value)
      && result.value.qualitySafety == QualitySafety(design, entries)
      && result.value.qualityEfficacy == QualityEfficacy(design, entries)
      && result.value.unconditionalTime == UnconditionalTime(design, entries)
      && result.value.promotionPassed == Promotes(design, entries)
    ensures result.Success? ==> ConditionalFits(result.value)
  {
    AcceptedIffComplete(design, records);
    var matched := ValidateAndPair(design, records);
    if matched.Failure? {
      return Result.Failure(matched.error), [];
    }
    entries := matched.value;
    PairedIsReady(design, records, entries);
    var evaluation := Decide(design, matched.value);
    result := Success(evaluation);
  }

  /** So it is for every summary of an evaluation: the pool, each lane and each replicate. */
  lemma EvaluatedPercentilesInOrder(design: Design, records: seq<Record>, entries: seq<Entry>, e: Evaluation)
    requires Proper(design) && Complete(design, records)
    requires Paired(design, records, entries) && Reported(design, entries, e)
    ensures ScopeFits(Select(entries, Pool), e.pooled)
    ensures forall l :: 0 <= l < |design.lanes| ==> LaneFits(entries, design.lanes[l], design.replicates, e.lanes[l])
  {
    PairedIsSound(design, records, entries);
    SelectIsSound(entries, Pool);
    SummaryPercentilesInOrder(Select(entries, Pool), e.pooled);
    forall l | 0 <= l < |design.lanes| ensures LaneFits(entries, design.lanes[l], design.replicates, e.lanes[l]) {
      assert LaneJudged(design, entries, design.lanes[l], e.lanes[l]);
      JudgedLaneFits(design, entries, design.lanes[l], e.lanes[l]);
    }
  }

  lemma JudgedLaneFits(design: Design, entries: seq<Entry>, lane: string, report: LaneReport)
    requires SoundEntries(entries) && LaneJudged(design, entries, lane, report)
    ensures LaneFits(entries, lane, design.replicates, report)
  {
    SummaryFits(entries, InLane(lane), report.summary);
    forall r | 1 <= r <= design.replicates
      ensures ScopeFits(Select(entries, InReplicate(lane, r)), report.replicates[r - 1])
    {
      SummaryFits(entries, InReplicate(lane, r), report.replicates[r - 1]);
    }
  }

  lemma SummaryFits(entries: seq<Entry>, scope: Scope, s: Summary)
    requires SoundEntries(entries) && Summarizes(s, Select(entries, scope))
    ensures ScopeFits(Select(entries, scope), s)
  {
    SelectIsSound(entries, scope);
    SummaryPercentilesInOrder(Select(entries, scope), s);
  }

  ghost predicate LaneFits(entries: seq<Entry>, lane: string, replicates: nat, report: LaneReport) {
    && ScopeFits(Select(entries, InLane(lane)), report.summary)
    && |report.replicates| == replicates
    && forall r :: 1 <= r <= replicates ==> ScopeFits(Select(entries, InReplicate(lane, r)), report.replicates[r - 1])
  }

  ghost predicate ScopeFits(pairs: seq<Pair>, s: Summary) {
    && pairs != []
    && PercentilesFit(s.directPercentiles, MaxDeadline(pairs, DirectSide))
    && PercentilesFit(s.proxyPercentiles, MaxDeadline(pairs, ProxySide))
  }

  predicate ReportSafe(report: LaneReport) {
    DeltaPasses(report.summary, QUALITY_SAFETY_PPM)
  }

  predicate ReportEffective(report: LaneReport) {
    report.qualityOk && report.qualityWins >= MIN_QUALITY_REPLICATES
  }

  predicate ReportTimely(report: LaneReport) {
    report.timeOk && report.timeWins >= MIN_TIME_REPLICATES
  }

  lemma ReportAgrees(design: Design, entries: seq<Entry>, lane: string, report: LaneReport)
    requires LaneJudged(design, entries, lane, report)
    ensures ReportSafe(report) == LaneSafety(entries, lane)
    ensures ReportEffective(report) == LaneEfficacy(design, entries, lane)
    ensures ReportTimely(report) == LaneTime(design, entries, lane)
  {
  }

  predicate ReportsSafe(pooled: Summary, reports: seq<LaneReport>) {
    && pooled.criticalProxyOnly == 0 && DeltaPasses(pooled, QUALITY_SAFETY_PPM)
    && forall l :: 0 <= l < |reports| ==> ReportSafe(reports[l])
  }

  predicate ReportsEffective(pooled: Summary, mcnemar: McNemar, reports: seq<LaneReport>) {
    && DeltaPasses(pooled, QUALITY_BENEFIT_PPM)
    && (forall l :: 0 <= l < |reports| ==> ReportEffective(reports[l]))
    && SupportsBenefit(mcnemar, MCNEMAR_ALPHA_PPM)
  }

  predicate ReportsTimely(pooled: Summary, reports: seq<LaneReport>) {
    RatioPasses(pooled, TIME_POOLED_PPM) && forall l :: 0 <= l < |reports| ==> ReportTimely(reports[l])
  }

  ghost predicate ReportsFit(design: Design, entries: seq<Entry>, reports: seq<LaneReport>) {
    && |reports| == |design.lanes|
    && forall l :: 0 <= l < |reports| ==> LaneJudged(design, entries, design.lanes[l], reports[l])
  }

  lemma SafetyAgrees(design: Design, entries: seq<Entry>, pooled: Summary, reports: seq<LaneReport>)
    requires Totals(pooled, Select(entries, Pool)) && ReportsFit(design, entries, reports)
    ensures ReportsSafe(pooled, reports) == QualitySafety(design, entries)
  {
    forall l | 0 <= l < |reports| ensures ReportSafe(reports[l]) == LaneSafety(entries, design.lanes[l]) {
      ReportAgrees(design, entries, design.lanes[l], reports[l]);
    }
  }

  lemma EfficacyAgrees(
    design: Design, entries: seq<Entry>, pooled: Summary, mcnemar: McNemar, reports: seq<LaneReport>)
    requires Totals(pooled, Select(entries, Pool)) && ReportsFit(design, entries, reports)
    requires SupportsBenefit(mcnemar, MCNEMAR_ALPHA_PPM) ==
      Supports(pooled.proxyOnly, pooled.directOnly, MCNEMAR_ALPHA_PPM)
    ensures ReportsEffective(pooled, mcnemar, reports) == QualityEfficacy(design, entries)
  {
    forall l | 0 <= l < |reports|
      ensures ReportEffective(reports[l]) == LaneEfficacy(design, entries, design.lanes[l])
    {
      ReportAgrees(design, entries, design.lanes[l], reports[l]);
    }
  }

  lemma TimeAgrees(design: Design, entries: seq<Entry>, pooled: Summary, reports: seq<LaneReport>)
    requires Totals(pooled, Select(entries, Pool)) && ReportsFit(design, entries, reports)
    ensures ReportsTimely(pooled, reports) == UnconditionalTime(design, entries)
  {
    forall l | 0 <= l < |reports| ensures ReportTimely(reports[l]) == LaneTime(design, entries, design.lanes[l]) {
      ReportAgrees(design, entries, design.lanes[l], reports[l]);
    }
  }

  method SummarizePool(pool: seq<Pair>) returns (pooled: Summary)
    requires pool != []
    ensures Totals(pooled, pool) && Rounded(pooled, pool)
  {
    var summary := SummarizePairs(pool);
    pooled := summary.value;
  }

  method DecideGates(
    design: Design, entries: seq<Entry>, pooled: Summary, mcnemar: McNemar, reports: seq<LaneReport>)
    returns (safety: bool, efficacy: bool, time: bool)
    requires Totals(pooled, Select(entries, Pool)) && ReportsFit(design, entries, reports)
    requires SupportsBenefit(mcnemar, MCNEMAR_ALPHA_PPM) ==
      Supports(pooled.proxyOnly, pooled.directOnly, MCNEMAR_ALPHA_PPM)
    ensures safety == QualitySafety(design, entries) && efficacy == QualityEfficacy(design, entries)
    ensures time == UnconditionalTime(design, entries)
  {
    safety := ReportsSafe(pooled, reports);
    efficacy := ReportsEffective(pooled, mcnemar, reports);
    time := ReportsTimely(pooled, reports);
    SafetyAgrees(design, entries, pooled, reports);
    EfficacyAgrees(design, entries, pooled, mcnemar, reports);
    TimeAgrees(design, entries, pooled, reports);
  }

  lemma OverallFits(e: Evaluation)
    requires e.conditional == OverallStatus(e.lanes)
    ensures ConditionalFits(e)
  {
  }

  method Decide(design: Design, entries: seq<Entry>) returns (e: Evaluation)
    requires Ready(design, entries)
    ensures Reported(design, entries, e)
    ensures e.qualitySafety == QualitySafety(design, entries)
    ensures e.qualityEfficacy == QualityEfficacy(design, entries)
    ensures e.unconditionalTime == UnconditionalTime(design, entries)
    ensures e.promotionPassed == Promotes(design, entries) && ConditionalFits(e)
  {
    var pooled := SummarizePool(Select(entries, Pool));
    var reports := JudgeLanes(design, entries);
    var mcnemar := ExactOneSidedMcNemar(pooled.proxyOnly, pooled.directOnly);
    var safety, efficacy, time := DecideGates(design, entries, pooled, mcnemar, reports);
    e := Evaluation(
      pooled, reports, mcnemar, safety, efficacy, time, safety && efficacy && time, OverallStatus(reports));
    OverallFits(e);
  }
}
