/**
  What the promotion gates of the v2 evaluator promise over all evidence: better proxy rows
  or worse direct rows never lose a promotion, and the pool is the sum of its parts.
*/
module Promotion {
  import opened Pairing
  import opened Statistics
  import opened Binomial
  import opened Evaluator
  import opened Sets

  // ----- What a promotion asks -----

  function CoveredAnd(scope: Scope, m: Measure): Entry -> bool {
    (e: Entry) => Covers(scope, e.key) && Evaluator.Shows(e.pair, m)
  }

  function Covered(scope: Scope): Entry -> bool {
    (e: Entry) => Covers(scope, e.key)
  }

  lemma {:induction false} SelectedCount(entries: seq<Entry>, scope: Scope, m: Measure)
    ensures Count(Select(entries, scope), m) == |Where(entries, CoveredAnd(scope, m))|
    ensures |Select(entries, scope)| == |Where(entries, Covered(scope))|
  {
    if entries == [] {
    } else {
      var last := |entries| - 1;
      var before := Select(entries[..last], scope);
      SelectedCount(entries[..last], scope, m);
      WhereLast(entries, CoveredAnd(scope, m));
      WhereLast(entries, Covered(scope));
      assert before + [] == before && (before + [entries[last].pair])[..|before|] == before;
    }
  }

  /** What the rows of a scope cost on one side: the wall of every valid row, the deadline of every other. */
  ghost function Cost(entries: seq<Entry>, scope: Scope, side: Side): real {
    if entries == [] then 0.0 else
    var last := entries[|entries| - 1];
    var o := if side.DirectSide? then last.pair.direct else last.pair.proxy;
    var cost := if !Covers(scope, last.key) then 0.0 else if o.passed then o.wall else o.deadline;
    Cost(entries[..|entries| - 1], scope, side) + cost
  }

  lemma {:induction false} SelectedCost(entries: seq<Entry>, scope: Scope, side: Side)
    ensures Loss(Select(entries, scope), side) == Cost(entries, scope, side)
  {
    if entries == [] {
    } else {
      var last := |entries| - 1;
      var before := Select(entries[..last], scope);
      SelectedCost(entries[..last], scope, side);
      assert before + [] == before && (before + [entries[last].pair])[..|before|] == before;
    }
  }

  /** In this scope the proxy passes more rows than the direct arm, by at least this share of all of them. */
  ghost predicate Leads(entries: seq<Entry>, scope: Scope, ppm: int) {
    var proxy := set n | 0 <= n < |entries| && Covers(scope, entries[n].key) && entries[n].pair.proxy.passed;
    var direct := set n | 0 <= n < |entries| && Covers(scope, entries[n].key) && entries[n].pair.direct.passed;
    var rows := set n | 0 <= n < |entries| && Covers(scope, entries[n].key);
    (|proxy| - |direct|) * 1_000_000 >= ppm * |rows|
  }

  /** In this scope the proxy costs at most this share of what the direct arm costs. */
  ghost predicate Saves(entries: seq<Entry>, scope: Scope, ppm: int) {
    Cost(entries, scope, ProxySide) * 1_000_000.0 <= Cost(entries, scope, DirectSide) * ppm as real
  }

  lemma DeltaMeans(entries: seq<Entry>, scope: Scope, ppm: int)
    ensures DeltaGate(Select(entries, scope), ppm) <==> Leads(entries, scope, ppm)
  {
    SelectedCount(entries, scope, ProxyValid);
    SelectedCount(entries, scope, DirectValid);
    var proxy := set n | 0 <= n < |entries| && Covers(scope, entries[n].key) && entries[n].pair.proxy.passed;
    var direct := set n | 0 <= n < |entries| && Covers(scope, entries[n].key) && entries[n].pair.direct.passed;
    var rows := set n | 0 <= n < |entries| && Covers(scope, entries[n].key);
    assert Where(entries, CoveredAnd(scope, ProxyValid)) == proxy;
    assert Where(entries, CoveredAnd(scope, DirectValid)) == direct;
    assert Where(entries, Covered(scope)) == rows;
  }

  lemma SameGate(pairs: seq<Pair>, proxy: real, direct: real, ppm: int)
    requires Loss(pairs, ProxySide) == proxy && Loss(pairs, DirectSide) == direct
    ensures RatioGate(pairs, ppm) <==> proxy * 1_000_000.0 <= direct * ppm as real
  {
  }

  lemma RatioMeans(entries: seq<Entry>, scope: Scope, ppm: int)
    ensures RatioGate(Select(entries, scope), ppm) <==> Saves(entries, scope, ppm)
  {
    SelectedCost(entries, scope, ProxySide);
    SelectedCost(entries, scope, DirectSide);
    SameGate(Select(entries, scope), Cost(entries, scope, ProxySide), Cost(entries, scope, DirectSide), ppm);
  }

  ghost function Winners(replicates: nat, wins: nat -> bool): set<nat> {
    set r: nat | 1 <= r <= replicates && wins(r)
  }

  lemma WinnersOneMore(replicates: nat, wins: nat -> bool)
    ensures |Winners(replicates + 1, wins)| == |Winners(replicates, wins)| + if wins(replicates + 1) then 1 else 0
  {
    var before := Winners(replicates, wins);
    assert Winners(replicates + 1, wins) == before + if wins(replicates + 1) then {replicates + 1} else {};
    assert replicates + 1 !in before;
  }

  ghost function QualityPassed(entries: seq<Entry>, lane: string): nat -> bool {
    (r: nat) => QualityPass(entries, lane, r)
  }

  ghost function TimePassed(entries: seq<Entry>, lane: string): nat -> bool {
    (r: nat) => TimePass(entries, lane, r)
  }

  lemma {:induction false} QualityWinsAre(entries: seq<Entry>, lane: string, replicates: nat)
    ensures QualityWins(entries, lane, replicates) == |Winners(replicates, QualityPassed(entries, lane))|
  {
    if replicates == 0 {
    } else {
      QualityWinsAre(entries, lane, replicates - 1);
      WinnersOneMore(replicates - 1, QualityPassed(entries, lane));
    }
  }

  lemma {:induction false} TimeWinsAre(entries: seq<Entry>, lane: string, replicates: nat)
    ensures TimeWins(entries, lane, replicates) == |Winners(replicates, TimePassed(entries, lane))|
  {
    if replicates == 0 {
    } else {
      TimeWinsAre(entries, lane, replicates - 1);
      WinnersOneMore(replicates - 1, TimePassed(entries, lane));
    }
  }

  /** In at least three replicates of the lane the proxy passes no fewer rows. */
  ghost predicate LeadsRepeatedly(entries: seq<Entry>, lane: string, replicates: nat) {
    |set r: nat | 1 <= r <= replicates && Leads(entries, InReplicate(lane, r), 0)| >= 3
  }

  ghost predicate SavesRepeatedly(entries: seq<Entry>, lane: string, replicates: nat) {
    |set r: nat | 1 <= r <= replicates && Saves(entries, InReplicate(lane, r), 900_000)| >= 3
  }

  lemma RepeatsMean(entries: seq<Entry>, lane: string, replicates: nat)
    ensures QualityWins(entries, lane, replicates) >= 3 <==> LeadsRepeatedly(entries, lane, replicates)
    ensures TimeWins(entries, lane, replicates) >= 3 <==> SavesRepeatedly(entries, lane, replicates)
  {
    QualityWinsAre(entries, lane, replicates);
    TimeWinsAre(entries, lane, replicates);
    forall r: nat | 1 <= r <= replicates
      ensures QualityPass(entries, lane, r) <==> Leads(entries, InReplicate(lane, r), 0)
      ensures TimePass(entries, lane, r) <==> Saves(entries, InReplicate(lane, r), 900_000)
    {
      DeltaMeans(entries, InReplicate(lane, r), 0);
      RatioMeans(entries, InReplicate(lane, r), 900_000);
    }
    assert (set r: nat | 1 <= r <= replicates && Leads(entries, InReplicate(lane, r), 0)) ==
      Winners(replicates, QualityPassed(entries, lane));
    assert (set r: nat | 1 <= r <= replicates && Saves(entries, InReplicate(lane, r), 900_000)) ==
      Winners(replicates, TimePassed(entries, lane));
  }

  ghost predicate NoneCritical(entries: seq<Entry>) {
    forall n :: 0 <= n < |entries| ==> entries[n].pair.proxy.critical ==> entries[n].pair.direct.critical
  }

  lemma CriticalMeans(entries: seq<Entry>)
    ensures Count(Select(entries, Pool), CriticalProxyOnly) == 0 <==> NoneCritical(entries)
  {
    var rows := Where(entries, CoveredAnd(Pool, CriticalProxyOnly));
    SelectedCount(entries, Pool, CriticalProxyOnly);
    assert rows ==
      set n | 0 <= n < |entries| && entries[n].pair.proxy.critical && !entries[n].pair.direct.critical;
    if !NoneCritical(entries) {
      var n :| 0 <= n < |entries| && entries[n].pair.proxy.critical && !entries[n].pair.direct.critical;
      assert n in rows;
    } else {
      assert rows == {};
    }
  }

  lemma ProxyOnlyMeans(entries: seq<Entry>)
    ensures Count(Select(entries, Pool), ProxyOnly) ==
      |set n | 0 <= n < |entries| && entries[n].pair.proxy.passed && !entries[n].pair.direct.passed|
  {
    SelectedCount(entries, Pool, ProxyOnly);
    assert Where(entries, CoveredAnd(Pool, ProxyOnly)) ==
      set n | 0 <= n < |entries| && entries[n].pair.proxy.passed && !entries[n].pair.direct.passed;
  }

  lemma DirectOnlyMeans(entries: seq<Entry>)
    ensures Count(Select(entries, Pool), DirectOnly) ==
      |set n | 0 <= n < |entries| && entries[n].pair.direct.passed && !entries[n].pair.proxy.passed|
  {
    SelectedCount(entries, Pool, DirectOnly);
    assert Where(entries, CoveredAnd(Pool, DirectOnly)) ==
      set n | 0 <= n < |entries| && entries[n].pair.direct.passed && !entries[n].pair.proxy.passed;
  }

  /**
    The safety gate: no row in which the proxy alone broke a critical rule, and the proxy
    behind by no more than five points, in the pool and in every lane.
  */
  lemma SafetyMeans(design: Design, entries: seq<Entry>)
    ensures QualitySafety(design, entries) <==>
      && NoneCritical(entries) && Leads(entries, Pool, -50_000)
      && forall l :: 0 <= l < |design.lanes| ==> Leads(entries, InLane(design.lanes[l]), -50_000)
  {
    CriticalMeans(entries);
    DeltaMeans(entries, Pool, -50_000);
    forall l | 0 <= l < |design.lanes|
      ensures LaneSafety(entries, design.lanes[l]) <==> Leads(entries, InLane(design.lanes[l]), -50_000)
    {
      DeltaMeans(entries, InLane(design.lanes[l]), -50_000);
    }
  }

  /**
    The efficacy gate: a lead of ten points in the pool, none behind in any lane and in at
    least three replicates of it, and the exact test at 2.5 percent.
  */
  lemma EfficacyMeans(design: Design, entries: seq<Entry>)
    ensures QualityEfficacy(design, entries) <==>
      && Leads(entries, Pool, 100_000)
      && (forall l :: 0 <= l < |design.lanes| ==>
           Leads(entries, InLane(design.lanes[l]), 0) && LeadsRepeatedly(entries, design.lanes[l], design.replicates))
      && Supports(
           |set n | 0 <= n < |entries| && entries[n].pair.proxy.passed && !entries[n].pair.direct.passed|,
           |set n | 0 <= n < |entries| && entries[n].pair.direct.passed && !entries[n].pair.proxy.passed|, 25_000)
  {
    ProxyOnlyMeans(entries);
    DirectOnlyMeans(entries);
    DeltaMeans(entries, Pool, 100_000);
    forall l | 0 <= l < |design.lanes|
      ensures LaneEfficacy(design, entries, design.lanes[l]) <==>
        Leads(entries, InLane(design.lanes[l]), 0) && LeadsRepeatedly(entries, design.lanes[l], design.replicates)
    {
      DeltaMeans(entries, InLane(design.lanes[l]), 0);
      RepeatsMean(entries, design.lanes[l], design.replicates);
    }
  }

  /** The time gate: at most 80 percent of the cost in the pool, 90 in every lane and in three replicates of it. */
  lemma TimeMeans(design: Design, entries: seq<Entry>)
    ensures UnconditionalTime(design, entries) <==>
      && Saves(entries, Pool, 800_000)
      && forall l :: 0 <= l < |design.lanes| ==>
           && Saves(entries, InLane(design.lanes[l]), 900_000)
           && SavesRepeatedly(entries, design.lanes[l], design.replicates)
  {
    RatioMeans(entries, Pool, 800_000);
    forall l | 0 <= l < |design.lanes|
      ensures LaneTime(design, entries, design.lanes[l]) <==>
        Saves(entries, InLane(design.lanes[l]), 900_000) && SavesRepeatedly(entries, design.lanes[l], design.replicates)
    {
      RatioMeans(entries, InLane(design.lanes[l]), 900_000);
      RepeatsMean(entries, design.lanes[l], design.replicates);
    }
  }

  /** The safety margins never decide a promotion: the efficacy gate asks for more, but for the critical rules. */
  lemma PromotionMeans(design: Design, entries: seq<Entry>)
    ensures Promotes(design, entries) <==>
      NoneCritical(entries) && QualityEfficacy(design, entries) && UnconditionalTime(design, entries)
  {
    SafetyMeans(design, entries);
    EfficacyMeans(design, entries);
    forall l | 0 <= l < |design.lanes| && Leads(entries, InLane(design.lanes[l]), 0)
      ensures Leads(entries, InLane(design.lanes[l]), -50_000)
    {
    }
  }

  // ----- Better evidence -----

  /** The outcome costs no more and is valid whenever the other one is. */
  predicate NoWorse(o: Outcome, o': Outcome) {
    && o'.deadline == o.deadline
    && (o.passed ==> o'.passed && o'.wall <= o.wall)
    && (o'.critical ==> o.critical)
  }

  /** The proxy does no worse and the direct arm no better. */
  predicate Favours(p: Pair, p': Pair) {
    NoWorse(p.proxy, p'.proxy) && NoWorse(p'.direct, p.direct)
  }

  ghost predicate AllFavour(pairs: seq<Pair>, pairs': seq<Pair>) {
    |pairs'| == |pairs| && forall i :: 0 <= i < |pairs| ==> Favours(pairs[i], pairs'[i])
  }

  ghost predicate EntriesFavour(entries: seq<Entry>, entries': seq<Entry>) {
    && |entries'| == |entries|
    && forall i :: 0 <= i < |entries| ==>
      entries'[i].key == entries[i].key && Favours(entries[i].pair, entries'[i].pair)
  }

  lemma {:induction false} SelectFavours(entries: seq<Entry>, entries': seq<Entry>, scope: Scope)
    requires EntriesFavour(entries, entries')
    ensures AllFavour(Select(entries, scope), Select(entries', scope))
  {
    if entries == [] {
    } else {
      SelectFavours(entries[..|entries| - 1], entries'[..|entries| - 1], scope);
    }
  }

  lemma {:induction false} CountsFavour(pairs: seq<Pair>, pairs': seq<Pair>)
    requires AllFavour(pairs, pairs')
    ensures Count(pairs, ProxyValid) <= Count(pairs', ProxyValid)
    ensures Count(pairs', DirectValid) <= Count(pairs, DirectValid)
    ensures Count(pairs, ProxyOnly) <= Count(pairs', ProxyOnly) && Count(pairs', DirectOnly) <= Count(pairs, DirectOnly)
    ensures Count(pairs', CriticalProxyOnly) <= Count(pairs, CriticalProxyOnly)
  {
    if pairs == [] {
    } else {
      var n := |pairs| - 1;
      assert Favours(pairs[n], pairs'[n]);
      CountsFavour(pairs[..n], pairs'[..n]);
    }
  }

  lemma {:induction false} LossesFavour(pairs: seq<Pair>, pairs': seq<Pair>)
    requires AllFavour(pairs, pairs') && Sound(pairs) && Sound(pairs')
    ensures Loss(pairs', ProxySide) <= Loss(pairs, ProxySide) && Loss(pairs, DirectSide) <= Loss(pairs', DirectSide)
  {
    if pairs == [] {
    } else {
      var n := |pairs| - 1;
      assert Favours(pairs[n], pairs'[n]) && SoundOutcome(pairs'[n].proxy) && SoundOutcome(pairs[n].direct);
      LossesFavour(pairs[..n], pairs'[..n]);
    }
  }

  lemma DeltaGateKept(pairs: seq<Pair>, pairs': seq<Pair>, thresholdPpm: int)
    requires AllFavour(pairs, pairs') && DeltaGate(pairs, thresholdPpm)
    ensures DeltaGate(pairs', thresholdPpm)
  {
    CountsFavour(pairs, pairs');
  }

  lemma RatioGateKept(pairs: seq<Pair>, pairs': seq<Pair>, thresholdPpm: nat)
    requires AllFavour(pairs, pairs') && Sound(pairs) && Sound(pairs') && RatioGate(pairs, thresholdPpm)
    ensures RatioGate(pairs', thresholdPpm)
  {
    LossesFavour(pairs, pairs');
    BetterRatio(
      Loss(pairs, ProxySide), Loss(pairs, DirectSide), Loss(pairs', ProxySide), Loss(pairs', DirectSide), thresholdPpm);
  }

  lemma BetterRatio(proxy: real, direct: real, proxy': real, direct': real, thresholdPpm: nat)
    requires RatioAtMost(proxy, direct, thresholdPpm) && proxy' <= proxy && direct <= direct'
    ensures RatioAtMost(proxy', direct', thresholdPpm)
  {
    ProductOrder(direct, direct', thresholdPpm as real);
  }

  lemma ProductOrder(a: real, b: real, c: real)
    requires a <= b && 0.0 <= c
    ensures a * c <= b * c
  {
    var d := b - a;
    assert b * c == a * c + d * c;
  }

  lemma ScopeGatesKept(
    entries: seq<Entry>, entries': seq<Entry>, scope: Scope, deltaPpm: int, ratioPpm: nat)
    requires EntriesFavour(entries, entries') && SoundEntries(entries) && SoundEntries(entries')
    ensures DeltaGate(Select(entries, scope), deltaPpm) ==> DeltaGate(Select(entries', scope), deltaPpm)
    ensures RatioGate(Select(entries, scope), ratioPpm) ==> RatioGate(Select(entries', scope), ratioPpm)
  {
    var pairs, pairs' := Select(entries, scope), Select(entries', scope);
    SelectFavours(entries, entries', scope);
    SelectIsSound(entries, scope);
    SelectIsSound(entries', scope);
    if DeltaGate(pairs, deltaPpm) {
      DeltaGateKept(pairs, pairs', deltaPpm);
    }
    if RatioGate(pairs, ratioPpm) {
      RatioGateKept(pairs, pairs', ratioPpm);
    }
  }

  lemma {:induction false} WinsKept(entries: seq<Entry>, entries': seq<Entry>, lane: string, replicates: nat)
    requires EntriesFavour(entries, entries') && SoundEntries(entries) && SoundEntries(entries')
    ensures QualityWins(entries, lane, replicates) <= QualityWins(entries', lane, replicates)
    ensures TimeWins(entries, lane, replicates) <= TimeWins(entries', lane, replicates)
  {
    if replicates == 0 {
    } else {
      ScopeGatesKept(entries, entries', InReplicate(lane, replicates), 0, TIME_REPLICATE_PPM);
      WinsKept(entries, entries', lane, replicates - 1);
    }
  }

  lemma LaneGatesKept(design: Design, entries: seq<Entry>, entries': seq<Entry>, lane: string)
    requires EntriesFavour(entries, entries') && SoundEntries(entries) && SoundEntries(entries')
    ensures LaneSafety(entries, lane) ==> LaneSafety(entries', lane)
    ensures LaneEfficacy(design, entries, lane) ==> LaneEfficacy(design, entries', lane)
    ensures LaneTime(design, entries, lane) ==> LaneTime(design, entries', lane)
  {
    WinsKept(entries, entries', lane, design.replicates);
    ScopeGatesKept(entries, entries', InLane(lane), QUALITY_SAFETY_PPM, TIME_LANE_PPM);
    ScopeGatesKept(entries, entries', InLane(lane), 0, TIME_LANE_PPM);
  }

  lemma PoolGatesKept(entries: seq<Entry>, entries': seq<Entry>)
    requires EntriesFavour(entries, entries') && SoundEntries(entries) && SoundEntries(entries')
    ensures var pool, pool' := Select(entries, Pool), Select(entries', Pool);
      && Count(pool', CriticalProxyOnly) <= Count(pool, CriticalProxyOnly)
      && (Supports(Count(pool, ProxyOnly), Count(pool, DirectOnly), MCNEMAR_ALPHA_PPM) ==>
          Supports(Count(pool', ProxyOnly), Count(pool', DirectOnly), MCNEMAR_ALPHA_PPM))
  {
    var pool, pool' := Select(entries, Pool), Select(entries', Pool);
    SelectFavours(entries, entries', Pool);
    CountsFavour(pool, pool');
    if Supports(Count(pool, ProxyOnly), Count(pool, DirectOnly), MCNEMAR_ALPHA_PPM) {
      SupportIsMonotone(Count(pool, ProxyOnly), Count(pool, DirectOnly),
                        Count(pool', ProxyOnly), Count(pool', DirectOnly), MCNEMAR_ALPHA_PPM);
    }
  }

  /** Pairs that favour the proxy more never lose the promotion, through every gate at every scope. */
  lemma PromotionIsMonotone(design: Design, entries: seq<Entry>, entries': seq<Entry>)
    requires EntriesFavour(entries, entries') && SoundEntries(entries) && SoundEntries(entries')
    requires Promotes(design, entries)
    ensures Promotes(design, entries')
  {
    forall l | 0 <= l < |design.lanes|
      ensures LaneSafety(entries', design.lanes[l])
      ensures LaneEfficacy(design, entries', design.lanes[l]) && LaneTime(design, entries', design.lanes[l])
    {
      LaneGatesKept(design, entries, entries', design.lanes[l]);
    }
    PoolGatesKept(entries, entries');
    ScopeGatesKept(entries, entries', Pool, QUALITY_SAFETY_PPM, TIME_POOLED_PPM);
    ScopeGatesKept(entries, entries', Pool, QUALITY_BENEFIT_PPM, TIME_POOLED_PPM);
  }

  // ----- The same, from rows to decision -----

  /** The row at the same slot, no worse for the proxy arm and no better for the direct one. */
  ghost predicate RowFavours(r: Record, r': Record) {
    && SlotOf(r') == SlotOf(r) && r'.deadline == r.deadline
    && r.wall.Finite? && r'.wall.Finite? && r.deadline.Finite?
    && if r.arm == PROXY then NoWorse(OutcomeOf(r), OutcomeOf(r')) else NoWorse(OutcomeOf(r'), OutcomeOf(r))
  }

  ghost predicate RowsFavour(design: Design, records: seq<Record>, records': seq<Record>) {
    && |records'| == |records|
    && forall i :: 0 <= i < |records| ==> ValidRecord(design, records'[i]) && RowFavours(records[i], records'[i])
  }

  lemma FavouredRowsAreAccepted(design: Design, records: seq<Record>, records': seq<Record>)
    requires Verdict(design, records).None? && RowsFavour(design, records, records')
    ensures Verdict(design, records').None?
  {
    NoFlawFrom(design, records, 0);
    forall i | 0 <= i < |records'| ensures Flaw(design, records', i).None? {
      assert Flaw(design, records, i).None?;
      assert RowFavours(records[i], records'[i]);
      forall j | 0 <= j < i
        ensures SlotOf(records'[j]) != SlotOf(records'[i])
        ensures records'[j].caseOrdinal == records'[i].caseOrdinal ==> records'[j].deadline == records'[i].deadline
      {
        assert RowFavours(records[j], records'[j]);
      }
    }
    NoFlawFrom(design, records', 0);
  }

  lemma SlotFavours(
    design: Design, records: seq<Record>, records': seq<Record>, slot: Slot, o: Outcome, o': Outcome)
    requires Complete(design, records') && RowsFavour(design, records, records')
    requires Fills(records, slot, o) && Fills(records', slot, o')
    ensures if slot.arm == PROXY then NoWorse(o, o') else NoWorse(o', o)
  {
    var r :| r in records && SlotOf(r) == slot && Positive(r.wall) && Positive(r.deadline) && OutcomeOf(r) == o;
    var i :| 0 <= i < |records| && records[i] == r;
    assert RowFavours(records[i], records'[i]);
    var r' :| r' in records' && SlotOf(r') == slot && Positive(r'.wall) && Positive(r'.deadline) && OutcomeOf(r') == o';
    assert r' == records'[i];
  }

  lemma PairingFavours(
    design: Design, records: seq<Record>, records': seq<Record>, entries: seq<Entry>, entries': seq<Entry>)
    requires Complete(design, records') && RowsFavour(design, records, records')
    requires Paired(design, records, entries) && Paired(design, records', entries')
    ensures EntriesFavour(entries, entries')
  {
    forall n | 0 <= n < |entries|
      ensures entries'[n].key == entries[n].key && Favours(entries[n].pair, entries'[n].pair)
    {
      assert PairsUp(design, records, entries[n], n) && PairsUp(design, records', entries'[n], n);
      var key, pair, pair' := entries[n].key, entries[n].pair, entries'[n].pair;
      SlotFavours(design, records, records', Slot(key, DIRECT), pair.direct, pair'.direct);
      SlotFavours(design, records, records', Slot(key, PROXY), pair.proxy, pair'.proxy);
    }
  }

  /**
    Accepted rows that promote still promote after any proxy rows become valid or faster
    and any direct rows become invalid or slower.
  */
  lemma BetterRowsStayPromoted(
    design: Design, records: seq<Record>, records': seq<Record>, entries: seq<Entry>, entries': seq<Entry>)
    requires Verdict(design, records).None? && RowsFavour(design, records, records')
    requires Paired(design, records, entries) && Paired(design, records', entries')
    ensures Verdict(design, records').None?
    ensures Promotes(design, entries) ==> Promotes(design, entries')
  {
    FavouredRowsAreAccepted(design, records, records');
    AcceptedIffComplete(design, records);
    AcceptedIffComplete(design, records');
    PairingFavours(design, records, records', entries, entries');
    PairedIsSound(design, records, entries);
    PairedIsSound(design, records', entries');
    if Promotes(design, entries) {
      PromotionIsMonotone(design, entries, entries');
    }
  }

  // ----- The pool is the sum of its lanes, and a lane of its replicates -----

  /** What one pair adds to any of the totals. */
  datatype Quantity = Tallied(measure: Measure) | Lost(side: Side)

  function Amount(p: Pair, q: Quantity): real {
    match q
    case Tallied(m) => One(p, m) as real
    case Lost(side) => Penalized(Of(p, side))
  }

  function Total(pairs: seq<Pair>, q: Quantity): real {
    match q
    case Tallied(m) => Count(pairs, m) as real
    case Lost(side) => Loss(pairs, side)
  }

  function ScopesTotal(entries: seq<Entry>, scopes: seq<Scope>, q: Quantity): real {
    if scopes == [] then 0.0
    else ScopesTotal(entries, scopes[..|scopes| - 1], q) + Total(Select(entries, scopes[|scopes| - 1]), q)
  }

  /** The number of the scopes that cover the key. */
  function Covering(scopes: seq<Scope>, key: Key): nat {
    if scopes == [] then 0
    else Covering(scopes[..|scopes| - 1], key) + if Covers(scopes[|scopes| - 1], key) then 1 else 0
  }

  /** Each key the whole covers is covered by exactly one part, and the parts cover nothing else. */
  ghost predicate Partitions(entries: seq<Entry>, whole: Scope, parts: seq<Scope>) {
    forall n :: 0 <= n < |entries| ==> Covering(parts, entries[n].key) == if Covers(whole, entries[n].key) then 1 else 0
  }

  lemma SelectOneMore(entries: seq<Entry>, scope: Scope, q: Quantity)
    requires entries != []
    ensures var n := |entries| - 1;
      Total(Select(entries, scope), q) == Total(Select(entries[..n], scope), q)
        + if Covers(scope, entries[n].key) then Amount(entries[n].pair, q) else 0.0
  {
    var n := |entries| - 1;
    var before := Select(entries[..n], scope);
    if Covers(scope, entries[n].key) {
      assert Select(entries, scope)[..|before|] == before;
    } else {
      assert Select(entries, scope) == before;
    }
  }

  lemma {:induction false} ScopesOneMore(entries: seq<Entry>, scopes: seq<Scope>, q: Quantity)
    requires entries != [] && Covering(scopes, entries[|entries| - 1].key) <= 1
    ensures var n := |entries| - 1;
      ScopesTotal(entries, scopes, q) == ScopesTotal(entries[..n], scopes, q)
        + if Covering(scopes, entries[n].key) == 1 then Amount(entries[n].pair, q) else 0.0
  {
    if scopes == [] {
    } else {
      ScopesOneMore(entries, scopes[..|scopes| - 1], q);
      SelectOneMore(entries, scopes[|scopes| - 1], q);
    }
  }

  lemma {:induction false} EmptyScopes(scopes: seq<Scope>, q: Quantity)
    ensures ScopesTotal([], scopes, q) == 0.0
  {
    if scopes == [] {
    } else {
      EmptyScopes(scopes[..|scopes| - 1], q);
    }
  }

  /** Every count and every loss of a whole is the sum over its parts. */
  lemma {:induction false} WholeIsSumOfParts(entries: seq<Entry>, whole: Scope, parts: seq<Scope>, q: Quantity)
    requires Partitions(entries, whole, parts)
    ensures Total(Select(entries, whole), q) == ScopesTotal(entries, parts, q)
  {
    if entries == [] {
      EmptyScopes(parts, q);
    } else {
      var n := |entries| - 1;
      assert entries[n] == entries[..n + 1][n];
      WholeIsSumOfParts(entries[..n], whole, parts, q);
      SelectOneMore(entries, whole, q);
      ScopesOneMore(entries, parts, q);
    }
  }

  /** A ratio threshold that every part passes, the whole passes. */
  lemma PartsPassSoWholePasses(
    entries: seq<Entry>, whole: Scope, parts: seq<Scope>, thresholdPpm: nat)
    requires Partitions(entries, whole, parts)
    requires forall i :: 0 <= i < |parts| ==> RatioGate(Select(entries, parts[i]), thresholdPpm)
    ensures RatioGate(Select(entries, whole), thresholdPpm)
  {
    WholeIsSumOfParts(entries, whole, parts, Lost(ProxySide));
    WholeIsSumOfParts(entries, whole, parts, Lost(DirectSide));
    PassingSums(entries, parts, thresholdPpm);
  }

  lemma {:induction false} PassingSums(entries: seq<Entry>, parts: seq<Scope>, thresholdPpm: nat)
    requires forall i :: 0 <= i < |parts| ==> RatioGate(Select(entries, parts[i]), thresholdPpm)
    ensures RatioAtMost(
      ScopesTotal(entries, parts, Lost(ProxySide)), ScopesTotal(entries, parts, Lost(DirectSide)), thresholdPpm)
  {
    if parts == [] {
    } else {
      PassingSums(entries, parts[..|parts| - 1], thresholdPpm);
    }
  }

  function LaneScopes(lanes: seq<string>): (scopes: seq<Scope>)
    ensures |scopes| == |lanes| && forall l :: 0 <= l < |lanes| ==> scopes[l] == InLane(lanes[l])
  {
    seq(|lanes|, l requires 0 <= l < |lanes| => InLane(lanes[l]))
  }

  function ReplicateScopes(lane: string, replicates: nat): (scopes: seq<Scope>)
    ensures |scopes| == replicates && forall r :: 0 <= r < replicates ==> scopes[r] == InReplicate(lane, r + 1)
  {
    seq(replicates, r requires 0 <= r < replicates => InReplicate(lane, r + 1))
  }

  lemma {:induction false} CoveredAtMostOnce(scopes: seq<Scope>, key: Key, at: nat)
    requires at < |scopes| && Covers(scopes[at], key)
    requires forall i :: 0 <= i < |scopes| && i != at ==> !Covers(scopes[i], key)
    ensures Covering(scopes, key) == 1
  {
    if at == |scopes| - 1 {
      NotCovered(scopes[..at], key);
    } else {
      CoveredAtMostOnce(scopes[..|scopes| - 1], key, at);
    }
  }

  lemma {:induction false} NotCovered(scopes: seq<Scope>, key: Key)
    requires forall i :: 0 <= i < |scopes| ==> !Covers(scopes[i], key)
    ensures Covering(scopes, key) == 0
  {
    if scopes == [] {
    } else {
      NotCovered(scopes[..|scopes| - 1], key);
    }
  }

  ghost predicate OnGrid(design: Design, key: Key) {
    key.lane in design.lanes && 1 <= key.replicate <= design.replicates
  }

  /** Distinct lanes split the pool, and the replicates of a lane split the lane. */
  lemma ScopesPartition(design: Design, entries: seq<Entry>, lane: string)
    requires forall i, j :: 0 <= i < j < |design.lanes| ==> design.lanes[i] != design.lanes[j]
    requires forall n :: 0 <= n < |entries| ==> OnGrid(design, entries[n].key)
    ensures Partitions(entries, Pool, LaneScopes(design.lanes))
    ensures Partitions(entries, InLane(lane), ReplicateScopes(lane, design.replicates))
  {
    forall n | 0 <= n < |entries|
      ensures Covering(LaneScopes(design.lanes), entries[n].key) == 1
      ensures Covering(ReplicateScopes(lane, design.replicates), entries[n].key)
        == if Covers(InLane(lane), entries[n].key) then 1 else 0
    {
      var key := entries[n].key;
      assert OnGrid(design, key);
      var l :| 0 <= l < |design.lanes| && design.lanes[l] == key.lane;
      CoveredAtMostOnce(LaneScopes(design.lanes), key, l);
      if key.lane == lane {
        CoveredAtMostOnce(ReplicateScopes(lane, design.replicates), key, key.replicate - 1);
      } else {
        NotCovered(ReplicateScopes(lane, design.replicates), key);
      }
    }
  }

  lemma PairedOnGrid(design: Design, records: seq<Record>, entries: seq<Entry>, n: nat)
    requires Paired(design, records, entries) && n < |entries|
    ensures OnGrid(design, entries[n].key)
  {
    assert PairsUp(design, records, entries[n], n);
    var perLane := design.replicates * design.cases;
    KeyInRange(|design.lanes|, design.replicates, design.cases, n);
    DivisionBound(design.replicates, design.cases, n % perLane);
    assert design.lanes[n / perLane] in design.lanes;
  }

  /** In paired evidence over distinct lanes, a ratio threshold that all lanes pass, the pool passes. */
  lemma LanesPassSoPoolPasses(
    design: Design, records: seq<Record>, entries: seq<Entry>, thresholdPpm: nat)
    requires Paired(design, records, entries)
    requires forall i, j :: 0 <= i < j < |design.lanes| ==> design.lanes[i] != design.lanes[j]
    requires forall l :: 0 <= l < |design.lanes| ==> RatioGate(Select(entries, InLane(design.lanes[l])), thresholdPpm)
    ensures RatioGate(Select(entries, Pool), thresholdPpm)
  {
    forall n | 0 <= n < |entries| ensures OnGrid(design, entries[n].key) {
      PairedOnGrid(design, records, entries, n);
    }
    ScopesPartition(design, entries, "");
    PartsPassSoWholePasses(entries, Pool, LaneScopes(design.lanes), thresholdPpm);
  }
}
