/**
  The greedy run-expansion check of the paired preflight (qualification_contract.py).

  The proxy may repeat an attempt, so its attempts should be those of the direct arm, each
  blown up to a run of identical fingerprints.  The check walks both lists once and never
  backtracks.  Whether a direct and a proxy fingerprint agree is the relation `matches`.
*/
module RunExpansion {
  import opened Wrappers

  datatype Failure = ContractMismatch | RunExpansionDiffered

  /** The first n values are all the same. */
  predicate Constant<P(==)>(values: seq<P>, n: nat)
    requires n <= |values|
  {
    forall k :: 0 <= k < n ==> values[k] == values[0]
  }

  /** The proxy list is one non-empty constant run per direct item, each run matching its item. */
  predicate Expansion<D, P(==)>(matches: (D, P) -> bool, direct: seq<D>, proxy: seq<P>, runs: seq<nat>)
    decreases |direct|
  {
    && |runs| == |direct|
    && if direct == [] then proxy == [] else
         && 1 <= runs[0] <= |proxy| && Constant(proxy, runs[0]) && matches(direct[0], proxy[0])
         && Expansion(matches, direct[1..], proxy[runs[0]..], runs[1..])
  }

  /** Each run goes on until the value changes or only one proxy attempt is left for each later item. */
  predicate Eager<P(==)>(proxy: seq<P>, runs: seq<nat>)
    requires Fits(proxy, runs)
    decreases |runs|
  {
    runs == [] || (
      && (runs[0] == |proxy| || proxy[runs[0]] != proxy[0] || |proxy| - runs[0] == |runs| - 1)
      && Eager(proxy[runs[0]..], runs[1..]))
  }

  predicate Fits<P>(proxy: seq<P>, runs: seq<nat>)
    decreases |runs|
  {
    runs == [] || (1 <= runs[0] <= |proxy| && Fits(proxy[runs[0]..], runs[1..]))
  }

  lemma {:induction false} ExpansionFits<D, P>(matches: (D, P) -> bool, direct: seq<D>, proxy: seq<P>, runs: seq<nat>)
    requires Expansion(matches, direct, proxy, runs)
    ensures Fits(proxy, runs) && |direct| <= |proxy|
    decreases |direct|
  {
    if direct == [] {
    } else {
      ExpansionFits(matches, direct[1..], proxy[runs[0]..], runs[1..]);
    }
  }

  /** Where the run that starts the list ends, when as many attempts must be left as items remain. */
  function RunEnd<P(==)>(proxy: seq<P>, k: nat, remaining: nat): (end: nat)
    requires 1 <= k <= |proxy| && Constant(proxy, k)
    ensures k <= end <= |proxy| && Constant(proxy, end)
    ensures end == |proxy| || proxy[end] != proxy[0] || |proxy| - end <= remaining
    ensures end == k || |proxy| - end >= remaining
    decreases |proxy| - k
  {
    if k < |proxy| && |proxy| - k > remaining && proxy[k] == proxy[0] then RunEnd(proxy, k + 1, remaining) else k
  }

  /** What the single pass decides. */
  function Greedy<D, P(==)>(matches: (D, P) -> bool, direct: seq<D>, proxy: seq<P>): Result<seq<nat>, Failure>
    decreases |direct|
  {
    if direct == [] then
      if proxy == [] then Success([]) else Result.Failure(RunExpansionDiffered)
    else if proxy == [] then Result.Failure(RunExpansionDiffered)
    else if !matches(direct[0], proxy[0]) then Result.Failure(ContractMismatch)
    else
      var run := RunEnd(proxy, 1, |direct| - 1);
      match Greedy(matches, direct[1..], proxy[run..])
      case Success(rest) => Success([run] + rest)
      case Failure(f) => Result.Failure(f)
  }

  /** A pass and what is left of it succeed together, or fail for the same reason. */
  predicate SameEnd(a: Result<seq<nat>, Failure>, b: Result<seq<nat>, Failure>) {
    (a.Success? <==> b.Success?) && (a.Failure? ==> a == b)
  }

  predicate EagerExpansion<P(==)>(proxy: seq<P>, runs: seq<nat>) {
    Fits(proxy, runs) && Eager(proxy, runs)
  }

  lemma {:induction false} GreedyIsEager<D, P>(matches: (D, P) -> bool, direct: seq<D>, proxy: seq<P>)
    requires Greedy(matches, direct, proxy).Success?
    ensures var runs := Greedy(matches, direct, proxy).value;
      Expansion(matches, direct, proxy, runs) && EagerExpansion(proxy, runs)
    decreases |direct|
  {
    if direct == [] {
    } else {
      var run := RunEnd(proxy, 1, |direct| - 1);
      GreedyIsEager(matches, direct[1..], proxy[run..]);
      var rest := Greedy(matches, direct[1..], proxy[run..]).value;
      ExpansionFits(matches, direct[1..], proxy[run..], rest);
      assert ([run] + rest)[1..] == rest;
    }
  }

  lemma {:induction false} EagerIsGreedy<D, P>(matches: (D, P) -> bool, direct: seq<D>, proxy: seq<P>, runs: seq<nat>)
    requires Expansion(matches, direct, proxy, runs) && EagerExpansion(proxy, runs)
    ensures Greedy(matches, direct, proxy) == Success(runs)
    decreases |direct|
  {
    if direct == [] {
    } else {
      ExpansionFits(matches, direct[1..], proxy[runs[0]..], runs[1..]);
      EagerRunEnds(proxy, runs[0], 1, |direct| - 1);
      EagerIsGreedy(matches, direct[1..], proxy[runs[0]..], runs[1..]);
      assert [runs[0]] + runs[1..] == runs;
    }
  }

  lemma {:induction false} EagerRunEnds<P>(proxy: seq<P>, run: nat, k: nat, remaining: nat)
    requires 1 <= k <= run <= |proxy| && Constant(proxy, run) && |proxy| - run >= remaining
    requires run == |proxy| || proxy[run] != proxy[0] || |proxy| - run == remaining
    ensures RunEnd(proxy, k, remaining) == run
    decreases run - k
  {
    if k == run {
    } else {
      EagerRunEnds(proxy, run, k + 1, remaining);
    }
  }

  /** The single pass accepts exactly when some eager expansion exists, and then finds it. */
  lemma GreedyIffEager<D, P>(matches: (D, P) -> bool, direct: seq<D>, proxy: seq<P>)
    ensures Greedy(matches, direct, proxy).Success? <==>
      exists runs :: Expansion(matches, direct, proxy, runs) && EagerExpansion(proxy, runs)
  {
    if Greedy(matches, direct, proxy).Success? {
      GreedyIsEager(matches, direct, proxy);
    }
    forall runs | Expansion(matches, direct, proxy, runs) && EagerExpansion(proxy, runs)
      ensures Greedy(matches, direct, proxy).Success?
    {
      EagerIsGreedy(matches, direct, proxy, runs);
    }
  }

  // ----- What the pass decides, in terms of the blocks of equal attempts -----

  /** Where the block of equal attempts that holds position k ends. */
  function BlockEnd<P(==)>(proxy: seq<P>, k: nat): (end: nat)
    requires k <= |proxy|
    ensures k <= end <= |proxy| && (k < |proxy| ==> k < end)
    decreases |proxy| - k
  {
    if k == |proxy| then k
    else if k + 1 < |proxy| && proxy[k + 1] == proxy[k] then BlockEnd(proxy, k + 1)
    else k + 1
  }

  /** Where the i-th block starts, or the length of the list if there are not that many blocks. */
  function BlockStart<P(==)>(proxy: seq<P>, i: nat): (start: nat)
    ensures start <= |proxy|
  {
    if i == 0 then 0 else BlockEnd(proxy, BlockStart(proxy, i - 1))
  }

  function BlocksFrom<P(==)>(proxy: seq<P>, k: nat): nat
    requires k <= |proxy|
    decreases |proxy| - k
  {
    if k == |proxy| then 0 else 1 + BlocksFrom(proxy, BlockEnd(proxy, k))
  }

  /** How many blocks of equal attempts the list has. */
  function Blocks<P(==)>(proxy: seq<P>): nat {
    BlocksFrom(proxy, 0)
  }

  /** The attempt that the i-th of n items is compared with: its block's first, unless too few would be left. */
  function Place<P(==)>(proxy: seq<P>, n: nat, i: nat): (place: nat)
    requires i <= n
    ensures n <= |proxy| ==> place <= |proxy|
  {
    if |proxy| < n then i
    else if BlockStart(proxy, i) <= i + |proxy| - n then BlockStart(proxy, i)
    else i + |proxy| - n
  }

  /** Some item disagrees with the attempt at its place. */
  predicate Mispaired<D, P(==)>(matches: (D, P) -> bool, direct: seq<D>, proxy: seq<P>) {
    MispairedFrom(matches, direct, proxy, 0)
  }

  predicate MispairedFrom<D, P(==)>(matches: (D, P) -> bool, direct: seq<D>, proxy: seq<P>, i: nat) {
    exists k :: i <= k < |direct| && Disagrees(matches, direct, proxy, k)
  }

  predicate Disagrees<D, P(==)>(matches: (D, P) -> bool, direct: seq<D>, proxy: seq<P>, i: nat)
    requires i < |direct|
  {
    var place := Place(proxy, |direct|, i);
    place < |proxy| && !matches(direct[i], proxy[place])
  }

  lemma {:induction false} BlockHolds<P>(proxy: seq<P>, k: nat, end: nat)
    requires k < end <= |proxy| && forall j :: k <= j < end ==> proxy[j] == proxy[k]
    ensures BlockEnd(proxy, k) >= end
    ensures end == |proxy| || proxy[end] != proxy[k] ==> BlockEnd(proxy, k) == end
    decreases |proxy| - k
  {
    if k + 1 == end {
    } else {
      assert proxy[k + 1] == proxy[k];
      BlockHolds(proxy, k + 1, end);
    }
  }

  lemma {:induction false} BlocksLeft<P>(proxy: seq<P>, i: nat)
    ensures BlocksFrom(proxy, BlockStart(proxy, i)) == if i <= Blocks(proxy) then Blocks(proxy) - i else 0
  {
    if i == 0 {
    } else {
      BlocksLeft(proxy, i - 1);
    }
  }

  /** One run of the pass leads from the place of an item to the place of the next. */
  lemma RunLeadsOn<P>(proxy: seq<P>, n: nat, i: nat)
    requires i < n <= |proxy|
    ensures Place(proxy, n, i) < |proxy|
    ensures Place(proxy, n, i) + RunEnd(proxy[Place(proxy, n, i)..], 1, n - i - 1) == Place(proxy, n, i + 1)
  {
    var place := Place(proxy, n, i);
    var rest := proxy[place..];
    var run := RunEnd(rest, 1, n - i - 1);
    var end := place + run;
    forall j | place <= j < end ensures proxy[j] == proxy[place] {
      assert rest[j - place] == rest[0];
    }
    assert run < |rest| ==> rest[run] == proxy[end];
    if place == BlockStart(proxy, i) {
      BlockHolds(proxy, place, end);
    }
  }

  /** What is left to decide when the pass has reached the place of an item. */
  function FromPlace<D, P(==)>(
    matches: (D, P) -> bool, direct: seq<D>, proxy: seq<P>, i: nat): Result<seq<nat>, Failure>
    requires i <= |direct| <= |proxy|
  {
    Greedy(matches, direct[i..], proxy[Place(proxy, |direct|, i)..])
  }

  lemma OneItemOn<D, P>(matches: (D, P) -> bool, direct: seq<D>, proxy: seq<P>, i: nat)
    requires i < |direct| <= |proxy|
    ensures if Disagrees(matches, direct, proxy, i)
            then FromPlace(matches, direct, proxy, i) == Result.Failure(ContractMismatch)
            else SameEnd(FromPlace(matches, direct, proxy, i), FromPlace(matches, direct, proxy, i + 1))
  {
    RunLeadsOn(proxy, |direct|, i);
    var place, next := Place(proxy, |direct|, i), Place(proxy, |direct|, i + 1);
    var items, rest := direct[i..], proxy[place..];
    assert items[0] == direct[i] && items[1..] == direct[i + 1..];
    assert rest[0] == proxy[place] && rest[next - place..] == proxy[next..];
  }

  lemma AllItemsPlaced<D, P>(matches: (D, P) -> bool, direct: seq<D>, proxy: seq<P>)
    requires |direct| <= |proxy|
    ensures FromPlace(matches, direct, proxy, |direct|) ==
      if BlockStart(proxy, |direct|) == |proxy| then Success([]) else Result.Failure(RunExpansionDiffered)
  {
    assert direct[|direct|..] == [];
  }

  lemma {:induction false} DecidedFromPlace<D, P>(matches: (D, P) -> bool, direct: seq<D>, proxy: seq<P>, i: nat)
    requires i <= |direct| <= |proxy|
    ensures if MispairedFrom(matches, direct, proxy, i)
            then FromPlace(matches, direct, proxy, i) == Result.Failure(ContractMismatch)
            else SameEnd(FromPlace(matches, direct, proxy, i), FromPlace(matches, direct, proxy, |direct|))
    decreases |direct| - i
  {
    if i == |direct| {
    } else {
      OneItemOn(matches, direct, proxy, i);
      DecidedFromPlace(matches, direct, proxy, i + 1);
    }
  }

  lemma {:induction false} GreedyOnTooFew<D, P>(matches: (D, P) -> bool, direct: seq<D>, proxy: seq<P>)
    requires |proxy| < |direct|
    ensures Greedy(matches, direct, proxy) == Result.Failure(
      if exists i :: 0 <= i < |proxy| && !matches(direct[i], proxy[i]) then ContractMismatch else RunExpansionDiffered)
    decreases |proxy|
  {
    if proxy == [] {
    } else if matches(direct[0], proxy[0]) {
      GreedyOnTooFew(matches, direct[1..], proxy[1..]);
      if i :| 0 <= i < |proxy| && !matches(direct[i], proxy[i]) {
        assert direct[1..][i - 1] == direct[i] && proxy[1..][i - 1] == proxy[i];
      }
    }
  }

  /**
    The pass accepts exactly when there are attempts enough, blocks no more than items, and
    every item agrees with the attempt at its place; any disagreement is a mismatch, and all
    else that is wrong a different expansion.
  */
  lemma GreedyIsDecidedByPlaces<D, P>(matches: (D, P) -> bool, direct: seq<D>, proxy: seq<P>)
    ensures Greedy(matches, direct, proxy).Success? <==>
      Blocks(proxy) <= |direct| <= |proxy| && !Mispaired(matches, direct, proxy)
    ensures Greedy(matches, direct, proxy) == Result.Failure(ContractMismatch) <==> Mispaired(matches, direct, proxy)
  {
    if |proxy| < |direct| {
      GreedyOnTooFew(matches, direct, proxy);
      forall i | 0 <= i < |direct|
        ensures Disagrees(matches, direct, proxy, i) <==> i < |proxy| && !matches(direct[i], proxy[i])
      {
      }
    } else {
      DecidedFromPlace(matches, direct, proxy, 0);
      AllItemsPlaced(matches, direct, proxy);
      BlocksLeft(proxy, |direct|);
      assert direct[0..] == direct && proxy[0..] == proxy;
    }
  }

  // ----- The check itself -----

  method AssertProxyRunExpansion<D, P(==)>(matches: (D, P) -> bool, direct: seq<D>, proxy: seq<P>)
    returns (extras: Result<nat, Failure>)
    ensures extras.Success? <==> exists runs :: Expansion(matches, direct, proxy, runs) && EagerExpansion(proxy, runs)
    ensures extras.Success? <==> Blocks(proxy) <= |direct| <= |proxy| && !Mispaired(matches, direct, proxy)
    ensures extras.Success? ==> extras.value == |proxy| - |direct|
    ensures extras.Failure? ==>
      extras.error == if Mispaired(matches, direct, proxy) then ContractMismatch else RunExpansionDiffered
  {
    extras := WalkRuns(matches, direct, proxy);
    GreedyIffEager(matches, direct, proxy);
    GreedyIsDecidedByPlaces(matches, direct, proxy);
  }

  /** The nested index loops decide what the single pass decides. */
  method WalkRuns<D, P(==)>(matches: (D, P) -> bool, direct: seq<D>, proxy: seq<P>)
    returns (extras: Result<nat, Failure>)
    ensures extras.Success? <==> Greedy(matches, direct, proxy).Success?
    ensures extras.Success? ==> extras.value == |proxy| - |direct|
    ensures extras.Failure? ==> Greedy(matches, direct, proxy) == Result.Failure(extras.error)
  {
    var proxyIndex := 0;
    var extraCount := 0;
    for directIndex := 0 to |direct|
      invariant 0 <= proxyIndex <= |proxy| && proxyIndex == directIndex + extraCount
      invariant SameEnd(Greedy(matches, direct, proxy), Greedy(matches, direct[directIndex..], proxy[proxyIndex..]))
    {
      ghost var rest := proxy[proxyIndex..];
      assert direct[directIndex..][0] == direct[directIndex] && direct[directIndex..][1..] == direct[directIndex + 1..];
      if proxyIndex >= |proxy| {
        return Result.Failure(RunExpansionDiffered);
      }
      var matchedProxy := proxy[proxyIndex];
      if !matches(direct[directIndex], matchedProxy) {
        return Result.Failure(ContractMismatch);
      }
      ghost var start := proxyIndex;
      proxyIndex := proxyIndex + 1;
      var remainingDirect := |direct| - directIndex - 1;
      while proxyIndex < |proxy| && |proxy| - proxyIndex > remainingDirect && proxy[proxyIndex] == matchedProxy
        invariant start + 1 <= proxyIndex <= |proxy| && proxyIndex == directIndex + 1 + extraCount
        invariant Constant(rest, proxyIndex - start)
        invariant RunEnd(rest, 1, remainingDirect) == RunEnd(rest, proxyIndex - start, remainingDirect)
      {
        extraCount := extraCount + 1;
        proxyIndex := proxyIndex + 1;
      }
      assert rest[proxyIndex - start..] == proxy[proxyIndex..];
    }
    assert direct[|direct|..] == [];
    if proxyIndex != |proxy| {
      return Result.Failure(RunExpansionDiffered);
    }
    assert proxy[proxyIndex..] == [];
    extras := Success(extraCount);
  }

  // ----- When every expansion is accepted -----

  /** No proxy value agrees with two neighbouring direct items. */
  predicate Separated<D, P>(matches: (D, P) -> bool, direct: seq<D>, proxy: seq<P>) {
    forall i, k :: 0 < i < |direct| && 0 <= k < |proxy| ==>
      !(matches(direct[i - 1], proxy[k]) && matches(direct[i], proxy[k]))
  }

  lemma {:induction false} SeparatedIsEager<D, P>(
    matches: (D, P) -> bool, direct: seq<D>, proxy: seq<P>, runs: seq<nat>)
    requires Separated(matches, direct, proxy) && Expansion(matches, direct, proxy, runs)
    ensures EagerExpansion(proxy, runs)
    decreases |direct|
  {
    ExpansionFits(matches, direct, proxy, runs);
    if direct != [] {
      var rest := proxy[runs[0]..];
      forall i, k | 0 < i < |direct[1..]| && 0 <= k < |rest|
        ensures !(matches(direct[1..][i - 1], rest[k]) && matches(direct[1..][i], rest[k]))
      {
        assert direct[1..][i - 1] == direct[i + 1 - 1] && rest[k] == proxy[runs[0] + k];
      }
      SeparatedIsEager(matches, direct[1..], rest, runs[1..]);
      if |direct| > 1 {
        assert matches(direct[1], rest[0]) && rest[0] == proxy[runs[0]];
        assert !matches(direct[1 - 1], proxy[runs[0]]);
      }
    }
  }

  /** Then the greedy pass misses nothing. */
  lemma SeparatedGreedyIsComplete<D, P>(matches: (D, P) -> bool, direct: seq<D>, proxy: seq<P>)
    requires Separated(matches, direct, proxy)
    ensures Greedy(matches, direct, proxy).Success? <==> exists runs :: Expansion(matches, direct, proxy, runs)
  {
    GreedyIffEager(matches, direct, proxy);
    forall runs | Expansion(matches, direct, proxy, runs) ensures EagerExpansion(proxy, runs) {
      SeparatedIsEager(matches, direct, proxy, runs);
    }
  }

  /** Some acquisitions that one fingerprint matches, then a finalization: the shape of a tool-required preflight. */
  predicate UniformShape<D, P(==)>(matches: (D, P) -> bool, direct: seq<D>, proxy: seq<P>) {
    && 2 <= |direct| <= |proxy|
    && Constant(proxy, |proxy| - 1)
    && (forall i :: 0 <= i < |direct| - 1 ==> matches(direct[i], proxy[0]))
    && matches(direct[|direct| - 1], proxy[|proxy| - 1])
  }

  lemma {:induction false} Singles<D, P>(matches: (D, P) -> bool, direct: seq<D>, proxy: seq<P>)
    requires |direct| == |proxy| && forall i :: 0 <= i < |direct| ==> matches(direct[i], proxy[i])
    ensures Greedy(matches, direct, proxy).Success?
    decreases |direct|
  {
    if direct == [] {
    } else {
      Singles(matches, direct[1..], proxy[1..]);
    }
  }

  /** Repeated acquisitions are accepted however many the proxy adds, although their runs cannot be told apart. */
  lemma UniformRunsAccepted<D, P>(matches: (D, P) -> bool, direct: seq<D>, proxy: seq<P>)
    requires UniformShape(matches, direct, proxy)
    ensures Greedy(matches, direct, proxy).Success?
  {
    var run := |proxy| - |direct| + 1;
    EagerRunEnds(proxy, run, 1, |direct| - 1);
    var rest := proxy[run..];
    forall i | 0 <= i < |rest| ensures matches(direct[1..][i], rest[i]) {
      assert rest[i] == proxy[run + i] && direct[1..][i] == direct[i + 1];
    }
    Singles(matches, direct[1..], rest);
  }

  /** Without separation an expansion can be missed: the first run eats what the second item needs. */
  lemma GreedyCanMissAnExpansion()
    ensures var direct, proxy := ["a", "a", "b", "final"], ["a", "a", "b", "b", "final"];
      var same := (d: string, p: string) => d == p;
      && Expansion(same, direct, proxy, [1, 1, 2, 1])
      && Greedy(same, direct, proxy) == Result.Failure(ContractMismatch)
  {
  }
}
