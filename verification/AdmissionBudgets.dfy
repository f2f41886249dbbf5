/**
  What the budgets of the admission protocol (admission.py) mean for the requests: who
  shares one, when a charge is refused, how long a budget is kept, and what is counted.
*/
module AdmissionBudgets {
  import opened Wrappers
  import opened AdmissionProtocol

  // ----- Who shares a budget -----

  /** Two principals share a budget if the mode is global, if they are the same, or if both are missing. */
  lemma SharesBudgetIff(settings: Settings, p: Option<nat>, q: Option<nat>)
    ensures BudgetKey(settings, p) == BudgetKey(settings, q) <==> settings.globalBudget || p == q
  {
  }

  /** Budgets of different keys are different objects. */
  ghost predicate IdsDistinct(s: State) {
    forall k, l :: k in s.budgets && l in s.budgets && s.budgets[k].id == s.budgets[l].id ==> k == l
  }

  /** The budgets of the next state are those of this one, but perhaps for a new one of a new identity. */
  ghost predicate IdsStay(s: State, s': State) {
    forall k :: k in s'.budgets ==>
      if k in s.budgets then s'.budgets[k].id == s.budgets[k].id else s'.budgets[k].id == s.created
  }

  ghost predicate OneAppears(s: State, s': State) {
    forall k, l :: k in s'.budgets && k !in s.budgets && l in s'.budgets && l !in s.budgets ==> k == l
  }

  lemma StepKeepsIds(s: State, e: Event, t: real)
    requires Enabled(s, e)
    ensures IdsStay(s, Apply(s, e, t)) && OneAppears(s, Apply(s, e, t))
  {
  }

  lemma IdsStayDistinct(s: State, s': State)
    requires BudgetsOk(s) && IdsDistinct(s) && IdsStay(s, s') && OneAppears(s, s')
    ensures IdsDistinct(s')
  {
    forall k | k in s.budgets ensures s.budgets[k].id < s.created {
      assert BudgetOk(s, k);
    }
  }

  lemma {:induction false} RunKeepsIds(s: State, steps: seq<Step>)
    requires Inv(s) && IdsDistinct(s) && Legal(s, steps)
    ensures IdsDistinct(After(s, steps))
    decreases |steps|
  {
    if steps == [] {
    } else {
      var s' := Apply(s, steps[0].event, steps[0].at);
      StepKeepsInv(s, steps[0].event, steps[0].at);
      StepKeepsIds(s, steps[0].event, steps[0].at);
      IdsStayDistinct(s, s');
      RunKeepsIds(s', steps[1..]);
    }
  }

  predicate IsArrival(step: Step, r: nat) {
    step.event.Arrive? && step.event.r == r
  }

  /** Step i is where the request arrived that goes by this number now. */
  ghost predicate LatestArrival(steps: seq<Step>, r: nat, i: int) {
    0 <= i < |steps| && IsArrival(steps[i], r) && forall j :: i < j < |steps| ==> !IsArrival(steps[j], r)
  }

  /** The key of a request in flight is that of the principal it arrived with. */
  lemma {:induction false} KeyOfArrival(s: State, steps: seq<Step>, r: nat) returns (i: int)
    requires Legal(s, steps) && r in After(s, steps).requests
    ensures i >= 0 ==> LatestArrival(steps, r, i)
    ensures i >= 0 ==> After(s, steps).requests[r].key == BudgetKey(s.settings, steps[i].event.principal)
    ensures i < 0 ==> r in s.requests && After(s, steps).requests[r].key == s.requests[r].key
    ensures i < 0 ==> forall j :: 0 <= j < |steps| ==> !IsArrival(steps[j], r)
    decreases |steps|
  {
    if steps == [] {
      i := -1;
    } else {
      var first := steps[0];
      i := KeyOfArrival(Apply(s, first.event, first.at), steps[1..], r);
      assert forall j :: 0 < j < |steps| ==> steps[j] == steps[1..][j - 1];
      if i >= 0 {
        i := i + 1;
      } else {
        KeysStay(s, first.event, first.at, r);
        i := if IsArrival(first, r) then 0 else -1;
      }
    }
  }

  /**
    In any run, two requests in flight work on the same budget object if the mode is global
    or they arrived with the same principal or both with none, and on different ones otherwise.
  */
  ghost predicate SharesAsArrived(s: State, steps: seq<Step>, r: nat, q: nat, i: int, j: int) {
    r in s.requests && q in s.requests && LatestArrival(steps, r, i) && LatestArrival(steps, q, j) ==>
      (s.requests[r].budget == s.requests[q].budget <==>
        s.settings.globalBudget || steps[i].event.principal == steps[j].event.principal)
  }

  lemma LatestIsUnique(steps: seq<Step>, r: nat, i: int, j: int)
    requires LatestArrival(steps, r, i) && LatestArrival(steps, r, j)
    ensures i == j
  {
    assert IsArrival(steps[i], r) && IsArrival(steps[j], r);
  }

  lemma ArrivalGivesKey(settings: Settings, start: real, steps: seq<Step>, r: nat, i: int)
    requires Legal(Initial(settings, start), steps) && LatestArrival(steps, r, i)
    requires r in After(Initial(settings, start), steps).requests
    ensures After(Initial(settings, start), steps).requests[r].key == BudgetKey(settings, steps[i].event.principal)
  {
    var k := KeyOfArrival(Initial(settings, start), steps, r);
    LatestIsUnique(steps, r, i, k);
  }

  lemma EqualIdsEqualKeys(s: State, r: nat, q: nat)
    requires BudgetsOk(s) && IdsDistinct(s) && r in s.requests && q in s.requests
    ensures s.requests[r].budget == s.requests[q].budget <==> s.requests[r].key == s.requests[q].key
  {
    assert OwnsCurrentBudget(s, s.requests[r]) && OwnsCurrentBudget(s, s.requests[q]);
  }

  lemma RunsShareBudgets(settings: Settings, start: real, steps: seq<Step>, r: nat, q: nat, i: int, j: int)
    requires Legal(Initial(settings, start), steps)
    ensures SharesAsArrived(After(Initial(settings, start), steps), steps, r, q, i, j)
  {
    var s := After(Initial(settings, start), steps);
    InitialInv(settings, start);
    RunKeepsInv(Initial(settings, start), steps);
    RunKeepsIds(Initial(settings, start), steps);
    if r in s.requests && q in s.requests && LatestArrival(steps, r, i) && LatestArrival(steps, q, j) {
      ArrivalGivesKey(settings, start, steps, r, i);
      ArrivalGivesKey(settings, start, steps, q, j);
      EqualIdsEqualKeys(s, r, q);
      SharesBudgetIff(settings, steps[i].event.principal, steps[j].event.principal);
    }
  }

  /** Every request in flight arrived. */
  lemma InFlightArrived(settings: Settings, start: real, steps: seq<Step>, r: nat)
    requires Legal(Initial(settings, start), steps) && r in After(Initial(settings, start), steps).requests
    ensures exists i :: LatestArrival(steps, r, i)
  {
    var i := KeyOfArrival(Initial(settings, start), steps, r);
  }

  // ----- When a charge is refused -----

  /** The charges of a key that are less than a window old at this time. */
  ghost function RecentCharges(s: State, key: Key, t: real): set<int> {
    set i | 0 <= i < |ChargesOf(s, key)| && ChargesOf(s, key)[i] > t - s.settings.window
  }

  lemma {:induction false} RangeSize(a: set<int>, lo: int, n: nat)
    requires forall i :: i in a <==> lo <= i < lo + n
    ensures |a| == n
  {
    if n == 0 {
      assert forall i :: i in a ==> false;
    } else {
      RangeSize(a - {lo + n - 1}, lo, n - 1);
    }
  }

  lemma TailIsRecent(kept: seq<real>, log: seq<real>, cutoff: real)
    requires Sorted(log) && |kept| <= |log| && kept == log[|log| - |kept|..] && (kept != [] ==> kept[0] > cutoff)
    requires forall i :: 0 <= i < |log| - |kept| ==> log[i] <= cutoff
    ensures |kept| == |set i | 0 <= i < |log| && log[i] > cutoff|
  {
    var recent, from := set i | 0 <= i < |log| && log[i] > cutoff, |log| - |kept|;
    forall i ensures i in recent <==> from <= i < from + |kept| {
      if from <= i < |log| {
        assert log[from] == kept[0] && log[from] <= log[i];
      }
    }
    RangeSize(recent, from, |kept|);
  }

  lemma KeptAreRecent(arrivals: seq<real>, log: seq<real>, now: real, t: real, s: Settings)
    requires RateOk(arrivals, log, now, s) && now <= t
    ensures |Unexpired(arrivals, t - s.window)| == |set i | 0 <= i < |log| && log[i] > t - s.window|
  {
    DropKeepsRate(arrivals, log, now, t, s);
    TailIsRecent(Unexpired(arrivals, t - s.window), log, t - s.window);
  }

  /** A request is rate limited exactly if its principal has made the limit of charges within the last window. */
  lemma RateLimitedIff(s: State, r: nat, t: real)
    requires Inv(s) && s.now <= t && InPhase(s, r, AwaitsGlobal)
    ensures RateLimited(s, r, t) <==> |RecentCharges(s, s.requests[r].key, t)| >= s.settings.principalRateLimit
  {
    var key := s.requests[r].key;
    assert KeyRateOk(s, key);
    KeptAreRecent(ArrivalsOf(s, key), ChargesOf(s, key), s.now, t, s.settings);
  }

  // ----- How long a budget is kept -----

  /** The request leaves in this event. */
  predicate Leaves(s: State, e: Event, t: real)
    requires Enabled(s, e)
  {
    e.PrincipalAbandoned? || e.GlobalAbandoned? || e.Finish? || (e.GlobalGranted? && RateLimited(s, e.r, t))
  }

  /** The key is in use: by a request in flight, a charge less than a window old, or as the last used. */
  ghost predicate InUse(s: State, key: Key, lastUsed: real, t: real) {
    || (exists r :: r in s.requests && s.requests[r].key == key)
    || RecentCharges(s, key, t) != {}
    || lastUsed > t - s.settings.window
  }

  /** When budget k was last used before the event, or is by giving back the permit of the leaving request. */
  function LastUsed(s: State, e: Event, t: real, k: Key): real
    requires Enabled(s, e) && Leaves(s, e, t) && k in s.budgets
  {
    if !e.PrincipalAbandoned? && s.requests[e.r].key == k then t else s.budgets[k].lastUsed
  }

  /** The budget that a leaving request leaves for pruning. */
  function Left(s: State, e: Event, t: real): Budget
    requires Enabled(s, e) && Leaves(s, e, t)
  {
    var b := s.budgets[s.requests[e.r].key];
    match e
    case PrincipalAbandoned(_, _) => b.(references := Less(b.references))
    case GlobalGranted(_) => Returned(b.(arrivals := Unexpired(b.arrivals, t - s.settings.window)), t)
    case _ => Returned(b, t)
  }

  lemma LeavingPrunes(s: State, e: Event, t: real)
    requires Enabled(s, e) && Leaves(s, e, t)
    ensures var s' := Apply(s, e, t);
      && s'.budgets == Pruned(s.budgets[s.requests[e.r].key := Left(s, e, t)], t - s.settings.window)
      && s'.requests == s.requests - {e.r} && s'.charged == s.charged && s'.settings == s.settings
  {
  }

  lemma LeftReferences(s: State, e: Event, t: real, k: Key, b: Budget)
    requires BudgetsOk(s) && Enabled(s, e) && Leaves(s, e, t) && k in s.budgets
    requires b == if k == s.requests[e.r].key then Left(s, e, t) else s.budgets[k]
    ensures var rest := s.requests - {e.r}; b.references == 0 <==> !exists r :: r in rest && rest[r].key == k
  {
    var rest := s.requests - {e.r};
    assert BudgetOk(s, k);
    TallyWithout(s.requests, e.r, Referencing(k));
    if r :| r in rest && rest[r].key == k {
      assert r in Members(rest, Referencing(k));
    } else {
      assert Members(rest, Referencing(k)) == {};
    }
  }

  lemma NoneRecent(s: State, k: Key, t: real, arrivals: seq<real>)
    requires KeyRateOk(s, k) && s.now <= t
    requires var cutoff := t - s.settings.window;
      arrivals == ArrivalsOf(s, k) || arrivals == Unexpired(ArrivalsOf(s, k), cutoff)
    ensures Unexpired(arrivals, t - s.settings.window) == [] <==> RecentCharges(s, k, t) == {}
  {
    var cutoff, charges := t - s.settings.window, ChargesOf(s, k);
    KeptAreRecent(ArrivalsOf(s, k), charges, s.now, t, s.settings);
    UnexpiredTwice(ArrivalsOf(s, k), cutoff);
    assert RecentCharges(s, k, t) == set i | 0 <= i < |charges| && charges[i] > cutoff;
  }

  lemma LeftIsIdle(s: State, e: Event, t: real, k: Key, b: Budget)
    requires Inv(s) && s.now <= t && Enabled(s, e) && Leaves(s, e, t) && k in s.budgets
    requires b == if k == s.requests[e.r].key then Left(s, e, t) else s.budgets[k]
    ensures var rest := s.requests - {e.r};
      Idle(b, t - s.settings.window) <==>
        && (!exists r :: r in rest && rest[r].key == k) && RecentCharges(s, k, t) == {}
        && LastUsed(s, e, t, k) <= t - s.settings.window
  {
    LeftReferences(s, e, t, k, b);
    assert KeyRateOk(s, k);
    NoneRecent(s, k, t, b.arrivals);
  }

  /** Whenever a request leaves, exactly the budgets no longer in use are dropped. */
  lemma LeavingKeepsUsed(s: State, e: Event, t: real, k: Key)
    requires Inv(s) && s.now <= t && Enabled(s, e) && Leaves(s, e, t)
    ensures var s' := Apply(s, e, t);
      k in s'.budgets <==> k in s.budgets && InUse(s', k, LastUsed(s, e, t, k), t)
  {
    LeavingPrunes(s, e, t);
    if k in s.budgets {
      LeftIsIdle(s, e, t, k, if k == s.requests[e.r].key then Left(s, e, t) else s.budgets[k]);
      assert ChargesOf(Apply(s, e, t), k) == ChargesOf(s, k);
    }
  }

  /** A budget is last used when it is made, charged, or refused a charge, and when a permit of it is given back. */
  lemma LastUsedIs(s: State, e: Event, t: real, k: Key)
    requires Enabled(s, e) && k in Apply(s, e, t).budgets
    ensures var uses := match e
        case Arrive(_, _) => k !in s.budgets
        case GlobalGranted(r) => s.requests[r].key == k
        case GlobalAbandoned(r, _) => s.requests[r].key == k
        case Finish(r) => s.requests[r].key == k
        case _ => false;
      && (!uses ==> k in s.budgets)
      && Apply(s, e, t).budgets[k].lastUsed == if uses then t else s.budgets[k].lastUsed
  {
  }

  // ----- What is counted -----

  /** A rejection is counted for every wait that timed out and for every refused charge, and for nothing else. */
  lemma RejectionsCounted(s: State, e: Event, t: real)
    requires Enabled(s, e)
    ensures Apply(s, e, t).admissionRejections == s.admissionRejections +
      if (e.PrincipalAbandoned? || e.GlobalAbandoned?) && e.timedOut then 1 else 0
    ensures Apply(s, e, t).rateRejections == s.rateRejections +
      if e.GlobalGranted? && RateLimited(s, e.r, t) then 1 else 0
  {
  }
}
