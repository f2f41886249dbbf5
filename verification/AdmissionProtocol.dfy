/**
  The admission protocol as a state machine (admission.py).

  A request is a coroutine that can only be suspended while it waits for a semaphore
  and while its body runs.  Every event below is the code between two such points, so
  it is one atomic step; a run is any sequence of enabled events at clock readings
  that never go back.  Waiting and running requests may leave by timeout or
  cancellation at any point where they are suspended.
*/
module AdmissionProtocol {
  import opened Wrappers

  datatype Settings = Settings(
    admissionLimit: nat,
    concurrencyLimit: nat,
    principalConcurrencyLimit: nat,
    principalRateLimit: nat,
    window: real,
    globalBudget: bool)

  /** Budgets are keyed by an opaque digest of the credential; one key stands for everybody. */
  datatype Key = GlobalBudget | Digest(value: nat)

  /**
    The budget of one principal: free permits, charges still in the window, last use, live
    references.  The identity tells budget objects apart: a budget created anew for the
    same key gets another one.
  */
  datatype Budget = Budget(id: nat, free: nat, arrivals: seq<real>, lastUsed: real, references: nat)

  // ----- Charges over time -----

  function Unexpired(arrivals: seq<real>, cutoff: real): seq<real> {
    if arrivals != [] && arrivals[0] <= cutoff then Unexpired(arrivals[1..], cutoff) else arrivals
  }

  ghost predicate Sorted(log: seq<real>) {
    forall i, j :: 0 <= i <= j < |log| ==> log[i] <= log[j]
  }

  /** Any principalRateLimit + 1 consecutive charges span at least one window. */
  ghost predicate Spaced(log: seq<real>, limit: nat, window: real) {
    forall i, j :: 0 <= i && j == i + limit && j < |log| ==> log[i] + window <= log[j]
  }

  /** The kept arrivals are the end of the log of all charges, and the charges forgotten are out of the window. */
  ghost predicate RateOk(arrivals: seq<real>, log: seq<real>, now: real, s: Settings) {
    && Sorted(log) && Spaced(log, s.principalRateLimit, s.window)
    && (forall i :: 0 <= i < |log| ==> log[i] <= now)
    && |arrivals| <= |log| && arrivals == log[|log| - |arrivals|..]
    && (forall i :: 0 <= i < |log| - |arrivals| ==> log[i] <= now - s.window)
  }

  lemma {:induction false} DropKeepsRate(arrivals: seq<real>, log: seq<real>, now: real, t: real, s: Settings)
    requires RateOk(arrivals, log, now, s) && now <= t
    ensures var kept := Unexpired(arrivals, t - s.window);
      RateOk(kept, log, t, s) && (kept != [] ==> kept[0] > t - s.window)
    decreases |arrivals|
  {
    if arrivals == [] || arrivals[0] > t - s.window {
    } else {
      assert RateOk(arrivals[1..], log, t, s);
      DropKeepsRate(arrivals[1..], log, t, t, s);
    }
  }

  lemma ChargeKeepsRate(arrivals: seq<real>, log: seq<real>, t: real, s: Settings)
    requires RateOk(arrivals, log, t, s) && |arrivals| < s.principalRateLimit
    ensures RateOk(arrivals + [t], log + [t], t, s)
  {
    var longer := log + [t];
    forall i, j | 0 <= i && j == i + s.principalRateLimit && j < |longer|
      ensures longer[i] + s.window <= longer[j]
    {
      if j == |log| {
        assert i < |log| - |arrivals|;
      }
    }
  }

  function Between(log: seq<real>, from: real, to: real): set<int> {
    set i | 0 <= i < |log| && from <= log[i] < to
  }

  lemma {:induction false} RangeBoundsSize(a: set<int>, lo: int, n: nat)
    requires forall i :: i in a ==> lo <= i < lo + n
    ensures |a| <= n
  {
    if n == 0 {
      assert forall i :: i in a ==> false;
    } else {
      RangeBoundsSize(a - {lo + n - 1}, lo, n - 1);
    }
  }

  /** Every half-open window holds at most the limit of charges. */
  lemma WindowHoldsAtMostLimit(log: seq<real>, limit: nat, window: real, from: real)
    requires Sorted(log) && Spaced(log, limit, window)
    ensures |Between(log, from, from + window)| <= limit
  {
    var inside := Between(log, from, from + window);
    if inside != {} {
      var first :| first in inside;
      while first - 1 in inside
        invariant first in inside
        decreases first
      {
        first := first - 1;
      }
      assert first + limit < |log| ==> log[first] + window <= log[first + limit];
      RangeBoundsSize(inside, first, limit);
    }
  }

  // ----- Requests in flight -----

  datatype Phase = AwaitsPrincipal | AwaitsGlobal | Running

  /** A suspended request works on the budget object it was handed on arrival, whatever the map holds by then. */
  datatype Request = Request(key: Key, phase: Phase, budget: nat)

  datatype Group = Queued | Active | Referencing(key: Key) | Holding(key: Key)

  predicate InGroup(g: Group, q: Request) {
    match g
    case Queued => !q.phase.Running?
    case Active => q.phase.Running?
    case Referencing(key) => q.key == key
    case Holding(key) => q.key == key && !q.phase.AwaitsPrincipal?
  }

  function Members(requests: map<nat, Request>, g: Group): set<nat> {
    set r | r in requests && InGroup(g, requests[r])
  }

  function Tally(requests: map<nat, Request>, g: Group): nat {
    |Members(requests, g)|
  }

  function One(requests: map<nat, Request>, r: nat, g: Group): nat {
    if r in requests && InGroup(g, requests[r]) then 1 else 0
  }

  lemma TallyWithout(requests: map<nat, Request>, r: nat, g: Group)
    ensures Tally(requests - {r}, g) == Tally(requests, g) - One(requests, r, g)
  {
    if r in Members(requests, g) {
      assert Members(requests - {r}, g) == Members(requests, g) - {r};
    } else {
      assert Members(requests - {r}, g) == Members(requests, g);
    }
  }

  lemma TallyWith(requests: map<nat, Request>, r: nat, q: Request, g: Group)
    ensures Tally(requests[r := q], g) ==
      Tally(requests, g) - One(requests, r, g) + if InGroup(g, q) then 1 else 0
  {
    TallyWithout(requests, r, g);
    var updated, rest := requests[r := q], requests - {r};
    if InGroup(g, q) {
      assert Members(updated, g) == Members(rest, g) + {r};
    } else {
      assert Members(updated, g) == Members(rest, g);
    }
  }

  // ----- States and events -----

  datatype State = State(
    settings: Settings,
    admissionFree: nat,
    upstreamFree: nat,
    budgets: map<Key, Budget>,
    active: nat,
    queued: nat,
    upstreamActive: nat,
    admissionRejections: nat,
    rateRejections: nat,
    requests: map<nat, Request>,     // every request in flight
    slots: set<nat>,                 // upstream operations holding a slot
    charged: map<Key, seq<real>>,    // every charge ever made, by budget key
    created: nat,                    // how many budget objects were made
    now: real)                       // the latest clock reading

  function Initial(settings: Settings, start: real): State {
    State(
      settings, settings.admissionLimit, settings.concurrencyLimit, map[], 0, 0, 0, 0, 0, map[], {}, map[], 0, start)
  }

  datatype Event =
    | Arrive(r: nat, principal: Option<nat>)
    | PrincipalGranted(r: nat)
    | PrincipalAbandoned(r: nat, timedOut: bool)
    | GlobalGranted(r: nat)
    | GlobalAbandoned(r: nat, timedOut: bool)
    | Finish(r: nat)
    | SlotGranted(o: nat)
    | SlotFinished(o: nat)

  /** The budget the request was handed is the one in the map, so working on either is the same. */
  predicate OwnsCurrentBudget(s: State, q: Request) {
    q.key in s.budgets && s.budgets[q.key].id == q.budget
  }

  predicate InPhase(s: State, r: nat, phase: Phase) {
    r in s.requests && s.requests[r].phase == phase && OwnsCurrentBudget(s, s.requests[r])
  }

  predicate Enabled(s: State, e: Event) {
    match e
    case Arrive(r, _) => r !in s.requests
    case PrincipalGranted(r) => InPhase(s, r, AwaitsPrincipal) && s.budgets[s.requests[r].key].free > 0
    case PrincipalAbandoned(r, _) => InPhase(s, r, AwaitsPrincipal)
    case GlobalGranted(r) => InPhase(s, r, AwaitsGlobal) && s.admissionFree > 0
    case GlobalAbandoned(r, _) => InPhase(s, r, AwaitsGlobal)
    case Finish(r) => InPhase(s, r, Running)
    case SlotGranted(o) => o !in s.slots && s.upstreamFree > 0
    case SlotFinished(o) => o in s.slots
  }

  function BudgetKey(settings: Settings, principal: Option<nat>): Key {
    if principal.None? || settings.globalBudget then GlobalBudget else Digest(principal.value)
  }

  /** No request references the budget, and it has been unused and uncharged for a window. */
  predicate Idle(b: Budget, cutoff: real) {
    b.references == 0 && Unexpired(b.arrivals, cutoff) == [] && b.lastUsed <= cutoff
  }

  function Swept(b: Budget, cutoff: real): Budget {
    b.(arrivals := Unexpired(b.arrivals, cutoff))
  }

  function Pruned(budgets: map<Key, Budget>, cutoff: real): map<Key, Budget> {
    map k | k in budgets && !Idle(budgets[k], cutoff) :: Swept(budgets[k], cutoff)
  }

  /** A decrement that the invariant shows never to happen at zero. */
  function Less(n: nat): nat {
    if n == 0 then 0 else n - 1
  }

  /** Permit and reference given back, last use stamped. */
  function Returned(b: Budget, t: real): Budget {
    b.(free := b.free + 1, lastUsed := t, references := Less(b.references))
  }

  /** A request leaves at time t, its budget becoming b, and idle budgets are pruned. */
  function Leave(s: State, r: nat, b: Budget, t: real): State
    requires r in s.requests
  {
    s.(budgets := Pruned(s.budgets[s.requests[r].key := b], t - s.settings.window),
       requests := s.requests - {r},
       now := t)
  }

  /** A request enters the queue and references the budget of its principal, created if absent. */
  function Arrived(s: State, r: nat, principal: Option<nat>, t: real): State {
    var key := BudgetKey(s.settings, principal);
    var fresh_ := Budget(s.created, s.settings.principalConcurrencyLimit, [], t, 0);
    var budget := if key in s.budgets then s.budgets[key] else fresh_;
    s.(queued := s.queued + 1,
       budgets := s.budgets[key := budget.(references := budget.references + 1)],
       requests := s.requests[r := Request(key, AwaitsPrincipal, budget.id)],
       created := if key in s.budgets then s.created else s.created + 1,
       charged := if key in s.charged then s.charged else s.charged[key := []],
       now := t)
  }

  function PrincipalPermit(s: State, r: nat, t: real): State
    requires Enabled(s, PrincipalGranted(r))
  {
    var q := s.requests[r];
    var budget := s.budgets[q.key];
    s.(budgets := s.budgets[q.key := budget.(free := budget.free - 1)],
       requests := s.requests[r := q.(phase := AwaitsGlobal)],
       now := t)
  }

  function PrincipalGivenUp(s: State, r: nat, timedOut: bool, t: real): State
    requires InPhase(s, r, AwaitsPrincipal)
  {
    var budget := s.budgets[s.requests[r].key];
    Leave(s, r, budget.(references := Less(budget.references)), t)
      .(queued := Less(s.queued), admissionRejections := s.admissionRejections + if timedOut then 1 else 0)
  }

  predicate RateLimited(s: State, r: nat, t: real)
    requires InPhase(s, r, AwaitsGlobal)
  {
    |Unexpired(s.budgets[s.requests[r].key].arrivals, t - s.settings.window)| >= s.settings.principalRateLimit
  }

  /** The charge is refused, and everything acquired is given back. */
  function ChargeRefused(s: State, r: nat, t: real): State
    requires InPhase(s, r, AwaitsGlobal)
  {
    var budget := s.budgets[s.requests[r].key];
    Leave(s, r, Returned(budget.(arrivals := Unexpired(budget.arrivals, t - s.settings.window)), t), t)
      .(queued := Less(s.queued), rateRejections := s.rateRejections + 1)
  }

  /** The charge is made, and the body starts to run. */
  function Charged(s: State, r: nat, t: real): State
    requires Enabled(s, GlobalGranted(r))
  {
    var q := s.requests[r];
    var budget := s.budgets[q.key];
    var kept := Unexpired(budget.arrivals, t - s.settings.window);
    s.(budgets := s.budgets[q.key := budget.(arrivals := kept + [t], lastUsed := t)],
       requests := s.requests[r := q.(phase := Running)],
       charged := s.charged[q.key := (if q.key in s.charged then s.charged[q.key] else []) + [t]],
       admissionFree := s.admissionFree - 1,
       queued := Less(s.queued),
       active := s.active + 1,
       now := t)
  }

  function GlobalGivenUp(s: State, r: nat, timedOut: bool, t: real): State
    requires InPhase(s, r, AwaitsGlobal)
  {
    Leave(s, r, Returned(s.budgets[s.requests[r].key], t), t)
      .(queued := Less(s.queued), admissionRejections := s.admissionRejections + if timedOut then 1 else 0)
  }

  function Finished(s: State, r: nat, t: real): State
    requires InPhase(s, r, Running)
  {
    Leave(s, r, Returned(s.budgets[s.requests[r].key], t), t)
      .(active := Less(s.active), admissionFree := s.admissionFree + 1)
  }

  function SlotTaken(s: State, o: nat, t: real): State
    requires Enabled(s, SlotGranted(o))
  {
    s.(upstreamFree := s.upstreamFree - 1, upstreamActive := s.upstreamActive + 1, slots := s.slots + {o}, now := t)
  }

  function SlotReturned(s: State, o: nat, t: real): State {
    s.(upstreamFree := s.upstreamFree + 1, upstreamActive := Less(s.upstreamActive), slots := s.slots - {o}, now := t)
  }

  function Apply(s: State, e: Event, t: real): State
    requires Enabled(s, e)
  {
    match e
    case Arrive(r, principal) => Arrived(s, r, principal, t)
    case PrincipalGranted(r) => PrincipalPermit(s, r, t)
    case PrincipalAbandoned(r, timedOut) => PrincipalGivenUp(s, r, timedOut, t)
    case GlobalGranted(r) => if RateLimited(s, r, t) then ChargeRefused(s, r, t) else Charged(s, r, t)
    case GlobalAbandoned(r, timedOut) => GlobalGivenUp(s, r, timedOut, t)
    case Finish(r) => Finished(s, r, t)
    case SlotGranted(o) => SlotTaken(s, o, t)
    case SlotFinished(o) => SlotReturned(s, o, t)
  }

  // ----- The invariant -----

  function ArrivalsOf(s: State, key: Key): seq<real> {
    if key in s.budgets then s.budgets[key].arrivals else []
  }

  function ChargesOf(s: State, key: Key): seq<real> {
    if key in s.charged then s.charged[key] else []
  }

  ghost predicate GatesOk(s: State) {
    && s.queued == Tally(s.requests, Queued)
    && s.active == Tally(s.requests, Active)
    && s.admissionFree + s.active == s.settings.admissionLimit
    && s.upstreamActive == |s.slots|
    && s.upstreamFree + s.upstreamActive == s.settings.concurrencyLimit
  }

  /** Permits and references of the budget are exactly those of the requests that use it. */
  ghost predicate BudgetOk(s: State, key: Key) {
    key in s.budgets ==>
      && s.budgets[key].id < s.created
      && s.budgets[key].references == Tally(s.requests, Referencing(key))
      && s.budgets[key].free + Tally(s.requests, Holding(key)) == s.settings.principalConcurrencyLimit
  }

  ghost predicate BudgetsOk(s: State) {
    && (forall k :: BudgetOk(s, k))
    && (forall r :: r in s.requests ==> OwnsCurrentBudget(s, s.requests[r]))
  }

  ghost predicate KeyRateOk(s: State, key: Key) {
    RateOk(ArrivalsOf(s, key), ChargesOf(s, key), s.now, s.settings)
  }

  ghost predicate RatesOk(s: State) {
    forall k :: KeyRateOk(s, k)
  }

  ghost predicate Inv(s: State) {
    GatesOk(s) && BudgetsOk(s) && RatesOk(s)
  }

  lemma InitialInv(settings: Settings, start: real)
    ensures Inv(Initial(settings, start))
  {
  }

  lemma GatesKept(s: State, e: Event, t: real)
    requires GatesOk(s) && Enabled(s, e)
    ensures GatesOk(Apply(s, e, t))
  {
    match e
    case Arrive(r, principal) =>
      var q := Apply(s, e, t).requests[r];
      TallyWith(s.requests, r, q, Queued);
      TallyWith(s.requests, r, q, Active);
    case PrincipalGranted(r) =>
      var q := s.requests[r].(phase := AwaitsGlobal);
      TallyWith(s.requests, r, q, Queued);
      TallyWith(s.requests, r, q, Active);
    case PrincipalAbandoned(r, _) => GatesLeave(s, r);
    case GlobalAbandoned(r, _) => GatesLeave(s, r);
    case Finish(r) => GatesLeave(s, r);
    case GlobalGranted(r) =>
      GatesLeave(s, r);
      var q := s.requests[r].(phase := Running);
      TallyWith(s.requests, r, q, Queued);
      TallyWith(s.requests, r, q, Active);
    case _ =>
  }

  lemma GatesLeave(s: State, r: nat)
    requires GatesOk(s) && r in s.requests
    ensures Tally(s.requests - {r}, Queued) == s.queued - One(s.requests, r, Queued) >= 0
    ensures Tally(s.requests - {r}, Active) == s.active - One(s.requests, r, Active) >= 0
  {
    TallyWithout(s.requests, r, Queued);
    TallyWithout(s.requests, r, Active);
  }

  /** How the budget of a request that moves or arrives must change for the books to balance. */
  lemma BudgetsMove(s: State, r: nat, q: Request, s': State)
    requires BudgetsOk(s) && (r in s.requests ==> s.requests[r].key == q.key)
    requires s.created <= s'.created && OwnsCurrentBudget(s', q)
    requires if q.key in s.budgets then s.budgets[q.key].id == q.budget else q.budget < s'.created
    requires s'.settings == s.settings && s'.requests == s.requests[r := q]
    requires q.key in s'.budgets && s'.budgets == s.budgets[q.key := s'.budgets[q.key]]
    requires var old_ :=
        if q.key in s.budgets then s.budgets[q.key] else Budget(0, s.settings.principalConcurrencyLimit, [], 0.0, 0);
      && s'.budgets[q.key].references == old_.references + 1 - One(s.requests, r, Referencing(q.key))
      && s'.budgets[q.key].free + (if q.phase.AwaitsPrincipal? then 0 else 1)
          == old_.free + One(s.requests, r, Holding(q.key))
    ensures BudgetsOk(s')
  {
    forall k ensures BudgetOk(s', k) {
      assert BudgetOk(s, k) && BudgetOk(s, q.key);
      TallyWith(s.requests, r, q, Referencing(k));
      TallyWith(s.requests, r, q, Holding(k));
      if k !in s.budgets {
        assert Members(s.requests, Referencing(k)) == {} == Members(s.requests, Holding(k));
      }
    }
  }

  lemma BudgetsLeave(s: State, r: nat, b: Budget, t: real)
    requires BudgetsOk(s) && r in s.requests
    requires b.id == s.budgets[s.requests[r].key].id
    requires b.references == Less(s.budgets[s.requests[r].key].references)
    requires b.free == s.budgets[s.requests[r].key].free + One(s.requests, r, Holding(s.requests[r].key))
    ensures BudgetsOk(Leave(s, r, b, t))
  {
    var s' := Leave(s, r, b, t);
    forall k
      ensures BudgetOk(s', k) && (k in s.budgets && k !in s'.budgets ==> Tally(s'.requests, Referencing(k)) == 0)
    {
      assert BudgetOk(s, k);
      TallyWithout(s.requests, r, Referencing(k));
      TallyWithout(s.requests, r, Holding(k));
    }
    forall x | x in s'.requests ensures OwnsCurrentBudget(s', s'.requests[x]) {
      assert x in Members(s'.requests, Referencing(s'.requests[x].key));
    }
  }

  lemma BudgetsKept(s: State, e: Event, t: real)
    requires BudgetsOk(s) && Enabled(s, e)
    ensures BudgetsOk(Apply(s, e, t))
  {
    var s' := Apply(s, e, t);
    match e
    case Arrive(r, principal) =>
      BudgetsMove(s, r, s'.requests[r], s');
    case PrincipalGranted(r) => BudgetsMove(s, r, s.requests[r].(phase := AwaitsGlobal), s');
    case PrincipalAbandoned(r, _) =>
      var b := s.budgets[s.requests[r].key];
      BudgetsLeave(s, r, b.(references := Less(b.references)), t);
      BudgetsAgree(Leave(s, r, b.(references := Less(b.references)), t), s');
    case GlobalGranted(r) =>
      var b := s.budgets[s.requests[r].key];
      var kept := Unexpired(b.arrivals, t - s.settings.window);
      if |kept| >= s.settings.principalRateLimit {
        BudgetsLeave(s, r, Returned(b.(arrivals := kept), t), t);
        BudgetsAgree(Leave(s, r, Returned(b.(arrivals := kept), t), t), s');
      } else {
        BudgetsMove(s, r, s.requests[r].(phase := Running), s');
      }
    case GlobalAbandoned(r, _) =>
      var b := Returned(s.budgets[s.requests[r].key], t);
      BudgetsLeave(s, r, b, t);
      BudgetsAgree(Leave(s, r, b, t), s');
    case Finish(r) =>
      var b := Returned(s.budgets[s.requests[r].key], t);
      BudgetsLeave(s, r, b, t);
      BudgetsAgree(Leave(s, r, b, t), s');
    case SlotGranted(_) => BudgetsAgree(s, s');
    case SlotFinished(_) => BudgetsAgree(s, s');
  }

  lemma BudgetsAgree(s: State, s': State)
    requires BudgetsOk(s) && s'.budgets == s.budgets && s'.requests == s.requests && s'.settings == s.settings
    requires s'.created == s.created
    ensures BudgetsOk(s')
  {
    forall k ensures BudgetOk(s', k) { assert BudgetOk(s, k); }
  }

  lemma AgeKeepsRate(arrivals: seq<real>, log: seq<real>, now: real, t: real, s: Settings)
    requires RateOk(arrivals, log, now, s) && now <= t
    ensures RateOk(arrivals, log, t, s)
  {
  }

  /** Pruning keeps the arrivals that have not expired, for a dropped budget as for a kept one. */
  lemma LeaveArrivals(s: State, r: nat, b: Budget, t: real, k: Key)
    requires r in s.requests
    ensures ArrivalsOf(Leave(s, r, b, t), k) ==
      Unexpired(if k == s.requests[r].key then b.arrivals else ArrivalsOf(s, k), t - s.settings.window)
  {
  }

  lemma {:induction false} UnexpiredTwice(arrivals: seq<real>, cutoff: real)
    ensures Unexpired(Unexpired(arrivals, cutoff), cutoff) == Unexpired(arrivals, cutoff)
  {
    if arrivals == [] || arrivals[0] > cutoff {
    } else {
      UnexpiredTwice(arrivals[1..], cutoff);
    }
  }

  /** What one step does to the charges of one key: nothing, expiry, or expiry and one charge below the limit. */
  ghost predicate RateMoves(s: State, s': State, t: real, k: Key) {
    var before, cutoff := ArrivalsOf(s, k), t - s.settings.window;
    var kept := Unexpired(before, cutoff);
    || (ChargesOf(s', k) == ChargesOf(s, k) && (ArrivalsOf(s', k) == before || ArrivalsOf(s', k) == kept))
    || (ChargesOf(s', k) == ChargesOf(s, k) + [t] && ArrivalsOf(s', k) == kept + [t]
        && |kept| < s.settings.principalRateLimit)
  }

  lemma StepMovesRates(s: State, e: Event, t: real, k: Key)
    requires Enabled(s, e)
    ensures RateMoves(s, Apply(s, e, t), t, k)
    ensures Apply(s, e, t).settings == s.settings && Apply(s, e, t).now == t
  {
    var cutoff := t - s.settings.window;
    UnexpiredTwice(ArrivalsOf(s, k), cutoff);
    match e
    case PrincipalAbandoned(r, _) =>
      var b := s.budgets[s.requests[r].key];
      LeaveArrivals(s, r, b.(references := Less(b.references)), t, k);
    case GlobalAbandoned(r, _) => LeaveArrivals(s, r, Returned(s.budgets[s.requests[r].key], t), t, k);
    case Finish(r) => LeaveArrivals(s, r, Returned(s.budgets[s.requests[r].key], t), t, k);
    case GlobalGranted(r) =>
      var b := s.budgets[s.requests[r].key];
      var unexpired := Unexpired(b.arrivals, cutoff);
      if |unexpired| >= s.settings.principalRateLimit {
        LeaveArrivals(s, r, Returned(b.(arrivals := unexpired), t), t, k);
      }
    case _ =>
  }

  lemma RateKept(
    before: seq<real>, log: seq<real>, now: real, t: real, s: Settings, after: seq<real>, log': seq<real>)
    requires RateOk(before, log, now, s) && now <= t
    requires var kept := Unexpired(before, t - s.window);
      || (log' == log && (after == before || after == kept))
      || (log' == log + [t] && after == kept + [t] && |kept| < s.principalRateLimit)
    ensures RateOk(after, log', t, s)
  {
    if log' == log && after == before {
      AgeKeepsRate(before, log, now, t, s);
    } else {
      DropKeepsRate(before, log, now, t, s);
      if log' != log {
        ChargeKeepsRate(Unexpired(before, t - s.window), log, t, s);
      }
    }
  }

  lemma RatesKept(s: State, s': State, t: real, k: Key)
    requires KeyRateOk(s, k) && RateMoves(s, s', t, k) && s.now <= t
    requires s'.settings == s.settings && s'.now == t
    ensures KeyRateOk(s', k)
  {
    RateKept(ArrivalsOf(s, k), ChargesOf(s, k), s.now, t, s.settings, ArrivalsOf(s', k), ChargesOf(s', k));
  }

  lemma StepKeepsInv(s: State, e: Event, t: real)
    requires Inv(s) && s.now <= t && Enabled(s, e)
    ensures Inv(Apply(s, e, t))
  {
    GatesKept(s, e, t);
    BudgetsKept(s, e, t);
    forall k ensures KeyRateOk(Apply(s, e, t), k) {
      assert KeyRateOk(s, k);
      StepMovesRates(s, e, t, k);
      RatesKept(s, Apply(s, e, t), t, k);
    }
  }

  // ----- Whole runs -----

  datatype Step = Step(event: Event, at: real)

  /** Each event is enabled when it happens, and the clock never goes back. */
  predicate Legal(s: State, steps: seq<Step>)
    decreases |steps|
  {
    steps == [] ||
    (Enabled(s, steps[0].event) && s.now <= steps[0].at && Legal(Apply(s, steps[0].event, steps[0].at), steps[1..]))
  }

  function After(s: State, steps: seq<Step>): State
    requires Legal(s, steps)
    decreases |steps|
  {
    if steps == [] then s else After(Apply(s, steps[0].event, steps[0].at), steps[1..])
  }

  lemma {:induction false} RunKeepsInv(s: State, steps: seq<Step>)
    requires Inv(s) && Legal(s, steps)
    ensures Inv(After(s, steps)) && After(s, steps).settings == s.settings
    decreases |steps|
  {
    if steps == [] {
    } else {
      StepKeepsInv(s, steps[0].event, steps[0].at);
      RunKeepsInv(Apply(s, steps[0].event, steps[0].at), steps[1..]);
    }
  }

  function ChargesWithin(s: State, key: Key, from: real): nat {
    |Between(ChargesOf(s, key), from, from + s.settings.window)|
  }

  /** Permits are conserved at every gate, the limits hold, and so does the rate of the key in the window. */
  ghost predicate Safe(s: State, key: Key, from: real) {
    && GatesOk(s) && s.active <= s.settings.admissionLimit && s.upstreamActive <= s.settings.concurrencyLimit
    && BudgetsOk(s) && Tally(s.requests, Holding(key)) <= s.settings.principalConcurrencyLimit
    && ChargesWithin(s, key, from) <= s.settings.principalRateLimit
  }

  /**
    After any run whatever of arrivals, grants, refusals, timeouts, cancellations, prunes
    and re-created budgets: permits are conserved at every gate, the limits hold, and
    every half-open window of every key holds at most the limit of charges.
  */
  lemma RunsAreSafe(settings: Settings, start: real, steps: seq<Step>, key: Key, from: real)
    requires Legal(Initial(settings, start), steps)
    ensures var s := After(Initial(settings, start), steps);
      s.settings == settings && Safe(s, key, from)
  {
    InitialInv(settings, start);
    RunKeepsInv(Initial(settings, start), steps);
    var s := After(Initial(settings, start), steps);
    KeyIsSafe(s, key, from);
  }

  lemma KeyIsSafe(s: State, key: Key, from: real)
    requires BudgetsOk(s) && RatesOk(s)
    ensures Tally(s.requests, Holding(key)) <= s.settings.principalConcurrencyLimit
    ensures ChargesWithin(s, key, from) <= s.settings.principalRateLimit
  {
    assert BudgetOk(s, key) && KeyRateOk(s, key);
    if key !in s.budgets {
      assert Members(s.requests, Holding(key)) == {};
    }
    WindowHoldsAtMostLimit(ChargesOf(s, key), s.settings.principalRateLimit, s.settings.window, from);
  }

  /** A request in flight keeps its key until it leaves. */
  lemma KeysStay(s: State, e: Event, t: real, r: nat)
    requires Enabled(s, e) && r in Apply(s, e, t).requests
    ensures var key := Apply(s, e, t).requests[r].key;
      if e.Arrive? && e.r == r then key == BudgetKey(s.settings, e.principal)
      else r in s.requests && key == s.requests[r].key
  {
  }

  /** With nothing in flight every gate is back where it started, and every budget left is whole. */
  lemma IdleIsWhole(s: State)
    requires Inv(s) && s.requests == map[] && s.slots == {}
    ensures s.queued == s.active == s.upstreamActive == 0
    ensures s.admissionFree == s.settings.admissionLimit && s.upstreamFree == s.settings.concurrencyLimit
    ensures forall k :: k in s.budgets ==>
      s.budgets[k].references == 0 && s.budgets[k].free == s.settings.principalConcurrencyLimit
  {
    forall g ensures Members(s.requests, g) == {} {}
    forall k | k in s.budgets
      ensures s.budgets[k].references == 0 && s.budgets[k].free == s.settings.principalConcurrencyLimit
    {
      assert BudgetOk(s, k);
    }
  }

  /** A request in flight is never stopped by the loss of its budget: its phase alone decides how it may leave. */
  lemma InFlightBudgetIsCurrent(s: State, r: nat, timedOut: bool)
    requires Inv(s) && r in s.requests
    ensures OwnsCurrentBudget(s, s.requests[r])
    ensures s.requests[r].phase.AwaitsPrincipal? <==> Enabled(s, PrincipalAbandoned(r, timedOut))
    ensures s.requests[r].phase.AwaitsGlobal? <==> Enabled(s, GlobalAbandoned(r, timedOut))
    ensures s.requests[r].phase.Running? <==> Enabled(s, Finish(r))
  {
  }
}
