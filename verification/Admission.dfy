/**
  The admission controller itself (admission.py), in its own imperative form: every method
  is the code between two suspension points, and changes the fields as one event of
  AdmissionProtocol changes the protocol state.
*/
module Admission {
  import opened Wrappers
  import opened AdmissionProtocol
  import opened AdmissionBudgets

  /** Every counter a leaving request decrements counts that request. */
  lemma BooksCover(s: State, r: nat)
    requires Inv(s) && r in s.requests
    ensures s.requests[r].key in s.budgets && s.budgets[s.requests[r].key].references > 0
    ensures if s.requests[r].phase.Running? then s.active > 0 else s.queued > 0
  {
    var key := s.requests[r].key;
    assert BudgetOk(s, key) && OwnsCurrentBudget(s, s.requests[r]);
    assert r in Members(s.requests, Referencing(key));
    assert r in Members(s.requests, if s.requests[r].phase.Running? then Active else Queued);
  }

  /** What the controller does not store but its steps depend on: who is in flight, past charges, the clock. */
  datatype Log = Log(requests: map<nat, Request>, slots: set<nat>, charged: map<Key, seq<real>>, now: real)

  /** The request in flight that goes on in this event. */
  function Concerns(event: Event): Option<nat> {
    match event
    case PrincipalGranted(r) => Some(r)
    case PrincipalAbandoned(r, _) => Some(r)
    case GlobalGranted(r) => Some(r)
    case GlobalAbandoned(r, _) => Some(r)
    case Finish(r) => Some(r)
    case _ => None
  }

  /** Each request in flight has the key remembered for it. */
  ghost predicate Remembers(s: State, keys: map<nat, Key>) {
    forall r :: r in s.requests ==> r in keys && keys[r] == s.requests[r].key
  }

  lemma KeysKept(s: State, e: Event, t: real, keys: map<nat, Key>, entered: Key)
    requires Enabled(s, e) && Remembers(s, keys)
    requires e.Arrive? ==> entered == BudgetKey(s.settings, e.principal)
    ensures Remembers(Apply(s, e, t), if e.Arrive? then keys[e.r := entered] else keys)
  {
    forall r | r in Apply(s, e, t).requests
      ensures r in (if e.Arrive? then keys[e.r := entered] else keys)
      ensures (if e.Arrive? then keys[e.r := entered] else keys)[r] == Apply(s, e, t).requests[r].key
    {
      KeysStay(s, e, t, r);
    }
  }

  lemma Overwritten<K, V>(m: map<K, V>, k: K, first: V, second: V)
    ensures m[k := first][k := second] == m[k := second]
  {
  }

  class AdmissionController {
    const settings: Settings
    var admissionFree: nat
    var upstreamFree: nat
    var principals: map<Key, Budget>
    var active: nat
    var queued: nat
    var upstreamActive: nat
    var admissionRejections: nat
    var rateRejections: nat
    var created: nat
    ghost var log: Log

    ghost function View(): State
      reads this
    {
      State(settings, admissionFree, upstreamFree, principals, active, queued, upstreamActive,
            admissionRejections, rateRejections, log.requests, log.slots, log.charged, created, log.now)
    }

    ghost predicate Valid()
      reads this
    {
      Inv(View())
    }

    constructor (settings: Settings, start: real)
      ensures View() == Initial(settings, start) && Valid()
    {
      this.settings := settings;
      admissionFree, upstreamFree, principals := settings.admissionLimit, settings.concurrencyLimit, map[];
      active, queued, upstreamActive, admissionRejections, rateRejections, created := 0, 0, 0, 0, 0, 0;
      log := Log(map[], {}, map[], start);
      InitialInv(settings, start);
    }

    /** Enter: queue up and take a reference to the principal's budget, made anew if the map has none. */
    method Arrive(ghost r: nat, principal: Option<nat>, t: real) returns (key: Key)
      requires Valid() && Enabled(View(), Event.Arrive(r, principal)) && log.now <= t
      modifies this
      ensures View() == Apply(old(View()), Event.Arrive(r, principal), t) && Valid()
      ensures key == if principal.None? || settings.globalBudget then GlobalBudget else Digest(principal.value)
    {
      StepKeepsInv(View(), Event.Arrive(r, principal), t);
      key := Enter(r, principal, t);
    }

    method Enter(ghost r: nat, principal: Option<nat>, t: real) returns (key: Key)
      modifies this
      ensures key == BudgetKey(settings, principal) && View() == Arrived(old(View()), r, principal, t)
    {
      queued := queued + 1;
      key := BudgetKey(settings, principal);
      var budget := Principal(key, t);
      log := log.(requests := log.requests[r := Request(key, AwaitsPrincipal, budget.id)],
                  charged := if key in log.charged then log.charged else log.charged[key := []],
                  now := t);
    }

    /** The principal semaphore hands over a permit. */
    method PrincipalAcquired(ghost r: nat, key: Key, t: real)
      requires Valid() && Enabled(View(), PrincipalGranted(r)) && log.requests[r].key == key && log.now <= t
      modifies this
      ensures View() == Apply(old(View()), PrincipalGranted(r), t) && Valid()
    {
      StepKeepsInv(View(), PrincipalGranted(r), t);
      principals := principals[key := principals[key].(free := principals[key].free - 1)];
      log := log.(requests := log.requests[r := log.requests[r].(phase := AwaitsGlobal)], now := t);
    }

    /** The wait for the principal semaphore times out or is cancelled. */
    method PrincipalFailed(ghost r: nat, key: Key, timedOut: bool, t: real)
      requires Valid() && Enabled(View(), PrincipalAbandoned(r, timedOut)) && log.requests[r].key == key && log.now <= t
      modifies this
      ensures View() == Apply(old(View()), PrincipalAbandoned(r, timedOut), t) && Valid()
    {
      StepKeepsInv(View(), PrincipalAbandoned(r, timedOut), t);
      BooksCover(View(), r);
      GiveUpPrincipal(r, key, timedOut, t);
    }

    method GiveUpPrincipal(ghost r: nat, key: Key, timedOut: bool, t: real)
      requires InPhase(View(), r, AwaitsPrincipal) && log.requests[r].key == key
      requires principals[key].references > 0 && queued > 0
      modifies this
      ensures View() == PrincipalGivenUp(old(View()), r, timedOut, t)
    {
      CountRejection(timedOut);
      ReleaseReference(key);
      Exit(r, None, false, false, t);
    }

    /** The global semaphore hands over a permit: charge the rate, then run the body or give everything back. */
    method GlobalAcquired(ghost r: nat, key: Key, t: real) returns (admitted: bool)
      requires Valid() && Enabled(View(), GlobalGranted(r)) && log.requests[r].key == key && log.now <= t
      modifies this
      ensures admitted == !RateLimited(old(View()), r, t)
      ensures admitted <==> |RecentCharges(old(View()), key, t)| < settings.principalRateLimit
      ensures View() == Apply(old(View()), GlobalGranted(r), t) && Valid()
    {
      StepKeepsInv(View(), GlobalGranted(r), t);
      RateLimitedIff(View(), r, t);
      BooksCover(View(), r);
      admitted := Charge(r, key, t);
    }

    method Charge(ghost r: nat, key: Key, t: real) returns (admitted: bool)
      requires Enabled(View(), GlobalGranted(r)) && log.requests[r].key == key
      requires principals[key].references > 0 && queued > 0
      modifies this
      ensures admitted == !RateLimited(old(View()), r, t)
      ensures View() == if admitted then Charged(old(View()), r, t) else ChargeRefused(old(View()), r, t)
    {
      admissionFree := admissionFree - 1;
      admitted := ChargeRate(key, t);
      if admitted {
        Activate(r, key, t);
        assert View() == Charged(old(View()), r, t);
      } else {
        Overwritten(old(principals), key, principals[key], Returned(principals[key], t));
        Exit(r, Some(key), true, false, t);
        assert View() == ChargeRefused(old(View()), r, t);
      }
    }

    method Activate(ghost r: nat, key: Key, t: real)
      requires r in log.requests && queued > 0
      modifies this`queued, this`active, this`log
      ensures queued == old(queued) - 1 && active == old(active) + 1
      ensures var was := old(log); log == was.(
        requests := was.requests[r := was.requests[r].(phase := Running)],
        charged := was.charged[key := (if key in was.charged then was.charged[key] else []) + [t]],
        now := t)
    {
      queued := queued - 1;
      active := active + 1;
      log := log.(requests := log.requests[r := log.requests[r].(phase := Running)],
                  charged := log.charged[key := (if key in log.charged then log.charged[key] else []) + [t]],
                  now := t);
    }

    /** The wait for the global semaphore times out or is cancelled. */
    method GlobalFailed(ghost r: nat, key: Key, timedOut: bool, t: real)
      requires Valid() && Enabled(View(), GlobalAbandoned(r, timedOut)) && log.requests[r].key == key && log.now <= t
      modifies this
      ensures View() == Apply(old(View()), GlobalAbandoned(r, timedOut), t) && Valid()
    {
      StepKeepsInv(View(), GlobalAbandoned(r, timedOut), t);
      BooksCover(View(), r);
      GiveUpGlobal(r, key, timedOut, t);
    }

    method GiveUpGlobal(ghost r: nat, key: Key, timedOut: bool, t: real)
      requires InPhase(View(), r, AwaitsGlobal) && log.requests[r].key == key
      requires principals[key].references > 0 && queued > 0
      modifies this
      ensures View() == GlobalGivenUp(old(View()), r, timedOut, t)
    {
      CountRejection(timedOut);
      Exit(r, Some(key), false, false, t);
    }

    /** The body ends, however it ends. */
    method BodyEnded(ghost r: nat, key: Key, t: real)
      requires Valid() && Enabled(View(), Finish(r)) && log.requests[r].key == key && log.now <= t
      modifies this
      ensures View() == Apply(old(View()), Finish(r), t) && Valid()
    {
      StepKeepsInv(View(), Finish(r), t);
      BooksCover(View(), r);
      Exit(r, Some(key), true, true, t);
    }

    method SlotAcquired(ghost o: nat, t: real)
      requires Valid() && Enabled(View(), SlotGranted(o)) && log.now <= t
      modifies this
      ensures View() == Apply(old(View()), SlotGranted(o), t) && Valid()
    {
      StepKeepsInv(View(), SlotGranted(o), t);
      upstreamFree := upstreamFree - 1;
      upstreamActive := upstreamActive + 1;
      log := log.(slots := log.slots + {o}, now := t);
    }

    method SlotReleased(ghost o: nat, t: real)
      requires Valid() && Enabled(View(), SlotFinished(o)) && log.now <= t
      modifies this
      ensures View() == Apply(old(View()), SlotFinished(o), t) && Valid()
    {
      StepKeepsInv(View(), SlotFinished(o), t);
      assert log.slots != {};
      upstreamActive := upstreamActive - 1;
      upstreamFree := upstreamFree + 1;
      log := log.(slots := log.slots - {o}, now := t);
    }

    // ----- Any event -----

    /** Whatever happens next is one of the methods above, called with the key of the request it concerns. */
    method Dispatch(event: Event, key: Key, t: real) returns (entered: Key)
      requires Valid() && Enabled(View(), event) && log.now <= t
      requires Concerns(event).Some? ==> log.requests[Concerns(event).value].key == key
      modifies this
      ensures View() == Apply(old(View()), event, t) && Valid()
      ensures event.Arrive? ==> entered == BudgetKey(settings, event.principal)
    {
      entered := key;
      match event {
        case Arrive(r, principal) => entered := Arrive(r, principal, t);
        case PrincipalGranted(r) => PrincipalAcquired(r, key, t);
        case PrincipalAbandoned(r, timedOut) => PrincipalFailed(r, key, timedOut, t);
        case GlobalGranted(r) =>
          var admitted := GlobalAcquired(r, key, t);
        case GlobalAbandoned(r, timedOut) => GlobalFailed(r, key, timedOut, t);
        case Finish(r) => BodyEnded(r, key, t);
        case SlotGranted(o) => SlotAcquired(o, t);
        case SlotFinished(o) => SlotReleased(o, t);
      }
    }

    /** The same when every request in flight remembers its key, as its coroutine does. */
    method Handle(event: Event, t: real, keys: map<nat, Key>) returns (keys': map<nat, Key>)
      requires Valid() && Enabled(View(), event) && log.now <= t && Remembers(View(), keys)
      modifies this
      ensures View() == Apply(old(View()), event, t) && Valid() && Remembers(View(), keys')
    {
      ghost var before := View();
      var concerned := Concerns(event);
      var entered := Dispatch(event, if concerned.Some? then keys[concerned.value] else GlobalBudget, t);
      keys' := if event.Arrive? then keys[event.r := entered] else keys;
      KeysKept(before, event, t, keys, entered);
    }

    // ----- Parts of the steps -----

    method CountRejection(timedOut: bool)
      modifies this`admissionRejections
      ensures admissionRejections == old(admissionRejections) + if timedOut then 1 else 0
    {
      if timedOut {
        admissionRejections := admissionRejections + 1;
      }
    }

    /** The budget of a key, created if absent, with one more reference. */
    method Principal(key: Key, t: real) returns (budget: Budget)
      modifies this`principals, this`created
      ensures var found := if key in old(principals) then old(principals)[key]
                           else Budget(old(created), settings.principalConcurrencyLimit, [], t, 0);
        budget == found.(references := found.references + 1) && principals == old(principals)[key := budget]
      ensures created == old(created) + if key in old(principals) then 0 else 1
    {
      if key in principals {
        budget := principals[key];
      } else {
        budget := Budget(created, settings.principalConcurrencyLimit, [], t, 0);
        created := created + 1;
      }
      budget := budget.(references := budget.references + 1);
      principals := principals[key := budget];
    }

    method ReleaseReference(key: Key)
      requires key in principals && principals[key].references > 0
      modifies this`principals
      ensures principals == old(principals)[key :=
        old(principals)[key].(references := old(principals)[key].references - 1)]
    {
      principals := principals[key := principals[key].(references := principals[key].references - 1)];
    }

    /** The exit block of a request: the permits it holds go back, and idle budgets are pruned. */
    method Exit(ghost r: nat, held: Option<Key>, globalAcquired: bool, running: bool, t: real)
      requires held.Some? ==> held.value in principals && principals[held.value].references > 0
      requires if running then active > 0 && globalAcquired else queued > 0
      modifies this
      ensures principals == Pruned(
        if held.None? then old(principals)
        else old(principals)[held.value := Returned(old(principals)[held.value], t)], t - settings.window)
      ensures queued == old(queued) - if running then 0 else 1
      ensures active == old(active) - if running then 1 else 0
      ensures admissionFree == old(admissionFree) + if globalAcquired then 1 else 0
      ensures log == old(log).(requests := old(log).requests - {r}, now := t)
      ensures unchanged(`upstreamFree, `upstreamActive, `admissionRejections, `rateRejections, `created)
    {
      if !running {
        queued := queued - 1;
      }
      if held.Some? {
        ReturnPrincipal(held.value, t);
      }
      if globalAcquired {
        if running {
          active := active - 1;
        }
        admissionFree := admissionFree + 1;
      }
      PrunePrincipals(t);
      log := log.(requests := log.requests - {r}, now := t);
    }

    method DropExpired(key: Key, cutoff: real)
      requires key in principals
      modifies this`principals
      ensures principals == old(principals)[key :=
        old(principals)[key].(arrivals := Unexpired(old(principals)[key].arrivals, cutoff))]
    {
      while principals[key].arrivals != [] && principals[key].arrivals[0] <= cutoff
        invariant key in principals
        invariant principals == old(principals)[key :=
          old(principals)[key].(arrivals := principals[key].arrivals)]
        invariant Unexpired(principals[key].arrivals, cutoff) == Unexpired(old(principals)[key].arrivals, cutoff)
        decreases |principals[key].arrivals|
      {
        principals := principals[key := principals[key].(arrivals := principals[key].arrivals[1..])];
      }
    }

    method ChargeRate(key: Key, t: real) returns (charge: bool)
      requires key in principals
      modifies this`principals, this`rateRejections
      ensures var before := old(principals)[key];
        var kept := Unexpired(before.arrivals, t - settings.window);
        && charge == (|kept| < settings.principalRateLimit)
        && rateRejections == old(rateRejections) + (if charge then 0 else 1)
        && principals == old(principals)[key :=
             if charge then before.(arrivals := kept + [t], lastUsed := t) else before.(arrivals := kept)]
    {
      DropExpired(key, t - settings.window);
      charge := |principals[key].arrivals| < settings.principalRateLimit;
      if charge {
        principals := principals[key := principals[key].(arrivals := principals[key].arrivals + [t], lastUsed := t)];
      } else {
        rateRejections := rateRejections + 1;
      }
    }

    method ReturnPrincipal(key: Key, t: real)
      requires key in principals && principals[key].references > 0
      modifies this`principals
      ensures principals == old(principals)[key := Returned(old(principals)[key], t)]
    {
      principals := principals[key := principals[key].(free := principals[key].free + 1)];
      principals := principals[key := principals[key].(lastUsed := t)];
      ReleaseReference(key);
    }

    /** Visit the budgets one by one: expire arrivals, and drop the budgets found idle. */
    method PrunePrincipals(t: real)
      modifies this`principals
      ensures principals == Pruned(old(principals), t - settings.window)
    {
      var cutoff := t - settings.window;
      var pending := principals.Keys;
      ghost var visited := {};
      while pending != {}
        invariant visited + pending == old(principals).Keys && visited !! pending
        invariant pending <= principals.Keys <= old(principals).Keys
        invariant forall k :: k in pending ==> principals[k] == old(principals)[k]
        invariant forall k :: k in visited ==> (k in principals <==> !Idle(old(principals)[k], cutoff))
        invariant forall k :: k in visited && k in principals ==> principals[k] == Swept(old(principals)[k], cutoff)
      {
        var key :| key in pending;
        DropExpired(key, cutoff);
        if principals[key].references == 0 && principals[key].arrivals == [] && principals[key].lastUsed <= cutoff {
          principals := principals - {key};
        }
        pending, visited := pending - {key}, visited + {key};
      }
    }
  }

  /** Run a controller through any legal sequence of events: it stays the state of the protocol, and is safe. */
  method RunController(settings: Settings, start: real, steps: seq<Step>) returns (controller: AdmissionController)
    requires Legal(Initial(settings, start), steps)
    ensures fresh(controller) && controller.View() == After(Initial(settings, start), steps)
    ensures forall key, from :: Safe(controller.View(), key, from)
    ensures forall r, q, i, j :: SharesAsArrived(controller.View(), steps, r, q, i, j)
  {
    controller := new AdmissionController(settings, start);
    var keys: map<nat, Key> := map[];
    for n := 0 to |steps|
      invariant fresh(controller) && controller.Valid() && Remembers(controller.View(), keys)
      invariant Legal(controller.View(), steps[n..])
      invariant After(controller.View(), steps[n..]) == After(Initial(settings, start), steps)
    {
      assert steps[n..][0] == steps[n] && steps[n..][1..] == steps[n + 1..];
      keys := controller.Handle(steps[n].event, steps[n].at, keys);
    }
    forall key, from ensures Safe(controller.View(), key, from) {
      RunsAreSafe(settings, start, steps, key, from);
    }
    forall r, q, i, j ensures SharesAsArrived(controller.View(), steps, r, q, i, j) {
      RunsShareBudgets(settings, start, steps, r, q, i, j);
    }
  }
}
