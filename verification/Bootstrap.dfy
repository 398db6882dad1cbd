/** The scanner loop and the hedge task as the runtime runs them, cut at their awaits: each method is
    one section that no other coroutine can interrupt. */
module Bootstrap {
  import opened Prelude
  import opened Settings
  import opened Opportunities
  import opened ExposureManager
  import opened BalanceManager
  import opened RiskEngine
  import opened Dispatch
  import HedgeCoordinator

  class Runtime {
    const settings: Settings
    const risk: RiskEngine
    const exposure: ExposureManager
    const balances: BalanceManager
    /** Hedge tasks ever created, with the variables their coroutine carries. */
    var tasks: seq<Task>
    /** The decision the scanner loop holds while it persists the opportunity. */
    var pending: Option<Deal>

    ghost function View(): System
      reads this, exposure, balances
    {
      System(exposure.View(), balances.reserved, tasks, pending)
    }

    constructor (settings: Settings, risk: RiskEngine, exposure: ExposureManager, balances: BalanceManager)
      requires risk.settings == settings
      requires exposure.View() == NO_EXPOSURE && balances.reserved == map[]
      ensures this.settings == settings && this.risk == risk && this.exposure == exposure && this.balances == balances
      ensures View() == IDLE
    {
      this.settings, this.risk, this.exposure, this.balances := settings, risk, exposure, balances;
      tasks, pending := [], None;
    }

    /** Scanner loop, up to the persistence await. */
    method EvaluateOpportunity(
        opp: Opportunity, now: real, today: int, killed: bool, tripped: bool, losses: nat, whitelisted: bool, healthy: bool)
      requires risk.settings == settings && pending.None?
      modifies this`pending
      ensures
        var c := old(risk.ConditionsFor(
                       opp, now, today, killed, tripped, losses, whitelisted, healthy, exposure, balances));
        && View() == Apply(settings, old(View()), Evaluate(opp, c))
        && Evaluate(opp, c) == WithBalances(balances.balances, old(View()), Evaluate(opp, c))
    {
      var d := risk.Evaluate(opp, now, today, killed, tripped, losses, whitelisted, healthy, exposure, balances);
      if d.Approved? {
        pending := Some(Deal(opp, d.amount, d.notional));
      }
    }

    /** Scanner loop, after the await: reserve both assets, count both venues, create the task, and
        let the symbol cool down. */
    method DispatchApproved(now: real, cooldown: real)
      requires pending.Some?
      modifies this, exposure, balances`reserved, risk`cooldownUntil
      ensures View() == Apply(settings, old(View()), Event.Dispatch)
      ensures risk.cooldownUntil == old(risk.cooldownUntil)[old(pending).value.opp.symbol := now + cooldown]
    {
      var d := pending.value;
      var t := Task(d, Spawned);
      balances.Reserve(d.opp.buyExchange, d.opp.symbol.quote, d.notional);
      balances.Reserve(d.opp.sellExchange, d.opp.symbol.base, d.amount);
      exposure.Add(d.opp.buyExchange, d.notional, Pre(|tasks|));
      exposure.Add(d.opp.sellExchange, d.notional, Pre(|tasks|));
      tasks := tasks + [t];
      pending := None;
      risk.SetCooldown(d.opp.symbol, now, cooldown);
    }

    /** First section of a task: give the pre-exposure back and, unless a gate stops the hedge, take
        its own. */
    method StartHedge(i: nat, stopped: bool)
      requires i < |tasks| && tasks[i].phase.Spawned?
      modifies this`tasks, exposure
      ensures View() == Apply(settings, old(View()), Start(i, stopped))
    {
      var d := tasks[i].deal;
      exposure.Release(d.opp.buyExchange, d.notional, Pre(i));
      exposure.Release(d.opp.sellExchange, d.notional, Pre(i));
      if stopped {
        tasks := tasks[i := Task(d, Settled)];
      } else {
        exposure.Add(d.opp.buyExchange, d.notional, Own(i));
        exposure.Add(d.opp.sellExchange, d.notional, Own(i));
        tasks := tasks[i := Task(d, Trading)];
      }
    }

    /** The maker-taker executor keeps the pre-exposure until the task finishes. */
    method StartMakerTaker(i: nat)
      requires i < |tasks| && tasks[i].phase.Spawned?
      modifies this`tasks
      ensures View() == Apply(settings, old(View()), StartMaker(i))
    {
      tasks := tasks[i := tasks[i].(phase := Making)];
    }

    /** Last section of the execution itself: release, unless an exception got past the release. */
    method SettleHedge(i: nat, raised: bool)
      requires i < |tasks| && tasks[i].phase.Trading?
      modifies this`tasks, exposure
      ensures View() == Apply(settings, old(View()), Settle(i, raised))
    {
      var d := tasks[i].deal;
      if raised {
        tasks := tasks[i := Task(d, Broken)];
      } else {
        exposure.Release(d.opp.buyExchange, d.notional, Own(i));
        exposure.Release(d.opp.sellExchange, d.notional, Own(i));
        tasks := tasks[i := Task(d, Settled)];
      }
    }

    /** The `finally` clause of a task. */
    method FinishHedge(i: nat)
      requires i < |tasks| && tasks[i].phase in {Settled, Broken, Making}
      modifies this`tasks, exposure, balances`reserved
      ensures View() == Apply(settings, old(View()), Finish(i))
    {
      var t := tasks[i];
      var d := t.deal;
      balances.ReleaseReserve(d.opp.buyExchange, d.opp.symbol.quote, d.notional);
      balances.ReleaseReserve(d.opp.sellExchange, d.opp.symbol.base, d.amount);
      if t.phase.Making? {
        exposure.Release(d.opp.buyExchange, d.notional, Pre(i));
        exposure.Release(d.opp.sellExchange, d.notional, Pre(i));
      }
      tasks := tasks[i := Task(d, if t.phase.Broken? then Lost else Finished)];
    }
  }

  /** The sections of one task that its execution accounts for: a start that a gate stops, or a start
      and a settlement. */
  function Executed(st: Settings, s: System, i: nat, stopped: bool, raised: bool): System {
    var started := Apply(st, s, Start(i, stopped));
    if stopped then started else Apply(st, started, Settle(i, raised))
  }

  /** The protocol counts what the coordinator counts: the approved notional is the coordinator's
      planning notional, and the sections of a task move the exposure figures exactly as one
      execution of the coordinator does after the pre-exposure is handed back, whether a gate stops
      it, it returns or it raises. */
  lemma ProtocolMatchesCoordinator(
      w: HedgeCoordinator.Wiring, s: System, i: nat, world: HedgeCoordinator.World, c: Conditions)
    requires TaskIn(s, i, Spawned)
    requires
      var d := s.tasks[i].deal;
      Decide(w.st, d.opp, c) == Approved(d.amount, d.notional) && 0.0 < d.notional
    ensures
      var d := s.tasks[i].deal;
      var handed := s.exposure.ReleasePair(d.opp.buyExchange, d.opp.sellExchange, d.notional, Pre(i));
      var stopped := HedgeCoordinator.GateVerdict(w.st, w.fees, d.opp, d.amount, world.entry).Stop?;
      var raised := !HedgeCoordinator.Execution(w, d.opp, d.amount, world).Returned?;
      && d.notional == HedgeCoordinator.PlanningNotional(d.opp, d.amount)
      && Executed(w.st, s, i, stopped, raised).exposure
         == HedgeCoordinator.ExposureOfExecution(handed, w, d.opp, d.amount, world, Own(i))
  {
    var d := s.tasks[i].deal;
    var raised := !HedgeCoordinator.Execution(w, d.opp, d.amount, world).Returned?;
    SettledMatchesTrade(w.st, s, i, raised, c);
  }

  lemma SettledMatchesTrade(st: Settings, s: System, i: nat, raised: bool, c: Conditions)
    requires TaskIn(s, i, Spawned)
    requires
      var d := s.tasks[i].deal;
      Decide(st, d.opp, c) == Approved(d.amount, d.notional) && 0.0 < d.notional
    ensures
      var d := s.tasks[i].deal;
      var handed := s.exposure.ReleasePair(d.opp.buyExchange, d.opp.sellExchange, d.notional, Pre(i));
      && d.notional == HedgeCoordinator.PlanningNotional(d.opp, d.amount)
      && Apply(st, Apply(st, s, Start(i, false)), Settle(i, raised)).exposure
         == HedgeCoordinator.ExposureOfTrade(handed, d.opp, d.amount, raised, Own(i))
  {
    var n := Apply(st, s, Start(i, false));
    assert n.tasks[i] == s.tasks[i].(phase := Trading);
    assert TaskIn(n, i, Trading);
  }
}
