/** The dispatch protocol: one scanner loop and any number of hedge tasks, interleaving wherever the
    code awaits, over shared exposure figures and balance reservations. */
module Dispatch {
  import opened Prelude
  import opened Settings
  import opened Opportunities
  import opened ExposureManager
  import opened BalanceManager
  import opened RiskEngine

  /** An approved opportunity on its way to a task. */
  datatype Deal = Deal(opp: Opportunity, amount: real, notional: real)

  /** Where a hedge task stands.  Spawned: created, its first section not yet run.  Trading: legs
      submitted.  Making: handed to the maker-taker executor.  Settled: exposure released, waiting
      to finish.  Broken: the execution raised, exposure kept.  Finished and Lost: the reservation
      has been released too, after Settled (or Making) and after Broken respectively. */
  datatype Phase = Spawned | Trading | Making | Settled | Broken | Finished | Lost

  datatype Task = Task(deal: Deal, phase: Phase) {
    predicate HoldsPre() {
      phase.Spawned? || phase.Making?
    }

    predicate HoldsOwn() {
      phase.Trading? || phase.Broken? || phase.Lost?
    }

    predicate HoldsReserve() {
      !phase.Finished? && !phase.Lost?
    }

    function Buy(): Exchange { deal.opp.buyExchange }
    function Sell(): Exchange { deal.opp.sellExchange }
    function QuoteAccount(): Account { (Buy(), deal.opp.symbol.quote) }
    function BaseAccount(): Account { (Sell(), deal.opp.symbol.base) }
  }

  datatype System = System(
    exposure: Exposure,
    reserved: map<Account, real>,
    tasks: seq<Task>,
    pending: Option<Deal>)

  const IDLE := System(NO_EXPOSURE, map[], [], None)

  /** The atomic sections between two awaits.  `Evaluate` ends at the persistence await between the
      risk decision and the reservation; `conditions` supplies what the decision reads outside this
      system. */
  datatype Event =
    | Evaluate(opp: Opportunity, conditions: Conditions)
    | Dispatch
    | Start(task: nat, stopped: bool)
    | StartMaker(task: nat)
    | Settle(task: nat, raised: bool)
    | Finish(task: nat)

  /** The decision reads exposure and open hedges from the shared managers. */
  function Seen(s: System, opp: Opportunity, c: Conditions): Conditions {
    c.(inFlightBuy := s.exposure.InFlight(opp.buyExchange),
       inFlightSell := s.exposure.InFlight(opp.sellExchange),
       openCount := |s.exposure.open|)
  }

  function ReserveFor(reserved: map<Account, real>, t: Task): map<Account, real> {
    AddTo(AddTo(reserved, t.QuoteAccount(), t.deal.notional), t.BaseAccount(), t.deal.amount)
  }

  function ReleaseReserveOf(reserved: map<Account, real>, t: Task): map<Account, real> {
    TakeFrom(TakeFrom(reserved, t.QuoteAccount(), t.deal.notional), t.BaseAccount(), t.deal.amount)
  }

  predicate TaskIn(s: System, i: nat, phase: Phase) {
    i < |s.tasks| && s.tasks[i].phase == phase
  }

  function Goto(s: System, i: nat, phase: Phase): System
    requires i < |s.tasks|
  {
    s.(tasks := s.tasks[i := s.tasks[i].(phase := phase)])
  }

  /** One atomic section; an event that does not apply changes nothing. */
  function Apply(st: Settings, s: System, e: Event): System {
    match e
    case Evaluate(opp, conditions) =>
      if s.pending.Some? then s
      else
        var d := Decide(st, opp, Seen(s, opp, conditions));
        if d.Approved? then s.(pending := Some(Deal(opp, d.amount, d.notional))) else s
    case Dispatch =>
      if s.pending.None? then s
      else
        var t := Task(s.pending.value, Spawned);
        System(
          s.exposure.AddPair(t.Buy(), t.Sell(), t.deal.notional, Pre(|s.tasks|)),
          ReserveFor(s.reserved, t), s.tasks + [t], None)
    case Start(i, stopped) =>
      if !TaskIn(s, i, Spawned) then s
      else
        var t := s.tasks[i];
        var handed := s.exposure.ReleasePair(t.Buy(), t.Sell(), t.deal.notional, Pre(i));
        if stopped then Goto(s, i, Settled).(exposure := handed)
        else Goto(s, i, Trading).(exposure := handed.AddPair(t.Buy(), t.Sell(), t.deal.notional, Own(i)))
    case StartMaker(i) =>
      if !TaskIn(s, i, Spawned) then s else Goto(s, i, Making)
    case Settle(i, raised) =>
      if !TaskIn(s, i, Trading) then s
      else if raised then Goto(s, i, Broken)
      else
        var t := s.tasks[i];
        Goto(s, i, Settled).(exposure := s.exposure.ReleasePair(t.Buy(), t.Sell(), t.deal.notional, Own(i)))
    case Finish(i) =>
      if i >= |s.tasks| then s
      else
        var t := s.tasks[i];
        match t.phase
        case Settled => Goto(s, i, Finished).(reserved := ReleaseReserveOf(s.reserved, t))
        case Broken => Goto(s, i, Lost).(reserved := ReleaseReserveOf(s.reserved, t))
        case Making =>
          Goto(s, i, Finished)
          .(reserved := ReleaseReserveOf(s.reserved, t),
            exposure := s.exposure.ReleasePair(t.Buy(), t.Sell(), t.deal.notional, Pre(i)))
        case _ => s
  }

  // ---- Sums over tasks ----

  function SumOver(tasks: seq<Task>, f: Task -> real): real {
    if tasks == [] then 0.0 else SumOver(tasks[..|tasks| - 1], f) + f(tasks[|tasks| - 1])
  }

  /** What a task holds in flight on one venue. */
  function InFlightAt(exchange: Exchange): Task -> real {
    (t: Task) =>
      if !(t.HoldsPre() || t.HoldsOwn()) then 0.0
      else
        (if t.Buy() == exchange then t.deal.notional else 0.0)
        + (if t.Sell() == exchange then t.deal.notional else 0.0)
  }

  /** What a task has reserved in one account. */
  function ReservedAt(account: Account): Task -> real {
    (t: Task) =>
      if !t.HoldsReserve() then 0.0
      else
        (if t.QuoteAccount() == account then t.deal.notional else 0.0)
        + (if t.BaseAccount() == account then t.deal.amount else 0.0)
  }

  lemma SumAppend(tasks: seq<Task>, t: Task, f: Task -> real)
    ensures SumOver(tasks + [t], f) == SumOver(tasks, f) + f(t)
  {
    assert (tasks + [t])[..|tasks|] == tasks;
  }

  lemma {:induction false} SumUpdate(tasks: seq<Task>, i: nat, t: Task, f: Task -> real)
    requires i < |tasks|
    ensures SumOver(tasks[i := t], f) == SumOver(tasks, f) - f(tasks[i]) + f(t)
  {
    var init := tasks[..|tasks| - 1];
    if i == |tasks| - 1 {
      assert tasks[i := t][..|tasks| - 1] == init;
    } else {
      assert tasks[i := t][..|tasks| - 1] == init[i := t];
      SumUpdate(init, i, t, f);
    }
  }

  lemma {:induction false} SumAtLeast(tasks: seq<Task>, i: nat, f: Task -> real)
    requires i < |tasks| && forall t :: t in tasks ==> 0.0 <= f(t)
    ensures f(tasks[i]) <= SumOver(tasks, f)
  {
    var init := tasks[..|tasks| - 1];
    assert forall t :: t in init ==> t in tasks;
    if i < |tasks| - 1 {
      SumAtLeast(init, i, f);
      assert tasks[|tasks| - 1] in tasks;
    } else {
      SumNonNegative(init, f);
    }
  }

  lemma {:induction false} SumNonNegative(tasks: seq<Task>, f: Task -> real)
    requires forall t :: t in tasks ==> 0.0 <= f(t)
    ensures 0.0 <= SumOver(tasks, f)
  {
    if tasks != [] {
      assert tasks[|tasks| - 1] in tasks && forall t :: t in tasks[..|tasks| - 1] ==> t in tasks;
      SumNonNegative(tasks[..|tasks| - 1], f);
    }
  }

  // ---- The invariant ----

  ghost predicate SoundDeal(d: Deal) {
    0.0 < d.amount && 0.0 < d.notional && d.opp.buyExchange != d.opp.sellExchange
  }

  /** In-flight figures are the sums over the tasks that hold exposure. */
  ghost predicate ExposureAccounted(s: System) {
    forall ex: Exchange :: s.exposure.InFlight(ex) == SumOver(s.tasks, InFlightAt(ex))
  }

  ghost predicate ReserveAccounted(s: System) {
    forall a: Account :: Held(s.reserved, a) == SumOver(s.tasks, ReservedAt(a))
  }

  /** The open set lists exactly the identifiers tasks hold. */
  ghost predicate OpenAccounted(s: System) {
    && (forall id :: id in s.exposure.open ==> id.n < |s.tasks|)
    && (forall i :: 0 <= i < |s.tasks| ==>
          && (Pre(i) in s.exposure.open <==> s.tasks[i].HoldsPre())
          && (Own(i) in s.exposure.open <==> s.tasks[i].HoldsOwn()))
  }

  ghost predicate WithinCaps(st: Settings, s: System) {
    && (forall ex: Exchange :: s.exposure.InFlight(ex) <= st.maxExposurePerExchange)
    && |s.exposure.open| <= st.maxTotalOpenHedges
  }

  /** A decision waiting for its reservation still fits. */
  ghost predicate PendingFits(st: Settings, s: System) {
    s.pending.Some? ==>
      var d := s.pending.value;
      && SoundDeal(d)
      && s.exposure.InFlight(d.opp.buyExchange) + d.notional <= st.maxExposurePerExchange
      && s.exposure.InFlight(d.opp.sellExchange) + d.notional <= st.maxExposurePerExchange
      && |s.exposure.open| < st.maxTotalOpenHedges
  }

  ghost predicate SoundTasks(s: System) {
    forall t :: t in s.tasks ==> SoundDeal(t.deal)
  }

  ghost predicate Inv(st: Settings, s: System) {
    && SoundTasks(s) && ExposureAccounted(s) && ReserveAccounted(s) && OpenAccounted(s)
    && WithinCaps(st, s) && PendingFits(st, s)
  }

  ghost predicate SaneSettings(st: Settings) {
    0.0 < st.minOrderSizeQuote && 0.0 <= st.maxExposurePerExchange && 0 <= st.maxTotalOpenHedges
  }

  /** The scanner only pairs distinct venues, at prices that are not negative. */
  ghost predicate SaneEvent(e: Event) {
    e.Evaluate? ==> e.opp.buyExchange != e.opp.sellExchange && 0.0 <= e.opp.buyPrice
  }

  lemma IdleIsSound(st: Settings)
    requires SaneSettings(st)
    ensures Inv(st, IDLE)
  {}

  /** No clamp at zero ever acts: what a task is about to take back is held. */
  lemma HeldCoversTask(st: Settings, s: System, i: nat)
    requires Inv(st, s) && i < |s.tasks|
    ensures
      var t := s.tasks[i];
      && (t.HoldsPre() || t.HoldsOwn() ==>
            t.deal.notional <= s.exposure.InFlight(t.Buy()) && t.deal.notional <= s.exposure.InFlight(t.Sell()))
      && (t.HoldsReserve() ==>
            && t.deal.notional <= Held(s.reserved, t.QuoteAccount())
            && t.deal.amount <= Held(s.reserved, t.BaseAccount()))
  {
    var t := s.tasks[i];
    assert t in s.tasks;
    SumAtLeast(s.tasks, i, InFlightAt(t.Buy()));
    SumAtLeast(s.tasks, i, InFlightAt(t.Sell()));
    SumAtLeast(s.tasks, i, ReservedAt(t.QuoteAccount()));
    SumAtLeast(s.tasks, i, ReservedAt(t.BaseAccount()));
  }

  /** The identifier task `i` holds exposure under, if any. */
  function HeldIds(t: Task, i: nat): set<HedgeId> {
    if t.HoldsPre() then {Pre(i)} else if t.HoldsOwn() then {Own(i)} else {}
  }

  /** The figures after task `i` moved to another phase differ by what it held before and holds
      now, and its identifiers are open as it now holds them. */
  ghost predicate FiguresFollow(s: System, i: nat, phase: Phase, exposure: Exposure, reserved: map<Account, real>)
    requires i < |s.tasks|
  {
    var t := s.tasks[i];
    var u := t.(phase := phase);
    && (forall ex: Exchange :: exposure.InFlight(ex) == s.exposure.InFlight(ex) - InFlightAt(ex)(t) + InFlightAt(ex)(u))
    && (forall a: Account :: Held(reserved, a) == Held(s.reserved, a) - ReservedAt(a)(t) + ReservedAt(a)(u))
    && exposure.open == s.exposure.open - {Pre(i), Own(i)} + HeldIds(u, i)
  }

  lemma PhaseChangeKeepsAccounts(s: System, i: nat, phase: Phase, exposure: Exposure, reserved: map<Account, real>)
    requires ExposureAccounted(s) && ReserveAccounted(s) && OpenAccounted(s) && i < |s.tasks|
    requires FiguresFollow(s, i, phase, exposure, reserved)
    ensures
      var n := Goto(s, i, phase).(exposure := exposure, reserved := reserved);
      ExposureAccounted(n) && ReserveAccounted(n) && OpenAccounted(n)
  {
    var u := s.tasks[i].(phase := phase);
    var n := Goto(s, i, phase).(exposure := exposure, reserved := reserved);
    forall ex: Exchange
      ensures n.exposure.InFlight(ex) == SumOver(n.tasks, InFlightAt(ex))
    {
      SumUpdate(s.tasks, i, u, InFlightAt(ex));
    }
    forall a: Account
      ensures Held(n.reserved, a) == SumOver(n.tasks, ReservedAt(a))
    {
      SumUpdate(s.tasks, i, u, ReservedAt(a));
    }
  }

  /** Putting at most one of two identifiers back where at most one was never makes a set larger,
      unless neither was there. */
  lemma SwapNeverGrows<T>(s: set<T>, rest: set<T>, a: T, b: T, back: set<T>)
    requires a != b && rest == s - {a, b} && !(a in s && b in s)
    requires back == {} || ((back == {a} || back == {b}) && (a in s || b in s))
    ensures |rest + back| <= |s|
  {
    if a in s {
      assert s == rest + {a};
    } else if b in s {
      assert s == rest + {b};
    } else {
      assert s == rest;
    }
    assert back == {} ==> rest + back == rest;
  }

  lemma OpenNeverGrows(s: System, i: nat, phase: Phase, open: set<HedgeId>)
    requires OpenAccounted(s) && i < |s.tasks|
    requires
      var t := s.tasks[i];
      var u := t.(phase := phase);
      && (u.HoldsPre() || u.HoldsOwn() ==> t.HoldsPre() || t.HoldsOwn())
      && open == s.exposure.open - {Pre(i), Own(i)} + HeldIds(u, i)
    ensures |open| <= |s.exposure.open|
  {
    var u := s.tasks[i].(phase := phase);
    var rest := s.exposure.open - {Pre(i), Own(i)};
    SwapNeverGrows(s.exposure.open, rest, Pre(i), Own(i), HeldIds(u, i));
  }

  /** Moving a task on, with the figures that follow, keeps the invariant, as long as a task that
      holds no exposure does not take any. */
  lemma PhaseChangeKeepsInv(st: Settings, s: System, i: nat, phase: Phase, exposure: Exposure, reserved: map<Account, real>)
    requires Inv(st, s) && i < |s.tasks|
    requires FiguresFollow(s, i, phase, exposure, reserved)
    requires
      var t := s.tasks[i];
      var u := t.(phase := phase);
      u.HoldsPre() || u.HoldsOwn() ==> t.HoldsPre() || t.HoldsOwn()
    ensures Inv(st, Goto(s, i, phase).(exposure := exposure, reserved := reserved))
  {
    var t := s.tasks[i];
    assert t in s.tasks;
    PhaseChangeKeepsAccounts(s, i, phase, exposure, reserved);
    OpenNeverGrows(s, i, phase, exposure.open);
    assert forall ex: Exchange :: exposure.InFlight(ex) <= s.exposure.InFlight(ex);
  }

  lemma EvaluateKeepsInv(st: Settings, s: System, opp: Opportunity, c: Conditions)
    requires SaneSettings(st) && Inv(st, s) && SaneEvent(Evaluate(opp, c))
    ensures Inv(st, Apply(st, s, Evaluate(opp, c)))
  {
    if s.pending.None? && Decide(st, opp, Seen(s, opp, c)).Approved? {
      ApprovalFitsUnderCaps(st, opp, Seen(s, opp, c));
    }
  }

  /** Counting a new task's exposure and reservation keeps every figure the sum it should be. */
  lemma DispatchKeepsFigures(s: System, t: Task)
    requires ExposureAccounted(s) && ReserveAccounted(s)
    requires SoundDeal(t.deal) && t.phase.Spawned?
    ensures
      var n := System(
                 s.exposure.AddPair(t.Buy(), t.Sell(), t.deal.notional, Pre(|s.tasks|)), ReserveFor(s.reserved, t),
                 s.tasks + [t], None);
      && ExposureAccounted(n) && ReserveAccounted(n)
      && (forall ex: Exchange :: n.exposure.InFlight(ex) == s.exposure.InFlight(ex) + InFlightAt(ex)(t))
  {
    var exposure := s.exposure.AddPair(t.Buy(), t.Sell(), t.deal.notional, Pre(|s.tasks|));
    forall ex: Exchange
      ensures exposure.InFlight(ex) == SumOver(s.tasks + [t], InFlightAt(ex))
      ensures exposure.InFlight(ex) == s.exposure.InFlight(ex) + InFlightAt(ex)(t)
    {
      AddPairFigures(s.exposure, t.Buy(), t.Sell(), t.deal.notional, Pre(|s.tasks|), ex);
      SumAppend(s.tasks, t, InFlightAt(ex));
    }
    forall a: Account
      ensures Held(ReserveFor(s.reserved, t), a) == SumOver(s.tasks + [t], ReservedAt(a))
    {
      SumAppend(s.tasks, t, ReservedAt(a));
    }
  }

  lemma DispatchKeepsCaps(st: Settings, s: System, t: Task, exposure: Exposure)
    requires WithinCaps(st, s) && PendingFits(st, s) && s.pending == Some(t.deal)
    requires exposure == s.exposure.AddPair(t.Buy(), t.Sell(), t.deal.notional, Pre(|s.tasks|))
    ensures forall ex: Exchange :: exposure.InFlight(ex) <= st.maxExposurePerExchange
    ensures |exposure.open| <= st.maxTotalOpenHedges
  {
    assert exposure.open == s.exposure.open + {Pre(|s.tasks|)};
    forall ex: Exchange
      ensures exposure.InFlight(ex) <= st.maxExposurePerExchange
    {
      AddPairFigures(s.exposure, t.Buy(), t.Sell(), t.deal.notional, Pre(|s.tasks|), ex);
    }
  }

  lemma DispatchKeepsOpen(s: System, t: Task, n: System)
    requires OpenAccounted(s) && t.phase.Spawned? && n.tasks == s.tasks + [t]
    requires n.exposure.open == s.exposure.open + {Pre(|s.tasks|)}
    ensures OpenAccounted(n)
  {}

  lemma DispatchKeepsInv(st: Settings, s: System)
    requires Inv(st, s)
    ensures Inv(st, Apply(st, s, Event.Dispatch))
  {
    if s.pending.Some? {
      var t := Task(s.pending.value, Spawned);
      var n := Apply(st, s, Event.Dispatch);
      DispatchKeepsFigures(s, t);
      DispatchKeepsCaps(st, s, t, n.exposure);
      AddPairFigures(s.exposure, t.Buy(), t.Sell(), t.deal.notional, Pre(|s.tasks|), t.Buy());
      DispatchKeepsOpen(s, t, n);
    }
  }

  /** Handing the pre-exposure over, or just back, moves the figures as the phase says. */
  lemma StartFigures(s: System, i: nat, ex: Exchange)
    requires TaskIn(s, i, Spawned) && SoundDeal(s.tasks[i].deal)
    requires
      var t := s.tasks[i];
      t.deal.notional <= s.exposure.InFlight(t.Buy()) && t.deal.notional <= s.exposure.InFlight(t.Sell())
    ensures
      var t := s.tasks[i];
      var handed := s.exposure.ReleasePair(t.Buy(), t.Sell(), t.deal.notional, Pre(i));
      var taken := handed.AddPair(t.Buy(), t.Sell(), t.deal.notional, Own(i));
      && handed.InFlight(ex) == s.exposure.InFlight(ex) - InFlightAt(ex)(t)
      && taken.InFlight(ex) == s.exposure.InFlight(ex)
      && handed.open == s.exposure.open - {Pre(i)}
      && taken.open == s.exposure.open - {Pre(i)} + {Own(i)}
  {
    var t := s.tasks[i];
    var handed := s.exposure.ReleasePair(t.Buy(), t.Sell(), t.deal.notional, Pre(i));
    ReleasePairFigures(s.exposure, t.Buy(), t.Sell(), t.deal.notional, Pre(i), ex);
    AddPairFigures(handed, t.Buy(), t.Sell(), t.deal.notional, Own(i), ex);
  }

  lemma StartFollows(s: System, i: nat, stopped: bool, exposure: Exposure)
    requires OpenAccounted(s) && TaskIn(s, i, Spawned) && SoundDeal(s.tasks[i].deal)
    requires
      var t := s.tasks[i];
      var handed := s.exposure.ReleasePair(t.Buy(), t.Sell(), t.deal.notional, Pre(i));
      && t.deal.notional <= s.exposure.InFlight(t.Buy()) && t.deal.notional <= s.exposure.InFlight(t.Sell())
      && exposure == if stopped then handed else handed.AddPair(t.Buy(), t.Sell(), t.deal.notional, Own(i))
    ensures FiguresFollow(s, i, if stopped then Settled else Trading, exposure, s.reserved)
  {
    var t := s.tasks[i];
    forall ex: Exchange
      ensures exposure.InFlight(ex)
              == s.exposure.InFlight(ex) - InFlightAt(ex)(t)
                 + InFlightAt(ex)(t.(phase := if stopped then Settled else Trading))
    {
      StartFigures(s, i, ex);
    }
    StartFigures(s, i, t.Buy());
    assert Own(i) !in s.exposure.open;
  }

  lemma StartKeepsInv(st: Settings, s: System, i: nat, stopped: bool)
    requires Inv(st, s)
    ensures Inv(st, Apply(st, s, Start(i, stopped)))
  {
    if TaskIn(s, i, Spawned) {
      var t := s.tasks[i];
      var handed := s.exposure.ReleasePair(t.Buy(), t.Sell(), t.deal.notional, Pre(i));
      var exposure := if stopped then handed else handed.AddPair(t.Buy(), t.Sell(), t.deal.notional, Own(i));
      assert t in s.tasks;
      HeldCoversTask(st, s, i);
      StartFollows(s, i, stopped, exposure);
      PhaseChangeKeepsInv(st, s, i, if stopped then Settled else Trading, exposure, s.reserved);
    }
  }

  lemma StartMakerKeepsInv(st: Settings, s: System, i: nat)
    requires Inv(st, s)
    ensures Inv(st, Apply(st, s, StartMaker(i)))
  {
    if TaskIn(s, i, Spawned) {
      assert Pre(i) in s.exposure.open && Own(i) !in s.exposure.open;
      PhaseChangeKeepsInv(st, s, i, Making, s.exposure, s.reserved);
    }
  }

  lemma SettleFollows(s: System, i: nat, raised: bool, exposure: Exposure)
    requires OpenAccounted(s) && TaskIn(s, i, Trading) && SoundDeal(s.tasks[i].deal)
    requires
      var t := s.tasks[i];
      && t.deal.notional <= s.exposure.InFlight(t.Buy()) && t.deal.notional <= s.exposure.InFlight(t.Sell())
      && exposure
         == if raised then s.exposure else s.exposure.ReleasePair(t.Buy(), t.Sell(), t.deal.notional, Own(i))
    ensures FiguresFollow(s, i, if raised then Broken else Settled, exposure, s.reserved)
  {
    var t := s.tasks[i];
    assert Pre(i) !in s.exposure.open && Own(i) in s.exposure.open;
    forall ex: Exchange
      ensures exposure.InFlight(ex) == s.exposure.InFlight(ex) - (if raised then 0.0 else InFlightAt(ex)(t))
    {
      ReleasePairFigures(s.exposure, t.Buy(), t.Sell(), t.deal.notional, Own(i), ex);
    }
  }

  lemma SettleKeepsInv(st: Settings, s: System, i: nat, raised: bool)
    requires Inv(st, s)
    ensures Inv(st, Apply(st, s, Settle(i, raised)))
  {
    if TaskIn(s, i, Trading) {
      var t := s.tasks[i];
      var exposure :=
        if raised then s.exposure else s.exposure.ReleasePair(t.Buy(), t.Sell(), t.deal.notional, Own(i));
      assert t in s.tasks;
      HeldCoversTask(st, s, i);
      SettleFollows(s, i, raised, exposure);
      PhaseChangeKeepsInv(st, s, i, if raised then Broken else Settled, exposure, s.reserved);
    }
  }

  /** The reservation goes back in full. */
  lemma ReserveReturned(s: System, i: nat, a: Account)
    requires i < |s.tasks| && SoundDeal(s.tasks[i].deal)
    requires s.tasks[i].deal.notional <= Held(s.reserved, s.tasks[i].QuoteAccount())
    requires s.tasks[i].deal.amount <= Held(s.reserved, s.tasks[i].BaseAccount())
    requires s.tasks[i].HoldsReserve()
    ensures Held(ReleaseReserveOf(s.reserved, s.tasks[i]), a) == Held(s.reserved, a) - ReservedAt(a)(s.tasks[i])
  {
    assert s.tasks[i].QuoteAccount() != s.tasks[i].BaseAccount();
  }

  lemma FinishKeepsInv(st: Settings, s: System, i: nat)
    requires Inv(st, s)
    ensures Inv(st, Apply(st, s, Finish(i)))
  {
    if i < |s.tasks| && s.tasks[i].phase in {Settled, Broken, Making} {
      var t := s.tasks[i];
      assert t in s.tasks;
      HeldCoversTask(st, s, i);
      var phase := if t.phase.Broken? then Lost else Finished;
      var reserved := ReleaseReserveOf(s.reserved, t);
      var exposure :=
        if t.phase.Making? then s.exposure.ReleasePair(t.Buy(), t.Sell(), t.deal.notional, Pre(i)) else s.exposure;
      assert Apply(st, s, Finish(i)) == Goto(s, i, phase).(exposure := exposure, reserved := reserved);
      FinishFigures(s, i, phase, exposure, reserved);
      PhaseChangeKeepsInv(st, s, i, phase, exposure, reserved);
    }
  }

  lemma FinishFigures(s: System, i: nat, phase: Phase, exposure: Exposure, reserved: map<Account, real>)
    requires i < |s.tasks| && OpenAccounted(s)
    requires
      var t := s.tasks[i];
      && SoundDeal(t.deal) && t.phase in {Settled, Broken, Making}
      && phase == (if t.phase.Broken? then Lost else Finished)
      && t.deal.notional <= Held(s.reserved, t.QuoteAccount()) && t.deal.amount <= Held(s.reserved, t.BaseAccount())
      && (t.phase.Making? ==>
            t.deal.notional <= s.exposure.InFlight(t.Buy()) && t.deal.notional <= s.exposure.InFlight(t.Sell()))
      && reserved == ReleaseReserveOf(s.reserved, t)
      && exposure ==
         if t.phase.Making? then s.exposure.ReleasePair(t.Buy(), t.Sell(), t.deal.notional, Pre(i)) else s.exposure
    ensures FiguresFollow(s, i, phase, exposure, reserved)
  {
    var t := s.tasks[i];
    var u := t.(phase := phase);
    forall a: Account
      ensures Held(reserved, a) == Held(s.reserved, a) - ReservedAt(a)(t) + ReservedAt(a)(u)
    {
      ReserveReturned(s, i, a);
    }
    forall ex: Exchange
      ensures exposure.InFlight(ex) == s.exposure.InFlight(ex) - InFlightAt(ex)(t) + InFlightAt(ex)(u)
    {
      if t.phase.Making? {
        ReleasePairFigures(s.exposure, t.Buy(), t.Sell(), t.deal.notional, Pre(i), ex);
      }
    }
  }

  lemma StepKeepsInv(st: Settings, s: System, e: Event)
    requires SaneSettings(st) && Inv(st, s) && SaneEvent(e)
    ensures Inv(st, Apply(st, s, e))
  {
    match e {
      case Evaluate(opp, c) => EvaluateKeepsInv(st, s, opp, c);
      case Dispatch => DispatchKeepsInv(st, s);
      case Start(i, stopped) => StartKeepsInv(st, s, i, stopped);
      case StartMaker(i) => StartMakerKeepsInv(st, s, i);
      case Settle(i, raised) => SettleKeepsInv(st, s, i, raised);
      case Finish(i) => FinishKeepsInv(st, s, i);
    }
  }

  function Run(st: Settings, events: seq<Event>): System {
    if events == [] then IDLE else Apply(st, Run(st, events[..|events| - 1]), events[|events| - 1])
  }

  ghost predicate SaneEvents(events: seq<Event>) {
    forall e :: e in events ==> SaneEvent(e)
  }

  lemma {:induction false} RunKeepsInv(st: Settings, events: seq<Event>)
    requires SaneSettings(st) && SaneEvents(events)
    ensures Inv(st, Run(st, events))
  {
    if events == [] {
      IdleIsSound(st);
    } else {
      assert events[|events| - 1] in events;
      RunKeepsInv(st, events[..|events| - 1]);
      StepKeepsInv(st, Run(st, events[..|events| - 1]), events[|events| - 1]);
    }
  }

  /** Under every interleaving, no venue ever has more in flight than its cap and no more hedges are
      open than allowed. */
  lemma CapsHoldInEveryRun(st: Settings, events: seq<Event>, exchange: Exchange)
    requires SaneSettings(st) && SaneEvents(events)
    ensures Run(st, events).exposure.InFlight(exchange) <= st.maxExposurePerExchange
    ensures |Run(st, events).exposure.open| <= st.maxTotalOpenHedges
  {
    RunKeepsInv(st, events);
  }

  // ---- Runs in which no execution raises ----

  lemma {:induction false} NothingBreaksWithoutExceptions(st: Settings, events: seq<Event>)
    requires forall e :: e in events ==> !(e.Settle? && e.raised)
    ensures forall t :: t in Run(st, events).tasks ==> !t.phase.Broken? && !t.phase.Lost?
  {
    if events != [] {
      var init, last := events[..|events| - 1], events[|events| - 1];
      assert last in events && forall e :: e in init ==> e in events;
      NothingBreaksWithoutExceptions(st, init);
    }
  }

  lemma {:induction false} FinishedHoldNothing(tasks: seq<Task>, f: Task -> real)
    requires forall t :: t in tasks ==> t.phase.Finished? && f(t) == 0.0
    ensures SumOver(tasks, f) == 0.0
  {
    if tasks != [] {
      assert tasks[|tasks| - 1] in tasks && forall t :: t in tasks[..|tasks| - 1] ==> t in tasks;
      FinishedHoldNothing(tasks[..|tasks| - 1], f);
    }
  }

  /** If no execution raises, everything is given back: once every task has finished, nothing is in
      flight, nothing is reserved and no hedge is open. */
  lemma QuietSystemHoldsNothing(st: Settings, events: seq<Event>, exchange: Exchange, account: Account)
    requires SaneSettings(st) && SaneEvents(events)
    requires forall e :: e in events ==> !(e.Settle? && e.raised)
    requires forall t :: t in Run(st, events).tasks ==> t.phase in {Finished, Lost}
    ensures
      var s := Run(st, events);
      s.exposure.InFlight(exchange) == 0.0 && Held(s.reserved, account) == 0.0 && s.exposure.open == {}
  {
    var s := Run(st, events);
    RunKeepsInv(st, events);
    NothingBreaksWithoutExceptions(st, events);
    FinishedHoldNothing(s.tasks, InFlightAt(exchange));
    FinishedHoldNothing(s.tasks, ReservedAt(account));
    assert forall i :: 0 <= i < |s.tasks| ==> s.tasks[i] in s.tasks;
    assert forall id :: id in s.exposure.open ==> id == Pre(id.n) || id == Own(id.n);
  }

  /** A task whose execution raised keeps its notional in flight on both venues for ever. */
  lemma RaisedExposureIsNeverReturned(st: Settings, before: seq<Event>, after: seq<Event>, i: nat)
    requires SaneSettings(st) && SaneEvents(before + after)
    requires i < |Run(st, before).tasks| && Run(st, before).tasks[i].phase in {Broken, Lost}
    ensures
      var s := Run(st, before + after);
      && i < |s.tasks| && s.tasks[i].deal == Run(st, before).tasks[i].deal && s.tasks[i].phase in {Broken, Lost}
      && Own(i) in s.exposure.open
      && s.tasks[i].deal.notional <= s.exposure.InFlight(s.tasks[i].Buy())
      && s.tasks[i].deal.notional <= s.exposure.InFlight(s.tasks[i].Sell())
  {
    BrokenStaysBroken(st, before, after, i);
    RunKeepsInv(st, before + after);
    HeldCoversTask(st, Run(st, before + after), i);
  }

  lemma {:induction false} BrokenStaysBroken(st: Settings, before: seq<Event>, after: seq<Event>, i: nat)
    requires i < |Run(st, before).tasks| && Run(st, before).tasks[i].phase in {Broken, Lost}
    ensures
      var s := Run(st, before + after);
      i < |s.tasks| && s.tasks[i].deal == Run(st, before).tasks[i].deal && s.tasks[i].phase in {Broken, Lost}
  {
    if after == [] {
      assert before + after == before;
    } else {
      var init := after[..|after| - 1];
      assert (before + after)[..|before + after| - 1] == before + init;
      BrokenStaysBroken(st, before, init, i);
      BrokenSurvivesStep(st, Run(st, before + init), after[|after| - 1], i);
    }
  }

  lemma BrokenSurvivesStep(st: Settings, s: System, e: Event, i: nat)
    requires i < |s.tasks| && s.tasks[i].phase in {Broken, Lost}
    ensures
      var n := Apply(st, s, e);
      i < |n.tasks| && n.tasks[i].deal == s.tasks[i].deal && n.tasks[i].phase in {Broken, Lost}
  {}

  // ---- What reservations are for ----

  /** Balance less reservation, as the decision reads it. */
  function Free(balances: map<Account, real>, s: System, a: Account): real {
    Max(0.0, Held(balances, a) - Held(s.reserved, a))
  }

  /** The event with the free balances its decision reads filled in. */
  function WithBalances(balances: map<Account, real>, s: System, e: Event): Event {
    match e
    case Evaluate(opp, conditions) =>
      Evaluate(opp, conditions.(
                 freeQuote := Free(balances, s, (opp.buyExchange, opp.symbol.quote)),
                 freeBase := Free(balances, s, (opp.sellExchange, opp.symbol.base))))
    case _ => e
  }

  /** A run whose decisions read balances that do not change. */
  function FundedRun(st: Settings, balances: map<Account, real>, events: seq<Event>): System {
    if events == [] then IDLE
    else
      var s := FundedRun(st, balances, events[..|events| - 1]);
      Apply(st, s, WithBalances(balances, s, events[|events| - 1]))
  }

  /** What the decision waiting for its reservation will reserve. */
  function PendingShare(s: System, a: Account): real {
    if s.pending.None? then 0.0 else ReservedAt(a)(Task(s.pending.value, Spawned))
  }

  /** No account has more spoken for than it holds. */
  ghost predicate Covered(balances: map<Account, real>, s: System) {
    forall a: Account :: Held(s.reserved, a) + PendingShare(s, a) <= Held(balances, a)
  }

  lemma EvaluateKeepsCovered(
      st: Settings, balances: map<Account, real>, s: System, opp: Opportunity, conditions: Conditions)
    requires SaneSettings(st) && !st.mode.DryRun? && Covered(balances, s)
    requires SaneEvent(Evaluate(opp, conditions))
    ensures Covered(balances, Apply(st, s, WithBalances(balances, s, Evaluate(opp, conditions))))
  {
    var e := WithBalances(balances, s, Evaluate(opp, conditions));
    if s.pending.None? && Decide(st, opp, Seen(s, opp, e.conditions)).Approved? {
      ApprovalFitsUnderCaps(st, opp, Seen(s, opp, e.conditions));
    }
  }

  lemma DispatchKeepsCovered(st: Settings, balances: map<Account, real>, s: System)
    requires Covered(balances, s)
    ensures Covered(balances, Apply(st, s, Event.Dispatch))
  {
    if s.pending.Some? {
      var t := Task(s.pending.value, Spawned);
      forall a: Account
        ensures Held(ReserveFor(s.reserved, t), a) <= Held(balances, a)
      {
        assert Held(ReserveFor(s.reserved, t), a) == Held(s.reserved, a) + PendingShare(s, a);
      }
    }
  }

  lemma FinishKeepsCovered(st: Settings, balances: map<Account, real>, s: System, i: nat)
    requires Inv(st, s) && Covered(balances, s)
    ensures Covered(balances, Apply(st, s, Finish(i)))
  {
    if i < |s.tasks| && s.tasks[i].phase in {Settled, Broken, Making} {
      var t := s.tasks[i];
      assert t in s.tasks;
      HeldCoversTask(st, s, i);
      forall a: Account
        ensures Held(ReleaseReserveOf(s.reserved, t), a) <= Held(s.reserved, a)
      {
        ReserveReturned(s, i, a);
      }
    }
  }

  /** Starting and settling touch no reservation and no waiting decision. */
  lemma ReservedOnlyByDispatch(st: Settings, s: System, e: Event)
    requires e.Start? || e.StartMaker? || e.Settle?
    ensures Apply(st, s, e).reserved == s.reserved && Apply(st, s, e).pending == s.pending
  {}

  lemma StepKeepsCovered(st: Settings, balances: map<Account, real>, s: System, e: Event)
    requires SaneSettings(st) && !st.mode.DryRun? && SaneEvent(e) && Inv(st, s) && Covered(balances, s)
    ensures Covered(balances, Apply(st, s, WithBalances(balances, s, e)))
  {
    match e {
      case Evaluate(opp, c) => EvaluateKeepsCovered(st, balances, s, opp, c);
      case Dispatch => DispatchKeepsCovered(st, balances, s);
      case Finish(i) => FinishKeepsCovered(st, balances, s, i);
      case _ => ReservedOnlyByDispatch(st, s, e);
    }
  }

  /** Concurrent hedges never spend the same balance twice: outside dry run, while balances stay what
      they are, every account's reservations, with the share of the decision still waiting for its
      own, stay within its balance under every interleaving. */
  lemma {:induction false} ReservationsStayWithinBalances(st: Settings, balances: map<Account, real>, events: seq<Event>)
    requires SaneSettings(st) && !st.mode.DryRun? && SaneEvents(events)
    requires forall a: Account :: 0.0 <= Held(balances, a)
    ensures Inv(st, FundedRun(st, balances, events)) && Covered(balances, FundedRun(st, balances, events))
  {
    if events == [] {
      IdleIsSound(st);
    } else {
      var init, last := events[..|events| - 1], events[|events| - 1];
      assert last in events && forall e :: e in init ==> e in events;
      ReservationsStayWithinBalances(st, balances, init);
      FundedStep(st, balances, FundedRun(st, balances, init), last);
    }
  }

  lemma FundedStep(st: Settings, balances: map<Account, real>, s: System, e: Event)
    requires SaneSettings(st) && !st.mode.DryRun? && SaneEvent(e) && Inv(st, s) && Covered(balances, s)
    ensures
      var n := Apply(st, s, WithBalances(balances, s, e));
      Inv(st, n) && Covered(balances, n)
  {
    StepKeepsInv(st, s, WithBalances(balances, s, e));
    StepKeepsCovered(st, balances, s, e);
  }

  // ---- Where deals come from ----

  /** The opportunity was approvable in this state, at the exposure and open hedges it found there. */
  ghost predicate ApprovableIn(st: Settings, s: System, opp: Opportunity, c: Conditions) {
    Approvable(
      st, opp,
      c.(inFlightBuy := s.exposure.InFlight(opp.buyExchange), inFlightSell := s.exposure.InFlight(opp.sellExchange),
         openCount := |s.exposure.open|))
  }

  /** Exactly when an evaluation leaves a deal waiting: none was, and the opportunity is approvable. */
  lemma DealBecomesPendingIff(st: Settings, s: System, opp: Opportunity, c: Conditions)
    requires 0.0 <= opp.buyPrice && s.pending.None?
    ensures Apply(st, s, Evaluate(opp, c)).pending.Some? <==> ApprovableIn(st, s, opp, c)
    ensures ApprovableIn(st, s, opp, c) ==> Apply(st, s, Evaluate(opp, c)).pending.value.opp == opp
  {
    ApprovedIff(st, opp, Seen(s, opp, c));
  }

  /** Nothing else ever leaves a deal waiting that was not, and only a dispatch makes a task. */
  lemma OnlyEvaluationBringsDeals(st: Settings, s: System, e: Event)
    ensures !e.Evaluate? ==> Apply(st, s, e).pending in {s.pending, None}
    ensures s.pending.Some? && e.Evaluate? ==> Apply(st, s, e) == s
    ensures
      |Apply(st, s, e).tasks| == |s.tasks| + (if e.Dispatch? && s.pending.Some? then 1 else 0)
    ensures
      forall i :: 0 <= i < |s.tasks| ==> Apply(st, s, e).tasks[i].deal == s.tasks[i].deal
    ensures
      e.Dispatch? && s.pending.Some? ==> Apply(st, s, e).tasks[|s.tasks|].deal == s.pending.value
  {}

  /** Some event of the run evaluated this opportunity when it was approvable. */
  ghost predicate WasApprovable(st: Settings, events: seq<Event>, opp: Opportunity) {
    exists n ::
      0 <= n < |events| && events[n].Evaluate? && events[n].opp == opp
      && ApprovableIn(st, Run(st, events[..n]), opp, events[n].conditions)
  }

  lemma StaysApprovable(st: Settings, events: seq<Event>, e: Event, opp: Opportunity)
    requires WasApprovable(st, events, opp)
    ensures WasApprovable(st, events + [e], opp)
  {
    var n :| 0 <= n < |events| && events[n].Evaluate? && events[n].opp == opp
             && ApprovableIn(st, Run(st, events[..n]), opp, events[n].conditions);
    var longer := events + [e];
    assert longer[n] == events[n] && longer[..n] == events[..n];
  }

  /** In every run, whatever waits for its reservation or has become a task was approvable when it was
      evaluated: no kill switch, no tripped breaker, and every other condition met. */
  lemma {:induction false} EveryDealWasApprovable(st: Settings, events: seq<Event>)
    requires SaneEvents(events)
    ensures
      var s := Run(st, events);
      && (s.pending.Some? ==> WasApprovable(st, events, s.pending.value.opp))
      && forall i :: 0 <= i < |s.tasks| ==> WasApprovable(st, events, s.tasks[i].deal.opp)
  {
    if events != [] {
      var init, last := events[..|events| - 1], events[|events| - 1];
      assert events == init + [last] && last in events && forall e :: e in init ==> e in events;
      EveryDealWasApprovable(st, init);
      NextDealsWereApprovable(st, init, last);
    }
  }

  lemma NextDealsWereApprovable(st: Settings, init: seq<Event>, last: Event)
    requires SaneEvent(last)
    requires
      var s := Run(st, init);
      && (s.pending.Some? ==> WasApprovable(st, init, s.pending.value.opp))
      && forall i :: 0 <= i < |s.tasks| ==> WasApprovable(st, init, s.tasks[i].deal.opp)
    ensures
      var n := Run(st, init + [last]);
      && (n.pending.Some? ==> WasApprovable(st, init + [last], n.pending.value.opp))
      && forall i :: 0 <= i < |n.tasks| ==> WasApprovable(st, init + [last], n.tasks[i].deal.opp)
  {
    var events, s := init + [last], Run(st, init);
    assert events[..|init|] == init && Run(st, events) == Apply(st, s, last);
    var n := Apply(st, s, last);
    OnlyEvaluationBringsDeals(st, s, last);
    if s.pending.Some? {
      StaysApprovable(st, init, last, s.pending.value.opp);
    }
    forall i | 0 <= i < |n.tasks|
      ensures WasApprovable(st, events, n.tasks[i].deal.opp)
    {
      if i < |s.tasks| {
        StaysApprovable(st, init, last, s.tasks[i].deal.opp);
      }
    }
    if last.Evaluate? && s.pending.None? {
      DealBecomesPendingIff(st, s, last.opp, last.conditions);
      assert events[|init|] == last;
    }
  }

  /** What dispatching a waiting deal takes, account by account: its notional of the quote on the buy
      venue, its amount of the base on the sell venue, and its notional of exposure on both. */
  lemma DispatchTakesItsShare(st: Settings, s: System, a: Account, ex: Exchange)
    requires s.pending.Some? && s.pending.value.opp.buyExchange != s.pending.value.opp.sellExchange
    ensures
      var d := s.pending.value;
      var n := Apply(st, s, Event.Dispatch);
      && Held(n.reserved, a) == Held(s.reserved, a)
         + (if a == (d.opp.buyExchange, d.opp.symbol.quote) then d.notional
            else if a == (d.opp.sellExchange, d.opp.symbol.base) then d.amount
            else 0.0)
      && n.exposure.InFlight(ex) == s.exposure.InFlight(ex)
         + (if ex in {d.opp.buyExchange, d.opp.sellExchange} then d.notional else 0.0)
      && n.tasks == s.tasks + [Task(d, Spawned)] && n.pending.None?
      && n.exposure.open == s.exposure.open + {Pre(|s.tasks|)}
  {
    var d := s.pending.value;
    AddPairFigures(s.exposure, d.opp.buyExchange, d.opp.sellExchange, d.notional, Pre(|s.tasks|), ex);
  }
}
