/** What any number of repair calls keeps, whatever the venues answer. */
module RepairSafety {
  import opened Prelude
  import opened OrderBook
  import opened LadderWalk
  import opened SlippageModel
  import opened ExecutionPolicy
  import opened Orders
  import opened Settings
  import opened StateMachine
  import opened HedgeGroup
  import opened RepairEngine

  /** The position is what was executed; a completed group is flat; an aborted one is flat or has
      used up its repair attempts. */
  ghost predicate Consistent(st: Settings, h: Hedge) {
    && h.netPosition == h.executedBuy - h.executedSell
    && (h.state.Completed? ==> Flat(h))
    && (h.state.Aborted? ==> Flat(h) || h.repairAttempts >= st.maxRepairAttempts)
  }

  /** The position moved towards zero and did not cross it. */
  ghost predicate Shrinks(from: real, to: real) {
    if from >= 0.0 then 0.0 <= to <= from else from <= to <= 0.0
  }

  /** A repair order closes the residual: opposite direction, exactly its size, flagged. */
  lemma RepairOrderClosesResidual(st: Settings, h: Hedge, books: Books)
    requires PlanRepair(st, h, books).Send?
    ensures
      var i := PlanRepair(st, h, books).intent;
      && i.amount == Abs(h.netPosition) > 0.0
      && i.side == (if h.netPosition > 0.0 then Sell else Buy)
      && i.exchange in {h.buyExchange, h.sellExchange}
      && i.isRepair && i.orderType.IocLimit? && i.symbol == h.symbol
  {}

  /** One call keeps the group consistent, never lets the position grow or change sign, and uses at
      most one attempt, and that only within the budget. */
  lemma RepairStepIsSafe(st: Settings, h: Hedge, books: Books, venue: Venue)
    requires Consistent(st, h) && HonestVenue(venue)
    ensures
      var g := RepairStep(st, h, books, venue).h;
      && Consistent(st, g)
      && Shrinks(h.netPosition, g.netPosition)
      && g.repairAttempts == h.repairAttempts + (if PlanRepair(st, h, books).Send? then 1 else 0)
      && (PlanRepair(st, h, books).Send? ==> g.repairAttempts <= st.maxRepairAttempts)
  {
    var plan := PlanRepair(st, h, books);
    if plan.Send? {
      RepairOrderClosesResidual(st, h, books);
      assert Honest(plan.intent, venue(plan.intent));
    }
  }

  // ---- What a call decides, read off its inputs ----

  /** The loss cap refuses to close the residual on these books. */
  predicate Refuses(st: Settings, h: Hedge, books: Books) {
    CapRefuses(st, h, ChooseTarget(st.iocPriceBufferBps, h, books))
  }

  /** The residual is closed on its own venue, the seller of a long and the buyer of a short, unless
      that venue's band is too thin for it and the other venue has a book with a deeper one. */
  lemma RepairPivotsIff(bufferBps: real, h: Hedge, books: Books)
    requires h.netPosition != 0.0 && h.buyExchange != h.sellExchange
    ensures
      var t := ChooseTarget(bufferBps, h, books);
      var side := if h.netPosition > 0.0 then Sell else Buy;
      var own := if h.netPosition > 0.0 then h.sellExchange else h.buyExchange;
      var other := if h.netPosition > 0.0 then h.buyExchange else h.sellExchange;
      var ownDepth := InBandDepth(Lookup(books, own, h.symbol), side, bufferBps);
      var otherDepth := InBandDepth(Lookup(books, other, h.symbol), side, bufferBps);
      && t.side == side && t.amount == (if h.netPosition > 0.0 then h.netPosition else -h.netPosition)
      && (t.exchange == other <==> ownDepth < t.amount && (other, h.symbol) in books && ownDepth < otherDepth)
      && (t.exchange != other ==> t.exchange == own)
      && t.book == (if (t.exchange, h.symbol) in books then Some(books[(t.exchange, h.symbol)]) else None)
  {}

  /** Exactly when the loss cap refuses: there is one, the chosen venue's book yields something for the
      residual, and the profit after closing it there, its value moved by the buffer against us, is
      below minus the cap. */
  lemma RefusesIff(st: Settings, h: Hedge, books: Books)
    ensures
      var t := ChooseTarget(st.iocPriceBufferBps, h, books);
      var buffer := st.iocPriceBufferBps / 10000.0;
      Refuses(st, h, books) <==>
      && st.maxRepairLossQuote.Some? && t.book.Some?
      && 0.0 < t.amount
      && var ladder := if t.side.Sell? then t.book.value.bids else t.book.value.asks;
         var walked := Walk(ladder, t.amount);
         && 0.0 < walked.qty
         && h.realizedPnl.GetOr(0.0)
            + (if t.side.Sell? then Times(walked.cost, 1.0 - buffer) else -Times(walked.cost, 1.0 + buffer))
            < -st.maxRepairLossQuote.value
  {
    var t := ChooseTarget(st.iocPriceBufferBps, h, books);
    if t.book.Some? && 0.0 < t.amount {
      var ladder := if t.side.Sell? then t.book.value.bids else t.book.value.asks;
      var walked := Walk(ladder, t.amount);
      if 0.0 < walked.qty {
        var buffer := st.iocPriceBufferBps / 10000.0;
        MovedValue(walked, if t.side.Sell? then 1.0 - buffer else 1.0 + buffer);
      }
    }
  }

  lemma MovedValue(t: Taken, factor: real)
    requires 0.0 < t.qty
    ensures Times(Times(t.cost / t.qty, factor), t.qty) == Times(t.cost, factor)
  {
    TimesDivide(t.cost, t.qty);
    TimesCommutes(t.cost / t.qty, factor);
    TimesAssociates(factor, t.cost / t.qty, t.qty);
    TimesCommutes(factor, t.cost);
  }

  /** Exactly when a failed group with attempts left is refused its repair. */
  lemma RepairIsRefusedIff(st: Settings, h: Hedge, books: Books)
    requires h.state.FailedNeedsRepair? && h.netPosition != 0.0 && h.repairAttempts < st.maxRepairAttempts
    ensures
      var t := ChooseTarget(st.iocPriceBufferBps, h, books);
      var buffer := st.iocPriceBufferBps / 10000.0;
      PlanRepair(st, h, books).Refused? <==>
      && st.maxRepairLossQuote.Some? && t.book.Some?
      && var ladder := if t.side.Sell? then t.book.value.bids else t.book.value.asks;
         var walked := Walk(ladder, if h.netPosition > 0.0 then h.netPosition else -h.netPosition);
         && 0.0 < walked.qty
         && h.realizedPnl.GetOr(0.0)
            + (if t.side.Sell? then Times(walked.cost, 1.0 - buffer) else -Times(walked.cost, 1.0 + buffer))
            < -st.maxRepairLossQuote.value
  {
    RefusesIff(st, h, books);
  }

  /** The order sent is priced at the protected limit from the top of the chosen book, and unpriced
      without one. */
  lemma RepairOrderIsPriced(st: Settings, h: Hedge, books: Books)
    requires PlanRepair(st, h, books).Send?
    ensures
      var t := ChooseTarget(st.iocPriceBufferBps, h, books);
      var i := PlanRepair(st, h, books).intent;
      var ladder := if t.book.None? then [] else if t.side.Sell? then t.book.value.bids else t.book.value.asks;
      && i.exchange == t.exchange && i.side == t.side && i.amount == t.amount
      && i.price == (if ladder == [] then None
                     else Some(ProtectedLimitPrice(st.iocPriceBufferBps, t.side, ladder[0].price)))
  {}

  /** After an answered repair the group is completed exactly when no more than a hundred-millionth is
      left, and failed otherwise. */
  lemma RepairCompletesIff(st: Settings, h: Hedge, books: Books, venue: Venue)
    requires PlanRepair(st, h, books).Send? && venue(PlanRepair(st, h, books).intent).Answered?
    ensures
      var g := RepairStep(st, h, books, venue).h;
      && (g.state.Completed? <==> -0.00000001 <= g.executedBuy - g.executedSell <= 0.00000001)
      && (g.state.FailedNeedsRepair? <==> !(-0.00000001 <= g.executedBuy - g.executedSell <= 0.00000001))
  {}

  /** The reason of failure: a refusal always leaves its own, exhausted attempts only where there is
      none yet, and nothing else touches it. */
  lemma RepairReasons(st: Settings, h: Hedge, books: Books, venue: Venue)
    ensures
      var g := RepairStep(st, h, books, venue).h;
      g.failureReason
      == if h.netPosition != 0.0 && h.repairAttempts >= st.maxRepairAttempts && h.failureReason.None?
         then Some(RepairAttemptsExhausted)
         else if h.netPosition != 0.0 && h.repairAttempts < st.maxRepairAttempts && Refuses(st, h, books)
         then Some(RepairSkippedMaxLoss)
         else h.failureReason
  {}

  // ---- Runs of repair calls ----

  /** One call as its environment presents it. */
  datatype Call = Call(books: Books, venue: Venue)

  function RunRepairs(st: Settings, h: Hedge, calls: seq<Call>): Hedge
    decreases |calls|
  {
    if calls == [] then h
    else RunRepairs(st, RepairStep(st, h, calls[0].books, calls[0].venue).h, calls[1..])
  }

  /** Orders that left for a venue during a run, answered or not. */
  function OrdersSent(st: Settings, h: Hedge, calls: seq<Call>): nat
    decreases |calls|
  {
    if calls == [] then 0
    else
      var c := calls[0];
      (if PlanRepair(st, h, c.books).Send? then 1 else 0)
      + OrdersSent(st, RepairStep(st, h, c.books, c.venue).h, calls[1..])
  }

  ghost predicate AllHonest(calls: seq<Call>) {
    forall i :: 0 <= i < |calls| ==> HonestVenue(calls[i].venue)
  }

  lemma {:induction false} RunIsSafe(st: Settings, h: Hedge, calls: seq<Call>)
    requires Consistent(st, h) && AllHonest(calls)
    ensures
      var g := RunRepairs(st, h, calls);
      && Consistent(st, g)
      && Shrinks(h.netPosition, g.netPosition)
      && OrdersSent(st, h, calls) == g.repairAttempts - h.repairAttempts
    decreases |calls|
  {
    if calls != [] {
      RepairStepIsSafe(st, h, calls[0].books, calls[0].venue);
      RunIsSafe(st, RepairStep(st, h, calls[0].books, calls[0].venue).h, calls[1..]);
    }
  }

  function AttemptsLeft(st: Settings, h: Hedge): nat {
    if h.repairAttempts < st.maxRepairAttempts then st.maxRepairAttempts - h.repairAttempts else 0
  }

  /** However often repair is called, no more orders are sent than there are attempts left. */
  lemma {:induction false} RunStaysWithinBudget(st: Settings, h: Hedge, calls: seq<Call>)
    requires Consistent(st, h) && AllHonest(calls)
    ensures OrdersSent(st, h, calls) <= AttemptsLeft(st, h)
    decreases |calls|
  {
    if calls != [] {
      var c := calls[0];
      RepairStepIsSafe(st, h, c.books, c.venue);
      RunStaysWithinBudget(st, RepairStep(st, h, c.books, c.venue).h, calls[1..]);
    }
  }

  /** Every call of the run got past the loss cap and, if it sent an order, heard back. */
  ghost predicate Heard(st: Settings, h: Hedge, calls: seq<Call>)
    decreases |calls|
  {
    calls == [] ||
    (var c := calls[0];
     && !PlanRepair(st, h, c.books).Refused?
     && !RepairStep(st, h, c.books, c.venue).VenueRaised?
     && Heard(st, RepairStep(st, h, c.books, c.venue).h, calls[1..]))
  }

  /** A heard call on a failed group settles it or uses an attempt; a settled group can only be left by
      a refusal. */
  lemma HeardStep(st: Settings, h: Hedge, c: Call)
    requires h.state.FailedNeedsRepair? || Terminal(h.state)
    requires !PlanRepair(st, h, c.books).Refused? && !RepairStep(st, h, c.books, c.venue).VenueRaised?
    ensures
      var g := RepairStep(st, h, c.books, c.venue).h;
      && (g.state.FailedNeedsRepair? || Terminal(g.state))
      && (Terminal(h.state) ==> Terminal(g.state))
      && (Terminal(g.state) || AttemptsLeft(st, g) < AttemptsLeft(st, h))
  {}

  /** One more heard call than there are attempts left settles the group for good. */
  lemma {:induction false} HeardRunTerminates(st: Settings, h: Hedge, calls: seq<Call>)
    requires h.state.FailedNeedsRepair? || Terminal(h.state)
    requires Heard(st, h, calls)
    requires Terminal(h.state) || |calls| > AttemptsLeft(st, h)
    ensures Terminal(RunRepairs(st, h, calls).state)
    decreases |calls|
  {
    if calls != [] {
      var c := calls[0];
      HeardStep(st, h, c);
      HeardRunTerminates(st, RepairStep(st, h, c.books, c.venue).h, calls[1..]);
    }
  }

  /** An order is sent exactly from a failed group with a residual, attempts left and the loss cap
      respected. */
  lemma SendIff(st: Settings, h: Hedge, books: Books)
    ensures
      PlanRepair(st, h, books).Send? <==>
      && h.state.FailedNeedsRepair?
      && h.netPosition != 0.0
      && h.repairAttempts < st.maxRepairAttempts
      && !Refuses(st, h, books)
  {
    assert CanTransition(h.state, HedgeState.Repairing) <==> h.state.FailedNeedsRepair?;
  }

  // ---- Moves against the transition table ----

  /** The states one call puts the group in, in order. */
  function Moves(st: Settings, h: Hedge, books: Books, venue: Venue): seq<HedgeState> {
    var end := RepairStep(st, h, books, venue).h.state;
    match PlanRepair(st, h, books)
    case Illegal => []
    case Send(intent) => if venue(intent).Raised? then [HedgeState.Repairing] else [HedgeState.Repairing, end]
    case _ => [end]
  }

  lemma TrailGrowsByMoves(st: Settings, h: Hedge, books: Books, venue: Venue)
    ensures RepairStep(st, h, books, venue).h.trail == h.trail + Moves(st, h, books, venue)
  {}

  /** Every move, starting from `from`, is an edge of the table or stays where it is. */
  predicate AllowedMoves(from: HedgeState, moves: seq<HedgeState>)
    decreases |moves|
  {
    moves == [] || ((from == moves[0] || CanTransition(from, moves[0])) && AllowedMoves(moves[0], moves[1..]))
  }

  /** Exactly when a call moves along the table.  Three of its branches assign a state without asking:
      a flat group is completed, one out of attempts is aborted, one refused by the loss cap is
      failed, whatever state it was in. */
  lemma RepairMovesAllowedIff(st: Settings, h: Hedge, books: Books, venue: Venue)
    ensures
      AllowedMoves(h.state, Moves(st, h, books, venue)) <==>
      if h.netPosition == 0.0 then h.state in {Hedging, HedgeState.Repairing, Completed}
      else if h.repairAttempts >= st.maxRepairAttempts then h.state != Completed
      else Refuses(st, h, books) ==> h.state in {Submitting, Hedging, HedgeState.Repairing, FailedNeedsRepair}
  {
    var moves := Moves(st, h, books, venue);
    SendIff(st, h, books);
    if |moves| == 1 {
      assert moves[1..] == [];
    } else if |moves| == 2 {
      assert moves[1..] == [moves[1]] && moves[1..][1..] == [];
      assert AllowedMoves(moves[0], moves[1..]) <==> CanTransition(moves[0], moves[1]);
    }
  }

  /** Exactly when a call takes a group out of a terminal state, and where to. */
  lemma TerminalGroupIsLeftIff(st: Settings, h: Hedge, books: Books, venue: Venue)
    requires Terminal(h.state)
    ensures
      var g := RepairStep(st, h, books, venue).h;
      && (g.state != h.state <==>
          if h.netPosition == 0.0 then h.state.Aborted?
          else if h.repairAttempts >= st.maxRepairAttempts then h.state.Completed?
          else Refuses(st, h, books))
      && (g.state != h.state ==>
            g.state == if h.netPosition == 0.0 then Completed
                       else if h.repairAttempts >= st.maxRepairAttempts then Aborted
                       else FailedNeedsRepair)
  {
    SendIff(st, h, books);
  }

  /** A group whose position is exactly zero is declared completed whatever state it was in; the
      table allows that only from Hedging and Repairing.  In particular a repair of a flat aborted
      group turns it into a completed one. */
  lemma FlatGroupIsCompletedFromAnyState(st: Settings, h: Hedge, books: Books, venue: Venue)
    requires h.netPosition == 0.0
    ensures RepairStep(st, h, books, venue) == Returned(h.Enter(Completed))
    ensures CanTransition(h.state, Completed) <==> h.state in {Hedging, HedgeState.Repairing}
  {}

  // ---- After a venue raised ----

  /** The call after one whose venue raised sends nothing: the group was left in Repairing, and the
      call finds it out of attempts, over the loss cap, or in an illegal transition. */
  lemma RaisedAttemptBlocksNextCall(st: Settings, h: Hedge, books: Books, venue: Venue, later: Books, again: Venue)
    requires RepairStep(st, h, books, venue).VenueRaised?
    ensures
      var stuck := RepairStep(st, h, books, venue).h;
      var next := RepairStep(st, stuck, later, again);
      && stuck.state == HedgeState.Repairing
      && stuck.netPosition == h.netPosition != 0.0
      && !PlanRepair(st, stuck, later).Send?
      && (next.IllegalTransition? <==> stuck.repairAttempts < st.maxRepairAttempts && !Refuses(st, stuck, later))
      && (next.Returned? ==> next.h.state in {FailedNeedsRepair, Aborted})
  {}

  /** The figures a repair decides by are the same in both groups. */
  predicate SameFigures(g: Hedge, h: Hedge) {
    && g.netPosition == h.netPosition && g.realizedPnl == h.realizedPnl && g.repairAttempts == h.repairAttempts
    && g.symbol == h.symbol && g.buyExchange == h.buyExchange && g.sellExchange == h.sellExchange
  }

  /** Which calls of a run the loss cap would refuse. */
  function Refusals(st: Settings, h: Hedge, calls: seq<Call>): (rs: seq<bool>)
    ensures |rs| == |calls| && forall k :: 0 <= k < |calls| ==> rs[k] == Refuses(st, h, calls[k].books)
  {
    seq(|calls|, k requires 0 <= k < |calls| => Refuses(st, h, calls[k].books))
  }

  /** Some call is refused and a later one is not. */
  ghost predicate RefusedThenAccepted(rs: seq<bool>) {
    exists i, j :: 0 <= i < j < |rs| && rs[i] && !rs[j]
  }

  lemma RefusedStep(rs: seq<bool>)
    requires rs != []
    ensures RefusedThenAccepted(rs) <==> if rs[0] then false in rs[1..] else RefusedThenAccepted(rs[1..])
  {
    var rest := rs[1..];
    if i, j :| 0 <= i < j < |rest| && rest[i] && !rest[j] {
      assert rs[i + 1] && !rs[j + 1];
    }
    if i, j :| 0 <= i < j < |rs| && rs[i] && !rs[j] {
      assert !rest[j - 1] && (i > 0 ==> rest[i - 1]);
    }
  }

  /** A failed group sends an order in a run exactly when the cap accepts some call's books. */
  lemma {:induction false} FailedRunSendsIff(st: Settings, h: Hedge, g: Hedge, calls: seq<Call>)
    requires SameFigures(g, h) && h.netPosition != 0.0 && h.repairAttempts < st.maxRepairAttempts
    requires g.state.FailedNeedsRepair?
    ensures OrdersSent(st, g, calls) > 0 <==> false in Refusals(st, h, calls)
    decreases |calls|
  {
    if calls != [] {
      assert Refusals(st, h, calls) == [Refuses(st, h, calls[0].books)] + Refusals(st, h, calls[1..]);
      SendIff(st, g, calls[0].books);
      if Refuses(st, h, calls[0].books) {
        FailedRunSendsIff(st, h, RepairStep(st, g, calls[0].books, calls[0].venue).h, calls[1..]);
      }
    }
  }

  lemma {:induction false} RepairingRunSendsIff(st: Settings, h: Hedge, g: Hedge, calls: seq<Call>)
    requires SameFigures(g, h) && h.netPosition != 0.0 && h.repairAttempts < st.maxRepairAttempts
    requires g.state == HedgeState.Repairing
    ensures OrdersSent(st, g, calls) > 0 <==> RefusedThenAccepted(Refusals(st, h, calls))
    decreases |calls|
  {
    if calls != [] {
      RefusedStep(Refusals(st, h, calls));
      assert Refusals(st, h, calls)[1..] == Refusals(st, h, calls[1..]);
      SendIff(st, g, calls[0].books);
      var next := RepairStep(st, g, calls[0].books, calls[0].venue).h;
      if Refuses(st, h, calls[0].books) {
        FailedRunSendsIff(st, h, next, calls[1..]);
      } else {
        RepairingRunSendsIff(st, h, next, calls[1..]);
      }
    }
  }

  lemma {:induction false} ExhaustedRunSendsNothing(st: Settings, h: Hedge, calls: seq<Call>)
    requires h.netPosition != 0.0 && h.repairAttempts >= st.maxRepairAttempts
    ensures OrdersSent(st, h, calls) == 0
    decreases |calls|
  {
    if calls != [] {
      ExhaustedRunSendsNothing(st, RepairStep(st, h, calls[0].books, calls[0].venue).h, calls[1..]);
    }
  }

  /** Exactly when a group left in Repairing by a venue that raised ever sends an order again: it has
      attempts left, the loss cap refuses one of the later calls, and accepts one after that.  The
      refusal is what puts the group back into FailedNeedsRepair; as long as no call is refused,
      nothing is sent. */
  lemma StuckGroupSendsAgainIff(st: Settings, h: Hedge, books: Books, venue: Venue, calls: seq<Call>)
    requires RepairStep(st, h, books, venue).VenueRaised?
    ensures
      var stuck := RepairStep(st, h, books, venue).h;
      && (OrdersSent(st, stuck, calls) > 0
          <==> stuck.repairAttempts < st.maxRepairAttempts && RefusedThenAccepted(Refusals(st, stuck, calls)))
      && (true !in Refusals(st, stuck, calls) ==> OrdersSent(st, stuck, calls) == 0)
  {
    var stuck := RepairStep(st, h, books, venue).h;
    if stuck.repairAttempts < st.maxRepairAttempts {
      RepairingRunSendsIff(st, stuck, stuck, calls);
    } else {
      ExhaustedRunSendsNothing(st, stuck, calls);
    }
  }

  /** What call `k` of a run decides to do. */
  function PlanAt(st: Settings, h: Hedge, calls: seq<Call>, k: nat): Plan
    requires k < |calls|
    decreases |calls|
  {
    if k == 0 then PlanRepair(st, h, calls[0].books)
    else PlanAt(st, RepairStep(st, h, calls[0].books, calls[0].venue).h, calls[1..], k - 1)
  }

  lemma {:induction false} PlannedOrderIsSent(st: Settings, h: Hedge, calls: seq<Call>, j: nat)
    requires j < |calls| && PlanAt(st, h, calls, j).Send?
    ensures OrdersSent(st, h, calls) > 0
    decreases |calls|
  {
    if j > 0 {
      PlannedOrderIsSent(st, RepairStep(st, h, calls[0].books, calls[0].venue).h, calls[1..], j - 1);
    }
  }

  lemma {:induction false} SentOrderWasPlanned(st: Settings, h: Hedge, calls: seq<Call>) returns (j: nat)
    requires OrdersSent(st, h, calls) > 0
    ensures j < |calls| && PlanAt(st, h, calls, j).Send?
    decreases |calls|
  {
    if PlanRepair(st, h, calls[0].books).Send? {
      j := 0;
    } else {
      var k := SentOrderWasPlanned(st, RepairStep(st, h, calls[0].books, calls[0].venue).h, calls[1..]);
      j := k + 1;
    }
  }

  lemma {:induction false} RefusalComesFirst(st: Settings, h: Hedge, calls: seq<Call>, j: nat) returns (i: nat)
    requires !h.state.FailedNeedsRepair? && j < |calls| && PlanAt(st, h, calls, j).Send?
    ensures i < j && PlanAt(st, h, calls, i).Refused?
    decreases |calls|
  {
    SendIff(st, h, calls[0].books);
    if PlanAt(st, h, calls, 0).Refused? {
      i := 0;
    } else {
      var k := RefusalComesFirst(st, RepairStep(st, h, calls[0].books, calls[0].venue).h, calls[1..], j - 1);
      i := k + 1;
    }
  }

  /** The same by what the calls decide, and for every group that is not in FailedNeedsRepair: a run
      sends an order exactly when some call is refused and a later one sends. */
  lemma UnfailedGroupSendsIffRefusedBefore(st: Settings, h: Hedge, calls: seq<Call>)
    requires !h.state.FailedNeedsRepair?
    ensures
      OrdersSent(st, h, calls) > 0 <==>
      exists i: nat, j: nat :: i < j < |calls| && PlanAt(st, h, calls, i).Refused? && PlanAt(st, h, calls, j).Send?
  {
    if OrdersSent(st, h, calls) > 0 {
      var j := SentOrderWasPlanned(st, h, calls);
      var i := RefusalComesFirst(st, h, calls, j);
    }
    if i: nat, j: nat :| i < j < |calls| && PlanAt(st, h, calls, i).Refused? && PlanAt(st, h, calls, j).Send? {
      PlannedOrderIsSent(st, h, calls, j);
    }
  }

  // ---- Concrete runs ----

  const CAPPED := Settings(
    PaperTrade, IocLimit, 0.0, 0.0, 0.0, 0.0, 0.0, 0.0, None, None, 3, Some(1.0), 0.0, 0.0, 0.0, 0, None, None)

  const COIN := Symbol("BTC", "USDT")
  const THIN_BOOKS: Books := map[("b", COIN) := Book("b", COIN, [Level(50.0, 1.0)], [])]

  /** The cap refuses to sell at 50 for a group already far below it, and has no opinion without a
      book. */
  lemma CapRefusesThinBooks(h: Hedge)
    requires h.symbol == COIN && h.buyExchange == "a" && h.sellExchange == "b"
    requires 0.0 < h.netPosition <= 1.0 && h.realizedPnl == Some(-100.0)
    ensures Refuses(CAPPED, h, THIN_BOOKS) && !Refuses(CAPPED, h, map[])
  {
    var bids := [Level(50.0, 1.0)];
    assert bids[1..] == [];
    var amount := h.netPosition;
    assert Walk(bids, amount) == Taken(amount, Times(amount, 50.0));
    TimesDivide(Times(amount, 50.0), amount);
    assert Vwap(Sell, bids, amount).vwap == 50.0;
    TimesMono(50.0, amount, 1.0);
    var t := ChooseTarget(0.0, h, THIN_BOOKS);
    assert t == Target("b", Sell, amount, Some(THIN_BOOKS[("b", COIN)]));
    assert ProjectedPnl(0.0, h, t) == Some(-100.0 + Times(50.0, amount));
  }

  /** Raised, refused, sent: a group stuck in Repairing is freed by a refusal and sends again. */
  lemma RefusalFreesStuckGroup()
    ensures
      var raising: Venue := _ => Raised;
      var h := NewHedge(COIN, "a", "b", 1.0)
        .(state := FailedNeedsRepair, executedBuy := 1.0, netPosition := 1.0, realizedPnl := Some(-100.0));
      var stuck := RepairStep(CAPPED, h, map[], raising).h;
      var calls := [Call(THIN_BOOKS, raising), Call(map[], raising)];
      && RepairStep(CAPPED, h, map[], raising).VenueRaised? && stuck.state == HedgeState.Repairing
      && OrdersSent(CAPPED, stuck, calls[..1]) == 0 && OrdersSent(CAPPED, stuck, calls) == 1
  {
    var raising: Venue := _ => Raised;
    var h := NewHedge(COIN, "a", "b", 1.0)
      .(state := FailedNeedsRepair, executedBuy := 1.0, netPosition := 1.0, realizedPnl := Some(-100.0));
    var stuck := RepairStep(CAPPED, h, map[], raising).h;
    var calls := [Call(THIN_BOOKS, raising), Call(map[], raising)];
    CapRefusesThinBooks(h);
    CapRefusesThinBooks(stuck);
    var freed := RepairStep(CAPPED, stuck, THIN_BOOKS, raising).h;
    CapRefusesThinBooks(freed);
    assert calls[..1][1..] == [] && calls[1..][1..] == [] && calls[1..][0] == calls[1];
    assert OrdersSent(CAPPED, freed, calls[1..]) == 1;
  }
}
