/** Per-leg execution policy: the protected limit price and the depth an order at that limit can
    actually consume. */
module ExecutionPolicy {
  import opened Prelude
  import opened OrderBook
  import opened LadderWalk

  /** A reference price pushed `bufferBps` through the market: up for a buy, down for a sell. */
  function ProtectedLimitPrice(bufferBps: real, side: Side, reference: real): real {
    var factor := bufferBps / BPS;
    Times(reference, if side.Buy? then 1.0 + factor else 1.0 - factor)
  }

  /** Size resting at or better than the protected limit measured from the top of the book. */
  function InBandDepth(book: Option<Book>, side: Side, bufferBps: real): real {
    if book.None? then 0.0
    else
      var touch := book.value.Touch(side);
      if touch.None? then 0.0
      else
        var limit := ProtectedLimitPrice(bufferBps, side, touch.value);
        Depth(Eligible(side, Some(limit), book.value.Against(side)))
  }

  /** A worse reference price gives a limit that reaches at least as deep, exactly as long as the
      buffer does not turn prices negative: down to minus 100% for a buy, up to 100% for a sale. */
  lemma LimitFollowsReference(bufferBps: real, side: Side, better: real, worse: real)
    requires NoWorse(side, better, worse)
    ensures
      NoWorse(side, ProtectedLimitPrice(bufferBps, side, better), ProtectedLimitPrice(bufferBps, side, worse))
      <==> better == worse || (if side.Buy? then -BPS <= bufferBps else bufferBps <= BPS)
  {
    var factor := if side.Buy? then 1.0 + bufferBps / BPS else 1.0 - bufferBps / BPS;
    var low, high := if side.Buy? then better else worse, if side.Buy? then worse else better;
    if factor >= 0.0 {
      TimesMono(factor, low, high);
    } else if low < high {
      TimesStrict(-factor, low, high);
      TimesNegate(low, factor);
      TimesNegate(high, factor);
    }
  }

  /** With a non-negative buffer the top of the book is always within its own band. */
  lemma TouchIsInBand(book: Book, side: Side, bufferBps: real)
    requires book.WellFormed() && book.Touch(side).Some? && 0.0 <= bufferBps
    ensures NoWorse(side, book.Touch(side).value, ProtectedLimitPrice(bufferBps, side, book.Touch(side).value))
    ensures 0.0 < book.Against(side)[0].size <= InBandDepth(Some(book), side, bufferBps)
  {
    var top := book.Touch(side).value;
    var factor := bufferBps / BPS;
    TimesMono(top, 0.0, factor);
    TimesAdd(1.0, factor, top);
    TimesMono(top, 1.0 - factor, 1.0);
    TimesMono(top, 1.0, 1.0 + factor);
    var limit := ProtectedLimitPrice(bufferBps, side, top);
    EligibleKeepsShape(side, Some(limit), book.Against(side));
    var es := Eligible(side, Some(limit), book.Against(side));
    DepthNonNegative(es[1..]);
  }

  /** The limit lies the buffer away from its reference, against the trader. */
  lemma LimitIsBufferAway(bufferBps: real, side: Side, reference: real)
    ensures
      var moved := ProtectedLimitPrice(bufferBps, side, reference) - reference;
      Times(moved, 10000.0) == if side.Buy? then Times(reference, bufferBps) else -Times(reference, bufferBps)
  {
    var factor := bufferBps / BPS;
    TimesAdd(1.0, factor, reference);
    TimesAssociates(reference, factor, BPS);
    TimesDivide(bufferBps, BPS);
  }
}
