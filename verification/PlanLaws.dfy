/** What a plan does with the model's action, when there is a plan at all, and
    what sending it leads to. */
module PlanLaws {
  import opened Numbers
  import opened Books
  import opened Ledger
  import opened Quotes
  import opened QuoteLaws
  import opened Executor

  // --- the action -----------------------------------------------------------

  /** The control values, clipped to [-1, 1]. */
  function Control(x: real): real { Clamp(x, -1.0, 1.0) }

  /** Half the spread that the spread control asks for: one to fifty cents. */
  function AskedHalf(action: Action): real { 0.01 + (Control(action.0) + 1.0) / 2.0 * 0.49 }

  /** The lean that the skew control asks for: up to five cents, up for up. */
  function AskedLean(action: Action): real { 0.05 * Control(action.1) }

  /** The queue-priority step of a subpenny market. */
  function Step(tick: real, mm: MmParams): real { if tick == 0.001 && mm.subpennyEnabled then 0.001 else 0.0 }

  /** Where the bid and the ask should stand around `center`. */
  function AskedBid(action: Action, center: real, tick: real, mm: MmParams): real {
    Clamp(center - AskedHalf(action) + AskedLean(action) + Step(tick, mm), 0.01, 0.99)
  }

  function AskedAsk(action: Action, center: real, tick: real, mm: MmParams): real {
    Clamp(center + AskedHalf(action) + AskedLean(action) - Step(tick, mm), 0.01, 0.99)
  }

  lemma RoundsNear(x: real, three: bool)
    ensures Abs(RoundDp(x, three) - x) <= if three then 0.0005 else 0.005
  {
    hide RoundEven;
    var n, m := RoundEven(x * 1000.0), RoundEven(x * 100.0);
  }

  lemma SnapsNear(x: real, y: real, tick: real)
    requires GoodTick(tick) && Abs(x - y) <= 0.001
    ensures Abs(Snapped(x, tick) - Clamp(y, 0.01, 0.99)) <= tick / 2.0 + 0.001
  {
    hide RoundDp;
    RoundsNear(x, Subpenny(tick));
  }

  lemma ControlsAreNear(action: Action)
    ensures Abs(ScaleAction(action).0 - AskedHalf(action)) <= 0.0005
    ensures Abs(ScaleAction(action).1 - AskedLean(action)) <= 0.0005
  {
    hide RoundDp;
    RoundsNear(AskedHalf(action), true);
    RoundsNear(AskedLean(action), true);
    assert Control(action.1) * 0.05 == AskedLean(action);
  }

  /** The wanted pair is what the action asks for, to half a tick and a tenth
      of a cent. */
  lemma WantedIsNearAsked(action: Action, center: real, tick: real, mm: MmParams)
    requires GoodTick(tick)
    ensures var (bid, ask) := DesiredPair(action, center, tick, mm);
            && Abs(bid - AskedBid(action, center, tick, mm)) <= tick / 2.0 + 0.001
            && Abs(ask - AskedAsk(action, center, tick, mm)) <= tick / 2.0 + 0.001
  {
    hide ScaleAction, Snapped, AskedHalf, AskedLean, Clamp;
    ControlsAreNear(action);
    var (half, skew) := ScaleAction(action);
    var step := Step(tick, mm);
    SnapsNear(center - half + skew + step, center - AskedHalf(action) + AskedLean(action) + step, tick);
    SnapsNear(center + half + skew - step, center + AskedHalf(action) + AskedLean(action) - step, tick);
  }

  /** Every plan follows its action: the quoted prices are, to half a tick and a
      tenth of a cent, the mid and the shift, less or plus the half spread the
      action asks for, plus its lean, held passive a tick inside the touch. */
  lemma PlansFollowTheAction(action: Action, shift: real, ts: TickerState, mm: MmParams, d: Desk)
    requires GoodTick(ts.tick)
    ensures PlanFor(action, shift, ts, mm, d).Some? ==>
              && ts.book.IsValid()
              && var plan, center := PlanFor(action, shift, ts, mm, d).value, ts.book.Mid().value + shift;
                 var bid, ask := AskedBid(action, center, ts.tick, mm), AskedAsk(action, center, ts.tick, mm);
                 && Abs(plan.quotedBid - Min(bid, ts.book.BestAsk().value - ts.tick)) <= ts.tick / 2.0 + 0.001
                 && Abs(plan.quotedAsk - Max(ask, ts.book.BestBid().value + ts.tick)) <= ts.tick / 2.0 + 0.001
  {
    hide QuotePair, DesiredPair, AskedBid, AskedAsk, KeepsResting, MayQuote, QuoteEdgeOk, Cents;
    if PlanFor(action, shift, ts, mm, d).Some? {
      PairAnatomy(action, shift, ts.book, ts.tick, mm);
      WantedIsNearAsked(action, ts.book.Mid().value + shift, ts.tick, mm);
    }
  }

  lemma LeanMovesWanted(a0: real, lo: real, hi: real, center: real, tick: real, mm: MmParams)
    requires lo <= hi
    ensures DesiredPair((a0, lo), center, tick, mm).0 <= DesiredPair((a0, hi), center, tick, mm).0
    ensures DesiredPair((a0, lo), center, tick, mm).1 <= DesiredPair((a0, hi), center, tick, mm).1
  {
    hide Snapped, RoundDp;
    RoundDpMonotone(Control(lo) * 0.05, Control(hi) * 0.05, true);
    var step := if Subpenny(tick) && mm.subpennyEnabled then 0.001 else 0.0;
    var (half, s) := ScaleAction((a0, lo));
    var s' := ScaleAction((a0, hi)).1;
    SnappedMonotone(center - half + s + step, center - half + s' + step, tick);
    SnappedMonotone(center + half + s - step, center + half + s' - step, tick);
  }

  lemma SpreadMovesWanted(a1: real, lo: real, hi: real, center: real, tick: real, mm: MmParams)
    requires lo <= hi
    ensures DesiredPair((lo, a1), center, tick, mm).0 >= DesiredPair((hi, a1), center, tick, mm).0
    ensures DesiredPair((lo, a1), center, tick, mm).1 <= DesiredPair((hi, a1), center, tick, mm).1
  {
    hide Snapped, RoundDp;
    RoundDpMonotone(0.01 + (Control(lo) + 1.0) / 2.0 * 0.49, 0.01 + (Control(hi) + 1.0) / 2.0 * 0.49, true);
    var step := if Subpenny(tick) && mm.subpennyEnabled then 0.001 else 0.0;
    var (h, skew) := ScaleAction((lo, a1));
    var h' := ScaleAction((hi, a1)).0;
    SnappedMonotone(center - h' + skew + step, center - h + skew + step, tick);
    SnappedMonotone(center + h + skew - step, center + h' + skew - step, tick);
  }

  /** Of two plans from one state with the same spread control, the one with the
      larger skew control quotes at least as high on both sides. */
  lemma PlansFollowTheSkew(a0: real, lo: real, hi: real, shift: real, ts: TickerState, mm: MmParams, d: Desk)
    requires lo <= hi
    ensures PlanFor((a0, lo), shift, ts, mm, d).Some? && PlanFor((a0, hi), shift, ts, mm, d).Some? ==>
              var p, q := PlanFor((a0, lo), shift, ts, mm, d).value, PlanFor((a0, hi), shift, ts, mm, d).value;
              && p.quotedBid <= q.quotedBid && p.quotedAsk <= q.quotedAsk
              && p.bidCents <= q.bidCents && p.askCents <= q.askCents
  {
    hide DesiredPair, MarketPair, KeepsResting, MayQuote, Cents;
    if PlanFor((a0, lo), shift, ts, mm, d).Some? && PlanFor((a0, hi), shift, ts, mm, d).Some? {
      var B, A := ts.book.BestBid().value, ts.book.BestAsk().value;
      LeanMovesWanted(a0, lo, hi, (B + A) / 2.0 + shift, ts.tick, mm);
      var p, q := DesiredPair((a0, lo), (B + A) / 2.0 + shift, ts.tick, mm),
                  DesiredPair((a0, hi), (B + A) / 2.0 + shift, ts.tick, mm);
      MarketPairMonotone(p.0, p.1, q.0, q.1, B, A, ts.tick, mm);
      var (b, a) := MarketPair(p.0, p.1, B, A, ts.tick, mm).value;
      var (b', a') := MarketPair(q.0, q.1, B, A, ts.tick, mm).value;
      CentsMonotone(b, b', ts.tick);
      CentsMonotone(a, a', ts.tick);
    }
  }

  lemma MarketPairWidens(b: real, a: real, b': real, a': real, B: real, A: real, tick: real, mm: MmParams)
    requires b >= b' && a <= a'
    requires MarketPair(b, a, B, A, tick, mm).Some? && MarketPair(b', a', B, A, tick, mm).Some?
    ensures MarketPair(b, a, B, A, tick, mm).value.0 >= MarketPair(b', a', B, A, tick, mm).value.0
    ensures MarketPair(b, a, B, A, tick, mm).value.1 <= MarketPair(b', a', B, A, tick, mm).value.1
  {
    hide QuoteEdgeOk;
    RoundAwayMonotone(Min(b', A - tick) * 10000.0, Min(b, A - tick) * 10000.0);
    RoundAwayMonotone(Max(a, B + tick) * 10000.0, Max(a', B + tick) * 10000.0);
  }

  /** And of two with the same skew control, the one with the larger spread
      control quotes no tighter on either side. */
  lemma PlansFollowTheSpread(a1: real, lo: real, hi: real, shift: real, ts: TickerState, mm: MmParams, d: Desk)
    requires lo <= hi
    ensures PlanFor((lo, a1), shift, ts, mm, d).Some? && PlanFor((hi, a1), shift, ts, mm, d).Some? ==>
              var p, q := PlanFor((lo, a1), shift, ts, mm, d).value, PlanFor((hi, a1), shift, ts, mm, d).value;
              q.quotedBid <= p.quotedBid && p.quotedAsk <= q.quotedAsk
  {
    hide DesiredPair, MarketPair, KeepsResting, MayQuote, Cents;
    if PlanFor((lo, a1), shift, ts, mm, d).Some? && PlanFor((hi, a1), shift, ts, mm, d).Some? {
      var B, A := ts.book.BestBid().value, ts.book.BestAsk().value;
      SpreadMovesWanted(a1, lo, hi, (B + A) / 2.0 + shift, ts.tick, mm);
      var p, q := DesiredPair((lo, a1), (B + A) / 2.0 + shift, ts.tick, mm),
                  DesiredPair((hi, a1), (B + A) / 2.0 + shift, ts.tick, mm);
      MarketPairWidens(p.0, p.1, q.0, q.1, B, A, ts.tick, mm);
    }
  }

  // --- when there is a plan -------------------------------------------------

  /** A whole number of millionths. */
  predicate Micro(x: real) { (x * 1000000.0).Floor as real == x * 1000000.0 }

  lemma Round6Exact(x: real)
    requires Micro(x)
    ensures Round6(x) == x
  {
    RoundAwayExact((x * 1000000.0).Floor);
  }

  lemma MicroOf(n: int, x: real)
    requires x == n as real / 1000000.0
    ensures Micro(x)
  {
    assert x * 1000000.0 == n as real;
  }

  /** On the grid, with a minimum edge of whole millionths, the fee gate passes
      exactly the pairs that beat both fees and the edge. */
  lemma EdgeGateIff(bid: real, ask: real, rate: real, minEdge: real)
    requires Milli(bid) && Milli(ask) && Micro(minEdge)
    ensures QuoteEdgeOk(bid, ask, rate, 1, minEdge)
       <==> ask - bid > CeilCentFee(rate, 1, bid) + CeilCentFee(rate, 1, ask) + minEdge
  {
    hide FeeCents, Round6, Micro, Milli;
    var f, g := Ceil(FeeCents(rate, 1, bid)), Ceil(FeeCents(rate, 1, ask));
    FeesAndEdgeAreMicro(f, g, minEdge);
    SpreadIsMicro(bid, ask);
    Round6Exact(ask - bid);
    Round6Exact(CeilCentFee(rate, 1, bid) + CeilCentFee(rate, 1, ask) + minEdge);
  }

  lemma FeesAndEdgeAreMicro(f: int, g: int, minEdge: real)
    requires Micro(minEdge)
    ensures Micro(f as real / 100.0 + g as real / 100.0 + minEdge)
  {
    MicroOf(10000 * f + 10000 * g + (minEdge * 1000000.0).Floor, f as real / 100.0 + g as real / 100.0 + minEdge);
  }

  lemma SpreadIsMicro(bid: real, ask: real)
    requires Milli(bid) && Milli(ask)
    ensures Micro(ask - bid)
  {
    MicroOf(1000 * ((ask * 1000.0).Floor - (bid * 1000.0).Floor), ask - bid);
  }

  /** The desk lets the market be quoted, and the market can be. */
  predicate Quotable(ts: TickerState, mm: MmParams, d: Desk) {
    && d.now - ts.lastQuoteTime >= 1.0 && d.now >= d.backoffUntil
    && (d.openOrders < mm.maxOpenOrders || ts.everQuoted)
    && ts.book.IsValid() && mm.bandLo <= ts.book.Mid().value <= mm.bandHi
  }

  /** There is a plan exactly when the market is quotable, the wanted pair has
      not collapsed, it is still a pair one tick inside the touch, it beats its
      fees and the edge, and it is not the pair already resting. */
  lemma PlanIff(action: Action, shift: real, ts: TickerState, mm: MmParams, d: Desk)
    requires GoodTick(ts.tick) && Micro(mm.minQuoteEdge)
    ensures PlanFor(action, shift, ts, mm, d).Some? <==>
              && Quotable(ts, mm, d)
              && var (b, a) := DesiredPair(action, ts.book.Mid().value + shift, ts.tick, mm);
                 var bid, ask := Min(b, ts.book.BestAsk().value - ts.tick), Max(a, ts.book.BestBid().value + ts.tick);
                 && b < a && bid < ask
                 && ask - bid > CeilCentFee(mm.makerFeeRate, 1, bid) + CeilCentFee(mm.makerFeeRate, 1, ask)
                                + mm.minQuoteEdge
                 && !KeepsResting(ts, bid, ask)
  {
    hide DesiredPair, QuotePair, KeepsResting, QuoteEdgeOk, CeilCentFee, PlanOf;
    if ts.book.IsValid() {
      PairIff(action, shift, ts.book, ts.tick, mm);
    } else {
      NoBookNoPair(action, shift, ts.book, ts.tick, mm);
    }
  }

  lemma NoBookNoPair(action: Action, shift: real, book: BookView, tick: real, mm: MmParams)
    ensures !book.IsValid() ==> QuotePair(action, shift, book, tick, mm).None?
  {
  }

  lemma PairIff(action: Action, shift: real, book: BookView, tick: real, mm: MmParams)
    requires GoodTick(tick) && Micro(mm.minQuoteEdge) && book.IsValid()
    ensures var pair := QuotePair(action, shift, book, tick, mm);
            var (b, a) := DesiredPair(action, book.Mid().value + shift, tick, mm);
            var bid, ask := Min(b, book.BestAsk().value - tick), Max(a, book.BestBid().value + tick);
            && (pair.Some? <==>
                  && mm.bandLo <= book.Mid().value <= mm.bandHi && b < a && bid < ask
                  && ask - bid > CeilCentFee(mm.makerFeeRate, 1, bid) + CeilCentFee(mm.makerFeeRate, 1, ask)
                                 + mm.minQuoteEdge)
            && (pair.Some? ==> pair.value == (bid, ask))
  {
    hide DesiredPair, QuoteEdgeOk, CeilCentFee, Milli, Micro, Round4;
    var B, A := book.BestBid().value, book.BestAsk().value;
    DesiredOnGrid(action, book.Mid().value + shift, tick, mm);
    TouchOnGrid(book, tick);
    var (b, a) := DesiredPair(action, book.Mid().value + shift, tick, mm);
    Round4Exact(Min(b, A - tick));
    Round4Exact(Max(a, B + tick));
    EdgeGateIff(Min(b, A - tick), Max(a, B + tick), mm.makerFeeRate, mm.minQuoteEdge);
  }

  /** How much, and whether at all: a side at the far end of the price range
      takes the extreme size, any other the ordinary one, and a side is placed
      exactly when its fill would leave the position within the cap. */
  lemma PlanSizes(action: Action, shift: real, ts: TickerState, mm: MmParams, d: Desk)
    ensures PlanFor(action, shift, ts, mm, d).Some? ==>
              var plan := PlanFor(action, shift, ts, mm, d).value;
              && plan.bidSize == (if 1.0 - plan.quotedBid <= mm.extremeBand then mm.extremeQuoteSize else mm.quoteSize)
              && plan.askSize == (if plan.quotedAsk <= mm.extremeBand then mm.extremeQuoteSize else mm.quoteSize)
              && (plan.placeBid <==> -d.maxInventory <= ts.position + plan.bidSize <= d.maxInventory)
              && (plan.placeAsk <==> -d.maxInventory <= ts.position - plan.askSize <= d.maxInventory)
  {
    hide QuotePair, KeepsResting, MayQuote, Cents;
  }

  // --- after sending --------------------------------------------------------

  /** Sent and accepted on both sides, a plan is at rest: on the same book the
      planner keeps it, however often it is asked, and burns no order. */
  lemma SentPlansAreKept(action: Action, shift: real, ts: TickerState, mm: MmParams, d: Desk, later: Desk,
                         maxInventory: int, bid: string, ask: string)
    requires GoodTick(ts.tick) && PlanFor(action, shift, ts, mm, d).Some?
    requires var plan := PlanFor(action, shift, ts, mm, d).value; plan.placeBid && plan.placeAsk
    ensures var plan := PlanFor(action, shift, ts, mm, d).value;
            var after := QuotedTicker(ts.(lastQuoteTime := d.now), plan, Placed(Some(bid)), Placed(Some(ask)));
            && after.everQuoted
            && PlanFor(action, shift, after, mm, later).None?
  {
    hide QuotePair, MayQuote, Cents;
  }

  /** An order refused for lack of balance silences the planner for every
      market, for exactly the backoff. */
  lemma RefusalSilencesEveryone(a: Account, t: string, category: string, plan: QuotePlan, bid: SendResult, ask: SendResult,
                                backoffS: real, now: real, action: Action, shift: real, ts: TickerState, mm: MmParams,
                                d: Desk)
    requires (plan.placeBid && bid.InsufficientBalance?) || (plan.placeAsk && ask.InsufficientBalance?)
    requires d.backoffUntil == AfterQuote(a, t, category, plan, bid, ask, backoffS, now).backoffUntil
    ensures d.now < now + backoffS ==> PlanFor(action, shift, ts, mm, d).None?
    ensures d.now >= now + backoffS ==>
              PlanFor(action, shift, ts, mm, d) == PlanFor(action, shift, ts, mm, d.(backoffUntil := d.now))
  {
    hide QuotePair, KeepsResting, PlanOf;
  }

  /** Sending touches one record, counts its attempts, and moves the backoff on
      a refusal only. */
  lemma SendingTouchesOneRecord(a: Account, t: string, category: string, plan: QuotePlan, bid: SendResult,
                                ask: SendResult, backoffS: real, now: real)
    ensures var b := AfterQuote(a, t, category, plan, bid, ask, backoffS, now);
            var attempts := if plan.placeBid && plan.placeAsk then 2 else if plan.placeBid || plan.placeAsk then 1 else 0;
            && b == a.(tickers := b.tickers, quotesSent := a.quotesSent + attempts, backoffUntil := b.backoffUntil)
            && (b.backoffUntil != a.backoffUntil ==>
                  (plan.placeBid && bid.InsufficientBalance?) || (plan.placeAsk && ask.InsufficientBalance?))
    ensures var b := AfterQuote(a, t, category, plan, bid, ask, backoffS, now);
            && (forall u :: u != t ==> b.At(u) == a.At(u))
            && (t !in a.tickers ==> b.At(t).category == category)
            && b.At(t).position == a.At(t).position && b.At(t).entry == a.At(t).entry
  {
    hide SlotOf;
  }

  // --- a worked lean --------------------------------------------------------

  /** The wide book with a full lean up: both quotes five cents higher. */
  lemma LeanedWideBookPair(mm: MmParams)
    requires OrdinaryParams(mm)
    ensures QuotePair((-0.5, 1.0), 0.0, WideBook(), 0.01, mm) == Some((0.32, 0.58))
  {
    hide DesiredPair, QuoteEdgeOk, Round4;
    WideBookTouch();
    LeanedDesired(mm);
    LeanedEdge(mm);
    MilliOf(320);
    MilliOf(580);
    Round4Exact(0.32);
    Round4Exact(0.58);
  }

  lemma LeanedDesired(mm: MmParams)
    ensures DesiredPair((-0.5, 1.0), 0.4, 0.01, mm) == (0.32, 0.58)
  {
    hide RoundEven;
    assert RoundEven(132.5) == 132 && RoundEven(50.0) == 50 by {
      RoundEvenUnique(132.5, 132);
      RoundEvenUnique(50.0, 50);
    }
    assert ScaleAction((-0.5, 1.0)) == (0.132, 0.05);
    RoundEvenUnique(31.8, 32);
    RoundEvenUnique(58.2, 58);
  }

  lemma LeanedEdge(mm: MmParams)
    requires OrdinaryParams(mm)
    ensures QuoteEdgeOk(0.32, 0.58, mm.makerFeeRate, 1, mm.minQuoteEdge)
  {
    assert FeeCents(0.0175, 1, 0.32) == 0.3808;
    assert FeeCents(0.0175, 1, 0.58) == 0.4263;
    assert CeilCentFee(0.0175, 1, 0.32) == 0.01 && CeilCentFee(0.0175, 1, 0.58) == 0.01;
    RoundAwayExact(260000);
    RoundAwayExact(30000);
  }
}
