/** What every plan guarantees: legal and passive prices, an edge that beats
    its fees, quotes that follow fair value, and YES/NO symmetry. */
module QuoteLaws {
  import opened Numbers
  import opened Books
  import opened Ledger
  import opened Quotes

  predicate GoodTick(tick: real) { tick == 0.01 || tick == 0.001 }

  // --- every surviving price sits on the grid -------------------------------

  lemma SnappedOnGrid(price: real, tick: real)
    ensures Milli(Snapped(price, tick))
    ensures !Subpenny(tick) ==> WholeCent(Snapped(price, tick))
    ensures 0.01 <= Snapped(price, tick) <= 0.99
  {
    if Subpenny(tick) {
      MilliOf(RoundEven(price * 1000.0));
    } else {
      CentOf(RoundEven(price * 100.0));
    }
    CentOf(1);
    CentOf(99);
  }

  lemma DesiredOnGrid(action: Action, center: real, tick: real, mm: MmParams)
    ensures var (b, a) := DesiredPair(action, center, tick, mm);
            && Milli(b) && Milli(a)
            && (!Subpenny(tick) ==> WholeCent(b) && WholeCent(a))
            && 0.01 <= b <= 0.99 && 0.01 <= a <= 0.99
  {
    hide ScaleAction, Snapped, Milli, WholeCent;
    var (half, skew) := ScaleAction(action);
    var adjust := if Subpenny(tick) && mm.subpennyEnabled then 0.001 else 0.0;
    SnappedOnGrid(center - half + skew + adjust, tick);
    SnappedOnGrid(center + half + skew - adjust, tick);
  }

  lemma DesiredMonotone(action: Action, lo: real, hi: real, tick: real, mm: MmParams)
    requires lo <= hi
    ensures DesiredPair(action, lo, tick, mm).0 <= DesiredPair(action, hi, tick, mm).0
    ensures DesiredPair(action, lo, tick, mm).1 <= DesiredPair(action, hi, tick, mm).1
  {
    hide ScaleAction, Snapped;
    var (half, skew) := ScaleAction(action);
    var adjust := if Subpenny(tick) && mm.subpennyEnabled then 0.001 else 0.0;
    SnappedMonotone(lo - half + skew + adjust, hi - half + skew + adjust, tick);
    SnappedMonotone(lo + half + skew - adjust, hi + half + skew - adjust, tick);
  }

  /** What `QuotePair` did, with the market facts every law needs. */
  lemma PairAnatomy(action: Action, shift: real, book: BookView, tick: real, mm: MmParams)
    requires GoodTick(tick)
    requires QuotePair(action, shift, book, tick, mm).Some?
    ensures book.IsValid()
    ensures var (bid, ask) := QuotePair(action, shift, book, tick, mm).value;
            var B, A := book.BestBid().value, book.BestAsk().value;
            var (b, a) := DesiredPair(action, (B + A) / 2.0 + shift, tick, mm);
            && bid == Min(b, A - tick) && ask == Max(a, B + tick)
            && bid < ask
            && Milli(bid) && Milli(ask)
            && (!Subpenny(tick) && book.WholeCents() ==> WholeCent(bid) && WholeCent(ask))
            && QuoteEdgeOk(bid, ask, mm.makerFeeRate, 1, mm.minQuoteEdge)
  {
    hide DesiredPair, MarketPair, QuoteEdgeOk, Milli, WholeCent;
    var B, A := book.BestBid().value, book.BestAsk().value;
    DesiredOnGrid(action, (B + A) / 2.0 + shift, tick, mm);
    var (b, a) := DesiredPair(action, (B + A) / 2.0 + shift, tick, mm);
    TouchOnGrid(book, tick);
    MarketAnatomy(b, a, B, A, tick, mm);
  }

  /** On the grid the touch clamp is a plain minimum and maximum. */
  lemma MarketAnatomy(b: real, a: real, B: real, A: real, tick: real, mm: MmParams)
    requires Milli(Min(b, A - tick)) && Milli(Max(a, B + tick))
    requires MarketPair(b, a, B, A, tick, mm).Some?
    ensures var (bid, ask) := MarketPair(b, a, B, A, tick, mm).value;
            && bid == Min(b, A - tick) && ask == Max(a, B + tick) && bid < ask
            && QuoteEdgeOk(bid, ask, mm.makerFeeRate, 1, mm.minQuoteEdge)
  {
    hide QuoteEdgeOk;
    Round4Exact(Min(b, A - tick));
    Round4Exact(Max(a, B + tick));
  }

  lemma TouchOnGrid(book: BookView, tick: real)
    requires GoodTick(tick) && book.IsValid()
    ensures Milli(book.BestBid().value + tick) && Milli(book.BestAsk().value - tick)
    ensures !Subpenny(tick) && book.WholeCents()
        ==> WholeCent(book.BestBid().value + tick) && WholeCent(book.BestAsk().value - tick)
  {
    var b, a := book.BestBidMd().value, book.BestAskMd().value;
    var t := if tick == 0.01 then 10 else 1;
    MilliOf(b + t);
    MilliOf(a as int - t);
    if !Subpenny(tick) && book.WholeCents() {
      assert b % 10 == 0 && a % 10 == 0;
      CentOf(b / 10 + 1);
      CentOf(a / 10 - 1);
    }
  }

  // --- the fee gate ---------------------------------------------------------

  /** Despite its own rounding the gate is exact for prices on the grid:
      what it lets through really does beat fees plus the minimum edge. */
  lemma EdgeGateIsSound(bid: real, ask: real, rate: real, minEdge: real)
    requires Milli(bid) && Milli(ask)
    requires QuoteEdgeOk(bid, ask, rate, 1, minEdge)
    ensures ask - bid > CeilCentFee(rate, 1, bid) + CeilCentFee(rate, 1, ask) + minEdge
  {
    hide CeilCentFee;
    var n := (ask * 1000.0).Floor - (bid * 1000.0).Floor;
    var target := CeilCentFee(rate, 1, bid) + CeilCentFee(rate, 1, ask) + minEdge;
    assert (ask - bid) * 1000000.0 == (1000 * n) as real;
    RoundAwayExact(1000 * n);
    assert Round6(ask - bid) == ask - bid;
    assert RoundAway(target * 1000000.0) < 1000 * n;
    assert RoundAway(target * 1000000.0) as real <= (1000 * n) as real - 1.0;
  }

  /** Splitting an order never costs less than the per-lot fee bound. */
  lemma FeeAtMostPerLot(rate: real, n: nat, price: real)
    ensures CeilCentFee(rate, n, price) <= n as real * CeilCentFee(rate, 1, price)
  {
    FeeScales(rate, n, price);
    CeilScales(FeeCents(rate, 1, price), n);
    var c := Ceil(FeeCents(rate, 1, price));
    assert (n * c) as real / 100.0 == n as real * (c as real / 100.0);
  }

  lemma FeeScales(rate: real, n: nat, price: real)
    ensures FeeCents(rate, n, price) == n as real * FeeCents(rate, 1, price)
  {
    var m, p, q := n as real, price, 1.0 - price;
    assert rate * m * p == m * (rate * p);
    assert m * (rate * p) * q == m * (rate * p * q);
  }

  lemma CeilAtMost(y: real, m: int)
    requires y <= m as real
    ensures Ceil(y) <= m
  {
  }

  lemma CeilPositive(y: real)
    requires y > 0.0
    ensures Ceil(y) >= 1
  {
  }

  lemma CeilScales(x: real, n: nat)
    ensures Ceil(n as real * x) <= n * Ceil(x)
  {
    var c := Ceil(x);
    assert n as real * (c as real - x) >= 0.0;
    assert (n * c) as real == n as real * c as real;
    CeilAtMost(n as real * x, n * c);
  }

  lemma FeeIsPositive(rate: real, price: real)
    requires rate > 0.0 && 0.0 < price < 1.0
    ensures CeilCentFee(rate, 1, price) >= 0.01
  {
    var v := rate * 1.0 * price;
    assert v > 0.0;
    assert v * (1.0 - price) > 0.0;
    CeilPositive(FeeCents(rate, 1, price));
  }

  // --- legal and passive ----------------------------------------------------

  predicate SafeParams(mm: MmParams) {
    mm.makerFeeRate > 0.0 && mm.minQuoteEdge >= 0.0 && 0.02 <= mm.bandLo && mm.bandHi <= 0.98
  }

  lemma PairIsPassive(action: Action, shift: real, book: BookView, tick: real, mm: MmParams)
    requires GoodTick(tick) && SafeParams(mm)
    requires QuotePair(action, shift, book, tick, mm).Some?
    ensures book.IsValid()
    ensures var (bid, ask) := QuotePair(action, shift, book, tick, mm).value;
            && 0.01 <= bid && ask <= 0.99 && ask - bid > 0.02
            && bid <= book.BestAsk().value - tick && book.BestBid().value + tick <= ask
            && Milli(bid) && Milli(ask)
  {
    PairAnatomy(action, shift, book, tick, mm);
    ValidBookIsOrdered(book);
    var (bid, ask) := QuotePair(action, shift, book, tick, mm).value;
    var mid := (book.BestBid().value + book.BestAsk().value) / 2.0;
    DesiredOnGrid(action, mid + shift, tick, mm);
    EdgeGateIsSound(bid, ask, mm.makerFeeRate, mm.minQuoteEdge);
    FeeIsPositive(mm.makerFeeRate, bid);
    FeeIsPositive(mm.makerFeeRate, ask);
  }

  lemma CentsNearPrice(price: real, tick: real)
    requires GoodTick(tick) && Milli(price)
    ensures price * 100.0 - 0.5 <= Cents(price, tick) <= price * 100.0 + 0.5
    ensures Subpenny(tick) || WholeCent(price) ==> Cents(price, tick) == price * 100.0
  {
    if Subpenny(tick) {
      assert price * 100.0 * 10.0 == price * 1000.0;
      RoundEvenExact((price * 1000.0).Floor);
    } else if WholeCent(price) {
      RoundAwayExact((price * 100.0).Floor);
    }
  }

  lemma CentsMonotone(p: real, q: real, tick: real)
    requires p <= q
    ensures Cents(p, tick) <= Cents(q, tick)
  {
    RoundEvenMonotone(p * 100.0 * 10.0, q * 100.0 * 10.0);
    RoundAwayMonotone(p * 100.0, q * 100.0);
  }

  /** Every emitted plan is legal and passive after all rounding, for every
      action, every shift and every book, subpenny levels included. */
  lemma EveryPlanIsLegalAndPassive(action: Action, shift: real, ts: TickerState, mm: MmParams, d: Desk)
    requires GoodTick(ts.tick) && SafeParams(mm)
    ensures PlanFor(action, shift, ts, mm, d).Some? ==>
            var plan := PlanFor(action, shift, ts, mm, d).value;
            && ts.book.IsValid()
            && 1.0 <= plan.bidCents < plan.askCents <= 99.0
            && plan.bidCents / 100.0 < ts.book.BestAsk().value
            && ts.book.BestBid().value < plan.askCents / 100.0
            && plan.quotedBid < plan.quotedAsk
  {
    if PlanFor(action, shift, ts, mm, d).Some? {
      PairIsPassive(action, shift, ts.book, ts.tick, mm);
      var (bid, ask) := QuotePair(action, shift, ts.book, ts.tick, mm).value;
      CentsNearPrice(bid, ts.tick);
      CentsNearPrice(ask, ts.tick);
      CentsMonotone(0.01, bid, ts.tick);
      CentsMonotone(ask, 0.99, ts.tick);
      CentsNearPrice(0.01, ts.tick);
      CentsNearPrice(0.99, ts.tick);
    }
  }

  /** On the market's own grid the cents sent are the quoted dollars. */
  lemma CentsAreTheQuotedPrice(action: Action, shift: real, ts: TickerState, mm: MmParams, d: Desk)
    requires GoodTick(ts.tick)
    requires Subpenny(ts.tick) || ts.book.WholeCents()
    ensures PlanFor(action, shift, ts, mm, d).Some? ==>
            var plan := PlanFor(action, shift, ts, mm, d).value;
            plan.bidCents == plan.quotedBid * 100.0 && plan.askCents == plan.quotedAsk * 100.0
  {
    if PlanFor(action, shift, ts, mm, d).Some? {
      PairAnatomy(action, shift, ts.book, ts.tick, mm);
      var (bid, ask) := QuotePair(action, shift, ts.book, ts.tick, mm).value;
      CentsNearPrice(bid, ts.tick);
      CentsNearPrice(ask, ts.tick);
    }
  }

  /** Prices on the market's own tick grid. */
  predicate OnTick(price: real, tick: real) { if Subpenny(tick) then Milli(price) else WholeCent(price) }

  /** On the grid, "moved less than 0.999 of a tick" means "did not move":
      resting orders are kept exactly when the same pair would be re-sent. */
  lemma KeepsExactlyUnmovedQuotes(ts: TickerState, bid: real, ask: real)
    requires GoodTick(ts.tick) && OnTick(bid, ts.tick) && OnTick(ask, ts.tick)
    requires ts.quotedBid.Some? ==> OnTick(ts.quotedBid.value, ts.tick)
    requires ts.quotedAsk.Some? ==> OnTick(ts.quotedAsk.value, ts.tick)
    ensures KeepsResting(ts, bid, ask)
       <==> ts.bidOrderId.Some? && ts.askOrderId.Some? && ts.quotedBid == Some(bid) && ts.quotedAsk == Some(ask)
  {
    if ts.quotedBid.Some? {
      WithinATick(ts.quotedBid.value, bid, ts.tick);
    }
    if ts.quotedAsk.Some? {
      WithinATick(ts.quotedAsk.value, ask, ts.tick);
    }
  }

  lemma WithinATick(p: real, q: real, tick: real)
    requires GoodTick(tick) && OnTick(p, tick) && OnTick(q, tick)
    ensures Abs(p - q) < tick * 0.999 <==> p == q
  {
    if Subpenny(tick) {
      var n := (p * 1000.0).Floor - (q * 1000.0).Floor;
      assert (p - q) * 1000.0 == n as real;
    } else {
      var n := (p * 100.0).Floor - (q * 100.0).Floor;
      assert (p - q) * 100.0 == n as real;
    }
  }

  /** The documented ranges of the model's controls, after their rounding. */
  lemma ScaledActionInRange(action: Action)
    ensures 0.01 <= ScaleAction(action).0 <= 0.5
    ensures -0.05 <= ScaleAction(action).1 <= 0.05
  {
    var a0, a1 := Clamp(action.0, -1.0, 1.0), Clamp(action.1, -1.0, 1.0);
    RoundDpMonotone(0.01, 0.01 + (a0 + 1.0) / 2.0 * 0.49, true);
    RoundDpMonotone(0.01 + (a0 + 1.0) / 2.0 * 0.49, 0.5, true);
    RoundDpMonotone(-0.05, a1 * 0.05, true);
    RoundDpMonotone(a1 * 0.05, 0.05, true);
    RoundEvenExact(10);
    RoundEvenExact(500);
    RoundEvenExact(50);
    RoundEvenExact(-50);
  }

  // --- quotes follow fair value ---------------------------------------------

  lemma SnappedMonotone(p: real, q: real, tick: real)
    requires p <= q
    ensures Snapped(p, tick) <= Snapped(q, tick)
  {
    RoundDpMonotone(p, q, Subpenny(tick));
  }

  lemma MarketPairMonotone(b: real, a: real, b': real, a': real, B: real, A: real, tick: real, mm: MmParams)
    requires b <= b' && a <= a'
    requires MarketPair(b, a, B, A, tick, mm).Some? && MarketPair(b', a', B, A, tick, mm).Some?
    ensures MarketPair(b, a, B, A, tick, mm).value.0 <= MarketPair(b', a', B, A, tick, mm).value.0
    ensures MarketPair(b, a, B, A, tick, mm).value.1 <= MarketPair(b', a', B, A, tick, mm).value.1
  {
    RoundAwayMonotone(Min(b, A - tick) * 10000.0, Min(b', A - tick) * 10000.0);
    RoundAwayMonotone(Max(a, B + tick) * 10000.0, Max(a', B + tick) * 10000.0);
  }

  lemma PairFollowsTheShift(action: Action, lo: real, hi: real, book: BookView, tick: real, mm: MmParams)
    requires lo <= hi
    requires QuotePair(action, lo, book, tick, mm).Some? && QuotePair(action, hi, book, tick, mm).Some?
    ensures QuotePair(action, lo, book, tick, mm).value.0 <= QuotePair(action, hi, book, tick, mm).value.0
    ensures QuotePair(action, lo, book, tick, mm).value.1 <= QuotePair(action, hi, book, tick, mm).value.1
  {
    hide DesiredPair, MarketPair;
    var B, A := book.BestBid().value, book.BestAsk().value;
    var mid := (B + A) / 2.0;
    DesiredMonotone(action, mid + lo, mid + hi, tick, mm);
    var p, q := DesiredPair(action, mid + lo, tick, mm), DesiredPair(action, mid + hi, tick, mm);
    MarketPairMonotone(p.0, p.1, q.0, q.1, B, A, tick, mm);
  }

  /** Of two plans from the same state, the one with the larger fair-value
      shift quotes at least as high on both sides, in dollars and in cents. */
  lemma PlansFollowTheShift(action: Action, lo: real, hi: real, ts: TickerState, mm: MmParams, d: Desk)
    requires lo <= hi
    ensures PlanFor(action, lo, ts, mm, d).Some? && PlanFor(action, hi, ts, mm, d).Some? ==>
            var p, q := PlanFor(action, lo, ts, mm, d).value, PlanFor(action, hi, ts, mm, d).value;
            && p.quotedBid <= q.quotedBid && p.quotedAsk <= q.quotedAsk
            && p.bidCents <= q.bidCents && p.askCents <= q.askCents
  {
    hide QuotePair, Cents, KeepsResting, MayQuote;
    if PlanFor(action, lo, ts, mm, d).Some? && PlanFor(action, hi, ts, mm, d).Some? {
      PairFollowsTheShift(action, lo, hi, ts.book, ts.tick, mm);
      var (b, a) := QuotePair(action, lo, ts.book, ts.tick, mm).value;
      var (b', a') := QuotePair(action, hi, ts.book, ts.tick, mm).value;
      CentsMonotone(b, b', ts.tick);
      CentsMonotone(a, a', ts.tick);
    }
  }

  // --- YES/NO mirror --------------------------------------------------------

  function MirrorAction(action: Action): Action { (action.0, -action.1) }

  function Reflect(price: Option<real>): Option<real> {
    match price case None => None case Some(p) => Some(1.0 - p)
  }

  /** The same market and orders described from the NO side. */
  function MirrorTicker(ts: TickerState): TickerState {
    ts.(book := ts.book.Swapped(), position := -ts.position, entry := Reflect(ts.entry),
        fillsBuy := ts.fillsSell, fillsSell := ts.fillsBuy,
        quotedBid := Reflect(ts.quotedAsk), quotedAsk := Reflect(ts.quotedBid),
        bidOrderId := ts.askOrderId, askOrderId := ts.bidOrderId)
  }

  function MirrorPlan(p: QuotePlan): QuotePlan {
    QuotePlan(100.0 - p.askCents, 100.0 - p.bidCents, p.placeAsk, p.placeBid, p.askSize, p.bidSize,
              if |p.cancelIds| == 2 then [p.cancelIds[1], p.cancelIds[0]] else p.cancelIds,
              1.0 - p.quotedAsk, 1.0 - p.quotedBid)
  }

  predicate SymmetricBand(mm: MmParams) { mm.bandLo + mm.bandHi == 1.0 }

  lemma SwappedBookReflects(b: BookView)
    ensures b.IsValid() <==> b.Swapped().IsValid()
    ensures b.IsValid() ==> b.Swapped().BestBid().value == 1.0 - b.BestAsk().value
    ensures b.IsValid() ==> b.Swapped().BestAsk().value == 1.0 - b.BestBid().value
  {
  }

  lemma SnappedReflects(price: real, tick: real)
    ensures Snapped(1.0 - price, tick) == 1.0 - Snapped(price, tick)
  {
    RoundDpReflects(price, Subpenny(tick));
  }

  lemma ScaleActionMirrors(action: Action)
    ensures ScaleAction(MirrorAction(action)) == (ScaleAction(action).0, -ScaleAction(action).1)
  {
    RoundDpReflects(Clamp(action.1, -1.0, 1.0) * 0.05, true);
  }

  lemma DesiredMirrors(action: Action, center: real, tick: real, mm: MmParams)
    ensures DesiredPair(MirrorAction(action), 1.0 - center, tick, mm)
         == (1.0 - DesiredPair(action, center, tick, mm).1, 1.0 - DesiredPair(action, center, tick, mm).0)
  {
    hide ScaleAction, Snapped;
    ScaleActionMirrors(action);
    var (half, skew) := ScaleAction(action);
    var adjust := if Subpenny(tick) && mm.subpennyEnabled then 0.001 else 0.0;
    SnappedReflects(center - half + skew + adjust, tick);
    SnappedReflects(center + half + skew - adjust, tick);
    assert 1.0 - center - half + -skew + adjust == 1.0 - (center + half + skew - adjust);
    assert 1.0 - center + half + -skew - adjust == 1.0 - (center - half + skew + adjust);
  }

  /** Reflection keeps the grid. */
  lemma MilliReflects(x: real)
    requires Milli(x)
    ensures Milli(1.0 - x)
  {
    MilliOf(1000 - (x * 1000.0).Floor);
  }

  lemma FeeReflects(rate: real, price: real)
    ensures CeilCentFee(rate, 1, 1.0 - price) == CeilCentFee(rate, 1, price)
  {
    var p, q := price, 1.0 - price;
    assert rate * p * q == rate * q * p;
  }

  lemma ClampMirrors(bid: real, ask: real, B: real, A: real, tick: real)
    requires Milli(Min(bid, A - tick)) && Milli(Max(ask, B + tick))
    ensures ClampQuotes(1.0 - ask, 1.0 - bid, 1.0 - A, 1.0 - B, tick)
         == match ClampQuotes(bid, ask, B, A, tick)
            case None => None
            case Some((b, a)) => Some((1.0 - a, 1.0 - b))
  {
    var b, a := Min(bid, A - tick), Max(ask, B + tick);
    MilliReflects(b);
    MilliReflects(a);
    Round4Exact(b);
    Round4Exact(a);
    Round4Exact(1.0 - b);
    Round4Exact(1.0 - a);
    assert Min(1.0 - ask, 1.0 - B - tick) == 1.0 - a;
    assert Max(1.0 - bid, 1.0 - A + tick) == 1.0 - b;
  }

  lemma MarketPairMirrors(bid: real, ask: real, B: real, A: real, tick: real, mm: MmParams)
    requires Milli(Min(bid, A - tick)) && Milli(Max(ask, B + tick))
    ensures MarketPair(1.0 - ask, 1.0 - bid, 1.0 - A, 1.0 - B, tick, mm)
         == match MarketPair(bid, ask, B, A, tick, mm)
            case None => None
            case Some((b, a)) => Some((1.0 - a, 1.0 - b))
  {
    ClampMirrors(bid, ask, B, A, tick);
    match ClampQuotes(bid, ask, B, A, tick)
    case None =>
    case Some((b, a)) =>
      EdgeMirrors(b, a, mm.makerFeeRate, mm.minQuoteEdge);
  }

  lemma EdgeMirrors(bid: real, ask: real, rate: real, minEdge: real)
    ensures QuoteEdgeOk(1.0 - ask, 1.0 - bid, rate, 1, minEdge) <==> QuoteEdgeOk(bid, ask, rate, 1, minEdge)
  {
    FeeReflects(rate, bid);
    FeeReflects(rate, ask);
    assert 1.0 - bid - (1.0 - ask) == ask - bid;
  }

  lemma PairMirrors(action: Action, shift: real, book: BookView, tick: real, mm: MmParams)
    requires GoodTick(tick) && SymmetricBand(mm)
    ensures QuotePair(MirrorAction(action), -shift, book.Swapped(), tick, mm)
         == match QuotePair(action, shift, book, tick, mm)
            case None => None
            case Some((bid, ask)) => Some((1.0 - ask, 1.0 - bid))
  {
    hide DesiredPair, MarketPair;
    SwappedBookReflects(book);
    if book.IsValid() {
      var B, A := book.BestBid().value, book.BestAsk().value;
      var mid := (B + A) / 2.0;
      assert (1.0 - A + (1.0 - B)) / 2.0 == 1.0 - mid;
      assert 1.0 - mid + -shift == 1.0 - (mid + shift);
      var (bid, ask) := DesiredPair(action, mid + shift, tick, mm);
      DesiredMirrors(action, mid + shift, tick, mm);
      assert Milli(Min(bid, A - tick)) && Milli(Max(ask, B + tick)) by {
        DesiredOnGrid(action, mid + shift, tick, mm);
        TouchOnGrid(book, tick);
      }
      MarketPairMirrors(bid, ask, B, A, tick, mm);
    }
  }

  /** A penny price whose cents are a tie: both `price` and its reflection
      round away from zero, so the two do not add up to a dollar. */
  predicate HalfCent(price: real) {
    0.0 <= price <= 1.0 && (price * 100.0).Floor as real + 0.5 == price * 100.0
  }

  /** Exactly where the cents of one price break the symmetry. */
  lemma CentsReflectIff(price: real, tick: real)
    requires GoodTick(tick) && Milli(price)
    ensures Cents(1.0 - price, tick) == 100.0 - Cents(price, tick) <==> Subpenny(tick) || !HalfCent(price)
  {
    if Subpenny(tick) {
      MilliReflects(price);
      CentsNearPrice(price, tick);
      CentsNearPrice(1.0 - price, tick);
    } else {
      PennyCentsReflectUnlessHalf(price);
    }
  }

  lemma PennyCentsReflectUnlessHalf(price: real)
    ensures Cents(1.0 - price, 0.01) == 100.0 - Cents(price, 0.01) <==> !HalfCent(price)
  {
    var x := price * 100.0;
    assert (1.0 - price) * 100.0 == 100.0 - x;
    var n, m := RoundAway(x), RoundAway(100.0 - x);
    if x.Floor as real + 0.5 == x {
      assert 0.0 <= x ==> n == x.Floor + 1;
      assert x < 0.0 ==> n == x.Floor;
      assert x <= 100.0 ==> m == 100 - x.Floor;
      assert x > 100.0 ==> m == 99 - x.Floor;
    }
  }

  /** On a penny market, the pair the model wants reaches past a price one tick
      inside the touch that is a half-cent tie, and will be clamped to it. */
  predicate ClampsToTie(action: Action, shift: real, book: BookView, tick: real, mm: MmParams) {
    !Subpenny(tick) && book.IsValid()
    && var B, A := book.BestBid().value, book.BestAsk().value;
       var (b, a) := DesiredPair(action, (B + A) / 2.0 + shift, tick, mm);
       (HalfCent(A - tick) && b > A - tick) || (HalfCent(B + tick) && a < B + tick)
  }

  function Mirrored(plan: Option<QuotePlan>): Option<QuotePlan> {
    match plan case None => None case Some(p) => Some(MirrorPlan(p))
  }

  /** Describing the market from the NO side gives a plan exactly when the YES
      side does, and exactly the mirrored one unless the clamp hits a tie. */
  lemma PlanMirrorsIff(action: Action, shift: real, ts: TickerState, mm: MmParams, d: Desk)
    requires GoodTick(ts.tick) && SymmetricBand(mm)
    ensures var plan := PlanFor(action, shift, ts, mm, d);
            var other := PlanFor(MirrorAction(action), -shift, MirrorTicker(ts), mm, d);
            && other.Some? == plan.Some?
            && (plan.Some? ==> (other == Mirrored(plan) <==> !ClampsToTie(action, shift, ts.book, ts.tick, mm)))
  {
    hide QuotePair, PlanOf, KeepsResting, HalfCent, MirrorPlan, ClampsToTie;
    PairMirrors(action, shift, ts.book, ts.tick, mm);
    var pair := QuotePair(action, shift, ts.book, ts.tick, mm);
    if pair.Some? {
      var (bid, ask) := pair.value;
      KeepMirrors(ts, bid, ask);
      TiesComeFromTheClamp(action, shift, ts.book, ts.tick, mm);
      CentsReflectIff(bid, ts.tick);
      CentsReflectIff(ask, ts.tick);
      PlanOfMirrorsIff(ts, bid, ask, mm, d.maxInventory);
    }
  }

  /** A snapped penny price is no tie, so only the clamp can leave one. */
  lemma TiesComeFromTheClamp(action: Action, shift: real, book: BookView, tick: real, mm: MmParams)
    requires GoodTick(tick)
    requires QuotePair(action, shift, book, tick, mm).Some?
    ensures var (bid, ask) := QuotePair(action, shift, book, tick, mm).value;
            && Milli(bid) && Milli(ask)
            && (!Subpenny(tick) && (HalfCent(bid) || HalfCent(ask)) <==> ClampsToTie(action, shift, book, tick, mm))
  {
    hide QuotePair, DesiredPair, QuoteEdgeOk, Milli, WholeCent, HalfCent;
    PairAnatomy(action, shift, book, tick, mm);
    var B, A := book.BestBid().value, book.BestAsk().value;
    var (b, a) := DesiredPair(action, (B + A) / 2.0 + shift, tick, mm);
    DesiredOnGrid(action, (B + A) / 2.0 + shift, tick, mm);
    WholeCentIsNoTie(b);
    WholeCentIsNoTie(a);
  }

  lemma WholeCentIsNoTie(price: real)
    ensures WholeCent(price) ==> !HalfCent(price)
  {
  }

  /** A penny market whose levels are whole cents has no ties. */
  lemma PlanMirrors(action: Action, shift: real, ts: TickerState, mm: MmParams, d: Desk)
    requires GoodTick(ts.tick) && SymmetricBand(mm)
    requires Subpenny(ts.tick) || ts.book.WholeCents()
    ensures PlanFor(MirrorAction(action), -shift, MirrorTicker(ts), mm, d)
         == Mirrored(PlanFor(action, shift, ts, mm, d))
  {
    hide PlanFor, WholeCent, HalfCent, DesiredPair;
    PlanMirrorsIff(action, shift, ts, mm, d);
    if ts.book.IsValid() {
      TouchOnGrid(ts.book, ts.tick);
      WholeCentIsNoTie(ts.book.BestAsk().value - ts.tick);
      WholeCentIsNoTie(ts.book.BestBid().value + ts.tick);
    }
  }

  lemma KeepMirrors(ts: TickerState, bid: real, ask: real)
    ensures KeepsResting(MirrorTicker(ts), 1.0 - ask, 1.0 - bid) <==> KeepsResting(ts, bid, ask)
  {
  }

  lemma PlanOfMirrorsIff(ts: TickerState, bid: real, ask: real, mm: MmParams, maxInventory: int)
    ensures PlanOf(ts, bid, ask, mm, maxInventory).quotedBid == bid
    ensures PlanOf(ts, bid, ask, mm, maxInventory).quotedAsk == ask
    ensures PlanOf(MirrorTicker(ts), 1.0 - ask, 1.0 - bid, mm, maxInventory)
         == MirrorPlan(PlanOf(ts, bid, ask, mm, maxInventory))
       <==> Cents(1.0 - bid, ts.tick) == 100.0 - Cents(bid, ts.tick)
            && Cents(1.0 - ask, ts.tick) == 100.0 - Cents(ask, ts.tick)
  {
    hide Cents;
    assert BidSize(1.0 - ask, mm) == AskSize(ask, mm);
    assert AskSize(1.0 - bid, mm) == BidSize(bid, mm);
  }

  // --- the throttle over runs -----------------------------------------------

  /** One call of the planner for a market whose record may have changed in
      any way since the last call, its throttle clock aside. */
  datatype Call = Call(action: Action, shift: real, ts: TickerState, mm: MmParams, d: Desk)

  /** The throttle clock after a run of calls. */
  function ClockAfter(clock: real, calls: seq<Call>): real {
    if calls == [] then clock
    else
      var c, before := calls[|calls| - 1], ClockAfter(clock, calls[..|calls| - 1]);
      if c.d.now - before < 1.0 then before else c.d.now
  }

  /** When plans were emitted. */
  function PlanTimes(clock: real, calls: seq<Call>): seq<real> {
    if calls == [] then []
    else
      var c, before := calls[|calls| - 1], calls[..|calls| - 1];
      var ts := c.ts.(lastQuoteTime := ClockAfter(clock, before));
      PlanTimes(clock, before) + if PlanFor(c.action, c.shift, ts, c.mm, c.d).Some? then [c.d.now] else []
  }

  /** Plans for one market are at least a second apart, however often the
      planner is called and even if the clock it is given runs backwards. */
  lemma {:induction false} PlansAreASecondApart(clock: real, calls: seq<Call>)
    ensures forall i :: 0 <= i < |PlanTimes(clock, calls)| - 1 ==>
              PlanTimes(clock, calls)[i + 1] - PlanTimes(clock, calls)[i] >= 1.0
    ensures PlanTimes(clock, calls) != [] ==>
              PlanTimes(clock, calls)[|PlanTimes(clock, calls)| - 1] <= ClockAfter(clock, calls)
  {
    hide QuotePair, KeepsResting, PlanOf;
    if calls == [] {
    } else {
      PlansAreASecondApart(clock, calls[..|calls| - 1]);
    }
  }

  // --- a worked plan --------------------------------------------------------

  /** The deployed fee rate, edge and quote band. */
  predicate OrdinaryParams(mm: MmParams) {
    mm.makerFeeRate == 0.0175 && mm.minQuoteEdge == 0.01 && mm.bandLo == 0.05 && mm.bandHi == 0.95
  }

  /** The repository's own example: quotes at 27 and 53 cents. */
  lemma WideBookPair(mm: MmParams)
    requires OrdinaryParams(mm)
    ensures QuotePair((-0.5, 0.0), 0.0, WideBook(), 0.01, mm) == Some((0.27, 0.53))
  {
    hide DesiredPair, QuoteEdgeOk, Round4;
    WideBookTouch();
    WideBookDesired(mm);
    WideBookEdge(mm);
    MilliOf(270);
    MilliOf(530);
    Round4Exact(0.27);
    Round4Exact(0.53);
  }

  lemma WideBookDesired(mm: MmParams)
    ensures DesiredPair((-0.5, 0.0), 0.4, 0.01, mm) == (0.27, 0.53)
  {
    hide RoundEven;
    assert RoundEven(132.5) == 132 && RoundEven(0.0) == 0 by {
      RoundEvenUnique(132.5, 132);
      RoundEvenUnique(0.0, 0);
    }
    assert ScaleAction((-0.5, 0.0)) == (0.132, 0.0);
    RoundEvenUnique(26.8, 27);
    RoundEvenUnique(53.2, 53);
  }

  lemma WideBookEdge(mm: MmParams)
    requires OrdinaryParams(mm)
    ensures QuoteEdgeOk(0.27, 0.53, mm.makerFeeRate, 1, mm.minQuoteEdge)
  {
    assert FeeCents(0.0175, 1, 0.27) == 0.3449250;
    assert FeeCents(0.0175, 1, 0.53) == 0.4359250;
    assert CeilCentFee(0.0175, 1, 0.27) == 0.01 && CeilCentFee(0.0175, 1, 0.53) == 0.01;
    RoundAwayExact(260000);
    RoundAwayExact(30000);
  }

  /** Bid 40 cents, ask 50.5: a level a penny market cannot quote exactly. */
  function HalfCentBook(): BookView { BookView(map[400 := 50.0], map[495 := 40.0]) }

  lemma HalfCentTouch()
    ensures HalfCentBook().IsValid() && HalfCentBook().BestBid() == Some(0.4) && HalfCentBook().BestAsk() == Some(0.505)
  {
    OnlyLevel(400, 50.0);
    OnlyLevel(495, 40.0);
  }

  lemma HalfCentDesired(mm: MmParams)
    ensures DesiredPair((-1.0, 0.0), 0.5525, 0.01, mm) == (0.54, 0.56)
  {
    hide RoundEven;
    assert RoundEven(10.0) == 10 && RoundEven(0.0) == 0 by {
      RoundEvenUnique(10.0, 10);
      RoundEvenUnique(0.0, 0);
    }
    assert ScaleAction((-1.0, 0.0)) == (0.01, 0.0);
    RoundEvenUnique(54.25, 54);
    RoundEvenUnique(56.25, 56);
  }

  lemma HalfCentEdge(mm: MmParams)
    requires OrdinaryParams(mm)
    ensures QuoteEdgeOk(0.495, 0.56, mm.makerFeeRate, 1, mm.minQuoteEdge)
  {
    assert FeeCents(0.0175, 1, 0.495) == 0.437456250;
    assert FeeCents(0.0175, 1, 0.56) == 0.4312;
    assert CeilCentFee(0.0175, 1, 0.495) == 0.01 && CeilCentFee(0.0175, 1, 0.56) == 0.01;
    RoundAwayExact(65000);
    RoundAwayExact(30000);
  }

  /** Ties do occur: spot lifts a tight bid into the touch, one tick below an
      ask of 50.5 cents, and the two sides of the market disagree by a cent. */
  lemma HalfCentPlanBreaksTheMirror(ts: TickerState, mm: MmParams, d: Desk)
    requires OrdinaryParams(mm) && ts.tick == 0.01 && ts.book == HalfCentBook() && ts.bidOrderId.None?
    requires MayQuote(ts, mm, d)
    ensures var plan := PlanFor((-1.0, 0.0), 0.1, ts, mm, d);
            var other := PlanFor((-1.0, 0.0), -0.1, MirrorTicker(ts), mm, d);
            && ClampsToTie((-1.0, 0.0), 0.1, ts.book, ts.tick, mm)
            && plan.Some? && plan.value.bidCents == 50.0 && plan.value.quotedBid == 0.495
            && other.Some? && other.value.askCents == 51.0 && other.value.quotedAsk == 0.505
  {
    hide DesiredPair, QuoteEdgeOk, Round4;
    HalfCentTouch();
    HalfCentDesired(mm);
    HalfCentEdge(mm);
    MilliOf(495);
    MilliOf(560);
    Round4Exact(0.495);
    Round4Exact(0.56);
    assert QuotePair((-1.0, 0.0), 0.1, ts.book, 0.01, mm) == Some((0.495, 0.56));
    PairMirrors((-1.0, 0.0), 0.1, ts.book, 0.01, mm);
    assert RoundAway(49.5) == 50 && RoundAway(50.5) == 51;
  }
}
