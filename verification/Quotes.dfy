/** The quote planner (src/engine.rs): from a model action and a book to a
    two-sided plan, or nothing. */
module Quotes {
  import opened Numbers
  import opened Books
  import opened Ledger

  datatype MmParams = MmParams(
    quoteSize: int,
    makerFeeRate: real,
    takerFeeRate: real,
    subpennyEnabled: bool,
    minQuoteEdge: real,
    maxOpenOrders: nat,
    balanceBackoffS: real,
    bandLo: real,
    bandHi: real,
    extremeQuoteSize: int,
    extremeBand: real)

  datatype QuotePlan = QuotePlan(
    bidCents: real, askCents: real,
    placeBid: bool, placeAsk: bool,
    bidSize: int, askSize: int,
    cancelIds: seq<string>,
    quotedBid: real, quotedAsk: real)

  /** Model output: spread control and skew control. */
  type Action = (real, real)

  type Pair = (real, real)

  /** Model action -> (half spread, skew), each rounded to three decimals. */
  function ScaleAction(action: Action): Pair {
    (RoundDp(0.01 + (Clamp(action.0, -1.0, 1.0) + 1.0) / 2.0 * 0.49, true),
     RoundDp(Clamp(action.1, -1.0, 1.0) * 0.05, true))
  }

  predicate Subpenny(tick: real) { tick <= 0.001 }

  /** Snapped to the tick grid and the legal price range. */
  function Snapped(price: real, tick: real): real {
    Clamp(RoundDp(price, Subpenny(tick)), 0.01, 0.99)
  }

  /** The pair the model wants, before it meets the market. */
  function DesiredPair(action: Action, center: real, tick: real, mm: MmParams): Pair {
    var (half, skew) := ScaleAction(action);
    var adjust := if Subpenny(tick) && mm.subpennyEnabled then 0.001 else 0.0;
    (Snapped(center - half + skew + adjust, tick), Snapped(center + half + skew - adjust, tick))
  }

  /** A wanted pair against the touch: collapse, touch clamp, fee edge. */
  function MarketPair(bid: real, ask: real, bestBid: real, bestAsk: real, tick: real, mm: MmParams): Option<Pair> {
    if ask <= bid then None
    else
      match ClampQuotes(bid, ask, bestBid, bestAsk, tick)
      case None => None
      case Some((b, a)) =>
        if QuoteEdgeOk(b, a, mm.makerFeeRate, 1, mm.minQuoteEdge) then Some((b, a)) else None
  }

  /** The pair that survives every price gate: valid book, quote band, and
      then the touch. */
  function QuotePair(action: Action, shift: real, book: BookView, tick: real, mm: MmParams): Option<Pair> {
    if !book.IsValid() then None
    else
      var mid := (book.BestBid().value + book.BestAsk().value) / 2.0;
      if !(mm.bandLo <= mid <= mm.bandHi) then None
      else
        var pair := DesiredPair(action, mid + shift, tick, mm);
        MarketPair(pair.0, pair.1, book.BestBid().value, book.BestAsk().value, tick, mm)
  }

  /** Both orders rest and neither price moved a tick: keep queue priority. */
  predicate KeepsResting(ts: TickerState, bid: real, ask: real) {
    ts.quotedBid.Some? && ts.quotedAsk.Some? && ts.bidOrderId.Some? && ts.askOrderId.Some?
    && Abs(ts.quotedBid.value - bid) < ts.tick * 0.999
    && Abs(ts.quotedAsk.value - ask) < ts.tick * 0.999
  }

  function Cents(price: real, tick: real): real {
    if Subpenny(tick) then RoundEven(price * 100.0 * 10.0) as real / 10.0
    else RoundAway(price * 100.0) as real
  }

  function BidSize(bid: real, mm: MmParams): int {
    if bid >= 1.0 - mm.extremeBand then mm.extremeQuoteSize else mm.quoteSize
  }

  function AskSize(ask: real, mm: MmParams): int {
    if ask <= mm.extremeBand then mm.extremeQuoteSize else mm.quoteSize
  }

  function OptId(id: Option<string>): seq<string> { if id.Some? then [id.value] else [] }

  function PlanOf(ts: TickerState, bid: real, ask: real, mm: MmParams, maxInventory: int): QuotePlan {
    QuotePlan(Cents(bid, ts.tick), Cents(ask, ts.tick),
              AbsInt(ts.position + BidSize(bid, mm)) <= maxInventory,
              AbsInt(ts.position - AskSize(ask, mm)) <= maxInventory,
              BidSize(bid, mm), AskSize(ask, mm),
              OptId(ts.bidOrderId) + OptId(ts.askOrderId),
              bid, ask)
  }

  /** Conditions outside the prices: throttle, balance backoff, order budget. */
  datatype Desk = Desk(maxInventory: int, openOrders: nat, backoffUntil: real, now: real)

  predicate MayQuote(ts: TickerState, mm: MmParams, d: Desk) {
    d.now - ts.lastQuoteTime >= 1.0 && d.now >= d.backoffUntil
    && (d.openOrders < mm.maxOpenOrders || ts.everQuoted)
  }

  function PlanFor(action: Action, shift: real, ts: TickerState, mm: MmParams, d: Desk): Option<QuotePlan> {
    if !MayQuote(ts, mm, d) then None
    else
      match QuotePair(action, shift, ts.book, ts.tick, mm)
      case None => None
      case Some((bid, ask)) =>
        if KeepsResting(ts, bid, ask) then None else Some(PlanOf(ts, bid, ask, mm, d.maxInventory))
  }

  /** The planner as the bot runs it: gates in order, the throttle slot burnt
      by every call that gets past the throttle. */
  method PlanQuotes(action: Action, shift: real, ts: TickerState, mm: MmParams, maxInventory: int,
                    openOrderCount: nat, balanceBackoffUntil: real, now: real)
    returns (after: TickerState, plan: Option<QuotePlan>)
    ensures plan == PlanFor(action, shift, ts, mm, Desk(maxInventory, openOrderCount, balanceBackoffUntil, now))
    ensures after == if now - ts.lastQuoteTime < 1.0 then ts else ts.(lastQuoteTime := now)
  {
    hide DesiredPair, ClampQuotes, QuoteEdgeOk, PlanOf, KeepsResting;
    after, plan := ts, None;
    if now - ts.lastQuoteTime < 1.0 {
      return;
    }
    after := ts.(lastQuoteTime := now);
    if now < balanceBackoffUntil || !ts.book.IsValid() {
      return;
    }
    var bestBid, bestAsk := ts.book.BestBid().value, ts.book.BestAsk().value;
    var mid := (bestBid + bestAsk) / 2.0;
    if !(mm.bandLo <= mid <= mm.bandHi) {
      return;
    }
    if openOrderCount >= mm.maxOpenOrders && !ts.everQuoted {
      return;
    }
    var (ourBid, ourAsk) := DesiredPair(action, mid + shift, ts.tick, mm);
    if ourAsk <= ourBid {
      return;
    }
    var clamped := ClampQuotes(ourBid, ourAsk, bestBid, bestAsk, ts.tick);
    if clamped.None? {
      return;
    }
    ourBid, ourAsk := clamped.value.0, clamped.value.1;
    if !QuoteEdgeOk(ourBid, ourAsk, mm.makerFeeRate, 1, mm.minQuoteEdge) || KeepsResting(ts, ourBid, ourAsk) {
      return;
    }
    plan := Some(PlanOf(ts, ourBid, ourAsk, mm, maxInventory));
  }
}
