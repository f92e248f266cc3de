/** The fee gate looks at one contract. These laws show it is enough: any
    round trip at a quoted pair, at any size and in any partial fills, nets
    more than its minimum edge after fees. */
module RoundTrip {
  import Numbers
  import opened Books
  import opened Ledger
  import opened Processing
  import opened Conservation
  import opened Quotes
  import opened QuoteLaws

  /** Maker fills of market `t`, buys at `bid` and sells at `ask`. */
  predicate Legs(es: seq<Event>, t: string, bid: real, ask: real) {
    forall i :: 0 <= i < |es| ==>
      es[i].Traded? && es[i].fill.ticker == t && !es[i].fill.isTaker
      && es[i].fill.price == if es[i].fill.longYes then bid else ask
  }

  /** Fill ids new to the account and distinct. */
  predicate NewIds(a: Account, es: seq<Event>)
    requires FillsOnly(es)
  {
    (forall i :: 0 <= i < |es| ==> es[i].fill.id !in a.seen.ids)
    && (forall i, j :: 0 <= i < j < |es| ==> es[i].fill.id != es[j].fill.id)
  }

  function Lots(es: seq<Event>, long: bool): nat
    requires FillsOnly(es)
  {
    if es == [] then 0
    else
      var f := es[|es| - 1].fill;
      Lots(es[..|es| - 1], long) + if f.longYes == long then f.size else 0
  }

  lemma AcceptedSeen(cfg: Config, a: Account, f: Fill, now: real)
    ensures Step(cfg, a, Traded(f, now)).seen.ids <= a.seen.ids + {f.id}
  {
    hide FilledTicker, RealizedBy, FeeOf;
  }

  lemma {:induction false} RunSeesOnlyItsIds(cfg: Config, a: Account, es: seq<Event>, id: string)
    requires FillsOnly(es)
    requires id !in a.seen.ids && forall i :: 0 <= i < |es| ==> es[i].fill.id != id
    ensures id !in Run(cfg, a, es).seen.ids
  {
    hide Step;
    if es == [] {
    } else {
      var before, e := es[..|es| - 1], es[|es| - 1];
      RunSeesOnlyItsIds(cfg, a, before, id);
      AcceptedSeen(cfg, Run(cfg, a, before), e.fill, e.now);
    }
  }

  /** Account and market move together, but for the fee. */
  lemma FillMovesCumulative(cfg: Config, a: Account, f: Fill, now: real)
    requires f.id !in a.seen.ids
    ensures var b := Step(cfg, a, Traded(f, now));
            b.cumulativePnl - b.At(f.ticker).realizedPnl
            == a.cumulativePnl - a.At(f.ticker).realizedPnl - FeeOf(cfg, f)
  {
    hide RealizedBy, FoldEntryPrice, FeeOf, SeriesOf, AfterSeen;
  }

  /** One leg: cash moves at the quoted price, less a fee of at most the
      one-lot fee per contract. */
  lemma LegStep(cfg: Config, a: Account, f: Fill, now: real)
    requires f.id !in a.seen.ids && !f.isTaker && Costed(a.At(f.ticker))
    ensures var b := Step(cfg, a, Traded(f, now));
            && Costed(b.At(f.ticker))
            && b.At(f.ticker).position == a.At(f.ticker).position + f.Signed()
            && b.cumulativePnl - Basis(b.At(f.ticker))
               >= a.cumulativePnl - Basis(a.At(f.ticker)) - f.Signed() as real * f.price
                  - f.size as real * CeilCentFee(cfg.makerFeeRate, 1, f.price)
  {
    hide Step, FilledTicker, Basis, CeilCentFee;
    var t, e := f.ticker, Traded(f, now);
    var ts := if t in a.tickers then a.tickers[t] else NewTicker(CategoryOf(cfg, t));
    StepAt(cfg, a, e, t);
    FillMovesEquityByCash(ts, f, now);
    FillMovesCumulative(cfg, a, f, now);
    FeeAtMostPerLot(cfg.makerFeeRate, f.size, f.price);
    SameBasis(ts, a.At(t));
  }

  lemma SameBasis(x: TickerState, y: TickerState)
    requires x.position == y.position && x.entry == y.entry
    ensures Basis(x) == Basis(y)
  {
  }

  /** What one contract brings on each side, after its own one-lot fee. */
  function BuyCost(rate: real, bid: real): real { bid + CeilCentFee(rate, 1, bid) }

  function SellGain(rate: real, ask: real): real { ask - CeilCentFee(rate, 1, ask) }

  lemma LegWorth(cfg: Config, a: Account, f: Fill, now: real)
    requires f.id !in a.seen.ids && !f.isTaker && Costed(a.At(f.ticker))
    ensures var b := Step(cfg, a, Traded(f, now));
            && Costed(b.At(f.ticker))
            && b.At(f.ticker).position == a.At(f.ticker).position + f.Signed()
            && b.cumulativePnl - Basis(b.At(f.ticker))
               >= a.cumulativePnl - Basis(a.At(f.ticker))
                  + if f.longYes then -Worth(f.size, BuyCost(cfg.makerFeeRate, f.price))
                    else Worth(f.size, SellGain(cfg.makerFeeRate, f.price))
  {
    hide Step, Basis, CeilCentFee;
    LegStep(cfg, a, f, now);
    var n, p, fee := f.size as real, f.price, CeilCentFee(cfg.makerFeeRate, 1, f.price);
    assert n * (p + fee) == n * p + n * fee;
    assert n * (p - fee) == n * p - n * fee;
    assert (-n) * p == -(n * p);
  }

  lemma {:induction false} LegsAccumulate(cfg: Config, a: Account, es: seq<Event>, t: string, bid: real, ask: real)
    requires FillsOnly(es) && Legs(es, t, bid, ask) && NewIds(a, es) && Costed(a.At(t))
    ensures var b := Run(cfg, a, es);
            var bought, sold := Lots(es, true), Lots(es, false);
            && Costed(b.At(t))
            && b.At(t).position == a.At(t).position + bought - sold
            && b.cumulativePnl - Basis(b.At(t))
               >= a.cumulativePnl - Basis(a.At(t))
                  + Worth(sold, SellGain(cfg.makerFeeRate, ask)) - Worth(bought, BuyCost(cfg.makerFeeRate, bid))
  {
    hide Step, Basis, BuyCost, SellGain, Worth;
    var cost, gain := BuyCost(cfg.makerFeeRate, bid), SellGain(cfg.makerFeeRate, ask);
    if es == [] {
      WorthAdds(0, 0, cost);
      WorthAdds(0, 0, gain);
    } else {
      var before, e := es[..|es| - 1], es[|es| - 1];
      LegsAccumulate(cfg, a, before, t, bid, ask);
      RunSeesOnlyItsIds(cfg, a, before, e.fill.id);
      LegWorth(cfg, Run(cfg, a, before), e.fill, e.now);
      WorthAdds(Lots(before, true), e.fill.size, cost);
      WorthAdds(Lots(before, false), e.fill.size, gain);
    }
  }

  lemma PlanQuotesItsPair(action: Action, shift: real, ts: TickerState, mm: MmParams, d: Desk)
    requires PlanFor(action, shift, ts, mm, d).Some?
    ensures var plan := PlanFor(action, shift, ts, mm, d).value;
            QuotePair(action, shift, ts.book, ts.tick, mm) == Numbers.Some((plan.quotedBid, plan.quotedAsk))
  {
    hide QuotePair;
  }

  /** Any plan's pair: buying and selling `n` contracts in any partial fills
      and any interleaving returns to flat with more than n times the edge. */
  lemma RoundTripBeatsItsFees(cfg: Config, a: Account, es: seq<Event>, t: string, n: nat,
                              action: Action, shift: real, ts: TickerState, mm: MmParams, d: Desk)
    requires GoodTick(ts.tick) && PlanFor(action, shift, ts, mm, d).Some?
    requires mm.makerFeeRate == cfg.makerFeeRate
    requires a.At(t).position == 0
    requires FillsOnly(es) && NewIds(a, es)
    requires var plan := PlanFor(action, shift, ts, mm, d).value; Legs(es, t, plan.quotedBid, plan.quotedAsk)
    requires Lots(es, true) == n && Lots(es, false) == n && n > 0
    ensures Run(cfg, a, es).At(t).position == 0
    ensures Run(cfg, a, es).cumulativePnl - a.cumulativePnl > n as real * mm.minQuoteEdge
  {
    hide *;
    PlanQuotesItsPair(action, shift, ts, mm, d);
    var (bid, ask) := QuotePair(action, shift, ts.book, ts.tick, mm).value;
    PairEdge(action, shift, ts.book, ts.tick, mm);
    FlatRoundTrip(cfg, a, es, t, bid, ask, n, mm.minQuoteEdge);
  }

  lemma PairEdge(action: Action, shift: real, book: BookView, tick: real, mm: MmParams)
    requires GoodTick(tick) && QuotePair(action, shift, book, tick, mm).Some?
    ensures var (bid, ask) := QuotePair(action, shift, book, tick, mm).value;
            SellGain(mm.makerFeeRate, ask) - BuyCost(mm.makerFeeRate, bid) > mm.minQuoteEdge
  {
    hide QuotePair, QuoteEdgeOk, CeilCentFee, DesiredPair;
    PairAnatomy(action, shift, book, tick, mm);
    var (bid, ask) := QuotePair(action, shift, book, tick, mm).value;
    EdgeGateIsSound(bid, ask, mm.makerFeeRate, mm.minQuoteEdge);
  }

  lemma FlatRoundTrip(cfg: Config, a: Account, es: seq<Event>, t: string, bid: real, ask: real, n: nat, edge: real)
    requires FillsOnly(es) && Legs(es, t, bid, ask) && NewIds(a, es) && a.At(t).position == 0
    requires Lots(es, true) == n && Lots(es, false) == n && n > 0
    requires SellGain(cfg.makerFeeRate, ask) - BuyCost(cfg.makerFeeRate, bid) > edge
    ensures Run(cfg, a, es).At(t).position == 0
    ensures Run(cfg, a, es).cumulativePnl - a.cumulativePnl > n as real * edge
  {
    hide *;
    var cost, gain := BuyCost(cfg.makerFeeRate, bid), SellGain(cfg.makerFeeRate, ask);
    FlatHasNoBasis(a.At(t));
    LegsAccumulate(cfg, a, es, t, bid, ask);
    FlatHasNoBasis(Run(cfg, a, es).At(t));
    WorthOfEdge(n, gain, cost, edge);
  }

  lemma WorthOfEdge(n: nat, gain: real, cost: real, edge: real)
    requires n > 0 && gain - cost > edge
    ensures Worth(n, gain) - Worth(n, cost) > n as real * edge
  {
    assert n as real * (gain - cost - edge) > 0.0;
  }
}
