/** The orders of one market that rest on the exchange, against the two ids its
    record remembers: plans, pulls and fills as one run. */
module LiveOrders {
  import opened Numbers
  import opened Ledger
  import opened Quotes
  import Executor
  import Inventory
  import Traders

  datatype Market = Market(ts: TickerState, live: set<string>)

  datatype Step =
    | Plan(action: Action, shift: real, allowBid: bool, allowAsk: bool, mm: MmParams, d: Desk,
           bid: Executor.SendResult, ask: Executor.SendResult)
    | Pull(spotBound: set<string>)
    | Filled(f: Fill, now: real, whole: bool)

  /** The ids the record remembers. */
  function Named(ts: TickerState): set<string> { IdSet(ts.bidOrderId) + IdSet(ts.askOrderId) }

  function IdSet(id: Option<string>): set<string> { if id.Some? then {id.value} else {} }

  /** What an attempt leaves resting. */
  function Rests(placed: bool, answer: Executor.SendResult): set<string> {
    match answer
    case Placed(id) => if placed then IdSet(id) else {}
    case InsufficientBalance => {}
  }

  function Without(live: set<string>, canceled: seq<string>): set<string> { set id | id in live && id !in canceled }

  /** Cancels take effect, accepted orders rest, a filled order is gone once it
      is filled whole; fills by any other order may come as well. */
  function After(s: Market, e: Step): Market {
    match e
    case Plan(action, shift, allowBid, allowAsk, mm, d, bid, ask) =>
      (match PlanFor(action, shift, s.ts, mm, d)
       case None => s
       case Some(plan) =>
         var gated := Inventory.Gated(plan, allowBid, allowAsk);
         Market(Executor.QuotedTicker(s.ts.(lastQuoteTime := d.now), gated, bid, ask),
                Without(s.live, gated.cancelIds)
                + Rests(plan.placeBid && allowBid, bid) + Rests(plan.placeAsk && allowAsk, ask)))
    case Pull(spotBound) => Market(Traders.Pulled(s.ts, spotBound), Without(s.live, Traders.PulledIdsOf(s.ts, spotBound)))
    case Filled(f, now, whole) => Market(FilledTicker(s.ts, f, now), if whole then s.live - IdSet(f.orderId) else s.live)
  }

  /** New orders get ids that are not in use. */
  predicate Enabled(s: Market, e: Step) {
    match e
    case Plan(_, _, _, _, _, _, bid, ask) =>
      Rests(true, bid) !! s.live && Rests(true, ask) !! s.live && Rests(true, bid) !! Rests(true, ask)
    case _ => true
  }

  function RunMarket(s: Market, es: seq<Step>): Market {
    if es == [] then s else After(RunMarket(s, es[..|es| - 1]), es[|es| - 1])
  }

  predicate AllEnabled(s: Market, es: seq<Step>) {
    forall i :: 0 <= i < |es| ==> Enabled(RunMarket(s, es[..i]), es[i])
  }

  /** Orders hit by a partial fill while the record named them, and not filled
      up since. */
  function Orphans(s: Market, es: seq<Step>): set<string> {
    if es == [] then {}
    else
      var before, e := es[..|es| - 1], es[|es| - 1];
      var orphans := Orphans(s, before);
      if !e.Filled? then orphans
      else if e.whole then orphans - IdSet(e.f.orderId)
      else orphans + (IdSet(e.f.orderId) * Named(RunMarket(s, before).ts))
  }

  lemma CancelsNameTheRecord(action: Action, shift: real, ts: TickerState, mm: MmParams, d: Desk)
    ensures PlanFor(action, shift, ts, mm, d).Some? ==>
              forall id :: id in PlanFor(action, shift, ts, mm, d).value.cancelIds <==> id in Named(ts)
  {
    hide QuotePair, KeepsResting, MayQuote, Cents;
  }

  lemma PlanKeepsTrack(s: Market, e: Step, orphans: set<string>)
    requires e.Plan? && Enabled(s, e) && s.live == Named(s.ts) + orphans && Named(s.ts) !! orphans
    ensures After(s, e).live == Named(After(s, e).ts) + orphans && Named(After(s, e).ts) !! orphans
  {
    hide PlanFor;
    CancelsNameTheRecord(e.action, e.shift, s.ts, e.mm, e.d);
  }

  lemma PullKeepsTrack(s: Market, e: Step, orphans: set<string>)
    requires e.Pull? && s.live == Named(s.ts) + orphans && Named(s.ts) !! orphans
    ensures After(s, e).live == Named(After(s, e).ts) + orphans && Named(After(s, e).ts) !! orphans
    ensures s.ts.category in e.spotBound ==> Named(After(s, e).ts) == {}
    ensures s.ts.category !in e.spotBound ==> After(s, e) == s
    ensures After(s, e).ts.(bidOrderId := s.ts.bidOrderId, askOrderId := s.ts.askOrderId) == s.ts
  {
  }

  lemma FillReleases(ts: TickerState, f: Fill, now: real)
    ensures Named(FilledTicker(ts, f, now)) == Named(ts) - IdSet(f.orderId)
  {
    hide FoldEntryPrice, RealizedBy;
  }

  /** In every run the orders resting on the exchange are those the record
      names, and the orphans. Nothing else is forgotten: no plan, refusal,
      suppressed side or pull leaves an order behind. */
  lemma {:induction false} RecordNamesTheLiveOrders(s: Market, es: seq<Step>)
    requires s.live == Named(s.ts) && AllEnabled(s, es)
    ensures var after := RunMarket(s, es);
            after.live == Named(after.ts) + Orphans(s, es) && Named(after.ts) !! Orphans(s, es)
  {
    hide After, Enabled, Named, IdSet;
    if es == [] {
    } else {
      var before, e := es[..|es| - 1], es[|es| - 1];
      assert forall i :: 0 <= i < |before| ==> before[..i] == es[..i];
      RecordNamesTheLiveOrders(s, before);
      var mid, orphans := RunMarket(s, before), Orphans(s, before);
      assert Enabled(RunMarket(s, es[..|es| - 1]), es[|es| - 1]);
      match e
      case Plan(_, _, _, _, _, _, _, _) =>
        PlanKeepsTrack(mid, e, orphans);
      case Pull(_) =>
        PullKeepsTrack(mid, e, orphans);
      case Filled(f, now, whole) =>
        FillKeepsTrack(mid, e, orphans);
    }
  }

  lemma FillKeepsTrack(s: Market, e: Step, orphans: set<string>)
    requires e.Filled? && s.live == Named(s.ts) + orphans && Named(s.ts) !! orphans
    ensures var now := if e.whole then orphans - IdSet(e.f.orderId) else orphans + (IdSet(e.f.orderId) * Named(s.ts));
            After(s, e).live == Named(After(s, e).ts) + now && Named(After(s, e).ts) !! now
  {
    hide FilledTicker;
    FillReleases(s.ts, e.f, e.now);
  }

  /** So the record is complete exactly while nothing is orphaned. */
  lemma RecordIsCompleteIff(s: Market, es: seq<Step>)
    requires s.live == Named(s.ts) && AllEnabled(s, es)
    ensures RunMarket(s, es).live == Named(RunMarket(s, es).ts) <==> Orphans(s, es) == {}
  {
    hide RunMarket, Orphans, Named;
    RecordNamesTheLiveOrders(s, es);
  }

  predicate AllWhole(es: seq<Step>) { forall i :: 0 <= i < |es| && es[i].Filled? ==> es[i].whole }

  /** In particular when every fill is whole, as one-contract orders' are. */
  lemma {:induction false} WholeFillsOrphanNothing(s: Market, es: seq<Step>)
    requires AllWhole(es)
    ensures Orphans(s, es) == {}
  {
    hide RunMarket, Named, IdSet;
    if es == [] {
    } else {
      WholeFillsOrphanNothing(s, es[..|es| - 1]);
    }
  }

  /** A bid for two is half filled. */
  function HalfFill(): Fill { Fill("f", "T", true, 0.27, 1, false, Some("b")) }

  function BidForTwo(): Market { Market(NewTicker("C").(bidOrderId := Some("b")), {"b"}) }

  /** The half filled order rests on, and neither a pull nor any plan cancels it. */
  lemma HalfFilledOrderIsForgotten(now: real, spotBound: set<string>, action: Action, shift: real, mm: MmParams, d: Desk)
    ensures var half := After(BidForTwo(), Filled(HalfFill(), now, false));
            && Named(half.ts) == {} && half.live == {"b"}
            && After(half, Pull(spotBound)).live == {"b"}
            && (PlanFor(action, shift, half.ts, mm, d).Some? ==>
                  PlanFor(action, shift, half.ts, mm, d).value.cancelIds == [])
  {
    hide QuotePair, KeepsResting, MayQuote, Cents, FoldEntryPrice, RealizedBy;
    FillReleases(BidForTwo().ts, HalfFill(), now);
  }
}
