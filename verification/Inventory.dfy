/** The inventory cap over whole runs: planner, executor, fill booking and
    exits together. Cancels are effective, resting quotes fill whole and are
    booked before the next plan, at most one exit is in flight. The exit may
    stay unbooked across any number of plans and fill in any number of parts. */
module Inventory {
  import opened Numbers
  import Books
  import opened Ledger
  import opened Quotes
  import QuoteLaws
  import opened Executor
  import opened Exits

  /** One market with what rests on the exchange. `exit` > 0: a sell of that
      many contracts not yet booked; < 0: a buy; 0: none. */
  datatype Floor = Floor(ts: TickerState, bidLots: int, askLots: int, exit: int) {
    function Bid(): int { if ts.bidOrderId.Some? then bidLots else 0 }
    function Ask(): int { if ts.askOrderId.Some? then askLots else 0 }
    function Selling(): int { if exit > 0 then exit else 0 }
    function Buying(): int { if exit < 0 then -exit else 0 }
  }

  datatype Step =
    | Quote(action: Action, shift: real, allowBid: bool, allowAsk: bool, d: Desk,
            bidAnswer: SendResult, askAnswer: SendResult)
    | Pull
    | Observe(book: Books.BookView)
    | RestingFills(f: Fill, now: real)
    | SendExit(nowS: real)
    | Unwind(shift: real, threshold: real)
    | ExitFills(f: Fill, now: real)
    | ExitDone

  /** The plan after the ladder gate has suppressed its sides. */
  function Gated(plan: QuotePlan, allowBid: bool, allowAsk: bool): QuotePlan {
    plan.(placeBid := plan.placeBid && allowBid, placeAsk := plan.placeAsk && allowAsk)
  }

  function AfterQuoting(mm: MmParams, s: Floor, e: Step): Floor
    requires e.Quote?
  {
    match PlanFor(e.action, e.shift, s.ts, mm, e.d)
    case None => if e.d.now - s.ts.lastQuoteTime < 1.0 then s else s.(ts := s.ts.(lastQuoteTime := e.d.now))
    case Some(plan) =>
      Floor(QuotedTicker(s.ts.(lastQuoteTime := e.d.now), Gated(plan, e.allowBid, e.allowAsk), e.bidAnswer, e.askAnswer),
            plan.bidSize, plan.askSize, s.exit)
  }

  /** The contracts an exit sells. */
  function Closing(plan: Option<ExitPlan>): int {
    match plan
    case None => 0
    case Some(p) => if p.side == Sell then p.size else -p.size
  }

  function After(mm: MmParams, s: Floor, e: Step): Floor {
    match e
    case Quote(_, _, _, _, _, _, _) => AfterQuoting(mm, s, e)
    case Pull => s.(ts := s.ts.(bidOrderId := None, askOrderId := None))
    case Observe(book) => s.(ts := s.ts.(book := book))
    case RestingFills(f, now) => s.(ts := FilledTicker(s.ts, f, now))
    case SendExit(nowS) => s.(exit := Closing(ExitDecision(s.ts, nowS)))
    case Unwind(shift, threshold) => s.(exit := Closing(SpotUnwindDecision(s.ts, shift, threshold)))
    case ExitFills(f, now) => s.(ts := FilledTicker(s.ts, f, now), exit := s.exit + f.Signed())
    case ExitDone => s.(exit := 0)
  }

  /** A whole fill of the resting bid or ask. */
  predicate FillsResting(s: Floor, f: Fill) {
    f.orderId.Some?
    && (if f.longYes then f.orderId == s.ts.bidOrderId && f.size == s.bidLots
        else f.orderId == s.ts.askOrderId && f.size == s.askLots)
  }

  /** Part of what is left of the exit, which is neither resting order. */
  predicate FillsExit(s: Floor, f: Fill) {
    f.size <= AbsInt(s.exit) && f.longYes == (s.exit < 0)
    && f.orderId.Some? && f.orderId != s.ts.bidOrderId && f.orderId != s.ts.askOrderId
  }

  predicate DistinctIds(bid: Option<string>, ask: Option<string>) { bid.Some? && ask.Some? ==> bid != ask }

  predicate AnswersDistinct(bid: SendResult, ask: SendResult) {
    bid.Placed? && ask.Placed? ==> DistinctIds(bid.id, ask.id)
  }

  /** What the exchange and the event loop can do next. */
  predicate Enabled(s: Floor, e: Step, maxInventory: int) {
    match e
    case Quote(_, _, _, _, d, bid, ask) => d.maxInventory == maxInventory && AnswersDistinct(bid, ask)
    case RestingFills(f, _) => FillsResting(s, f)
    case SendExit(nowS) => s.exit == 0 && ExitDecision(s.ts, nowS).Some? && !MarketClosed(s.ts, nowS)
    case Unwind(shift, threshold) => s.exit == 0 && SpotUnwindDecision(s.ts, shift, threshold).Some?
    case ExitFills(f, _) => s.exit != 0 && FillsExit(s, f)
    case _ => true
  }

  /** The exit in flight still closes no more than the booked position. */
  predicate ExitCovered(s: Floor) {
    (s.exit > 0 ==> s.exit <= s.ts.position) && (s.exit < 0 ==> s.exit >= s.ts.position)
  }

  /** The cap, with room for everything in flight. */
  predicate Capped(s: Floor, maxInventory: int) {
    && AbsInt(s.ts.position) <= maxInventory
    && 0 <= s.Bid() <= maxInventory && 0 <= s.Ask() <= maxInventory
    && s.ts.position + s.Buying() + s.Bid() <= maxInventory
    && s.ts.position - s.Selling() - s.Ask() >= -maxInventory
    && DistinctIds(s.ts.bidOrderId, s.ts.askOrderId)
  }

  predicate LotsFit(mm: MmParams, maxInventory: int) {
    0 < mm.quoteSize <= maxInventory && 0 < mm.extremeQuoteSize <= maxInventory
  }

  function RunFloor(mm: MmParams, s: Floor, es: seq<Step>): Floor {
    if es == [] then s else After(mm, RunFloor(mm, s, es[..|es| - 1]), es[|es| - 1])
  }

  predicate AllEnabled(mm: MmParams, s: Floor, es: seq<Step>, maxInventory: int) {
    forall i :: 0 <= i < |es| ==> Enabled(RunFloor(mm, s, es[..i]), es[i], maxInventory)
  }

  /** Plans are made only while the exit in flight is covered. */
  predicate PlansCovered(mm: MmParams, s: Floor, es: seq<Step>) {
    forall i :: 0 <= i < |es| && es[i].Quote? ==> ExitCovered(RunFloor(mm, s, es[..i]))
  }

  /** Room on each side a plan places, counting the exit it cannot see. */
  predicate RoomFor(s: Floor, plan: QuotePlan, maxInventory: int) {
    (plan.placeBid ==> s.ts.position + s.Buying() + plan.bidSize <= maxInventory)
    && (plan.placeAsk ==> s.ts.position - s.Selling() - plan.askSize >= -maxInventory)
  }

  predicate PlanHasRoom(mm: MmParams, s: Floor, action: Action, shift: real, allowBid: bool, allowAsk: bool, d: Desk) {
    match PlanFor(action, shift, s.ts, mm, d)
    case None => true
    case Some(plan) => RoomFor(s, Gated(plan, allowBid, allowAsk), d.maxInventory)
  }

  /** What a plan promises the cap, whatever its prices. */
  lemma PlanRespectsCap(action: Action, shift: real, ts: TickerState, mm: MmParams, d: Desk)
    requires LotsFit(mm, d.maxInventory) && PlanFor(action, shift, ts, mm, d).Some?
    ensures var plan := PlanFor(action, shift, ts, mm, d).value;
            && 0 < plan.bidSize <= d.maxInventory && 0 < plan.askSize <= d.maxInventory
            && (plan.placeBid ==> ts.position + plan.bidSize <= d.maxInventory)
            && (plan.placeAsk ==> ts.position - plan.askSize >= -d.maxInventory)
  {
    hide QuotePair, KeepsResting, MayQuote, Cents;
  }

  /** The exact limit of planning past an unbooked exit, which the planner
      does not see: whatever the exchange answers, the cap survives if and only
      if each side the plan would place has room for the exit as well. */
  lemma PlanKeepsCapIff(mm: MmParams, s: Floor, action: Action, shift: real, allowBid: bool, allowAsk: bool, d: Desk)
    requires LotsFit(mm, d.maxInventory) && Capped(s, d.maxInventory)
    ensures (forall bid, ask | AnswersDistinct(bid, ask) ::
               Capped(After(mm, s, Quote(action, shift, allowBid, allowAsk, d, bid, ask)), d.maxInventory))
       <==> PlanHasRoom(mm, s, action, shift, allowBid, allowAsk, d)
  {
    hide PlanFor;
    if PlanFor(action, shift, s.ts, mm, d).Some? {
      PlanRespectsCap(action, shift, s.ts, mm, d);
    }
    var bid, ask := Placed(Some("bid")), Placed(Some("ask"));
    assert AnswersDistinct(bid, ask);
    var both := After(mm, s, Quote(action, shift, allowBid, allowAsk, d, bid, ask));
    assert Capped(both, d.maxInventory) ==> PlanHasRoom(mm, s, action, shift, allowBid, allowAsk, d);
  }

  /** An exit that still closes no more than the booked position leaves room
      for any plan, however long it stays unbooked. */
  lemma CoveredExitLeavesRoom(mm: MmParams, s: Floor, action: Action, shift: real, allowBid: bool, allowAsk: bool, d: Desk)
    requires LotsFit(mm, d.maxInventory) && Capped(s, d.maxInventory) && ExitCovered(s)
    ensures PlanHasRoom(mm, s, action, shift, allowBid, allowAsk, d)
  {
    hide PlanFor;
    if PlanFor(action, shift, s.ts, mm, d).Some? {
      PlanRespectsCap(action, shift, s.ts, mm, d);
    }
  }

  lemma FillMovesPosition(ts: TickerState, f: Fill, now: real)
    ensures FilledTicker(ts, f, now).position == ts.position + f.Signed()
    ensures FilledTicker(ts, f, now).bidOrderId == Released(ts.bidOrderId, f.orderId)
    ensures FilledTicker(ts, f, now).askOrderId == Released(ts.askOrderId, f.orderId)
  {
    hide FoldEntryPrice, RealizedBy;
  }

  lemma StepKeepsCap(mm: MmParams, s: Floor, e: Step, maxInventory: int)
    requires LotsFit(mm, maxInventory) && Enabled(s, e, maxInventory) && Capped(s, maxInventory)
    requires e.Quote? ==> ExitCovered(s)
    ensures Capped(After(mm, s, e), maxInventory)
  {
    hide PlanFor, FilledTicker, PlanHasRoom, ExitDecision, SpotUnwindDecision;
    match e
    case Quote(action, shift, allowBid, allowAsk, d, bid, ask) =>
      CoveredExitLeavesRoom(mm, s, action, shift, allowBid, allowAsk, d);
      PlanKeepsCapIff(mm, s, action, shift, allowBid, allowAsk, d);
    case RestingFills(f, now) =>
      FillMovesPosition(s.ts, f, now);
    case ExitFills(f, now) =>
      FillMovesPosition(s.ts, f, now);
    case SendExit(nowS) =>
      ExitsClosePositions(s.ts, nowS, 0.0, 0.0);
    case Unwind(shift, threshold) =>
      ExitsClosePositions(s.ts, 0.0, shift, threshold);
    case _ =>
  }

  /** Every reachable state keeps the position, the position plus the resting
      bid and the position minus the resting ask within the cap, through
      keep-resting passes, extreme sizing, plans made while an exit is still
      unbooked, and exits that fill in parts. */
  lemma {:induction false} InventoryStaysCapped(mm: MmParams, s: Floor, es: seq<Step>, maxInventory: int)
    requires LotsFit(mm, maxInventory) && Capped(s, maxInventory)
    requires AllEnabled(mm, s, es, maxInventory) && PlansCovered(mm, s, es)
    ensures Capped(RunFloor(mm, s, es), maxInventory)
  {
    hide After, Enabled, Capped, ExitCovered;
    if es == [] {
    } else {
      var before := es[..|es| - 1];
      assert forall i :: 0 <= i < |before| ==> before[..i] == es[..i];
      InventoryStaysCapped(mm, s, before, maxInventory);
      assert Enabled(RunFloor(mm, s, es[..|es| - 1]), es[|es| - 1], maxInventory);
      StepKeepsCap(mm, RunFloor(mm, s, before), es[|es| - 1], maxInventory);
    }
  }

  // --- a run that breaks the cap --------------------------------------------

  /** `ss` are the states a run of `es` goes through. */
  predicate Trace(mm: MmParams, ss: seq<Floor>, es: seq<Step>, maxInventory: int) {
    |ss| == |es| + 1
    && forall i :: 0 <= i < |es| ==> Enabled(ss[i], es[i], maxInventory) && ss[i + 1] == After(mm, ss[i], es[i])
  }

  lemma {:induction false} TraceIsTheRun(mm: MmParams, ss: seq<Floor>, es: seq<Step>, maxInventory: int)
    requires Trace(mm, ss, es, maxInventory)
    ensures RunFloor(mm, ss[0], es) == ss[|es|] && AllEnabled(mm, ss[0], es, maxInventory)
  {
    hide After, Enabled;
    if es == [] {
    } else {
      var n := |es| - 1;
      TraceIsTheRun(mm, ss[..n + 1], es[..n], maxInventory);
      assert Enabled(ss[n], es[n], maxInventory) && ss[n + 1] == After(mm, ss[n], es[n]);
      forall i | 0 <= i < |es|
        ensures Enabled(RunFloor(mm, ss[0], es[..i]), es[i], maxInventory)
      {
        if i < n {
          assert es[..n][..i] == es[..i];
          assert Enabled(RunFloor(mm, ss[0], es[..n][..i]), es[..n][i], maxInventory);
        }
      }
    }
  }

  /** The wide penny book, closing at 1000, and what rests and is in flight. */
  predicate Stage(s: Floor, position: int, bid: Option<string>, ask: Option<string>, exit: int, quoted: real) {
    && s.ts.book == Books.WideBook() && s.ts.tick == 0.01 && s.ts.closeTime == Some(1000.0)
    && s.ts.position == position && s.ts.bidOrderId == bid && s.ts.askOrderId == ask
    && s.ts.lastQuoteTime == quoted && s.exit == exit && s.bidLots == 1 && s.askLots == 1
  }

  predicate OneLotParams(mm: MmParams) {
    QuoteLaws.OrdinaryParams(mm) && mm.quoteSize == 1 && mm.extremeQuoteSize == 1 && mm.extremeBand == 0.1
    && mm.maxOpenOrders > 0
  }

  function QuoteBoth(now: real, bid: string, ask: string): Step {
    Quote((-0.5, 0.0), 0.0, true, true, Desk(1, 0, 0.0, now), Placed(Some(bid)), Placed(Some(ask)))
  }

  function OneOf(id: string, longYes: bool): Fill {
    Fill(id, "T", longYes, if longYes then 0.27 else 0.53, 1, false, Some(id))
  }

  /** A flat market with nothing resting gets both sides. */
  lemma QuotesBoth(mm: MmParams, s: Floor, exit: int, quoted: real, now: real, bid: string, ask: string)
    requires OneLotParams(mm) && Stage(s, 0, None, None, exit, quoted) && now - quoted >= 1.0 && now >= 0.0
    requires bid != ask
    ensures Enabled(s, QuoteBoth(now, bid, ask), 1)
    ensures Stage(After(mm, s, QuoteBoth(now, bid, ask)), 0, Some(bid), Some(ask), exit, now)
  {
    hide QuotePair, Cents;
    QuoteLaws.WideBookPair(mm);
  }

  lemma RestingFilled(mm: MmParams, s: Floor, position: int, bid: Option<string>, ask: Option<string>, exit: int,
                      quoted: real, f: Fill, now: real)
    requires Stage(s, position, bid, ask, exit, quoted)
    requires f.size == 1 && f.orderId.Some? && f.orderId == if f.longYes then bid else ask
    ensures Enabled(s, RestingFills(f, now), 1)
    ensures Stage(After(mm, s, RestingFills(f, now)), position + f.Signed(), Released(bid, f.orderId),
                  Released(ask, f.orderId), exit, quoted)
  {
    hide FoldEntryPrice, RealizedBy, Released;
  }

  lemma ExitFilled(mm: MmParams, s: Floor, position: int, bid: Option<string>, ask: Option<string>,
                   quoted: real, f: Fill, now: real)
    requires Stage(s, position, bid, ask, 1, quoted) && !f.longYes && f.size == 1
    requires f.orderId.Some? && f.orderId != bid && f.orderId != ask
    ensures Enabled(s, ExitFills(f, now), 1)
    ensures Stage(After(mm, s, ExitFills(f, now)), position - 1, bid, ask, 0, quoted)
  {
    hide FoldEntryPrice, RealizedBy;
  }

  /** Fifty seconds before the close the exit pass sells the one contract. */
  lemma PassSellsAtExpiry(mm: MmParams, s: Floor, bid: Option<string>, ask: Option<string>, quoted: real)
    requires Stage(s, 1, bid, ask, 0, quoted)
    ensures Enabled(s, SendExit(950.0), 1) && Stage(After(mm, s, SendExit(950.0)), 1, bid, ask, 1, quoted)
  {
    hide ExitDecision, WhyNoExit;
    assert 300 in s.ts.book.yes;
    assert s.ts.closeTime.value - 950.0 == 50.0;
    ExpiryIsNeverVetoed(s.ts, 950.0);
    ExitsClosePositions(s.ts, 950.0, 0.0, 0.0);
  }

  /** A new market, nothing held and nothing resting. */
  function NewMarket(): Floor {
    Floor(NewTicker("C").(book := Books.WideBook(), closeTime := Some(1000.0)), 1, 1, 0)
  }

  /** Both sides are quoted and the bid fills. Near the close the exit pass
      sends its order; before that is booked the resting ask fills, and a plan
      is made on the flat position. Then the exit and the new ask fill. */
  function StaleExitRun(): seq<Step> {
    [QuoteBoth(900.0, "b0", "a0"), RestingFills(OneOf("b0", true), 901.0), SendExit(950.0),
     RestingFills(OneOf("a0", false), 951.0), QuoteBoth(952.0, "b1", "a1"),
     ExitFills(OneOf("x0", false), 953.0), RestingFills(OneOf("a1", false), 954.0)]
  }

  /** Without that cover the cap really breaks: under a cap of one, a run of
      ordinary steps from a new market ends two contracts short. */
  lemma StaleExitRunBreaksTheCap(mm: MmParams)
    requires OneLotParams(mm)
    ensures LotsFit(mm, 1) && Capped(NewMarket(), 1) && AllEnabled(mm, NewMarket(), StaleExitRun(), 1)
    ensures RunFloor(mm, NewMarket(), StaleExitRun()).ts.position == -2
  {
    hide After, Enabled, RunFloor, AllEnabled, QuoteLaws.OrdinaryParams, Books.WideBook;
    var es, s0 := StaleExitRun(), NewMarket();
    QuotesBoth(mm, s0, 0, 0.0, 900.0, "b0", "a0");
    var s1 := After(mm, s0, es[0]);
    RestingFilled(mm, s1, 0, Some("b0"), Some("a0"), 0, 900.0, OneOf("b0", true), 901.0);
    var s2 := After(mm, s1, es[1]);
    PassSellsAtExpiry(mm, s2, None, Some("a0"), 900.0);
    var s3 := After(mm, s2, es[2]);
    RestingFilled(mm, s3, 1, None, Some("a0"), 1, 900.0, OneOf("a0", false), 951.0);
    var s4 := After(mm, s3, es[3]);
    QuotesBoth(mm, s4, 1, 900.0, 952.0, "b1", "a1");
    var s5 := After(mm, s4, es[4]);
    ExitFilled(mm, s5, 0, Some("b1"), Some("a1"), 952.0, OneOf("x0", false), 953.0);
    var s6 := After(mm, s5, es[5]);
    RestingFilled(mm, s6, -1, Some("b1"), Some("a1"), 0, 952.0, OneOf("a1", false), 954.0);
    var s7 := After(mm, s6, es[6]);
    TraceIsTheRun(mm, [s0, s1, s2, s3, s4, s5, s6, s7], es, 1);
  }
}
