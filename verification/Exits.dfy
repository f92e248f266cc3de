/** Exit decisions (src/engine.rs) and the pacing of exit orders over whole
    runs of exit passes and spot ticks (src/main.rs). */
module Exits {
  import opened Numbers
  import opened Books
  import opened Ledger

  const EXPIRY_BUFFER_S := 120.0
  const STOP_LOSS_FLOOR := 0.05
  const EXIT_RETRY_BASE_S := 10.0
  const EXIT_RETRY_MAX_S := 60.0
  const UNWIND_REFIRE_HOLDOFF_S := 10.0

  datatype Side = Buy | Sell

  datatype Reason = StopLoss | Expiry | SpotAdverse

  datatype ExitPlan = ExitPlan(side: Side, priceCents: real, size: int, reason: Reason)

  datatype ExitBlock = NoExitLiquidity | NoEntryPrice | BookOneSided | WithinThreshold

  // --- decisions ------------------------------------------------------------

  predicate MarketClosed(ts: TickerState, now: real) { ts.closeTime.Some? && now >= ts.closeTime.value }

  predicate ExpiryImminent(ts: TickerState, now: real) {
    ts.closeTime.Some? && ts.closeTime.value - now < EXPIRY_BUFFER_S
  }

  predicate StopLossTriggered(ts: TickerState) {
    ts.entry.Some? && ts.book.IsValid()
    && var (bid, ask, entry) := (ts.book.BestBid().value, ts.book.BestAsk().value, ts.entry.value);
       var mid := (bid + ask) / 2.0;
       ((ts.position > 0 && mid < entry) || (ts.position < 0 && mid > entry))
       && Abs(mid - entry) >= Max(STOP_LOSS_FLOOR, 2.0 * (ask - bid))
  }

  function TenthCents(price: real): real { RoundEven(price * 100.0 * 10.0) as real / 10.0 }

  /** Closes the whole position against the touch it crosses into. */
  function CrossingPlan(ts: TickerState, reason: Reason): Option<ExitPlan> {
    if ts.position > 0 then
      match ts.book.BestBid()
      case None => None
      case Some(bid) => Some(ExitPlan(Sell, TenthCents(bid), ts.position, reason))
    else
      match ts.book.BestAsk()
      case None => None
      case Some(ask) => Some(ExitPlan(Buy, TenthCents(ask), -ts.position, reason))
  }

  function ExitDecision(ts: TickerState, now: real): Option<ExitPlan> {
    if ts.position == 0 then None
    else if StopLossTriggered(ts) then CrossingPlan(ts, StopLoss)
    else if ExpiryImminent(ts, now) then CrossingPlan(ts, Expiry)
    else None
  }

  function WhyNoExit(ts: TickerState, now: real): Option<ExitBlock> {
    if ts.position == 0 || ExitDecision(ts, now).Some? then None
    else if ExpiryImminent(ts, now) || StopLossTriggered(ts) then Some(NoExitLiquidity)
    else if ts.entry.None? then Some(NoEntryPrice)
    else if !ts.book.IsValid() then Some(BookOneSided)
    else Some(WithinThreshold)
  }

  function SpotUnwindDecision(ts: TickerState, shift: real, unwindShift: real): Option<ExitPlan> {
    if ts.position == 0 || !ts.book.IsValid() then None
    else if (if ts.position > 0 then shift else -shift) >= -unwindShift then None
    else CrossingPlan(ts, SpotAdverse)
  }

  /** The side an exit of this position crosses into has nothing on it. */
  predicate ExitSideEmpty(ts: TickerState) {
    if ts.position > 0 then ts.book.yes == map[] else ts.book.no == map[]
  }

  /** An exit due on the clock is never vetoed by a missing entry price or a
      one-sided book: an open position near its close gets a plan exactly when
      the side it crosses into has liquidity, and otherwise says so. */
  lemma ExpiryIsNeverVetoed(ts: TickerState, now: real)
    requires ts.position != 0 && ExpiryImminent(ts, now)
    ensures ExitDecision(ts, now).Some? <==> !ExitSideEmpty(ts)
    ensures WhyNoExit(ts, now) == if ExitSideEmpty(ts) then Some(NoExitLiquidity) else None
  {
    hide StopLossTriggered;
  }

  /** Sign of an open position. */
  function Signum(position: int): real { if position > 0 then 1.0 else if position < 0 then -1.0 else 0.0 }

  /** The stop is one judgement on both sides of the market: it fires exactly
      when marking the position at the mid loses, per contract, at least five
      cents and at least twice the spread. */
  lemma StopLossIsAMarkedLoss(ts: TickerState)
    ensures StopLossTriggered(ts) <==>
              ts.entry.Some? && ts.book.IsValid()
              && var mid, spread := ts.book.Mid().value, ts.book.BestAsk().value - ts.book.BestBid().value;
                 var lossPerContract := Signum(ts.position) * (ts.entry.value - mid);
                 lossPerContract >= 0.05 && lossPerContract >= 2.0 * spread
  {
  }

  /** A spot unwind fires only when fair value moved against the inventory,
      and by more than the threshold. */
  lemma UnwindsOnlyAgainstInventory(ts: TickerState, shift: real, unwindShift: real)
    requires ts.position != 0 && ts.book.IsValid()
    ensures SpotUnwindDecision(ts, shift, unwindShift).Some? <==> Signum(ts.position) * shift < -unwindShift
  {
  }

  /** Silence is always explained, a plan never is, and the most urgent cause is
      the one named: no liquidity for a due exit, then an unknown cost, then a
      one-sided book. */
  lemma EveryHeldPositionIsExplained(ts: TickerState, now: real)
    requires ts.position != 0
    ensures ExitDecision(ts, now).Some? <==> WhyNoExit(ts, now).None?
    ensures WhyNoExit(ts, now) == Some(NoExitLiquidity)
       <==> (ExpiryImminent(ts, now) || StopLossTriggered(ts)) && ExitSideEmpty(ts)
    ensures !(ExpiryImminent(ts, now) || StopLossTriggered(ts)) ==>
              && (WhyNoExit(ts, now) == Some(NoEntryPrice) <==> ts.entry.None?)
              && (WhyNoExit(ts, now) == Some(BookOneSided) <==> ts.entry.Some? && !ts.book.IsValid())
              && (WhyNoExit(ts, now) == Some(WithinThreshold) <==> ts.entry.Some? && ts.book.IsValid())
  {
  }

  /** Every exit names what triggered it, a stop before the clock. */
  lemma ExitsNameTheirTrigger(ts: TickerState, now: real, shift: real, unwindShift: real)
    ensures ExitDecision(ts, now).Some? ==>
              ExitDecision(ts, now).value.reason
              == if StopLossTriggered(ts) then StopLoss else Expiry
    ensures ExitDecision(ts, now).Some? && !StopLossTriggered(ts) ==>
              ts.closeTime.Some? && ts.closeTime.value - now < 120.0
    ensures SpotUnwindDecision(ts, shift, unwindShift).Some? ==>
              SpotUnwindDecision(ts, shift, unwindShift).value.reason == SpotAdverse
  {
    hide StopLossTriggered;
  }

  /** Every exit, of either kind, closes exactly the open position, on the
      opposite side, at a real level of the book. */
  lemma ExitsClosePositions(ts: TickerState, now: real, shift: real, unwindShift: real)
    ensures forall plan | Some(plan) == ExitDecision(ts, now) || Some(plan) == SpotUnwindDecision(ts, shift, unwindShift) ::
      && plan.size > 0
      && ts.position + (if plan.side == Buy then plan.size else -plan.size) == 0
      && (if plan.side == Sell
          then ts.book.BestBid() == Some(plan.priceCents / 100.0)
          else ts.book.BestAsk() == Some(plan.priceCents / 100.0))
  {
    hide StopLossTriggered;
    if ts.book.BestBidMd().Some? {
      WholeTenths(ts.book.BestBidMd().value);
    }
    if ts.book.BestAskMd().Some? {
      WholeTenths(ts.book.BestAskMd().value);
    }
  }

  lemma WholeTenths(md: nat)
    ensures TenthCents(ToDollars(md)) == ToDollars(md) * 100.0
  {
    assert ToDollars(md) * 100.0 * 10.0 == md as real;
    RoundEvenExact(md);
  }

  // --- retry pacing ---------------------------------------------------------

  function Doubled(n: nat): real { if n == 0 then EXIT_RETRY_BASE_S else 2.0 * Doubled(n - 1) }

  /** Zero, then 10 s doubling to a 60 s cap. */
  function ExitRetryDelay(attempts: nat): real {
    if attempts == 0 then 0.0 else Min(Doubled(attempts - 1), EXIT_RETRY_MAX_S)
  }

  lemma {:induction false} DoubledGrows(n: nat, m: nat)
    requires n <= m
    ensures 10.0 <= Doubled(n) <= Doubled(m)
  {
    if n < m {
      DoubledGrows(n, m - 1);
    } else if n > 0 {
      DoubledGrows(n - 1, n - 1);
    }
  }

  lemma DelayLadder(attempts: nat)
    ensures ExitRetryDelay(1) == 10.0 && ExitRetryDelay(2) == 20.0 && ExitRetryDelay(3) == 40.0
    ensures attempts >= 4 ==> ExitRetryDelay(attempts) == 60.0
    ensures forall n | 0 < n <= attempts :: ExitRetryDelay(n) <= ExitRetryDelay(attempts)
  {
    assert Doubled(0) == 10.0 && Doubled(1) == 20.0 && Doubled(2) == 40.0 && Doubled(3) == 80.0;
    if attempts >= 4 {
      DoubledGrows(3, attempts - 1);
    }
    forall n | 0 < n <= attempts
      ensures ExitRetryDelay(n) <= ExitRetryDelay(attempts)
    {
      DoubledGrows(n - 1, attempts - 1);
    }
  }

  /** `nextAllowed` None: no bound yet. */
  datatype ExitRetry = ExitRetry(attempts: nat, positionAtAttempt: int, nextAllowed: Option<real>)

  /** One market's exit bookkeeping. */
  datatype Pace = Pace(retry: Option<ExitRetry>, firedUntil: Option<real>, unwindNext: Option<real>)

  /** What happens to one market: an exit pass (with its successive monotonic
      clock readings) or a spot tick. The market's record is arbitrary. `nowS`
      is the wall clock, which a spot tick never reads. */
  datatype Visit =
    | Pass(ts: TickerState, nowS: real, m0: real, m1: real, m2: real)
    | Spot(ts: TickerState, nowS: real, stale: bool, shift: Option<real>, unwindShift: real, now: real)
  {
    function Start(): real { if Pass? then m0 else now }
    function End(): real { if Pass? then m2 else now }
    predicate ClocksAdvance() { Pass? ==> m0 <= m1 <= m2 }
  }

  /** An order sent: monotonic time, kind, wall clock, the market's close. */
  datatype Order = Order(time: real, spot: bool, nowS: real, closeTime: Option<real>)

  predicate Before(now: real, bound: Option<real>) { bound.Some? && now < bound.value }

  /** A retry entry on arrival: created if missing, reset if the position moved. */
  function Arrived(retry: Option<ExitRetry>, position: int): ExitRetry {
    if retry.Some? && retry.value.positionAtAttempt == position then retry.value
    else ExitRetry(0, position, None)
  }

  /** One market in one exit pass. */
  function AfterPass(p: Pace, v: Visit): (Pace, Option<Order>)
    requires v.Pass?
  {
    if v.ts.position == 0 then (p.(retry := None), None)
    else if Before(v.m0, p.firedUntil) then (p, None)
    else if ExitDecision(v.ts, v.nowS).None? || MarketClosed(v.ts, v.nowS) then (p, None)
    else
      var r := Arrived(p.retry, v.ts.position);
      if Before(v.m1, r.nextAllowed) then (p.(retry := Some(r)), None)
      else
        var n := r.attempts + 1;
        (p.(retry := Some(ExitRetry(n, v.ts.position, Some(v.m2 + ExitRetryDelay(n))))),
         Some(Order(v.m2, false, v.nowS, v.ts.closeTime)))
  }

  /** One market on one spot tick. */
  function AfterSpot(p: Pace, v: Visit): (Pace, Option<Order>)
    requires v.Spot?
  {
    if v.stale || v.ts.position == 0 || Before(v.now, p.unwindNext) || Before(v.now, p.firedUntil) then (p, None)
    else
      var throttled := p.(unwindNext := Some(v.now + 1.0));
      if v.shift.None? || SpotUnwindDecision(v.ts, v.shift.value, v.unwindShift).None? then (throttled, None)
      else
        (throttled.(firedUntil := Some(v.now + UNWIND_REFIRE_HOLDOFF_S)),
         Some(Order(v.now, true, v.nowS, v.ts.closeTime)))
  }

  function AfterVisit(p: Pace, v: Visit): (Pace, Option<Order>) {
    if v.Pass? then AfterPass(p, v) else AfterSpot(p, v)
  }

  function PaceAfter(p: Pace, vs: seq<Visit>): Pace {
    if vs == [] then p else AfterVisit(PaceAfter(p, vs[..|vs| - 1]), vs[|vs| - 1]).0
  }

  /** Every exit order sent, in order. */
  function Orders(p: Pace, vs: seq<Visit>): seq<Order> {
    if vs == [] then []
    else
      var before := vs[..|vs| - 1];
      var sent := AfterVisit(PaceAfter(p, before), vs[|vs| - 1]).1;
      Orders(p, before) + if sent.Some? then [sent.value] else []
  }

  predicate ClocksForward(vs: seq<Visit>) {
    (forall i :: 0 <= i < |vs| ==> vs[i].ClocksAdvance())
    && forall i, j :: 0 <= i < j < |vs| ==> vs[i].End() <= vs[j].Start()
  }

  // --- orders and the close -------------------------------------------------

  predicate PassesPrecedeClose(orders: seq<Order>) {
    forall i :: 0 <= i < |orders| && !orders[i].spot && orders[i].closeTime.Some?
      ==> orders[i].nowS < orders[i].closeTime.value
  }

  lemma VisitRespectsClose(p: Pace, v: Visit)
    ensures var sent := AfterVisit(p, v).1;
            sent.Some? && !sent.value.spot && sent.value.closeTime.Some? ==> sent.value.nowS < sent.value.closeTime.value
    ensures AfterVisit(p, v).1.Some? ==> v.ts.position != 0
  {
    hide ExitDecision, ExitRetryDelay, SpotUnwindDecision;
  }

  /** No exit pass of any run sends an order at or after the close. */
  lemma {:induction false} PassOrdersPrecedeClose(p: Pace, vs: seq<Visit>)
    ensures PassesPrecedeClose(Orders(p, vs))
  {
    hide AfterVisit;
    if vs == [] {
    } else {
      PassOrdersPrecedeClose(p, vs[..|vs| - 1]);
      VisitRespectsClose(PaceAfter(p, vs[..|vs| - 1]), vs[|vs| - 1]);
    }
  }

  /** Spot ticks do not look at the close. For a closed market an order is
      still sent exactly when a fresh tick, neither throttled nor held off,
      finds fair value against an open position by more than the threshold. */
  lemma ClosedMarketSendsIff(p: Pace, v: Visit)
    requires MarketClosed(v.ts, v.nowS)
    ensures AfterVisit(p, v).1.Some? <==>
              v.Spot? && !v.stale && v.ts.position != 0 && v.ts.book.IsValid()
              && !Before(v.now, p.unwindNext) && !Before(v.now, p.firedUntil)
              && v.shift.Some? && Signum(v.ts.position) * v.shift.value < -v.unwindShift
  {
    hide ExitDecision, SpotUnwindDecision;
    if v.Spot? && v.shift.Some? {
      if v.ts.position != 0 && v.ts.book.IsValid() {
        UnwindsOnlyAgainstInventory(v.ts, v.shift.value, v.unwindShift);
      } else {
        NoUnwindWithoutBook(v.ts, v.shift.value, v.unwindShift);
      }
    }
  }

  lemma NoUnwindWithoutBook(ts: TickerState, shift: real, unwindShift: real)
    requires ts.position == 0 || !ts.book.IsValid()
    ensures SpotUnwindDecision(ts, shift, unwindShift).None?
  {
  }

  /** Such an order: one contract long, a second after the close. */
  lemma SpotExitAfterTheClose()
    ensures var ts := NewTicker("C").(position := 1, book := WideBook(), closeTime := Some(1000.0));
            var tick := Spot(ts, 1001.0, false, Some(-0.05), 0.04, 5.0);
            MarketClosed(ts, 1001.0)
            && AfterVisit(Pace(None, None, None), tick).1 == Some(Order(5.0, true, 1001.0, Some(1000.0)))
  {
    WideBookTouch();
    var ts := NewTicker("C").(position := 1, book := WideBook(), closeTime := Some(1000.0));
    ClosedMarketSendsIff(Pace(None, None, None), Spot(ts, 1001.0, false, Some(-0.05), 0.04, 5.0));
  }

  // --- pacing of exit passes ------------------------------------------------

  /** Exit passes see a position that does not move; spot ticks may come
      between them in any number. */
  predicate Stuck(vs: seq<Visit>, position: int) {
    forall i :: 0 <= i < |vs| && vs[i].Pass? ==> vs[i].ts.position == position
  }

  /** The orders sent by exit passes. */
  function PassOrders(orders: seq<Order>): seq<Order> {
    if orders == [] then []
    else
      var o := orders[|orders| - 1];
      PassOrders(orders[..|orders| - 1]) + if o.spot then [] else [o]
  }

  predicate Paced(orders: seq<Order>) {
    forall i :: 0 <= i < |orders| - 1 ==> orders[i + 1].time - orders[i].time >= ExitRetryDelay(i + 1)
  }

  /** The last order fixed the retry entry. */
  predicate Tracks(p: Pace, orders: seq<Order>, position: int) {
    orders != [] ==>
      p.retry.Some? && p.retry.value.positionAtAttempt == position
      && p.retry.value.attempts >= |orders|
      && p.retry.value.nextAllowed == Some(orders[|orders| - 1].time + ExitRetryDelay(p.retry.value.attempts))
  }

  lemma PassKeepsPace(p: Pace, v: Visit, orders: seq<Order>, position: int)
    requires v.Pass? && v.ClocksAdvance() && v.ts.position == position && position != 0
    requires Tracks(p, orders, position) && Paced(orders)
    ensures var (after, sent) := AfterVisit(p, v);
            var all := orders + if sent.Some? then [sent.value] else [];
            Tracks(after, all, position) && Paced(all)
  {
    hide ExitDecision, MarketClosed, ExitRetryDelay;
    var (after, sent) := AfterVisit(p, v);
    if sent.Some? && orders != [] {
      DelayLadder(p.retry.value.attempts);
      var all := orders + [sent.value];
      forall i | 0 <= i < |all| - 1
        ensures all[i + 1].time - all[i].time >= ExitRetryDelay(i + 1)
      {
        if i < |orders| - 1 {
          assert all[i] == orders[i] && all[i + 1] == orders[i + 1];
        }
      }
    } else if sent.None? {
      assert orders + [] == orders;
    }
  }

  lemma PassOrdersStep(orders: seq<Order>, sent: Option<Order>)
    ensures PassOrders(orders + if sent.Some? then [sent.value] else [])
         == PassOrders(orders) + if sent.Some? && !sent.value.spot then [sent.value] else []
  {
    if sent.Some? {
      assert (orders + [sent.value])[..|orders + [sent.value]| - 1] == orders;
    } else {
      assert orders + [] == orders;
    }
  }

  /** A spot tick leaves the retry ladder alone, and its order is not a pass's. */
  lemma SpotKeepsTracking(p: Pace, v: Visit, orders: seq<Order>, position: int)
    requires v.Spot? && Tracks(p, orders, position)
    ensures Tracks(AfterVisit(p, v).0, orders, position)
    ensures AfterVisit(p, v).1.Some? ==> AfterVisit(p, v).1.value.spot
  {
    hide SpotUnwindDecision, ExitRetryDelay;
  }

  lemma PassSendsNoSpotOrder(p: Pace, v: Visit)
    requires v.Pass? && AfterVisit(p, v).1.Some?
    ensures !AfterVisit(p, v).1.value.spot
  {
    hide ExitDecision, ExitRetryDelay, MarketClosed;
  }

  /** While a position does not move, the gap after the k-th order of the exit
      passes is at least the k-th delay: 10, 20, 40, then 60 s, whatever spot
      ticks and unwinds come between and whatever the retry state was when it
      began. */
  lemma {:induction false} ExitOrdersArePaced(p: Pace, vs: seq<Visit>, position: int)
    requires position != 0 && Stuck(vs, position) && ClocksForward(vs)
    ensures Paced(PassOrders(Orders(p, vs))) && Tracks(PaceAfter(p, vs), PassOrders(Orders(p, vs)), position)
  {
    hide AfterVisit, Paced, Tracks, PassOrders;
    if vs == [] {
      NoOrdersYet(p, position);
    } else {
      var before, v := vs[..|vs| - 1], vs[|vs| - 1];
      ExitOrdersArePaced(p, before, position);
      var mid, orders := PaceAfter(p, before), Orders(p, before);
      PassOrdersStep(orders, AfterVisit(mid, v).1);
      if v.Spot? {
        SpotKeepsTracking(mid, v, PassOrders(orders), position);
        assert PassOrders(orders) + [] == PassOrders(orders);
      } else {
        PassKeepsPace(mid, v, PassOrders(orders), position);
        if AfterVisit(mid, v).1.Some? {
          PassSendsNoSpotOrder(mid, v);
        }
      }
    }
  }

  lemma NoOrdersYet(p: Pace, position: int)
    ensures Paced(PassOrders([])) && Tracks(p, PassOrders([]), position)
  {
  }

  /** At most four orders of exit passes in any 120 seconds. */
  lemma AtMostFourExitsInTwoMinutes(p: Pace, vs: seq<Visit>, position: int, i: nat)
    requires position != 0 && Stuck(vs, position) && ClocksForward(vs)
    requires i + 4 < |PassOrders(Orders(p, vs))|
    ensures PassOrders(Orders(p, vs))[i + 4].time - PassOrders(Orders(p, vs))[i].time >= 130.0
  {
    hide Orders, PassOrders, ExitRetryDelay, Stuck, ClocksForward;
    ExitOrdersArePaced(p, vs, position);
    var o := PassOrders(Orders(p, vs));
    assert o[i + 1].time - o[i].time >= ExitRetryDelay(i + 1);
    assert o[i + 2].time - o[i + 1].time >= ExitRetryDelay(i + 2);
    assert o[i + 3].time - o[i + 2].time >= ExitRetryDelay(i + 3);
    assert o[i + 4].time - o[i + 3].time >= ExitRetryDelay(i + 4);
    DelayLadder(i + 1);
    DelayLadder(i + 2);
    DelayLadder(i + 3);
    DelayLadder(i + 4);
  }

  // --- the unwind hold-off --------------------------------------------------

  /** Ten quiet seconds after every spot-adverse order. */
  predicate HeldOff(orders: seq<Order>) {
    forall i, j :: 0 <= i < j < |orders| && orders[i].spot
      ==> orders[j].time - orders[i].time >= UNWIND_REFIRE_HOLDOFF_S
  }

  predicate Guards(p: Pace, orders: seq<Order>) {
    forall i :: 0 <= i < |orders| && orders[i].spot
      ==> p.firedUntil.Some? && p.firedUntil.value >= orders[i].time + UNWIND_REFIRE_HOLDOFF_S
  }

  lemma VisitKeepsHoldOff(p: Pace, v: Visit, orders: seq<Order>)
    requires v.ClocksAdvance() && Guards(p, orders) && HeldOff(orders)
    ensures var (after, sent) := AfterVisit(p, v);
            var all := orders + if sent.Some? then [sent.value] else [];
            Guards(after, all) && HeldOff(all)
  {
    hide ExitDecision, MarketClosed, ExitRetryDelay, SpotUnwindDecision;
    var (after, sent) := AfterVisit(p, v);
    if sent.None? {
      assert orders + [] == orders;
    }
  }

  /** Once a spot-adverse order went out, no exit of either kind follows for
      that market within ten seconds, through any interleaving of passes and
      ticks and any movement of the position. */
  lemma {:induction false} HoldOffProtectsUnwinds(p: Pace, vs: seq<Visit>)
    requires ClocksForward(vs)
    ensures HeldOff(Orders(p, vs)) && Guards(PaceAfter(p, vs), Orders(p, vs))
  {
    hide AfterVisit, HeldOff, Guards;
    if vs == [] {
      NothingHeldYet(p);
    } else {
      HoldOffProtectsUnwinds(p, vs[..|vs| - 1]);
      VisitKeepsHoldOff(PaceAfter(p, vs[..|vs| - 1]), vs[|vs| - 1], Orders(p, vs[..|vs| - 1]));
    }
  }

  lemma NothingHeldYet(p: Pace)
    ensures HeldOff([]) && Guards(p, [])
  {
  }
}
