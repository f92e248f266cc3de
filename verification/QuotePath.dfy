/** From a book update to a quote (src/main.rs): every check a plan passes, and
    what the kill switch, the loss limits and the spot gate thereby silence. */
module QuotePath {
  import opened Numbers
  import opened Ledger
  import opened Processing
  import opened Quotes
  import opened Spot
  import opened KillSwitch
  import Inventory
  import Ladder
  import LadderLaws
  import MirrorLaws
  import SpotLaws
  import TailGates

  // --- the path -------------------------------------------------------------

  datatype Limits = Limits(maxDailyLoss: real, stopLossThreshold: real, maxPositionValue: real)

  datatype Verdict = Halt | Block | Go

  /** Account-level limits; collateral counts for the quoted markets only. */
  ghost function RiskCheck(cfg: Config, a: Account, limits: Limits): Verdict {
    if a.dailyPnl <= -limits.maxDailyLoss || a.cumulativePnl <= limits.stopLossThreshold then Halt
    else if MirrorLaws.PositionValue(a, Some(cfg.active.Keys)) >= limits.maxPositionValue then Block
    else Go
  }

  /** The spot defence: which categories it binds, what spot says, and the
      market's delta on its ladder. */
  datatype Defence = Defence(
    bound: set<string>, view: SpotView, gateOn: bool,
    maxAge: real, trip: real, releaseRatio: real,
    delta: Option<real>, deltaMax: real, shiftMax: real)

  function Latest(v: SpotView): Option<real> { if v.Last().None? then None else Some(v.Last().value.price) }

  /** None: do not quote. */
  function ShiftFor(category: string, defence: Defence, now: real): Option<real>
    requires defence.shiftMax >= 0.0
  {
    if category !in defence.bound then Some(0.0)
    else if SpotGated(defence.view, defence.gateOn, now, defence.maxAge, defence.trip, defence.releaseRatio) then None
    else Ladder.FvShift(true, Latest(defence.view), defence.view.ema, defence.delta, defence.deltaMax, defence.shiftMax)
  }

  /** The tail gate's inputs. */
  datatype Tails = Tails(thresholds: set<string>, walk: seq<string>, cap: real)

  /** What is sent for market `t` on a book update. */
  ghost function QuoteFor(cfg: Config, a: Account, t: string, action: Action, limits: Limits, defence: Defence,
                          tails: Tails, mm: MmParams, maxInventory: int, openOrders: nat, now: real): Option<QuotePlan>
    requires defence.shiftMax >= 0.0
  {
    if t !in cfg.active then None
    else
      var category := cfg.active[t];
      var ts := if t in a.tickers then a.tickers[t] else NewTicker(category);
      if !ts.book.IsValid() || now - ts.lastQuoteTime < 1.0 || category in a.halted then None
      else if RiskCheck(cfg, a, limits) != Go then None
      else
        match ShiftFor(category, defence, now)
        case None => None
        case Some(shift) =>
          var gate := TailGates.GateFor(a, t, tails.thresholds, tails.walk, tails.cap);
          match PlanFor(action, shift, ts, mm, Desk(maxInventory, openOrders, a.backoffUntil, now))
          case None => None
          case Some(plan) => Some(Inventory.Gated(plan, gate.0, gate.1))
  }

  // --- what is silenced -----------------------------------------------------

  /** The kill switch works: once a fill has left a category's losing streak at
      the limit, none of its markets is quoted, whatever else happens. */
  lemma TrippedCategoryIsSilent(cfg: Config, a: Account, es: seq<Event>, t: string, action: Action, limits: Limits,
                                defence: Defence, tails: Tails, mm: MmParams, maxInventory: int, openOrders: nat,
                                now: real)
    requires Agrees(cfg, a) && a.streaks == map[] && a.halted == {} && defence.shiftMax >= 0.0
    requires t in cfg.active && Tripped(cfg.haltLimit, Marks(cfg, a, es), cfg.active[t])
    ensures QuoteFor(cfg, Run(cfg, a, es), t, action, limits, defence, tails, mm, maxInventory, openOrders, now).None?
  {
    hide Run, Marks, Tripped, PlanFor, RiskCheck, ShiftFor;
    SwitchEqualsItsHistory(cfg, a, es, cfg.active[t]);
  }

  /** And it lets go with the day: right after the roll nothing is halted. */
  lemma NothingIsHaltedAfterTheRoll(cfg: Config, a: Account, es: seq<Event>, now: real)
    ensures Run(cfg, a, es + [DayRolled(now)]).halted == {}
    ensures forall c :: Run(cfg, a, es + [DayRolled(now)]).Streak(c) == 0
  {
    assert (es + [DayRolled(now)])[..|es|] == es;
  }

  /** A day's loss or a total loss at its limit silences every market, and so
      does collateral at its limit. */
  lemma LimitsSilenceEveryone(cfg: Config, a: Account, t: string, action: Action, limits: Limits, defence: Defence,
                              tails: Tails, mm: MmParams, maxInventory: int, openOrders: nat, now: real)
    requires defence.shiftMax >= 0.0
    requires a.dailyPnl + limits.maxDailyLoss <= 0.0 || a.cumulativePnl <= limits.stopLossThreshold
             || MirrorLaws.PositionValue(a, Some(cfg.active.Keys)) >= limits.maxPositionValue
    ensures QuoteFor(cfg, a, t, action, limits, defence, tails, mm, maxInventory, openOrders, now).None?
  {
    hide PlanFor, ShiftFor;
  }

  /** A spot-bound market is quoted only while spot is fresh and has not moved
      past the gate's level within the last minute, and then around a shift. */
  lemma BoundMarketsQuoteInCalmOnly(cfg: Config, a: Account, t: string, action: Action, limits: Limits, defence: Defence,
                                    tails: Tails, mm: MmParams, maxInventory: int, openOrders: nat, now: real)
    returns (i: int)
    requires defence.shiftMax >= 0.0 && PositivePrices(defence.view.ticks)
    requires t in cfg.active && cfg.active[t] in defence.bound
    requires QuoteFor(cfg, a, t, action, limits, defence, tails, mm, maxInventory, openOrders, now).Some?
    ensures var ticks := defence.view.ticks;
            var level := if defence.gateOn then defence.trip * defence.releaseRatio else defence.trip;
            && 0 <= i < |ticks| && now - ticks[i].time >= 60.0
            && (forall j :: i < j < |ticks| ==> now - ticks[j].time < 60.0)
            && now - ticks[|ticks| - 1].time <= defence.maxAge
            && Abs(ticks[|ticks| - 1].price - ticks[i].price) <= ticks[i].price * level
    ensures ShiftFor(cfg.active[t], defence, now).Some?
  {
    hide PlanFor, RiskCheck, SpotGated;
    i := SpotLaws.OpenIffFreshAndCalm(defence.view, defence.gateOn, now, defence.maxAge, defence.trip,
                                      defence.releaseRatio);
  }

  /** And the prices are those of the plan around what spot's distance from its
      average is worth on the market's ladder, within the clamp. */
  lemma BoundMarketsQuoteAroundTheShift(cfg: Config, a: Account, t: string, action: Action, limits: Limits,
                                        defence: Defence, tails: Tails, mm: MmParams, maxInventory: int,
                                        openOrders: nat, now: real, latest: real, ema: real, delta: real)
    requires defence.shiftMax >= 0.0 && t in cfg.active && cfg.active[t] in defence.bound
    requires defence.view.Last().Some? && defence.view.Last().value.price == latest
    requires defence.view.ema == Some(ema) && defence.delta == Some(delta)
    ensures var quote := QuoteFor(cfg, a, t, action, limits, defence, tails, mm, maxInventory, openOrders, now);
            var worth, most := delta * (latest - ema), defence.shiftMax;
            var shift := if worth > most then most else if worth < -most then -most else worth;
            var ts := if t in a.tickers then a.tickers[t] else NewTicker(cfg.active[t]);
            var plan := PlanFor(action, shift, ts, mm, Desk(maxInventory, openOrders, a.backoffUntil, now));
            quote.Some? ==>
              plan.Some? && quote.value.quotedBid == plan.value.quotedBid && quote.value.quotedAsk == plan.value.quotedAsk
              && quote.value.bidSize == plan.value.bidSize && quote.value.askSize == plan.value.askSize
              && quote.value.bidCents == plan.value.bidCents && quote.value.askCents == plan.value.askCents
  {
    hide PlanFor, RiskCheck, SpotGated, Ladder.FvShift, TailGates.GateFor;
    LadderLaws.ShiftIsDeltaTimesDistance(latest, ema, delta, defence.deltaMax, defence.shiftMax);
  }

  /** A side whose tail is at the cap is never placed. */
  lemma NoSideIsPlacedIntoAFullTail(cfg: Config, a: Account, t: string, action: Action, limits: Limits, defence: Defence,
                                    tails: Tails, mm: MmParams, maxInventory: int, openOrders: nat, now: real,
                                    event: string)
    requires defence.shiftMax >= 0.0 && tails.cap > 0.0
    requires TailGates.LadderPrefix(t, tails.thresholds) == Some(event)
    ensures var quote := QuoteFor(cfg, a, t, action, limits, defence, tails, mm, maxInventory, openOrders, now);
            var strip := TailGates.Strip(event, tails.thresholds, tails.walk);
            quote.Some? ==>
              && (quote.value.placeBid ==> -TailGates.StripPnl(a, strip, tails.walk, false) < tails.cap)
              && (quote.value.placeAsk ==> -TailGates.StripPnl(a, strip, tails.walk, true) < tails.cap)
  {
    hide PlanFor, RiskCheck, ShiftFor, TailGates.GateFor, TailGates.StripPnl;
    TailGates.GateAllowsIff(a, t, tails.thresholds, tails.walk, tails.cap);
  }

  /** Nothing else stands between a plan and the exchange. */
  lemma PlansGoOutOtherwise(cfg: Config, a: Account, t: string, action: Action, limits: Limits, defence: Defence,
                            tails: Tails, mm: MmParams, maxInventory: int, openOrders: nat, now: real)
    requires defence.shiftMax >= 0.0 && t in cfg.active && cfg.active[t] !in defence.bound
    requires cfg.active[t] !in a.halted && tails.cap <= 0.0
    requires a.dailyPnl > -limits.maxDailyLoss && a.cumulativePnl > limits.stopLossThreshold
    requires MirrorLaws.PositionValue(a, Some(cfg.active.Keys)) < limits.maxPositionValue
    ensures QuoteFor(cfg, a, t, action, limits, defence, tails, mm, maxInventory, openOrders, now)
         == PlanFor(action, 0.0, if t in a.tickers then a.tickers[t] else NewTicker(cfg.active[t]), mm,
                    Desk(maxInventory, openOrders, a.backoffUntil, now))
  {
    hide QuotePair, KeepsResting, PlanOf, TailGates.GateFor;
    TailGates.GateAllowsIff(a, t, tails.thresholds, tails.walk, tails.cap);
    var ts := if t in a.tickers then a.tickers[t] else NewTicker(cfg.active[t]);
    NoBookNoPair(action, ts, mm);
  }

  lemma NoBookNoPair(action: Action, ts: TickerState, mm: MmParams)
    ensures !ts.book.IsValid() ==> QuotePair(action, 0.0, ts.book, ts.tick, mm).None?
  {
  }
}
