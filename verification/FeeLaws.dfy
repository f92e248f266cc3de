/** What fills cost and how they are counted, on the rates and the exchange's
    schedule alone. */
module FeeLaws {
  import opened Numbers
  import Sums
  import opened Ledger
  import opened Processing
  import Books
  import Conservation

  /** The schedule before rounding: the taker's rate for takers. */
  function ScheduledFee(cfg: Config, f: Fill): real {
    (if f.isTaker then cfg.takerFeeRate else cfg.makerFeeRate) * f.size as real * f.price * (1.0 - f.price)
  }

  lemma CeilCentRoundsUp(rate: real, size: int, price: real)
    ensures var exact := rate * size as real * price * (1.0 - price);
            var fee := Books.CeilCentFee(rate, size, price);
            WholeCent(fee) && exact <= fee < exact + 0.01
  {
    hide Ceil;
    var cents := Books.FeeCents(rate, size, price);
    assert cents == rate * size as real * price * (1.0 - price) * 100.0;
    CentOf(Ceil(cents));
  }

  lemma FeeRoundsTheScheduleUp(cfg: Config, f: Fill)
    ensures WholeCent(FeeOf(cfg, f)) && ScheduledFee(cfg, f) <= FeeOf(cfg, f) < ScheduledFee(cfg, f) + 0.01
  {
    CeilCentRoundsUp(if f.isTaker then cfg.takerFeeRate else cfg.makerFeeRate, f.size, f.price);
  }

  /** Every accepted fill is charged a whole number of cents, at least the
      schedule at its own rate and less than a cent more; the account's PnL
      moves by what the market realized less that fee. A re-read costs nothing. */
  lemma FillIsChargedItsRate(cfg: Config, a: Account, f: Fill, now: real)
    ensures var b := Step(cfg, a, Traded(f, now));
            var fee := b.feesPaid - a.feesPaid;
            var realized := b.At(f.ticker).realizedPnl - a.At(f.ticker).realizedPnl;
            && b.cumulativePnl - a.cumulativePnl == realized - fee
            && b.dailyPnl - a.dailyPnl == realized - fee
            && (f.id in a.seen.ids ==> fee == 0.0)
            && (f.id !in a.seen.ids ==>
                  WholeCent(fee) && ScheduledFee(cfg, f) <= fee < ScheduledFee(cfg, f) + 0.01)
  {
    hide Step, FeeOf, ScheduledFee, WholeCent;
    if f.id in a.seen.ids {
      RereadBooksNothing(cfg, a, f, now);
    } else {
      FeeRoundsTheScheduleUp(cfg, f);
      AcceptedIsBooked(cfg, a, f, now);
    }
  }

  lemma RereadBooksNothing(cfg: Config, a: Account, f: Fill, now: real)
    requires f.id in a.seen.ids
    ensures Step(cfg, a, Traded(f, now)) == a
  {
  }

  lemma AcceptedIsBooked(cfg: Config, a: Account, f: Fill, now: real)
    requires f.id !in a.seen.ids
    ensures var b := Step(cfg, a, Traded(f, now));
            var realized := b.At(f.ticker).realizedPnl - a.At(f.ticker).realizedPnl;
            && b.feesPaid - a.feesPaid == FeeOf(cfg, f)
            && b.cumulativePnl - a.cumulativePnl == realized - FeeOf(cfg, f)
            && b.dailyPnl - a.dailyPnl == realized - FeeOf(cfg, f)
  {
    hide FeeOf, RealizedBy, FoldEntryPrice, Released, CategoryOf, AfterSeen, AfterClose;
    var listed := WithTicker(a.(seen := AfterSeen(a.seen, FILL_ID_CAP, f.id)), f.ticker, CategoryOf(cfg, f.ticker));
    var ts := listed.tickers[f.ticker];
    FillTouchesOneRecord(listed, f, FeeOf(cfg, f), now);
    Conservation.CloseMovesBoth(Charged(listed, f, FeeOf(cfg, f), now), ts.category, RealizedBy(ts, f), ts.carried);
  }

  /** Ten contracts taken at 50 cents: 18 cents at the taker's seven percent,
      where a maker pays five. */
  lemma TakersPayTheTakerRate(cfg: Config, a: Account, f: Fill, now: real)
    requires cfg.makerFeeRate == 0.0175 && cfg.takerFeeRate == 0.07
    requires f.price == 0.5 && f.size == 10 && f.id !in a.seen.ids
    ensures Step(cfg, a, Traded(f, now)).feesPaid == a.feesPaid + if f.isTaker then 0.18 else 0.05
  {
    hide RealizedBy, FilledTicker, CategoryOf, AfterSeen;
    assert Books.FeeCents(0.07, 10, 0.5) == 17.5 && Books.FeeCents(0.0175, 10, 0.5) == 4.375;
  }

  // --- whole runs -----------------------------------------------------------

  function ScheduledTerm(cfg: Config): Event -> real {
    (e: Event) => if e.Traded? then ScheduledFee(cfg, e.fill) else 0.0
  }

  predicate IsFill(e: Event, taker: bool) { e.Traded? && e.fill.isTaker == taker }

  function FillCount(es: seq<Event>, taker: bool): nat {
    if es == [] then 0 else FillCount(es[..|es| - 1], taker) + if IsFill(es[|es| - 1], taker) then 1 else 0
  }

  lemma StepFee(cfg: Config, a: Account, e: Event)
    ensures var fee, exact := Step(cfg, a, e).feesPaid - a.feesPaid, ScheduledTerm(cfg)(e);
            if e.Traded? && !Rejected(a, e) then exact <= fee < exact + 0.01 else fee == 0.0
  {
    hide Step, ScheduledFee, WholeCent;
    match e
    case Traded(f, now) =>
      FillIsChargedItsRate(cfg, a, f, now);
    case _ =>
      Conservation.StepFees(cfg, a, e);
  }

  lemma BookedStep(cfg: Config, a: Account, es: seq<Event>)
    requires es != []
    ensures var before, e := es[..|es| - 1], es[|es| - 1];
            Booked(cfg, a, es) == Booked(cfg, a, before) + if Rejected(Run(cfg, a, before), e) then [] else [e]
  {
    assert Booked(cfg, a, es[..|es| - 1]) + [] == Booked(cfg, a, es[..|es| - 1]);
  }

  lemma FillCountStep(es: seq<Event>, rest: seq<Event>, taker: bool)
    requires |rest| <= 1
    ensures FillCount(es + rest, taker) == FillCount(es, taker) + if |rest| == 1 && IsFill(rest[0], taker) then 1 else 0
  {
    if rest == [] {
      assert es + rest == es;
    } else {
      assert (es + rest)[..|es + rest| - 1] == es;
    }
  }

  /** Over a run, fees are the schedule of every booked fill at its own rate,
      rounded up by less than a cent a fill. */
  lemma {:induction false} FeesFollowTheSchedule(cfg: Config, a: Account, es: seq<Event>)
    ensures var booked, paid := Booked(cfg, a, es), Run(cfg, a, es).feesPaid - a.feesPaid;
            var exact := Sums.SumOf(booked, ScheduledTerm(cfg));
            exact <= paid <= exact + 0.01 * (FillCount(booked, true) + FillCount(booked, false)) as real
  {
    hide Step, Rejected, ScheduledTerm;
    if es == [] {
    } else {
      var before, e := es[..|es| - 1], es[|es| - 1];
      FeesFollowTheSchedule(cfg, a, before);
      StepFee(cfg, Run(cfg, a, before), e);
      BookedStep(cfg, a, es);
      NonFillsAreFree(cfg, e);
      var more := if Rejected(Run(cfg, a, before), e) then [] else [e];
      FillCountStep(Booked(cfg, a, before), more, true);
      FillCountStep(Booked(cfg, a, before), more, false);
      SumOneMore(Booked(cfg, a, before), more, ScheduledTerm(cfg));
      Conservation.StepFees(cfg, Run(cfg, a, before), e);
    }
  }

  lemma NonFillsAreFree(cfg: Config, e: Event)
    ensures !e.Traded? ==> ScheduledTerm(cfg)(e) == 0.0
  {
  }

  lemma SumOneMore(es: seq<Event>, rest: seq<Event>, f: Event -> real)
    requires |rest| <= 1
    ensures Sums.SumOf(es + rest, f) == Sums.SumOf(es, f) + if |rest| == 1 then f(rest[0]) else 0.0
  {
    if rest == [] {
      assert es + rest == es;
    } else {
      assert (es + rest)[..|es + rest| - 1] == es;
    }
  }

  lemma StepCounts(cfg: Config, a: Account, e: Event)
    ensures var b := Step(cfg, a, e);
            && b.takerFills == a.takerFills + (if IsFill(e, true) && !Rejected(a, e) then 1 else 0)
            && b.makerFills == a.makerFills + (if IsFill(e, false) && !Rejected(a, e) then 1 else 0)
            && b.fills == (if e.DayRolled? then 0 else a.fills + if e.Traded? && !Rejected(a, e) then 1 else 0)
            && b.quotesSent == (if e.DayRolled? then 0 else a.quotesSent)
            && b.lastReset == (if e.DayRolled? then e.now else a.lastReset)
            && b.backoffUntil == a.backoffUntil
  {
    hide FeeOf, RealizedBy, FilledTicker, SettledTicker, SettlementPnl, CategoryOf, AfterSeen, AfterClose;
    match e
    case Traded(f, now) =>
      var listed := WithTicker(a.(seen := AfterSeen(a.seen, FILL_ID_CAP, f.id)), f.ticker, CategoryOf(cfg, f.ticker));
      var ts := listed.tickers[f.ticker];
      CloseCountsNothing(Charged(listed, f, FeeOf(cfg, f), now), ts.category, RealizedBy(ts, f), ts.carried);
    case Settled(t, result) =>
      if t in a.tickers {
        var ts := a.tickers[t];
        CloseCountsNothing(a.(tickers := a.tickers[t := SettledTicker(ts, result)]), ts.category,
                           SettlementPnl(ts, result).GetOr(0.0), true);
      }
    case DayRolled(_) =>
  }

  lemma CloseCountsNothing(a: Account, category: string, realized: real, exempt: bool)
    ensures var b := AfterClose(a, category, realized, exempt);
            && b.takerFills == a.takerFills && b.makerFills == a.makerFills && b.fills == a.fills
            && b.quotesSent == a.quotesSent && b.lastReset == a.lastReset && b.backoffUntil == a.backoffUntil
  {
  }

  /** Taker and maker counters are the booked fills of each kind. */
  lemma {:induction false} CountersCountTheFills(cfg: Config, a: Account, es: seq<Event>)
    ensures Run(cfg, a, es).takerFills == a.takerFills + FillCount(Booked(cfg, a, es), true)
    ensures Run(cfg, a, es).makerFills == a.makerFills + FillCount(Booked(cfg, a, es), false)
  {
    hide Step, Rejected, IsFill;
    if es == [] {
    } else {
      var before, e := es[..|es| - 1], es[|es| - 1];
      CountersCountTheFills(cfg, a, before);
      StepCounts(cfg, Run(cfg, a, before), e);
      BookedStep(cfg, a, es);
      var more := if Rejected(Run(cfg, a, before), e) then [] else [e];
      FillCountStep(Booked(cfg, a, before), more, true);
      FillCountStep(Booked(cfg, a, before), more, false);
    }
  }

  predicate RolledIn(es: seq<Event>) { exists i :: 0 <= i < |es| && es[i].DayRolled? }

  lemma RolledStep(es: seq<Event>)
    requires es != [] && !RolledIn(es)
    ensures !RolledIn(es[..|es| - 1]) && !es[|es| - 1].DayRolled?
  {
    var before := es[..|es| - 1];
    assert forall i :: 0 <= i < |before| ==> before[i] == es[i];
  }

  lemma FillsOneMore(es: seq<Event>, e: Event, rejected: bool)
    requires rejected ==> e.Traded?
    ensures var all := es + if rejected then [] else [e];
            FillCount(all, true) + FillCount(all, false)
            == FillCount(es, true) + FillCount(es, false) + if e.Traded? && !rejected then 1 else 0
  {
    var more := if rejected then [] else [e];
    FillCountStep(es, more, true);
    FillCountStep(es, more, false);
  }

  /** Without a roll, the day's counters only add the booked fills. */
  lemma {:induction false} DayCountersSinceTheRoll(cfg: Config, a: Account, es: seq<Event>)
    requires !RolledIn(es)
    ensures var b, booked := Run(cfg, a, es), Booked(cfg, a, es);
            && b.fills == a.fills + FillCount(booked, true) + FillCount(booked, false)
            && b.quotesSent == a.quotesSent && b.lastReset == a.lastReset
  {
    hide Step, Rejected, RolledIn, FillCount;
    if es == [] {
      NothingCounted();
    } else {
      var before, e := es[..|es| - 1], es[|es| - 1];
      RolledStep(es);
      DayCountersSinceTheRoll(cfg, a, before);
      StepCounts(cfg, Run(cfg, a, before), e);
      RejectedAreFills(Run(cfg, a, before), e);
      BookedStep(cfg, a, es);
      FillsOneMore(Booked(cfg, a, before), e, Rejected(Run(cfg, a, before), e));
    }
  }

  lemma NothingCounted()
    ensures FillCount([], true) == 0 && FillCount([], false) == 0
  {
  }

  /** They start over with the day, and the roll is dated. */
  lemma RollStartsTheDay(cfg: Config, a: Account, es: seq<Event>, now: real)
    ensures var b := Run(cfg, a, es + [DayRolled(now)]);
            b.fills == 0 && b.quotesSent == 0 && b.dailyPnl == 0.0 && b.lastReset == now
            && b.takerFills == Run(cfg, a, es).takerFills && b.makerFills == Run(cfg, a, es).makerFills
  {
    assert (es + [DayRolled(now)])[..|es|] == es;
  }

  lemma RejectedAreFills(a: Account, e: Event)
    ensures Rejected(a, e) ==> e.Traded?
  {
  }

  /** Lots of `t` bought (`long`) or sold by a sequence of events. */
  function LotsTraded(es: seq<Event>, t: string, long: bool): int {
    if es == [] then 0
    else
      var e := es[|es| - 1];
      LotsTraded(es[..|es| - 1], t, long)
      + if e.Traded? && e.fill.ticker == t && e.fill.longYes == long then e.fill.size as int else 0
  }

  lemma StepLots(cfg: Config, a: Account, e: Event, t: string)
    ensures var ts, after := a.At(t), Step(cfg, a, e).At(t);
            var lots := if Rejected(a, e) then 0 else LotsTraded([e], t, true);
            var sold := if Rejected(a, e) then 0 else LotsTraded([e], t, false);
            after.fillsBuy == ts.fillsBuy + lots && after.fillsSell == ts.fillsSell + sold
  {
    hide Step, FoldEntryPrice, RealizedBy, Released, SettlementPnl;
    StepAt(cfg, a, e, t);
    assert [e][..0] == [];
  }

  lemma LotsOneMore(es: seq<Event>, e: Event, t: string, long: bool)
    ensures LotsTraded(es + [e], t, long) == LotsTraded(es, t, long) + LotsTraded([e], t, long)
  {
    assert (es + [e])[..|es + [e]| - 1] == es;
    assert [e][..0] == [];
  }

  /** A market's lot counters are the booked lots of each direction. */
  lemma {:induction false} LotCountersCountTheLots(cfg: Config, a: Account, es: seq<Event>, t: string)
    ensures Run(cfg, a, es).At(t).fillsBuy == a.At(t).fillsBuy + LotsTraded(Booked(cfg, a, es), t, true)
    ensures Run(cfg, a, es).At(t).fillsSell == a.At(t).fillsSell + LotsTraded(Booked(cfg, a, es), t, false)
  {
    hide Step, Rejected, LotsTraded;
    if es == [] {
      assert LotsTraded([], t, true) == 0 && LotsTraded([], t, false) == 0 by {
        NothingTraded(t);
      }
    } else {
      var before, e := es[..|es| - 1], es[|es| - 1];
      LotCountersCountTheLots(cfg, a, before, t);
      StepLots(cfg, Run(cfg, a, before), e, t);
      LotsOneMore(Booked(cfg, a, before), e, t, true);
      LotsOneMore(Booked(cfg, a, before), e, t, false);
    }
  }

  lemma NothingTraded(t: string)
    ensures LotsTraded([], t, true) == 0 && LotsTraded([], t, false) == 0
  {
  }
}
