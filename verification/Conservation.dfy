/** Average-cost bookkeeping against cash. The scoreboard (scripts/daily_pnl.py)
    knows only net contracts and cash per market; the ledger carries entries,
    closes and flips. After every run they agree. */
module Conservation {
  import opened Numbers
  import opened Sums
  import Books
  import opened Ledger
  import opened Processing

  /** Cost of the open position at its average entry. */
  function Basis(ts: TickerState): real { if ts.position == 0 then 0.0 else Worth(ts.position, ts.entry.GetOr(0.0)) }

  function Worth(lots: int, price: real): real { lots as real * price }

  lemma WorthAdds(p: int, q: int, price: real)
    ensures Worth(p + q, price) == Worth(p, price) + Worth(q, price)
    ensures Worth(0, price) == 0.0
    ensures Worth(-q, price) == -Worth(q, price)
  {
    assert (p as real + q as real) * price == p as real * price + q as real * price;
  }

  function Equity(ts: TickerState): real { ts.realizedPnl - Basis(ts) }

  /** An open position knows its cost. */
  predicate Costed(ts: TickerState) { ts.position != 0 ==> ts.entry.Some? }

  // --- the scoreboard -------------------------------------------------------

  datatype Score = Score(net: int, cash: real)

  function ScoreStep(s: Score, e: Event, t: string): Score {
    match e
    case Traded(f, _) =>
      if f.ticker == t then Score(s.net + f.Signed(), s.cash - f.Signed() as real * f.price) else s
    case Settled(u, result) =>
      if u == t then Score(0, s.cash + s.net as real * (if result == Some(true) then 1.0 else 0.0)) else s
    case DayRolled(_) => s
  }

  function Scoreboard(start: Score, es: seq<Event>, t: string): Score {
    if es == [] then start else ScoreStep(Scoreboard(start, es[..|es| - 1], t), es[|es| - 1], t)
  }

  predicate BinaryOnly(es: seq<Event>) {
    forall i :: 0 <= i < |es| && es[i].Settled? ==> es[i].resultYes.Some?
  }

  // --- one fill, one settlement ---------------------------------------------

  lemma ScaledAverage(n: real, x: real)
    requires n != 0.0
    ensures n * (x / n) == x && (-n) * (x / n) == -x
  {
  }

  /** What entry a fill leaves and what it realizes, for every shape of fill:
      cost in hand plus cost of the fill is cost after plus what was closed. */
  lemma FillKeepsCost(ts: TickerState, f: Fill)
    requires Costed(ts)
    ensures var inv := ts.position + f.Signed();
            var entry := FoldEntryPrice(ts.position, inv, ts.entry, f.size, f.price);
            && (inv != 0 ==> entry.Some?)
            && (if inv == 0 then 0.0 else Worth(inv, entry.GetOr(0.0))) - RealizedBy(ts, f)
               == Basis(ts) + f.Signed() as real * f.price
  {
    if ts.position == 0 {
    } else if (ts.position > 0) == f.longYes {
      ExtendingKeepsCost(ts, f);
    } else {
      ClosingRealizesTheRest(ts, f);
    }
  }

  /** The average entry carries both costs. */
  lemma ExtendingKeepsCost(ts: TickerState, f: Fill)
    requires ts.position != 0 && ts.entry.Some? && (ts.position > 0) == f.longYes
    ensures var inv := ts.position + f.Signed();
            var entry := FoldEntryPrice(ts.position, inv, ts.entry, f.size, f.price);
            && inv != 0 && entry.Some? && RealizedBy(ts, f) == 0.0
            && Worth(inv, entry.value) == Worth(ts.position, ts.entry.value) + f.Signed() as real * f.price
  {
    var inv := ts.position + f.Signed();
    ScaledAverage(AbsInt(inv) as real, AbsInt(ts.position) as real * ts.entry.value + f.size as real * f.price);
  }

  /** What closes is realized against the entry; what is left keeps it, and
      what flips over costs the fill price. */
  lemma ClosingRealizesTheRest(ts: TickerState, f: Fill)
    requires ts.position != 0 && ts.entry.Some? && (ts.position > 0) != f.longYes
    ensures var inv := ts.position + f.Signed();
            var entry := FoldEntryPrice(ts.position, inv, ts.entry, f.size, f.price);
            && (inv != 0 ==> entry.Some?)
            && (if inv == 0 then 0.0 else Worth(inv, entry.GetOr(0.0))) - RealizedBy(ts, f)
               == Worth(ts.position, ts.entry.value) + f.Signed() as real * f.price
  {
    var e, p, lots, filled := ts.entry.value, f.price, ts.position as real, f.Signed() as real;
    var closed := if f.size < AbsInt(ts.position) then -filled else lots;
    assert RealizedBy(ts, f) == closed * (p - e);
    assert closed * (p - e) == closed * p - closed * e;
    if f.size < AbsInt(ts.position) {
      assert (lots + filled) * e == lots * e + filled * e;
    } else {
      assert (lots + filled) * p == lots * p + filled * p;
    }
  }

  /** A fill moves equity by exactly the cash it moves, whether it opens,
      extends, reduces, flattens or flips the position. */
  lemma FillMovesEquityByCash(ts: TickerState, f: Fill, now: real)
    requires Costed(ts)
    ensures var after := FilledTicker(ts, f, now);
            && Costed(after)
            && after.position == ts.position + f.Signed()
            && Equity(after) == Equity(ts) - f.Signed() as real * f.price
  {
    hide FoldEntryPrice, RealizedBy, Worth;
    FillKeepsCost(ts, f);
  }

  lemma SettlementMovesEquityByPayout(ts: TickerState, yes: bool)
    requires Costed(ts)
    ensures Costed(SettledTicker(ts, Some(yes))) && SettledTicker(ts, Some(yes)).position == 0
    ensures Equity(SettledTicker(ts, Some(yes)))
         == Equity(ts) + ts.position as real * (if yes then 1.0 else 0.0)
  {
    var q, v := ts.position as real, if yes then 1.0 else 0.0;
    if ts.position != 0 {
      assert q * (v - ts.entry.value) == q * v - q * ts.entry.value;
    }
  }

  /** A void clears the position without PnL. That matches the cash the
      exchange returns exactly when it refunds the position at its entry; of a
      position whose cost is unknown, exactly when it refunds nothing. */
  lemma VoidNeedsRefundAtCost(ts: TickerState, refund: real)
    ensures Equity(SettledTicker(ts, None)) == Equity(ts) + refund
       <==> refund == if ts.position != 0 && ts.entry.Some? then ts.position as real * ts.entry.value else 0.0
  {
    var lots := ts.position as real;
    assert lots * 0.0 == 0.0;
  }

  // --- whole runs -----------------------------------------------------------

  predicate Voids(e: Event, t: string) { e.Settled? && e.ticker == t && e.resultYes.None? }

  /** What the positions in `t` that a run's voids cleared had cost. */
  function VoidedBasis(cfg: Config, a: Account, es: seq<Event>, t: string): real {
    if es == [] then 0.0
    else
      var before := es[..|es| - 1];
      VoidedBasis(cfg, a, before, t) + if Voids(es[|es| - 1], t) then Basis(Run(cfg, a, before).At(t)) else 0.0
  }

  lemma {:induction false} BinaryRunsVoidNothing(cfg: Config, a: Account, es: seq<Event>, t: string)
    requires BinaryOnly(es)
    ensures VoidedBasis(cfg, a, es, t) == 0.0
  {
    if es == [] {
    } else {
      BinaryRunsVoidNothing(cfg, a, es[..|es| - 1], t);
    }
  }

  lemma VoidLosesTheBasis(ts: TickerState)
    ensures Costed(SettledTicker(ts, None)) && SettledTicker(ts, None).position == 0
    ensures Equity(SettledTicker(ts, None)) == Equity(ts) + Basis(ts)
  {
  }

  lemma StepRefinesScoreboard(cfg: Config, a: Account, e: Event, t: string)
    requires Costed(a.At(t))
    ensures var score := ScoreStep(Score(a.At(t).position, 0.0), e, t);
            var after := Step(cfg, a, e).At(t);
            var voided := if Voids(e, t) then Basis(a.At(t)) else 0.0;
            if Rejected(a, e) then after == a.At(t)
            else Costed(after) && after.position == score.net && Equity(after) == Equity(a.At(t)) + score.cash + voided
  {
    hide FilledTicker, SettledTicker, Equity, Basis, Step;
    StepAt(cfg, a, e, t);
    FlatHasNoBasis(a.At(t));
    if Voids(e, t) {
      assert a.At(t).position as real * 0.0 == 0.0;
      if t in a.tickers {
        VoidLosesTheBasis(a.tickers[t]);
      }
    } else if e.Traded? && e.fill.ticker == t && !Rejected(a, e) {
      var ts := if t in a.tickers then a.tickers[t] else NewTicker(CategoryOf(cfg, t));
      SameEquity(ts, a.At(t));
      FillMovesEquityByCash(ts, e.fill, e.now);
    } else if e.Settled? && e.ticker == t && t in a.tickers {
      SettlementMovesEquityByPayout(a.tickers[t], e.resultYes.value);
    }
  }

  lemma ScoreStepShifts(s: Score, e: Event, t: string)
    ensures ScoreStep(s, e, t).net == ScoreStep(Score(s.net, 0.0), e, t).net
    ensures ScoreStep(s, e, t).cash == s.cash + ScoreStep(Score(s.net, 0.0), e, t).cash
  {
  }

  /** In every run, a market's position is the scoreboard's net and its equity
      moves by exactly the scoreboard's cash, in whatever way fills opened,
      extended, reduced and flipped the position; only a void, which the
      scoreboard pays nothing and the ledger books at cost, sets them apart. */
  lemma {:induction false} RunRefinesScoreboard(cfg: Config, a: Account, es: seq<Event>, t: string)
    requires Costed(a.At(t))
    ensures var score := Scoreboard(Score(a.At(t).position, 0.0), Booked(cfg, a, es), t);
            var after := Run(cfg, a, es).At(t);
            && Costed(after)
            && after.position == score.net
            && Equity(after) == Equity(a.At(t)) + score.cash + VoidedBasis(cfg, a, es, t)
  {
    hide Equity, Basis, Step, ScoreStep, Costed;
    if es == [] {
    } else {
      var before, e := es[..|es| - 1], es[|es| - 1];
      RunRefinesScoreboard(cfg, a, before, t);
      var mid := Run(cfg, a, before);
      var booked := Booked(cfg, a, before);
      StepRefinesScoreboard(cfg, mid, e, t);
      if !Rejected(mid, e) {
        assert (booked + [e])[..|booked + [e]| - 1] == booked;
        ScoreStepShifts(Scoreboard(Score(a.At(t).position, 0.0), booked, t), e, t);
      }
    }
  }

  lemma SameEquity(x: TickerState, y: TickerState)
    requires x.position == y.position && x.entry == y.entry && x.realizedPnl == y.realizedPnl
    ensures Equity(x) == Equity(y)
  {
  }

  /** From a fresh account: realized PnL is cash plus position at entry, plus
      the cost of what was voided. */
  lemma RealizedIsCashPlusPosition(cfg: Config, start: real, es: seq<Event>, t: string)
    ensures var after := Run(cfg, FreshAccount(start), es).At(t);
            var score := Scoreboard(Score(0, 0.0), Booked(cfg, FreshAccount(start), es), t);
            var voided := VoidedBasis(cfg, FreshAccount(start), es, t);
            && after.position == score.net
            && after.realizedPnl == score.cash + Basis(after) + voided
            && (after.position == 0 ==> after.realizedPnl == score.cash + voided)
  {
    hide *;
    FreshIsFlat(start, t);
    RunRefinesScoreboard(cfg, FreshAccount(start), es, t);
    EquityAndBasis(Run(cfg, FreshAccount(start), es).At(t));
  }

  lemma FreshIsFlat(start: real, t: string)
    ensures var ts := FreshAccount(start).At(t); ts.position == 0 && Costed(ts) && Equity(ts) == 0.0
  {
  }

  lemma EquityAndBasis(ts: TickerState)
    ensures ts.realizedPnl == Equity(ts) + Basis(ts)
    ensures ts.position == 0 ==> Basis(ts) == 0.0
  {
  }

  lemma FlatHasNoBasis(ts: TickerState)
    ensures ts.position == 0 ==> Costed(ts) && Basis(ts) == 0.0 && Equity(ts) == ts.realizedPnl
  {
  }

  // --- the account totals ---------------------------------------------------

  ghost function RealizedMap(tickers: map<string, TickerState>): map<string, real> {
    map t | t in tickers :: tickers[t].realizedPnl
  }

  /** Net cumulative PnL plus fees is the sum of the markets' realized PnL. */
  ghost predicate Balanced(a: Account) {
    a.cumulativePnl + a.feesPaid == Total(RealizedMap(a.tickers))
  }

  lemma RealizedMapUpdate(tickers: map<string, TickerState>, t: string, ts: TickerState)
    ensures Total(RealizedMap(tickers[t := ts]))
         == Total(RealizedMap(tickers)) - (if t in tickers then tickers[t].realizedPnl else 0.0) + ts.realizedPnl
  {
    assert RealizedMap(tickers[t := ts]) == RealizedMap(tickers)[t := ts.realizedPnl];
    TotalUpdate(RealizedMap(tickers), t, ts.realizedPnl);
  }

  lemma FillBalances(a: Account, f: Fill, fee: real, now: real)
    requires f.ticker in a.tickers && Balanced(a)
    ensures Balanced(AfterFill(a, f, fee, now))
  {
    hide RealizedBy;
    RealizedMapUpdate(a.tickers, f.ticker, FilledTicker(a.tickers[f.ticker], f, now));
  }

  lemma SettlementBalances(a: Account, t: string, result: Option<bool>)
    requires Balanced(a)
    ensures Balanced(AfterSettlement(a, t, result))
  {
    hide SettlementPnl;
    if t in a.tickers {
      RealizedMapUpdate(a.tickers, t, SettledTicker(a.tickers[t], result));
      if a.tickers[t].position == 0 {
        FlatSettlesToNothing(a.tickers[t], result);
      }
    }
  }

  lemma StepBalances(cfg: Config, a: Account, e: Event)
    requires Balanced(a)
    ensures Balanced(Step(cfg, a, e))
  {
    match e
    case Traded(f, now) =>
      if f.id !in a.seen.ids {
        var c := CategoryOf(cfg, f.ticker);
        var listed := WithTicker(a.(seen := AfterSeen(a.seen, FILL_ID_CAP, f.id)), f.ticker, c);
        RealizedMapUpdate(a.tickers, f.ticker, NewTicker(c));
        assert Balanced(listed);
        FillBalances(listed, f, FeeOf(cfg, f), now);
      }
    case Settled(t, result) =>
      SettlementBalances(a, t, result);
    case DayRolled(_) =>
  }

  /** In every run, voids included, no PnL is lost or invented between the
      markets and the account. */
  lemma {:induction false} RunBalances(cfg: Config, a: Account, es: seq<Event>)
    requires Balanced(a)
    ensures Balanced(Run(cfg, a, es))
  {
    if es == [] {
    } else {
      RunBalances(cfg, a, es[..|es| - 1]);
      StepBalances(cfg, Run(cfg, a, es[..|es| - 1]), es[|es| - 1]);
    }
  }

  function FeeTerm(cfg: Config): Event -> real {
    (e: Event) => if e.Traded? then FeeOf(cfg, e.fill) else 0.0
  }

  lemma StepFees(cfg: Config, a: Account, e: Event)
    ensures Step(cfg, a, e).feesPaid == a.feesPaid + if Rejected(a, e) then 0.0 else FeeTerm(cfg)(e)
  {
    hide FilledTicker, RealizedBy, SettledTicker, SettlementPnl, Books.CeilCentFee;
  }

  /** Each booked fill is charged once, a re-read never. */
  lemma {:induction false} FeesArePaidPerBookedFill(cfg: Config, a: Account, es: seq<Event>)
    ensures Run(cfg, a, es).feesPaid == a.feesPaid + SumOf(Booked(cfg, a, es), FeeTerm(cfg))
  {
    hide Step, Rejected;
    if es == [] {
    } else {
      var before, e := es[..|es| - 1], es[|es| - 1];
      FeesArePaidPerBookedFill(cfg, a, before);
      StepFees(cfg, Run(cfg, a, before), e);
      var booked := Booked(cfg, a, before);
      assert (booked + [e])[..|booked + [e]| - 1] == booked;
    }
  }

  /** What the scoreboard says a market has made, its open and its voided
      positions at cost. */
  ghost function ScoredPnl(cfg: Config, start: real, es: seq<Event>): map<string, real> {
    map t | t in Run(cfg, FreshAccount(start), es).tickers ::
      Scoreboard(Score(0, 0.0), Booked(cfg, FreshAccount(start), es), t).cash
      + Basis(Run(cfg, FreshAccount(start), es).At(t)) + VoidedBasis(cfg, FreshAccount(start), es, t)
  }

  /** The account refines the scoreboard: net cumulative PnL is the markets'
      cash plus their open and voided positions at cost, less the fee of every
      booked fill. */
  lemma AccountRefinesScoreboard(cfg: Config, start: real, es: seq<Event>)
    ensures Run(cfg, FreshAccount(start), es).cumulativePnl
         == Total(ScoredPnl(cfg, start, es)) - SumOf(Booked(cfg, FreshAccount(start), es), FeeTerm(cfg))
  {
    hide Run, Booked, Basis, Scoreboard, VoidedBasis;
    var a := FreshAccount(start);
    FreshIsBalanced(start);
    RunBalances(cfg, a, es);
    FeesArePaidPerBookedFill(cfg, a, es);
    forall t | t in Run(cfg, a, es).tickers
      ensures Run(cfg, a, es).tickers[t].realizedPnl == ScoredPnl(cfg, start, es)[t]
    {
      RealizedIsCashPlusPosition(cfg, start, es, t);
    }
    assert RealizedMap(Run(cfg, a, es).tickers) == ScoredPnl(cfg, start, es);
  }

  lemma FreshIsBalanced(start: real)
    ensures Balanced(FreshAccount(start))
  {
    assert RealizedMap(map[]) == map[];
  }

  /** Events up to and including the last daily roll. */
  function RollPoint(es: seq<Event>): (k: nat)
    ensures k <= |es|
  {
    if es == [] then 0 else if es[|es| - 1].DayRolled? then |es| else RollPoint(es[..|es| - 1])
  }

  lemma StepMovesDailyWithCumulative(cfg: Config, a: Account, e: Event)
    ensures !e.DayRolled? ==> Step(cfg, a, e).dailyPnl - a.dailyPnl == Step(cfg, a, e).cumulativePnl - a.cumulativePnl
    ensures e.DayRolled? ==> Step(cfg, a, e).dailyPnl == 0.0 && Step(cfg, a, e).cumulativePnl == a.cumulativePnl
  {
    hide FilledTicker, RealizedBy, SettledTicker, SettlementPnl, FeeOf, CategoryOf, AfterSeen, AfterClose;
    match e
    case Traded(f, now) =>
      var listed := WithTicker(a.(seen := AfterSeen(a.seen, FILL_ID_CAP, f.id)), f.ticker, CategoryOf(cfg, f.ticker));
      var ts := listed.tickers[f.ticker];
      CloseMovesBoth(Charged(listed, f, FeeOf(cfg, f), now), ts.category, RealizedBy(ts, f), ts.carried);
    case Settled(t, result) =>
      if t in a.tickers {
        var ts := a.tickers[t];
        CloseMovesBoth(a.(tickers := a.tickers[t := SettledTicker(ts, result)]), ts.category,
                       SettlementPnl(ts, result).GetOr(0.0), true);
      }
    case DayRolled(_) =>
  }

  lemma CloseMovesBoth(a: Account, category: string, realized: real, exempt: bool)
    ensures var b := AfterClose(a, category, realized, exempt);
            && b.dailyPnl == a.dailyPnl + realized && b.cumulativePnl == a.cumulativePnl + realized
            && b.feesPaid == a.feesPaid && b.tickers == a.tickers
  {
  }

  /** Daily PnL is cumulative PnL since the last roll. */
  lemma {:induction false} DailyIsCumulativeSinceRoll(cfg: Config, a: Account, es: seq<Event>)
    ensures var rolled := Run(cfg, a, es[..RollPoint(es)]);
            && Run(cfg, a, es).dailyPnl == Run(cfg, a, es).cumulativePnl - rolled.cumulativePnl + rolled.dailyPnl
            && (RollPoint(es) > 0 ==> rolled.dailyPnl == 0.0)
  {
    hide Step;
    if es == [] {
    } else {
      var before, e := es[..|es| - 1], es[|es| - 1];
      StepMovesDailyWithCumulative(cfg, Run(cfg, a, before), e);
      if e.DayRolled? {
        assert es[..|es|] == es;
      } else {
        DailyIsCumulativeSinceRoll(cfg, a, before);
        assert es[..RollPoint(es)] == before[..RollPoint(before)];
      }
    }
  }

  // --- the order of fills does not matter -----------------------------------

  function CashOf(t: string): Event -> real {
    (e: Event) => if e.Traded? && e.fill.ticker == t then -(e.fill.Signed() as real * e.fill.price) else 0.0
  }

  function LotsOf(t: string): Event -> real {
    (e: Event) => if e.Traded? && e.fill.ticker == t then e.fill.Signed() as real else 0.0
  }

  lemma {:induction false} ScoreboardSums(start: Score, es: seq<Event>, t: string)
    requires FillsOnly(es)
    ensures Scoreboard(start, es, t).cash == start.cash + SumOf(es, CashOf(t))
    ensures Scoreboard(start, es, t).net as real == start.net as real + SumOf(es, LotsOf(t))
  {
    if es == [] {
    } else {
      ScoreboardSums(start, es[..|es| - 1], t);
    }
  }

  lemma {:induction false} BookedFillsOnly(cfg: Config, a: Account, es: seq<Event>)
    requires FillsOnly(es)
    ensures FillsOnly(Booked(cfg, a, es))
  {
    if es == [] {
    } else {
      BookedFillsOnly(cfg, a, es[..|es| - 1]);
    }
  }

  /** Two orders of the same fills give different entries and different PnL
      on the way, but the same position, and the same realized PnL once the
      market has settled. */
  lemma SettledPnlIgnoresFillOrder(cfg: Config, a: Account, es: seq<Event>, fs: seq<Event>, t: string, yes: bool)
    requires Costed(a.At(t)) && FillsOnly(es) && FillsOnly(fs)
    requires multiset(Booked(cfg, a, es)) == multiset(Booked(cfg, a, fs))
    ensures Run(cfg, a, es).At(t).position == Run(cfg, a, fs).At(t).position
    ensures Run(cfg, a, es + [Settled(t, Some(yes))]).At(t).realizedPnl
         == Run(cfg, a, fs + [Settled(t, Some(yes))]).At(t).realizedPnl
  {
    hide Step, Equity;
    var s := Settled(t, Some(yes));
    var start := Score(a.At(t).position, 0.0);
    var b, c := Booked(cfg, a, es), Booked(cfg, a, fs);
    BookedFillsOnly(cfg, a, es);
    BookedFillsOnly(cfg, a, fs);
    ScoreboardSums(start, b, t);
    ScoreboardSums(start, c, t);
    SumOfPermuted(b, c, CashOf(t));
    SumOfPermuted(b, c, LotsOf(t));
    assert Scoreboard(start, b, t) == Scoreboard(start, c, t);
    SettledRealized(cfg, a, es, t, yes);
    SettledRealized(cfg, a, fs, t, yes);
  }

  lemma SettledRealized(cfg: Config, a: Account, es: seq<Event>, t: string, yes: bool)
    requires Costed(a.At(t)) && FillsOnly(es)
    ensures var score := Scoreboard(Score(a.At(t).position, 0.0), Booked(cfg, a, es), t);
            && Run(cfg, a, es).At(t).position == score.net
            && Run(cfg, a, es + [Settled(t, Some(yes))]).At(t).realizedPnl
               == Equity(a.At(t)) + score.cash + score.net as real * (if yes then 1.0 else 0.0)
  {
    hide Run, Step, Basis, Equity, VoidedBasis;
    var s := Settled(t, Some(yes));
    BinaryRunsVoidNothing(cfg, a, es, t);
    BinaryRunsVoidNothing(cfg, a, es + [s], t);
    FlatHasNoBasis(Run(cfg, a, es + [s]).At(t));
    var score := Scoreboard(Score(a.At(t).position, 0.0), Booked(cfg, a, es), t);
    assert (es + [s])[..|es + [s]| - 1] == es;
    RunRefinesScoreboard(cfg, a, es, t);
    RunRefinesScoreboard(cfg, a, es + [s], t);
    assert Booked(cfg, a, es + [s]) == Booked(cfg, a, es) + [s];
    assert (Booked(cfg, a, es) + [s])[..|Booked(cfg, a, es) + [s]| - 1] == Booked(cfg, a, es);
  }
}
