/** The ledger is blind to which side of a market is called YES: a mirrored
    run books identical PnL. */
module MirrorLaws {
  import opened Numbers
  import Sums
  import Books
  import opened Ledger
  import opened Processing
  import opened QuoteLaws

  function MirrorFill(f: Fill): Fill { f.(longYes := !f.longYes, price := 1.0 - f.price) }

  function MirrorEvent(e: Event): Event {
    match e
    case Traded(f, now) => Traded(MirrorFill(f), now)
    case Settled(t, result) => Settled(t, Flipped(result))
    case DayRolled(now) => e
  }

  function MirrorEvents(es: seq<Event>): seq<Event> { seq(|es|, i requires 0 <= i < |es| => MirrorEvent(es[i])) }

  function MirrorTickers(tickers: map<string, TickerState>): map<string, TickerState> {
    map t | t in tickers :: MirrorTicker(tickers[t])
  }

  function MirrorAccount(a: Account): Account { a.(tickers := MirrorTickers(a.tickers)) }

  lemma RealizedMirrors(ts: TickerState, f: Fill)
    ensures RealizedBy(MirrorTicker(ts), MirrorFill(f)) == RealizedBy(ts, f)
  {
    assert (1.0 - f.price) - (1.0 - ts.entry.GetOr(f.price)) == ts.entry.GetOr(f.price) - f.price;
  }

  lemma AverageReflects(oldLots: nat, entry: real, size: int, price: real, newLots: nat)
    requires newLots == oldLots + size && newLots > 0
    ensures WeightedEntry(oldLots, 1.0 - entry, size, 1.0 - price, newLots)
         == 1.0 - WeightedEntry(oldLots, entry, size, price, newLots)
  {
    hide WeightedEntry;
    var q, n, d := oldLots as real, size as real, newLots as real;
    var w, v := WeightedEntry(oldLots, entry, size, price, newLots),
                WeightedEntry(oldLots, 1.0 - entry, size, 1.0 - price, newLots);
    WeightedTimesLots(oldLots, entry, size, price, newLots);
    WeightedTimesLots(oldLots, 1.0 - entry, size, 1.0 - price, newLots);
    assert q * (1.0 - entry) == q - q * entry && n * (1.0 - price) == n - n * price;
    assert (w + v - 1.0) * d == w * d + v * d - d;
    NonzeroFactor(w + v - 1.0, d);
  }

  lemma WeightedTimesLots(oldLots: nat, entry: real, size: int, price: real, newLots: nat)
    requires newLots > 0
    ensures WeightedEntry(oldLots, entry, size, price, newLots) * newLots as real
         == oldLots as real * entry + size as real * price
  {
    DivMul(oldLots as real * entry + size as real * price, newLots as real);
  }

  lemma NonzeroFactor(x: real, d: real)
    requires d != 0.0 && x * d == 0.0
    ensures x == 0.0
  {
  }

  lemma FoldMirrors(oldInv: int, newInv: int, entry: Option<real>, size: int, price: real)
    requires newInv == oldInv + size || newInv == oldInv - size
    requires size > 0
    ensures FoldEntryPrice(-oldInv, -newInv, Reflect(entry), size, 1.0 - price)
         == Reflect(FoldEntryPrice(oldInv, newInv, entry, size, price))
  {
    hide WeightedEntry;
    if newInv != 0 && oldInv != 0 && (oldInv > 0) == (newInv > 0) && AbsInt(newInv) > AbsInt(oldInv) {
      AverageReflects(AbsInt(oldInv), entry.GetOr(price), size, price, AbsInt(newInv));
    }
  }

  lemma FilledTickerMirrors(ts: TickerState, f: Fill, now: real)
    ensures FilledTicker(MirrorTicker(ts), MirrorFill(f), now) == MirrorTicker(FilledTicker(ts, f, now))
  {
    hide FoldEntryPrice, RealizedBy;
    FoldMirrors(ts.position, ts.position + f.Signed(), ts.entry, f.size, f.price);
    RealizedMirrors(ts, f);
  }

  function Flipped(result: Option<bool>): Option<bool> {
    if result.Some? then Some(!result.value) else None
  }

  lemma PayoffReflects(position: int, v: real, e: real)
    ensures Payoff(-position, 1.0 - v, 1.0 - e) == Payoff(position, v, e)
  {
    assert (-position) as real == -(position as real);
  }

  lemma SettlementMirrors(ts: TickerState, result: Option<bool>)
    ensures SettlementPnl(MirrorTicker(ts), Flipped(result)) == SettlementPnl(ts, result)
  {
    hide Payoff;
    if ts.position != 0 && ts.entry.Some? && result.Some? {
      PayoffReflects(ts.position, if result.value then 1.0 else 0.0, ts.entry.value);
    }
  }

  lemma SettledTickerMirrors(ts: TickerState, result: Option<bool>)
    ensures SettledTicker(MirrorTicker(ts), Flipped(result)) == MirrorTicker(SettledTicker(ts, result))
  {
    hide SettlementPnl;
    SettlementMirrors(ts, result);
  }

  lemma MirrorTickersUpdate(tickers: map<string, TickerState>, t: string, ts: TickerState)
    ensures MirrorTickers(tickers[t := ts]) == MirrorTickers(tickers)[t := MirrorTicker(ts)]
  {
  }

  lemma FeeMirrors(cfg: Config, f: Fill)
    ensures FeeOf(cfg, MirrorFill(f)) == FeeOf(cfg, f)
  {
    var rate := if f.isTaker then cfg.takerFeeRate else cfg.makerFeeRate;
    var r, p, q := rate * f.size as real, f.price, 1.0 - f.price;
    assert r * q * p == r * p * q;
    assert Books.FeeCents(rate, f.size, q) == Books.FeeCents(rate, f.size, p);
  }

  lemma FreshTickerMirrors(c: string)
    ensures MirrorTicker(NewTicker(c)) == NewTicker(c)
  {
  }

  lemma WithTickerMirrors(a: Account, t: string, c: string)
    ensures WithTicker(MirrorAccount(a), t, c) == MirrorAccount(WithTicker(a, t, c))
  {
    hide MirrorTicker;
    FreshTickerMirrors(c);
    MirrorTickersUpdate(a.tickers, t, NewTicker(c));
  }

  lemma CloseMirrors(a: Account, c: string, realized: real, exempt: bool)
    ensures AfterClose(MirrorAccount(a), c, realized, exempt) == MirrorAccount(AfterClose(a, c, realized, exempt))
  {
    hide MirrorTickers;
  }

  lemma FillMirrors(a: Account, f: Fill, fee: real, now: real)
    requires f.ticker in a.tickers
    ensures AfterFill(MirrorAccount(a), MirrorFill(f), fee, now) == MirrorAccount(AfterFill(a, f, fee, now))
  {
    hide FilledTicker, RealizedBy, AfterClose;
    var ts := a.tickers[f.ticker];
    FilledTickerMirrors(ts, f, now);
    RealizedMirrors(ts, f);
    MirrorTickersUpdate(a.tickers, f.ticker, FilledTicker(ts, f, now));
    assert Charged(MirrorAccount(a), MirrorFill(f), fee, now) == MirrorAccount(Charged(a, f, fee, now));
    CloseMirrors(Charged(a, f, fee, now), ts.category, RealizedBy(ts, f), ts.carried);
  }

  lemma AcceptedMirrors(cfg: Config, a: Account, f: Fill, now: real)
    ensures AfterAccepted(cfg, MirrorAccount(a), MirrorFill(f), now) == MirrorAccount(AfterAccepted(cfg, a, f, now))
  {
    hide AfterFill, FeeOf, WithTicker, CategoryOf, MirrorTickers;
    var c := CategoryOf(cfg, f.ticker);
    WithTickerMirrors(a, f.ticker, c);
    FeeMirrors(cfg, f);
    InWithTicker(a, f.ticker, c);
    FillMirrors(WithTicker(a, f.ticker, c), f, FeeOf(cfg, f), now);
  }

  lemma InWithTicker(a: Account, t: string, c: string)
    ensures t in WithTicker(a, t, c).tickers
  {
  }

  lemma CategoryMirrors(ts: TickerState)
    ensures MirrorTicker(ts).category == ts.category
  {
  }

  lemma MirrorHolds(a: Account, t: string)
    ensures t in MirrorAccount(a).tickers <==> t in a.tickers
    ensures t in a.tickers ==> MirrorAccount(a).tickers[t] == MirrorTicker(a.tickers[t])
  {
    hide MirrorTicker;
  }

  lemma MirrorAt(a: Account, t: string)
    ensures MirrorAccount(a).At(t) == MirrorTicker(a.At(t))
  {
    hide MirrorTicker;
    FreshTickerMirrors("");
  }

  lemma AfterSettlementMirrors(a: Account, t: string, result: Option<bool>)
    ensures AfterSettlement(MirrorAccount(a), t, Flipped(result)) == MirrorAccount(AfterSettlement(a, t, result))
    ensures SettlementPnl(MirrorAccount(a).At(t), Flipped(result)) == SettlementPnl(a.At(t), result)
  {
    hide SettlementPnl, SettledTicker, AfterClose, Flipped, MirrorTicker, MirrorTickers;
    MirrorHolds(a, t);
    MirrorAt(a, t);
    CategoryMirrors(a.At(t));
    SettlementMirrors(a.At(t), result);
    if t in a.tickers {
      var settled := a.(tickers := a.tickers[t := SettledTicker(a.tickers[t], result)]);
      SettledTickerMirrors(a.tickers[t], result);
      MirrorTickersUpdate(a.tickers, t, SettledTicker(a.tickers[t], result));
      CloseMirrors(settled, a.tickers[t].category, SettlementPnl(a.tickers[t], result).GetOr(0.0), true);
    }
  }

  lemma StepMirrors(cfg: Config, a: Account, e: Event)
    ensures Step(cfg, MirrorAccount(a), MirrorEvent(e)) == MirrorAccount(Step(cfg, a, e))
  {
    hide AfterAccepted, SettlementPnl, AfterSettlement, MirrorTickers, Flipped, AfterSeen;
    match e
    case Traded(f, now) =>
      AcceptedMirrors(cfg, a.(seen := AfterSeen(a.seen, FILL_ID_CAP, f.id)), f, now);
    case Settled(t, result) =>
      AfterSettlementMirrors(a, t, result);
    case DayRolled(_) =>
  }

  /** Whole runs: PnL, fees, wins, streaks and halts are identical, positions
      and entries reflected. */
  lemma {:induction false} RunMirrors(cfg: Config, a: Account, es: seq<Event>)
    ensures Run(cfg, MirrorAccount(a), MirrorEvents(es)) == MirrorAccount(Run(cfg, a, es))
  {
    hide Step;
    if es == [] {
      assert MirrorEvents(es) == [];
    } else {
      var before, e := es[..|es| - 1], es[|es| - 1];
      RunMirrors(cfg, a, before);
      assert MirrorEvents(es)[..|es| - 1] == MirrorEvents(before);
      StepMirrors(cfg, Run(cfg, a, before), e);
    }
  }

  // --- collateral -----------------------------------------------------------

  /** Collateral one market locks: the entry for a long, its complement for a
      short; an unknown entry counts as one half. */
  function Locked(ts: TickerState): real {
    var entry := ts.entry.GetOr(0.5);
    AbsInt(ts.position) as real * (if ts.position > 0 then entry else 1.0 - entry)
  }

  ghost function LockedMap(a: Account, active: Option<set<string>>): map<string, real> {
    map t | t in a.tickers && (active.None? || t in active.value) :: Locked(a.tickers[t])
  }

  ghost function PositionValue(a: Account, active: Option<set<string>>): real { Sums.Total(LockedMap(a, active)) }

  /** The risk budget charges a short exactly what it charges the same
      position described as a long of the other side. */
  lemma PositionValueMirrors(a: Account, active: Option<set<string>>)
    ensures PositionValue(MirrorAccount(a), active) == PositionValue(a, active)
  {
    forall t | t in a.tickers
      ensures Locked(MirrorTicker(a.tickers[t])) == Locked(a.tickers[t])
    {
      LockedMirrors(a.tickers[t]);
    }
    assert LockedMap(MirrorAccount(a), active) == LockedMap(a, active);
  }

  lemma LockedMirrors(ts: TickerState)
    ensures Locked(MirrorTicker(ts)) == Locked(ts)
  {
    if ts.position > 0 {
      assert 1.0 - Reflect(ts.entry).GetOr(0.5) == ts.entry.GetOr(0.5);
    }
  }

  /** The larger of what the two settlements would lose. */
  function WorstSettlement(ts: TickerState, entry: real): real {
    Max(-Payoff(ts.position, 1.0, entry), -Payoff(ts.position, 0.0, entry))
  }

  /** The collateral of a market is the most its settlement can lose, an
      unknown cost counting as one half. */
  lemma LockedIsTheWorstSettlement(ts: TickerState)
    requires ts.entry.Some? ==> 0.0 <= ts.entry.value <= 1.0
    ensures Locked(ts) == WorstSettlement(ts, if ts.entry.Some? then ts.entry.value else 0.5)
  {
    var q, e := ts.position as real, ts.entry.GetOr(0.5);
    assert q * (1.0 - e) == q - q * e;
    assert -q * (1.0 - e) == q * e - q;
    assert q * (0.0 - e) == -(q * e);
    assert -q * e == -(q * e);
    ProductSign(q, e);
    ProductSign(q, 1.0 - e);
  }

  /** And the risk budget adds it up over the markets asked for. */
  lemma PositionValueAddsTheWorst(a: Account, active: set<string>)
    requires forall t :: t in a.tickers && a.tickers[t].entry.Some? ==> 0.0 <= a.tickers[t].entry.value <= 1.0
    ensures PositionValue(a, Some(active))
         == Sums.Total(map t | t in a.tickers && t in active ::
                         WorstSettlement(a.tickers[t], a.tickers[t].entry.GetOr(0.5)))
    ensures PositionValue(a, None)
         == Sums.Total(map t | t in a.tickers :: WorstSettlement(a.tickers[t], a.tickers[t].entry.GetOr(0.5)))
  {
    hide Locked, WorstSettlement;
    forall t | t in a.tickers
      ensures Locked(a.tickers[t]) == WorstSettlement(a.tickers[t], a.tickers[t].entry.GetOr(0.5))
    {
      LockedIsTheWorstSettlement(a.tickers[t]);
    }
    assert LockedMap(a, Some(active))
        == map t | t in a.tickers && t in active :: WorstSettlement(a.tickers[t], a.tickers[t].entry.GetOr(0.5));
    assert LockedMap(a, None)
        == map t | t in a.tickers :: WorstSettlement(a.tickers[t], a.tickers[t].entry.GetOr(0.5));
  }
}
