/** What the event loop does to the account (src/main.rs): accepted fills,
    settlements and the daily roll, as one run. */
module Processing {
  import opened Numbers
  import Books
  import opened Ledger

  /** `active`: the category of every market the bot quotes. `haltLimit`: 0 disables. */
  datatype Config = Config(makerFeeRate: real, takerFeeRate: real, haltLimit: nat, active: map<string, string>)

  /** Up to the first dash. */
  function SeriesOf(ticker: string): string {
    if ticker == [] || ticker[0] == '-' then [] else [ticker[0]] + SeriesOf(ticker[1..])
  }

  lemma {:induction false} SeriesIsBeforeTheFirstDash(ticker: string)
    ensures |SeriesOf(ticker)| <= |ticker| && ticker[..|SeriesOf(ticker)|] == SeriesOf(ticker)
    ensures '-' !in SeriesOf(ticker)
    ensures |SeriesOf(ticker)| < |ticker| ==> ticker[|SeriesOf(ticker)|] == '-'
  {
    if ticker == [] || ticker[0] == '-' {
    } else {
      SeriesIsBeforeTheFirstDash(ticker[1..]);
      assert ticker == [ticker[0]] + ticker[1..];
      assert SeriesOf(ticker)[0] == ticker[0] && SeriesOf(ticker)[1..] == SeriesOf(ticker[1..]);
    }
  }

  function CategoryOf(cfg: Config, ticker: string): string {
    if ticker in cfg.active then cfg.active[ticker] else SeriesOf(ticker)
  }

  function FeeOf(cfg: Config, f: Fill): real {
    Books.CeilCentFee(if f.isTaker then cfg.takerFeeRate else cfg.makerFeeRate, f.size, f.price)
  }

  function AfterEnforce(a: Account, limit: nat, category: string): Account {
    if limit > 0 && category !in a.halted && a.Streak(category) >= limit then
      a.(halted := a.halted + {category})
    else a
  }

  /** An accepted fill: record, fee, booking, kill switch. */
  function AfterAccepted(cfg: Config, a: Account, f: Fill, now: real): Account {
    var category := CategoryOf(cfg, f.ticker);
    AfterEnforce(AfterFill(WithTicker(a, f.ticker, category), f, FeeOf(cfg, f), now), cfg.haltLimit, category)
  }

  function AfterProcess(cfg: Config, a: Account, f: Fill, now: real): Account {
    if f.id in a.seen.ids then a
    else AfterAccepted(cfg, a.(seen := AfterSeen(a.seen, FILL_ID_CAP, f.id)), f, now)
  }

  function AfterSettle(cfg: Config, a: Account, ticker: string, resultYes: Option<bool>): Account {
    var settled := AfterSettlement(a, ticker, resultYes);
    if SettlementPnl(a.At(ticker), resultYes).Some? then
      AfterEnforce(settled, cfg.haltLimit, if ticker in cfg.active then cfg.active[ticker] else "")
    else settled
  }

  datatype Event =
    | Traded(fill: Fill, now: real)
    | Settled(ticker: string, resultYes: Option<bool>)
    | DayRolled(now: real)

  function Step(cfg: Config, a: Account, e: Event): Account {
    match e
    case Traded(f, now) => AfterProcess(cfg, a, f, now)
    case Settled(t, result) => AfterSettle(cfg, a, t, result)
    case DayRolled(now) => AfterReset(a, now)
  }

  function Run(cfg: Config, a: Account, es: seq<Event>): Account {
    if es == [] then a else Step(cfg, Run(cfg, a, es[..|es| - 1]), es[|es| - 1])
  }

  predicate Rejected(a: Account, e: Event) { e.Traded? && e.fill.id in a.seen.ids }

  /** The events that survive the fill-id dedupe. */
  function Booked(cfg: Config, a: Account, es: seq<Event>): seq<Event> {
    if es == [] then []
    else
      var before := es[..|es| - 1];
      var e := es[|es| - 1];
      if Rejected(Run(cfg, a, before), e) then Booked(cfg, a, before) else Booked(cfg, a, before) + [e]
  }

  predicate FillsOnly(es: seq<Event>) { forall i :: 0 <= i < |es| ==> es[i].Traded? }

  /** Fees, closes and halts leave the other market records alone. */
  lemma FillTouchesOneRecord(a: Account, f: Fill, fee: real, now: real)
    requires f.ticker in a.tickers
    ensures AfterFill(a, f, fee, now).tickers == a.tickers[f.ticker := FilledTicker(a.tickers[f.ticker], f, now)]
  {
    hide FilledTicker, RealizedBy;
  }

  lemma SettlementTouchesOneRecord(a: Account, t: string, result: Option<bool>)
    ensures AfterSettlement(a, t, result).tickers
         == if t in a.tickers then a.tickers[t := SettledTicker(a.tickers[t], result)] else a.tickers
  {
    hide SettledTicker, SettlementPnl;
  }

  /** How one market's record moves in a step; the rest of the account is
      irrelevant to it. */
  lemma StepAt(cfg: Config, a: Account, e: Event, t: string)
    ensures e.Traded? && e.fill.ticker == t && !Rejected(a, e)
        ==> t in Step(cfg, a, e).tickers
            && var before := if t in a.tickers then a.tickers[t] else NewTicker(CategoryOf(cfg, t));
               Step(cfg, a, e).tickers[t] == FilledTicker(before, e.fill, e.now)
    ensures e.Settled? && e.ticker == t && t in a.tickers
        ==> t in Step(cfg, a, e).tickers && Step(cfg, a, e).tickers[t] == SettledTicker(a.tickers[t], e.resultYes)
    ensures e.DayRolled? || (e.Traded? && (e.fill.ticker != t || Rejected(a, e)))
            || (e.Settled? && (e.ticker != t || t !in a.tickers))
        ==> (t in Step(cfg, a, e).tickers <==> t in a.tickers)
            && (t in a.tickers ==> Step(cfg, a, e).tickers[t] == a.tickers[t])
  {
    hide AfterFill, AfterSettlement, SettlementPnl, FilledTicker, SettledTicker, FeeOf, CategoryOf, AfterSeen;
    match e
    case Traded(f, now) =>
      var listed := WithTicker(a.(seen := AfterSeen(a.seen, FILL_ID_CAP, f.id)), f.ticker, CategoryOf(cfg, f.ticker));
      FillTouchesOneRecord(listed, f, FeeOf(cfg, f), now);
    case Settled(u, result) =>
      SettlementTouchesOneRecord(a, u, result);
    case DayRolled(_) =>
  }

  /** The record a fill opens is filed under the market's quoted category, or
      under its series. */
  lemma FillsFileNewRecords(cfg: Config, a: Account, f: Fill, now: real)
    requires f.id !in a.seen.ids && f.ticker !in a.tickers
    ensures Step(cfg, a, Traded(f, now)).At(f.ticker).category
         == if f.ticker in cfg.active then cfg.active[f.ticker] else SeriesOf(f.ticker)
  {
    hide Step, SeriesOf, FoldEntryPrice, RealizedBy;
    StepAt(cfg, a, Traded(f, now), f.ticker);
  }
}
