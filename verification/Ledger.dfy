/** Account and per-market trading state with fill accounting (src/state.rs).

    `Account` and the `After...` functions are the value-level specification;
    class `TraderState` is the state the bot updates in place, each method
    proved to move its view exactly as the specification says. */
module Ledger {
  import opened Numbers
  import Books

  const FILL_ID_CAP: nat := 20_000

  type Lots = n: int | 0 < n witness 1

  /** One exchange fill in YES terms; normalisation rejects sizes below one. */
  datatype Fill = Fill(
    id: string, ticker: string, longYes: bool, price: real, size: Lots,
    isTaker: bool, orderId: Option<string>)
  {
    function Signed(): int { if longYes then size as int else -(size as int) }
  }

  /** Everything the bot tracks about one market. */
  datatype TickerState = TickerState(
    category: string,
    book: Books.BookView,
    position: int,
    entry: Option<real>,
    fillsBuy: int,
    fillsSell: int,
    realizedPnl: real,
    lastQuoteTime: real,
    quotedBid: Option<real>,
    quotedAsk: Option<real>,
    bidOrderId: Option<string>,
    askOrderId: Option<string>,
    everQuoted: bool,
    closeTime: Option<real>,
    lastFillEpoch: real,
    carried: bool,
    tick: real)

  function NewTicker(category: string): TickerState {
    TickerState(category, Books.BookView(map[], map[]), 0, None, 0, 0, 0.0, 0.0, None, None, None, None,
                false, None, 0.0, false, 0.01)
  }

  /** Fill-id dedupe: a set for lookup, a queue for eviction. */
  datatype Dedupe = Dedupe(ids: set<string>, fifo: seq<string>)

  datatype Account = Account(
    tickers: map<string, TickerState>,
    dailyPnl: real,
    cumulativePnl: real,
    quotesSent: nat,
    fills: nat,
    wins: nat,
    losses: nat,
    takerFills: nat,
    makerFills: nat,
    feesPaid: real,
    halted: set<string>,
    streaks: map<string, nat>,
    backoffUntil: real,
    lastReset: real,
    seen: Dedupe)
  {
    /** An absent market is a flat, never-traded one. */
    function At(t: string): TickerState {
      if t in tickers then tickers[t] else NewTicker("")
    }

    function Streak(category: string): nat {
      if category in streaks then streaks[category] else 0
    }
  }

  function FreshAccount(now: real): Account {
    Account(map[], 0.0, 0.0, 0, 0, 0, 0, 0, 0, 0.0, {}, map[], 0.0, now, Dedupe({}, []))
  }

  // --- specification of the transitions -------------------------------------

  /** Entry-price rule for one fill: opened or flipped -> the fill price;
      extended -> size-weighted average; reduced -> unchanged; flat -> none. */
  function FoldEntryPrice(oldInv: int, newInv: int, entry: Option<real>, size: int, price: real): Option<real>
  {
    if newInv == 0 then None
    else if oldInv == 0 || (oldInv > 0) != (newInv > 0) then Some(price)
    else if AbsInt(newInv) > AbsInt(oldInv) then
      Some(WeightedEntry(AbsInt(oldInv), entry.GetOr(price), size, price, AbsInt(newInv)))
    else entry
  }

  function WeightedEntry(oldLots: nat, entry: real, size: int, price: real, newLots: nat): real
    requires newLots > 0
  {
    (oldLots as real * entry + size as real * price) / newLots as real
  }

  /** Gross realized PnL: only the part of the fill that closes inventory. */
  function RealizedBy(ts: TickerState, f: Fill): real {
    var entry := ts.entry.GetOr(f.price);
    if !f.longYes && ts.position > 0 then
      (if f.size < ts.position then f.size else ts.position) as real * (f.price - entry)
    else if f.longYes && ts.position < 0 then
      (if f.size < -ts.position then f.size else -ts.position) as real * (entry - f.price)
    else 0.0
  }

  function FilledTicker(ts: TickerState, f: Fill, now: real): TickerState {
    var newInv := ts.position + f.Signed();
    var eraEnds := newInv == 0 || (ts.position != 0 && (ts.position > 0) != (newInv > 0));
    ts.(position := newInv,
        entry := FoldEntryPrice(ts.position, newInv, ts.entry, f.size, f.price),
        fillsBuy := ts.fillsBuy + (if f.longYes then f.size else 0),
        fillsSell := ts.fillsSell + (if f.longYes then 0 else f.size),
        lastFillEpoch := now,
        carried := ts.carried && !eraEnds,
        bidOrderId := Released(ts.bidOrderId, f.orderId),
        askOrderId := Released(ts.askOrderId, f.orderId),
        realizedPnl := ts.realizedPnl + RealizedBy(ts, f))
  }

  /** A consumed resting order gives its slot back. */
  function Released(slot: Option<string>, filled: Option<string>): Option<string> {
    if filled.Some? && slot == filled then None else slot
  }

  /** One realized close folded into the account counters; a scratch is a no-op. */
  function AfterClose(a: Account, category: string, realized: real, exempt: bool): Account {
    if realized == 0.0 then a
    else
      a.(dailyPnl := a.dailyPnl + realized,
         cumulativePnl := a.cumulativePnl + realized,
         wins := a.wins + (if realized > 0.0 then 1 else 0),
         losses := a.losses + (if realized > 0.0 then 0 else 1),
         streaks := if exempt then a.streaks
                    else a.streaks[category := if realized > 0.0 then 0 else a.Streak(category) + 1])
  }

  lemma ScratchIsNothing(a: Account, category: string, exempt: bool)
    ensures AfterClose(a, category, 0.0, exempt) == a
  {
  }

  function AfterFill(a: Account, f: Fill, fee: real, now: real): Account
    requires f.ticker in a.tickers
  {
    var ts := a.tickers[f.ticker];
    AfterClose(Charged(a, f, fee, now), ts.category, RealizedBy(ts, f), ts.carried)
  }

  /** The fee and the market record, before the realized close is booked. */
  function Charged(a: Account, f: Fill, fee: real, now: real): Account
    requires f.ticker in a.tickers
  {
    a.(
      dailyPnl := a.dailyPnl - fee,
      cumulativePnl := a.cumulativePnl - fee,
      feesPaid := a.feesPaid + fee,
      takerFills := a.takerFills + (if f.isTaker then 1 else 0),
      makerFills := a.makerFills + (if f.isTaker then 0 else 1),
      fills := a.fills + 1,
      tickers := a.tickers[f.ticker := FilledTicker(a.tickers[f.ticker], f, now)])
  }

  /** What a settlement books, if it books anything. */
  function SettlementPnl(ts: TickerState, resultYes: Option<bool>): Option<real> {
    if ts.position != 0 && ts.entry.Some? && resultYes.Some? then
      Some(Payoff(ts.position, if resultYes.value then 1.0 else 0.0, ts.entry.value))
    else None
  }

  function Payoff(position: int, settleValue: real, entry: real): real {
    position as real * (settleValue - entry)
  }

  lemma FlatSettlesToNothing(ts: TickerState, result: Option<bool>)
    requires ts.position == 0
    ensures SettlementPnl(ts, result).None?
  {
  }

  function SettledTicker(ts: TickerState, resultYes: Option<bool>): TickerState {
    if ts.position == 0 then ts
    else
      ts.(position := 0, entry := None, carried := false,
          realizedPnl := ts.realizedPnl + SettlementPnl(ts, resultYes).GetOr(0.0))
  }

  /** Settlement closes never touch the loss streak. */
  function AfterSettlement(a: Account, ticker: string, resultYes: Option<bool>): Account {
    if ticker !in a.tickers then a
    else
      var ts := a.tickers[ticker];
      AfterClose(a.(tickers := a.tickers[ticker := SettledTicker(ts, resultYes)]),
                 ts.category, SettlementPnl(ts, resultYes).GetOr(0.0), true)
  }

  function AfterReset(a: Account, now: real): Account {
    a.(dailyPnl := 0.0, quotesSent := 0, fills := 0, halted := {}, streaks := map[], lastReset := now)
  }

  /** Records a new id, evicting the oldest one beyond the cap. */
  function AfterSeen(d: Dedupe, cap: nat, id: string): Dedupe {
    if id in d.ids then d
    else
      var fifo := d.fifo + [id];
      if |fifo| > cap then Dedupe(d.ids + {id} - {fifo[0]}, fifo[1..]) else Dedupe(d.ids + {id}, fifo)
  }

  function WithTicker(a: Account, ticker: string, category: string): Account {
    if ticker in a.tickers then a else a.(tickers := a.tickers[ticker := NewTicker(category)])
  }

  // --- the state updated in place -------------------------------------------

  class TraderState {
    var tickers: map<string, TickerState>
    var dailyPnl: real
    var cumulativePnl: real
    var quotesSent: nat
    var fills: nat
    var wins: nat
    var losses: nat
    var takerFills: nat
    var makerFills: nat
    var feesPaid: real
    var haltedCategories: set<string>
    var consecutiveLosses: map<string, nat>
    var balanceBackoffUntil: real
    var lastReset: real
    var fillIds: set<string>
    var fillIdFifo: seq<string>

    ghost function View(): Account
      reads this
    {
      Account(tickers, dailyPnl, cumulativePnl, quotesSent, fills, wins, losses, takerFills, makerFills,
              feesPaid, haltedCategories, consecutiveLosses, balanceBackoffUntil, lastReset,
              Dedupe(fillIds, fillIdFifo))
    }

    constructor (now: real)
      ensures View() == FreshAccount(now)
    {
      tickers, haltedCategories, consecutiveLosses := map[], {}, map[];
      dailyPnl, cumulativePnl, feesPaid, balanceBackoffUntil := 0.0, 0.0, 0.0, 0.0;
      quotesSent, fills, wins, losses, takerFills, makerFills := 0, 0, 0, 0, 0, 0;
      lastReset := now;
      fillIds, fillIdFifo := {}, [];
    }

    /** Get-or-create; an existing record keeps its category. */
    method Ticker(ticker: string, category: string) returns (ts: TickerState)
      modifies this`tickers
      ensures View() == WithTicker(old(View()), ticker, category)
      ensures ticker in tickers && ts == tickers[ticker]
    {
      if ticker !in tickers {
        tickers := tickers[ticker := NewTicker(category)];
      }
      ts := tickers[ticker];
    }

    /** True when the id was already processed; records it otherwise. */
    method SeenFill(id: string) returns (seen: bool)
      modifies this`fillIds, this`fillIdFifo
      ensures seen == (id in old(fillIds))
      ensures View() == old(View()).(seen := AfterSeen(old(View()).seen, FILL_ID_CAP, id))
    {
      if id in fillIds {
        return true;
      }
      fillIds := fillIds + {id};
      fillIdFifo := fillIdFifo + [id];
      if |fillIdFifo| > FILL_ID_CAP {
        var oldest := fillIdFifo[0];
        fillIdFifo := fillIdFifo[1..];
        fillIds := fillIds - {oldest};
      }
      return false;
    }

    method BookRealizedClose(category: string, realized: real, streakExempt: bool)
      modifies this
      ensures View() == AfterClose(old(View()), category, realized, streakExempt)
    {
      if realized == 0.0 {
        return;
      }
      dailyPnl := dailyPnl + realized;
      cumulativePnl := cumulativePnl + realized;
      if realized > 0.0 {
        wins := wins + 1;
        if !streakExempt {
          consecutiveLosses := consecutiveLosses[category := 0];
        }
      } else {
        losses := losses + 1;
        if !streakExempt {
          var streak := if category in consecutiveLosses then consecutiveLosses[category] else 0;
          consecutiveLosses := consecutiveLosses[category := streak + 1];
        }
      }
    }

    /** Realized PnL when the fill moves inventory toward zero. */
    static method ClosePnl(before: TickerState, f: Fill) returns (realized: real)
      ensures realized == RealizedBy(before, f)
    {
      var oldInv, entryBefore := before.position, before.entry.GetOr(f.price);
      realized := 0.0;
      if !f.longYes && oldInv > 0 {
        var closed := if f.size < oldInv then f.size else oldInv;
        realized := closed as real * (f.price - entryBefore);
      } else if f.longYes && oldInv < 0 {
        var closed := if f.size < -oldInv then f.size else -oldInv;
        realized := closed as real * (entryBefore - f.price);
      }
    }

    /** The part of `ApplyFill` that works on the market's own record. */
    static method FoldFill(before: TickerState, f: Fill, now: real) returns (ts: TickerState, realized: real)
      ensures ts == FilledTicker(before, f, now)
      ensures realized == RealizedBy(before, f)
    {
      hide FoldEntryPrice, RealizedBy, Released;
      ts := before;
      var oldInv := ts.position;
      if f.longYes {
        ts := ts.(position := ts.position + f.size, fillsBuy := ts.fillsBuy + f.size);
      } else {
        ts := ts.(position := ts.position - f.size, fillsSell := ts.fillsSell + f.size);
      }
      var newInv := ts.position;
      ts := ts.(lastFillEpoch := now);

      if newInv == 0 || (oldInv != 0 && (oldInv > 0) != (newInv > 0)) {
        ts := ts.(carried := false);
      }
      ts := ts.(entry := FoldEntryPrice(oldInv, newInv, ts.entry, f.size, f.price));

      ts := ts.(bidOrderId := Released(ts.bidOrderId, f.orderId), askOrderId := Released(ts.askOrderId, f.orderId));
      realized := ClosePnl(before, f);
      if realized != 0.0 {
        ts := ts.(realizedPnl := ts.realizedPnl + realized);
      }
    }

    /** The fee at the rate the exchange charged, and who took. */
    method ChargeFee(isTaker: bool, fee: real)
      modifies this`dailyPnl, this`cumulativePnl, this`feesPaid, this`takerFills, this`makerFills
      ensures dailyPnl == old(dailyPnl) - fee && cumulativePnl == old(cumulativePnl) - fee
      ensures feesPaid == old(feesPaid) + fee
      ensures takerFills == old(takerFills) + (if isTaker then 1 else 0)
      ensures makerFills == old(makerFills) + (if isTaker then 0 else 1)
    {
      dailyPnl := dailyPnl - fee;
      cumulativePnl := cumulativePnl - fee;
      feesPaid := feesPaid + fee;
      if isTaker {
        takerFills := takerFills + 1;
      } else {
        makerFills := makerFills + 1;
      }
    }

    /** Fee, counters and the market record; the realized close is still to book. */
    method Charge(f: Fill, fee: real, now: real) returns (realized: real)
      requires f.ticker in tickers
      modifies this
      ensures View() == Charged(old(View()), f, fee, now)
      ensures realized == RealizedBy(old(tickers[f.ticker]), f)
    {
      hide FilledTicker, RealizedBy;
      ChargeFee(f.isTaker, fee);
      fills := fills + 1;
      var ts;
      ts, realized := FoldFill(tickers[f.ticker], f, now);
      tickers := tickers[f.ticker := ts];
    }

    /** Books one fill: fee, position, entry, realized PnL at the pre-fill
        entry. Whether the close is of carried inventory is read before the
        fill can retire that flag. */
    method ApplyFill(f: Fill, fee: real, now: real) returns (realized: real)
      requires f.ticker in tickers
      modifies this
      ensures View() == AfterFill(old(View()), f, fee, now)
      ensures realized == RealizedBy(old(tickers[f.ticker]), f)
    {
      hide Charged, RealizedBy, AfterClose;
      var category, closingCarried := tickers[f.ticker].category, tickers[f.ticker].carried;
      realized := Charge(f, fee, now);
      BookRealizedClose(category, realized, closingCarried);
    }

    static method SettlePnl(position: int, settleValue: real, entry: real) returns (realized: real)
      ensures realized == Payoff(position, settleValue, entry)
    {
      realized := position as real * (settleValue - entry);
    }

    /** Books a market settlement for a still-open position. */
    method ApplySettlement(ticker: string, resultYes: Option<bool>) returns (booked: Option<real>)
      modifies this
      ensures View() == AfterSettlement(old(View()), ticker, resultYes)
      ensures booked == if ticker in old(tickers) then SettlementPnl(old(tickers)[ticker], resultYes) else None
    {
      hide AfterClose, Payoff;
      ScratchIsNothing(View(), if ticker in tickers then tickers[ticker].category else "", true);
      if ticker !in tickers || tickers[ticker].position == 0 {
        if ticker in tickers {
          assert tickers[ticker := tickers[ticker]] == tickers;
        }
        return None;
      }
      var ts := tickers[ticker];
      var position, entry := ts.position, ts.entry;
      ts := ts.(position := 0, entry := None, carried := false);
      tickers := tickers[ticker := ts];
      ScratchIsNothing(View(), ts.category, true);
      if entry.None? || resultYes.None? {
        return None;
      }
      var settleValue := if resultYes.value then 1.0 else 0.0;
      var realized := SettlePnl(position, settleValue, entry.value);
      tickers := tickers[ticker := ts.(realizedPnl := ts.realizedPnl + realized)];
      assert tickers == old(tickers)[ticker := SettledTicker(old(tickers[ticker]), resultYes)];
      BookRealizedClose(ts.category, realized, true);
      return Some(realized);
    }

    method ResetDaily(now: real)
      modifies this
      ensures View() == AfterReset(old(View()), now)
    {
      dailyPnl := 0.0;
      quotesSent := 0;
      fills := 0;
      haltedCategories := {};
      consecutiveLosses := map[];
      lastReset := now;
    }

  }

  // --- replaying a market's history -----------------------------------------

  /** (position, entry) after folding a market's fills from flat, oldest first. */
  function Replay(fills: seq<Fill>): (int, Option<real>) {
    if fills == [] then (0, None)
    else
      var (inv, entry) := Replay(fills[..|fills| - 1]);
      var f := fills[|fills| - 1];
      (inv + f.Signed(), FoldEntryPrice(inv, inv + f.Signed(), entry, f.size, f.price))
  }

  method ReplayEntryPrice(fills: seq<Fill>) returns (position: int, entry: Option<real>)
    ensures (position, entry) == Replay(fills)
  {
    position, entry := 0, None;
    for i := 0 to |fills|
      invariant (position, entry) == Replay(fills[..i])
    {
      assert fills[..i + 1][..i] == fills[..i];
      var f := fills[i];
      var oldInv := position;
      position := position + f.Signed();
      entry := FoldEntryPrice(oldInv, position, entry, f.size, f.price);
    }
    assert fills[..|fills|] == fills;
  }

  /** A position always has the sign and size of the net fills, and an entry
      exists exactly while it is open. */
  lemma {:induction false} ReplayIsCosted(fills: seq<Fill>)
    ensures Replay(fills).0 == 0 <==> Replay(fills).1.None?
  {
    if fills == [] {
    } else {
      ReplayIsCosted(fills[..|fills| - 1]);
    }
  }
}
