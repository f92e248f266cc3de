/** Quote execution (src/executor.rs): what rests after a plan has been sent,
    for any answers of the exchange. */
module Executor {
  import opened Numbers
  import opened Ledger
  import opened Quotes

  /** Outcome of one order attempt; the id may be missing. */
  datatype SendResult = Placed(id: Option<string>) | InsufficientBalance

  function SlotOf(placed: bool, answer: SendResult): Option<string> {
    if placed && answer.Placed? then answer.id else None
  }

  /** The market's record after sending: resting ids, quoted prices. */
  function Recorded(ts: TickerState, plan: QuotePlan, bidId: Option<string>, askId: Option<string>): TickerState {
    ts.(bidOrderId := bidId, askOrderId := askId,
        quotedBid := Some(plan.quotedBid), quotedAsk := Some(plan.quotedAsk), everQuoted := true)
  }

  function QuotedTicker(ts: TickerState, plan: QuotePlan, bid: SendResult, ask: SendResult): TickerState {
    Recorded(ts, plan, SlotOf(plan.placeBid, bid), SlotOf(plan.placeAsk, ask))
  }

  predicate OutOfBalance(plan: QuotePlan, bid: SendResult, ask: SendResult) {
    (plan.placeBid && bid.InsufficientBalance?) || (plan.placeAsk && ask.InsufficientBalance?)
  }

  function AfterQuote(a: Account, ticker: string, category: string, plan: QuotePlan,
                      bid: SendResult, ask: SendResult, backoffS: real, now: real): Account {
    var ts := if ticker in a.tickers then a.tickers[ticker] else NewTicker(category);
    a.(backoffUntil := if OutOfBalance(plan, bid, ask) then now + backoffS else a.backoffUntil,
       quotesSent := a.quotesSent + (if plan.placeBid then 1 else 0) + (if plan.placeAsk then 1 else 0),
       tickers := a.tickers[ticker := QuotedTicker(ts, plan, bid, ask)])
  }

  /** One side: the id that rests, whether an attempt was made, whether it
      was refused for lack of balance. */
  method Extract(placed: bool, answer: SendResult) returns (id: Option<string>, sent: nat, insufficient: bool)
    ensures id == SlotOf(placed, answer)
    ensures sent == if placed then 1 else 0
    ensures insufficient == (placed && answer.InsufficientBalance?)
  {
    id, sent, insufficient := None, 0, false;
    if placed {
      sent := 1;
      match answer
      case Placed(resting) => id := resting;
      case InsufficientBalance => insufficient := true;
    }
  }

  /** Cancels the stale ids, sends both sides, records what rests. */
  method ApplyQuotePlan(state: TraderState, ticker: string, category: string, plan: QuotePlan,
                        bidAnswer: SendResult, askAnswer: SendResult, backoffS: real, now: real)
    returns (canceled: seq<string>)
    modifies state
    ensures state.View() == AfterQuote(old(state.View()), ticker, category, plan, bidAnswer, askAnswer, backoffS, now)
    ensures canceled == plan.cancelIds
  {
    hide SlotOf, Recorded;
    canceled := plan.cancelIds;
    var bidId, bidSent, bidRefused := Extract(plan.placeBid, bidAnswer);
    var askId, askSent, askRefused := Extract(plan.placeAsk, askAnswer);
    if bidRefused || askRefused {
      state.balanceBackoffUntil := now + backoffS;
    }
    state.quotesSent := state.quotesSent + bidSent + askSent;
    RecordQuote(state, ticker, category, plan, bidId, askId);
  }

  method RecordQuote(state: TraderState, ticker: string, category: string, plan: QuotePlan,
                     bidId: Option<string>, askId: Option<string>)
    modifies state`tickers
    ensures var ts := if ticker in old(state.tickers) then old(state.tickers)[ticker] else NewTicker(category);
            state.tickers == old(state.tickers)[ticker := Recorded(ts, plan, bidId, askId)]
  {
    var ts := state.Ticker(ticker, category);
    state.tickers := state.tickers[ticker := ts.(
      bidOrderId := bidId, askOrderId := askId,
      quotedBid := Some(plan.quotedBid), quotedAsk := Some(plan.quotedAsk), everQuoted := true)];
  }
}
