/** From spot to the quotes: a fair-value shift read off the strike ladder
    moves both quotes the way spot has moved. */
module SpotLean {
  import opened Numbers
  import Ledger
  import opened Ladder
  import opened Quotes
  import QuoteLaws

  /** Against the plan the same state gives without a shift, quotes are at
      least as high when spot is above its average and at most as high when it
      is below, in dollars and in cents. */
  lemma QuotesLeanWithSpot(action: Action, latest: real, ema: real, ladder: seq<Strike>, i: nat,
                           mids: map<string, real>, deltaMax: real, shiftMax: real,
                           ts: Ledger.TickerState, mm: MmParams, d: Desk)
    requires i < |ladder| && deltaMax >= 0.0 && shiftMax >= 0.0
    ensures var shift := FvShift(true, Some(latest), Some(ema), DeltaAt(ladder, i, mids, deltaMax), deltaMax, shiftMax);
            shift.Some? ==>
              var plain, leaned := PlanFor(action, 0.0, ts, mm, d), PlanFor(action, shift.value, ts, mm, d);
              plain.Some? && leaned.Some? ==>
                && (latest >= ema ==> NoLower(plain.value, leaned.value))
                && (latest <= ema ==> NoLower(leaned.value, plain.value))
  {
    hide PlanFor, FvShift, DeltaAt;
    var shift := FvShift(true, Some(latest), Some(ema), DeltaAt(ladder, i, mids, deltaMax), deltaMax, shiftMax);
    ShiftFollowsSpot(latest, ema, ladder, i, mids, deltaMax, shiftMax);
    if shift.Some? && PlanFor(action, 0.0, ts, mm, d).Some? && PlanFor(action, shift.value, ts, mm, d).Some? {
      if latest >= ema {
        QuoteLaws.PlansFollowTheShift(action, 0.0, shift.value, ts, mm, d);
      }
      if latest <= ema {
        QuoteLaws.PlansFollowTheShift(action, shift.value, 0.0, ts, mm, d);
      }
    }
  }

  predicate NoLower(p: QuotePlan, q: QuotePlan) {
    p.quotedBid <= q.quotedBid && p.quotedAsk <= q.quotedAsk && p.bidCents <= q.bidCents && p.askCents <= q.askCents
  }
}
