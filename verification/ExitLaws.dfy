/** Exits that are due do go out: when a pass or a spot tick sends, on the
    market's clock, its book and the orders already sent. */
module ExitLaws {
  import opened Numbers
  import opened Ledger
  import opened Exits
  import Books

  // --- passes ---------------------------------------------------------------

  /** An exit is due and could still do something: an open position, a stop or
      the last two minutes before the close, someone to trade with, and the
      market not closed yet. */
  predicate Due(ts: TickerState, nowS: real) {
    ts.position != 0
    && (StopLossTriggered(ts) || (ts.closeTime.Some? && ts.closeTime.value - nowS < 120.0))
    && !ExitSideEmpty(ts)
    && (ts.closeTime.Some? ==> nowS < ts.closeTime.value)
  }

  lemma DueHasAPlan(ts: TickerState, nowS: real)
    ensures Due(ts, nowS) <==> ExitDecision(ts, nowS).Some? && !MarketClosed(ts, nowS)
  {
    hide StopLossTriggered;
  }

  /** A pass sends exactly when an exit is due, no hold-off runs, and no retry
      bound for this very position runs. */
  lemma PassSendsIff(p: Pace, v: Visit)
    requires v.Pass?
    ensures AfterVisit(p, v).1.Some? <==>
              && Due(v.ts, v.nowS)
              && (p.firedUntil.Some? ==> v.m0 >= p.firedUntil.value)
              && ((p.retry.Some? && p.retry.value.positionAtAttempt == v.ts.position
                   && p.retry.value.nextAllowed.Some?) ==> v.m1 >= p.retry.value.nextAllowed.value)
    ensures AfterVisit(p, v).1.Some? ==>
              AfterVisit(p, v).1.value == Order(v.m2, false, v.nowS, v.ts.closeTime)
  {
    hide ExitDecision, MarketClosed, Due, ExitRetryDelay;
    DueHasAPlan(v.ts, v.nowS);
    DueIsOpen(v.ts, v.nowS);
  }

  lemma DueIsOpen(ts: TickerState, nowS: real)
    ensures Due(ts, nowS) ==> ts.position != 0
  {
  }

  /** Fifty seconds before the close, one contract long: it is sold. */
  lemma ExpiryExitGoesOut(m0: real, m1: real, m2: real)
    ensures var ts := NewTicker("C").(position := 1, book := Books.WideBook(), closeTime := Some(1000.0));
            && AfterVisit(Pace(None, None, None), Pass(ts, 950.0, m0, m1, m2)).1
               == Some(Order(m2, false, 950.0, Some(1000.0)))
            && ExitDecision(ts, 950.0) == Some(ExitPlan(Sell, 30.0, 1, Expiry))
  {
    hide StopLossTriggered;
    var ts := NewTicker("C").(position := 1, book := Books.WideBook(), closeTime := Some(1000.0));
    Books.WideBookTouch();
    assert 300 in ts.book.yes;
    PassSendsIff(Pace(None, None, None), Pass(ts, 950.0, m0, m1, m2));
    ExitsClosePositions(ts, 950.0, 0.0, 0.0);
    ExitsNameTheirTrigger(ts, 950.0, 0.0, 0.0);
    StopLossIsAMarkedLoss(ts);
  }

  // --- whole runs -----------------------------------------------------------

  /** The hold-off is that of some spot order already sent. */
  predicate HeldBy(p: Pace, orders: seq<Order>) {
    p.firedUntil.Some? ==>
      exists i :: 0 <= i < |orders| && orders[i].spot && p.firedUntil.value == orders[i].time + 10.0
  }

  /** The retry entry is that of the last order of the passes. */
  predicate Remembers(p: Pace, sent: seq<Order>, position: int) {
    if sent == [] then
      p.retry.Some? && p.retry.value.positionAtAttempt == position ==>
        p.retry.value.attempts == 0 && p.retry.value.nextAllowed.None?
    else
      p.retry == Some(ExitRetry(|sent|, position, Some(sent[|sent| - 1].time + ExitRetryDelay(|sent|))))
  }

  lemma VisitKeepsHeldBy(p: Pace, v: Visit, orders: seq<Order>)
    requires HeldBy(p, orders)
    ensures var (after, sent) := AfterVisit(p, v);
            HeldBy(after, orders + if sent.Some? then [sent.value] else [])
  {
    hide ExitDecision, MarketClosed, ExitRetryDelay, SpotUnwindDecision;
    var (after, sent) := AfterVisit(p, v);
    var all := orders + if sent.Some? then [sent.value] else [];
    if after.firedUntil.Some? {
      if v.Spot? && sent.Some? {
        assert all[|orders|].spot;
      } else {
        var i :| 0 <= i < |orders| && orders[i].spot && p.firedUntil.value == orders[i].time + 10.0;
        assert all[i] == orders[i];
      }
    }
  }

  lemma VisitRemembers(p: Pace, v: Visit, sent: seq<Order>, position: int)
    requires Remembers(p, sent, position) && position != 0 && (v.Pass? ==> v.ts.position == position)
    ensures var (after, order) := AfterVisit(p, v);
            Remembers(after, sent + if order.Some? && !order.value.spot then [order.value] else [], position)
  {
    hide ExitDecision, MarketClosed, ExitRetryDelay, SpotUnwindDecision;
    assert sent + [] == sent;
  }

  lemma {:induction false} RunRemembers(p: Pace, vs: seq<Visit>, position: int)
    requires position != 0 && Stuck(vs, position) && Remembers(p, [], position) && p.firedUntil.None?
    ensures Remembers(PaceAfter(p, vs), PassOrders(Orders(p, vs)), position)
    ensures HeldBy(PaceAfter(p, vs), Orders(p, vs))
  {
    hide AfterVisit, Remembers, HeldBy, PassOrders;
    if vs == [] {
      NothingSentYet(p);
    } else {
      var before, v := vs[..|vs| - 1], vs[|vs| - 1];
      RunRemembers(p, before, position);
      var mid, orders := PaceAfter(p, before), Orders(p, before);
      VisitRemembers(mid, v, PassOrders(orders), position);
      VisitKeepsHeldBy(mid, v, orders);
      PassOrdersStep(orders, AfterVisit(mid, v).1);
    }
  }

  lemma NothingSentYet(p: Pace)
    ensures PassOrders([]) == []
    ensures p.firedUntil.None? ==> HeldBy(p, [])
  {
  }

  /** No exit is forgotten. Of a position that does not move, a due exit goes
      out with the first pass, and again with the first pass after each delay,
      unless a spot order went out within the last ten seconds; and exactly
      then, whatever passes and spot ticks came before. */
  lemma DueExitGoesOut(p: Pace, vs: seq<Visit>, v: Visit, position: int)
    requires position != 0 && Stuck(vs, position) && ClocksForward(vs)
    requires Remembers(p, [], position) && p.firedUntil.None?
    requires v.Pass? && v.ts.position == position
    ensures var orders := Orders(p, vs);
            var sent := PassOrders(orders);
            AfterVisit(PaceAfter(p, vs), v).1.Some? <==>
              && Due(v.ts, v.nowS)
              && (forall i :: 0 <= i < |orders| && orders[i].spot ==> v.m0 - orders[i].time >= 10.0)
              && (sent != [] ==> v.m1 - sent[|sent| - 1].time >= ExitRetryDelay(|sent|))
  {
    hide AfterVisit, Orders, PassOrders, PaceAfter, ExitRetryDelay, Stuck, ClocksForward, Due, HeldOff;
    RunRemembers(p, vs, position);
    HoldOffProtectsUnwinds(p, vs);
    PassSendsIff(PaceAfter(p, vs), v);
  }

  /** A flat market's retry state is forgotten: whatever position is held next
      finds a clean start, however often an earlier one was tried. */
  lemma FlatMarketsStartOver(p: Pace, flat: Visit, v: Visit)
    requires flat.Pass? && flat.ts.position == 0
    requires v.Pass? && Due(v.ts, v.nowS) && (p.firedUntil.Some? ==> v.m0 >= p.firedUntil.value)
    ensures AfterVisit(AfterVisit(p, flat).0, v).1.Some?
  {
    hide Due;
    PassSendsIff(AfterVisit(p, flat).0, v);
  }

  // --- spot ticks -----------------------------------------------------------

  /** A fresh tick finds fair value against an open position by more than the
      threshold. */
  predicate Adverse(v: Visit)
    requires v.Spot?
  {
    !v.stale && v.ts.position != 0 && v.ts.book.IsValid()
    && v.shift.Some? && Signum(v.ts.position) * v.shift.value < -v.unwindShift
  }

  /** A tick the market's position is looked at on. */
  predicate Looks(p: Pace, v: Visit) {
    v.Spot? && !v.stale && v.ts.position != 0 && !Before(v.now, p.unwindNext) && !Before(v.now, p.firedUntil)
  }

  function LookTimes(p: Pace, vs: seq<Visit>): seq<real> {
    if vs == [] then []
    else
      var v, before := vs[|vs| - 1], vs[..|vs| - 1];
      LookTimes(p, before) + if Looks(PaceAfter(p, before), v) then [v.now] else []
  }

  lemma SpotSendsIff(p: Pace, v: Visit)
    requires v.Spot?
    ensures AfterVisit(p, v).1.Some? <==> Adverse(v) && Looks(p, v)
    ensures AfterVisit(p, v).1.Some? ==> AfterVisit(p, v).1.value == Order(v.now, true, v.nowS, v.ts.closeTime)
  {
    hide SpotUnwindDecision;
    if v.shift.Some? {
      if v.ts.position != 0 && v.ts.book.IsValid() {
        UnwindsOnlyAgainstInventory(v.ts, v.shift.value, v.unwindShift);
      } else {
        NoUnwindWithoutBook(v.ts, v.shift.value, v.unwindShift);
      }
    }
  }

  /** The throttle is that of the last look, which no earlier one exceeds. */
  predicate Throttled(p: Pace, looks: seq<real>) {
    if looks == [] then p.unwindNext.None?
    else p.unwindNext == Some(looks[|looks| - 1] + 1.0) && forall i :: 0 <= i < |looks| ==> looks[i] <= looks[|looks| - 1]
  }

  lemma VisitKeepsThrottle(p: Pace, v: Visit, looks: seq<real>)
    requires Throttled(p, looks)
    ensures Throttled(AfterVisit(p, v).0, looks + if Looks(p, v) then [v.now] else [])
  {
    hide ExitDecision, MarketClosed, ExitRetryDelay, SpotUnwindDecision;
    assert looks + [] == looks;
  }

  lemma {:induction false} RunKeepsThrottle(p: Pace, vs: seq<Visit>)
    requires p.unwindNext.None? && p.firedUntil.None?
    ensures Throttled(PaceAfter(p, vs), LookTimes(p, vs))
    ensures HeldBy(PaceAfter(p, vs), Orders(p, vs))
  {
    hide AfterVisit, Looks, Throttled, HeldBy;
    if vs == [] {
      NothingSentYet(p);
      assert Throttled(p, []) by {
        NothingLookedAtYet(p);
      }
    } else {
      RunKeepsThrottle(p, vs[..|vs| - 1]);
      VisitKeepsThrottle(PaceAfter(p, vs[..|vs| - 1]), vs[|vs| - 1], LookTimes(p, vs[..|vs| - 1]));
      VisitKeepsHeldBy(PaceAfter(p, vs[..|vs| - 1]), vs[|vs| - 1], Orders(p, vs[..|vs| - 1]));
    }
  }

  lemma NothingLookedAtYet(p: Pace)
    requires p.unwindNext.None?
    ensures Throttled(p, [])
  {
  }

  /** Over any run of passes and ticks, an adverse tick sends its unwind exactly
      when the position was last looked at a second ago or more, and the last
      unwind went out ten seconds ago or more. */
  lemma AdverseTickGoesOut(p: Pace, vs: seq<Visit>, v: Visit)
    requires p.unwindNext.None? && p.firedUntil.None? && ClocksForward(vs) && v.Spot?
    ensures var orders, looks := Orders(p, vs), LookTimes(p, vs);
            AfterVisit(PaceAfter(p, vs), v).1.Some? <==>
              && Adverse(v)
              && (forall i :: 0 <= i < |looks| ==> v.now - looks[i] >= 1.0)
              && (forall i :: 0 <= i < |orders| && orders[i].spot ==> v.now - orders[i].time >= 10.0)
  {
    hide AfterVisit, Orders, LookTimes, PaceAfter, ClocksForward, HeldOff;
    RunKeepsThrottle(p, vs);
    HoldOffProtectsUnwinds(p, vs);
    SpotSendsIff(PaceAfter(p, vs), v);
  }
}
