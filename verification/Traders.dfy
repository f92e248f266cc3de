/** The trader (src/main.rs): the maps and sets its timers update in place.
    Each method is proved to move them exactly as the specifications say;
    clocks, API answers and hash-map orders are arbitrary inputs. */
module Traders {
  import opened Numbers
  import opened Ledger
  import opened Processing
  import opened Sync
  import opened Exits
  import Quotes
  import opened Sums

  class Trader {
    const state: TraderState
    var cfg: Config
    const spotBound: set<string>
    var spotGateOn: bool
    var spotUnwindNext: map<string, real>
    var spotUnwindFiredUntil: map<string, real>
    var settlementChecks: map<string, nat>
    var exitRetries: map<string, ExitRetry>

    constructor (cfg: Config, spotBound: set<string>, now: real)
      ensures fresh(state) && state.View() == FreshAccount(now)
      ensures this.cfg == cfg && this.spotBound == spotBound && !spotGateOn
      ensures settlementChecks == map[] && exitRetries == map[]
      ensures spotUnwindNext == map[] && spotUnwindFiredUntil == map[]
    {
      state := new TraderState(now);
      this.cfg, this.spotBound, spotGateOn := cfg, spotBound, false;
      spotUnwindNext, spotUnwindFiredUntil, settlementChecks, exitRetries := map[], map[], map[], map[];
    }

    // --- fills ----------------------------------------------------------------

    method EnforceCategoryHalt(category: string)
      modifies state
      ensures state.View() == AfterEnforce(old(state.View()), cfg.haltLimit, category)
    {
      if cfg.haltLimit > 0 && category !in state.haltedCategories {
        var losses := if category in state.consecutiveLosses then state.consecutiveLosses[category] else 0;
        if losses >= cfg.haltLimit {
          state.haltedCategories := state.haltedCategories + {category};
        }
      }
    }

    method ProcessFill(f: Fill, now: real)
      modifies state
      ensures state.View() == AfterProcess(cfg, old(state.View()), f, now)
    {
      hide AfterSeen, AfterFill, AfterEnforce, WithTicker, CategoryOf, FeeOf;
      var seen := state.SeenFill(f.id);
      if seen {
        SeenAgain(old(state.View()), f.id);
        return;
      }
      var category := CategoryOf(cfg, f.ticker);
      var ts := state.Ticker(f.ticker, category);
      var realized := state.ApplyFill(f, FeeOf(cfg, f), now);
      EnforceCategoryHalt(category);
    }

    // --- position sync --------------------------------------------------------

    ghost function Books(): SyncState
      reads this, state
    {
      SyncState(state.View(), settlementChecks)
    }

    method SyncPositions(r: Round)
      requires Walks(cfg, Books(), r)
      modifies this`settlementChecks, state
      ensures Books() == AfterSync(cfg, old(Books()), r)
    {
      hide AfterDrift, VanishedIn, ResolveAll, AfterBackfill;
      if r.positions.None? {
        return;
      }
      var vanished := WalkPositions(r);
      if r.settlements.Some? {
        ResolveVanished(vanished, r.settlements.value);
      }
      BackfillEntryPrices(r);
    }

    /** Drift correction over the whole walk; what vanished is set aside. */
    method WalkPositions(r: Round) returns (vanished: seq<string>)
      requires Distinct(r.order)
      modifies state
      ensures state.View() == AfterDrift(cfg, old(state.View()), r, r.order)
      ensures vanished == VanishedIn(cfg, old(state.View()), r, r.order)
    {
      hide DriftFixed, Vanishes, Distinct, WithTicker;
      vanished := [];
      for i := 0 to |r.order|
        invariant state.View() == AfterDrift(cfg, old(state.View()), r, r.order[..i])
        invariant vanished == VanishedIn(cfg, old(state.View()), r, r.order[..i])
      {
        assert r.order[..i + 1][..i] == r.order[..i];
        UnvisitedIsUntouched(cfg, old(state.View()), r, i);
        var isVanished := CorrectDrift(r, r.order[i]);
        if isVanished {
          vanished := vanished + [r.order[i]];
        }
      }
      assert r.order[..|r.order|] == r.order;
    }

    method BackfillEntryPrices(r: Round)
      modifies state
      ensures state.View() == AfterBackfill(cfg, old(state.View()), r, r.backfillOrder)
    {
      hide Backfilled, NeedsBackfill;
      for i := 0 to |r.backfillOrder|
        invariant state.View() == AfterBackfill(cfg, old(state.View()), r, r.backfillOrder[..i])
      {
        assert r.backfillOrder[..i + 1][..i] == r.backfillOrder[..i];
        BackfillEntryPrice(r, r.backfillOrder[i]);
      }
      assert r.backfillOrder[..|r.backfillOrder|] == r.backfillOrder;
    }

    /** One market of the drift walk; true when it vanished from the exchange. */
    method CorrectDrift(r: Round, t: string) returns (vanished: bool)
      modifies state`tickers
      ensures var b := WithTicker(old(state.View()), t, ActiveCategory(cfg, t));
              && state.View() == b.(tickers := b.tickers[t := DriftFixed(cfg, b.tickers[t], r.Remote(t), t, r.now)])
              && vanished == Vanishes(cfg, b.tickers[t], r.Remote(t), t)
    {
      var remote := r.Remote(t);
      var ts := state.Ticker(t, ActiveCategory(cfg, t));
      vanished := false;
      if ts.position != remote {
        if remote == 0 && t in cfg.active {
          vanished := true;
        } else if r.now - ts.lastFillEpoch >= 10.0 {
          if ts.position == 0 && ts.lastFillEpoch == 0.0 && remote != 0 {
            ts := ts.(carried := true);
          }
          ts := ts.(position := remote);
        }
      }
      state.tickers := state.tickers[t := ts];
    }

    method ResolveVanished(ts: seq<string>, settled: map<string, Option<bool>>)
      modifies this`settlementChecks, state
      ensures Books() == ResolveAll(cfg, old(Books()), ts, settled)
    {
      for i := 0 to |ts|
        invariant Books() == ResolveAll(cfg, old(Books()), ts[..i], settled)
      {
        assert ts[..i + 1][..i] == ts[..i];
        ResolvePosition(ts[i], settled);
      }
      assert ts[..|ts|] == ts;
    }

    method ResolvePosition(t: string, settled: map<string, Option<bool>>)
      modifies this`settlementChecks, state
      ensures Books() == ResolveOne(cfg, old(Books()), t, settled)
    {
      hide AfterSettlement, AfterEnforce, SettlementPnl;
      if t !in state.tickers || state.tickers[t].position == 0 {
        settlementChecks := settlementChecks - {t};
        return;
      }
      if t !in settled {
        var checks := (if t in settlementChecks then settlementChecks[t] else 0) + 1;
        settlementChecks := settlementChecks[t := checks];
        if checks >= MAX_SETTLEMENT_CHECKS {
          state.tickers := state.tickers[t := state.tickers[t].(position := 0, entry := None)];
          settlementChecks := settlementChecks - {t};
          assert settlementChecks == old(settlementChecks) - {t};
        }
        return;
      }
      settlementChecks := settlementChecks - {t};
      var booked := state.ApplySettlement(t, settled[t]);
      if booked.Some? {
        EnforceCategoryHalt(if t in cfg.active then cfg.active[t] else "");
      }
    }

    /** Rebuilds a lost cost basis from history; an API failure leaves it unset. */
    method BackfillEntryPrice(r: Round, t: string)
      modifies state`tickers
      ensures var b := old(state.View());
              state.View() == if t in b.tickers && NeedsBackfill(cfg, b.tickers[t], t) && t in r.histories
                              then b.(tickers := b.tickers[t := Backfilled(b.tickers[t], r.histories[t])]) else b
    {
      if t in state.tickers && NeedsBackfill(cfg, state.tickers[t], t) && t in r.histories {
        var position, entry := ReplayEntryPrice(r.histories[t]);
        if entry.Some? && position == state.tickers[t].position {
          state.tickers := state.tickers[t := state.tickers[t].(entry := entry)];
        } else {
          assert state.tickers[t := state.tickers[t]] == state.tickers;
        }
      }
    }

    // --- exits ----------------------------------------------------------------

    ghost function PaceOf(t: string): Pace
      reads this
    {
      Pace(if t in exitRetries then Some(exitRetries[t]) else None,
           if t in spotUnwindFiredUntil then Some(spotUnwindFiredUntil[t]) else None,
           if t in spotUnwindNext then Some(spotUnwindNext[t]) else None)
    }

    /** Stop-loss and expiry exits. `held` walks the open positions; each
        comes with its three successive clock readings. */
    method CheckExits(held: seq<string>, nowS: real, clocks: seq<(real, real, real)>) returns (sent: map<string, ExitPlan>)
      requires Distinct(held) && |clocks| == |held|
      requires forall t :: t in held <==> t in state.tickers && state.tickers[t].position != 0
      modifies this`exitRetries
      ensures forall i :: 0 <= i < |held| ==>
                var (pace, order) := AfterPass(old(PaceOf(held[i])),
                  Pass(state.tickers[held[i]], nowS, clocks[i].0, clocks[i].1, clocks[i].2));
                && PaceOf(held[i]) == pace
                && (held[i] in sent <==> order.Some?)
                && (held[i] in sent ==> Some(sent[held[i]]) == ExitDecision(state.tickers[held[i]], nowS))
      ensures forall t :: t !in held ==> t !in sent && PaceOf(t).retry.None?
    {
      hide ExitDecision, AfterPass, PaceOf, Distinct;
      sent := map[];
      ReapRetries(held);
      NeverTwice(held);
      for i := 0 to |held|
        invariant forall j :: 0 <= j < i ==>
                    var (pace, order) := AfterPass(old(PaceOf(held[j])),
                      Pass(state.tickers[held[j]], nowS, clocks[j].0, clocks[j].1, clocks[j].2));
                    && PaceOf(held[j]) == pace
                    && (held[j] in sent <==> order.Some?)
                    && (held[j] in sent ==> Some(sent[held[j]]) == ExitDecision(state.tickers[held[j]], nowS))
        invariant forall j :: i <= j < |held| ==> PaceOf(held[j]) == old(PaceOf(held[j])) && held[j] !in sent
        invariant forall t :: t !in held ==> t !in sent && PaceOf(t).retry.None?
      {
        var t := held[i];
        var plan := CheckExit(t, nowS, clocks[i].0, clocks[i].1, clocks[i].2);
        if plan.Some? {
          sent := sent[t := plan.value];
        }
      }
    }

    /** Drops the retry state of everything now flat. */
    method ReapRetries(held: seq<string>)
      modifies this`exitRetries
      ensures forall t :: PaceOf(t) == if t in held then old(PaceOf(t)) else old(PaceOf(t)).(retry := None)
    {
      exitRetries := map t | t in exitRetries && t in held :: exitRetries[t];
    }

    /** One held position of the exit walk. */
    method CheckExit(t: string, nowS: real, m0: real, m1: real, m2: real) returns (sent: Option<ExitPlan>)
      requires t in state.tickers && state.tickers[t].position != 0
      modifies this`exitRetries
      ensures var (pace, order) := AfterPass(old(PaceOf(t)), Pass(state.tickers[t], nowS, m0, m1, m2));
              && PaceOf(t) == pace && (sent.Some? <==> order.Some?)
              && (sent.Some? ==> sent == ExitDecision(state.tickers[t], nowS))
      ensures forall u :: u != t ==> PaceOf(u) == old(PaceOf(u))
    {
      hide ExitDecision, MarketClosed, ExitRetryDelay;
      var ts := state.tickers[t];
      if t in spotUnwindFiredUntil && m0 < spotUnwindFiredUntil[t] {
        return None;
      }
      var plan := ExitDecision(ts, nowS);
      if plan.None? || MarketClosed(ts, nowS) {
        return None;
      }
      var retry := if t in exitRetries then exitRetries[t] else ExitRetry(0, ts.position, None);
      if retry.positionAtAttempt != ts.position {
        retry := ExitRetry(0, ts.position, None);
      }
      exitRetries := exitRetries[t := retry];
      if retry.nextAllowed.Some? && m1 < retry.nextAllowed.value {
        return None;
      }
      var attempts := retry.attempts + 1;
      exitRetries := exitRetries[t := ExitRetry(attempts, ts.position, Some(m2 + ExitRetryDelay(attempts)))];
      return plan;
    }

    /** Spot-adverse exits of the spot-bound categories; `walk` is the order of
        the ticker map, `shifts` holds each market's fair-value shift. The wall
        clock `nowS` is not read. */
    method CheckSpotUnwind(walk: seq<string>, now: real, ghost nowS: real, stale: bool,
                           shifts: map<string, real>, unwindShift: real)
      returns (sent: map<string, ExitPlan>)
      requires Distinct(walk) && forall t :: t in walk <==> t in state.tickers
      modifies this`spotUnwindNext, this`spotUnwindFiredUntil
      ensures forall t :: t in state.tickers && state.tickers[t].category in spotBound ==>
                var v := SpotVisit(t, now, nowS, stale, shifts, unwindShift);
                var (pace, order) := AfterSpot(old(PaceOf(t)), v);
                PaceOf(t) == pace && (t in sent <==> order.Some?)
      ensures forall t :: t in sent ==>
                t in state.tickers && t in shifts
                && Some(sent[t]) == SpotUnwindDecision(state.tickers[t], shifts[t], unwindShift)
      ensures forall t :: !(t in state.tickers && state.tickers[t].category in spotBound) ==>
                t !in sent && PaceOf(t) == old(PaceOf(t))
    {
      hide SpotUnwindDecision, PaceOf, Distinct;
      sent := map[];
      if stale {
        return;
      }
      var held := SpotBoundHeld(walk);
      NeverTwice(held);
      for i := 0 to |held|
        invariant forall j :: 0 <= j < i ==>
                    var v := SpotVisit(held[j], now, nowS, stale, shifts, unwindShift);
                    var (pace, order) := AfterSpot(old(PaceOf(held[j])), v);
                    PaceOf(held[j]) == pace && (held[j] in sent <==> order.Some?)
        invariant forall j :: i <= j < |held| ==> held[j] !in sent && PaceOf(held[j]) == old(PaceOf(held[j]))
        invariant forall t :: t !in held ==> t !in sent && PaceOf(t) == old(PaceOf(t))
        invariant forall t :: t in sent ==>
                    t in state.tickers && t in shifts
                    && Some(sent[t]) == SpotUnwindDecision(state.tickers[t], shifts[t], unwindShift)
      {
        var plan := CheckUnwind(held[i], now, nowS, shifts, unwindShift);
        if plan.Some? {
          sent := sent[held[i] := plan.value];
        }
      }
    }

    /** The open positions of spot-bound categories. */
    method SpotBoundHeld(walk: seq<string>) returns (held: seq<string>)
      requires Distinct(walk) && forall t :: t in walk <==> t in state.tickers
      ensures Distinct(held)
      ensures forall t :: t in held <==>
                t in state.tickers && state.tickers[t].position != 0 && state.tickers[t].category in spotBound
    {
      held := [];
      for i := 0 to |walk|
        invariant Distinct(held)
        invariant forall t :: t in held <==>
                    t in walk[..i] && state.tickers[t].position != 0 && state.tickers[t].category in spotBound
      {
        assert walk[..i + 1] == walk[..i] + [walk[i]];
        assert walk[i] !in walk[..i];
        if state.tickers[walk[i]].position != 0 && state.tickers[walk[i]].category in spotBound {
          held := held + [walk[i]];
        }
      }
      assert walk[..|walk|] == walk;
    }

    ghost function SpotVisit(t: string, now: real, nowS: real, stale: bool, shifts: map<string, real>,
                             unwindShift: real): (v: Visit)
      requires t in state.tickers
      reads this, state
      ensures v.Spot?
    {
      Spot(state.tickers[t], nowS, stale, if t in shifts then Some(shifts[t]) else None, unwindShift, now)
    }

    method CheckUnwind(t: string, now: real, ghost nowS: real, shifts: map<string, real>, unwindShift: real)
      returns (sent: Option<ExitPlan>)
      requires t in state.tickers
      modifies this`spotUnwindNext, this`spotUnwindFiredUntil
      ensures var (pace, order) := AfterSpot(old(PaceOf(t)), SpotVisit(t, now, nowS, false, shifts, unwindShift));
              PaceOf(t) == pace && (sent.Some? <==> order.Some?)
      ensures sent.Some? ==> t in shifts && sent == SpotUnwindDecision(state.tickers[t], shifts[t], unwindShift)
      ensures forall u :: u != t ==> PaceOf(u) == old(PaceOf(u))
    {
      hide SpotUnwindDecision;
      var ts := state.tickers[t];
      if ts.position == 0 || (t in spotUnwindNext && now < spotUnwindNext[t])
         || (t in spotUnwindFiredUntil && now < spotUnwindFiredUntil[t]) {
        return None;
      }
      spotUnwindNext := spotUnwindNext[t := now + 1.0];
      if t !in shifts {
        return None;
      }
      sent := SpotUnwindDecision(ts, shifts[t], unwindShift);
      if sent.Some? {
        spotUnwindFiredUntil := spotUnwindFiredUntil[t := now + UNWIND_REFIRE_HOLDOFF_S];
      }
    }

    // --- spot gate ------------------------------------------------------------

    /** Latches the gate; its rising edge alone pulls every resting quote of a
        spot-bound category and cancels exactly those ids. `walk` is the order
        of the ticker map. */
    method UpdateSpotGate(gated: bool, walk: seq<string>) returns (canceled: seq<string>)
      requires Distinct(walk) && forall t :: t in walk <==> t in state.tickers
      modifies this`spotGateOn, state`tickers
      ensures spotBound != {} ==> spotGateOn == gated
      ensures spotBound == {} ==> spotGateOn == old(spotGateOn)
      ensures var rising := spotBound != {} && gated && !old(spotGateOn);
              && state.tickers == (if rising then PulledTickers(old(state.tickers), spotBound) else old(state.tickers))
              && canceled == if rising then PulledIds(old(state.tickers), spotBound, walk) else []
    {
      canceled := [];
      if spotBound == {} {
        return;
      }
      if gated && !spotGateOn {
        canceled := CancelSpotBoundQuotes(walk);
      }
      spotGateOn := gated;
    }

    method CancelSpotBoundQuotes(walk: seq<string>) returns (canceled: seq<string>)
      requires Distinct(walk) && forall t :: t in walk <==> t in state.tickers
      modifies state`tickers
      ensures state.tickers == PulledTickers(old(state.tickers), spotBound)
      ensures canceled == PulledIds(old(state.tickers), spotBound, walk)
    {
      hide Pulled, PulledIdsOf, PulledOn, PulledTickers, Distinct;
      canceled := [];
      PulledOnNone(state.tickers, spotBound);
      for i := 0 to |walk|
        invariant state.tickers == PulledOn(old(state.tickers), spotBound, walk[..i])
        invariant canceled == PulledIds(old(state.tickers), spotBound, walk[..i])
      {
        assert walk[..i + 1][..i] == walk[..i];
        PulledOneMore(old(state.tickers), spotBound, walk, i);
        var ids := PullQuotes(walk[i]);
        canceled := canceled + ids;
      }
      assert walk[..|walk|] == walk;
      PulledOnAll(old(state.tickers), spotBound, walk);
    }

    /** One market: its resting ids, if it is spot-bound, are taken off it. */
    method PullQuotes(t: string) returns (ids: seq<string>)
      requires t in state.tickers
      modifies state`tickers
      ensures state.tickers == old(state.tickers)[t := Pulled(old(state.tickers)[t], spotBound)]
      ensures ids == PulledIdsOf(old(state.tickers)[t], spotBound)
    {
      ids := [];
      var ts := state.tickers[t];
      if ts.category in spotBound {
        ids := Quotes.OptId(ts.bidOrderId) + Quotes.OptId(ts.askOrderId);
        ts := ts.(bidOrderId := None, askOrderId := None);
      }
      state.tickers := state.tickers[t := ts];
    }

    // --- universe -------------------------------------------------------------

    /** Periodic re-discovery: adds what opened, drops what expired and is
        flat, and keeps everything when discovery came back empty. */
    method RefreshMarkets(discovered: map<string, string>)
      modifies this`cfg
      ensures cfg == old(cfg).(active := RefreshedUniverse(old(cfg).active, discovered, Held(state.tickers)))
    {
      if |discovered| == 0 {
        assert discovered == map[];
        return;
      }
      var prunable := set t | t in cfg.active && t !in discovered
                              && !(t in state.tickers && state.tickers[t].position != 0);
      var added := map t | t in discovered && t !in cfg.active :: discovered[t];
      cfg := cfg.(active := (cfg.active - prunable) + added);
    }
  }

  /** Resting ids dropped in a spot-bound category. */
  function Pulled(ts: TickerState, spotBound: set<string>): TickerState {
    if ts.category in spotBound then ts.(bidOrderId := None, askOrderId := None) else ts
  }

  function PulledTickers(tickers: map<string, TickerState>, spotBound: set<string>): map<string, TickerState> {
    map t | t in tickers :: Pulled(tickers[t], spotBound)
  }

  /** The pull half done: over the markets walked so far. */
  function PulledOn(tickers: map<string, TickerState>, spotBound: set<string>, done: seq<string>)
    : map<string, TickerState>
  {
    map t | t in tickers :: if t in done then Pulled(tickers[t], spotBound) else tickers[t]
  }

  lemma PulledOnNone(tickers: map<string, TickerState>, spotBound: set<string>)
    ensures PulledOn(tickers, spotBound, []) == tickers
  {
  }

  lemma PulledOneMore(tickers: map<string, TickerState>, spotBound: set<string>, walk: seq<string>, i: nat)
    requires Distinct(walk) && i < |walk| && walk[i] in tickers
    ensures var before := PulledOn(tickers, spotBound, walk[..i]);
            && walk[i] in before && before[walk[i]] == tickers[walk[i]]
            && PulledOn(tickers, spotBound, walk[..i + 1]) == before[walk[i] := Pulled(tickers[walk[i]], spotBound)]
  {
    hide Pulled;
    assert walk[..i + 1] == walk[..i] + [walk[i]];
    assert walk[i] !in walk[..i];
  }

  lemma PulledOnAll(tickers: map<string, TickerState>, spotBound: set<string>, walk: seq<string>)
    requires forall t :: t in walk <==> t in tickers
    ensures PulledOn(tickers, spotBound, walk) == PulledTickers(tickers, spotBound)
  {
    hide Pulled;
  }

  /** The resting ids of spot-bound markets, bid before ask, in walk order. */
  function PulledIds(tickers: map<string, TickerState>, spotBound: set<string>, walk: seq<string>): seq<string>
    requires forall t :: t in walk ==> t in tickers
  {
    if walk == [] then []
    else
      PulledIds(tickers, spotBound, walk[..|walk| - 1]) + PulledIdsOf(tickers[walk[|walk| - 1]], spotBound)
  }

  function PulledIdsOf(ts: TickerState, spotBound: set<string>): seq<string> {
    if ts.category in spotBound then Quotes.OptId(ts.bidOrderId) + Quotes.OptId(ts.askOrderId) else []
  }

  function Held(tickers: map<string, TickerState>): set<string> {
    set t | t in tickers && tickers[t].position != 0
  }

  function RefreshedUniverse(active: map<string, string>, discovered: map<string, string>, held: set<string>)
    : map<string, string>
  {
    if discovered == map[] then active
    else
      (map t | t in active && (t in discovered || t in held) :: active[t])
      + (map t | t in discovered && t !in active :: discovered[t])
  }

  /** A refresh never orphans a position and never keeps a dead flat market;
      what stays keeps its category, what is added takes the discovered one;
      a failed discovery changes nothing. */
  lemma RefreshNeverDropsHeldMarkets(active: map<string, string>, discovered: map<string, string>,
                                     tickers: map<string, TickerState>)
    ensures var after := RefreshedUniverse(active, discovered, Held(tickers));
            && (forall t :: t in active && t in tickers && tickers[t].position != 0 ==> t in after)
            && (discovered != map[] ==>
                  forall t :: t in after <==>
                    t in discovered || (t in active && t in tickers && tickers[t].position != 0))
            && (forall t :: t in after ==> after[t] == if t in active then active[t] else discovered[t])
            && (discovered == map[] ==> after == active)
  {
  }

  /** `id` rests for a market of a spot-bound category. */
  predicate RestsBound(ts: TickerState, spotBound: set<string>, id: string) {
    ts.category in spotBound && (ts.bidOrderId == Some(id) || ts.askOrderId == Some(id))
  }

  lemma PulledOfOne(ts: TickerState, spotBound: set<string>, id: string)
    ensures id in PulledIdsOf(ts, spotBound) <==> RestsBound(ts, spotBound, id)
  {
  }

  /** The ids a pull hands to cancel are exactly those resting in a spot-bound
      category. */
  lemma {:induction false} PulledIdsAreTheResting(tickers: map<string, TickerState>, spotBound: set<string>,
                                                  walk: seq<string>, id: string)
    requires forall t :: t in walk ==> t in tickers
    ensures id in PulledIds(tickers, spotBound, walk) <==> exists t :: t in walk && RestsBound(tickers[t], spotBound, id)
  {
    hide RestsBound, PulledIdsOf;
    if walk == [] {
    } else {
      var before, t := walk[..|walk| - 1], walk[|walk| - 1];
      PulledIdsAreTheResting(tickers, spotBound, before, id);
      PulledOfOne(tickers[t], spotBound, id);
      assert walk == before + [t];
    }
  }

  lemma NeverTwice(s: seq<string>)
    requires Distinct(s)
    ensures forall i, j :: 0 <= i < j < |s| ==> s[i] != s[j]
  {
  }

  lemma SeenAgain(a: Account, id: string)
    requires id in a.seen.ids
    ensures a.(seen := AfterSeen(a.seen, FILL_ID_CAP, id)) == a
  {
  }

  /** A market the drift walk has not reached is as it was. */
  lemma UnvisitedIsUntouched(cfg: Config, a: Account, r: Round, i: nat)
    requires Distinct(r.order) && i < |r.order|
    ensures var b := AfterDrift(cfg, a, r, r.order[..i]);
            Vanishes(cfg, WithTicker(b, r.order[i], ActiveCategory(cfg, r.order[i])).tickers[r.order[i]],
                     r.Remote(r.order[i]), r.order[i])
            == Vanishes(cfg, a.At(r.order[i]), r.Remote(r.order[i]), r.order[i])
  {
    DriftAt(cfg, a, r, r.order[..i], r.order[i]);
  }
}
