/** Position sync (src/main.rs): local inventory reconciled with the exchange,
    settlements resolved for positions that vanished, cost basis backfilled.
    The API's answers are arbitrary inputs of each round; hash-set iteration
    orders are arbitrary sequences. */
module Sync {
  import opened Numbers
  import opened Sums
  import opened Ledger
  import opened Processing
  import opened Conservation

  const MAX_SETTLEMENT_CHECKS: nat := 4

  datatype SyncState = SyncState(account: Account, checks: map<string, nat>) {
    function Checks(t: string): nat { if t in checks then checks[t] else 0 }
  }

  /** One sync: the clock, what the API answered (None = the call failed), and
      the orders in which the two hash sets happen to be walked. */
  datatype Round = Round(
    now: real,
    positions: Option<map<string, int>>,
    settlements: Option<map<string, Option<bool>>>,
    histories: map<string, seq<Fill>>,
    order: seq<string>,
    backfillOrder: seq<string>)
  {
    function Remote(t: string): int {
      if positions.Some? && t in positions.value then positions.value[t] else 0
    }
  }

  function ActiveCategory(cfg: Config, t: string): string { if t in cfg.active then cfg.active[t] else "" }

  // --- specification --------------------------------------------------------

  /** A held position on a quoted market that the exchange no longer lists. */
  predicate Vanishes(cfg: Config, ts: TickerState, remote: int, t: string) {
    ts.position != remote && remote == 0 && t in cfg.active
  }

  /** Drift correction for one market. */
  function DriftFixed(cfg: Config, ts: TickerState, remote: int, t: string, now: real): TickerState {
    if ts.position == remote || Vanishes(cfg, ts, remote, t) || now - ts.lastFillEpoch < 10.0 then ts
    else
      ts.(carried := ts.carried || (ts.position == 0 && ts.lastFillEpoch == 0.0 && remote != 0),
          position := remote)
  }

  function AfterDrift(cfg: Config, a: Account, r: Round, order: seq<string>): Account {
    if order == [] then a
    else
      var t := order[|order| - 1];
      var b := WithTicker(AfterDrift(cfg, a, r, order[..|order| - 1]), t, ActiveCategory(cfg, t));
      b.(tickers := b.tickers[t := DriftFixed(cfg, b.tickers[t], r.Remote(t), t, r.now)])
  }

  function VanishedIn(cfg: Config, a: Account, r: Round, order: seq<string>): seq<string> {
    if order == [] then []
    else
      var t := order[|order| - 1];
      VanishedIn(cfg, a, r, order[..|order| - 1]) + if Vanishes(cfg, a.At(t), r.Remote(t), t) then [t] else []
  }

  function Zeroed(ts: TickerState): TickerState { ts.(position := 0, entry := None) }

  function ResolveOne(cfg: Config, s: SyncState, t: string, settled: map<string, Option<bool>>): SyncState {
    if s.account.At(t).position == 0 then s.(checks := s.checks - {t})
    else if t in settled then SyncState(AfterSettle(cfg, s.account, t, settled[t]), s.checks - {t})
    else if s.Checks(t) + 1 >= MAX_SETTLEMENT_CHECKS then
      SyncState(s.account.(tickers := s.account.tickers[t := Zeroed(s.account.At(t))]), s.checks - {t})
    else s.(checks := s.checks[t := s.Checks(t) + 1])
  }

  function ResolveAll(cfg: Config, s: SyncState, ts: seq<string>, settled: map<string, Option<bool>>): SyncState {
    if ts == [] then s
    else ResolveOne(cfg, ResolveAll(cfg, s, ts[..|ts| - 1], settled), ts[|ts| - 1], settled)
  }

  /** A lost cost basis rebuilt from history; a history that does not land on
      the live position leaves it unset. */
  function Backfilled(ts: TickerState, history: seq<Fill>): TickerState {
    var (position, entry) := Replay(history);
    if entry.Some? && position == ts.position then ts.(entry := entry) else ts
  }

  predicate NeedsBackfill(cfg: Config, ts: TickerState, t: string) {
    ts.position != 0 && ts.entry.None? && t in cfg.active
  }

  function AfterBackfill(cfg: Config, a: Account, r: Round, order: seq<string>): Account {
    if order == [] then a
    else
      var t := order[|order| - 1];
      var b := AfterBackfill(cfg, a, r, order[..|order| - 1]);
      if t in b.tickers && NeedsBackfill(cfg, b.tickers[t], t) && t in r.histories then
        b.(tickers := b.tickers[t := Backfilled(b.tickers[t], r.histories[t])])
      else b
  }

  /** Positions corrected and vanished ones resolved; the backfill is to come. */
  function Resolved(cfg: Config, s: SyncState, r: Round): SyncState {
    var drifted := SyncState(AfterDrift(cfg, s.account, r, r.order), s.checks);
    if r.settlements.None? then drifted
    else ResolveAll(cfg, drifted, VanishedIn(cfg, s.account, r, r.order), r.settlements.value)
  }

  function AfterSync(cfg: Config, s: SyncState, r: Round): SyncState {
    if r.positions.None? then s
    else
      var resolved := Resolved(cfg, s, r);
      resolved.(account := AfterBackfill(cfg, resolved.account, r, r.backfillOrder))
  }

  /** The two walks as the bot makes them: each market once, in any order; the
      drift walk over what the exchange lists and what is held, the backfill
      over what then lacks a cost basis. */
  ghost predicate Walks(cfg: Config, s: SyncState, r: Round) {
    r.positions.Some? ==>
      && Distinct(r.order) && Distinct(r.backfillOrder)
      && (forall t :: t in r.order <==> t in r.positions.value || s.account.At(t).position != 0)
      && forall t :: t in r.backfillOrder <==> NeedsBackfill(cfg, Resolved(cfg, s, r).account.At(t), t)
  }

  lemma WalksCover(cfg: Config, s: SyncState, r: Round)
    requires Walks(cfg, s, r) && r.positions.Some?
    ensures Covers(s, r)
  {
    forall t | t in s.account.tickers && s.account.tickers[t].position != 0
      ensures t in r.order
    {
      assert s.account.At(t) == s.account.tickers[t];
    }
  }

  /** The walk covers every market listed by the exchange or held locally. */
  ghost predicate Covers(s: SyncState, r: Round) {
    Distinct(r.order)
    && (r.positions.Some? ==> forall t :: t in r.positions.value ==> t in r.order)
    && forall t :: t in s.account.tickers && s.account.tickers[t].position != 0 ==> t in r.order
  }

  /** A market's record once the walk has made sure it exists. */
  function Listed(cfg: Config, a: Account, t: string): TickerState {
    if t in a.tickers then a.tickers[t] else NewTicker(ActiveCategory(cfg, t))
  }

  // --- what each phase does to one market -----------------------------------

  lemma {:induction false} DriftAt(cfg: Config, a: Account, r: Round, order: seq<string>, t: string)
    requires Distinct(order)
    ensures var b := AfterDrift(cfg, a, r, order);
            && b == a.(tickers := b.tickers)
            && (t in b.tickers <==> t in a.tickers || t in order)
            && b.At(t) == if t in order then DriftFixed(cfg, Listed(cfg, a, t), r.Remote(t), t, r.now) else a.At(t)
  {
    hide DriftFixed;
    if order == [] {
    } else {
      var before, u := order[..|order| - 1], order[|order| - 1];
      assert order == before + [u];
      DriftAt(cfg, a, r, before, t);
      DriftAt(cfg, a, r, before, u);
    }
  }

  lemma {:induction false} VanishedAt(cfg: Config, a: Account, r: Round, order: seq<string>, t: string)
    requires Distinct(order)
    ensures var v := VanishedIn(cfg, a, r, order);
            Distinct(v) && (t in v <==> t in order && Vanishes(cfg, a.At(t), r.Remote(t), t))
    ensures forall u :: u in VanishedIn(cfg, a, r, order) ==> u in order
  {
    hide Vanishes;
    if order == [] {
    } else {
      var before, u := order[..|order| - 1], order[|order| - 1];
      assert order == before + [u];
      VanishedAt(cfg, a, r, before, t);
      VanishedAt(cfg, a, r, before, u);
    }
  }

  /** A market's own record and counter, as sync sees them. */
  datatype Line = Line(ts: TickerState, checks: Option<nat>)

  function LineOf(s: SyncState, t: string): Line {
    Line(s.account.At(t), if t in s.checks then Some(s.checks[t]) else None)
  }

  function LineResolved(l: Line, result: Option<Option<bool>>): Line {
    if l.ts.position == 0 then Line(l.ts, None)
    else if result.Some? then Line(SettledTicker(l.ts, result.value), None)
    else if l.checks.GetOr(0) + 1 >= MAX_SETTLEMENT_CHECKS then Line(Zeroed(l.ts), None)
    else Line(l.ts, Some(l.checks.GetOr(0) + 1))
  }

  function Lookup(settled: map<string, Option<bool>>, t: string): Option<Option<bool>> {
    if t in settled then Some(settled[t]) else None
  }

  lemma ResolveOneAt(cfg: Config, s: SyncState, u: string, settled: map<string, Option<bool>>, t: string)
    ensures LineOf(ResolveOne(cfg, s, u, settled), t)
         == if t == u then LineResolved(LineOf(s, t), Lookup(settled, t)) else LineOf(s, t)
  {
    hide SettledTicker, SettlementPnl;
    if u in settled {
      SettleAt(cfg, s.account, u, settled[u], t);
    }
  }

  lemma SettleAt(cfg: Config, a: Account, u: string, result: Option<bool>, t: string)
    ensures AfterSettle(cfg, a, u, result).At(t)
         == if t == u && t in a.tickers then SettledTicker(a.tickers[t], result) else a.At(t)
  {
    hide SettledTicker, SettlementPnl;
  }

  lemma {:induction false} ResolveAt(cfg: Config, s: SyncState, ts: seq<string>,
                                     settled: map<string, Option<bool>>, t: string)
    requires Distinct(ts)
    ensures LineOf(ResolveAll(cfg, s, ts, settled), t)
         == if t in ts then LineResolved(LineOf(s, t), Lookup(settled, t)) else LineOf(s, t)
  {
    hide LineResolved, ResolveOne, LineOf;
    if ts == [] {
    } else {
      var before, u := ts[..|ts| - 1], ts[|ts| - 1];
      assert ts == before + [u];
      ResolveAt(cfg, s, before, settled, t);
      ResolveOneAt(cfg, ResolveAll(cfg, s, before, settled), u, settled, t);
    }
  }

  /** A market's record after its turn in the backfill. */
  function BackfillDone(cfg: Config, ts: TickerState, r: Round, t: string): TickerState {
    if NeedsBackfill(cfg, ts, t) && t in r.histories then Backfilled(ts, r.histories[t]) else ts
  }

  lemma BackfillTwice(cfg: Config, ts: TickerState, r: Round, t: string)
    ensures BackfillDone(cfg, BackfillDone(cfg, ts, r, t), r, t) == BackfillDone(cfg, ts, r, t)
    ensures BackfillDone(cfg, ts, r, t) == ts.(entry := BackfillDone(cfg, ts, r, t).entry)
    ensures ts.position == 0 ==> BackfillDone(cfg, ts, r, t) == ts
  {
    hide Replay;
  }

  lemma {:induction false} BackfillAt(cfg: Config, a: Account, r: Round, order: seq<string>, t: string)
    ensures var b := AfterBackfill(cfg, a, r, order);
            && b == a.(tickers := b.tickers)
            && (t in b.tickers <==> t in a.tickers)
            && b.At(t) == if t in order then BackfillDone(cfg, a.At(t), r, t) else a.At(t)
  {
    hide Backfilled;
    if order == [] {
    } else {
      var before, u := order[..|order| - 1], order[|order| - 1];
      assert order == before + [u];
      BackfillAt(cfg, a, r, before, t);
      BackfillAt(cfg, a, r, before, u);
      BackfillTwice(cfg, a.At(t), r, t);
    }
  }

  // --- one sync -------------------------------------------------------------

  /** A pending market has been checked one to three times. */
  predicate ChecksBounded(s: SyncState) {
    forall t :: t in s.checks ==> 1 <= s.checks[t] < MAX_SETTLEMENT_CHECKS
  }

  /** Agrees with the exchange, or was filled moments ago, or has vanished and
      waits for its settlement record. */
  predicate Reconciled(cfg: Config, before: SyncState, after: SyncState, r: Round, t: string) {
    || after.account.At(t).position == r.Remote(t)
    || r.now - after.account.At(t).lastFillEpoch < 10.0
    || (t in cfg.active && r.Remote(t) == 0 && before.account.At(t).position != 0
        && t in after.checks && 1 <= after.checks[t] < MAX_SETTLEMENT_CHECKS)
  }

  /** One market's way through a sync whose calls all succeed. */
  lemma SyncAt(cfg: Config, s: SyncState, r: Round, t: string)
    requires r.positions.Some? && r.settlements.Some? && Covers(s, r)
    ensures var ts, remote := s.account.At(t), r.Remote(t);
            var l, after := LineOf(s, t), LineOf(AfterSync(cfg, s, r), t);
            if Vanishes(cfg, ts, remote, t) then
              SameButEntry(after, LineResolved(l, Lookup(r.settlements.value, t)))
            else
              after.checks == l.checks && after.ts.position == DriftFixed(cfg, ts, remote, t, r.now).position
              && after.ts.lastFillEpoch == ts.lastFillEpoch && after.ts.realizedPnl == ts.realizedPnl
  {
    hide LineResolved, ResolveAll, AfterDrift, AfterBackfill, VanishedIn, Vanishes, BackfillDone;
    var drifted := SyncState(AfterDrift(cfg, s.account, r, r.order), s.checks);
    var vanished := VanishedIn(cfg, s.account, r, r.order);
    var resolved := ResolveAll(cfg, drifted, vanished, r.settlements.value);
    DriftAt(cfg, s.account, r, r.order, t);
    VanishedAt(cfg, s.account, r, r.order, t);
    ResolveAt(cfg, drifted, vanished, r.settlements.value, t);
    BackfillAt(cfg, resolved.account, r, r.backfillOrder, t);
    BackfillTwice(cfg, resolved.account.At(t), r, t);
    if Vanishes(cfg, s.account.At(t), r.Remote(t), t) {
      VanishingIsHeld(cfg, s.account.At(t), r.Remote(t), t, r.now);
    }
    ListedDrifts(cfg, s.account, r.Remote(t), t, r.now);
  }

  /** Listing a market first does not change what drift correction does. */
  lemma ListedDrifts(cfg: Config, a: Account, remote: int, t: string, now: real)
    ensures var x, y := DriftFixed(cfg, Listed(cfg, a, t), remote, t, now), DriftFixed(cfg, a.At(t), remote, t, now);
            x.position == y.position && x.lastFillEpoch == y.lastFillEpoch && x.realizedPnl == y.realizedPnl
            && y.lastFillEpoch == a.At(t).lastFillEpoch && y.realizedPnl == a.At(t).realizedPnl
    ensures t !in a.tickers && remote == 0 ==> DriftFixed(cfg, a.At(t), remote, t, now).position == 0
    ensures Vanishes(cfg, a.At(t), remote, t) ==> t in a.tickers
  {
  }

  predicate SameButEntry(x: Line, y: Line) {
    x.checks == y.checks && x.ts == y.ts.(entry := x.ts.entry)
  }

  lemma VanishingIsHeld(cfg: Config, ts: TickerState, remote: int, t: string, now: real)
    requires Vanishes(cfg, ts, remote, t)
    ensures ts.position != 0 && DriftFixed(cfg, ts, remote, t, now) == ts
  {
  }

  lemma VanishedStaysCounted(l: Line, result: Option<Option<bool>>)
    requires l.ts.position != 0
    ensures var after := LineResolved(l, result);
            || (after.ts.position == 0 && after.checks.None?)
            || (result.None? && after.ts == l.ts && after.checks == Some(l.checks.GetOr(0) + 1)
                && after.checks.value < MAX_SETTLEMENT_CHECKS)
    ensures LineResolved(l, result).ts.lastFillEpoch == l.ts.lastFillEpoch
  {
  }

  /** After one sync whose calls succeed, every market is reconciled. */
  lemma SyncReconciles(cfg: Config, s: SyncState, r: Round, t: string)
    requires r.positions.Some? && r.settlements.Some? && Covers(s, r)
    ensures Reconciled(cfg, s, AfterSync(cfg, s, r), r, t)
  {
    hide AfterSync, LineResolved;
    SyncAt(cfg, s, r, t);
    if Vanishes(cfg, s.account.At(t), r.Remote(t), t) {
      VanishedStaysCounted(LineOf(s, t), Lookup(r.settlements.value, t));
    }
  }

  /** One market before the backfill, whatever the API answered. */
  lemma ResolvedAt(cfg: Config, s: SyncState, r: Round, t: string)
    requires r.positions.Some? && Covers(s, r)
    ensures var ts, remote := s.account.At(t), r.Remote(t);
            var drifted := if t in r.order then DriftFixed(cfg, Listed(cfg, s.account, t), remote, t, r.now) else ts;
            LineOf(Resolved(cfg, s, r), t)
            == if Vanishes(cfg, ts, remote, t) && r.settlements.Some?
               then LineResolved(LineOf(s, t), Lookup(r.settlements.value, t)) else Line(drifted, LineOf(s, t).checks)
  {
    hide LineResolved, ResolveAll, AfterDrift, VanishedIn, DriftFixed, Vanishes;
    var drifted := SyncState(AfterDrift(cfg, s.account, r, r.order), s.checks);
    var vanished := VanishedIn(cfg, s.account, r, r.order);
    DriftAt(cfg, s.account, r, r.order, t);
    VanishedAt(cfg, s.account, r, r.order, t);
    if r.settlements.Some? {
      ResolveAt(cfg, drifted, vanished, r.settlements.value, t);
    }
    if Vanishes(cfg, s.account.At(t), r.Remote(t), t) {
      VanishingIsHeld(cfg, s.account.At(t), r.Remote(t), t, r.now);
      ListedDrifts(cfg, s.account, r.Remote(t), t, r.now);
    }
  }

  /** Held on a quoted market that the exchange no longer lists. */
  predicate Gone(cfg: Config, s: SyncState, r: Round, t: string) {
    s.account.At(t).position != 0 && r.Remote(t) == 0 && t in cfg.active
  }

  /** A vanished market is done with once its settlement is found, or on the
      fourth check without one. */
  predicate DoneWith(s: SyncState, r: Round, t: string) {
    r.settlements.Some? && (t in r.settlements.value || s.Checks(t) + 1 >= 4)
  }

  /** What any sync decides about a market. Unless it vanished, its position
      becomes the exchange's exactly when its last fill is at least ten seconds
      old, and is otherwise left alone. A vanished one is cleared when done
      with, and counted at most once per sync. */
  lemma SyncDecides(cfg: Config, s: SyncState, r: Round, t: string)
    requires r.positions.Some? && Covers(s, r)
    ensures var ts, remote, after := s.account.At(t), r.Remote(t), AfterSync(cfg, s, r);
            && after.account.At(t).position ==
                 (if Gone(cfg, s, r, t) then if DoneWith(s, r, t) then 0 else ts.position
                  else if r.now - ts.lastFillEpoch < 10.0 then ts.position else remote)
            && after.account.At(t).carried ==
                 (if Gone(cfg, s, r, t) then ts.carried && !(DoneWith(s, r, t) && t in r.settlements.value)
                  else ts.carried || (ts.position == 0 && remote != 0 && ts.lastFillEpoch == 0.0 && r.now >= 10.0))
            && after.account.At(t).lastFillEpoch == ts.lastFillEpoch
            && LineOf(after, t).checks ==
                 (if !Gone(cfg, s, r, t) || r.settlements.None? then LineOf(s, t).checks
                  else if DoneWith(s, r, t) then None else Some(s.Checks(t) + 1))
  {
    hide Resolved, AfterBackfill, BackfillDone, LineResolved, DriftFixed;
    ResolvedAt(cfg, s, r, t);
    BackfillAt(cfg, Resolved(cfg, s, r).account, r, r.backfillOrder, t);
    BackfillTwice(cfg, Resolved(cfg, s, r).account.At(t), r, t);
    if Gone(cfg, s, r, t) {
      if r.settlements.Some? {
        GoneIsResolved(LineOf(s, t), Lookup(r.settlements.value, t));
      }
      VanishingIsHeld(cfg, s.account.At(t), r.Remote(t), t, r.now);
      ListedDrifts(cfg, s.account, r.Remote(t), t, r.now);
    } else {
      ListedIsCorrected(cfg, s.account, r.Remote(t), t, r.now);
    }
  }

  lemma GoneIsResolved(l: Line, result: Option<Option<bool>>)
    requires l.ts.position != 0
    ensures var after, done := LineResolved(l, result), result.Some? || l.checks.GetOr(0) + 1 >= 4;
            && after.ts.position == (if done then 0 else l.ts.position)
            && after.ts.carried == (l.ts.carried && result.None?)
            && after.ts.lastFillEpoch == l.ts.lastFillEpoch
            && after.checks == if done then None else Some(l.checks.GetOr(0) + 1)
  {
    hide SettlementPnl;
  }

  lemma ListedIsCorrected(cfg: Config, a: Account, remote: int, t: string, now: real)
    requires !Vanishes(cfg, a.At(t), remote, t)
    ensures var ts, after := a.At(t), DriftFixed(cfg, Listed(cfg, a, t), remote, t, now);
            && after.position == (if now - ts.lastFillEpoch < 10.0 then ts.position else remote)
            && after.carried == (ts.carried || (ts.position == 0 && remote != 0 && ts.lastFillEpoch == 0.0 && now >= 10.0))
            && after.lastFillEpoch == ts.lastFillEpoch
  {
  }

  /** The fills poll and the sync do not race: a market filled less than ten
      seconds before the sync keeps the position its fills gave it. */
  lemma FreshFillSurvivesSync(cfg: Config, a: Account, checks: map<string, nat>, f: Fill, filled: real, r: Round)
    requires f.id !in a.seen.ids && r.now < filled + 10.0
    requires r.positions.Some? ==> Covers(SyncState(Step(cfg, a, Traded(f, filled)), checks), r)
    requires r.Remote(f.ticker) != 0 || f.ticker !in cfg.active
    ensures var s := SyncState(Step(cfg, a, Traded(f, filled)), checks);
            AfterSync(cfg, s, r).account.At(f.ticker).position == a.At(f.ticker).position + f.Signed()
  {
    hide Step, AfterSync, FoldEntryPrice, RealizedBy, Released, Covers;
    var s := SyncState(Step(cfg, a, Traded(f, filled)), checks);
    StepAt(cfg, a, Traded(f, filled), f.ticker);
    if r.positions.Some? {
      SyncDecides(cfg, s, r, f.ticker);
    } else {
      NoPositionsNoChange(cfg, s, r);
    }
  }

  /** A record that a sync creates carries its quoted category, or none. */
  lemma SyncedRecordsAreFiled(cfg: Config, s: SyncState, r: Round, t: string)
    requires r.positions.Some? && Covers(s, r) && t !in s.account.tickers && t in r.order
    ensures AfterSync(cfg, s, r).account.At(t).category == if t in cfg.active then cfg.active[t] else ""
  {
    hide Resolved, AfterBackfill, BackfillDone;
    ResolvedAt(cfg, s, r, t);
    BackfillAt(cfg, Resolved(cfg, s, r).account, r, r.backfillOrder, t);
    BackfillTwice(cfg, Resolved(cfg, s, r).account.At(t), r, t);
  }

  /** After a sync every quoted open market without a cost basis has asked its
      history for one, and kept it exactly when it lands on the position. */
  lemma SyncRestoresEntries(cfg: Config, s: SyncState, r: Round, t: string)
    requires r.positions.Some? && Walks(cfg, s, r)
    ensures var before, after := s.account.At(t), AfterSync(cfg, s, r).account.At(t);
            var kept := if Gone(cfg, s, r, t) && DoneWith(s, r, t) then None else before.entry;
            after.entry == if kept.None? && after.position != 0 && t in cfg.active && t in r.histories
                              && Replay(r.histories[t]).0 == after.position
                           then Replay(r.histories[t]).1 else kept
  {
    hide Resolved, AfterBackfill, Replay, Distinct;
    WalksCover(cfg, s, r);
    ResolvedAt(cfg, s, r, t);
    BackfillAt(cfg, Resolved(cfg, s, r).account, r, r.backfillOrder, t);
    if t in r.histories {
      ReplayIsCosted(r.histories[t]);
    }
  }

  /** The retry counters never leave 1 to 3, from an empty table onwards. */
  lemma SyncKeepsChecksBounded(cfg: Config, s: SyncState, r: Round)
    requires ChecksBounded(s) && (r.positions.Some? ==> Covers(s, r))
    ensures ChecksBounded(AfterSync(cfg, s, r))
  {
    hide AfterSync, LineResolved, Vanishes, DriftFixed;
    var after := AfterSync(cfg, s, r);
    forall t | t in after.checks
      ensures 1 <= after.checks[t] < MAX_SETTLEMENT_CHECKS
    {
      assert LineOf(after, t).checks == Some(after.checks[t]);
      if r.positions.None? || r.settlements.None? {
        UnresolvedChecks(cfg, s, r);
      } else {
        SyncAt(cfg, s, r, t);
        if Vanishes(cfg, s.account.At(t), r.Remote(t), t) {
          VanishingIsHeld(cfg, s.account.At(t), r.Remote(t), t, r.now);
          VanishedStaysCounted(LineOf(s, t), Lookup(r.settlements.value, t));
        }
      }
    }
  }

  lemma UnresolvedChecks(cfg: Config, s: SyncState, r: Round)
    requires r.positions.None? || r.settlements.None?
    ensures AfterSync(cfg, s, r).checks == s.checks
  {
    hide AfterDrift, AfterBackfill;
  }

  // --- PnL through a sync ---------------------------------------------------

  /** What a sync books for one market: the settlement of a vanished position
      whose record was found binary and whose cost is known. Nothing else. */
  function SyncPnl(cfg: Config, s: SyncState, r: Round, t: string): real {
    var ts := s.account.At(t);
    if r.positions.Some? && r.settlements.Some? && Vanishes(cfg, ts, r.Remote(t), t) && t in r.settlements.value then
      SettlementPnl(ts, r.settlements.value[t]).GetOr(0.0)
    else 0.0
  }

  /** One market's way through a sync that got no settlements. */
  lemma UnresolvedAt(cfg: Config, s: SyncState, r: Round, t: string)
    requires r.positions.Some? && r.settlements.None? && Distinct(r.order)
    requires forall u :: u in s.account.tickers && s.account.tickers[u].position != 0 ==> u in r.order
    ensures var ts, after := s.account.At(t), AfterSync(cfg, s, r).account.At(t);
            && after.lastFillEpoch == ts.lastFillEpoch && after.realizedPnl == ts.realizedPnl
            && (t in r.order ==> after.position == DriftFixed(cfg, ts, r.Remote(t), t, r.now).position)
            && (t !in r.order ==> after.position == ts.position)
    ensures AfterSync(cfg, s, r).checks == s.checks
  {
    hide AfterDrift, AfterBackfill, BackfillDone, DriftFixed;
    var drifted := AfterDrift(cfg, s.account, r, r.order);
    DriftAt(cfg, s.account, r, r.order, t);
    BackfillAt(cfg, drifted, r, r.backfillOrder, t);
    BackfillTwice(cfg, drifted.At(t), r, t);
    ListedDrifts(cfg, s.account, r.Remote(t), t, r.now);
  }

  /** Whatever the API answered, a sync changes a market's realized PnL by a
      found binary settlement of its vanished position and by nothing else;
      the position is then flat, and a flat market books nothing. */
  lemma SyncBooksOnlySettlements(cfg: Config, s: SyncState, r: Round, t: string)
    requires r.positions.Some? ==> Covers(s, r)
    ensures AfterSync(cfg, s, r).account.At(t).realizedPnl == s.account.At(t).realizedPnl + SyncPnl(cfg, s, r, t)
    ensures SyncPnl(cfg, s, r, t) != 0.0 ==> AfterSync(cfg, s, r).account.At(t).position == 0
    ensures s.account.At(t).position == 0 ==> SyncPnl(cfg, s, r, t) == 0.0
  {
    hide SettlementPnl, ResolveAll, AfterDrift, AfterBackfill;
    if r.positions.None? {
    } else if r.settlements.None? {
      UnresolvedAt(cfg, s, r, t);
    } else {
      SyncAt(cfg, s, r, t);
    }
  }

  /** The sync's PnL over every market either account knows. */
  ghost function SyncPnlMap(cfg: Config, s: SyncState, r: Round): map<string, real> {
    map t | t in s.account.tickers.Keys + AfterSync(cfg, s, r).account.tickers.Keys :: SyncPnl(cfg, s, r, t)
  }

  lemma RealizedOver(a: Account, keys: set<string>)
    requires a.tickers.Keys <= keys
    ensures Total(map t | t in keys :: a.At(t).realizedPnl) == Total(RealizedMap(a.tickers))
  {
    TotalIgnoresZeros(RealizedMap(a.tickers), map t | t in keys :: a.At(t).realizedPnl);
  }

  /** Account PnL moves through a sync by exactly the settlements it booked,
      whatever the API answered. */
  lemma SyncMovesAccountBySettlements(cfg: Config, s: SyncState, r: Round)
    requires Balanced(s.account) && (r.positions.Some? ==> Covers(s, r))
    ensures AfterSync(cfg, s, r).account.cumulativePnl
         == s.account.cumulativePnl + Total(SyncPnlMap(cfg, s, r))
  {
    hide AfterSync, SyncPnl, Covers;
    var after := AfterSync(cfg, s, r).account;
    var keys := s.account.tickers.Keys + after.tickers.Keys;
    SyncBalances(cfg, s, r);
    RealizedOver(s.account, keys);
    RealizedOver(after, keys);
    forall t | t in keys
      ensures after.At(t).realizedPnl == s.account.At(t).realizedPnl + SyncPnl(cfg, s, r, t)
    {
      SyncBooksOnlySettlements(cfg, s, r, t);
    }
    TotalOfSum(map t | t in keys :: s.account.At(t).realizedPnl, SyncPnlMap(cfg, s, r),
               map t | t in keys :: after.At(t).realizedPnl);
  }

  lemma EditBalances(a: Account, t: string, ts: TickerState)
    requires Balanced(a) && ts.realizedPnl == a.At(t).realizedPnl
    ensures Balanced(a.(tickers := a.tickers[t := ts]))
  {
    RealizedMapUpdate(a.tickers, t, ts);
  }

  lemma {:induction false} DriftBalances(cfg: Config, a: Account, r: Round, order: seq<string>)
    requires Balanced(a)
    ensures Balanced(AfterDrift(cfg, a, r, order)) && AfterDrift(cfg, a, r, order).feesPaid == a.feesPaid
  {
    hide Balanced;
    if order == [] {
    } else {
      var t := order[|order| - 1];
      var mid := AfterDrift(cfg, a, r, order[..|order| - 1]);
      DriftBalances(cfg, a, r, order[..|order| - 1]);
      var listed := WithTicker(mid, t, ActiveCategory(cfg, t));
      EditBalances(mid, t, listed.tickers[t]);
      assert listed == if t in mid.tickers then mid else mid.(tickers := mid.tickers[t := listed.tickers[t]]);
      EditBalances(listed, t, DriftFixed(cfg, listed.tickers[t], r.Remote(t), t, r.now));
    }
  }

  lemma ResolveOneBalances(cfg: Config, s: SyncState, t: string, settled: map<string, Option<bool>>)
    requires Balanced(s.account)
    ensures Balanced(ResolveOne(cfg, s, t, settled).account)
    ensures ResolveOne(cfg, s, t, settled).account.feesPaid == s.account.feesPaid
  {
    if t in settled {
      StepBalances(cfg, s.account, Settled(t, settled[t]));
      SettleKeepsFees(cfg, s.account, t, settled[t]);
    }
    EditBalances(s.account, t, Zeroed(s.account.At(t)));
  }

  lemma SettleKeepsFees(cfg: Config, a: Account, t: string, result: Option<bool>)
    ensures AfterSettle(cfg, a, t, result).feesPaid == a.feesPaid
  {
    hide SettlementPnl, SettledTicker;
  }

  lemma {:induction false} ResolveBalances(cfg: Config, s: SyncState, ts: seq<string>, settled: map<string, Option<bool>>)
    requires Balanced(s.account)
    ensures Balanced(ResolveAll(cfg, s, ts, settled).account)
    ensures ResolveAll(cfg, s, ts, settled).account.feesPaid == s.account.feesPaid
  {
    hide Balanced, ResolveOne;
    if ts == [] {
    } else {
      ResolveBalances(cfg, s, ts[..|ts| - 1], settled);
      ResolveOneBalances(cfg, ResolveAll(cfg, s, ts[..|ts| - 1], settled), ts[|ts| - 1], settled);
    }
  }

  lemma {:induction false} BackfillBalances(cfg: Config, a: Account, r: Round, order: seq<string>)
    requires Balanced(a)
    ensures Balanced(AfterBackfill(cfg, a, r, order)) && AfterBackfill(cfg, a, r, order).feesPaid == a.feesPaid
  {
    hide Balanced, Replay;
    if order == [] {
    } else {
      var t := order[|order| - 1];
      var mid := AfterBackfill(cfg, a, r, order[..|order| - 1]);
      BackfillBalances(cfg, a, r, order[..|order| - 1]);
      if t in mid.tickers && t in r.histories {
        EditBalances(mid, t, Backfilled(mid.tickers[t], r.histories[t]));
      }
    }
  }

  /** Sync keeps the account in balance and charges no fee, whatever the API
      answered; so account PnL moves by exactly what the markets booked. */
  lemma SyncBalances(cfg: Config, s: SyncState, r: Round)
    requires Balanced(s.account)
    ensures Balanced(AfterSync(cfg, s, r).account)
    ensures AfterSync(cfg, s, r).account.feesPaid == s.account.feesPaid
  {
    hide Balanced, AfterDrift, AfterBackfill, ResolveAll, VanishedIn;
    DriftBalances(cfg, s.account, r, r.order);
    var drifted := SyncState(AfterDrift(cfg, s.account, r, r.order), s.checks);
    var vanished := VanishedIn(cfg, s.account, r, r.order);
    if r.settlements.Some? {
      ResolveBalances(cfg, drifted, vanished, r.settlements.value);
      BackfillBalances(cfg, ResolveAll(cfg, drifted, vanished, r.settlements.value).account, r, r.backfillOrder);
    } else {
      BackfillBalances(cfg, drifted.account, r, r.backfillOrder);
    }
  }

  // --- whole runs -----------------------------------------------------------

  /** What happens around a market: syncs, good or failed, and other events. */
  datatype Happening = Synced(r: Round) | Elsewhere(e: Event)

  function AfterHappening(cfg: Config, s: SyncState, h: Happening): SyncState {
    match h
    case Synced(r) => AfterSync(cfg, s, r)
    case Elsewhere(e) => s.(account := Step(cfg, s.account, e))
  }

  function SyncRun(cfg: Config, s: SyncState, hs: seq<Happening>): SyncState {
    if hs == [] then s else AfterHappening(cfg, SyncRun(cfg, s, hs[..|hs| - 1]), hs[|hs| - 1])
  }

  predicate Succeeds(h: Happening) { h.Synced? && h.r.positions.Some? && h.r.settlements.Some? }

  /** Syncs whose calls all succeeded. */
  function Successes(hs: seq<Happening>): nat {
    if hs == [] then 0 else Successes(hs[..|hs| - 1]) + if Succeeds(hs[|hs| - 1]) then 1 else 0
  }

  /** `t` is missing from the exchange, and no event is about `t`. */
  ghost predicate LeavesVanished(s: SyncState, h: Happening, t: string) {
    match h
    case Synced(r) => r.Remote(t) == 0 && (r.positions.Some? ==> Covers(s, r))
    case Elsewhere(e) => !(e.Traded? && e.fill.ticker == t) && !(e.Settled? && e.ticker == t)
  }

  ghost predicate StaysVanished(cfg: Config, s: SyncState, hs: seq<Happening>, t: string) {
    t in cfg.active && forall k :: 0 <= k < |hs| ==> LeavesVanished(SyncRun(cfg, s, hs[..k]), hs[k], t)
  }

  /** One happening: the vanished position is resolved, or counted once more,
      or, if the happening is no successful sync, left as it was. */
  lemma VanishedStep(cfg: Config, s: SyncState, h: Happening, t: string)
    requires ChecksBounded(s) && t in cfg.active && LeavesVanished(s, h, t)
    ensures var after := AfterHappening(cfg, s, h);
            && ChecksBounded(after)
            && (s.account.At(t).position == 0 ==> after.account.At(t).position == 0)
            && (after.account.At(t).position == 0 || after.Checks(t) >= s.Checks(t) + if Succeeds(h) then 1 else 0)
  {
    hide AfterSync, LineResolved, Step;
    match h
    case Elsewhere(e) =>
      StepAt(cfg, s.account, e, t);
    case Synced(r) =>
      SyncKeepsChecksBounded(cfg, s, r);
      if r.positions.None? {
        NoPositionsNoChange(cfg, s, r);
      } else if r.settlements.None? {
        UnresolvedAt(cfg, s, r, t);
      } else {
        SyncAt(cfg, s, r, t);
        if s.account.At(t).position != 0 {
          VanishedStaysCounted(LineOf(s, t), Lookup(r.settlements.value, t));
        }
      }
  }

  lemma NoPositionsNoChange(cfg: Config, s: SyncState, r: Round)
    requires r.positions.None?
    ensures AfterSync(cfg, s, r) == s
  {
  }

  lemma {:induction false} VanishedIsFlatOrCounted(cfg: Config, s: SyncState, hs: seq<Happening>, t: string)
    requires ChecksBounded(s) && StaysVanished(cfg, s, hs, t)
    ensures ChecksBounded(SyncRun(cfg, s, hs))
    ensures var after := SyncRun(cfg, s, hs);
            after.account.At(t).position == 0 || after.Checks(t) >= Successes(hs)
  {
    hide AfterHappening, LeavesVanished;
    if hs == [] {
    } else {
      var before, h := hs[..|hs| - 1], hs[|hs| - 1];
      assert forall k :: 0 <= k < |before| ==> before[..k] == hs[..k];
      VanishedIsFlatOrCounted(cfg, s, before, t);
      assert LeavesVanished(SyncRun(cfg, s, hs[..|hs| - 1]), hs[|hs| - 1], t);
      VanishedStep(cfg, SyncRun(cfg, s, before), h, t);
    }
  }

  /** A position that stays vanished is resolved by the fourth successful sync,
      whatever failed syncs and other markets' events come between. */
  lemma VanishedIsFlatWithinFourSyncs(cfg: Config, s: SyncState, hs: seq<Happening>, t: string)
    requires ChecksBounded(s) && StaysVanished(cfg, s, hs, t) && Successes(hs) >= MAX_SETTLEMENT_CHECKS
    ensures SyncRun(cfg, s, hs).account.At(t).position == 0
  {
    hide SyncRun, StaysVanished, Successes;
    VanishedIsFlatOrCounted(cfg, s, hs, t);
  }

  // --- the sync at boot -----------------------------------------------------

  /** A process that has traded nothing yet: its listed markets may carry
      details fetched at boot (book, tick, close time), but no inventory. */
  predicate Booted(a: Account) {
    forall t :: t in a.tickers ==>
      a.tickers[t].position == 0 && a.tickers[t].entry.None? && a.tickers[t].lastFillEpoch == 0.0
  }

  /** At boot nothing is held, so nothing vanishes and nothing is resolved. */
  lemma BootResolvedAt(cfg: Config, a: Account, checks: map<string, nat>, r: Round, t: string)
    requires Booted(a) && r.positions.Some? && Covers(SyncState(a, checks), r)
    ensures var b := Resolved(cfg, SyncState(a, checks), r).account;
            && b.At(t) == (if t in r.order then DriftFixed(cfg, Listed(cfg, a, t), r.Remote(t), t, r.now) else a.At(t))
            && (t in r.order ==> t in b.tickers)
  {
    hide AfterDrift, VanishedIn, ResolveAll, LineResolved, DriftFixed;
    var drifted := SyncState(AfterDrift(cfg, a, r, r.order), checks);
    var vanished := VanishedIn(cfg, a, r, r.order);
    DriftAt(cfg, a, r, r.order, t);
    VanishedAt(cfg, a, r, r.order, t);
    if r.settlements.Some? {
      ResolveAt(cfg, drifted, vanished, r.settlements.value, t);
      if t in r.order {
        ResolveKeepsListed(cfg, drifted, vanished, r.settlements.value, t);
      }
    }
  }

  /** After the boot-time sync every market holds the exchange's position,
      marked as carried; its entry is what its history replays to, when the
      market is quoted, its history was read and it lands on the position. */
  lemma BootSyncAt(cfg: Config, a: Account, checks: map<string, nat>, r: Round, t: string)
    requires Booted(a) && r.positions.Some? && r.now >= 10.0 && Walks(cfg, SyncState(a, checks), r)
    ensures var b := AfterSync(cfg, SyncState(a, checks), r).account;
            var restored := t in cfg.active && t in r.histories && Replay(r.histories[t]).0 == r.Remote(t);
            && b.At(t).position == r.Remote(t)
            && b.At(t).entry == (if r.Remote(t) != 0 && restored then Replay(r.histories[t]).1 else None)
            && (r.Remote(t) != 0 ==> t in b.tickers && b.At(t).carried && b.At(t).category == Listed(cfg, a, t).category)
  {
    hide AfterBackfill, Resolved, Replay, Distinct;
    var s := SyncState(a, checks);
    WalksCover(cfg, s, r);
    BootResolvedAt(cfg, a, checks, r, t);
    BackfillAt(cfg, Resolved(cfg, s, r).account, r, r.backfillOrder, t);
    if t in r.histories {
      ReplayIsCosted(r.histories[t]);
    }
  }

  lemma {:induction false} ResolveKeepsListed(cfg: Config, s: SyncState, ts: seq<string>,
                                              settled: map<string, Option<bool>>, t: string)
    requires t in s.account.tickers
    ensures t in ResolveAll(cfg, s, ts, settled).account.tickers
  {
    hide SettledTicker, SettlementPnl;
    if ts == [] {
    } else {
      ResolveKeepsListed(cfg, s, ts[..|ts| - 1], settled, t);
    }
  }

  lemma {:induction false} ResolveKeepsSeen(cfg: Config, s: SyncState, ts: seq<string>, settled: map<string, Option<bool>>)
    ensures ResolveAll(cfg, s, ts, settled).account.seen == s.account.seen
  {
    hide SettledTicker, SettlementPnl;
    if ts == [] {
    } else {
      ResolveKeepsSeen(cfg, s, ts[..|ts| - 1], settled);
    }
  }

  /** Sync never touches the fill-id dedupe. */
  lemma SyncKeepsSeen(cfg: Config, s: SyncState, r: Round)
    requires Distinct(r.order)
    ensures AfterSync(cfg, s, r).account.seen == s.account.seen
  {
    hide AfterDrift, VanishedIn, ResolveAll, AfterBackfill;
    if r.positions.Some? {
      DriftAt(cfg, s.account, r, r.order, "");
      var drifted := SyncState(AfterDrift(cfg, s.account, r, r.order), s.checks);
      var vanished := VanishedIn(cfg, s.account, r, r.order);
      if r.settlements.Some? {
        ResolveKeepsSeen(cfg, drifted, vanished, r.settlements.value);
        BackfillAt(cfg, ResolveAll(cfg, drifted, vanished, r.settlements.value).account, r, r.backfillOrder, "");
      } else {
        BackfillAt(cfg, drifted.account, r, r.backfillOrder, "");
      }
    }
  }
}
