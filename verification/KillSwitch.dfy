/** The per-category kill switch (src/state.rs, src/main.rs) against the
    history of closes it is meant to read. */
module KillSwitch {
  import opened Numbers
  import opened Ledger
  import opened Processing
  import DedupeLaws
  import opened Sync

  /** What one event means to the switch. */
  datatype Mark =
    | Trade(category: string, realized: real, exempt: bool)
    | Expiry(category: string, realized: real)
    | Roll
    | Nothing

  function MarkOf(cfg: Config, a: Account, e: Event): Mark {
    match e
    case Traded(f, _) =>
      if f.id in a.seen.ids then Nothing
      else
        var ts := if f.ticker in a.tickers then a.tickers[f.ticker] else NewTicker(CategoryOf(cfg, f.ticker));
        Trade(ts.category, RealizedBy(ts, f), ts.carried)
    case Settled(t, result) =>
      var pnl := SettlementPnl(a.At(t), result);
      if pnl.None? then Nothing else Expiry(a.At(t).category, pnl.value)
    case DayRolled(_) => Roll
  }

  function Marks(cfg: Config, a: Account, es: seq<Event>): seq<Mark> {
    if es == [] then []
    else
      var before := es[..|es| - 1];
      Marks(cfg, a, before) + [MarkOf(cfg, Run(cfg, a, before), es[|es| - 1])]
  }

  /** Losing non-exempt closes since the last winning one or the last roll. */
  function TrailingLosses(ms: seq<Mark>, c: string): nat {
    if ms == [] then 0
    else
      var m, before := ms[|ms| - 1], ms[..|ms| - 1];
      match m
      case Roll => 0
      case Trade(k, realized, false) =>
        if k != c || realized == 0.0 then TrailingLosses(before, c)
        else if realized > 0.0 then 0
        else TrailingLosses(before, c) + 1
      case _ => TrailingLosses(before, c)
  }

  /** Some fill in the category since the last roll ended with the streak at
      the limit. */
  ghost predicate Tripped(limit: nat, ms: seq<Mark>, c: string) {
    limit > 0 && exists k :: TrippedAt(limit, ms, c, k)
  }

  predicate TrippedAt(limit: nat, ms: seq<Mark>, c: string, k: int) {
    0 < k <= |ms| && ms[k - 1].Trade? && ms[k - 1].category == c
    && TrailingLosses(ms[..k], c) >= limit
    && forall j :: k <= j < |ms| ==> !ms[j].Roll?
  }

  /** Every record carries the category a fill would derive for it. */
  predicate Agrees(cfg: Config, a: Account) {
    forall t :: t in a.tickers ==> a.tickers[t].category == CategoryOf(cfg, t)
  }

  lemma TrippedStep(limit: nat, ms: seq<Mark>, m: Mark, c: string)
    ensures Tripped(limit, ms + [m], c) <==>
              (limit > 0 && m.Trade? && m.category == c && TrailingLosses(ms + [m], c) >= limit)
              || (!m.Roll? && Tripped(limit, ms, c))
  {
    var all := ms + [m];
    assert all[..|all|] == all;
    forall k | 0 < k <= |ms|
      ensures TrippedAt(limit, all, c, k) <==> TrippedAt(limit, ms, c, k) && !m.Roll?
    {
      assert all[..k] == ms[..k];
      assert all[|ms|] == m;
      assert forall j :: k <= j < |ms| ==> all[j] == ms[j];
      if TrippedAt(limit, all, c, k) {
        assert !all[|ms|].Roll?;
        assert forall j :: k <= j < |ms| ==> !all[j].Roll?;
      }
    }
    if m.Trade? && m.category == c && TrailingLosses(all, c) >= limit {
      assert TrippedAt(limit, all, c, |all|);
    }
    if Tripped(limit, ms, c) && !m.Roll? {
      var k :| TrippedAt(limit, ms, c, k);
      assert TrippedAt(limit, all, c, k);
    }
    if Tripped(limit, all, c) {
      var k :| TrippedAt(limit, all, c, k);
      assert k <= |ms| ==> TrippedAt(limit, ms, c, k);
    }
  }

  /** A streak at the limit has tripped the switch already, so the check a
      settlement triggers can never be the one that halts. */
  lemma {:induction false} StreakAtLimitHasTripped(limit: nat, ms: seq<Mark>, c: string)
    requires limit > 0 && TrailingLosses(ms, c) >= limit
    ensures Tripped(limit, ms, c)
  {
    if ms == [] {
    } else {
      var before, m := ms[..|ms| - 1], ms[|ms| - 1];
      assert ms == before + [m];
      TrippedStep(limit, before, m, c);
      if TrailingLosses(before, c) >= limit {
        StreakAtLimitHasTripped(limit, before, c);
      }
    }
  }

  lemma TrailingLossesStep(ms: seq<Mark>, m: Mark, c: string)
    ensures TrailingLosses(ms + [m], c) == StreakAfter(TrailingLosses(ms, c), m, c)
  {
    assert (ms + [m])[..|ms + [m]| - 1] == ms;
  }

  function StreakAfter(streak: nat, m: Mark, c: string): nat {
    if m.Roll? then 0
    else if m.Trade? && !m.exempt && m.category == c && m.realized != 0.0 then
      (if m.realized > 0.0 then 0 else streak + 1)
    else streak
  }

  predicate HaltedAfter(cfg: Config, a: Account, e: Event, c: string) {
    var m := MarkOf(cfg, a, e);
    !m.Roll?
    && (c in a.halted
        || (cfg.haltLimit > 0 && StreakAfter(a.Streak(c), m, c) >= cfg.haltLimit
            && ((m.Trade? && m.category == c) || (m.Expiry? && c == EnforcedBySettlement(cfg, e)))))
  }

  lemma StepAgrees(cfg: Config, a: Account, e: Event)
    requires Agrees(cfg, a)
    ensures Agrees(cfg, Step(cfg, a, e))
  {
    hide Step;
    forall t | t in Step(cfg, a, e).tickers
      ensures Step(cfg, a, e).tickers[t].category == CategoryOf(cfg, t)
    {
      StepAt(cfg, a, e, t);
    }
  }

  /** How an accepted fill moves streaks and halts: it feeds the streak of the
      record's category and checks the one of the derived category. */
  lemma TradeSwitch(cfg: Config, a: Account, f: Fill, now: real, c: string)
    requires f.id !in a.seen.ids
    ensures var streak := StreakAfter(a.Streak(c), MarkOf(cfg, a, Traded(f, now)), c);
            var b := Step(cfg, a, Traded(f, now));
            && b.Streak(c) == streak
            && (c in b.halted <==>
                  c in a.halted || (cfg.haltLimit > 0 && c == CategoryOf(cfg, f.ticker) && streak >= cfg.haltLimit))
  {
    hide RealizedBy, FeeOf, AfterSeen, CategoryOf, AfterFill;
    var seen := a.(seen := AfterSeen(a.seen, FILL_ID_CAP, f.id));
    FillSwitch(WithTicker(seen, f.ticker, CategoryOf(cfg, f.ticker)), f, FeeOf(cfg, f), now, c);
  }

  lemma FillSwitch(a: Account, f: Fill, fee: real, now: real, c: string)
    requires f.ticker in a.tickers
    ensures var ts, b := a.tickers[f.ticker], AfterFill(a, f, fee, now);
            && b.Streak(c) == StreakAfter(a.Streak(c), Trade(ts.category, RealizedBy(ts, f), ts.carried), c)
            && b.halted == a.halted
  {
    hide RealizedBy, FilledTicker;
  }

  /** The streaks follow the marks, whatever categories the records carry. */
  lemma StepStreak(cfg: Config, a: Account, e: Event, c: string)
    ensures Step(cfg, a, e).Streak(c) == StreakAfter(a.Streak(c), MarkOf(cfg, a, e), c)
  {
    hide RealizedBy, SettlementPnl, AfterAccepted, SettledTicker, SeriesOf;
    match e
    case Traded(f, now) =>
      if f.id !in a.seen.ids {
        TradeSwitch(cfg, a, f, now, c);
      }
    case Settled(_, _) =>
    case DayRolled(_) =>
  }

  /** How one event moves the halts. */
  lemma StepSwitch(cfg: Config, a: Account, e: Event, c: string)
    requires Agrees(cfg, a)
    ensures c in Step(cfg, a, e).halted <==> HaltedAfter(cfg, a, e, c)
  {
    hide RealizedBy, SettlementPnl, AfterAccepted, SettledTicker, SeriesOf;
    match e
    case Traded(f, now) =>
      if f.id !in a.seen.ids {
        TradeSwitch(cfg, a, f, now, c);
      }
    case Settled(_, _) =>
    case DayRolled(_) =>
  }

  function EnforcedBySettlement(cfg: Config, e: Event): string {
    if e.Settled? && e.ticker in cfg.active then cfg.active[e.ticker] else ""
  }

  /** The switch is a function of its history: the streak is the trailing run
      of losing closes, and a category is halted exactly when some fill since
      the last roll left the streak at the limit. */
  lemma {:induction false} SwitchEqualsItsHistory(cfg: Config, a: Account, es: seq<Event>, c: string)
    requires Agrees(cfg, a) && a.streaks == map[] && a.halted == {}
    ensures Agrees(cfg, Run(cfg, a, es))
    ensures Run(cfg, a, es).Streak(c) == TrailingLosses(Marks(cfg, a, es), c)
    ensures c in Run(cfg, a, es).halted <==> Tripped(cfg.haltLimit, Marks(cfg, a, es), c)
  {
    hide Step, MarkOf;
    if es == [] {
    } else {
      var before, e := es[..|es| - 1], es[|es| - 1];
      SwitchEqualsItsHistory(cfg, a, before, c);
      var mid, ms := Run(cfg, a, before), Marks(cfg, a, before);
      var m := MarkOf(cfg, mid, e);
      StepAgrees(cfg, mid, e);
      StepStreak(cfg, mid, e, c);
      StepSwitch(cfg, mid, e, c);
      TrailingLossesStep(ms, m, c);
      TrippedStep(cfg.haltLimit, ms, m, c);
      if cfg.haltLimit > 0 && TrailingLosses(ms, c) >= cfg.haltLimit {
        StreakAtLimitHasTripped(cfg.haltLimit, ms, c);
      }
    }
  }

  /** So a settlement never halts anything: the check it triggers finds no
      streak at the limit that is not halted already. */
  lemma SettlementNeverHalts(cfg: Config, a: Account, es: seq<Event>, t: string, result: Option<bool>)
    requires Agrees(cfg, a) && a.streaks == map[] && a.halted == {}
    ensures Run(cfg, a, es + [Settled(t, result)]).halted == Run(cfg, a, es).halted
  {
    hide Step, Marks;
    var all, mid, e := es + [Settled(t, result)], Run(cfg, a, es), Settled(t, result);
    assert all[..|all| - 1] == es;
    forall c
      ensures c in Step(cfg, mid, e).halted <==> c in mid.halted
    {
      SwitchEqualsItsHistory(cfg, a, es, c);
      StepStreak(cfg, mid, e, c);
      StepSwitch(cfg, mid, e, c);
      if cfg.haltLimit > 0 && mid.Streak(c) >= cfg.haltLimit {
        StreakAtLimitHasTripped(cfg.haltLimit, Marks(cfg, a, es), c);
      }
    }
  }

  // --- where the switch is blind --------------------------------------------

  /** A losing close feeds the streak that its fill goes on to check exactly
      when the market's record carries the category derived for the fill and
      the position is not inherited. */
  lemma LossIsCheckedIffCategoriesAgree(cfg: Config, a: Account, f: Fill, now: real)
    requires f.id !in a.seen.ids && f.ticker in a.tickers
    requires RealizedBy(a.tickers[f.ticker], f) < 0.0
    ensures var c, ts := CategoryOf(cfg, f.ticker), a.tickers[f.ticker];
            AfterProcess(cfg, a, f, now).Streak(c) == a.Streak(c) + 1 <==> ts.category == c && !ts.carried
  {
    hide RealizedBy;
    TradeSwitch(cfg, a, f, now, CategoryOf(cfg, f.ticker));
  }

  predicate About(e: Event, t: string) { (e.Traded? && e.fill.ticker == t) || (e.Settled? && e.ticker == t) }

  /** The marks of every event that is not about `t`. */
  function MarksBesides(cfg: Config, a: Account, es: seq<Event>, t: string): seq<Mark> {
    if es == [] then []
    else
      var before, e := es[..|es| - 1], es[|es| - 1];
      MarksBesides(cfg, a, before, t) + if About(e, t) then [] else [MarkOf(cfg, Run(cfg, a, before), e)]
  }

  predicate Mismatched(cfg: Config, a: Account, t: string) {
    t in a.tickers && a.tickers[t].category != CategoryOf(cfg, t)
  }

  /** Through any run, a market whose record carries another category than its
      fills derive stays so, and none of its closes ever moves the streak that
      its fills check: that streak is the one of all other markets. */
  lemma {:induction false} MismatchedMarketIsUnseen(cfg: Config, a: Account, es: seq<Event>, t: string)
    requires Mismatched(cfg, a, t) && a.streaks == map[]
    ensures Mismatched(cfg, Run(cfg, a, es), t)
    ensures Run(cfg, a, es).Streak(CategoryOf(cfg, t))
         == TrailingLosses(MarksBesides(cfg, a, es, t), CategoryOf(cfg, t))
  {
    hide Step, MarkOf, CategoryOf, TrailingLosses;
    var c := CategoryOf(cfg, t);
    if es == [] {
      NothingTrails(c);
    } else {
      var before, e := es[..|es| - 1], es[|es| - 1];
      MismatchedMarketIsUnseen(cfg, a, before, t);
      var mid, ms := Run(cfg, a, before), MarksBesides(cfg, a, before, t);
      MismatchedStep(cfg, mid, e, t);
      StepStreak(cfg, mid, e, c);
      TrailingLossesStep(ms, MarkOf(cfg, mid, e), c);
      assert ms + [] == ms;
    }
  }

  lemma NothingTrails(c: string)
    ensures TrailingLosses([], c) == 0
  {
  }

  lemma MismatchedStep(cfg: Config, a: Account, e: Event, t: string)
    requires Mismatched(cfg, a, t)
    ensures Mismatched(cfg, Step(cfg, a, e), t)
    ensures About(e, t) ==> StreakAfter(a.Streak(CategoryOf(cfg, t)), MarkOf(cfg, a, e), CategoryOf(cfg, t))
                            == a.Streak(CategoryOf(cfg, t))
  {
    hide Step, CategoryOf, RealizedBy, SettlementPnl, FoldEntryPrice;
    StepAt(cfg, a, e, t);
  }

  function OneLot(id: string, t: string, longYes: bool, price: real): Fill {
    Fill(id, t, longYes, price, 1, false, None)
  }

  /** A long inherited in a market outside the universe is sold, one lot is
      bought at 50 cents and sold at 40. */
  function BlindRun(t: string): seq<Event> {
    [Traded(OneLot("1", t, false, 0.5), 0.0), Traded(OneLot("2", t, true, 0.5), 0.0),
     Traded(OneLot("3", t, false, 0.4), 0.0)]
  }

  function SyncedLong(cfg: Config, t: string): Account {
    AfterSync(cfg, SyncState(FreshAccount(0.0), map[]), Round(10.0, Some(map[t := 1]), None, map[], [t], [])).account
  }

  lemma SyncedLongIsMismatched(cfg: Config, t: string)
    requires t !in cfg.active
    ensures var a := SyncedLong(cfg, t);
            && t in a.tickers && a.At(t).position == 1 && a.At(t).category == "" && a.At(t).carried
            && a.At(t).entry.None? && a == FreshAccount(0.0).(tickers := a.tickers)
  {
    hide AfterDrift, AfterBackfill;
    var a, r := FreshAccount(0.0), Round(10.0, Some(map[t := 1]), None, map[], [t], []);
    forall u
      ensures !NeedsBackfill(cfg, Resolved(cfg, SyncState(a, map[]), r).account.At(u), u)
    {
      BootResolvedAt(cfg, a, map[], r, u);
    }
    DriftAt(cfg, a, r, r.order, t);
    BackfillAt(cfg, AfterDrift(cfg, a, r, r.order), r, r.backfillOrder, t);
    BootSyncAt(cfg, a, map[], r, t);
  }

  /** An accepted fill of a market outside the universe whose record carries
      no category. */
  lemma UnseenFill(cfg: Config, a: Account, f: Fill, now: real)
    requires Mismatched(cfg, a, f.ticker) && a.tickers[f.ticker].category == "" && f.id !in a.seen.ids
    requires !a.tickers[f.ticker].carried || RealizedBy(a.tickers[f.ticker], f) == 0.0
    requires a.halted == {} && a.Streak(CategoryOf(cfg, f.ticker)) == 0 && |a.seen.fifo| < FILL_ID_CAP
    ensures var b, realized := Step(cfg, a, Traded(f, now)), RealizedBy(a.tickers[f.ticker], f);
            && Mismatched(cfg, b, f.ticker) && b.tickers[f.ticker] == FilledTicker(a.tickers[f.ticker], f, now)
            && b.halted == {} && b.Streak(CategoryOf(cfg, f.ticker)) == 0
            && b.Streak("") == (if realized < 0.0 then a.Streak("") + 1 else if realized > 0.0 then 0 else a.Streak(""))
            && b.losses == a.losses + (if realized < 0.0 then 1 else 0)
            && b.seen.ids == a.seen.ids + {f.id} && |b.seen.fifo| == |a.seen.fifo| + 1
  {
    hide Step, RealizedBy, FilledTicker, CategoryOf;
    var e := Traded(f, now);
    StepAt(cfg, a, e, f.ticker);
    MismatchedStep(cfg, a, e, f.ticker);
    StepTallies(cfg, a, e);
    StepStreak(cfg, a, e, "");
    forall c
      ensures c !in Step(cfg, a, e).halted
    {
      TradeSwitch(cfg, a, f, now, c);
    }
    StepStreak(cfg, a, e, CategoryOf(cfg, f.ticker));
    DedupeLaws.StepSeen(cfg, a, e);
  }

  /** Sync is what creates such records. Here it does, the inherited position
      is flattened, and a new one closes at a loss: the loss is booked, but on
      a streak nobody checks, and even a limit of one loss halts nothing. */
  lemma LossAfterSyncGoesUnchecked(cfg: Config, t: string)
    requires t !in cfg.active && SeriesOf(t) != "" && cfg.haltLimit == 1
    ensures var a := Run(cfg, SyncedLong(cfg, t), BlindRun(t));
            && a.losses == 1 && a.Streak("") == 1 && a.Streak(CategoryOf(cfg, t)) == 0 && a.halted == {}
  {
    hide Step, SeriesOf, SyncedLong;
    var a, es := SyncedLong(cfg, t), BlindRun(t);
    SyncedLongIsMismatched(cfg, t);
    UnseenFill(cfg, a, es[0].fill, 0.0);
    var b := Step(cfg, a, es[0]);
    UnseenFill(cfg, b, es[1].fill, 0.0);
    var c := Step(cfg, b, es[1]);
    UnseenFill(cfg, c, es[2].fill, 0.0);
    RunOfThree(cfg, a, es);
  }

  lemma RunOfThree(cfg: Config, a: Account, es: seq<Event>)
    requires |es| == 3
    ensures Run(cfg, a, es) == Step(cfg, Step(cfg, Step(cfg, a, es[0]), es[1]), es[2])
  {
    hide Step;
    assert es[..2][..1] == es[..1] && es[..1][..0] == [];
    assert Run(cfg, a, es[..1]) == Step(cfg, a, es[0]);
    assert Run(cfg, a, es[..2]) == Step(cfg, Run(cfg, a, es[..1]), es[1]);
  }

  // --- tallies and the carried era ------------------------------------------

  predicate IsClose(m: Mark, winning: bool) {
    (m.Trade? || m.Expiry?) && if winning then m.realized > 0.0 else m.realized < 0.0
  }

  function Closes(ms: seq<Mark>, winning: bool): nat {
    if ms == [] then 0
    else Closes(ms[..|ms| - 1], winning) + if IsClose(ms[|ms| - 1], winning) then 1 else 0
  }

  lemma StepTallies(cfg: Config, a: Account, e: Event)
    ensures Step(cfg, a, e).wins == a.wins + if IsClose(MarkOf(cfg, a, e), true) then 1 else 0
    ensures Step(cfg, a, e).losses == a.losses + if IsClose(MarkOf(cfg, a, e), false) then 1 else 0
  {
    hide RealizedBy, SettlementPnl, FilledTicker, SettledTicker, FeeOf, AfterSeen, SeriesOf;
    if e.Settled? && e.ticker !in a.tickers {
      FlatSettlesToNothing(NewTicker(""), e.resultYes);
    }
  }

  /** Wins and losses count every close, exempt or not; scratches and daily
      rolls leave them alone. */
  lemma {:induction false} TalliesCountTheCloses(cfg: Config, a: Account, es: seq<Event>)
    ensures Run(cfg, a, es).wins == a.wins + Closes(Marks(cfg, a, es), true)
    ensures Run(cfg, a, es).losses == a.losses + Closes(Marks(cfg, a, es), false)
  {
    hide Step, MarkOf;
    if es == [] {
    } else {
      var before, e := es[..|es| - 1], es[|es| - 1];
      TalliesCountTheCloses(cfg, a, before);
      StepTallies(cfg, Run(cfg, a, before), e);
      assert Marks(cfg, a, es)[..|es| - 1] == Marks(cfg, a, before) by {
        MarksLength(cfg, a, before);
      }
    }
  }

  lemma {:induction false} MarksLength(cfg: Config, a: Account, es: seq<Event>)
    ensures |Marks(cfg, a, es)| == |es|
  {
    if es == [] {
    } else {
      MarksLength(cfg, a, es[..|es| - 1]);
    }
  }

  predicate SameSide(x: int, y: int) { x != 0 && y != 0 && (x > 0) == (y > 0) }

  /** The position has neither been flat nor changed sign since the start. */
  predicate EraLasts(cfg: Config, a: Account, es: seq<Event>, t: string) {
    es != [] ==>
      var before := es[..|es| - 1];
      EraLasts(cfg, a, before, t) && SameSide(Run(cfg, a, before).At(t).position, Run(cfg, a, es).At(t).position)
  }

  lemma StepEra(cfg: Config, a: Account, e: Event, t: string)
    requires a.At(t).carried ==> t in a.tickers && a.At(t).position != 0
    ensures var b := Step(cfg, a, e);
            && b.At(t).carried == (a.At(t).carried && SameSide(a.At(t).position, b.At(t).position))
            && (b.At(t).carried ==> t in b.tickers && b.At(t).position != 0)
  {
    hide Step, RealizedBy, FoldEntryPrice, Payoff;
    StepAt(cfg, a, e, t);
  }

  /** Inventory inherited across a restart stays exempt exactly until its
      position first reaches or crosses zero; whatever opens next counts. */
  lemma {:induction false} CarriedUntilTheEraEnds(cfg: Config, a: Account, es: seq<Event>, t: string)
    requires t in a.tickers && a.tickers[t].carried && a.tickers[t].position != 0
    ensures Run(cfg, a, es).At(t).carried <==> EraLasts(cfg, a, es, t)
    ensures Run(cfg, a, es).At(t).carried ==> t in Run(cfg, a, es).tickers && Run(cfg, a, es).At(t).position != 0
  {
    hide Step;
    if es == [] {
    } else {
      CarriedUntilTheEraEnds(cfg, a, es[..|es| - 1], t);
      StepEra(cfg, Run(cfg, a, es[..|es| - 1]), es[|es| - 1], t);
    }
  }
}
