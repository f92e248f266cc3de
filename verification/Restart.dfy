/** A restart loses the in-memory cost basis. Syncing positions and replaying
    complete histories restores it, so later trading is unaffected. */
module Restart {
  import opened Numbers
  import Sums
  import opened Ledger
  import opened Processing
  import opened Sync

  /** A market's accepted fills, oldest first. */
  function HistoryOf(es: seq<Event>, t: string): seq<Fill> {
    if es == [] then []
    else
      var e := es[|es| - 1];
      HistoryOf(es[..|es| - 1], t) + if e.Traded? && e.fill.ticker == t then [e.fill] else []
  }

  predicate NeverSettled(es: seq<Event>, t: string) {
    forall i :: 0 <= i < |es| ==> !(es[i].Settled? && es[i].ticker == t)
  }

  lemma ReplayStep(history: seq<Fill>, f: Fill)
    ensures Replay(history + [f])
         == (Replay(history).0 + f.Signed(),
             FoldEntryPrice(Replay(history).0, Replay(history).0 + f.Signed(), Replay(history).1, f.size, f.price))
  {
    assert (history + [f])[..|history + [f]| - 1] == history;
  }

  lemma HistoryStep(es: seq<Event>, e: Event, t: string)
    ensures HistoryOf(es + [e], t) == HistoryOf(es, t) + if e.Traded? && e.fill.ticker == t then [e.fill] else []
  {
    assert (es + [e])[..|es + [e]| - 1] == es;
  }

  /** (position, entry) of a market. */
  function BasisOf(a: Account, t: string): (int, Option<real>) { (a.At(t).position, a.At(t).entry) }

  /** One event on one market's basis, when it is not a settlement of it. */
  lemma StepFoldsBasis(cfg: Config, a: Account, e: Event, t: string)
    requires !(e.Settled? && e.ticker == t)
    ensures BasisOf(Step(cfg, a, e), t) ==
      if e.Traded? && e.fill.ticker == t && !Rejected(a, e) then
        var (inv, entry) := BasisOf(a, t);
        (inv + e.fill.Signed(), FoldEntryPrice(inv, inv + e.fill.Signed(), entry, e.fill.size, e.fill.price))
      else BasisOf(a, t)
  {
    hide Step, FoldEntryPrice, RealizedBy;
    StepAt(cfg, a, e, t);
  }

  /** Through any interleaving with other markets, the dedupe and the daily
      roll, a market's position and entry are the replay of its own accepted
      fills. */
  lemma {:induction false} LedgerIsReplayOfHistory(cfg: Config, start: real, es: seq<Event>, t: string)
    requires NeverSettled(es, t)
    ensures BasisOf(Run(cfg, FreshAccount(start), es), t)
         == Replay(HistoryOf(Booked(cfg, FreshAccount(start), es), t))
  {
    hide Step, FoldEntryPrice, Rejected, BasisOf, HistoryOf, Replay;
    var a := FreshAccount(start);
    if es == [] {
      FreshIsReplayed(start, t);
    } else {
      var before, e := es[..|es| - 1], es[|es| - 1];
      LedgerIsReplayOfHistory(cfg, start, before, t);
      var mid, booked := Run(cfg, a, before), Booked(cfg, a, before);
      StepFoldsBasis(cfg, mid, e, t);
      HistoryStep(booked, e, t);
      assert HistoryOf(booked, t) + [] == HistoryOf(booked, t);
      if e.Traded? {
        ReplayStep(HistoryOf(booked, t), e.fill);
      } else {
        RejectedOnlyTrades(mid, e);
      }
    }
  }

  lemma FreshIsReplayed(start: real, t: string)
    ensures BasisOf(FreshAccount(start), t) == Replay(HistoryOf([], t))
  {
  }

  lemma RejectedOnlyTrades(a: Account, e: Event)
    ensures Rejected(a, e) ==> e.Traded?
  {
  }

  /** No market is flat with a leftover entry. */
  lemma {:induction false} FlatHasNoEntry(cfg: Config, start: real, es: seq<Event>, t: string)
    ensures var ts := Run(cfg, FreshAccount(start), es).At(t); ts.position == 0 ==> ts.entry.None?
  {
    hide Step, RealizedBy, WeightedEntry, Rejected, SettlementPnl;
    if es == [] {
    } else {
      var before, e := es[..|es| - 1], es[|es| - 1];
      FlatHasNoEntry(cfg, start, before, t);
      StepAt(cfg, Run(cfg, FreshAccount(start), before), e, t);
      RejectedOnlyTrades(Run(cfg, FreshAccount(start), before), e);
    }
  }

  // --- the restarted process ------------------------------------------------

  /** The sync before trading starts: the exchange answers. Market details may
      be on record already. */
  ghost predicate BootSync(cfg: Config, b: Account, r: Round) {
    Booted(b) && r.positions.Some? && r.now >= 10.0 && Walks(cfg, SyncState(b, map[]), r)
  }

  function Rebooted(cfg: Config, b: Account, r: Round): Account { AfterSync(cfg, SyncState(b, map[]), r).account }

  /** The backfill read a history of `t` that lands on the exchange's position. */
  predicate HistoryLands(cfg: Config, r: Round, t: string) {
    t in cfg.active && t in r.histories && Replay(r.histories[t]).0 == r.Remote(t)
  }

  /** A rebooted market has a cost basis exactly when its history was read and
      lands on its position, and then the basis is that history's. */
  lemma RestartRecoversBasis(cfg: Config, b: Account, r: Round, t: string)
    requires BootSync(cfg, b, r)
    ensures var ts := Rebooted(cfg, b, r).At(t);
            && ts.position == r.Remote(t)
            && (ts.position != 0 ==> ts.carried)
            && (ts.entry.Some? <==> ts.position != 0 && HistoryLands(cfg, r, t))
            && (HistoryLands(cfg, r, t) ==> (ts.position, ts.entry) == Replay(r.histories[t]))
  {
    hide AfterSync, Replay;
    BootSyncAt(cfg, b, map[], r, t);
    if t in r.histories {
      ReplayIsCosted(r.histories[t]);
    }
  }

  ghost predicate SameBasis(a: Account, b: Account) {
    forall t :: a.At(t).position == b.At(t).position && a.At(t).entry == b.At(t).entry
  }

  /** What the exchange tells a process restarted after `es`: the positions the
      old one held, and a complete history wherever one is read. */
  ghost predicate TruthfulAnswers(cfg: Config, a: Account, es: seq<Event>, r: Round) {
    forall t ::
      var position := Run(cfg, a, es).At(t).position;
      && r.Remote(t) == position
      && (position != 0 ==>
            NeverSettled(es, t) && (t in r.histories ==> r.histories[t] == HistoryOf(Booked(cfg, a, es), t)))
  }

  /** Every open market is quoted, and its history was read. */
  ghost predicate OpenMarketsRead(cfg: Config, a: Account, r: Round) {
    forall t :: a.At(t).position != 0 ==> t in cfg.active && t in r.histories
  }

  /** A restarted process holds the positions and entries of the old one
      exactly when every open market is quoted and its history was read. An
      open market outside the universe comes back without a cost basis. */
  lemma RestartKeepsBasisIff(cfg: Config, start: real, es: seq<Event>, b: Account, r: Round)
    requires BootSync(cfg, b, r) && TruthfulAnswers(cfg, FreshAccount(start), es, r)
    ensures SameBasis(Run(cfg, FreshAccount(start), es), Rebooted(cfg, b, r))
       <==> OpenMarketsRead(cfg, Run(cfg, FreshAccount(start), es), r)
  {
    hide Run, Booked, Rebooted, HistoryOf, BootSync;
    var a := Run(cfg, FreshAccount(start), es);
    forall t
      ensures a.At(t).position == Rebooted(cfg, b, r).At(t).position
      ensures a.At(t).entry == Rebooted(cfg, b, r).At(t).entry
         <==> (a.At(t).position != 0 ==> t in cfg.active && t in r.histories)
    {
      RestartedMarket(cfg, start, es, b, r, t);
    }
  }

  lemma RestartedMarket(cfg: Config, start: real, es: seq<Event>, b: Account, r: Round, t: string)
    requires BootSync(cfg, b, r) && TruthfulAnswers(cfg, FreshAccount(start), es, r)
    ensures var x, y := Run(cfg, FreshAccount(start), es).At(t), Rebooted(cfg, b, r).At(t);
            && x.position == y.position
            && (x.entry == y.entry
                <==> (x.position != 0 ==> t in cfg.active && t in r.histories))
  {
    hide Run, Booked, Rebooted, HistoryOf, Replay, BootSync;
    var a := FreshAccount(start);
    assert r.Remote(t) == Run(cfg, a, es).At(t).position;
    RestartRecoversBasis(cfg, b, r, t);
    if r.Remote(t) == 0 {
      FlatHasNoEntry(cfg, start, es, t);
    } else {
      LedgerIsReplayOfHistory(cfg, start, es, t);
      ReplayIsCosted(HistoryOf(Booked(cfg, a, es), t));
    }
  }

  /** New to both processes. */
  predicate AcceptedByBoth(cfg: Config, a: Account, b: Account, es: seq<Event>) {
    forall i :: 0 <= i < |es| ==>
      !Rejected(Run(cfg, a, es[..i]), es[i]) && !Rejected(Run(cfg, b, es[..i]), es[i])
  }

  lemma StepKeepsBasis(cfg: Config, a: Account, b: Account, e: Event, t: string)
    requires SameBasis(a, b) && !Rejected(a, e) && !Rejected(b, e)
    ensures var c, d := Step(cfg, a, e), Step(cfg, b, e);
            && c.At(t).position == d.At(t).position && c.At(t).entry == d.At(t).entry
            && c.At(t).realizedPnl - a.At(t).realizedPnl == d.At(t).realizedPnl - b.At(t).realizedPnl
  {
    hide Step, FilledTicker, SettledTicker;
    assert a.At(t).position == b.At(t).position && a.At(t).entry == b.At(t).entry;
    StepAt(cfg, a, e, t);
    StepAt(cfg, b, e, t);
    match e
    case Traded(f, now) =>
      var x := if t in a.tickers then a.tickers[t] else NewTicker(CategoryOf(cfg, t));
      var y := if t in b.tickers then b.tickers[t] else NewTicker(CategoryOf(cfg, t));
      SameFill(x, y, f, now);
    case Settled(_, result) =>
      SameSettlement(a.At(t), b.At(t), result);
    case DayRolled(_) =>
  }

  lemma SameFill(x: TickerState, y: TickerState, f: Fill, now: real)
    requires x.position == y.position && x.entry == y.entry
    ensures var c, d := FilledTicker(x, f, now), FilledTicker(y, f, now);
            && c.position == d.position && c.entry == d.entry
            && c.realizedPnl - x.realizedPnl == d.realizedPnl - y.realizedPnl
  {
    hide FoldEntryPrice, Released;
  }

  lemma SameSettlement(x: TickerState, y: TickerState, result: Option<bool>)
    requires x.position == y.position && x.entry == y.entry
    ensures var c, d := SettledTicker(x, result), SettledTicker(y, result);
            && c.position == d.position && c.entry == d.entry
            && c.realizedPnl - x.realizedPnl == d.realizedPnl - y.realizedPnl
    ensures x.position == 0 ==> SettledTicker(x, result) == x && SettledTicker(y, result) == y
  {
    hide Payoff;
  }

  /** From then on both processes hold the same positions and entries and
      realize the same amounts, through any further events. */
  lemma {:induction false} RestartIsInvisible(cfg: Config, a: Account, b: Account, es: seq<Event>, t: string)
    requires SameBasis(a, b) && AcceptedByBoth(cfg, a, b, es)
    ensures SameBasis(Run(cfg, a, es), Run(cfg, b, es))
    ensures Run(cfg, a, es).At(t).realizedPnl - a.At(t).realizedPnl
         == Run(cfg, b, es).At(t).realizedPnl - b.At(t).realizedPnl
  {
    hide Step, Rejected;
    if es == [] {
    } else {
      var before, e := es[..|es| - 1], es[|es| - 1];
      assert forall i :: 0 <= i < |before| ==> before[..i] == es[..i];
      RestartIsInvisible(cfg, a, b, before, t);
      var c, d := Run(cfg, a, before), Run(cfg, b, before);
      assert es[..|es| - 1] == before;
      forall u
        ensures Step(cfg, c, e).At(u).position == Step(cfg, d, e).At(u).position
        ensures Step(cfg, c, e).At(u).entry == Step(cfg, d, e).At(u).entry
      {
        StepKeepsBasis(cfg, c, d, e, u);
      }
      StepKeepsBasis(cfg, c, d, e, t);
    }
  }

  /** The exact limit of that: the restarted process has forgotten which fills
      it booked, and its first poll re-reads two minutes from before the boot.
      A fill the old process had already booked makes the two diverge. */
  lemma NextFillAgreesIffNew(cfg: Config, a: Account, b: Account, f: Fill, now: real)
    requires SameBasis(a, b) && f.id !in b.seen.ids
    ensures SameBasis(Step(cfg, a, Traded(f, now)), Step(cfg, b, Traded(f, now))) <==> f.id !in a.seen.ids
  {
    hide Step, FoldEntryPrice, RealizedBy;
    var e, t := Traded(f, now), f.ticker;
    StepAt(cfg, a, e, t);
    StepAt(cfg, b, e, t);
    if f.id !in a.seen.ids {
      forall u
        ensures Step(cfg, a, e).At(u).position == Step(cfg, b, e).At(u).position
        ensures Step(cfg, a, e).At(u).entry == Step(cfg, b, e).At(u).entry
      {
        StepKeepsBasis(cfg, a, b, e, u);
      }
    } else {
      assert a.At(t).position == b.At(t).position;
      assert Step(cfg, a, e).At(t).position != Step(cfg, b, e).At(t).position;
    }
  }

  /** The sync of a process restarted after the one fill `f`. */
  function RoundAfter(f: Fill, now: real): Round {
    Round(now, Some(map[f.ticker := f.Signed()]), None, map[f.ticker := [f]], [f.ticker], [f.ticker])
  }

  /** Such a fill exists: book any fill, restart, and let the first poll read
      it again. Both processes agreed; then the new one holds it twice. */
  lemma RereadDoublesThePosition(cfg: Config, start: real, f: Fill, booked: real, boot: real, poll: real)
    requires f.ticker in cfg.active && boot >= 10.0
    ensures var before := Run(cfg, FreshAccount(start), [Traded(f, booked)]);
            var after := Rebooted(cfg, FreshAccount(boot), RoundAfter(f, boot));
            && SameBasis(before, after)
            && Step(cfg, before, Traded(f, poll)) == before && before.At(f.ticker).position == f.Signed()
            && Step(cfg, after, Traded(f, poll)).At(f.ticker).position == 2 * f.Signed()
  {
    hide Step, Rebooted, FoldEntryPrice, RealizedBy, Released, Booked, HistoryOf, Replay;
    var a, e, r, b := FreshAccount(start), Traded(f, booked), RoundAfter(f, boot), FreshAccount(boot);
    var before, after := Run(cfg, a, [e]), Rebooted(cfg, b, r);
    OneFillIsBooked(cfg, a, f, booked, poll);
    RoundWalks(cfg, f, boot);
    forall t
      ensures r.Remote(t) == before.At(t).position
      ensures before.At(t).position != 0 ==> t == f.ticker
    {
      StepAt(cfg, a, e, t);
    }
    RestartKeepsBasisIff(cfg, start, [e], b, r);
    NewProcessForgets(cfg, boot, r);
    StepAt(cfg, after, Traded(f, poll), f.ticker);
  }

  lemma RoundWalks(cfg: Config, f: Fill, boot: real)
    requires f.ticker in cfg.active && boot >= 10.0
    ensures Walks(cfg, SyncState(FreshAccount(boot), map[]), RoundAfter(f, boot))
  {
    hide Resolved;
    var s, r := SyncState(FreshAccount(boot), map[]), RoundAfter(f, boot);
    forall t
      ensures t in r.backfillOrder <==> NeedsBackfill(cfg, Resolved(cfg, s, r).account.At(t), t)
    {
      BootResolvedAt(cfg, s.account, s.checks, r, t);
    }
  }

  lemma OneFillIsBooked(cfg: Config, a: Account, f: Fill, now: real, poll: real)
    requires a.seen == Dedupe({}, [])
    ensures Run(cfg, a, [Traded(f, now)]) == Step(cfg, a, Traded(f, now))
    ensures HistoryOf(Booked(cfg, a, [Traded(f, now)]), f.ticker) == [f]
    ensures f.id in Step(cfg, a, Traded(f, now)).seen.ids
    ensures Step(cfg, Step(cfg, a, Traded(f, now)), Traded(f, poll)) == Step(cfg, a, Traded(f, now))
  {
    hide FilledTicker, RealizedBy, FeeOf;
    var es := [Traded(f, now)];
    assert es[..0] == [];
    assert Booked(cfg, a, es) == [] + es;
    assert HistoryOf(es, f.ticker) == [] + [f];
  }

  lemma NewProcessForgets(cfg: Config, boot: real, r: Round)
    requires Sums.Distinct(r.order)
    ensures Rebooted(cfg, FreshAccount(boot), r).seen.ids == {}
  {
    hide AfterSync;
    SyncKeepsSeen(cfg, SyncState(FreshAccount(boot), map[]), r);
  }
}
