/** The tail gate (src/main.rs) over runs of the account: the open legs of one
    ladder, marked as the bot marks them, moved by the ledger's own fills. */
module TailGates {
  import opened Numbers
  import Sums
  import Books
  import opened Ledger
  import opened Processing
  import opened Conservation
  import opened Ladder

  // --- reading a ladder off the account -------------------------------------

  function BeforeLastDash(t: string): Option<string> {
    if t == [] then None
    else if t[|t| - 1] == '-' then Some(t[..|t| - 1])
    else BeforeLastDash(t[..|t| - 1])
  }

  /** `thresholds`: the tickers that parse as threshold legs. */
  function LadderPrefix(t: string, thresholds: set<string>): Option<string> {
    if t in thresholds then BeforeLastDash(t) else None
  }

  /** Live mid, else cost basis, else one half. */
  function Mark(ts: TickerState): real { ts.book.Mid().GetOr(ts.entry.GetOr(0.5)) }

  /** The strikes of one ladder, and the order in which tickers are walked. */
  datatype Strip = Strip(event: string, thresholds: set<string>, walk: seq<string>) {
    predicate Has(t: string) { LadderPrefix(t, thresholds) == Some(event) }
  }

  function OpenLegs(a: Account, strip: Strip, walk: seq<string>): seq<Leg> {
    if walk == [] then [] else OpenLegs(a, strip, walk[..|walk| - 1]) + OpenLeg(a, strip, walk[|walk| - 1])
  }

  /** The leg of one ticker, if it is open and on the ladder. */
  function OpenLeg(a: Account, strip: Strip, t: string): seq<Leg> {
    if a.At(t).position != 0 && strip.Has(t) then [Leg(a.At(t).position, Mark(a.At(t)))] else []
  }

  /** (allow bids, allow asks) for one ticker; other tickers are never gated. */
  function GateFor(a: Account, t: string, thresholds: set<string>, walk: seq<string>, cap: real): (bool, bool) {
    match LadderPrefix(t, thresholds)
    case None => (true, true)
    case Some(event) => TailGate(OpenLegs(a, Strip(event, thresholds, walk), walk), cap)
  }

  /** What a market makes if it settles at a dollar, or at nothing. */
  function Scenario(ts: TickerState, pays: bool): real { LegPnl(Leg(ts.position, Mark(ts)), if pays then 1.0 else 0.0) }

  function StripPnl(a: Account, strip: Strip, walk: seq<string>, pays: bool): real {
    if walk == [] then 0.0
    else
      StripPnl(a, strip, walk[..|walk| - 1], pays)
      + if strip.Has(walk[|walk| - 1]) then Scenario(a.At(walk[|walk| - 1]), pays) else 0.0
  }

  lemma {:induction false} LegsMakeStripPnl(a: Account, strip: Strip, walk: seq<string>, k: nat)
    ensures LevelPnl(OpenLegs(a, strip, walk), 0) == StripPnl(a, strip, walk, false)
    ensures k >= |OpenLegs(a, strip, walk)| ==> LevelPnl(OpenLegs(a, strip, walk), k) == StripPnl(a, strip, walk, true)
  {
    hide LevelPnl, OpenLeg, Scenario, LadderPrefix;
    if walk == [] {
      NoLegsMakeNothing(0);
      NoLegsMakeNothing(k);
    } else {
      var before, t := walk[..|walk| - 1], walk[|walk| - 1];
      LegsMakeStripPnl(a, strip, before, k);
      OneLegMakes(a, strip, t, OpenLegs(a, strip, before), 0, false);
      OneLegMakes(a, strip, t, OpenLegs(a, strip, before), k, true);
    }
  }

  lemma NoLegsMakeNothing(k: nat)
    ensures LevelPnl([], k) == 0.0
  {
  }

  lemma OneLegMakes(a: Account, strip: Strip, t: string, rest: seq<Leg>, k: nat, pays: bool)
    ensures (if pays then k >= |rest + OpenLeg(a, strip, t)| else k == 0)
        ==> LevelPnl(rest + OpenLeg(a, strip, t), k)
            == LevelPnl(rest, k) + if strip.Has(t) then Scenario(a.At(t), pays) else 0.0
  {
    hide Mark, LegPnl, LadderPrefix;
    FlatMakesNothing(a.At(t));
    if a.At(t).position != 0 && strip.Has(t) {
      assert (rest + OpenLeg(a, strip, t))[..|rest|] == rest;
    } else {
      assert rest + [] == rest;
    }
  }

  lemma FlatMakesNothing(ts: TickerState)
    ensures ts.position == 0 ==> Scenario(ts, true) == 0.0 && Scenario(ts, false) == 0.0
  {
    hide Mark;
  }

  lemma TailsAreStripPnl(a: Account, strip: Strip)
    ensures TailLosses(OpenLegs(a, strip, strip.walk))
         == (Max(-StripPnl(a, strip, strip.walk, true), 0.0), Max(-StripPnl(a, strip, strip.walk, false), 0.0))
  {
    LegsMakeStripPnl(a, strip, strip.walk, |OpenLegs(a, strip, strip.walk)|);
  }

  /** Only one market changed. */
  lemma {:induction false} OneMarketMoves(a: Account, b: Account, strip: Strip, walk: seq<string>, t: string, pays: bool)
    requires Sums.Distinct(walk) && forall u :: u != t ==> b.At(u) == a.At(u)
    ensures StripPnl(b, strip, walk, pays) - StripPnl(a, strip, walk, pays)
         == if t in walk && strip.Has(t) then Scenario(b.At(t), pays) - Scenario(a.At(t), pays) else 0.0
  {
    hide Scenario;
    if walk == [] {
    } else {
      var before, u := walk[..|walk| - 1], walk[|walk| - 1];
      assert walk == before + [u];
      OneMarketMoves(a, b, strip, before, t, pays);
    }
  }

  lemma {:induction false} LastDash(t: string)
    ensures BeforeLastDash(t).None? <==> '-' !in t
    ensures BeforeLastDash(t).Some? ==>
              var p := BeforeLastDash(t).value;
              |p| < |t| && t[..|p|] == p && t[|p|] == '-' && '-' !in t[|p| + 1..]
  {
    if t == [] {
    } else {
      var n := |t| - 1;
      LastDash(t[..n]);
      assert t == t[..n] + [t[n]];
      if t[n] != '-' && BeforeLastDash(t).Some? {
        var p := BeforeLastDash(t).value;
        assert t[|p| + 1..] == t[..n][|p| + 1..] + [t[n]];
      }
    }
  }

  /** A ticker is on a ladder exactly when it parses as a threshold leg, and the
      ladder is what stands before its last dash. */
  lemma PrefixIsBeforeTheLastDash(t: string, thresholds: set<string>)
    ensures LadderPrefix(t, thresholds).Some? <==> t in thresholds && '-' in t
    ensures LadderPrefix(t, thresholds).Some? ==>
              var p := LadderPrefix(t, thresholds).value;
              |p| < |t| && t[..|p|] == p && t[|p|] == '-' && '-' !in t[|p| + 1..]
  {
    LastDash(t);
  }

  /** A leg is marked at the mid of a live book, else at its cost, else at a half. */
  lemma MarkPrefersTheMid(ts: TickerState)
    ensures ts.book.IsValid() ==> 2.0 * Mark(ts) == ts.book.BestBid().value + ts.book.BestAsk().value
    ensures !ts.book.IsValid() && ts.entry.Some? ==> Mark(ts) == ts.entry.value
    ensures !ts.book.IsValid() && ts.entry.None? ==> Mark(ts) == 0.5
  {
  }

  /** When the gate lets a side through: bids unless the ladder would already
      lose the cap with every strike settling at nothing, asks unless with every
      strike paying. Without a cap, and off the ladders, both always. */
  lemma GateAllowsIff(a: Account, t: string, thresholds: set<string>, walk: seq<string>, cap: real)
    ensures var gate, prefix := GateFor(a, t, thresholds, walk, cap), LadderPrefix(t, thresholds);
            if cap <= 0.0 || prefix.None? then gate == (true, true)
            else
              var strip := Strip(prefix.value, thresholds, walk);
              && (gate.0 <==> -StripPnl(a, strip, walk, false) < cap)
              && (gate.1 <==> -StripPnl(a, strip, walk, true) < cap)
  {
    hide OpenLegs, StripPnl, TailLosses, LadderPrefix;
    if LadderPrefix(t, thresholds).Some? {
      TailsAreStripPnl(a, Strip(LadderPrefix(t, thresholds).value, thresholds, walk));
    }
  }

  // --- one fill -------------------------------------------------------------

  predicate Unit(price: real) { 0.0 <= price <= 1.0 }

  predicate UnitEntry(ts: TickerState) { ts.entry.Some? ==> Unit(ts.entry.value) }

  /** The mark of an open position is not the one-half fallback. */
  predicate Known(ts: TickerState) { ts.position != 0 && !ts.book.IsValid() ==> ts.entry.Some? }

  lemma ScenarioIsWorth(ts: TickerState)
    ensures Scenario(ts, false) == -Worth(ts.position, Mark(ts))
    ensures Scenario(ts, true) == ts.position as real - Worth(ts.position, Mark(ts))
  {
    hide Mark;
    var q, m := ts.position as real, Mark(ts);
    assert q * (1.0 - m) == q - q * m;
    assert q * (0.0 - m) == -(q * m);
  }

  /** A fill changes what the position is worth at its mark by between nothing
      and a dollar per contract: `x` is what the contracts cost. */
  lemma FillMovesWorth(ts: TickerState, f: Fill) returns (x: real)
    requires Known(ts) && UnitEntry(ts) && Unit(f.price)
    ensures 0.0 <= x <= f.size as real
    ensures var after := FilledTicker(ts, f, 0.0);
            Worth(after.position, Mark(after)) - Worth(ts.position, Mark(ts)) == if f.longYes then x else -x
  {
    hide Worth, FoldEntryPrice, RealizedBy, Released;
    if ts.book.IsValid() {
      Books.ValidBookIsOrdered(ts.book);
      var m := ts.book.Mid().value;
      x := Worth(f.size, m);
      WorthWithin(f.size, m);
      WorthAdds(ts.position, f.size, m);
      WorthAdds(ts.position, -(f.size as int), m);
      WorthAdds(0, f.size, m);
    } else {
      x := EntryMovesWorth(ts, f);
    }
  }

  lemma WorthWithin(n: nat, price: real)
    requires Unit(price)
    ensures 0.0 <= Worth(n, price) <= n as real
  {
    ProductSign(n as real, price);
    ProductSign(n as real, 1.0 - price);
    assert n as real * (1.0 - price) == n as real - n as real * price;
  }

  /** Marked at cost: what the fill closes leaves at the entry, the rest
      arrives at the fill price. */
  lemma EntryMovesWorth(ts: TickerState, f: Fill) returns (x: real)
    requires Costed(ts) && UnitEntry(ts) && Unit(f.price) && !ts.book.IsValid()
    ensures 0.0 <= x <= f.size as real
    ensures var after := FilledTicker(ts, f, 0.0);
            Worth(after.position, Mark(after)) - Worth(ts.position, Mark(ts)) == if f.longYes then x else -x
  {
    hide Worth, FoldEntryPrice, RealizedBy, Released, Mark, Basis;
    var closed, e := Closed(ts, f), ts.entry.GetOr(f.price);
    x := Worth(f.size - closed, f.price) + Worth(closed, e);
    WorthWithin(f.size - closed, f.price);
    WorthWithin(closed, e);
    WorthAdds(f.size - closed, closed, f.price);
    RealizedIs(ts, f);
    FillMovesBasis(ts, f);
    BasisIsWorth(ts);
    BasisIsWorth(FilledTicker(ts, f, 0.0));
  }

  lemma FillMovesBasis(ts: TickerState, f: Fill)
    requires Costed(ts)
    ensures Costed(FilledTicker(ts, f, 0.0))
    ensures Basis(FilledTicker(ts, f, 0.0)) - RealizedBy(ts, f)
         == Basis(ts) + if f.longYes then Worth(f.size, f.price) else -Worth(f.size, f.price)
  {
    hide FoldEntryPrice, RealizedBy, Released;
    FillKeepsCost(ts, f);
    WorthAdds(0, f.size, f.price);
  }

  /** Contracts of the open position that a fill closes. */
  function Closed(ts: TickerState, f: Fill): nat {
    if ts.position == 0 || (ts.position > 0) == f.longYes then 0
    else if f.size < AbsInt(ts.position) then f.size else AbsInt(ts.position)
  }

  lemma RealizedIs(ts: TickerState, f: Fill)
    ensures var closed, entry := Closed(ts, f), ts.entry.GetOr(f.price);
            var gain := Worth(closed, f.price) - Worth(closed, entry);
            RealizedBy(ts, f) == if f.longYes then -gain else gain
  {
    var c, p, e := Closed(ts, f) as real, f.price, ts.entry.GetOr(f.price);
    assert c * (p - e) == c * p - c * e;
    assert c * (e - p) == c * e - c * p;
  }

  lemma BasisIsWorth(ts: TickerState)
    requires !ts.book.IsValid() && Costed(ts)
    ensures Basis(ts) == Worth(ts.position, Mark(ts))
  {
  }

  lemma EntryStaysUnit(ts: TickerState, f: Fill, now: real)
    requires UnitEntry(ts) && Unit(f.price)
    ensures UnitEntry(FilledTicker(ts, f, now))
  {
    hide WeightedEntry, RealizedBy;
    var inv := ts.position + f.Signed();
    if ts.position != 0 && AbsInt(inv) > AbsInt(ts.position) && (ts.position > 0) == (inv > 0) {
      AverageIsUnit(AbsInt(ts.position), ts.entry.GetOr(f.price), f.size, f.price);
    }
  }

  lemma AverageIsUnit(n: nat, e: real, m: Lots, p: real)
    requires Unit(e) && Unit(p)
    ensures Unit(WeightedEntry(n, e, m, p, n + m))
  {
    WorthWithin(n, e);
    WorthWithin(m, p);
    PartIsUnit(n as real * e + m as real * p, (n + m) as real);
  }

  lemma PartIsUnit(sum: real, total: real)
    requires 0.0 <= sum <= total && total > 0.0
    ensures Unit(sum / total)
  {
  }

  /** A fill helps the scenario it bets on and hurts the other one by at most a
      dollar per contract. */
  predicate HurtsBySizeAtMost(ts: TickerState, f: Fill) {
    var after, size := FilledTicker(ts, f, 0.0), f.size as real;
    if f.longYes then
      Scenario(after, true) >= Scenario(ts, true) && Scenario(after, false) >= Scenario(ts, false) - size
    else
      Scenario(after, false) >= Scenario(ts, false) && Scenario(after, true) >= Scenario(ts, true) - size
  }

  lemma KnownFillHurtsLittle(ts: TickerState, f: Fill)
    requires Known(ts) && UnitEntry(ts) && Unit(f.price)
    ensures HurtsBySizeAtMost(ts, f)
  {
    hide Worth, Scenario, Mark, FoldEntryPrice, RealizedBy;
    var x := FillMovesWorth(ts, f);
    ScenarioIsWorth(ts);
    ScenarioIsWorth(FilledTicker(ts, f, 0.0));
  }

  /** Exactly when that is so: a position marked at the one-half fallback takes
      the price of the next fill as the mark of all its contracts. */
  lemma FillsHurtLittleIffKnown(ts: TickerState)
    requires UnitEntry(ts)
    ensures (forall f: Fill | Unit(f.price) :: HurtsBySizeAtMost(ts, f)) <==> Known(ts)
  {
    if Known(ts) {
      forall f: Fill | Unit(f.price)
        ensures HurtsBySizeAtMost(ts, f)
      {
        KnownFillHurtsLittle(ts, f);
      }
    } else {
      var f := Fill("", "", ts.position > 0, if ts.position > 0 then 1.0 else 0.0, 1, false, None);
      FallbackIsRepriced(ts, f);
    }
  }

  lemma FallbackIsRepriced(ts: TickerState, f: Fill)
    requires !Known(ts) && f.longYes == (ts.position > 0) && f.price == if f.longYes then 1.0 else 0.0
    ensures !HurtsBySizeAtMost(ts, f)
  {
    hide Scenario, Worth;
    var after := FilledTicker(ts, f, 0.0);
    TakesTheFillPrice(ts, f, 0.0);
    ScenarioIsWorth(ts);
    ScenarioIsWorth(after);
    WorthOfRound(ts.position);
    WorthOfRound(after.position);
  }

  /** The fill extends a position of unknown cost. */
  lemma TakesTheFillPrice(ts: TickerState, f: Fill, now: real)
    requires !Known(ts) && f.longYes == (ts.position > 0)
    ensures Mark(ts) == 0.5 && Mark(FilledTicker(ts, f, now)) == f.price
    ensures FilledTicker(ts, f, now).position == ts.position + f.Signed()
  {
    hide RealizedBy, WeightedEntry;
    SamePriceAverages(AbsInt(ts.position), f.size, f.price);
  }

  lemma SamePriceAverages(n: nat, m: Lots, price: real)
    ensures WeightedEntry(n, price, m, price, n + m) == price
  {
    assert n as real * price + m as real * price == (n + m) as real * price;
    assert (n + m) as real * price / (n + m) as real == price;
  }

  lemma WorthOfRound(lots: int)
    ensures Worth(lots, 0.0) == 0.0 && Worth(lots, 0.5) == lots as real / 2.0 && Worth(lots, 1.0) == lots as real
  {
  }

  // --- whole runs -----------------------------------------------------------

  /** Every leg of the ladder has a usable mark. */
  ghost predicate Marked(a: Account, strip: Strip) {
    forall t :: strip.Has(t) ==> Known(a.At(t)) && UnitEntry(a.At(t))
  }

  /** A fill on the ladder is of a side a fresh gate allows, of at most
      `largest` contracts; anything may happen elsewhere. */
  predicate Admitted(a: Account, e: Event, strip: Strip, cap: real, largest: nat) {
    match e
    case Traded(f, _) =>
      Rejected(a, e) || !strip.Has(f.ticker)
      || (Unit(f.price) && f.size <= largest
          && var gate := GateFor(a, f.ticker, strip.thresholds, strip.walk, cap);
             if f.longYes then gate.0 else gate.1)
    case Settled(t, _) => !strip.Has(t)
    case DayRolled(_) => true
  }

  predicate AllAdmitted(cfg: Config, a: Account, es: seq<Event>, strip: Strip, cap: real, largest: nat) {
    forall i :: 0 <= i < |es| ==> Admitted(Run(cfg, a, es[..i]), es[i], strip, cap, largest)
  }

  predicate StripTailsBelow(a: Account, strip: Strip, bound: real) { TailsBelow(OpenLegs(a, strip, strip.walk), bound) }

  lemma ElsewhereKeepsLegs(cfg: Config, a: Account, e: Event, t: string)
    requires !(e.Traded? && !Rejected(a, e) && e.fill.ticker == t) && !(e.Settled? && e.ticker == t)
    ensures Step(cfg, a, e).At(t) == a.At(t)
  {
    hide Step;
    StepAt(cfg, a, e, t);
  }

  lemma FilledLeg(cfg: Config, a: Account, f: Fill, now: real)
    requires f.id !in a.seen.ids && Known(a.At(f.ticker)) && UnitEntry(a.At(f.ticker)) && Unit(f.price)
    ensures var ts := Step(cfg, a, Traded(f, now)).At(f.ticker);
            && Known(ts) && UnitEntry(ts)
            && forall pays :: Scenario(ts, pays) == Scenario(FilledTicker(a.At(f.ticker), f, 0.0), pays)
  {
    hide Step, WeightedEntry, RealizedBy;
    StepAt(cfg, a, Traded(f, now), f.ticker);
    EntryStaysUnit(a.At(f.ticker), f, 0.0);
  }

  /** The market an event touches, if it touches any. */
  function Touched(e: Event): string {
    match e
    case Traded(f, _) => f.ticker
    case Settled(t, _) => t
    case DayRolled(_) => ""
  }

  lemma StepMovesStrip(cfg: Config, a: Account, e: Event, strip: Strip, pays: bool)
    requires Sums.Distinct(strip.walk)
    ensures var b, t := Step(cfg, a, e), Touched(e);
            StripPnl(b, strip, strip.walk, pays) - StripPnl(a, strip, strip.walk, pays)
            == if t in strip.walk && strip.Has(t) then Scenario(b.At(t), pays) - Scenario(a.At(t), pays) else 0.0
  {
    hide Step, Scenario, LadderPrefix;
    forall u | u != Touched(e)
      ensures Step(cfg, a, e).At(u) == a.At(u)
    {
      ElsewhereKeepsLegs(cfg, a, e, u);
    }
    OneMarketMoves(a, Step(cfg, a, e), strip, strip.walk, Touched(e), pays);
  }

  lemma StepKeepsMarks(cfg: Config, a: Account, e: Event, strip: Strip, cap: real, largest: nat)
    requires Marked(a, strip) && Admitted(a, e, strip, cap, largest)
    ensures Marked(Step(cfg, a, e), strip)
  {
    hide Step, Known, UnitEntry, GateFor, LadderPrefix, TailGate;
    forall t | strip.Has(t)
      ensures Known(Step(cfg, a, e).At(t)) && UnitEntry(Step(cfg, a, e).At(t))
    {
      if e.Traded? && !Rejected(a, e) && e.fill.ticker == t {
        FilledLeg(cfg, a, e.fill, e.now);
      } else {
        ElsewhereKeepsLegs(cfg, a, e, t);
      }
    }
  }

  lemma StepKeepsTails(cfg: Config, a: Account, e: Event, strip: Strip, cap: real, largest: nat)
    requires cap > 0.0 && Sums.Distinct(strip.walk) && Marked(a, strip)
    requires StripTailsBelow(a, strip, cap + largest as real) && Admitted(a, e, strip, cap, largest)
    ensures StripTailsBelow(Step(cfg, a, e), strip, cap + largest as real)
  {
    hide Step, Scenario, Known, UnitEntry, OpenLegs, TailLosses, FilledTicker, StripPnl, LadderPrefix;
    TailsAreStripPnl(a, strip);
    TailsAreStripPnl(Step(cfg, a, e), strip);
    StepMovesStrip(cfg, a, e, strip, true);
    StepMovesStrip(cfg, a, e, strip, false);
    var t := Touched(e);
    if e.Traded? && !Rejected(a, e) && strip.Has(t) {
      FilledLeg(cfg, a, e.fill, e.now);
      KnownFillHurtsLittle(a.At(t), e.fill);
      assert strip == Strip(strip.event, strip.thresholds, strip.walk);
    } else if strip.Has(t) {
      ElsewhereKeepsLegs(cfg, a, e, t);
    }
  }

  /** Fills each admitted by a fresh gate keep both tails of the ladder below
      the cap plus the largest fill, whatever happens in other markets. */
  lemma {:induction false} GateKeepsTailsNearCap(cfg: Config, a: Account, es: seq<Event>, strip: Strip, cap: real,
                                                 largest: nat)
    requires cap > 0.0 && Sums.Distinct(strip.walk) && Marked(a, strip)
    requires StripTailsBelow(a, strip, cap + largest as real) && AllAdmitted(cfg, a, es, strip, cap, largest)
    ensures Marked(Run(cfg, a, es), strip)
    ensures StripTailsBelow(Run(cfg, a, es), strip, cap + largest as real)
  {
    hide Step, Admitted, Marked, StripTailsBelow;
    if es == [] {
    } else {
      var before := es[..|es| - 1];
      assert forall i :: 0 <= i < |before| ==> before[..i] == es[..i];
      GateKeepsTailsNearCap(cfg, a, before, strip, cap, largest);
      assert Admitted(Run(cfg, a, es[..|es| - 1]), es[|es| - 1], strip, cap, largest);
      StepKeepsMarks(cfg, Run(cfg, a, before), es[|es| - 1], strip, cap, largest);
      StepKeepsTails(cfg, Run(cfg, a, before), es[|es| - 1], strip, cap, largest);
    }
  }

  /** A hundred contracts whose cost was never found, on a book gone empty. */
  function Uncosted(): Account {
    FreshAccount(0.0).(tickers := map["S-E-T1" := NewTicker("S").(position := 100)])
  }

  /** One contract more, at 99 cents. */
  function OneMore(): Fill { Fill("f", "S-E-T1", true, 0.99, 1, false, None) }

  const ONE_STRIKE := Strip("S-E", {"S-E-T1"}, ["S-E-T1"])

  lemma OneStrikeHas()
    ensures ONE_STRIKE.Has("S-E-T1")
  {
    assert "S-E-T1"[..5] == "S-E-T" && "S-E-T"[..4] == "S-E-" && "S-E-"[..3] == "S-E";
  }

  lemma OneStrikePnl(a: Account, pays: bool)
    ensures StripPnl(a, ONE_STRIKE, ONE_STRIKE.walk, pays) == Scenario(a.At("S-E-T1"), pays)
  {
    hide Scenario, LadderPrefix;
    OneStrikeHas();
    assert ["S-E-T1"][..0] == [];
  }

  /** The tails of a ladder with that one strike. */
  lemma OneStrikeTails(a: Account)
    ensures var ts := a.At("S-E-T1");
            TailLosses(OpenLegs(a, ONE_STRIKE, ONE_STRIKE.walk))
            == (Max(Worth(ts.position, Mark(ts)) - ts.position as real, 0.0), Max(Worth(ts.position, Mark(ts)), 0.0))
  {
    hide Scenario, Worth, Mark, TailLosses, OpenLegs, StripPnl;
    TailsAreStripPnl(a, ONE_STRIKE);
    OneStrikePnl(a, true);
    OneStrikePnl(a, false);
    ScenarioIsWorth(a.At("S-E-T1"));
  }

  lemma OneMoreIsFilled(cfg: Config, now: real)
    ensures Step(cfg, Uncosted(), Traded(OneMore(), now)).At("S-E-T1")
         == FilledTicker(Uncosted().At("S-E-T1"), OneMore(), now)
    ensures !Known(Uncosted().At("S-E-T1")) && Uncosted().At("S-E-T1").position == 100
  {
    hide Step, FoldEntryPrice, RealizedBy;
    StepAt(cfg, Uncosted(), Traded(OneMore(), now), "S-E-T1");
    assert map[] == Uncosted().At("S-E-T1").book.yes;
  }

  /** The gate does not keep such a ladder: one admitted contract at 99 cents
      takes a tail from 50 dollars past a cap of 60, to 99.99. */
  lemma UncostedLegEscapesTheGate(cfg: Config, now: real)
    ensures var e := Traded(OneMore(), now);
            && Admitted(Uncosted(), e, ONE_STRIKE, 60.0, 1) && StripTailsBelow(Uncosted(), ONE_STRIKE, 61.0)
            && !Known(Uncosted().At("S-E-T1"))
            && !StripTailsBelow(Step(cfg, Uncosted(), e), ONE_STRIKE, 61.0)
  {
    hide Step, Known, Mark, FilledTicker, TailLosses, OpenLegs, LadderPrefix, Uncosted;
    OneStrikeHas();
    OneStrikeTails(Uncosted());
    OneStrikeTails(Step(cfg, Uncosted(), Traded(OneMore(), now)));
    OneMoreIsFilled(cfg, now);
    TakesTheFillPrice(Uncosted().At("S-E-T1"), OneMore(), now);
  }
}
