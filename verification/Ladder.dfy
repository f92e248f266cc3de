/** Strike ladders (src/ladder.rs): scenario tail losses of one ladder's open
    positions, and the ladder read as its own pricing model. */
module Ladder {
  import opened Numbers
  import Sums
  import opened Ledger

  // --- tail losses ----------------------------------------------------------

  /** One open strike: signed position and YES-frame mark. */
  datatype Leg = Leg(position: int, mark: real)

  /** What one leg makes if it settles at `value` against its mark. */
  function LegPnl(leg: Leg, value: real): real { leg.position as real * (value - leg.mark) }

  /** PnL when the market settles above the first `k` strikes and below the
      others; legs in strike order. */
  function LevelPnl(legs: seq<Leg>, k: nat): real {
    if legs == [] then 0.0
    else
      var n := |legs| - 1;
      LevelPnl(legs[..n], k) + LegPnl(legs[n], if n < k then 1.0 else 0.0)
  }

  /** (up-tail loss, down-tail loss), both at least zero. */
  function TailLosses(legs: seq<Leg>): (real, real) {
    (Max(-LevelPnl(legs, |legs|), 0.0), Max(-LevelPnl(legs, 0), 0.0))
  }

  method ComputeTailLosses(legs: seq<Leg>) returns (up: real, down: real)
    ensures (up, down) == TailLosses(legs)
  {
    var upPnl, downPnl := 0.0, 0.0;
    for i := 0 to |legs|
      invariant upPnl == LevelPnl(legs[..i], |legs|)
      invariant downPnl == LevelPnl(legs[..i], 0)
    {
      assert legs[..i + 1][..i] == legs[..i];
      upPnl := upPnl + legs[i].position as real * (1.0 - legs[i].mark);
      downPnl := downPnl - legs[i].position as real * legs[i].mark;
    }
    assert legs[..|legs|] == legs;
    up, down := Max(-upPnl, 0.0), Max(-downPnl, 0.0);
  }

  /** Net contracts over the first `k` strikes. */
  function Prefix(legs: seq<Leg>, k: nat): int {
    if legs == [] then 0
    else
      var n := |legs| - 1;
      Prefix(legs[..n], k) + if n < k then legs[n].position else 0
  }

  /** Settling one strike higher pays out the contracts of that strike. */
  lemma {:induction false} LevelIsPrefixLessCost(legs: seq<Leg>, k: nat)
    ensures LevelPnl(legs, k) == Prefix(legs, k) as real + LevelPnl(legs, 0)
  {
    if legs == [] {
    } else {
      var n := |legs| - 1;
      LevelIsPrefixLessCost(legs[..n], k);
      var q, m := legs[n].position as real, legs[n].mark;
      assert q * (1.0 - m) == q + q * (0.0 - m);
    }
  }

  lemma {:induction false} PrefixOfNone(legs: seq<Leg>)
    ensures Prefix(legs, 0) == 0
  {
    if legs == [] {
    } else {
      PrefixOfNone(legs[..|legs| - 1]);
    }
  }

  /** Whether some interior level is worse than both ends. */
  predicate EndsAreWorst(legs: seq<Leg>) {
    forall k :: 0 <= k <= |legs| ==> Prefix(legs, k) >= if Prefix(legs, |legs|) < 0 then Prefix(legs, |legs|) else 0
  }

  predicate BoundedByTails(legs: seq<Leg>) {
    forall k :: 0 <= k <= |legs| ==> -LevelPnl(legs, k) <= WorstTail(legs)
  }

  function WorstTail(legs: seq<Leg>): real { Max(TailLosses(legs).0, TailLosses(legs).1) }

  lemma TailsAreTheEnds(legs: seq<Leg>)
    ensures var lowest := if Prefix(legs, |legs|) < 0 then Prefix(legs, |legs|) else 0;
            WorstTail(legs) == Max(0.0, -LevelPnl(legs, 0) - lowest as real)
  {
    LevelIsPrefixLessCost(legs, |legs|);
  }

  /** The two tails bound the loss at every settlement level when no interior
      level is worse than both ends; a positive bound is attained. */
  lemma TailIsWorstCase(legs: seq<Leg>)
    requires EndsAreWorst(legs)
    ensures BoundedByTails(legs)
    ensures WorstTail(legs) > 0.0 ==> -LevelPnl(legs, 0) == WorstTail(legs) || -LevelPnl(legs, |legs|) == WorstTail(legs)
  {
    TailsAreTheEnds(legs);
    forall k | 0 <= k <= |legs|
      ensures -LevelPnl(legs, k) <= WorstTail(legs)
    {
      LevelIsPrefixLessCost(legs, k);
    }
  }

  /** What the positions cost at their marks. */
  function Cost(legs: seq<Leg>): real {
    if legs == [] then 0.0
    else Cost(legs[..|legs| - 1]) + legs[|legs| - 1].position as real * legs[|legs| - 1].mark
  }

  lemma {:induction false} BelowEveryStrikeLosesTheCost(legs: seq<Leg>)
    ensures LevelPnl(legs, 0) == -Cost(legs)
  {
    if legs == [] {
    } else {
      BelowEveryStrikeLosesTheCost(legs[..|legs| - 1]);
      var q, m := legs[|legs| - 1].position as real, legs[|legs| - 1].mark;
      assert q * (0.0 - m) == -(q * m);
    }
  }

  /** No interior level pays out less than both ends and less than the
      positions cost: a check on positions and marks alone. */
  predicate NoDeepLevel(legs: seq<Leg>) {
    forall k :: 0 <= k <= |legs| ==>
      Prefix(legs, k) as real >= Min(Cost(legs), (if Prefix(legs, |legs|) < 0 then Prefix(legs, |legs|) else 0) as real)
  }

  /** The exact condition, for every ladder: the two tails bound the loss at
      every settlement level if and only if no interior level is deep. */
  lemma TailsBoundLossIffNoDeepLevel(legs: seq<Leg>)
    ensures BoundedByTails(legs) <==> NoDeepLevel(legs)
  {
    hide LevelPnl, Prefix, Cost, TailLosses;
    var lowest := (if Prefix(legs, |legs|) < 0 then Prefix(legs, |legs|) else 0) as real;
    TailsAreTheEnds(legs);
    BelowEveryStrikeLosesTheCost(legs);
    forall k | 0 <= k <= |legs|
      ensures -LevelPnl(legs, k) <= WorstTail(legs) <==> Prefix(legs, k) as real >= Min(Cost(legs), lowest)
    {
      LevelIsPrefixLessCost(legs, k);
    }
  }

  /** The failing family's smallest member: short one at the lower strike, long
      one at the upper, both marked at a half. Settling between them loses a
      dollar; the tails report no risk at all. */
  lemma SpreadEscapesTheTails()
    ensures var spread := [Leg(-1, 0.5), Leg(1, 0.5)];
            TailLosses(spread) == (0.0, 0.0) && LevelPnl(spread, 1) == -1.0
            && !BoundedByTails(spread) && !NoDeepLevel(spread)
  {
    var spread := [Leg(-1, 0.5), Leg(1, 0.5)];
    assert spread[..1] == [Leg(-1, 0.5)] && [Leg(-1, 0.5)][..0] == [];
    assert LevelPnl([Leg(-1, 0.5)], 1) == -0.5 && LevelPnl([Leg(-1, 0.5)], 0) == 0.5;
    assert LevelPnl([Leg(-1, 0.5)], 2) == -0.5;
    assert -LevelPnl(spread, 1) > WorstTail(spread);
    TailsBoundLossIffNoDeepLevel(spread);
  }

  predicate OneSided(legs: seq<Leg>) {
    (forall i :: 0 <= i < |legs| ==> legs[i].position >= 0) || (forall i :: 0 <= i < |legs| ==> legs[i].position <= 0)
  }

  lemma {:induction false} LongPrefix(legs: seq<Leg>, k: nat)
    requires forall i :: 0 <= i < |legs| ==> legs[i].position >= 0
    ensures Prefix(legs, k) >= 0
  {
    if legs == [] {
    } else {
      LongPrefix(legs[..|legs| - 1], k);
    }
  }

  lemma {:induction false} ShortPrefix(legs: seq<Leg>, k: nat, m: nat)
    requires forall i :: 0 <= i < |legs| ==> legs[i].position <= 0
    requires k <= m
    ensures Prefix(legs, m) <= Prefix(legs, k)
  {
    if legs == [] {
    } else {
      ShortPrefix(legs[..|legs| - 1], k, m);
    }
  }

  /** All longs or all shorts: the tails are the worst case. */
  lemma OneSidedLaddersAreBounded(legs: seq<Leg>)
    requires OneSided(legs)
    ensures EndsAreWorst(legs) && BoundedByTails(legs)
  {
    forall k | 0 <= k <= |legs|
      ensures Prefix(legs, k) >= if Prefix(legs, |legs|) < 0 then Prefix(legs, |legs|) else 0
    {
      if forall i :: 0 <= i < |legs| ==> legs[i].position >= 0 {
        LongPrefix(legs, k);
        LongPrefix(legs, |legs|);
      } else {
        ShortPrefix(legs, 0, |legs|);
        PrefixOfNone(legs);
        ShortPrefix(legs, k, |legs|);
      }
    }
    TailIsWorstCase(legs);
  }

  // --- settling a ladder through the ledger ---------------------------------

  /** Every leg settled, those below level `k` at $1. */
  function SettleLadder(a: Account, ts: seq<string>, k: nat): Account {
    if ts == [] then a
    else
      var n := |ts| - 1;
      AfterSettlement(SettleLadder(a, ts[..n], k), ts[n], Some(n < k))
  }

  /** Each market's position marked at its entry. */
  function LegsOf(a: Account, ts: seq<string>): seq<Leg> {
    seq(|ts|, i requires 0 <= i < |ts| => Leg(a.At(ts[i]).position, a.At(ts[i]).entry.GetOr(0.0)))
  }

  lemma SettlementMovesCumulative(a: Account, t: string, yes: bool)
    requires a.At(t).position != 0 ==> a.At(t).entry.Some?
    ensures AfterSettlement(a, t, Some(yes)).cumulativePnl
         == a.cumulativePnl + LegPnl(Leg(a.At(t).position, a.At(t).entry.GetOr(0.0)), if yes then 1.0 else 0.0)
    ensures forall u :: u != t ==> AfterSettlement(a, t, Some(yes)).At(u) == a.At(u)
  {
  }

  /** Settling every leg moves cumulative PnL by the level's scenario PnL, so
      it never falls by more than a worst-case bound on the ladder. */
  lemma {:induction false} SettledLadderBooksTheScenario(a: Account, ts: seq<string>, k: nat)
    requires Sums.Distinct(ts)
    requires forall i :: 0 <= i < |ts| && a.At(ts[i]).position != 0 ==> a.At(ts[i]).entry.Some?
    ensures SettleLadder(a, ts, k).cumulativePnl == a.cumulativePnl + LevelPnl(LegsOf(a, ts), k)
    ensures forall u :: u !in ts ==> SettleLadder(a, ts, k).At(u) == a.At(u)
  {
    hide LegPnl, AfterSettlement;
    if ts == [] {
    } else {
      var n := |ts| - 1;
      SettledLadderBooksTheScenario(a, ts[..n], k);
      assert ts[n] !in ts[..n];
      SettlementMovesCumulative(SettleLadder(a, ts[..n], k), ts[n], n < k);
      assert LegsOf(a, ts)[..n] == LegsOf(a, ts[..n]);
    }
  }

  lemma SettledLadderLosesAtMostItsTail(a: Account, ts: seq<string>, k: nat)
    requires Sums.Distinct(ts) && k <= |ts|
    requires forall i :: 0 <= i < |ts| && a.At(ts[i]).position != 0 ==> a.At(ts[i]).entry.Some?
    requires EndsAreWorst(LegsOf(a, ts))
    ensures SettleLadder(a, ts, k).cumulativePnl >= a.cumulativePnl - WorstTail(LegsOf(a, ts))
  {
    hide LevelPnl, WorstTail, SettleLadder, EndsAreWorst;
    SettledLadderBooksTheScenario(a, ts, k);
    TailIsWorstCase(LegsOf(a, ts));
  }

  // --- the tail gate --------------------------------------------------------

  /** (allow bids, allow asks): bids add down-risk, asks add up-risk; a cap of
      zero disables the gate. */
  function TailGate(legs: seq<Leg>, cap: real): (bool, bool) {
    if cap <= 0.0 then (true, true)
    else (TailLosses(legs).1 < cap, TailLosses(legs).0 < cap)
  }

  predicate TailsBelow(legs: seq<Leg>, bound: real) { TailLosses(legs).0 < bound && TailLosses(legs).1 < bound }

  // --- building the ladders -------------------------------------------------

  /** A parsed threshold leg. */
  datatype Strike = Strike(ticker: string, group: string, strike: real)

  /** Stable insertion by strike. */
  function Inserted(ladder: seq<Strike>, s: Strike): seq<Strike> {
    if ladder != [] && ladder[|ladder| - 1].strike > s.strike then
      Inserted(ladder[..|ladder| - 1], s) + [ladder[|ladder| - 1]]
    else ladder + [s]
  }

  function SortedByStrike(legs: seq<Strike>): seq<Strike> {
    if legs == [] then [] else Inserted(SortedByStrike(legs[..|legs| - 1]), legs[|legs| - 1])
  }

  function InGroup(legs: seq<Strike>, g: string): seq<Strike> {
    if legs == [] then []
    else
      var n := |legs| - 1;
      InGroup(legs[..n], g) + if legs[n].group == g then [legs[n]] else []
  }

  predicate Ascending(ladder: seq<Strike>) {
    forall i, j :: 0 <= i < j < |ladder| ==> ladder[i].strike <= ladder[j].strike
  }

  predicate DistinctStrikes(ladder: seq<Strike>) {
    forall i, j :: 0 <= i < j < |ladder| ==> ladder[i].strike != ladder[j].strike
  }

  lemma {:induction false} InsertedHolds(ladder: seq<Strike>, s: Strike)
    ensures multiset(Inserted(ladder, s)) == multiset(ladder) + multiset{s}
  {
    if ladder != [] && ladder[|ladder| - 1].strike > s.strike {
      var n := |ladder| - 1;
      InsertedHolds(ladder[..n], s);
      assert ladder == ladder[..n] + [ladder[n]];
    }
  }

  /** Every strike of the ladder is at most `top`. */
  predicate AtMost(ladder: seq<Strike>, top: real) { forall i :: 0 <= i < |ladder| ==> ladder[i].strike <= top }

  lemma {:induction false} InsertedAscends(ladder: seq<Strike>, s: Strike)
    requires Ascending(ladder)
    ensures Ascending(Inserted(ladder, s))
    ensures forall top :: AtMost(ladder, top) && s.strike <= top ==> AtMost(Inserted(ladder, s), top)
  {
    if ladder != [] && ladder[|ladder| - 1].strike > s.strike {
      var n := |ladder| - 1;
      InsertedAscends(ladder[..n], s);
      assert AtMost(ladder[..n], ladder[n].strike);
      forall top | AtMost(ladder, top) && s.strike <= top
        ensures AtMost(Inserted(ladder, s), top)
      {
        assert AtMost(ladder[..n], top);
      }
    }
  }

  lemma {:induction false} SortingAscends(legs: seq<Strike>)
    ensures Ascending(SortedByStrike(legs))
    ensures multiset(SortedByStrike(legs)) == multiset(legs)
  {
    if legs == [] {
    } else {
      hide Ascending, Inserted;
      var before, s := legs[..|legs| - 1], legs[|legs| - 1];
      SortingAscends(before);
      InsertedAscends(SortedByStrike(before), s);
      InsertedHolds(SortedByStrike(before), s);
      OneMoreHolds(legs);
    }
  }

  lemma OneMoreHolds(legs: seq<Strike>)
    requires legs != []
    ensures multiset(legs) == multiset(legs[..|legs| - 1]) + multiset{legs[|legs| - 1]}
  {
    assert legs == legs[..|legs| - 1] + [legs[|legs| - 1]];
  }

  lemma {:induction false} AscendingIsUnique(xs: seq<Strike>, ys: seq<Strike>)
    requires multiset(xs) == multiset(ys)
    requires Ascending(xs) && Ascending(ys) && DistinctStrikes(xs)
    ensures xs == ys
    decreases |xs|
  {
    hide Ascending, DistinctStrikes;
    assert |xs| == |multiset(xs)| == |multiset(ys)| == |ys|;
    if xs == [] {
    } else {
      var n := |xs| - 1;
      SameLast(xs, ys);
      DropLast(xs);
      DropLast(ys);
      assert multiset(xs[..n]) == multiset(ys[..n]);
      AscendingIsUnique(xs[..n], ys[..n]);
    }
  }

  lemma SameLast(xs: seq<Strike>, ys: seq<Strike>)
    requires multiset(xs) == multiset(ys) && |xs| == |ys| > 0
    requires Ascending(xs) && Ascending(ys) && DistinctStrikes(xs)
    ensures xs[|xs| - 1] == ys[|ys| - 1]
  {
    var n := |xs| - 1;
    assert xs[n] in multiset(ys) && ys[n] in multiset(xs);
    var i :| 0 <= i <= n && ys[i] == xs[n];
    var j :| 0 <= j <= n && xs[j] == ys[n];
    assert ys[i].strike <= ys[n].strike && xs[j].strike <= xs[n].strike;
  }

  lemma DropLast(xs: seq<Strike>)
    requires xs != []
    ensures multiset(xs[..|xs| - 1]) == multiset(xs) - multiset{xs[|xs| - 1]}
    ensures Ascending(xs) ==> Ascending(xs[..|xs| - 1])
    ensures DistinctStrikes(xs) ==> DistinctStrikes(xs[..|xs| - 1])
  {
    assert xs == xs[..|xs| - 1] + [xs[|xs| - 1]];
  }

  lemma {:induction false} GroupCounts(legs: seq<Strike>, g: string, s: Strike)
    ensures multiset(InGroup(legs, g))[s] == if s.group == g then multiset(legs)[s] else 0
  {
    if legs == [] {
    } else {
      var n := |legs| - 1;
      GroupCounts(legs[..n], g, s);
      assert legs == legs[..n] + [legs[n]];
    }
  }

  /** The ladder of a group does not depend on the order of discovery. */
  lemma LadderIgnoresDiscoveryOrder(legs: seq<Strike>, others: seq<Strike>, g: string)
    requires multiset(legs) == multiset(others)
    requires DistinctStrikes(InGroup(legs, g))
    ensures SortedByStrike(InGroup(legs, g)) == SortedByStrike(InGroup(others, g))
  {
    var xs, ys := InGroup(legs, g), InGroup(others, g);
    forall s
      ensures multiset(xs)[s] == multiset(ys)[s]
    {
      GroupCounts(legs, g, s);
      GroupCounts(others, g, s);
    }
    assert multiset(xs) == multiset(ys);
    SortingAscends(xs);
    SortingAscends(ys);
    DistinctSurvives(xs, SortedByStrike(xs));
    AscendingIsUnique(SortedByStrike(xs), SortedByStrike(ys));
  }

  lemma {:induction false} DistinctSurvives(xs: seq<Strike>, ys: seq<Strike>)
    requires DistinctStrikes(xs) && multiset(xs) == multiset(ys)
    ensures DistinctStrikes(ys)
  {
    forall i, j | 0 <= i < j < |ys|
      ensures ys[i].strike != ys[j].strike
    {
      assert ys[i] in multiset(xs) && ys[j] in multiset(xs);
      var p :| 0 <= p < |xs| && xs[p] == ys[i];
      var q :| 0 <= q < |xs| && xs[q] == ys[j];
      if p == q {
        TwoCopies(ys, i, j);
        OneCopy(xs, p);
      }
    }
  }

  lemma TwoCopies(ys: seq<Strike>, i: nat, j: nat)
    requires i < j < |ys| && ys[i] == ys[j]
    ensures multiset(ys)[ys[i]] >= 2
  {
    assert ys == ys[..j] + [ys[j]] + ys[j + 1..];
    assert ys[..j][i] == ys[i];
    assert ys[i] in multiset(ys[..j]);
  }

  lemma OneCopy(xs: seq<Strike>, p: nat)
    requires p < |xs| && DistinctStrikes(xs)
    ensures multiset(xs)[xs[p]] == 1
  {
    assert xs == xs[..p] + [xs[p]] + xs[p + 1..];
    assert xs[p] !in xs[..p] && xs[p] !in xs[p + 1..];
  }

  /** The legs pushed into their groups, unsorted. */
  function Grouped(legs: seq<Strike>): map<string, seq<Strike>> {
    if legs == [] then map[]
    else
      var n := |legs| - 1;
      var rest, s := Grouped(legs[..n]), legs[n];
      rest[s.group := (if s.group in rest then rest[s.group] else []) + [s]]
  }

  function Indexed(legs: seq<Strike>): map<string, Strike> {
    if legs == [] then map[] else Indexed(legs[..|legs| - 1])[legs[|legs| - 1].ticker := legs[|legs| - 1]]
  }

  lemma {:induction false} GroupedHoldsTheGroup(legs: seq<Strike>, g: string)
    ensures g in Grouped(legs) <==> InGroup(legs, g) != []
    ensures g in Grouped(legs) ==> Grouped(legs)[g] == InGroup(legs, g)
  {
    if legs == [] {
    } else {
      GroupedHoldsTheGroup(legs[..|legs| - 1], g);
    }
  }

  class Ladders {
    var groups: map<string, seq<Strike>>
    var byTicker: map<string, Strike>

    constructor ()
      ensures groups == map[] && byTicker == map[]
    {
      groups, byTicker := map[], map[];
    }

    static method SortLadder(legs: seq<Strike>) returns (ladder: seq<Strike>)
      ensures ladder == SortedByStrike(legs)
    {
      ladder := [];
      for i := 0 to |legs|
        invariant ladder == SortedByStrike(legs[..i])
      {
        assert legs[..i + 1][..i] == legs[..i];
        ladder := Inserted(ladder, legs[i]);
      }
      assert legs[..|legs|] == legs;
    }

    method Push(legs: seq<Strike>)
      modifies this
      ensures groups == Grouped(legs) && byTicker == Indexed(legs)
    {
      groups, byTicker := map[], map[];
      for i := 0 to |legs|
        invariant groups == Grouped(legs[..i]) && byTicker == Indexed(legs[..i])
      {
        assert legs[..i + 1][..i] == legs[..i];
        var s := legs[i];
        groups := groups[s.group := (if s.group in groups then groups[s.group] else []) + [s]];
        byTicker := byTicker[s.ticker := s];
      }
      assert legs[..|legs|] == legs;
    }

    /** Rebuilds the ladders: push every leg into its group, then sort each
        group; `keys` is the order the hash map happens to be walked in. */
    method Build(legs: seq<Strike>, keys: seq<string>)
      requires forall g :: g in keys <==> g in Grouped(legs)
      requires Sums.Distinct(keys)
      modifies this
      ensures byTicker == Indexed(legs)
      ensures groups.Keys == Grouped(legs).Keys
      ensures forall g :: g in groups ==> groups[g] == SortedByStrike(InGroup(legs, g))
    {
      Push(legs);
      for k := 0 to |keys|
        invariant byTicker == Indexed(legs)
        invariant groups.Keys == Grouped(legs).Keys
        invariant forall j :: 0 <= j < k ==> groups[keys[j]] == SortedByStrike(Grouped(legs)[keys[j]])
        invariant forall j :: k <= j < |keys| ==> groups[keys[j]] == Grouped(legs)[keys[j]]
      {
        var sorted := SortLadder(groups[keys[k]]);
        groups := groups[keys[k] := sorted];
      }
      forall g | g in groups
        ensures groups[g] == SortedByStrike(InGroup(legs, g))
      {
        assert g in keys;
        GroupedHoldsTheGroup(legs, g);
      }
    }
  }

  // --- delta and fair-value shift -------------------------------------------

  /** Central difference of mids at ladder index `i`, one-sided at the edges;
      None for an orphan, a missing mid, zero width or crossed mids. */
  function DeltaAt(ladder: seq<Strike>, i: nat, mids: map<string, real>, deltaMax: real): Option<real>
    requires i < |ladder|
  {
    if |ladder| == 1 then None
    else
      var lo := ladder[if i > 0 then i - 1 else i];
      var hi := ladder[if i + 1 < |ladder| then i + 1 else i];
      if lo.ticker !in mids || hi.ticker !in mids then None
      else
        var width := hi.strike - lo.strike;
        if width <= 0.0 then None
        else
          var density := (mids[lo.ticker] - mids[hi.ticker]) / width;
          if density < 0.0 then None else Some(Min(density, deltaMax))
  }

  function Times(delta: real, dist: real): real { delta * dist }

  /** Spot-implied shift of one market; None means do not quote. */
  function FvShift(bound: bool, latest: Option<real>, ema: Option<real>, delta: Option<real>,
                   deltaMax: real, shiftMax: real): Option<real>
    requires shiftMax >= 0.0
  {
    if !bound then Some(0.0)
    else if latest.None? || ema.None? then None
    else
      var dist := latest.value - ema.value;
      match delta
      case Some(d) => Some(Clamp(Times(d, dist), -shiftMax, shiftMax))
      case None => if Times(deltaMax, Abs(dist)) < 0.01 then Some(0.0) else None
  }

  /** Delta is a clamped probability density. */
  lemma DeltaInRange(ladder: seq<Strike>, i: nat, mids: map<string, real>, deltaMax: real)
    requires i < |ladder| && deltaMax >= 0.0
    ensures var d := DeltaAt(ladder, i, mids, deltaMax); d.Some? ==> 0.0 <= d.value <= deltaMax
  {
  }

  /** The shift leans the way spot moved, and never past its clamp. */
  lemma ShiftFollowsSpot(latest: real, ema: real, ladder: seq<Strike>, i: nat, mids: map<string, real>,
                         deltaMax: real, shiftMax: real)
    requires i < |ladder| && deltaMax >= 0.0 && shiftMax >= 0.0
    ensures var shift := FvShift(true, Some(latest), Some(ema), DeltaAt(ladder, i, mids, deltaMax), deltaMax, shiftMax);
            shift.Some? ==>
              && -shiftMax <= shift.value <= shiftMax
              && (latest >= ema ==> shift.value >= 0.0)
              && (latest <= ema ==> shift.value <= 0.0)
  {
    hide DeltaAt;
    DeltaInRange(ladder, i, mids, deltaMax);
    var delta := DeltaAt(ladder, i, mids, deltaMax);
    if delta.Some? {
      ProductSign(latest - ema, delta.value);
    }
  }
}
