/** What a strike ladder says about fair value: the delta of a market is the
    slope between its nearest strikes, and the shift is what spot's distance
    from its average is worth on that slope. */
module LadderLaws {
  import opened Numbers
  import opened Ladder

  // --- the index and the groups ---------------------------------------------

  predicate OwnTickers(legs: seq<Strike>) {
    forall i, j :: 0 <= i < j < |legs| ==> legs[i].ticker != legs[j].ticker
  }

  /** The index holds every leg under its ticker, and nothing else. */
  lemma {:induction false} IndexHoldsTheLegs(legs: seq<Strike>)
    requires OwnTickers(legs)
    ensures forall s :: s in legs ==> s.ticker in Indexed(legs) && Indexed(legs)[s.ticker] == s
    ensures forall t :: t in Indexed(legs) ==> Indexed(legs)[t] in legs && Indexed(legs)[t].ticker == t
  {
    if legs == [] {
    } else {
      var before, s := legs[..|legs| - 1], legs[|legs| - 1];
      IndexHoldsTheLegs(before);
      assert legs == before + [s];
    }
  }

  /** The sorted ladder of a group holds exactly the group's legs, in order. */
  lemma LadderHoldsItsGroup(legs: seq<Strike>, g: string)
    ensures var ladder := SortedByStrike(InGroup(legs, g));
            Ascending(ladder) && forall s :: s in ladder <==> s in legs && s.group == g
  {
    hide Ascending, SortedByStrike, InGroup;
    var ladder := SortedByStrike(InGroup(legs, g));
    SortingAscends(InGroup(legs, g));
    forall s
      ensures s in ladder <==> s in legs && s.group == g
    {
      GroupCounts(legs, g, s);
      assert s in ladder <==> s in multiset(ladder);
      assert s in legs <==> s in multiset(legs);
    }
  }

  // --- the delta of a market ------------------------------------------------

  function PositionOf(ladder: seq<Strike>, t: string): (i: nat)
    ensures i <= |ladder|
    ensures i < |ladder| ==> ladder[i].ticker == t
    ensures i == |ladder| ==> forall j :: 0 <= j < |ladder| ==> ladder[j].ticker != t
  {
    if ladder == [] then 0
    else if ladder[0].ticker == t then 0
    else PositionOf(ladder[1..], t) + 1
  }

  /** The delta the rebuilt ladders give for a ticker. */
  function DeltaFor(legs: seq<Strike>, t: string, mids: map<string, real>, deltaMax: real): Option<real> {
    if t !in Indexed(legs) then None
    else
      var ladder := SortedByStrike(InGroup(legs, Indexed(legs)[t].group));
      var i := PositionOf(ladder, t);
      if i == |ladder| then None else DeltaAt(ladder, i, mids, deltaMax)
  }

  /** Fair value falls by `delta` per dollar of strike between two strikes. */
  predicate SlopeIs(delta: Option<real>, lo: Strike, hi: Strike, mids: map<string, real>, deltaMax: real) {
    if lo.ticker in mids && hi.ticker in mids && lo.strike < hi.strike && mids[lo.ticker] >= mids[hi.ticker] then
      delta.Some?
      && delta.value * (hi.strike - lo.strike)
         == Min(mids[lo.ticker] - mids[hi.ticker], deltaMax * (hi.strike - lo.strike))
    else delta.None?
  }

  lemma DeltaAtIsTheSlope(ladder: seq<Strike>, i: nat, mids: map<string, real>, deltaMax: real)
    requires i < |ladder| && |ladder| > 1
    ensures SlopeIs(DeltaAt(ladder, i, mids, deltaMax), ladder[if i == 0 then 0 else i - 1],
                    ladder[if i == |ladder| - 1 then i else i + 1], mids, deltaMax)
  {
    var lo, hi := ladder[if i == 0 then 0 else i - 1], ladder[if i == |ladder| - 1 then i else i + 1];
    if lo.ticker in mids && hi.ticker in mids && lo.strike < hi.strike {
      var drop, width := mids[lo.ticker] - mids[hi.ticker], hi.strike - lo.strike;
      SlopeTimesWidth(drop, width, deltaMax);
    }
  }

  lemma SlopeTimesWidth(drop: real, width: real, deltaMax: real)
    requires width > 0.0
    ensures drop / width >= 0.0 <==> drop >= 0.0
    ensures Min(drop / width, deltaMax) * width == Min(drop, deltaMax * width)
  {
    var q := drop / width;
    DivMul(drop, width);
    SignOfFactor(q, width);
    SignOfFactor(deltaMax - q, width);
    assert (deltaMax - q) * width == deltaMax * width - drop;
  }

  /** No leg of the ladder lies strictly between two of its legs. */
  ghost predicate Adjacent(ladder: set<Strike>, lo: Strike, hi: Strike) {
    lo in ladder && hi in ladder && lo.strike <= hi.strike
    && forall s :: s in ladder ==> s.strike <= lo.strike || hi.strike <= s.strike
  }

  /** The legs around `s`: the nearest below, or `s` itself if it is the lowest,
      and the nearest above, or `s` itself if it is the highest. */
  ghost predicate Around(ladder: set<Strike>, s: Strike, lo: Strike, hi: Strike) {
    Adjacent(ladder, lo, s) && Adjacent(ladder, s, hi)
    && (lo == s ==> forall u :: u in ladder ==> s.strike <= u.strike)
    && (hi == s ==> forall u :: u in ladder ==> u.strike <= s.strike)
  }

  ghost function Group(legs: seq<Strike>, g: string): set<Strike> { set s | s in legs && s.group == g }

  lemma NeighboursAreAround(ladder: seq<Strike>, i: nat, group: set<Strike>)
    requires Ascending(ladder) && i < |ladder| && forall s :: s in ladder <==> s in group
    requires forall j :: 0 <= j < |ladder| && j != i ==> ladder[j] != ladder[i]
    ensures Around(group, ladder[i], ladder[if i == 0 then 0 else i - 1], ladder[if i == |ladder| - 1 then i else i + 1])
  {
    forall s | s in group
      ensures i == 0 || s.strike <= ladder[i - 1].strike || ladder[i].strike <= s.strike
      ensures i == |ladder| - 1 || s.strike <= ladder[i].strike || ladder[i + 1].strike <= s.strike
      ensures i == 0 ==> ladder[i].strike <= s.strike
      ensures i == |ladder| - 1 ==> s.strike <= ladder[i].strike
    {
      assert s in ladder;
      var j :| 0 <= j < |ladder| && ladder[j] == s;
    }
  }

  lemma OwnLeg(legs: seq<Strike>, s: Strike) returns (i: nat)
    requires OwnTickers(legs) && s in legs
    ensures var ladder := SortedByStrike(InGroup(legs, s.group));
            && i == PositionOf(ladder, s.ticker) && i < |ladder| && ladder[i] == s
  {
    hide SortedByStrike, InGroup, Ascending;
    var ladder := SortedByStrike(InGroup(legs, s.group));
    LadderHoldsItsGroup(legs, s.group);
    i := PositionOf(ladder, s.ticker);
    var k :| 0 <= k < |ladder| && ladder[k] == s;
    assert i < |ladder|;
    assert ladder[i] in ladder;
    SameTickerSameLeg(legs, s, ladder[i]);
  }

  lemma SameTickerSameLeg(legs: seq<Strike>, s: Strike, u: Strike)
    requires OwnTickers(legs) && s in legs && u in legs && s.ticker == u.ticker
    ensures s == u
  {
    var i :| 0 <= i < |legs| && legs[i] == s;
    var j :| 0 <= j < |legs| && legs[j] == u;
  }

  /** A market's delta is the slope of mids between its nearest strikes in its
      own ladder, whatever order the legs were discovered in; a lone strike,
      or neighbours without mids or with crossed ones, have none. */
  lemma DeltaIsTheLocalSlope(legs: seq<Strike>, s: Strike, mids: map<string, real>, deltaMax: real)
    returns (lo: Strike, hi: Strike)
    requires OwnTickers(legs) && DistinctStrikes(InGroup(legs, s.group)) && s in legs
    ensures Around(Group(legs, s.group), s, lo, hi)
    ensures SlopeIs(DeltaFor(legs, s.ticker, mids, deltaMax), lo, hi, mids, deltaMax)
  {
    hide SortedByStrike, InGroup, Ascending, DistinctStrikes, DeltaAt, SlopeIs, Around, PositionOf;
    IndexHoldsTheLegs(legs);
    var ladder := SortedByStrike(InGroup(legs, s.group));
    var i := OwnLeg(legs, s);
    LadderHoldsItsGroup(legs, s.group);
    lo, hi := ladder[if i == 0 then 0 else i - 1], ladder[if i == |ladder| - 1 then i else i + 1];
    OnceInLadder(legs, s.group, i);
    NeighboursAreAround(ladder, i, Group(legs, s.group));
    if |ladder| > 1 {
      DeltaAtIsTheSlope(ladder, i, mids, deltaMax);
    } else {
      LoneStrikeHasNone(ladder, mids, deltaMax);
    }
  }

  lemma LoneStrikeHasNone(ladder: seq<Strike>, mids: map<string, real>, deltaMax: real)
    requires |ladder| == 1
    ensures SlopeIs(DeltaAt(ladder, 0, mids, deltaMax), ladder[0], ladder[0], mids, deltaMax)
  {
  }

  /** Distinct strikes stay distinct when sorted. */
  lemma OnceInLadder(legs: seq<Strike>, g: string, i: nat)
    requires DistinctStrikes(InGroup(legs, g)) && i < |SortedByStrike(InGroup(legs, g))|
    ensures var ladder := SortedByStrike(InGroup(legs, g));
            forall j :: 0 <= j < |ladder| && j != i ==> ladder[j] != ladder[i]
  {
    hide SortedByStrike, InGroup, Ascending;
    SortingAscends(InGroup(legs, g));
    DistinctSurvives(InGroup(legs, g), SortedByStrike(InGroup(legs, g)));
  }

  // --- the shift ------------------------------------------------------------

  /** The shift is what spot's distance from its average is worth at the
      market's delta, within the clamp. */
  lemma ShiftIsDeltaTimesDistance(latest: real, ema: real, delta: real, deltaMax: real, shiftMax: real)
    requires shiftMax >= 0.0
    ensures var worth := delta * (latest - ema);
            FvShift(true, Some(latest), Some(ema), Some(delta), deltaMax, shiftMax)
            == Some(if worth > shiftMax then shiftMax else if worth < -shiftMax then -shiftMax else worth)
  {
    assert Times(delta, latest - ema) == delta * (latest - ema);
    hide Times;
  }

  /** Without a delta it is nothing while the most it could be is under a cent,
      and otherwise there is no quote. */
  lemma OrphansQuoteOnlyInCalm(latest: real, ema: real, deltaMax: real, shiftMax: real)
    requires deltaMax >= 0.0 && shiftMax >= 0.0
    ensures var most := deltaMax * (latest - ema);
            FvShift(true, Some(latest), Some(ema), None, deltaMax, shiftMax)
            == if -0.01 < most < 0.01 then Some(0.0) else None
  {
    ScaledAbs(deltaMax, latest - ema);
    assert Times(deltaMax, latest - ema) == deltaMax * (latest - ema);
    hide Times;
  }

  lemma ScaledAbs(m: real, x: real)
    requires m >= 0.0
    ensures Times(m, Abs(x)) == Abs(Times(m, x))
  {
    ProductSign(x, m);
    assert m * x == x * m && m * -x == -(m * x);
  }

  /** Markets outside the spot-bound categories are never shifted, and a bound
      one is not quoted before spot has a price and an average. */
  lemma UnboundMarketsAreNotShifted(latest: Option<real>, ema: Option<real>, delta: Option<real>, deltaMax: real,
                                    shiftMax: real)
    requires shiftMax >= 0.0
    ensures FvShift(false, latest, ema, delta, deltaMax, shiftMax) == Some(0.0)
    ensures latest.None? || ema.None? ==> FvShift(true, latest, ema, delta, deltaMax, shiftMax).None?
  {
  }

  /** Mids on a line in the strikes: fair value at a strike. */
  function FairAt(level: real, slope: real, strike: real): real { level - slope * strike }

  predicate OnALine(ladder: seq<Strike>, mids: map<string, real>, level: real, slope: real) {
    forall i :: 0 <= i < |ladder| ==>
      ladder[i].ticker in mids && mids[ladder[i].ticker] == FairAt(level, slope, ladder[i].strike)
  }

  /** On a straight ladder the shift is exactly the fair value a strike gains
      when spot stands `dist` above its average: what the ladder gives a strike
      that much lower. */
  lemma StraightLadderShifts(ladder: seq<Strike>, i: nat, mids: map<string, real>, level: real, slope: real,
                             ema: real, dist: real, deltaMax: real, shiftMax: real)
    requires i < |ladder| && |ladder| > 1 && Ascending(ladder) && DistinctStrikes(ladder)
    requires OnALine(ladder, mids, level, slope) && 0.0 <= slope <= deltaMax
    requires -shiftMax <= Times(slope, dist) <= shiftMax
    ensures var strike := ladder[i].strike;
            FvShift(true, Some(ema + dist), Some(ema), DeltaAt(ladder, i, mids, deltaMax), deltaMax, shiftMax)
            == Some(FairAt(level, slope, strike - dist) - FairAt(level, slope, strike))
  {
    hide DeltaAt, FairAt, Times;
    var lo, hi := if i == 0 then 0 else i - 1, if i == |ladder| - 1 then i else i + 1;
    DeltaAtIsTheSlope(ladder, i, mids, deltaMax);
    assert ladder[lo].strike < ladder[hi].strike;
    SlopeOfLine(level, slope, ladder[lo].strike, ladder[hi].strike);
    FairGain(level, slope, ladder[i].strike, dist);
    var width := ladder[hi].strike - ladder[lo].strike;
    GentleSlope(slope, deltaMax, width);
    SameFactor(DeltaAt(ladder, i, mids, deltaMax).value, slope, width);
  }

  lemma GentleSlope(slope: real, deltaMax: real, width: real)
    requires 0.0 <= slope <= deltaMax && width > 0.0
    ensures 0.0 <= slope * width <= deltaMax * width
  {
    ProductSign(slope, width);
    ProductSign(deltaMax - slope, width);
    assert (deltaMax - slope) * width == deltaMax * width - slope * width;
  }

  lemma SlopeOfLine(level: real, slope: real, x: real, y: real)
    ensures FairAt(level, slope, x) - FairAt(level, slope, y) == slope * (y - x)
  {
    assert slope * (y - x) == slope * y - slope * x;
  }

  lemma FairGain(level: real, slope: real, strike: real, dist: real)
    ensures FairAt(level, slope, strike - dist) - FairAt(level, slope, strike) == Times(slope, dist)
  {
    assert slope * (strike - dist) == slope * strike - slope * dist;
  }

  lemma SameFactor(x: real, y: real, width: real)
    requires width != 0.0 && x * width == y * width
    ensures x == y
  {
    assert (x - y) * width == 0.0;
  }
}
