/** The spot state on prices and clocks alone: what is kept, what is retained,
    how fast the average forgets, what a return is, when the gate trips. */
module SpotLaws {
  import opened Numbers
  import opened Spot

  // --- what is kept ---------------------------------------------------------

  lemma WindowEndsWithTheHistory(all: seq<Tick>)
    requires TicksOrdered(all)
    ensures all != [] ==> Window(all) != [] && Window(all)[|Window(all)| - 1] == all[|all| - 1]
  {
    if all != [] {
      var k := PrunedIsSuffix(all, all[|all| - 1].time);
    }
  }

  lemma KeepsIff(last: Option<Tick>, price: real, now: real)
    requires last.Some? ==> last.value.price > 0.0
    ensures Keeps(last, price, now) <==>
              price > 0.0
              && (last.Some? && now - last.value.time < 10.0 ==>
                    0.98 * last.value.price <= price <= 1.02 * last.value.price)
  {
    if last.Some? {
      var r, p := price / last.value.price, last.value.price;
      DivMul(price, p);
      assert r * p == price;
      assert (r - 0.98) * p == price - 0.98 * p;
      assert (1.02 - r) * p == 1.02 * p - price;
      SignOfFactor(r - 0.98, p);
      SignOfFactor(1.02 - r, p);
    }
  }

  /** The guard, over the whole history: a message is kept exactly when its
      price is positive and it is not within ten seconds of the last kept tick
      and more than two percent off it. */
  lemma KeptIff(ms: seq<Message>, m: Message)
    requires ClockForward(ms)
    ensures var all := Kept(ms);
            var good := m.price > 0.0
                        && (all != [] && m.now - all[|all| - 1].time < 10.0 ==>
                              0.98 * all[|all| - 1].price <= m.price <= 1.02 * all[|all| - 1].price);
            Kept(ms + [m]) == all + if good then [Tick(m.now, m.price)] else []
  {
    hide Keeps, Window, TicksOrdered;
    WindowIsTheRecentHistory(ms);
    WindowEndsWithTheHistory(Kept(ms));
    NothingInNothing();
    assert (ms + [m])[..|ms|] == ms;
    KeepsIff(Fed(ms).Last(), m.price, m.now);
  }

  lemma NothingInNothing()
    ensures Window([]) == []
  {
  }

  /** The retained ticks are the kept ones of the last two minutes. */
  lemma TwoMinutesAreRetained(ms: seq<Message>) returns (k: nat)
    requires ClockForward(ms)
    ensures k <= |Kept(ms)| && Fed(ms).ticks == Kept(ms)[k..]
    ensures forall i :: 0 <= i < |Kept(ms)| ==>
              (i >= k <==> Kept(ms)[|Kept(ms)| - 1].time - Kept(ms)[i].time <= 120.0)
  {
    hide Kept, Fed, ClockForward;
    WindowIsTheRecentHistory(ms);
    if Kept(ms) == [] {
      k := 0;
    } else {
      k := PrunedIsSuffix(Kept(ms), Kept(ms)[|Kept(ms)| - 1].time);
    }
  }

  // --- the average ----------------------------------------------------------

  /** What is left of a gap after these messages. */
  function Left(tail: seq<Message>): real {
    if tail == [] then 1.0 else Left(tail[..|tail| - 1]) * (1.0 - tail[|tail| - 1].alpha)
  }

  predicate AllKeptAt(ms: seq<Message>, tail: seq<Message>, price: real) {
    forall i :: 0 <= i < |tail| ==>
      tail[i].price == price && Keeps(Fed(ms + tail[..i]).Last(), price, tail[i].now)
  }

  lemma FedStep(ms: seq<Message>, m: Message)
    ensures Fed(ms + [m]) == AfterTick(Fed(ms), m.price, m.now, m.alpha)
  {
    assert (ms + [m])[..|ms|] == ms;
  }

  lemma TickMovesTheAverage(v: SpotView, price: real, now: real, alpha: real)
    requires Keeps(v.Last(), price, now) && v.ticks != [] && v.ema.Some?
    ensures var after := AfterTick(v, price, now, alpha);
            after.ema.Some? && price - after.ema.value == (1.0 - alpha) * (price - v.ema.value)
  {
    hide Keeps;
    var gap := price - v.ema.value;
    assert (1.0 - alpha) * gap == gap - alpha * gap;
  }

  lemma TickStaysInWindow(v: SpotView, price: real, now: real, alpha: real)
    requires Keeps(v.Last(), price, now)
    ensures AfterTick(v, price, now, alpha).ticks != []
  {
    hide Keeps;
    NewestIsNotPruned(v.ticks, Tick(now, price));
  }

  lemma {:induction false} NewestIsNotPruned(ticks: seq<Tick>, tick: Tick)
    ensures Pruned(ticks + [tick], tick.time) != []
    decreases |ticks|
  {
    var all := ticks + [tick];
    if ticks == [] {
      assert all[0] == tick;
    } else {
      assert all[1..] == ticks[1..] + [tick];
      NewestIsNotPruned(ticks[1..], tick);
    }
  }

  /** The average forgets geometrically: while prices stand still, its distance
      from them is what each message's weight leaves of it. */
  lemma {:induction false} AverageForgetsGeometrically(ms: seq<Message>, tail: seq<Message>, price: real)
    requires Fed(ms).ticks != [] && Fed(ms).ema.Some? && AllKeptAt(ms, tail, price)
    ensures Fed(ms + tail).ticks != [] && Fed(ms + tail).ema.Some?
    ensures price - Fed(ms + tail).ema.value == Left(tail) * (price - Fed(ms).ema.value)
  {
    hide Fed, AfterTick, Keeps;
    if tail == [] {
      assert ms + tail == ms;
    } else {
      var before, m := tail[..|tail| - 1], tail[|tail| - 1];
      assert forall i :: 0 <= i < |before| ==> before[..i] == tail[..i] && before[i] == tail[i];
      AverageForgetsGeometrically(ms, before, price);
      assert ms + tail == (ms + before) + [m];
      FedStep(ms + before, m);
      assert Keeps(Fed(ms + tail[..|tail| - 1]).Last(), price, tail[|tail| - 1].now);
      TickMovesTheAverage(Fed(ms + before), price, m.now, m.alpha);
      TickStaysInWindow(Fed(ms + before), price, m.now, m.alpha);
      Rescaled(Left(before), 1.0 - m.alpha, price - Fed(ms).ema.value);
    }
  }

  lemma Rescaled(x: real, y: real, z: real)
    ensures y * (x * z) == x * y * z
  {
  }

  /** It starts at the first kept price. */
  lemma AverageStartsAtTheFirstPrice(price: real, now: real, alpha: real)
    requires price > 0.0
    ensures Fed([Message(price, now, alpha)]) == SpotView([Tick(now, price)], Some(price))
  {
    assert [Message(price, now, alpha)][..0] == [];
    assert ([] + [Tick(now, price)])[0] == Tick(now, price);
  }

  // --- returns --------------------------------------------------------------

  /** The base is the newest tick old enough. */
  lemma {:induction false} BaseIsTheNewest(ticks: seq<Tick>, window: real, now: real) returns (i: int)
    ensures -1 <= i < |ticks|
    ensures forall j :: i < j < |ticks| ==> now - ticks[j].time < window
    ensures i == -1 ==> Base(ticks, window, now).None?
    ensures i >= 0 ==> Base(ticks, window, now) == Some(ticks[i]) && now - ticks[i].time >= window
  {
    if ticks == [] {
      i := -1;
    } else if now - ticks[|ticks| - 1].time >= window {
      i := |ticks| - 1;
    } else {
      i := BaseIsTheNewest(ticks[..|ticks| - 1], window, now);
    }
  }

  /** A return is the relative move from the newest tick old enough to the
      latest one; there is none exactly when no tick is old enough. */
  lemma ReturnIsTheMove(ticks: seq<Tick>, window: real, now: real) returns (i: int)
    requires PositivePrices(ticks)
    ensures -1 <= i < |ticks|
    ensures forall j :: i < j < |ticks| ==> now - ticks[j].time < window
    ensures i == -1 ==> ReturnOver(ticks, window, now).None?
    ensures i >= 0 ==>
              && now - ticks[i].time >= window && ReturnOver(ticks, window, now).Some?
              && ticks[|ticks| - 1].price == ticks[i].price * (1.0 + ReturnOver(ticks, window, now).value)
  {
    i := BaseIsTheNewest(ticks, window, now);
    if i >= 0 {
      DivMul(ticks[|ticks| - 1].price, ticks[i].price);
    }
  }

  // --- the gate -------------------------------------------------------------

  /** The gate trips strictly above `trip`, releases at or below its release
      level, and between the two stays as it is. */
  lemma GateHasTwoLevels(r: real, gated: bool, trip: real, ratio: real)
    requires 0.0 <= trip && 0.0 < ratio <= 1.0
    ensures trip * ratio <= trip
    ensures TrendGated(r, gated, trip, ratio) == if r > trip then true else if r <= trip * ratio then false else gated
  {
    ProductSign(trip, 1.0 - ratio);
    assert trip * (1.0 - ratio) == trip - trip * ratio;
  }

  /** The market may quote exactly when the latest price is fresh and within the
      gate's level of the newest price a minute old. */
  lemma OpenIffFreshAndCalm(v: SpotView, on: bool, now: real, maxAge: real, trip: real, ratio: real) returns (i: int)
    requires PositivePrices(v.ticks)
    ensures -1 <= i < |v.ticks|
    ensures forall j :: i < j < |v.ticks| ==> now - v.ticks[j].time < 60.0
    ensures i >= 0 ==> now - v.ticks[i].time >= 60.0
    ensures var level := if on then trip * ratio else trip;
            !SpotGated(v, on, now, maxAge, trip, ratio) <==>
              i >= 0
              && now - v.ticks[|v.ticks| - 1].time <= maxAge
              && Abs(v.ticks[|v.ticks| - 1].price - v.ticks[i].price) <= v.ticks[i].price * level
  {
    hide ReturnOver;
    i := ReturnIsTheMove(v.ticks, 60.0, now);
    if i >= 0 {
      var level := if on then trip * ratio else trip;
      MoveWithin(v.ticks[i].price, v.ticks[|v.ticks| - 1].price, ReturnOver(v.ticks, 60.0, now).value, level);
    }
  }

  lemma MoveWithin(base: real, latest: real, r: real, level: real)
    requires base > 0.0 && latest == base * (1.0 + r)
    ensures Abs(r) <= level <==> Abs(latest - base) <= base * level
  {
    assert latest - base == base * r;
    assert base * -r == -(base * r);
    SignOfFactor(level - Abs(r), base);
    assert (level - Abs(r)) * base == base * level - base * Abs(r);
    SignOfFactor(r, base);
  }
}
