/** Spot price state (src/spot.rs): an outlier-guarded tick window with an
    EMA, windowed returns, and the trend gate. `alpha` stands for
    1 - exp(-dt / tau), of which only 0 <= alpha <= 1 is used. */
module Spot {
  import opened Numbers

  const RETAIN_S := 120.0
  const OUTLIER_JUMP := 0.02
  const OUTLIER_WINDOW_S := 10.0

  datatype Tick = Tick(time: real, price: real)

  datatype SpotView = SpotView(ticks: seq<Tick>, ema: Option<real>) {
    function Last(): Option<Tick> { if ticks == [] then None else Some(ticks[|ticks| - 1]) }
  }

  predicate PositivePrices(ticks: seq<Tick>) { forall i :: 0 <= i < |ticks| ==> ticks[i].price > 0.0 }

  // --- specification --------------------------------------------------------

  /** The outlier guard: junk prices, and fast jumps off the last kept tick. */
  predicate Keeps(last: Option<Tick>, price: real, now: real) {
    price > 0.0
    && (last.Some? ==>
          last.value.price != 0.0
          && !(now - last.value.time < OUTLIER_WINDOW_S && Abs(price / last.value.price - 1.0) > OUTLIER_JUMP))
  }

  /** Ticks at most 120 s older than `now`, dropped from the front. */
  function Pruned(ticks: seq<Tick>, now: real): seq<Tick> {
    if ticks != [] && now - ticks[0].time > RETAIN_S then Pruned(ticks[1..], now) else ticks
  }

  function NextEma(v: SpotView, price: real, alpha: real): real {
    if v.ticks == [] then price
    else
      var ema := v.ema.GetOr(v.ticks[|v.ticks| - 1].price);
      ema + alpha * (price - ema)
  }

  function AfterTick(v: SpotView, price: real, now: real, alpha: real): SpotView {
    if !Keeps(v.Last(), price, now) then v
    else SpotView(Pruned(v.ticks + [Tick(now, price)], now), Some(NextEma(v, price, alpha)))
  }

  /** Newest tick at least `window` old. */
  function Base(ticks: seq<Tick>, window: real, now: real): Option<Tick> {
    if ticks == [] then None
    else if now - ticks[|ticks| - 1].time >= window then Some(ticks[|ticks| - 1])
    else Base(ticks[..|ticks| - 1], window, now)
  }

  function ReturnOver(ticks: seq<Tick>, window: real, now: real): Option<real> {
    if ticks == [] then None
    else
      match Base(ticks, window, now)
      case None => None
      case Some(base) =>
        if base.price == 0.0 then None else Some(ticks[|ticks| - 1].price / base.price - 1.0)
  }

  function TrendGated(retAbs: real, gated: bool, trip: real, releaseRatio: real): bool {
    retAbs > if gated then trip * releaseRatio else trip
  }

  predicate Stale(v: SpotView, now: real, maxAge: real) { v.Last().None? || now - v.Last().value.time > maxAge }

  /** Spot-bound markets must not quote: the feed is stale, has no minute of
      history yet, or is trending. `on` is the latch. */
  predicate SpotGated(v: SpotView, on: bool, now: real, maxAge: real, trip: real, releaseRatio: real) {
    Stale(v, now, maxAge)
    || match ReturnOver(v.ticks, 60.0, now)
       case None => true
       case Some(r) => TrendGated(Abs(r), on, trip, releaseRatio)
  }

  // --- the state updated in place -------------------------------------------

  class SpotState {
    var ticks: seq<Tick>
    var ema: Option<real>

    ghost function View(): SpotView
      reads this
    {
      SpotView(ticks, ema)
    }

    /** Every stored price is positive. */
    predicate Valid()
      reads this
    {
      PositivePrices(ticks)
    }

    constructor ()
      ensures Valid() && View() == SpotView([], None)
    {
      ticks, ema := [], None;
    }

    /** Folds one tick; false when the outlier guard dropped it. */
    method OnTick(price: real, now: real, alpha: real) returns (kept: bool)
      requires Valid()
      modifies this
      ensures Valid()
      ensures View() == AfterTick(old(View()), price, now, alpha)
      ensures kept == Keeps(old(View()).Last(), price, now)
    {
      if price <= 0.0 {
        return false;
      }
      if ticks != [] {
        var last := ticks[|ticks| - 1];
        var fast := now - last.time < OUTLIER_WINDOW_S;
        if fast && Abs(price / last.price - 1.0) > OUTLIER_JUMP {
          return false;
        }
        var previous := ema.GetOr(last.price);
        assert NextEma(View(), price, alpha) == previous + alpha * (price - previous);
        ema := Some(previous + alpha * (price - previous));
        assert ema == Some(NextEma(old(View()), price, alpha));
      } else {
        ema := Some(price);
      }
      ticks := ticks + [Tick(now, price)];
      ghost var all, average := ticks, ema;
      while ticks != [] && now - ticks[0].time > RETAIN_S
        invariant Valid() && ema == average
        invariant Pruned(ticks, now) == Pruned(all, now)
        decreases |ticks|
      {
        ticks := ticks[1..];
      }
      assert ema == Some(NextEma(old(View()), price, alpha));
      assert all == old(ticks) + [Tick(now, price)];
      assert Pruned(ticks, now) == ticks;
      return true;
    }

    /** Return over the window, or None until the buffer spans it. */
    method Ret(window: real, now: real) returns (r: Option<real>)
      requires Valid()
      ensures r == ReturnOver(ticks, window, now)
    {
      if ticks == [] {
        return None;
      }
      var latest := ticks[|ticks| - 1];
      var i := |ticks|;
      assert ticks[..i] == ticks;
      while i > 0 && now - ticks[i - 1].time < window
        invariant 0 <= i <= |ticks|
        invariant Base(ticks[..i], window, now) == Base(ticks, window, now)
      {
        assert ticks[..i][..i - 1] == ticks[..i - 1];
        i := i - 1;
      }
      if i == 0 {
        return None;
      }
      return Some(latest.price / ticks[i - 1].price - 1.0);
    }
  }

  // --- whole runs -----------------------------------------------------------

  /** One feed message: a price, its arrival time, its EMA weight. */
  datatype Message = Message(price: real, now: real, alpha: real)

  function Fed(ms: seq<Message>): SpotView {
    if ms == [] then SpotView([], None)
    else
      var m := ms[|ms| - 1];
      AfterTick(Fed(ms[..|ms| - 1]), m.price, m.now, m.alpha)
  }

  /** Every tick ever kept: the unpruned history. */
  function Kept(ms: seq<Message>): seq<Tick> {
    if ms == [] then []
    else
      var before, m := ms[..|ms| - 1], ms[|ms| - 1];
      Kept(before) + if Keeps(Fed(before).Last(), m.price, m.now) then [Tick(m.now, m.price)] else []
  }

  predicate ClockForward(ms: seq<Message>) {
    forall i, j :: 0 <= i < j < |ms| ==> ms[i].now <= ms[j].now
  }

  predicate Weights(ms: seq<Message>) { forall i :: 0 <= i < |ms| ==> 0.0 <= ms[i].alpha <= 1.0 }

  predicate TicksOrdered(ticks: seq<Tick>) {
    forall i, j :: 0 <= i < j < |ticks| ==> ticks[i].time <= ticks[j].time
  }

  /** The ticks of a time-ordered history within the retention of its last. */
  function Window(all: seq<Tick>): seq<Tick> {
    if all == [] then [] else Pruned(all, all[|all| - 1].time)
  }

  /** In time order, pruning is cutting off a prefix: all of it too old, all
      of the rest recent. */
  lemma {:induction false} PrunedIsSuffix(ticks: seq<Tick>, now: real) returns (k: nat)
    requires TicksOrdered(ticks)
    ensures k <= |ticks| && Pruned(ticks, now) == ticks[k..]
    ensures forall i :: 0 <= i < |ticks| ==> (i < k <==> now - ticks[i].time > RETAIN_S)
  {
    if ticks != [] && now - ticks[0].time > RETAIN_S {
      k := PrunedIsSuffix(ticks[1..], now);
      forall i | 0 <= i < |ticks|
        ensures i < k + 1 <==> now - ticks[i].time > RETAIN_S
      {
        if i > 0 {
          assert ticks[i] == ticks[1..][i - 1];
        }
      }
      k := k + 1;
    } else {
      k := 0;
      assert ticks[0..] == ticks;
    }
  }

  lemma PrunedTwice(all: seq<Tick>, before: real, now: real, tick: Tick)
    requires TicksOrdered(all + [tick]) && before <= now
    ensures Pruned(Pruned(all, before) + [tick], now) == Pruned(all + [tick], now)
  {
    assert forall i :: 0 <= i < |all| ==> all[i] == (all + [tick])[i];
    var k := PrunedIsSuffix(all, before);
    var whole := all + [tick];
    var kept := all[k..] + [tick];
    assert kept == whole[k..];
    var n := PrunedIsSuffix(whole, now);
    assert k > 0 ==> whole[k - 1] == all[k - 1];
    SuffixPrunes(whole, k, n, now);
  }

  lemma {:induction false} SuffixPrunes(ticks: seq<Tick>, k: nat, n: nat, now: real)
    requires k <= n <= |ticks|
    requires forall i :: 0 <= i < |ticks| ==> (i < n <==> now - ticks[i].time > RETAIN_S)
    ensures Pruned(ticks[k..], now) == ticks[n..]
    decreases n - k
  {
    if k < n {
      assert ticks[k..][1..] == ticks[k + 1..];
      SuffixPrunes(ticks, k + 1, n, now);
    }
  }

  lemma {:induction false} KeptIsOrdered(ms: seq<Message>)
    requires ClockForward(ms)
    ensures TicksOrdered(Kept(ms)) && PositivePrices(Kept(ms))
    ensures forall i :: 0 <= i < |Kept(ms)| ==> Kept(ms)[i].time <= (if ms == [] then 0.0 else ms[|ms| - 1].now)
  {
    hide Fed;
    if ms == [] {
    } else {
      KeptIsOrdered(ms[..|ms| - 1]);
    }
  }

  lemma WindowStep(all: seq<Tick>, tick: Tick)
    requires TicksOrdered(all + [tick])
    ensures Pruned(Window(all) + [tick], tick.time) == Window(all + [tick])
  {
    hide Pruned;
    assert (all + [tick])[|all + [tick]| - 1] == tick;
    if all == [] {
    } else {
      assert all[|all| - 1] == (all + [tick])[|all| - 1];
      PrunedTwice(all, all[|all| - 1].time, tick.time, tick);
    }
  }

  /** The retained ticks are exactly the kept ones within 120 s of the latest,
      and the guard sees the same last tick as it would on full history. */
  lemma {:induction false} WindowIsTheRecentHistory(ms: seq<Message>)
    requires ClockForward(ms)
    ensures TicksOrdered(Kept(ms)) && PositivePrices(Kept(ms))
    ensures Fed(ms).ticks == Window(Kept(ms))
    ensures forall i :: 0 <= i < |Kept(ms)| ==> Kept(ms)[i].time <= (if ms == [] then 0.0 else ms[|ms| - 1].now)
  {
    hide TicksOrdered, PositivePrices, Pruned, Window, NextEma;
    KeptIsOrdered(ms);
    if ms == [] {
      NoHistoryNoWindow();
    } else {
      WindowIsTheRecentHistory(ms[..|ms| - 1]);
      var all, m := Kept(ms[..|ms| - 1]), ms[|ms| - 1];
      if Keeps(Fed(ms[..|ms| - 1]).Last(), m.price, m.now) {
        WindowStep(all, Tick(m.now, m.price));
      } else {
        assert all + [] == all;
      }
    }
  }

  lemma NoHistoryNoWindow()
    ensures Window([]) == []
  {
  }

  lemma {:induction false} BaseIsNewestOldEnough(ticks: seq<Tick>, window: real, now: real)
    requires TicksOrdered(ticks)
    ensures var base := Base(ticks, window, now);
            if base.None? then forall i :: 0 <= i < |ticks| ==> now - ticks[i].time < window
            else base.value in ticks && now - base.value.time >= window
  {
    if ticks != [] && now - ticks[|ticks| - 1].time < window {
      BaseIsNewestOldEnough(ticks[..|ticks| - 1], window, now);
    }
  }

  lemma {:induction false} BaseOfSuffix(ticks: seq<Tick>, k: nat, window: real, now: real)
    requires k <= |ticks|
    ensures Base(ticks[k..], window, now)
         == if Base(ticks, window, now).Some? && BaseIndex(ticks, window, now) >= k
            then Base(ticks, window, now) else None
    decreases |ticks|
  {
    if k < |ticks| && now - ticks[|ticks| - 1].time < window {
      var before := ticks[..|ticks| - 1];
      assert ticks[k..][..|ticks[k..]| - 1] == before[k..];
      BaseOfSuffix(before, k, window, now);
    }
  }

  /** Where the base sits. */
  function BaseIndex(ticks: seq<Tick>, window: real, now: real): (i: int)
    ensures i < |ticks|
    ensures Base(ticks, window, now).Some? ==> i >= 0 && ticks[i] == Base(ticks, window, now).value
    ensures Base(ticks, window, now).None? ==> i == -1
  {
    if ticks == [] then -1
    else if now - ticks[|ticks| - 1].time >= window then |ticks| - 1
    else BaseIndex(ticks[..|ticks| - 1], window, now)
  }

  lemma ReturnOfSuffix(all: seq<Tick>, k: nat, window: real, now: real)
    requires k < |all| && PositivePrices(all)
    ensures var full, cached := ReturnOver(all, window, now), ReturnOver(all[k..], window, now);
            && (cached.Some? ==> cached == full)
            && (cached.None? <==> Base(all, window, now).None? || BaseIndex(all, window, now) < k)
  {
    hide Base, BaseIndex;
    assert all[k..][|all[k..]| - 1] == all[|all| - 1];
    BaseOfSuffix(all, k, window, now);
  }

  /** The pruned window is a sound cache of returns: it gives the answer full
      history would, or none, and none exactly when full history has no base
      either or its base is more than 120 s older than the latest tick. */
  lemma CachedReturnIsSound(ms: seq<Message>, window: real, now: real)
    requires ClockForward(ms)
    ensures var all := Kept(ms);
            var full, cached := ReturnOver(all, window, now), ReturnOver(Fed(ms).ticks, window, now);
            && (cached.Some? ==> cached == full)
            && (cached.None? <==>
                  all == [] || Base(all, window, now).None?
                  || all[|all| - 1].time - Base(all, window, now).value.time > 120.0)
  {
    WindowIsTheRecentHistory(ms);
    WindowReturn(Kept(ms), window, now);
  }

  lemma WindowReturn(all: seq<Tick>, window: real, now: real)
    requires TicksOrdered(all) && PositivePrices(all)
    ensures var full, cached := ReturnOver(all, window, now), ReturnOver(Window(all), window, now);
            && (cached.Some? ==> cached == full)
            && (cached.None? <==>
                  all == [] || Base(all, window, now).None?
                  || all[|all| - 1].time - Base(all, window, now).value.time > 120.0)
  {
    hide Base, BaseIndex, ReturnOver, Pruned;
    if all != [] {
      var k := PrunedIsSuffix(all, all[|all| - 1].time);
      ReturnOfSuffix(all, k, window, now);
    } else {
      NothingToReturn(window, now);
    }
  }

  lemma NothingToReturn(window: real, now: real)
    ensures ReturnOver([], window, now).None?
  {
  }

  // --- the EMA --------------------------------------------------------------

  predicate Within(x: real, ticks: seq<Tick>) {
    (exists i :: 0 <= i < |ticks| && ticks[i].price <= x) && (exists i :: 0 <= i < |ticks| && x <= ticks[i].price)
  }

  lemma Blend(x: real, y: real, alpha: real)
    requires 0.0 <= alpha <= 1.0
    ensures Min(x, y) <= x + alpha * (y - x) <= Max(x, y)
  {
    var d := y - x;
    ProductSign(d, alpha);
    ProductSign(d, 1.0 - alpha);
    assert d * (1.0 - alpha) == d - d * alpha;
    assert alpha * (y - x) == d * alpha;
  }

  /** The EMA exists once a tick was kept, and lies between the least and the
      greatest kept price. */
  lemma {:induction false} EmaStaysInRange(ms: seq<Message>)
    requires ClockForward(ms) && Weights(ms)
    ensures Fed(ms).ema.Some? <==> Kept(ms) != []
    ensures Fed(ms).ema.Some? ==> Within(Fed(ms).ema.value, Kept(ms))
  {
    hide NextEma, Keeps, Pruned, Within;
    if ms == [] {
    } else {
      var before, m := ms[..|ms| - 1], ms[|ms| - 1];
      EmaStaysInRange(before);
      var v, all, tick := Fed(before), Kept(before), Tick(m.now, m.price);
      if Keeps(v.Last(), m.price, m.now) {
        WindowIsTheRecentHistory(before);
        LatestIsRetained(all);
        NextEmaBlends(v, m.price, m.alpha);
        if all == [] {
          WithinItself(m.price, m.now);
          assert all + [tick] == [tick];
        } else {
          WithinExtends(v.ema.value, all, tick, NextEma(v, m.price, m.alpha));
        }
      } else {
        assert Kept(ms) == all;
      }
    }
  }

  lemma LatestIsRetained(all: seq<Tick>)
    requires TicksOrdered(all)
    ensures Window(all) == [] <==> all == []
  {
    if all != [] {
      var k := PrunedIsSuffix(all, all[|all| - 1].time);
    }
  }

  lemma NextEmaBlends(v: SpotView, price: real, alpha: real)
    requires 0.0 <= alpha <= 1.0
    ensures v.ticks == [] ==> NextEma(v, price, alpha) == price
    ensures v.ticks != [] && v.ema.Some?
        ==> Min(v.ema.value, price) <= NextEma(v, price, alpha) <= Max(v.ema.value, price)
  {
    if v.ticks != [] && v.ema.Some? {
      Blend(v.ema.value, price, alpha);
    }
  }

  lemma WithinItself(price: real, now: real)
    ensures Within(price, [Tick(now, price)])
  {
    assert [Tick(now, price)][0].price <= price <= [Tick(now, price)][0].price;
  }

  lemma WithinExtends(ema: real, all: seq<Tick>, tick: Tick, next: real)
    requires Within(ema, all)
    requires Min(ema, tick.price) <= next <= Max(ema, tick.price)
    ensures Within(next, all + [tick])
  {
    var kept := all + [tick];
    var lo :| 0 <= lo < |all| && all[lo].price <= ema;
    var hi :| 0 <= hi < |all| && ema <= all[hi].price;
    assert kept[lo] == all[lo] && kept[hi] == all[hi] && kept[|all|] == tick;
  }

  // --- the trend gate cannot flap -------------------------------------------

  /** The latch after a sequence of absolute returns, from released. */
  function Gate(rs: seq<real>, trip: real, ratio: real): bool {
    if rs == [] then false else TrendGated(rs[|rs| - 1], Gate(rs[..|rs| - 1], trip, ratio), trip, ratio)
  }

  function Flips(rs: seq<real>, trip: real, ratio: real): nat {
    if rs == [] then 0
    else
      Flips(rs[..|rs| - 1], trip, ratio)
      + if Gate(rs, trip, ratio) != Gate(rs[..|rs| - 1], trip, ratio) then 1 else 0
  }

  /** Total up-and-down movement of the sequence. */
  function Variation(rs: seq<real>): real {
    if |rs| <= 1 then 0.0 else Variation(rs[..|rs| - 1]) + Abs(rs[|rs| - 1] - rs[|rs| - 2])
  }

  /** Distance the sequence has already covered toward the next flip. */
  function Slack(rs: seq<real>, gated: bool, trip: real, release: real): real
    requires rs != []
  {
    if gated then Max(0.0, trip - rs[|rs| - 1]) else Max(0.0, rs[|rs| - 1] - release)
  }

  lemma GateStep(r: real, gated: bool, trip: real, ratio: real, release: real)
    requires release == trip * ratio
    ensures TrendGated(r, gated, trip, ratio) <==> r > if gated then release else trip
  {
  }

  /** The cost of `n` crossings of the band. */
  function Crossings(n: int, band: real): real { n as real * band }

  lemma OneMoreCrossing(n: int, band: real)
    ensures Crossings(n, band) == Crossings(n - 1, band) + band
    ensures Crossings(0, band) == 0.0
  {
    assert n as real == (n - 1) as real + 1.0;
    assert ((n - 1) as real + 1.0) * band == (n - 1) as real * band + band;
  }

  lemma {:induction false} FlipsPayInVariation(rs: seq<real>, trip: real, ratio: real, release: real)
    requires release == trip * ratio && 0.0 <= release <= trip
    requires rs != [] && Flips(rs, trip, ratio) > 0
    ensures Variation(rs) >= Crossings(Flips(rs, trip, ratio) - 1, trip - release)
                             + Slack(rs, Gate(rs, trip, ratio), trip, release)
  {
    hide TrendGated, Crossings;
    var n := |rs| - 1;
    var before := rs[..n];
    var f := Flips(before, trip, ratio);
    GateStep(rs[n], Gate(before, trip, ratio), trip, ratio, release);
    OneMoreCrossing(f, trip - release);
    VariationNonNegative(rs);
    if f > 0 {
      FlipsPayInVariation(before, trip, ratio, release);
      assert before[|before| - 1] == rs[n - 1];
    } else {
      StillReleased(before, trip, ratio);
    }
  }

  lemma {:induction false} StillReleased(rs: seq<real>, trip: real, ratio: real)
    requires Flips(rs, trip, ratio) == 0
    ensures !Gate(rs, trip, ratio)
  {
    if rs == [] {
    } else {
      StillReleased(rs[..|rs| - 1], trip, ratio);
    }
  }

  lemma BandForm(f: int, trip: real, ratio: real)
    ensures (f as real - 1.0) * trip * (1.0 - ratio) == Crossings(f - 1, trip - trip * ratio)
    ensures trip * (1.0 - ratio) == trip - trip * ratio
  {
    var x := f as real - 1.0;
    assert x == (f - 1) as real;
    assert x * trip * (1.0 - ratio) == x * trip - x * trip * ratio;
    assert x * (trip - trip * ratio) == x * trip - x * (trip * ratio);
    assert x * trip * ratio == x * (trip * ratio);
  }

  /** Each flip after the first costs a full crossing of the hysteresis band:
      a return hovering at the threshold cannot flap the gate. */
  lemma TrendGateCannotFlap(rs: seq<real>, trip: real, ratio: real)
    requires trip > 0.0 && 0.0 < ratio <= 1.0
    ensures (Flips(rs, trip, ratio) as real - 1.0) * trip * (1.0 - ratio) <= Variation(rs)
  {
    hide Flips, Variation, Gate, Crossings;
    var f: int := Flips(rs, trip, ratio);
    var release := trip * ratio;
    var band := trip - release;
    BandForm(f, trip, ratio);
    ProductSign(trip, 1.0 - ratio);
    ProductSign(trip, ratio);
    VariationNonNegative(rs);
    if f == 0 {
      OneMoreCrossing(f, band);
    } else {
      NoFlipsWithoutReturns(rs, trip, ratio);
      FlipsPayInVariation(rs, trip, ratio, release);
    }
  }

  lemma NoFlipsWithoutReturns(rs: seq<real>, trip: real, ratio: real)
    ensures Flips(rs, trip, ratio) > 0 ==> rs != []
  {
  }

  lemma {:induction false} VariationNonNegative(rs: seq<real>)
    ensures Variation(rs) >= 0.0
  {
    if |rs| <= 1 {
    } else {
      VariationNonNegative(rs[..|rs| - 1]);
    }
  }
}
