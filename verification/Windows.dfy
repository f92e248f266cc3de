/** Incremental market windows (src/book.rs): pruned trade prints and the
    bounded mid history, against recomputation from the full record. */
module Windows {
  import Numbers

  const TRADE_WINDOW_S := 60.0
  const MID_WINDOW_S := 60.0
  const MID_HISTORY: nat := 20

  datatype Taker = Yes | No

  datatype Print = Print(time: real, count: int, taker: Taker)

  predicate PrintsOrdered(log: seq<Print>) { forall i, j :: 0 <= i < j < |log| ==> log[i].time <= log[j].time }

  /** Stale prints dropped from the front. */
  function PrunedTrades(log: seq<Print>, now: real): seq<Print> {
    if log != [] && log[0].time < now - TRADE_WINDOW_S then PrunedTrades(log[1..], now) else log
  }

  method PruneTrades(trades: seq<Print>, now: real) returns (kept: seq<Print>)
    ensures kept == PrunedTrades(trades, now)
  {
    var cutoff, stale := now - TRADE_WINDOW_S, 0;
    while stale < |trades| && trades[stale].time < cutoff
      invariant 0 <= stale <= |trades|
      invariant PrunedTrades(trades[stale..], now) == PrunedTrades(trades, now)
    {
      assert trades[stale..][1..] == trades[stale + 1..];
      stale := stale + 1;
    }
    kept := trades[stale..];
  }

  /** Recomputation: every print of the record inside the window. */
  function InWindow(log: seq<Print>, now: real): seq<Print> {
    if log == [] then []
    else
      var n := |log| - 1;
      InWindow(log[..n], now) + if log[n].time < now - TRADE_WINDOW_S then [] else [log[n]]
  }

  /** Push and prune on every print, at its arrival time. */
  function Incremental(log: seq<Print>): seq<Print> {
    if log == [] then []
    else
      var p := log[|log| - 1];
      PrunedTrades(Incremental(log[..|log| - 1]) + [p], p.time)
  }

  lemma {:induction false} PruneStart(log: seq<Print>, now: real) returns (k: nat)
    requires PrintsOrdered(log)
    ensures k <= |log| && PrunedTrades(log, now) == log[k..]
    ensures forall i :: 0 <= i < |log| ==> (i < k <==> log[i].time < now - TRADE_WINDOW_S)
  {
    if log != [] && log[0].time < now - TRADE_WINDOW_S {
      var j := PruneStart(log[1..], now);
      k := j + 1;
      assert forall i :: 0 < i < |log| ==> log[i] == log[1..][i - 1];
    } else {
      k := 0;
    }
  }

  lemma {:induction false} WindowIsSuffix(log: seq<Print>, now: real, k: nat)
    requires k <= |log|
    requires forall i :: 0 <= i < |log| ==> (i < k <==> log[i].time < now - TRADE_WINDOW_S)
    ensures InWindow(log, now) == log[k..]
  {
    if log == [] {
    } else {
      var n := |log| - 1;
      if k <= n {
        WindowIsSuffix(log[..n], now, k);
        assert log[k..] == log[..n][k..] + [log[n]];
      } else {
        WindowIsSuffix(log[..n], now, n);
      }
    }
  }

  /** Pruning an already pruned list later gives the later window. */
  lemma {:induction false} SuffixPrunes(log: seq<Print>, j: nat, k: nat, now: real)
    requires j <= k <= |log|
    requires forall i :: 0 <= i < |log| ==> (i < k <==> log[i].time < now - TRADE_WINDOW_S)
    ensures PrunedTrades(log[j..], now) == log[k..]
    decreases k - j
  {
    if j < k {
      assert log[j..][1..] == log[j + 1..];
      SuffixPrunes(log, j + 1, k, now);
    }
  }

  lemma {:induction false} IncrementalIsTheWindow(log: seq<Print>)
    requires PrintsOrdered(log) && log != []
    ensures Incremental(log) == InWindow(log, log[|log| - 1].time)
  {
    hide InWindow, PrunedTrades, PrintsOrdered;
    var n := |log| - 1;
    var before, p := log[..n], log[n];
    assert log == before + [p];
    if before == [] {
      PushThenPrune(before, p, 0, p.time);
    } else {
      OrderedPrefix(before, p);
      IncrementalIsTheWindow(before);
      var j := PruneStart(before, before[n - 1].time);
      WindowIsSuffix(before, before[n - 1].time, j);
      PushThenPrune(before, p, j, before[n - 1].time);
    }
  }

  lemma OrderedPrefix(log: seq<Print>, p: Print)
    requires PrintsOrdered(log + [p])
    ensures PrintsOrdered(log)
    ensures log != [] ==> log[|log| - 1].time <= p.time
  {
    assert forall i :: 0 <= i < |log| ==> log[i] == (log + [p])[i];
    assert (log + [p])[|log|] == p;
  }

  /** The maintained list, pruned at any later time, is the recomputed window
      of the full record: nothing is lost and nothing stale is left. */
  lemma IncrementalWindowIsRecomputed(log: seq<Print>, now: real)
    requires PrintsOrdered(log) && (log != [] ==> log[|log| - 1].time <= now)
    ensures PrunedTrades(Incremental(log), now) == InWindow(log, now)
    ensures log != [] ==> Incremental(log) == InWindow(log, log[|log| - 1].time)
  {
    hide PrintsOrdered;
    if log == [] {
    } else {
      var last := log[|log| - 1].time;
      IncrementalIsTheWindow(log);
      var m := PruneStart(log, last);
      WindowIsSuffix(log, last, m);
      WindowReached(log, m, now);
    }
  }

  /** One print pushed on a window that starts at `j`. */
  lemma PushThenPrune(log: seq<Print>, p: Print, j: nat, last: real)
    requires PrintsOrdered(log + [p]) && j <= |log| && last <= p.time
    requires forall i :: 0 <= i < j ==> log[i].time < last - TRADE_WINDOW_S
    ensures PrunedTrades(log[j..] + [p], p.time) == InWindow(log + [p], p.time)
  {
    hide InWindow, PrunedTrades, PrintsOrdered;
    assert (log + [p])[j..] == log[j..] + [p];
    WindowReached(log + [p], j, p.time);
  }

  lemma WindowReached(log: seq<Print>, j: nat, now: real)
    requires PrintsOrdered(log) && j <= |log|
    requires forall i :: 0 <= i < j ==> log[i].time < now - TRADE_WINDOW_S
    ensures PrunedTrades(log[j..], now) == InWindow(log, now)
  {
    var k := PruneStart(log, now);
    WindowIsSuffix(log, now, k);
    SuffixPrunes(log, j, k, now);
  }

  // --- features -------------------------------------------------------------

  function Contracts(prints: seq<Print>, taker: Taker): int {
    if prints == [] then 0
    else
      var p := prints[|prints| - 1];
      Contracts(prints[..|prints| - 1], taker) + if p.taker == taker then p.count else 0
  }

  /** (volume, flow) of a window; a taker of NO means the maker bought YES. */
  function Features(prints: seq<Print>): (real, real) {
    if prints == [] then (0.0, 0.0)
    else
      var bought, sold := Contracts(prints, No), Contracts(prints, Yes);
      var total := if bought + sold < 1 then 1 else bought + sold;
      (Numbers.Min(|prints| as real / 50.0, 1.0), (bought - sold) as real / total as real)
  }

  lemma {:induction false} ContractsNonNegative(prints: seq<Print>, taker: Taker)
    requires forall i :: 0 <= i < |prints| ==> prints[i].count >= 0
    ensures Contracts(prints, taker) >= 0
  {
    if prints == [] {
    } else {
      ContractsNonNegative(prints[..|prints| - 1], taker);
    }
  }

  lemma FeaturesAreBounded(prints: seq<Print>)
    requires forall i :: 0 <= i < |prints| ==> prints[i].count >= 0
    ensures 0.0 <= Features(prints).0 <= 1.0 && -1.0 <= Features(prints).1 <= 1.0
  {
    if prints != [] {
      ContractsNonNegative(prints, Yes);
      ContractsNonNegative(prints, No);
      var bought, sold := Contracts(prints, No), Contracts(prints, Yes);
      var total := if bought + sold < 1 then 1 else bought + sold;
      QuotientBounded(bought - sold, total);
    }
  }

  lemma QuotientBounded(x: int, d: int)
    requires d > 0 && -d <= x <= d
    ensures -1.0 <= x as real / d as real <= 1.0
  {
    var q, r := x as real / d as real, d as real;
    assert q * r == x as real;
    assert (1.0 - q) * r == r - q * r;
    assert (1.0 + q) * r == r + q * r;
    FactorSign(1.0 - q, r);
    FactorSign(1.0 + q, r);
  }

  lemma FactorSign(y: real, r: real)
    requires r > 0.0 && y * r >= 0.0
    ensures y >= 0.0
  {
  }

  // --- mid history ----------------------------------------------------------

  datatype MidHistory = MidHistory(hist: seq<real>, lastSample: real)

  /** One sample: a new entry per 60 s window, the open one updated in place;
      at most `cap` entries kept (0: unbounded). */
  function AfterSample(h: MidHistory, now: real, mid: real, cap: nat): MidHistory {
    if h.hist == [] || now - h.lastSample >= MID_WINDOW_S then
      MidHistory(LastEntries(h.hist + [mid], cap), now)
    else h.(hist := h.hist[|h.hist| - 1 := mid])
  }

  function LastEntries(s: seq<real>, cap: nat): seq<real> {
    if cap == 0 || |s| <= cap then s else s[|s| - cap..]
  }

  method SampleMid(hist: seq<real>, lastSample: real, now: real, mid: real) returns (h: seq<real>, sampled: real)
    ensures MidHistory(h, sampled) == AfterSample(MidHistory(hist, lastSample), now, mid, MID_HISTORY)
  {
    h, sampled := hist, lastSample;
    if h == [] || now - lastSample >= MID_WINDOW_S {
      h := h + [mid];
      if |h| > MID_HISTORY {
        h := h[|h| - MID_HISTORY..];
      }
      sampled := now;
    } else {
      h := h[|h| - 1 := mid];
    }
  }

  datatype Sample = Sample(now: real, mid: real)

  function Sampled(ss: seq<Sample>, cap: nat): MidHistory {
    if ss == [] then MidHistory([], 0.0)
    else
      var s := ss[|ss| - 1];
      AfterSample(Sampled(ss[..|ss| - 1], cap), s.now, s.mid, cap)
  }

  lemma TailUpdate(s: seq<real>, x: real, cap: nat)
    requires cap > 0
    ensures LastEntries(s, 0) == s && LastEntries(s + [x], 0) == s + [x]
    ensures LastEntries(s, cap) == [] <==> s == []
    ensures LastEntries(LastEntries(s, cap) + [x], cap) == LastEntries(s + [x], cap)
    ensures s != [] ==> var t := LastEntries(s, cap);
                        t[|t| - 1 := x] == LastEntries(s[|s| - 1 := x], cap)
  {
  }

  /** The bounded history is exactly the last 20 window-final mids of the
      unbounded series, with the same window boundaries. */
  lemma {:induction false} BoundedHistoryIsTheTail(ss: seq<Sample>, cap: nat)
    requires cap > 0
    ensures Sampled(ss, cap).hist == LastEntries(Sampled(ss, 0).hist, cap)
    ensures Sampled(ss, cap).lastSample == Sampled(ss, 0).lastSample
  {
    hide LastEntries;
    if ss == [] {
      TailUpdate([], 0.0, cap);
    } else {
      BoundedHistoryIsTheTail(ss[..|ss| - 1], cap);
      TailUpdate(Sampled(ss[..|ss| - 1], 0).hist, ss[|ss| - 1].mid, cap);
    }
  }
}
