/** The market windows on times and counts alone: which prints count, what
    volume and flow measure, which mids the history holds. */
module WindowLaws {
  import opened Numbers
  import opened Windows
  import Sums

  // --- trade prints ---------------------------------------------------------

  /** The maintained list holds exactly the prints of the last minute. */
  lemma PrintsLastAMinute(log: seq<Print>, now: real) returns (k: nat)
    requires PrintsOrdered(log) && (log != [] ==> log[|log| - 1].time <= now)
    ensures k <= |log| && PrunedTrades(Incremental(log), now) == log[k..]
    ensures forall i :: 0 <= i < |log| ==> (i >= k <==> now - log[i].time <= 60.0)
  {
    hide PrintsOrdered, Incremental;
    IncrementalWindowIsRecomputed(log, now);
    k := PruneStart(log, now);
    WindowIsSuffix(log, now, k);
  }

  function Count(): Print -> real { (p: Print) => p.count as real }

  /** A taker of NO means that the maker bought. */
  function MakerBought(): Print -> real { (p: Print) => if p.taker == No then p.count as real else -(p.count as real) }

  lemma {:induction false} ContractsAreSums(prints: seq<Print>)
    ensures (Contracts(prints, No) + Contracts(prints, Yes)) as real == Sums.SumOf(prints, Count())
    ensures (Contracts(prints, No) - Contracts(prints, Yes)) as real == Sums.SumOf(prints, MakerBought())
  {
    if prints == [] {
    } else {
      ContractsAreSums(prints[..|prints| - 1]);
    }
  }

  lemma VolumeCountsPrints(prints: seq<Print>)
    ensures 50.0 * Features(prints).0 == if |prints| < 50 then |prints| as real else 50.0
  {
    hide Contracts;
  }

  /** A part of a whole of at least one, times that whole. */
  lemma PartOfWhole(part: int, whole: int)
    ensures part as real / (if whole < 1 then 1 else whole) as real * Max(whole as real, 1.0) == part as real
  {
    DivMul(part as real, Max(whole as real, 1.0));
  }

  lemma FlowIsAPart(prints: seq<Print>)
    requires prints != []
    ensures var bought, sold := Contracts(prints, No), Contracts(prints, Yes);
            Features(prints).1 == (bought - sold) as real / (if bought + sold < 1 then 1 else bought + sold) as real
  {
    hide Contracts, Min;
  }

  lemma NoPrintsNoFlow()
    ensures Features([]).1 == 0.0 && Sums.SumOf([], MakerBought()) == 0.0
  {
  }

  /** Volume is the number of prints per fifty, at most one; flow is what makers
      bought net, over what traded gross. */
  lemma FeaturesMeasureTheWindow(prints: seq<Print>)
    ensures 50.0 * Features(prints).0 == if |prints| < 50 then |prints| as real else 50.0
    ensures Features(prints).1 * Max(Sums.SumOf(prints, Count()), 1.0) == Sums.SumOf(prints, MakerBought())
  {
    hide *;
    VolumeCountsPrints(prints);
    if prints == [] {
      NoPrintsNoFlow();
    } else {
      ContractsAreSums(prints);
      FlowIsAPart(prints);
      PartOfWhole(Contracts(prints, No) - Contracts(prints, Yes), Contracts(prints, No) + Contracts(prints, Yes));
    }
  }

  // --- mid history ----------------------------------------------------------

  /** Samples `from` to `to` are one window, and `mid` is its last. */
  predicate IsWindow(ss: seq<Sample>, from: int, to: int, mid: real) {
    0 <= from < to <= |ss| && mid == ss[to - 1].mid
    && forall i :: from < i < to ==> ss[i].now - ss[from].now < 60.0
  }

  /** And sample `to` came a minute or more after its first. */
  predicate IsClosed(ss: seq<Sample>, from: int, to: int, mid: real) {
    IsWindow(ss, from, to, mid) && to < |ss| && ss[to].now - ss[from].now >= 60.0
  }

  /** Window `k` opens at sample `starts[k]`: the first sample of all, and then
      each first one a minute or more after the last opening. */
  predicate Openings(ss: seq<Sample>, starts: seq<nat>, finals: seq<real>) {
    && |starts| == |finals|
    && (ss == [] <==> starts == [])
    && (starts != [] ==> starts[0] == 0 && IsWindow(ss, starts[|starts| - 1], |ss|, finals[|starts| - 1]))
    && (forall k :: 0 <= k < |starts| - 1 ==> IsClosed(ss, starts[k], starts[k + 1], finals[k]))
  }

  lemma ClosedStays(ss: seq<Sample>, s: Sample, from: int, to: int, mid: real)
    requires IsClosed(ss, from, to, mid)
    ensures IsClosed(ss + [s], from, to, mid)
  {
  }

  lemma Closes(ss: seq<Sample>, s: Sample, from: int, mid: real)
    requires IsWindow(ss, from, |ss|, mid) && s.now - ss[from].now >= 60.0
    ensures IsClosed(ss + [s], from, |ss|, mid)
  {
  }

  lemma EarlierWindowsStay(ss: seq<Sample>, s: Sample, starts: seq<nat>, finals: seq<real>)
    requires Openings(ss, starts, finals)
    ensures forall k :: 0 <= k < |starts| - 1 ==> IsClosed(ss + [s], starts[k], starts[k + 1], finals[k])
  {
    hide IsWindow, IsClosed;
    forall k | 0 <= k < |starts| - 1
      ensures IsClosed(ss + [s], starts[k], starts[k + 1], finals[k])
    {
      ClosedStays(ss, s, starts[k], starts[k + 1], finals[k]);
    }
  }

  lemma OpensAnother(ss: seq<Sample>, s: Sample, starts: seq<nat>, finals: seq<real>)
    requires Openings(ss, starts, finals)
    requires starts != [] ==> starts[|starts| - 1] < |ss| && s.now - ss[starts[|starts| - 1]].now >= 60.0
    ensures Openings(ss + [s], starts + [|ss|], finals + [s.mid])
  {
    hide IsWindow, IsClosed;
    EarlierWindowsStay(ss, s, starts, finals);
    OneSampleWindow(ss, s);
    var all, more := starts + [|ss|], finals + [s.mid];
    if starts != [] {
      Closes(ss, s, starts[|starts| - 1], finals[|starts| - 1]);
    }
    forall k | 0 <= k < |all| - 1
      ensures IsClosed(ss + [s], all[k], all[k + 1], more[k])
    {
      assert k < |starts| - 1 ==> all[k + 1] == starts[k + 1];
    }
  }

  lemma OneSampleWindow(ss: seq<Sample>, s: Sample)
    ensures IsWindow(ss + [s], |ss|, |ss + [s]|, s.mid)
  {
  }

  lemma StaysOpen(ss: seq<Sample>, s: Sample, starts: seq<nat>, finals: seq<real>)
    requires Openings(ss, starts, finals) && starts != [] && starts[|starts| - 1] < |ss|
    requires s.now - ss[starts[|starts| - 1]].now < 60.0
    ensures Openings(ss + [s], starts, finals[|finals| - 1 := s.mid])
  {
    hide IsWindow, IsClosed;
    EarlierWindowsStay(ss, s, starts, finals);
    LongerWindow(ss, s, starts[|starts| - 1], finals[|starts| - 1]);
  }

  lemma LongerWindow(ss: seq<Sample>, s: Sample, from: int, mid: real)
    requires IsWindow(ss, from, |ss|, mid) && s.now - ss[from].now < 60.0
    ensures IsWindow(ss + [s], from, |ss + [s]|, s.mid)
  {
  }

  lemma LastStartIsInside(ss: seq<Sample>, starts: seq<nat>, finals: seq<real>)
    requires Openings(ss, starts, finals)
    ensures starts != [] ==> starts[|starts| - 1] < |ss|
  {
  }

  /** The unbounded history holds the last mid of every window. */
  lemma {:induction false} HistoryIsWindowFinals(ss: seq<Sample>) returns (starts: seq<nat>)
    ensures Openings(ss, starts, Sampled(ss, 0).hist)
    ensures starts != [] ==> starts[|starts| - 1] < |ss| && Sampled(ss, 0).lastSample == ss[starts[|starts| - 1]].now
  {
    hide Openings;
    if ss == [] {
      starts := [];
      NoOpenings();
    } else {
      var before, s := ss[..|ss| - 1], ss[|ss| - 1];
      assert ss == before + [s];
      var earlier := HistoryIsWindowFinals(before);
      var h := Sampled(before, 0);
      SameLength(before, earlier, h.hist);
      if h.hist == [] || s.now - h.lastSample >= 60.0 {
        starts := earlier + [|before|];
        OpensAnother(before, s, earlier, h.hist);
      } else {
        starts := earlier;
        StaysOpen(before, s, earlier, h.hist);
      }
    }
  }

  lemma SameLength(ss: seq<Sample>, starts: seq<nat>, finals: seq<real>)
    requires Openings(ss, starts, finals)
    ensures |starts| == |finals|
  {
  }

  lemma NoOpenings()
    ensures Openings([], [], [])
  {
  }

  /** The bot keeps the last twenty of those. */
  lemma TwentyFinalsAreKept(ss: seq<Sample>)
    ensures var all, kept := Sampled(ss, 0).hist, Sampled(ss, MID_HISTORY).hist;
            kept == if |all| <= 20 then all else all[|all| - 20..]
  {
    BoundedHistoryIsTheTail(ss, MID_HISTORY);
  }
}
