/** The bounded fill-id dedupe (src/state.rs) against an unbounded one. */
module DedupeLaws {
  import opened Sums
  import opened Ledger
  import opened Processing

  /** The dedupe after a stream of ids, from empty. */
  function Feed(cap: nat, ids: seq<string>): Dedupe {
    if ids == [] then Dedupe({}, []) else AfterSeen(Feed(cap, ids[..|ids| - 1]), cap, ids[|ids| - 1])
  }

  predicate Accepts(cap: nat, ids: seq<string>, j: nat)
    requires j < |ids|
  {
    ids[j] !in Feed(cap, ids[..j]).ids
  }

  /** The ids accepted, in order. */
  function Recorded(cap: nat, ids: seq<string>): seq<string> {
    if ids == [] then []
    else
      var n := |ids| - 1;
      Recorded(cap, ids[..n]) + if Accepts(cap, ids, n) then [ids[n]] else []
  }

  /** What an unbounded dedupe would accept: first occurrences. */
  function Firsts(ids: seq<string>): seq<string> {
    if ids == [] then []
    else
      var n := |ids| - 1;
      Firsts(ids[..n]) + if ids[n] !in ids[..n] then [ids[n]] else []
  }

  function LastOf(s: seq<string>, cap: nat): seq<string> { if |s| <= cap then s else s[|s| - cap..] }

  ghost predicate SetIsQueue(d: Dedupe) { forall x :: x in d.ids <==> x in d.fifo }

  lemma SeenKeepsTheInvariant(d: Dedupe, cap: nat, id: string)
    requires SetIsQueue(d) && Distinct(d.fifo) && |d.fifo| <= cap
    ensures var e := AfterSeen(d, cap, id); SetIsQueue(e) && Distinct(e.fifo) && |e.fifo| <= cap
  {
    if id !in d.ids {
      var fifo := d.fifo + [id];
      assert Distinct(fifo);
      if |fifo| > cap {
        assert fifo == [fifo[0]] + fifo[1..];
        assert fifo[0] !in fifo[1..];
        forall x
          ensures x in AfterSeen(d, cap, id).ids <==> x in fifo[1..]
        {
          assert x in fifo <==> x == fifo[0] || x in fifo[1..];
          assert x in fifo <==> x in d.fifo || x == id;
        }
      }
    }
  }

  lemma QueueStep(d: Dedupe, cap: nat, id: string, recorded: seq<string>)
    requires d.fifo == LastOf(recorded, cap)
    ensures AfterSeen(d, cap, id).fifo == LastOf(recorded + (if id in d.ids then [] else [id]), cap)
  {
    if id in d.ids {
      assert recorded + [] == recorded;
    }
  }

  /** At every moment the set is the queue, the queue has no duplicates and
      is exactly the last `cap` recorded ids. */
  lemma {:induction false} DedupeHoldsTheLastRecorded(cap: nat, ids: seq<string>)
    ensures SetIsQueue(Feed(cap, ids)) && Distinct(Feed(cap, ids).fifo) && |Feed(cap, ids).fifo| <= cap
    ensures Feed(cap, ids).fifo == LastOf(Recorded(cap, ids), cap)
  {
    hide AfterSeen, LastOf, SetIsQueue, Distinct;
    if ids == [] {
      NothingRecorded(cap);
    } else {
      var n := |ids| - 1;
      DedupeHoldsTheLastRecorded(cap, ids[..n]);
      SeenKeepsTheInvariant(Feed(cap, ids[..n]), cap, ids[n]);
      QueueStep(Feed(cap, ids[..n]), cap, ids[n], Recorded(cap, ids[..n]));
    }
  }

  lemma NothingRecorded(cap: nat)
    ensures SetIsQueue(Dedupe({}, [])) && Distinct<string>([]) && LastOf([], cap) == []
  {
  }

  predicate IsFirst(ids: seq<string>, i: nat)
    requires i < |ids|
  {
    ids[i] !in ids[..i]
  }

  /** The bounded dedupe makes every decision the unbounded one would. */
  predicate Exact(cap: nat, ids: seq<string>) {
    forall j :: 0 <= j < |ids| ==> (Accepts(cap, ids, j) <==> IsFirst(ids, j))
  }

  /** Fewer than `cap` fresh ids between an id's first showing and any repeat. */
  predicate RepeatsComeSoon(cap: nat, ids: seq<string>) {
    forall i, j :: 0 <= i < j < |ids| && ids[i] == ids[j] && IsFirst(ids, i)
      ==> FreshBetween(ids, i, j) < cap
  }

  function FreshBetween(ids: seq<string>, i: nat, j: nat): int
    requires i < j < |ids|
  {
    |Firsts(ids[..j])| - |Firsts(ids[..i + 1])|
  }

  lemma {:induction false} FirstsHaveTheSameIds(ids: seq<string>)
    ensures Distinct(Firsts(ids))
    ensures forall x :: x in Firsts(ids) <==> x in ids
  {
    if ids == [] {
    } else {
      var n := |ids| - 1;
      FirstsHaveTheSameIds(ids[..n]);
      assert ids == ids[..n] + [ids[n]];
    }
  }

  /** An id's place among the first occurrences. */
  lemma {:induction false} PlaceOfFirst(ids: seq<string>, i: nat)
    requires i < |ids| && IsFirst(ids, i)
    ensures |Firsts(ids[..i])| < |Firsts(ids)| && Firsts(ids)[|Firsts(ids[..i])|] == ids[i]
    ensures |Firsts(ids[..i + 1])| == |Firsts(ids[..i])| + 1
    decreases |ids|
  {
    assert ids[..i + 1][..i] == ids[..i];
    if i < |ids| - 1 {
      var before := ids[..|ids| - 1];
      assert before[..i] == ids[..i];
      PlaceOfFirst(before, i);
    } else {
      assert ids[..i + 1] == ids;
    }
  }

  lemma {:induction false} ExactRecordsFirsts(cap: nat, ids: seq<string>)
    requires Exact(cap, ids)
    ensures Recorded(cap, ids) == Firsts(ids)
  {
    if ids == [] {
    } else {
      var n := |ids| - 1;
      ExactPrefix(cap, ids, n);
      ExactRecordsFirsts(cap, ids[..n]);
      assert Accepts(cap, ids, n) <==> IsFirst(ids, n);
    }
  }

  lemma SamePast(cap: nat, ids: seq<string>, n: nat, j: nat)
    requires j < n <= |ids|
    ensures Accepts(cap, ids[..n], j) == Accepts(cap, ids, j) && IsFirst(ids[..n], j) == IsFirst(ids, j)
  {
    assert ids[..n][..j] == ids[..j];
  }

  lemma ExactPrefix(cap: nat, ids: seq<string>, n: nat)
    requires n <= |ids| && Exact(cap, ids)
    ensures Exact(cap, ids[..n])
  {
    forall j | 0 <= j < n
      ensures Accepts(cap, ids[..n], j) <==> IsFirst(ids[..n], j)
    {
      SamePast(cap, ids, n, j);
      assert Accepts(cap, ids, j) <==> IsFirst(ids, j);
    }
  }

  lemma SoonPrefix(cap: nat, ids: seq<string>, n: nat)
    requires n <= |ids| && RepeatsComeSoon(cap, ids)
    ensures RepeatsComeSoon(cap, ids[..n])
  {
    forall i, j | 0 <= i < j < n && ids[..n][i] == ids[..n][j] && IsFirst(ids[..n], i)
      ensures FreshBetween(ids[..n], i, j) < cap
    {
      SamePast(cap, ids, n, i);
      assert ids[..n][..j] == ids[..j] && ids[..n][..i + 1] == ids[..i + 1];
      assert FreshBetween(ids, i, j) < cap;
    }
  }

  /** One decision: after an exact past, a repeat is caught exactly when it
      comes within `cap` fresh ids; a first showing is always accepted. */
  lemma DecisionAt(cap: nat, ids: seq<string>, j: nat)
    requires j < |ids| && Exact(cap, ids[..j])
    ensures IsFirst(ids, j) ==> Accepts(cap, ids, j)
    ensures forall i | 0 <= i < j && ids[i] == ids[j] && IsFirst(ids, i) ::
              Accepts(cap, ids, j) <==> FreshBetween(ids, i, j) >= cap
  {
    hide LastOf, Feed, Firsts, Recorded, Distinct;
    var past := ids[..j];
    DedupeHoldsTheLastRecorded(cap, past);
    ExactRecordsFirsts(cap, past);
    FirstsHaveTheSameIds(past);
    LastOfIsPart(Firsts(past), cap);
    forall i | 0 <= i < j && ids[i] == ids[j] && IsFirst(ids, i)
      ensures Accepts(cap, ids, j) <==> FreshBetween(ids, i, j) >= cap
    {
      assert past[..i] == ids[..i] && past[..i + 1] == ids[..i + 1];
      PlaceOfFirst(past, i);
      InLastOf(Firsts(past), cap, |Firsts(ids[..i])|);
    }
  }

  lemma LastOfIsPart(s: seq<string>, cap: nat)
    ensures forall x :: x in LastOf(s, cap) ==> x in s
  {
  }

  lemma InLastOf(s: seq<string>, cap: nat, p: nat)
    requires Distinct(s) && p < |s|
    ensures s[p] in LastOf(s, cap) <==> |s| - p <= cap
  {
    if |s| > cap && p >= |s| - cap {
      assert LastOf(s, cap)[p - (|s| - cap)] == s[p];
    }
  }

  lemma ExactRepeatsComeSoon(cap: nat, ids: seq<string>)
    requires Exact(cap, ids)
    ensures RepeatsComeSoon(cap, ids)
  {
    hide Firsts, FreshBetween, Accepts;
    forall i, j | 0 <= i < j < |ids| && ids[i] == ids[j] && IsFirst(ids, i)
      ensures FreshBetween(ids, i, j) < cap
    {
      ExactPrefix(cap, ids, j);
      DecisionAt(cap, ids, j);
      assert ids[j] == ids[..j][i];
      assert !IsFirst(ids, j);
    }
  }

  lemma {:induction false} SoonIsExact(cap: nat, ids: seq<string>)
    requires RepeatsComeSoon(cap, ids)
    ensures Exact(cap, ids)
  {
    hide Firsts, FreshBetween, Accepts;
    if ids == [] {
    } else {
      var n := |ids| - 1;
      SoonPrefix(cap, ids, n);
      SoonIsExact(cap, ids[..n]);
      DecisionAt(cap, ids, n);
      if !IsFirst(ids, n) {
        var i := FirstShowing(ids, n);
        assert FreshBetween(ids, i, n) < cap;
      }
      forall j | 0 <= j < n
        ensures Accepts(cap, ids, j) <==> IsFirst(ids, j)
      {
        SamePast(cap, ids, n, j);
        assert Accepts(cap, ids[..n], j) <==> IsFirst(ids[..n], j);
      }
    }
  }

  /** The bounded dedupe is the unbounded one exactly for the streams whose
      repeats recur before `cap` fresh ids intervene. */
  lemma ExactIffRepeatsComeSoon(cap: nat, ids: seq<string>)
    ensures Exact(cap, ids) <==> RepeatsComeSoon(cap, ids)
  {
    hide Exact, RepeatsComeSoon;
    if Exact(cap, ids) {
      ExactRepeatsComeSoon(cap, ids);
    }
    if RepeatsComeSoon(cap, ids) {
      SoonIsExact(cap, ids);
    }
  }

  lemma {:induction false} FirstShowing(ids: seq<string>, j: nat) returns (i: nat)
    requires j < |ids| && !IsFirst(ids, j)
    ensures i < j && ids[i] == ids[j] && IsFirst(ids, i)
  {
    i :| 0 <= i < j && ids[..j][i] == ids[j];
    if !IsFirst(ids, i) {
      i := FirstShowing(ids, i);
    }
  }

  // --- the ledger never sees a re-read --------------------------------------

  function IdsOf(es: seq<Event>): seq<string> {
    if es == [] then []
    else
      var e := es[|es| - 1];
      IdsOf(es[..|es| - 1]) + if e.Traded? then [e.fill.id] else []
  }

  /** The stream with every repeated fill removed. */
  function WithoutRereads(es: seq<Event>): seq<Event> {
    if es == [] then []
    else
      var before, e := es[..|es| - 1], es[|es| - 1];
      WithoutRereads(before) + if e.Traded? && e.fill.id in IdsOf(before) then [] else [e]
  }

  lemma StepSeen(cfg: Config, a: Account, e: Event)
    ensures Step(cfg, a, e).seen == if e.Traded? then AfterSeen(a.seen, FILL_ID_CAP, e.fill.id) else a.seen
  {
    hide FilledTicker, RealizedBy, SettledTicker, SettlementPnl;
  }

  lemma {:induction false} RunSeen(cfg: Config, start: real, es: seq<Event>)
    ensures Run(cfg, FreshAccount(start), es).seen == Feed(FILL_ID_CAP, IdsOf(es))
  {
    hide Step, AfterSeen;
    if es == [] {
    } else {
      var before, e := es[..|es| - 1], es[|es| - 1];
      RunSeen(cfg, start, before);
      StepSeen(cfg, Run(cfg, FreshAccount(start), before), e);
      if e.Traded? {
        assert IdsOf(es)[..|IdsOf(es)| - 1] == IdsOf(before);
      } else {
        assert IdsOf(es) == IdsOf(before);
      }
    }
  }

  lemma RepeatIsRejected(cfg: Config, start: real, before: seq<Event>, e: Event)
    requires e.Traded? && e.fill.id in IdsOf(before)
    requires RepeatsComeSoon(FILL_ID_CAP, IdsOf(before) + [e.fill.id])
    ensures Rejected(Run(cfg, FreshAccount(start), before), e)
  {
    hide Run, AfterSeen, Feed;
    var ids, n := IdsOf(before) + [e.fill.id], |IdsOf(before)|;
    assert ids[..n] == IdsOf(before);
    ExactIffRepeatsComeSoon(FILL_ID_CAP, ids);
    RunSeen(cfg, start, before);
    assert Accepts(FILL_ID_CAP, ids, n) <==> IsFirst(ids, n);
  }

  lemma RejectedStepIsIdentity(cfg: Config, a: Account, e: Event)
    requires Rejected(a, e)
    ensures Step(cfg, a, e) == a
  {
  }

  /** Overlapping re-reads of the fills feed leave the whole account exactly
      as if they had never been sent. */
  lemma {:induction false} RereadsChangeNothing(cfg: Config, start: real, es: seq<Event>)
    requires RepeatsComeSoon(20_000, IdsOf(es))
    ensures Run(cfg, FreshAccount(start), es) == Run(cfg, FreshAccount(start), WithoutRereads(es))
  {
    hide Step, Rejected, RepeatsComeSoon;
    if es == [] {
    } else {
      var before, e := es[..|es| - 1], es[|es| - 1];
      var n := |IdsOf(before)|;
      assert IdsOf(es)[..n] == IdsOf(before);
      SoonPrefix(FILL_ID_CAP, IdsOf(es), n);
      RereadsChangeNothing(cfg, start, before);
      if e.Traded? && e.fill.id in IdsOf(before) {
        RepeatIsRejected(cfg, start, before, e);
        RejectedStepIsIdentity(cfg, Run(cfg, FreshAccount(start), before), e);
        assert WithoutRereads(es) == WithoutRereads(before);
      } else {
        assert WithoutRereads(es)[..|WithoutRereads(es)| - 1] == WithoutRereads(before);
      }
    }
  }
}
