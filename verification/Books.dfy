/** The live order book (src/book.rs): integer millidollar levels per side,
    snapshots, deltas, best levels, and the quote-safety arithmetic. */
module Books {
  import opened Numbers
  import Sums

  const ONE_DOLLAR_MD: nat := 1000
  const U32_MAX: nat := 0xFFFF_FFFF

  /** Price key (millidollars) -> contracts. */
  type Levels = map<nat, real>

  /** `(dollars * 1000).round() as u32`; the cast saturates at both ends. */
  function ToMd(dollars: real): nat {
    var n := RoundAway(dollars * 1000.0);
    if n < 0 then 0 else if n > U32_MAX then U32_MAX else n
  }

  function ToDollars(md: nat): real { md as real / 1000.0 }

  lemma {:induction false} Greatest(keys: set<nat>) returns (m: nat)
    requires keys != {}
    ensures m in keys && forall j :: j in keys ==> j <= m
  {
    m :| m in keys;
    var rest := keys - {m};
    assert forall j :: j in keys ==> j == m || j in rest;
    if rest == {} {
    } else {
      var n := Greatest(rest);
      if m < n {
        m := n;
      }
    }
  }

  lemma MaxExists(keys: set<nat>)
    requires keys != {}
    ensures exists k :: k in keys && forall j :: j in keys ==> j <= k
  {
    var m := Greatest(keys);
  }

  /** The last key of the ordered map. */
  function MaxKey(levels: Levels): (r: Option<nat>)
    ensures r.None? <==> levels == map[]
    ensures r.Some? ==> r.value in levels && forall j :: j in levels ==> j <= r.value
  {
    if levels == map[] then None
    else
      MaxExists(levels.Keys);
      var k :| k in levels && forall j :: j in levels ==> j <= k;
      Some(k)
  }

  /** Both sides of a book, as a value. */
  datatype BookView = BookView(yes: Levels, no: Levels) {

    function BestBidMd(): Option<nat> { MaxKey(yes) }

    /** $1 minus the highest NO bid, saturating at zero for a NO price above $1. */
    function BestAskMd(): Option<nat> {
      match MaxKey(no)
      case None => None
      case Some(p) => Some(if p <= ONE_DOLLAR_MD then ONE_DOLLAR_MD - p else 0)
    }

    predicate IsValid() {
      BestBidMd().Some? && BestAskMd().Some? && BestBidMd().value < BestAskMd().value
    }

    function BestBid(): Option<real> {
      match BestBidMd() case None => None case Some(b) => Some(ToDollars(b))
    }

    function BestAsk(): Option<real> {
      match BestAskMd() case None => None case Some(a) => Some(ToDollars(a))
    }

    function Mid(): Option<real> {
      if IsValid() then Some((BestBid().value + BestAsk().value) / 2.0) else None
    }

    /** No NO bid priced above $1. */
    predicate NoSideLegal() { forall p :: p in no ==> p <= ONE_DOLLAR_MD }

    predicate YesSideLegal() { forall p :: p in yes ==> p <= ONE_DOLLAR_MD }

    /** Every price a whole cent. */
    predicate WholeCents() {
      (forall p :: p in yes ==> p % 10 == 0) && (forall p :: p in no ==> p % 10 == 0)
    }

    /** The same market seen from the NO side. */
    function Swapped(): BookView { BookView(no, yes) }
  }

  // --- snapshots and deltas -------------------------------------------------

  /** One level moved by `delta`; a level at or below zero disappears. */
  function AfterDelta(levels: Levels, key: nat, delta: real): Levels {
    var qty := QtyAt(levels, key) + delta;
    if qty > 0.0 then levels[key := qty] else levels - {key}
  }

  function QtyAt(levels: Levels, key: nat): real { if key in levels then levels[key] else 0.0 }

  /** Snapshot rows (price in dollars, quantity), later rows overwriting. */
  function ParsedLevels(rows: seq<(real, real)>): Levels {
    if rows == [] then map[]
    else
      var rest := ParsedLevels(rows[..|rows| - 1]);
      var row := rows[|rows| - 1];
      if row.1 > 0.0 then rest[ToMd(row.0) := row.1] else rest
  }

  class Book {
    var yes: Levels
    var no: Levels

    ghost function View(): BookView
      reads this
    {
      BookView(yes, no)
    }

    constructor ()
      ensures View() == BookView(map[], map[])
    {
      yes, no := map[], map[];
    }

    static method ParseLevels(rows: seq<(real, real)>) returns (out: Levels)
      ensures out == ParsedLevels(rows)
    {
      out := map[];
      for i := 0 to |rows|
        invariant out == ParsedLevels(rows[..i])
      {
        assert rows[..i + 1][..i] == rows[..i];
        if rows[i].1 > 0.0 {
          out := out[ToMd(rows[i].0) := rows[i].1];
        }
      }
      assert rows[..|rows|] == rows;
    }

    /** Replaces only the sides the payload carries. */
    method LoadSnapshot(yesRows: Option<seq<(real, real)>>, noRows: Option<seq<(real, real)>>)
      modifies this
      ensures yes == if yesRows.Some? then ParsedLevels(yesRows.value) else old(yes)
      ensures no == if noRows.Some? then ParsedLevels(noRows.value) else old(no)
    {
      if yesRows.Some? {
        yes := ParseLevels(yesRows.value);
      }
      if noRows.Some? {
        no := ParseLevels(noRows.value);
      }
    }

    /** Any side other than "yes" addresses the NO levels. */
    method ApplyDelta(side: string, price: real, delta: real)
      modifies this
      ensures yes == if side == "yes" then AfterDelta(old(yes), ToMd(price), delta) else old(yes)
      ensures no == if side == "yes" then old(no) else AfterDelta(old(no), ToMd(price), delta)
    {
      var levels := if side == "yes" then yes else no;
      var key := ToMd(price);
      var qty := (if key in levels then levels[key] else 0.0) + delta;
      if qty > 0.0 {
        levels := levels[key := qty];
      } else {
        levels := levels - {key};
      }
      if side == "yes" {
        yes := levels;
      } else {
        no := levels;
      }
    }
  }

  // --- quote-safety arithmetic ----------------------------------------------

  /** The fee schedule in cents, before rounding. */
  function FeeCents(rate: real, contracts: int, price: real): real {
    rate * contracts as real * price * (1.0 - price) * 100.0
  }

  /** Exchange fee for one fill, rounded up to the next cent. */
  function CeilCentFee(rate: real, contracts: int, price: real): real {
    Ceil(FeeCents(rate, contracts, price)) as real / 100.0
  }

  /** Keeps both quotes passive; None when they would then cross each other. */
  function ClampQuotes(bid: real, ask: real, bestBid: real, bestAsk: real, tick: real): Option<(real, real)> {
    var b := Round4(Min(bid, bestAsk - tick));
    var a := Round4(Max(ask, bestBid + tick));
    if a <= b then None else Some((b, a))
  }

  predicate QuoteEdgeOk(bid: real, ask: real, rate: real, size: int, minEdge: real) {
    var fees := CeilCentFee(rate, size, bid) + CeilCentFee(rate, size, ask);
    Round6((ask - bid) * size as real) > Round6(fees + minEdge * size as real)
  }

  // --- a side is the sum of its deltas --------------------------------------

  datatype Delta = Delta(key: nat, qty: real)

  function AfterDeltas(levels: Levels, ds: seq<Delta>): Levels {
    if ds == [] then levels
    else
      var d := ds[|ds| - 1];
      AfterDelta(AfterDeltas(levels, ds[..|ds| - 1]), d.key, d.qty)
  }

  function QtyFor(key: nat): Delta -> real {
    (d: Delta) => if d.key == key then d.qty else 0.0
  }

  /** What the arithmetic sum of the deltas would leave at `key`. */
  ghost function Net(start: real, ds: seq<Delta>, key: nat): real { start + Sums.SumOf(ds, QtyFor(key)) }

  /** The lowest the running sum ever gets, capped at zero. */
  ghost function LowestNet(start: real, ds: seq<Delta>, key: nat): real {
    if ds == [] then 0.0
    else Min(LowestNet(start, ds[..|ds| - 1], key), Net(start, ds, key))
  }

  ghost predicate NeverNegative(start: real, ds: seq<Delta>, key: nat) {
    forall j :: 0 <= j <= |ds| ==> Net(start, ds[..j], key) >= 0.0
  }

  predicate AllPositive(levels: Levels) { forall k :: k in levels ==> levels[k] > 0.0 }

  /** Exact law of a delta run: the stored quantity is the arithmetic sum
      plus whatever was discarded by clipping at zero. */
  lemma {:induction false} DeltasReflectAtZero(levels: Levels, ds: seq<Delta>, key: nat)
    requires AllPositive(levels)
    ensures AllPositive(AfterDeltas(levels, ds))
    ensures QtyAt(AfterDeltas(levels, ds), key)
         == Net(QtyAt(levels, key), ds, key) - LowestNet(QtyAt(levels, key), ds, key)
  {
    if ds == [] {
    } else {
      DeltasReflectAtZero(levels, ds[..|ds| - 1], key);
    }
  }

  lemma {:induction false} LowestIsZeroWhenNeverNegative(start: real, ds: seq<Delta>, key: nat)
    requires start >= 0.0
    ensures LowestNet(start, ds, key) <= 0.0
    ensures LowestNet(start, ds, key) == 0.0 <==> NeverNegative(start, ds, key)
  {
    if ds == [] {
    } else {
      var ds' := ds[..|ds| - 1];
      LowestIsZeroWhenNeverNegative(start, ds', key);
      assert forall j :: 0 <= j <= |ds'| ==> ds'[..j] == ds[..j];
      assert ds[..|ds|] == ds;
    }
  }

  /** A level equals the sum of its deltas exactly when that sum was never
      driven below zero on the way. */
  lemma LevelIsTheSumOfItsDeltas(levels: Levels, ds: seq<Delta>, key: nat)
    requires AllPositive(levels)
    ensures QtyAt(AfterDeltas(levels, ds), key) == Net(QtyAt(levels, key), ds, key)
       <==> NeverNegative(QtyAt(levels, key), ds, key)
  {
    DeltasReflectAtZero(levels, ds, key);
    LowestIsZeroWhenNeverNegative(QtyAt(levels, key), ds, key);
  }

  /** Deltas commute: two orders of one delta run leave the same side, as long
      as neither ever oversells a level. */
  lemma DeltasCommute(levels: Levels, ds: seq<Delta>, es: seq<Delta>)
    requires AllPositive(levels)
    requires multiset(ds) == multiset(es)
    requires forall k :: NeverNegative(QtyAt(levels, k), ds, k) && NeverNegative(QtyAt(levels, k), es, k)
    ensures AfterDeltas(levels, ds) == AfterDeltas(levels, es)
    ensures forall k :: k in AfterDeltas(levels, ds) <==> Net(QtyAt(levels, k), ds, k) > 0.0
  {
    hide AfterDeltas, Net, NeverNegative;
    var l, m := AfterDeltas(levels, ds), AfterDeltas(levels, es);
    forall k
      ensures QtyAt(l, k) == QtyAt(m, k) == Net(QtyAt(levels, k), ds, k)
    {
      DeltasReflectAtZero(levels, ds, k);
      DeltasReflectAtZero(levels, es, k);
      LevelIsTheSumOfItsDeltas(levels, ds, k);
      LevelIsTheSumOfItsDeltas(levels, es, k);
      SameNet(QtyAt(levels, k), ds, es, k);
    }
    DeltasReflectAtZero(levels, ds, 0);
    DeltasReflectAtZero(levels, es, 0);
    SameQuantities(l, m);
  }

  lemma SameNet(start: real, ds: seq<Delta>, es: seq<Delta>, key: nat)
    requires multiset(ds) == multiset(es)
    ensures Net(start, ds, key) == Net(start, es, key)
  {
    Sums.SumOfPermuted(ds, es, QtyFor(key));
  }

  lemma SameQuantities(l: Levels, m: Levels)
    requires AllPositive(l) && AllPositive(m) && forall k :: QtyAt(l, k) == QtyAt(m, k)
    ensures l == m && forall k :: k in l <==> QtyAt(l, k) > 0.0
  {
    forall k
      ensures k in l <==> QtyAt(l, k) > 0.0
      ensures k in m <==> QtyAt(m, k) > 0.0
    {
    }
    assert forall k :: k in l ==> l[k] == QtyAt(l, k) && m[k] == QtyAt(m, k);
  }

  // --- snapshots do not depend on row order ---------------------------------

  predicate DistinctKeys(rows: seq<(real, real)>) {
    forall i, j :: 0 <= i < j < |rows| ==> ToMd(rows[i].0) != ToMd(rows[j].0)
  }

  predicate LevelFromRow(rows: seq<(real, real)>, k: nat, q: real) {
    exists i :: 0 <= i < |rows| && ToMd(rows[i].0) == k && rows[i].1 == q
  }

  lemma {:induction false} LevelsComeFromRows(rows: seq<(real, real)>, k: nat)
    requires k in ParsedLevels(rows)
    ensures ParsedLevels(rows)[k] > 0.0 && LevelFromRow(rows, k, ParsedLevels(rows)[k])
  {
    var n := |rows| - 1;
    if ToMd(rows[n].0) != k || rows[n].1 <= 0.0 {
      LevelsComeFromRows(rows[..n], k);
      var i :| 0 <= i < n && ToMd(rows[..n][i].0) == k && rows[..n][i].1 == ParsedLevels(rows[..n])[k];
      assert rows[i] == rows[..n][i];
    }
  }

  lemma {:induction false} RowsBecomeLevels(rows: seq<(real, real)>, i: nat)
    requires DistinctKeys(rows)
    requires i < |rows| && rows[i].1 > 0.0
    ensures ToMd(rows[i].0) in ParsedLevels(rows) && ParsedLevels(rows)[ToMd(rows[i].0)] == rows[i].1
  {
    var n := |rows| - 1;
    if i < n {
      RowsBecomeLevels(rows[..n], i);
      assert ToMd(rows[n].0) != ToMd(rows[i].0);
    }
  }

  lemma SnapshotIgnoresRowOrder(rows: seq<(real, real)>, others: seq<(real, real)>)
    requires DistinctKeys(rows) && DistinctKeys(others)
    requires multiset(rows) == multiset(others)
    ensures ParsedLevels(rows) == ParsedLevels(others)
  {
    RowsShareLevels(rows, others);
    RowsShareLevels(others, rows);
  }

  lemma RowsShareLevels(rows: seq<(real, real)>, others: seq<(real, real)>)
    requires DistinctKeys(rows) && DistinctKeys(others)
    requires multiset(rows) == multiset(others)
    ensures forall k :: k in ParsedLevels(rows)
              ==> k in ParsedLevels(others) && ParsedLevels(others)[k] == ParsedLevels(rows)[k]
  {
    forall k | k in ParsedLevels(rows)
      ensures k in ParsedLevels(others) && ParsedLevels(others)[k] == ParsedLevels(rows)[k]
    {
      LevelsComeFromRows(rows, k);
      var i :| 0 <= i < |rows| && ToMd(rows[i].0) == k && rows[i].1 == ParsedLevels(rows)[k];
      assert rows[i] in multiset(others);
      var j :| 0 <= j < |others| && others[j] == rows[i];
      RowsBecomeLevels(others, j);
    }
  }

  // --- reading a book -------------------------------------------------------

  /** A valid book is a proper market inside [0, 1], whatever NO prices the
      feed sent; a NO price at or above $1 can never yield a valid book. */
  lemma ValidBookIsOrdered(b: BookView)
    requires b.IsValid()
    ensures 0.0 <= b.BestBid().value < b.Mid().value < b.BestAsk().value <= 1.0
    ensures b.NoSideLegal() && b.YesSideLegal()
    ensures forall p :: p in b.yes ==> ToDollars(p) <= b.BestBid().value
    ensures forall p :: p in b.no ==> b.BestAsk().value <= 1.0 - ToDollars(p)
  {
  }

  // --- a worked book --------------------------------------------------------

  /** Bid 30 cents, ask 50 cents: wide enough for the fee gate. */
  function WideBook(): BookView { BookView(map[300 := 50.0], map[500 := 40.0]) }

  lemma WideBookTouch()
    ensures WideBook().IsValid() && WideBook().BestBid() == Some(0.3) && WideBook().BestAsk() == Some(0.5)
  {
    OnlyLevel(300, 50.0);
    OnlyLevel(500, 40.0);
  }

  lemma OnlyLevel(key: nat, qty: real)
    ensures MaxKey(map[key := qty]) == Some(key)
  {
    assert key in map[key := qty];
  }
}
