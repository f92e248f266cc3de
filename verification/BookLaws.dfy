/** The book in dollars: what prices were fed is what prices are read, through
    the millidollar keys. */
module BookLaws {
  import opened Numbers
  import opened Books

  /** A price the keys can hold: a whole number of millidollars, from zero up
      to the limit of the 32-bit cast. */
  predicate Keyed(price: real) { Milli(price) && 0.0 <= price <= 4294967.295 }

  /** Prices on the grid come back exactly, others within half a millidollar;
      what the keys cannot hold saturates. */
  lemma DollarsReadBack(price: real)
    ensures Keyed(price) ==> ToDollars(ToMd(price)) == price
    ensures 0.0 <= price <= 4294967.295 ==> Abs(ToDollars(ToMd(price)) - price) <= 0.0005
    ensures price <= 0.0 ==> ToDollars(ToMd(price)) == 0.0
    ensures price >= 4294967.295 ==> ToDollars(ToMd(price)) == 4294967.295
  {
    var x := price * 1000.0;
    RoundAwayExact(0);
    RoundAwayExact(4294967295);
    if Milli(price) {
      RoundAwayExact(x.Floor);
    }
    if price <= 0.0 {
      RoundAwayMonotone(x, 0.0);
    }
    if 0.0 <= price {
      RoundAwayMonotone(0.0, x);
    }
    if price <= 4294967.295 {
      RoundAwayMonotone(x, 4294967295.0);
    } else {
      RoundAwayMonotone(4294967295.0, x);
    }
  }

  // --- deltas ---------------------------------------------------------------

  /** What rests at a price. */
  function Resting(levels: Levels, price: real): real { QtyAt(levels, ToMd(price)) }

  /** A delta at a price moves what rests there, never below nothing, and
      leaves every other price alone. */
  lemma DeltaMovesItsPrice(levels: Levels, price: real, qty: real, other: real)
    requires Keyed(price) && Keyed(other)
    ensures Resting(AfterDelta(levels, ToMd(price), qty), other)
         == if other == price then Max(Resting(levels, price) + qty, 0.0) else Resting(levels, other)
  {
    DollarsReadBack(price);
    DollarsReadBack(other);
  }

  // --- snapshots ------------------------------------------------------------

  type Rows = seq<(real, real)>

  predicate KeyedRows(rows: Rows) { forall i :: 0 <= i < |rows| ==> Keyed(rows[i].0) }

  predicate Offers(rows: Rows, price: real) { exists i :: 0 <= i < |rows| && rows[i].1 > 0.0 && rows[i].0 == price }

  /** The largest price offered in the rows. */
  ghost predicate IsLargest(rows: Rows, price: real) {
    Offers(rows, price) && forall i :: 0 <= i < |rows| && rows[i].1 > 0.0 ==> rows[i].0 <= price
  }

  predicate Empty(rows: Rows) { forall i :: 0 <= i < |rows| ==> rows[i].1 <= 0.0 }

  lemma {:induction false} LevelsAreTheOffers(rows: Rows, price: real)
    requires KeyedRows(rows) && Keyed(price)
    ensures ToMd(price) in ParsedLevels(rows) <==> Offers(rows, price)
  {
    if rows == [] {
    } else {
      var before, row := rows[..|rows| - 1], rows[|rows| - 1];
      LevelsAreTheOffers(before, price);
      DollarsReadBack(price);
      DollarsReadBack(row.0);
      OffersStep(rows, price);
    }
  }

  lemma OffersStep(rows: Rows, price: real)
    requires rows != []
    ensures var row := rows[|rows| - 1];
            Offers(rows, price) <==> Offers(rows[..|rows| - 1], price) || (row.1 > 0.0 && row.0 == price)
  {
    var before := rows[..|rows| - 1];
    assert forall i :: 0 <= i < |before| ==> before[i] == rows[i];
    if Offers(before, price) {
      var i :| 0 <= i < |before| && before[i].1 > 0.0 && before[i].0 == price;
      assert rows[i] == before[i];
    }
  }

  lemma {:induction false} KeysComeFromRows(rows: Rows, key: nat) returns (price: real)
    requires KeyedRows(rows) && key in ParsedLevels(rows)
    ensures Keyed(price) && ToMd(price) == key && Offers(rows, price)
  {
    var before, row := rows[..|rows| - 1], rows[|rows| - 1];
    OffersStep(rows, row.0);
    if row.1 > 0.0 && ToMd(row.0) == key {
      price := row.0;
    } else {
      price := KeysComeFromRows(before, key);
      OffersStep(rows, price);
    }
  }

  lemma BestOfSide(rows: Rows)
    requires KeyedRows(rows)
    ensures MaxKey(ParsedLevels(rows)).None? <==> Empty(rows)
    ensures MaxKey(ParsedLevels(rows)).Some? ==> IsLargest(rows, ToDollars(MaxKey(ParsedLevels(rows)).value))
  {
    hide ParsedLevels, ToMd, ToDollars, Keyed;
    forall i | 0 <= i < |rows| && rows[i].1 > 0.0
      ensures ToMd(rows[i].0) in ParsedLevels(rows)
    {
      assert Offers(rows, rows[i].0);
      LevelsAreTheOffers(rows, rows[i].0);
    }
    var best := MaxKey(ParsedLevels(rows));
    if best.Some? {
      var price := KeysComeFromRows(rows, best.value);
      DollarsReadBack(price);
      forall i | 0 <= i < |rows| && rows[i].1 > 0.0
        ensures rows[i].0 <= price
      {
        KeysKeepOrder(rows[i].0, price);
      }
    }
  }

  lemma KeysKeepOrder(p: real, q: real)
    requires Keyed(p) && Keyed(q)
    ensures p <= q <==> ToMd(p) <= ToMd(q)
  {
    DollarsReadBack(p);
    DollarsReadBack(q);
  }

  /** After a snapshot the best bid is the largest YES price of its rows, and
      the best ask is a dollar less the largest NO price. */
  lemma SnapshotReadsBack(yesRows: Rows, noRows: Rows)
    requires KeyedRows(yesRows) && KeyedRows(noRows)
    ensures var b := BookView(ParsedLevels(yesRows), ParsedLevels(noRows));
            && (b.BestBid().None? <==> Empty(yesRows))
            && (b.BestBid().Some? ==> IsLargest(yesRows, b.BestBid().value))
            && (b.BestAsk().None? <==> Empty(noRows))
            && (forall p: real :: IsLargest(noRows, p) ==> b.BestAsk() == Some(Max(1.0 - p, 0.0)))
  {
    hide ParsedLevels, ToMd, IsLargest, Empty;
    BestOfSide(yesRows);
    BestOfSide(noRows);
    forall p: real | IsLargest(noRows, p)
      ensures BookView(ParsedLevels(yesRows), ParsedLevels(noRows)).BestAsk() == Some(Max(1.0 - p, 0.0))
    {
      OneLargest(noRows, p);
    }
  }

  lemma OneLargest(rows: Rows, p: real)
    requires IsLargest(rows, p)
    ensures !Empty(rows) && forall q: real :: IsLargest(rows, q) ==> q == p
  {
  }

  /** A loaded book is valid exactly when both sides offer something and their
      best prices together stay under a dollar. */
  lemma ValidIffUnderADollar(yesRows: Rows, noRows: Rows, p: real, q: real)
    requires KeyedRows(yesRows) && KeyedRows(noRows) && IsLargest(yesRows, p) && IsLargest(noRows, q)
    ensures BookView(ParsedLevels(yesRows), ParsedLevels(noRows)).IsValid() <==> p + q < 1.0
  {
    hide ParsedLevels, IsLargest, Empty;
    BestOfSide(yesRows);
    BestOfSide(noRows);
    OneLargest(yesRows, p);
    OneLargest(noRows, q);
    LargestIsKeyed(yesRows, p);
  }

  lemma LargestIsKeyed(rows: Rows, p: real)
    requires KeyedRows(rows) && IsLargest(rows, p)
    ensures Keyed(p)
  {
  }

  /** A book missing a side is not valid. */
  lemma OneSidedBooksAreInvalid(b: BookView)
    ensures b.yes == map[] || b.no == map[] ==> !b.IsValid() && b.Mid().None?
  {
  }

  /** A row gives its price its quantity, unless a later row prices it again. */
  lemma {:induction false} RowsSetTheirPrice(rows: Rows, i: nat)
    requires KeyedRows(rows) && i < |rows| && rows[i].1 > 0.0
    requires forall j :: i < j < |rows| && rows[j].1 > 0.0 ==> rows[j].0 != rows[i].0
    ensures Resting(ParsedLevels(rows), rows[i].0) == rows[i].1
  {
    var n := |rows| - 1;
    if i < n {
      RowsSetTheirPrice(rows[..n], i);
      DollarsReadBack(rows[n].0);
      DollarsReadBack(rows[i].0);
    }
  }

  /** Forty cents bid, and 58 bid for NO: a market at 40 to 42. */
  lemma FortyToFortyTwo()
    ensures var b := BookView(ParsedLevels([(0.4, 50.0)]), ParsedLevels([(0.58, 40.0)]));
            b.IsValid() && b.BestBid() == Some(0.4) && b.BestAsk() == Some(0.42) && Resting(b.yes, 0.4) == 50.0
  {
    MilliOf(400);
    MilliOf(580);
    var yesRows, noRows := [(0.4, 50.0)], [(0.58, 40.0)];
    assert IsLargest(noRows, 0.58) by {
      assert noRows[0].0 == 0.58;
    }
    assert yesRows[0].1 > 0.0;
    SnapshotReadsBack(yesRows, noRows);
    RowsSetTheirPrice(yesRows, 0);
  }
}
