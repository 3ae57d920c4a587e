/** The table of aggregated prices: its two writers, its three queries, and what they say about raw prices. */
module Storage {
  import opened Model
  import opened Stats

  // ---------- Rows and the raw prices behind them ----------

  /** The updates summed up by one row; a window without prices makes no row. */
  datatype Updates = Group(pair: string, exchange: string, timestamp: Time, prices: seq<Update>)
  type Group = g: Updates | g.prices != [] witness Group("", "", 0, [Update("", "", 0.0, 0)])

  function RowFor(g: Group): Row {
    Row(g.pair, g.exchange, g.timestamp, Mean(g.prices), Lowest(g.prices), Highest(g.prices))
  }

  function RowsFor(gs: seq<Group>): seq<Row> {
    seq(|gs|, i requires 0 <= i < |gs| => RowFor(gs[i]))
  }

  /** A row names its group and carries the sum of its prices, divided by their number, and their extremes. */
  lemma RowSumsUp(g: Group)
    ensures var r := RowFor(g);
            && r.pair == g.pair && r.exchange == g.exchange && r.timestamp == g.timestamp
            && IsShare(r.average, |g.prices|, Total(g.prices))
            && (forall u :: u in g.prices ==> r.min <= u.price <= r.max)
            && (exists u :: u in g.prices && u.price == r.min) && (exists u :: u in g.prices && u.price == r.max)
  {
    MeanIsAverage(g.prices);
    GroupPrices(g);
  }

  /** The group behind a row that a worker writes by itself. */
  function Single(u: Update): Group {
    Group(u.symbol, u.exchange, u.timestamp, [u])
  }

  /** A row a worker writes by itself sums up its one update. */
  lemma FallbackIsGroupOfOne(u: Update)
    ensures FallbackRow(u) == RowFor(Single(u))
  {
    MeanOfOne(u);
  }

  // ---------- Queries ----------

  predicate Matches(r: Row, symbol: string, exchange: string, since: Time) {
    r.pair == symbol && (exchange == "" || r.exchange == exchange) && r.timestamp >= since
  }

  function Matching(rows: seq<Row>, symbol: string, exchange: string, since: Time): (found: seq<Row>)
    ensures forall r :: r in found <==> r in rows && Matches(r, symbol, exchange, since)
  {
    if rows == [] then []
    else
      var n := |rows| - 1;
      assert rows == rows[..n] + [rows[n]];
      Matching(rows[..n], symbol, exchange, since)
      + (if Matches(rows[n], symbol, exchange, since) then [rows[n]] else [])
  }

  /** Each matching row is found as often as it is in the table, and no other row is found. */
  lemma {:induction false} MatchingOccurrences(rows: seq<Row>, symbol: string, exchange: string, since: Time, r: Row)
    ensures multiset(Matching(rows, symbol, exchange, since))[r]
            == if r.pair == symbol && (exchange == "" || r.exchange == exchange) && r.timestamp >= since
               then multiset(rows)[r] else 0
  {
    if rows != [] {
      var n := |rows| - 1;
      MatchingOccurrences(rows[..n], symbol, exchange, since, r);
      assert rows == rows[..n] + [rows[n]];
    }
  }

  /** An answer of `ORDER BY max_price DESC LIMIT 1` over the rows found. */
  predicate IsHighest(found: seq<Row>, answer: Option<Row>) {
    match answer
    case None => found == []
    case Some(row) => row in found && forall r :: r in found ==> r.max <= row.max
  }

  /** An answer of `ORDER BY min_price ASC LIMIT 1` over the rows found. */
  predicate IsLowest(found: seq<Row>, answer: Option<Row>) {
    match answer
    case None => found == []
    case Some(row) => row in found && forall r :: r in found ==> row.min <= r.min
  }

  function SumOfAverages(rows: seq<Row>): real {
    if rows == [] then 0.0 else SumOfAverages(rows[..|rows| - 1]) + rows[|rows| - 1].average
  }

  /** `AVG(average_price)`, with the null of an empty selection read as zero. */
  function AverageOf(found: seq<Row>): real {
    if found == [] then 0.0 else SumOfAverages(found) / |found| as real
  }

  lemma SumAppend(rows: seq<Row>, r: Row)
    ensures SumOfAverages(rows + [r]) == SumOfAverages(rows) + r.average
  {
    assert (rows + [r])[..|rows|] == rows;
  }

  /** One more row changes the average as it changes a mean, so every row weighs the same. */
  lemma AverageGrows(found: seq<Row>, r: Row)
    ensures AverageOf([]) == 0.0 && AverageOf([r]) == r.average
    ensures AverageOf(found + [r]) * (|found| + 1) as real == AverageOf(found) * |found| as real + r.average
  {
    SumAppend(found, r);
    assert [r][..0] == [];
    assert SumOfAverages([r]) / 1.0 == r.average;
    DivisionShares(SumOfAverages(found + [r]), |found| + 1);
    if found != [] {
      DivisionShares(SumOfAverages(found), |found|);
    }
  }

  /** Whether a statement fails is up to the server; each method takes it as a parameter. */
  class PostgresAdapter {
    var rows: seq<Row>

    /** What stands behind the rows. */
    ghost var groups: seq<Group>

    /** Every row sums up some updates. */
    ghost predicate Valid()
      reads this
    {
      rows == RowsFor(groups)
    }

    constructor ()
      ensures Valid() && rows == [] && groups == []
    {
      rows, groups := [], [];
    }

    /** One transaction: all rows are inserted or none is. `made` is what stands behind them. */
    method SaveAggregatedPrices(prices: seq<Row>, ghost made: seq<Group>, fails: bool) returns (ok: bool)
      modifies this
      ensures rows == if ok then old(rows) + prices else old(rows)
      ensures groups == if ok then old(groups) + made else old(groups)
      ensures ok <==> prices == [] || !fails
      ensures old(Valid()) && prices == RowsFor(made) ==> Valid()
    {
      if |prices| == 0 {
        groups := groups + made;
        return true;
      }
      var values: seq<Row> := [];
      for i := 0 to |prices|
        invariant values == prices[..i]
      {
        var p := prices[i];
        values := values + [Row(p.pair, p.exchange, p.timestamp, p.average, p.min, p.max)];
      }
      assert values == prices;
      if fails {
        return false;
      }
      rows, groups := rows + values, groups + made;
      return true;
    }

    method GetHighestPrice(symbol: string, exchange: string, now: Time, period: Time, fails: bool)
      returns (ok: bool, row: Option<Row>)
      ensures ok == !fails
      ensures ok ==> IsHighest(Matching(rows, symbol, exchange, now - period), row)
      ensures row.Some? ==>
                && row.value in rows && row.value.pair == symbol
                && (exchange == "" || row.value.exchange == exchange) && row.value.timestamp >= now - period
      ensures ok ==> forall other ::
                && other in rows && other.pair == symbol
                && (exchange == "" || other.exchange == exchange) && other.timestamp >= now - period
                ==> row.Some? && other.max <= row.value.max
      ensures !ok ==> row == None
    {
      ok, row := !fails, None;
      if ok {
        for i := 0 to |rows|
          invariant IsHighest(Matching(rows[..i], symbol, exchange, now - period), row)
        {
          assert rows[..i + 1][..i] == rows[..i];
          if Matches(rows[i], symbol, exchange, now - period) && (row.None? || rows[i].max > row.value.max) {
            row := Some(rows[i]);
          }
        }
        assert rows[..|rows|] == rows;
      }
    }

    method GetLowestPrice(symbol: string, exchange: string, now: Time, period: Time, fails: bool)
      returns (ok: bool, row: Option<Row>)
      ensures ok == !fails
      ensures ok ==> IsLowest(Matching(rows, symbol, exchange, now - period), row)
      ensures row.Some? ==>
                && row.value in rows && row.value.pair == symbol
                && (exchange == "" || row.value.exchange == exchange) && row.value.timestamp >= now - period
      ensures ok ==> forall other ::
                && other in rows && other.pair == symbol
                && (exchange == "" || other.exchange == exchange) && other.timestamp >= now - period
                ==> row.Some? && row.value.min <= other.min
      ensures !ok ==> row == None
    {
      ok, row := !fails, None;
      if ok {
        for i := 0 to |rows|
          invariant IsLowest(Matching(rows[..i], symbol, exchange, now - period), row)
        {
          assert rows[..i + 1][..i] == rows[..i];
          if Matches(rows[i], symbol, exchange, now - period) && (row.None? || rows[i].min < row.value.min) {
            row := Some(rows[i]);
          }
        }
        assert rows[..|rows|] == rows;
      }
    }

    /** The database sums and counts the matching rows; no row gives null, which reads as zero. */
    method GetAveragePrice(symbol: string, exchange: string, now: Time, period: Time, fails: bool)
      returns (ok: bool, average: real)
      ensures ok == !fails
      ensures average == if ok then AverageOf(Matching(rows, symbol, exchange, now - period)) else 0.0
      ensures ok ==>
                var found := Matching(rows, symbol, exchange, now - period);
                IsShare(average, |found|, SumOfAverages(found))
    {
      ok, average := !fails, 0.0;
      if ok {
        var sum, n: nat := 0.0, 0;
        ghost var found := [];
        for i := 0 to |rows|
          invariant found == Matching(rows[..i], symbol, exchange, now - period)
          invariant n == |found| && sum == SumOfAverages(found)
        {
          assert rows[..i + 1][..i] == rows[..i];
          if Matches(rows[i], symbol, exchange, now - period) {
            SumAppend(found, rows[i]);
            sum, n, found := sum + rows[i].average, n + 1, found + [rows[i]];
          }
        }
        assert rows[..|rows|] == rows;
        if n > 0 {
          average := sum / n as real;
          DivisionShares(sum, n);
        }
      }
    }
  }

  // ---------- What the rows say about raw prices ----------

  predicate Ordered(r: Row) {
    r.min <= r.average <= r.max
  }

  predicate Positive(ps: seq<Update>) {
    forall u :: u in ps ==> u.price > 0.0
  }

  lemma RowForIsOrdered(g: Group)
    ensures Ordered(RowFor(g))
    ensures Positive(g.prices) ==> RowFor(g).min > 0.0
  {
    MeanBetween(g.prices);
    Extremes(g.prices);
  }

  /**
   The table's check constraints: every row has its average between its minimum and its maximum, and with positive
   raw prices all three are positive. Both writers keep the table valid.
   */
  lemma TableInvariant(table: PostgresAdapter, r: Row)
    requires table.Valid() && r in table.rows
    ensures Ordered(r)
    ensures (forall g :: g in table.groups ==> Positive(g.prices)) ==> 0.0 < r.min && 0.0 < r.average && 0.0 < r.max
  {
    var g := RowHasGroup(table.groups, r);
    RowForIsOrdered(g);
  }

  /** `p` is a raw price behind a row that the query selects. */
  ghost predicate RawPrice(gs: seq<Group>, symbol: string, exchange: string, since: Time, p: real) {
    exists g: Group, u :: g in gs && Matches(RowFor(g), symbol, exchange, since) && u in g.prices && u.price == p
  }

  lemma {:induction false} SumOfAveragesBounds(rows: seq<Row>, lo: real, hi: real)
    requires forall r :: r in rows ==> lo <= r.average <= hi
    ensures lo * |rows| as real <= SumOfAverages(rows) <= hi * |rows| as real
  {
    if rows != [] {
      SumOfAveragesBounds(rows[..|rows| - 1], lo, hi);
    }
  }

  lemma AverageBounds(found: seq<Row>, lo: real, hi: real)
    requires found != [] && forall r :: r in found ==> lo <= r.average <= hi
    ensures lo <= AverageOf(found) <= hi
  {
    SumOfAveragesBounds(found, lo, hi);
    Quotient(SumOfAverages(found), |found| as real, lo, hi);
  }

  /** Among ordered rows the lowest, the average and the highest answers are in order. */
  lemma AnswersInOrder(found: seq<Row>, low: Row, high: Row)
    requires forall r :: r in found ==> Ordered(r)
    requires IsLowest(found, Some(low)) && IsHighest(found, Some(high))
    ensures low.min <= AverageOf(found) <= high.max
  {
    assert low in found;
    AverageBounds(found, low.min, high.max);
  }

  lemma GroupPrices(g: Group)
    ensures exists u :: u in g.prices && u.price == RowFor(g).max
    ensures exists u :: u in g.prices && u.price == RowFor(g).min
    ensures forall u :: u in g.prices ==> RowFor(g).min <= u.price <= RowFor(g).max
  {
    Extremes(g.prices);
    var i :| 0 <= i < |g.prices| && g.prices[i].price == Lowest(g.prices);
    var j :| 0 <= j < |g.prices| && g.prices[j].price == Highest(g.prices);
    assert g.prices[i] in g.prices && g.prices[j] in g.prices;
  }

  lemma RowHasGroup(gs: seq<Group>, r: Row) returns (g: Group)
    requires r in RowsFor(gs)
    ensures g in gs && r == RowFor(g) && Ordered(r)
  {
    var i :| 0 <= i < |gs| && r == RowFor(gs[i]);
    g := gs[i];
    RowForIsOrdered(g);
  }

  lemma RawPriceHasRow(gs: seq<Group>, symbol: string, exchange: string, since: Time, p: real) returns (r: Row)
    requires RawPrice(gs, symbol, exchange, since, p)
    ensures r in Matching(RowsFor(gs), symbol, exchange, since) && r.min <= p <= r.max
  {
    var g: Group, u :| g in gs && Matches(RowFor(g), symbol, exchange, since) && u in g.prices && u.price == p;
    GroupPrices(g);
    r := RowFor(g);
    var i :| 0 <= i < |gs| && gs[i] == g;
    assert RowsFor(gs)[i] == r;
  }

  /**
   Aggregating twice loses neither extreme: the highest (lowest) answer carries the maximum (minimum) of all
   raw prices behind the selected rows, and the average of averages lies between the two.
   */
  lemma HierarchicalAggregation(gs: seq<Group>, symbol: string, exchange: string, since: Time, low: Row, high: Row)
    requires IsLowest(Matching(RowsFor(gs), symbol, exchange, since), Some(low))
    requires IsHighest(Matching(RowsFor(gs), symbol, exchange, since), Some(high))
    ensures RawPrice(gs, symbol, exchange, since, low.min) && RawPrice(gs, symbol, exchange, since, high.max)
    ensures forall p :: RawPrice(gs, symbol, exchange, since, p) ==> low.min <= p <= high.max
    ensures low.min <= AverageOf(Matching(RowsFor(gs), symbol, exchange, since)) <= high.max
  {
    var found := Matching(RowsFor(gs), symbol, exchange, since);
    forall r | r in found ensures Ordered(r) {
      var g := RowHasGroup(gs, r);
    }
    AnswersInOrder(found, low, high);
    var g := RowHasGroup(gs, low);
    GroupPrices(g);
    var h := RowHasGroup(gs, high);
    GroupPrices(h);
    forall p | RawPrice(gs, symbol, exchange, since, p)
      ensures low.min <= p <= high.max
    {
      var r := RawPriceHasRow(gs, symbol, exchange, since, p);
    }
  }
}
