/**
 * The four summary figures at the top of the dashboard: revenue and units
 * summed over the filtered rows, the number of (client, product) pairs whose
 * current snapshot needs restock, and the number of distinct clients in the
 * WHOLE table (the filters do not apply to it).
 */
module Kpis {
  import opened Schema
  import opened Filters
  import opened Status
  import opened Restock

  /** `df_filtered[revenue].sum()`; an empty frame sums to 0. */
  function TotalRevenue(rows: seq<Row>): (t: int)
    ensures (forall i :: 0 <= i < |rows| ==> rows[i].revenue == 0) ==> t == 0
    ensures (forall i :: 0 <= i < |rows| ==> rows[i].revenue >= 0) ==> forall i :: 0 <= i < |rows| ==> 0 <= rows[i].revenue <= t
  {
    if rows == [] then 0
    else
      assert forall i :: 1 <= i < |rows| ==> rows[1..][i - 1] == rows[i];
      rows[0].revenue + TotalRevenue(rows[1..])
  }

  /** `df_filtered[units sold].sum()`: no row's units exceed it, and it is 0 exactly when every row sold none. */
  function TotalUnits(rows: seq<Row>): (n: nat)
    ensures forall i :: 0 <= i < |rows| ==> rows[i].unitsSold <= n
    ensures n == 0 <==> forall i :: 0 <= i < |rows| ==> rows[i].unitsSold == 0
  {
    if rows == [] then 0
    else
      assert forall i :: 1 <= i < |rows| ==> rows[1..][i - 1] == rows[i];
      rows[0].unitsSold + TotalUnits(rows[1..])
  }

  /** Both sums are additive over a split of the rows. */
  lemma {:induction false} TotalsAppend(a: seq<Row>, b: seq<Row>)
    ensures TotalRevenue(a + b) == TotalRevenue(a) + TotalRevenue(b)
    ensures TotalUnits(a + b) == TotalUnits(a) + TotalUnits(b)
  {
    if a != [] {
      assert (a + b)[0] == a[0] && (a + b)[1..] == a[1..] + b;
      TotalsAppend(a[1..], b);
    } else {
      assert a + b == b;
    }
  }

  /** Filtering never raises the units figure: units sold are not negative. */
  lemma {:induction false} FilteredUnitsAtMostAll(rows: seq<Row>, sel: Selection)
    ensures TotalUnits(FilterRows(rows, sel)) <= TotalUnits(rows)
  {
    if rows != [] {
      FilteredUnitsAtMostAll(rows[1..], sel);
      assert rows == [rows[0]] + rows[1..];
      FilterAppend([rows[0]], rows[1..], sel);
      TotalsAppend(FilterRows([rows[0]], sel), FilterRows(rows[1..], sel));
      assert [rows[0]][1..] == [];
    }
  }

  /**
   * The rows a filter keeps and the rows it drops add up to the whole table,
   * for both sums: the rows equal to v in a column and the rest partition the totals.
   */
  lemma {:induction false} ColumnSplit(rows: seq<Row>, c: Column, v: string)
    ensures TotalUnits(KeepEqual(rows, c, v)) + TotalUnits(DropEqual(rows, c, v)) == TotalUnits(rows)
    ensures TotalRevenue(KeepEqual(rows, c, v)) + TotalRevenue(DropEqual(rows, c, v)) == TotalRevenue(rows)
  {
    if rows != [] {
      ColumnSplit(rows[1..], c, v);
      var h := rows[0];
      var kept, dropped := KeepEqual(rows[1..], c, v), DropEqual(rows[1..], c, v);
      if Cell(h, c) == v {
        assert KeepEqual(rows, c, v) == [h] + kept;
        assert DropEqual(rows, c, v) == dropped;
        assert ([h] + kept)[1..] == kept;
      } else {
        assert KeepEqual(rows, c, v) == kept;
        assert DropEqual(rows, c, v) == [h] + dropped;
        assert ([h] + dropped)[1..] == dropped;
      }
    }
  }

  /** The rows whose cell in column `c` is not `v`, in order. */
  function DropEqual(rows: seq<Row>, c: Column, v: string): (dropped: seq<Row>)
    ensures forall x :: x in dropped <==> x in rows && Cell(x, c) != v
  {
    if rows == [] then []
    else (if Cell(rows[0], c) != v then [rows[0]] else []) + DropEqual(rows[1..], c, v)
  }

  datatype Summary = Summary(totalRevenue: int, totalUnits: nat, restockCount: nat, uniqueClients: nat)

  /**
   * The KPI row: sums over the filtered frame, the restock count over its
   * current snapshots, and `df[client].nunique()` over the unfiltered table.
   */
  function Summarize(df: seq<Row>, filtered: seq<Row>): (s: Summary)
    ensures s.totalRevenue == TotalRevenue(filtered) && s.totalUnits == TotalUnits(filtered)
    ensures s.uniqueClients == |Clients(df)|
    ensures s.restockCount <= |Pairs(filtered)|
    ensures s.restockCount == |LowStock(LatestStatus(filtered))|
    ensures s.uniqueClients <= |df|
    ensures s.uniqueClients == 0 <==> df == []
    ensures filtered == [] ==> s.totalRevenue == 0 && s.totalUnits == 0 && s.restockCount == 0
  {
    var latest := LatestStatus(filtered);
    RestockAtMostPairs(filtered);
    ListLengthIsCount(latest);
    ClientsAtMostRows(df);
    assert df != [] ==> df[0].client in Clients(df);
    Summary(TotalRevenue(filtered), TotalUnits(filtered), RestockCount(latest), |Clients(df)|)
  }

  /**
   * Whatever the filters, the client figure is at least the number of
   * clients left in the filtered table, and with no filter the two agree.
   */
  lemma ClientKpiBoundsFilteredClients(df: seq<Row>, sel: Selection)
    ensures |Clients(FilterRows(df, sel))| <= Summarize(df, FilterRows(df, sel)).uniqueClients
    ensures sel == Selection(None, None, None) ==> |Clients(FilterRows(df, sel))| == Summarize(df, FilterRows(df, sel)).uniqueClients
  {
    ClientsOfSubset(FilterRows(df, sel), df);
    FilterNothing(df);
  }

  /** The client figure is the same whatever the filters select. */
  lemma ClientKpiIgnoresFilter(df: seq<Row>, sel1: Selection, sel2: Selection)
    ensures Summarize(df, FilterRows(df, sel1)).uniqueClients == Summarize(df, FilterRows(df, sel2)).uniqueClients
    ensures Summarize(df, FilterRows(df, sel1)).uniqueClients == |Clients(df)|
  {
  }
}
