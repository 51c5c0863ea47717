/**
 * Items needing restock. The KPI counts the snapshots whose normalised flag is
 * "yes" (`.eq('yes').sum()`); the low-stock list keeps those snapshots
 * (`[... == 'yes']`) and the simulated e-mail names their products.
 */
module Restock {
  import opened Text
  import opened Schema
  import opened Status

  /** `latest[flag].fillna('').str.lower().eq('yes').sum()`. */
  function RestockCount(latest: seq<Row>): (n: nat)
    ensures n <= |latest|
    ensures n == 0 <==> forall x :: x in latest ==> !NeedsRestock(x)
  {
    if latest == [] then 0
    else
      assert latest == [latest[0]] + latest[1..];
      (if NeedsRestock(latest[0]) then 1 else 0) + RestockCount(latest[1..])
  }

  /** `latest[latest[flag].fillna('').str.lower() == 'yes']`: the flagged snapshots, unchanged and in order. */
  function LowStock(latest: seq<Row>): (low: seq<Row>)
    ensures forall x :: x in low <==> x in latest && NeedsRestock(x)
    ensures multiset(low) <= multiset(latest)
  {
    if latest == [] then []
    else
      assert latest == [latest[0]] + latest[1..];
      (if NeedsRestock(latest[0]) then [latest[0]] else []) + LowStock(latest[1..])
  }

  /** The list shows exactly as many entries as the KPI counts. */
  lemma {:induction false} ListLengthIsCount(latest: seq<Row>)
    ensures |LowStock(latest)| == RestockCount(latest)
  {
    if latest != [] {
      ListLengthIsCount(latest[1..]);
    }
  }

  /**
   * The restock KPI over a table counts pairs, not rows: at most one per
   * distinct (client, product), however many rows a pair has.
   */
  lemma RestockAtMostPairs(rows: seq<Row>)
    ensures RestockCount(LatestStatus(rows)) <= |Pairs(rows)|
    ensures |LowStock(LatestStatus(rows))| <= |Pairs(rows)|
  {
    ListLengthIsCount(LatestStatus(rows));
  }

  /** Every entry of the low-stock list is the current snapshot of its own pair. */
  lemma LowStockAreSnapshots(rows: seq<Row>)
    ensures forall x :: x in LowStock(LatestStatus(rows)) ==>
      && NeedsRestock(x)
      && x in rows
      && forall y :: y in rows && PairOf(y) == PairOf(x) ==> StrLe(y.date, x.date)
  {
    var latest := LatestStatus(rows);
    forall x | x in LowStock(latest) ensures x in rows {
      assert x in multiset(latest);
    }
  }

  /** Rewriting dates changes no flag, so it changes neither the count nor the list's length. */
  lemma {:induction false} RedateKeepsFlags(latest: seq<Row>, g: string -> string)
    ensures RestockCount(Redate(latest, g)) == RestockCount(latest)
    ensures |LowStock(Redate(latest, g))| == |LowStock(latest)|
  {
    if latest != [] {
      RedateKeepsFlags(latest[1..], g);
      assert Redate(latest, g)[0].restockFlag == latest[0].restockFlag;
      assert Redate(latest, g)[1..] == Redate(latest[1..], g);
    }
  }

  /**
   * A pair's January row said "yes", its later February row "no": only the
   * February row is current, and nothing needs restock.
   */
  lemma LaterRowDecides(jan: Row, feb: Row)
    requires PairOf(jan) == PairOf(feb)
    requires jan.date == "2025-01-01" && jan.restockFlag == Some("yes")
    requires feb.date == "2025-02-01" && feb.restockFlag == Some("no")
    ensures LatestStatus([jan, feb]) == [feb]
    ensures RestockCount(LatestStatus([jan, feb])) == 0
    ensures LowStock(LatestStatus([jan, feb])) == []
  {
    assert StrLt(jan.date, feb.date) by {
      var common := "2025-0";
      assert jan.date == common + "1-01" && feb.date == common + "2-01";
      StrLtCommonPrefix(common, "1-01", "2-01");
    }
    NoIsNoRestock(feb);
    LaterSnapshotClears(jan, feb);
  }

  lemma YesIsRestock(r: Row)
    requires r.restockFlag == Some("yes")
    ensures NeedsRestock(r)
  {
    assert Lower("yes") == "yes";
  }

  lemma NoIsNoRestock(r: Row)
    requires r.restockFlag == Some("no")
    ensures !NeedsRestock(r)
  {
    assert Lower("no") == "no";
  }

  /** Two snapshots of one pair: when the later one needs no restock, nothing is counted or listed. */
  lemma LaterSnapshotClears(a: Row, b: Row)
    requires PairOf(a) == PairOf(b) && StrLt(a.date, b.date) && !NeedsRestock(b)
    ensures LatestStatus([a, b]) == [b]
    ensures RestockCount(LatestStatus([a, b])) == 0
    ensures LowStock(LatestStatus([a, b])) == []
  {
    LatestOfTwo(a, b);
  }

  /** `low['Product Name'].unique()`: each product once, in order of first appearance. */
  function UniqueInOrder(xs: seq<string>): (u: seq<string>)
    ensures forall v :: v in u <==> v in xs
    ensures forall i, j :: 0 <= i < j < |u| ==> u[i] != u[j]
    decreases |xs|
  {
    if xs == [] then []
    else
      var init := UniqueInOrder(xs[..|xs| - 1]);
      assert xs == xs[..|xs| - 1] + [xs[|xs| - 1]];
      if xs[|xs| - 1] in init then init else init + [xs[|xs| - 1]]
  }

  function ProductNames(rows: seq<Row>): (ps: seq<string>)
    ensures |ps| == |rows|
    ensures forall i :: 0 <= i < |rows| ==> ps[i] == rows[i].product
  {
    if rows == [] then [] else [rows[0].product] + ProductNames(rows[1..])
  }

  /**
   * The simulated e-mail: shown only when the low-stock list is not empty,
   * naming each product of the list once.
   */
  function AlertProducts(low: seq<Row>): (alert: Option<seq<string>>)
    ensures alert.None? <==> low == []
    ensures alert.Some? ==> forall p :: p in alert.value <==> exists x :: x in low && x.product == p
    ensures alert.Some? ==> forall i, j :: 0 <= i < j < |alert.value| ==> alert.value[i] != alert.value[j]
  {
    if low == [] then None
    else
      var ps := ProductNames(low);
      forall p | p in ps ensures exists x :: x in low && x.product == p {
        var i :| 0 <= i < |ps| && ps[i] == p;
        assert low[i] in low;
      }
      Some(UniqueInOrder(ps))
  }
}
