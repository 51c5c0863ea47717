/**
 * The inventory table in one language-neutral schema. The Japanese and English
 * branches of the dashboard run the same logic over differently named columns;
 * here a `Lang` only decides the "All" entry of the filters and how a date is
 * parsed.
 */
module Schema {
  import opened Text

  datatype Option<+T> = None | Some(value: T)

  datatype Lang = Japanese | English

  /** The entry that heads every filter list and means "no constraint". */
  function AllSentinel(lang: Lang): string {
    match lang
    case Japanese => "すべて"
    case English => "All"
  }

  /** One transaction row of the `inventory` table; a null restock cell is `None`. */
  datatype Row = Row(
    date: string,
    client: string,
    region: string,
    product: string,
    unitsSold: nat,
    unitPrice: int,
    revenue: int,
    currentStock: int,
    restockFlag: Option<string>,
    reorderLevel: int,
    lastRestockDate: string)

  /** The (client, product) key the dashboard groups by. */
  datatype Pair = Pair(client: string, product: string)

  function PairOf(r: Row): Pair {
    Pair(r.client, r.product)
  }

  function Pairs(rows: seq<Row>): set<Pair> {
    set r | r in rows :: PairOf(r)
  }

  function Clients(rows: seq<Row>): set<string> {
    set r | r in rows :: r.client
  }

  function Products(rows: seq<Row>): set<string> {
    set r | r in rows :: r.product
  }

  /** The restock cell after `fillna('')` and `str.lower()`. */
  function NormalizedFlag(flag: Option<string>): string {
    match flag
    case None => ""
    case Some(s) => Lower(s)
  }

  /** The row's restock cell normalises to exactly "yes". */
  predicate NeedsRestock(r: Row)
    ensures NeedsRestock(r) ==> r.restockFlag.Some? && |r.restockFlag.value| == 3
  {
    NormalizedFlag(r.restockFlag) == "yes"
  }

  /**
   * The flag counts exactly when it is present and is "yes" in any mix of
   * letter case; a null cell never counts, and nothing is trimmed, so " yes"
   * or "yes " do not count either.
   */
  lemma NeedsRestockExactly(r: Row)
    ensures NeedsRestock(r) <==>
      && r.restockFlag.Some?
      && |r.restockFlag.value| == 3
      && r.restockFlag.value[0] in "yY"
      && r.restockFlag.value[1] in "eE"
      && r.restockFlag.value[2] in "sS"
  {
    if r.restockFlag.Some? {
      var v := r.restockFlag.value;
      var l := Lower(v);
      if |v| == 3 {
        assert LowerChar(v[0]) == 'y' <==> v[0] in "yY";
        assert LowerChar(v[1]) == 'e' <==> v[1] in "eE";
        assert LowerChar(v[2]) == 's' <==> v[2] in "sS";
        assert l == "yes" <==> (l[0] == 'y' && l[1] == 'e' && l[2] == 's');
      }
    }
  }

  /** Distinct clients never outnumber the rows. */
  lemma {:induction false} ClientsAtMostRows(rows: seq<Row>)
    ensures |Clients(rows)| <= |rows|
  {
    if rows != [] {
      ClientsAtMostRows(rows[1..]);
      assert Clients(rows) == {rows[0].client} + Clients(rows[1..]);
    }
  }

  /** A sub-collection of rows has no more distinct clients than the whole. */
  lemma ClientsOfSubset(sub: seq<Row>, rows: seq<Row>)
    requires forall x :: x in sub ==> x in rows
    ensures Clients(sub) <= Clients(rows)
    ensures |Clients(sub)| <= |Clients(rows)|
  {
    SubsetCardinality(Clients(sub), Clients(rows));
  }

  lemma {:induction false} SubsetCardinality<T>(a: set<T>, b: set<T>)
    requires a <= b
    ensures |a| <= |b|
    decreases |a|
  {
    if a != {} {
      var x :| x in a;
      SubsetCardinality(a - {x}, b - {x});
    }
  }
}
