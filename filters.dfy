/**
 * The sidebar filters: a conjunction of equality constraints on the client,
 * the product and the first seven characters of the date text, each switched
 * off by the "All" entry. The dashboard applies them one after the other to a
 * copy of the table; `ApplyFilters` does the same and is proved equal to the
 * conjunction `FilterRows`.
 */
module Filters {
  import opened Text
  import opened Schema

  /** The filterable columns; the month is the date text's 7-character prefix. */
  datatype Column = ClientColumn | ProductColumn | MonthColumn

  function Cell(r: Row, c: Column): string {
    match c
    case ClientColumn => r.client
    case ProductColumn => r.product
    case MonthColumn => Prefix(r.date, 7)
  }

  /** One filtering step, `df[df[col] == v]`: the rows whose cell is `v`, in order. */
  function KeepEqual(rows: seq<Row>, c: Column, v: string): (kept: seq<Row>)
    ensures forall x :: x in kept <==> x in rows && Cell(x, c) == v
    ensures |kept| <= |rows|
  {
    if rows == [] then []
    else (if Cell(rows[0], c) == v then [rows[0]] else []) + KeepEqual(rows[1..], c, v)
  }

  /** The three selections; `None` is the "All" entry. */
  datatype Selection = Selection(client: Option<string>, product: Option<string>, month: Option<string>)

  /** What a picked list entry means: the sentinel constrains nothing. */
  function Choice(lang: Lang, picked: string): (o: Option<string>)
    ensures o.None? <==> picked == AllSentinel(lang)
    ensures o.Some? ==> o.value == picked
  {
    if picked == AllSentinel(lang) then None else Some(picked)
  }

  function SelectionOf(lang: Lang, client: string, product: string, month: string): Selection {
    Selection(Choice(lang, client), Choice(lang, product), Choice(lang, month))
  }

  function Constraint(sel: Selection, c: Column): Option<string> {
    match c
    case ClientColumn => sel.client
    case ProductColumn => sel.product
    case MonthColumn => sel.month
  }

  /** `sel` with column `c` constrained to `v`. */
  function Narrow(sel: Selection, c: Column, v: string): Selection {
    match c
    case ClientColumn => sel.(client := Some(v))
    case ProductColumn => sel.(product := Some(v))
    case MonthColumn => sel.(month := Some(v))
  }

  predicate Allows(o: Option<string>, v: string) {
    o.None? || o.value == v
  }

  /** Every constraint of `sel` holds of row `r`. */
  predicate Admits(sel: Selection, r: Row) {
    && Allows(sel.client, r.client)
    && Allows(sel.product, r.product)
    && Allows(sel.month, Prefix(r.date, 7))
  }

  /** The filtered table: the rows `sel` admits, in their original order. */
  function FilterRows(rows: seq<Row>, sel: Selection): (kept: seq<Row>)
    ensures forall x :: x in kept <==> x in rows && Admits(sel, x)
    ensures |kept| <= |rows|
  {
    if rows == [] then []
    else (if Admits(sel, rows[0]) then [rows[0]] else []) + FilterRows(rows[1..], sel)
  }

  /** With every filter on "All" the table is unchanged (`df.copy()`). */
  lemma {:induction false} FilterNothing(rows: seq<Row>)
    ensures FilterRows(rows, Selection(None, None, None)) == rows
  {
    if rows != [] {
      FilterNothing(rows[1..]);
      assert rows == [rows[0]] + rows[1..];
    }
  }

  /** Filtering commutes with concatenation, so the original order survives. */
  lemma {:induction false} FilterAppend(a: seq<Row>, b: seq<Row>, sel: Selection)
    ensures FilterRows(a + b, sel) == FilterRows(a, sel) + FilterRows(b, sel)
  {
    if a == [] {
      assert a + b == b;
    } else {
      assert (a + b)[0] == a[0] && (a + b)[1..] == a[1..] + b;
      FilterAppend(a[1..], b, sel);
    }
  }

  /** An admitted row keeps all its copies, a rejected one loses all of them. */
  lemma {:induction false} FilterMultiplicity(rows: seq<Row>, sel: Selection, x: Row)
    ensures multiset(FilterRows(rows, sel))[x] == if Admits(sel, x) then multiset(rows)[x] else 0
  {
    if rows != [] {
      FilterMultiplicity(rows[1..], sel, x);
      assert rows == [rows[0]] + rows[1..];
    }
  }

  /** One more step on a still-free column is the conjunction with one more constraint. */
  lemma {:induction false} NarrowStep(rows: seq<Row>, sel: Selection, c: Column, v: string)
    requires Constraint(sel, c).None?
    ensures KeepEqual(FilterRows(rows, sel), c, v) == FilterRows(rows, Narrow(sel, c, v))
  {
    if rows != [] {
      NarrowStep(rows[1..], sel, c, v);
      var head := if Admits(sel, rows[0]) then [rows[0]] else [];
      KeepEqualAppend(head, FilterRows(rows[1..], sel), c, v);
    }
  }

  lemma {:induction false} KeepEqualAppend(a: seq<Row>, b: seq<Row>, c: Column, v: string)
    ensures KeepEqual(a + b, c, v) == KeepEqual(a, c, v) + KeepEqual(b, c, v)
  {
    if a == [] {
      assert a + b == b;
    } else {
      var head := if Cell(a[0], c) == v then [a[0]] else [];
      assert (a + b)[0] == a[0] && (a + b)[1..] == a[1..] + b;
      KeepEqualAppend(a[1..], b, c, v);
      calc {
        KeepEqual(a + b, c, v);
        head + KeepEqual(a[1..] + b, c, v);
        head + (KeepEqual(a[1..], c, v) + KeepEqual(b, c, v));
        (head + KeepEqual(a[1..], c, v)) + KeepEqual(b, c, v);
      }
    }
  }

  /**
   * The dashboard's filtering block: start from a copy of the whole table and
   * narrow it once per filter that is not on "All", client first, then
   * product, then month.
   */
  method ApplyFilters(df: seq<Row>, lang: Lang, selectedClient: string, selectedProduct: string, selectedMonth: string)
    returns (filtered: seq<Row>)
    ensures filtered == FilterRows(df, SelectionOf(lang, selectedClient, selectedProduct, selectedMonth))
  {
    var all := AllSentinel(lang);
    filtered := df;
    ghost var sel := Selection(None, None, None);
    FilterNothing(df);
    if selectedClient != all {
      NarrowStep(df, sel, ClientColumn, selectedClient);
      filtered := KeepEqual(filtered, ClientColumn, selectedClient);
      sel := Narrow(sel, ClientColumn, selectedClient);
    }
    if selectedProduct != all {
      NarrowStep(df, sel, ProductColumn, selectedProduct);
      filtered := KeepEqual(filtered, ProductColumn, selectedProduct);
      sel := Narrow(sel, ProductColumn, selectedProduct);
    }
    if selectedMonth != all {
      NarrowStep(df, sel, MonthColumn, selectedMonth);
      filtered := KeepEqual(filtered, MonthColumn, selectedMonth);
      sel := Narrow(sel, MonthColumn, selectedMonth);
    }
    assert sel == SelectionOf(lang, selectedClient, selectedProduct, selectedMonth);
  }
}
