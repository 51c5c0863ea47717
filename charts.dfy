/**
 * The two charts' data. `groupby(key, as_index=False)[units].sum()` yields one
 * group per distinct key, keys ascending (pandas sorts group keys by default),
 * each with the sum of its rows' units. The bar chart groups the filtered rows
 * by product; the line chart groups them by month after the date column has
 * been replaced by parsed dates (`pd.to_datetime`), the month being
 * `dt.to_period('M').astype(str)`, i.e. "YYYY-MM".
 */
module Charts {
  import opened Text
  import opened Schema
  import opened Filters
  import opened Status
  import opened Dates
  import opened Kpis

  /** One group of a chart: its key and the units summed under it. */
  datatype Group = Group(key: string, units: nat)

  function KeySet(gs: seq<Group>): set<string> {
    set g | g in gs :: g.key
  }

  predicate KeysAscending(gs: seq<Group>) {
    forall i, j :: 0 <= i < j < |gs| ==> StrLt(gs[i].key, gs[j].key)
  }

  /** The units recorded under `k`, over every group with that key. */
  function UnitsFor(gs: seq<Group>, k: string): nat {
    if gs == [] then 0
    else (if gs[0].key == k then gs[0].units else 0) + UnitsFor(gs[1..], k)
  }

  function Total(gs: seq<Group>): nat {
    if gs == [] then 0 else gs[0].units + Total(gs[1..])
  }

  /** A key below the first key of an ascending list is not in it. */
  lemma {:induction false} BelowHeadIsAbsent(gs: seq<Group>, k: string)
    requires KeysAscending(gs) && gs != [] && StrLt(k, gs[0].key)
    ensures k !in KeySet(gs)
    ensures UnitsFor(gs, k) == 0
  {
    forall g | g in gs ensures g.key != k {
      var i :| 0 <= i < |gs| && gs[i] == g;
      if i > 0 {
        StrLtTransitive(k, gs[0].key, gs[i].key);
      }
      StrLtIrreflexive(k);
    }
    AbsentKeyHasNoUnits(gs, k);
  }

  lemma {:induction false} AbsentKeyHasNoUnits(gs: seq<Group>, k: string)
    requires k !in KeySet(gs)
    ensures UnitsFor(gs, k) == 0
  {
    if gs != [] {
      assert gs[0] in gs;
      assert KeySet(gs[1..]) <= KeySet(gs) by {
        forall g | g in gs[1..] ensures g in gs { }
      }
      AbsentKeyHasNoUnits(gs[1..], k);
    }
  }

  /** What putting a group in front of a list does to the list's keys, units and total. */
  lemma Cons(g: Group, rest: seq<Group>)
    ensures ([g] + rest)[1..] == rest
    ensures KeySet([g] + rest) == {g.key} + KeySet(rest)
    ensures forall q :: UnitsFor([g] + rest, q) == (if g.key == q then g.units else 0) + UnitsFor(rest, q)
    ensures Total([g] + rest) == g.units + Total(rest)
  {
    assert ([g] + rest)[1..] == rest;
  }

  /** A group whose key is below every key of an ascending list can head it. */
  lemma AscendingCons(g: Group, rest: seq<Group>)
    requires KeysAscending(rest)
    requires forall h :: h in rest ==> StrLt(g.key, h.key)
    ensures KeysAscending([g] + rest)
  {
    var r := [g] + rest;
    forall i, j | 0 <= i < j < |r| ensures StrLt(r[i].key, r[j].key) {
      assert r[j] == rest[j - 1] && rest[j - 1] in rest;
      if i > 0 {
        assert r[i] == rest[i - 1];
      }
    }
  }

  /** Every key after the head of an ascending list is above the head's. */
  lemma TailAboveHead(gs: seq<Group>)
    requires KeysAscending(gs) && gs != []
    ensures KeysAscending(gs[1..])
    ensures forall h :: h in gs[1..] ==> StrLt(gs[0].key, h.key)
  {
    forall h | h in gs[1..] ensures StrLt(gs[0].key, h.key) {
      var i :| 0 <= i < |gs[1..]| && gs[1..][i] == h;
      assert gs[i + 1] == h;
    }
  }

  /** `r` is `gs` with `u` more units under key `k`, still ascending, and at most one group longer. */
  ghost predicate AddsUnder(gs: seq<Group>, k: string, u: nat, r: seq<Group>) {
    && KeysAscending(r)
    && KeySet(r) == KeySet(gs) + {k}
    && (forall q :: UnitsFor(r, q) == UnitsFor(gs, q) + (if q == k then u else 0))
    && Total(r) == Total(gs) + u
    && |r| <= |gs| + 1
  }

  lemma AddToExisting(gs: seq<Group>, k: string, u: nat)
    requires KeysAscending(gs) && gs != [] && gs[0].key == k
    ensures AddsUnder(gs, k, u, [Group(k, gs[0].units + u)] + gs[1..])
  {
    var tail := gs[1..];
    var r := [Group(k, gs[0].units + u)] + tail;
    TailAboveHead(gs);
    AscendingCons(Group(k, gs[0].units + u), tail);
    Cons(gs[0], tail);
    assert gs == [gs[0]] + tail;
    Cons(Group(k, gs[0].units + u), tail);
    assert KeySet(r) == KeySet(gs) + {k};
    assert Total(r) == Total(gs) + u;
    forall q ensures UnitsFor(r, q) == UnitsFor(gs, q) + (if q == k then u else 0) {
      assert UnitsFor(r, q) == (if k == q then gs[0].units + u else 0) + UnitsFor(tail, q);
      assert UnitsFor(gs, q) == (if k == q then gs[0].units else 0) + UnitsFor(tail, q);
    }
  }

  lemma AddToFront(gs: seq<Group>, k: string, u: nat)
    requires KeysAscending(gs) && (gs == [] || StrLt(k, gs[0].key))
    ensures AddsUnder(gs, k, u, [Group(k, u)] + gs)
  {
    Cons(Group(k, u), gs);
    if gs != [] {
      BelowHeadIsAbsent(gs, k);
      TailAboveHead(gs);
      forall h | h in gs ensures StrLt(k, h.key) {
        if h != gs[0] {
          StrLtTransitive(k, gs[0].key, h.key);
        }
      }
    }
    AscendingCons(Group(k, u), gs);
  }

  lemma AddToLater(gs: seq<Group>, k: string, u: nat, rest: seq<Group>)
    requires KeysAscending(gs) && gs != [] && StrLt(gs[0].key, k)
    requires AddsUnder(gs[1..], k, u, rest)
    ensures AddsUnder(gs, k, u, [gs[0]] + rest)
  {
    TailAboveHead(gs);
    Cons(gs[0], gs[1..]);
    assert gs == [gs[0]] + gs[1..];
    Cons(gs[0], rest);
    KeysAbove(gs[0].key, gs[1..], k, rest);
    AscendingCons(gs[0], rest);
  }

  /** Adding a key above `a` to a list whose keys are above `a` keeps every key above `a`. */
  lemma KeysAbove(a: string, s: seq<Group>, k: string, r: seq<Group>)
    requires forall h :: h in s ==> StrLt(a, h.key)
    requires StrLt(a, k) && KeySet(r) == KeySet(s) + {k}
    ensures forall h :: h in r ==> StrLt(a, h.key)
  {
    forall h | h in r ensures StrLt(a, h.key) {
      assert h.key in KeySet(r);
      if h.key != k {
        var h' :| h' in s && h'.key == h.key;
      }
    }
  }

  /** Adds `u` units under key `k`: into its group if there is one, else as a new group in key order. */
  function AddTo(gs: seq<Group>, k: string, u: nat): (r: seq<Group>)
    requires KeysAscending(gs)
    ensures KeysAscending(r)
    ensures KeySet(r) == KeySet(gs) + {k}
    ensures forall q :: UnitsFor(r, q) == UnitsFor(gs, q) + (if q == k then u else 0)
    ensures Total(r) == Total(gs) + u
    ensures |r| <= |gs| + 1
  {
    if gs == [] || StrLt(k, gs[0].key) then
      AddToFront(gs, k, u);
      [Group(k, u)] + gs
    else if gs[0].key == k then
      AddToExisting(gs, k, u);
      [Group(k, gs[0].units + u)] + gs[1..]
    else
      StrLtTotal(k, gs[0].key);
      TailAboveHead(gs);
      var rest := AddTo(gs[1..], k, u);
      AddToLater(gs, k, u, rest);
      [gs[0]] + rest
  }

  /** In an ascending list each key has one group, which holds all of its units. */
  lemma {:induction false} GroupHoldsItsUnits(gs: seq<Group>, i: nat)
    requires KeysAscending(gs) && i < |gs|
    ensures UnitsFor(gs, gs[i].key) == gs[i].units
  {
    if i == 0 {
      if |gs| > 1 {
        BelowHeadIsAbsent(gs[1..], gs[0].key);
      } else {
        assert gs[1..] == [];
      }
    } else {
      GroupHoldsItsUnits(gs[1..], i - 1);
      StrLtIrreflexive(gs[0].key);
      assert gs[1..][i - 1] == gs[i];
    }
  }

  /**
   * `groupby(key).sum()` over (key, units) entries: keys ascending, exactly
   * the entries' keys, and under each key the sum of that key's entries.
   */
  function GroupSum(entries: seq<Group>): (gs: seq<Group>)
    ensures KeysAscending(gs)
    ensures KeySet(gs) == KeySet(entries)
    ensures forall q :: UnitsFor(gs, q) == UnitsFor(entries, q)
    ensures Total(gs) == Total(entries)
    ensures |gs| <= |entries|
  {
    if entries == [] then []
    else
      assert KeySet(entries) == {entries[0].key} + KeySet(entries[1..]) by {
        assert entries == [entries[0]] + entries[1..];
      }
      AddTo(GroupSum(entries[1..]), entries[0].key, entries[0].units)
  }

  /** Each group's units are the sum of the entries with its key. */
  lemma GroupSumIsPerKeySum(entries: seq<Group>)
    ensures forall i :: 0 <= i < |GroupSum(entries)| ==>
      GroupSum(entries)[i].units == UnitsFor(entries, GroupSum(entries)[i].key)
  {
    var gs := GroupSum(entries);
    forall i | 0 <= i < |gs| ensures gs[i].units == UnitsFor(entries, gs[i].key) {
      GroupHoldsItsUnits(gs, i);
    }
  }

  /** One (key, units) entry per row, the key read from column `c`. */
  function Entries(rows: seq<Row>, c: Column): (es: seq<Group>)
    ensures |es| == |rows|
    ensures forall i :: 0 <= i < |rows| ==> es[i] == Group(Cell(rows[i], c), rows[i].unitsSold)
  {
    if rows == [] then [] else [Group(Cell(rows[0], c), rows[0].unitsSold)] + Entries(rows[1..], c)
  }

  /** The entries of a column sum to the units figure, and under `v` to the units of the rows equal to `v`. */
  lemma {:induction false} EntriesSums(rows: seq<Row>, c: Column, v: string)
    ensures Total(Entries(rows, c)) == TotalUnits(rows)
    ensures UnitsFor(Entries(rows, c), v) == TotalUnits(KeepEqual(rows, c, v))
  {
    if rows != [] {
      EntriesSums(rows[1..], c, v);
      var es := Entries(rows, c);
      assert es[1..] == Entries(rows[1..], c);
      var kept := KeepEqual(rows[1..], c, v);
      if Cell(rows[0], c) == v {
        assert KeepEqual(rows, c, v) == [rows[0]] + kept;
        assert ([rows[0]] + kept)[1..] == kept;
      } else {
        assert KeepEqual(rows, c, v) == [] + kept == kept;
      }
    }
  }

  lemma EntriesKeys(rows: seq<Row>, c: Column)
    ensures KeySet(Entries(rows, c)) == set r | r in rows :: Cell(r, c)
  {
    var es := Entries(rows, c);
    forall k ensures k in KeySet(es) <==> exists r :: r in rows && Cell(r, c) == k {
      if k in KeySet(es) {
        var g :| g in es && g.key == k;
        var i :| 0 <= i < |es| && es[i] == g;
        assert rows[i] in rows;
      }
      if exists r :: r in rows && Cell(r, c) == k {
        var r :| r in rows && Cell(r, c) == k;
        var i :| 0 <= i < |rows| && rows[i] == r;
        assert es[i] in es;
      }
    }
  }

  /** `df_filtered.groupby(product)[units].sum()`: the bar chart's data. */
  function UnitsByProduct(rows: seq<Row>): (bars: seq<Group>)
    ensures KeysAscending(bars)
    ensures forall p :: UnitsFor(bars, p) == TotalUnits(KeepEqual(rows, ProductColumn, p))
  {
    EntriesPerKey(rows, ProductColumn);
    GroupSum(Entries(rows, ProductColumn))
  }

  /** Under every key, the entries of a column sum to the units of the rows with that cell. */
  lemma EntriesPerKey(rows: seq<Row>, c: Column)
    ensures forall v :: UnitsFor(Entries(rows, c), v) == TotalUnits(KeepEqual(rows, c, v))
  {
    forall v ensures UnitsFor(Entries(rows, c), v) == TotalUnits(KeepEqual(rows, c, v)) {
      EntriesSums(rows, c, v);
    }
  }

  /**
   * The bar chart has one bar per product of the filtered rows, in ascending
   * order; its bars add up to the units figure; and the bar of product `p`
   * is the units figure the dashboard shows when the product filter is `p`.
   */
  lemma ProductBars(rows: seq<Row>)
    ensures KeysAscending(UnitsByProduct(rows))
    ensures KeySet(UnitsByProduct(rows)) == Products(rows)
    ensures Total(UnitsByProduct(rows)) == TotalUnits(rows)
    ensures forall i :: 0 <= i < |UnitsByProduct(rows)| ==>
      UnitsByProduct(rows)[i].units == TotalUnits(KeepEqual(rows, ProductColumn, UnitsByProduct(rows)[i].key))
  {
    BarKeysAndTotal(rows);
    BarUnits(rows);
  }

  lemma BarKeysAndTotal(rows: seq<Row>)
    ensures KeySet(UnitsByProduct(rows)) == Products(rows)
    ensures Total(UnitsByProduct(rows)) == TotalUnits(rows)
  {
    EntriesKeys(rows, ProductColumn);
    EntriesSums(rows, ProductColumn, "");
  }

  lemma BarUnits(rows: seq<Row>)
    ensures forall i :: 0 <= i < |UnitsByProduct(rows)| ==>
      UnitsByProduct(rows)[i].units == TotalUnits(KeepEqual(rows, ProductColumn, UnitsByProduct(rows)[i].key))
  {
    var bars := UnitsByProduct(rows);
    forall i | 0 <= i < |bars| ensures bars[i].units == TotalUnits(KeepEqual(rows, ProductColumn, bars[i].key)) {
      GroupHoldsItsUnits(bars, i);
    }
  }

  /** The date text `pd.to_datetime` leaves in the column: the parsed date, written "YYYY-MM-DD". */
  function ConvertDate(lang: Lang): string -> string {
    s => match ParseDate(lang, s)
         case Some(d) => IsoText(d)
         case None => s
  }

  /**
   * `df_filtered[date] = pd.to_datetime(df_filtered[date], ...)`: every date
   * is parsed, or the whole conversion raises (`None`), leaving no chart.
   */
  function ParseDateColumn(lang: Lang, rows: seq<Row>): (converted: Option<seq<Row>>)
    ensures converted.Some? <==> forall r :: r in rows ==> ParseDate(lang, r.date).Some?
    ensures converted.Some? ==> converted.value == Redate(rows, ConvertDate(lang))
  {
    if forall r :: r in rows ==> ParseDate(lang, r.date).Some? then Some(Redate(rows, ConvertDate(lang)))
    else None
  }

  /** `dt.to_period('M').astype(str)` of a date text's parse; a text that does not parse has none. */
  function MonthOf(lang: Lang, s: string): string {
    match ParseDate(lang, s)
    case Some(d) => MonthKey(d)
    case None => ""
  }

  /** After the conversion every month cell is the "YYYY-MM" period of its row's date. */
  lemma ConvertedMonths(lang: Lang, rows: seq<Row>)
    requires ParseDateColumn(lang, rows).Some?
    ensures forall i :: 0 <= i < |rows| ==>
      Cell(ParseDateColumn(lang, rows).value[i], MonthColumn) == MonthOf(lang, rows[i].date)
  {
    var g := ConvertDate(lang);
    var conv := ParseDateColumn(lang, rows).value;
    forall i | 0 <= i < |rows| ensures Cell(conv[i], MonthColumn) == MonthOf(lang, rows[i].date) {
      assert rows[i] in rows;
      assert conv[i].date == g(rows[i].date);
      ConvertedMonth(lang, rows[i].date);
    }
  }

  /** The first seven characters of a converted date are the period of the parsed date. */
  lemma ConvertedMonth(lang: Lang, s: string)
    requires ParseDate(lang, s).Some?
    ensures Prefix(ConvertDate(lang)(s), 7) == MonthOf(lang, s)
  {
  }

  /** `groupby(month)[units].sum()` over the converted rows: the line chart's data. */
  function MonthlyUnits(converted: seq<Row>): (points: seq<Group>)
    ensures KeysAscending(points)
    ensures forall m :: UnitsFor(points, m) == TotalUnits(KeepEqual(converted, MonthColumn, m))
  {
    EntriesPerKey(converted, MonthColumn);
    GroupSum(Entries(converted, MonthColumn))
  }

  /**
   * The line chart has one point per month of the filtered rows, months
   * ascending, and its points add up to the units figure.
   */
  lemma MonthlyPoints(lang: Lang, rows: seq<Row>)
    requires ParseDateColumn(lang, rows).Some?
    ensures KeysAscending(MonthlyUnits(ParseDateColumn(lang, rows).value))
    ensures KeySet(MonthlyUnits(ParseDateColumn(lang, rows).value)) ==
      set r | r in rows :: MonthOf(lang, r.date)
    ensures Total(MonthlyUnits(ParseDateColumn(lang, rows).value)) == TotalUnits(rows)
  {
    var conv := ParseDateColumn(lang, rows).value;
    EntriesSums(conv, MonthColumn, "");
    RedateUnits(rows, ConvertDate(lang));
    MonthKeys(lang, rows);
  }

  lemma MonthKeys(lang: Lang, rows: seq<Row>)
    requires ParseDateColumn(lang, rows).Some?
    ensures KeySet(MonthlyUnits(ParseDateColumn(lang, rows).value)) ==
      set r | r in rows :: MonthOf(lang, r.date)
  {
    var conv := ParseDateColumn(lang, rows).value;
    EntriesKeys(conv, MonthColumn);
    ConvertedMonths(lang, rows);
    SameImage(conv, rows, lang);
  }

  lemma SameImage(conv: seq<Row>, rows: seq<Row>, lang: Lang)
    requires |conv| == |rows|
    requires forall i :: 0 <= i < |rows| ==> Cell(conv[i], MonthColumn) == MonthOf(lang, rows[i].date)
    ensures (set x | x in conv :: Cell(x, MonthColumn)) == (set r | r in rows :: MonthOf(lang, r.date))
  {
    var months := set r | r in rows :: MonthOf(lang, r.date);
    var cells := set x | x in conv :: Cell(x, MonthColumn);
    forall k | k in months ensures k in cells {
      var r :| r in rows && MonthOf(lang, r.date) == k;
      var i :| 0 <= i < |rows| && rows[i] == r;
      assert conv[i] in conv;
    }
    forall k | k in cells ensures k in months {
      var x :| x in conv && Cell(x, MonthColumn) == k;
      var i :| 0 <= i < |conv| && conv[i] == x;
      assert rows[i] in rows;
    }
  }

  lemma {:induction false} RedateUnits(rows: seq<Row>, g: string -> string)
    ensures TotalUnits(Redate(rows, g)) == TotalUnits(rows)
  {
    if rows != [] {
      RedateUnits(rows[1..], g);
      assert Redate(rows, g)[1..] == Redate(rows[1..], g);
    }
  }

  /**
   * In English the month of the chart is the month the filter offers: the
   * first seven characters of the date text.
   */
  lemma EnglishMonthsAreFilterMonths(rows: seq<Row>)
    requires ParseDateColumn(English, rows).Some?
    ensures KeySet(MonthlyUnits(ParseDateColumn(English, rows).value)) == set r | r in rows :: Cell(r, MonthColumn)
  {
    MonthKeys(English, rows);
    EnglishMonthSets(rows);
  }

  lemma EnglishMonthSets(rows: seq<Row>)
    requires forall r :: r in rows ==> ParseDate(English, r.date).Some?
    ensures (set r | r in rows :: MonthOf(English, r.date)) == (set r | r in rows :: Cell(r, MonthColumn))
  {
    var months := set r | r in rows :: MonthOf(English, r.date);
    var cells := set r | r in rows :: Cell(r, MonthColumn);
    forall k | k in months ensures k in cells {
      var r :| r in rows && MonthOf(English, r.date) == k;
      EnglishMonthIsCell(r);
    }
    forall k | k in cells ensures k in months {
      var r :| r in rows && Cell(r, MonthColumn) == k;
      EnglishMonthIsCell(r);
    }
  }

  lemma EnglishMonthIsCell(r: Row)
    requires ParseDate(English, r.date).Some?
    ensures MonthOf(English, r.date) == Cell(r, MonthColumn)
  {
    IsoMonthIsFilterMonth(r.date);
  }
}
