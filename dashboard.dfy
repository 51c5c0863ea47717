/**
 * One pass of the dashboard script over a loaded table: the sidebar lists,
 * the filtered frame, the KPI row, the product bars, then the in-place
 * overwrite of the filtered frame's date column with parsed dates, after
 * which the monthly line, the low-stock list and the e-mail alert are built
 * from the overwritten frame. A date that does not parse makes
 * `pd.to_datetime` raise, so nothing from the overwrite on is shown.
 */
module Dashboard {
  import opened Text
  import opened Schema
  import opened Filters
  import opened FilterOptions
  import opened Dates
  import opened Status
  import opened Restock
  import opened Kpis
  import opened Charts

  /** What one run shows; `None` marks a part the raised conversion prevented. */
  datatype Report = Report(
    clientOptions: seq<string>,
    productOptions: seq<string>,
    monthOptions: seq<string>,
    summary: Summary,
    productBars: seq<Group>,
    monthlyUnits: Option<seq<Group>>,
    lowStock: Option<seq<Row>>,
    alert: Option<seq<string>>)

  /**
   * What the views built after the in-place date overwrite show for a
   * filtered frame: nothing when a date does not parse (the conversion
   * raises); otherwise the monthly sums, the low-stock list and the alert of
   * the converted frame, together with what those promise about the frame.
   */
  ghost predicate ShowsConverted(lang: Lang, filtered: seq<Row>,
    monthly: Option<seq<Group>>, low: Option<seq<Row>>, alert: Option<seq<string>>)
  {
    && ChartShown(lang, filtered, monthly)
    && (low.Some? <==> monthly.Some?)
    && ListShown(lang, filtered, low)
    && AlertShown(low, alert)
  }

  /** The line chart: present exactly when every date parses, and then the monthly sums of the converted frame. */
  ghost predicate ChartShown(lang: Lang, filtered: seq<Row>, monthly: Option<seq<Group>>) {
    && (monthly.Some? <==> forall r :: r in filtered ==> ParseDate(lang, r.date).Some?)
    && (monthly.Some? ==>
          && monthly.value == MonthlyUnits(ParseDateColumn(lang, filtered).value)
          && KeysAscending(monthly.value)
          && Total(monthly.value) == TotalUnits(filtered))
  }

  /** The low-stock list, when present: the flagged snapshots of the converted frame. */
  ghost predicate ListShown(lang: Lang, filtered: seq<Row>, low: Option<seq<Row>>) {
    && (low.Some? ==>
          && ParseDateColumn(lang, filtered).Some?
          && low.value == LowStock(LatestStatus(ParseDateColumn(lang, filtered).value))
          && (forall x :: x in low.value ==> NeedsRestock(x) && PairOf(x) in Pairs(filtered))
          && |low.value| <= |Pairs(filtered)|)
    && (lang == English && low.Some? ==> |low.value| == RestockCount(LatestStatus(filtered)))
  }

  /** The alert: built from the list, present exactly when the list is not empty, naming exactly its products. */
  ghost predicate AlertShown(low: Option<seq<Row>>, alert: Option<seq<string>>) {
    && alert == (if low.Some? then AlertProducts(low.value) else None)
    && (alert.Some? <==> low.Some? && low.value != [])
    && (alert.Some? ==> forall p :: p in alert.value <==> p in Products(low.value))
  }

  /**
   * The views built after `df_filtered`'s date column is overwritten in place:
   * the monthly line, the low-stock list and the alert.
   */
  method ShowAfterOverwrite(lang: Lang, filtered: seq<Row>)
    returns (monthly: Option<seq<Group>>, low: Option<seq<Row>>, alert: Option<seq<string>>)
    ensures ShowsConverted(lang, filtered, monthly, low, alert)
  {
    monthly, low, alert := None, None, None;
    var frame := filtered;
    var converted := ParseDateColumn(lang, frame);
    if converted.Some? {
      frame := converted.value;
      monthly := Some(MonthlyUnits(frame));
      var lowRows := LowStock(LatestStatus(frame));
      low := Some(lowRows);
      alert := AlertProducts(lowRows);
      ConvertedViews(lang, filtered);
    } else {
      RaisedViews(lang, filtered);
    }
  }

  /** When a date does not parse, nothing after the overwrite is shown. */
  lemma RaisedViews(lang: Lang, filtered: seq<Row>)
    requires ParseDateColumn(lang, filtered).None?
    ensures ShowsConverted(lang, filtered, None, None, None)
  {
  }

  /** When every date parses, the views are those of the converted frame. */
  lemma ConvertedViews(lang: Lang, filtered: seq<Row>)
    requires ParseDateColumn(lang, filtered).Some?
    ensures var conv := ParseDateColumn(lang, filtered).value;
      var low := LowStock(LatestStatus(conv));
      ShowsConverted(lang, filtered, Some(MonthlyUnits(conv)), Some(low), AlertProducts(low))
  {
    var conv := ParseDateColumn(lang, filtered).value;
    var low := LowStock(LatestStatus(conv));
    AfterConversion(lang, filtered);
    assert ChartShown(lang, filtered, Some(MonthlyUnits(conv)));
    assert ListShown(lang, filtered, Some(low));
    AlertOfList(low);
  }

  lemma AlertOfList(low: seq<Row>)
    ensures AlertShown(Some(low), AlertProducts(low))
  {
    if low != [] {
      AlertNamesProducts(low);
    }
  }

  /** The alert names exactly the products of the listed rows. */
  lemma AlertNamesProducts(low: seq<Row>)
    requires low != []
    ensures forall p :: p in AlertProducts(low).value <==> p in Products(low)
  {
    forall p ensures p in AlertProducts(low).value <==> p in Products(low) {
      if p in Products(low) {
        var x :| x in low && x.product == p;
      }
    }
  }

  /** The whole page for one choice of language and filters. */
  method RenderDashboard(df: seq<Row>, lang: Lang, selectedClient: string, selectedProduct: string, selectedMonth: string)
    returns (report: Report)
    ensures report.clientOptions == OptionList(lang, df, ClientColumn)
    ensures report.productOptions == OptionList(lang, df, ProductColumn)
    ensures report.monthOptions == OptionList(lang, df, MonthColumn)
    ensures var shown := FilterRows(df, SelectionOf(lang, selectedClient, selectedProduct, selectedMonth));
      && report.summary == Summarize(df, shown)
      && report.productBars == UnitsByProduct(shown)
      && KeySet(report.productBars) == Products(shown)
      && Total(report.productBars) == report.summary.totalUnits
      && ShowsConverted(lang, shown, report.monthlyUnits, report.lowStock, report.alert)
    ensures report.monthlyUnits.Some? ==> Total(report.monthlyUnits.value) == report.summary.totalUnits
    ensures lang == English && report.lowStock.Some? ==> |report.lowStock.value| == report.summary.restockCount
  {
    var clients := OptionList(lang, df, ClientColumn);
    var products := OptionList(lang, df, ProductColumn);
    var months := OptionList(lang, df, MonthColumn);
    var filtered := ApplyFilters(df, lang, selectedClient, selectedProduct, selectedMonth);
    var summary := Summarize(df, filtered);
    var bars := UnitsByProduct(filtered);
    ProductBars(filtered);
    var monthly, low, alert := ShowAfterOverwrite(lang, filtered);
    ViewsMatchSummary(df, lang, filtered, monthly, low, alert);
    report := Report(clients, products, months, summary, bars, monthly, low, alert);
  }

  /** The views after the overwrite agree with the KPI row of the same frame. */
  lemma ViewsMatchSummary(df: seq<Row>, lang: Lang, shown: seq<Row>,
    monthly: Option<seq<Group>>, low: Option<seq<Row>>, alert: Option<seq<string>>)
    requires ShowsConverted(lang, shown, monthly, low, alert)
    ensures monthly.Some? ==> Total(monthly.value) == Summarize(df, shown).totalUnits
    ensures lang == English && low.Some? ==> |low.value| == Summarize(df, shown).restockCount
  {
  }

  /** What the views built after the date overwrite promise about the frame they were built from. */
  lemma AfterConversion(lang: Lang, shown: seq<Row>)
    requires ParseDateColumn(lang, shown).Some?
    ensures var conv := ParseDateColumn(lang, shown).value;
      && KeysAscending(MonthlyUnits(conv))
      && Total(MonthlyUnits(conv)) == TotalUnits(shown)
      && (forall x :: x in LowStock(LatestStatus(conv)) ==> NeedsRestock(x) && PairOf(x) in Pairs(shown))
      && |LowStock(LatestStatus(conv))| <= |Pairs(shown)|
      && (lang == English ==> |LowStock(LatestStatus(conv))| == RestockCount(LatestStatus(shown)))
  {
    var conv := ParseDateColumn(lang, shown).value;
    MonthlyPoints(lang, shown);
    var latest := LatestStatus(conv);
    RedatePairs(shown, ConvertDate(lang));
    RestockAtMostPairs(conv);
    forall x | x in LowStock(latest) ensures PairOf(x) in Pairs(shown) {
      assert x in multiset(latest);
      assert PairOf(x) in Pairs(latest);
    }
    if lang == English {
      EnglishConversionIsIdentity(shown);
      ListLengthIsCount(LatestStatus(shown));
    }
  }

  /** A `YYYY-MM-DD` text converts to itself, so in English the overwrite changes no date. */
  lemma EnglishConversionIsIdentity(rows: seq<Row>)
    requires forall r :: r in rows ==> ParseIso(r.date).Some?
    ensures Redate(rows, ConvertDate(English)) == rows
  {
    var out := Redate(rows, ConvertDate(English));
    forall i | 0 <= i < |rows| ensures out[i] == rows[i] {
      assert rows[i] in rows;
      ConvertedRow(English, rows[i], ParseIso(rows[i].date).value);
      IsoCanonical(rows[i].date);
    }
  }

  /** The overwrite replaces a parsed date by the ISO text of its value and keeps every other field. */
  lemma ConvertedRow(lang: Lang, r: Row, d: Date)
    requires ParseDate(lang, r.date) == Some(d)
    ensures WithDate(r, ConvertDate(lang)) == r.(date := IsoText(d))
  {
  }

  /** Every date is written in the zero-padded Japanese layout of a Timestamp date. */
  predicate PaddedJapaneseDates(rows: seq<Row>) {
    forall r :: r in rows ==> ParseJapanese(r.date).Some? && r.date == JapaneseText(ParseJapanese(r.date).value)
  }

  /** Zero-padded Japanese texts and the converted texts order two dates alike. */
  lemma PaddedOrderAgrees(a: Date, b: Date)
    requires IsTimestampDate(a) && IsTimestampDate(b)
    ensures StrLe(JapaneseText(a), JapaneseText(b)) <==> StrLe(IsoText(a), IsoText(b))
  {
    JapaneseTextIsChronological(a, b);
    IsoTextIsChronological(a, b);
    JapaneseRoundTrip(a);
    JapaneseRoundTrip(b);
    IsoRoundTrip(a);
    IsoRoundTrip(b);
  }

  lemma ParsedIsTimestamp(s: string)
    requires ParseJapanese(s).Some?
    ensures IsTimestampDate(ParseJapanese(s).value)
  {
  }

  lemma PaddedJapaneseIsOrderFaithful(rows: seq<Row>)
    requires PaddedJapaneseDates(rows)
    ensures OrderFaithful(rows, ConvertDate(Japanese))
  {
    var g := ConvertDate(Japanese);
    forall x, y | x in rows && y in rows ensures StrLe(x.date, y.date) <==> StrLe(g(x.date), g(y.date)) {
      var a, b := ParseJapanese(x.date).value, ParseJapanese(y.date).value;
      ParsedIsTimestamp(x.date);
      ParsedIsTimestamp(y.date);
      PaddedOrderAgrees(a, b);
    }
  }

  /**
   * With zero-padded Japanese dates the low-stock list, built after the
   * overwrite, has exactly as many entries as the restock KPI, built before it.
   */
  lemma PaddedJapaneseListMatchesKpi(rows: seq<Row>)
    requires PaddedJapaneseDates(rows)
    ensures ParseDateColumn(Japanese, rows).Some?
    ensures |LowStock(LatestStatus(ParseDateColumn(Japanese, rows).value))| == RestockCount(LatestStatus(rows))
  {
    var g := ConvertDate(Japanese);
    PaddedJapaneseIsOrderFaithful(rows);
    LatestCommutes(rows, g);
    RedateKeepsFlags(LatestStatus(rows), g);
    ListLengthIsCount(LatestStatus(rows));
  }

  lemma DigitsOfOctober2025()
    ensures Digits(2025, 4) == "2025" && Digits(9, 2) == "09" && Digits(10, 2) == "10"
    ensures Digits(1, 2) == "01" && Digits(9, 1) == "9" && Digits(1, 1) == "1"
  {
    assert Digits(2, 1) == "2" && Digits(20, 2) == "20" && Digits(202, 3) == "202";
    assert Digits(0, 1) == "0" && Digits(1, 1) == "1" && Digits(9, 1) == "9";
  }

  /** The scenario's texts are the unpadded Japanese and the ISO texts of its two dates. */
  lemma AutumnTexts()
    ensures UnpaddedJapaneseText(Date(2025, 9, 1)) == "2025年9月1日"
    ensures UnpaddedJapaneseText(Date(2025, 10, 1)) == "2025年10月1日"
    ensures IsoText(Date(2025, 9, 1)) == "2025-09-01"
    ensures IsoText(Date(2025, 10, 1)) == "2025-10-01"
    ensures IsTimestampDate(Date(2025, 9, 1)) && IsTimestampDate(Date(2025, 10, 1))
  {
    DigitsOfOctober2025();
  }

  /** The unpadded October text sorts before the September one: '1' is below '9'. */
  lemma OctoberTextFirst()
    ensures StrLt("2025年10月1日", "2025年9月1日")
    ensures StrLt("2025-09-01", "2025-10-01")
  {
    StrLtCommonPrefix("2025年", "10月1日", "9月1日");
    assert "2025年10月1日" == "2025年" + "10月1日";
    assert "2025年9月1日" == "2025年" + "9月1日";
    StrLtCommonPrefix("2025-", "09-01", "10-01");
    assert "2025-09-01" == "2025-" + "09-01";
    assert "2025-10-01" == "2025-" + "10-01";
  }

  /**
   * With unpadded Japanese dates the KPI and the list disagree. A pair said
   * "yes" on 2025年9月1日 and "no" on 2025年10月1日: sorting the raw text puts
   * October first, so the KPI counts the September "yes"; after the
   * overwrite October is last, so the low-stock list is empty.
   */
  lemma UnpaddedDatesSplitKpiAndList(sep: Row, oct: Row)
    requires PairOf(sep) == PairOf(oct)
    requires sep.date == "2025年9月1日" && sep.restockFlag == Some("yes")
    requires oct.date == "2025年10月1日" && oct.restockFlag == Some("no")
    ensures Summarize([sep, oct], [sep, oct]).restockCount == 1
    ensures ParseDateColumn(Japanese, [sep, oct]).Some?
    ensures LowStock(LatestStatus(ParseDateColumn(Japanese, [sep, oct]).value)) == []
  {
    OctoberTextFirst();
    ConvertAutumn(sep, oct);
    FlaggedTextLastCounts(sep, oct);
    NoIsNoRestock(oct.(date := "2025-10-01"));
    LaterSnapshotClears(sep.(date := "2025-09-01"), oct.(date := "2025-10-01"));
  }

  /** Of two rows of one pair, the one whose date text sorts last is the snapshot, whatever the input order. */
  lemma EarlierTextLoses(a: Row, b: Row)
    requires PairOf(a) == PairOf(b) && StrLt(b.date, a.date)
    ensures LatestStatus([a, b]) == [a]
  {
    StrLeNegation(a.date, b.date);
    assert [a, b][1..] == [b] && [b][1..] == [];
    assert SortByDate([b]) == [b];
    assert SortByDate([a, b]) == InsertByDate(a, [b]);
    assert InsertByDate(a, [b]) == [b] + InsertByDate(a, []) by {
      assert [b][1..] == [];
    }
    GroupTailTwo(b, a);
  }

  lemma FlaggedTextLastCounts(a: Row, b: Row)
    requires PairOf(a) == PairOf(b) && StrLt(b.date, a.date) && a.restockFlag == Some("yes")
    ensures RestockCount(LatestStatus([a, b])) == 1
  {
    EarlierTextLoses(a, b);
    YesIsRestock(a);
    assert [a][1..] == [];
  }

  lemma ConvertAutumn(sep: Row, oct: Row)
    requires sep.date == "2025年9月1日" && oct.date == "2025年10月1日"
    ensures ParseDateColumn(Japanese, [sep, oct]) == Some([sep.(date := "2025-09-01"), oct.(date := "2025-10-01")])
  {
    AutumnTexts();
    UnpaddedJapaneseRoundTrip(Date(2025, 9, 1));
    UnpaddedJapaneseRoundTrip(Date(2025, 10, 1));
    ConvertTwo(Japanese, sep, oct, Date(2025, 9, 1), Date(2025, 10, 1));
  }

  /** Two parsed rows convert to the ISO texts of their dates. */
  lemma ConvertTwo(lang: Lang, a: Row, b: Row, da: Date, db: Date)
    requires ParseDate(lang, a.date) == Some(da) && ParseDate(lang, b.date) == Some(db)
    ensures ParseDateColumn(lang, [a, b]) == Some([a.(date := IsoText(da)), b.(date := IsoText(db))])
  {
    var g := ConvertDate(lang);
    ConvertedRow(lang, a, da);
    ConvertedRow(lang, b, db);
    forall r | r in [a, b] ensures ParseDate(lang, r.date).Some? {
      assert r == a || r == b;
    }
    var conv := Redate([a, b], g);
    assert |conv| == 2 && conv[0] == WithDate(a, g) && conv[1] == WithDate(b, g);
    assert conv == [a.(date := IsoText(da)), b.(date := IsoText(db))];
  }

  /** In the zero-padded Japanese layout the month filter's key is `YYYY年MM`. */
  lemma PaddedMonthCell(d: Date)
    ensures Prefix(JapaneseText(d), 7) == Digits(d.year, 4) + "年" + Digits(d.month, 2)
  {
    assert JapaneseText(d) == (Digits(d.year, 4) + "年" + Digits(d.month, 2)) + ("月" + Digits(d.day, 2) + "日");
  }

  /**
   * With zero-padded Japanese dates the month filter is not written
   * "YYYY-MM", but two dates share a filter month exactly when they share
   * the chart's month.
   */
  lemma PaddedMonthFilterMatchesChart(a: Date, b: Date)
    ensures Prefix(JapaneseText(a), 7) == Prefix(JapaneseText(b), 7) <==> MonthKey(a) == MonthKey(b)
  {
    PaddedMonthCell(a);
    PaddedMonthCell(b);
    var ja, jb := Prefix(JapaneseText(a), 7), Prefix(JapaneseText(b), 7);
    assert ja[..4] == Digits(a.year, 4) && ja[5..] == Digits(a.month, 2);
    assert jb[..4] == Digits(b.year, 4) && jb[5..] == Digits(b.month, 2);
    assert MonthKey(a)[..4] == Digits(a.year, 4) && MonthKey(a)[5..] == Digits(a.month, 2);
    assert MonthKey(b)[..4] == Digits(b.year, 4) && MonthKey(b)[5..] == Digits(b.month, 2);
    if MonthKey(a) == MonthKey(b) {
      assert ja == jb;
    }
    if ja == jb {
      assert MonthKey(a) == MonthKey(b);
    }
  }
}
