/**
 * Reading the date column as the monthly chart does. The English branch calls
 * `pd.to_datetime` on text in the `YYYY-MM-DD` layout; the Japanese branch
 * gives the layout `%Y年%m月%d日`, where strptime also accepts a month or day
 * without its leading zero. A parsed date becomes a pandas Timestamp at
 * midnight, so it must lie between 1677-09-22 and 2262-04-11; anything else
 * raises, which is `None` here. A Timestamp is represented by its ISO text
 * `YYYY-MM-DD`, and its period `to_period('M')` by `YYYY-MM`.
 */
module Dates {
  import opened Text
  import opened Schema

  datatype Date = Date(year: nat, month: nat, day: nat)

  predicate IsLeapYear(y: nat) {
    (y % 4 == 0 && y % 100 != 0) || y % 400 == 0
  }

  function DaysInMonth(y: nat, m: nat): nat
    requires 1 <= m <= 12
  {
    if m == 2 then (if IsLeapYear(y) then 29 else 28)
    else if m == 4 || m == 6 || m == 9 || m == 11 then 30
    else 31
  }

  predicate IsCalendarDate(d: Date) {
    1 <= d.month <= 12 && 1 <= d.day <= DaysInMonth(d.year, d.month)
  }

  /** Chronological order. */
  predicate Before(a: Date, b: Date) {
    a.year < b.year || (a.year == b.year && (a.month < b.month || (a.month == b.month && a.day < b.day)))
  }

  predicate NotAfter(a: Date, b: Date) {
    a == b || Before(a, b)
  }

  /** Midnight of `d` fits a Timestamp: nanoseconds since 1970 in a signed 64-bit integer. */
  predicate InTimestampRange(d: Date) {
    NotAfter(Date(1677, 9, 22), d) && NotAfter(d, Date(2262, 4, 11))
  }

  predicate IsTimestampDate(d: Date) {
    IsCalendarDate(d) && InTimestampRange(d)
  }

  predicate IsDigit(c: char) {
    '0' <= c <= '9'
  }

  predicate AllDigits(s: string) {
    forall i :: 0 <= i < |s| ==> IsDigit(s[i])
  }

  function DigitChar(n: nat): char
    requires n < 10
  {
    ('0' as int + n) as char
  }

  /** `int(s)` for a string of ASCII digits (0 for the empty string). */
  function ParseNat(s: string): nat
    requires AllDigits(s)
  {
    if s == [] then 0 else ParseNat(s[..|s| - 1]) * 10 + (s[|s| - 1] as int - '0' as int)
  }

  function Pow10(w: nat): nat {
    if w == 0 then 1 else 10 * Pow10(w - 1)
  }

  /** The `w` lowest decimal digits of `n`, zero-padded on the left. */
  function Digits(n: nat, w: nat): (s: string)
    ensures |s| == w && AllDigits(s)
  {
    if w == 0 then [] else Digits(n / 10, w - 1) + [DigitChar(n % 10)]
  }

  /** Writing a number that fits in `w` digits and reading it back gives the number. */
  lemma {:induction false} DigitsRoundTrip(n: nat, w: nat)
    requires n < Pow10(w)
    ensures ParseNat(Digits(n, w)) == n
  {
    if w > 0 {
      var s := Digits(n, w);
      assert s[..|s| - 1] == Digits(n / 10, w - 1);
      DigitsRoundTrip(n / 10, w - 1);
    }
  }

  /** Reading digits and writing the number back at the same width gives the text. */
  lemma {:induction false} ParseNatRoundTrip(s: string)
    requires AllDigits(s)
    ensures ParseNat(s) < Pow10(|s|)
    ensures Digits(ParseNat(s), |s|) == s
  {
    if s != [] {
      var init := s[..|s| - 1];
      var last := s[|s| - 1] as int - '0' as int;
      ParseNatRoundTrip(init);
      var n := ParseNat(s);
      assert n == ParseNat(init) * 10 + last;
      assert n / 10 == ParseNat(init) && n % 10 == last;
      assert DigitChar(last) == s[|s| - 1];
      assert s == init + [s[|s| - 1]];
    }
  }

  /** Fixed-width digit strings compare as the numbers they write. */
  lemma {:induction false} DigitsOrder(a: nat, b: nat, w: nat)
    requires a < b < Pow10(w)
    ensures StrLt(Digits(a, w), Digits(b, w))
  {
    var p, q := Digits(a / 10, w - 1), Digits(b / 10, w - 1);
    assert Digits(a, w) == p + [DigitChar(a % 10)];
    assert Digits(b, w) == q + [DigitChar(b % 10)];
    if a / 10 < b / 10 {
      DigitsOrder(a / 10, b / 10, w - 1);
      StrLtExtend(p, q, [DigitChar(a % 10)], [DigitChar(b % 10)]);
    } else {
      assert p == q;
      StrLtCommonPrefix(p, [DigitChar(a % 10)], [DigitChar(b % 10)]);
    }
  }

  /** A date written as a 4-digit year, 2-digit month and 2-digit day, each followed by a separator. */
  function Layout(d: Date, s1: string, s2: string, s3: string): string {
    Digits(d.year, 4) + s1 + Digits(d.month, 2) + s2 + Digits(d.day, 2) + s3
  }

  /** The text of a Timestamp's date, `YYYY-MM-DD`. */
  function IsoText(d: Date): string {
    Layout(d, "-", "-", "")
  }

  /** The zero-padded Japanese layout `YYYY年MM月DD日`. */
  function JapaneseText(d: Date): string {
    Layout(d, "年", "月", "日")
  }

  /** `to_period('M').astype(str)`: `YYYY-MM`. */
  function MonthKey(d: Date): (k: string)
    ensures |k| == 7 && k[4] == '-'
    ensures k == Prefix(IsoText(d), 7)
  {
    var k := Digits(d.year, 4) + "-" + Digits(d.month, 2);
    assert IsoText(d) == k + ("-" + Digits(d.day, 2));
    k
  }

  /** For fixed-width fields, text order is chronological order, whatever the separators. */
  lemma LayoutOrder(a: Date, b: Date, s1: string, s2: string, s3: string)
    requires a.year < 10000 && b.year < 10000 && a.month < 100 && b.month < 100 && a.day < 100 && b.day < 100
    ensures Before(a, b) <==> StrLt(Layout(a, s1, s2, s3), Layout(b, s1, s2, s3))
  {
    if Before(a, b) {
      LayoutOrderForward(a, b, s1, s2, s3);
    } else if a == b {
      StrLtIrreflexive(Layout(a, s1, s2, s3));
    } else {
      LayoutOrderForward(b, a, s1, s2, s3);
      StrLtAsymmetric(Layout(b, s1, s2, s3), Layout(a, s1, s2, s3));
    }
  }

  lemma LayoutOrderForward(a: Date, b: Date, s1: string, s2: string, s3: string)
    requires a.year < 10000 && b.year < 10000 && a.month < 100 && b.month < 100 && a.day < 100 && b.day < 100
    requires Before(a, b)
    ensures StrLt(Layout(a, s1, s2, s3), Layout(b, s1, s2, s3))
  {
    assert Pow10(2) == 100 && Pow10(4) == 10000;
    LayoutSplit(a, s1, s2, s3);
    LayoutSplit(b, s1, s2, s3);
    var ya, ma, da := Digits(a.year, 4), Digits(a.month, 2), Digits(a.day, 2);
    var yb, mb, db := Digits(b.year, 4), Digits(b.month, 2), Digits(b.day, 2);
    if a.year < b.year {
      DigitsOrder(a.year, b.year, 4);
      StrLtExtend(ya, yb, s1 + ma + s2 + da + s3, s1 + mb + s2 + db + s3);
    } else if a.month < b.month {
      DigitsOrder(a.month, b.month, 2);
      StrLtExtend(ma, mb, s2 + da + s3, s2 + db + s3);
      StrLtCommonPrefix(ya + s1, ma + (s2 + da + s3), mb + (s2 + db + s3));
    } else {
      DigitsOrder(a.day, b.day, 2);
      StrLtExtend(da, db, s3, s3);
      StrLtCommonPrefix(ya + s1 + ma + s2, da + s3, db + s3);
    }
  }

  /** The three ways of reading a layout as a fixed prefix followed by the rest. */
  lemma LayoutSplit(d: Date, s1: string, s2: string, s3: string)
    ensures Layout(d, s1, s2, s3) == Digits(d.year, 4) + (s1 + Digits(d.month, 2) + s2 + Digits(d.day, 2) + s3)
    ensures Layout(d, s1, s2, s3) == (Digits(d.year, 4) + s1) + (Digits(d.month, 2) + (s2 + Digits(d.day, 2) + s3))
    ensures Layout(d, s1, s2, s3) == (Digits(d.year, 4) + s1 + Digits(d.month, 2) + s2) + (Digits(d.day, 2) + s3)
  {
    Regroup(Digits(d.year, 4), s1, Digits(d.month, 2), s2, Digits(d.day, 2), s3);
  }

  /** Regrouping a concatenation of six pieces. */
  lemma Regroup(a: string, b: string, c: string, d: string, e: string, f: string)
    ensures a + b + c + d + e + f == a + (b + c + d + e + f)
    ensures a + b + c + d + e + f == (a + b) + (c + (d + e + f))
    ensures a + b + c + d + e + f == (a + b + c + d) + (e + f)
  {
    assert a + b + c + d + e + f == a + (b + c + d + e + f);
    assert b + c + d + e + f == b + (c + (d + e + f));
    assert a + b + c + d + e + f == (a + b + c + d) + (e + f);
  }

  /** `YYYY-MM-DD` with ASCII digits. */
  predicate IsIsoShape(s: string) {
    |s| == 10 && s[4] == '-' && s[7] == '-' && AllDigits(s[..4]) && AllDigits(s[5..7]) && AllDigits(s[8..])
  }

  /** `pd.to_datetime` on a `YYYY-MM-DD` text; `None` where it raises. */
  function ParseIso(s: string): (p: Option<Date>)
    ensures p.Some? ==> IsIsoShape(s) && IsTimestampDate(p.value)
  {
    if IsIsoShape(s) then
      var d := Date(ParseNat(s[..4]), ParseNat(s[5..7]), ParseNat(s[8..]));
      if IsTimestampDate(d) then Some(d) else None
    else None
  }

  /** strptime's `%m`: "1" to "9" or "01" to "12". */
  function MonthToken(t: string): Option<nat> {
    if 1 <= |t| <= 2 && AllDigits(t) && 1 <= ParseNat(t) <= 12 then Some(ParseNat(t)) else None
  }

  /** strptime's `%d`: "1" to "9", "01" to "31", or a space followed by "1" to "9". */
  function DayToken(t: string): Option<nat> {
    if 1 <= |t| <= 2 && AllDigits(t) && 1 <= ParseNat(t) <= 31 then Some(ParseNat(t))
    else if |t| == 2 && t[0] == ' ' && '1' <= t[1] <= '9' then Some(t[1] as int - '0' as int)
    else None
  }

  /**
   * `pd.to_datetime(s, format="%Y年%m月%d日")`: four digits, 年, a month
   * token, 月, a day token, 日 and nothing after it; the date must exist and
   * fit a Timestamp. Tokens hold no 月, so the month ends at index 6 or 7.
   */
  function ParseJapanese(s: string): (p: Option<Date>)
    ensures p.Some? ==> IsTimestampDate(p.value) && 9 <= |s| <= 11 && s[4] == '年' && s[|s| - 1] == '日'
  {
    if |s| >= 9 && AllDigits(s[..4]) && s[4] == '年' && s[|s| - 1] == '日' then
      var sep := if s[6] == '月' then 6 else 7;
      if s[sep] != '月' then None
      else
        match (MonthToken(s[5..sep]), DayToken(s[sep + 1..|s| - 1]))
        case (Some(m), Some(day)) =>
          var d := Date(ParseNat(s[..4]), m, day);
          if IsTimestampDate(d) then Some(d) else None
        case _ => None
    else None
  }

  /** The parse the monthly chart applies in each language. */
  function ParseDate(lang: Lang, s: string): Option<Date> {
    match lang
    case English => ParseIso(s)
    case Japanese => ParseJapanese(s)
  }

  lemma TimestampFieldsFit(d: Date)
    requires IsTimestampDate(d)
    ensures d.year < 10000 && d.month < 100 && d.day < 100
    ensures Pow10(4) == 10000 && Pow10(2) == 100
  {
  }

  /** Every Timestamp date written as `YYYY-MM-DD` parses back to itself. */
  lemma IsoRoundTrip(d: Date)
    requires IsTimestampDate(d)
    ensures ParseIso(IsoText(d)) == Some(d)
  {
    TimestampFieldsFit(d);
    var s := IsoText(d);
    assert s[..4] == Digits(d.year, 4) && s[5..7] == Digits(d.month, 2) && s[8..] == Digits(d.day, 2);
    DigitsRoundTrip(d.year, 4);
    DigitsRoundTrip(d.month, 2);
    DigitsRoundTrip(d.day, 2);
  }

  /** An accepted `YYYY-MM-DD` text is the canonical text of its date: the conversion loses nothing. */
  lemma IsoCanonical(s: string)
    requires ParseIso(s).Some?
    ensures IsoText(ParseIso(s).value) == s
  {
    ParseNatRoundTrip(s[..4]);
    ParseNatRoundTrip(s[5..7]);
    ParseNatRoundTrip(s[8..]);
    assert s == s[..4] + "-" + s[5..7] + "-" + s[8..] + "";
  }

  /** A Timestamp's month period is the first seven characters of its text. */
  /**
   * For English data the chart's month of an accepted date is the same key the
   * month filter compares: the text's 7-character prefix.
   */
  lemma IsoMonthIsFilterMonth(s: string)
    requires ParseIso(s).Some?
    ensures MonthKey(ParseIso(s).value) == Prefix(s, 7)
  {
    IsoCanonical(s);
  }

  /** Every Timestamp date in the zero-padded Japanese layout parses back to itself. */
  lemma JapaneseRoundTrip(d: Date)
    requires IsTimestampDate(d)
    ensures ParseJapanese(JapaneseText(d)) == Some(d)
  {
    TimestampFieldsFit(d);
    var s := JapaneseText(d);
    assert |s| == 11;
    assert s[..4] == Digits(d.year, 4) && s[4] == '年';
    assert s[5..7] == Digits(d.month, 2) && s[7] == '月' && s[6] != '月';
    assert s[8..10] == Digits(d.day, 2) && s[10] == '日';
    DigitsRoundTrip(d.year, 4);
    DigitsRoundTrip(d.month, 2);
    DigitsRoundTrip(d.day, 2);
    assert MonthToken(s[5..7]) == Some(d.month);
    assert DayToken(s[8..10]) == Some(d.day);
  }

  /** A month or day number written without a leading zero, which strptime also accepts. */
  function Unpadded(n: nat): string {
    if n < 10 then Digits(n, 1) else Digits(n, 2)
  }

  /** The Japanese layout without leading zeros, such as `2025年9月1日`. */
  function UnpaddedJapaneseText(d: Date): string {
    Digits(d.year, 4) + "年" + Unpadded(d.month) + "月" + Unpadded(d.day) + "日"
  }

  lemma UnpaddedToken(n: nat)
    requires 1 <= n < 100
    ensures 1 <= |Unpadded(n)| <= 2 && AllDigits(Unpadded(n)) && ParseNat(Unpadded(n)) == n
  {
    assert Pow10(1) == 10 && Pow10(2) == 100;
    if n < 10 {
      DigitsRoundTrip(n, 1);
    } else {
      DigitsRoundTrip(n, 2);
    }
  }

  /** Where the pieces of a Japanese date text sit. */
  lemma JapanesePieces(y: string, m: string, dd: string)
    requires |y| == 4 && 1 <= |m| <= 2 && AllDigits(m) && |dd| >= 1
    ensures var s := y + "年" + m + "月" + dd + "日";
      && |s| == 7 + |m| + |dd|
      && s[..4] == y && s[4] == '年'
      && s[5..5 + |m|] == m && s[5 + |m|] == '月'
      && (|m| == 2 ==> s[6] != '月')
      && s[6 + |m|..|s| - 1] == dd && s[|s| - 1] == '日'
  {
    var s := y + "年" + m + "月" + dd + "日";
    assert |m| == 2 ==> s[6] == m[1];
  }

  /** Every Timestamp date in the Japanese layout without leading zeros parses to itself too. */
  lemma UnpaddedJapaneseRoundTrip(d: Date)
    requires IsTimestampDate(d)
    ensures ParseJapanese(UnpaddedJapaneseText(d)) == Some(d)
  {
    TimestampFieldsFit(d);
    UnpaddedToken(d.month);
    UnpaddedToken(d.day);
    DigitsRoundTrip(d.year, 4);
    var y, m, dd := Digits(d.year, 4), Unpadded(d.month), Unpadded(d.day);
    JapanesePieces(y, m, dd);
    assert UnpaddedJapaneseText(d) == y + "年" + m + "月" + dd + "日";
    assert MonthToken(m) == Some(d.month);
    assert DayToken(dd) == Some(d.day);
  }

  /** Timestamp dates are ordered by their `YYYY-MM-DD` texts exactly as by time. */
  lemma IsoTextIsChronological(a: Date, b: Date)
    requires IsTimestampDate(a) && IsTimestampDate(b)
    ensures Before(a, b) <==> StrLt(IsoText(a), IsoText(b))
  {
    TimestampFieldsFit(a);
    TimestampFieldsFit(b);
    LayoutOrder(a, b, "-", "-", "");
  }

  /** The same holds for the zero-padded Japanese layout. */
  lemma JapaneseTextIsChronological(a: Date, b: Date)
    requires IsTimestampDate(a) && IsTimestampDate(b)
    ensures Before(a, b) <==> StrLt(JapaneseText(a), JapaneseText(b))
  {
    TimestampFieldsFit(a);
    TimestampFieldsFit(b);
    LayoutOrder(a, b, "年", "月", "日");
  }
}
