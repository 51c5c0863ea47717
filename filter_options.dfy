/**
 * The entries of the three sidebar lists: the "All" sentinel followed by
 * `sorted(column.dropna().unique())`. Every column modelled here is non-null,
 * so `dropna` keeps every cell; the month list uses the date text's
 * 7-character prefix, the same key the month filter compares.
 */
module FilterOptions {
  import opened Text
  import opened Schema
  import opened Filters

  /** Ascending with no value twice. */
  predicate StrictlySorted(s: seq<string>) {
    forall i, j :: 0 <= i < j < |s| ==> StrLt(s[i], s[j])
  }

  /** Inserts `x` at its place in an ascending duplicate-free list, unless it is there already. */
  function InsertSorted(x: string, s: seq<string>): (r: seq<string>)
    requires StrictlySorted(s)
    ensures StrictlySorted(r)
    ensures forall v :: v in r <==> v == x || v in s
  {
    if s == [] then [x]
    else if x == s[0] then s
    else if StrLt(x, s[0]) then
      assert forall j :: 0 < j < |s| ==> StrLt(x, s[j]) by {
        forall j | 0 < j < |s| { StrLtTransitive(x, s[0], s[j]); }
      }
      [x] + s
    else
      StrLtTotal(x, s[0]);
      var rest := InsertSorted(x, s[1..]);
      assert forall v :: v in rest ==> StrLt(s[0], v);
      [s[0]] + rest
  }

  /** `sorted(set(xs))`: each distinct value once, ascending. */
  function SortedUnique(xs: seq<string>): (r: seq<string>)
    ensures StrictlySorted(r)
    ensures forall v :: v in r <==> v in xs
    ensures |r| <= |xs|
  {
    if xs == [] then []
    else
      var rest := SortedUnique(xs[1..]);
      var r := InsertSorted(xs[0], rest);
      assert |r| <= |rest| + 1 by {
        if xs[0] in rest {
          StrictlySortedUnique(r, rest);
        } else {
          InsertSortedLength(xs[0], rest);
        }
      }
      r
  }

  lemma {:induction false} InsertSortedLength(x: string, s: seq<string>)
    requires StrictlySorted(s)
    ensures |InsertSorted(x, s)| <= |s| + 1
  {
    if s != [] && x != s[0] && !StrLt(x, s[0]) {
      InsertSortedLength(x, s[1..]);
    }
  }

  /**
   * Two ascending duplicate-free lists with the same values are the same list:
   * the option list is determined by the set of values in the column.
   */
  lemma {:induction false} StrictlySortedUnique(a: seq<string>, b: seq<string>)
    requires StrictlySorted(a) && StrictlySorted(b)
    requires forall v :: v in a <==> v in b
    ensures a == b
  {
    if a == [] {
      assert forall i :: 0 <= i < |b| ==> b[i] in b;
    } else {
      assert a[0] in b;
      HeadIsLeast(b, a[0]);
      HeadIsLeast(a, b[0]);
      StrLeAntisymmetric(a[0], b[0]);
      forall v ensures v in a[1..] <==> v in b[1..] {
        StrLtIrreflexive(a[0]);
        if v in a[1..] {
          var i :| 0 <= i < |a| - 1 && a[1..][i] == v;
          assert StrLt(a[0], a[i + 1]) && a[i + 1] == v;
          assert v in b && v != b[0];
          var j :| 0 <= j < |b| && b[j] == v;
          assert b[1..][j - 1] == v;
        }
        if v in b[1..] {
          var i :| 0 <= i < |b| - 1 && b[1..][i] == v;
          assert StrLt(b[0], b[i + 1]) && b[i + 1] == v;
          assert v in a && v != a[0];
          var j :| 0 <= j < |a| && a[j] == v;
          assert a[1..][j - 1] == v;
        }
      }
      StrictlySortedUnique(a[1..], b[1..]);
      assert a == [a[0]] + a[1..] && b == [b[0]] + b[1..];
    }
  }

  /** The head of an ascending list is at most any of its values. */
  lemma HeadIsLeast(s: seq<string>, v: string)
    requires StrictlySorted(s) && v in s
    ensures StrLe(s[0], v)
  {
    var k :| 0 <= k < |s| && s[k] == v;
    if k > 0 {
      assert StrLt(s[0], s[k]);
    }
  }

  /** The cells of one column, row by row. */
  function ColumnValues(df: seq<Row>, c: Column): (vs: seq<string>)
    ensures |vs| == |df|
    ensures forall i :: 0 <= i < |df| ==> vs[i] == Cell(df[i], c)
  {
    if df == [] then [] else [Cell(df[0], c)] + ColumnValues(df[1..], c)
  }

  /** A sidebar list: the sentinel, then each value of the column once, ascending. */
  function OptionList(lang: Lang, df: seq<Row>, c: Column): (opts: seq<string>)
    ensures |opts| >= 1 && opts[0] == AllSentinel(lang)
    ensures StrictlySorted(opts[1..])
    ensures forall v :: v in opts[1..] <==> exists r :: r in df && Cell(r, c) == v
    ensures |opts| <= |df| + 1
  {
    var vs := ColumnValues(df, c);
    var opts := [AllSentinel(lang)] + SortedUnique(vs);
    assert opts[1..] == SortedUnique(vs);
    forall v ensures v in vs <==> exists r :: r in df && Cell(r, c) == v {
      if v in vs {
        var i :| 0 <= i < |vs| && vs[i] == v;
        assert df[i] in df;
      }
    }
    opts
  }

  /**
   * Every listed value other than the sentinel picks out at least one row of
   * the table the list was built from.
   */
  lemma EveryOptionSelectsRows(lang: Lang, df: seq<Row>, c: Column, v: string)
    requires v in OptionList(lang, df, c)[1..]
    ensures KeepEqual(df, c, v) != []
  {
    var r :| r in df && Cell(r, c) == v;
    assert r in KeepEqual(df, c, v);
  }

  /** Any other ascending duplicate-free listing of the column's values is the same list. */
  lemma OptionListIsCanonical(lang: Lang, df: seq<Row>, c: Column, listing: seq<string>)
    requires StrictlySorted(listing)
    requires forall v :: v in listing <==> exists r :: r in df && Cell(r, c) == v
    ensures OptionList(lang, df, c) == [AllSentinel(lang)] + listing
  {
    var opts := OptionList(lang, df, c);
    StrictlySortedUnique(opts[1..], listing);
    assert opts == [opts[0]] + opts[1..];
  }
}
