/**
 * The current status of each (client, product) pair:
 * `df.sort_values(date).groupby([client, product]).tail(1)`.
 * The frame is sorted by its date column, then the last row of every pair is
 * kept, in frame order. `sort_values` is not a stable sort, so which of several
 * rows sharing a pair's latest date survives is not promised; the guarantees
 * below hold for every date-sorted order of the rows (`GroupTail` lemmas),
 * and `SortByDate` is one such order.
 */
module Status {
  import opened Text
  import opened Schema

  /** Ascending by the date column's text. */
  predicate SortedByDate(s: seq<Row>) {
    forall i, j :: 0 <= i < j < |s| ==> StrLe(s[i].date, s[j].date)
  }

  /** No pair occurs twice. */
  predicate DistinctPairs(s: seq<Row>) {
    forall i, j :: 0 <= i < j < |s| ==> PairOf(s[i]) != PairOf(s[j])
  }

  /** Places `x` before the first row whose date is not earlier than its own. */
  function InsertByDate(x: Row, s: seq<Row>): (r: seq<Row>)
    ensures multiset(r) == multiset(s) + multiset{x}
  {
    if s == [] then [x]
    else if StrLe(x.date, s[0].date) then [x] + s
    else
      assert s == [s[0]] + s[1..];
      [s[0]] + InsertByDate(x, s[1..])
  }

  lemma {:induction false} InsertKeepsSorted(x: Row, s: seq<Row>)
    requires SortedByDate(s)
    ensures SortedByDate(InsertByDate(x, s))
  {
    if s == [] {
    } else if StrLe(x.date, s[0].date) {
      forall j | 0 <= j < |s| ensures StrLe(x.date, s[j].date) {
        StrLeTransitive(x.date, s[0].date, s[j].date);
      }
    } else {
      InsertKeepsSorted(x, s[1..]);
      var rest := InsertByDate(x, s[1..]);
      StrLeNegation(x.date, s[0].date);
      forall y | y in rest ensures StrLe(s[0].date, y.date) {
        assert y in multiset(rest);
        if y != x {
          assert y in s[1..];
        }
      }
    }
  }

  /** A date-sorted permutation of the rows (insertion sort). */
  function SortByDate(rows: seq<Row>): (sorted: seq<Row>)
    ensures multiset(sorted) == multiset(rows)
    ensures SortedByDate(sorted)
  {
    if rows == [] then []
    else
      var rest := SortByDate(rows[1..]);
      InsertKeepsSorted(rows[0], rest);
      assert rows == [rows[0]] + rows[1..];
      InsertByDate(rows[0], rest)
  }

  lemma PairsHead(s: seq<Row>)
    requires s != []
    ensures Pairs(s) == {PairOf(s[0])} + Pairs(s[1..])
  {
    assert s == [s[0]] + s[1..];
  }

  lemma PairsOfPermutation(a: seq<Row>, b: seq<Row>)
    requires multiset(a) == multiset(b)
    ensures Pairs(a) == Pairs(b)
  {
    forall x ensures x in a <==> x in b {
      assert x in a <==> x in multiset(a);
      assert x in b <==> x in multiset(b);
    }
  }

  /**
   * `groupby(pair).tail(1)` on an already ordered frame: a row is kept when no
   * later row has its pair. The result has every pair of the input once.
   */
  function GroupTail(s: seq<Row>): (r: seq<Row>)
    ensures multiset(r) <= multiset(s)
    ensures Pairs(r) == Pairs(s)
    ensures DistinctPairs(r)
  {
    if s == [] then []
    else
      PairsHead(s);
      var rest := GroupTail(s[1..]);
      assert s == [s[0]] + s[1..];
      if PairOf(s[0]) in Pairs(s[1..]) then rest
      else
        PairsHead([s[0]] + rest);
        assert ([s[0]] + rest)[1..] == rest;
        [s[0]] + rest
  }

  /** On a date-sorted frame, every kept row has the latest date of its pair. */
  lemma {:induction false} GroupTailKeepsLatest(s: seq<Row>)
    requires SortedByDate(s)
    ensures forall x, y :: x in GroupTail(s) && y in s && PairOf(y) == PairOf(x) ==> StrLe(y.date, x.date)
  {
    if s != [] {
      GroupTailKeepsLatest(s[1..]);
      forall x, y | x in GroupTail(s) && y in s && PairOf(y) == PairOf(x)
        ensures StrLe(y.date, x.date)
      {
        KeptRow(s, x);
        if y != s[0] {
          assert y in s[1..] by {
            assert s == [s[0]] + s[1..];
          }
          assert PairOf(y) in Pairs(s[1..]);
        } else if x != s[0] {
          HeadIsEarliest(s, x);
        }
      }
    }
  }

  /** A kept row is the head, whose pair does not recur, or a row kept from the tail. */
  lemma KeptRow(s: seq<Row>, x: Row)
    requires s != [] && x in GroupTail(s)
    ensures (x == s[0] && PairOf(x) !in Pairs(s[1..])) || x in GroupTail(s[1..])
    ensures x in GroupTail(s[1..]) ==> x in s[1..]
  {
    if x in GroupTail(s[1..]) {
      assert x in multiset(GroupTail(s[1..]));
    }
  }

  lemma HeadIsEarliest(s: seq<Row>, y: Row)
    requires SortedByDate(s) && s != [] && y in s[1..]
    ensures StrLe(s[0].date, y.date)
  {
    var k :| 0 <= k < |s[1..]| && s[1..][k] == y;
    assert s[k + 1] == y;
  }

  /** In a frame without repeated pairs, the first row's pair does not recur. */
  lemma HeadPairIsNew(s: seq<Row>)
    requires DistinctPairs(s) && s != []
    ensures PairOf(s[0]) !in Pairs(s[1..])
    ensures DistinctPairs(s[1..])
  {
    forall y | y in s[1..] ensures PairOf(y) != PairOf(s[0]) {
      var k :| 0 <= k < |s[1..]| && s[1..][k] == y;
      assert s[k + 1] == y;
    }
  }

  /** A frame with every pair once has as many rows as pairs. */
  lemma {:induction false} DistinctPairsCount(s: seq<Row>)
    requires DistinctPairs(s)
    ensures |Pairs(s)| == |s|
  {
    if s != [] {
      PairsHead(s);
      HeadPairIsNew(s);
      DistinctPairsCount(s[1..]);
    }
  }

  /** Prepending a row no later than every row keeps a frame sorted. */
  lemma SortedCons(x: Row, rest: seq<Row>)
    requires SortedByDate(rest)
    requires forall y :: y in rest ==> StrLe(x.date, y.date)
    ensures SortedByDate([x] + rest)
  {
    var r := [x] + rest;
    forall i, j | 0 <= i < j < |r| ensures StrLe(r[i].date, r[j].date) {
      if i == 0 {
        assert r[j] == rest[j - 1];
      } else {
        assert r[i] == rest[i - 1] && r[j] == rest[j - 1];
      }
    }
  }

  /** Keeping the last row of each pair keeps a date-sorted frame sorted. */
  lemma {:induction false} GroupTailKeepsSorted(s: seq<Row>)
    requires SortedByDate(s)
    ensures SortedByDate(GroupTail(s))
  {
    if s != [] {
      GroupTailKeepsSorted(s[1..]);
      var rest := GroupTail(s[1..]);
      if PairOf(s[0]) !in Pairs(s[1..]) {
        forall y | y in rest ensures StrLe(s[0].date, y.date) {
          assert y in multiset(rest);
          HeadIsEarliest(s, y);
        }
        SortedCons(s[0], rest);
      }
    }
  }

  /**
   * The status snapshots: one row per pair of the input, taken from the input,
   * each with the latest date of its pair; empty for an empty input.
   */
  function LatestStatus(rows: seq<Row>): (latest: seq<Row>)
    ensures multiset(latest) <= multiset(rows)
    ensures Pairs(latest) == Pairs(rows)
    ensures DistinctPairs(latest)
    ensures |latest| == |Pairs(rows)|
    ensures forall x, y :: x in latest && y in rows && PairOf(y) == PairOf(x) ==> StrLe(y.date, x.date)
    ensures SortedByDate(latest)
  {
    var sorted := SortByDate(rows);
    PairsOfPermutation(sorted, rows);
    GroupTailKeepsLatest(sorted);
    GroupTailKeepsSorted(sorted);
    var latest := GroupTail(sorted);
    DistinctPairsCount(latest);
    forall y | y in rows ensures y in sorted {
      assert y in multiset(rows);
    }
    latest
  }

  /**
   * The guarantees do not depend on which date-sorted order the sort produced:
   * any order gives one row per pair, each from the input and latest in its pair.
   */
  lemma AnySortedOrder(rows: seq<Row>, sorted: seq<Row>)
    requires multiset(sorted) == multiset(rows) && SortedByDate(sorted)
    ensures |GroupTail(sorted)| == |Pairs(rows)|
    ensures Pairs(GroupTail(sorted)) == Pairs(rows)
    ensures multiset(GroupTail(sorted)) <= multiset(rows)
    ensures forall x, y :: x in GroupTail(sorted) && y in rows && PairOf(y) == PairOf(x) ==> StrLe(y.date, x.date)
  {
    PairsOfPermutation(sorted, rows);
    GroupTailKeepsLatest(sorted);
    DistinctPairsCount(GroupTail(sorted));
    forall y | y in rows ensures y in sorted {
      assert y in multiset(rows);
    }
  }

  /** Two rows already in date order stay in that order. */
  lemma SortTwo(a: Row, b: Row)
    requires StrLe(a.date, b.date)
    ensures SortByDate([a, b]) == [a, b]
  {
    assert [a, b][1..] == [b] && [b][1..] == [];
    assert SortByDate([b]) == InsertByDate(b, []) == [b];
  }

  /** Two rows of one pair: only the second is the last of its pair. */
  lemma GroupTailTwo(a: Row, b: Row)
    requires PairOf(a) == PairOf(b)
    ensures GroupTail([a, b]) == [b]
  {
    assert [a, b][1..] == [b] && [b][1..] == [];
    assert b in [b] && PairOf(a) in Pairs([b]);
    assert GroupTail([b]) == [b];
  }

  /** Of two rows of one pair, in date order, the later one is the snapshot. */
  lemma LatestOfTwo(a: Row, b: Row)
    requires PairOf(a) == PairOf(b) && StrLe(a.date, b.date)
    ensures LatestStatus([a, b]) == [b]
  {
    SortTwo(a, b);
    GroupTailTwo(a, b);
  }

  /**
   * Two rows of one pair with the same date: both orders are date-sorted, and
   * each keeps a different row, so the tie-break is the sort's, not a rule.
   * The insertion sort keeps the input order, so the later input row wins.
   */
  /** Two rows in date order form a date-sorted frame; kept apart so the tie proof stays small. */
  lemma SortedTwo(a: Row, b: Row)
    requires StrLe(a.date, b.date)
    ensures SortedByDate([a, b])
  {
  }

  lemma TieDependsOnOrder(a: Row, b: Row)
    requires PairOf(a) == PairOf(b) && a.date == b.date
    ensures SortedByDate([a, b]) && SortedByDate([b, a])
    ensures GroupTail([a, b]) == [b] && GroupTail([b, a]) == [a]
    ensures LatestStatus([a, b]) == [b]
  {
    SortedTwo(a, b);
    SortedTwo(b, a);
    GroupTailTwo(a, b);
    GroupTailTwo(b, a);
    LatestOfTwo(a, b);
  }

  lemma {:induction false} SortedIsFixed(s: seq<Row>)
    requires SortedByDate(s)
    ensures SortByDate(s) == s
  {
    if s != [] {
      SortedIsFixed(s[1..]);
      if s[1..] != [] {
        assert StrLe(s[0].date, s[1..][0].date);
      }
      assert s == [s[0]] + s[1..];
    }
  }

  lemma {:induction false} DistinctIsFixed(s: seq<Row>)
    requires DistinctPairs(s)
    ensures GroupTail(s) == s
  {
    if s != [] {
      HeadPairIsNew(s);
      DistinctIsFixed(s[1..]);
      assert s == [s[0]] + s[1..];
    }
  }

  /** Taking the current status of the current status changes nothing. */
  lemma LatestIsIdempotent(rows: seq<Row>)
    ensures LatestStatus(LatestStatus(rows)) == LatestStatus(rows)
  {
    var latest := LatestStatus(rows);
    SortedIsFixed(latest);
    DistinctIsFixed(latest);
  }

  /** `r` with its date text rewritten by `g`, as the in-place column overwrite does. */
  function WithDate(r: Row, g: string -> string): Row {
    r.(date := g(r.date))
  }

  function Redate(rows: seq<Row>, g: string -> string): (out: seq<Row>)
    ensures |out| == |rows|
    ensures forall i :: 0 <= i < |rows| ==> out[i] == WithDate(rows[i], g)
  {
    if rows == [] then [] else [WithDate(rows[0], g)] + Redate(rows[1..], g)
  }

  /** `g` orders the dates of `rows` exactly as they were ordered before. */
  ghost predicate OrderFaithful(rows: seq<Row>, g: string -> string) {
    forall x, y :: x in rows && y in rows ==> (StrLe(x.date, y.date) <==> StrLe(g(x.date), g(y.date)))
  }

  lemma {:induction false} InsertCommutes(x: Row, s: seq<Row>, g: string -> string)
    requires OrderFaithful([x] + s, g)
    ensures InsertByDate(WithDate(x, g), Redate(s, g)) == Redate(InsertByDate(x, s), g)
  {
    if s != [] {
      var t := Redate(s, g);
      assert x in [x] + s && s[0] in [x] + s;
      assert t[0] == WithDate(s[0], g);
      assert t[1..] == Redate(s[1..], g);
      if !StrLe(x.date, s[0].date) {
        assert OrderFaithful([x] + s[1..], g) by {
          forall y | y in [x] + s[1..] ensures y in [x] + s {
            if y != x { assert y in s; }
          }
        }
        InsertCommutes(x, s[1..], g);
      }
    }
  }

  lemma {:induction false} SortCommutes(rows: seq<Row>, g: string -> string)
    requires OrderFaithful(rows, g)
    ensures SortByDate(Redate(rows, g)) == Redate(SortByDate(rows), g)
  {
    if rows != [] {
      var rest := SortByDate(rows[1..]);
      assert OrderFaithful(rows[1..], g) by {
        forall y | y in rows[1..] ensures y in rows { }
      }
      SortCommutes(rows[1..], g);
      assert Redate(rows, g)[1..] == Redate(rows[1..], g);
      assert OrderFaithful([rows[0]] + rest, g) by {
        forall y | y in [rows[0]] + rest ensures y in rows {
          if y != rows[0] {
            assert y in multiset(rest);
            assert y in rows[1..];
          }
        }
      }
      InsertCommutes(rows[0], rest, g);
    }
  }

  lemma {:induction false} RedatePairs(s: seq<Row>, g: string -> string)
    ensures Pairs(Redate(s, g)) == Pairs(s)
  {
    if s != [] {
      RedatePairs(s[1..], g);
      PairsHead(s);
      PairsHead(Redate(s, g));
      assert Redate(s, g)[1..] == Redate(s[1..], g);
    }
  }

  lemma {:induction false} GroupTailCommutes(s: seq<Row>, g: string -> string)
    ensures GroupTail(Redate(s, g)) == Redate(GroupTail(s), g)
  {
    if s != [] {
      GroupTailCommutes(s[1..], g);
      RedatePairs(s[1..], g);
      var t := Redate(s, g);
      assert t[1..] == Redate(s[1..], g);
      assert PairOf(t[0]) == PairOf(s[0]);
    }
  }

  /**
   * Rewriting the dates in a way that keeps their order changes no choice:
   * the snapshots are the same rows, with the rewritten dates.
   */
  lemma LatestCommutes(rows: seq<Row>, g: string -> string)
    requires OrderFaithful(rows, g)
    ensures LatestStatus(Redate(rows, g)) == Redate(LatestStatus(rows), g)
  {
    SortCommutes(rows, g);
    GroupTailCommutes(SortByDate(rows), g);
  }
}
