/** Strings as the dashboard's Python code compares, slices and lower-cases them. */
module Text {

  /** Python's `a < b` on `str`: lexicographic by code point, a proper prefix first. */
  predicate StrLt(a: string, b: string)
    decreases |a|
  {
    if a == [] then b != []
    else if b == [] then false
    else a[0] < b[0] || (a[0] == b[0] && StrLt(a[1..], b[1..]))
  }

  /** Python's `a <= b` on `str`. */
  predicate StrLe(a: string, b: string) {
    a == b || StrLt(a, b)
  }

  lemma {:induction false} StrLtIrreflexive(a: string)
    ensures !StrLt(a, a)
  {
    if a != [] {
      StrLtIrreflexive(a[1..]);
    }
  }

  lemma {:induction false} StrLtTransitive(a: string, b: string, c: string)
    requires StrLt(a, b) && StrLt(b, c)
    ensures StrLt(a, c)
  {
    if a != [] && a[0] == b[0] && b[0] == c[0] {
      StrLtTransitive(a[1..], b[1..], c[1..]);
    }
  }

  lemma {:induction false} StrLtTotal(a: string, b: string)
    ensures a == b || StrLt(a, b) || StrLt(b, a)
  {
    if a != [] && b != [] && a[0] == b[0] {
      StrLtTotal(a[1..], b[1..]);
      assert a == [a[0]] + a[1..] && b == [b[0]] + b[1..];
    }
  }

  lemma StrLtAsymmetric(a: string, b: string)
    requires StrLt(a, b)
    ensures !StrLt(b, a)
  {
    if StrLt(b, a) {
      StrLtTransitive(a, b, a);
      StrLtIrreflexive(a);
    }
  }

  lemma StrLeTransitive(a: string, b: string, c: string)
    requires StrLe(a, b) && StrLe(b, c)
    ensures StrLe(a, c)
  {
    if a != b && b != c {
      StrLtTransitive(a, b, c);
    }
  }

  lemma StrLeAntisymmetric(a: string, b: string)
    requires StrLe(a, b) && StrLe(b, a)
    ensures a == b
  {
    if a != b {
      StrLtAsymmetric(a, b);
    }
  }

  /** Not `a <= b` is `b < a`: the order Python's `sorted` relies on. */
  lemma StrLeNegation(a: string, b: string)
    ensures !StrLe(a, b) <==> StrLt(b, a)
  {
    StrLtTotal(a, b);
    if StrLt(b, a) {
      StrLtAsymmetric(b, a);
      StrLtIrreflexive(a);
    }
  }

  /** Appending to two strings of equal length keeps the order they already have. */
  lemma {:induction false} StrLtExtend(p: string, q: string, x: string, y: string)
    requires |p| == |q| && StrLt(p, q)
    ensures StrLt(p + x, q + y)
  {
    assert (p + x)[0] == p[0] && (q + y)[0] == q[0];
    if p[0] == q[0] && !(p[0] < q[0]) {
      assert (p + x)[1..] == p[1..] + x && (q + y)[1..] == q[1..] + y;
      StrLtExtend(p[1..], q[1..], x, y);
    }
  }

  /** A common prefix does not change the order. */
  lemma {:induction false} StrLtCommonPrefix(p: string, x: string, y: string)
    requires StrLt(x, y)
    ensures StrLt(p + x, p + y)
  {
    if p != [] {
      assert (p + x)[1..] == p[1..] + x && (p + y)[1..] == p[1..] + y;
      StrLtCommonPrefix(p[1..], x, y);
    } else {
      assert p + x == x && p + y == y;
    }
  }

  /** Python's `s[:n]`: the longest prefix of `s` with at most `n` characters. */
  function Prefix(s: string, n: nat): (p: string)
    ensures p <= s && |p| <= n
    ensures |s| >= n ==> |p| == n
    ensures |s| < n ==> p == s
  {
    if |s| < n then s else s[..n]
  }

  /** `str.lower()` restricted to ASCII: 'A'..'Z' become 'a'..'z', every other character stays. */
  function LowerChar(c: char): char {
    if 'A' <= c <= 'Z' then (c as int + 32) as char else c
  }

  function Lower(s: string): (r: string)
    ensures |r| == |s|
    ensures forall i :: 0 <= i < |s| ==> r[i] == LowerChar(s[i])
  {
    if s == [] then [] else [LowerChar(s[0])] + Lower(s[1..])
  }
}
