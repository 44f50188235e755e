/**
  String helpers shared by the sinks: composite-format padding, decimal
  rendering of integers and the UTF-8 size of a string.
*/
module Strings {

  /** `n` blanks. */
  function Spaces(n: nat): (r: string)
    ensures |r| == n
    ensures forall i :: 0 <= i < n ==> r[i] == ' '
  {
    if n == 0 then "" else Spaces(n - 1) + " "
  }

  /** The composite-format field `{s,-width}`: `s` left-aligned, blank-filled to `width`. */
  function PadRight(s: string, width: nat): (r: string)
    ensures |r| == if |s| < width then width else |s|
    ensures r[..|s|] == s
    ensures forall i :: |s| <= i < |r| ==> r[i] == ' '
  {
    if |s| < width then s + Spaces(width - |s|) else s
  }

  predicate IsDigit(c: char)
  {
    '0' <= c <= '9'
  }

  function DigitChar(d: nat): (c: char)
    requires d < 10
    ensures IsDigit(c) && (c as int) - ('0' as int) == d
  {
    "0123456789"[d]
  }

  /** Int32.ToString() of a non-negative value: shortest decimal digits, no sign. */
  function Decimal(n: nat): (r: string)
    ensures |r| >= 1
    ensures forall i :: 0 <= i < |r| ==> IsDigit(r[i])
    ensures |r| > 1 ==> r[0] != '0'
    decreases n
  {
    if n < 10 then [DigitChar(n)] else Decimal(n / 10) + [DigitChar(n % 10)]
  }

  /** Int32.Parse of a string of decimal digits. */
  function ParseDecimal(s: string): nat
    requires forall i :: 0 <= i < |s| ==> IsDigit(s[i])
  {
    if s == [] then 0
    else ParseDecimal(s[..|s| - 1]) * 10 + DigitValue(s[|s| - 1])
  }

  function DigitValue(c: char): (d: nat)
    requires IsDigit(c)
    ensures d < 10 && DigitChar(d) == c
  {
    (c as int) - ('0' as int)
  }

  lemma {:induction false} DecimalRoundTrip(n: nat)
    ensures ParseDecimal(Decimal(n)) == n
    decreases n
  {
    if n >= 10 {
      var d := Decimal(n / 10) + [DigitChar(n % 10)];
      assert d[..|d| - 1] == Decimal(n / 10);
      DecimalRoundTrip(n / 10);
    }
  }

  /** Different numbers render differently, so counters give distinct names. */
  lemma DecimalInjective(m: nat, n: nat)
    ensures Decimal(m) == Decimal(n) <==> m == n
  {
    DecimalRoundTrip(m);
    DecimalRoundTrip(n);
  }

  /**
    A run of digits followed by text that does not start with a digit splits
    in only one way: the digits end exactly where the first non-digit is.
  */
  lemma DigitsPrefix(x: string, s: string, y: string, t: string)
    requires forall i :: 0 <= i < |x| ==> IsDigit(x[i])
    requires forall i :: 0 <= i < |y| ==> IsDigit(y[i])
    requires s == [] || !IsDigit(s[0])
    requires t == [] || !IsDigit(t[0])
    requires x + s == y + t
    ensures x == y && s == t
  {
    assert x == (x + s)[..|x|] && y == (y + t)[..|y|];
    assert s == (x + s)[|x|..] && t == (y + t)[|y|..];
  }

  /** Bytes UTF-8 needs for one Unicode scalar value. */
  function Utf8Size(c: char): (k: nat)
    ensures 1 <= k <= 4
  {
    if c as int < 0x80 then 1
    else if c as int < 0x800 then 2
    else if c as int < 0x1_0000 then 3
    else 4
  }

  /** The length, in bytes, of `s` written by a UTF-8 StreamWriter (no byte-order mark). */
  function Utf8Length(s: string): (n: nat)
    ensures |s| <= n <= 4 * |s|
  {
    if s == [] then 0 else Utf8Length(s[..|s| - 1]) + Utf8Size(s[|s| - 1])
  }

  lemma {:induction false} Utf8LengthAppend(a: string, b: string)
    ensures Utf8Length(a + b) == Utf8Length(a) + Utf8Length(b)
    decreases |b|
  {
    if b != [] {
      var ab := a + b;
      assert ab[..|ab| - 1] == a + b[..|b| - 1];
      Utf8LengthAppend(a, b[..|b| - 1]);
    } else {
      assert a + b == a;
    }
  }

  /**
    A left-to-right rendering pass with a counter threaded through it:
    `f(x, n)` gives the text of `x` and the counter value after it.
  */
  function ThreadMap<X>(xs: seq<X>, f: (X, nat) -> (string, nat), n: nat): (string, nat)
  {
    if xs == [] then ("", n)
    else
      var prev := ThreadMap(xs[..|xs| - 1], f, n);
      var last := f(xs[|xs| - 1], prev.1);
      (prev.0 + last.0, last.1)
  }

  /** Rendering `a + b` renders `a`, then `b` from the counter `a` left behind. */
  lemma {:induction false} ThreadMapAppend<X>(a: seq<X>, b: seq<X>, f: (X, nat) -> (string, nat), n: nat)
    ensures var ra := ThreadMap(a, f, n);
      var rb := ThreadMap(b, f, ra.1);
      ThreadMap(a + b, f, n) == (ra.0 + rb.0, rb.1)
    decreases |b|
  {
    if b == [] {
      assert a + b == a;
      var ra := ThreadMap(a, f, n);
      assert ra.0 + "" == ra.0;
    } else {
      var ab, init := a + b, b[..|b| - 1];
      assert ab[..|ab| - 1] == a + init;
      assert ab[|ab| - 1] == b[|b| - 1];
      var last := b[|b| - 1];
      ThreadMapAppend(a, init, f, n);
      var ra := ThreadMap(a, f, n);
      var ri := ThreadMap(init, f, ra.1);
      var rl := f(last, ri.1);
      assert ThreadMap(a + init, f, n) == (ra.0 + ri.0, ri.1);
      assert ThreadMap(ab, f, n) == ((ra.0 + ri.0) + rl.0, rl.1);
      assert ThreadMap(b, f, ra.1) == (ri.0 + rl.0, rl.1);
      assert (ra.0 + ri.0) + rl.0 == ra.0 + (ri.0 + rl.0);
    }
  }

  lemma ThreadMapSingle<X>(x: X, f: (X, nat) -> (string, nat), n: nat)
    ensures ThreadMap([x], f, n) == f(x, n)
  {
    assert [x][..0] == [];
    var r := f(x, n);
    assert ThreadMap([x], f, n) == ("" + r.0, r.1);
    assert "" + r.0 == r.0;
  }

  /** `t` occurs in `s` as a contiguous piece. */
  predicate Contains(s: string, t: string)
  {
    exists i | 0 <= i <= |s| - |t| :: OccursAt(s, t, i)
  }

  predicate OccursAt(s: string, t: string, i: int)
  {
    0 <= i <= |s| - |t| && s[i..i + |t|] == t
  }

  lemma ContainsItself(t: string)
    ensures Contains(t, t)
  {
    assert t[0..|t|] == t;
    assert OccursAt(t, t, 0);
  }

  lemma ContainsTransitive(s: string, u: string, t: string)
    requires Contains(s, u) && Contains(u, t)
    ensures Contains(s, t)
  {
    var i :| 0 <= i <= |s| - |u| && OccursAt(s, u, i);
    var j :| 0 <= j <= |u| - |t| && OccursAt(u, t, j);
    forall k | 0 <= k < |t|
      ensures s[i + j + k] == t[k]
    {
      assert t[k] == u[j..j + |t|][k] == u[j + k];
      assert u[j + k] == s[i..i + |u|][j + k];
    }
    assert s[i + j..i + j + |t|] == t;
    assert OccursAt(s, t, i + j);
  }

  /** The last three pieces of a concatenation occur in it. */
  lemma ContainsTail(p: string, a: string, b: string, c: string)
    ensures Contains(p + a + b + c, a + b + c)
  {
    assert p + a + b + c == p + (a + b + c);
    ContainsItself(a + b + c);
    ContainsInRight(p, a + b + c, a + b + c);
  }

  lemma ContainsInLeft(a: string, b: string, t: string)
    requires Contains(a, t)
    ensures Contains(a + b, t)
  {
    var i :| 0 <= i <= |a| - |t| && OccursAt(a, t, i);
    assert (a + b)[i..i + |t|] == a[i..i + |t|];
    assert OccursAt(a + b, t, i);
  }

  lemma ContainsInRight(a: string, b: string, t: string)
    requires Contains(b, t)
    ensures Contains(a + b, t)
  {
    var i :| 0 <= i <= |b| - |t| && OccursAt(b, t, i);
    assert (a + b)[|a| + i..|a| + i + |t|] == b[i..i + |t|];
    assert OccursAt(a + b, t, |a| + i);
  }
}
