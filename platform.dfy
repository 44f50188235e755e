/**
  Stand-ins for the parts of the .NET runtime the logger touches but that are
  not part of this model: null references, the clock, exceptions and the
  platform line separator.
*/
module Platform {

  /** A reference that may be null. */
  datatype Option<+T> = None | Some(value: T)

  /** Environment.NewLine on the Windows desktop the logger targets. */
  const NewLine: string := "\r\n"

  /**
    One reading of DateTime.Now. The culture-dependent renderings are opaque
    strings: `general` is ToString("G"), `date` is ToString("dd.MM.yyyy") and
    `time` is ToString("HH-mm-ss"); `ticks` orders instants (file creation
    times are compared through it).
  */
  datatype Instant = Instant(ticks: int, general: string, date: string, time: string)

  /**
    A .NET exception as the logger sees it: its type name (GetType()), its
    Message, its StackTrace (null for an exception that was never thrown),
    its ToString() rendering, its HResult and its InnerException.
  */
  datatype Exception = Exception(
    kind: string,
    message: string,
    stackTrace: Option<string>,
    text: string,
    hResult: int,
    inner: Option<Exception>)

  /** The number of exceptions on the InnerException chain starting at `ex`. */
  function ChainLength(ex: Exception): (n: nat)
    ensures n >= 1
    ensures ex.inner.None? <==> n == 1
    decreases ex
  {
    match ex.inner
    case None => 1
    case Some(inner) => 1 + ChainLength(inner)
  }

  /** What StringBuilder.Append and string concatenation make of a possibly null string. */
  function TextOf(s: Option<string>): (r: string)
    ensures s.Some? ==> r == s.value
    ensures s.None? ==> r == ""
  {
    if s.Some? then s.value else ""
  }

  /** String.IsNullOrEmpty */
  predicate IsNullOrEmpty(s: Option<string>)
  {
    s.None? || s.value == ""
  }

  /** Appending two pieces one after the other appends their concatenation. */
  lemma Regroup<T>(a: seq<T>, b: seq<T>, c: seq<T>)
    ensures a + b + c == a + (b + c)
    ensures a + [] == a && [] + b == b
  {
  }

  /** The concatenation of `f` applied to each element, in order (a StringBuilder or list fed in a loop). */
  function ConcatMap<X, Y>(xs: seq<X>, f: X -> seq<Y>): seq<Y>
  {
    if xs == [] then [] else ConcatMap(xs[..|xs| - 1], f) + f(xs[|xs| - 1])
  }

  lemma {:induction false} ConcatMapAppend<X, Y>(a: seq<X>, b: seq<X>, f: X -> seq<Y>)
    ensures ConcatMap(a + b, f) == ConcatMap(a, f) + ConcatMap(b, f)
    decreases |b|
  {
    if b == [] {
      assert a + b == a;
    } else {
      var init, last := b[..|b| - 1], b[|b| - 1];
      assert b == init + [last];
      assert a + b == (a + init) + [last];
      ConcatMapSnoc(a + init, last, f);
      ConcatMapSnoc(init, last, f);
      ConcatMapAppend(a, init, f);
      Regroup(ConcatMap(a, f), ConcatMap(init, f), f(last));
    }
  }

  lemma ConcatMapSnoc<X, Y>(xs: seq<X>, x: X, f: X -> seq<Y>)
    ensures ConcatMap(xs + [x], f) == ConcatMap(xs, f) + f(x)
  {
    var s := xs + [x];
    assert s[..|s| - 1] == xs;
  }

  lemma ConcatMapSingle<X, Y>(x: X, f: X -> seq<Y>)
    ensures ConcatMap([x], f) == f(x)
  {
    assert [x][..0] == [];
  }
}
