/** Colours used by the HTML sink's style sheet (Color.cs). */
module Colors {
  import opened Strings

  newtype byte = x: int | 0 <= x < 256

  /** An immutable RGBA colour: the components are get-only. */
  datatype GsColor = GsColor(r: byte, g: byte, b: byte, a: byte)

  /** GsColor(r, g, b): alpha is left at its default, 0. */
  function Rgb(r: byte, g: byte, b: byte): (c: GsColor)
    ensures c.r == r && c.g == g && c.b == b && c.a == 0
  {
    GsColor(r, g, b, 0)
  }

  /** GsColor(r, g, b, a) */
  function Rgba(r: byte, g: byte, b: byte, a: byte): (c: GsColor)
    ensures c.r == r && c.g == g && c.b == b && c.a == a
  {
    GsColor(r, g, b, a)
  }

  const Red: GsColor := Rgb(200, 20, 20)
  const Maroon: GsColor := Rgb(128, 0, 0)
  const Green: GsColor := Rgb(20, 200, 20)
  const DarkGreen: GsColor := Rgb(0, 128, 0)
  const Blue: GsColor := Rgb(20, 20, 200)
  const DarkBlue: GsColor := Rgb(0, 0, 128)
  const Magenta: GsColor := Rgb(200, 20, 200)
  const Cyan: GsColor := Rgb(20, 200, 200)
  const Yellow: GsColor := Rgb(200, 200, 20)
  const Olive: GsColor := Rgb(128, 128, 0)
  const Gray: GsColor := Rgb(128, 128, 128)
  const LightGray: GsColor := Rgb(192, 192, 192)
  const DarkGray: GsColor := Rgb(64, 64, 64)
  const Orange: GsColor := Rgb(255, 127, 0)
  const RedOrange: GsColor := Rgb(255, 69, 0)
  const Black: GsColor := Rgb(0, 0, 0)
  const White: GsColor := Rgb(255, 255, 255)
  const GrayGreen: GsColor := Rgb(85, 110, 65)
  const DebugColor: GsColor := Rgb(50, 50, 50)
  const InfoColor: GsColor := Rgb(0, 0, 0)
  const WarningColor: GsColor := Orange
  const ErrorColor: GsColor := Rgb(128, 0, 0)

  predicate IsUpperHexDigit(c: char)
  {
    '0' <= c <= '9' || 'A' <= c <= 'F'
  }

  function HexDigit(d: nat): (c: char)
    requires d < 16
    ensures IsUpperHexDigit(c)
  {
    "0123456789ABCDEF"[d]
  }

  function HexValue(c: char): (d: nat)
    requires IsUpperHexDigit(c)
    ensures d < 16
  {
    if c <= '9' then (c as int) - ('0' as int) else (c as int) - ('A' as int) + 10
  }

  /** Byte.ToString("X2"): two upper-case hexadecimal digits, high nibble first. */
  function X2(x: byte): (s: string)
    ensures |s| == 2 && IsUpperHexDigit(s[0]) && IsUpperHexDigit(s[1])
  {
    [HexDigit(x as nat / 16), HexDigit(x as nat % 16)]
  }

  /** ToHexadecimal: R, G and B as X2, in that order; alpha plays no part. */
  function ToHexadecimal(c: GsColor): (s: string)
    ensures |s| == 6
    ensures s[..2] == X2(c.r) && s[2..4] == X2(c.g) && s[4..] == X2(c.b)
  {
    X2(c.r) + X2(c.g) + X2(c.b)
  }

  /** Reads two hexadecimal digits back as a byte. */
  function ParseX2(s: string): byte
    requires |s| == 2 && IsUpperHexDigit(s[0]) && IsUpperHexDigit(s[1])
  {
    (HexValue(s[0]) * 16 + HexValue(s[1])) as byte
  }

  lemma HexDigitRoundTrip(d: nat)
    requires d < 16
    ensures HexValue(HexDigit(d)) == d
  {
  }

  lemma X2RoundTrip(x: byte)
    ensures ParseX2(X2(x)) == x
  {
    HexDigitRoundTrip(x as nat / 16);
    HexDigitRoundTrip(x as nat % 16);
  }

  /** Parsing the six digits back yields the colour's R, G and B. */
  lemma ToHexadecimalRoundTrip(c: GsColor)
    ensures var s := ToHexadecimal(c);
      ParseX2(s[..2]) == c.r && ParseX2(s[2..4]) == c.g && ParseX2(s[4..]) == c.b
  {
    X2RoundTrip(c.r);
    X2RoundTrip(c.g);
    X2RoundTrip(c.b);
  }

  /** Two colours with the same hex code differ at most in alpha. */
  lemma ToHexadecimalIgnoresOnlyAlpha(c: GsColor, d: GsColor)
    ensures ToHexadecimal(c) == ToHexadecimal(d) <==> (c.r == d.r && c.g == d.g && c.b == d.b)
  {
    ToHexadecimalRoundTrip(c);
    ToHexadecimalRoundTrip(d);
  }

  /** The colours the HTML style sheet uses for warnings and errors. */
  lemma LevelColours()
    ensures WarningColor == Orange && ToHexadecimal(WarningColor) == "FF7F00"
    ensures ErrorColor == Maroon && ToHexadecimal(ErrorColor) == "800000"
    ensures ToHexadecimal(DebugColor) == "323232" && ToHexadecimal(InfoColor) == "000000"
  {
  }

  /** ToString: "GSColor R:<r> G:<g> B:<b> A:<a>" with decimal components. */
  function ToString(c: GsColor): (s: string)
    ensures |s| >= 18 && s[..10] == "GSColor R:"
  {
    "GSColor R:" + (Decimal(c.r as nat) + (" G:" + (Decimal(c.g as nat) + (" B:" + (Decimal(c.b as nat)
      + (" A:" + Decimal(c.a as nat)))))))
  }

  /** A tag followed by a number and then text that does not start with a digit gives back the number and the text. */
  lemma Peel(tag: string, m: nat, n: nat, s: string, t: string)
    requires s == [] || !IsDigit(s[0])
    requires t == [] || !IsDigit(t[0])
    requires tag + (Decimal(m) + s) == tag + (Decimal(n) + t)
    ensures m == n && s == t
  {
    assert Decimal(m) + s == (tag + (Decimal(m) + s))[|tag|..];
    DigitsPrefix(Decimal(m), s, Decimal(n), t);
    DecimalInjective(m, n);
  }

  /** The rendering of a colour identifies it: the four components can be read back. */
  lemma {:induction false} ToStringInjective(c: GsColor, d: GsColor)
    ensures ToString(c) == ToString(d) <==> c == d
  {
    if ToString(c) == ToString(d) {
      var x1, x2 := " A:" + Decimal(c.a as nat), " A:" + Decimal(d.a as nat);
      var w1, w2 := " B:" + (Decimal(c.b as nat) + x1), " B:" + (Decimal(d.b as nat) + x2);
      var v1, v2 := " G:" + (Decimal(c.g as nat) + w1), " G:" + (Decimal(d.g as nat) + w2);
      Peel("GSColor R:", c.r as nat, d.r as nat, v1, v2);
      Peel(" G:", c.g as nat, d.g as nat, w1, w2);
      Peel(" B:", c.b as nat, d.b as nat, x1, x2);
      assert Decimal(c.a as nat) + [] == Decimal(c.a as nat) && Decimal(d.a as nat) + [] == Decimal(d.a as nat);
      Peel(" A:", c.a as nat, d.a as nat, [], []);
    }
  }

  lemma ToStringExample()
    ensures ToString(Orange) == "GSColor R:255 G:127 B:0 A:0"
  {
  }
}
