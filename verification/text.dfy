/**
 * Text helpers shared by the renderers: integer and decimal formatting as PHP
 * produces it, `round()`, `implode()`, `rtrim()` and `str_replace()`.
 */
module Text {

  function Abs(x: real): real
  {
    if x < 0.0 then -x else x
  }

  predicate IsIntegral(x: real)
  {
    x == x.Floor as real
  }

  /**
   * PHP's `round($x)`: the nearest integer, halves rounded away from zero.
   */
  function Round(x: real): (r: int)
    ensures -0.5 <= x - r as real <= 0.5
    ensures x - r as real == 0.5 ==> x < 0.0
    ensures x - r as real == -0.5 ==> x > 0.0
    ensures IsIntegral(x) ==> r as real == x
  {
    if x >= 0.0 then
      var f := (x + 0.5).Floor;
      assert f as real <= x + 0.5 < f as real + 1.0;
      assert IsIntegral(x) ==> x.Floor == f by {
        if IsIntegral(x) { assert x.Floor as real <= x + 0.5 < x.Floor as real + 1.0; }
      }
      f
    else
      var f := (-x + 0.5).Floor;
      assert f as real <= -x + 0.5 < f as real + 1.0;
      assert IsIntegral(x) ==> x.Floor == -f by {
        if IsIntegral(x) { assert (-x.Floor) as real <= -x + 0.5 < (-x.Floor) as real + 1.0; }
      }
      -f
  }

  function Digit(d: nat): char
    requires d < 10
  {
    (48 + d) as char
  }

  /** Decimal text of a natural number, without leading zeros. */
  function NatToString(n: nat): (s: string)
    ensures 1 <= |s|
    ensures n >= 10 ==> 2 <= |s|
  {
    if n < 10 then [Digit(n)] else NatToString(n / 10) + [Digit(n % 10)]
  }

  /** Distinct numbers have distinct decimal texts. */
  lemma {:induction false} NatToStringInjective(a: nat, b: nat)
    requires NatToString(a) == NatToString(b)
    ensures a == b
    decreases a
  {
    var s := NatToString(a);
    if a >= 10 && b >= 10 {
      assert NatToString(a / 10) == s[..|s| - 1] == NatToString(b / 10);
      NatToStringInjective(a / 10, b / 10);
      assert Digit(a % 10) == s[|s| - 1] == Digit(b % 10);
    } else if a < 10 && b < 10 {
      assert Digit(a) == s[0] == Digit(b);
    }
  }

  /** PHP's `(string)` of an integer. */
  function IntToString(i: int): string
  {
    if i < 0 then "-" + NatToString(-i) else NatToString(i)
  }


  function Zeros(n: nat): (s: string)
    ensures |s| == n
  {
    if n == 0 then "" else Zeros(n - 1) + "0"
  }

  /** The twelve fraction digits of a fixed-point number with 12 decimals. */
  function Fraction12(k: nat): (s: string)
    requires k < 1_000_000_000_000
  {
    var d := NatToString(k);
    if |d| >= 12 then d else Zeros(12 - |d|) + d
  }

  /**
   * PHP's `number_format($r, 12, '.', '')`: rounded to 12 decimals (halves away
   * from zero), no thousands separator, never a negative zero.
   */
  function NumberFormat12(r: real): string
  {
    var n: nat := Round(Abs(r) * 1_000_000_000_000.0);
    var sign := if r < 0.0 && n != 0 then "-" else "";
    sign + NatToString(n / 1_000_000_000_000) + "." + Fraction12(n % 1_000_000_000_000)
  }

  predicate StartsWith(s: string, t: string)
  {
    |t| <= |s| && s[..|t|] == t
  }

  predicate EndsWith(s: string, t: string)
  {
    |t| <= |s| && s[|s| - |t|..] == t
  }

  /** A string built from three parts starts with the first two and ends with the last two. */
  lemma Framed(a: string, b: string, c: string)
    ensures StartsWith(a + b + c, a + b) && EndsWith(a + b + c, b + c)
  {
    assert (a + b + c)[..|a + b|] == a + b;
    assert (a + b + c)[|a + b + c| - |b + c|..] == b + c;
  }

  /** PHP's `rtrim($s, '0')`. */
  function RTrimZeros(s: string): (r: string)
    ensures |r| <= |s|
    ensures r == s[..|r|]
    ensures |r| > 0 ==> r[|r| - 1] != '0'
    ensures forall i :: |r| <= i < |s| ==> s[i] == '0'
  {
    if |s| > 0 && s[|s| - 1] == '0' then RTrimZeros(s[..|s| - 1]) else s
  }

  /**
   * Text of a number as the renderers print it: an integral value as an integer,
   * otherwise `number_format` to 12 decimals with trailing zeros trimmed.
   */
  function Str(r: real): string
  {
    if IsIntegral(r) then IntToString(r.Floor) else RTrimZeros(NumberFormat12(r))
  }

  /** A whole number prints without a decimal point. */
  lemma {:induction false} StrOfInt(i: int)
    ensures Str(i as real) == IntToString(i)
  {
    assert (i as real).Floor == i;
  }

  /** `implode("", $ss)`. */
  function Concat(ss: seq<string>): string
  {
    if ss == [] then "" else Concat(ss[..|ss| - 1]) + ss[|ss| - 1]
  }

  /** Imploding a concatenation concatenates the imploded parts. */
  lemma {:induction false} ConcatAppend(a: seq<string>, b: seq<string>)
    ensures Concat(a + b) == Concat(a) + Concat(b)
    decreases |b|
  {
    if b == [] {
      assert a + b == a;
    } else {
      assert (a + b)[..|a + b| - 1] == a + b[..|b| - 1];
      ConcatAppend(a, b[..|b| - 1]);
    }
  }

  /** `implode($sep, $ss)`. */
  function Join(ss: seq<string>, sep: string): string
  {
    if |ss| == 0 then ""
    else if |ss| == 1 then ss[0]
    else Join(ss[..|ss| - 1], sep) + sep + ss[|ss| - 1]
  }

  /** `str_replace($from, $to, $s)` for single characters. */
  function ReplaceChar(s: string, from: char, to: char): (r: string)
    ensures |r| == |s|
    ensures forall i :: 0 <= i < |s| ==> r[i] == (if s[i] == from then to else s[i])
  {
    if s == [] then [] else [if s[0] == from then to else s[0]] + ReplaceChar(s[1..], from, to)
  }
}
