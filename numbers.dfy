/**
 * Numbers. The interpreters compute on the host's double-precision values;
 * here a number is an exact real, and what the model does not fix about
 * the host's floating point and its `toString` texts is passed in as a
 * `Host` value.
 *
 * The rendering the newer interpreter uses when `+` joins a string and a
 * number, `BigDecimal(x).setScale(0, HALF_UP)`, is exact arithmetic on the
 * double's value and is modelled exactly.
 */
module Numbers {

  /**
   * What the host decides: `plus`, `minus`, `times` and `divide` give the
   * double each operator rounds to (a division by zero included); `render`
   * is the text `stringify` makes of a number (`Double.toString` with a
   * trailing ".0" removed), `text` the untrimmed `Double.toString`, and
   * `nullText` the `toString` of the NULL object, which a string template
   * uses.
   */
  datatype Host = Host(
    plus: (real, real) -> real,
    minus: (real, real) -> real,
    times: (real, real) -> real,
    divide: (real, real) -> real,
    render: real -> string,
    text: real -> string,
    nullText: string)

  /**
   * `setScale(0, RoundingMode.HALF_UP)`: the integer nearest to `x`, a tie
   * going away from zero.
   */
  function RoundHalfUp(x: real): (n: int)
    ensures x >= 0.0 ==> 0 <= n && x - 0.5 < n as real <= x + 0.5
    ensures x < 0.0 ==> n <= 0 && x - 0.5 <= n as real < x + 0.5
  {
    if x >= 0.0 then (x + 0.5).Floor else -((0.5 - x).Floor)
  }

  /** Among integers, the rounding is the only one within a half of `x` on the correct side of a tie. */
  lemma RoundHalfUpUnique(x: real, m: int)
    requires x >= 0.0 ==> x - 0.5 < m as real <= x + 0.5
    requires x < 0.0 ==> x - 0.5 <= m as real < x + 0.5
    ensures m == RoundHalfUp(x)
  {
    var n := RoundHalfUp(x);
    assert -1.0 < m as real - n as real < 1.0;
    assert -1 < m - n < 1;
  }

  predicate IsDigit(c: char)
  {
    '0' <= c <= '9'
  }

  function DigitChar(d: nat): (c: char)
    requires d < 10
    ensures IsDigit(c) && DigitValue(c) == d
  {
    (('0' as int) + d) as char
  }

  function DigitValue(c: char): (d: nat)
    requires IsDigit(c)
    ensures d < 10
  {
    (c as int) - ('0' as int)
  }

  /** The value of a run of decimal digits, most significant first. */
  function DigitsValue(s: string): nat
    requires forall i :: 0 <= i < |s| ==> IsDigit(s[i])
  {
    if s == [] then 0
    else DigitsValue(s[..|s| - 1]) * 10 + DigitValue(s[|s| - 1])
  }

  /** The decimal digits of a natural number, without leading zeros. */
  function NaturalText(n: nat): (s: string)
    ensures 0 < |s| && (forall i :: 0 <= i < |s| ==> IsDigit(s[i]))
    ensures 1 < |s| ==> s[0] != '0'
  {
    if n < 10 then [DigitChar(n)] else NaturalText(n / 10) + [DigitChar(n % 10)]
  }

  /** The text of an integer as `BigDecimal.toString` gives it at scale 0: a minus sign, then the digits. */
  function IntegerText(n: int): (s: string)
    ensures 0 < |s| && (forall i :: 0 < i < |s| ==> IsDigit(s[i])) && (s[0] == '-' || IsDigit(s[0]))
    ensures s[0] == '-' <==> n < 0
  {
    if n < 0 then "-" + NaturalText(-n) else NaturalText(n)
  }

  /** Reading back the digits of `NaturalText(n)` gives `n`. */
  lemma {:induction false} NaturalTextValue(n: nat)
    ensures DigitsValue(NaturalText(n)) == n
  {
    var s := NaturalText(n);
    if n >= 10 {
      NaturalTextValue(n / 10);
      assert s[..|s| - 1] == NaturalText(n / 10);
    } else {
      assert s[..|s| - 1] == [];
    }
  }

  /** Reading an integer's text back: a leading minus negates the digits that follow. */
  function IntegerValue(s: string): int
    requires 0 < |s| && (forall i :: 0 < i < |s| ==> IsDigit(s[i]))
    requires s[0] == '-' || IsDigit(s[0])
  {
    if s[0] == '-' then -(DigitsValue(s[1..]) as int) else DigitsValue(s)
  }

  /** `IntegerText` is read back exactly, and different integers have different texts. */
  lemma IntegerTextValue(n: int)
    ensures IntegerValue(IntegerText(n)) == n
  {
    if n < 0 {
      NaturalTextValue(-n);
      assert IntegerText(n)[1..] == NaturalText(-n);
    } else {
      NaturalTextValue(n);
    }
  }

  lemma IntegerTextInjective(m: int, n: int)
    requires IntegerText(m) == IntegerText(n)
    ensures m == n
  {
    IntegerTextValue(m);
    IntegerTextValue(n);
  }

  /** The text `"$x"` of `BigDecimal(x).setScale(0, HALF_UP)`. */
  function RoundedText(x: real): (s: string)
    ensures 0 < |s|
  {
    IntegerText(RoundHalfUp(x))
  }
}
