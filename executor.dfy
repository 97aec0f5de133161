/**
  The mock model that stands in for the unit of work. It waits a random time,
  draws a random integer and returns the input together with the decimal
  rendering of that integer. The wait is not modelled; the drawn integer is a
  parameter.
 */
module Executor {

  /** The dictionary {"input": ..., "result": ...} that the mock model returns. */
  datatype Output = Output(input: string, result: string)

  /** The inclusive bounds of the integer the mock model draws. */
  const MinDraw: nat := 1000
  const MaxDraw: nat := 20000

  predicate IsDigit(c: char) {
    '0' <= c <= '9'
  }

  predicate AllDigits(s: string) {
    forall i :: 0 <= i < |s| ==> IsDigit(s[i])
  }

  function DigitChar(d: nat): (c: char)
    requires d < 10
    ensures IsDigit(c)
  {
    ('0' as int + d) as char
  }

  function DigitValue(c: char): (d: nat)
    requires IsDigit(c)
    ensures d < 10
  {
    c as int - '0' as int
  }

  function Pow10(k: nat): (p: nat)
    ensures p >= 1
  {
    if k == 0 then 1 else 10 * Pow10(k - 1)
  }

  /** The decimal rendering of a natural number, as `str` gives it. */
  function Decimal(n: nat): (s: string)
    ensures |s| > 0 && AllDigits(s)
    ensures s[0] == '0' <==> n == 0
    decreases n
  {
    if n < 10 then [DigitChar(n)] else Decimal(n / 10) + [DigitChar(n % 10)]
  }

  /** Reads a string of decimal digits back as a number; the inverse of Decimal. */
  function ParseDecimal(s: string): nat
    requires AllDigits(s)
  {
    if s == [] then 0 else 10 * ParseDecimal(s[..|s| - 1]) + DigitValue(s[|s| - 1])
  }

  lemma {:induction false} DecimalRoundTrip(n: nat)
    ensures ParseDecimal(Decimal(n)) == n
  {
    if n >= 10 {
      var s := Decimal(n);
      assert s[..|s| - 1] == Decimal(n / 10);
      DecimalRoundTrip(n / 10);
    }
  }

  /** A number with k + 1 decimal digits is rendered with exactly k + 1 characters. */
  lemma {:induction false} DecimalLength(n: nat, k: nat)
    requires Pow10(k) <= n < Pow10(k + 1)
    ensures |Decimal(n)| == k + 1
  {
    if k > 0 {
      DecimalLength(n / 10, k - 1);
    }
  }

  /**
    The mock model: the output echoes the input, and its result is the
    decimal rendering of the drawn number, never empty.
   */
  function MockModelPredict(input: string, draw: nat): (o: Output)
    ensures o.input == input
    ensures |o.result| > 0 && AllDigits(o.result) && ParseDecimal(o.result) == draw
  {
    DecimalRoundTrip(draw);
    Output(input, Decimal(draw))
  }

  /** Every number the mock model can draw gives a result of four or five digits. */
  lemma ResultWidth(input: string, draw: nat)
    requires MinDraw <= draw <= MaxDraw
    ensures 4 <= |MockModelPredict(input, draw).result| <= 5
  {
    if draw < 10000 {
      DecimalLength(draw, 3);
    } else {
      DecimalLength(draw, 4);
    }
  }
}
