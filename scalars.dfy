/**
 * Spreadsheet cell values as the custom functions receive them (string, number,
 * boolean, or `undefined` when a row is shorter than the column read), and
 * JavaScript's `String(...)` coercion on them.
 */
module Scalars {

  /** A cell of an input table. Numbers are integers in this model. */
  datatype Scalar = Str(s: string) | Num(n: int) | Bool(b: bool) | Missing

  type Row = seq<Scalar>

  /** A table: row 0 is the header, the remaining rows are data. */
  type Table = seq<Row>

  /** `row[i]` in JavaScript: `undefined` past the end of the row. */
  function Get(row: Row, i: nat): (v: Scalar)
    ensures i < |row| ==> v == row[i]
    ensures i >= |row| ==> v == Missing
  {
    if i < |row| then row[i] else Missing
  }

  function DigitChar(d: nat): (c: char)
    requires d < 10
    ensures '0' <= c <= '9'
  {
    "0123456789"[d]
  }

  /** Decimal notation of a natural number, without leading zeros. */
  function NatToString(n: nat): (r: string)
    ensures |r| >= 1
    ensures forall i :: 0 <= i < |r| ==> '0' <= r[i] <= '9'
    ensures |r| > 1 ==> r[0] != '0'
    decreases n
  {
    if n < 10 then [DigitChar(n)] else NatToString(n / 10) + [DigitChar(n % 10)]
  }

  /** `String(n)` for an integer: a minus sign for negative numbers, then the digits. */
  function IntToString(n: int): string
  {
    if n < 0 then "-" + NatToString(-n) else NatToString(n)
  }

  /** `String(v)`: the text JavaScript's string coercion produces. */
  function ToString(v: Scalar): string
  {
    match v
    case Str(s) => s
    case Num(n) => IntToString(n)
    case Bool(b) => if b then "true" else "false"
    case Missing => "undefined"
  }

  lemma DigitCharInjective(a: nat, b: nat)
    requires a < 10 && b < 10 && DigitChar(a) == DigitChar(b)
    ensures a == b
  {
  }

  /** Distinct natural numbers have distinct decimal notations. */
  lemma {:induction false} NatToStringInjective(a: nat, b: nat)
    requires NatToString(a) == NatToString(b)
    ensures a == b
    decreases a
  {
    var s := NatToString(a);
    if a < 10 && b < 10 {
      DigitCharInjective(a, b);
    } else if a >= 10 && b >= 10 {
      assert s[|s| - 1] == DigitChar(a % 10) == DigitChar(b % 10);
      DigitCharInjective(a % 10, b % 10);
      assert s[..|s| - 1] == NatToString(a / 10) == NatToString(b / 10);
      NatToStringInjective(a / 10, b / 10);
    }
  }

  /**
   * Two numbers coerce to the same string only when they are equal, so numeric
   * issue numbers never collide as dictionary keys.
   */
  lemma NumToStringInjective(a: int, b: int)
    requires ToString(Num(a)) == ToString(Num(b))
    ensures a == b
  {
    IntToStringInjective(a, b);
  }

  lemma IntToStringInjective(a: int, b: int)
    requires IntToString(a) == IntToString(b)
    ensures a == b
  {
    if a < 0 && b < 0 {
      NegativesInjective(a, b);
    } else if a < 0 {
      SignsDiffer(a, b);
    } else if b < 0 {
      SignsDiffer(b, a);
    } else {
      NatToStringInjective(a, b);
    }
  }

  lemma NegativesInjective(a: int, b: int)
    requires a < 0 && b < 0 && IntToString(a) == IntToString(b)
    ensures a == b
  {
    NegativeToString(a);
    NegativeToString(b);
    NatToStringInjective(-a, -b);
  }

  /** A negative number's text starts with `-`, a non-negative one's with a digit. */
  lemma SignsDiffer(a: int, b: int)
    requires a < 0 <= b
    ensures IntToString(a) != IntToString(b)
  {
    NegativeToString(a);
    assert '0' <= NatToString(b)[0] <= '9';
  }

  /** A negative number's text is a minus sign and then its magnitude's digits. */
  lemma NegativeToString(a: int)
    requires a < 0
    ensures IntToString(a)[0] == '-' && IntToString(a)[1..] == NatToString(-a)
  {
    SignPrefix(NatToString(-a));
  }

  lemma SignPrefix(d: string)
    ensures ("-" + d)[0] == '-' && ("-" + d)[1..] == d
  {
  }

  /** A numeric cell and a text cell holding its decimal notation give the same key. */
  lemma NumMatchesItsText()
    ensures ToString(Num(123)) == ToString(Str("123"))
    ensures ToString(Num(-7)) == "-7"
  {
  }
}
