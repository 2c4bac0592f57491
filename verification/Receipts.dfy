/** The receipts that pump and valve commands leave in one shared log. */
module Receipts {

  datatype ExecutionRecord = ExecutionRecord(commandId: string, target: string, action: string, result: string)

  /** The result of a dispatched command. */
  const APPLIED := "applied"

  /** The result of a stroke: the position it reached, rounded to thousandths, halves to even. */
  function PositionText(position: real): string {
    var n := Thousandths(if position < 0.0 then -position else position);
    "pos=" + (if position < 0.0 then "-" else "") + Digits(n / 1000) + "." + Digits(n / 100 % 10)
        + Digits(n / 10 % 10) + Digits(n % 10)
  }

  function Thousandths(x: real): (n: nat)
    requires x >= 0.0
    ensures -0.5 <= x * 1000.0 - n as real <= 0.5
  {
    var floor := (x * 1000.0).Floor;
    var rest := x * 1000.0 - floor as real;
    if rest > 0.5 || (rest == 0.5 && floor % 2 == 1) then floor + 1 else floor
  }

  /** Decimal digits without leading zeros. */
  function Digits(n: nat): string {
    if n < 10 then ['0' + n as char] else Digits(n / 10) + ['0' + (n % 10) as char]
  }

  /** The number some decimal digits name. */
  function Number(text: string): nat {
    if text == [] then 0
    else 10 * Number(text[..|text| - 1]) + DigitValue(text[|text| - 1])
  }

  function DigitValue(c: char): nat {
    if '0' <= c <= '9' then (c - '0') as nat else 0
  }

  predicate AllDigits(text: string) {
    forall i :: 0 <= i < |text| ==> '0' <= text[i] <= '9'
  }

  lemma {:induction false} DigitsRead(n: nat)
    ensures var text := Digits(n);
            && AllDigits(text) && Number(text) == n && text != []
            && (n < 10 ==> |text| == 1) && (|text| > 1 ==> text[0] != '0')
  {
    if n >= 10 {
      DigitsRead(n / 10);
      var text := Digits(n);
      assert text[..|text| - 1] == Digits(n / 10);
    } else {
      var text := Digits(n);
      assert text[..0] == [];
    }
  }

  /**
   * The text of a position is "pos=", a minus sign exactly for negative ones, a whole number without leading zeros, a
   * point and three digits, which name a value no more than half a thousandth away.
   */
  predicate Reads(text: string, position: real, whole: string, frac: string) {
    && text == "pos=" + (if position < 0.0 then "-" else "") + whole + "." + frac
    && AllDigits(whole) && AllDigits(frac) && |frac| == 3 && whole != [] && (|whole| > 1 ==> whole[0] != '0')
    && var named := (1000 * Number(whole) + Number(frac)) as real;
       -0.5 <= (if position < 0.0 then -position else position) * 1000.0 - named <= 0.5
  }

  lemma {:induction false} PositionTextReads(position: real)
    ensures exists whole, frac :: Reads(PositionText(position), position, whole, frac)
  {
    var n := Thousandths(if position < 0.0 then -position else position);
    var whole, frac := Digits(n / 1000), Digits(n / 100 % 10) + Digits(n / 10 % 10) + Digits(n % 10);
    DigitsRead(n / 1000);
    assert |frac| == 3 && AllDigits(frac) && Number(frac) == n % 1000 by { Fraction(n); }
    Pieces("pos=" + (if position < 0.0 then "-" else "") + whole + ".", Digits(n / 100 % 10), Digits(n / 10 % 10),
           Digits(n % 10));
    assert Reads(PositionText(position), position, whole, frac);
  }

  lemma {:induction false} Pieces(start: string, a: string, b: string, c: string)
    ensures start + a + b + c == start + (a + b + c)
  {
  }

  lemma {:induction false} LastDigit(n: nat, k: nat)
    requires k == 10 || k == 100
    ensures n % (10 * k) == 10 * (n / 10 % k) + n % 10
  {
  }

  lemma {:induction false} LastDigits(n: nat)
    ensures n % 1000 == 100 * (n / 100 % 10) + 10 * (n / 10 % 10) + n % 10
  {
    var q := n / 10;
    assert n / 100 == q / 10;
    LastDigit(n, 100);
    LastDigit(q, 10);
  }

  lemma {:induction false} Fraction(n: nat)
    ensures var frac := Digits(n / 100 % 10) + Digits(n / 10 % 10) + Digits(n % 10);
            |frac| == 3 && AllDigits(frac) && Number(frac) == n % 1000
  {
    LastDigits(n);
    FractionOf(n / 100 % 10, n / 10 % 10, n % 10);
  }

  lemma {:induction false} FractionOf(a: nat, b: nat, c: nat)
    requires a < 10 && b < 10 && c < 10
    ensures var frac := Digits(a) + Digits(b) + Digits(c);
            |frac| == 3 && AllDigits(frac) && Number(frac) == 100 * a + 10 * b + c
  {
    DigitsRead(a);
    DigitsRead(b);
    DigitsRead(c);
    ThreeDigits(Digits(a), Digits(b), Digits(c));
  }

  lemma {:induction false} ThreeDigits(a: string, b: string, c: string)
    requires |a| == |b| == |c| == 1
    ensures Number(a + b + c) == 100 * Number(a) + 10 * Number(b) + Number(c)
  {
    var all := a + b + c;
    assert all[..2] == a + b && (a + b)[..1] == a && all[2] == c[0] && (a + b)[1] == b[0];
    assert b[..0] == [] && c[..0] == [] && a[..0] == [];
  }

  /** A reader of the log tells strokes from dispatched commands by their result. */
  lemma {:induction false} StrokeIsNotDispatched(position: real)
    ensures PositionText(position) != APPLIED
  {
    assert PositionText(position)[0] == 'p' && APPLIED[0] == 'a';
  }
}
