/** Decimal text of an integer, as `Number.prototype.toString()` writes it for
    the age that the edit form is filled with, and the value such text denotes. */
module Decimal {
  import opened Records

  predicate IsDigit(c: char)
  {
    '0' <= c <= '9'
  }

  /** A non-empty run of decimal digits. */
  predicate IsNumeral(s: string)
  {
    |s| > 0 && forall i :: 0 <= i < |s| ==> IsDigit(s[i])
  }

  /** The character of a single digit. */
  function DigitChar(d: nat): (c: char)
    requires d < 10
    ensures IsDigit(c) && c as int - '0' as int == d
  {
    ('0' as int + d) as char
  }

  /** The value a run of decimal digits denotes, most significant first. */
  function NumeralValue(s: string): int
    requires forall i :: 0 <= i < |s| ==> IsDigit(s[i])
  {
    if s == [] then 0
    else 10 * NumeralValue(s[..|s| - 1]) + (s[|s| - 1] as int - '0' as int)
  }

  /** The value denoted by an optionally negated numeral; `None` for any other text. */
  function NumberValue(s: string): Option<int>
  {
    if |s| > 0 && s[0] == '-' && IsNumeral(s[1..]) then Some(-NumeralValue(s[1..]))
    else if IsNumeral(s) then Some(NumeralValue(s))
    else None
  }

  /** Digits of a natural number without leading zeros. */
  function ShowNat(n: nat): (s: string)
    ensures IsNumeral(s)
    ensures s[0] == '0' ==> s == "0"
  {
    if n < 10 then [DigitChar(n)] else ShowNat(n / 10) + [DigitChar(n % 10)]
  }

  /** `n.toString()` for an integer `n`: a minus sign for negatives, then the digits. */
  function ShowInt(n: int): (s: string)
    ensures |s| > 0
  {
    if n < 0 then "-" + ShowNat(-n) else ShowNat(n)
  }

  /** The digits `ShowNat` writes denote the number they were written from. */
  lemma {:induction false} ShowNatValue(n: nat)
    ensures NumeralValue(ShowNat(n)) == n
  {
    var s := ShowNat(n);
    if n >= 10 {
      ShowNatValue(n / 10);
      assert s[..|s| - 1] == ShowNat(n / 10);
    }
  }

  /** Reading back the text `ShowInt` writes gives the integer it was written from. */
  lemma ShowIntValue(n: int)
    ensures NumberValue(ShowInt(n)) == Some(n)
  {
    var s := ShowInt(n);
    if n < 0 {
      assert s[1..] == ShowNat(-n);
      ShowNatValue(-n);
    } else {
      ShowNatValue(n);
      assert IsDigit(s[0]);
    }
  }

  /** Different integers are written as different text. */
  lemma ShowIntInjective(m: int, n: int)
    requires ShowInt(m) == ShowInt(n)
    ensures m == n
  {
    ShowIntValue(m);
    ShowIntValue(n);
  }
}
