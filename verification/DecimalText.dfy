/** Decimal digits: `Number/BigInt.prototype.toString` and its inverse. */
module DecimalText {

  predicate IsDigit(c: char) {
    '0' <= c <= '9'
  }

  predicate AllDigits(s: string) {
    forall i :: 0 <= i < |s| ==> IsDigit(s[i])
  }

  function DigitChar(d: nat): (c: char)
    requires d < 10
    ensures IsDigit(c) && c as int - '0' as int == d
  {
    ('0' as int + d) as char
  }

  function DigitValue(c: char): nat
    requires IsDigit(c)
  {
    c as int - '0' as int
  }

  /** The digits of n, no leading zero. */
  function ToText(n: nat): (s: string)
    ensures s != [] && AllDigits(s)
    ensures n > 0 ==> s[0] != '0'
  {
    if n < 10 then [DigitChar(n)] else ToText(n / 10) + [DigitChar(n % 10)]
  }

  /** The number a string of digits writes. */
  function ToNat(s: string): nat
    requires AllDigits(s)
  {
    if s == [] then 0 else 10 * ToNat(s[..|s| - 1]) + DigitValue(s[|s| - 1])
  }

  lemma {:induction false} TextRoundTrip(n: nat)
    ensures ToNat(ToText(n)) == n
  {
    var s := ToText(n);
    if n >= 10 {
      TextRoundTrip(n / 10);
      assert s[..|s| - 1] == ToText(n / 10);
    } else {
      assert s[..|s| - 1] == [];
    }
  }
}
