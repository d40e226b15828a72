/**
 * Decimal numerals as Python writes them: `str(n)` for a natural number and the zero-padded
 * `f"{n:02d}"` of the plate file names.
 */
module Decimal {

  function Pow10(d: nat): (p: nat)
    ensures p >= 1
  {
    if d == 0 then 1 else 10 * Pow10(d - 1)
  }

  predicate IsDigit(c: char)
  {
    '0' <= c <= '9'
  }

  predicate AllDigits(s: string)
  {
    forall i :: 0 <= i < |s| ==> IsDigit(s[i])
  }

  function DigitChar(d: nat): (c: char)
    requires d < 10
    ensures IsDigit(c) && c as int - '0' as int == d
  {
    ('0' as int + d) as char
  }

  /** `str(n)`: the shortest decimal numeral, without leading zeros. */
  function NatToString(n: nat): (s: string)
    ensures |s| >= 1 && AllDigits(s)
    ensures |s| > 1 ==> s[0] != '0'
  {
    if n < 10 then [DigitChar(n)] else NatToString(n / 10) + [DigitChar(n % 10)]
  }

  /** The value of a string of decimal digits, leading zeros allowed. */
  function DigitsValue(s: string): nat
    requires AllDigits(s)
  {
    if s == [] then 0 else 10 * DigitsValue(s[..|s| - 1]) + (s[|s| - 1] as int - '0' as int)
  }

  /** Reading `str(n)` back gives `n`. */
  lemma {:induction false} NatToStringRoundTrip(n: nat)
    ensures DigitsValue(NatToString(n)) == n
  {
    if n >= 10 {
      NatToStringRoundTrip(n / 10);
      var s := NatToString(n);
      assert s[..|s| - 1] == NatToString(n / 10);
    }
  }

  /** `str(n)` has `d` digits exactly when `n` lies between `10^(d-1)` (or 0 for one digit) and
      `10^d`. */
  lemma {:induction false} NatToStringLength(n: nat)
    ensures var d := |NatToString(n)|;
      n < Pow10(d) && (d > 1 ==> Pow10(d - 1) <= n)
  {
    if n >= 10 {
      NatToStringLength(n / 10);
    }
  }

  /** `f"{n:02d}"`: at least two digits, padded with a leading zero. */
  function Pad2(n: nat): string
  {
    var s := NatToString(n);
    if |s| < 2 then "0" + s else s
  }

  /** The padded numeral has at least two digits and reads back as `n`; so distinct numbers
      give distinct numerals. */
  lemma Pad2Facts(n: nat)
    ensures AllDigits(Pad2(n)) && |Pad2(n)| >= 2
    ensures |Pad2(n)| == if n < 10 then 2 else |NatToString(n)|
    ensures DigitsValue(Pad2(n)) == n
  {
    var s := NatToString(n);
    NatToStringRoundTrip(n);
    NatToStringLength(n);
    if |s| < 2 {
      var p := "0" + s;
      assert p[..|p| - 1] == "0";
      assert "0"[..0] == [];
    }
  }

  lemma Pad2Injective(m: nat, n: nat)
    ensures Pad2(m) == Pad2(n) <==> m == n
  {
    Pad2Facts(m);
    Pad2Facts(n);
  }
}
