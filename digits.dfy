/** Positional notation for natural numbers in bases 2 to 16, with the lower-case
    digits that JavaScript's `Number.prototype.toString(base)` uses. */
module Digits {

  type Base = b: nat | 2 <= b <= 16 witness 10

  /** The digit character for a digit value below 16: '0'..'9', then 'a'..'f'. */
  function DigitChar(d: nat): (c: char)
    requires d < 16
  {
    if d < 10 then (48 + d) as char else (97 + d - 10) as char
  }

  /** The value of a digit character; 16 for a character that is no digit. */
  function DigitVal(c: char): (d: nat)
    ensures d <= 16
  {
    if '0' <= c <= '9' then (c as int - 48) as nat
    else if 'a' <= c <= 'f' then (c as int - 97 + 10) as nat
    else 16
  }

  lemma DigitValOfChar(d: nat)
    requires d < 16
    ensures DigitVal(DigitChar(d)) == d
  {
  }

  predicate IsDigit(c: char, base: Base) {
    DigitVal(c) < base
  }

  predicate AllDigits(s: string, base: Base) {
    forall i :: 0 <= i < |s| ==> IsDigit(s[i], base)
  }

  /** `n.toString(base)`: the shortest digit string, no leading zero. */
  function NatToDigits(n: nat, base: Base): (s: string)
    ensures |s| >= 1 && AllDigits(s, base)
    ensures s[0] == '0' <==> n == 0
    decreases n
  {
    if n < base then DigitValOfChar(n); [DigitChar(n)]
    else
      var q, d := n / base, n % base;
      DivisionShrinks(n, base);
      DigitValOfChar(d);
      NatToDigits(q, base) + [DigitChar(d)]
  }

  lemma DivisionShrinks(n: nat, base: Base)
    requires n >= base
    ensures n / base < n && n % base < base
    ensures (n / base) * base + n % base == n
  {
  }

  /** The value of a digit string (most significant digit first). */
  function DigitsToNat(s: string, base: Base): nat
    requires AllDigits(s, base)
  {
    if s == [] then 0
    else DigitsToNat(s[..|s| - 1], base) * base + DigitVal(s[|s| - 1])
  }

  function NatToDecimal(n: nat): (s: string)
    ensures |s| >= 1 && AllDigits(s, 10)
  {
    NatToDigits(n, 10)
  }

  /** Reading back the digits of `n` gives `n`. */
  lemma {:induction false} DigitsRoundTrip(n: nat, base: Base)
    ensures DigitsToNat(NatToDigits(n, base), base) == n
    decreases n
  {
    var s := NatToDigits(n, base);
    if n < base {
      DigitValOfChar(n);
      assert s[..0] == [];
    } else {
      var q, d := n / base, n % base;
      DivisionShrinks(n, base);
      DigitsRoundTrip(q, base);
      DigitValOfChar(d);
      assert s == NatToDigits(q, base) + [DigitChar(d)];
      assert s[..|s| - 1] == NatToDigits(q, base);
      assert DigitsToNat(s, base) == q * base + d;
    }
  }

  /** Distinct numbers have distinct digit strings. */
  lemma NatToDigitsInjective(m: nat, n: nat, base: Base)
    requires NatToDigits(m, base) == NatToDigits(n, base)
    ensures m == n
  {
    DigitsRoundTrip(m, base);
    DigitsRoundTrip(n, base);
  }

  function Zeros(k: nat): (s: string)
    ensures |s| == k && AllDigits(s, 10)
    ensures forall i :: 0 <= i < k ==> s[i] == '0'
  {
    if k == 0 then [] else ['0'] + Zeros(k - 1)
  }

  /** One leading zero does not change the value of a digit string. */
  lemma {:induction false} LeadingZero(s: string, base: Base)
    requires AllDigits(s, base)
    ensures AllDigits(['0'] + s, base)
    ensures DigitsToNat(['0'] + s, base) == DigitsToNat(s, base)
    decreases |s|
  {
    var t := ['0'] + s;
    if s == [] {
      assert t[..0] == [];
    } else {
      LeadingZero(s[..|s| - 1], base);
      assert t[..|t| - 1] == ['0'] + s[..|s| - 1];
    }
  }

  /** Any number of leading zeros does not change the value of a digit string. */
  lemma {:induction false} LeadingZeros(k: nat, s: string, base: Base)
    requires AllDigits(s, base)
    ensures AllDigits(Zeros(k) + s, base)
    ensures DigitsToNat(Zeros(k) + s, base) == DigitsToNat(s, base)
  {
    if k > 0 {
      LeadingZeros(k - 1, s, base);
      LeadingZero(Zeros(k - 1) + s, base);
      assert Zeros(k) == ['0'] + Zeros(k - 1);
      assert Zeros(k) + s == ['0'] + (Zeros(k - 1) + s);
    } else {
      assert Zeros(k) + s == s;
    }
  }
}
