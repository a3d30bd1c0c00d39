/** The few JavaScript value operations the UI handlers rely on: `parseFloat`,
    the `x || default` idiom on numbers, `trim`, `startsWith`, `padStart` and the
    dimension-input pattern `^[0-9]*\.?[0-9]*$`. */
module JsValues {
  import opened Digits

  /** A JavaScript number: a finite value or NaN. */
  datatype Num = Finite(v: real) | NaN

  /** `n || d` on a number: NaN and zero are falsy and give `d`. */
  function OrDefault(n: Num, d: real): real {
    if n.NaN? || n.v == 0.0 then d else n.v
  }

  /** `n > limit`, which is false whenever `n` is NaN. */
  predicate Exceeds(n: Num, limit: real) {
    n.Finite? && n.v > limit
  }

  predicate IsDecimalDigit(c: char) {
    IsDigit(c, 10)
  }

  /** The longest prefix of `s` made of decimal digits. */
  function DigitPrefix(s: string): (p: string)
    ensures |p| <= |s| && p == s[..|p|] && AllDigits(p, 10)
    ensures |p| < |s| ==> !IsDecimalDigit(s[|p|])
  {
    if s == [] || !IsDecimalDigit(s[0]) then [] else [s[0]] + DigitPrefix(s[1..])
  }

  /** The value of the decimal fraction `0.fp`. */
  function FractionValue(fp: string): (r: real)
    requires AllDigits(fp, 10)
    ensures 0.0 <= r < 1.0
  {
    if fp == [] then 0.0 else (DigitVal(fp[0]) as real + FractionValue(fp[1..])) / 10.0
  }

  /** The value of `ip.fp` in decimal notation. */
  function DecimalValue(ip: string, fp: string): (r: real)
    requires AllDigits(ip, 10) && AllDigits(fp, 10)
    ensures r >= 0.0
  {
    DigitsToNat(ip, 10) as real + FractionValue(fp)
  }

  /** Where `parseFloat` is in its left-to-right reading: before the number
      (white space and a sign may come), after the sign, in the integer
      digits, or after the point. */
  datatype ScanPhase = Lead | Signed | Whole | Fraction

  /** Reads the rest `s` of the text in `phase`, `neg` telling whether a minus
      sign was read and `ip`, `fp` holding the integer and fraction digits read
      so far; stops at the first character that cannot extend the number. */
  function Scan(s: string, phase: ScanPhase, neg: bool, ip: string, fp: string): (r: Num)
    requires AllDigits(ip, 10) && AllDigits(fp, 10)
    decreases |s|
  {
    if s != [] && phase == Lead && IsJsSpace(s[0]) then Scan(s[1..], Lead, neg, ip, fp)
    else if s != [] && phase == Lead && (s[0] == '-' || s[0] == '+') then Scan(s[1..], Signed, s[0] == '-', ip, fp)
    else if s != [] && phase != Fraction && IsDecimalDigit(s[0]) then Scan(s[1..], Whole, neg, ip + [s[0]], fp)
    else if s != [] && phase != Fraction && s[0] == '.' then Scan(s[1..], Fraction, neg, ip, fp)
    else if s != [] && phase == Fraction && IsDecimalDigit(s[0]) then Scan(s[1..], Fraction, neg, ip, fp + [s[0]])
    else if |ip| + |fp| == 0 then NaN
    else if neg then Finite(-DecimalValue(ip, fp))
    else Finite(DecimalValue(ip, fp))
  }

  /** `parseFloat(s)`: leading white space is skipped, then the longest prefix
      made of an optional sign, digits, an optional point and digits is read;
      a prefix without any digit gives NaN. */
  function ParseFloat(s: string): Num {
    Scan(s, Lead, false, [], [])
  }

  /** Once past the lead, only digits are added: the result is finite as soon
      as one digit has been read. */
  lemma {:induction false} ScanKeepsDigits(s: string, phase: ScanPhase, neg: bool, ip: string, fp: string)
    requires AllDigits(ip, 10) && AllDigits(fp, 10)
    requires phase != Lead && |ip| + |fp| > 0
    ensures Scan(s, phase, neg, ip, fp).Finite?
    decreases |s|
  {
    if s != [] && phase != Fraction && IsDecimalDigit(s[0]) {
      ScanKeepsDigits(s[1..], Whole, neg, ip + [s[0]], fp);
    } else if s != [] && phase != Fraction && s[0] == '.' {
      ScanKeepsDigits(s[1..], Fraction, neg, ip, fp);
    } else if s != [] && phase == Fraction && IsDecimalDigit(s[0]) {
      ScanKeepsDigits(s[1..], Fraction, neg, ip, fp + [s[0]]);
    }
  }

  /** Once past the lead without a minus sign, the result is not negative. */
  lemma {:induction false} ScanNonNegative(s: string, phase: ScanPhase, ip: string, fp: string)
    requires AllDigits(ip, 10) && AllDigits(fp, 10)
    requires phase != Lead
    ensures Scan(s, phase, false, ip, fp).Finite? ==> Scan(s, phase, false, ip, fp).v >= 0.0
    decreases |s|
  {
    if s != [] && phase != Fraction && IsDecimalDigit(s[0]) {
      ScanNonNegative(s[1..], Whole, ip + [s[0]], fp);
    } else if s != [] && phase != Fraction && s[0] == '.' {
      ScanNonNegative(s[1..], Fraction, ip, fp);
    } else if s != [] && phase == Fraction && IsDecimalDigit(s[0]) {
      ScanNonNegative(s[1..], Fraction, ip, fp + [s[0]]);
    }
  }

  /** Reading integer digits to the end of the text collects all of them. */
  lemma {:induction false} ScanWholeDigits(t: string, neg: bool, ip: string)
    requires AllDigits(t, 10) && AllDigits(ip, 10)
    ensures Scan(t, Whole, neg, ip, []) == Scan([], Whole, neg, ip + t, [])
    decreases |t|
  {
    if t == [] {
      assert ip + t == ip;
    } else {
      assert IsDecimalDigit(t[0]);
      ScanWholeDigits(t[1..], neg, ip + [t[0]]);
      assert (ip + [t[0]]) + t[1..] == ip + t;
    }
  }

  /** A digit string followed by nothing or by a non-digit has itself as digit prefix. */
  lemma {:induction false} DigitPrefixOfDigits(a: string, t: string)
    requires AllDigits(a, 10)
    requires t == [] || !IsDecimalDigit(t[0])
    ensures DigitPrefix(a + t) == a
    decreases |a|
  {
    if a == [] {
      assert a + t == t;
    } else {
      assert (a + t)[0] == a[0] && IsDecimalDigit(a[0]);
      assert (a + t)[1..] == a[1..] + t;
      DigitPrefixOfDigits(a[1..], t);
      assert DigitPrefix(a + t) == [a[0]] + DigitPrefix(a[1..] + t);
      assert a == [a[0]] + a[1..];
    }
  }

  predicate HasDigit(s: string) {
    exists i :: 0 <= i < |s| && IsDecimalDigit(s[i])
  }

  /** A finite result needs a digit, read already or still to come. */
  lemma {:induction false} ScanNeedsDigit(s: string, phase: ScanPhase, neg: bool, ip: string, fp: string)
    requires AllDigits(ip, 10) && AllDigits(fp, 10)
    ensures Scan(s, phase, neg, ip, fp).Finite? ==> |ip| + |fp| > 0 || HasDigit(s)
    decreases |s|
  {
    if s != [] {
      var t := s[1..];
      if HasDigit(t) {
        var i :| 0 <= i < |t| && IsDecimalDigit(t[i]);
        assert s[i + 1] == t[i];
      }
      if phase == Lead && IsJsSpace(s[0]) {
        ScanNeedsDigit(t, Lead, neg, ip, fp);
      } else if phase == Lead && (s[0] == '-' || s[0] == '+') {
        ScanNeedsDigit(t, Signed, s[0] == '-', ip, fp);
      } else if phase != Fraction && IsDecimalDigit(s[0]) {
        assert HasDigit(s) by { assert IsDecimalDigit(s[0]); }
      } else if phase != Fraction && s[0] == '.' {
        ScanNeedsDigit(t, Fraction, neg, ip, fp);
      } else if phase == Fraction && IsDecimalDigit(s[0]) {
        assert HasDigit(s) by { assert IsDecimalDigit(s[0]); }
      }
    }
  }

  /** A text without any decimal digit parses to NaN. */
  lemma ParseFloatNeedsDigit(s: string)
    ensures !HasDigit(s) ==> ParseFloat(s) == NaN
  {
    ScanNeedsDigit(s, Lead, false, [], []);
  }

  /** A non-empty digit string parses to its own value. */
  lemma ParseFloatOfDigits(s: string)
    requires s != [] && AllDigits(s, 10)
    ensures ParseFloat(s) == Finite(DigitsToNat(s, 10) as real)
  {
    assert IsDecimalDigit(s[0]) && !IsJsSpace(s[0]);
    assert [] + [s[0]] == [s[0]];
    assert ParseFloat(s) == Scan(s[1..], Whole, false, [s[0]], []);
    ScanWholeDigits(s[1..], false, [s[0]]);
    assert [s[0]] + s[1..] == s;
    assert FractionValue([]) == 0.0;
  }

  /** `parseFloat` reads back the decimal form of a natural number, with or
      without leading zeros. */
  lemma ParseFloatOfDecimal(k: nat, n: nat)
    ensures ParseFloat(Zeros(k) + NatToDecimal(n)) == Finite(n as real)
  {
    var s := Zeros(k) + NatToDecimal(n);
    LeadingZeros(k, NatToDecimal(n), 10);
    DigitsRoundTrip(n, 10);
    ParseFloatOfDigits(s);
  }

  /** The test `/^[0-9]*\.?[0-9]*$/`: digits, at most one point, digits. */
  predicate MatchesDecimalPattern(s: string) {
    var ip := DigitPrefix(s);
    var rest := s[|ip|..];
    rest == [] || (rest[0] == '.' && AllDigits(rest[1..], 10))
  }

  /** The pattern test agrees with its reading as a regular expression: either
      all digits, or a single point with only digits on both sides. */
  lemma DecimalPatternMeaning(s: string)
    ensures MatchesDecimalPattern(s) <==>
      (AllDigits(s, 10) ||
       exists k :: 0 <= k < |s| && s[k] == '.' && AllDigits(s[..k], 10) && AllDigits(s[k + 1..], 10))
  {
    var ip := DigitPrefix(s);
    if AllDigits(s, 10) {
      DigitPrefixOfDigits(s, []);
      assert s + [] == s;
    }
    if k :| 0 <= k < |s| && s[k] == '.' && AllDigits(s[..k], 10) && AllDigits(s[k + 1..], 10) {
      DigitPrefixOfDigits(s[..k], s[k..]);
      assert s[..k] + s[k..] == s;
      assert s[|ip|..][1..] == s[k + 1..];
    }
    if MatchesDecimalPattern(s) && !AllDigits(s, 10) {
      var k := |ip|;
      assert s[..k] == ip;
      assert s[k + 1..] == s[|ip|..][1..];
    }
  }

  /** A string the pattern accepts that holds a digit parses to a finite,
      non-negative number. */
  lemma PatternParsesNonNegative(s: string)
    requires MatchesDecimalPattern(s) && s != "" && s != "."
    ensures ParseFloat(s).Finite? && ParseFloat(s).v >= 0.0
  {
    var ip := DigitPrefix(s);
    if |ip| == 0 {
      var rest := s[|ip|..];
      assert rest == s && s[0] == '.' && |s| >= 2;
      assert IsDecimalDigit(rest[1..][0]) && !IsJsSpace(s[0]);
      assert ParseFloat(s) == Scan(s[1..], Fraction, false, [], []);
      assert [] + [s[1]] == [s[1]] && s[1..][1..] == s[2..];
      assert ParseFloat(s) == Scan(s[2..], Fraction, false, [], [s[1]]);
      ScanKeepsDigits(s[2..], Fraction, false, [], [s[1]]);
      ScanNonNegative(s[2..], Fraction, [], [s[1]]);
    } else {
      assert IsDecimalDigit(s[0]) && !IsJsSpace(s[0]);
      assert [] + [s[0]] == [s[0]];
      assert ParseFloat(s) == Scan(s[1..], Whole, false, [s[0]], []);
      ScanKeepsDigits(s[1..], Whole, false, [s[0]], []);
      ScanNonNegative(s[1..], Whole, [s[0]], []);
    }
  }

  function StartsWith(s: string, prefix: string): bool {
    |prefix| <= |s| && s[..|prefix|] == prefix
  }

  /** `padStart(width, '0')`: left-pads with zeros, never truncates. */
  function PadStartZeros(s: string, width: nat): (r: string)
    ensures |r| == if |s| >= width then |s| else width
    ensures r == Zeros(|r| - |s|) + s
  {
    if |s| >= width then Zeros(0) + s else Zeros(width - |s|) + s
  }

  /** The characters `String.prototype.trim` removes: white space and line terminators. */
  predicate IsJsSpace(c: char) {
    c == ' ' || c == '\t' || c == '\n' || c == '\U{000B}' || c == '\U{000C}' || c == '\r' ||
    c == '\U{00A0}' || c == '\U{1680}' || ('\U{2000}' <= c <= '\U{200A}') ||
    c == '\U{2028}' || c == '\U{2029}' || c == '\U{202F}' || c == '\U{205F}' ||
    c == '\U{3000}' || c == '\U{FEFF}'
  }

  function TrimStart(s: string): string {
    if s != [] && IsJsSpace(s[0]) then TrimStart(s[1..]) else s
  }

  function TrimEnd(s: string): string {
    if s != [] && IsJsSpace(s[|s| - 1]) then TrimEnd(s[..|s| - 1]) else s
  }

  function Trim(s: string): string {
    TrimEnd(TrimStart(s))
  }

  predicate AllSpace(s: string) {
    forall i :: 0 <= i < |s| ==> IsJsSpace(s[i])
  }

  lemma {:induction false} TrimStartEmpty(s: string)
    ensures TrimStart(s) == [] <==> AllSpace(s)
    ensures TrimStart(s) != [] ==> !IsJsSpace(TrimStart(s)[0])
    decreases |s|
  {
    if s != [] && IsJsSpace(s[0]) {
      TrimStartEmpty(s[1..]);
      assert AllSpace(s) <==> AllSpace(s[1..]) by {
        if AllSpace(s[1..]) {
          forall i | 0 <= i < |s| ensures IsJsSpace(s[i]) {
            if i > 0 { assert s[i] == s[1..][i - 1]; }
          }
        }
      }
    }
  }

  lemma {:induction false} TrimEndEmpty(s: string)
    ensures TrimEnd(s) == [] <==> AllSpace(s)
    decreases |s|
  {
    if s != [] && IsJsSpace(s[|s| - 1]) {
      TrimEndEmpty(s[..|s| - 1]);
      assert AllSpace(s) <==> AllSpace(s[..|s| - 1]) by {
        if AllSpace(s[..|s| - 1]) {
          forall i | 0 <= i < |s| ensures IsJsSpace(s[i]) {
            if i < |s| - 1 { assert s[i] == s[..|s| - 1][i]; }
          }
        }
      }
    }
  }

  /** `TrimStart` drops a prefix made only of white space. */
  lemma {:induction false} TrimStartSuffix(s: string)
    ensures |TrimStart(s)| <= |s|
    ensures TrimStart(s) == s[|s| - |TrimStart(s)|..]
    ensures AllSpace(s[..|s| - |TrimStart(s)|])
    decreases |s|
  {
    if s != [] && IsJsSpace(s[0]) {
      var t := s[1..];
      var r := TrimStart(t);
      assert TrimStart(s) == r;
      TrimStartSuffix(t);
      var k := |s| - |r|;
      assert s[k..] == t[k - 1..];
      var lead, rest := s[..k], t[..k - 1];
      assert AllSpace(rest);
      forall i | 0 <= i < k ensures IsJsSpace(lead[i]) {
        if i == 0 {
          assert lead[i] == s[0];
        } else {
          assert lead[i] == rest[i - 1];
        }
      }
    } else {
      assert s[..0] == [];
    }
  }

  /** `TrimEnd` drops a suffix made only of white space. */
  lemma {:induction false} TrimEndPrefix(s: string)
    ensures |TrimEnd(s)| <= |s|
    ensures TrimEnd(s) == s[..|TrimEnd(s)|]
    ensures AllSpace(s[|TrimEnd(s)|..])
    ensures TrimEnd(s) != [] ==> !IsJsSpace(TrimEnd(s)[|TrimEnd(s)| - 1])
    decreases |s|
  {
    if s != [] && IsJsSpace(s[|s| - 1]) {
      var u := s[..|s| - 1];
      var r := TrimEnd(u);
      TrimEndPrefix(u);
      assert s[..|r|] == u[..|r|];
      forall i | |r| <= i < |s| ensures IsJsSpace(s[i]) {
        if i < |s| - 1 { assert s[i] == u[|r|..][i - |r|]; }
      }
    } else {
      assert s[|s|..] == [];
    }
  }

  /** `trim()` keeps a contiguous piece of the text that neither starts nor
      ends with white space, and drops only white space around it. */
  lemma TrimMeaning(s: string)
    ensures exists i :: 0 <= i && i + |Trim(s)| <= |s| && Trim(s) == s[i..i + |Trim(s)|]
                        && AllSpace(s[..i]) && AllSpace(s[i + |Trim(s)|..])
    ensures Trim(s) != [] ==> !IsJsSpace(Trim(s)[0]) && !IsJsSpace(Trim(s)[|Trim(s)| - 1])
  {
    var t := TrimStart(s);
    var r := Trim(s);
    var i := |s| - |t|;
    TrimStartSuffix(s);
    TrimStartEmpty(s);
    TrimEndPrefix(t);
    assert r == s[i..i + |r|];
    assert s[i + |r|..] == t[|r|..];
    if r != [] {
      assert r[0] == t[0];
    }
  }

  /** `!s.trim()` holds exactly for strings made only of white space (the empty
      string included). */
  lemma TrimEmptyIffAllSpace(s: string)
    ensures Trim(s) == [] <==> AllSpace(s)
  {
    var t := TrimStart(s);
    TrimStartEmpty(s);
    TrimEndEmpty(t);
  }
}
