/**
 * Text handling the cleaner relies on: the first run of decimal digits that
 * `str.extract(r'(\d+)')` finds, removal of every occurrence of a character
 * (`str.replace('%', '')`), the decimal syntax `pd.to_numeric` accepts, and
 * the code-point order in which Python compares strings.
 */
module Text {
  import opened Wrappers

  predicate IsDigit(c: char) { '0' <= c <= '9' }

  predicate AllDigits(s: string) { forall i :: 0 <= i < |s| ==> IsDigit(s[i]) }

  predicate NoDigit(s: string) { forall i :: 0 <= i < |s| ==> !IsDigit(s[i]) }

  function DigitValue(c: char): nat
    requires IsDigit(c)
  {
    c as int - '0' as int
  }

  function DigitChar(d: nat): (c: char)
    requires d < 10
    ensures IsDigit(c) && DigitValue(c) == d
  {
    ('0' as int + d) as char
  }

  function Pow10(k: nat): (p: nat)
    ensures 0 < p
  {
    if k == 0 then 1 else 10 * Pow10(k - 1)
  }

  /** The number a string of decimal digits denotes, most significant digit first. */
  function DigitsValue(s: string): nat
    requires AllDigits(s)
  {
    if |s| == 0 then 0 else 10 * DigitsValue(s[..|s| - 1]) + DigitValue(s[|s| - 1])
  }

  /** The decimal spelling of n without leading zeros, as Python's `str(n)`. */
  function ShowNat(n: nat): (s: string)
    ensures 0 < |s| && AllDigits(s)
    ensures |s| == 1 <==> n < 10
  {
    if n < 10 then [DigitChar(n)] else ShowNat(n / 10) + [DigitChar(n % 10)]
  }

  /** Reading back a spelled number gives the number. */
  lemma {:induction false} ShowNatValue(n: nat)
    ensures DigitsValue(ShowNat(n)) == n
  {
    if n >= 10 {
      ShowNatValue(n / 10);
      var s := ShowNat(n);
      assert s[..|s| - 1] == ShowNat(n / 10);
    }
  }

  /** Four-digit numbers are spelled with exactly four digits. */
  lemma ShowNatFourDigits(n: nat)
    requires 1000 <= n < 10000
    ensures |ShowNat(n)| == 4
  {
    assert ShowNat(n) == ShowNat(n / 10) + [DigitChar(n % 10)];
    assert ShowNat(n / 10) == ShowNat(n / 100) + [DigitChar(n / 10 % 10)];
    assert ShowNat(n / 100) == ShowNat(n / 1000) + [DigitChar(n / 100 % 10)];
  }

  /** Length of the run of digits at the start of s. */
  function DigitRunLength(s: string): (k: nat)
    ensures k <= |s| && AllDigits(s[..k])
    ensures k < |s| ==> !IsDigit(s[k])
  {
    if |s| == 0 || !IsDigit(s[0]) then 0 else 1 + DigitRunLength(s[1..])
  }

  /**
   * The first maximal run of decimal digits in s, read as a number
   * (`str.extract(r'(\d+)')` followed by `pd.to_numeric`); None when s has
   * no digit at all.
   */
  function FirstDigitRun(s: string): (r: Option<nat>)
    ensures r == None <==> NoDigit(s)
  {
    if |s| == 0 then None
    else if IsDigit(s[0]) then Some(DigitsValue(s[..DigitRunLength(s)]))
    else FirstDigitRun(s[1..])
  }

  lemma {:induction false} DigitRunOfDigits(d: string, rest: string)
    requires AllDigits(d)
    requires rest == [] || !IsDigit(rest[0])
    ensures DigitRunLength(d + rest) == |d|
  {
    if |d| > 0 {
      assert (d + rest)[1..] == d[1..] + rest;
      DigitRunOfDigits(d[1..], rest);
    }
  }

  /**
   * Partner of FirstDigitRun: a number written after digit-free text and
   * not followed by another digit is the one that is extracted.
   */
  lemma {:induction false} FirstDigitRunFinds(before: string, n: nat, after: string)
    requires NoDigit(before)
    requires after == [] || !IsDigit(after[0])
    ensures FirstDigitRun(before + ShowNat(n) + after) == Some(n)
  {
    var s := before + ShowNat(n) + after;
    if |before| == 0 {
      assert s == ShowNat(n) + after;
      DigitRunOfDigits(ShowNat(n), after);
      assert s[..|ShowNat(n)|] == ShowNat(n);
      ShowNatValue(n);
    } else {
      assert !IsDigit(s[0]);
      assert s[1..] == before[1..] + ShowNat(n) + after;
      FirstDigitRunFinds(before[1..], n, after);
    }
  }

  /** s with every occurrence of c removed, as `str.replace(c, '')`. */
  function RemoveAll(s: string, c: char): (r: string)
    ensures multiset(r) == multiset(s)[c := 0]
  {
    if |s| == 0 then []
    else
      assert s == [s[0]] + s[1..];
      (if s[0] == c then [] else [s[0]]) + RemoveAll(s[1..], c)
  }

  /** Removing a character from text that does not contain it changes nothing. */
  lemma {:induction false} RemoveAllAbsent(s: string, c: char)
    requires c !in s
    ensures RemoveAll(s, c) == s
  {
    if |s| > 0 {
      assert s[0] != c;
      assert c !in s[1..];
      RemoveAllAbsent(s[1..], c);
      assert s == [s[0]] + s[1..];
    }
  }

  /** Removal works piece by piece: the order of what is kept is unchanged. */
  lemma {:induction false} RemoveAllAppend(a: string, b: string, c: char)
    ensures RemoveAll(a + b, c) == RemoveAll(a, c) + RemoveAll(b, c)
  {
    if |a| > 0 {
      assert (a + b)[0] == a[0];
      assert (a + b)[1..] == a[1..] + b;
      RemoveAllAppend(a[1..], b, c);
    } else {
      assert a + b == b;
    }
  }

  /** The white-space characters a C `isspace` test accepts. */
  predicate IsBlank(c: char)
  {
    c == ' ' || c == '\t' || c == '\n' || c == '\r' || c == '\U{B}' || c == '\U{C}'
  }

  function TrimStart(s: string): (r: string)
    ensures |r| <= |s| && r == s[|s| - |r|..]
    ensures r == [] || !IsBlank(r[0])
  {
    if |s| > 0 && IsBlank(s[0]) then TrimStart(s[1..]) else s
  }

  function TrimEnd(s: string): (r: string)
    ensures |r| <= |s| && r == s[..|r|]
    ensures r == [] || !IsBlank(r[|r| - 1])
  {
    if |s| > 0 && IsBlank(s[|s| - 1]) then TrimEnd(s[..|s| - 1]) else s
  }

  /** The value of the digits after a decimal point: "25" stands for 0.25. */
  function FractionValue(fraction: string): real
    requires AllDigits(fraction)
  {
    DigitsValue(fraction) as real / Pow10(|fraction|) as real
  }

  /** Digits with at most one decimal point and at least one digit. */
  function ParseUnsigned(s: string): Option<real>
  {
    var k := DigitRunLength(s);
    if k == |s| then
      (if k == 0 then None else Some(DigitsValue(s[..k]) as real))
    else if s[k] != '.' then None
    else
      var fraction := s[k + 1..];
      if !AllDigits(fraction) || (k == 0 && |fraction| == 0) then None
      else Some(DigitsValue(s[..k]) as real + FractionValue(fraction))
  }

  /** An optional sign followed by an unsigned numeral. */
  function ParseSignedNumeral(t: string): Option<real>
  {
    if |t| > 0 && (t[0] == '-' || t[0] == '+') then Signed(t[0] == '-', ParseUnsigned(t[1..]))
    else ParseUnsigned(t)
  }

  function Signed(negative: bool, magnitude: Option<real>): Option<real>
  {
    match magnitude
    case None => None
    case Some(v) => Some(if negative then -v else v)
  }

  /**
   * `pd.to_numeric(s, errors='coerce')` on a plain decimal numeral:
   * surrounding blanks, an optional sign, digits and an optional fraction.
   * Anything else is None (the coerced NaN).
   */
  function ParseDecimal(s: string): Option<real>
  {
    ParseSignedNumeral(TrimEnd(TrimStart(s)))
  }

  /** A decimal numeral: a sign, the integer digits and the fraction digits. */
  datatype Decimal = Decimal(negative: bool, whole: nat, fraction: string)

  /** The usual spelling of a decimal numeral, such as "-45.2". */
  function Spell(d: Decimal): string
    requires AllDigits(d.fraction)
  {
    (if d.negative then "-" else "") + SpellMagnitude(d.whole, d.fraction)
  }

  function SpellMagnitude(whole: nat, fraction: string): string
  {
    if |fraction| == 0 then ShowNat(whole) else ShowNat(whole) + "." + fraction
  }

  function ValueOf(d: Decimal): real
    requires AllDigits(d.fraction)
  {
    var magnitude := d.whole as real + FractionValue(d.fraction);
    if d.negative then -magnitude else magnitude
  }

  lemma TrimNoBlanks(s: string)
    requires 0 < |s| && !IsBlank(s[0]) && !IsBlank(s[|s| - 1])
    ensures TrimEnd(TrimStart(s)) == s
  {
  }

  lemma ParseUnsignedWhole(n: nat)
    ensures ParseUnsigned(ShowNat(n)) == Some(n as real)
  {
    var s := ShowNat(n);
    DigitRunOfDigits(s, "");
    assert s + "" == s;
    assert s[..|s|] == s;
    ShowNatValue(n);
  }

  lemma ParseUnsignedPoint(w: string, fraction: string)
    requires AllDigits(w) && AllDigits(fraction) && 0 < |fraction|
    ensures ParseUnsigned(w + "." + fraction)
            == Some(DigitsValue(w) as real + FractionValue(fraction))
  {
    var s := w + "." + fraction;
    assert s == w + ("." + fraction);
    DigitRunOfDigits(w, "." + fraction);
    assert s[..|w|] == w;
    assert s[|w| + 1..] == fraction;
  }

  lemma ParseUnsignedFraction(n: nat, fraction: string)
    requires AllDigits(fraction) && 0 < |fraction|
    ensures ParseUnsigned(ShowNat(n) + "." + fraction)
            == Some(n as real + FractionValue(fraction))
  {
    ParseUnsignedPoint(ShowNat(n), fraction);
    ShowNatValue(n);
  }

  lemma NegativeNumeral(u: string)
    ensures ParseSignedNumeral("-" + u) == Signed(true, ParseUnsigned(u))
  {
    assert ("-" + u)[1..] == u;
  }

  lemma TrimNumeral(u: string, negative: bool)
    requires 0 < |u| && IsDigit(u[0]) && IsDigit(u[|u| - 1])
    ensures var s := (if negative then "-" else "") + u; TrimEnd(TrimStart(s)) == s
  {
    var s := (if negative then "-" else "") + u;
    assert s[|s| - 1] == u[|u| - 1];
    TrimNoBlanks(s);
  }

  lemma ParseSignedOf(u: string, negative: bool)
    requires 0 < |u| && IsDigit(u[0]) && IsDigit(u[|u| - 1])
    ensures ParseDecimal((if negative then "-" else "") + u) == Signed(negative, ParseUnsigned(u))
  {
    TrimNumeral(u, negative);
    if negative {
      NegativeNumeral(u);
    } else {
      assert "" + u == u;
      assert ParseSignedNumeral(u) == ParseUnsigned(u);
    }
  }

  lemma SpelledMagnitude(d: Decimal)
    requires AllDigits(d.fraction)
    ensures var u := SpellMagnitude(d.whole, d.fraction);
            && 0 < |u| && IsDigit(u[0]) && IsDigit(u[|u| - 1])
            && ParseUnsigned(u) == Some(d.whole as real + FractionValue(d.fraction))
  {
    var w := ShowNat(d.whole);
    if |d.fraction| == 0 {
      ParseUnsignedWhole(d.whole);
      assert FractionValue(d.fraction) == 0.0;
    } else {
      ParseUnsignedFraction(d.whole, d.fraction);
      var u := w + "." + d.fraction;
      assert u[|u| - 1] == d.fraction[|d.fraction| - 1];
    }
  }

  lemma SignedChain(parsed: Option<real>, magnitude: Option<real>, m: real, negative: bool, target: real)
    requires parsed == Signed(negative, magnitude) && magnitude == Some(m)
    requires target == if negative then -m else m
    ensures parsed == Some(target)
  {
  }

  /** Partner of ParseDecimal: every spelled decimal numeral reads back as its value. */
  lemma ParseSpelled(d: Decimal)
    requires AllDigits(d.fraction)
    ensures ParseDecimal(Spell(d)) == Some(ValueOf(d))
  {
    var u := SpellMagnitude(d.whole, d.fraction);
    var magnitude := d.whole as real + FractionValue(d.fraction);
    assert ValueOf(d) == if d.negative then -magnitude else magnitude;
    assert 0 < |u| && IsDigit(u[0]) && IsDigit(u[|u| - 1]) && ParseUnsigned(u) == Some(magnitude) by {
      SpelledMagnitude(d);
    }
    assert ParseDecimal(Spell(d)) == Signed(d.negative, ParseUnsigned(u)) by {
      ParseSignedOf(u, d.negative);
    }
    SignedChain(ParseDecimal(Spell(d)), ParseUnsigned(u), magnitude, d.negative, ValueOf(d));
  }

  /** Python's `<` on str: lexicographic order of code points. */
  predicate LexLess(a: string, b: string)
  {
    if |a| == 0 then 0 < |b|
    else if |b| == 0 then false
    else if a[0] != b[0] then a[0] < b[0]
    else LexLess(a[1..], b[1..])
  }

  lemma {:induction false} LexLessIrreflexive(a: string)
    ensures !LexLess(a, a)
  {
    if |a| > 0 {
      LexLessIrreflexive(a[1..]);
    }
  }

  lemma {:induction false} LexLessTransitive(a: string, b: string, c: string)
    requires LexLess(a, b) && LexLess(b, c)
    ensures LexLess(a, c)
  {
    if |a| > 0 && |b| > 0 && |c| > 0 && a[0] == b[0] && b[0] == c[0] {
      LexLessTransitive(a[1..], b[1..], c[1..]);
    }
  }

  /** Any two different strings are ordered one way or the other. */
  lemma {:induction false} LexLessTotal(a: string, b: string)
    ensures a == b || LexLess(a, b) || LexLess(b, a)
  {
    if |a| > 0 && |b| > 0 && a[0] == b[0] {
      LexLessTotal(a[1..], b[1..]);
      if a[1..] == b[1..] {
        assert a == [a[0]] + a[1..] && b == [b[0]] + b[1..];
      }
    }
  }

  lemma {:induction false} LexLessAsymmetric(a: string, b: string)
    requires LexLess(a, b)
    ensures !LexLess(b, a)
  {
    if LexLess(b, a) {
      LexLessTransitive(a, b, a);
      LexLessIrreflexive(a);
    }
  }
}
