/**
  The host grammars a literal run is tried against, in `resolve_literals`
  (`src/token/mod.rs`): Rust's `str::parse` for `IntType`, `FloatType` and
  `bool`. Only their shape is modelled: an optional sign and ASCII digits for
  integers, range-checked against 64 bits; a decimal mantissa with an optional
  exponent for floats; the exact words `true` and `false` for booleans.
 */
module Literals {
  import opened Results
  import opened Values

  predicate IsDigit(c: char)
  {
    '0' <= c <= '9'
  }

  predicate AllDigits(s: string)
  {
    forall i :: 0 <= i < |s| ==> IsDigit(s[i])
  }

  function DigitValue(c: char): (d: nat)
    requires IsDigit(c)
    ensures d < 10
  {
    (c as int) - ('0' as int)
  }

  function DigitChar(d: nat): (c: char)
    requires d < 10
    ensures IsDigit(c) && DigitValue(c) == d
  {
    ('0' as int + d) as char
  }

  /** The value of a string of decimal digits, most significant first. */
  function DigitsValue(s: string): (n: nat)
    requires AllDigits(s)
    decreases |s|
  {
    if s == [] then 0 else DigitsValue(s[..|s| - 1]) * 10 + DigitValue(s[|s| - 1])
  }

  /** The shortest decimal spelling of a natural number. */
  function DecimalString(n: nat): (s: string)
    ensures |s| > 0 && AllDigits(s)
    decreases n
  {
    if n < 10 then [DigitChar(n)] else DecimalString(n / 10) + [DigitChar(n % 10)]
  }

  /** A leading `+` or `-` removed, if there is one. */
  function StripSign(s: string): (t: string)
    ensures |t| <= |s|
  {
    if |s| > 0 && (s[0] == '+' || s[0] == '-') then s[1..] else s
  }

  /** Rust's `i64::from_str`: an optional sign, one or more ASCII digits, and a value that fits 64 bits. */
  function ParseInt(s: string): (r: Option<int>)
    ensures r.Some? ==> |StripSign(s)| > 0 && AllDigits(StripSign(s))
    ensures r.Some? ==> IntMin <= r.value <= IntMax
  {
    var digits := StripSign(s);
    if digits == [] || !AllDigits(digits) then None
    else
      var magnitude: int := DigitsValue(digits);
      var v := if |s| > 0 && s[0] == '-' then -magnitude else magnitude;
      if IntMin <= v <= IntMax then Some(v) else None
  }

  /** Index of the first character of `s` in `cs`, or `|s|` when there is none. */
  function FindFirst(s: string, cs: set<char>): (k: nat)
    ensures k <= |s|
    ensures k < |s| ==> s[k] in cs
    ensures forall j :: 0 <= j < k ==> s[j] !in cs
  {
    if s == [] then 0 else if s[0] in cs then 0 else 1 + FindFirst(s[1..], cs)
  }

  /** Digits, with at most one decimal point, and at least one digit. */
  predicate IsMantissa(m: string)
  {
    var k := FindFirst(m, {'.'});
    var fraction := if k < |m| then m[k + 1..] else [];
    AllDigits(m[..k]) && AllDigits(fraction) && k + |fraction| > 0
  }

  /** An optional sign followed by one or more digits. */
  predicate IsExponent(e: string)
  {
    var digits := StripSign(e);
    |digits| > 0 && AllDigits(digits)
  }

  /** The decimal float grammar: sign, mantissa, optional `e`/`E` exponent. */
  predicate IsFloatLiteral(s: string)
  {
    var body := StripSign(s);
    var k := FindFirst(body, {'e', 'E'});
    IsMantissa(body[..k]) && (k == |body| || IsExponent(body[k + 1..]))
  }

  /** Rust's `f64::from_str`, with the float itself kept opaque. */
  function ParseFloat(s: string): (r: Option<FloatValue>)
    ensures r.Some? ==> r.value.spelling == s
    ensures r.Some? ==> exists i :: 0 <= i < |s| && IsDigit(s[i])
  {
    if IsFloatLiteral(s) then
      FloatLiteralHasDigit(s);
      Some(FloatValue(s))
    else None
  }

  /** The spelling `bool`'s `Display` gives. */
  function BoolString(b: bool): (s: string)
  {
    if b then "true" else "false"
  }

  /** Rust's `bool::from_str`: exactly `true` or `false`. */
  function ParseBool(s: string): (r: Option<bool>)
    ensures r.Some? <==> s in {"true", "false"}
    ensures r.Some? ==> BoolString(r.value) == s
  {
    if s == "true" then Some(true) else if s == "false" then Some(false) else None
  }

  /** Booleans are read back from their spelling. */
  lemma ParseBoolRoundTrip(b: bool)
    ensures ParseBool(BoolString(b)) == Some(b)
  {
  }

  /** A float literal holds at least one digit, in its mantissa. */
  lemma FloatLiteralHasDigit(s: string)
    requires IsFloatLiteral(s)
    ensures exists i :: 0 <= i < |s| && IsDigit(s[i])
  {
    var body := StripSign(s);
    var off := |s| - |body|;
    assert forall j :: 0 <= j < |body| ==> body[j] == s[off + j];
    var k := FindFirst(body, {'e', 'E'});
    var m := body[..k];
    var d := FindFirst(m, {'.'});
    if d > 0 {
      assert IsDigit(m[..d][0]);
      assert IsDigit(s[off]);
    } else {
      var fraction := if d < |m| then m[d + 1..] else [];
      assert |fraction| > 0 && d < |m|;
      assert IsDigit(fraction[0]);
      assert fraction[0] == s[off + d + 1];
    }
  }

  lemma {:induction false} DecimalStringValue(n: nat)
    ensures DigitsValue(DecimalString(n)) == n
    decreases n
  {
    var s := DecimalString(n);
    if n >= 10 {
      DecimalStringValue(n / 10);
      assert s[..|s| - 1] == DecimalString(n / 10);
    }
  }

  /** Integer parsing reads back every in-range non-negative number from its decimal spelling. */
  lemma ParseIntRoundTrip(n: nat)
    requires n <= IntMax
    ensures ParseInt(DecimalString(n)) == Some(n)
  {
    DecimalStringValue(n);
  }

  /** ... and every in-range negative number from its spelling after a minus sign. */
  lemma ParseIntNegativeRoundTrip(n: nat)
    requires 0 < n <= -IntMin
    ensures ParseInt("-" + DecimalString(n)) == Some(-(n as int))
  {
    DecimalStringValue(n);
    assert StripSign("-" + DecimalString(n)) == DecimalString(n);
  }

  /** Unsigned digit strings parse as integers exactly when their value fits 64 bits. */
  lemma ParseIntDigits(s: string)
    requires |s| > 0 && AllDigits(s)
    ensures DigitsValue(s) <= IntMax ==> ParseInt(s) == Some(DigitsValue(s))
    ensures DigitsValue(s) > IntMax ==> ParseInt(s) == None
  {
    assert StripSign(s) == s;
  }

  /** Whatever parses as an integer is an optional sign followed by digits. */
  lemma ParseIntShape(s: string)
    requires ParseInt(s).Some?
    ensures |StripSign(s)| > 0 && AllDigits(StripSign(s))
  {
  }

  /** Every non-empty digit string is also a float literal, so an integer too wide for 64 bits still parses as a float. */
  lemma DigitsParseAsFloat(s: string)
    requires |s| > 0 && AllDigits(s)
    ensures ParseFloat(s) == Some(FloatValue(s))
  {
    assert StripSign(s) == s;
    var k := FindFirst(s, {'e', 'E'});
    assert k == |s|;
    assert s[..k] == s;
    var j := FindFirst(s, {'.'});
    assert j == |s|;
    assert s[..j] == s;
  }

  /** Every integer literal is also a float literal: the float grammar accepts a signed digit string. */
  lemma IntLiteralIsFloatLiteral(s: string)
    requires ParseInt(s).Some?
    ensures IsFloatLiteral(s)
  {
    var body := StripSign(s);
    var k := FindFirst(body, {'e', 'E'});
    assert k == |body|;
    assert body[..k] == body;
    var j := FindFirst(body, {'.'});
    assert j == |body|;
    assert body[..j] == body;
  }

  /** Digits, a decimal point and digits, with a digit on at least one side, form a float literal. */
  lemma PointFloatLiteral(a: string, b: string)
    requires AllDigits(a) && AllDigits(b) && |a| + |b| > 0
    ensures ParseFloat(a + "." + b) == Some(FloatValue(a + "." + b))
  {
    var s := a + "." + b;
    assert s[|a|] == '.';
    assert forall i :: 0 <= i < |a| ==> s[i] == a[i];
    assert forall i :: 0 <= i < |b| ==> s[|a| + 1 + i] == b[i];
    assert StripSign(s) == s;
    var k := FindFirst(s, {'e', 'E'});
    assert k == |s|;
    assert s[..k] == s;
    var d := FindFirst(s, {'.'});
    assert d == |a|;
    assert s[..d] == a;
    assert s[d + 1..] == b;
  }

  /** A run that starts with a letter-like character is neither an integer nor a float. */
  lemma NonNumericStart(s: string)
    requires |s| > 0 && !IsDigit(s[0]) && s[0] !in {'+', '-', '.'}
    ensures ParseInt(s) == None
    ensures ParseFloat(s) == None
  {
    assert StripSign(s) == s;
    var k := FindFirst(s, {'e', 'E'});
    var m := s[..k];
    if k > 0 {
      assert m[0] == s[0];
      var j := FindFirst(m, {'.'});
      assert j > 0 ==> !AllDigits(m[..j]) by {
        if j > 0 {
          assert m[..j][0] == s[0];
        }
      }
    }
  }
}
