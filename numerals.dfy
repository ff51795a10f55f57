/** Python's `int(text)` and `float(text)` over a restricted decimal grammar:
    optional surrounding whitespace, an optional `+` or `-`, and ASCII digits
    with at most one `.` for floats. A float is kept as an exact fixed-point
    `Decimal`, never as an IEEE double. */
module Numerals {
  import opened Wrappers
  import opened Text

  /** The exact value `units / 10^scale`. */
  datatype Decimal = Decimal(units: int, scale: nat)

  function Pow10(k: nat): (p: nat)
    ensures p >= 1
  {
    if k == 0 then 1 else 10 * Pow10(k - 1)
  }

  predicate IsDigit(c: char) { '0' <= c <= '9' }

  predicate AllDigits(s: string) {
    forall i :: 0 <= i < |s| ==> IsDigit(s[i])
  }

  predicate IsSign(c: char) { c == '+' || c == '-' }

  function DigitValue(c: char): (d: nat)
    requires IsDigit(c)
    ensures d < 10
  {
    c as int - '0' as int
  }

  function DigitChar(d: nat): (c: char)
    requires d < 10
    ensures IsDigit(c) && DigitValue(c) == d
  {
    ('0' as int + d) as char
  }

  /** The number a string of decimal digits denotes, most significant first. */
  function DigitsValue(s: string): nat
    requires AllDigits(s)
    decreases |s|
  {
    if |s| == 0 then 0 else DigitsValue(s[..|s| - 1]) * 10 + DigitValue(s[|s| - 1])
  }

  /** `str(n)` for a natural number: its shortest decimal digits. */
  function FormatNat(n: nat): (s: string)
    ensures |s| >= 1 && AllDigits(s)
    ensures |s| > 1 ==> s[0] != '0'
  {
    if n < 10 then [DigitChar(n)] else FormatNat(n / 10) + [DigitChar(n % 10)]
  }

  /** `str(n)` for any integer. */
  function FormatInt(n: int): (s: string)
    ensures |s| >= 1 && IsDigit(s[|s| - 1])
  {
    if n < 0 then "-" + FormatNat(-n) else FormatNat(n)
  }

  function Zeros(k: nat): (s: string)
    ensures |s| == k && AllDigits(s)
    ensures forall i :: 0 <= i < k ==> s[i] == '0'
  {
    if k == 0 then "" else Zeros(k - 1) + "0"
  }

  /** `s.zfill(width)` for a digit string. */
  function ZeroFill(s: string, width: nat): (r: string)
    requires AllDigits(s)
    ensures AllDigits(r) && |r| >= width && |r| >= |s|
  {
    if |s| >= width then s else Zeros(width - |s|) + s
  }

  /** An integer literal as `int()` accepts it once whitespace is stripped. */
  predicate IsIntLiteral(t: string) {
    || (|t| >= 1 && AllDigits(t))
    || (|t| >= 2 && IsSign(t[0]) && AllDigits(t[1..]))
  }

  /** `int(t)` for text without surrounding whitespace. */
  function ParseIntLiteral(t: string): (r: Option<int>)
    ensures r.Some? <==> IsIntLiteral(t)
  {
    if |t| == 0 then None
    else if IsSign(t[0]) then
      if |t| >= 2 && AllDigits(t[1..]) then
        var magnitude: int := DigitsValue(t[1..]);
        Some(if t[0] == '-' then -magnitude else magnitude)
      else None
    else if AllDigits(t) then Some(DigitsValue(t))
    else None
  }

  /** The information separators U+001C..U+001F. `str.strip()` removes
      them, but `int()` and `float()` do not skip them as whitespace: CPython
      maps only non-ASCII spaces to `' '` before parsing and then skips the
      six ASCII spaces, so a separator anywhere in the text is an error. */
  predicate IsInfoSeparator(c: char) { 0x1C <= c as int <= 0x1F }

  predicate NoInfoSeparator(s: string) {
    forall i :: 0 <= i < |s| ==> !IsInfoSeparator(s[i])
  }

  /** `int(text)`: `None` where Python raises `ValueError`. Whitespace
      around the literal is skipped, information separators are not. The
      value is the one the literal denotes, signs and leading zeros included. */
  function ParseInt(text: string): (r: Option<int>)
    ensures r.Some? <==> NoInfoSeparator(text) && IsIntLiteral(Strip(text))
    ensures r.Some? ==>
      IsFloatLiteral(Strip(text)) && Decimal(r.value, 0) == LiteralValue(Strip(text))
  {
    if NoInfoSeparator(text) then
      var r := ParseIntLiteral(Strip(text));
      assert r.Some? ==> ParseFloatLiteral(Strip(text)) == Some(Decimal(r.value, 0)) by {
        if r.Some? { ParseFloatOfIntLiteralTrimmed(Strip(text), r.value); }
      }
      r
    else None
  }

  /** The characters of `b` other than its first `.`. */
  function WithoutPoint(b: string): string {
    if '.' in b then var k := IndexOf(b, '.'); b[..k] + b[k + 1..] else b
  }

  /** The number of characters after the first `.` of `b`; 0 without one. */
  function FractionLength(b: string): nat {
    if '.' in b then |b| - IndexOf(b, '.') - 1 else 0
  }

  /** An unsigned float literal, character by character: digits and at most
      one `.`, with at least one digit (`5`, `5.`, `.5`, `0.25`). Removing
      the first `.` leaves a nonempty digit string. */
  predicate IsUnsignedFloatLiteral(b: string) {
    |WithoutPoint(b)| >= 1 && AllDigits(WithoutPoint(b))
  }

  /** A float literal as `float()` accepts it once whitespace is stripped:
      an unsigned one, with an optional sign in front. */
  predicate IsFloatLiteral(t: string) {
    || IsUnsignedFloatLiteral(t)
    || (|t| >= 1 && IsSign(t[0]) && IsUnsignedFloatLiteral(t[1..]))
  }

  /** The exact value a float literal denotes: its digits read as one
      number, scaled by the number of fraction digits and signed. */
  function LiteralValue(t: string): (d: Decimal)
    requires IsFloatLiteral(t)
  {
    var signed := |t| >= 1 && IsSign(t[0]);
    var body := if signed then t[1..] else t;
    assert signed ==> !IsUnsignedFloatLiteral(t) by {
      if signed { SignedNotUnsigned(t); }
    }
    var magnitude: int := DigitsValue(WithoutPoint(body));
    Decimal(if signed && t[0] == '-' then -magnitude else magnitude, FractionLength(body))
  }

  /** The unsigned part of a float literal, parsed by splitting at `.`. */
  function ParseUnsignedDecimal(body: string): (r: Option<Decimal>)
    ensures r.Some? ==> r.value.units >= 0
  {
    var parts := Split(body, '.');
    if |parts| == 1 then
      if |body| >= 1 && AllDigits(body) then Some(Decimal(DigitsValue(body), 0)) else None
    else if |parts| == 2 then
      var whole, frac := parts[0], parts[1];
      if |whole| + |frac| >= 1 && AllDigits(whole) && AllDigits(frac) then
        Some(Decimal(DigitsValue(whole + frac), |frac|))
      else None
    else None
  }

  /** `float(t)` for text without surrounding whitespace. */
  function ParseFloatLiteral(t: string): (r: Option<Decimal>)
    ensures r.Some? <==> IsFloatLiteral(t)
    ensures r.Some? ==> r.value == LiteralValue(t)
  {
    if |t| >= 1 && IsSign(t[0]) then
      SignedNotUnsigned(t);
      UnsignedDecimalGrammar(t[1..]);
      match ParseUnsignedDecimal(t[1..])
      case None => None
      case Some(d) => Some(if t[0] == '-' then Decimal(-d.units, d.scale) else d)
    else
      UnsignedDecimalGrammar(t);
      ParseUnsignedDecimal(t)
  }

  /** `float(text)` with exact value: `None` where Python raises `ValueError`
      (within the restricted grammar). Whitespace around the literal is
      skipped, information separators are not. */
  function ParseFloat(text: string): (r: Option<Decimal>)
    ensures r.Some? <==> NoInfoSeparator(text) && IsFloatLiteral(Strip(text))
    ensures r.Some? ==> r.value == LiteralValue(Strip(text))
  {
    if NoInfoSeparator(text) then ParseFloatLiteral(Strip(text)) else None
  }

  /** The unsigned rendering of `magnitude / 10^scale`: at least one whole
      digit and exactly `scale` fraction digits. */
  function UnsignedBody(magnitude: nat, scale: nat): (s: string)
    ensures |s| >= 1 && IsDigit(s[0]) && IsDigit(s[|s| - 1])
  {
    var digits := ZeroFill(FormatNat(magnitude), scale + 1);
    var cut := |digits| - scale;
    if scale == 0 then digits else digits[..cut] + "." + digits[cut..]
  }

  /** The canonical rendering of a `Decimal`, with a `-` for negatives. */
  function FormatDecimal(d: Decimal): (s: string)
  {
    if d.units < 0 then "-" + UnsignedBody(-d.units, d.scale) else UnsignedBody(d.units, d.scale)
  }

  lemma {:induction false} DigitsOfFormatNat(n: nat)
    ensures DigitsValue(FormatNat(n)) == n
  {
    if n >= 10 {
      var s := FormatNat(n);
      assert s[..|s| - 1] == FormatNat(n / 10);
      DigitsOfFormatNat(n / 10);
    }
  }

  lemma {:induction false} DigitsOfZeros(k: nat)
    ensures DigitsValue(Zeros(k)) == 0
  {
    if k > 0 {
      var z := Zeros(k);
      assert z[..k - 1] == Zeros(k - 1);
      assert DigitValue(z[k - 1]) == 0;
      DigitsOfZeros(k - 1);
      assert DigitsValue(z) == DigitsValue(Zeros(k - 1)) * 10 + 0;
    }
  }

  /** Leading zeros do not change the value of a digit string. */
  lemma {:induction false} DigitsLeadingZeros(k: nat, s: string)
    requires AllDigits(s)
    ensures DigitsValue(Zeros(k) + s) == DigitsValue(s)
    decreases |s|
  {
    var z := Zeros(k) + s;
    if |s| == 0 {
      assert z == Zeros(k);
      DigitsOfZeros(k);
    } else {
      assert z[..|z| - 1] == Zeros(k) + s[..|s| - 1];
      DigitsLeadingZeros(k, s[..|s| - 1]);
    }
  }

  lemma {:induction false} ZeroFillValue(s: string, width: nat)
    requires AllDigits(s)
    ensures DigitsValue(ZeroFill(s, width)) == DigitsValue(s)
  {
    if |s| < width {
      DigitsLeadingZeros(width - |s|, s);
    }
  }

  lemma {:induction false} FormatIntTrimmed(n: int)
    ensures Trimmed(FormatInt(n))
  {
    var s := FormatInt(n);
    assert IsDigit(s[|s| - 1]);
    assert s[0] == '-' || IsDigit(s[0]);
  }

  /** `int(str(n)) == n` for every integer. */
  lemma {:induction false} ParseFormatInt(n: int)
    ensures ParseInt(FormatInt(n)) == Some(n)
  {
    var s := FormatInt(n);
    FormatIntTrimmed(n);
    StripTrimmed(s);
    var magnitude: nat := if n < 0 then -n else n;
    DigitsOfFormatNat(magnitude);
    if n < 0 {
      assert s[1..] == FormatNat(magnitude);
    }
    assert ParseIntLiteral(s) == Some(n);
  }

  /** Whitespace around the text does not matter to `int()`, as long as no
      information separator is among it. */
  lemma {:induction false} ParseIntStripped(text: string)
    requires NoInfoSeparator(text)
    ensures ParseInt(Strip(text)) == ParseInt(text)
  {
    StripIdempotent(text);
    StripKeepsNoInfoSeparator(text);
  }

  /** An integer literal is made of digits and a sign only. */
  lemma {:induction false} IntLiteralNoSeparator(t: string)
    requires IsIntLiteral(t)
    ensures NoInfoSeparator(t)
  {
    if !AllDigits(t) {
      forall i | 1 <= i < |t|
        ensures !IsInfoSeparator(t[i])
      {
        assert t[i] == t[1..][i - 1];
      }
    }
  }

  /** `int(text.strip())` accepts exactly the texts that strip to an integer
      literal: stripping has already removed any separator around it. */
  lemma {:induction false} StrippedIntLiteral(text: string)
    ensures ParseInt(Strip(text)).Some? <==> IsIntLiteral(Strip(text))
  {
    StripIdempotent(text);
    if IsIntLiteral(Strip(text)) {
      IntLiteralNoSeparator(Strip(text));
    }
  }

  /** `str.strip()` only removes characters, so it adds no separator. */
  lemma {:induction false} StripKeepsNoInfoSeparator(text: string)
    requires NoInfoSeparator(text)
    ensures NoInfoSeparator(Strip(text))
  {
    var left := StripLeft(text);
    assert left == text[|text| - |left|..];
    assert Strip(text) == StripRight(left) == left[..|StripRight(left)|];
  }

  /** A separator in front of the digits: `int()` rejects the text, but
      `int(text.strip())` accepts it, since `str.strip()` removes it. */
  lemma {:induction false} InfoSeparatorNotSkipped()
    ensures ParseInt([28 as char, '5']) == None
    ensures ParseInt(Strip([28 as char, '5'])) == Some(5)
  {
    var separator, five := [28 as char], FormatInt(5);
    assert five == "5";
    assert !NoInfoSeparator(separator + five) by {
      assert IsInfoSeparator((separator + five)[0]);
    }
    assert AllSpace(separator) && AllSpace("");
    assert separator + five + "" == [28 as char, '5'];
    StripPadded(separator, five, "");
    ParseFormatInt(5);
  }

  lemma {:induction false} FormatDecimalTrimmed(d: Decimal)
    ensures Trimmed(FormatDecimal(d))
  {
  }

  /** A digit string is an unsigned float literal with no fraction digits. */
  lemma {:induction false} ParseUnsignedWhole(t: string)
    requires AllDigits(t) && |t| >= 1
    ensures ParseUnsignedDecimal(t) == Some(Decimal(DigitsValue(t), 0))
  {
    assert '.' !in t;
    SplitNoSep(t, '.');
  }

  /** `whole.frac` denotes the digits of both read as one number, scaled by
      the number of fraction digits. */
  lemma {:induction false} ParseUnsignedPoint(whole: string, frac: string)
    requires AllDigits(whole) && AllDigits(frac) && |whole| + |frac| >= 1
    ensures ParseUnsignedDecimal(whole + "." + frac)
              == Some(Decimal(DigitsValue(whole + frac), |frac|))
  {
    assert '.' !in whole && '.' !in frac;
    assert Join([whole, frac], '.') == whole + "." + frac;
    SplitJoin([whole, frac], '.');
  }

  /** Cutting a digit string in two and parsing it as `whole.frac` gives its
      value with as many fraction digits as follow the cut. */
  lemma {:induction false} ParseUnsignedCut(digits: string, cut: nat)
    requires AllDigits(digits) && 1 <= cut <= |digits|
    ensures ParseUnsignedDecimal(digits[..cut] + "." + digits[cut..])
              == Some(Decimal(DigitsValue(digits), |digits| - cut))
  {
    var whole, frac := digits[..cut], digits[cut..];
    assert AllDigits(whole) && AllDigits(frac);
    assert whole + frac == digits;
    ParseUnsignedPoint(whole, frac);
    assert DigitsValue(whole + frac) == DigitsValue(digits);
  }

  /** The zero-filled digits of a rendering still denote the magnitude. */
  lemma {:induction false} ZeroFilledValue(magnitude: nat, width: nat)
    ensures DigitsValue(ZeroFill(FormatNat(magnitude), width)) == magnitude
  {
    ZeroFillValue(FormatNat(magnitude), width);
    DigitsOfFormatNat(magnitude);
  }

  /** The digits of a rendering, cut before their last `scale` digits,
      parse back to their value with `scale` fraction digits. */
  lemma {:induction false} ParseRenderedDigits(digits: string, scale: nat, body: string)
    requires AllDigits(digits) && |digits| >= scale + 1
    requires var cut := |digits| - scale;
             body == if scale == 0 then digits else digits[..cut] + "." + digits[cut..]
    ensures ParseUnsignedDecimal(body) == Some(Decimal(DigitsValue(digits), scale))
  {
    if scale == 0 {
      ParseUnsignedWhole(digits);
    } else {
      ParseUnsignedCut(digits, |digits| - scale);
    }
  }

  /** The digits a rendering of `magnitude` with `scale` fraction digits
      is cut from: at least `scale + 1` of them, denoting `magnitude`. */
  lemma {:induction false} RenderedDigits(magnitude: nat, scale: nat) returns (digits: string)
    ensures digits == ZeroFill(FormatNat(magnitude), scale + 1)
    ensures AllDigits(digits) && |digits| >= scale + 1 && DigitsValue(digits) == magnitude
  {
    digits := ZeroFill(FormatNat(magnitude), scale + 1);
    ZeroFilledValue(magnitude, scale + 1);
  }

  /** The unsigned part of the canonical rendering parses back. */
  lemma {:induction false} ParseUnsignedFormat(magnitude: nat, scale: nat)
    ensures ParseUnsignedDecimal(UnsignedBody(magnitude, scale)) == Some(Decimal(magnitude, scale))
  {
    var digits := RenderedDigits(magnitude, scale);
    ParseRenderedDigits(digits, scale, UnsignedBody(magnitude, scale));
  }

  /** A sign in front of an unsigned literal negates it or leaves it be. */
  lemma {:induction false} ParseSigned(body: string, m: nat, k: nat)
    requires ParseUnsignedDecimal(body) == Some(Decimal(m, k))
    ensures ParseFloatLiteral("-" + body) == Some(Decimal(-(m as int), k))
    ensures |body| >= 1 && !IsSign(body[0]) ==> ParseFloatLiteral(body) == Some(Decimal(m, k))
  {
    assert ("-" + body)[1..] == body;
  }

  /** The rendered body parses back, with a `-` in front or without. */
  lemma {:induction false} RenderedBodyParses(magnitude: nat, scale: nat)
    ensures ParseFloatLiteral("-" + UnsignedBody(magnitude, scale)) == Some(Decimal(-(magnitude as int), scale))
    ensures ParseFloatLiteral(UnsignedBody(magnitude, scale)) == Some(Decimal(magnitude, scale))
  {
    var body := UnsignedBody(magnitude, scale);
    ParseUnsignedFormat(magnitude, scale);
    ParseSigned(body, magnitude, scale);
    assert !IsSign(body[0]);
  }

  lemma {:induction false} ParseFormatDecimalTrimmed(d: Decimal)
    ensures ParseFloatLiteral(FormatDecimal(d)) == Some(d)
  {
    if d.units < 0 {
      var magnitude: nat := -d.units;
      assert FormatDecimal(d) == "-" + UnsignedBody(magnitude, d.scale);
      RenderedBodyParses(magnitude, d.scale);
      assert Decimal(-(magnitude as int), d.scale) == d;
    } else {
      var magnitude: nat := d.units;
      assert FormatDecimal(d) == UnsignedBody(magnitude, d.scale);
      RenderedBodyParses(magnitude, d.scale);
    }
  }

  /** An unsigned float literal is made of digits and a point only. */
  lemma {:induction false} UnsignedLiteralNoSeparator(b: string)
    requires IsUnsignedFloatLiteral(b)
    ensures NoInfoSeparator(b)
  {
    var w := WithoutPoint(b);
    if '.' in b {
      var k := IndexOf(b, '.');
      assert w == b[..k] + b[k + 1..];
      forall i | 0 <= i < |b|
        ensures !IsInfoSeparator(b[i])
      {
        if i < k {
          assert b[i] == w[i];
        } else if i > k {
          assert b[i] == w[i - 1];
        }
      }
    }
  }

  /** A float literal is made of digits, a point and a sign only. */
  lemma {:induction false} FloatLiteralNoSeparator(t: string)
    requires IsFloatLiteral(t)
    ensures NoInfoSeparator(t)
  {
    if IsUnsignedFloatLiteral(t) {
      UnsignedLiteralNoSeparator(t);
    } else {
      UnsignedLiteralNoSeparator(t[1..]);
      forall i | 1 <= i < |t|
        ensures !IsInfoSeparator(t[i])
      {
        assert t[i] == t[1..][i - 1];
      }
    }
  }

  /** `float(FormatDecimal(d)) == d`: the parser recovers both the value and
      the number of fraction digits. */
  lemma {:induction false} ParseFormatDecimal(d: Decimal)
    ensures ParseFloat(FormatDecimal(d)) == Some(d)
  {
    var s := FormatDecimal(d);
    FormatDecimalTrimmed(d);
    StripTrimmed(s);
    ParseFormatDecimalTrimmed(d);
    FloatLiteralNoSeparator(s);
  }

  lemma {:induction false} ParseFloatOfIntLiteralTrimmed(t: string, n: int)
    requires ParseIntLiteral(t) == Some(n)
    ensures ParseFloatLiteral(t) == Some(Decimal(n, 0))
  {
    if IsSign(t[0]) {
      ParseUnsignedWhole(t[1..]);
    } else {
      ParseUnsignedWhole(t);
    }
  }

  /** An integer literal is also a float literal with the same value. */
  lemma {:induction false} ParseFloatOfIntLiteral(text: string, n: int)
    requires ParseInt(text) == Some(n)
    ensures ParseFloat(text) == Some(Decimal(n, 0))
  {
    ParseFloatOfIntLiteralTrimmed(Strip(text), n);
  }

  /** A text that starts with a sign is not an unsigned literal. */
  lemma {:induction false} SignedNotUnsigned(t: string)
    requires |t| >= 1 && IsSign(t[0])
    ensures !IsUnsignedFloatLiteral(t)
  {
    var w := WithoutPoint(t);
    if '.' in t {
      var k := IndexOf(t, '.');
      if |w| >= 1 {
        assert w == t[..k] + t[k + 1..];
        assert w[0] == t[0];
      }
    }
  }

  lemma {:induction false} AllDigitsConcat(a: string, b: string)
    ensures AllDigits(a + b) <==> AllDigits(a) && AllDigits(b)
  {
    if AllDigits(a + b) {
      forall i | 0 <= i < |a|
        ensures IsDigit(a[i])
      {
        assert a[i] == (a + b)[i];
      }
      forall i | 0 <= i < |b|
        ensures IsDigit(b[i])
      {
        assert b[i] == (a + b)[|a| + i];
      }
    }
  }

  /** A float body without a point: one piece, a literal exactly when it is
      a nonempty digit string. */
  lemma {:induction false} PointFreeShape(b: string)
    requires '.' !in b
    ensures Split(b, '.') == [b]
    ensures WithoutPoint(b) == b && FractionLength(b) == 0
    ensures IsUnsignedFloatLiteral(b) <==> |b| >= 1 && AllDigits(b)
  {
    SplitNoSep(b, '.');
  }

  /** A float body with exactly one point: two pieces, a literal exactly when
      both are digit strings and one of them is nonempty. */
  lemma {:induction false} OnePointShape(b: string, k: nat)
    requires '.' in b && k == IndexOf(b, '.') && '.' !in b[k + 1..]
    ensures Split(b, '.') == [b[..k], b[k + 1..]]
    ensures WithoutPoint(b) == b[..k] + b[k + 1..] && FractionLength(b) == |b[k + 1..]|
    ensures IsUnsignedFloatLiteral(b) <==>
              |b[..k]| + |b[k + 1..]| >= 1 && AllDigits(b[..k]) && AllDigits(b[k + 1..])
  {
    var whole, frac := b[..k], b[k + 1..];
    assert Join([whole, frac], '.') == whole + "." + frac == b;
    SplitJoin([whole, frac], '.');
    AllDigitsConcat(whole, frac);
  }

  /** A float body with two points or more: three pieces or more, and no
      literal. */
  lemma {:induction false} MultiPointShape(b: string, k: nat)
    requires '.' in b && k == IndexOf(b, '.') && '.' in b[k + 1..]
    ensures |Split(b, '.')| >= 3
    ensures !IsUnsignedFloatLiteral(b)
  {
    var whole, rest := b[..k], b[k + 1..];
    assert b == whole + ['.'] + rest;
    SplitConcat(whole, '.', rest);
    SplitHasSecond(rest, '.');
    var j := IndexOf(rest, '.');
    assert WithoutPoint(b) == whole + rest;
    assert (whole + rest)[|whole| + j] == '.';
  }

  /** The split-based parser agrees with the character-level grammar: it
      accepts exactly the unsigned float literals, and reads each as its
      digits without the point, scaled by the digits after the point. */
  lemma {:induction false} UnsignedDecimalGrammar(body: string)
    ensures ParseUnsignedDecimal(body).Some? <==> IsUnsignedFloatLiteral(body)
    ensures ParseUnsignedDecimal(body).Some? ==>
              && AllDigits(WithoutPoint(body))
              && ParseUnsignedDecimal(body).value
                   == Decimal(DigitsValue(WithoutPoint(body)), FractionLength(body))
  {
    FloatBodyShape(body);
  }

  /** How splitting a float body at `.` decides the literal, its digits and
      its fraction length. */
  lemma {:induction false} FloatBodyShape(b: string)
    ensures var parts := Split(b, '.');
            && (|parts| == 1 ==>
                  && WithoutPoint(b) == b && FractionLength(b) == 0
                  && (IsUnsignedFloatLiteral(b) <==> |b| >= 1 && AllDigits(b)))
            && (|parts| == 2 ==>
                  && WithoutPoint(b) == parts[0] + parts[1] && FractionLength(b) == |parts[1]|
                  && (IsUnsignedFloatLiteral(b) <==>
                        |parts[0]| + |parts[1]| >= 1 && AllDigits(parts[0]) && AllDigits(parts[1])))
            && (|parts| >= 3 ==> !IsUnsignedFloatLiteral(b))
  {
    if '.' !in b {
      PointFreeShape(b);
    } else {
      var k := IndexOf(b, '.');
      if '.' in b[k + 1..] {
        MultiPointShape(b, k);
      } else {
        OnePointShape(b, k);
      }
    }
  }
}
