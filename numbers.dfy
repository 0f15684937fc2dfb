/**
 * Python's `float(text)` and `int(text)` on the decimal forms the table parsers meet:
 * optional surrounding white space, an optional sign, ASCII digits and at most one '.'.
 */
module Numbers {
  import opened Common
  import opened Text

  function DecimalValue(intPart: string, fracPart: string): real
    requires AllDigits(intPart) && AllDigits(fracPart)
  {
    DigitsValue(intPart) as real + DigitsValue(fracPart) as real / Pow10(|fracPart|) as real
  }

  /** `digits`, `digits.`, `.digits` or `digits.digits`. */
  function ParseUnsignedDecimal(t: string): Option<real>
  {
    var parts := Split(t, '.');
    if |parts| == 1 && IsDigits(parts[0]) then Some(DigitsValue(parts[0]) as real)
    else if |parts| == 2 && AllDigits(parts[0]) && AllDigits(parts[1]) && |parts[0]| + |parts[1]| > 0
    then Some(DecimalValue(parts[0], parts[1]))
    else None
  }

  /** `float(text)`, None where Python raises ValueError. */
  function ParseFloat(text: string): Option<real>
  {
    var t := Strip(text);
    if t != [] && (t[0] == '-' || t[0] == '+') then
      match ParseUnsignedDecimal(t[1..])
      case None => None
      case Some(v) => Some(if t[0] == '-' then -v else v)
    else ParseUnsignedDecimal(t)
  }

  /** `int(text)`, None where Python raises ValueError. */
  function ParseInt(text: string): Option<int>
  {
    var t := Strip(text);
    if t != [] && (t[0] == '-' || t[0] == '+') then
      (if IsDigits(t[1..]) then Some(if t[0] == '-' then -(DigitsValue(t[1..]) as int) else DigitsValue(t[1..]) as int) else None)
    else if IsDigits(t) then Some(DigitsValue(t) as int)
    else None
  }

  /** The value `whole.frac` with `frac` written in `width` digits. */
  function Scaled(whole: nat, frac: nat, width: nat): real
  {
    whole as real + frac as real / Pow10(width) as real
  }

  /** digits `.` digits splits into its two digit runs. */
  lemma UnsignedOfDecimal(d: string, f: string)
    requires IsDigits(d) && AllDigits(f)
    ensures ParseUnsignedDecimal(d + "." + f) == Some(DecimalValue(d, f))
  {
    assert forall i :: 0 <= i < |d| ==> d[i] != '.';
    assert forall i :: 0 <= i < |f| ==> f[i] != '.';
    SplitAfterField(d, f, '.');
    SplitNoSeparator(f, '.');
    assert d + "." + f == d + ['.'] + f;
    assert Split(d + "." + f, '.') == [d, f];
  }

  lemma DecimalValueOf(whole: nat, frac: nat, width: nat)
    requires frac < Pow10(width)
    ensures DecimalValue(DigitsOf(whole), PaddedDigits(frac, width)) == Scaled(whole, frac, width)
  {
    DigitsOfValue(whole);
    PaddedDigitsValue(frac, width);
  }

  /** An unsigned decimal without surrounding white space is read as its digits say. */
  lemma FloatOfPositiveDecimal(d: string, f: string)
    requires IsDigits(d) && IsDigits(f)
    ensures ParseFloat(d + "." + f) == Some(DecimalValue(d, f))
  {
    var body := d + "." + f;
    UnsignedOfDecimal(d, f);
    assert IsDigit(d[0]) && IsDigit(f[|f| - 1]);
    assert body[|body| - 1] == f[|f| - 1] && body[0] == d[0];
    StripKeepsTrimmed(body);
  }

  /** So is one with a leading minus sign. */
  lemma FloatOfNegativeDecimal(d: string, f: string)
    requires IsDigits(d) && IsDigits(f)
    ensures ParseFloat("-" + (d + "." + f)) == Some(-DecimalValue(d, f))
  {
    var body := d + "." + f;
    var text := "-" + body;
    UnsignedOfDecimal(d, f);
    assert IsDigit(f[|f| - 1]);
    assert text[|text| - 1] == f[|f| - 1];
    StripKeepsTrimmed(text);
    assert text[1..] == body;
  }

  lemma IntOfPlainDigits(d: string)
    requires IsDigits(d)
    ensures ParseInt(d) == Some(DigitsValue(d) as int)
  {
    assert IsDigit(d[0]) && IsDigit(d[|d| - 1]);
    StripKeepsTrimmed(d);
  }

  lemma IntOfNegativeDigits(d: string)
    requires IsDigits(d)
    ensures ParseInt("-" + d) == Some(-(DigitsValue(d) as int))
  {
    hide ParseInt, Strip;
    var text := "-" + d;
    assert text[0] == '-' && text[1..] == d;
    assert IsDigit(d[|d| - 1]);
    assert text[|text| - 1] == d[|d| - 1];
    StripKeepsTrimmed(text);
    IntOfTrimmedNegative(text);
  }

  lemma IntOfTrimmedNegative(t: string)
    requires Strip(t) == t && t != [] && t[0] == '-' && IsDigits(t[1..])
    ensures ParseInt(t) == Some(-(DigitsValue(t[1..]) as int))
  {
  }

  /** `int(str(n))` recovers n. */
  lemma IntOfRendered(n: nat)
    ensures ParseInt(DigitsOf(n)) == Some(n)
  {
    DigitsOfValue(n);
    IntOfPlainDigits(DigitsOf(n));
  }

  /** `int('-' + str(n))` recovers -n. */
  lemma IntOfNegativeRendered(n: nat)
    ensures ParseInt("-" + DigitsOf(n)) == Some(-(n as int))
  {
    hide ParseInt;
    var d := DigitsOf(n);
    IntOfNegativeDigits(d);
    DigitsOfValue(n);
    var r := ParseInt("-" + d);
    assert r == Some(-(DigitsValue(d) as int));
    assert r == Some(-(n as int));
  }
}
