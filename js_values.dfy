/** The JavaScript values a cell of `sheet_to_json(worksheet, { header: 1 })`
    can hold in `netlify/functions/upload.js`, with the language rules the
    upload function leans on: truthiness, `parseFloat`, multiplication of two
    parsed values, and the property key a header value names. Numbers are
    exact reals; infinities are not modelled. */
module JsValues {
  import opened Text
  import opened Numerals

  /** `Undefined` stands for a hole in a row as well as a read past its end. */
  datatype JsValue = Undefined | Str(s: string) | Num(x: real) | NaN | Bool(b: bool)

  datatype Option<T> = None | Some(value: T)

  /** JavaScript truthiness: the empty string, 0, NaN, false and undefined are falsy. */
  predicate Truthy(v: JsValue) {
    match v
    case Undefined => false
    case Str(s) => s != ""
    case Num(x) => x != 0.0
    case NaN => false
    case Bool(b) => b
  }

  /** The characters `parseFloat` skips at the start: white space and line
      terminators, by code point (section 7.2 and 7.3 of ECMA-262). */
  predicate IsJsSpace(c: char) {
    var n := c as int;
    (9 <= n <= 13) || n == 32 || n == 0xA0 || n == 0x1680 || (0x2000 <= n <= 0x200A)
    || n == 0x2028 || n == 0x2029 || n == 0x202F || n == 0x205F || n == 0x3000 || n == 0xFEFF
  }

  function TrimStart(s: string): (t: string)
    ensures |t| <= |s| && t == s[|s| - |t|..]
    ensures t == [] || !IsJsSpace(t[0])
    ensures forall i :: 0 <= i < |s| - |t| ==> IsJsSpace(s[i])
  {
    if s != [] && IsJsSpace(s[0]) then TrimStart(s[1..]) else s
  }

  /** The exponent part `e`/`E`, optional sign, digits at the start of `w`; 0
      when `w` does not start with a complete exponent. */
  function ExponentValue(w: string): int {
    if |w| >= 2 && (w[0] == 'e' || w[0] == 'E') then
      var signed := w[1] == '+' || w[1] == '-';
      var digits := if signed then w[2..] else w[1..];
      var g := DigitRun(digits);
      if g == 0 then 0
      else if w[1] == '-' then -(DigitsValue(digits[..g]) as int)
      else DigitsValue(digits[..g]) as int
    else 0
  }

  /** `m` times ten to the power `e`. */
  function Scale(m: real, e: int): real {
    if e >= 0 then m * Pow10(e) as real else m / Pow10(-e) as real
  }

  /** The longest prefix of `u` that is an unsigned decimal literal (digits,
      an optional fraction, an optional exponent, at least one digit before the
      exponent), or None when there is none. */
  function ParseUnsigned(u: string): Option<real> {
    var d := DigitRun(u);
    var dot := d < |u| && u[d] == '.';
    var f := if dot then DigitRun(u[d + 1..]) else 0;
    if d == 0 && f == 0 then None
    else
      var frac := if dot then u[d + 1..][..f] else "";
      var m := DigitsValue(u[..d]) as real + DigitsValue(frac) as real / Pow10(f) as real;
      var end := if dot then d + 1 + f else d;
      Some(Scale(m, ExponentValue(u[end..])))
  }

  /** An optional sign, then the longest unsigned decimal prefix. */
  function ParseSigned(t: string): Option<real> {
    if |t| > 0 && (t[0] == '-' || t[0] == '+') then
      match ParseUnsigned(t[1..])
      case None => None
      case Some(x) => Some(if t[0] == '-' then -x else x)
    else ParseUnsigned(t)
  }

  /** `parseFloat` of a string: leading white space skipped, then a signed
      decimal prefix; None stands for NaN. */
  function ParseFloatText(s: string): Option<real> {
    ParseSigned(TrimStart(s))
  }

  /** `parseFloat(v)`: a number parses to itself, a string by its text; the
      texts of `true`, `false`, `undefined` and `NaN` parse to NaN. */
  function ParseFloat(v: JsValue): Option<real> {
    match v
    case Str(s) => ParseFloatText(s)
    case Num(x) => Some(x)
    case _ => None
  }

  /** `parseFloat(a) * parseFloat(b)`: NaN as soon as either side is. */
  function TimesParsed(a: JsValue, b: JsValue): (r: JsValue)
    ensures r.Num? || r == NaN
    ensures r.Num? <==> ParseFloat(a).Some? && ParseFloat(b).Some?
    ensures r.Num? ==> r.x == ParseFloat(a).value * ParseFloat(b).value
  {
    var pa := ParseFloat(a);
    var pb := ParseFloat(b);
    if pa.Some? && pb.Some? then Num(pa.value * pb.value) else NaN
  }

  /** `parseFloat(v) || 0`: NaN and zero both count as 0. */
  function ParsedOrZero(v: JsValue): (r: real)
    ensures ParseFloat(v) == None ==> r == 0.0
    ensures ParseFloat(v).Some? ==> r == ParseFloat(v).value
  {
    match ParseFloat(v)
    case None => 0.0
    case Some(x) => x
  }

  /** The property key `obj[header]` uses: `String(header)`; `numText` is the
      text JavaScript gives a number. */
  function KeyOf(v: JsValue, numText: real -> string): string {
    match v
    case Undefined => "undefined"
    case Str(s) => s
    case Num(x) => numText(x)
    case NaN => "NaN"
    case Bool(b) => if b then "true" else "false"
  }

  /** Leading white space never changes what `parseFloat` reads. */
  lemma ParseSkipsLeadingSpace(c: char, s: string)
    requires IsJsSpace(c)
    ensures ParseFloatText([c] + s) == ParseFloatText(s)
  {
    assert ([c] + s)[1..] == s;
    assert TrimStart([c] + s) == TrimStart(s);
  }

  lemma UnsignedNumeralParses(u: string)
    requires IsUnsignedNumeral(u)
    ensures ParseUnsigned(u) == Some(UnsignedValue(u))
  {
    var d := DigitRun(u);
    if d < |u| {
      assert u[d] == '.';
      var rest := u[d + 1..];
      forall i | 0 <= i < |rest| ensures IsDigit(rest[i]) {
        assert rest[i] == u[d + 1 + i];
      }
      DigitRunAll(rest);
      assert rest[..|rest|] == rest;
      assert u[d + 1 + |rest|..] == [];
    } else {
      assert u[d..] == [];
    }
  }

  /** `parseFloat` and the Python extractor agree on every numeral
      `-?\d+\.?\d*`: JavaScript reads it as the same number. */
  lemma NumeralParsesAlike(t: string)
    requires IsNumeral(t)
    ensures ParseFloatText(t) == Some(Value(t))
  {
    assert !IsJsSpace(t[0]);
    if t[0] == '-' {
      UnsignedNumeralParses(t[1..]);
    } else {
      UnsignedNumeralParses(t);
    }
  }

  /** A run of digits ends where the first non-digit after it starts. */
  lemma {:induction false} DigitRunStops(d: string, rest: string)
    requires AllDigits(d)
    requires rest == [] || !IsDigit(rest[0])
    ensures DigitRun(d + rest) == |d|
  {
    if d != [] {
      assert (d + rest)[1..] == d[1..] + rest;
      DigitRunStops(d[1..], rest);
    }
  }

  /** A text that starts with a digit or a '.' is read by `ParseUnsigned` alone. */
  lemma ParseStartsUnsigned(u: string)
    requires u != [] && (IsDigit(u[0]) || u[0] == '.')
    ensures ParseFloatText(u) == ParseUnsigned(u)
  {
    assert TrimStart(u) == u;
  }

  /** Digits followed by white space read as the digits alone. */
  lemma UnsignedIgnoresTrailingText(d: string, rest: string)
    requires d != [] && AllDigits(d)
    requires rest != [] && IsJsSpace(rest[0])
    ensures ParseUnsigned(d + rest) == ParseUnsigned(d)
  {
    var u := d + rest;
    DigitRunStops(d, rest);
    DigitRunAll(d);
    assert u[|d|] == rest[0] && u[|d|] != '.';
    assert u[..|d|] == d == d[..|d|];
    assert u[|d|..] == rest && d[|d|..] == [];
    assert ExponentValue(rest) == 0 == ExponentValue([]);
  }

  /** Text after a number and a white-space character, such as a unit, is
      ignored: `parseFloat("12 hrs")` is 12. */
  lemma ParseIgnoresTrailingText(d: string, rest: string)
    requires d != [] && AllDigits(d)
    requires rest != [] && IsJsSpace(rest[0])
    ensures IsNumeral(d) && ParseFloatText(d + rest) == Some(Value(d))
  {
    assert (d + rest)[0] == d[0];
    ParseStartsUnsigned(d + rest);
    UnsignedIgnoresTrailingText(d, rest);
    NumeralParsesAlike(d);
  }

  /** A text that starts with anything but white space, a sign, a digit or a
      '.', such as a currency sign in "$5", is NaN. */
  lemma ParseNeedsLeadingDigit(s: string)
    requires s != [] && !IsJsSpace(s[0]) && !IsDigit(s[0])
    requires s[0] != '+' && s[0] != '-' && s[0] != '.'
    ensures ParseFloatText(s) == None
  {
    assert TrimStart(s) == s;
    assert DigitRun(s) == 0;
  }

  /** A bare fraction reads as the same fraction with a leading zero. */
  lemma UnsignedBareFraction(f: string)
    requires f != [] && AllDigits(f)
    ensures ParseUnsigned("." + f) == ParseUnsigned("0." + f)
  {
    var u := "." + f;
    var z := "0." + f;
    assert u[0] == '.' && z[0] == '0' && z[1] == '.';
    assert DigitRun(u) == 0;
    assert DigitRun(z[1..]) == 0;
    assert DigitRun(z) == 1;
    assert u[1..] == f == z[2..];
    assert u[..0] == "" && z[..1] == "0";
    assert DigitsValue("0") == 0 == DigitsValue("");
    DigitRunAll(f);
    assert u[1 + |f|..] == [] == z[2 + |f|..];
  }

  lemma LeadingZeroFraction(f: string)
    requires AllDigits(f)
    ensures IsUnsignedNumeral("0." + f)
  {
    var z := "0." + f;
    forall i | 0 <= i < |z|
      ensures IsDigit(z[i]) || (z[i] == '.' && forall j :: 0 <= j < i ==> z[j] != '.')
    {
      if i >= 2 {
        assert z[i] == f[i - 2];
      }
    }
  }

  /** A bare fraction is read: `parseFloat(".5")` is 0.5, what Python reads
      from "0.5". */
  lemma ParseBareFraction(f: string)
    requires f != [] && AllDigits(f)
    ensures IsNumeral("0." + f) && ParseFloatText("." + f) == Some(Value("0." + f))
  {
    var z := "0." + f;
    assert ("." + f)[0] == '.';
    ParseStartsUnsigned("." + f);
    UnsignedBareFraction(f);
    LeadingZeroFraction(f);
    UnsignedNumeralParses(z);
  }
}
