/** `parseFollowerNumber` of `src/facebookPageParser.js`, with the parts of
    JavaScript's `parseInt(str, 10)`, `parseFloat(str)` and `Math.round` it uses,
    in exact arithmetic. */
module Followers {
  import opened Wrappers
  import opened JsString

  // ---------------------------------------------------------------------------
  // Decimal digits
  // ---------------------------------------------------------------------------

  predicate AllDigits(s: string) {
    forall i :: 0 <= i < |s| ==> IsDigit(s[i])
  }

  /** Length of the run of decimal digits at the start of `s`. */
  function DigitRun(s: string): (n: nat)
    ensures n <= |s|
    ensures AllDigits(s[..n])
    ensures n < |s| ==> !IsDigit(s[n])
  {
    if s != [] && IsDigit(s[0]) then
      var n := 1 + DigitRun(s[1..]);
      assert s[..n] == [s[0]] + s[1..][..n - 1];
      n
    else 0
  }

  function DigitValue(c: char): (d: nat)
    requires IsDigit(c)
    ensures d < 10
  {
    c as int - '0' as int
  }

  function DigitChar(d: nat): (c: char)
    requires d < 10
    ensures IsDigit(c) && DigitValue(c) == d
  {
    ('0' as int + d) as char
  }

  /** The number a string of decimal digits denotes (most significant first). */
  function DigitsValue(s: string): nat
    requires AllDigits(s)
  {
    if s == [] then 0 else DigitsValue(s[..|s| - 1]) * 10 + DigitValue(s[|s| - 1])
  }

  /** The decimal numeral of `n`, without leading zeros. */
  function Decimal(n: nat): (s: string)
    ensures s != [] && AllDigits(s)
  {
    if n < 10 then [DigitChar(n)] else Decimal(n / 10) + [DigitChar(n % 10)]
  }

  /** `Decimal` is a right inverse of `DigitsValue`. */
  lemma {:induction false} DecimalValue(n: nat)
    ensures DigitsValue(Decimal(n)) == n
  {
    if n >= 10 {
      var s := Decimal(n);
      assert s[..|s| - 1] == Decimal(n / 10);
      DecimalValue(n / 10);
    }
  }

  /** The digit run of `a + b`, for a digit string `a`. */
  lemma {:induction false} DigitRunAppend(a: string, b: string)
    requires AllDigits(a)
    ensures DigitRun(a + b) == |a| + DigitRun(b)
  {
    if a == [] {
      assert a + b == b;
    } else {
      assert (a + b)[0] == a[0] && IsDigit(a[0]);
      assert (a + b)[1..] == a[1..] + b;
      DigitRunAppend(a[1..], b);
    }
  }

  /** The value of the digits after a decimal point: `0.d1d2...`. */
  function Fraction(s: string): (x: real)
    requires AllDigits(s)
    ensures 0.0 <= x <= 1.0
  {
    if s == [] then 0.0 else (DigitValue(s[0]) as real + Fraction(s[1..])) / 10.0
  }

  // ---------------------------------------------------------------------------
  // parseInt, parseFloat, Math.round
  // ---------------------------------------------------------------------------

  /** The numeral carries a minus sign. */
  predicate Negative(s: string) {
    s != [] && s[0] == '-'
  }

  /** What follows the optional sign. */
  function Unsigned(s: string): (body: string)
    ensures body == s || (s != [] && body == s[1..] && (s[0] == '+' || s[0] == '-'))
  {
    if s != [] && (s[0] == '-' || s[0] == '+') then s[1..] else s
  }

  /** `parseInt(s, 10)`: after leading whitespace and an optional sign, the longest
      run of decimal digits; `None` (NaN) when there is none. */
  function ParseInt(s: string): (r: Option<int>)
  {
    var t := TrimStart(s);
    var body := Unsigned(t);
    var n := DigitRun(body);
    if n == 0 then None
    else if Negative(t) then Some(-(DigitsValue(body[..n]) as int))
    else Some(DigitsValue(body[..n]))
  }

  /** The value of an exponent part `e[sign]digits` at the start of `s`; `0` when
      there is none (a bare `e` is not part of the numeral). */
  function ExponentOf(s: string): int {
    if s != [] && (s[0] == 'e' || s[0] == 'E') then
      var body := Unsigned(s[1..]);
      var n := DigitRun(body);
      if n == 0 then 0
      else if Negative(s[1..]) then -(DigitsValue(body[..n]) as int)
      else DigitsValue(body[..n])
    else 0
  }

  /** `x * 10^e`. */
  function Scale(x: real, e: int): real
    decreases if e >= 0 then e else -e
  {
    if e == 0 then x else if e > 0 then 10.0 * Scale(x, e - 1) else Scale(x, e + 1) / 10.0
  }

  /** `parseFloat(s)` on a string that is already lower case (so `Infinity` cannot
      occur): after leading whitespace and an optional sign, the longest prefix of the
      form `digits[.digits]` or `.digits`, with an optional exponent; `None` (NaN)
      when no digit comes before or right after the point. */
  function ParseFloat(s: string): (r: Option<real>)
  {
    var t := TrimStart(s);
    match ParseUnsignedFloat(Unsigned(t))
    case None => None
    case Some(v) => Some(if Negative(t) then -v else v)
  }

  /** The pieces of a decimal literal: the digits before the point, the digits after
      it (empty when there is no point), and the exponent. */
  datatype Numeral = Numeral(whole: string, frac: string, exponent: int)

  /** The longest prefix of `body` that is a decimal literal, cut into its pieces;
      `None` when no digit comes before or right after the point. */
  function ScanNumeral(body: string): (r: Option<Numeral>)
    ensures r.Some? ==> AllDigits(r.value.whole) && AllDigits(r.value.frac)
    ensures r.Some? ==> r.value.whole != [] || r.value.frac != []
  {
    var i := DigitRun(body);
    var hasPoint := i < |body| && body[i] == '.';
    var f := if hasPoint then DigitRun(body[i + 1..]) else 0;
    if i == 0 && f == 0 then None
    else
      var next := if hasPoint then i + 1 + f else i;
      Some(Numeral(body[..i], if hasPoint then body[i + 1..][..f] else [], ExponentOf(body[next..])))
  }

  /** The value of a decimal literal. */
  function NumeralValue(n: Numeral): real
    requires AllDigits(n.whole) && AllDigits(n.frac)
  {
    Scale(DigitsValue(n.whole) as real + Fraction(n.frac), n.exponent)
  }

  /** The unsigned part of `parseFloat`. */
  function ParseUnsignedFloat(body: string): (r: Option<real>)
  {
    match ScanNumeral(body)
    case None => None
    case Some(n) => Some(NumeralValue(n))
  }

  /** `Math.round`: the nearest integer, halves rounded up. */
  function Round(x: real): (n: int)
    ensures n as real - 0.5 <= x < n as real + 0.5
  {
    (x + 0.5).Floor
  }

  // ---------------------------------------------------------------------------
  // parseFollowerNumber
  // ---------------------------------------------------------------------------

  /** What `parseFollowerNumber` returns: a number, `NaN` (a `k`/`m` suffix on no
      number), or `null` (no integer prefix). */
  datatype FollowerCount = Number(value: int) | NaN | Null

  /** `Math.round(parseFloat(str) * factor)`. */
  function Scaled(x: Option<real>, factor: nat): (r: FollowerCount)
    ensures r.NaN? <==> x.None?
    ensures x.Some? ==> r == Number(Round(x.value * factor as real))
  {
    match x
    case None => NaN
    case Some(v) => Number(Round(v * factor as real))
  }

  /** The text `parseFollowerNumber` actually parses: lower-cased, commas removed. */
  function Cleaned(s: string): (str: string)
    ensures ',' !in str
  {
    RemoveCommas(ToLower(s))
  }

  /** `parseFollowerNumber(s)`. */
  function ParseFollowerNumber(s: string): FollowerCount {
    ParseCleaned(Cleaned(s))
  }

  /** The suffix test and the parse, on the cleaned text. */
  function ParseCleaned(str: string): FollowerCount {
    if EndsWith(str, "k") then Scaled(ParseFloat(str), 1000)
    else if EndsWith(str, "m") then Scaled(ParseFloat(str), 1000000)
    else match ParseInt(str)
      case None => Null
      case Some(n) => Number(n)
  }

  // ---------------------------------------------------------------------------
  // Properties
  // ---------------------------------------------------------------------------

  /** Commas make no difference anywhere in the text: `3,456` reads as `3456`. */
  lemma ParseIgnoresComma(a: string, b: string)
    ensures ParseFollowerNumber(a + "," + b) == ParseFollowerNumber(a + b)
  {
    CleanedAppend(a + ",", b);
    CleanedAppend(a, ",");
    CleanedAppend(a, b);
    assert Cleaned(",") == [] by {
      assert ToLower(",") == ",";
    }
    assert Cleaned(a) + [] == Cleaned(a);
    assert Cleaned(a + "," + b) == Cleaned(a + b);
  }

  lemma CleanedAppend(a: string, b: string)
    ensures Cleaned(a + b) == Cleaned(a) + Cleaned(b)
  {
    LowerAppend(a, b);
    RemoveCommasAppend(ToLower(a), ToLower(b));
  }

  /** A lower-case character other than a comma is kept as it is. */
  lemma CleanedChar(c: char)
    requires !IsUpper(c) && c != ','
    ensures Cleaned([c]) == [c]
  {
    assert ToLower([c]) == [c];
    assert RemoveCommas([c]) == [c] by {
      assert RemoveCommas([c]) == [c] + RemoveCommas([]);
    }
  }

  /** Removing every comma first changes nothing. */
  lemma ParseIgnoresCommas(s: string)
    ensures ParseFollowerNumber(RemoveCommas(s)) == ParseFollowerNumber(s)
  {
    LowerRemoveCommasCommute(s);
    RemoveCommasIdempotent(ToLower(s));
  }

  /** Letter case makes no difference: `12K` reads as `12k`. */
  lemma ParseIgnoresCase(s: string)
    ensures ParseFollowerNumber(ToLower(s)) == ParseFollowerNumber(s)
  {
    LowerIdempotent(s);
  }

  lemma DigitsAreClean(d: string)
    requires AllDigits(d)
    ensures Cleaned(d) == d
  {
    DigitsLower(d);
    DigitsNoCommas(d);
  }

  lemma {:induction false} DigitsLower(d: string)
    requires AllDigits(d)
    ensures ToLower(d) == d
  {
    if d != [] {
      DigitsLower(d[1..]);
    }
  }

  lemma {:induction false} DigitsNoCommas(d: string)
    requires AllDigits(d)
    ensures RemoveCommas(d) == d
  {
    if d != [] {
      DigitsNoCommas(d[1..]);
    }
  }

  /** `parseInt` reads a numeral back followed by anything that is not a digit. */
  lemma ParseIntDecimal(n: nat, tail: string)
    requires tail == [] || !IsDigit(tail[0])
    ensures ParseInt(Decimal(n) + tail) == Some(n)
  {
    var d := Decimal(n);
    var s := d + tail;
    DigitRunAppend(d, tail);
    assert s[..|d|] == d;
    assert s[0] == d[0];
    DecimalValue(n);
    ParseIntPrefix(s, d, n);
  }

  /** `parseInt` of a text that starts with the digits `d` and then stops. */
  lemma ParseIntPrefix(s: string, d: string, n: nat)
    requires AllDigits(d) && d != [] && s != [] && IsDigit(s[0])
    requires DigitRun(s) == |d| && s[..|d|] == d && DigitsValue(d) == n
    ensures ParseInt(s) == Some(n)
  {
    DigitFirst(s);
  }

  /** A plain numeral gives its value. */
  lemma ParseDecimal(n: nat)
    ensures ParseFollowerNumber(Decimal(n)) == Number(n)
  {
    var d := Decimal(n);
    DigitsAreClean(d);
    assert !EndsWith(d, "k") && !EndsWith(d, "m") by {
      assert IsDigit(d[|d| - 1]);
    }
    ParseIntDecimal(n, []);
    assert d + [] == d;
  }

  /** Without a suffix only the integer part counts: `1.5` and `1.05` give 1. */
  lemma ParseTruncatesFraction(n: nat, f: string)
    requires AllDigits(f)
    ensures ParseFollowerNumber(Decimal(n) + "." + f) == Number(n)
  {
    var s := Decimal(n) + "." + f;
    assert s == Decimal(n) + ("." + f);
    assert s[|s| - 1] == if f == [] then '.' else f[|f| - 1];
    CleanPoint(Decimal(n), f);
    assert !EndsWith(s, "k") && !EndsWith(s, "m");
    ParseIntDecimal(n, "." + f);
  }

  lemma CleanPoint(a: string, b: string)
    requires AllDigits(a) && AllDigits(b)
    ensures Cleaned(a + "." + b) == a + "." + b
  {
    DigitsAreClean(a);
    DigitsAreClean(b);
    CleanedAppend(a + ".", b);
    CleanedAppend(a, ".");
    CleanedChar('.');
  }

  /** `parseFloat` reads a numeral back followed by a letter other than `e`. */
  lemma ParseFloatDecimal(n: nat, suffix: char)
    requires suffix != '.' && suffix != 'e' && suffix != 'E' && !IsDigit(suffix)
    ensures ParseFloat(Decimal(n) + [suffix]) == Some(n as real)
  {
    DigitFirst(Decimal(n) + [suffix]);
    UnsignedFloatDecimal(n, suffix);
  }

  /** A text that starts with a digit has no leading whitespace and no sign. */
  lemma DigitFirst(s: string)
    requires s != [] && IsDigit(s[0])
    ensures TrimStart(s) == s && Unsigned(s) == s && !Negative(s)
  {
    NotBoth(s[0]);
  }

  lemma NotBoth(c: char)
    requires IsDigit(c)
    ensures !IsWhitespace(c) && c != '-' && c != '+'
  {}

  lemma UnsignedFloatDecimal(n: nat, suffix: char)
    requires suffix != '.' && suffix != 'e' && suffix != 'E' && !IsDigit(suffix)
    ensures ParseUnsignedFloat(Decimal(n) + [suffix]) == Some(n as real)
  {
    ScanWhole(Decimal(n), suffix);
    DecimalValue(n);
  }

  lemma ScanWhole(d: string, suffix: char)
    requires AllDigits(d) && d != []
    requires suffix != '.' && suffix != 'e' && suffix != 'E' && !IsDigit(suffix)
    ensures ScanNumeral(d + [suffix]) == Some(Numeral(d, [], 0))
  {
    var s := d + [suffix];
    DigitRunAppend(d, [suffix]);
    assert s[..|d|] == d;
    assert s[|d|..] == [suffix];
    assert ExponentOf([suffix]) == 0;
  }

  /** `parseFloat` reads `digits.digits` back, followed by anything that cannot
      continue the numeral. */
  lemma UnsignedFloatPoint(body: string, whole: string, frac: string, rest: string)
    requires AllDigits(whole) && AllDigits(frac) && whole != []
    requires rest == [] || (!IsDigit(rest[0]) && rest[0] != 'e' && rest[0] != 'E')
    requires body == whole + ("." + (frac + rest))
    ensures ParseUnsignedFloat(body).Some?
    ensures ParseUnsignedFloat(body).value == DigitsValue(whole) as real + Fraction(frac)
  {
    ScanPoint(body, whole, frac, rest);
    assert NumeralValue(Numeral(whole, frac, 0)) == DigitsValue(whole) as real + Fraction(frac);
  }

  lemma ScanPoint(body: string, whole: string, frac: string, rest: string)
    requires AllDigits(whole) && AllDigits(frac) && whole != []
    requires rest == [] || (!IsDigit(rest[0]) && rest[0] != 'e' && rest[0] != 'E')
    requires body == whole + ("." + (frac + rest))
    ensures ScanNumeral(body) == Some(Numeral(whole, frac, 0))
  {
    PointParts(body, whole, frac, rest);
  }

  /** The pieces `ScanNumeral` cuts `whole.frac rest` into. */
  lemma PointParts(body: string, whole: string, frac: string, rest: string)
    requires AllDigits(whole) && AllDigits(frac) && whole != []
    requires rest == [] || (!IsDigit(rest[0]) && rest[0] != 'e' && rest[0] != 'E')
    requires body == whole + ("." + (frac + rest))
    ensures var i := |whole|;
            && DigitRun(body) == i && body[..i] == whole && i < |body| && body[i] == '.'
            && DigitRun(body[i + 1..]) == |frac| && body[i + 1..][..|frac|] == frac
            && body[i + 1 + |frac|..] == rest && ExponentOf(rest) == 0
  {
    var tail := frac + rest;
    PointSplit(whole, tail);
    DigitsThenOther(frac, rest);
    assert body[|whole| + 1 + |frac|..] == tail[|frac|..];
  }

  lemma PointSplit(whole: string, tail: string)
    requires AllDigits(whole)
    ensures var body := whole + ("." + tail);
            DigitRun(body) == |whole| && body[..|whole|] == whole
            && body[|whole|] == '.' && body[|whole| + 1..] == tail
  {
    DigitRunAppend(whole, "." + tail);
    assert ("." + tail)[0] == '.';
  }

  lemma DigitsThenOther(frac: string, rest: string)
    requires AllDigits(frac)
    requires rest == [] || (!IsDigit(rest[0]) && rest[0] != 'e' && rest[0] != 'E')
    ensures DigitRun(frac + rest) == |frac| && (frac + rest)[..|frac|] == frac
    ensures (frac + rest)[|frac|..] == rest && ExponentOf(rest) == 0
  {
    DigitRunAppend(frac, rest);
  }

  lemma CleanSuffix(d: string, suffix: char)
    requires AllDigits(d) && (suffix == 'k' || suffix == 'm')
    ensures Cleaned(d + [suffix]) == d + [suffix]
  {
    DigitsAreClean(d);
    CleanedAppend(d, [suffix]);
    CleanedChar(suffix);
  }

  /** A `k` suffix multiplies by a thousand. */
  lemma ParseThousands(n: nat)
    ensures ParseFollowerNumber(Decimal(n) + "k") == Number(1000 * n)
  {
    var s := Decimal(n) + "k";
    CleanSuffix(Decimal(n), 'k');
    ParseFloatDecimal(n, 'k');
    SuffixK(s);
    ScaledWhole(n, 1000);
  }

  /** An `m` suffix multiplies by a million. */
  lemma ParseMillions(n: nat)
    ensures ParseFollowerNumber(Decimal(n) + "m") == Number(1000000 * n)
  {
    var s := Decimal(n) + "m";
    CleanSuffix(Decimal(n), 'm');
    ParseFloatDecimal(n, 'm');
    SuffixM(s);
    ScaledWhole(n, 1000000);
  }

  /** A `k` suffix on `w.f` gives `Math.round` of a thousand times its value. */
  lemma {:induction false} ParseFractionThousands(w: string, f: string, v: real)
    requires AllDigits(w) && w != [] && AllDigits(f) && v == DigitsValue(w) as real + Fraction(f)
    ensures ParseFollowerNumber(w + "." + f + "k") == Number(Round(v * 1000.0))
  {
    var s := w + "." + f + "k";
    FractionClean(w, f, 'k', s);
    ThousandsBranch(w, f, s, v);
  }

  /** An `m` suffix on `w.f` gives `Math.round` of a million times its value. */
  lemma {:induction false} ParseFractionMillions(w: string, f: string, v: real)
    requires AllDigits(w) && w != [] && AllDigits(f) && v == DigitsValue(w) as real + Fraction(f)
    ensures ParseFollowerNumber(w + "." + f + "m") == Number(Round(v * 1000000.0))
  {
    var s := w + "." + f + "m";
    FractionClean(w, f, 'm', s);
    MillionsBranch(w, f, s, v);
  }

  /** `w.f` followed by a suffix needs no cleaning. */
  lemma FractionClean(w: string, f: string, suffix: char, str: string)
    requires AllDigits(w) && AllDigits(f) && (suffix == 'k' || suffix == 'm')
    requires str == w + "." + f + [suffix]
    ensures ParseFollowerNumber(str) == ParseCleaned(str)
  {
    CleanPoint(w, f);
    CleanedAppend(w + "." + f, [suffix]);
    CleanedChar(suffix);
  }

  /** The `k` branch scales what `parseFloat` reads from `w.f`. */
  lemma ThousandsBranch(w: string, f: string, str: string, v: real)
    requires AllDigits(w) && w != [] && AllDigits(f)
    requires str == w + "." + f + "k" && v == DigitsValue(w) as real + Fraction(f)
    ensures ParseCleaned(str) == Number(Round(v * 1000.0))
  {
    FractionValue(w, f, 'k', str, v);
    ScaledThousand(str, v);
  }

  /** The `m` branch scales what `parseFloat` reads from `w.f`. */
  lemma MillionsBranch(w: string, f: string, str: string, v: real)
    requires AllDigits(w) && w != [] && AllDigits(f)
    requires str == w + "." + f + "m" && v == DigitsValue(w) as real + Fraction(f)
    ensures ParseCleaned(str) == Number(Round(v * 1000000.0))
  {
    FractionValue(w, f, 'm', str, v);
    ScaledMillion(str, v);
  }

  /** `parseFloat` reads `w.f` back, followed by anything that cannot continue it. */
  lemma FractionValue(w: string, f: string, suffix: char, str: string, v: real)
    requires AllDigits(w) && AllDigits(f) && w != [] && (suffix == 'k' || suffix == 'm')
    requires str == w + "." + f + [suffix] && v == DigitsValue(w) as real + Fraction(f)
    ensures str != [] && str[|str| - 1] == suffix && ParseFloat(str).Some? && ParseFloat(str).value == v
  {
    FractionFloat(w, f, suffix, str);
  }

  lemma FractionFloat(w: string, f: string, suffix: char, str: string)
    requires AllDigits(w) && AllDigits(f) && w != [] && (suffix == 'k' || suffix == 'm')
    requires str == w + "." + f + [suffix]
    ensures ParseFloat(str).Some? && ParseFloat(str).value == DigitsValue(w) as real + Fraction(f)
    ensures str != [] && str[|str| - 1] == suffix
  {
    var rest := [suffix];
    assert str == w + ("." + (f + rest));
    assert str[0] == w[0];
    DigitFirst(str);
    UnsignedFloatPoint(str, w, f, rest);
  }

  /** A text whose cleaned form does not end in a suffix and does not start with
      whitespace, a sign or a digit has no integer prefix and gives `null`. */
  lemma NoLeadingDigitsNull(s: string)
    requires var c := Cleaned(s);
             && !EndsWith(c, "k") && !EndsWith(c, "m")
             && (c == [] || (!IsWhitespace(c[0]) && !IsDigit(c[0]) && c[0] != '+' && c[0] != '-'))
    ensures ParseFollowerNumber(s) == Null
  {
    var c := Cleaned(s);
    assert TrimStart(c) == c;
    assert Unsigned(c) == c;
    assert DigitRun(c) == 0;
  }

  lemma ScaledWhole(n: nat, factor: nat)
    requires factor == 1000 || factor == 1000000
    ensures Scaled(Some(n as real), factor) == Number(factor * n)
  {
    if factor == 1000 {
      assert n as real * 1000.0 == (1000 * n) as real;
    } else {
      assert n as real * 1000000.0 == (1000000 * n) as real;
    }
    RoundWhole(factor * n);
  }

  lemma SuffixK(str: string)
    requires str != [] && str[|str| - 1] == 'k'
    ensures ParseCleaned(str) == Scaled(ParseFloat(str), 1000)
  {
    assert EndsWith(str, "k");
  }

  lemma SuffixM(str: string)
    requires str != [] && str[|str| - 1] == 'm'
    ensures ParseCleaned(str) == Scaled(ParseFloat(str), 1000000)
  {
    assert !EndsWith(str, "k") && EndsWith(str, "m");
  }

  lemma RoundWhole(n: int)
    ensures Round(n as real) == n
  {}

  /** A number only ever comes out of a text that holds a digit. */
  lemma NumberNeedsDigit(s: string)
    requires ParseFollowerNumber(s).Number?
    ensures exists i :: 0 <= i < |s| && IsDigit(s[i])
  {
    var str := Cleaned(s);
    var t := TrimStart(str);
    var body := Unsigned(t);
    if EndsWith(str, "k") || EndsWith(str, "m") {
      UnsignedFloatNeedsDigit(body);
    } else {
      assert IsDigit(body[0]);
    }
    var c :| c in body && IsDigit(c);
    assert c in t;
    assert c in str;
    var j := CleanedKeepsDigit(s, c);
  }

  lemma UnsignedFloatNeedsDigit(body: string)
    requires ParseUnsignedFloat(body).Some?
    ensures exists c :: c in body && IsDigit(c)
  {
    var n := ScanNumeral(body).value;
    var i := DigitRun(body);
    if i > 0 {
      assert body[0] in body;
    } else {
      var rest := body[1..];
      assert IsDigit(rest[0]);
      assert rest[0] == body[1];
    }
  }

  /** A digit of the cleaned text is a digit of the original. */
  lemma CleanedKeepsDigit(s: string, c: char) returns (j: nat)
    requires c in Cleaned(s) && IsDigit(c)
    ensures j < |s| && s[j] == c
  {
    RemoveCommasKeeps(ToLower(s), c);
    var k :| 0 <= k < |s| && ToLower(s)[k] == c;
    j := k;
  }

  /** `1.5` gives 1. */
  lemma ExampleFraction()
    ensures ParseFollowerNumber("1.5") == Number(1)
  {
    CleanedFraction();
    ParsedFraction();
    ParseViaCleaned("1.5", "1.5", Number(1));
  }

  lemma CleanedFraction()
    ensures Cleaned("1.5") == "1.5"
  {
    assert ToLower("1.5") == "1.5";
  }

  lemma ParsedFraction()
    ensures ParseCleaned("1.5") == Number(1)
  {
    var s := "1.5";
    assert s == Decimal(1) + ("." + Decimal(5));
    ParseIntDecimal(1, "." + Decimal(5));
    NoSuffix(s);
  }

  /** The text ends in neither suffix, so `parseInt` decides. */
  lemma NoSuffix(str: string)
    requires str != [] && str[|str| - 1] != 'k' && str[|str| - 1] != 'm'
    ensures ParseCleaned(str) == match ParseInt(str) case None => Null case Some(n) => Number(n)
  {
    assert !EndsWith(str, "k") && !EndsWith(str, "m");
  }

  /** `1.2k` gives 1200. */
  lemma ExampleThousands()
    ensures ParseFollowerNumber("1.2k") == Number(1200)
  {
    var w, f := "1", "2";
    PointTwo(w, f);
    ParseFractionThousands(w, f, 1.2);
    RoundWhole(1200);
  }

  lemma PointTwo(w: string, f: string)
    requires w == "1" && f == "2"
    ensures AllDigits(w) && AllDigits(f) && DigitsValue(w) as real + Fraction(f) == 1.2
    ensures w + "." + f + "k" == "1.2k"
  {
    assert DigitsValue(w) == 1;
    assert Fraction(f) == 0.2;
  }

  lemma ScaledMillion(str: string, v: real)
    requires str != [] && str[|str| - 1] == 'm' && ParseFloat(str).Some? && ParseFloat(str).value == v
    ensures ParseCleaned(str) == Number(Round(v * 1000000.0))
  {
    SuffixM(str);
    MillionOf(ParseFloat(str), v);
  }

  lemma MillionOf(x: Option<real>, v: real)
    requires x.Some? && x.value == v
    ensures Scaled(x, 1000000) == Number(Round(v * 1000000.0))
  {}

  lemma ScaledThousand(str: string, v: real)
    requires str != [] && str[|str| - 1] == 'k' && ParseFloat(str).Some? && ParseFloat(str).value == v
    ensures ParseCleaned(str) == Number(Round(v * 1000.0))
  {
    SuffixK(str);
    ThousandOf(ParseFloat(str), v);
  }

  lemma ThousandOf(x: Option<real>, v: real)
    requires x.Some? && x.value == v
    ensures Scaled(x, 1000) == Number(Round(v * 1000.0))
  {}

  lemma ParseViaCleaned(s: string, str: string, x: FollowerCount)
    requires Cleaned(s) == str && ParseCleaned(str) == x
    ensures ParseFollowerNumber(s) == x
  {}

  /** `2m` gives two million. */
  lemma ExampleMillions()
    ensures ParseFollowerNumber("2m") == Number(2000000)
  {
    DecimalTwoMillions();
    ParseMillions(2);
  }

  lemma DecimalTwoMillions()
    ensures Decimal(2) + "m" == "2m"
  {
    assert Decimal(2) == "2";
  }

  /** `3,456` gives 3456. */
  lemma ExampleGrouped()
    ensures ParseFollowerNumber("3,456") == Number(3456)
  {
    GroupedPieces();
    GroupedDecimal("3", "456", 3456);
  }

  lemma GroupedPieces()
    ensures "3" + "," + "456" == "3,456"
    ensures "3" + "456" == Decimal(3456)
  {
    DecimalExample();
  }

  /** Digits split by a comma parse as the digits joined. */
  lemma GroupedDecimal(a: string, b: string, n: nat)
    requires a + b == Decimal(n)
    ensures ParseFollowerNumber(a + "," + b) == Number(n)
  {
    ParseIgnoresComma(a, b);
    ParseDecimal(n);
  }

  lemma DecimalExample()
    ensures Decimal(3456) == "3456"
  {
    assert Decimal(3) == "3";
    assert Decimal(34) == "34";
    assert Decimal(345) == "345";
  }

  /** A suffix with no number in front gives NaN. */
  lemma ExampleSuffixOnly()
    ensures ParseFollowerNumber("k") == NaN
  {
    CleanedSuffixOnly();
    ParsedSuffixOnly();
    ParseViaCleaned("k", "k", NaN);
  }

  lemma CleanedSuffixOnly()
    ensures Cleaned("k") == "k"
  {
    assert ToLower("k") == "k";
  }

  lemma ParsedSuffixOnly()
    ensures ParseCleaned("k") == NaN
  {
    SuffixK("k");
    FloatSuffixOnly();
  }

  lemma FloatSuffixOnly()
    ensures ParseFloat("k") == None
  {
    NothingToParse("k");
  }

  /** A text that starts with neither whitespace, a sign, a digit nor a point holds
      no number for `parseInt` or `parseFloat`. */
  lemma NothingToParse(s: string)
    requires s != [] && !IsWhitespace(s[0]) && !IsDigit(s[0])
    requires s[0] != '+' && s[0] != '-' && s[0] != '.'
    ensures ParseFloat(s) == None && ParseInt(s) == None
  {
    assert TrimStart(s) == s;
    assert Unsigned(s) == s;
    assert DigitRun(s) == 0;
  }

  /** A text with no number gives null. */
  lemma ExampleNoDigits()
    ensures ParseFollowerNumber("n/a") == Null
  {
    CleanedNoDigits();
    ParsedNoDigits();
    ParseViaCleaned("n/a", "n/a", Null);
  }

  lemma CleanedNoDigits()
    ensures Cleaned("n/a") == "n/a"
  {
    assert ToLower("n/a") == "n/a";
  }

  lemma ParsedNoDigits()
    ensures ParseCleaned("n/a") == Null
  {
    NoSuffix("n/a");
    IntNoDigits();
  }

  lemma IntNoDigits()
    ensures ParseInt("n/a") == None
  {
    NothingToParse("n/a");
  }
}
