/**
 * `parse_fraction_or_decimal`: the text a user types into the nominal and
 * tolerance cells becomes a number. Accepted forms are a decimal (`0.75`), a
 * simple fraction (`3/4`) and a mixed number (`1 3/4`); anything else, a zero
 * denominator included, silently becomes 0.0.
 *
 * Python's `float()` and `Fraction()` are modelled on a restricted grammar:
 * an optional sign, ASCII digits and one decimal point for `float()`, and
 * `[sign] digits/digits` or that same decimal form for `Fraction()`.
 */
module NumberParser {
  import opened Text

  /** What `float(s)` or `Fraction(s)` gives back: a value, or the exception it raises. */
  datatype Parsed = Value(value: real) | ValueError | ZeroDivisionError

  /** The `except (ValueError, ZeroDivisionError): return 0.0` fallback. */
  function OrZero(p: Parsed): real {
    if p.Value? then p.value else 0.0
  }

  /** Position of the first `c` in `s`, or `|s|` when there is none. */
  function IndexOf(s: string, c: char): (i: nat)
    ensures i <= |s|
    ensures i < |s| ==> s[i] == c
  {
    if s == [] then 0 else if s[0] == c then 0 else 1 + IndexOf(s[1..], c)
  }

  /** Python's `c in s` for a single character. */
  predicate Contains(s: string, c: char) {
    IndexOf(s, c) < |s|
  }

  /** Splits off an optional leading `+` or `-`: (is negative, rest). */
  function SplitSign(s: string): (bool, string) {
    if s != [] && (s[0] == '-' || s[0] == '+') then (s[0] == '-', s[1..]) else (false, s)
  }

  function Signed(negative: bool, v: real): real {
    if negative then -v else v
  }

  /** The value of `whole.frac` written in decimal digits. */
  function DecimalValue(whole: string, frac: string): real
    requires AllDigits(whole) && AllDigits(frac)
  {
    DigitsValue(whole) as real + DigitsValue(frac) as real / Pow10(|frac|) as real
  }

  /** `digits [. digits*]` or `. digits`, without sign. */
  function UnsignedDecimal(s: string): Parsed {
    var i := IndexOf(s, '.');
    var whole := s[..i];
    var frac := if i < |s| then s[i + 1..] else [];
    if AllDigits(whole) && AllDigits(frac) && (whole != [] || frac != []) then
      Value(DecimalValue(whole, frac))
    else
      ValueError
  }

  /** `float(s)` for a text without surrounding white space. */
  function ParseDecimal(s: string): Parsed {
    var (negative, body) := SplitSign(s);
    match UnsignedDecimal(body)
    case Value(v) => Value(Signed(negative, v))
    case other => other
  }

  /** `Fraction(s)`: `[sign] digits/digits`, or the decimal form when there is no `/`. */
  function ParseRational(s: string): Parsed {
    if Contains(s, '/') then
      var i := IndexOf(s, '/');
      var (negative, num) := SplitSign(s[..i]);
      var den := s[i + 1..];
      if num != [] && AllDigits(num) && den != [] && AllDigits(den) then
        if DigitsValue(den) == 0 then ZeroDivisionError
        else Value(Signed(negative, DigitsValue(num) as real) / DigitsValue(den) as real)
      else
        ValueError
    else
      ParseDecimal(s)
  }

  /** `parse_fraction_or_decimal(value_str)`. */
  function ParseFractionOrDecimal(text: string): real {
    StripIsTrimmed(text);
    ParseStripped(Strip(text))
  }

  /** The parser after `value_str.strip()`. */
  function ParseStripped(t: string): real
    requires Trimmed(t)
  {
    if t == [] then 0.0
    else if Contains(t, '/') then
      if Contains(t, ' ') then
        SplitTrimmedWithSpace(t, IndexOf(t, ' '));
        MixedValue(Split(t))
      else
        OrZero(ParseRational(t))
    else
      OrZero(ParseDecimal(t))
  }

  /** `float(parts[0]) + float(Fraction(parts[1]))`, 0.0 when either raises. */
  function MixedValue(parts: seq<string>): real
    requires |parts| >= 2
  {
    match ParseDecimal(parts[0])
    case Value(whole) =>
      (match ParseRational(parts[1])
       case Value(frac) => whole + frac
       case _ => 0.0)
    case _ => 0.0
  }

  // ---------------------------------------------------------------------------
  // Facts about IndexOf

  lemma {:induction false} IndexOfAppend(a: string, b: string, c: char)
    ensures IndexOf(a + b, c) == if IndexOf(a, c) < |a| then IndexOf(a, c) else |a| + IndexOf(b, c)
    decreases |a|
  {
    if a == [] {
      assert a + b == b;
    } else {
      assert (a + b)[1..] == a[1..] + b;
      IndexOfAppend(a[1..], b, c);
    }
  }

  /** No `c` comes before the position found, and `c` is found exactly when it occurs. */
  lemma {:induction false} IndexOfFirst(s: string, c: char)
    ensures forall j :: 0 <= j < IndexOf(s, c) ==> s[j] != c
    ensures Contains(s, c) <==> c in s
    decreases |s|
  {
    if s != [] && s[0] != c {
      IndexOfFirst(s[1..], c);
      assert forall j :: 1 <= j < |s| ==> s[j] == s[1..][j - 1];
      assert c in s <==> c in s[1..];
    }
  }

  lemma {:induction false} IndexOfDigits(s: string, c: char)
    requires AllDigits(s) && !IsDigit(c)
    ensures IndexOf(s, c) == |s|
    decreases |s|
  {
    if s != [] {
      IndexOfDigits(s[1..], c);
    }
  }

  /** `str(n)` holds no `/`, `.` or space, and has no white space at its ends. */
  lemma IntToStringShape(n: int)
    ensures var s := IntToString(n);
      && IndexOf(s, '/') == |s| && IndexOf(s, '.') == |s| && IndexOf(s, ' ') == |s|
      && Trimmed(s) && IsToken(s)
  {
    var m: nat := if n < 0 then -n else n;
    var digits := NatToString(m);
    IndexOfDigits(digits, '/');
    IndexOfDigits(digits, '.');
    IndexOfDigits(digits, ' ');
    if n < 0 {
      IndexOfAppend("-", digits, '/');
      IndexOfAppend("-", digits, '.');
      IndexOfAppend("-", digits, ' ');
    }
  }

  /** `float(str(n)) == n`. */
  lemma DecimalOfIntToString(n: int)
    ensures ParseDecimal(IntToString(n)) == Value(n as real)
  {
    var m: nat := if n < 0 then -n else n;
    var digits := NatToString(m);
    IndexOfDigits(digits, '.');
    assert digits[..|digits|] == digits;
    if n < 0 {
      assert SplitSign(IntToString(n)) == (true, digits);
    } else {
      assert SplitSign(IntToString(n)) == (false, digits);
    }
  }

  // ---------------------------------------------------------------------------
  // Strip and white space

  lemma {:induction false} TrimLeftAppend(s: string, b: string)
    requires !Blank(s)
    ensures TrimLeft(s + b) == TrimLeft(s) + b
    decreases |s|
  {
    if IsSpace(s[0]) {
      assert (s + b)[1..] == s[1..] + b;
      TrimLeftAppend(s[1..], b);
    }
  }

  /** White space around the text does not change its strip. */
  lemma StripIgnoresPadding(a: string, s: string, b: string)
    requires Blank(a) && Blank(b)
    ensures Strip(a + s + b) == Strip(s)
  {
    if Blank(s) {
      BlankConcat(a, s, b);
      StripEmptyIffBlank(a + s + b);
      StripEmptyIffBlank(s);
    } else {
      Assoc(a, s, b);
      TrimLeftBlankPrefix(a, s + b);
      TrimLeftAppend(s, b);
      TrimRightBlankSuffix(TrimLeft(s), b);
    }
  }

  lemma BlankConcat(a: string, s: string, b: string)
    requires Blank(a) && Blank(s) && Blank(b)
    ensures Blank(a + s + b)
  {
  }

  /** Text without surrounding white space goes straight to the dispatch on `/` and space. */
  lemma ParseTrimmed(s: string)
    requires Trimmed(s)
    ensures ParseFractionOrDecimal(s) == ParseStripped(s)
  {
    StripTrimmed(s);
  }

  // ---------------------------------------------------------------------------
  // Properties of the parser

  /** Empty or white-space-only text gives 0.0. */
  lemma ParseBlank(s: string)
    requires Blank(s)
    ensures ParseFractionOrDecimal(s) == 0.0
  {
    StripEmptyIffBlank(s);
  }

  /** White space around the text is ignored. */
  lemma ParseIgnoresPadding(a: string, s: string, b: string)
    requires Blank(a) && Blank(b)
    ensures ParseFractionOrDecimal(a + s + b) == ParseFractionOrDecimal(s)
  {
    StripIgnoresPadding(a, s, b);
  }

  /** An integer written by `str(n)` reads back as n. */
  lemma ParseInteger(n: int)
    ensures ParseFractionOrDecimal(IntToString(n)) == n as real
  {
    IntToStringShape(n);
    ParseTrimmed(IntToString(n));
    DecimalOfIntToString(n);
  }

  lemma UnsignedDecimalText(a: string, b: string)
    requires AllDigits(a) && AllDigits(b) && a != []
    ensures UnsignedDecimal(a + "." + b)
         == Value(DecimalValue(a, b))
  {
    var s := a + "." + b;
    IndexOfDigits(a, '.');
    IndexOfAppend(a, "." + b, '.');
    assert a + ("." + b) == s;
    var i := IndexOf(s, '.');
    assert i == |a|;
    assert s[..i] == a;
    assert s[i + 1..] == b;
  }

  /** Shape of `digits.digits`: trimmed, no `/`, no sign. */
  lemma DecimalTextShape(a: string, b: string)
    requires AllDigits(a) && AllDigits(b) && a != []
    ensures var s := a + "." + b;
      && Trimmed(s) && !Contains(s, '/') && SplitSign(s) == (false, s)
  {
    var s := a + "." + b;
    assert s[0] == a[0];
    assert s[|s| - 1] == (if b == [] then '.' else b[|b| - 1]);
    IndexOfDigits(a, '/');
    IndexOfDigits(b, '/');
    IndexOfAppend(a, ".", '/');
    IndexOfAppend(a + ".", b, '/');
  }

  lemma StrippedDecimal(t: string)
    requires Trimmed(t) && !Contains(t, '/')
    ensures ParseStripped(t) == OrZero(ParseDecimal(t))
  {
  }

  /** A trimmed text without `/` is read by `float()` alone. */
  lemma ParseStrippedDecimal(t: string)
    requires Trimmed(t) && !Contains(t, '/')
    ensures ParseFractionOrDecimal(t) == OrZero(ParseDecimal(t))
  {
    StrippedDecimal(t);
    ParseTrimmed(t);
  }

  /** `digits.digits` reads as its decimal value. */
  lemma ParseDecimalText(a: string, b: string)
    requires AllDigits(a) && AllDigits(b) && a != []
    ensures ParseFractionOrDecimal(a + "." + b) == DecimalValue(a, b)
  {
    var s := a + "." + b;
    DecimalTextShape(a, b);
    UnsignedDecimalText(a, b);
    ParseStrippedDecimal(s);
  }

  /** `-digits.digits` reads as the negated decimal value. */
  lemma ParseNegativeDecimalText(a: string, b: string)
    requires AllDigits(a) && AllDigits(b) && a != []
    ensures ParseFractionOrDecimal("-" + a + "." + b) == -DecimalValue(a, b)
  {
    var t := a + "." + b;
    var s := "-" + t;
    assert "-" + a + "." + b == s;
    DecimalTextShape(a, b);
    UnsignedDecimalText(a, b);
    assert s[1..] == t;
    assert IndexOf(s, '/') == 1 + IndexOf(t, '/');
    assert SplitSign(s) == (true, t);
    assert s[|s| - 1] == t[|t| - 1];
    ParseStrippedDecimal(s);
  }

  /** Shape of `num + "/" + den` for two tokens, the first without `/`. */
  lemma SlashTextShape(num: string, den: string)
    requires IsToken(num) && IsToken(den) && !Contains(num, '/')
    ensures var s := num + "/" + den;
      && Trimmed(s) && IsToken(s)
      && IndexOf(s, '/') == |num| && !Contains(s, ' ')
      && s[..|num|] == num && s[|num| + 1..] == den
  {
    var s := num + "/" + den;
    IndexOfAppend(num, "/", '/');
    IndexOfAppend(num + "/", den, '/');
    NoSpaceConcat(num, "/");
    NoSpaceConcat(num + "/", den);
    assert s[0] == num[0] && s[|s| - 1] == den[|den| - 1];
    assert s[..|num|] == num && s[|num| + 1..] == den;
  }

  /** Shape of `str(n) + "/" + str(d)`: one token, with a slash at `|str(n)|`. */
  lemma FractionTextShape(n: int, d: nat)
    ensures var s := IntToString(n) + "/" + NatToString(d);
      && Trimmed(s) && IsToken(s)
      && IndexOf(s, '/') == |IntToString(n)| && !Contains(s, ' ')
      && s[..|IntToString(n)|] == IntToString(n) && s[|IntToString(n)| + 1..] == NatToString(d)
  {
    IntToStringShape(n);
    DigitsHaveNoSpace(NatToString(d));
    SlashTextShape(IntToString(n), NatToString(d));
  }

  /** `Fraction(str(n) + "/" + str(d))`. */
  lemma RationalOfFractionText(n: int, d: nat)
    ensures ParseRational(IntToString(n) + "/" + NatToString(d))
         == if d == 0 then ZeroDivisionError else Value(n as real / d as real)
  {
    var num := IntToString(n);
    var den := NatToString(d);
    var s := num + "/" + den;
    var m: nat := if n < 0 then -n else n;
    var digits := NatToString(m);
    FractionTextShape(n, d);
    if n < 0 {
      assert SplitSign(num) == (true, digits);
    } else {
      assert SplitSign(num) == (false, digits);
    }
    assert Signed(n < 0, m as real) == n as real;
  }

  /** `n/d` reads as n/d; a zero denominator reads as 0.0 instead of raising. */
  lemma ParseSimpleFraction(n: int, d: nat)
    ensures ParseFractionOrDecimal(IntToString(n) + "/" + NatToString(d))
         == if d == 0 then 0.0 else n as real / d as real
  {
    var s := IntToString(n) + "/" + NatToString(d);
    FractionTextShape(n, d);
    ParseTrimmed(s);
    RationalOfFractionText(n, d);
  }

  /** A text with a `/` and no space is read by `Fraction()` alone. */
  lemma ParseStrippedRational(t: string)
    requires Trimmed(t) && Contains(t, '/') && !Contains(t, ' ')
    ensures ParseFractionOrDecimal(t) == OrZero(ParseRational(t))
  {
    StrippedRational(t);
    ParseTrimmed(t);
  }

  lemma StrippedRational(t: string)
    requires Trimmed(t) && Contains(t, '/') && !Contains(t, ' ')
    ensures ParseStripped(t) == OrZero(ParseRational(t))
  {
  }

  lemma StrippedMixed(t: string)
    requires Trimmed(t) && Contains(t, '/') && Contains(t, ' ')
    ensures |Split(t)| >= 2 && ParseStripped(t) == MixedValue(Split(t))
  {
    SplitTrimmedWithSpace(t, IndexOf(t, ' '));
  }

  /** A trimmed text holding both `/` and a space is read as a mixed number. */
  lemma ParseStrippedMixed(t: string)
    requires Trimmed(t) && Contains(t, '/') && Contains(t, ' ')
    ensures |Split(t)| >= 2 && ParseFractionOrDecimal(t) == MixedValue(Split(t))
  {
    StrippedMixed(t);
    ParseTrimmed(t);
  }

  /** A token followed by a space and more text holding a `/` has both separators. */
  lemma MixedShape(whole: string, tail: string)
    requires IsToken(whole) && tail != [] && tail[0] == ' ' && !IsSpace(tail[|tail| - 1])
    requires Contains(tail, '/')
    ensures var s := whole + tail; Trimmed(s) && Contains(s, '/') && Contains(s, ' ')
  {
    var s := whole + tail;
    IndexOfAppend(whole, tail, '/');
    IndexOfAppend(whole, tail, ' ');
    assert s[0] == whole[0] && s[|s| - 1] == tail[|tail| - 1];
  }

  /** `whole + " " + frac` for two tokens, the second holding a `/`, is read as a mixed number. */
  lemma ParseTwoTokens(whole: string, frac: string)
    requires IsToken(whole) && IsToken(frac) && Contains(frac, '/')
    ensures ParseFractionOrDecimal(whole + " " + frac) == MixedValue([whole, frac])
  {
    var s := whole + " " + frac;
    var tail := " " + frac;
    assert s == whole + tail;
    IndexOfAppend(" ", frac, '/');
    MixedShape(whole, tail);
    ParseStrippedMixed(s);
    SplitOfTwoTokens(whole, frac);
  }

  /**
   * `w n/d` reads as w + n/d. The fraction does not take the sign of the whole
   * part, so `-1 1/2` reads as -0.5.
   */
  lemma ParseMixed(w: int, n: int, d: nat)
    ensures ParseFractionOrDecimal(IntToString(w) + " " + IntToString(n) + "/" + NatToString(d))
         == if d == 0 then 0.0 else w as real + n as real / d as real
  {
    var whole := IntToString(w);
    var frac := IntToString(n) + "/" + NatToString(d);
    IntToStringShape(w);
    FractionTextShape(n, d);
    MixedOfInts(w, n, d);
    ParseTwoTokens(whole, frac);
    ConcatAssoc(whole, " ", IntToString(n), "/", NatToString(d));
  }

  lemma MixedOfInts(w: int, n: int, d: nat)
    ensures MixedValue([IntToString(w), IntToString(n) + "/" + NatToString(d)])
         == if d == 0 then 0.0 else w as real + n as real / d as real
  {
    DecimalOfIntToString(w);
    RationalOfFractionText(n, d);
  }

  /** In a mixed number, parts after the second are ignored. */
  lemma ParseMixedIgnoresExtraParts(whole: string, frac: string, extra: string)
    requires IsToken(whole) && IsToken(frac) && Contains(frac, '/')
    requires extra != [] && !IsSpace(extra[|extra| - 1])
    ensures ParseFractionOrDecimal(whole + " " + frac + " " + extra)
         == ParseFractionOrDecimal(whole + " " + frac)
  {
    var long := whole + " " + frac + " " + extra;
    var tail := " " + (frac + (" " + extra));
    assert long == whole + tail;
    IndexOfAppend(frac, " " + extra, '/');
    IndexOfAppend(" ", frac + (" " + extra), '/');
    MixedShape(whole, tail);
    ParseStrippedMixed(long);
    MixedOfExtraParts(whole, frac, extra);
    ParseTwoTokens(whole, frac);
  }

  lemma MixedOfExtraParts(whole: string, frac: string, extra: string)
    requires IsToken(whole) && IsToken(frac)
    ensures var parts := Split(whole + " " + frac + " " + extra);
      |parts| >= 2 && MixedValue(parts) == MixedValue([whole, frac])
  {
    var rest := " " + extra;
    var long := whole + " " + frac + rest;
    Assoc(whole + " " + frac, " ", extra);
    SplitTwoTokens(whole, frac, rest);
    StartsWithTwo(whole, frac, Split(rest));
    MixedValueFirstTwo(Split(long));
  }

  /** Only the first two parts of a mixed number are read. */
  lemma MixedValueFirstTwo(parts: seq<string>)
    requires |parts| >= 2
    ensures MixedValue(parts) == MixedValue([parts[0], parts[1]])
  {
  }

  // ---------------------------------------------------------------------------
  // Worked examples

  /** A denominator that is not a digit string (`1/x`, `1/2/3`) reads as 0.0. */
  lemma ParseBadDenominator(n: int, den: string)
    requires IsToken(den) && !AllDigits(den)
    ensures ParseFractionOrDecimal(IntToString(n) + "/" + den) == 0.0
  {
    IntToStringShape(n);
    SlashTextShape(IntToString(n), den);
    ParseStrippedRational(IntToString(n) + "/" + den);
  }

  /** A text without `/` that does not start like a number (`abc`) reads as 0.0. */
  lemma ParseNotANumber(s: string)
    requires Trimmed(s) && s != [] && !Contains(s, '/')
    requires !IsDigit(s[0]) && s[0] !in {'.', '+', '-'}
    ensures ParseFractionOrDecimal(s) == 0.0
  {
    ParseStrippedDecimal(s);
    assert SplitSign(s) == (false, s);
    assert s[..IndexOf(s, '.')][0] == s[0];
  }

  /** Two slashes read as 0.0. */
  lemma ParseTwoSlashesExample()
    ensures ParseFractionOrDecimal("1/2/3") == 0.0
  {
    assert Contains("1/2/3", '/') && !Contains("1/2/3", ' ');
    ParseStrippedRational("1/2/3");
    assert !AllDigits("2/3") by { assert !IsDigit("2/3"[1]); }
    assert ParseRational("1/2/3") == ValueError;
  }
}
