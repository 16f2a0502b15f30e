/**
 * Character classes and the few Python string operations the core relies on:
 * `str.strip()`, `str.split()` with no separator, `str(n)` for integers and the
 * digit value of an ASCII digit string.
 */
module Text {

  /** Python's `str.isspace()` restricted to the Basic Multilingual Plane. */
  predicate IsSpace(c: char) {
    || ('\t' <= c <= '\r')
    || ('\U{1C}' <= c <= ' ')
    || c == '\U{85}' || c == '\U{A0}' || c == '\U{1680}'
    || ('\U{2000}' <= c <= '\U{200A}')
    || c == '\U{2028}' || c == '\U{2029}' || c == '\U{202F}' || c == '\U{205F}' || c == '\U{3000}'
  }

  predicate IsDigit(c: char) {
    '0' <= c <= '9'
  }

  predicate AllDigits(s: string) {
    forall i :: 0 <= i < |s| ==> IsDigit(s[i])
  }

  /** Every character is white space (the empty string included). */
  predicate Blank(s: string) {
    forall i :: 0 <= i < |s| ==> IsSpace(s[i])
  }

  predicate NoSpace(s: string) {
    forall i :: 0 <= i < |s| ==> !IsSpace(s[i])
  }

  /** Neither end is white space. */
  predicate Trimmed(s: string) {
    s == [] || (!IsSpace(s[0]) && !IsSpace(s[|s| - 1]))
  }

  /** `s.lstrip()`: the longest suffix of `s` that does not start with white space. */
  function TrimLeft(s: string): (r: string)
    ensures |r| <= |s| && r == s[|s| - |r|..]
    ensures Blank(s[..|s| - |r|])
    ensures r == [] || !IsSpace(r[0])
    ensures r == [] <==> Blank(s)
  {
    if s != [] && IsSpace(s[0]) then
      var r := TrimLeft(s[1..]);
      assert s[|s| - |r|..] == s[1..][|s[1..]| - |r|..];
      BlankPrefixCons(s, |s| - |r|);
      assert r == [] ==> s[..|s| - |r|] == s;
      assert Blank(s) ==> Blank(s[1..]);
      r
    else s
  }

  /** A blank prefix of the tail, behind a white-space head, is a blank prefix. */
  lemma BlankPrefixCons(s: string, k: nat)
    requires 0 < k <= |s| && IsSpace(s[0]) && Blank(s[1..][..k - 1])
    ensures Blank(s[..k])
  {
  }

  /** `s.rstrip()`: the longest prefix of `s` that does not end with white space. */
  function TrimRight(s: string): (r: string)
    ensures |r| <= |s| && r == s[..|r|]
    ensures Blank(s[|r|..])
    ensures r == [] || !IsSpace(r[|r| - 1])
    ensures r == [] <==> Blank(s)
  {
    if s != [] && IsSpace(s[|s| - 1]) then TrimRight(s[..|s| - 1]) else s
  }

  /** `s.strip()`. */
  function Strip(s: string): string {
    TrimRight(TrimLeft(s))
  }

  /** Length of the leading run of characters that are not white space. */
  function TokenEnd(s: string): (n: nat)
    ensures n <= |s|
    ensures NoSpace(s[..n])
    ensures n < |s| ==> IsSpace(s[n])
  {
    if s == [] || IsSpace(s[0]) then 0 else 1 + TokenEnd(s[1..])
  }

  /** A non-empty run of characters none of which is white space. */
  predicate IsToken(s: string) {
    s != [] && NoSpace(s)
  }

  /** `s.split()`: the maximal runs of non-white-space characters, in order. */
  function Split(s: string): seq<string>
    decreases |s|
  {
    var t := TrimLeft(s);
    if t == [] then []
    else
      var n := TokenEnd(t);
      assert n > 0 by { assert !IsSpace(t[0]); }
      [t[..n]] + Split(t[n..])
  }

  /** Every part of a split is a non-empty run without white space. */
  lemma {:induction false} SplitPartsAreTokens(s: string)
    ensures forall k :: 0 <= k < |Split(s)| ==> IsToken(Split(s)[k])
    decreases |s|
  {
    var t := TrimLeft(s);
    if t == [] {
      assert Split(s) == [];
    } else {
      var n := TokenEnd(t);
      assert n > 0 by { assert !IsSpace(t[0]); }
      var rest := Split(t[n..]);
      SplitPartsAreTokens(t[n..]);
      var parts := [t[..n]] + rest;
      assert Split(s) == parts;
      forall k | 0 <= k < |parts|
        ensures IsToken(parts[k])
      {
        if k > 0 {
          assert parts[k] == rest[k - 1];
        }
      }
    }
  }

  function DigitValue(c: char): nat
    requires IsDigit(c)
  {
    c as int - '0' as int
  }

  function DigitChar(d: nat): (c: char)
    requires d < 10
    ensures IsDigit(c) && DigitValue(c) == d
  {
    ('0' as int + d) as char
  }

  /** The value of a string of decimal digits, most significant first. */
  function DigitsValue(s: string): nat
    requires AllDigits(s)
  {
    if s == [] then 0 else 10 * DigitsValue(s[..|s| - 1]) + DigitValue(s[|s| - 1])
  }

  function Pow10(k: nat): (p: nat)
    ensures p >= 1
  {
    if k == 0 then 1 else 10 * Pow10(k - 1)
  }

  /** `str(n)` for a non-negative integer. */
  function NatToString(n: nat): (s: string)
    ensures s != [] && AllDigits(s)
    ensures DigitsValue(s) == n
  {
    if n < 10 then [DigitChar(n)]
    else
      var prefix := NatToString(n / 10);
      var s := prefix + [DigitChar(n % 10)];
      assert s[..|s| - 1] == prefix;
      s
  }

  /** `str(n)` for any integer. */
  function IntToString(n: int): (s: string)
    ensures s != [] && NoSpace(s)
    ensures n >= 0 ==> s == NatToString(n)
    ensures n < 0 ==> s == "-" + NatToString(-n)
  {
    if n < 0 then "-" + NatToString(-n) else NatToString(n)
  }

  /** `str` gives different integers different texts. */
  lemma IntToStringInjective(n: int, m: int)
    ensures IntToString(n) == IntToString(m) ==> n == m
  {
    assert IsDigit(NatToString(if n < 0 then -n else n)[0]);
    assert IsDigit(NatToString(if m < 0 then -m else m)[0]);
    if IntToString(n) == IntToString(m) {
      if n < 0 && m < 0 {
        assert NatToString(-n) == IntToString(n)[1..] == NatToString(-m);
      }
    }
  }

  lemma DigitsHaveNoSpace(s: string)
    requires AllDigits(s)
    ensures NoSpace(s)
  {
  }

  // ---------------------------------------------------------------------------
  // Strip

  lemma {:induction false} TrimLeftBlankPrefix(a: string, s: string)
    requires Blank(a)
    ensures TrimLeft(a + s) == TrimLeft(s)
    decreases |a|
  {
    if a != [] {
      assert (a + s)[1..] == a[1..] + s;
      TrimLeftBlankPrefix(a[1..], s);
    } else {
      assert a + s == s;
    }
  }

  lemma {:induction false} TrimRightBlankSuffix(s: string, b: string)
    requires Blank(b)
    ensures TrimRight(s + b) == TrimRight(s)
    decreases |b|
  {
    if b != [] {
      assert (s + b)[..|s + b| - 1] == s + b[..|b| - 1];
      TrimRightBlankSuffix(s, b[..|b| - 1]);
    } else {
      assert s + b == s;
    }
  }

  lemma TrimLeftOfTrimmed(s: string)
    requires s == [] || !IsSpace(s[0])
    ensures TrimLeft(s) == s
  {
  }

  lemma TrimRightOfTrimmed(s: string)
    requires s == [] || !IsSpace(s[|s| - 1])
    ensures TrimRight(s) == s
  {
  }

  /** A string whose ends are not white space is its own strip. */
  lemma StripTrimmed(s: string)
    requires Trimmed(s)
    ensures Strip(s) == s
  {
    TrimLeftOfTrimmed(s);
    TrimRightOfTrimmed(s);
  }

  /** `strip` removes exactly the white space around a trimmed text. */
  lemma StripPadded(a: string, t: string, b: string)
    requires Blank(a) && Blank(b) && Trimmed(t)
    ensures Strip(a + t + b) == t
  {
    assert a + t + b == a + (t + b);
    TrimLeftBlankPrefix(a, t + b);
    if t == [] {
      assert t + b == b;
      assert TrimLeft(b) == [] by {
        if b != [] {
          assert b[|b| - |TrimLeft(b)|..] == TrimLeft(b);
        }
      }
    } else {
      assert (t + b)[0] == t[0];
      TrimLeftOfTrimmed(t + b);
      TrimRightBlankSuffix(t, b);
      TrimRightOfTrimmed(t);
    }
  }

  /** The strip of a text is empty exactly when the text is all white space. */
  lemma StripEmptyIffBlank(s: string)
    ensures Strip(s) == [] <==> Blank(s)
  {
    var l := TrimLeft(s);
    assert l != [] ==> !Blank(l) by {
      if l != [] {
        assert !IsSpace(l[0]);
      }
    }
  }

  /** The strip of a text is trimmed. */
  lemma StripIsTrimmed(s: string)
    ensures Trimmed(Strip(s))
  {
    var l := TrimLeft(s);
    var r := TrimRight(l);
    if r != [] {
      assert r[0] == l[0];
    }
  }

  // ---------------------------------------------------------------------------
  // Split

  /** A token followed by white space (or by nothing) is the first part of the split. */
  lemma SplitToken(tok: string, rest: string)
    requires tok != [] && NoSpace(tok)
    requires rest == [] || IsSpace(rest[0])
    ensures Split(tok + rest) == [tok] + Split(rest)
  {
    var s := tok + rest;
    assert TrimLeft(s) == s;
    TokenEndOf(tok, rest);
    assert s[..|tok|] == tok && s[|tok|..] == rest;
  }

  lemma {:induction false} TokenEndOf(tok: string, rest: string)
    requires NoSpace(tok)
    requires rest == [] || IsSpace(rest[0])
    ensures TokenEnd(tok + rest) == |tok|
    decreases |tok|
  {
    if tok != [] {
      assert (tok + rest)[1..] == tok[1..] + rest;
      TokenEndOf(tok[1..], rest);
    } else {
      assert tok + rest == rest;
    }
  }

  /** Leading white space does not change the split. */
  lemma SplitBlankPrefix(a: string, s: string)
    requires Blank(a)
    ensures Split(a + s) == Split(s)
  {
    TrimLeftBlankPrefix(a, s);
    assert TrimLeft(TrimLeft(s)) == TrimLeft(s);
  }

  /** A text with some non-white-space character splits into at least one part. */
  lemma SplitNonBlank(s: string)
    requires !Blank(s)
    ensures Split(s) != []
  {
    var t := TrimLeft(s);
    assert s == s[..|s| - |t|] + t;
  }

  /** A trimmed text with an interior space splits into at least two parts. */
  lemma SplitTrimmedWithSpace(s: string, k: nat)
    requires Trimmed(s) && k < |s| && s[k] == ' '
    ensures |Split(s)| >= 2
  {
    assert TrimLeft(s) == s;
    var n := TokenEnd(s);
    assert n <= k by {
      assert forall i :: 0 <= i < n ==> s[..n][i] == s[i];
    }
    var rest := s[n..];
    assert rest[|rest| - 1] == s[|s| - 1];
    assert !Blank(rest);
    SplitNonBlank(rest);
  }

  /** White space then a token: the token is the first part of the split. */
  lemma SplitSpaceToken(tok: string, rest: string)
    requires IsToken(tok)
    requires rest == [] || IsSpace(rest[0])
    ensures Split(" " + (tok + rest)) == [tok] + Split(rest)
  {
    SplitBlankPrefix(" ", tok + rest);
    SplitToken(tok, rest);
  }

  /** The split of `whole + " " + frac + rest` for two tokens. */
  lemma SplitTwoTokens(whole: string, frac: string, rest: string)
    requires IsToken(whole) && IsToken(frac)
    requires rest == [] || IsSpace(rest[0])
    ensures Split(whole + " " + frac + rest) == [whole, frac] + Split(rest)
  {
    var tail := " " + (frac + rest);
    Assoc4(whole, " ", frac, rest);
    SplitToken(whole, tail);
    SplitSpaceToken(frac, rest);
    PrependTwo(whole, frac, Split(rest));
  }

  /** The split of `whole + " " + frac` for two tokens. */
  lemma SplitOfTwoTokens(whole: string, frac: string)
    requires IsToken(whole) && IsToken(frac)
    ensures Split(whole + " " + frac) == [whole, frac]
  {
    SplitTwoTokens(whole, frac, []);
    assert whole + " " + frac + [] == whole + " " + frac;
    assert Split([]) == [];
    AppendEmpty([whole, frac]);
  }

  lemma PrependTwo<T>(a: T, b: T, r: seq<T>)
    ensures [a] + ([b] + r) == [a, b] + r
  {
  }

  lemma AppendEmpty<T>(r: seq<T>)
    ensures r + [] == r
  {
  }

  lemma ConcatAssoc<T>(a: seq<T>, b: seq<T>, c: seq<T>, d: seq<T>, e: seq<T>)
    ensures a + b + (c + d + e) == a + b + c + d + e
  {
  }

  lemma Assoc<T>(a: seq<T>, b: seq<T>, c: seq<T>)
    ensures a + b + c == a + (b + c)
  {
  }

  lemma Assoc4<T>(a: seq<T>, b: seq<T>, c: seq<T>, d: seq<T>)
    ensures a + b + c + d == a + (b + (c + d))
  {
  }

  lemma StartsWithTwo<T>(a: T, b: T, r: seq<T>)
    ensures |[a, b] + r| >= 2 && ([a, b] + r)[0] == a && ([a, b] + r)[1] == b
  {
  }

  lemma NoSpaceConcat(a: string, b: string)
    requires NoSpace(a) && NoSpace(b)
    ensures NoSpace(a + b)
  {
  }
}
