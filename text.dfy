/** The string helpers the header codec relies on: trimming, splitting on a
    separator, ASCII case folding and decimal numbers. */
module Text {
  import opened Wrappers

  // ---------------------------------------------------------------- trimming

  /** Java's String.trim() removes leading and trailing characters at or below U+0020. */
  predicate IsBlank(c: char) { c <= ' ' }

  predicate AllBlank(s: string) { forall i :: 0 <= i < |s| ==> IsBlank(s[i]) }

  function TrimStart(s: string): (r: string)
    ensures |r| <= |s| && r == s[|s| - |r|..]
    ensures r != [] ==> !IsBlank(r[0])
    ensures AllBlank(s[..|s| - |r|])
  {
    if s != [] && IsBlank(s[0]) then
      var r := TrimStart(s[1..]);
      assert s[..|s| - |r|] == [s[0]] + s[1..][..|s| - 1 - |r|];
      r
    else s
  }

  function TrimEnd(s: string): (r: string)
    ensures |r| <= |s| && r == s[..|r|]
    ensures r != [] ==> !IsBlank(r[|r| - 1])
    ensures AllBlank(s[|r|..])
  {
    if s != [] && IsBlank(s[|s| - 1]) then
      var r := TrimEnd(s[..|s| - 1]);
      assert s[|r|..] == s[..|s| - 1][|r|..] + [s[|s| - 1]];
      r
    else s
  }

  /** The trimmed text is the input with a blank prefix and a blank suffix cut
      off; it is empty exactly when every character was blank, and otherwise it
      neither starts nor ends with a blank. */
  function Trim(s: string): (r: string)
    ensures |r| <= |s|
    ensures exists a :: 0 <= a <= |s| - |r| && r == s[a..a + |r|] && AllBlank(s[..a]) && AllBlank(s[a + |r|..])
    ensures r == [] <==> AllBlank(s)
    ensures r != [] ==> !IsBlank(r[0]) && !IsBlank(r[|r| - 1])
  {
    var t := TrimStart(s);
    var r := TrimEnd(t);
    BlankPrefixAndSuffix(s, t, r);
    r
  }

  /** Cutting a blank prefix and then a blank suffix leaves an infix of s
      between blanks, empty exactly when s is all blank. */
  lemma BlankPrefixAndSuffix(s: string, t: string, r: string)
    requires |t| <= |s| && t == s[|s| - |t|..] && AllBlank(s[..|s| - |t|])
    requires |r| <= |t| && r == t[..|r|] && AllBlank(t[|r|..])
    requires t != [] ==> !IsBlank(t[0])
    ensures exists a :: 0 <= a <= |s| - |r| && r == s[a..a + |r|] && AllBlank(s[..a]) && AllBlank(s[a + |r|..])
    ensures r == [] <==> AllBlank(s)
  {
    var a := |s| - |t|;
    assert s == s[..a] + t;
    assert r == [] ==> AllBlank(t);
    assert s[a + |r|..] == t[|r|..];
    assert r == s[a..a + |r|];
  }

  // --------------------------------------------------------------- splitting

  function Join(parts: seq<string>, sep: char): string
  {
    if parts == [] then []
    else if |parts| == 1 then parts[0]
    else parts[0] + [sep] + Join(parts[1..], sep)
  }

  /** Splits s at every occurrence of sep, keeping empty pieces (also a
      leading or trailing one): joining the pieces back gives s. */
  function Split(s: string, sep: char): (r: seq<string>)
    ensures |r| >= 1
    ensures forall i :: 0 <= i < |r| ==> sep !in r[i]
    ensures Join(r, sep) == s
  {
    if s == [] then [[]]
    else
      var rest := Split(s[1..], sep);
      if s[0] == sep then
        assert [s[0]] + s[1..] == s;
        [[]] + rest
      else
        var r := [[s[0]] + rest[0]] + rest[1..];
        assert r[1..] == rest[1..];
        assert Join(r, sep) == [s[0]] + Join(rest, sep);
        r
  }

  /** Text without the separator is a single piece. */
  lemma {:induction false} SplitWithoutSeparator(a: string, sep: char)
    requires sep !in a
    ensures Split(a, sep) == [a]
  {
    if a != [] {
      SplitWithoutSeparator(a[1..], sep);
      assert [a[0]] + a[1..] == a;
    }
  }

  /** The first separator ends the first piece. */
  lemma {:induction false} SplitAtFirstSeparator(a: string, b: string, sep: char)
    requires sep !in a
    ensures Split(a + [sep] + b, sep) == [a] + Split(b, sep)
  {
    var s := a + [sep] + b;
    if a == [] {
      assert s[1..] == b;
    } else {
      assert s[1..] == a[1..] + [sep] + b;
      SplitAtFirstSeparator(a[1..], b, sep);
      assert [a[0]] + a[1..] == a;
    }
  }

  /** Three pieces joined by the separator split back into those pieces. */
  lemma SplitThree(a: string, b: string, c: string, sep: char)
    requires sep !in a && sep !in b && sep !in c
    ensures Split(a + [sep] + b + [sep] + c, sep) == [a, b, c]
  {
    assert a + [sep] + b + [sep] + c == a + [sep] + (b + [sep] + c);
    SplitAtFirstSeparator(a, b + [sep] + c, sep);
    SplitAtFirstSeparator(b, c, sep);
    SplitWithoutSeparator(c, sep);
  }

  /** Leading blanks in front of text that starts with a non-blank are all removed. */
  lemma {:induction false} TrimStartPadding(pad: string, t: string)
    requires AllBlank(pad)
    requires t != [] && !IsBlank(t[0])
    ensures TrimStart(pad + t) == t
  {
    if pad == [] {
      assert pad + t == t;
    } else {
      assert (pad + t)[1..] == pad[1..] + t;
      TrimStartPadding(pad[1..], t);
    }
  }

  /** Trailing blanks after text that ends with a non-blank are all removed. */
  lemma {:induction false} TrimEndPadding(t: string, pad: string)
    requires AllBlank(pad)
    requires t != [] && !IsBlank(t[|t| - 1])
    ensures TrimEnd(t + pad) == t
  {
    if pad == [] {
      assert t + pad == t;
    } else {
      var n := |pad| - 1;
      assert (t + pad)[..|t + pad| - 1] == t + pad[..n];
      TrimEndPadding(t, pad[..n]);
    }
  }

  /** Blanks around text whose ends are non-blank trim away to that text. */
  lemma TrimSurroundingBlanks(before: string, t: string, after: string)
    requires AllBlank(before) && AllBlank(after)
    requires t != [] && !IsBlank(t[0]) && !IsBlank(t[|t| - 1])
    ensures Trim(before + t + after) == t
  {
    assert before + t + after == before + (t + after);
    TrimStartPadding(before, t + after);
    TrimEndPadding(t, after);
  }

  // ------------------------------------------------------------- case folding

  function ToLowerAscii(c: char): char
  {
    if 'A' <= c <= 'Z' then (c as int + 32) as char else c
  }

  predicate EqualsIgnoreCase(a: string, b: string)
  {
    |a| == |b| && forall i :: 0 <= i < |a| ==> ToLowerAscii(a[i]) == ToLowerAscii(b[i])
  }

  function LowerAscii(s: string): string
  {
    seq(|s|, i requires 0 <= i < |s| => ToLowerAscii(s[i]))
  }

  /** Two strings are equal ignoring case exactly when their lower-case forms
      are equal, so the relation is symmetric and every string matches itself. */
  lemma EqualsIgnoreCaseIff(a: string, b: string)
    ensures EqualsIgnoreCase(a, b) <==> LowerAscii(a) == LowerAscii(b)
    ensures EqualsIgnoreCase(a, b) <==> EqualsIgnoreCase(b, a)
    ensures EqualsIgnoreCase(a, a)
  {
    if LowerAscii(a) == LowerAscii(b) {
      forall i | 0 <= i < |a| ensures ToLowerAscii(a[i]) == ToLowerAscii(b[i]) {
        assert LowerAscii(a)[i] == LowerAscii(b)[i];
      }
    }
  }

  // --------------------------------------------------------- decimal numbers

  predicate IsDigit(c: char) { '0' <= c <= '9' }

  predicate AllDigits(s: string) { forall i :: 0 <= i < |s| ==> IsDigit(s[i]) }

  function DigitChar(d: nat): (c: char)
    requires d < 10
    ensures IsDigit(c) && c as int - '0' as int == d
  {
    ('0' as int + d) as char
  }

  /** The value of a string of decimal digits; leading zeros are allowed. */
  function DigitsValue(s: string): nat
    requires AllDigits(s)
  {
    if s == [] then 0 else 10 * DigitsValue(s[..|s| - 1]) + (s[|s| - 1] as int - '0' as int)
  }

  /** A numeral written without leading zeros: one digit, or several of
      which the first is not `0`. */
  predicate IsCanonicalNumeral(s: string)
  {
    s != [] && AllDigits(s) && (|s| == 1 || s[0] != '0')
  }

  /** The shortest decimal rendering of n; reading it back yields n. */
  function NatToString(n: nat): (s: string)
    ensures IsCanonicalNumeral(s)
    ensures DigitsValue(s) == n
  {
    if n < 10 then [DigitChar(n)]
    else
      var p := NatToString(n / 10);
      var s := p + [DigitChar(n % 10)];
      assert s[..|s| - 1] == p;
      assert s[0] == p[0];
      assert |p| == 1 ==> DigitsValue(p) == p[0] as int - '0' as int;
      s
  }

  /** A numeral whose first digit is not `0` has a positive value. */
  lemma {:induction false} LeadingDigitPositive(s: string)
    requires s != [] && AllDigits(s) && s[0] != '0'
    ensures DigitsValue(s) > 0
  {
    var p := s[..|s| - 1];
    if |s| > 1 {
      assert p[0] == s[0];
      LeadingDigitPositive(p);
    }
  }

  /** Reading a numeral without leading zeros and writing the value back
      gives the same text, so NatToString is onto such numerals. */
  lemma {:induction false} CanonicalNumeralRoundTrip(s: string)
    requires IsCanonicalNumeral(s)
    ensures NatToString(DigitsValue(s)) == s
  {
    var p, d := s[..|s| - 1], s[|s| - 1];
    var n := DigitsValue(s);
    if |s| == 1 {
      assert p == [] && DigitsValue(p) == 0;
      assert n == d as int - '0' as int;
      assert DigitChar(n) == d;
      assert s == [d];
    } else {
      assert p[0] == s[0];
      LeadingDigitPositive(p);
      CanonicalNumeralRoundTrip(p);
      assert n / 10 == DigitsValue(p) && n % 10 == d as int - '0' as int;
      assert DigitChar(n % 10) == d;
      assert s == p + [d];
    }
  }

  /** Reads a non-negative decimal number; anything but a non-empty run of digits is rejected. */
  function ParseNat(s: string): (r: Option<nat>)
    ensures r.Some? <==> s != [] && AllDigits(s)
    ensures r.Some? ==> r.value == DigitsValue(s)
  {
    if s != [] && AllDigits(s) then Some(DigitsValue(s)) else None
  }

  /** Java's Long.toString. */
  function IntToString(i: int): string
  {
    if i < 0 then "-" + NatToString(-i) else NatToString(i)
  }
}
