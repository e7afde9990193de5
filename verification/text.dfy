/** String helpers that stand in for the Python built-ins the screens and
    scripts rely on: stripping whitespace, writing and reading decimal
    numerals, zero-padded formatting, and joining with a separator. */
module Text {

  /** The characters Python counts as whitespace, which are what stripping
      without an argument removes. */
  predicate IsSpace(c: char)
  {
    c == ' ' || c == '\t' || c == '\n' || c == '\r' || c == '\U{000B}' || c == '\U{000C}'
    || ('\U{001C}' <= c <= '\U{001F}')
    || c == '\U{0085}' || c == '\U{00A0}' || c == '\U{1680}'
    || ('\U{2000}' <= c <= '\U{200A}')
    || c == '\U{2028}' || c == '\U{2029}' || c == '\U{202F}' || c == '\U{205F}' || c == '\U{3000}'
  }

  /** A string holding nothing but whitespace (the empty string included). */
  predicate IsBlank(s: string)
  {
    forall i :: 0 <= i < |s| ==> IsSpace(s[i])
  }

  /** The suffix left after dropping leading whitespace. */
  function TrimLeft(s: string): (r: string)
    ensures |r| <= |s| && r == s[|s| - |r|..]
    ensures IsBlank(s[..|s| - |r|])
    ensures |r| > 0 ==> !IsSpace(r[0])
  {
    if |s| > 0 && IsSpace(s[0]) then TrimLeft(s[1..]) else s
  }

  /** The prefix left after dropping trailing whitespace. */
  function TrimRight(s: string): (r: string)
    ensures |r| <= |s| && r == s[..|r|]
    ensures IsBlank(s[|r|..])
    ensures |r| > 0 ==> !IsSpace(r[|r| - 1])
  {
    if |s| > 0 && IsSpace(s[|s| - 1]) then TrimRight(s[..|s| - 1]) else s
  }

  /** `r` is what is left of `s` once a whitespace-only prefix and a
      whitespace-only suffix are cut off. */
  ghost predicate IsInnerOf(s: string, r: string)
  {
    exists k :: 0 <= k <= |s| - |r| && r == s[k..k + |r|]
                && IsBlank(s[..k]) && IsBlank(s[k + |r|..])
  }

  /** Whitespace dropped from both ends. */
  function Strip(s: string): (r: string)
    ensures |r| <= |s|
    ensures |r| > 0 ==> !IsSpace(r[0]) && !IsSpace(r[|r| - 1])
    ensures IsInnerOf(s, r)
  {
    var l := TrimLeft(s);
    var r := TrimRight(l);
    var k := |s| - |l|;
    StripIsInnerSlice(s, l, r, k);
    r
  }

  /** Trimming the right end of the left-trimmed text keeps the stretch of
      `s` between a blank prefix and a blank suffix, and that stretch neither
      starts nor ends with whitespace. */
  lemma {:induction false} StripIsInnerSlice(s: string, l: string, r: string, k: nat)
    requires k <= |s| && l == s[k..] && IsBlank(s[..k])
    requires |l| > 0 ==> !IsSpace(l[0])
    requires |r| <= |l| && r == l[..|r|] && IsBlank(l[|r|..])
    requires |r| > 0 ==> !IsSpace(r[|r| - 1])
    ensures |r| <= |s| && IsInnerOf(s, r)
    ensures |r| > 0 ==> !IsSpace(r[0]) && !IsSpace(r[|r| - 1])
  {
    assert s[k + |r|..] == l[|r|..];
    assert r == s[k..k + |r|];
    if |r| > 0 {
      assert r[0] == l[0];
    }
  }

  /** Stripping leaves nothing exactly for the whitespace-only strings. */
  lemma {:induction false} StripEmptyIffBlank(s: string)
    ensures Strip(s) == "" <==> IsBlank(s)
  {
    if Strip(s) == "" {
      BlankWhenStripEmpty(s);
    }
  }

  lemma {:induction false} BlankWhenStripEmpty(s: string)
    requires Strip(s) == ""
    ensures IsBlank(s)
  {
    var l := TrimLeft(s);
    var k := |s| - |l|;
    assert IsBlank(l) by {
      assert l[0..] == l;
    }
    BlankAppend(s[..k], l);
    TrimLeftSplits(s);
  }

  lemma {:induction false} TrimLeftSplits(s: string)
    ensures s[..|s| - |TrimLeft(s)|] + TrimLeft(s) == s
  {
    var k := |s| - |TrimLeft(s)|;
    assert s == s[..k] + s[k..];
  }

  lemma BlankAppend(a: string, b: string)
    requires IsBlank(a) && IsBlank(b)
    ensures IsBlank(a + b)
  {
    forall i | 0 <= i < |a + b| ensures IsSpace((a + b)[i]) {
      if i >= |a| {
        assert (a + b)[i] == b[i - |a|];
      }
    }
  }

  // ---------------------------------------------------------------- decimal

  predicate IsDigit(c: char)
  {
    '0' <= c <= '9'
  }

  predicate AllDigits(s: string)
  {
    forall i :: 0 <= i < |s| ==> IsDigit(s[i])
  }

  function DigitChar(d: nat): (c: char)
    requires d < 10
    ensures IsDigit(c)
  {
    ('0' as int + d) as char
  }

  function DigitValue(c: char): (r: nat)
    requires IsDigit(c)
  {
    c as int - '0' as int
  }

  /** The decimal numeral of a non-negative integer: its digits, no sign, no
      leading zero. */
  function Decimal(n: nat): (r: string)
    ensures |r| >= 1 && AllDigits(r)
    ensures |r| > 1 ==> r[0] != '0'
    decreases n
  {
    if n < 10 then [DigitChar(n)] else Decimal(n / 10) + [DigitChar(n % 10)]
  }

  /** The value of a string of decimal digits. */
  function ParseDecimal(s: string): (r: nat)
    requires AllDigits(s)
  {
    if |s| == 0 then 0 else ParseDecimal(s[..|s| - 1]) * 10 + DigitValue(s[|s| - 1])
  }

  /** Reading a numeral back gives the number it was written from. */
  lemma {:induction false} ParseDecimalOfDecimal(n: nat)
    ensures ParseDecimal(Decimal(n)) == n
    decreases n
  {
    var s := Decimal(n);
    if n >= 10 {
      assert s[..|s| - 1] == Decimal(n / 10);
      ParseDecimalOfDecimal(n / 10);
    }
  }

  /** Different numbers have different numerals. */
  lemma DecimalInjective(m: nat, n: nat)
    ensures Decimal(m) == Decimal(n) ==> m == n
  {
    ParseDecimalOfDecimal(m);
    ParseDecimalOfDecimal(n);
  }

  function Zeros(n: nat): (r: string)
    ensures |r| == n && AllDigits(r)
    ensures forall i :: 0 <= i < n ==> r[i] == '0'
  {
    if n == 0 then "" else "0" + Zeros(n - 1)
  }

  /** Leading zeros do not change the value of a digit string. */
  lemma {:induction false} ParseIgnoresLeadingZeros(n: nat, s: string)
    requires AllDigits(s)
    ensures ParseDecimal(Zeros(n) + s) == ParseDecimal(s)
    decreases |s|
  {
    var z := Zeros(n);
    if |s| == 0 {
      assert z + s == z;
      ZerosParseToZero(n);
    } else {
      var t := z + s;
      assert t[..|t| - 1] == z + s[..|s| - 1];
      ParseIgnoresLeadingZeros(n, s[..|s| - 1]);
    }
  }

  lemma {:induction false} ZerosParseToZero(n: nat)
    ensures ParseDecimal(Zeros(n)) == 0
  {
    if n > 0 {
      var z := Zeros(n);
      assert z[..|z| - 1] == Zeros(n - 1) by {
        assert z == "0" + Zeros(n - 1);
        assert z == Zeros(n - 1) + "0";
      }
      ZerosParseToZero(n - 1);
    }
  }

  /** The numeral of `n`, padded on the left with zeros to at least `width`
      characters. */
  function ZeroPadded(n: nat, width: nat): (r: string)
    ensures AllDigits(r)
    ensures |r| == if |Decimal(n)| < width then width else |Decimal(n)|
  {
    var d := Decimal(n);
    if |d| < width then Zeros(width - |d|) + d else d
  }

  /** Reading a zero-padded number back gives the number. */
  lemma {:induction false} ParseZeroPadded(n: nat, width: nat)
    ensures ParseDecimal(ZeroPadded(n, width)) == n
  {
    var d := Decimal(n);
    ParseDecimalOfDecimal(n);
    if |d| < width {
      assert ZeroPadded(n, width) == Zeros(width - |d|) + d;
      ParseIgnoresLeadingZeros(width - |d|, d);
    } else {
      assert ZeroPadded(n, width) == d;
    }
  }

  // ---------------------------------------------------------------- joining

  /** The parts with `sep` between each and the next. */
  function Join(sep: string, parts: seq<string>): (r: string)
  {
    if |parts| == 0 then ""
    else if |parts| == 1 then parts[0]
    else parts[0] + sep + Join(sep, parts[1..])
  }

  /** The string does not contain the character `c`. */
  predicate Lacks(s: string, c: char)
  {
    forall i :: 0 <= i < |s| ==> s[i] != c
  }

  lemma {:induction false} JoinLacks(sep: string, parts: seq<string>, c: char)
    requires Lacks(sep, c)
    requires forall i :: 0 <= i < |parts| ==> Lacks(parts[i], c)
    ensures Lacks(Join(sep, parts), c)
  {
    if |parts| > 1 {
      JoinLacks(sep, parts[1..], c);
    }
  }
}
