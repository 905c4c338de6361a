/** Python's `int(text)` with the default base 10, as the list endpoints apply
    it to every piece of the `ids` parameter (main.py:141, 157, 173).  The
    accepted grammar is: optional whitespace, an optional `+` or `-`, a run of
    ASCII decimal digits in which a single `_` may separate two digits, and
    optional whitespace.  Leading zeros are allowed.  Anything else raises
    ValueError, modelled as `None`. */
module PyInt {
  import opened Wrappers

  /** The characters `int()` skips around a number: the ASCII whitespace
      tab, line feed, vertical tab, form feed, carriage return and space, and
      every non-ASCII character that `str.isspace()` accepts (CPython maps
      those to a space before parsing).  The ASCII separators U+001C-U+001F
      count as whitespace for `str.isspace()` but not for `int()`, which
      rejects them. */
  predicate IsSpace(c: char) {
    || '\U{9}' <= c <= '\U{D}'
    || c == ' '
    || c == '\U{85}' || c == '\U{A0}' || c == '\U{1680}'
    || '\U{2000}' <= c <= '\U{200A}'
    || c == '\U{2028}' || c == '\U{2029}' || c == '\U{202F}' || c == '\U{205F}'
    || c == '\U{3000}'
  }

  predicate IsDigit(c: char) {
    '0' <= c <= '9'
  }

  ghost predicate AllSpace(s: string) {
    forall i :: 0 <= i < |s| ==> IsSpace(s[i])
  }

  /** `s` with its leading whitespace removed. */
  function TrimStart(s: string): (r: string)
    ensures |r| <= |s|
    ensures forall c :: c in r ==> c in s
    ensures forall i :: 0 <= i < |s| && !IsSpace(s[i]) ==> s[i] in r
    ensures r == [] || !IsSpace(r[0])
    ensures |r| > 0 ==> r[|r| - 1] == s[|s| - 1]
  {
    if |s| > 0 && IsSpace(s[0]) then
      var r := TrimStart(s[1..]);
      assert forall i :: 1 <= i < |s| ==> s[i] == s[1..][i - 1];
      r
    else s
  }

  /** `s` with its trailing whitespace removed. */
  function TrimEnd(s: string): (r: string)
    ensures |r| <= |s|
    ensures forall c :: c in r ==> c in s
    ensures forall i :: 0 <= i < |s| && !IsSpace(s[i]) ==> s[i] in r
    ensures r == [] || !IsSpace(r[|r| - 1])
    ensures |r| > 0 ==> r[0] == s[0]
  {
    if |s| > 0 && IsSpace(s[|s| - 1]) then
      var r := TrimEnd(s[..|s| - 1]);
      assert forall i :: 0 <= i < |s| - 1 ==> s[i] == s[..|s| - 1][i];
      r
    else s
  }

  /** `s` with whitespace removed from both ends: it keeps every character of
      `s` that is not whitespace, adds none, and neither starts nor ends with
      whitespace. */
  function Strip(s: string): (r: string)
    ensures forall c :: c in r ==> c in s
    ensures forall i :: 0 <= i < |s| && !IsSpace(s[i]) ==> s[i] in r
    ensures r == [] || (!IsSpace(r[0]) && !IsSpace(r[|r| - 1]))
  {
    TrimEnd(TrimStart(s))
  }

  /** One or more digits, where a single `_` may stand between two digits. */
  predicate IsDigitRun(t: string) {
    && |t| > 0
    && IsDigit(t[0])
    && IsDigit(t[|t| - 1])
    && (forall i :: 0 <= i < |t| ==> IsDigit(t[i]) || t[i] == '_')
    && (forall i :: 0 <= i < |t| - 1 ==> t[i] != '_' || t[i + 1] != '_')
  }

  /** The digits of a run, with the separating underscores dropped. */
  function DigitsOf(t: string): (r: string)
    ensures |r| <= |t|
    ensures forall c :: c in r <==> c in t && c != '_'
    ensures (forall i :: 0 <= i < |t| ==> IsDigit(t[i]) || t[i] == '_') ==>
              forall i :: 0 <= i < |r| ==> IsDigit(r[i])
  {
    if |t| == 0 then []
    else if t[0] == '_' then DigitsOf(t[1..])
    else [t[0]] + DigitsOf(t[1..])
  }

  function DigitValue(c: char): (d: nat)
    requires IsDigit(c)
    ensures d < 10
  {
    (c as int) - ('0' as int)
  }

  /** The number a string of decimal digits denotes, most significant first. */
  function Value(ds: string): (n: nat)
    requires forall i :: 0 <= i < |ds| ==> IsDigit(ds[i])
  {
    if |ds| == 0 then 0
    else Value(ds[..|ds| - 1]) * 10 + DigitValue(ds[|ds| - 1])
  }

  /** The value of a digit run, or `None` if `t` is not one. */
  function ParseRun(t: string): (r: Option<nat>)
  {
    if IsDigitRun(t) then Some(Value(DigitsOf(t))) else None
  }

  /** The value of a stripped token: an optional sign and a digit run. */
  function ParseSigned(t: string): (r: Option<int>)
  {
    if |t| > 0 && (t[0] == '+' || t[0] == '-') then
      match ParseRun(t[1..])
      case None => None
      case Some(n) => Some(if t[0] == '-' then -(n as int) else n as int)
    else
      match ParseRun(t)
      case None => None
      case Some(n) => Some(n)
  }

  /** The value of `int(token)`, or `None` where Python raises ValueError. */
  function ParseInt(token: string): (r: Option<int>)
  {
    ParseSigned(Strip(token))
  }

  function DigitChar(d: nat): (c: char)
    requires d < 10
    ensures IsDigit(c) && DigitValue(c) == d
  {
    (('0' as int) + d) as char
  }

  /** The decimal rendering of a natural number, without leading zeros. */
  function FormatNat(n: nat): (s: string)
    ensures |s| > 0
    ensures forall i :: 0 <= i < |s| ==> IsDigit(s[i])
    ensures Value(s) == n
    decreases n
  {
    if n < 10 then
      [DigitChar(n)]
    else
      var s := FormatNat(n / 10) + [DigitChar(n % 10)];
      assert s[..|s| - 1] == FormatNat(n / 10);
      s
  }

  /** The decimal rendering of an integer, as Python's `str(n)` writes it. */
  function FormatInt(n: int): (s: string)
  {
    if n < 0 then "-" + FormatNat(-n) else FormatNat(n)
  }

  lemma {:induction false} DigitsOfPlain(s: string)
    requires forall i :: 0 <= i < |s| ==> IsDigit(s[i])
    ensures DigitsOf(s) == s
  {
    if |s| > 0 {
      DigitsOfPlain(s[1..]);
    }
  }

  lemma {:induction false} TrimStartPadding(ws: string, t: string)
    requires AllSpace(ws)
    requires |t| > 0 && !IsSpace(t[0])
    ensures TrimStart(ws + t) == t
    decreases |ws|
  {
    if |ws| > 0 {
      assert (ws + t)[1..] == ws[1..] + t;
      TrimStartPadding(ws[1..], t);
    } else {
      assert ws + t == t;
    }
  }

  lemma {:induction false} TrimEndPadding(t: string, ws: string)
    requires AllSpace(ws)
    requires |t| > 0 && !IsSpace(t[|t| - 1])
    ensures TrimEnd(t + ws) == t
    decreases |ws|
  {
    if |ws| > 0 {
      assert (t + ws)[..|t + ws| - 1] == t + ws[..|ws| - 1];
      TrimEndPadding(t, ws[..|ws| - 1]);
    } else {
      assert t + ws == t;
    }
  }

  /** Surrounding whitespace does not change what `int()` reads from a token
      that starts and ends with a non-space character. */
  lemma StripPadding(ws: string, t: string, ws': string)
    requires AllSpace(ws) && AllSpace(ws')
    requires |t| > 0 && !IsSpace(t[0]) && !IsSpace(t[|t| - 1])
    ensures Strip(ws + t + ws') == t
  {
    assert ws + t + ws' == ws + (t + ws');
    TrimStartPadding(ws, t + ws');
    TrimEndPadding(t, ws');
  }

  /** A plain run of digits is a digit run and is read as its value. */
  lemma PlainRunValue(t: string)
    requires |t| > 0 && forall i :: 0 <= i < |t| ==> IsDigit(t[i])
    ensures ParseRun(t) == Some(Value(t))
  {
    assert IsDigitRun(t);
    DigitsOfPlain(t);
  }

  /** A plain run of digits is read as its value, with or without a sign. */
  lemma PlainRun(t: string)
    requires |t| > 0 && forall i :: 0 <= i < |t| ==> IsDigit(t[i])
    ensures ParseSigned(t) == Some(Value(t))
    ensures ParseSigned("+" + t) == Some(Value(t))
    ensures ParseSigned("-" + t) == Some(-(Value(t) as int))
  {
    PlainRunValue(t);
    UnsignedRun(t);
    SignedRun('+', t);
    SignedRun('-', t);
    assert [('+')] + t == "+" + t;
    assert [('-')] + t == "-" + t;
  }

  lemma UnsignedRun(t: string)
    requires |t| > 0 && IsDigit(t[0]) && ParseRun(t).Some?
    ensures ParseSigned(t) == Some(ParseRun(t).value as int)
  {
  }

  lemma SignedRun(sign: char, t: string)
    requires sign == '+' || sign == '-'
    requires ParseRun(t).Some?
    ensures ParseSigned([sign] + t) == Some(if sign == '-' then -(ParseRun(t).value as int) else ParseRun(t).value)
  {
    assert ([sign] + t)[1..] == t;
  }

  /** A token with no whitespace at its ends is read as it stands. */
  lemma ParseUnpadded(ws: string, t: string, ws': string)
    requires AllSpace(ws) && AllSpace(ws')
    requires |t| > 0 && !IsSpace(t[0]) && !IsSpace(t[|t| - 1])
    ensures ParseInt(ws + t + ws') == ParseSigned(t)
  {
    StripPadding(ws, t, ws');
  }

  /** The rendering of an integer is a signed digit run with no whitespace at
      its ends, and it reads back as the integer. */
  lemma FormatIntReads(n: int)
    ensures |FormatInt(n)| > 0
    ensures !IsSpace(FormatInt(n)[0]) && !IsSpace(FormatInt(n)[|FormatInt(n)| - 1])
    ensures ParseSigned(FormatInt(n)) == Some(n)
  {
    if n < 0 {
      var digits := FormatNat(-n);
      PlainRun(digits);
      assert FormatInt(n) == "-" + digits;
    } else {
      PlainRun(FormatNat(n));
    }
  }

  /** `int(str(n)) == n`, even with whitespace around the digits: every
      integer id an orchestrator writes into the list is read back intact. */
  lemma FormatIntRoundTrip(n: int, ws: string, ws': string)
    requires AllSpace(ws) && AllSpace(ws')
    ensures ParseInt(ws + FormatInt(n) + ws') == Some(n)
  {
    FormatIntReads(n);
    ParseUnpadded(ws, FormatInt(n), ws');
  }

  /** An explicit `+` changes nothing: `int("+" + str(n)) == n`. */
  lemma PlusSignRoundTrip(n: nat)
    ensures ParseInt("+" + FormatNat(n)) == Some(n)
  {
    var d := FormatNat(n);
    PlainRun(d);
    var t := "+" + d;
    assert !IsSpace(t[0]);
    assert t[|t| - 1] == d[|d| - 1];
    assert IsDigit(d[|d| - 1]);
    StripPadding("", t, "");
    assert "" + t + "" == t;
    assert Strip(t) == t;
  }

  /** A token holding any character other than whitespace, a digit, a sign or
      `_` is rejected, wherever that character stands (`int("abc")` raises). */
  lemma ForeignCharRejected(token: string, i: int)
    requires 0 <= i < |token|
    requires !IsSpace(token[i]) && !IsDigit(token[i]) && token[i] !in "+-_"
    ensures ParseInt(token) == None
  {
    var t := Strip(token);
    assert token[i] in t;
  }

  lemma {:induction false} DigitsOfAppend(a: string, b: string)
    ensures DigitsOf(a + b) == DigitsOf(a) + DigitsOf(b)
    decreases |a|
  {
    if |a| > 0 {
      assert (a + b)[1..] == a[1..] + b;
      DigitsOfAppend(a[1..], b);
    } else {
      assert a + b == b;
    }
  }

  ghost predicate AllDigits(s: string) {
    |s| > 0 && forall i :: 0 <= i < |s| ==> IsDigit(s[i])
  }

  lemma JoinedRuns(a: string, b: string)
    requires AllDigits(a) && AllDigits(b)
    ensures IsDigitRun(a + "_" + b)
    ensures AllDigits(a + b)
  {
    var t := a + "_" + b;
    forall i | 0 <= i < |t|
      ensures IsDigit(t[i]) || t[i] == '_'
      ensures i != |a| ==> IsDigit(t[i])
    {
      if i < |a| {
        assert t[i] == a[i];
      } else if i > |a| {
        assert t[i] == b[i - |a| - 1];
      }
    }
    var u := a + b;
    forall i | 0 <= i < |u|
      ensures IsDigit(u[i])
    {
      if i < |a| {
        assert u[i] == a[i];
      } else {
        assert u[i] == b[i - |a|];
      }
    }
  }

  lemma UnderscoreDigits(a: string, b: string)
    requires AllDigits(a) && AllDigits(b)
    ensures DigitsOf(a + "_" + b) == a + b
  {
    DigitsOfAppend(a + "_", b);
    DigitsOfAppend(a, "_");
    DigitsOfPlain(a);
    DigitsOfPlain(b);
    assert DigitsOf("_") == "";
    assert a + "" == a;
  }

  /** A digit-led token is read without a sign. */
  lemma DigitLed(t: string)
    requires |t| > 0 && IsDigit(t[0])
    ensures ParseSigned(t) == match ParseRun(t) case None => None case Some(n) => Some(n as int)
  {
  }

  lemma UnderscoreRun(a: string, b: string)
    requires AllDigits(a) && AllDigits(b)
    ensures ParseRun(a + "_" + b) == Some(Value(a + b))
    ensures ParseRun(a + b) == Some(Value(a + b))
  {
    JoinedRuns(a, b);
    UnderscoreDigits(a, b);
    PlainRunValue(a + b);
  }

  /** A single `_` between two digits is a pure separator: the token reads
      as if it were absent. */
  lemma UnderscoreIgnored(a: string, b: string)
    requires AllDigits(a) && AllDigits(b)
    ensures ParseInt(a + "_" + b) == ParseInt(a + b)
  {
    var t := a + "_" + b;
    var u := a + b;
    assert t[0] == a[0] && t[|t| - 1] == b[|b| - 1];
    assert u[0] == a[0] && u[|u| - 1] == b[|b| - 1];
    ParseUnpadded("", t, "");
    ParseUnpadded("", u, "");
    assert "" + t + "" == t && "" + u + "" == u;
    DigitLed(t);
    DigitLed(u);
    UnderscoreRun(a, b);
  }
}
