/** JavaScript values as the handlers and components see them, and the
    coercions they rely on: truthiness, `Number(...)`, `isNaN`, `parseInt`,
    `parseFloat` and `String.prototype.trim`. */
module Js {

  datatype Option<+T> = None | Some(value: T) {
    /** The value, or `default` when there is none (a JS `??`/`||` default). */
    function GetOr(default: T): T {
      if Some? then value else default
    }
  }

  // ---------------------------------------------------------------------
  // Characters and runs of characters
  // ---------------------------------------------------------------------

  /** Line terminators: what the regular-expression `.` does not match. */
  predicate IsLineTerminator(c: char) {
    c == '\n' || c == '\r' || c == '\U{2028}' || c == '\U{2029}'
  }

  /** What `.` in a regular expression matches. */
  predicate IsLineChar(c: char) {
    !IsLineTerminator(c)
  }

  /** White space and line terminators: what `\s` matches and `trim` removes. */
  predicate IsSpace(c: char) {
    || IsLineTerminator(c)
    || c == '\t' || c == '\U{000B}' || c == '\U{000C}' || c == ' '
    || c == '\U{00A0}' || c == '\U{1680}' || ('\U{2000}' <= c <= '\U{200A}')
    || c == '\U{202F}' || c == '\U{205F}' || c == '\U{3000}' || c == '\U{FEFF}'
  }

  /** What `\d` matches: the ASCII digits only. */
  predicate IsDigit(c: char) {
    '0' <= c <= '9'
  }

  predicate AllDigits(s: string) {
    forall i :: 0 <= i < |s| ==> IsDigit(s[i])
  }

  predicate AllSpace(s: string) {
    forall i :: 0 <= i < |s| ==> IsSpace(s[i])
  }

  /** The length of the longest prefix of `s` whose characters all satisfy `p`. */
  function Span(s: string, p: char -> bool): (n: nat)
    ensures n <= |s|
    ensures forall i :: 0 <= i < n ==> p(s[i])
    ensures n == |s| || !p(s[n])
  {
    if s != [] && p(s[0]) then 1 + Span(s[1..], p) else 0
  }

  /** The three properties of `Span` determine it. */
  lemma {:induction false} SpanUnique(s: string, p: char -> bool, n: nat)
    requires n <= |s|
    requires forall i :: 0 <= i < n ==> p(s[i])
    requires n == |s| || !p(s[n])
    ensures Span(s, p) == n
  {
    if n > 0 {
      assert p(s[0]);
      SpanUnique(s[1..], p, n - 1);
    }
  }

  // ---------------------------------------------------------------------
  // trim
  // ---------------------------------------------------------------------

  function TrimStart(s: string): (r: string)
    ensures |r| <= |s| && r == s[|s| - |r|..]
    ensures AllSpace(s[..|s| - |r|])
    ensures r == [] || !IsSpace(r[0])
  {
    if s != [] && IsSpace(s[0]) then TrimStart(s[1..]) else s
  }

  function TrimEnd(s: string): (r: string)
    ensures |r| <= |s| && r == s[..|r|]
    ensures AllSpace(s[|r|..])
    ensures r == [] || !IsSpace(r[|r| - 1])
  {
    if s != [] && IsSpace(s[|s| - 1]) then TrimEnd(s[..|s| - 1]) else s
  }

  /** `s.trim()`: neither end of the result is white space, and only white
      space was removed. */
  function Trim(s: string): (r: string)
    ensures r == [] || (!IsSpace(r[0]) && !IsSpace(r[|r| - 1]))
    ensures |r| <= |s|
  {
    TrimEnd(TrimStart(s))
  }

  /** `trim` removes white space from the two ends and nothing else: the
      result is the part of `s` between a white-space prefix and a
      white-space suffix. */
  lemma TrimCutsOnlySpace(s: string)
    ensures exists i :: 0 <= i <= |s| - |Trim(s)| && Trim(s) == s[i..i + |Trim(s)|]
                        && AllSpace(s[..i]) && AllSpace(s[i + |Trim(s)|..])
  {
    var i := |s| - |TrimStart(s)|;
    TrimBounds(s, TrimStart(s), Trim(s), i);
  }

  lemma TrimBounds(s: string, t: string, r: string, i: nat)
    requires |t| <= |s| && i == |s| - |t| && t == s[i..] && AllSpace(s[..i])
    requires |r| <= |t| && r == t[..|r|] && AllSpace(t[|r|..])
    ensures i <= |s| - |r| && r == s[i..i + |r|] && AllSpace(s[..i]) && AllSpace(s[i + |r|..])
  {
    assert s[i + |r|..] == t[|r|..];
  }

  /** Leading white space makes no difference to `trimStart`. */
  lemma {:induction false} TrimStartSkipsSpace(w: string, t: string)
    requires AllSpace(w)
    ensures TrimStart(w + t) == TrimStart(t)
  {
    if w != [] {
      assert IsSpace((w + t)[0]);
      assert TrimStart(w + t) == TrimStart((w + t)[1..]);
      assert (w + t)[1..] == w[1..] + t;
      assert AllSpace(w[1..]) by {
        forall i | 0 <= i < |w| - 1 ensures IsSpace(w[1..][i]) {
          assert w[1..][i] == w[i + 1];
        }
      }
      TrimStartSkipsSpace(w[1..], t);
    } else {
      assert w + t == t;
    }
  }

  /** A string of white space trims to the empty string. */
  lemma TrimOfSpace(w: string)
    requires AllSpace(w)
    ensures Trim(w) == []
  {
    TrimStartSkipsSpace(w, []);
    assert w + [] == w;
  }

  /** A string that neither starts nor ends with white space is its own trim. */
  lemma TrimOfTrimmed(s: string)
    requires s != [] && !IsSpace(s[0]) && !IsSpace(s[|s| - 1])
    ensures Trim(s) == s
  {
  }

  // ---------------------------------------------------------------------
  // Decimal digits
  // ---------------------------------------------------------------------

  function DigitValue(c: char): (d: nat)
    ensures d <= 9
  {
    if IsDigit(c) then c as int - '0' as int else 0
  }

  function Pow10(k: nat): (p: nat)
    ensures p >= 1
  {
    if k == 0 then 1 else 10 * Pow10(k - 1)
  }

  /** A positive power of ten is at least 10. */
  lemma Pow10AtLeastTen(k: nat)
    requires k >= 1
    ensures Pow10(k) >= 10
  {
  }

  /** The base-10 value of a digit string, most significant digit first. */
  function DigitsValue(d: string): nat
  {
    if d == [] then 0 else 10 * DigitsValue(d[..|d| - 1]) + DigitValue(d[|d| - 1])
  }

  /** A string of k digits is worth less than 10^k. */
  lemma {:induction false} DigitsValueBound(d: string)
    ensures DigitsValue(d) < Pow10(|d|)
  {
    if d != [] {
      DigitsValueBound(d[..|d| - 1]);
    }
  }

  /** Leading zeros do not change the value: base 10, not octal. */
  lemma {:induction false} LeadingZeroIgnored(d: string)
    ensures DigitsValue("0" + d) == DigitsValue(d)
  {
    if d != [] {
      assert ("0" + d)[..|"0" + d| - 1] == "0" + d[..|d| - 1];
      LeadingZeroIgnored(d[..|d| - 1]);
    }
  }

  // ---------------------------------------------------------------------
  // Numeric strings
  // ---------------------------------------------------------------------

  /** An unsigned decimal numeral found at the start of a string: how many
      integer digits and fraction digits it has, and how many characters it
      spans. */
  datatype Numeral = Numeral(wholeDigits: nat, fractionDigits: nat, length: nat)

  /** The value of numeral `n` read from the start of `t`: its integer
      digits, plus its fraction digits over the matching power of ten. */
  function NumeralValue(t: string, n: Numeral): real
    requires n.wholeDigits <= |t| && n.fractionDigits <= n.length <= |t|
  {
    DigitsValue(t[..n.wholeDigits]) as real
      + DigitsValue(t[n.length - n.fractionDigits..n.length]) as real / Pow10(n.fractionDigits) as real
  }

  /** The longest prefix of `t` that reads as `digits`, `digits.`,
      `digits.digits` or `.digits`. */
  function ScanDecimal(t: string): (r: Option<Numeral>)
    ensures r.None? <==> !(|t| > 0 && (IsDigit(t[0]) || (t[0] == '.' && |t| > 1 && IsDigit(t[1]))))
    ensures r.Some? ==> r.value.wholeDigits == Span(t, IsDigit) && r.value.length <= |t|
    ensures r.Some? ==>
              || (r.value.length == r.value.wholeDigits && r.value.fractionDigits == 0)
              || (r.value.wholeDigits < |t| && t[r.value.wholeDigits] == '.'
                  && r.value.length == r.value.wholeDigits + 1 + r.value.fractionDigits
                  && r.value.fractionDigits == Span(t[r.value.wholeDigits + 1..], IsDigit))
    ensures r.Some? ==> r.value.length == |t| || !IsDigit(t[r.value.length])
    ensures r.Some? && r.value.wholeDigits < |t| && t[r.value.wholeDigits] == '.' ==>
              r.value.length > r.value.wholeDigits
  {
    var i := Span(t, IsDigit);
    if i < |t| && t[i] == '.' then
      var f := Span(t[i + 1..], IsDigit);
      assert i + 1 + f == |t| || t[i + 1 + f] == t[i + 1..][f];
      if i == 0 && f == 0 then None else Some(Numeral(i, f, i + 1 + f))
    else if i == 0 then None
    else Some(Numeral(i, 0, i))
  }

  /** Whether a string starts with a minus sign. */
  predicate Negative(s: string) {
    s != [] && s[0] == '-'
  }

  /** The string without its leading `-` or `+`, if any. */
  function Unsigned(s: string): (u: string)
    ensures s != [] && (s[0] == '-' || s[0] == '+') ==> u == s[1..]
    ensures s == [] || (s[0] != '-' && s[0] != '+') ==> u == s
  {
    if s != [] && (s[0] == '-' || s[0] == '+') then s[1..] else s
  }

  predicate IsHexDigit(c: char) {
    IsDigit(c) || 'a' <= c <= 'f' || 'A' <= c <= 'F'
  }

  function HexDigitValue(c: char): (d: nat)
    ensures d <= 15
    ensures IsDigit(c) ==> d == DigitValue(c)
  {
    if IsDigit(c) then DigitValue(c)
    else if 'a' <= c <= 'f' then c as int - 'a' as int + 10
    else if 'A' <= c <= 'F' then c as int - 'A' as int + 10
    else 0
  }

  /** The value of a digit string in base `b`, most significant digit first. */
  function RadixDigitsValue(b: nat, h: string): nat
  {
    if h == [] then 0 else b * RadixDigitsValue(b, h[..|h| - 1]) + HexDigitValue(h[|h| - 1])
  }

  /** Text starting with `0x` or `0X`, which `parseInt` without a radix reads
      in base 16. */
  predicate HexPrefixed(u: string) {
    |u| >= 2 && u[0] == '0' && (u[1] == 'x' || u[1] == 'X')
  }

  /** What `parseInt` reads after the sign: after `0x` or `0X` the longest
      run of hexadecimal digits, otherwise the longest run of decimal digits;
      None when that run is empty. */
  function Magnitude(u: string): (r: Option<nat>)
    ensures HexPrefixed(u) ==> (r.Some? <==> Span(u[2..], IsHexDigit) > 0)
    ensures !HexPrefixed(u) ==> (r.Some? <==> Span(u, IsDigit) > 0)
  {
    if HexPrefixed(u) then
      var n := Span(u[2..], IsHexDigit);
      if n == 0 then None else Some(RadixDigitsValue(16, u[2..2 + n]))
    else
      var n := Span(u, IsDigit);
      if n == 0 then None else Some(DigitsValue(u[..n]))
  }

  /** `parseInt(s)` without a radix: leading white space and sign, then the
      magnitude; NaN (None) when there is no digit to read. */
  function ParseIntString(s: string): (r: Option<int>)
    ensures r.Some? <==> Magnitude(Unsigned(TrimStart(s))).Some?
    ensures r.Some? && Negative(TrimStart(s)) ==> r.value <= 0
    ensures r.Some? && !Negative(TrimStart(s)) ==> r.value >= 0
  {
    var t := TrimStart(s);
    match Magnitude(Unsigned(t))
    case None => None
    case Some(d) => if Negative(t) then Some(-(d as int)) else Some(d as int)
  }

  /** Text that starts with neither white space nor a sign parses to its
      magnitude. */
  lemma ParseIntOfPlain(u: string)
    requires u != [] && !IsSpace(u[0]) && u[0] != '-' && u[0] != '+'
    ensures ParseIntString(u).Some? <==> Magnitude(u).Some?
    ensures Magnitude(u).Some? ==> ParseIntString(u) == Some(Magnitude(u).value as int)
  {
    assert TrimStart(u) == u;
    assert Unsigned(u) == u;
  }

  /** A plain run of decimal digits parses to its value. */
  lemma ParseIntOfDigits(d: string)
    requires d != [] && AllDigits(d)
    ensures ParseIntString(d) == Some(DigitsValue(d))
  {
    DigitsShape(d);
    DecimalOfDigits(d);
    ParseIntOfPlain(d);
  }

  lemma DigitsShape(d: string)
    requires d != [] && AllDigits(d)
    ensures IsDigit(d[0]) && (|d| >= 2 ==> IsDigit(d[1])) && Span(d, IsDigit) == |d|
    ensures !IsSpace(d[0]) && d[0] != '-' && d[0] != '+'
  {
    SpanUnique(d, IsDigit, |d|);
  }

  lemma DecimalOfDigits(d: string)
    requires d != [] && IsDigit(d[0]) && (|d| >= 2 ==> IsDigit(d[1])) && Span(d, IsDigit) == |d|
    ensures Magnitude(d) == Some(DigitsValue(d))
  {
    assert d[..|d|] == d;
  }

  /** `0x` or `0X` followed by hexadecimal digits parses in base 16. */
  lemma ParseIntOfHex(x: char, h: string)
    requires x == 'x' || x == 'X'
    requires h != [] && forall i :: 0 <= i < |h| ==> IsHexDigit(h[i])
    ensures ParseIntString(['0', x] + h) == Some(RadixDigitsValue(16, h))
  {
    var u := ['0', x] + h;
    HexShape(x, h, u);
    SpanUnique(h, IsHexDigit, |h|);
    HexMagnitude(u, h);
    ParseIntOfPlain(u);
  }

  lemma HexShape(x: char, h: string, u: string)
    requires (x == 'x' || x == 'X') && u == ['0', x] + h
    ensures HexPrefixed(u) && u[2..] == h && !IsSpace(u[0]) && u[0] != '-' && u[0] != '+'
  {
  }

  lemma HexMagnitude(u: string, h: string)
    requires HexPrefixed(u) && u[2..] == h && h != [] && Span(h, IsHexDigit) == |h|
    ensures Magnitude(u) == Some(RadixDigitsValue(16, h))
  {
    assert Span(u[2..], IsHexDigit) == |h|;
    assert u[2..2 + |h|] == h;
  }

  /** `0x` with no digit after it is NaN. */
  lemma ParseIntOfBarePrefix(x: char)
    requires x == 'x' || x == 'X'
    ensures ParseIntString(['0', x]).None?
  {
    var u := ['0', x];
    assert u[2..] == [];
    ParseIntOfPlain(u);
  }

  /** A minus sign negates what the rest of the text parses to. */
  lemma ParseIntNegated(s: string)
    requires s == [] || (!IsSpace(s[0]) && s[0] != '-' && s[0] != '+')
    ensures ParseIntString(s).None? ==> ParseIntString("-" + s).None?
    ensures ParseIntString(s).Some? ==> ParseIntString("-" + s) == Some(-ParseIntString(s).value)
  {
    var m := "-" + s;
    assert !IsSpace(m[0]);
    assert TrimStart(m) == m;
    assert Unsigned(m) == s;
    assert TrimStart(s) == s;
    assert Unsigned(s) == s;
  }

  /** The values of the numerals the handlers fall back to. */
  lemma DefaultNumerals()
    ensures DigitsValue("30") == 30 && DigitsValue("100") == 100 && DigitsValue("1000") == 1000
  {
    var thirty := "30";
    assert DigitsValue(thirty[..1]) == 3 by {
      assert thirty[..1][..0] == [];
    }
    assert thirty[..|thirty| - 1] == thirty[..1];
    var k := "1000";
    assert DigitsValue(k[..1]) == 1 by {
      assert k[..1][..0] == [];
    }
    assert DigitsValue(k[..2]) == 10 by {
      assert k[..2][..1] == k[..1];
    }
    assert DigitsValue(k[..3]) == 100 by {
      assert k[..3][..2] == k[..2];
    }
    assert k[..|k| - 1] == k[..3];
    assert k[..3] == "100";
  }

  // ---------------------------------------------------------------------
  // Exponent parts
  // ---------------------------------------------------------------------

  predicate IsExponentMark(c: char) {
    c == 'e' || c == 'E'
  }

  /** The exponent part of a decimal literal: the power of ten it stands
      for, and how many characters it spans (`e` or `E`, an optional sign,
      and the digits). */
  datatype Exponent = Exponent(power: int, length: nat)

  /** The exponent part at the start of `t`; None unless the mark is
      followed, after an optional sign, by at least one digit. */
  function ScanExponent(t: string): (r: Option<Exponent>)
    ensures r.None? <==>
              !(|t| >= 2 && IsExponentMark(t[0])
                && (IsDigit(t[1]) || (|t| >= 3 && (t[1] == '+' || t[1] == '-') && IsDigit(t[2]))))
    ensures r.Some? ==> 2 <= r.value.length <= |t|
    ensures r.Some? ==> r.value.length == |t| || !IsDigit(t[r.value.length])
    ensures r.Some? && t[1] == '-' ==> r.value.power <= 0
    ensures r.Some? && t[1] != '-' ==> r.value.power >= 0
  {
    if |t| < 2 || !IsExponentMark(t[0]) then None
    else
      var k := if t[1] == '+' || t[1] == '-' then 2 else 1;
      var d := Span(t[k..], IsDigit);
      assert k + d == |t| || t[k + d] == t[k..][d];
      if d == 0 then None
      else
        var p: int := DigitsValue(t[k..k + d]);
        Some(Exponent(if t[1] == '-' then -p else p, k + d))
  }

  /** An exponent mark and a run of digits is a positive exponent part
      worth the digits. */
  lemma ScanExponentOfDigits(t: string, d: nat)
    requires d > 0 && |t| == 1 + d && IsExponentMark(t[0])
    requires forall i :: 1 <= i < |t| ==> IsDigit(t[i])
    ensures ScanExponent(t) == Some(Exponent(DigitsValue(t[1..]), |t|))
  {
    var g := t[1..];
    forall i | 0 <= i < d
      ensures IsDigit(g[i])
    {
      assert g[i] == t[i + 1];
    }
    SpanUnique(g, IsDigit, d);
    assert t[1..1 + d] == g;
  }

  /** `x` times ten to the power `p`. */
  function Scaled(x: real, p: int): (y: real)
    ensures p >= 0 ==> y == x * Pow10(p) as real
    ensures p < 0 ==> y * Pow10(-p) as real == x
  {
    if p >= 0 then x * Pow10(p) as real else x / Pow10(-p) as real
  }

  /** Where the decimal literal opened by numeral `n` ends: after the
      exponent part when one follows the numeral, else after the numeral. */
  function LiteralEnd(u: string, n: Numeral): (k: nat)
    requires n.length <= |u|
    ensures n.length <= k <= |u|
    ensures ScanExponent(u[n.length..]).None? <==> k == n.length
  {
    match ScanExponent(u[n.length..])
    case None => n.length
    case Some(e) => n.length + e.length
  }

  /** The value of the decimal literal opened by numeral `n`: the numeral's
      value, scaled by its exponent part when it has one. */
  function LiteralValue(u: string, n: Numeral): (v: real)
    requires n.wholeDigits <= |u| && n.fractionDigits <= n.length <= |u|
    ensures ScanExponent(u[n.length..]).None? ==> v == NumeralValue(u, n)
    ensures ScanExponent(u[n.length..]).Some? ==>
              v == Scaled(NumeralValue(u, n), ScanExponent(u[n.length..]).value.power)
  {
    match ScanExponent(u[n.length..])
    case None => NumeralValue(u, n)
    case Some(e) => Scaled(NumeralValue(u, n), e.power)
  }

  /** `parseFloat(s)`: leading white space and sign, then the longest
      decimal literal (a numeral and, when a complete one follows, an
      exponent part); NaN (None) when there is no numeral. */
  function ParseFloatString(s: string): (r: Option<real>)
    ensures r.Some? <==> ScanDecimal(Unsigned(TrimStart(s))).Some?
  {
    var t := TrimStart(s);
    var u := Unsigned(t);
    match ScanDecimal(u)
    case None => None
    case Some(n) => var v := LiteralValue(u, n); Some(if Negative(t) then -v else v)
  }

  /** Text that starts with neither white space nor a sign parses to the
      value of its leading literal. */
  lemma ParseFloatOfPlain(u: string, n: Numeral)
    requires u != [] && !IsSpace(u[0]) && u[0] != '-' && u[0] != '+'
    requires ScanDecimal(u) == Some(n)
    ensures ParseFloatString(u) == Some(LiteralValue(u, n))
  {
    assert TrimStart(u) == u;
    assert Unsigned(u) == u;
  }

  /** Text that starts with n digits, a dot and m digits, and goes on with
      anything but a digit or an exponent mark, parses to the integer part
      plus the fraction over its power of ten. */
  lemma ParseFloatOfDecimal(t: string, n: nat, m: nat)
    requires n + m > 0 && n + 1 + m <= |t| && t[n] == '.'
    requires forall i :: 0 <= i < n ==> IsDigit(t[i])
    requires forall i :: n < i <= n + m ==> IsDigit(t[i])
    requires n + 1 + m == |t| || (!IsDigit(t[n + 1 + m]) && !IsExponentMark(t[n + 1 + m]))
    ensures ParseFloatString(t)
         == Some(DigitsValue(t[..n]) as real + DigitsValue(t[n + 1..n + 1 + m]) as real / Pow10(m) as real)
  {
    DecimalShape(t, n, m);
    ParseFloatOfScanned(t, n, m);
  }

  lemma DecimalShape(t: string, n: nat, m: nat)
    requires n + m > 0 && n + 1 + m <= |t| && t[n] == '.'
    requires forall i :: 0 <= i < n ==> IsDigit(t[i])
    requires forall i :: n < i <= n + m ==> IsDigit(t[i])
    requires n + 1 + m == |t| || !IsDigit(t[n + 1 + m])
    ensures Span(t, IsDigit) == n && Span(t[n + 1..], IsDigit) == m
    ensures IsDigit(t[0]) || t[0] == '.'
  {
    SpanUnique(t, IsDigit, n);
    FractionSpan(t, n, m);
  }

  lemma ParseFloatOfScanned(t: string, n: nat, m: nat)
    requires n + m > 0 && n + 1 + m <= |t| && t[n] == '.'
    requires Span(t, IsDigit) == n && Span(t[n + 1..], IsDigit) == m
    requires IsDigit(t[0]) || t[0] == '.'
    requires n + 1 + m == |t| || !IsExponentMark(t[n + 1 + m])
    ensures ParseFloatString(t)
         == Some(DigitsValue(t[..n]) as real + DigitsValue(t[n + 1..n + 1 + m]) as real / Pow10(m) as real)
  {
    ScanOfFraction(t, n, m);
    assert n + 1 + m == |t| || t[n + 1 + m..][0] == t[n + 1 + m];
    ParseFloatOfPlain(t, Numeral(n, m, n + 1 + m));
    FractionValue(t, n, m);
  }

  lemma FractionValue(t: string, n: nat, m: nat)
    requires n + 1 + m <= |t|
    ensures NumeralValue(t, Numeral(n, m, n + 1 + m))
         == DigitsValue(t[..n]) as real + DigitsValue(t[n + 1..n + 1 + m]) as real / Pow10(m) as real
  {
    assert (n + 1 + m) - m == n + 1;
  }

  lemma FractionSpan(t: string, n: nat, m: nat)
    requires n + 1 + m <= |t|
    requires forall i :: n < i <= n + m ==> IsDigit(t[i])
    requires n + 1 + m == |t| || !IsDigit(t[n + 1 + m])
    ensures Span(t[n + 1..], IsDigit) == m
  {
    var g := t[n + 1..];
    forall i | 0 <= i < m
      ensures IsDigit(g[i])
    {
      assert g[i] == t[n + 1 + i];
    }
    SpanUnique(g, IsDigit, m);
  }

  lemma ScanOfFraction(t: string, n: nat, m: nat)
    requires n < |t| && Span(t, IsDigit) == n && t[n] == '.'
    requires Span(t[n + 1..], IsDigit) == m && n + m > 0
    ensures ScanDecimal(t) == Some(Numeral(n, m, n + 1 + m))
  {
    var i := Span(t, IsDigit);
    var f := Span(t[i + 1..], IsDigit);
    assert i == n && f == m;
  }

  /** Text that starts with n digits and goes on with anything but a digit,
      a dot or an exponent mark parses to the value of those digits. */
  lemma ParseFloatOfWhole(t: string, n: nat)
    requires 0 < n <= |t|
    requires forall i :: 0 <= i < n ==> IsDigit(t[i])
    requires n == |t| || (!IsDigit(t[n]) && t[n] != '.' && !IsExponentMark(t[n]))
    ensures ParseFloatString(t) == Some(DigitsValue(t[..n]) as real)
  {
    SpanUnique(t, IsDigit, n);
    ScanOfWhole(t, n);
    assert IsDigit(t[0]);
    assert n == |t| || t[n..][0] == t[n];
    ParseFloatOfPlain(t, Numeral(n, 0, n));
  }

  lemma ScanOfWhole(t: string, n: nat)
    requires 0 < n <= |t| && Span(t, IsDigit) == n && (n == |t| || t[n] != '.')
    ensures ScanDecimal(t) == Some(Numeral(n, 0, n))
  {
    var i := Span(t, IsDigit);
    assert i == n;
  }

  /** A minus sign negates what the rest of the text parses to. */
  lemma ParseFloatNegated(s: string)
    requires s == [] || (!IsSpace(s[0]) && s[0] != '-' && s[0] != '+')
    ensures ParseFloatString(s).None? ==> ParseFloatString("-" + s).None?
    ensures ParseFloatString(s).Some? ==> ParseFloatString("-" + s) == Some(-ParseFloatString(s).value)
  {
    var m := "-" + s;
    assert !IsSpace(m[0]);
    assert TrimStart(m) == m;
    assert Unsigned(m) == s;
    assert TrimStart(s) == s;
    assert Unsigned(s) == s;
  }

  /** Whether `u` is, up to trailing white space, one decimal literal: a
      numeral and, when one follows it, an exponent part. */
  predicate CompleteLiteral(u: string) {
    ScanDecimal(u).Some? && AllSpace(u[LiteralEnd(u, ScanDecimal(u).value)..])
  }

  /** The base a letter selects after a leading `0` in a numeric literal:
      16 for `x`, 8 for `o` and 2 for `b`, in either case; 0 for any other
      character. */
  function RadixOf(c: char): (b: nat)
    ensures b == 0 || b == 2 || b == 8 || b == 16
    ensures b == 16 <==> c == 'x' || c == 'X'
    ensures b == 8 <==> c == 'o' || c == 'O'
    ensures b == 2 <==> c == 'b' || c == 'B'
  {
    if c == 'x' || c == 'X' then 16
    else if c == 'o' || c == 'O' then 8
    else if c == 'b' || c == 'B' then 2
    else 0
  }

  /** Text opening with `0x`, `0o` or `0b`, in either case. */
  predicate RadixPrefixed(t: string) {
    |t| >= 2 && t[0] == '0' && RadixOf(t[1]) != 0
  }

  /** A digit of base `b` (at most 16). */
  predicate IsRadixDigit(b: nat, c: char) {
    IsHexDigit(c) && HexDigitValue(c) < b
  }

  /** What `Number` makes of text with a base prefix and no leading white
      space: every character between the prefix and the trailing white
      space must be a digit of that base, and there must be at least one. */
  function RadixLiteral(t: string): (r: Option<nat>)
    requires RadixPrefixed(t)
    ensures r.Some? ==> 2 < |TrimEnd(t)|
    ensures r.Some? ==> forall i :: 2 <= i < |TrimEnd(t)| ==> IsRadixDigit(RadixOf(t[1]), t[i])
  {
    var k := |TrimEnd(t)|;
    if k > 2 && forall i :: 2 <= i < k ==> IsRadixDigit(RadixOf(t[1]), t[i]) then
      Some(RadixDigitsValue(RadixOf(t[1]), t[2..k]))
    else None
  }

  /** `Number(s)`: white space only reads as 0; text with a base prefix
      reads in that base; otherwise the whole string, apart from surrounding
      white space, must be one signed decimal literal. */
  function StringToNumber(s: string): (r: Option<real>)
    ensures AllSpace(s) ==> r == Some(0.0)
    ensures r.Some? && !AllSpace(s) && RadixPrefixed(TrimStart(s)) ==> r.value >= 0.0
  {
    var t := TrimStart(s);
    if t == [] then Some(0.0)
    else if RadixPrefixed(t) then
      match RadixLiteral(t)
      case None => None
      case Some(v) => Some(v as real)
    else
      var u := Unsigned(t);
      if !CompleteLiteral(u) then None
      else
        var v := LiteralValue(u, ScanDecimal(u).value);
        Some(if Negative(t) then -v else v)
  }

  /** `Number(s)` is a number exactly when `s` is white space, or a base
      prefix and its digits, or, past its leading white space and sign, one
      complete decimal literal; in the last case `Number` and `parseFloat`
      agree on it. */
  lemma NumberIsCompleteLiteral(s: string)
    ensures StringToNumber(s).Some? <==>
              || AllSpace(s)
              || (RadixPrefixed(TrimStart(s)) && RadixLiteral(TrimStart(s)).Some?)
              || (!RadixPrefixed(TrimStart(s)) && CompleteLiteral(Unsigned(TrimStart(s))))
    ensures StringToNumber(s).Some? && !AllSpace(s) && !RadixPrefixed(TrimStart(s)) ==>
              StringToNumber(s) == ParseFloatString(s)
    ensures RadixPrefixed(TrimStart(s)) && RadixLiteral(TrimStart(s)).Some? ==>
              StringToNumber(s) == Some(RadixLiteral(TrimStart(s)).value as real)
  {
    if TrimStart(s) == [] {
      assert s[..|s|] == s;
    }
  }

  /** A base prefix followed by digits of that base reads as their value in
      that base. */
  lemma NumberOfRadixDigits(x: char, h: string)
    requires RadixOf(x) != 0 && h != []
    requires forall i :: 0 <= i < |h| ==> IsRadixDigit(RadixOf(x), h[i])
    ensures StringToNumber(['0', x] + h) == Some(RadixDigitsValue(RadixOf(x), h) as real)
  {
    var t := ['0', x] + h;
    assert IsHexDigit(h[|h| - 1]);
    RadixShape(x, h, t);
    RadixOfWhole(t, h);
  }

  lemma RadixShape(x: char, h: string, t: string)
    requires RadixOf(x) != 0 && h != [] && IsHexDigit(h[|h| - 1]) && t == ['0', x] + h
    ensures TrimStart(t) == t && TrimEnd(t) == t && RadixPrefixed(t) && t[1] == x && t[2..] == h
  {
    assert t[|t| - 1] == h[|h| - 1];
    StartsUntrimmed(t);
    EndsUntrimmed(t);
  }

  /** Text whose first character is not white space keeps its start when trimmed. */
  lemma StartsUntrimmed(t: string)
    requires t != [] && !IsSpace(t[0])
    ensures TrimStart(t) == t
  {
  }

  /** Text whose last character is not white space keeps its end when trimmed. */
  lemma EndsUntrimmed(t: string)
    requires t != [] && !IsSpace(t[|t| - 1])
    ensures TrimEnd(t) == t
  {
  }

  lemma RadixOfWhole(t: string, h: string)
    requires TrimStart(t) == t && TrimEnd(t) == t && RadixPrefixed(t) && t[2..] == h && h != []
    requires forall i :: 0 <= i < |h| ==> IsRadixDigit(RadixOf(t[1]), h[i])
    ensures StringToNumber(t) == Some(RadixDigitsValue(RadixOf(t[1]), h) as real)
  {
    assert forall i :: 2 <= i < |t| ==> t[i] == h[i - 2];
    assert t[2..|t|] == h;
  }

  /** A base prefix with no digit after it is NaN. */
  lemma NumberOfBareRadix(x: char)
    requires RadixOf(x) != 0
    ensures StringToNumber(['0', x]).None?
  {
    var t := ['0', x];
    StartsUntrimmed(t);
    assert RadixPrefixed(t) && |t| == 2;
    assert RadixLiteral(t).None?;
  }

  /** `0x` text reads the same under `Number` and `parseInt`. */
  lemma HexNumberIsParseInt(x: char, h: string)
    requires (x == 'x' || x == 'X') && h != []
    requires forall i :: 0 <= i < |h| ==> IsHexDigit(h[i])
    ensures StringToNumber(['0', x] + h) == Some(ParseIntString(['0', x] + h).value as real)
  {
    forall i | 0 <= i < |h|
      ensures IsRadixDigit(RadixOf(x), h[i])
    {
      assert HexDigitValue(h[i]) <= 15;
    }
    NumberOfRadixDigits(x, h);
    ParseIntOfHex(x, h);
  }

  lemma FractionBelowOne(f: real, p: real)
    requires 0.0 <= f < p
    ensures 0.0 <= f / p < 1.0
  {
    assert f / p * p == f;
  }

  /** A numeral whose value reaches 1 has integer digits. */
  lemma WholeDigitsOfLargeNumeral(t: string, n: Numeral)
    requires n.wholeDigits <= |t| && n.fractionDigits <= n.length <= |t|
    requires NumeralValue(t, n) >= 1.0
    ensures n.wholeDigits > 0
  {
    if n.wholeDigits == 0 {
      assert t[..0] == [];
      var f := t[n.length - n.fractionDigits..n.length];
      DigitsValueBound(f);
      FractionBelowOne(DigitsValue(f) as real, Pow10(|f|) as real);
      assert false;
    }
  }

  /** For text with no exponent mark and no base letter, when `Number(s)`
      is at least 1, `parseInt(s)` is its integer part. */
  lemma ParseIntOfNumber(s: string)
    requires StringToNumber(s).Some? && StringToNumber(s).value >= 1.0
    requires PlainDecimalText(s)
    ensures ParseIntString(s) == Some(Trunc(StringToNumber(s).value))
    ensures Trunc(StringToNumber(s).value) >= 1
  {
    assert !AllSpace(s);
    NumberWithoutExponent(s);
    var t := TrimStart(s);
    var u := Unsigned(t);
    IntegerPartOfNumeral(t, u, ScanDecimal(u).value, StringToNumber(s).value);
    assert ParseIntString(s) == ParseIntString(t);
  }

  /** A signed numeral worth at least 1, alone up to trailing white space,
      has its integer part as its `parseInt` value. */
  lemma IntegerPartOfNumeral(t: string, u: string, n: Numeral, x: real)
    requires t != [] && !IsSpace(t[0]) && u == Unsigned(t)
    requires ScanDecimal(u) == Some(n) && AllSpace(u[n.length..])
    requires x == (if Negative(t) then -NumeralValue(u, n) else NumeralValue(u, n)) && x >= 1.0
    ensures ParseIntString(t) == Some(Trunc(x)) && Trunc(x) >= 1
  {
    var f := u[n.length - n.fractionDigits..n.length];
    DigitsValueBound(f);
    FractionBelowOne(DigitsValue(f) as real, Pow10(|f|) as real);
    assert NumeralValue(u, n) >= 0.0;
    assert !Negative(t) && x == NumeralValue(u, n);
    WholeDigitsOfLargeNumeral(u, n);
    DecimalMagnitude(u, n);
    assert Trunc(x) == DigitsValue(u[..n.wholeDigits]);
    assert TrimStart(t) == t;
  }

  /** Unsigned text that is one decimal literal, up to trailing white
      space, reads as the value of that literal. */
  lemma NumberOfPlainLiteral(u: string, n: Numeral)
    requires u != [] && !IsSpace(u[0]) && u[0] != '-' && u[0] != '+'
    requires ScanDecimal(u) == Some(n) && AllSpace(u[LiteralEnd(u, n)..])
    ensures StringToNumber(u) == Some(LiteralValue(u, n))
  {
    CompleteIsNotRadix(u, n);
    assert TrimStart(u) == u;
    assert Unsigned(u) == u;
  }

  /** A complete decimal literal does not open with a base prefix. */
  lemma CompleteIsNotRadix(u: string, n: Numeral)
    requires ScanDecimal(u) == Some(n) && AllSpace(u[LiteralEnd(u, n)..])
    ensures !RadixPrefixed(u)
  {
  }

  lemma DigitsValueOfOne(c: char)
    ensures DigitsValue([c]) == DigitValue(c)
  {
    assert [c][..0] == [];
  }

  /** Unsigned text that is a numeral followed by an exponent part, and
      nothing else, reads as the numeral scaled by the exponent. */
  lemma NumberOfScientific(u: string, n: Numeral, e: Exponent)
    requires u != [] && !IsSpace(u[0]) && u[0] != '-' && u[0] != '+'
    requires ScanDecimal(u) == Some(n) && ScanExponent(u[n.length..]) == Some(e)
    requires n.length + e.length == |u|
    ensures StringToNumber(u) == Some(Scaled(NumeralValue(u, n), e.power))
  {
    assert LiteralEnd(u, n) == |u|;
    NumberOfPlainLiteral(u, n);
  }

  /** Text that opens with one digit followed by something `parseInt`
      cannot continue with reads as that digit. */
  lemma ParseIntOfLeadingDigit(u: string, a: char)
    requires |u| >= 2 && IsDigit(a) && u[0] == a && !IsDigit(u[1]) && u[1] != 'x' && u[1] != 'X'
    ensures ParseIntString(u) == Some(DigitValue(a))
  {
    SpanUnique(u, IsDigit, 1);
    assert u[..1] == [a];
    DigitsValueOfOne(a);
    ParseIntOfPlain(u);
  }

  /** `<d>e<x>` for digits d and x: `Number` scales d by ten to the power
      x, while `parseInt` stops at the mark and reads d. */
  lemma ExponentAfterWhole(u: string, d: char, x: char)
    requires IsDigit(d) && IsDigit(x)
    requires |u| == 3 && u[0] == d && u[1] == 'e' && u[2] == x
    ensures StringToNumber(u) == Some(Scaled(DigitValue(d) as real, DigitValue(x)))
    ensures ParseIntString(u) == Some(DigitValue(d))
  {
    WholeLiteralShape(u, d, x);
    NumberOfScientific(u, Numeral(1, 0, 1), Exponent(DigitValue(x), 2));
    ParseIntOfLeadingDigit(u, d);
  }

  lemma WholeLiteralShape(u: string, d: char, x: char)
    requires IsDigit(d) && IsDigit(x)
    requires |u| == 3 && u[0] == d && u[1] == 'e' && u[2] == x
    ensures ScanDecimal(u) == Some(Numeral(1, 0, 1))
    ensures ScanExponent(u[1..]) == Some(Exponent(DigitValue(x), 2))
    ensures NumeralValue(u, Numeral(1, 0, 1)) == DigitValue(d) as real
  {
    SpanUnique(u, IsDigit, 1);
    ScanOfWhole(u, 1);
    assert u[1..][1..] == [x];
    ScanExponentOfDigits(u[1..], 1);
    DigitsValueOfOne(x);
    assert u[..1] == [d] && u[1..1] == [];
    DigitsValueOfOne(d);
  }

  /** `<a>.<b>e<x>` for digits a, b and x: `Number` scales a.b by ten to
      the power x, while `parseInt` stops at the dot and reads a. */
  lemma ExponentAfterFraction(u: string, a: char, b: char, x: char)
    requires IsDigit(a) && IsDigit(b) && IsDigit(x)
    requires |u| == 5 && u[0] == a && u[1] == '.' && u[2] == b && u[3] == 'e' && u[4] == x
    ensures StringToNumber(u) == Some(Scaled(DigitValue(a) as real + DigitValue(b) as real / 10.0, DigitValue(x)))
    ensures ParseIntString(u) == Some(DigitValue(a))
  {
    FractionLiteralShape(u, a, b, x);
    FractionLiteralValue(u, a, b);
    NumberOfScientific(u, Numeral(1, 1, 3), Exponent(DigitValue(x), 2));
    ParseIntOfLeadingDigit(u, a);
  }

  lemma FractionLiteralShape(u: string, a: char, b: char, x: char)
    requires IsDigit(a) && IsDigit(b) && IsDigit(x)
    requires |u| == 5 && u[0] == a && u[1] == '.' && u[2] == b && u[3] == 'e' && u[4] == x
    ensures ScanDecimal(u) == Some(Numeral(1, 1, 3))
    ensures ScanExponent(u[3..]) == Some(Exponent(DigitValue(x), 2))
  {
    DecimalShape(u, 1, 1);
    ScanOfFraction(u, 1, 1);
    assert u[3..][1..] == [x];
    ScanExponentOfDigits(u[3..], 1);
    DigitsValueOfOne(x);
  }

  lemma FractionLiteralValue(u: string, a: char, b: char)
    requires |u| >= 3 && u[0] == a && u[2] == b
    ensures NumeralValue(u, Numeral(1, 1, 3)) == DigitValue(a) as real + DigitValue(b) as real / 10.0
  {
    assert u[..1] == [a] && u[2..3] == [b];
    DigitsValueOfOne(a);
    DigitsValueOfOne(b);
  }

  /** Text that `Number` reads and that is not all white space is one
      signed decimal literal up to trailing white space. */
  lemma NumberOfLiteral(s: string)
    requires StringToNumber(s).Some? && !AllSpace(s) && !RadixPrefixed(TrimStart(s))
    ensures var t := TrimStart(s); var u := Unsigned(t);
            && t != [] && CompleteLiteral(u)
            && StringToNumber(s).value
               == (if Negative(t) then -LiteralValue(u, ScanDecimal(u).value) else LiteralValue(u, ScanDecimal(u).value))
  {
  }

  /** Text with no exponent mark and no base letter (`x`, `o` or `b`). */
  predicate PlainDecimalText(s: string) {
    forall i :: 0 <= i < |s| ==> !IsExponentMark(s[i]) && RadixOf(s[i]) == 0
  }

  /** Plain decimal text that `Number` reads, and that is not all white
      space, is one signed numeral up to trailing white space. */
  lemma NumberWithoutExponent(s: string)
    requires StringToNumber(s).Some? && !AllSpace(s)
    requires PlainDecimalText(s)
    ensures var t := TrimStart(s); var u := Unsigned(t);
            && ScanDecimal(u).Some? && AllSpace(u[ScanDecimal(u).value.length..])
            && StringToNumber(s).value
               == (if Negative(t) then -NumeralValue(u, ScanDecimal(u).value) else NumeralValue(u, ScanDecimal(u).value))
  {
    PlainIsNotRadix(s);
    NumberOfLiteral(s);
    var u := Unsigned(TrimStart(s));
    var n := ScanDecimal(u).value;
    NoMarkInSuffix(s, n.length);
  }

  /** Plain decimal text does not open with a base prefix. */
  lemma PlainIsNotRadix(s: string)
    requires PlainDecimalText(s)
    ensures !RadixPrefixed(TrimStart(s))
  {
    var t := TrimStart(s);
    if |t| >= 2 {
      assert t[1] == s[|s| - |t| + 1];
    }
  }

  /** Text without an exponent mark has no exponent part anywhere after its
      white space and sign. */
  lemma NoMarkInSuffix(s: string, k: nat)
    requires k <= |Unsigned(TrimStart(s))|
    requires PlainDecimalText(s)
    ensures ScanExponent(Unsigned(TrimStart(s))[k..]).None?
  {
    var t := TrimStart(s);
    var u := Unsigned(t);
    if k < |u| {
      var j := if t != [] && (t[0] == '-' || t[0] == '+') then 1 else 0;
      assert u[k] == t[j + k];
      assert t[j + k] == s[|s| - |t| + j + k];
      assert u[k..][0] == u[k];
    }
  }

  /** A string that is one decimal numeral, up to trailing white space, has
      the integer digits of that numeral as its `parseInt` magnitude. */
  lemma DecimalMagnitude(u: string, n: Numeral)
    requires ScanDecimal(u) == Some(n) && AllSpace(u[n.length..]) && n.wholeDigits > 0
    ensures Magnitude(u) == Some(DigitsValue(u[..n.wholeDigits]))
  {
  }

  // ---------------------------------------------------------------------
  // Values
  // ---------------------------------------------------------------------

  /** A value read from a JSON body, a query string or a form input.
      JSON cannot carry NaN or an infinity, so a number is a finite real. */
  datatype Value = Undefined | Null | Bool(b: bool) | Num(x: real) | Str(s: string)

  function Truthy(v: Value): (b: bool)
    ensures !b <==> v in {Undefined, Null, Bool(false), Num(0.0), Str("")}
  {
    match v
    case Undefined => false
    case Null => false
    case Bool(b) => b
    case Num(x) => x != 0.0
    case Str(s) => s != []
  }

  /** `Number(v)`, with None for NaN. */
  function ToNumber(v: Value): (r: Option<real>)
    ensures v.Num? ==> r == Some(v.x)
    ensures v.Undefined? ==> r.None?
  {
    match v
    case Undefined => None
    case Null => Some(0.0)
    case Bool(b) => Some(if b then 1.0 else 0.0)
    case Num(x) => Some(x)
    case Str(s) => StringToNumber(s)
  }

  function IsNaN(v: Value): (b: bool)
    ensures b ==> v.Undefined? || v.Str?
    ensures v.Undefined? ==> b
    ensures v.Str? ==> (b <==> StringToNumber(v.s).None?)
  {
    ToNumber(v).None?
  }

  /** `v < c`: false whenever `v` reads as NaN. */
  function LessThan(v: Value, c: real): (b: bool)
    ensures b ==> !IsNaN(v)
    ensures v.Undefined? ==> !b
    ensures v.Null? ==> (b <==> 0.0 < c)
    ensures v.Bool? ==> (b <==> (if v.b then 1.0 else 0.0) < c)
    ensures v.Num? ==> (b <==> v.x < c)
  {
    ToNumber(v).Some? && ToNumber(v).value < c
  }

  /** `v > c`: false whenever `v` reads as NaN. */
  function GreaterThan(v: Value, c: real): (b: bool)
    ensures b ==> !IsNaN(v)
    ensures v.Undefined? ==> !b
    ensures v.Null? ==> (b <==> 0.0 > c)
    ensures v.Bool? ==> (b <==> (if v.b then 1.0 else 0.0) > c)
    ensures v.Num? ==> (b <==> v.x > c)
  {
    ToNumber(v).Some? && ToNumber(v).value > c
  }

  /** The integer part of `x`, rounding toward zero. */
  function Trunc(x: real): (r: int)
    ensures x >= 0.0 ==> r as real <= x < r as real + 1.0
    ensures x < 0.0 ==> r as real - 1.0 < x <= r as real
  {
    if x >= 0.0 then x.Floor else -((-x).Floor)
  }

  /** `parseInt(v)`: a number is printed and read back, which for numbers
      written without an exponent keeps the integer part; `undefined`,
      `null` and booleans print as words and read as NaN. */
  function ParseInt(v: Value): (r: Option<int>)
    ensures v.Num? ==> r == Some(Trunc(v.x))
    ensures v.Undefined? || v.Null? || v.Bool? ==> r.None?
  {
    match v
    case Num(x) => Some(Trunc(x))
    case Str(s) => ParseIntString(s)
    case _ => None
  }

  /** `parseFloat(v)`, with None for NaN. */
  function ParseFloat(v: Value): (r: Option<real>)
    ensures v.Num? ==> r == Some(v.x)
    ensures v.Undefined? || v.Null? || v.Bool? ==> r.None?
    ensures v.Str? ==> r == ParseFloatString(v.s)
  {
    match v
    case Num(x) => Some(x)
    case Str(s) => ParseFloatString(s)
    case _ => None
  }

  /** `v || null` for a value headed for a text column. */
  function OrNull(v: Value): (r: Option<Value>)
    ensures r.Some? <==> Truthy(v)
    ensures r.Some? ==> r.value == v
  {
    if Truthy(v) then Some(v) else None
  }
}
