/** JavaScript's `Number(string)` conversion (StringToNumber, section 7.1.4.1.1 of
    ECMA-262), which the amount rules apply to the text the user typed. Finite values
    are kept as exact reals, so IEEE-754 rounding and overflow to infinity are not
    modelled; everything else follows the StringNumericLiteral grammar: surrounding
    white space is trimmed, the empty string is 0, a decimal literal has an optional
    sign, fraction and exponent, `Infinity` may be signed, and `0x`/`0o`/`0b` integers
    take no sign. */
module JsNumbers {
  import opened Seqs

  datatype Number = NaN | Finite(value: real) | Infinite(negative: bool)

  /** The WhiteSpace and LineTerminator code points (sections 12.2 and 12.3 of ECMA-262);
      `String.prototype.trim`, `Number(...)` and the regular-expression class `\s` all
      use this set. */
  predicate IsWhitespace(c: char) {
    || c == '\t' || c == '\n' || c == '\U{B}' || c == '\U{C}' || c == '\r' || c == ' '
    || c == '\U{A0}' || c == '\U{1680}' || ('\U{2000}' <= c <= '\U{200A}')
    || c == '\U{2028}' || c == '\U{2029}' || c == '\U{202F}' || c == '\U{205F}'
    || c == '\U{3000}' || c == '\U{FEFF}'
  }

  /** Drop leading white space. */
  function TrimStart(s: string): (r: string)
    ensures |r| <= |s| && r == s[|s| - |r|..]
    ensures forall i :: 0 <= i < |s| - |r| ==> IsWhitespace(s[i])
    ensures r != [] ==> !IsWhitespace(r[0])
  {
    if s != [] && IsWhitespace(s[0]) then TrimStart(s[1..]) else s
  }

  /** Drop trailing white space. */
  function TrimEnd(s: string): (r: string)
    ensures |r| <= |s| && r == s[..|r|]
    ensures forall i :: |r| <= i < |s| ==> IsWhitespace(s[i])
    ensures r != [] ==> !IsWhitespace(r[|r| - 1])
  {
    if s != [] && IsWhitespace(s[|s| - 1]) then TrimEnd(s[..|s| - 1]) else s
  }

  /** `String.prototype.trim`. */
  function Trim(s: string): string {
    TrimEnd(TrimStart(s))
  }

  /** The value of `c` as a digit of radix up to 16, if it is one. */
  function DigitValue(c: char): (d: Option<nat>)
    ensures d.Some? ==> d.value < 16
    ensures '0' <= c <= '9' ==> d == Some(c as int - '0' as int)
  {
    if '0' <= c <= '9' then Some(c as int - '0' as int)
    else if 'a' <= c <= 'f' then Some(c as int - 'a' as int + 10)
    else if 'A' <= c <= 'F' then Some(c as int - 'A' as int + 10)
    else None
  }

  predicate IsDigit(c: char, radix: nat) {
    DigitValue(c).Some? && DigitValue(c).value < radix
  }

  /** The decimal digits are exactly `0`..`9`. */
  lemma DecimalDigits(c: char)
    ensures IsDigit(c, 10) <==> '0' <= c <= '9'
  {
  }

  predicate AllDigits(s: string, radix: nat) {
    forall i :: 0 <= i < |s| ==> IsDigit(s[i], radix)
  }

  /** The length of the longest prefix of decimal digits. */
  function LeadingDigits(s: string): (n: nat)
    ensures n <= |s|
    ensures AllDigits(s[..n], 10)
    ensures n < |s| ==> !IsDigit(s[n], 10)
  {
    if s != [] && IsDigit(s[0], 10) then
      1 + LeadingDigits(s[1..])
    else 0
  }

  function Pow(b: nat, n: nat): (p: nat)
    ensures b >= 1 ==> p >= 1
  {
    if n == 0 then 1 else b * Pow(b, n - 1)
  }

  /** The value of a digit string in `radix`, most significant digit first. */
  function DigitsValue(s: string, radix: nat): nat
    requires AllDigits(s, radix)
  {
    if s == [] then 0 else DigitsValue(s[..|s| - 1], radix) * radix + DigitValue(s[|s| - 1]).value
  }

  /** A digit string's value is below `radix` to the power of its length. */
  lemma {:induction false} DigitsValueBound(s: string, radix: nat)
    requires AllDigits(s, radix)
    ensures DigitsValue(s, radix) < Pow(radix, |s|)
  {
    if s != [] {
      var p := s[..|s| - 1];
      DigitsValueBound(p, radix);
      DigitStep(DigitsValue(p, radix), DigitValue(s[|s| - 1]).value, radix, Pow(radix, |p|));
    }
  }

  /** Appending a digit below `r` to a value below `P` stays below `r * P`. */
  lemma DigitStep(w: nat, d: nat, r: nat, p: nat)
    requires w < p && d < r
    ensures w * r + d < r * p
  {
    calc {
      w * r + d;
    <
      w * r + r;
    ==
      (w + 1) * r;
    <=
      p * r;
    }
  }

  /** `m` times ten to the power `e`. */
  function Scale(m: nat, e: int): (r: real)
    ensures r >= 0.0
    ensures r == 0.0 <==> m == 0
  {
    if e >= 0 then (m * Pow(10, e)) as real else (m as real) / (Pow(10, -e) as real)
  }

  /** The power of ten an ExponentPart contributes; an empty tail contributes none and
      any other tail makes the literal invalid. */
  function ExponentOf(t: string): Option<int> {
    if t == [] then Some(0)
    else if t[0] != 'e' && t[0] != 'E' then None
    else
      var signed := |t| > 1 && (t[1] == '+' || t[1] == '-');
      var ds := if signed then t[2..] else t[1..];
      if ds == [] || !AllDigits(ds, 10) then None
      else if signed && t[1] == '-' then Some(-(DigitsValue(ds, 10) as int))
      else Some(DigitsValue(ds, 10))
  }

  /** StrUnsignedDecimalLiteral: `Infinity`, or digits with an optional `.` and fraction
      (at least one digit in all) and an optional exponent. */
  function UnsignedDecimal(u: string): Number {
    if u == "Infinity" then Infinite(false)
    else AfterIntegerDigits(u[..LeadingDigits(u)], u[LeadingDigits(u)..])
  }

  /** The rest of a decimal literal after its integer digits `intPart`. */
  function AfterIntegerDigits(intPart: string, rest: string): Number
    requires AllDigits(intPart, 10)
  {
    if rest != [] && rest[0] == '.' then
      var afterDot := rest[1..];
      Mantissa(intPart, afterDot[..LeadingDigits(afterDot)], afterDot[LeadingDigits(afterDot)..])
    else Mantissa(intPart, [], rest)
  }

  /** Integer digits, fraction digits and what follows them. */
  function Mantissa(intPart: string, frac: string, tail: string): Number
    requires AllDigits(intPart, 10) && AllDigits(frac, 10)
  {
    if |intPart| + |frac| == 0 then NaN
    else match ExponentOf(tail)
      case None => NaN
      case Some(e) => Finite(Scale(DigitsValue(intPart + frac, 10), e - |frac|))
  }

  /** The radix a `0x`, `0o` or `0b` prefix selects. */
  function Radix(c: char): Option<nat> {
    if c == 'x' || c == 'X' then Some(16)
    else if c == 'o' || c == 'O' then Some(8)
    else if c == 'b' || c == 'B' then Some(2)
    else None
  }

  function Negate(n: Number): Number {
    match n
    case NaN => NaN
    case Finite(v) => Finite(-v)
    case Infinite(neg) => Infinite(!neg)
  }

  /** `Number(s)`. */
  function ToNumber(s: string): Number {
    var t := Trim(s);
    if t == [] then Finite(0.0)
    else if |t| >= 2 && t[0] == '0' && Radix(t[1]).Some? then
      var radix := Radix(t[1]).value;
      var ds := t[2..];
      if ds != [] && AllDigits(ds, radix) then Finite(DigitsValue(ds, radix) as real) else NaN
    else if t[0] == '+' then UnsignedDecimal(t[1..])
    else if t[0] == '-' then Negate(UnsignedDecimal(t[1..]))
    else UnsignedDecimal(t)
  }

  // ---- Properties ----

  /** Text that neither starts nor ends with white space is left alone by `trim`. */
  lemma TrimUnchanged(s: string)
    requires s != [] ==> !IsWhitespace(s[0]) && !IsWhitespace(s[|s| - 1])
    ensures Trim(s) == s
  {
    assert TrimStart(s) == s;
    assert TrimEnd(s) == s;
  }

  /** A decimal digit or a point is not white space, a sign or a radix letter. */
  lemma DigitOrPoint(c: char)
    requires IsDigit(c, 10) || c == '.'
    ensures !IsWhitespace(c) && c != '+' && c != '-' && Radix(c).None?
  {
    DecimalDigits(c);
  }

  /** Text made of decimal digits and points only. */
  predicate DigitsAndPoints(s: string) {
    forall i :: 0 <= i < |s| ==> IsDigit(s[i], 10) || s[i] == '.'
  }

  /** Such text has no white space to trim, no sign and no radix prefix, so it is read
      as an unsigned decimal literal. */
  lemma DigitsAndPointsAreDecimal(s: string)
    requires s != [] && DigitsAndPoints(s)
    ensures ToNumber(s) == UnsignedDecimal(s)
  {
    DigitOrPoint(s[0]);
    DigitOrPoint(s[|s| - 1]);
    TrimUnchanged(s);
    if |s| >= 2 {
      DigitOrPoint(s[1]);
    }
  }

  /** The leading digits of `d + rest` are `d` when `rest` does not start with one. */
  lemma {:induction false} LeadingDigitsOf(d: string, rest: string)
    requires AllDigits(d, 10)
    requires rest != [] ==> !IsDigit(rest[0], 10)
    ensures LeadingDigits(d + rest) == |d|
  {
    if d != [] {
      assert (d + rest)[1..] == d[1..] + rest;
      LeadingDigitsOf(d[1..], rest);
    }
  }

  lemma NotInfinity(s: string)
    requires s != [] && DigitsAndPoints(s)
    ensures s != "Infinity"
  {
    if s == "Infinity" {
      assert s[0] == 'I';
      DecimalDigits(s[0]);
    }
  }

  /** A decimal `d1.d2` with at least one digit is the integer `d1d2` divided by ten
      to the number of fraction digits. */
  lemma PointedDecimal(d1: string, d2: string)
    requires AllDigits(d1, 10) && AllDigits(d2, 10) && |d1| + |d2| >= 1
    ensures ToNumber(d1 + "." + d2) == Finite(Scale(DigitsValue(d1 + d2, 10), -|d2|))
  {
    var s := d1 + "." + d2;
    assert DigitsAndPoints(s);
    DigitsAndPointsAreDecimal(s);
    NotInfinity(s);
    UnsignedPointedDecimal(d1, d2);
  }

  /** A plain decimal: digits, a point at `i`, digits, and at least one digit. */
  predicate DecimalText(s: string, i: nat) {
    i < |s| && s[i] == '.' && |s| >= 2 && AllDigits(s[..i], 10) && AllDigits(s[i + 1..], 10)
  }

  /** The digits of a plain decimal without its point, as an integer. */
  function DecimalMantissa(s: string, i: nat): nat
    requires DecimalText(s, i)
  {
    var d := s[..i] + s[i + 1..];
    assert AllDigits(d, 10) by {
      forall k | 0 <= k < |d| ensures IsDigit(d[k], 10) {
        if k < i {
          assert d[k] == s[..i][k];
        } else {
          assert d[k] == s[i + 1..][k - i];
        }
      }
    }
    DigitsValue(d, 10)
  }

  /** `PointedDecimal` for a text with its point at `i`. */
  lemma PointAt(s: string, i: nat)
    requires DecimalText(s, i)
    ensures ToNumber(s) == Finite(Scale(DecimalMantissa(s, i), -(|s| - i - 1)))
  {
    assert s == s[..i] + "." + s[i + 1..];
    PointedDecimal(s[..i], s[i + 1..]);
  }

  lemma UnsignedPointedDecimal(d1: string, d2: string)
    requires AllDigits(d1, 10) && AllDigits(d2, 10)
    requires d1 + "." + d2 != "Infinity"
    ensures UnsignedDecimal(d1 + "." + d2) == Mantissa(d1, d2, [])
  {
    var s := d1 + "." + d2;
    assert s == d1 + ("." + d2);
    LeadingDigitsOf(d1, "." + d2);
    assert s[..|d1|] == d1 && s[|d1|..] == "." + d2;
    PointedRest(d1, d2);
  }

  lemma PointedRest(d1: string, d2: string)
    requires AllDigits(d1, 10) && AllDigits(d2, 10)
    ensures AfterIntegerDigits(d1, "." + d2) == Mantissa(d1, d2, [])
  {
    assert ("." + d2)[1..] == d2;
    LeadingDigitsOf(d2, []);
    assert d2 + [] == d2;
    assert d2[..|d2|] == d2 && d2[|d2|..] == [];
  }

  /** A string of decimal digits is their integer value. */
  lemma WholeDecimal(d: string)
    requires AllDigits(d, 10) && d != []
    ensures ToNumber(d) == Finite(DigitsValue(d, 10) as real)
  {
    assert DigitsAndPoints(d);
    DigitsAndPointsAreDecimal(d);
    NotInfinity(d);
    LeadingDigitsOf(d, []);
    assert d + [] == d;
    assert d[..|d|] == d && d[|d|..] == [];
    assert UnsignedDecimal(d) == Mantissa(d, [], []);
    assert d + [] == d;
  }

  /** Worked value: the empty string is 0. */
  lemma EmptyIsZero()
    ensures ToNumber("") == Finite(0.0)
  {
  }

  predicate AllWhitespace(w: string) {
    forall i :: 0 <= i < |w| ==> IsWhitespace(w[i])
  }

  lemma {:induction false} TrimStartSkips(w: string, s: string)
    requires AllWhitespace(w)
    ensures TrimStart(w + s) == TrimStart(s)
  {
    if w != [] {
      assert (w + s)[0] == w[0] && IsWhitespace(w[0]);
      assert (w + s)[1..] == w[1..] + s;
      assert TrimStart(w + s) == TrimStart(w[1..] + s);
      TrimStartSkips(w[1..], s);
    } else {
      assert w + s == s;
    }
  }

  lemma {:induction false} TrimEndSkips(s: string, w: string)
    requires AllWhitespace(w)
    ensures TrimEnd(s + w) == TrimEnd(s)
  {
    if w != [] {
      assert (s + w)[|s + w| - 1] == w[|w| - 1] && IsWhitespace(w[|w| - 1]);
      assert (s + w)[..|s + w| - 1] == s + w[..|w| - 1];
      assert TrimEnd(s + w) == TrimEnd(s + w[..|w| - 1]);
      TrimEndSkips(s, w[..|w| - 1]);
    } else {
      assert s + w == s;
    }
  }

  /** Only the trimmed text matters. */
  lemma SameTrimSameNumber(a: string, b: string)
    requires Trim(a) == Trim(b)
    ensures ToNumber(a) == ToNumber(b)
  {
  }

  /** Trimming removes exactly the white space around the text. */
  lemma TrimPadded(w1: string, s: string, w2: string)
    requires AllWhitespace(w1) && AllWhitespace(w2)
    requires s != [] && !IsWhitespace(s[0]) && !IsWhitespace(s[|s| - 1])
    ensures Trim(w1 + s + w2) == s
  {
    assert w1 + s + w2 == w1 + (s + w2);
    TrimStartSkips(w1, s + w2);
    assert (s + w2)[0] == s[0];
    assert TrimStart(s + w2) == s + w2;
    TrimEndSkips(s, w2);
    TrimUnchanged(s);
  }

  /** White space around a number does not change it. */
  lemma PaddingIgnored(w1: string, s: string, w2: string)
    requires AllWhitespace(w1) && AllWhitespace(w2)
    requires s != [] && !IsWhitespace(s[0]) && !IsWhitespace(s[|s| - 1])
    ensures ToNumber(w1 + s + w2) == ToNumber(s)
  {
    var p := w1 + s + w2;
    assert Trim(p) == Trim(s) by {
      TrimPadded(w1, s, w2);
      TrimUnchanged(s);
    }
    SameTrimSameNumber(p, s);
  }

  /** Text that starts with anything but a digit, a point, a sign or the `I` of
      `Infinity` is not a number (for instance `abc`). */
  lemma NonNumericStartIsNaN(s: string)
    requires s != [] && !IsWhitespace(s[0]) && !IsWhitespace(s[|s| - 1])
    requires !IsDigit(s[0], 10) && s[0] != '.' && s[0] != '+' && s[0] != '-' && s[0] != 'I'
    ensures ToNumber(s) == NaN
  {
    TrimUnchanged(s);
    DecimalDigits(s[0]);
    assert s != "Infinity" by {
      assert "Infinity"[0] == 'I';
    }
    assert LeadingDigits(s) == 0;
    assert s[..0] == [] && s[0..] == s;
    assert AfterIntegerDigits([], s) == Mantissa([], [], s);
  }

  /** Trimmed text with a sign in front takes the signed decimal branch. */
  lemma SignBranch(t: string)
    requires t != [] && (t[0] == '-' || t[0] == '+') && !IsWhitespace(t[|t| - 1])
    ensures ToNumber(t) == if t[0] == '-' then Negate(UnsignedDecimal(t[1..])) else UnsignedDecimal(t[1..])
  {
    TrimUnchanged(t);
  }

  /** A sign in front of a decimal: `-` negates its value and `+` keeps it; so `-3`
      is -3 and `+.5` is 0.5. */
  lemma SignedText(x: string)
    requires x != [] && DigitsAndPoints(x)
    ensures ToNumber("-" + x) == Negate(ToNumber(x))
    ensures ToNumber("+" + x) == ToNumber(x)
  {
    DigitOrPoint(x[|x| - 1]);
    SignedSuffix("-", x);
    SignedSuffix("+", x);
    DigitsAndPointsAreDecimal(x);
  }

  lemma SignedSuffix(sign: string, x: string)
    requires sign == "-" || sign == "+"
    requires x != [] && !IsWhitespace(x[|x| - 1])
    ensures ToNumber(sign + x) == if sign == "-" then Negate(UnsignedDecimal(x)) else UnsignedDecimal(x)
  {
    var t := sign + x;
    assert t[0] == sign[0] && t[|t| - 1] == x[|x| - 1] && t[1..] == x;
    SignBranch(t);
  }

  /** Text that starts with a digit, other than a radix prefix, is read as an unsigned
      decimal literal. */
  lemma DigitStartIsDecimal(s: string)
    requires s != [] && IsDigit(s[0], 10) && !IsWhitespace(s[|s| - 1])
    requires |s| >= 2 ==> Radix(s[1]).None?
    ensures ToNumber(s) == UnsignedDecimal(s)
  {
    DigitOrPoint(s[0]);
    TrimUnchanged(s);
  }

  /** Integer digits followed by a tail that is neither a digit, a point nor a radix
      letter: the digits form the mantissa and the tail must be an exponent. */
  lemma DigitsThenTail(d: string, t: string)
    requires AllDigits(d, 10) && d != []
    requires t != [] && !IsDigit(t[0], 10) && t[0] != '.' && Radix(t[0]).None?
    requires !IsWhitespace(t[|t| - 1])
    ensures ToNumber(d + t) == Mantissa(d, [], t)
  {
    var s := d + t;
    assert s[0] == d[0] && s[|s| - 1] == t[|t| - 1];
    if |d| >= 2 {
      assert s[1] == d[1];
      DigitOrPoint(d[1]);
    } else {
      assert s[1] == t[0];
    }
    DigitStartIsDecimal(s);
    assert s != "Infinity" by {
      assert "Infinity"[0] == 'I';
      DecimalDigits(d[0]);
    }
    LeadingDigitsOf(d, t);
    assert s[..|d|] == d && s[|d|..] == t;
    assert UnsignedDecimal(s) == AfterIntegerDigits(d, t);
  }

  /** The exponent part `e x` (or `e+x`) of digit string `x` ... */
  lemma ExponentPart(x: string)
    requires AllDigits(x, 10) && x != []
    ensures ExponentOf("e" + x) == Some(DigitsValue(x, 10))
    ensures ExponentOf("e+" + x) == Some(DigitsValue(x, 10))
  {
    DigitOrPoint(x[0]);
    assert ("e" + x)[1] == x[0] && ("e" + x)[1..] == x;
    assert ("e+" + x)[1] == '+' && ("e+" + x)[2..] == x;
  }

  /** ... and `e-x`. */
  lemma NegativeExponentPart(x: string)
    requires AllDigits(x, 10) && x != []
    ensures ExponentOf("e-" + x) == Some(-(DigitsValue(x, 10) as int))
  {
    var t := "e-" + x;
    assert t[0] == 'e' && t[1] == '-' && t[2..] == x;
  }

  /** Exponent notation: integer digits `d` followed by an exponent part `t` of value
      `e` are `d` times ten to the `e`; so `1e3` is 1000 and `5e-1` is 0.5. */
  lemma ExponentNotation(d: string, t: string, e: int)
    requires AllDigits(d, 10) && d != [] && |t| >= 2 && t[0] == 'e'
    requires IsDigit(t[|t| - 1], 10) && ExponentOf(t) == Some(e)
    ensures ToNumber(d + t) == Finite(Scale(DigitsValue(d, 10), e))
  {
    DecimalDigits(t[|t| - 1]);
    DigitsThenTail(d, t);
    WholeMantissa(d, t, e);
  }

  lemma WholeMantissa(d: string, t: string, e: int)
    requires AllDigits(d, 10) && d != [] && ExponentOf(t) == Some(e)
    ensures Mantissa(d, [], t) == Finite(Scale(DigitsValue(d, 10), e))
  {
    assert d + [] == d;
  }

  /** Digits followed by anything that is not an exponent are not a number; numeric
      separators such as `1_000` are refused. */
  lemma DigitsThenJunkIsNaN(d: string, t: string)
    requires AllDigits(d, 10) && d != []
    requires t != [] && !IsDigit(t[0], 10) && t[0] != '.' && Radix(t[0]).None?
    requires !IsWhitespace(t[|t| - 1]) && ExponentOf(t).None?
    ensures ToNumber(d + t) == NaN
  {
    DigitsThenTail(d, t);
  }

  /** A digit of any radix up to 16 is not white space. */
  lemma DigitIsNotWhitespace(c: char, radix: nat)
    requires IsDigit(c, radix)
    ensures !IsWhitespace(c)
  {
  }

  /** A radix literal `0x…`, `0o…` or `0b…` is its digits read in that radix, so `0x1F`
      is 31. */
  lemma RadixLiteral(c: char, ds: string)
    requires Radix(c).Some? && ds != [] && AllDigits(ds, Radix(c).value)
    ensures ToNumber(['0', c] + ds) == Finite(DigitsValue(ds, Radix(c).value) as real)
  {
    var u := ['0', c] + ds;
    DigitIsNotWhitespace(ds[|ds| - 1], Radix(c).value);
    assert u[0] == '0' && u[1] == c && u[|u| - 1] == ds[|ds| - 1] && u[2..] == ds;
    RadixBranch(u);
  }

  /** The prefix alone is not a number, and neither is a signed radix literal, because
      only decimal literals take a sign: `0x` and `-0x10` are NaN. */
  lemma RadixNeedsDigitsAndNoSign(c: char, ds: string)
    requires Radix(c).Some? && ds != [] && AllDigits(ds, Radix(c).value)
    ensures ToNumber(['0', c]) == NaN
    ensures ToNumber("-" + (['0', c] + ds)) == NaN
    ensures ToNumber("+" + (['0', c] + ds)) == NaN
  {
    var u := ['0', c] + ds;
    DigitIsNotWhitespace(ds[|ds| - 1], Radix(c).value);
    assert u[0] == '0' && u[1] == c && u[|u| - 1] == ds[|ds| - 1];
    SignedRadixIsNaN(u, "-" + u);
    SignedRadixIsNaN(u, "+" + u);
    RadixPrefixAlone(c);
  }

  lemma RadixPrefixAlone(c: char)
    requires Radix(c).Some?
    ensures ToNumber(['0', c]) == NaN
  {
    var bare := ['0', c];
    assert bare[2..] == [];
    RadixBranch(bare);
  }

  /** Trimmed text with a radix prefix takes the radix branch. */
  lemma RadixBranch(t: string)
    requires |t| >= 2 && t[0] == '0' && Radix(t[1]).Some? && !IsWhitespace(t[|t| - 1])
    ensures ToNumber(t) == if t[2..] != [] && AllDigits(t[2..], Radix(t[1]).value)
                           then Finite(DigitsValue(t[2..], Radix(t[1]).value) as real) else NaN
  {
    TrimUnchanged(t);
  }

  /** `u` is a radix literal; a sign in front sends it down the decimal branch, where
      the integer digits `0` are followed by the radix letter, which is no exponent. */
  lemma SignedRadixIsNaN(u: string, t: string)
    requires |u| >= 2 && u[0] == '0' && Radix(u[1]).Some? && !IsWhitespace(u[|u| - 1])
    requires t == "-" + u || t == "+" + u
    ensures ToNumber(t) == NaN
  {
    SignedSuffix(t[..1], u);
    assert t == t[..1] + u;
    RadixIsNoDecimal(u);
  }

  lemma RadixIsNoDecimal(u: string)
    requires |u| >= 2 && u[0] == '0' && Radix(u[1]).Some?
    ensures UnsignedDecimal(u) == NaN
  {
    assert u != "Infinity" by {
      assert "Infinity"[0] == 'I';
    }
    var rest := u[1..];
    assert u == "0" + rest;
    LeadingDigitsOf("0", rest);
    assert u[..1] == "0" && u[1..] == rest;
    assert UnsignedDecimal(u) == AfterIntegerDigits("0", rest);
  }
}
