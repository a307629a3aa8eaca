/**
 * The JavaScript built-ins the component's rules rest on, restricted to what
 * those rules use: `String.prototype.trim`, the `Number(...)` coercion of a
 * string, number-to-string conversion inside template literals,
 * `toLowerCase`, `includes` and the string order used by `localeCompare`.
 */
module Builtins {

  // ---------------------------------------------------------------------
  // trim
  // ---------------------------------------------------------------------

  /** The characters `String.prototype.trim` removes: white space and line terminators. */
  const WHITESPACE: set<char> := {
    ' ', '\t', '\n', '\U{B}', '\U{C}', '\r', '\U{A0}', '\U{1680}',
    '\U{2000}', '\U{2001}', '\U{2002}', '\U{2003}', '\U{2004}', '\U{2005}',
    '\U{2006}', '\U{2007}', '\U{2008}', '\U{2009}', '\U{200A}',
    '\U{2028}', '\U{2029}', '\U{202F}', '\U{205F}', '\U{3000}', '\U{FEFF}'
  }

  predicate IsWhitespace(c: char) {
    c in WHITESPACE
  }

  predicate AllWhitespace(s: string) {
    forall i :: 0 <= i < |s| ==> IsWhitespace(s[i])
  }

  /** The index of the first character at or after `i` that is not white space. */
  function SkipLeading(s: string, i: nat): (j: nat)
    requires i <= |s|
    ensures i <= j <= |s|
    ensures forall k :: i <= k < j ==> IsWhitespace(s[k])
    ensures j < |s| ==> !IsWhitespace(s[j])
    decreases |s| - i
  {
    if i < |s| && IsWhitespace(s[i]) then SkipLeading(s, i + 1) else i
  }

  /** The index just past the last character before `j`, not going below `lo`, that is not white space. */
  function SkipTrailing(s: string, lo: nat, j: nat): (k: nat)
    requires lo <= j <= |s|
    ensures lo <= k <= j
    ensures forall m :: k <= m < j ==> IsWhitespace(s[m])
    ensures k > lo ==> !IsWhitespace(s[k - 1])
    decreases j
  {
    if j > lo && IsWhitespace(s[j - 1]) then SkipTrailing(s, lo, j - 1) else j
  }

  /** How many white-space characters `s` starts with. */
  function LeadingWhitespace(s: string): (n: nat)
    ensures n <= |s|
  {
    SkipLeading(s, 0)
  }

  /** `s.trim()`: `s` is white space, then the result, then white space. */
  function Trim(s: string): (r: string)
    ensures r == [] <==> AllWhitespace(s)
    ensures r != [] ==> !IsWhitespace(r[0]) && !IsWhitespace(r[|r| - 1])
    ensures LeadingWhitespace(s) + |r| <= |s|
    ensures r == s[LeadingWhitespace(s)..LeadingWhitespace(s) + |r|]
    ensures forall k :: 0 <= k < LeadingWhitespace(s) ==> IsWhitespace(s[k])
    ensures forall k :: LeadingWhitespace(s) + |r| <= k < |s| ==> IsWhitespace(s[k])
  {
    var a := SkipLeading(s, 0);
    var b := SkipTrailing(s, a, |s|);
    assert a == b ==> a == |s|;
    s[a..b]
  }

  /** A string with no white space at either end is its own trim. */
  lemma TrimOfTrimmed(s: string)
    requires s != [] && !IsWhitespace(s[0]) && !IsWhitespace(s[|s| - 1])
    ensures Trim(s) == s
  {
    assert SkipLeading(s, 0) == 0;
    assert SkipTrailing(s, 0, |s|) == |s|;
    assert s[0..|s|] == s;
  }

  /** Trimming twice is trimming once. */
  lemma TrimIdempotent(s: string)
    ensures Trim(Trim(s)) == Trim(s)
  {
    var r := Trim(s);
    if r != [] {
      TrimOfTrimmed(r);
    }
  }

  // ---------------------------------------------------------------------
  // Number(...)
  // ---------------------------------------------------------------------

  /** A JavaScript number as far as the component's arithmetic needs one. */
  datatype JsNumber = Finite(value: real) | NaN {

    /** `n || 0`: NaN and zero are falsy and become 0. */
    function OrZero(): real {
      match this
      case Finite(v) => v
      case NaN => 0.0
    }

    /** `this * q`, where `q` is already a number. */
    function Times(q: real): JsNumber {
      match this
      case Finite(v) => Finite(v * q)
      case NaN => NaN
    }

    function Negated(): JsNumber {
      match this
      case Finite(v) => Finite(-v)
      case NaN => NaN
    }
  }

  predicate IsDigit(c: char) {
    '0' <= c <= '9'
  }

  predicate AllDigits(s: string) {
    forall i :: 0 <= i < |s| ==> IsDigit(s[i])
  }

  function DigitValue(c: char): nat
    requires IsDigit(c)
  {
    c as int - '0' as int
  }

  /** The value of a string of decimal digits, most significant first. */
  function DigitsValue(s: string): nat
    requires AllDigits(s)
  {
    if s == [] then 0 else 10 * DigitsValue(s[..|s| - 1]) + DigitValue(s[|s| - 1])
  }

  function Pow10(n: nat): (p: nat)
    ensures p >= 1
  {
    if n == 0 then 1 else 10 * Pow10(n - 1)
  }

  /** The number of decimal digits at the start of `s`. */
  function LeadingDigits(s: string): (k: nat)
    ensures k <= |s| && AllDigits(s[..k])
    ensures k < |s| ==> !IsDigit(s[k])
  {
    if s != [] && IsDigit(s[0]) then
      var k := 1 + LeadingDigits(s[1..]);
      assert s[..k] == [s[0]] + s[1..][..k - 1];
      k
    else 0
  }

  /**
   * A decimal numeral without sign: digits, optionally a point and more
   * digits, with at least one digit in all ("5", "5.", ".5", "2.50").
   */
  function UnsignedDecimal(t: string): (n: JsNumber)
    ensures n.Finite? ==> n.value >= 0.0
  {
    var k := LeadingDigits(t);
    var whole := DigitsValue(t[..k]) as real;
    if k == |t| then
      if k > 0 then Finite(whole) else NaN
    else if t[k] == '.' && AllDigits(t[k + 1..]) && (k > 0 || k + 1 < |t|) then
      var fraction := t[k + 1..];
      Finite(whole + (DigitsValue(fraction) as real) / (Pow10(|fraction|) as real))
    else NaN
  }

  /**
   * `Number(s)` for a string: surrounding white space is ignored, a blank
   * string is 0, a sign may precede a decimal numeral, anything else is NaN.
   */
  function ToNumber(s: string): (n: JsNumber)
    ensures AllWhitespace(s) ==> n == Finite(0.0)
  {
    var t := Trim(s);
    if t == [] then Finite(0.0)
    else if t[0] == '-' then UnsignedDecimal(t[1..]).Negated()
    else if t[0] == '+' then UnsignedDecimal(t[1..])
    else UnsignedDecimal(t)
  }

  // ---------------------------------------------------------------------
  // number to string (template literals)
  // ---------------------------------------------------------------------

  function DigitChar(d: nat): (c: char)
    requires d < 10
    ensures IsDigit(c) && DigitValue(c) == d
  {
    ('0' as int + d) as char
  }

  /** The decimal numeral of a natural number, without leading zeros. */
  function NatToString(n: nat): (s: string)
    ensures s != []
  {
    if n < 10 then [DigitChar(n)] else NatToString(n / 10) + [DigitChar(n % 10)]
  }

  /** The numeral is all digits, has no leading zero and reads back as the number. */
  lemma {:induction false} NatToStringDigits(n: nat)
    ensures var s := NatToString(n);
            AllDigits(s) && DigitsValue(s) == n && (|s| > 1 ==> s[0] != '0')
  {
    var s := NatToString(n);
    if n < 10 {
      assert s[..0] == [];
    } else {
      var p := NatToString(n / 10);
      NatToStringDigits(n / 10);
      assert s == p + [DigitChar(n % 10)];
      assert s[..|s| - 1] == p;
      assert s[0] == p[0];
      if |p| == 1 {
        assert p[0] != '0' by {
          assert DigitsValue(p) == DigitValue(p[0]) by { assert p[..0] == []; }
        }
      }
    }
  }

  /** How `${i}` renders an integer. */
  function IntToString(i: int): (s: string)
    ensures s != []
  {
    if i < 0 then "-" + NatToString(-i) else NatToString(i)
  }

  /** The rendering is an optional minus sign, then the digits of the magnitude. */
  lemma IntToStringDigits(i: int)
    ensures var s := IntToString(i);
            && (i >= 0 ==> AllDigits(s) && DigitsValue(s) == i)
            && (i < 0 ==> s[0] == '-' && AllDigits(s[1..]) && DigitsValue(s[1..]) == -i)
  {
    if i < 0 {
      NatToStringDigits(-i);
      assert IntToString(i)[1..] == NatToString(-i);
    } else {
      NatToStringDigits(i);
    }
  }

  lemma {:induction false} TrimOfDigits(s: string)
    requires s != [] && AllDigits(s)
    ensures Trim(s) == s
  {
    assert !IsWhitespace(s[0]) && !IsWhitespace(s[|s| - 1]);
    TrimOfTrimmed(s);
  }

  lemma {:induction false} TrimOfSignedDigits(s: string)
    requires |s| > 1 && s[0] == '-' && AllDigits(s[1..])
    ensures Trim(s) == s
  {
    assert s[|s| - 1] == s[1..][|s| - 2];
    assert !IsWhitespace(s[0]) && !IsWhitespace(s[|s| - 1]);
    TrimOfTrimmed(s);
  }

  lemma {:induction false} UnsignedDecimalOfDigits(d: string)
    requires d != [] && AllDigits(d)
    ensures UnsignedDecimal(d) == Finite(DigitsValue(d) as real)
  {
    assert LeadingDigits(d) == |d|;
    assert d[..|d|] == d;
  }

  /** `Number` reads a string of decimal digits as the number they denote. */
  lemma {:induction false} ToNumberOfDigits(d: string)
    requires d != [] && AllDigits(d)
    ensures ToNumber(d) == Finite(DigitsValue(d) as real)
  {
    TrimOfDigits(d);
    assert d[0] != '-' && d[0] != '+';
    UnsignedDecimalOfDigits(d);
  }

  /** `Number` reads a minus sign followed by decimal digits as the negated number. */
  lemma {:induction false} ToNumberOfNegatedDigits(d: string)
    requires d != [] && AllDigits(d)
    ensures ToNumber("-" + d) == Finite(-(DigitsValue(d) as real))
  {
    var s := "-" + d;
    assert s[1..] == d;
    TrimOfSignedDigits(s);
    UnsignedDecimalOfDigits(d);
  }

  /** Reading back the numeral a natural number is rendered as gives the number. */
  lemma ToNumberOfNatToString(n: nat)
    ensures ToNumber(NatToString(n)) == Finite(n as real)
  {
    NatToStringDigits(n);
    ToNumberOfDigits(NatToString(n));
  }

  /** A numeral holding a character other than a digit or the decimal point is not a number. */
  lemma {:induction false} UnsignedDecimalRejects(u: string, i: nat)
    requires i < |u| && !IsDigit(u[i]) && u[i] != '.'
    ensures UnsignedDecimal(u) == NaN
  {
    var k := LeadingDigits(u);
    assert k <= i;
    if k < i {
      assert u[k + 1..][i - k - 1] == u[i];
    }
  }

  /**
   * `Number` of a text whose trimmed form holds, anywhere but in the sign
   * position, a character that is neither a digit nor the decimal point is
   * NaN (`"abc"`, `"12a"`, `"1 2"`, `"--3"`).
   */
  lemma {:induction false} ToNumberOfNonNumeral(s: string, i: nat)
    requires i < |Trim(s)|
    requires !IsDigit(Trim(s)[i]) && Trim(s)[i] != '.'
    requires i == 0 ==> Trim(s)[0] != '-' && Trim(s)[0] != '+'
    ensures ToNumber(s) == NaN
  {
    var t := Trim(s);
    if t[0] == '-' || t[0] == '+' {
      assert t[1..][i - 1] == t[i];
      UnsignedDecimalRejects(t[1..], i - 1);
    } else {
      UnsignedDecimalRejects(t, i);
    }
  }

  /** `LeadingDigits` stops at the first character that is not a digit. */
  lemma {:induction false} LeadingDigitsStop(s: string, k: nat)
    requires k <= |s| && AllDigits(s[..k]) && (k < |s| ==> !IsDigit(s[k]))
    ensures LeadingDigits(s) == k
  {
    if k > 0 {
      assert IsDigit(s[..k][0]);
      assert s[1..][..k - 1] == s[..k][1..];
      assert k < |s| ==> s[1..][k - 1] == s[k];
      LeadingDigitsStop(s[1..], k - 1);
    }
  }

  lemma {:induction false} TrimOfDecimal(w: string, f: string)
    requires AllDigits(w) && AllDigits(f) && (w != [] || f != [])
    ensures Trim(w + "." + f) == w + "." + f
  {
    var t := w + "." + f;
    assert t[0] == if w == [] then '.' else w[0];
    assert t[|t| - 1] == if f == [] then '.' else f[|f| - 1];
    TrimOfTrimmed(t);
  }

  lemma {:induction false} UnsignedDecimalOfPoint(w: string, f: string)
    requires AllDigits(w) && AllDigits(f) && (w != [] || f != [])
    ensures UnsignedDecimal(w + "." + f)
              == Finite(DigitsValue(w) as real + (DigitsValue(f) as real) / (Pow10(|f|) as real))
  {
    var t := w + "." + f;
    assert t[..|w|] == w && t[|w|] == '.';
    LeadingDigitsStop(t, |w|);
    assert t[|w| + 1..] == f;
  }

  /**
   * `Number` reads digits, a decimal point and digits as the decimal
   * fraction they denote; either side of the point may be empty, not both.
   */
  lemma {:induction false} ToNumberOfDecimal(w: string, f: string)
    requires AllDigits(w) && AllDigits(f) && (w != [] || f != [])
    ensures ToNumber(w + "." + f)
              == Finite(DigitsValue(w) as real + (DigitsValue(f) as real) / (Pow10(|f|) as real))
  {
    var t := w + "." + f;
    TrimOfDecimal(w, f);
    assert t[0] == if w == [] then '.' else w[0];
    UnsignedDecimalOfPoint(w, f);
  }

  // ---------------------------------------------------------------------
  // toLowerCase and includes
  // ---------------------------------------------------------------------

  /**
   * Lower-case mapping of one character: the Basic Latin and Latin-1
   * capitals (A-Z, À-Þ except ×) map to their small letters.
   */
  function LowerChar(c: char): char {
    if 'A' <= c <= 'Z' || ('\U{C0}' <= c <= '\U{DE}' && c != '\U{D7}') then
      (c as int + 32) as char
    else c
  }

  function ToLower(s: string): (r: string)
    ensures |r| == |s|
    ensures forall i :: 0 <= i < |s| ==> r[i] == LowerChar(s[i])
  {
    seq(|s|, i requires 0 <= i < |s| => LowerChar(s[i]))
  }
  /** Lower-casing twice is lower-casing once. */
  lemma ToLowerIdempotent(s: string)
    ensures ToLower(ToLower(s)) == ToLower(s)
  {
    forall i | 0 <= i < |s| ensures LowerChar(LowerChar(s[i])) == LowerChar(s[i]) {
    }
  }


  /** `t` occurs in `s` starting at position `i`. */
  predicate OccursAt(s: string, t: string, i: int) {
    0 <= i && i + |t| <= |s| && s[i..i + |t|] == t
  }

  /** An occurrence inside an occurrence is an occurrence. */
  lemma OccursAtNested(s: string, t: string, u: string, j: int, i: int)
    requires OccursAt(s, t, j) && OccursAt(t, u, i)
    ensures OccursAt(s, u, j + i)
  {
    var w := s[j..j + |t|];
    assert w == t;
    forall k | 0 <= k < |u| ensures s[j + i + k] == u[k] {
      assert w[i + k] == s[j + i + k];
      assert t[i..i + |u|][k] == t[i + k];
    }
    assert s[j + i..j + i + |u|] == u;
  }

  /** `s.includes(t)`. */
  function Includes(s: string, t: string): (b: bool)
    ensures b <==> exists i :: OccursAt(s, t, i)
    decreases |s|
  {
    if |t| > |s| then
      assert forall i :: !OccursAt(s, t, i);
      false
    else if s[..|t|] == t then
      assert OccursAt(s, t, 0);
      true
    else
      var b := Includes(s[1..], t);
      assert forall i :: OccursAt(s[1..], t, i) <==> OccursAt(s, t, i + 1) by {
        forall i ensures OccursAt(s[1..], t, i) <==> OccursAt(s, t, i + 1) {
          if 0 <= i && i + |t| <= |s| - 1 {
            assert s[1..][i..i + |t|] == s[i + 1..i + 1 + |t|];
          }
        }
      }
      assert b ==> exists i :: OccursAt(s, t, i) by {
        if b {
          var i :| OccursAt(s[1..], t, i);
          assert OccursAt(s, t, i + 1);
        }
      }
      assert (exists i :: OccursAt(s, t, i)) ==> b by {
        if exists i :: OccursAt(s, t, i) {
          var i :| OccursAt(s, t, i);
          assert i != 0;
          assert OccursAt(s[1..], t, i - 1);
        }
      }
      b
  }

  // ---------------------------------------------------------------------
  // localeCompare, as plain code-point order
  // ---------------------------------------------------------------------

  /** `a` sorts strictly before `b`: a proper prefix, or smaller at the first difference. */
  predicate LexLess(a: string, b: string)
    decreases |a|
  {
    if a == [] then b != []
    else if b == [] then false
    else if a[0] != b[0] then a[0] < b[0]
    else LexLess(a[1..], b[1..])
  }

  predicate LexLeq(a: string, b: string) {
    a == b || LexLess(a, b)
  }

  lemma {:induction false} LexLessIrreflexive(a: string)
    ensures !LexLess(a, a)
  {
    if a != [] {
      LexLessIrreflexive(a[1..]);
    }
  }

  lemma {:induction false} LexLessAsymmetric(a: string, b: string)
    ensures !(LexLess(a, b) && LexLess(b, a))
    decreases |a|
  {
    if a != [] && b != [] && a[0] == b[0] {
      LexLessAsymmetric(a[1..], b[1..]);
    }
  }

  lemma {:induction false} LexLessTransitive(a: string, b: string, c: string)
    requires LexLess(a, b) && LexLess(b, c)
    ensures LexLess(a, c)
    decreases |a|
  {
    if a != [] && a[0] == b[0] && b[0] == c[0] {
      LexLessTransitive(a[1..], b[1..], c[1..]);
    }
  }

  lemma {:induction false} LexLessTotal(a: string, b: string)
    ensures a == b || LexLess(a, b) || LexLess(b, a)
    decreases |a|
  {
    if a != [] && b != [] && a[0] == b[0] {
      LexLessTotal(a[1..], b[1..]);
      if a[1..] == b[1..] {
        assert a == [a[0]] + a[1..] && b == [b[0]] + b[1..];
      }
    }
  }
}
