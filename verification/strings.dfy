/**
  Character-level operations the source borrows from its runtimes: Python's
  `str.lower`, `str.join`, `str()` of an integer and `float()`/`int()` of a
  string, and JavaScript's `String.prototype.trim`.
 */
module Strings {
  import opened Wrappers

  // ---------------------------------------------------------------------------
  // Case folding (ASCII letters only)
  // ---------------------------------------------------------------------------

  function LowerChar(c: char): char
  {
    if 'A' <= c <= 'Z' then (c as int - 'A' as int + 'a' as int) as char else c
  }

  /** `s.lower()` on the ASCII letters; every other character is kept. */
  function Lower(s: string): (r: string)
    ensures |r| == |s|
    ensures forall i :: 0 <= i < |s| ==> r[i] == LowerChar(s[i])
  {
    if |s| == 0 then "" else [LowerChar(s[0])] + Lower(s[1..])
  }

  // ---------------------------------------------------------------------------
  // JavaScript trim
  // ---------------------------------------------------------------------------

  /** ECMAScript WhiteSpace and LineTerminator code points, which `trim` removes. */
  predicate IsJsSpace(c: char)
  {
    || c == '\t' || c == '\n' || c == '\U{0B}' || c == '\U{0C}' || c == '\r' || c == ' '
    || c == '\U{A0}' || c == '\U{1680}' || ('\U{2000}' <= c <= '\U{200A}')
    || c == '\U{2028}' || c == '\U{2029}' || c == '\U{202F}' || c == '\U{205F}'
    || c == '\U{3000}' || c == '\U{FEFF}'
  }

  predicate AllJsSpace(s: string)
  {
    forall i :: 0 <= i < |s| ==> IsJsSpace(s[i])
  }

  /** `s.trimStart()`: the suffix left after dropping the leading white space. */
  function TrimStart(s: string): (r: string)
    ensures |r| <= |s| && r == s[|s| - |r|..]
    ensures AllJsSpace(s[..|s| - |r|])
    ensures r == "" <==> AllJsSpace(s)
    ensures |r| > 0 ==> !IsJsSpace(r[0])
  {
    if |s| > 0 && IsJsSpace(s[0]) then
      var r := TrimStart(s[1..]);
      assert s[1..][|s| - 1 - |r|..] == s[|s| - |r|..];
      forall i | 0 < i < |s| - |r|
        ensures IsJsSpace(s[i])
      {
        assert s[i] == s[1..][..|s| - 1 - |r|][i - 1];
      }
      r
    else s
  }

  /** `s.trimEnd()`: the prefix left after dropping the trailing white space. */
  function TrimEnd(s: string): (r: string)
    ensures r <= s
    ensures AllJsSpace(s[|r|..])
    ensures r == "" <==> AllJsSpace(s)
    ensures |r| > 0 ==> !IsJsSpace(r[|r| - 1])
  {
    if |s| > 0 && IsJsSpace(s[|s| - 1]) then
      var r := TrimEnd(s[..|s| - 1]);
      assert AllJsSpace(s) <==> AllJsSpace(s[..|s| - 1]) by {
        assert forall i :: 0 <= i < |s| - 1 ==> s[..|s| - 1][i] == s[i];
      }
      assert forall i :: |r| <= i < |s| - 1 ==> s[..|s| - 1][|r|..][i - |r|] == s[i];
      r
    else s
  }

  /**
    `s.trim()`: what is left of `s` after removing its leading and trailing
    white space. The result is a contiguous slice of `s` with only white
    space around it; it is empty exactly when `s` consists of white space
    only, and a non-empty result neither starts nor ends with white space.
   */
  function Trim(s: string): (r: string)
    ensures exists a, b :: 0 <= a <= b <= |s| && r == s[a..b] && AllJsSpace(s[..a]) && AllJsSpace(s[b..])
    ensures r == "" <==> AllJsSpace(s)
    ensures |r| > 0 ==> !IsJsSpace(r[0]) && !IsJsSpace(r[|r| - 1])
  {
    var front := TrimStart(s);
    var r := TrimEnd(front);
    assert |r| > 0 ==> r[0] == front[0];
    TrimIsSlice(s, front, r);
    r
  }

  /** Dropping white space from the front and then from the back leaves a slice with only white space around it. */
  lemma TrimIsSlice(s: string, front: string, r: string)
    requires |front| <= |s| && front == s[|s| - |front|..] && AllJsSpace(s[..|s| - |front|])
    requires r <= front && AllJsSpace(front[|r|..])
    ensures exists a, b :: 0 <= a <= b <= |s| && r == s[a..b] && AllJsSpace(s[..a]) && AllJsSpace(s[b..])
  {
    var a := |s| - |front|;
    var b := a + |r|;
    assert r == front[..|r|];
    assert front[..|r|] == s[a..b];
    assert front[|r|..] == s[b..];
  }

  // ---------------------------------------------------------------------------
  // Joining
  // ---------------------------------------------------------------------------

  /** Python's `sep.join(xs)`. */
  function Join(sep: string, xs: seq<string>): string
  {
    if |xs| == 0 then ""
    else if |xs| == 1 then xs[0]
    else xs[0] + sep + Join(sep, xs[1..])
  }

  function TotalLength(xs: seq<string>): nat
  {
    if |xs| == 0 then 0 else |xs[0]| + TotalLength(xs[1..])
  }

  /**
    `sep.join(xs)` holds the characters of every part plus exactly
    `|xs| - 1` copies of the separator.
   */
  lemma {:induction false} JoinLength(sep: string, xs: seq<string>)
    requires |xs| > 0
    ensures |Join(sep, xs)| == TotalLength(xs) + (|xs| - 1) * |sep|
    decreases |xs|
  {
    if |xs| > 1 {
      JoinLength(sep, xs[1..]);
    }
  }

  /** Joining a part in front of the others prepends it and, unless it is alone, one separator. */
  lemma JoinCons(sep: string, x: string, xs: seq<string>)
    ensures Join(sep, [x] + xs) == (if |xs| == 0 then x else x + sep + Join(sep, xs))
  {
    assert ([x] + xs)[1..] == xs;
  }

  /** Joining one more part appends the separator and that part. */
  lemma {:induction false} JoinSnoc(sep: string, xs: seq<string>, x: string)
    requires |xs| > 0
    ensures Join(sep, xs + [x]) == Join(sep, xs) + sep + x
    decreases |xs|
  {
    var ys := xs + [x];
    assert ys[0] == xs[0];
    if |xs| == 1 {
      assert ys[1..] == [x];
    } else {
      assert ys[1..] == xs[1..] + [x];
      JoinSnoc(sep, xs[1..], x);
    }
  }

  // ---------------------------------------------------------------------------
  // Decimal numerals
  // ---------------------------------------------------------------------------

  predicate IsDigit(c: char) { '0' <= c <= '9' }

  predicate AllDigits(s: string)
  {
    forall i :: 0 <= i < |s| ==> IsDigit(s[i])
  }

  function DigitChar(d: nat): char
    requires d < 10
  {
    ('0' as int + d) as char
  }

  function DigitValue(c: char): nat
    requires IsDigit(c)
  {
    c as int - '0' as int
  }

  /** The number a string of decimal digits denotes. */
  function DigitsValue(s: string): nat
    requires AllDigits(s)
  {
    if |s| == 0 then 0 else DigitsValue(s[..|s| - 1]) * 10 + DigitValue(s[|s| - 1])
  }

  function Pow10(n: nat): (r: nat)
    ensures r >= 1
  {
    if n == 0 then 1 else 10 * Pow10(n - 1)
  }

  /** `str(n)` in Python, `n.toString()` in JavaScript, for a natural number. */
  function NatToString(n: nat): (r: string)
    ensures |r| > 0 && AllDigits(r)
    ensures DigitsValue(r) == n
    ensures |r| > 1 ==> r[0] != '0'
  {
    if n < 10 then [DigitChar(n)]
    else
      var front := NatToString(n / 10);
      var r := front + [DigitChar(n % 10)];
      assert r[..|r| - 1] == front;
      r
  }

  /** Distinct numbers have distinct renderings. */
  lemma NatToStringInjective(a: nat, b: nat)
    requires NatToString(a) == NatToString(b)
    ensures a == b
  {
  }

  /** What follows an optional leading sign. */
  function Unsigned(s: string): string
  {
    if |s| > 0 && (s[0] == '-' || s[0] == '+') then s[1..] else s
  }

  function SignOf(s: string): int
  {
    if |s| > 0 && s[0] == '-' then -1 else 1
  }

  /** The integer numerals `int()` accepts here: an optional sign and at least one digit. */
  predicate IntNumeral(s: string)
  {
    |Unsigned(s)| > 0 && AllDigits(Unsigned(s))
  }

  /** Digits with at most one '.' among them and at least one digit. */
  predicate DecimalBody(u: string)
  {
    && (forall i :: 0 <= i < |u| ==> IsDigit(u[i]) || u[i] == '.')
    && (forall i, j :: 0 <= i < j < |u| && u[i] == '.' ==> u[j] != '.')
    && (exists i :: 0 <= i < |u| && IsDigit(u[i]))
  }

  /** The decimal numerals `float()` accepts here: an optional sign and a decimal body. */
  predicate DecimalNumeral(s: string)
  {
    DecimalBody(Unsigned(s))
  }

  /** Python's `int(s)` on a string: an optional sign and at least one digit. */
  function ParseInt(s: string): (r: Option<int>)
    ensures r.Some? <==> IntNumeral(s)
    ensures r.Some? ==> r.value == SignOf(s) * DigitsValue(Unsigned(s))
  {
    if |s| > 0 && (s[0] == '-' || s[0] == '+') then
      var digits := s[1..];
      if |digits| > 0 && AllDigits(digits) then
        var v: int := DigitsValue(digits);
        Some(if s[0] == '-' then -v else v)
      else None
    else if |s| > 0 && AllDigits(s) then Some(DigitsValue(s))
    else None
  }

  /** Position of the first '.' in `s`, or `|s|` when there is none. */
  function DotIndex(s: string): (k: nat)
    ensures k <= |s|
    ensures k < |s| ==> s[k] == '.'
    ensures forall i :: 0 <= i < k ==> s[i] != '.'
  {
    if |s| == 0 then 0
    else if s[0] == '.' then 0
    else 1 + DotIndex(s[1..])
  }

  /** `u` with its decimal points left out. */
  function DropPoint(u: string): (r: string)
    ensures (forall i :: 0 <= i < |u| ==> IsDigit(u[i]) || u[i] == '.') ==> AllDigits(r)
  {
    if |u| == 0 then ""
    else (if u[0] == '.' then "" else [u[0]]) + DropPoint(u[1..])
  }

  /** How many characters follow the first decimal point of `u`; 0 when there is none. */
  function PointScale(u: string): nat
  {
    if |u| == 0 then 0
    else if u[0] == '.' then |u| - 1
    else PointScale(u[1..])
  }

  /**
    The number a decimal numeral denotes: its sign times its digits read as
    one integer, divided by ten once per digit after the point.
   */
  function DecimalValue(s: string): real
    requires DecimalNumeral(s)
  {
    var u := Unsigned(s);
    SignOf(s) as real * (DigitsValue(DropPoint(u)) as real / Pow10(PointScale(u)) as real)
  }

  /** Digits followed by digits read as one number. */
  lemma {:induction false} DigitsValueAppend(a: string, b: string)
    requires AllDigits(a) && AllDigits(b)
    ensures AllDigits(a + b)
    ensures DigitsValue(a + b) == DigitsValue(a) * Pow10(|b|) + DigitsValue(b)
    decreases |b|
  {
    if |b| == 0 {
      assert a + b == a;
    } else {
      var b' := b[..|b| - 1];
      assert (a + b)[..|a + b| - 1] == a + b';
      DigitsValueAppend(a, b');
    }
  }

  /** Leaving out the only point joins the digits around it; the scale counts those after it. */
  lemma {:induction false} DropPointSplit(s: string)
    requires forall i :: DotIndex(s) < i < |s| ==> s[i] != '.'
    ensures DropPoint(s) == s[..DotIndex(s)] + (if DotIndex(s) < |s| then s[DotIndex(s) + 1..] else "")
    ensures PointScale(s) == if DotIndex(s) < |s| then |s| - DotIndex(s) - 1 else 0
  {
    if |s| > 0 && s[0] != '.' {
      forall i | DotIndex(s[1..]) < i < |s[1..]|
        ensures s[1..][i] != '.'
      {
        assert s[1..][i] == s[i + 1];
      }
      DropPointSplit(s[1..]);
      assert s[..DotIndex(s)] == [s[0]] + s[1..][..DotIndex(s[1..])];
      if DotIndex(s) < |s| {
        assert s[DotIndex(s) + 1..] == s[1..][DotIndex(s[1..]) + 1..];
      }
    } else if |s| > 0 {
      assert DropPoint(s[1..]) == s[1..] by {
        DropPointOfDigits(s[1..]);
      }
    }
  }

  /** A string without a point is its own digits. */
  lemma {:induction false} DropPointOfDigits(u: string)
    requires forall i :: 0 <= i < |u| ==> u[i] != '.'
    ensures DropPoint(u) == u
  {
    if |u| > 0 {
      assert forall i :: 0 <= i < |u[1..]| ==> u[1..][i] == u[i + 1];
      DropPointOfDigits(u[1..]);
    }
  }

  /** Digits with at most one decimal point and at least one digit: "12", "1.5", ".5", "5.". */
  function ParseUnsignedDecimal(s: string): (r: Option<real>)
    ensures r.Some? <==> DecimalBody(s)
    ensures r.Some? ==> r.value == DigitsValue(DropPoint(s)) as real / Pow10(PointScale(s)) as real
    ensures AllDigits(s) && |s| > 0 ==> r == Some(DigitsValue(s) as real)
  {
    var k := DotIndex(s);
    var whole := s[..k];
    var fraction := if k < |s| then s[k + 1..] else "";
    UnsignedDecimalShape(s, k, whole, fraction);
    if AllDigits(whole) && AllDigits(fraction) && |whole| + |fraction| > 0 then
      UnsignedDecimalValue(s, k, whole, fraction);
      Some(DigitsValue(whole) as real + DigitsValue(fraction) as real / Pow10(|fraction|) as real)
    else None
  }

  /** Splitting at the first dot accepts exactly the decimal bodies. */
  lemma UnsignedDecimalShape(s: string, k: nat, whole: string, fraction: string)
    requires k == DotIndex(s) && whole == s[..k]
    requires fraction == if k < |s| then s[k + 1..] else ""
    ensures AllDigits(whole) && AllDigits(fraction) && |whole| + |fraction| > 0 <==> DecimalBody(s)
    ensures AllDigits(s) ==> whole == s && fraction == ""
  {
    if k < |s| {
      assert !IsDigit(s[k]);
    }
    if AllDigits(whole) && AllDigits(fraction) && |whole| + |fraction| > 0 {
      forall i | 0 <= i < |s|
        ensures IsDigit(s[i]) || s[i] == '.'
      {
        if i < k { assert s[i] == whole[i]; }
        else if i > k { assert s[i] == fraction[i - k - 1]; }
      }
      forall i, j | 0 <= i < j < |s| && s[i] == '.'
        ensures s[j] != '.'
      {
        assert s[j] == fraction[j - k - 1];
      }
      if |whole| > 0 {
        assert IsDigit(s[0]) by { assert s[0] == whole[0]; }
      } else {
        assert IsDigit(s[k + 1]) by { assert s[k + 1] == fraction[0]; }
      }
    }
    if DecimalBody(s) {
      forall i | 0 <= i < |whole|
        ensures IsDigit(whole[i])
      {
        assert whole[i] == s[i];
      }
      forall i | 0 <= i < |fraction|
        ensures IsDigit(fraction[i])
      {
        assert fraction[i] == s[k + 1 + i];
      }
      var d :| 0 <= d < |s| && IsDigit(s[d]);
      if d < k {
        assert whole[d] == s[d];
      } else {
        assert d > k;
        assert fraction[d - k - 1] == s[d];
      }
    }
  }

  /** The value the split at the first point computes is the digits read as one number, scaled down. */
  lemma UnsignedDecimalValue(s: string, k: nat, whole: string, fraction: string)
    requires k == DotIndex(s) && whole == s[..k]
    requires fraction == if k < |s| then s[k + 1..] else ""
    requires AllDigits(whole) && AllDigits(fraction)
    ensures AllDigits(DropPoint(s))
    ensures DigitsValue(whole) as real + DigitsValue(fraction) as real / Pow10(|fraction|) as real
            == DigitsValue(DropPoint(s)) as real / Pow10(PointScale(s)) as real
  {
    forall i | k < i < |s|
      ensures s[i] != '.'
    {
      assert s[i] == fraction[i - k - 1];
    }
    DropPointSplit(s);
    assert DropPoint(s) == whole + fraction && PointScale(s) == |fraction|;
    DigitsValueAppend(whole, fraction);
    ScaleDown(DigitsValue(DropPoint(s)), Pow10(PointScale(s)),
              DigitsValue(whole), DigitsValue(fraction), Pow10(|fraction|));
  }

  /** A decimal body has no point after its first one. */
  lemma NoSecondPoint(s: string)
    requires DecimalBody(s)
    ensures forall i :: DotIndex(s) < i < |s| ==> s[i] != '.'
  {
    var k := DotIndex(s);
    forall i | k < i < |s|
      ensures s[i] != '.'
    {
      assert s[k] == '.';
    }
  }

  /** `(w * p + f) / p == w + f / p` over the reals, for `d == w * p + f`. */
  lemma ScaleDown(d: nat, q: nat, w: nat, f: nat, p: nat)
    requires p > 0 && q == p && d == w * p + f
    ensures w as real + f as real / p as real == d as real / q as real
  {
    var pr := p as real;
    assert d as real == w as real * pr + f as real;
    assert (w as real * pr + f as real) / pr == w as real * pr / pr + f as real / pr;
    assert w as real * pr / pr == w as real;
  }

  /** Python's `float(s)` on a string: an optional sign and a decimal numeral. */
  function ParseDecimal(s: string): (r: Option<real>)
    ensures r.Some? <==> DecimalNumeral(s)
    ensures r.Some? ==> r.value == DecimalValue(s)
    ensures IntNumeral(s) ==> r == Some(ParseInt(s).value as real)
  {
    match ParseUnsignedDecimal(Unsigned(s))
    case None => None
    case Some(v) =>
      assert IntNumeral(s) ==> (SignOf(s) * DigitsValue(Unsigned(s))) as real == SignOf(s) as real * v;
      Some(SignOf(s) as real * v)
  }

  /** `int(str(n)) == n`. */
  lemma ParseIntOfNatToString(n: nat)
    ensures ParseInt(NatToString(n)) == Some(n)
  {
    var s := NatToString(n);
    assert IsDigit(s[0]);
  }

  /** `float(str(n)) == n`. */
  lemma ParseDecimalOfNatToString(n: nat)
    ensures ParseDecimal(NatToString(n)) == Some(n as real)
  {
    var s := NatToString(n);
    assert IsDigit(s[0]);
    assert DotIndex(s) == |s|;
    assert s[..|s|] == s;
  }
}
