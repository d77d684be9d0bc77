/**
 * The few JavaScript built-ins the core relies on, stated over exact reals and
 * Unicode characters: `Number.prototype.toFixed` (followed by `Number(...)`),
 * `parseInt(s, 10)` and the white-space class `\s`.
 */
module JsBuiltins {
  import opened Wrappers

  // ---------------------------------------------------------------------------
  // toFixed
  // ---------------------------------------------------------------------------

  /** The scale `10^digits` of `toFixed(2)` and of `toFixed(4)`, the two precisions used. */
  const TWO_DECIMALS: real := 100.0
  const FOUR_DECIMALS: real := 10000.0

  /** The integer nearest to `y`; halves are rounded away from zero. */
  function RoundHalfAway(y: real): (n: int)
    ensures -0.5 <= (n as real) - y <= 0.5
  {
    if y < 0.0 then -((-y + 0.5).Floor) else (y + 0.5).Floor
  }

  /**
   * `Number(x.toFixed(digits))` where `scale` is `10^digits`: the multiple of
   * 1/scale nearest to `x`; toFixed works on |x| and puts the sign back, so
   * ties go away from zero.
   */
  function ToFixed(x: real, scale: real): real
    requires scale > 0.0
  {
    RoundHalfAway(x * scale) as real / scale
  }

  lemma RoundHalfAwayMonotone(a: real, b: real)
    requires a <= b
    ensures RoundHalfAway(a) <= RoundHalfAway(b)
  {
    if a < 0.0 && b < 0.0 {
      assert (-b + 0.5).Floor <= (-a + 0.5).Floor;
    } else if a >= 0.0 {
      assert (a + 0.5).Floor <= (b + 0.5).Floor;
    }
  }

  lemma ScaleMonotone(x: real, y: real, p: real)
    requires x <= y && p > 0.0
    ensures x * p <= y * p
  {
  }

  lemma DivideMonotone(a: real, b: real, p: real)
    requires a <= b && p > 0.0
    ensures a / p <= b / p
  {
  }

  /** Dividing two rounded values by the same positive scale keeps their order. */
  lemma RoundedQuotientMonotone(xs: real, ys: real, scale: real)
    requires xs <= ys && scale > 0.0
    ensures RoundHalfAway(xs) as real / scale <= RoundHalfAway(ys) as real / scale
  {
    RoundHalfAwayMonotone(xs, ys);
    DivideMonotone(RoundHalfAway(xs) as real, RoundHalfAway(ys) as real, scale);
  }

  /** Rounding never reverses the order of two numbers. */
  lemma ToFixedMonotone(x: real, y: real, scale: real)
    requires x <= y && scale > 0.0
    ensures ToFixed(x, scale) <= ToFixed(y, scale)
  {
    var xs, ys := x * scale, y * scale;
    ScaleMonotone(x, y, scale);
    assert xs <= ys;
    RoundedQuotientMonotone(xs, ys, scale);
    assert ToFixed(x, scale) == RoundHalfAway(xs) as real / scale;
    assert ToFixed(y, scale) == RoundHalfAway(ys) as real / scale;
  }

  lemma CancelFactor(x: real, p: real)
    requires p > 0.0
    ensures (x * p) / p == x
  {
  }

  lemma RoundedValue(x: real, scale: real, n: int)
    requires scale > 0.0 && x * scale == n as real
    ensures ToFixed(x, scale) == (n as real) / scale
  {
    assert RoundHalfAway(n as real) == n;
  }

  /** An integer is already a number with the kept decimals: rounding leaves it alone. */
  lemma ToFixedInteger(k: int, q: int)
    requires q > 0
    ensures ToFixed(k as real, q as real) == k as real
  {
    assert (k as real) * (q as real) == (k * q) as real;
    RoundedValue(k as real, q as real, k * q);
    CancelFactor(k as real, q as real);
  }

  lemma DivideBound(a: real, b: real, p: real)
    requires p > 0.0 && -0.5 <= a - b <= 0.5
    ensures -0.5 / p <= a / p - b / p <= 0.5 / p
  {
    assert a / p - b / p == (a - b) / p;
    DivideMonotone(-0.5, a - b, p);
    DivideMonotone(a - b, 0.5, p);
  }

  /** The rounded value lies within half a unit of the last kept decimal of `x`. */
  lemma ToFixedError(x: real, scale: real)
    requires scale > 0.0
    ensures -0.5 / scale <= ToFixed(x, scale) - x <= 0.5 / scale
  {
    var n := RoundHalfAway(x * scale) as real;
    assert ToFixed(x, scale) == n / scale;
    DivideBound(n, x * scale, scale);
    CancelFactor(x, scale);
  }

  // ---------------------------------------------------------------------------
  // White space: the characters matched by `\s` and skipped by parseInt
  // (WhiteSpace and LineTerminator of ECMA-262).
  // ---------------------------------------------------------------------------

  predicate IsJsWhitespace(c: char)
  {
    c == '\t' || c == '\n' || c == '\U{000B}' || c == '\U{000C}' || c == '\r' || c == ' '
    || c == '\U{00A0}' || c == '\U{1680}' || ('\U{2000}' <= c <= '\U{200A}')
    || c == '\U{2028}' || c == '\U{2029}' || c == '\U{202F}' || c == '\U{205F}'
    || c == '\U{3000}' || c == '\U{FEFF}'
  }

  // ---------------------------------------------------------------------------
  // parseInt(s, 10)
  // ---------------------------------------------------------------------------

  predicate IsDigit(c: char)
  {
    '0' <= c <= '9'
  }

  predicate AllDigits(s: string)
  {
    forall i :: 0 <= i < |s| ==> IsDigit(s[i])
  }

  function DigitValue(c: char): nat
    requires IsDigit(c)
  {
    (c as int) - ('0' as int)
  }

  /** The value of a decimal numeral, most significant digit first. */
  function DecimalValue(d: string): nat
    requires AllDigits(d)
  {
    if d == [] then 0 else DecimalValue(d[..|d| - 1]) * 10 + DigitValue(d[|d| - 1])
  }

  /** `s` with its leading white space removed. */
  function TrimStart(s: string): (r: string)
    ensures |r| <= |s| && r == s[|s| - |r|..]
    ensures r == [] || !IsJsWhitespace(r[0])
  {
    if s != [] && IsJsWhitespace(s[0]) then TrimStart(s[1..]) else s
  }

  /** Everything `TrimStart` removes is white space. */
  lemma {:induction false} TrimStartSkipsWhitespace(s: string)
    ensures forall i :: 0 <= i < |s| - |TrimStart(s)| ==> IsJsWhitespace(s[i])
  {
    if s != [] && IsJsWhitespace(s[0]) {
      TrimStartSkipsWhitespace(s[1..]);
      forall i | 0 <= i < |s| - |TrimStart(s)|
        ensures IsJsWhitespace(s[i])
      {
        if i > 0 {
          assert s[i] == s[1..][i - 1];
        }
      }
    }
  }

  /** A run of white space in front of a text is removed entirely. */
  lemma {:induction false} TrimStartOfWhitespace(w: string, s: string)
    requires forall i :: 0 <= i < |w| ==> IsJsWhitespace(w[i])
    ensures TrimStart(w + s) == TrimStart(s)
  {
    if w != [] {
      assert (w + s)[0] == w[0];
      assert (w + s)[1..] == w[1..] + s;
      TrimStartOfWhitespace(w[1..], s);
    } else {
      assert w + s == s;
    }
  }

  /** The longest prefix of `s` made of decimal digits. */
  function LeadingDigits(s: string): (r: string)
    ensures AllDigits(r) && r <= s
    ensures |r| == |s| || !IsDigit(s[|r|])
  {
    if s != [] && IsDigit(s[0]) then [s[0]] + LeadingDigits(s[1..]) else []
  }

  /**
   * `parseInt(s, 10)`: skip leading white space, read an optional sign and the
   * longest run of digits; `None` stands for NaN (no digit at all).
   */
  function ParseInt(s: string): Option<int>
  {
    ParseSignedDigits(TrimStart(s))
  }

  /** What `parseInt` reads once the white space is gone: an optional sign, then digits. */
  function ParseSignedDigits(t: string): Option<int>
  {
    var negative := t != [] && t[0] == '-';
    var u := if t != [] && (t[0] == '-' || t[0] == '+') then t[1..] else t;
    var d := LeadingDigits(u);
    if d == [] then None
    else if negative then Some(-(DecimalValue(d) as int))
    else Some(DecimalValue(d))
  }

  /** `parseInt` ignores leading white space. */
  lemma ParseIntSkipsWhitespace(w: string, s: string)
    requires forall i :: 0 <= i < |w| ==> IsJsWhitespace(w[i])
    ensures ParseInt(w + s) == ParseInt(s)
  {
    TrimStartOfWhitespace(w, s);
  }

  /** The decimal numeral of `n`, without sign or leading zeros. */
  function NatToString(n: nat): (s: string)
    ensures s != [] && AllDigits(s)
  {
    if n < 10 then ['0' + (n as char)] else NatToString(n / 10) + ['0' + ((n % 10) as char)]
  }

  lemma {:induction false} DecimalValueOfNatToString(n: nat)
    ensures DecimalValue(NatToString(n)) == n
  {
    var s := NatToString(n);
    if n >= 10 {
      DecimalValueOfNatToString(n / 10);
      assert s[..|s| - 1] == NatToString(n / 10);
    }
  }

  lemma {:induction false} LeadingDigitsOfDigits(d: string, rest: string)
    requires AllDigits(d)
    requires rest == [] || !IsDigit(rest[0])
    ensures LeadingDigits(d + rest) == d
  {
    if d != [] {
      assert (d + rest)[1..] == d[1..] + rest;
      LeadingDigitsOfDigits(d[1..], rest);
    } else {
      assert d + rest == rest;
    }
  }

  /**
   * parseInt reads back the numeral of a natural number, whatever non-digit
   * text follows it ("12abc" and "1.5" read as 12 and 1).
   */
  lemma {:induction false} ParseIntOfNumeral(n: nat, rest: string)
    requires rest == [] || !IsDigit(rest[0])
    ensures ParseInt(NatToString(n) + rest) == Some(n)
  {
    var d := NatToString(n);
    var s := d + rest;
    assert s[0] == d[0];
    assert IsDigit(s[0]);
    assert !IsJsWhitespace(s[0]);
    assert TrimStart(s) == s;
    assert s[0] != '-' && s[0] != '+';
    LeadingDigitsOfDigits(d, rest);
    assert LeadingDigits(s) == d;
    DecimalValueOfNatToString(n);
    assert DecimalValue(d) == n;
  }

  /** A leading minus sign negates the value that follows. */
  lemma {:induction false} ParseIntOfNegativeNumeral(n: nat, rest: string)
    requires rest == [] || !IsDigit(rest[0])
    ensures ParseInt("-" + NatToString(n) + rest) == Some(-(n as int))
  {
    var d := NatToString(n);
    var s := "-" + d + rest;
    assert s[0] == '-';
    assert !IsJsWhitespace(s[0]);
    assert TrimStart(s) == s;
    assert s[1..] == d + rest;
    LeadingDigitsOfDigits(d, rest);
    assert LeadingDigits(s[1..]) == d;
    DecimalValueOfNatToString(n);
    assert DecimalValue(d) == n;
  }

  /** Text that does not start (after white space and sign) with a digit is NaN. */
  lemma ParseIntNaN(s: string)
    requires TrimStart(s) == s
    requires s != [] && !IsDigit(s[0]) && s[0] != '-' && s[0] != '+'
    ensures ParseInt(s) == None
  {
  }
}
