/**
 * The integer side of JavaScript numbers: `Number.parseInt` without a radix
 * and the decimal rendering of an integer (`String(n)`, `` `${n}` ``).
 * Only integral values occur in the timeline core; `NaN` is the one
 * non-integral value it can produce.
 */
module JsNumber {
  import opened JsString

  /** A number that is an integer or `NaN`. */
  datatype IntOrNaN = NaN | Int(value: int)

  /** `a <= b` on numbers: false as soon as one side is `NaN`. */
  predicate Le(a: IntOrNaN, b: IntOrNaN) {
    a.Int? && b.Int? && a.value <= b.value
  }

  /** `a >= b` on numbers: false as soon as one side is `NaN`. */
  predicate Ge(a: IntOrNaN, b: IntOrNaN) {
    a.Int? && b.Int? && a.value >= b.value
  }

  /** `a > b` on numbers: false as soon as one side is `NaN`. */
  predicate Gt(a: IntOrNaN, b: IntOrNaN) {
    a.Int? && b.Int? && a.value > b.value
  }

  predicate IsDecDigit(c: char) {
    '0' <= c <= '9'
  }

  predicate IsHexDigit(c: char) {
    IsDecDigit(c) || 'a' <= c <= 'f' || 'A' <= c <= 'F'
  }

  predicate AllDec(s: string) {
    forall k :: 0 <= k < |s| ==> IsDecDigit(s[k])
  }

  predicate AllHex(s: string) {
    forall k :: 0 <= k < |s| ==> IsHexDigit(s[k])
  }

  function DigitValue(c: char): (v: nat)
    requires IsHexDigit(c)
    ensures v < 16
    ensures IsDecDigit(c) ==> v < 10
  {
    if IsDecDigit(c) then c as int - '0' as int
    else if 'a' <= c <= 'f' then c as int - 'a' as int + 10
    else c as int - 'A' as int + 10
  }

  /** The value of a numeral in base `radix`, most significant digit first. */
  function Value(ds: string, radix: nat): nat
    requires radix == 10 ==> AllDec(ds)
    requires AllHex(ds)
    decreases |ds|
  {
    if |ds| == 0 then 0
    else
      var init := ds[..|ds| - 1];
      assert forall k :: 0 <= k < |init| ==> init[k] == ds[k];
      Value(init, radix) * radix + DigitValue(ds[|ds| - 1])
  }

  function Pow(b: nat, e: nat): (r: nat)
    ensures b > 0 ==> r > 0
  {
    if e == 0 then 1 else b * Pow(b, e - 1)
  }

  lemma Distribute(x: int, p: int, y: int, r: int, d: int)
    ensures (x * p + y) * r + d == x * (r * p) + (y * r + d)
  {
    calc {
      (x * p + y) * r + d;
      x * p * r + y * r + d;
      x * (r * p) + (y * r + d);
    }
  }

  lemma AppendDigits(a: string, b: string, radix: nat)
    requires radix == 10 ==> AllDec(a) && AllDec(b)
    requires AllHex(a) && AllHex(b)
    ensures AllHex(a + b) && (radix == 10 ==> AllDec(a + b))
  {
    var ab := a + b;
    forall k | 0 <= k < |ab| ensures IsHexDigit(ab[k]) && (radix == 10 ==> IsDecDigit(ab[k])) {
      if k < |a| { assert ab[k] == a[k]; } else { assert ab[k] == b[k - |a|]; }
    }
  }

  /** The value of a concatenation of numerals. */
  lemma {:induction false} ValueAppend(a: string, b: string, radix: nat)
    requires radix == 10 ==> AllDec(a) && AllDec(b)
    requires AllHex(a) && AllHex(b)
    ensures AllHex(a + b) && (radix == 10 ==> AllDec(a + b))
    ensures Value(a + b, radix) == Value(a, radix) * Pow(radix, |b|) + Value(b, radix)
    decreases |b|
  {
    AppendDigits(a, b, radix);
    var ab := a + b;
    if |b| > 0 {
      var b0 := b[..|b| - 1];
      var d := DigitValue(b[|b| - 1]);
      assert ab[..|ab| - 1] == a + b0;
      assert ab[|ab| - 1] == b[|b| - 1];
      ValueAppend(a, b0, radix);
      assert Value(ab, radix) == Value(a + b0, radix) * radix + d;
      assert Value(b, radix) == Value(b0, radix) * radix + d;
      Distribute(Value(a, radix), Pow(radix, |b0|), Value(b0, radix), radix, d);
    } else {
      assert ab == a;
    }
  }

  /** Leading zeros do not change a numeral's value. */
  lemma LeadingZeros(z: string, ds: string)
    requires forall k :: 0 <= k < |z| ==> z[k] == '0'
    requires AllDec(ds)
    ensures AllDec(z + ds) && Value(z + ds, 10) == Value(ds, 10)
  {
    assert AllDec(z) && AllHex(z) && AllHex(ds);
    ValueAppend(z, ds, 10);
    ZerosValue(z);
  }

  lemma {:induction false} ZerosValue(z: string)
    requires forall k :: 0 <= k < |z| ==> z[k] == '0'
    ensures AllDec(z) && Value(z, 10) == 0
    decreases |z|
  {
    if |z| > 0 {
      ZerosValue(z[..|z| - 1]);
    }
  }

  predicate IsDigitOf(hex: bool, c: char) {
    if hex then IsHexDigit(c) else IsDecDigit(c)
  }

  /** The end of the run of digits of the radix (10 or 16) that starts at `i`. */
  function DigitRun(s: string, i: nat, hex: bool): (n: nat)
    requires i <= |s|
    ensures i <= n <= |s|
    ensures forall k :: i <= k < n ==> IsDigitOf(hex, s[k])
    ensures n < |s| ==> !IsDigitOf(hex, s[n])
    decreases |s| - i
  {
    if i < |s| && IsDigitOf(hex, s[i]) then DigitRun(s, i + 1, hex) else i
  }

  function Signed(negative: bool, v: nat): int {
    if negative then -(v as int) else v
  }

  /**
   * `Number.parseInt(s)`: leading whitespace is skipped, an optional sign read,
   * a `0x`/`0X` prefix switches to base 16, and the longest run of digits that
   * follows is the value; without any digit the result is `NaN`. (`-0` is the
   * integer 0 here: it compares equal to 0.)
   */
  function ParseInt(s: string): IntOrNaN {
    var i := SkipWhitespace(s, 0);
    var negative := i < |s| && s[i] == '-';
    var j := if i < |s| && (s[i] == '-' || s[i] == '+') then i + 1 else i;
    ParseUnsigned(negative, s, j)
  }

  /** `parseInt` once whitespace and sign are consumed: the digits from position `j` on. */
  function ParseUnsigned(negative: bool, s: string, j: nat): IntOrNaN
    requires j <= |s|
  {
    if j + 1 < |s| && s[j] == '0' && (s[j + 1] == 'x' || s[j + 1] == 'X') then
      var n := DigitRun(s, j + 2, true);
      if n == j + 2 then NaN else Int(Signed(negative, ValueIn(s, j + 2, n, true)))
    else
      var n := DigitRun(s, j, false);
      if n == j then NaN else Int(Signed(negative, ValueIn(s, j, n, false)))
  }

  /** The value of the digits at positions `j` up to `n` of `s`, in base 16 or 10. */
  function ValueIn(s: string, j: nat, n: nat, hex: bool): nat
    requires j <= n <= |s|
    requires forall k :: j <= k < n ==> IsDigitOf(hex, s[k])
    decreases n
  {
    if n == j then 0
    else
      assert IsDigitOf(hex, s[n - 1]);
      ValueIn(s, j, n - 1, hex) * (if hex then 16 else 10) + DigitValue(s[n - 1])
  }

  /** The digits of `ds` written at position `j` of `s` have the value of `ds`. */
  lemma {:induction false} ValueInIs(s: string, j: nat, ds: string)
    requires AllDec(ds) && j + |ds| <= |s|
    requires forall k :: 0 <= k < |ds| ==> s[j + k] == ds[k]
    ensures forall k :: j <= k < j + |ds| ==> IsDigitOf(false, s[k])
    ensures ValueIn(s, j, j + |ds|, false) == Value(ds, 10)
    decreases |ds|
  {
    forall k | j <= k < j + |ds|
      ensures IsDigitOf(false, s[k])
    {
      assert s[j + (k - j)] == ds[k - j];
    }
    if |ds| > 0 {
      var init := ds[..|ds| - 1];
      assert forall k :: 0 <= k < |init| ==> s[j + k] == init[k];
      ValueInIs(s, j, init);
      assert s[j + |ds| - 1] == ds[|ds| - 1];
    }
  }

  /**
   * `parseInt` of a string that starts with the decimal digits `ds`, followed
   * by nothing or by a character that is neither a digit nor an `x` that would
   * make a `0x` prefix, reads the digits.
   */
  lemma ParseNonNegative(s: string, ds: string)
    requires |ds| > 0 && AllDec(ds) && |ds| <= |s|
    requires forall k :: 0 <= k < |ds| ==> s[k] == ds[k]
    requires |ds| < |s| ==> !IsDecDigit(s[|ds|]) && s[|ds|] != 'x' && s[|ds|] != 'X'
    ensures ParseInt(s) == Int(Value(ds, 10))
  {
    assert s[0] == ds[0];
    assert SkipWhitespace(s, 0) == 0;
    UnsignedAt(false, s, 0, ds);
  }

  /** The same after a minus sign: the negated value. */
  lemma ParseNegative(s: string, ds: string)
    requires |ds| > 0 && AllDec(ds) && |ds| < |s| && s[0] == '-'
    requires forall k :: 0 <= k < |ds| ==> s[1 + k] == ds[k]
    requires |ds| + 1 < |s| ==> !IsDecDigit(s[|ds| + 1]) && s[|ds| + 1] != 'x' && s[|ds| + 1] != 'X'
    ensures ParseInt(s) == Int(-(Value(ds, 10) as int))
  {
    assert SkipWhitespace(s, 0) == 0;
    UnsignedAt(true, s, 1, ds);
  }

  /** `parseInt` of a decimal numeral. */
  lemma ParseDecimal(ds: string)
    requires |ds| > 0 && AllDec(ds)
    ensures ParseInt(ds) == Int(Value(ds, 10))
  {
    ParseNonNegative(ds, ds);
  }

  /** `parseInt` of a minus sign and a decimal numeral. */
  lemma ParseMinus(s: string, ds: string)
    requires |ds| > 0 && AllDec(ds) && s == ['-'] + ds
    ensures ParseInt(s) == Int(-(Value(ds, 10) as int))
  {
    assert forall k :: 0 <= k < |ds| ==> s[1 + k] == ds[k];
    ParseNegative(s, ds);
  }

  /** `parseInt` of a decimal numeral followed by text that does not start with a digit or an `x`. */
  lemma ParseDecimalThen(s: string, ds: string, rest: string)
    requires |ds| > 0 && AllDec(ds) && s == ds + rest
    requires |rest| > 0 ==> !IsDecDigit(rest[0]) && rest[0] != 'x' && rest[0] != 'X'
    ensures ParseInt(s) == Int(Value(ds, 10))
  {
    assert forall k :: 0 <= k < |ds| ==> s[k] == ds[k];
    ParseNonNegative(s, ds);
  }

  /** The same after a minus sign. */
  lemma ParseMinusThen(s: string, ds: string, rest: string)
    requires |ds| > 0 && AllDec(ds) && s == ['-'] + ds + rest
    requires |rest| > 0 ==> !IsDecDigit(rest[0]) && rest[0] != 'x' && rest[0] != 'X'
    ensures ParseInt(s) == Int(-(Value(ds, 10) as int))
  {
    assert forall k :: 0 <= k < |ds| ==> s[1 + k] == ds[k];
    ParseNegative(s, ds);
  }

  /** The digits `ds` at position `j`, followed by no digit and no `x`. */
  lemma UnsignedAt(negative: bool, s: string, j: nat, ds: string)
    requires |ds| > 0 && AllDec(ds) && j + |ds| <= |s|
    requires forall k :: 0 <= k < |ds| ==> s[j + k] == ds[k]
    requires j + |ds| < |s| ==> !IsDecDigit(s[j + |ds|]) && s[j + |ds|] != 'x' && s[j + |ds|] != 'X'
    ensures ParseUnsigned(negative, s, j) == Int(Signed(negative, Value(ds, 10)))
  {
    ValueInIs(s, j, ds);
    assert s[j + 0] == ds[0];
    if j + 1 < |s| && |ds| > 1 {
      assert s[j + 1] == ds[1];
    }
    DigitRunTo(s, j, j + |ds|, false);
  }

  /** A run of digits from `i` to `m`, not followed by a digit, is the run that `DigitRun` finds. */
  lemma {:induction false} DigitRunTo(s: string, i: nat, m: nat, hex: bool)
    requires i <= m <= |s|
    requires forall k :: i <= k < m ==> IsDigitOf(hex, s[k])
    requires m < |s| ==> !IsDigitOf(hex, s[m])
    ensures DigitRun(s, i, hex) == m
    decreases m - i
  {
    if i < m {
      DigitRunTo(s, i + 1, m, hex);
    }
  }

  function DigitChar(d: nat): (c: char)
    requires d < 10
    ensures IsDecDigit(c) && DigitValue(c) == d
  {
    ('0' as int + d) as char
  }

  /** The decimal numeral of a natural number, without leading zeros. */
  function NatToString(n: nat): (r: string)
    ensures |r| > 0 && AllDec(r) && AllHex(r)
    ensures Value(r, 10) == n
    ensures |r| > 1 ==> r[0] != '0'
  {
    if n < 10 then [DigitChar(n)]
    else
      var init := NatToString(n / 10);
      var r := init + [DigitChar(n % 10)];
      assert r[..|r| - 1] == init;
      r
  }

  /** `String(n)` for an integer `n`. */
  function NumberToString(n: int): (r: string)
    ensures |r| > 0
  {
    if n < 0 then "-" + NatToString(-n) else NatToString(n)
  }

  /** Rendering an integer and parsing it back gives the integer. */
  lemma ParseNumberToString(n: int)
    ensures ParseInt(NumberToString(n)) == Int(n)
  {
    var ds := NatToString(if n < 0 then -n else n);
    if n < 0 {
      ParseMinus(NumberToString(n), ds);
    } else {
      ParseDecimal(ds);
    }
  }
}
