/**
 * Timeline dates (`src/type/time.ts`): parsing a `YYYY/MM/DD/HH` string into
 * the sortable number `{year}{month:2}{day:2}{hour:2}` and deciding whether
 * two date ranges, each possibly open at either end, intersect.
 */
module Time {
  import opened Wrappers
  import opened JsString
  import opened JsNumber

  /** `items[i] ?? default` */
  function Item(items: seq<string>, i: nat, default: string): string {
    if i < |items| then items[i] else default
  }

  /** `s.replace('-', '').padStart(2, '0')`: one date field after the year. */
  function Field(s: string): string {
    PadStart(ReplaceFirst(s, '-'), 2, '0')
  }

  /** The trimmed input of both parsers; `None` when it is absent or empty (falsy). */
  function TrimmedInput(str: Option<string>): Option<string> {
    if str.None? || Trim(str.value) == "" then None else Some(Trim(str.value))
  }

  /**
   * `parseTimelineDate(str, splitFlag)`: `None` is `undefined`. The source's
   * checks for a missing year, month or day and for a non-number result can
   * never fire (the pieces have defaults and `parseInt` always returns a
   * number), so they have no counterpart here.
   */
  function ParseTimelineDate(str: Option<string>, splitFlag: char): (r: Option<IntOrNaN>)
    ensures r.None? <==> TrimmedInput(str).None?
  {
    match TrimmedInput(str)
    case None => None
    case Some(t) =>
      var items := Split(t, splitFlag);
      Some(ParseInt(Numeral(items[0], Item(items, 1, "1"), Item(items, 2, "1"), Item(items, 3, "0"))))
  }

  /**
   * The string handed to `parseInt`: a `-` when the year starts with one, the
   * year without its first `-` padded to four characters, then the month, day
   * and hour fields.
   */
  function Numeral(yearStr: string, monthStr: string, dayStr: string, hour: string): string {
    var isNegative := |yearStr| > 0 && yearStr[0] == '-';
    var yy := PadStart(ReplaceFirst(yearStr, '-'), 4, '0');
    (if isNegative then "-" else "") + (yy + Field(monthStr) + Field(dayStr) + Field(hour))
  }

  /** `{ year, month, day, hour }` of `parseTimelineDateElements`. */
  datatype DateElements = DateElements(year: string, month: string, day: string, hour: string)

  /** `parseTimelineDateElements(str)`: the year verbatim, the other fields as two-digit strings. */
  function ParseTimelineDateElements(str: Option<string>): (r: Option<DateElements>)
    ensures r.None? <==> TrimmedInput(str).None?
  {
    match TrimmedInput(str)
    case None => None
    case Some(t) =>
      var items := Split(t, '/');
      Some(DateElements(items[0], Field(Item(items, 1, "1")), Field(Item(items, 2, "1")), Field(Item(items, 3, "0"))))
  }

  /**
   * The two parsers read the same fields: the number is `parseInt` of the
   * elements laid end to end, the year with a leading `-` moved in front and
   * padded to four characters.
   */
  lemma ElementsAgree(str: Option<string>)
    ensures ParseTimelineDate(str, '/').Some? <==> ParseTimelineDateElements(str).Some?
    ensures ParseTimelineDateElements(str).Some? ==>
      var e := ParseTimelineDateElements(str).value;
      var isNegative := |e.year| > 0 && e.year[0] == '-';
      ParseTimelineDate(str, '/') == Some(ParseInt((if isNegative then "-" else "") +
        (PadStart(ReplaceFirst(e.year, '-'), 4, '0') + e.month + e.day + e.hour)))
  {
  }

  /** The number a date with year `y`, month `m`, day `d` and hour `h` encodes to. */
  function Encode(y: int, m: int, d: int, h: int): int {
    y * 1000000 + m * 10000 + d * 100 + h
  }

  lemma DigitField(m: string)
    requires AllDec(m) && |m| <= 2
    ensures |Field(m)| == 2 && AllDec(Field(m)) && Value(Field(m), 10) == Value(m, 10)
  {
    DigitsNoChar(m, '-');
    var f := Field(m);
    PadStartShape(m, 2, '0');
    var z := f[..|f| - |m|];
    LeadingZeros(z, m);
  }

  lemma DigitsNoChar(ds: string, c: char)
    requires AllDec(ds) && !IsDecDigit(c)
    ensures c !in ds
  {
    forall k | 0 <= k < |ds| ensures ds[k] != c {
      assert IsDecDigit(ds[k]);
    }
  }

  /** The characters a decimal date is written with. */
  predicate DateChar(c: char) {
    IsDecDigit(c) || c == '-' || c == '/'
  }

  /**
   * A date written with decimal fields, the month, day and hour at most two
   * digits each, parses to `Encode` of the fields' values (negated for a
   * negative year); an absent month or day counts as 1 and an absent hour
   * as 0, and fields after the hour are ignored.
   */
  lemma DateValue(negative: bool, pieces: seq<string>)
    requires |pieces| >= 1 && |pieces[0]| > 0
    requires forall i :: 0 <= i < |pieces| ==> AllDec(pieces[i])
    requires forall i :: 1 <= i < |pieces| && i < 4 ==> |pieces[i]| <= 2
    ensures var parts := [(if negative then "-" else "") + pieces[0]] + pieces[1..];
      ParseTimelineDate(Some(Join(parts, '/')), '/') ==
      Some(Int(Signed(negative, Encode(Value(pieces[0], 10),
        if |pieces| > 1 then Value(pieces[1], 10) else 1,
        if |pieces| > 2 then Value(pieces[2], 10) else 1,
        if |pieces| > 3 then Value(pieces[3], 10) else 0))))
  {
    var parts := [(if negative then "-" else "") + pieces[0]] + pieces[1..];
    var s := Join(parts, '/');
    DatePieces(negative, pieces);
    ParseTrimmed(s, '/');
    DigitItem(pieces, 1, "1");
    DigitItem(pieces, 2, "1");
    DigitItem(pieces, 3, "0");
    var m := Item(pieces, 1, "1");
    var d := Item(pieces, 2, "1");
    var h := Item(pieces, 3, "0");
    assert Item(parts, 1, "1") == m && Item(parts, 2, "1") == d && Item(parts, 3, "0") == h;
    NumeralValue(negative, pieces[0], m, d, h);
  }

  lemma ParseTrimmed(t: string, splitFlag: char)
    requires TrimmedInput(Some(t)) == Some(t)
    ensures var items := Split(t, splitFlag);
      ParseTimelineDate(Some(t), splitFlag) ==
      Some(ParseInt(Numeral(items[0], Item(items, 1, "1"), Item(items, 2, "1"), Item(items, 3, "0"))))
  {
  }

  /** A decimal date string is its own trim and splits back into its fields. */
  lemma DatePieces(negative: bool, pieces: seq<string>)
    requires |pieces| >= 1 && |pieces[0]| > 0
    requires forall i :: 0 <= i < |pieces| ==> AllDec(pieces[i])
    ensures var parts := [(if negative then "-" else "") + pieces[0]] + pieces[1..];
      TrimmedInput(Some(Join(parts, '/'))) == Some(Join(parts, '/')) &&
      Split(Join(parts, '/'), '/') == parts
  {
    var y := pieces[0];
    var year := (if negative then "-" else "") + y;
    var parts := [year] + pieces[1..];
    var s := Join(parts, '/');
    assert forall i :: 1 <= i < |parts| ==> parts[i] == pieces[i];
    forall i, k | 0 <= i < |parts| && 0 <= k < |parts[i]| ensures DateChar(parts[i][k]) {
      if i == 0 && negative && k == 0 {
        assert parts[i][k] == '-';
      } else if i == 0 {
        assert parts[i][k] == y[if negative then k - 1 else k];
      }
    }
    JoinChars(parts, '/', DateChar);
    assert NoWhitespace(s);
    TrimNone(s);
    assert |s| > 0 by {
      assert |parts| == 1 ==> s == parts[0];
      assert |parts| > 1 ==> s == parts[0] + ['/'] + Join(parts[1..], '/');
    }
    forall i | 0 <= i < |parts| ensures '/' !in parts[i] {
      if i > 0 {
        DigitsNoChar(pieces[i], '/');
      } else {
        DigitsNoChar(y, '/');
      }
    }
    SplitJoin(parts, '/');
  }

  lemma DigitItem(pieces: seq<string>, i: nat, default: string)
    requires forall j :: 0 <= j < |pieces| ==> AllDec(pieces[j])
    requires i < |pieces| ==> |pieces[i]| <= 2
    requires default == "1" || default == "0"
    ensures var f := Item(pieces, i, default);
      AllDec(f) && |f| <= 2 &&
      Value(f, 10) == if i < |pieces| then Value(pieces[i], 10) else if default == "1" then 1 else 0
  {
    assert AllDec("1") && AllDec("0");
    assert Value("1", 10) == 1 && Value("0", 10) == 0;
  }

  /** The value of the numeral of a decimal date. */
  lemma NumeralValue(negative: bool, y: string, m: string, d: string, h: string)
    requires |y| > 0 && AllDec(y) && AllDec(m) && AllDec(d) && AllDec(h)
    requires |m| <= 2 && |d| <= 2 && |h| <= 2
    ensures ParseInt(Numeral((if negative then "-" else "") + y, m, d, h)) ==
      Int(Signed(negative, Encode(Value(y, 10), Value(m, 10), Value(d, 10), Value(h, 10))))
  {
    NumeralShape(negative, y, m, d, h);
    DigitsValue(y, m, d, h);
    SignedNumeral(negative, Numeral((if negative then "-" else "") + y, m, d, h), Digits(y, m, d, h),
      Encode(Value(y, 10), Value(m, 10), Value(d, 10), Value(h, 10)));
  }

  /** A decimal numeral of value `v`, after a `-` when `negative`, parses to the signed `v`. */
  lemma SignedNumeral(negative: bool, x: string, ds: string, v: int)
    requires |ds| > 0 && AllDec(ds) && Value(ds, 10) == v
    requires negative ==> x == ['-'] + ds
    requires !negative ==> x == ds
    ensures ParseInt(x) == Int(Signed(negative, v))
  {
    if negative {
      ParseMinus(x, ds);
    } else {
      ParseDecimal(ds);
    }
  }

  lemma NumeralShape(negative: bool, y: string, m: string, d: string, h: string)
    requires |y| > 0 && AllDec(y)
    ensures negative ==> Numeral((if negative then "-" else "") + y, m, d, h) == ['-'] + Digits(y, m, d, h)
    ensures !negative ==> Numeral((if negative then "-" else "") + y, m, d, h) == Digits(y, m, d, h)
  {
    YearPart(negative, y);
  }

  function Digits(y: string, m: string, d: string, h: string): string {
    PadStart(y, 4, '0') + Field(m) + Field(d) + Field(h)
  }

  lemma DigitsValue(y: string, m: string, d: string, h: string)
    requires |y| > 0 && AllDec(y) && AllDec(m) && AllDec(d) && AllDec(h)
    requires |m| <= 2 && |d| <= 2 && |h| <= 2
    ensures |Digits(y, m, d, h)| > 0 && AllDec(Digits(y, m, d, h))
    ensures Value(Digits(y, m, d, h), 10) == Encode(Value(y, 10), Value(m, 10), Value(d, 10), Value(h, 10))
  {
    PaddedYear(y);
    DigitField(m);
    DigitField(d);
    DigitField(h);
    FieldsValue(PadStart(y, 4, '0'), Field(m), Field(d), Field(h));
  }

  lemma YearPart(negative: bool, y: string)
    requires |y| > 0 && AllDec(y)
    ensures var year := (if negative then "-" else "") + y;
      (|year| > 0 && year[0] == '-') == negative && ReplaceFirst(year, '-') == y
  {
    DigitsNoChar(y, '-');
    var year := (if negative then "-" else "") + y;
    if negative {
      assert year == "-" + y;
      assert IndexOf(year, '-') == 0;
    } else {
      assert year == y;
      assert IsDecDigit(y[0]);
    }
  }

  lemma PaddedYear(y: string)
    requires AllDec(y) && |y| > 0
    ensures var yy := PadStart(y, 4, '0'); |yy| > 0 && AllDec(yy) && Value(yy, 10) == Value(y, 10)
  {
    var yy := PadStart(y, 4, '0');
    PadStartShape(y, 4, '0');
    var z := yy[..|yy| - |y|];
    LeadingZeros(z, y);
  }

  lemma FieldsValue(yy: string, mm: string, dd: string, hh: string)
    requires AllDec(yy) && AllDec(mm) && AllDec(dd) && AllDec(hh)
    requires |yy| > 0 && |mm| == 2 && |dd| == 2 && |hh| == 2
    ensures |yy + mm + dd + hh| > 0 && AllDec(yy + mm + dd + hh)
    ensures Value(yy + mm + dd + hh, 10) == Encode(Value(yy, 10), Value(mm, 10), Value(dd, 10), Value(hh, 10))
  {
    assert AllHex(yy) && AllHex(mm) && AllHex(dd) && AllHex(hh) by {
      forall k | 0 <= k < |yy| ensures IsHexDigit(yy[k]) { assert IsDecDigit(yy[k]); }
      forall k | 0 <= k < |mm| ensures IsHexDigit(mm[k]) { assert IsDecDigit(mm[k]); }
      forall k | 0 <= k < |dd| ensures IsHexDigit(dd[k]) { assert IsDecDigit(dd[k]); }
      forall k | 0 <= k < |hh| ensures IsHexDigit(hh[k]) { assert IsDecDigit(hh[k]); }
    }
    ValueAppend(yy, mm, 10);
    ValueAppend(yy + mm, dd, 10);
    ValueAppend(yy + mm + dd, hh, 10);
    assert Pow(10, 2) == 100;
  }

  /** The year is the most significant field: on non-negative encodings the numeric order is the chronological one. */
  lemma EncodeOrder(y1: nat, m1: nat, d1: nat, h1: nat, y2: nat, m2: nat, d2: nat, h2: nat)
    requires m1 < 100 && d1 < 100 && h1 < 100 && m2 < 100 && d2 < 100 && h2 < 100
    ensures Encode(y1, m1, d1, h1) < Encode(y2, m2, d2, h2) <==>
      y1 < y2 || (y1 == y2 && (m1 < m2 || (m1 == m2 && (d1 < d2 || (d1 == d2 && h1 < h2)))))
  {
    Positional(m1 * 100 + d1, h1, m2 * 100 + d2, h2, 100);
    Positional(m1, d1, m2, d2, 100);
    Positional(y1, (m1 * 100 + d1) * 100 + h1, y2, (m2 * 100 + d2) * 100 + h2, 1000000);
    assert Encode(y1, m1, d1, h1) == y1 * 1000000 + ((m1 * 100 + d1) * 100 + h1);
    assert Encode(y2, m2, d2, h2) == y2 * 1000000 + ((m2 * 100 + d2) * 100 + h2);
  }

  /** Comparing `a * k + r` with `0 <= r < k` compares `a` first and then `r`. */
  lemma Positional(a1: int, r1: int, a2: int, r2: int, k: int)
    requires 0 <= r1 < k && 0 <= r2 < k
    ensures a1 * k + r1 < a2 * k + r2 <==> a1 < a2 || (a1 == a2 && r1 < r2)
    ensures a1 * k + r1 == a2 * k + r2 <==> a1 == a2 && r1 == r2
  {
    if a1 < a2 {
      MulStep(a1, a2, k);
    } else if a1 > a2 {
      MulStep(a2, a1, k);
    }
  }

  lemma MulStep(a: int, b: int, k: int)
    requires a < b && k > 0
    ensures a * k + k <= b * k
  {
    var c := b - a - 1;
    assert c >= 0;
    assert b * k == a * k + k + c * k;
    assert c * k >= 0;
  }

  /**
   * Within a negative year the order runs backwards: `-231/8/3` encodes to a
   * smaller number than `-231/1/1`, so it sorts and compares as the earlier date.
   */
  lemma NegativeYearsRunBackwards()
    ensures ParseTimelineDate(Some("-231/8/3"), '/') == Some(Int(-231080300))
    ensures ParseTimelineDate(Some("-231/1/1"), '/') == Some(Int(-231010100))
  {
    NegativeAugust();
    NegativeJanuary();
  }

  lemma NegativeAugust()
    ensures ParseTimelineDate(Some("-231/8/3"), '/') == Some(Int(-231080300))
  {
    NegativeYearFacts();
    assert [(if true then "-" else "") + "231"] + ["231", "8", "3"][1..] == ["-231", "8", "3"] by {
      assert ["231", "8", "3"][1..] == ["8", "3"];
    }
    DateValue(true, ["231", "8", "3"]);
  }

  lemma NegativeJanuary()
    ensures ParseTimelineDate(Some("-231/1/1"), '/') == Some(Int(-231010100))
  {
    NegativeYearFacts();
    assert [(if true then "-" else "") + "231"] + ["231", "1", "1"][1..] == ["-231", "1", "1"] by {
      assert ["231", "1", "1"][1..] == ["1", "1"];
    }
    DateValue(true, ["231", "1", "1"]);
  }

  lemma NegativeYearFacts()
    ensures Value("231", 10) == 231 && Value("8", 10) == 8 && Value("3", 10) == 3 && Value("1", 10) == 1
    ensures "-" + "231" == "-231"
    ensures Join(["-231", "8", "3"], '/') == "-231/8/3" && Join(["-231", "1", "1"], '/') == "-231/1/1"
  {
    assert "231" == NatToString(231);
  }

  /** The range `[start, end]` of `TimelineDateRange`; `None` is an open end. */
  datatype DateRange = DateRange(start: Option<string>, end: Option<string>)

  /** A range of parsed dates; `None` is an open end. */
  datatype NumRange = NumRange(start: Option<IntOrNaN>, end: Option<IntOrNaN>)

  /** `hasTimeRangeIntersection(timeRange1, timeRange2)` */
  function HasTimeRangeIntersection(r1: DateRange, r2: DateRange): bool {
    Impl(ParseRange(r1), ParseRange(r2))
  }

  function ParseRange(r: DateRange): NumRange {
    NumRange(ParseTimelineDate(r.start, '/'), ParseTimelineDate(r.end, '/'))
  }

  /** `hasTimeRangeIntersectionImpl`: open starts first, then open ends, then closed ranges. */
  function Impl(r1: NumRange, r2: NumRange): bool {
    if r1.start.None? then LeftOpen(r1, r2)
    else if r2.start.None? then LeftOpen(r2, r1)
    else if r1.end.None? then RightOpen(r1, r2)
    else if r2.end.None? then RightOpen(r2, r1)
    else Close(r1, r2)
  }

  /** `hasTimeRangeIntersectionImpl_forLeftOpen`: `r1` has no start. */
  function LeftOpen(r1: NumRange, r2: NumRange): bool
    requires r1.start.None?
  {
    if r2.start.None? then true
    else if r1.end.None? then true
    else Ge(r1.end.value, r2.start.value)
  }

  /** `hasTimeRangeIntersectionImpl_forRightOpen`: `r1` has a start and no end, `r2` has a start. */
  function RightOpen(r1: NumRange, r2: NumRange): bool
    requires r1.start.Some? && r1.end.None? && r2.start.Some?
  {
    if r2.end.None? then true
    else Le(r1.start.value, r2.end.value)
  }

  /** `hasTimeRangeIntersectionImpl_forClose`: both ranges closed; the one starting first must reach the other's start. */
  function Close(r1: NumRange, r2: NumRange): bool
    requires r1.start.Some? && r1.end.Some? && r2.start.Some? && r2.end.Some?
  {
    var first := if Le(r1.start.value, r2.start.value) then r1 else r2;
    var second := if Le(r1.start.value, r2.start.value) then r2 else r1;
    Ge(first.end.value, second.start.value)
  }

  /** The range contains the instant `t`. */
  predicate Contains(r: NumRange, t: int) {
    (r.start.None? || Le(r.start.value, Int(t))) && (r.end.None? || Le(Int(t), r.end.value))
  }

  /** Defined bounds are numbers (not `NaN`) and the start is not after the end. */
  predicate Proper(r: NumRange) {
    (r.start.Some? ==> r.start.value.Int?) && (r.end.Some? ==> r.end.value.Int?) &&
    (r.start.Some? && r.end.Some? ==> r.start.value.value <= r.end.value.value)
  }

  /** An instant both ranges contain when they intersect. */
  function Witness(r1: NumRange, r2: NumRange): int
    requires Proper(r1) && Proper(r2)
  {
    if r1.start.Some? && r2.start.Some? then
      (if r1.start.value.value >= r2.start.value.value then r1.start.value.value else r2.start.value.value)
    else if r1.start.Some? then r1.start.value.value
    else if r2.start.Some? then r2.start.value.value
    else if r1.end.Some? && r2.end.Some? then
      (if r1.end.value.value <= r2.end.value.value then r1.end.value.value else r2.end.value.value)
    else if r1.end.Some? then r1.end.value.value
    else if r2.end.Some? then r2.end.value.value
    else 0
  }

  /** On proper ranges the case analysis decides exactly whether some instant lies in both. */
  lemma IntersectionIsSharedInstant(r1: NumRange, r2: NumRange)
    requires Proper(r1) && Proper(r2)
    ensures Impl(r1, r2) <==> exists t :: Contains(r1, t) && Contains(r2, t)
  {
    if Impl(r1, r2) {
      var t := Witness(r1, r2);
      assert Contains(r1, t) && Contains(r2, t);
    }
    if exists t :: Contains(r1, t) && Contains(r2, t) {
      var t :| Contains(r1, t) && Contains(r2, t);
      assert Impl(r1, r2);
    }
  }

  /** On proper ranges intersection does not depend on the order of the arguments. */
  lemma IntersectionSymmetric(r1: NumRange, r2: NumRange)
    requires Proper(r1) && Proper(r2)
    ensures Impl(r1, r2) == Impl(r2, r1)
  {
    IntersectionIsSharedInstant(r1, r2);
    IntersectionIsSharedInstant(r2, r1);
  }

  /** `'701'` has elements year `'701'`, month `'01'`, day `'01'`, hour `'00'`. */
  lemma ElementsOf701()
    ensures ParseTimelineDateElements(Some("701")) == Some(DateElements("701", "01", "01", "00"))
  {
    assert NoWhitespace("701");
    TrimNone("701");
    assert '/' !in "701";
    SplitNoSep("701", '/');
    DefaultFields();
  }

  /** The defaults of an absent month, day and hour, as fields. */
  lemma DefaultFields()
    ensures Field("1") == "01" && Field("0") == "00"
  {
    assert '-' !in "1" && '-' !in "0";
  }

  /** `['1646/10', '1662/3']` meets the range from `'1645/07/27'` with no end. */
  lemma IntersectionExample()
    ensures HasTimeRangeIntersection(DateRange(Some("1646/10"), Some("1662/3")), DateRange(Some("1645/07/27"), None))
  {
    ExampleDates();
  }

  lemma ExampleDates()
    ensures ParseTimelineDate(Some("1646/10"), '/') == Some(Int(1646100100))
    ensures ParseTimelineDate(Some("1662/3"), '/') == Some(Int(1662030100))
    ensures ParseTimelineDate(Some("1645/07/27"), '/') == Some(Int(1645072700))
  {
    YearMonthDates();
    DayDate();
  }

  lemma YearMonthDates()
    ensures ParseTimelineDate(Some("1646/10"), '/') == Some(Int(1646100100))
    ensures ParseTimelineDate(Some("1662/3"), '/') == Some(Int(1662030100))
  {
    StartDate();
    EndDate();
  }

  lemma StartDate()
    ensures ParseTimelineDate(Some("1646/10"), '/') == Some(Int(1646100100))
  {
    StartFacts();
    DateValue(false, ["1646", "10"]);
  }

  lemma EndDate()
    ensures ParseTimelineDate(Some("1662/3"), '/') == Some(Int(1662030100))
  {
    EndFacts();
    DateValue(false, ["1662", "3"]);
  }

  lemma DayDate()
    ensures ParseTimelineDate(Some("1645/07/27"), '/') == Some(Int(1645072700))
  {
    DayFacts();
    DayText();
    DateValue(false, ["1645", "07", "27"]);
  }

  /** The digit values and the join of `1646/10`. */
  lemma StartFacts()
    ensures Value("1646", 10) == 1646 && Value("10", 10) == 10
    ensures [(if false then "-" else "") + "1646"] + ["1646", "10"][1..] == ["1646", "10"]
    ensures Join(["1646", "10"], '/') == "1646/10"
  {
    assert "1646" == NatToString(1646);
    assert "10" == NatToString(10);
    assert "" + "1646" == "1646";
    assert ["1646", "10"][1..] == ["10"];
  }

  /** The digit values and the join of `1662/3`. */
  lemma EndFacts()
    ensures Value("1662", 10) == 1662 && Value("3", 10) == 3
    ensures [(if false then "-" else "") + "1662"] + ["1662", "3"][1..] == ["1662", "3"]
    ensures Join(["1662", "3"], '/') == "1662/3"
  {
    assert "1662" == NatToString(1662);
    assert "" + "1662" == "1662";
    assert ["1662", "3"][1..] == ["3"];
  }

  /** The digit values of `1645/07/27`, for `DayDate`; its join is `DayText`. */
  lemma DayFacts()
    ensures Value("1645", 10) == 1645 && Value("07", 10) == 7 && Value("27", 10) == 27
  {
    assert "1645" == NatToString(1645);
    assert "27" == NatToString(27);
    LeadingZeros("0", "7");
    assert "0" + "7" == "07";
  }

  /** The join of `1645/07/27`, kept apart from its digit values to keep each proof small. */
  lemma DayText()
    ensures [(if false then "-" else "") + "1645"] + ["1645", "07", "27"][1..] == ["1645", "07", "27"]
    ensures Join(["1645", "07", "27"], '/') == "1645/07/27"
  {
    assert "" + "1645" == "1645";
    assert ["1645", "07", "27"][1..] == ["07", "27"];
  }
}
