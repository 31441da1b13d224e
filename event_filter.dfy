/**
 * The event filters of `src/apis/filter/`: by an event-tag selector over the
 * event's expanded tags plus synthetic date tags, by date-range overlap, and
 * by a name selector (`filter-timeline-event.ts`, `filter-str-property.ts`).
 */
module EventFilter {
  import opened Wrappers
  import opened JsString
  import opened Seqs
  import opened SelectTree
  import opened SelectExp
  import opened ParentChildrenTag
  import opened TimelineEvents
  import JsNumber
  import Time

  /** The fields of `ITimelineFilterParams` the filters read. */
  datatype FilterParams = FilterParams(eventTags: Option<string>, dateStart: Option<string>, dateEnd: Option<string>, name: Option<string>)

  /** The synthetic date tags of an event: from the elements of its start, when it has one. */
  function DateTags(item: TimelineEvent): seq<string> {
    match Time.ParseTimelineDateElements(StartTime(Some(item)))
    case None => []
    case Some(el) => DateTagsOf(el)
  }

  /** The four date tags of the elements of a date, each but the first with a leading `;`. */
  function DateTagsOf(el: Time.DateElements): seq<string> {
    ["year_" + el.year, ";month_" + el.month, ";day_" + el.day, ";hour_" + el.hour]
  }

  /** Four one-element appends build the same sequence as one append of all four. */
  lemma AppendFour<T>(x: seq<T>, a: T, b: T, c: T, d: T)
    ensures x + [a] + [b] + [c] + [d] == x + [a, b, c, d]
  {
  }

  /** The tags the selector sees for an event, in order. */
  function FinalTags(item: TimelineEvent): seq<string> {
    ExpandedTags(item.parsedEventTags.GetOr([])) + DateTags(item)
  }

  /** The tag string the selector sees for an event: its final tags joined with `;`. */
  function TagString(item: TimelineEvent): string {
    Join(FinalTags(item), ';')
  }

  /** The tag loop of the filter callback of `filterByEventTag`: `parseTag` on each tag in turn. */
  method ExpandTags(tags: seq<string>) returns (finalTags: seq<string>)
    ensures finalTags == ExpandedTags(tags)
  {
    finalTags := [];
    for i := 0 to |tags|
      invariant finalTags == ExpandedTags(tags[..i])
    {
      var allTags := ParseTag(tags[i], []);
      assert allTags == Expansion(tags[i]);
      ExpandedStep(tags, i);
      finalTags := finalTags + allTags;
    }
    assert tags[..|tags|] == tags;
  }

  /** The filter callback of `filterByEventTag` up to the `test` call: the string it tests. */
  method EventTagString(item: TimelineEvent) returns (s: string)
    ensures s == TagString(item)
  {
    var finalTags := ExpandTags(item.parsedEventTags.GetOr([]));
    var timeElements := Time.ParseTimelineDateElements(StartTime(Some(item)));
    if timeElements.Some? {
      var el := timeElements.value;
      ghost var before := finalTags;
      finalTags := finalTags + ["year_" + el.year];
      finalTags := finalTags + [";month_" + el.month];
      finalTags := finalTags + [";day_" + el.day];
      finalTags := finalTags + [";hour_" + el.hour];
      AppendFour(before, "year_" + el.year, ";month_" + el.month, ";day_" + el.day, ";hour_" + el.hour);
    }
    assert finalTags == FinalTags(item);
    s := Join(finalTags, ';');
  }

  /**
   * The tags the selector sees in the tag string of a dated event: the date
   * tags' leading `;` leaves an empty tag before each of month, day and hour.
   */
  function DatePieces(el: Time.DateElements): seq<string> {
    ["year_" + el.year, "", "month_" + el.month, "", "day_" + el.day, "", "hour_" + el.hour]
  }

  predicate NoSemicolon(el: Time.DateElements) {
    ';' !in el.year && ';' !in el.month && ';' !in el.day && ';' !in el.hour
  }

  lemma DateJoin(el: Time.DateElements)
    ensures Join(DateTagsOf(el), ';') == Join(DatePieces(el), ';')
  {
    var y, m, d, h := "year_" + el.year, "month_" + el.month, "day_" + el.day, "hour_" + el.hour;
    assert ";month_" + el.month == [';'] + m;
    assert ";day_" + el.day == [';'] + d;
    assert ";hour_" + el.hour == [';'] + h;
    assert [h] + [] == [h];
    JoinLeadingSeparator(d, h, [], []);
    assert [d, [';'] + h] + [] == [d] + [[';'] + h];
    assert [d, "", h] + [] == [d] + ["", h];
    JoinLeadingSeparator(m, d, [[';'] + h], ["", h]);
    assert [m, [';'] + d] + [[';'] + h] == [m] + [[';'] + d, [';'] + h];
    assert [m, "", d] + ["", h] == [m] + ["", d, "", h];
    JoinLeadingSeparator(y, m, [[';'] + d, [';'] + h], ["", d, "", h]);
    assert DateTagsOf(el) == [y, [';'] + m] + [[';'] + d, [';'] + h];
    assert DatePieces(el) == [y, "", m] + ["", d, "", h];
  }

  /** A part that starts with the separator joins like an empty part before it. */
  lemma JoinLeadingSeparator(x: string, y: string, ra: seq<string>, rb: seq<string>)
    requires Join([y] + ra, ';') == Join([y] + rb, ';')
    ensures Join([x, [';'] + y] + ra, ';') == Join([x, "", y] + rb, ';')
  {
    var a := [x, [';'] + y] + ra;
    var b := [x, "", y] + rb;
    assert a[1..] == [[';'] + y] + ra;
    assert b[1..] == ["", y] + rb;
    assert b[1..][1..] == [y] + rb;
    if |ra| > 0 {
      assert a[1..][1..] == ra;
      assert ([y] + ra)[1..] == ra;
    } else {
      assert a[1..] == [[';'] + y];
      assert [y] + ra == [y];
    }
  }

  /**
   * When no tag contains `;`, the selector sees exactly the expanded tags of
   * the event followed, for a dated event, by its date pieces: so `year_<y>`,
   * `month_<m>`, `day_<d>` and `hour_<h>` are among the tags it can match.
   */
  lemma TagStringSplit(item: TimelineEvent)
    requires forall t :: t in ExpandedTags(item.parsedEventTags.GetOr([])) ==> ';' !in t
    requires Time.ParseTimelineDateElements(StartTime(Some(item))).Some? ==>
      NoSemicolon(Time.ParseTimelineDateElements(StartTime(Some(item))).value)
    ensures var e := ExpandedTags(item.parsedEventTags.GetOr([]));
      match Time.ParseTimelineDateElements(StartTime(Some(item)))
      case None => Split(TagString(item), ';') == (if |e| == 0 then [""] else e)
      case Some(el) => Split(TagString(item), ';') == e + DatePieces(el)
  {
    var e := ExpandedTags(item.parsedEventTags.GetOr([]));
    var dt := Time.ParseTimelineDateElements(StartTime(Some(item)));
    if dt.Some? {
      assert TagString(item) == Join(e + DateTagsOf(dt.value), ';');
      SplitDated(e, dt.value);
    } else {
      assert TagString(item) == Join(e + [], ';');
      assert e + [] == e;
      SplitUndated(e);
    }
  }

  lemma SplitUndated(e: seq<string>)
    requires forall t :: t in e ==> ';' !in t
    ensures Split(Join(e, ';'), ';') == if |e| == 0 then [""] else e
  {
    if |e| > 0 {
      SplitJoin(e, ';');
    }
  }

  lemma SplitDated(e: seq<string>, el: Time.DateElements)
    requires forall t :: t in e ==> ';' !in t
    requires NoSemicolon(el)
    ensures Split(Join(e + DateTagsOf(el), ';'), ';') == e + DatePieces(el)
  {
    var p := DatePieces(el);
    DateJoin(el);
    NotInConcat("year_", el.year, ';');
    NotInConcat("month_", el.month, ';');
    NotInConcat("day_", el.day, ';');
    NotInConcat("hour_", el.hour, ';');
    assert forall i :: 0 <= i < |p| ==> ';' !in p[i];
    if |e| == 0 {
      assert e + DateTagsOf(el) == DateTagsOf(el);
      assert e + p == p;
      SplitJoin(p, ';');
    } else {
      JoinAppend(e, DateTagsOf(el), ';');
      JoinAppend(e, p, ';');
      forall i | 0 <= i < |e + p| ensures ';' !in (e + p)[i] {
        if i < |e| { assert (e + p)[i] in e; } else { assert (e + p)[i] == p[i - |e|]; }
      }
      SplitJoin(e + p, ';');
    }
  }

  /**
   * With `minimatch` exact on plain patterns, a dated event answers the
   * selectors `year_<y>`, `month_<m>`, `day_<d>` and `hour_<h>` of its start.
   */
  lemma DateTagSelectable(item: TimelineEvent, mm: Matcher)
    requires LiteralGlob(mm)
    requires forall t :: t in ExpandedTags(item.parsedEventTags.GetOr([])) ==> ';' !in t
    requires Time.ParseTimelineDateElements(StartTime(Some(item))).Some?
    requires var el := Time.ParseTimelineDateElements(StartTime(Some(item))).value;
      NoSemicolon(el) && Plain("year_" + el.year) && Plain("month_" + el.month) &&
      Plain("day_" + el.day) && Plain("hour_" + el.hour)
    ensures var el := Time.ParseTimelineDateElements(StartTime(Some(item))).value;
      Run(Identifier("year_" + el.year), TagString(item), mm) == Ok(true) &&
      Run(Identifier("month_" + el.month), TagString(item), mm) == Ok(true) &&
      Run(Identifier("day_" + el.day), TagString(item), mm) == Ok(true) &&
      Run(Identifier("hour_" + el.hour), TagString(item), mm) == Ok(true)
  {
    var el := Time.ParseTimelineDateElements(StartTime(Some(item))).value;
    TagStringSplit(item);
    PiecesSelectable(TagString(item), ExpandedTags(item.parsedEventTags.GetOr([])), el, mm);
  }

  lemma PiecesSelectable(testStr: string, e: seq<string>, el: Time.DateElements, mm: Matcher)
    requires LiteralGlob(mm)
    requires Split(testStr, ';') == e + DatePieces(el)
    requires Plain("year_" + el.year) && Plain("month_" + el.month) && Plain("day_" + el.day) && Plain("hour_" + el.hour)
    ensures Run(Identifier("year_" + el.year), testStr, mm) == Ok(true)
    ensures Run(Identifier("month_" + el.month), testStr, mm) == Ok(true)
    ensures Run(Identifier("day_" + el.day), testStr, mm) == Ok(true)
    ensures Run(Identifier("hour_" + el.hour), testStr, mm) == Ok(true)
  {
    var tags := Split(testStr, ';');
    assert tags[|e|] == "year_" + el.year;
    assert tags[|e| + 2] == "month_" + el.month;
    assert tags[|e| + 4] == "day_" + el.day;
    assert tags[|e| + 6] == "hour_" + el.hour;
    PlainPatternIsMembership("year_" + el.year, testStr, mm);
    PlainPatternIsMembership("month_" + el.month, testStr, mm);
    PlainPatternIsMembership("day_" + el.day, testStr, mm);
    PlainPatternIsMembership("hour_" + el.hour, testStr, mm);
  }

  /**
   * With `minimatch` exact on plain patterns, an event answers the selector
   * of any ancestor of one of its tags.
   */
  lemma AncestorSelectable(item: TimelineEvent, i: nat, a: string, mm: Matcher)
    requires LiteralGlob(mm) && Plain(a)
    requires forall t :: t in ExpandedTags(item.parsedEventTags.GetOr([])) ==> ';' !in t
    requires Time.ParseTimelineDateElements(StartTime(Some(item))).Some? ==>
      NoSemicolon(Time.ParseTimelineDateElements(StartTime(Some(item))).value)
    requires var tags := item.parsedEventTags.GetOr([]);
      i < |tags| && ExpandsTo(tags[i], a)
    ensures Run(Identifier(a), TagString(item), mm) == Ok(true)
  {
    var e := ExpandedTags(item.parsedEventTags.GetOr([]));
    ExpandedTagsMembers(item.parsedEventTags.GetOr([]));
    assert a in e;
    TagStringSplit(item);
    PlainPatternIsMembership(a, TagString(item), mm);
    var el := Time.ParseTimelineDateElements(StartTime(Some(item)));
    if el.Some? {
      assert Split(TagString(item), ';') == e + DatePieces(el.value);
    } else {
      assert Split(TagString(item), ';') == e;
    }
  }

  /** One event-tag test against a built tree. */
  function TagTest(tree: Expression, ext: Externals): TimelineEvent -> Result<bool, SelectError> {
    (e: TimelineEvent) => Run(tree, TagString(e), ext.minimatch)
  }

  /**
   * One selector applied to each event in turn: the first test builds it, so
   * with any event a failed build throws; otherwise each event is kept when
   * the tree holds on its tag string, and the first failing run throws.
   */
  function SelectorFilter(exp: string, ext: Externals, events: seq<TimelineEvent>): Result<seq<TimelineEvent>, SelectError> {
    if |events| == 0 then Ok([])
    else
      var tree := Build(ext.parse(exp));
      if tree.Err? then Err(tree.error) else TryFilter(events, TagTest(tree.value, ext))
  }

  /** `filterByEventTag(events, params)` */
  function ByEventTag(events: seq<TimelineEvent>, params: FilterParams, ext: Externals): Result<seq<TimelineEvent>, SelectError> {
    if !Truthy(params.eventTags) then Ok(events) else SelectorFilter(params.eventTags.value, ext, events)
  }

  /** `filterByEventTag(events, params)`: one selector, applied to each event's tag string in order. */
  method FilterByEventTag(events: seq<TimelineEvent>, params: FilterParams, ext: Externals) returns (r: Result<seq<TimelineEvent>, SelectError>)
    ensures r == ByEventTag(events, params, ext)
  {
    if !Truthy(params.eventTags) {
      return Ok(events);
    }
    var exp := params.eventTags.value;
    var tagSelect := new StringSelectExp(exp, ext);
    var kept: seq<TimelineEvent> := [];
    for i := 0 to |events|
      invariant tagSelect.Valid() && tagSelect.exp == exp && tagSelect.ext == ext
      invariant i == 0 <==> tagSelect.parseResult.None?
      invariant SelectorFilter(exp, ext, events[..i]) == Ok(kept)
    {
      var s := EventTagString(events[i]);
      var keep := tagSelect.Test(s);
      SelectorStep(exp, ext, events, i, kept, keep);
      if keep.Err? {
        return Err(keep.error);
      }
      if keep.value {
        kept := kept + [events[i]];
      }
    }
    assert events[..|events|] == events;
    return Ok(kept);
  }

  /** One more test of the selector extends the filtered prefix, or its error is the filter's. */
  lemma SelectorStep(exp: string, ext: Externals, events: seq<TimelineEvent>, i: nat, kept: seq<TimelineEvent>, keep: Result<bool, SelectError>)
    requires i < |events| && SelectorFilter(exp, ext, events[..i]) == Ok(kept)
    requires keep == if i == 0 then FirstTest(exp, ext, TagString(events[i])) else LaterTest(exp, ext, TagString(events[i]))
    ensures keep.Err? ==> SelectorFilter(exp, ext, events) == Err(keep.error)
    ensures keep.Ok? ==> SelectorFilter(exp, ext, events[..i + 1]) == Ok(if keep.value then kept + [events[i]] else kept)
  {
    LaterTestAgrees(exp, ext, TagString(events[i]));
    var tree := Build(ext.parse(exp));
    if tree.Ok? {
      var p := TagTest(tree.value, ext);
      TryFilterStep(events, i, p);
      if keep.Err? {
        TryFilterPrefixErr(events, i + 1, p);
      }
    }
  }

  /** The event's range for the time filter: `[start, end || start]`. */
  function EventRange(item: TimelineEvent): Time.DateRange {
    Time.DateRange(StartTime(Some(item)), EndTimeJudged(Some(item)))
  }

  /** `filterByTime(events, params)`: the events whose range meets the query range. */
  function ByTime(events: seq<TimelineEvent>, params: FilterParams): seq<TimelineEvent> {
    Filter(events, e => Time.HasTimeRangeIntersection(EventRange(e), Time.DateRange(params.dateStart, params.dateEnd)))
  }

  /** An event without any date meets every query range, so the time filter keeps it. */
  lemma UndatedEventKept(item: TimelineEvent, params: FilterParams)
    requires !Truthy(item.date) && !Truthy(item.dateStart) && !Truthy(item.dateEnd)
    ensures Time.HasTimeRangeIntersection(EventRange(item), Time.DateRange(params.dateStart, params.dateEnd))
  {
  }

  /**
   * An event with a start and no end is the instant of its start: a closed
   * query range keeps it exactly when the start lies within the range. (The
   * closed-range test lets an instant at the start of an inverted query
   * through as well.)
   */
  lemma StartOnlyIsInstant(item: TimelineEvent, params: FilterParams, s: int, qs: int, qe: int)
    requires !Truthy(item.dateEnd)
    requires Time.ParseTimelineDate(StartTime(Some(item)), '/') == Some(JsNumber.Int(s))
    requires Time.ParseTimelineDate(params.dateStart, '/') == Some(JsNumber.Int(qs))
    requires Time.ParseTimelineDate(params.dateEnd, '/') == Some(JsNumber.Int(qe))
    ensures Time.HasTimeRangeIntersection(EventRange(item), Time.DateRange(params.dateStart, params.dateEnd)) <==>
      s == qs || qs < s <= qe
    ensures qs <= qe ==>
      (Time.HasTimeRangeIntersection(EventRange(item), Time.DateRange(params.dateStart, params.dateEnd)) <==> qs <= s <= qe)
  {
    assert EndTimeJudged(Some(item)) == StartTime(Some(item));
    var r1 := Time.NumRange(Some(JsNumber.Int(s)), Some(JsNumber.Int(s)));
    var r2 := Time.NumRange(Some(JsNumber.Int(qs)), Some(JsNumber.Int(qe)));
    assert Time.ParseRange(EventRange(item)) == r1;
    assert Time.ParseRange(Time.DateRange(params.dateStart, params.dateEnd)) == r2;
    InstantMeetsClosed(s, qs, qe);
  }

  /** The closed-range test compares starts first: an instant at the query's start always meets it. */
  lemma InstantMeetsClosed(s: int, qs: int, qe: int)
    ensures var r1 := Time.NumRange(Some(JsNumber.Int(s)), Some(JsNumber.Int(s)));
      var r2 := Time.NumRange(Some(JsNumber.Int(qs)), Some(JsNumber.Int(qe)));
      Time.Impl(r1, r2) <==> s == qs || qs < s <= qe
  {
  }

  /** `filterStrProperty(pattern, val)`: a fresh selector applied to the value, `false` without one. */
  function StrProperty(pattern: string, val: Option<string>, ext: Externals): Result<bool, SelectError> {
    if !Truthy(val) then Ok(false) else FirstTest(pattern, ext, val.value)
  }

  /** `filterStrProperty(pattern, val)` with its selector object. */
  method FilterStrProperty(pattern: string, val: Option<string>, ext: Externals) returns (r: Result<bool, SelectError>)
    ensures r == StrProperty(pattern, val, ext)
    ensures !Truthy(val) ==> r == Ok(false)
  {
    if !Truthy(val) {
      return Ok(false);
    }
    var strSelect := new StringSelectExp(pattern, ext);
    r := strSelect.Test(val.value);
  }

  function NameTest(pattern: string, ext: Externals): TimelineEvent -> Result<bool, SelectError> {
    (e: TimelineEvent) => StrProperty(pattern, e.name, ext)
  }

  /** `filterEventsByName(events, params)` */
  function ByName(events: seq<TimelineEvent>, params: FilterParams, ext: Externals): Result<seq<TimelineEvent>, SelectError> {
    if Truthy(params.name) then TryFilter(events, NameTest(params.name.value, ext)) else Ok(events)
  }

  /**
   * With a pattern, the name filter keeps exactly the events whose name
   * passes a fresh selector, in order; events without a name are dropped.
   */
  lemma ByNameKeeps(events: seq<TimelineEvent>, params: FilterParams, ext: Externals)
    requires Truthy(params.name) && ByName(events, params, ext).Ok?
    ensures ByName(events, params, ext).value == Filter(events, Accepts(NameTest(params.name.value, ext)))
    ensures forall e :: e in ByName(events, params, ext).value ==> Truthy(e.name) && e in events
  {
    TryFilterOk(events, NameTest(params.name.value, ext));
    FilterMembers(events, Accepts(NameTest(params.name.value, ext)));
  }

  /** `filterTimelineEvents(events, params)`; `None` is an absent `params`. */
  function Pipeline(events: seq<TimelineEvent>, params: Option<FilterParams>, ext: Externals): Result<seq<TimelineEvent>, SelectError> {
    if params.None? then Ok(events)
    else
      var p := params.value;
      var r1 := ByEventTag(events, p, ext);
      if r1.Err? then r1
      else
        var r2 := if Truthy(p.dateStart) || Truthy(p.dateEnd) then ByTime(r1.value, p) else r1.value;
        if Truthy(p.name) then ByName(r2, p, ext) else Ok(r2)
  }

  /** `filterTimelineEvents(events, params)`: each active stage filters what the previous one kept. */
  method FilterTimelineEvents(events: seq<TimelineEvent>, params: Option<FilterParams>, ext: Externals) returns (r: Result<seq<TimelineEvent>, SelectError>)
    ensures r == Pipeline(events, params, ext)
  {
    if params.None? {
      return Ok(events);
    }
    var p := params.value;
    var result := events;
    if Truthy(p.eventTags) {
      var byTag := FilterByEventTag(result, p, ext);
      if byTag.Err? {
        return byTag;
      }
      result := byTag.value;
    }
    if Truthy(p.dateStart) || Truthy(p.dateEnd) {
      result := ByTime(result, p);
    }
    if Truthy(p.name) {
      r := ByName(result, p, ext);
    } else {
      r := Ok(result);
    }
  }

  /** The selector builds and holds on the event's tag string. */
  predicate TagOk(e: TimelineEvent, exp: string, ext: Externals) {
    Build(ext.parse(exp)).Ok? && TagTest(Build(ext.parse(exp)).value, ext)(e) == Ok(true)
  }

  /** The event passes every active stage. */
  predicate Kept(e: TimelineEvent, p: FilterParams, ext: Externals) {
    (Truthy(p.eventTags) ==> TagOk(e, p.eventTags.value, ext)) &&
    (Truthy(p.dateStart) || Truthy(p.dateEnd) ==>
      Time.HasTimeRangeIntersection(EventRange(e), Time.DateRange(p.dateStart, p.dateEnd))) &&
    (Truthy(p.name) ==> StrProperty(p.name.value, e.name, ext) == Ok(true))
  }

  function KeptBy(p: FilterParams, ext: Externals): TimelineEvent -> bool {
    e => Kept(e, p, ext)
  }

  /**
   * When nothing throws, the pipeline keeps exactly the events that pass every
   * active stage, in their original order; without params it keeps all.
   */
  lemma PipelineKeeps(events: seq<TimelineEvent>, params: Option<FilterParams>, ext: Externals)
    requires Pipeline(events, params, ext).Ok?
    ensures params.None? ==> Pipeline(events, params, ext).value == events
    ensures params.Some? ==> Pipeline(events, params, ext).value == Filter(events, KeptBy(params.value, ext))
    ensures IsSubsequence(Pipeline(events, params, ext).value, events)
  {
    if params.None? {
      SubsequenceRefl(events);
    } else {
      var p := params.value;
      var tagOk := (e: TimelineEvent) => Truthy(p.eventTags) ==> TagOk(e, p.eventTags.value, ext);
      var timeOk := (e: TimelineEvent) => Truthy(p.dateStart) || Truthy(p.dateEnd) ==>
        Time.HasTimeRangeIntersection(EventRange(e), Time.DateRange(p.dateStart, p.dateEnd));
      var nameOk := (e: TimelineEvent) => Truthy(p.name) ==> StrProperty(p.name.value, e.name, ext) == Ok(true);
      var tagTime := (e: TimelineEvent) => tagOk(e) && timeOk(e);
      var r1 := ByEventTag(events, p, ext).value;
      StageTag(events, p, ext, tagOk);
      var r2 := if Truthy(p.dateStart) || Truthy(p.dateEnd) then ByTime(r1, p) else r1;
      StageTime(r1, p, timeOk);
      FilterFilter(events, tagOk, timeOk, tagTime);
      StageName(r2, p, ext, nameOk);
      FilterFilter(events, tagTime, nameOk, KeptBy(p, ext));
      FilterIsSubsequence(events, KeptBy(p, ext));
    }
  }

  lemma StageTag(events: seq<TimelineEvent>, p: FilterParams, ext: Externals, tagOk: TimelineEvent -> bool)
    requires ByEventTag(events, p, ext).Ok?
    requires forall e :: tagOk(e) == (Truthy(p.eventTags) ==> TagOk(e, p.eventTags.value, ext))
    ensures ByEventTag(events, p, ext).value == Filter(events, tagOk)
  {
    if !Truthy(p.eventTags) {
      FilterAll(events, tagOk);
    } else if |events| > 0 {
      var q := TagTest(Build(ext.parse(p.eventTags.value)).value, ext);
      TryFilterOk(events, q);
      FilterExt(events, Accepts(q), tagOk);
    }
  }

  lemma StageTime(r1: seq<TimelineEvent>, p: FilterParams, timeOk: TimelineEvent -> bool)
    requires forall e :: timeOk(e) == (Truthy(p.dateStart) || Truthy(p.dateEnd) ==>
      Time.HasTimeRangeIntersection(EventRange(e), Time.DateRange(p.dateStart, p.dateEnd)))
    ensures (if Truthy(p.dateStart) || Truthy(p.dateEnd) then ByTime(r1, p) else r1) == Filter(r1, timeOk)
  {
    if Truthy(p.dateStart) || Truthy(p.dateEnd) {
      FilterExt(r1, e => Time.HasTimeRangeIntersection(EventRange(e), Time.DateRange(p.dateStart, p.dateEnd)), timeOk);
    } else {
      FilterAll(r1, timeOk);
    }
  }

  lemma StageName(r2: seq<TimelineEvent>, p: FilterParams, ext: Externals, nameOk: TimelineEvent -> bool)
    requires (if Truthy(p.name) then ByName(r2, p, ext) else Ok(r2)).Ok?
    requires forall e :: nameOk(e) == (Truthy(p.name) ==> StrProperty(p.name.value, e.name, ext) == Ok(true))
    ensures (if Truthy(p.name) then ByName(r2, p, ext) else Ok(r2)).value == Filter(r2, nameOk)
  {
    if Truthy(p.name) {
      var q := NameTest(p.name.value, ext);
      TryFilterOk(r2, q);
      FilterExt(r2, Accepts(q), nameOk);
    } else {
      FilterAll(r2, nameOk);
    }
  }
}
