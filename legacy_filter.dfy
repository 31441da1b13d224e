/**
 * The older filters of `src/filter/`: the event filter by a `TagSelectExp`
 * selector over the raw event-tag string and by date range, and the file
 * filter that requires every listed tag (plus `timeline`) among the file's tags.
 */
module LegacyFilter {
  import opened Wrappers
  import opened JsString
  import opened Seqs
  import opened SelectTree
  import opened ParentChildrenTag
  import opened TimelineEvents
  import SelectExp
  import TagSelectExp
  import Time
  import JsNumber
  import opened FileFilter

  /** `ITimelineFilterParams` of the older filter. */
  datatype LegacyParams = LegacyParams(eventTags: Option<string>, dateStart: Option<string>, dateEnd: Option<string>)

  /** `s.split(';').filter(item => !!item)` */
  function Pieces(s: string): seq<string> {
    Filter(Split(s, ';'), NonEmpty)
  }

  /** The tags the selector sees for an event: `eventTags || 'none'`, then its date tags. */
  function LegacyTagString(item: TimelineEvent): string {
    var base := if Truthy(item.eventTags) then item.eventTags.value else "none";
    match Time.ParseTimelineDateElements(StartTime(Some(item)))
    case None => base
    case Some(el) => base + ";year_" + el.year + ";month_" + el.month + ";day_" + el.day + ";hour_" + el.hour
  }

  /** The filter callback of the older `filterByEventTag` up to the `test` call. */
  method LegacyEventTagString(item: TimelineEvent) returns (tags: string)
    ensures tags == LegacyTagString(item)
  {
    tags := if Truthy(item.eventTags) then item.eventTags.value else "none";
    var start := StartTime(Some(item));
    var timeElements := Time.ParseTimelineDateElements(start);
    if timeElements.Some? {
      tags := tags + ";year_" + timeElements.value.year;
      tags := tags + ";month_" + timeElements.value.month;
      tags := tags + ";day_" + timeElements.value.day;
      tags := tags + ";hour_" + timeElements.value.hour;
    }
  }

  /** The date tags the older filter appends, each after a `;`. */
  function LegacyDateTags(base: string, el: Time.DateElements): string {
    base + ";year_" + el.year + ";month_" + el.month + ";day_" + el.day + ";hour_" + el.hour
  }

  predicate NoSemicolon(el: Time.DateElements) {
    ';' !in el.year && ';' !in el.month && ';' !in el.day && ';' !in el.hour
  }

  /** A `;`-free field appended after a `;` is one more tag. */
  lemma SplitOneMore(base: string, y: string)
    requires ';' !in y
    ensures Split(base + [';'] + y, ';') == Split(base, ';') + [y]
  {
    SplitNoSep(y, ';');
    SplitAppend(base, ';', y);
  }

  lemma AppendTag(a: string, prefix: string, x: string)
    ensures a + ([';'] + prefix) + x == a + [';'] + (prefix + x)
  {
  }

  lemma SplitDateTags(base: string, el: Time.DateElements)
    requires NoSemicolon(el)
    ensures Split(LegacyDateTags(base, el), ';') ==
      Split(base, ';') + ["year_" + el.year, "month_" + el.month, "day_" + el.day, "hour_" + el.hour]
  {
    NotInConcat("year_", el.year, ';');
    NotInConcat("month_", el.month, ';');
    NotInConcat("day_", el.day, ';');
    NotInConcat("hour_", el.hour, ';');
    DateTagsShape(base, el);
    SplitFour(base, "year_" + el.year, "month_" + el.month, "day_" + el.day, "hour_" + el.hour);
  }

  lemma DateTagsShape(base: string, el: Time.DateElements)
    ensures LegacyDateTags(base, el) ==
      base + [';'] + ("year_" + el.year) + [';'] + ("month_" + el.month) + [';'] + ("day_" + el.day) + [';'] + ("hour_" + el.hour)
  {
    var t1 := base + [';'] + ("year_" + el.year);
    var t2 := t1 + [';'] + ("month_" + el.month);
    var t3 := t2 + [';'] + ("day_" + el.day);
    assert ";year_" == [';'] + "year_";
    AppendTag(base, "year_", el.year);
    assert ";month_" == [';'] + "month_";
    AppendTag(t1, "month_", el.month);
    assert ";day_" == [';'] + "day_";
    AppendTag(t2, "day_", el.day);
    assert ";hour_" == [';'] + "hour_";
    AppendTag(t3, "hour_", el.hour);
  }

  lemma SplitFour(base: string, y: string, m: string, d: string, h: string)
    requires ';' !in y && ';' !in m && ';' !in d && ';' !in h
    ensures Split(base + [';'] + y + [';'] + m + [';'] + d + [';'] + h, ';') == Split(base, ';') + [y, m, d, h]
  {
    var t1 := base + [';'] + y;
    var t2 := t1 + [';'] + m;
    var t3 := t2 + [';'] + d;
    SplitOneMore(base, y);
    SplitOneMore(t1, m);
    SplitOneMore(t2, d);
    SplitOneMore(t3, h);
  }

  /**
   * Unlike the newer filter, the date tags follow the event's own tags with a
   * single `;`: the selector sees the event's tags (or `none`) and then
   * `year_<y>`, `month_<m>`, `day_<d>` and `hour_<h>`.
   */
  lemma LegacyTagStringSplit(item: TimelineEvent)
    requires Time.ParseTimelineDateElements(StartTime(Some(item))).Some? ==>
      NoSemicolon(Time.ParseTimelineDateElements(StartTime(Some(item))).value)
    ensures var base := if Truthy(item.eventTags) then item.eventTags.value else "none";
      match Time.ParseTimelineDateElements(StartTime(Some(item)))
      case None => Split(LegacyTagString(item), ';') == Split(base, ';')
      case Some(el) =>
        Split(LegacyTagString(item), ';') == Split(base, ';') + ["year_" + el.year, "month_" + el.month, "day_" + el.day, "hour_" + el.hour]
  {
    var base := if Truthy(item.eventTags) then item.eventTags.value else "none";
    var dt := Time.ParseTimelineDateElements(StartTime(Some(item)));
    if dt.Some? {
      assert LegacyTagString(item) == LegacyDateTags(base, dt.value);
      SplitDateTags(base, dt.value);
    }
  }

  /**
   * With `minimatch` exact on plain patterns, the selector `none` picks out
   * the events without event tags.
   */
  lemma NoneSelectsUntagged(item: TimelineEvent, mm: Matcher)
    requires LiteralGlob(mm)
    requires !Truthy(item.eventTags)
    requires Time.ParseTimelineDateElements(StartTime(Some(item))).Some? ==>
      NoSemicolon(Time.ParseTimelineDateElements(StartTime(Some(item))).value)
    ensures Run(Identifier("none"), LegacyTagString(item), mm) == Ok(true)
  {
    LegacyTagStringSplit(item);
    NoneIsOneTag();
    NoneFirst(LegacyTagString(item), mm);
  }

  lemma NoneFirst(testStr: string, mm: Matcher)
    requires LiteralGlob(mm)
    requires Split(testStr, ';')[0] == "none"
    ensures Run(Identifier("none"), testStr, mm) == Ok(true)
  {
    NoneIsOneTag();
    PlainPatternIsMembership("none", testStr, mm);
  }

  lemma NoneIsOneTag()
    ensures Split("none", ';') == ["none"] && Plain("none")
  {
    assert ';' !in "none";
    SplitNoSep("none", ';');
    forall k | 0 <= k < 4
      ensures "none"[k] !in "*?[]{}()!+@#\\"
    {
      assert "none"[k] == 'n' || "none"[k] == 'o' || "none"[k] == 'e';
    }
  }

  /** One event-tag test against a built tree. */
  function LegacyTagTest(tree: Expression, ext: SelectExp.Externals): TimelineEvent -> Result<bool, SelectError> {
    (e: TimelineEvent) => Run(tree, LegacyTagString(e), ext.minimatch)
  }

  /** One `TagSelectExp` applied to each event in turn, as in the newer filter. */
  function LegacySelectorFilter(exp: string, ext: SelectExp.Externals, events: seq<TimelineEvent>): Result<seq<TimelineEvent>, SelectError> {
    if |events| == 0 then Ok([])
    else
      var tree := TagSelectExp.Build(ext.parse(exp));
      if tree.Err? then Err(tree.error) else TryFilter(events, LegacyTagTest(tree.value, ext))
  }

  /** The older `filterByEventTag(events, params)`: a selector without any tag leaves the events alone. */
  function LegacyByEventTag(events: seq<TimelineEvent>, params: LegacyParams, ext: SelectExp.Externals): Result<seq<TimelineEvent>, SelectError> {
    if !Truthy(params.eventTags) || |Pieces(params.eventTags.value)| == 0 then Ok(events)
    else LegacySelectorFilter(params.eventTags.value, ext, events)
  }

  method FilterByEventTag(events: seq<TimelineEvent>, params: LegacyParams, ext: SelectExp.Externals) returns (r: Result<seq<TimelineEvent>, SelectError>)
    ensures r == LegacyByEventTag(events, params, ext)
  {
    if !Truthy(params.eventTags) {
      return Ok(events);
    }
    var tags := Pieces(params.eventTags.value);
    if |tags| == 0 {
      return Ok(events);
    }
    var exp := params.eventTags.value;
    var tagSelect := new TagSelectExp.TagSelectExp(exp, ext);
    var kept: seq<TimelineEvent> := [];
    for i := 0 to |events|
      invariant tagSelect.Valid() && tagSelect.exp == exp && tagSelect.ext == ext
      invariant i == 0 <==> tagSelect.parseResult.None?
      invariant LegacySelectorFilter(exp, ext, events[..i]) == Ok(kept)
    {
      var s := LegacyEventTagString(events[i]);
      var keep := tagSelect.Test(s);
      LegacySelectorStep(exp, ext, events, i, kept, keep);
      if keep.Err? {
        return Err(keep.error);
      }
      if keep.value {
        kept := kept + [events[i]];
      }
    }
    assert events[..|events|] == events;
    return Ok(kept);
  }

  /** A string of `;`s only splits into empty pieces. */
  lemma {:induction false} SplitSeparators(s: string)
    requires forall i :: 0 <= i < |s| ==> s[i] == ';'
    ensures forall x :: x in Split(s, ';') ==> x == ""
    decreases |s|
  {
    if |s| > 0 {
      SplitSeparators(s[1..]);
    }
  }

  /**
   * A selector made only of `;`s, such as `;;`, has no tag: the older event
   * filter returns the events unchanged and the older file filter lets every
   * file through.
   */
  lemma SeparatorsOnlySelectAll(events: seq<TimelineEvent>, params: LegacyParams, ext: SelectExp.Externals, allTags: Option<seq<string>>)
    requires Truthy(params.eventTags)
    requires forall i :: 0 <= i < |params.eventTags.value| ==> params.eventTags.value[i] == ';'
    ensures LegacyByEventTag(events, params, ext) == Ok(events)
    ensures LegacyFileMatches(params.eventTags, allTags)
  {
    var s := params.eventTags.value;
    SplitSeparators(s);
    FilterNone(Split(s, ';'), NonEmpty);
  }

  lemma LegacySelectorStep(exp: string, ext: SelectExp.Externals, events: seq<TimelineEvent>, i: nat, kept: seq<TimelineEvent>, keep: Result<bool, SelectError>)
    requires i < |events| && LegacySelectorFilter(exp, ext, events[..i]) == Ok(kept)
    requires keep == if i == 0 then TagSelectExp.FirstTest(exp, ext, LegacyTagString(events[i]))
      else TagSelectExp.LaterTest(exp, ext, LegacyTagString(events[i]))
    ensures keep.Err? ==> LegacySelectorFilter(exp, ext, events) == Err(keep.error)
    ensures keep.Ok? ==> LegacySelectorFilter(exp, ext, events[..i + 1]) == Ok(if keep.value then kept + [events[i]] else kept)
  {
    TagSelectExp.LaterTestAgrees(exp, ext, LegacyTagString(events[i]));
    var tree := TagSelectExp.Build(ext.parse(exp));
    if tree.Ok? {
      var p := LegacyTagTest(tree.value, ext);
      TryFilterStep(events, i, p);
      if keep.Err? {
        TryFilterPrefixErr(events, i + 1, p);
      }
    }
  }

  /** The event's range in the older time filter: `[start, end]`, with no fallback for the end. */
  function LegacyEventRange(item: TimelineEvent): Time.DateRange {
    Time.DateRange(StartTime(Some(item)), EndTime(Some(item)))
  }

  /** The older `filterByTime(events, params)` */
  function LegacyByTime(events: seq<TimelineEvent>, params: LegacyParams): seq<TimelineEvent> {
    Filter(events, e => Time.HasTimeRangeIntersection(LegacyEventRange(e), Time.DateRange(params.dateStart, params.dateEnd)))
  }

  /**
   * Without the end-falls-back-to-start rule, an event with a start and no end
   * runs on forever: a closed query keeps it whenever it starts by the query's end.
   */
  lemma StartOnlyIsOpenEnded(item: TimelineEvent, params: LegacyParams, s: int, qs: int, qe: int)
    requires !Truthy(item.dateEnd)
    requires Time.ParseTimelineDate(StartTime(Some(item)), '/') == Some(JsNumber.Int(s))
    requires Time.ParseTimelineDate(params.dateStart, '/') == Some(JsNumber.Int(qs))
    requires Time.ParseTimelineDate(params.dateEnd, '/') == Some(JsNumber.Int(qe))
    ensures Time.HasTimeRangeIntersection(LegacyEventRange(item), Time.DateRange(params.dateStart, params.dateEnd)) <==> s <= qe
  {
    assert EndTime(Some(item)) == None;
    var r1 := Time.NumRange(Some(JsNumber.Int(s)), None);
    var r2 := Time.NumRange(Some(JsNumber.Int(qs)), Some(JsNumber.Int(qe)));
    assert Time.ParseRange(LegacyEventRange(item)) == r1;
    assert Time.ParseRange(Time.DateRange(params.dateStart, params.dateEnd)) == r2;
    OpenEndedMeetsClosed(s, qs, qe);
  }

  lemma OpenEndedMeetsClosed(s: int, qs: int, qe: int)
    ensures var r1 := Time.NumRange(Some(JsNumber.Int(s)), None);
      var r2 := Time.NumRange(Some(JsNumber.Int(qs)), Some(JsNumber.Int(qe)));
      Time.Impl(r1, r2) <==> s <= qe
  {
  }

  /** The older `filterTimelineEvents(events, params)`: tags, then time; no name filter. */
  function LegacyPipeline(events: seq<TimelineEvent>, params: Option<LegacyParams>, ext: SelectExp.Externals): Result<seq<TimelineEvent>, SelectError> {
    if params.None? then Ok(events)
    else
      var p := params.value;
      var r1 := if Truthy(p.eventTags) then LegacyByEventTag(events, p, ext) else Ok(events);
      if r1.Err? then r1
      else Ok(if Truthy(p.dateStart) || Truthy(p.dateEnd) then LegacyByTime(r1.value, p) else r1.value)
  }

  method FilterTimelineEvents(events: seq<TimelineEvent>, params: Option<LegacyParams>, ext: SelectExp.Externals) returns (r: Result<seq<TimelineEvent>, SelectError>)
    ensures r == LegacyPipeline(events, params, ext)
  {
    if params.None? {
      return Ok(events);
    }
    var p := params.value;
    var result := events;
    if Truthy(p.eventTags) {
      var byTag := FilterByEventTag(result, p, ext);
      if byTag.Err? {
        return byTag;
      }
      result := byTag.value;
    }
    if Truthy(p.dateStart) || Truthy(p.dateEnd) {
      result := LegacyByTime(result, p);
    }
    return Ok(result);
  }

  /** When nothing throws, the older pipeline keeps a subsequence of the events. */
  lemma LegacyPipelineSubsequence(events: seq<TimelineEvent>, params: Option<LegacyParams>, ext: SelectExp.Externals)
    requires LegacyPipeline(events, params, ext).Ok?
    ensures IsSubsequence(LegacyPipeline(events, params, ext).value, events)
    ensures params.Some? && !Truthy(params.value.eventTags) && !Truthy(params.value.dateStart) && !Truthy(params.value.dateEnd) ==>
      LegacyPipeline(events, params, ext).value == events
  {
    if params.None? {
      SubsequenceRefl(events);
    } else {
      var p := params.value;
      var r1 := if Truthy(p.eventTags) then LegacyByEventTag(events, p, ext) else Ok(events);
      if !Truthy(p.eventTags) || |Pieces(p.eventTags.value)| == 0 || |events| == 0 {
        SubsequenceRefl(events);
      } else {
        var q := LegacyTagTest(TagSelectExp.Build(ext.parse(p.eventTags.value)).value, ext);
        TryFilterOk(events, q);
        FilterIsSubsequence(events, Accepts(q));
      }
      if Truthy(p.dateStart) || Truthy(p.dateEnd) {
        var keep := e => Time.HasTimeRangeIntersection(LegacyEventRange(e), Time.DateRange(p.dateStart, p.dateEnd));
        FilterIsSubsequence(r1.value, keep);
        SubsequenceTrans(LegacyByTime(r1.value, p), r1.value, events);
      }
    }
  }

  /** The older selector builds and holds on the event's tag string. */
  predicate LegacyTagOk(e: TimelineEvent, exp: string, ext: SelectExp.Externals) {
    TagSelectExp.Build(ext.parse(exp)).Ok? && LegacyTagTest(TagSelectExp.Build(ext.parse(exp)).value, ext)(e) == Ok(true)
  }

  /** The event passes every active stage of the older pipeline; a selector without a tag is no stage. */
  predicate LegacyKept(e: TimelineEvent, p: LegacyParams, ext: SelectExp.Externals) {
    (Truthy(p.eventTags) && |Pieces(p.eventTags.value)| > 0 ==> LegacyTagOk(e, p.eventTags.value, ext)) &&
    (Truthy(p.dateStart) || Truthy(p.dateEnd) ==>
      Time.HasTimeRangeIntersection(LegacyEventRange(e), Time.DateRange(p.dateStart, p.dateEnd)))
  }

  function LegacyKeptBy(p: LegacyParams, ext: SelectExp.Externals): TimelineEvent -> bool {
    e => LegacyKept(e, p, ext)
  }

  /**
   * When nothing throws, the older pipeline keeps exactly the events that
   * pass its active stages, in their original order.
   */
  lemma LegacyPipelineKeeps(events: seq<TimelineEvent>, p: LegacyParams, ext: SelectExp.Externals)
    requires LegacyPipeline(events, Some(p), ext).Ok?
    ensures LegacyPipeline(events, Some(p), ext).value == Filter(events, LegacyKeptBy(p, ext))
  {
    var tagOk := (e: TimelineEvent) => Truthy(p.eventTags) && |Pieces(p.eventTags.value)| > 0 ==> LegacyTagOk(e, p.eventTags.value, ext);
    var timeOk := (e: TimelineEvent) => Truthy(p.dateStart) || Truthy(p.dateEnd) ==>
      Time.HasTimeRangeIntersection(LegacyEventRange(e), Time.DateRange(p.dateStart, p.dateEnd));
    var r1 := if Truthy(p.eventTags) then LegacyByEventTag(events, p, ext) else Ok(events);
    LegacyStageTag(events, p, ext, tagOk);
    LegacyStageTime(r1.value, p, timeOk);
    FilterFilter(events, tagOk, timeOk, LegacyKeptBy(p, ext));
  }

  lemma LegacyStageTag(events: seq<TimelineEvent>, p: LegacyParams, ext: SelectExp.Externals, tagOk: TimelineEvent -> bool)
    requires (if Truthy(p.eventTags) then LegacyByEventTag(events, p, ext) else Ok(events)).Ok?
    requires forall e :: tagOk(e) == (Truthy(p.eventTags) && |Pieces(p.eventTags.value)| > 0 ==> LegacyTagOk(e, p.eventTags.value, ext))
    ensures (if Truthy(p.eventTags) then LegacyByEventTag(events, p, ext) else Ok(events)).value == Filter(events, tagOk)
  {
    if !Truthy(p.eventTags) || |Pieces(p.eventTags.value)| == 0 {
      FilterAll(events, tagOk);
    } else if |events| > 0 {
      var q := LegacyTagTest(TagSelectExp.Build(ext.parse(p.eventTags.value)).value, ext);
      TryFilterOk(events, q);
      FilterExt(events, Accepts(q), tagOk);
    }
  }

  lemma LegacyStageTime(r1: seq<TimelineEvent>, p: LegacyParams, timeOk: TimelineEvent -> bool)
    requires forall e :: timeOk(e) == (Truthy(p.dateStart) || Truthy(p.dateEnd) ==>
      Time.HasTimeRangeIntersection(LegacyEventRange(e), Time.DateRange(p.dateStart, p.dateEnd)))
    ensures (if Truthy(p.dateStart) || Truthy(p.dateEnd) then LegacyByTime(r1, p) else r1) == Filter(r1, timeOk)
  {
    if Truthy(p.dateStart) || Truthy(p.dateEnd) {
      FilterExt(r1, e => Time.HasTimeRangeIntersection(LegacyEventRange(e), Time.DateRange(p.dateStart, p.dateEnd)), timeOk);
    } else {
      FilterAll(r1, timeOk);
    }
  }

  /**
   * The older `filterFileByTags(file, metadataCache, tags)`: every non-empty
   * `;`-separated tag, and `timeline`, must be among the file's tags or their
   * ancestors; `allTags` is `None` without a cache entry or tag list.
   */
  function LegacyFileMatches(tags: Option<string>, allTags: Option<seq<string>>): bool {
    if !Truthy(tags) || |Pieces(tags.value)| == 0 then true
    else if allTags.None? || |allTags.value| == 0 then false
    else
      var filetags := ExpandedTags(Stripped(allTags.value));
      forall val :: val in Pieces(tags.value) + ["timeline"] ==> val in filetags
  }

  method FilterFileByTags(tags: Option<string>, allTags: Option<seq<string>>) returns (r: bool)
    ensures r == LegacyFileMatches(tags, allTags)
  {
    if !Truthy(tags) {
      return true;
    }
    var tagList := Pieces(tags.value);
    if |tagList| == 0 {
      return true;
    }
    tagList := tagList + ["timeline"];
    if allTags.Some? {
      var fileTags := Stripped(allTags.value);
      if |fileTags| > 0 {
        var filetags := CollectTags(fileTags);
        return forall val :: val in tagList ==> val in filetags;
      }
    }
    return false;
  }

  /** `x` is one of the file's tags, without its `#`, or an ancestor of one. */
  predicate FileHasTag(allTags: seq<string>, x: string) {
    exists i :: 0 <= i < |allTags| && ExpandsTo(DropHash(allTags[i]), x)
  }

  lemma FileTagsMembers(allTags: seq<string>)
    ensures forall x :: x in ExpandedTags(Stripped(allTags)) <==> FileHasTag(allTags, x)
  {
    var s := Stripped(allTags);
    ExpandedTagsMembers(s);
    forall x ensures x in ExpandedTags(s) <==> FileHasTag(allTags, x) {
      if x in ExpandedTags(s) {
        var i :| 0 <= i < |s| && ExpandsTo(s[i], x);
        assert ExpandsTo(DropHash(allTags[i]), x);
      }
      if FileHasTag(allTags, x) {
        var i :| 0 <= i < |allTags| && ExpandsTo(DropHash(allTags[i]), x);
        assert ExpandsTo(s[i], x);
      }
    }
  }

  /**
   * A file passes the older filter exactly when it is tagged `timeline` (or
   * below it) and every listed tag is one of its tags or their ancestors.
   */
  lemma LegacyFileNeedsTimeline(tags: Option<string>, allTags: Option<seq<string>>)
    requires Truthy(tags) && |Pieces(tags.value)| > 0
    ensures LegacyFileMatches(tags, allTags) <==>
      allTags.Some? && FileHasTag(allTags.value, "timeline") &&
      forall val :: val in Pieces(tags.value) ==> FileHasTag(allTags.value, val)
  {
    var list := Pieces(tags.value) + ["timeline"];
    assert "timeline" in list;
    assert forall val :: val in list <==> val in Pieces(tags.value) || val == "timeline";
    if allTags.Some? && |allTags.value| > 0 {
      FileTagsMembers(allTags.value);
    }
  }
}
