/**
 * A timeline event and the accessors of `src/type/timeline-event.ts`: `||`
 * fallback chains over its date fields, and the sortable time of a date.
 */
module TimelineEvents {
  import opened Wrappers
  import opened JsString
  import opened JsNumber
  import Time

  /**
   * The fields of a parsed timeline event (`ITimelineEventItemParsed`) that the
   * filters and accessors read; `file` is the path of the file it was found in.
   */
  datatype TimelineEvent = TimelineEvent(
    eventTags: Option<string>,
    parsedEventTags: Option<seq<string>>,
    date: Option<string>,
    dateDescription: Option<string>,
    dateStart: Option<string>,
    dateEnd: Option<string>,
    name: Option<string>,
    file: string)

  /** `a || b` on optional strings. */
  function Or(a: Option<string>, b: Option<string>): Option<string> {
    if Truthy(a) then a else b
  }

  /**
   * `getTimelineEventTime(str)`: the parsed date, with `0` for a missing or
   * empty date and for `NaN` (`parseTimelineDate(str) || 0`).
   */
  function EventTime(str: Option<string>): (r: int)
    ensures r != 0 ==> Time.ParseTimelineDate(str, '/') == Some(Int(r))
    ensures Time.ParseTimelineDate(str, '/').None? || Time.ParseTimelineDate(str, '/') == Some(NaN) ==> r == 0
    ensures Time.ParseTimelineDate(str, '/').Some? && Time.ParseTimelineDate(str, '/').value.Int? ==>
      r == Time.ParseTimelineDate(str, '/').value.value
  {
    match Time.ParseTimelineDate(str, '/')
    case Some(Int(v)) => v
    case _ => 0
  }

  /** `getTimelineEventStartTime(dataset)`: `date || dateStart || undefined`. */
  function StartTime(dataset: Option<TimelineEvent>): (r: Option<string>)
    ensures r.None? || Truthy(r)
    ensures dataset.Some? && Truthy(dataset.value.date) ==> r == dataset.value.date
    ensures dataset.Some? && !Truthy(dataset.value.date) ==> r == (if Truthy(dataset.value.dateStart) then dataset.value.dateStart else None)
    ensures dataset.None? ==> r.None?
  {
    if dataset.None? then None else Or(dataset.value.date, Or(dataset.value.dateStart, None))
  }

  /** `getTimelineEventEndTime(dataset)`: `dateEnd || undefined`. */
  function EndTime(dataset: Option<TimelineEvent>): (r: Option<string>)
    ensures r.None? || Truthy(r)
    ensures r.Some? ==> dataset.Some? && r == dataset.value.dateEnd
  {
    if dataset.None? then None else Or(dataset.value.dateEnd, None)
  }

  /** `getTimelineEventEndTimeJudged(dataset)`: the end, or else the start. */
  function EndTimeJudged(dataset: Option<TimelineEvent>): (r: Option<string>)
    ensures r.None? || Truthy(r)
    ensures r.None? <==> EndTime(dataset).None? && StartTime(dataset).None?
    ensures EndTime(dataset).Some? ==> r == EndTime(dataset)
    ensures EndTime(dataset).None? ==> r == StartTime(dataset)
  {
    Or(EndTime(dataset), StartTime(dataset))
  }

  /** `getTimelineEventId(dataset)`; `None` is `null`. */
  function EventId(dataset: Option<TimelineEvent>): Option<string> {
    if dataset.None? then None
    else
      var e := dataset.value;
      if Truthy(e.date) then Some(NumberToString(EventTime(e.date)))
      else if Truthy(e.dateStart) && Truthy(e.dateEnd) then
        Some(NumberToString(EventTime(e.dateStart)) + "-" + NumberToString(EventTime(e.dateEnd)))
      else if Truthy(e.dateStart) then Some(NumberToString(EventTime(e.dateStart)))
      else None
  }

  /** What follows the start time in an id: `-` and the end time for a range without `date`. */
  function RangeSuffix(e: TimelineEvent): string {
    if !Truthy(e.date) && Truthy(e.dateStart) && Truthy(e.dateEnd) then "-" + NumberToString(EventTime(e.dateEnd)) else ""
  }

  /**
   * An event has an id exactly when it has a start, and the id reads back
   * (with `parseInt`) as the time of that start; a range id continues with
   * `-` and the time of the end.
   */
  lemma EventIdIsStartTime(dataset: Option<TimelineEvent>)
    ensures EventId(dataset).Some? <==> StartTime(dataset).Some?
    ensures EventId(dataset).Some? ==> ParseInt(EventId(dataset).value) == Int(EventTime(StartTime(dataset)))
    ensures EventId(dataset).Some? ==>
      EventId(dataset).value == NumberToString(EventTime(StartTime(dataset))) + RangeSuffix(dataset.value)
  {
    if EventId(dataset).Some? {
      IdShape(dataset.value);
      RenderedThenText(EventTime(StartTime(dataset)), RangeSuffix(dataset.value));
    }
  }

  lemma IdShape(e: TimelineEvent)
    requires EventId(Some(e)).Some?
    ensures EventId(Some(e)).value == NumberToString(EventTime(StartTime(Some(e)))) + RangeSuffix(e)
  {
  }

  /** `parseInt` of a rendered integer followed by text starting with `-` reads the integer. */
  lemma RenderedThenText(n: int, rest: string)
    requires |rest| > 0 ==> rest[0] == '-'
    ensures ParseInt(NumberToString(n) + rest) == Int(n)
  {
    var ds := NatToString(if n < 0 then -n else n);
    if n < 0 {
      ParseMinusThen(NumberToString(n) + rest, ds, rest);
    } else {
      ParseDecimalThen(NumberToString(n) + rest, ds, rest);
    }
  }

  /**
   * `getTimelineSortOrder(dataset)`: `-1` without a dataset, otherwise the time
   * of `date`, falling back to that of `dateStart` when it is `0`.
   */
  function SortOrder(dataset: Option<TimelineEvent>): (r: int)
    ensures dataset.None? ==> r == -1
    ensures dataset.Some? && EventTime(dataset.value.date) != 0 ==> r == EventTime(dataset.value.date)
    ensures dataset.Some? && EventTime(dataset.value.date) == 0 ==> r == EventTime(dataset.value.dateStart)
  {
    if dataset.None? then -1
    else if EventTime(dataset.value.date) != 0 then EventTime(dataset.value.date)
    else EventTime(dataset.value.dateStart)
  }

  /** An event with a parsable start sorts by the time of its start. */
  lemma SortOrderIsStartTime(e: TimelineEvent)
    requires EventTime(StartTime(Some(e))) != 0
    ensures SortOrder(Some(e)) == EventTime(StartTime(Some(e)))
  {
    if !Truthy(e.date) {
      assert EventTime(e.date) == 0;
    }
  }

  /** `getTimelineEventDateDescription(dataset)`: the description, else the id. */
  function DateDescription(dataset: Option<TimelineEvent>): (r: Option<string>)
    ensures dataset.Some? && Truthy(dataset.value.dateDescription) ==> r == dataset.value.dateDescription
    ensures !(dataset.Some? && Truthy(dataset.value.dateDescription)) ==> r == EventId(dataset)
  {
    if dataset.Some? && Truthy(dataset.value.dateDescription) then dataset.value.dateDescription else EventId(dataset)
  }

  /** `parseBoolean(value)`: `undefined` for a missing or empty value, else whether it is `'true'`. */
  function ParseBoolean(value: Option<string>): (r: Option<bool>)
    ensures r.None? <==> !Truthy(value)
    ensures r == Some(true) <==> value == Some("true")
  {
    if Truthy(value) then Some(value.value == "true") else None
  }
}
