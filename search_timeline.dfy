/**
 * `searchTimelineEvents` of `src/apis/search-timeline.ts`: keep the files
 * whose tags pass the file selector, read their events, reject an inverted
 * query range, and concatenate what the event filter keeps of each file.
 */
module SearchTimeline {
  import opened Wrappers
  import opened Seqs
  import opened SelectTree
  import opened SelectExp
  import opened TimelineEvents
  import opened EventFilter
  import opened FileFilter
  import Time
  import JsNumber

  /** A file, known by its path: the key of the map its events are read into. */
  type FileId = string

  /** `getAllTags` of a file's metadata-cache entry; `None` without an entry or tag list. */
  type MetadataCache = FileId -> Option<seq<string>>

  /** `ITimelineSearchParams`: the file selector and the event filter's params. */
  datatype SearchParams = SearchParams(tags: Option<string>, eventTags: Option<string>, dateStart: Option<string>, dateEnd: Option<string>, name: Option<string>)

  /** The params handed to the event filter: only these four are forwarded. */
  function Forward(p: SearchParams): FilterParams {
    FilterParams(p.eventTags, p.dateStart, p.dateEnd, p.name)
  }

  /** Both query dates parse and the start is after the end. */
  predicate InvalidRange(dateStart: Option<string>, dateEnd: Option<string>) {
    var start := Time.ParseTimelineDate(dateStart, '/');
    var end := Time.ParseTimelineDate(dateEnd, '/');
    start.Some? && end.Some? && JsNumber.Gt(start.value, end.value)
  }

  /** The events each timeline keeps, one timeline after the other; the first throwing filter aborts. */
  function ConcatFiltered(timelines: seq<seq<TimelineEvent>>, p: FilterParams, ext: Externals): Result<seq<TimelineEvent>, SelectError>
    decreases |timelines|
  {
    if |timelines| == 0 then Ok([])
    else
      var init := ConcatFiltered(timelines[..|timelines| - 1], p, ext);
      if init.Err? then init
      else
        var last := Pipeline(timelines[|timelines| - 1], Some(p), ext);
        if last.Err? then last else Ok(init.value + last.value)
  }

  /** `for (const timeline of timelines) res.push(...filterTimelineEvents(timeline, p))` */
  method PushFiltered(timelines: seq<seq<TimelineEvent>>, p: FilterParams, ext: Externals) returns (r: Result<seq<TimelineEvent>, SelectError>)
    ensures r == ConcatFiltered(timelines, p, ext)
  {
    var res: seq<TimelineEvent> := [];
    for i := 0 to |timelines|
      invariant ConcatFiltered(timelines[..i], p, ext) == Ok(res)
    {
      assert timelines[..i + 1][..i] == timelines[..i];
      var kept := FilterTimelineEvents(timelines[i], Some(p), ext);
      if kept.Err? {
        ConcatPrefixErr(timelines, i + 1, p, ext);
        return kept;
      }
      res := res + kept.value;
    }
    assert timelines[..|timelines|] == timelines;
    return Ok(res);
  }

  lemma {:induction false} ConcatPrefixErr(timelines: seq<seq<TimelineEvent>>, k: nat, p: FilterParams, ext: Externals)
    requires k <= |timelines| && ConcatFiltered(timelines[..k], p, ext).Err?
    ensures ConcatFiltered(timelines, p, ext) == ConcatFiltered(timelines[..k], p, ext)
    decreases |timelines| - k
  {
    if k == |timelines| {
      assert timelines[..k] == timelines;
    } else {
      var init := timelines[..|timelines| - 1];
      assert init[..k] == timelines[..k];
      ConcatPrefixErr(init, k, p, ext);
    }
  }

  /**
   * When no filter throws, the concatenation holds exactly the events of the
   * timelines that pass every active stage.
   */
  lemma {:induction false} ConcatFilteredMembers(timelines: seq<seq<TimelineEvent>>, p: FilterParams, ext: Externals)
    requires ConcatFiltered(timelines, p, ext).Ok?
    ensures forall x :: x in ConcatFiltered(timelines, p, ext).value <==>
      Kept(x, p, ext) && exists i :: 0 <= i < |timelines| && x in timelines[i]
    decreases |timelines|
  {
    if |timelines| > 0 {
      var init := timelines[..|timelines| - 1];
      var last := timelines[|timelines| - 1];
      ConcatFilteredMembers(init, p, ext);
      PipelineKeeps(last, Some(p), ext);
      FilterMembers(last, KeptBy(p, ext));
      forall x
        ensures x in ConcatFiltered(timelines, p, ext).value <==>
          Kept(x, p, ext) && exists i :: 0 <= i < |timelines| && x in timelines[i]
      {
        ExistsSplit(timelines, init, (tl: seq<TimelineEvent>) => x in tl);
      }
    }
  }

  /** The keys of a `Map` filled by `set` in this order: the first occurrences, in order. */
  function Dedup(files: seq<FileId>): (r: seq<FileId>)
    ensures Distinct(r)
    ensures forall f :: f in r <==> f in files
    decreases |files|
  {
    if |files| == 0 then []
    else
      var init := Dedup(files[..|files| - 1]);
      var last := files[|files| - 1];
      assert files == files[..|files| - 1] + [last];
      if last in init then init else init + [last]
  }

  /**
   * `getTimelineEventInFile(fileList, vault).values()`: the events `read`
   * finds in each file, in the order the file paths were first set.
   */
  function ReadTimelines(fileList: seq<FileId>, read: FileId -> seq<TimelineEvent>): seq<seq<TimelineEvent>> {
    var keys := Dedup(fileList);
    seq(|keys|, i requires 0 <= i < |keys| => read(keys[i]))
  }

  /** The file filter of the search: a fresh selector per file. */
  function FileTest(tags: Option<string>, cache: MetadataCache, ext: Externals): FileId -> Result<bool, SelectError> {
    f => FileMatches(tags, cache(f), ext)
  }

  /** `searchTimelineEvents(opt)` */
  function Search(vaultFiles: seq<FileId>, cache: MetadataCache, read: FileId -> seq<TimelineEvent>, params: SearchParams, ext: Externals): Result<seq<TimelineEvent>, SelectError> {
    var fileList := TryFilter(vaultFiles, FileTest(params.tags, cache, ext));
    if fileList.Err? then Err(fileList.error)
    else if InvalidRange(params.dateStart, params.dateEnd) then Ok([])
    else ConcatFiltered(ReadTimelines(fileList.value, read), Forward(params), ext)
  }

  method SearchTimelineEvents(vaultFiles: seq<FileId>, cache: MetadataCache, read: FileId -> seq<TimelineEvent>, params: SearchParams, ext: Externals)
    returns (r: Result<seq<TimelineEvent>, SelectError>)
    ensures r == Search(vaultFiles, cache, read, params, ext)
  {
    var fileList := TryFilter(vaultFiles, FileTest(params.tags, cache, ext));
    if fileList.Err? {
      return Err(fileList.error);
    }
    var timelineEventsInFiles := ReadTimelines(fileList.value, read);
    var start := Time.ParseTimelineDate(params.dateStart, '/');
    var end := Time.ParseTimelineDate(params.dateEnd, '/');
    if start.Some? && end.Some? && JsNumber.Gt(start.value, end.value) {
      return Ok([]);
    }
    r := PushFiltered(timelineEventsInFiles, Forward(params), ext);
  }

  /**
   * A search that does not throw returns exactly the events that are in a
   * file passing the file selector and that pass every active event stage;
   * an inverted query range returns nothing, and so does a vault in which no
   * file passes.
   */
  lemma SearchMembers(vaultFiles: seq<FileId>, cache: MetadataCache, read: FileId -> seq<TimelineEvent>, params: SearchParams, ext: Externals)
    requires Search(vaultFiles, cache, read, params, ext).Ok?
    ensures InvalidRange(params.dateStart, params.dateEnd) ==> Search(vaultFiles, cache, read, params, ext).value == []
    ensures TryFilter(vaultFiles, FileTest(params.tags, cache, ext)) == Ok([]) ==> Search(vaultFiles, cache, read, params, ext).value == []
    ensures !InvalidRange(params.dateStart, params.dateEnd) ==>
      forall x :: x in Search(vaultFiles, cache, read, params, ext).value <==>
        Kept(x, Forward(params), ext) &&
        exists f :: f in vaultFiles && FileMatches(params.tags, cache(f), ext) == Ok(true) && x in read(f)
  {
    var test := FileTest(params.tags, cache, ext);
    TryFilterOk(vaultFiles, test);
    var fileList := TryFilter(vaultFiles, test).value;
    FilterMembers(vaultFiles, Accepts(test));
    if !InvalidRange(params.dateStart, params.dateEnd) {
      var ts := ReadTimelines(fileList, read);
      ConcatFilteredMembers(ts, Forward(params), ext);
      assert Search(vaultFiles, cache, read, params, ext) == ConcatFiltered(ts, Forward(params), ext);
      forall x
        ensures x in Search(vaultFiles, cache, read, params, ext).value <==>
          Kept(x, Forward(params), ext) &&
          exists f :: f in vaultFiles && FileMatches(params.tags, cache(f), ext) == Ok(true) && x in read(f)
      {
        FileEvents(vaultFiles, fileList, Accepts(test), read, x);
      }
    }
    if fileList == [] {
      assert ReadTimelines(fileList, read) == [];
    }
  }

  /**
   * What a caller hands over as `opt.app`: an Obsidian `App`, whose metadata
   * cache is its `metadataCache` field, or nothing, when a caller leaves the
   * field out.
   */
  datatype AppArg = NoApp | App(metadataCache: MetadataCache)

  /**
   * `filterFileByTags(file, opt.app, tags)` as written: with a selector, the
   * callee calls `getFileCache` on what it is given, which neither an `App`
   * nor `undefined` has, so the call throws a `TypeError`.
   */
  function FileTestAsWritten(tags: Option<string>): FileId -> Result<bool, SelectError> {
    f => if Truthy(tags) then Err(TypeError("getFileCache")) else Ok(true)
  }

  /** `searchTimelineEvents(opt)` as written, `opt.app` handed to the file filter and read for its `vault`. */
  function SearchAsWritten(vaultFiles: seq<FileId>, app: AppArg, read: FileId -> seq<TimelineEvent>, params: SearchParams, ext: Externals): Result<seq<TimelineEvent>, SelectError> {
    var fileList := TryFilter(vaultFiles, FileTestAsWritten(params.tags));
    if fileList.Err? then Err(fileList.error)
    else if app.NoApp? then Err(TypeError("vault"))
    else if InvalidRange(params.dateStart, params.dateEnd) then Ok([])
    else ConcatFiltered(ReadTimelines(fileList.value, read), Forward(params), ext)
  }

  /**
   * As written, a search with a file selector throws on the first file, and
   * one without an `App` always throws; it agrees with the search over the
   * app's metadata cache exactly when no file is tested against a selector.
   */
  lemma AppAsCache(vaultFiles: seq<FileId>, app: AppArg, read: FileId -> seq<TimelineEvent>, params: SearchParams, ext: Externals)
    ensures Truthy(params.tags) && |vaultFiles| > 0 ==> SearchAsWritten(vaultFiles, app, read, params, ext) == Err(TypeError("getFileCache"))
    ensures app.NoApp? ==> SearchAsWritten(vaultFiles, app, read, params, ext).Err?
    ensures app.App? && (!Truthy(params.tags) || |vaultFiles| == 0) ==>
      SearchAsWritten(vaultFiles, app, read, params, ext) == Search(vaultFiles, app.metadataCache, read, params, ext)
  {
    var written := FileTestAsWritten(params.tags);
    TryFilterOk(vaultFiles, written);
    if Truthy(params.tags) && |vaultFiles| > 0 {
      assert vaultFiles[0] in vaultFiles;
      TryFilterErr(vaultFiles, written);
    }
    if app.App? && (!Truthy(params.tags) || |vaultFiles| == 0) {
      var test := FileTest(params.tags, app.metadataCache, ext);
      TryFilterOk(vaultFiles, test);
      FilterExt(vaultFiles, Accepts(written), Accepts(test));
    }
  }

  /** An event is in a timeline read from the kept files iff it is read from some file of the vault that passes `keep`. */
  lemma FileEvents(vaultFiles: seq<FileId>, fileList: seq<FileId>, keep: FileId -> bool, read: FileId -> seq<TimelineEvent>, x: TimelineEvent)
    requires forall f :: f in fileList <==> f in vaultFiles && keep(f)
    ensures (exists i :: 0 <= i < |ReadTimelines(fileList, read)| && x in ReadTimelines(fileList, read)[i]) <==>
      exists f :: f in vaultFiles && keep(f) && x in read(f)
  {
    var ts := ReadTimelines(fileList, read);
    var keys := Dedup(fileList);
    if exists i :: 0 <= i < |ts| && x in ts[i] {
      var i :| 0 <= i < |ts| && x in ts[i];
      assert keys[i] in fileList;
    }
    if exists f :: f in vaultFiles && keep(f) && x in read(f) {
      var f :| f in vaultFiles && keep(f) && x in read(f);
      assert f in keys;
      var i :| 0 <= i < |keys| && keys[i] == f;
      assert x in ts[i];
    }
  }
}
