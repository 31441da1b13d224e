/**
 * `EventTagsManage` of `src/event-tags-manage/index.ts`: the singleton that
 * keeps, per file, the timeline events parsed from it, updates that table
 * file by file, and searches it like `searchTimelineEvents`.
 */
module EventTagsManage {
  import opened Wrappers
  import opened Seqs
  import opened SelectTree
  import opened TimelineEvents
  import opened SelectExp
  import opened EventFilter
  import opened FileFilter
  import opened SearchTimeline
  import Time
  import JsNumber

  /** `FileTagInfos`: a file and the timeline events parsed from it. */
  datatype FileTagInfos = FileTagInfos(file: FileId, eventTags: seq<TimelineEvent>)

  /** A `Map<TFile, FileTagInfos>`: its keys in insertion order and its entries. */
  datatype Table = Table(keys: seq<FileId>, entries: map<FileId, FileTagInfos>)

  /** The keys are the entries' keys, each listed once. */
  predicate WellFormed(t: Table) {
    Distinct(t.keys) &&
    (forall k :: k in t.entries ==> k in t.keys) &&
    (forall k :: k in t.keys ==> k in t.entries)
  }

  /** `map.set(k, v)`: a new key goes last, an existing one keeps its place. */
  function Set(t: Table, k: FileId, v: FileTagInfos): (r: Table)
    requires WellFormed(t)
    ensures WellFormed(r)
  {
    if k in t.entries then Table(t.keys, t.entries[k := v])
    else Table(t.keys + [k], t.entries[k := v])
  }

  /** `for (const [file, info] of pairs) map.set(file, info)` */
  function SetAll(t: Table, pairs: seq<(FileId, FileTagInfos)>): (r: Table)
    requires WellFormed(t)
    ensures WellFormed(r)
    decreases |pairs|
  {
    if |pairs| == 0 then t
    else
      var last := pairs[|pairs| - 1];
      Set(SetAll(t, pairs[..|pairs| - 1]), last.0, last.1)
  }

  /** `map.delete(k)` */
  function Delete(t: Table, k: FileId): (r: Table)
    requires WellFormed(t)
    ensures WellFormed(r)
  {
    FilterDistinct(t.keys, (x: FileId) => x != k);
    FilterMembers(t.keys, (x: FileId) => x != k);
    Table(Filter(t.keys, (x: FileId) => x != k), t.entries - {k})
  }

  /** `map.values()`, in insertion order. */
  function Values(t: Table): seq<FileTagInfos>
    requires WellFormed(t)
  {
    seq(|t.keys|, i requires 0 <= i < |t.keys| => t.entries[t.keys[i]])
  }

  /** The keys the pairs set. */
  function PairKeys(pairs: seq<(FileId, FileTagInfos)>): seq<FileId> {
    seq(|pairs|, j requires 0 <= j < |pairs| => pairs[j].0)
  }

  /** No later pair sets the key of pair `j`. */
  predicate LastFor(pairs: seq<(FileId, FileTagInfos)>, j: int)
    requires 0 <= j < |pairs|
  {
    forall j' :: j < j' < |pairs| ==> pairs[j'].0 != pairs[j].0
  }

  /**
   * Setting a batch of pairs keeps the old keys in their order and appends
   * the new ones, and the keys it does not mention keep their entries.
   */
  lemma {:induction false} SetAllKeys(t: Table, pairs: seq<(FileId, FileTagInfos)>)
    requires WellFormed(t)
    ensures t.keys <= SetAll(t, pairs).keys
    ensures forall k :: k in SetAll(t, pairs).entries <==> k in t.entries || k in PairKeys(pairs)
    ensures forall k :: k in t.entries && k !in PairKeys(pairs) ==> SetAll(t, pairs).entries[k] == t.entries[k]
    decreases |pairs|
  {
    if |pairs| > 0 {
      var init := pairs[..|pairs| - 1];
      var last := pairs[|pairs| - 1];
      var r0 := SetAll(t, init);
      var r := SetAll(t, pairs);
      assert r == Set(r0, last.0, last.1);
      SetAllKeys(t, init);
      assert r0.keys <= r.keys;
      assert PairKeys(pairs) == PairKeys(init) + [last.0];
    }
  }

  /** Each key a batch sets holds the value of the last pair that sets it. */
  lemma {:induction false} SetAllLast(t: Table, pairs: seq<(FileId, FileTagInfos)>)
    requires WellFormed(t)
    ensures forall j :: 0 <= j < |pairs| && LastFor(pairs, j) ==>
      pairs[j].0 in SetAll(t, pairs).entries && SetAll(t, pairs).entries[pairs[j].0] == pairs[j].1
    decreases |pairs|
  {
    if |pairs| > 0 {
      var init := pairs[..|pairs| - 1];
      var last := pairs[|pairs| - 1];
      var r := SetAll(t, pairs);
      assert r == Set(SetAll(t, init), last.0, last.1);
      SetAllLast(t, init);
      forall j | 0 <= j < |pairs| && LastFor(pairs, j)
        ensures pairs[j].0 in r.entries && r.entries[pairs[j].0] == pairs[j].1
      {
        if j < |pairs| - 1 {
          assert init[j] == pairs[j];
          assert LastFor(init, j);
        }
      }
    }
  }

  /** Deleting a key removes that key and nothing else, and keeps the others' order. */
  lemma DeleteEffect(t: Table, k: FileId)
    requires WellFormed(t)
    ensures k !in Delete(t, k).entries
    ensures forall k' :: k' != k ==> (k' in Delete(t, k).entries <==> k' in t.entries)
    ensures forall k' :: k' != k && k' in t.entries ==> Delete(t, k).entries[k'] == t.entries[k']
    ensures IsSubsequence(Delete(t, k).keys, t.keys)
  {
    FilterIsSubsequence(t.keys, (x: FileId) => x != k);
  }

  /** The search of the table: files by their tags, then their events. */
  function TableSearch(t: Table, cache: MetadataCache, params: SearchParams, ext: Externals): Result<seq<TimelineEvent>, SelectError>
    requires WellFormed(t)
  {
    var infos := TryFilter(Values(t), InfoTest(params.tags, cache, ext));
    if infos.Err? then Err(infos.error)
    else if InvalidRange(params.dateStart, params.dateEnd) then Ok([])
    else ConcatFiltered(EventsOf(infos.value), Forward(params), ext)
  }

  /** `filterFileByTags(tagInfo.file, app, tags)` */
  function InfoTest(tags: Option<string>, cache: MetadataCache, ext: Externals): FileTagInfos -> Result<bool, SelectError> {
    (info: FileTagInfos) => FileMatches(tags, cache(info.file), ext)
  }

  function EventsOf(infos: seq<FileTagInfos>): seq<seq<TimelineEvent>> {
    seq(|infos|, i requires 0 <= i < |infos| => infos[i].eventTags)
  }

  /**
   * A table search that does not throw returns exactly the events of the
   * entries whose file passes the file selector that pass every active event
   * stage; an inverted query range returns nothing.
   */
  lemma TableSearchMembers(t: Table, cache: MetadataCache, params: SearchParams, ext: Externals)
    requires WellFormed(t) && TableSearch(t, cache, params, ext).Ok?
    ensures InvalidRange(params.dateStart, params.dateEnd) ==> TableSearch(t, cache, params, ext).value == []
    ensures !InvalidRange(params.dateStart, params.dateEnd) ==>
      forall x :: x in TableSearch(t, cache, params, ext).value <==>
        Kept(x, Forward(params), ext) &&
        exists k :: k in t.entries && FileMatches(params.tags, cache(t.entries[k].file), ext) == Ok(true) && x in t.entries[k].eventTags
  {
    var test := InfoTest(params.tags, cache, ext);
    var vals := Values(t);
    TryFilterOk(vals, test);
    var infos := TryFilter(vals, test).value;
    FilterMembers(vals, Accepts(test));
    if !InvalidRange(params.dateStart, params.dateEnd) {
      var ts := EventsOf(infos);
      ConcatFilteredMembers(ts, Forward(params), ext);
      assert TableSearch(t, cache, params, ext) == ConcatFiltered(ts, Forward(params), ext);
      forall x
        ensures x in TableSearch(t, cache, params, ext).value <==>
          Kept(x, Forward(params), ext) &&
          exists k :: k in t.entries && FileMatches(params.tags, cache(t.entries[k].file), ext) == Ok(true) && x in t.entries[k].eventTags
      {
        MatchingEvents(t, infos, Accepts(test), x);
      }
    }
  }

  /** An event is in one of the kept entries iff it is in some entry of the table that passes `keep`. */
  lemma MatchingEvents(t: Table, infos: seq<FileTagInfos>, keep: FileTagInfos -> bool, x: TimelineEvent)
    requires WellFormed(t)
    requires forall v :: v in infos <==> v in Values(t) && keep(v)
    ensures (exists i :: 0 <= i < |infos| && x in EventsOf(infos)[i]) <==>
      exists k :: k in t.entries && keep(t.entries[k]) && x in t.entries[k].eventTags
  {
    var vals := Values(t);
    var ts := EventsOf(infos);
    if exists i :: 0 <= i < |ts| && x in ts[i] {
      var i :| 0 <= i < |ts| && x in ts[i];
      assert infos[i] in vals;
      var n :| 0 <= n < |t.keys| && vals[n] == infos[i];
      assert t.keys[n] in t.entries;
    }
    if exists k :: k in t.entries && keep(t.entries[k]) && x in t.entries[k].eventTags {
      var k :| k in t.entries && keep(t.entries[k]) && x in t.entries[k].eventTags;
      var n :| 0 <= n < |t.keys| && t.keys[n] == k;
      assert vals[n] == t.entries[k];
      assert t.entries[k] in infos;
      var i :| 0 <= i < |infos| && infos[i] == t.entries[k];
      assert x in ts[i];
    }
  }

  /**
   * `filterFileByTags(tagInfo.file, this.app, tags)` as written: with a
   * selector, the callee calls `getFileCache` on the `App`, which has none,
   * and throws a `TypeError`.
   */
  function InfoTestAsWritten(tags: Option<string>): FileTagInfos -> Result<bool, SelectError> {
    (info: FileTagInfos) => if Truthy(tags) then Err(TypeError("getFileCache")) else Ok(true)
  }

  /** The search of the table as written, the `App` handed to the file filter. */
  function TableSearchAsWritten(t: Table, params: SearchParams, ext: Externals): Result<seq<TimelineEvent>, SelectError>
    requires WellFormed(t)
  {
    var infos := TryFilter(Values(t), InfoTestAsWritten(params.tags));
    if infos.Err? then Err(infos.error)
    else if InvalidRange(params.dateStart, params.dateEnd) then Ok([])
    else ConcatFiltered(EventsOf(infos.value), Forward(params), ext)
  }

  /**
   * As written, a table search with a file selector throws on the first
   * entry; it agrees with the search over the app's metadata cache exactly
   * when no entry is tested against a selector.
   */
  lemma TableAppAsCache(t: Table, cache: MetadataCache, params: SearchParams, ext: Externals)
    requires WellFormed(t)
    ensures Truthy(params.tags) && |t.keys| > 0 ==> TableSearchAsWritten(t, params, ext) == Err(TypeError("getFileCache"))
    ensures !Truthy(params.tags) || |t.keys| == 0 ==> TableSearchAsWritten(t, params, ext) == TableSearch(t, cache, params, ext)
  {
    var vals := Values(t);
    var written := InfoTestAsWritten(params.tags);
    TryFilterOk(vals, written);
    if Truthy(params.tags) && |t.keys| > 0 {
      assert vals[0] in vals;
      TryFilterErr(vals, written);
    }
    if !Truthy(params.tags) || |t.keys| == 0 {
      var test := InfoTest(params.tags, cache, ext);
      TryFilterOk(vals, test);
      assert |vals| == |t.keys|;
      forall x | x in vals
        ensures Accepts(written)(x) == Accepts(test)(x)
      {
        assert test(x) == FileMatches(params.tags, cache(x.file), ext);
      }
      FilterExt(vals, Accepts(written), Accepts(test));
    }
  }

  class EventTagsManage {
    /** `app`, set by `init`: here, the `metadataCache` of that `App`, which the file filter reads. */
    var app: Option<MetadataCache>
    /** `tagsMap`, as its keys in insertion order and its entries. */
    var keys: seq<FileId>
    var entries: map<FileId, FileTagInfos>

    function Contents(): Table
      reads this
    {
      Table(keys, entries)
    }

    predicate Valid()
      reads this
    {
      WellFormed(Contents())
    }

    constructor ()
      ensures Valid() && app.None? && Contents() == Table([], map[])
    {
      app := None;
      keys := [];
      entries := map[];
    }

    /** `init(app)`; the refresh it starts is `Refresh`. */
    method Init(cache: MetadataCache)
      modifies this
      ensures app == Some(cache) && Contents() == old(Contents())
    {
      app := Some(cache);
    }

    /** `refresh()` with the files' parsed tables passed in: before `init` nothing happens. */
    method Refresh(timelineEvents: Table)
      requires Valid() && WellFormed(timelineEvents)
      modifies this
      ensures Valid() && app == old(app)
      ensures old(app).None? ==> Contents() == old(Contents())
      ensures old(app).Some? ==> Contents() == timelineEvents
    {
      if app.None? {
        return;
      }
      keys := timelineEvents.keys;
      entries := timelineEvents.entries;
    }

    /**
     * `searchTimelineEvents(params)`: `None` (the source returns nothing)
     * before `init`; otherwise the search of the table.
     */
    method SearchTimelineEvents(params: SearchParams, ext: Externals) returns (r: Option<Result<seq<TimelineEvent>, SelectError>>)
      requires Valid()
      ensures app.None? ==> r.None?
      ensures app.Some? ==> r == Some(TableSearch(Contents(), app.value, params, ext))
    {
      if app.None? {
        return None;
      }
      var t := Contents();
      var vals := Values(t);
      var test := InfoTest(params.tags, app.value, ext);
      var timelineEventsInFiles: seq<FileTagInfos> := [];
      for i := 0 to |keys|
        invariant TryFilter(vals[..i], test) == Ok(timelineEventsInFiles)
      {
        TryFilterStep(vals, i, test);
        var info := entries[keys[i]];
        var keep := FileMatches(params.tags, app.value(info.file), ext);
        if keep.Err? {
          TryFilterPrefixErr(vals, i + 1, test);
          return Some(Err(keep.error));
        }
        if keep.value {
          timelineEventsInFiles := timelineEventsInFiles + [info];
        }
      }
      assert vals[..|keys|] == vals;
      var start := Time.ParseTimelineDate(params.dateStart, '/');
      var end := Time.ParseTimelineDate(params.dateEnd, '/');
      if start.Some? && end.Some? && JsNumber.Gt(start.value, end.value) {
        return Some(Ok([]));
      }
      var res := PushFiltered(EventsOf(timelineEventsInFiles), Forward(params), ext);
      return Some(res);
    }

    /**
     * `updateFileEventTags(aFile)` with the file's parsed table passed in as
     * its pairs: before `init` nothing changes and nothing is returned;
     * otherwise every pair is set and the table is returned.
     */
    method UpdateFileEventTags(timelineEvents: seq<(FileId, FileTagInfos)>) returns (r: Option<Table>)
      requires Valid()
      modifies this
      ensures Valid() && app == old(app)
      ensures old(app).None? ==> r.None? && Contents() == old(Contents())
      ensures old(app).Some? ==> Contents() == SetAll(old(Contents()), timelineEvents) && r == Some(Contents())
    {
      if app.None? {
        return None;
      }
      for i := 0 to |timelineEvents|
        invariant app == old(app)
        invariant WellFormed(old(Contents()))
        invariant Valid() && Contents() == SetAll(old(Contents()), timelineEvents[..i])
      {
        assert timelineEvents[..i + 1][..i] == timelineEvents[..i];
        var (file, info) := timelineEvents[i];
        if file !in entries {
          keys := keys + [file];
        }
        entries := entries[file := info];
      }
      assert timelineEvents[..|timelineEvents|] == timelineEvents;
      return Some(Contents());
    }

    /** `deleteFileEventTags(aFile)`: no `init` needed. */
    method DeleteFileEventTags(file: FileId)
      requires Valid()
      modifies this
      ensures Valid() && app == old(app)
      ensures Contents() == Delete(old(Contents()), file)
    {
      FilterDistinct(keys, (x: FileId) => x != file);
      FilterMembers(keys, (x: FileId) => x != file);
      keys := Filter(keys, (x: FileId) => x != file);
      entries := entries - {file};
    }
  }

  /** The static side of `EventTagsManage`: the lazily created `_inst`. */
  class Registry {
    var inst: Option<EventTagsManage>

    constructor ()
      ensures inst.None?
    {
      inst := None;
    }

    /** `getInstance()`: the first call creates the instance, later calls return it. */
    method GetInstance() returns (m: EventTagsManage)
      modifies this
      ensures old(inst).Some? ==> m == old(inst).value
      ensures old(inst).None? ==> fresh(m) && m.Valid() && m.app.None? && m.Contents() == Table([], map[])
      ensures inst == Some(m)
    {
      if inst.None? {
        var created := new EventTagsManage();
        inst := Some(created);
      }
      return inst.value;
    }

    /** Two calls of `getInstance` return the same instance. */
    method GetInstanceTwice() returns (a: EventTagsManage, b: EventTagsManage)
      modifies this
      ensures a == b && inst == Some(a)
    {
      a := GetInstance();
      b := GetInstance();
    }
  }
}
