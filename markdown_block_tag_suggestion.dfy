/**
 * `MarkdownBlockTagSuggestion` of
 * `src/suggestion/markdown-block-tag-suggestion.ts`: tag completion on the
 * `tags=` and `eventTags=` lines of a timeline code block.
 */
module MarkdownBlockTagSuggestion {
  import opened Wrappers
  import opened JsString
  import opened Seqs
  import opened TimelineEvents
  import opened EditorTypes
  import opened SearchTimeline
  import opened EventTagsManage

  /** `blackList`: the characters that end a tag being typed. */
  predicate Blacklisted(c: char) {
    c == '&' || c == '|' || c == '!' || c == '(' || c == ')' || c == ' ' || c == '='
  }

  /** `blackList.includes(line.charAt(i))`; out of range `charAt` gives `''`, which is not listed. */
  predicate BlockedAt(line: string, i: int) {
    var c := CharAt(line, i);
    c.Some? && Blacklisted(c.value)
  }

  /** `\s*=` at the start of `s`. */
  predicate EqualsAfterSpaces(s: string) {
    var t := TrimStart(s);
    |t| > 0 && t[0] == '='
  }

  /** `line.match(/^(?:tags|eventTags)\s*=\s*(.*)/)` succeeds. */
  predicate IsTagsLine(line: string) {
    (|line| >= 4 && line[..4] == "tags" && EqualsAfterSpaces(line[4..])) ||
    (|line| >= 9 && line[..9] == "eventTags" && EqualsAfterSpaces(line[9..]))
  }

  /** The first loop of `onTrigger`: walk left from the cursor while the previous character is not blacklisted. */
  method TokenStart(line: string, ch: nat) returns (start: nat)
    ensures start <= ch && (ch >= 1 ==> start >= 1)
    ensures start > 1 ==> BlockedAt(line, start - 1)
    ensures forall k :: start <= k < ch ==> !BlockedAt(line, k)
  {
    start := ch;
    while start > 1 && !BlockedAt(line, start - 1)
      invariant start <= ch && (ch >= 1 ==> start >= 1)
      invariant forall k :: start <= k < ch ==> !BlockedAt(line, k)
    {
      start := start - 1;
    }
  }

  /** The second loop of `onTrigger`: walk right from the cursor up to a blacklisted character or the end of the line. */
  method TokenEnd(line: string, ch: nat) returns (end: nat)
    ensures ch <= end
    ensures ch <= |line| ==> end <= |line|
    ensures end < |line| ==> BlockedAt(line, end)
    ensures forall k :: ch <= k < end ==> !BlockedAt(line, k)
  {
    end := ch;
    while !BlockedAt(line, end) && end < |line|
      invariant ch <= end && (ch <= |line| ==> end <= |line|)
      invariant forall k :: ch <= k < end ==> !BlockedAt(line, k)
    {
      end := end + 1;
    }
  }

  /**
   * `onTrigger(cursor, editor)` on line `line`: on a tags line, the run of
   * characters around the cursor that holds no blacklisted character, never
   * reaching back to column 0.
   */
  method OnTrigger(line: string, cursor: Position) returns (r: Option<TriggerInfo>)
    ensures r.None? <==> !IsTagsLine(line)
    ensures r.Some? ==> r.value.start.line == cursor.line && r.value.end.line == cursor.line
    ensures r.Some? ==> r.value.start.ch <= cursor.ch <= r.value.end.ch
    ensures r.Some? && cursor.ch >= 1 ==> r.value.start.ch >= 1
    ensures r.Some? && cursor.ch <= |line| ==> r.value.end.ch <= |line|
    ensures r.Some? && r.value.start.ch > 1 ==> BlockedAt(line, r.value.start.ch - 1)
    ensures r.Some? && r.value.end.ch < |line| ==> BlockedAt(line, r.value.end.ch)
    ensures r.Some? ==> forall k :: r.value.start.ch <= k < r.value.end.ch ==> !BlockedAt(line, k)
    ensures r.Some? ==> r.value.query == Substring(line, r.value.start.ch, r.value.end.ch)
  {
    if !IsTagsLine(line) {
      return None;
    }
    var start := TokenStart(line, cursor.ch);
    var end := TokenEnd(line, cursor.ch);
    r := Some(TriggerInfo(Position(cursor.line, start), Position(cursor.line, end), Substring(line, start, end)));
  }

  /** With the cursor on the line, the query is the text between start and end, and holds no blacklisted character. */
  lemma QueryIsToken(line: string, info: TriggerInfo)
    requires info.start.ch <= info.end.ch <= |line|
    requires forall k :: info.start.ch <= k < info.end.ch ==> !BlockedAt(line, k)
    requires info.query == Substring(line, info.start.ch, info.end.ch)
    ensures info.query == line[info.start.ch..info.end.ch]
    ensures forall k :: 0 <= k < |info.query| ==> !Blacklisted(info.query[k])
  {
    assert forall k :: 0 <= k < |info.query| ==> info.query[k] == line[info.start.ch + k] && !BlockedAt(line, info.start.ch + k);
  }

  /** `getFileCache(file)?.tags || []` mapped to `.tag`: a file's own tags, `#` included. */
  type FileTags = FileId -> seq<string>

  /** `subject.match(new RegExp(pattern))` succeeds: the foreign regex engine. */
  type RegexTest = (string, string) -> bool

  /** The tags one file offers: its events' parsed tags, then its own tags. */
  function FileCandidates(info: FileTagInfos, fileTags: FileTags): seq<string> {
    var evs := info.eventTags;
    Flatten(seq(|evs|, j requires 0 <= j < |evs| => evs[j].parsedEventTags.GetOr([]))) + fileTags(info.file)
  }

  /** `for (x of xs) if (keep(x)) tagSet.add(x)`, the set as its elements in insertion order. */
  function AddMatching(tagSet: seq<string>, xs: seq<string>, keep: string -> bool): seq<string>
    decreases |xs|
  {
    if |xs| == 0 then tagSet
    else
      var s := AddMatching(tagSet, xs[..|xs| - 1], keep);
      var x := xs[|xs| - 1];
      if keep(x) && x !in s then s + [x] else s
  }

  /** The matching tags of the files, in order. */
  function AddFiles(tagSet: seq<string>, infos: seq<FileTagInfos>, fileTags: FileTags, keep: string -> bool): seq<string>
    decreases |infos|
  {
    if |infos| == 0 then tagSet
    else AddMatching(AddFiles(tagSet, infos[..|infos| - 1], fileTags, keep), FileCandidates(infos[|infos| - 1], fileTags), keep)
  }

  function Matches(query: string, re: RegexTest): string -> bool {
    (x: string) => re(query, x)
  }

  /** `getSuggestions(context)` over the table's values: nothing for an empty query. */
  function Suggestions(infos: seq<FileTagInfos>, fileTags: FileTags, query: string, re: RegexTest): seq<string> {
    if query == "" then [] else AddFiles([], infos, fileTags, Matches(query, re))
  }

  method AddMatchingTags(tagSet: seq<string>, xs: seq<string>, keep: string -> bool) returns (r: seq<string>)
    ensures r == AddMatching(tagSet, xs, keep)
  {
    r := tagSet;
    for k := 0 to |xs|
      invariant r == AddMatching(tagSet, xs[..k], keep)
    {
      assert xs[..k + 1][..k] == xs[..k];
      if keep(xs[k]) && xs[k] !in r {
        r := r + [xs[k]];
      }
    }
    assert xs[..|xs|] == xs;
  }

  /** `getSuggestions(context)`, the tag table's values and the files' own tags passed in. */
  method GetSuggestions(infos: seq<FileTagInfos>, fileTags: FileTags, query: string, re: RegexTest) returns (tagArr: seq<string>)
    ensures tagArr == Suggestions(infos, fileTags, query, re)
  {
    if query == "" {
      return [];
    }
    var keep := Matches(query, re);
    tagArr := [];
    for i := 0 to |infos|
      invariant tagArr == AddFiles([], infos[..i], fileTags, keep)
    {
      assert infos[..i + 1][..i] == infos[..i];
      var before := tagArr;
      var evs := infos[i].eventTags;
      var lists := seq(|evs|, j requires 0 <= j < |evs| => evs[j].parsedEventTags.GetOr([]));
      for j := 0 to |evs|
        invariant tagArr == AddMatching(before, Flatten(lists[..j]), keep)
      {
        assert lists[..j + 1][..j] == lists[..j];
        AddMatchingAppend(before, Flatten(lists[..j]), lists[j], keep);
        tagArr := AddMatchingTags(tagArr, evs[j].parsedEventTags.GetOr([]), keep);
      }
      assert lists[..|evs|] == lists;
      AddMatchingAppend(before, Flatten(lists), fileTags(infos[i].file), keep);
      tagArr := AddMatchingTags(tagArr, fileTags(infos[i].file), keep);
    }
    assert infos[..|infos|] == infos;
  }

  /** Adding two runs of tags is adding their concatenation. */
  lemma {:induction false} AddMatchingAppend(tagSet: seq<string>, xs: seq<string>, ys: seq<string>, keep: string -> bool)
    ensures AddMatching(AddMatching(tagSet, xs, keep), ys, keep) == AddMatching(tagSet, xs + ys, keep)
    decreases |ys|
  {
    if |ys| == 0 {
      assert xs + ys == xs;
    } else {
      var zs := xs + ys;
      assert zs[..|zs| - 1] == xs + ys[..|ys| - 1];
      AddMatchingAppend(tagSet, xs, ys[..|ys| - 1], keep);
    }
  }

  /** The set gains exactly the kept elements, each once. */
  lemma {:induction false} AddMatchingMembers(tagSet: seq<string>, xs: seq<string>, keep: string -> bool)
    requires Distinct(tagSet)
    ensures Distinct(AddMatching(tagSet, xs, keep))
    ensures forall x :: x in AddMatching(tagSet, xs, keep) <==> x in tagSet || (x in xs && keep(x))
    decreases |xs|
  {
    if |xs| > 0 {
      AddMatchingMembers(tagSet, xs[..|xs| - 1], keep);
      assert xs == xs[..|xs| - 1] + [xs[|xs| - 1]];
    }
  }

  lemma {:induction false} AddFilesMembers(tagSet: seq<string>, infos: seq<FileTagInfos>, fileTags: FileTags, keep: string -> bool)
    requires Distinct(tagSet)
    ensures Distinct(AddFiles(tagSet, infos, fileTags, keep))
    ensures forall x :: x in AddFiles(tagSet, infos, fileTags, keep) <==>
      x in tagSet || (keep(x) && exists i :: 0 <= i < |infos| && x in FileCandidates(infos[i], fileTags))
    decreases |infos|
  {
    if |infos| > 0 {
      var init := infos[..|infos| - 1];
      AddFilesMembers(tagSet, init, fileTags, keep);
      AddMatchingMembers(AddFiles(tagSet, init, fileTags, keep), FileCandidates(infos[|infos| - 1], fileTags), keep);
      forall x
        ensures x in AddFiles(tagSet, infos, fileTags, keep) <==>
          x in tagSet || (keep(x) && exists i :: 0 <= i < |infos| && x in FileCandidates(infos[i], fileTags))
      {
        if exists i :: 0 <= i < |infos| && x in FileCandidates(infos[i], fileTags) {
          var i :| 0 <= i < |infos| && x in FileCandidates(infos[i], fileTags);
          if i < |init| {
            assert init[i] == infos[i];
          }
        }
        if exists i :: 0 <= i < |init| && x in FileCandidates(init[i], fileTags) {
          var i :| 0 <= i < |init| && x in FileCandidates(init[i], fileTags);
          assert infos[i] == init[i];
        }
      }
    }
  }

  /**
   * An empty query suggests nothing; otherwise the suggestions are, each
   * once, the tags some file offers that match the query.
   */
  lemma SuggestionsMembers(infos: seq<FileTagInfos>, fileTags: FileTags, query: string, re: RegexTest)
    ensures query == "" ==> Suggestions(infos, fileTags, query, re) == []
    ensures Distinct(Suggestions(infos, fileTags, query, re))
    ensures query != "" ==> forall x :: x in Suggestions(infos, fileTags, query, re) <==>
      re(query, x) && exists i :: 0 <= i < |infos| && x in FileCandidates(infos[i], fileTags)
  {
    if query != "" {
      AddFilesMembers([], infos, fileTags, Matches(query, re));
    }
  }

  /** The text inserted for a suggested tag: one leading `#` removed. */
  function StripHash(tagName: string): (r: string)
    ensures |tagName| > 0 && tagName[0] == '#' ==> "#" + r == tagName
    ensures !(|tagName| > 0 && tagName[0] == '#') ==> r == tagName
  {
    if |tagName| > 0 && tagName[0] == '#' then tagName[1..] else tagName
  }

  /** `selectSuggestion(value)`: the tag, its leading `#` removed, replaces the range being typed. */
  function SelectSuggestion(tagName: string, context: TriggerInfo): (e: Edit)
    ensures e.from == context.start && e.to == context.end
    ensures |tagName| > 0 && tagName[0] == '#' ==> "#" + e.text == tagName
    ensures !(|tagName| > 0 && tagName[0] == '#') ==> e.text == tagName
  {
    Replace(StripHash(tagName), context.start, context.end)
  }
}
