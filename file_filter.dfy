/**
 * `filterFileByTags` of `src/apis/filter/filter-file-by-tags.ts`: a file
 * passes when a tag selector holds on its tags and all their ancestors.
 */
module FileFilter {
  import opened Wrappers
  import opened JsString
  import opened SelectTree
  import opened SelectExp
  import opened ParentChildrenTag

  /** `e.slice(1, e.length)`: a tag without its leading `#`. */
  function DropHash(e: string): string {
    if |e| == 0 then "" else e[1..]
  }

  /** `getAllTags(cached).map(e => e.slice(1, e.length))` */
  function Stripped(tags: seq<string>): (r: seq<string>)
    ensures |r| == |tags| && forall i :: 0 <= i < |tags| ==> r[i] == DropHash(tags[i])
  {
    seq(|tags|, i requires 0 <= i < |tags| => DropHash(tags[i]))
  }

  /** The tag string the selector is applied to: every expanded file tag, joined with `;`. */
  function FileTagString(allTags: seq<string>): string {
    Join(ExpandedTags(Stripped(allTags)), ';')
  }

  /**
   * `filterFileByTags(file, metadataCache, tagSelector)`. `allTags` is what
   * `getAllTags` returns for the file's cache entry, `None` when the file has
   * no cache entry or the entry has no tag list.
   */
  function FileMatches(tagSelector: Option<string>, allTags: Option<seq<string>>, ext: Externals): Result<bool, SelectError> {
    if !Truthy(tagSelector) then Ok(true)
    else if allTags.None? || |allTags.value| == 0 then Ok(false)
    else FirstTest(tagSelector.value, ext, FileTagString(allTags.value))
  }

  /** `filterFileByTags(file, metadataCache, tagSelector)`, with its selector object and tag loop. */
  method FilterFileByTags(tagSelector: Option<string>, allTags: Option<seq<string>>, ext: Externals) returns (r: Result<bool, SelectError>)
    ensures r == FileMatches(tagSelector, allTags, ext)
  {
    if !Truthy(tagSelector) {
      return Ok(true);
    }
    var exp := new StringSelectExp(tagSelector.value, ext);
    if allTags.Some? {
      var tags := Stripped(allTags.value);
      if |tags| > 0 {
        var filetags := CollectTags(tags);
        r := exp.Test(Join(filetags, ';'));
        return;
      }
    }
    return Ok(false);
  }

  /**
   * Without a selector every file passes; with one, a file without tags
   * fails, and this without the selector being parsed, so even a malformed
   * selector does not throw for it.
   */
  lemma UntaggedFiles(tagSelector: Option<string>, allTags: Option<seq<string>>, ext: Externals)
    ensures !Truthy(tagSelector) ==> FileMatches(tagSelector, allTags, ext) == Ok(true)
    ensures Truthy(tagSelector) && (allTags.None? || |allTags.value| == 0) ==> FileMatches(tagSelector, allTags, ext) == Ok(false)
    ensures FileMatches(tagSelector, allTags, ext).Err? ==>
      Truthy(tagSelector) && allTags.Some? && |allTags.value| > 0 &&
      FirstTest(tagSelector.value, ext, FileTagString(allTags.value)).Err?
  {
  }

  /**
   * With `minimatch` exact on plain patterns, a one-tag selector `a` accepts
   * exactly the files with a tag that is `a` or has `a` as an ancestor (`#hello/i`
   * passes `hello`): the parent tags are listed out, so "some tag matches" is
   * the parent-child test.
   */
  lemma {:induction false} TagSelectsFile(tagSelector: Option<string>, allTags: Option<seq<string>>, a: string, ext: Externals)
    requires Truthy(tagSelector) && Build(ext.parse(tagSelector.value)) == Ok(Identifier(a))
    requires a != "" && Plain(a) && LiteralGlob(ext.minimatch)
    requires allTags.Some? && |allTags.value| > 0
    requires forall t :: t in ExpandedTags(Stripped(allTags.value)) ==> ';' !in t
    ensures FileMatches(tagSelector, allTags, ext) ==
      Ok(exists i :: 0 <= i < |allTags.value| && ExpandsTo(DropHash(allTags.value[i]), a))
  {
    var tags := allTags.value;
    var s := Stripped(tags);
    var e := ExpandedTags(s);
    PlainPatternIsMembership(a, FileTagString(tags), ext.minimatch);
    ExpandedTagsMembers(s);
    if |e| == 0 {
      assert Split(FileTagString(tags), ';') == [""];
      assert a !in e;
    } else {
      SplitJoin(e, ';');
    }
    assert (a in e) == exists i :: 0 <= i < |s| && ExpandsTo(s[i], a);
  }
}
