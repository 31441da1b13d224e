/**
 * `TimelineSuggestion` of `src/suggestion/timeline-suggestion.ts`: attribute
 * name completion inside an opening `<span class='ob-timelines' …` tag.
 */
module TimelineSuggestion {
  import opened Wrappers
  import opened JsString
  import opened Seqs
  import opened EditorTypes

  /** `Keys`: the attributes a timeline span can carry, in suggestion order. */
  const Keys: seq<string> := ["data-event-tags", "data-date", "data-date-end", "data-date-description", "data-title", "data-name", "data-milestone"]

  predicate IsQuote(c: char) {
    c == '\'' || c == '"'
  }

  /** The characters a regex `.` does not match. */
  predicate IsLineTerminator(c: char) {
    c == '\n' || c == '\r' || c == '\U{2028}' || c == '\U{2029}'
  }

  /** The length of `<span class='ob-timelines'`. */
  const OpeningLength: nat := 26

  /** `<span class=['"]ob-timelines['"]` matches at index `i`. */
  predicate OpeningAt(line: string, i: nat) {
    i + OpeningLength <= |line| &&
    line[i..i + 12] == "<span class=" && IsQuote(line[i + 12]) &&
    line[i + 13..i + 25] == "ob-timelines" && IsQuote(line[i + 25])
  }

  /** The leftmost index from `from` on where the opening matches. */
  function FindOpening(line: string, from: nat): (r: Option<nat>)
    requires from <= |line|
    ensures r.Some? ==> from <= r.value && OpeningAt(line, r.value)
    ensures r.Some? ==> forall i :: from <= i < r.value ==> !OpeningAt(line, i)
    ensures r.None? ==> forall i :: from <= i ==> !OpeningAt(line, i)
    decreases |line| - from
  {
    if OpeningAt(line, from) then Some(from)
    else if from == |line| then None
    else FindOpening(line, from + 1)
  }

  /**
   * A lazy `(.*?)` followed by the rest of a pattern, which matches the text
   * left over when `tail` holds of it: the shortest run, from `n` on, of
   * characters other than line terminators after which the rest matches.
   */
  function LazyDot(rest: string, tail: string -> bool, n: nat): (r: Option<nat>)
    requires n <= |rest|
    ensures r.Some? ==> n <= r.value <= |rest| && tail(rest[r.value..])
    ensures r.Some? ==> forall k :: n <= k < r.value ==> !IsLineTerminator(rest[k]) && !tail(rest[k..])
    decreases |rest| - n
  {
    if tail(rest[n..]) then Some(n)
    else if n < |rest| && !IsLineTerminator(rest[n]) then LazyDot(rest, tail, n + 1)
    else None
  }

  /** A greedy `(.*)` that ends the pattern: the run of characters up to the first line terminator. */
  function GreedyDot(rest: string): (r: string)
    ensures |r| <= |rest| && r == rest[..|r|]
    ensures forall k :: 0 <= k < |r| ==> !IsLineTerminator(r[k])
    ensures |r| < |rest| ==> IsLineTerminator(rest[|r|])
  {
    if |rest| == 0 || IsLineTerminator(rest[0]) then "" else [rest[0]] + GreedyDot(rest[1..])
  }

  /** The end of a pattern: matches whatever is left. */
  function EndOfPattern(): string -> bool {
    (s: string) => true
  }

  /** A `>` comes next. */
  function GtNext(): string -> bool {
    (s: string) => |s| > 0 && s[0] == '>'
  }

  /**
   * `match[1] || ''` of `/<span class=['"]ob-timelines['"](.*?)/`, as
   * written: the lazy group at the very end of the pattern; `None` when
   * there is no match.
   */
  function TriggerCaptureAsWritten(line: string): Option<string> {
    var i := FindOpening(line, 0);
    if i.None? then None
    else
      var rest := line[i.value + OpeningLength..];
      var n := LazyDot(rest, EndOfPattern(), 0);
      Some(if n.Some? then rest[..n.value] else "")
  }

  /** The same with a greedy group: the rest of the line after the opening. */
  function TriggerCapture(line: string): Option<string> {
    var i := FindOpening(line, 0);
    if i.None? then None else Some(GreedyDot(line[i.value + OpeningLength..]))
  }

  /** `match?.[1] || ''` of `/^<span class=['"]ob-timelines['"](.*?)>/`: the attributes up to the first `>`. */
  function SuggestCapture(line: string): string {
    if !OpeningAt(line, 0) then ""
    else
      var rest := line[OpeningLength..];
      var n := LazyDot(rest, GtNext(), 0);
      if n.None? then "" else rest[..n.value]
  }

  /** `item.split('=')[0]` */
  function KeyOf(item: string): string {
    Split(item, '=')[0]
  }

  /** `s.split(' ').filter(item => !!item).map(item => item.split('=')[0]).filter(item => !!item)` */
  function TypedKeys(s: string): seq<string> {
    var items := Filter(Split(s, ' '), NonEmpty);
    Filter(Map(items, KeyOf), NonEmpty)
  }

  /** A key is the text of an item before its first `=`. */
  lemma KeyOfPrefix(item: string)
    ensures KeyOf(item) == if '=' in item then item[..IndexOf(item, '=')] else item
  {
    SplitFirst(item, '=');
  }

  /** The typed keys are the non-empty keys of the non-empty space-separated items. */
  lemma TypedKeysMembers(s: string)
    ensures forall k :: k in TypedKeys(s) <==> k != "" && exists item :: item in Split(s, ' ') && item != "" && KeyOf(item) == k
  {
    var items := Filter(Split(s, ' '), NonEmpty);
    FilterMembers(Split(s, ' '), NonEmpty);
    MapMembers(items, KeyOf);
    FilterMembers(Map(items, KeyOf), NonEmpty);
  }

  /** `remainProperties` once the typed keys are deleted: `Keys` without them, in order. */
  function Remaining(typed: seq<string>): seq<string> {
    Filter(Keys, (k: string) => k !in typed)
  }

  /** `const remainProperties = new Set(Keys); for (k of typed) remainProperties.delete(k)` */
  method RemainProperties(typed: seq<string>) returns (remain: seq<string>)
    ensures remain == Remaining(typed)
  {
    remain := Keys;
    DeleteNone(Keys, typed);
    for i := 0 to |typed|
      invariant remain == Filter(Keys, (k: string) => k !in typed[..i])
    {
      DeleteOne(Keys, typed, i);
      remain := Filter(remain, (x: string) => x != typed[i]);
    }
    assert typed[..|typed|] == typed;
  }

  lemma DeleteNone(s: seq<string>, typed: seq<string>)
    ensures Filter(s, (k: string) => k !in typed[..0]) == s
  {
    FilterAll(s, (k: string) => k !in typed[..0]);
  }

  /** Deleting one more typed key from what is left. */
  lemma DeleteOne(s: seq<string>, typed: seq<string>, i: nat)
    requires i < |typed|
    ensures Filter(Filter(s, (k: string) => k !in typed[..i]), (x: string) => x != typed[i]) ==
      Filter(s, (k: string) => k !in typed[..i + 1])
  {
    assert typed[..i + 1] == typed[..i] + [typed[i]];
    FilterFilter(s, (k: string) => k !in typed[..i], (x: string) => x != typed[i], (k: string) => k !in typed[..i + 1]);
  }

  /** The remaining keys keep `Keys` order and are exactly the keys not typed. */
  lemma RemainingKeys(typed: seq<string>)
    ensures IsSubsequence(Remaining(typed), Keys)
    ensures forall k :: k in Remaining(typed) <==> k in Keys && k !in typed
  {
    FilterIsSubsequence(Keys, (k: string) => k !in typed);
    FilterMembers(Keys, (k: string) => k !in typed);
  }

  /** `getSuggestions(context)` on the line at the trigger's start, before any map to suggestion objects. */
  function SuggestedKeys(line: string, query: string, re: (string, string) -> bool): seq<string> {
    Filter(Remaining(TypedKeys(SuggestCapture(line))), (k: string) => re(query, k))
  }

  method GetSuggestions(line: string, query: string, re: (string, string) -> bool) returns (keys: seq<string>)
    ensures keys == SuggestedKeys(line, query, re)
  {
    var matchedStr := SuggestCapture(line);
    var matchedKeyArr := TypedKeys(matchedStr);
    var remainProperties := RemainProperties(matchedKeyArr);
    keys := Filter(remainProperties, (k: string) => re(query, k));
  }

  /** The suggestions keep `Keys` order and are the untyped keys the query matches. */
  lemma SuggestedKeysMembers(line: string, query: string, re: (string, string) -> bool)
    ensures IsSubsequence(SuggestedKeys(line, query, re), Keys)
    ensures forall k :: k in SuggestedKeys(line, query, re) <==> k in Keys && k !in TypedKeys(SuggestCapture(line)) && re(query, k)
  {
    var typed := TypedKeys(SuggestCapture(line));
    RemainingKeys(typed);
    FilterIsSubsequence(Remaining(typed), (k: string) => re(query, k));
    SubsequenceTrans(SuggestedKeys(line, query, re), Remaining(typed), Keys);
    FilterMembers(Remaining(typed), (k: string) => re(query, k));
  }

  predicate IsWordChar(c: char) {
    'a' <= c <= 'z' || 'A' <= c <= 'Z' || '0' <= c <= '9' || c == '_'
  }

  predicate IsWordOrHyphen(c: char) {
    IsWordChar(c) || c == '-'
  }

  /** The string matches `(?:\w+-?)+`: word characters and single hyphens, starting with a word character. */
  predicate WordHyphenRun(q: string) {
    |q| > 0 && IsWordChar(q[0]) &&
    (forall k :: 0 <= k < |q| ==> IsWordOrHyphen(q[k])) &&
    (forall k :: 0 <= k < |q| - 1 ==> !(q[k] == '-' && q[k + 1] == '-'))
  }

  /** The length of the longest suffix made of word characters and hyphens. */
  function RunLength(pre: string): (n: nat)
    ensures n <= |pre|
    ensures forall k :: |pre| - n <= k < |pre| ==> IsWordOrHyphen(pre[k])
    ensures n < |pre| ==> !IsWordOrHyphen(pre[|pre| - n - 1])
  {
    if |pre| > 0 && IsWordOrHyphen(pre[|pre| - 1]) then 1 + RunLength(pre[..|pre| - 1]) else 0
  }

  /**
   * `charBeforeCursor.match(/['"]\s((?:\w+-?)+)$/)?.[1]`: the group can hold
   * neither a quote nor whitespace, so it is the whole run of word characters
   * and hyphens at the end, when that run matches and follows a quote and a
   * whitespace character.
   */
  function QueryCapture(pre: string): (r: Option<string>)
    ensures r.Some? ==> |r.value| + 2 <= |pre| && pre[|pre| - |r.value|..] == r.value && WordHyphenRun(r.value)
    ensures r.Some? ==> IsWhitespace(pre[|pre| - |r.value| - 1]) && IsQuote(pre[|pre| - |r.value| - 2])
  {
    var n := RunLength(pre);
    var q := pre[|pre| - n..];
    if WordHyphenRun(q) && n + 2 <= |pre| && IsWhitespace(pre[|pre| - n - 1]) && IsQuote(pre[|pre| - n - 2]) then Some(q) else None
  }

  lemma {:induction false} RunLengthOf(x: string, q: string)
    requires forall k :: 0 <= k < |q| ==> IsWordOrHyphen(q[k])
    requires |x| > 0 && !IsWordOrHyphen(x[|x| - 1])
    ensures RunLength(x + q) == |q|
    decreases |q|
  {
    if |q| > 0 {
      assert (x + q)[..|x + q| - 1] == x + q[..|q| - 1];
      RunLengthOf(x, q[..|q| - 1]);
    } else {
      assert x + q == x;
    }
  }

  /** Every text ending in a quote, a whitespace character and a matching run yields that run. */
  lemma QueryCaptureComplete(x: string, quote: char, space: char, q: string)
    requires IsQuote(quote) && IsWhitespace(space) && WordHyphenRun(q)
    ensures QueryCapture(x + [quote, space] + q) == Some(q)
  {
    var pre := x + [quote, space] + q;
    assert !IsWordOrHyphen(space);
    RunLengthOf(x + [quote, space], q);
    assert x + [quote, space] + q == (x + [quote, space]) + q;
    assert pre[|pre| - |q|..] == q;
    assert pre[|pre| - |q| - 1] == space && pre[|pre| - |q| - 2] == quote;
  }

  /** `onTrigger` once the opening's group is captured (`None`: no opening). */
  function TriggerWith(capture: Option<string>, line: string, cursor: Position): Option<TriggerInfo> {
    if capture.None? || '>' in capture.value then None
    else
      var pre := Substring(line, 0, cursor.ch);
      var q := QueryCapture(pre);
      if q.None? then None
      else Some(TriggerInfo(Position(cursor.line, cursor.ch - |q.value|), cursor, q.value))
  }

  /** `onTrigger(cursor, editor)` as written. */
  function OnTriggerAsWritten(line: string, cursor: Position): Option<TriggerInfo> {
    TriggerWith(TriggerCaptureAsWritten(line), line, cursor)
  }

  /** `onTrigger(cursor, editor)` with the rest of the line captured, so that a closed tag stops it. */
  function OnTrigger(line: string, cursor: Position): Option<TriggerInfo> {
    TriggerWith(TriggerCapture(line), line, cursor)
  }

  /** The lazy group at the end of the pattern never captures anything. */
  lemma LazyCaptureEmpty(line: string)
    ensures TriggerCaptureAsWritten(line) == if FindOpening(line, 0).None? then None else Some("")
  {
  }

  /**
   * As written, a `>` after the opening never stops the trigger; with the
   * rest of the line captured it does.
   */
  lemma ClosedTagIgnored(line: string, cursor: Position)
    requires FindOpening(line, 0).Some?
    requires '>' in TriggerCapture(line).value
    requires QueryCapture(Substring(line, 0, cursor.ch)).Some?
    ensures OnTriggerAsWritten(line, cursor).Some?
    ensures OnTrigger(line, cursor).None?
  {
  }

  /** A line that starts with the opening: the opening is found at 0 and the greedy group is the rest of the line. */
  lemma OpeningFirst(quote: char, tail: string)
    requires IsQuote(quote)
    ensures var line := "<span class=" + [quote] + "ob-timelines" + [quote] + tail;
      FindOpening(line, 0) == Some(0) && TriggerCapture(line) == Some(GreedyDot(tail))
  {
    var line := "<span class=" + [quote] + "ob-timelines" + [quote] + tail;
    assert line[..12] == "<span class=";
    assert line[13..25] == "ob-timelines";
    assert line[OpeningLength..] == tail;
  }

  lemma FourWordChars(a: char, b: char, c: char, d: char)
    requires IsWordChar(a) && IsWordChar(b) && IsWordChar(c) && IsWordChar(d)
    ensures WordHyphenRun([a, b, c, d])
  {
    var q := [a, b, c, d];
    assert forall k :: 0 <= k < 4 ==> IsWordChar(q[k]);
  }

  /**
   * The line `<span class='ob-timelines'>x' data` (written in pieces), cursor at its end: the tag
   * is closed, yet the written trigger offers completions for `data`.
   */
  lemma ClosedTagExample(line: string, cursor: Position)
    requires line == "<span class=" + ['\''] + "ob-timelines" + ['\''] + ">x" + ['\'', ' '] + "data"
    requires cursor == Position(0, |line|)
    ensures OnTriggerAsWritten(line, cursor) == Some(TriggerInfo(Position(0, |line| - 4), cursor, "data"))
    ensures OnTrigger(line, cursor).None?
  {
    var opening := "<span class=" + ['\''] + "ob-timelines" + ['\''];
    var tail := ">x" + ['\'', ' '] + "data";
    OpeningFirst('\'', tail);
    assert '>' in GreedyDot(tail);
    assert "data" == ['d', 'a', 't', 'a'];
    FourWordChars('d', 'a', 't', 'a');
    QueryCaptureComplete(opening + ">x", '\'', ' ', "data");
    assert line == (opening + ">x") + ['\'', ' '] + "data";
    assert Substring(line, 0, |line|) == line;
    ClosedTagIgnored(line, cursor);
  }

  /**
   * No opening, no trigger; a trigger is the word the cursor ends, which
   * follows a quote and a space, from `cursor.ch - |query|` to the cursor.
   */
  lemma TriggerMeaning(line: string, cursor: Position)
    ensures FindOpening(line, 0).None? ==> OnTrigger(line, cursor).None? && OnTriggerAsWritten(line, cursor).None?
    ensures OnTrigger(line, cursor).Some? ==> var info := OnTrigger(line, cursor).value;
      info.start == Position(cursor.line, cursor.ch - |info.query|) && info.end == cursor &&
      WordHyphenRun(info.query) &&
      (cursor.ch <= |line| ==> line[cursor.ch - |info.query|..cursor.ch] == info.query)
  {
    if OnTrigger(line, cursor).Some? && cursor.ch <= |line| {
      var pre := Substring(line, 0, cursor.ch);
      assert pre == line[..cursor.ch];
    }
  }

  /** The edit returned by `selectSuggestion` and the cursor it sets. */
  datatype Selection = Selection(edit: Edit, cursor: Position)

  /** `selectSuggestion(value)`: insert `key=''` and put the cursor `|key| + 2` columns after the start. */
  function SelectSuggestion(key: string, context: TriggerInfo): (r: Selection)
    ensures r.edit.from == context.start && r.edit.to == context.end
    ensures r.cursor == Position(context.end.line, context.start.ch + |key| + 2)
  {
    Selection(Replace(key + "=''", context.start, context.end), Position(context.end.line, context.start.ch + |key| + 2))
  }

  /** The cursor lands between the two quotes of the inserted `key=''`. */
  lemma CursorBetweenQuotes(key: string, context: TriggerInfo)
    ensures var r := SelectSuggestion(key, context);
      var off := r.cursor.ch - context.start.ch;
      0 <= off <= |r.edit.text| && r.edit.text[..off] == key + "='" && r.edit.text[off..] == "'"
  {
    var t := key + "=''";
    assert t[..|key| + 2] == key + "='";
    assert t[|key| + 2..] == "'";
  }
}
