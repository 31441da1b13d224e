/**
 * `TagSuggestions` of `src/suggestion/tag-suggestion.ts`: tag completion
 * inside the `data-event-tags='…'` attribute of a timeline span, one
 * `;`-separated piece at a time.
 */
module TagSuggestion {
  import opened Wrappers
  import opened JsString
  import opened EditorTypes
  import MarkdownBlockTagSuggestion

  /** `triggerPrefix`: the text from the matched whitespace to the opening quote. */
  const TriggerPrefix: string := " data-event-tags="

  /**
   * A match of `/\sdata-event-tags=['"]([^]*?)['"]/` on the line: the index
   * of its first character and its captured group (the regex engine is not
   * part of this model).
   */
  datatype RegexMatch = RegexMatch(index: nat, capture: string)

  /** The offset of piece `i` in `tags.join(';')`: the lengths of the pieces before it, each plus one for its `;`. */
  function SpanStart(tags: seq<string>, i: nat): nat
    requires i <= |tags|
  {
    if i == 0 then 0 else |tags[0]| + 1 + SpanStart(tags[1..], i - 1)
  }

  lemma {:induction false} SpanStartStep(tags: seq<string>, i: nat)
    requires i < |tags|
    ensures SpanStart(tags, i + 1) == SpanStart(tags, i) + |tags[i]| + 1
    decreases i
  {
    if i > 0 {
      SpanStartStep(tags[1..], i - 1);
    }
  }

  /** Piece `i` spans, ends included, the cursor offset `off`. */
  predicate Covers(tags: seq<string>, i: nat, off: int)
    requires i < |tags|
  {
    SpanStart(tags, i) <= off <= SpanStart(tags, i) + |tags[i]|
  }

  /** The first piece from `i` on that spans the offset. */
  function Locate(tags: seq<string>, off: int, i: nat): (r: Option<nat>)
    requires i <= |tags|
    ensures r.Some? ==> i <= r.value < |tags| && Covers(tags, r.value, off)
    ensures r.Some? ==> forall j :: i <= j < r.value ==> !Covers(tags, j, off)
    ensures r.None? ==> forall j :: i <= j < |tags| ==> !Covers(tags, j, off)
    decreases |tags| - i
  {
    if i == |tags| then None
    else if Covers(tags, i, off) then Some(i)
    else Locate(tags, off, i + 1)
  }

  /** `Locate` finds the first piece from `start` on that spans the offset. */
  lemma {:induction false} LocateFirst(tags: seq<string>, off: int, start: nat, i: nat)
    requires start <= i < |tags| && Covers(tags, i, off)
    requires forall j :: start <= j < i ==> !Covers(tags, j, off)
    ensures Locate(tags, off, start) == Some(i)
    decreases i - start
  {
    if start < i {
      LocateFirst(tags, off, start + 1, i);
    }
  }

  /** `cursorOffset`: the cursor's column counted from the first character after the opening quote. */
  function CursorOffset(m: RegexMatch, cursor: Position): int {
    cursor.ch - 1 - (m.index + |TriggerPrefix|)
  }

  /** What `onTrigger` returns once the attribute is found. */
  function TriggerFor(m: RegexMatch, cursor: Position): Option<TriggerInfo> {
    var eventTagsStartIndex := m.index + |TriggerPrefix|;
    var tags := Split(m.capture, ';');
    var piece := Locate(tags, CursorOffset(m, cursor), 0);
    if piece.None? || |tags[piece.value]| == 0 then None
    else
      var start := eventTagsStartIndex + 1 + SpanStart(tags, piece.value);
      Some(TriggerInfo(Position(cursor.line, start), Position(cursor.line, start + |tags[piece.value]|), tags[piece.value]))
  }

  /** `onTrigger(cursor, editor)`, the attribute match passed in (`None`: no match). */
  method OnTrigger(found: Option<RegexMatch>, cursor: Position) returns (r: Option<TriggerInfo>)
    ensures found.None? ==> r.None?
    ensures found.Some? ==> r == TriggerFor(found.value, cursor)
  {
    if found.None? {
      return None;
    }
    var eventTagsStartIndex := found.value.index + |TriggerPrefix|;
    var tags := Split(found.value.capture, ';');
    var start := 0;
    var length := 0;
    var query := "";
    var cursorOffset := cursor.ch - 1 - eventTagsStartIndex;
    var sumOffset := 0;
    var index := 0;
    ghost var hit := false;
    while index < |tags|
      invariant index <= |tags|
      invariant index < |tags| ==> sumOffset == SpanStart(tags, index)
      invariant forall j :: 0 <= j < index ==> !Covers(tags, j, cursorOffset)
      invariant start == 0 && length == 0 && query == ""
    {
      var nextTagLength := |tags[index]|;
      var nextOffset := nextTagLength + sumOffset;
      if cursorOffset >= sumOffset && cursorOffset <= nextOffset {
        length := nextTagLength;
        start := sumOffset;
        query := tags[index];
        hit := true;
        break;
      } else {
        SpanStartStep(tags, index);
        sumOffset := sumOffset + nextTagLength;
        if index < |tags| - 1 {
          sumOffset := sumOffset + 1;
        }
      }
      index := index + 1;
    }
    if hit {
      LocateFirst(tags, cursorOffset, 0, index);
    } else {
      assert NoPieceCovers(tags, cursorOffset);
    }
    if length == 0 {
      return None;
    }
    r := Some(TriggerInfo(Position(cursor.line, eventTagsStartIndex + 1 + start), Position(cursor.line, eventTagsStartIndex + 1 + start + length), query));
  }

  /**
   * On success the query is the first piece that spans the cursor, it is not
   * empty, it starts `SpanStart` characters after the opening quote, the
   * range is exactly as long as the query, and the cursor lies in it.
   */
  lemma TriggerShape(m: RegexMatch, cursor: Position)
    requires TriggerFor(m, cursor).Some?
    ensures var tags := Split(m.capture, ';');
      var info := TriggerFor(m, cursor).value;
      var i := Locate(tags, CursorOffset(m, cursor), 0).value;
      info.query == tags[i] && info.query != "" &&
      info.start.ch == m.index + |TriggerPrefix| + 1 + SpanStart(tags, i) &&
      info.end.ch - info.start.ch == |info.query| &&
      info.start.ch <= cursor.ch <= info.end.ch
  {
  }

  /** No piece spans the offset. */
  predicate NoPieceCovers(tags: seq<string>, off: int) {
    forall j :: 0 <= j < |tags| ==> !Covers(tags, j, off)
  }

  /** No piece spans the cursor: no trigger. */
  lemma NoTrigger(m: RegexMatch, cursor: Position)
    requires NoPieceCovers(Split(m.capture, ';'), CursorOffset(m, cursor))
    ensures TriggerFor(m, cursor).None?
  {
  }

  /** Piece `i` sits at offset `SpanStart(parts, i)` of the joined parts. */
  lemma {:induction false} PieceAt(parts: seq<string>, i: nat, sep: char)
    requires i < |parts|
    ensures SpanStart(parts, i) + |parts[i]| <= |Join(parts, sep)|
    ensures Join(parts, sep)[SpanStart(parts, i)..SpanStart(parts, i) + |parts[i]|] == parts[i]
    decreases i
  {
    var j := Join(parts, sep);
    if |parts| > 1 {
      assert j == parts[0] + [sep] + Join(parts[1..], sep);
      if i > 0 {
        PieceAt(parts[1..], i - 1, sep);
        var off := |parts[0]| + 1;
        assert j[off..] == Join(parts[1..], sep);
      }
    }
  }

  /** Piece `i` of the capture sits at offset `SpanStart` of the capture. */
  lemma PieceOfCapture(capture: string, i: nat)
    requires i < |Split(capture, ';')|
    ensures var tags := Split(capture, ';');
      SpanStart(tags, i) + |tags[i]| <= |capture| &&
      capture[SpanStart(tags, i)..SpanStart(tags, i) + |tags[i]|] == tags[i]
  {
    PieceAt(Split(capture, ';'), i, ';');
    JoinSplit(capture, ';');
  }

  lemma SliceOfSlice(line: string, base: nat, c: string, a: nat, b: nat)
    requires base + |c| <= |line| && line[base..base + |c|] == c
    requires a <= b <= |c|
    ensures line[base + a..base + b] == c[a..b]
  {
    forall k | 0 <= k < b - a
      ensures line[base + a..base + b][k] == c[a..b][k]
    {
      assert line[base + a + k] == line[base..base + |c|][a + k];
    }
  }

  /**
   * The query is the capture's text at the computed range: with the capture
   * in the line right after the opening quote, the range of the line from
   * start to end is the query.
   */
  lemma QueryIsLineText(line: string, m: RegexMatch, cursor: Position)
    requires TriggerFor(m, cursor).Some?
    requires m.index + |TriggerPrefix| + 1 + |m.capture| <= |line|
    requires line[m.index + |TriggerPrefix| + 1..m.index + |TriggerPrefix| + 1 + |m.capture|] == m.capture
    ensures TriggerFor(m, cursor).value.end.ch <= |line|
    ensures line[TriggerFor(m, cursor).value.start.ch..TriggerFor(m, cursor).value.end.ch] == TriggerFor(m, cursor).value.query
  {
    var tags := Split(m.capture, ';');
    var i := Locate(tags, CursorOffset(m, cursor), 0).value;
    PieceOfCapture(m.capture, i);
    SliceOfSlice(line, m.index + |TriggerPrefix| + 1, m.capture, SpanStart(tags, i), SpanStart(tags, i) + |tags[i]|);
  }

  /** `selectSuggestion(value)`: the tag, its leading `#` removed and a `;` appended, replaces the range. */
  function SelectSuggestion(tagName: string, context: TriggerInfo): (e: Edit)
    ensures e.from == context.start && e.to == context.end
    ensures |e.text| > 0 && e.text[|e.text| - 1] == ';'
    ensures |tagName| > 0 && tagName[0] == '#' ==> "#" + e.text == tagName + ";"
    ensures !(|tagName| > 0 && tagName[0] == '#') ==> e.text == tagName + ";"
  {
    Replace(MarkdownBlockTagSuggestion.StripHash(tagName) + ";", context.start, context.end)
  }
}
