/**
 * `parseMarkdownCode` of `src/utils.ts`: the `key=value` lines of a timeline
 * code block, read into an object of parameters.
 */
module MarkdownCode {
  import opened Wrappers
  import opened JsString

  /**
   * What one line contributes: for a trimmed, non-blank line whose text
   * after the first `=` (up to a second `=`) is non-empty, the text before
   * the first `=` as key and that segment, trimmed, as value.
   */
  function ParseLine(e: string): Option<(string, string)> {
    var t := Trim(e);
    if t == "" then None
    else
      var param := Split(t, '=');
      if |param| > 1 && param[1] != "" then Some((param[0], Trim(param[1]))) else None
  }

  /** The value segment of the text after the first `=`: up to a second `=`, if any. */
  function Segment(rest: string): string {
    if '=' in rest then rest[..IndexOf(rest, '=')] else rest
  }

  /** The object after the callback has run on each line's contribution, in order. */
  function Collect(ps: seq<Option<(string, string)>>): map<string, string>
    decreases |ps|
  {
    if |ps| == 0 then map[]
    else
      var m := Collect(ps[..|ps| - 1]);
      match ps[|ps| - 1]
      case None => m
      case Some(kv) => m[kv.0 := kv.1]
  }

  function Parsed(lines: seq<string>): (ps: seq<Option<(string, string)>>)
    ensures |ps| == |lines|
  {
    seq(|lines|, i requires 0 <= i < |lines| => ParseLine(lines[i]))
  }

  /** `parseMarkdownCode(source)` as a value: the contributions of its lines. */
  function Args(lines: seq<string>): map<string, string> {
    Collect(Parsed(lines))
  }

  /** `parseMarkdownCode(source)` */
  method ParseMarkdownCode(source: string) returns (sourceArgs: map<string, string>)
    ensures sourceArgs == Args(Split(source, '\n'))
  {
    var lines := Split(source, '\n');
    sourceArgs := map[];
    for i := 0 to |lines|
      invariant sourceArgs == Args(lines[..i])
    {
      ArgsStep(lines, i);
      var e := Trim(lines[i]);
      if e != "" {
        var param := Split(e, '=');
        if |param| > 1 && param[1] != "" {
          sourceArgs := sourceArgs[param[0] := Trim(param[1])];
        }
      }
    }
    assert lines[..|lines|] == lines;
  }

  /** One line more: its contribution, if any, is stored over the object so far. */
  lemma ArgsStep(lines: seq<string>, i: nat)
    requires i < |lines|
    ensures Args(lines[..i + 1]) == match ParseLine(lines[i])
      case None => Args(lines[..i])
      case Some(kv) => Args(lines[..i])[kv.0 := kv.1]
  {
    var ps := Parsed(lines[..i + 1]);
    assert ps[..i] == Parsed(lines[..i]);
    assert ps[i] == ParseLine(lines[i]);
  }

  /**
   * A line counts iff, once trimmed, it holds an `=` followed by a non-empty
   * run up to the next `=` (or the end); its key is the trimmed line before
   * the first `=`, not trimmed again, and its value that run, trimmed. Blank
   * lines and lines without `=` contribute nothing; a run of spaces stores
   * the empty value.
   */
  lemma LineMeaning(e: string)
    ensures IndexOf(Trim(e), '=') < 0 ==> ParseLine(e).None?
    ensures var t := Trim(e);
      var i := IndexOf(t, '=');
      i >= 0 ==> ParseLine(e) == if Segment(t[i + 1..]) != "" then Some((t[..i], Trim(Segment(t[i + 1..])))) else None
  {
    SplitOnEquals(Trim(e));
  }

  /** The first two pieces of `t.split('=')`, when there are two. */
  lemma SplitOnEquals(t: string)
    ensures var i := IndexOf(t, '=');
      var param := Split(t, '=');
      (i < 0 ==> |param| == 1) &&
      (i >= 0 ==> |param| > 1 && param[0] == t[..i] && param[1] == Segment(t[i + 1..]))
  {
    var i := IndexOf(t, '=');
    if i >= 0 {
      var rest := t[i + 1..];
      SplitRest(t, '=');
      SplitFirst(rest, '=');
    } else {
      SplitFirst(t, '=');
    }
  }

  /** The keys of the object are exactly the keys some contribution sets. */
  lemma {:induction false} CollectKeys(ps: seq<Option<(string, string)>>)
    ensures forall k :: k in Collect(ps) <==> exists j :: 0 <= j < |ps| && ps[j].Some? && ps[j].value.0 == k
    decreases |ps|
  {
    if |ps| > 0 {
      var init := ps[..|ps| - 1];
      CollectKeys(init);
      forall k
        ensures k in Collect(ps) <==> exists j :: 0 <= j < |ps| && ps[j].Some? && ps[j].value.0 == k
      {
        if exists j :: 0 <= j < |ps| && ps[j].Some? && ps[j].value.0 == k {
          var j :| 0 <= j < |ps| && ps[j].Some? && ps[j].value.0 == k;
          if j < |init| {
            assert init[j] == ps[j];
          }
        }
        if exists j :: 0 <= j < |init| && init[j].Some? && init[j].value.0 == k {
          var j :| 0 <= j < |init| && init[j].Some? && init[j].value.0 == k;
          assert ps[j] == init[j];
        }
      }
    }
  }

  /** A key holds the value of the last contribution that sets it. */
  lemma {:induction false} CollectLast(ps: seq<Option<(string, string)>>, j: nat, k: string)
    requires j < |ps| && ps[j].Some? && ps[j].value.0 == k
    requires forall j' :: j < j' < |ps| ==> ps[j'].None? || ps[j'].value.0 != k
    ensures k in Collect(ps) && Collect(ps)[k] == ps[j].value.1
    decreases |ps|
  {
    if j < |ps| - 1 {
      var init := ps[..|ps| - 1];
      assert init[j] == ps[j];
      CollectLast(init, j, k);
    }
  }

  /** The line sets key `k`. */
  predicate SetsKey(line: string, k: string) {
    ParseLine(line).Some? && ParseLine(line).value.0 == k
  }

  /** The keys of the object are exactly the keys some line sets. */
  lemma ArgsKeys(lines: seq<string>)
    ensures forall k :: k in Args(lines) <==> exists j :: 0 <= j < |lines| && SetsKey(lines[j], k)
  {
    var ps := Parsed(lines);
    CollectKeys(ps);
    assert forall j :: 0 <= j < |lines| ==> ps[j] == ParseLine(lines[j]);
  }

  /** A key holds the value of the last line that sets it: later lines overwrite earlier ones. */
  lemma ArgsLast(lines: seq<string>, j: nat, k: string)
    requires j < |lines| && SetsKey(lines[j], k)
    requires forall j' :: j < j' < |lines| ==> !SetsKey(lines[j'], k)
    ensures k in Args(lines) && Args(lines)[k] == ParseLine(lines[j]).value.1
  {
    var ps := Parsed(lines);
    assert forall j' :: 0 <= j' < |lines| ==> ps[j'] == ParseLine(lines[j']);
    CollectLast(ps, j, k);
  }

  /** `tags =x` stores the key `tags `, with its space: the key is not trimmed. */
  lemma SpacedKey()
    ensures ParseLine("tags =x") == Some(("tags ", "x"))
  {
    TrimNoop("tags =x");
    assert Join(["tags ", "x"], '=') == "tags =x";
    SplitJoin(["tags ", "x"], '=');
    TrimNoop("x");
  }

  /** `k=   ` is trimmed to `k=` first, so its empty value stores nothing. */
  lemma TrailingSpaces()
    ensures ParseLine("k=   ") == None
  {
    var s := "k=   ";
    assert TrimStart(s) == s;
    assert SkipWhitespaceBack(s, 2) == 2;
    assert SkipWhitespaceBack(s, 5) == SkipWhitespaceBack(s, 4) == SkipWhitespaceBack(s, 3) == 2;
    assert TrimEnd(s) == "k=";
    assert Join(["k", ""], '=') == "k=";
    SplitJoin(["k", ""], '=');
  }

  /** `k=  =x` stores `k` with the empty value: the spaces up to the second `=` count, and are trimmed. */
  lemma SpacesBeforeSecondEquals()
    ensures ParseLine("k=  =x") == Some(("k", ""))
  {
    TrimNoop("k=  =x");
    assert Join(["k", "  ", "x"], '=') == "k=  =x";
    SplitJoin(["k", "  ", "x"], '=');
    assert TrimStart("  ") == "";
  }

  /** In `a=b=c` the text after the second `=` is dropped. */
  lemma SecondEqualsDropsRest()
    ensures ParseLine("a=b=c") == Some(("a", "b"))
  {
    TrimNoop("a=b=c");
    assert Join(["a", "b", "c"], '=') == "a=b=c";
    SplitJoin(["a", "b", "c"], '=');
    TrimNoop("b");
  }
}
