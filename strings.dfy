/**
 * The few `String.prototype` operations the timeline core relies on, with the
 * JavaScript semantics it depends on: `split` on a one-character separator,
 * `join`, `trim`, `indexOf`/`lastIndexOf`, `replace` of the first occurrence,
 * `padStart` and the clamping, swapping `substring`.
 */
module JsString {
  import opened Wrappers

  /** ECMAScript WhiteSpace and LineTerminator code points, removed by `trim`. */
  predicate IsWhitespace(c: char) {
    c == '\t' || c == '\n' || c == '\U{000B}' || c == '\U{000C}' || c == '\r' || c == ' ' ||
    c == '\U{00A0}' || c == '\U{1680}' || ('\U{2000}' <= c <= '\U{200A}') ||
    c == '\U{2028}' || c == '\U{2029}' || c == '\U{202F}' || c == '\U{205F}' ||
    c == '\U{3000}' || c == '\U{FEFF}'
  }

  /** The position of the first non-whitespace character at or after `i` (or `|s|`). */
  function SkipWhitespace(s: string, i: nat): (n: nat)
    requires i <= |s|
    ensures i <= n <= |s|
    ensures forall k :: i <= k < n ==> IsWhitespace(s[k])
    ensures n < |s| ==> !IsWhitespace(s[n])
    decreases |s| - i
  {
    if i < |s| && IsWhitespace(s[i]) then SkipWhitespace(s, i + 1) else i
  }

  /** The position just after the last non-whitespace character before `j` (or 0). */
  function SkipWhitespaceBack(s: string, j: nat): (n: nat)
    requires j <= |s|
    ensures n <= j
    ensures forall k :: n <= k < j ==> IsWhitespace(s[k])
    ensures n > 0 ==> !IsWhitespace(s[n - 1])
  {
    if j > 0 && IsWhitespace(s[j - 1]) then SkipWhitespaceBack(s, j - 1) else j
  }

  /** `s.trimStart()` */
  function TrimStart(s: string): (r: string)
    ensures |r| <= |s| && r == s[|s| - |r|..]
    ensures forall k :: 0 <= k < |s| - |r| ==> IsWhitespace(s[k])
    ensures |r| > 0 ==> !IsWhitespace(r[0])
  {
    s[SkipWhitespace(s, 0)..]
  }

  /** `s.trimEnd()` */
  function TrimEnd(s: string): (r: string)
    ensures |r| <= |s| && r == s[..|r|]
    ensures forall k :: |r| <= k < |s| ==> IsWhitespace(s[k])
    ensures |r| > 0 ==> !IsWhitespace(r[|r| - 1])
  {
    s[..SkipWhitespaceBack(s, |s|)]
  }

  /** `s.trim()` */
  function Trim(s: string): string {
    TrimEnd(TrimStart(s))
  }

  /** `trim` removes exactly a whitespace prefix (of length `|s| - |TrimStart(s)|`) and a whitespace suffix. */
  lemma TrimShape(s: string)
    ensures var i := |s| - |TrimStart(s)|; var r := Trim(s);
      i + |r| <= |s| && r == s[i..i + |r|] &&
      (forall k :: 0 <= k < i ==> IsWhitespace(s[k])) &&
      (forall k :: i + |r| <= k < |s| ==> IsWhitespace(s[k])) &&
      (|r| > 0 ==> !IsWhitespace(r[0]) && !IsWhitespace(r[|r| - 1]))
  {
    TrimSlice(s);
    TrimTail(s);
  }

  lemma TrimSlice(s: string)
    ensures var i := |s| - |TrimStart(s)|; var r := Trim(s);
      i + |r| <= |s| && r == s[i..i + |r|]
  {
    var t := TrimStart(s);
    SliceOfSuffix(s, t, TrimEnd(t), |s| - |t|);
  }

  lemma SliceOfSuffix<T>(s: seq<T>, t: seq<T>, r: seq<T>, i: nat)
    requires i <= |s| && t == s[i..] && |r| <= |t| && r == t[..|r|]
    ensures i + |r| <= |s| && r == s[i..i + |r|]
  {
  }

  lemma TrimTail(s: string)
    ensures var i := |s| - |TrimStart(s)|; var r := Trim(s);
      forall k :: i + |r| <= k < |s| ==> IsWhitespace(s[k])
  {
    var t := TrimStart(s);
    var r := TrimEnd(t);
    var i := |s| - |t|;
    assert t == s[i..];
    forall k | i + |r| <= k < |s|
      ensures IsWhitespace(s[k])
    {
      assert s[k] == t[k - i];
    }
  }

  /** A string without whitespace at either end is its own trim. */
  lemma TrimNoop(s: string)
    requires |s| > 0 ==> !IsWhitespace(s[0]) && !IsWhitespace(s[|s| - 1])
    ensures Trim(s) == s
  {
    assert SkipWhitespace(s, 0) == 0;
    assert TrimStart(s) == s;
    assert SkipWhitespaceBack(s, |s|) == |s|;
  }

  predicate NoWhitespace(s: string) {
    forall k :: 0 <= k < |s| ==> !IsWhitespace(s[k])
  }

  lemma TrimNone(s: string)
    requires NoWhitespace(s)
    ensures Trim(s) == s
  {
    TrimNoop(s);
  }

  /** `!!s`: a string is truthy when it is not empty. */
  predicate NonEmpty(s: string) {
    s != ""
  }

  /** `s.split(sep)` for a one-character separator. */
  function Split(s: string, sep: char): (r: seq<string>)
    ensures |r| >= 1
    decreases |s|
  {
    if |s| == 0 then [""]
    else
      var rest := Split(s[1..], sep);
      if s[0] == sep then [""] + rest
      else [[s[0]] + rest[0]] + rest[1..]
  }

  /** `parts.join(sep)`; the join of no parts is the empty string. */
  function Join(parts: seq<string>, sep: char): string
    decreases |parts|
  {
    if |parts| == 0 then ""
    else if |parts| == 1 then parts[0]
    else parts[0] + [sep] + Join(parts[1..], sep)
  }

  /** A property of every character of the parts and of the separator holds of every character of the join. */
  lemma {:induction false} JoinChars(parts: seq<string>, sep: char, p: char -> bool)
    requires p(sep)
    requires forall i, k :: 0 <= i < |parts| && 0 <= k < |parts[i]| ==> p(parts[i][k])
    ensures forall k :: 0 <= k < |Join(parts, sep)| ==> p(Join(parts, sep)[k])
    decreases |parts|
  {
    if |parts| > 1 {
      JoinChars(parts[1..], sep, p);
      var j := Join(parts, sep);
      var a := parts[0] + [sep];
      assert j == a + Join(parts[1..], sep);
      forall k | 0 <= k < |j| ensures p(j[k]) {
        if k < |parts[0]| {
          assert j[k] == parts[0][k];
        } else if k == |parts[0]| {
          assert j[k] == sep;
        } else {
          assert j[k] == Join(parts[1..], sep)[k - |a|];
        }
      }
    }
  }

  /** Joining two non-empty lists of parts puts one separator between their joins. */
  lemma {:induction false} JoinAppend(a: seq<string>, b: seq<string>, sep: char)
    requires |a| > 0 && |b| > 0
    ensures Join(a + b, sep) == Join(a, sep) + [sep] + Join(b, sep)
    decreases |a|
  {
    if |a| > 1 {
      assert (a + b)[1..] == a[1..] + b;
      JoinAppend(a[1..], b, sep);
    } else {
      assert (a + b)[1..] == b;
    }
  }

  /** Number of occurrences of `c` in `s`. */
  function Count(s: string, c: char): nat {
    if |s| == 0 then 0 else (if s[0] == c then 1 else 0) + Count(s[1..], c)
  }

  lemma {:induction false} CountZero(s: string, c: char)
    ensures Count(s, c) == 0 <==> c !in s
  {
    if |s| > 0 {
      CountZero(s[1..], c);
      assert s == [s[0]] + s[1..];
    }
  }

  /** No piece of a split contains the separator, and there is one piece more than separators. */
  lemma {:induction false} SplitPieces(s: string, sep: char)
    ensures forall i :: 0 <= i < |Split(s, sep)| ==> sep !in Split(s, sep)[i]
    ensures |Split(s, sep)| == Count(s, sep) + 1
    decreases |s|
  {
    if |s| > 0 {
      SplitPieces(s[1..], sep);
    }
  }

  /** Joining the pieces of a split gives back the string. */
  lemma {:induction false} JoinSplit(s: string, sep: char)
    ensures Join(Split(s, sep), sep) == s
    decreases |s|
  {
    if |s| > 0 {
      var rest := Split(s[1..], sep);
      JoinSplit(s[1..], sep);
      if s[0] == sep {
        assert Split(s, sep)[1..] == rest;
      } else if |rest| > 1 {
        assert Split(s, sep)[1..] == rest[1..];
      }
    }
  }

  /** A separator-free prefix followed by the separator splits off as one piece. */
  lemma {:induction false} SplitCons(a: string, sep: char, b: string)
    requires sep !in a
    ensures Split(a + [sep] + b, sep) == [a] + Split(b, sep)
    decreases |a|
  {
    if |a| == 0 {
      assert a + [sep] + b == [sep] + b;
      assert ([sep] + b)[1..] == b;
    } else {
      assert (a + [sep] + b)[1..] == a[1..] + [sep] + b;
      SplitCons(a[1..], sep, b);
      assert [a[0]] + a[1..] == a;
    }
  }

  /** A separator-free string is its own single piece. */
  lemma {:induction false} SplitNoSep(a: string, sep: char)
    requires sep !in a
    ensures Split(a, sep) == [a]
    decreases |a|
  {
    if |a| > 0 {
      SplitNoSep(a[1..], sep);
      assert [a[0]] + a[1..] == a;
    }
  }

  /** Splitting a join of separator-free parts gives back the parts. */
  lemma {:induction false} SplitJoin(parts: seq<string>, sep: char)
    requires |parts| >= 1
    requires forall i :: 0 <= i < |parts| ==> sep !in parts[i]
    ensures Split(Join(parts, sep), sep) == parts
    decreases |parts|
  {
    if |parts| == 1 {
      SplitNoSep(parts[0], sep);
    } else {
      SplitJoin(parts[1..], sep);
      SplitCons(parts[0], sep, Join(parts[1..], sep));
      assert [parts[0]] + parts[1..] == parts;
    }
  }

  /** A separator between two strings splits them apart. */
  lemma {:induction false} SplitAppend(a: string, sep: char, b: string)
    ensures Split(a + [sep] + b, sep) == Split(a, sep) + Split(b, sep)
    decreases |a|
  {
    var x := a + [sep] + b;
    if |a| == 0 {
      assert x[0] == sep && x[1..] == b;
    } else {
      var t := a[1..];
      assert x[0] == a[0] && x[1..] == t + [sep] + b;
      SplitAppend(t, sep, b);
      PiecesAppend(a[0], sep, Split(t, sep), Split(b, sep));
    }
  }

  /** Adding a character in front of the pieces of a split, before or after appending more pieces. */
  lemma PiecesAppend(c: char, sep: char, ra: seq<string>, rb: seq<string>)
    requires |ra| >= 1
    ensures (if c == sep then [""] + (ra + rb) else [[c] + (ra + rb)[0]] + (ra + rb)[1..]) ==
      (if c == sep then [""] + ra else [[c] + ra[0]] + ra[1..]) + rb
  {
    if c != sep {
      assert (ra + rb)[0] == ra[0];
      assert (ra + rb)[1..] == ra[1..] + rb;
    }
  }

  lemma NotInConcat(prefix: string, x: string, c: char)
    requires c !in prefix && c !in x
    ensures c !in prefix + x
  {
  }

  /** `s.indexOf(c)` */
  function IndexOf(s: string, c: char): (r: int)
    ensures -1 <= r < |s|
    ensures r == -1 <==> c !in s
    ensures r >= 0 ==> s[r] == c && c !in s[..r]
  {
    if |s| == 0 then -1
    else if s[0] == c then 0
    else
      var k := IndexOf(s[1..], c);
      if k == -1 then -1 else k + 1
  }

  /** `s.lastIndexOf(c)` */
  function LastIndexOf(s: string, c: char): (r: int)
    ensures -1 <= r < |s|
    ensures r == -1 <==> c !in s
    ensures r >= 0 ==> s[r] == c && c !in s[r + 1..]
  {
    if |s| == 0 then -1
    else if s[|s| - 1] == c then |s| - 1
    else
      var init := s[..|s| - 1];
      var r := LastIndexOf(init, c);
      assert s == init + [s[|s| - 1]];
      assert r >= 0 ==> s[r + 1..] == init[r + 1..] + [s[|s| - 1]];
      r
  }

  /** The first piece of a split is the text before the first separator. */
  lemma {:induction false} SplitFirst(s: string, sep: char)
    ensures sep in s ==> Split(s, sep)[0] == s[..IndexOf(s, sep)]
    ensures sep !in s ==> Split(s, sep) == [s]
    decreases |s|
  {
    if sep !in s {
      SplitNoSep(s, sep);
    } else {
      var i := IndexOf(s, sep);
      assert s == s[..i] + [sep] + s[i + 1..];
      SplitCons(s[..i], sep, s[i + 1..]);
    }
  }

  /** The text after the first separator splits into the remaining pieces. */
  lemma {:induction false} SplitRest(s: string, sep: char)
    requires sep in s
    ensures Split(s, sep) == [s[..IndexOf(s, sep)]] + Split(s[IndexOf(s, sep) + 1..], sep)
    decreases |s|
  {
    if s[0] != sep {
      var t := s[1..];
      assert sep in t by {
        var k :| 0 <= k < |s| && s[k] == sep;
        assert t[k - 1] == sep;
      }
      SplitRest(t, sep);
      var j := IndexOf(t, sep);
      assert IndexOf(s, sep) == j + 1;
      assert [s[0]] + t[..j] == s[..j + 1];
      assert t[j + 1..] == s[j + 2..];
    }
  }

  /** `s.replace(c, '')` with a one-character pattern: drops the first occurrence only. */
  function ReplaceFirst(s: string, c: char): (r: string)
    ensures c !in s ==> r == s
    ensures c in s ==> |r| == |s| - 1 && r == s[..IndexOf(s, c)] + s[IndexOf(s, c) + 1..]
  {
    if c in s then
      var i := IndexOf(s, c);
      s[..i] + s[i + 1..]
    else s
  }

  /** `s.padStart(n, fill)` with a one-character fill. */
  function PadStart(s: string, n: nat, fill: char): (r: string)
    ensures |r| == if |s| >= n then |s| else n
  {
    if |s| >= n then s else seq(n - |s|, _ => fill) + s
  }

  /** Padding puts copies of the fill character in front of the string. */
  lemma PadStartShape(s: string, n: nat, fill: char)
    ensures var r := PadStart(s, n, fill);
      r == r[..|r| - |s|] + s && forall k :: 0 <= k < |r| - |s| ==> r[k] == fill
  {
  }

  function Clamp(i: int, n: nat): (r: nat)
    ensures r <= n
  {
    if i < 0 then 0 else if i > n then n else i
  }

  /**
   * `s.substring(a, b)`: both indices are clamped to `[0, |s|]` and swapped when
   * the first is the larger.
   */
  function Substring(s: string, a: int, b: int): string {
    var lo := Clamp(a, |s|);
    var hi := Clamp(b, |s|);
    if lo <= hi then s[lo..hi] else s[hi..lo]
  }

  /** Within bounds `substring` is slicing. */
  lemma SubstringSlice(s: string, a: int, b: int)
    requires 0 <= a <= b <= |s|
    ensures Substring(s, a, b) == s[a..b]
  {
  }

  /** `s.charAt(i)`: `None` stands for the empty string returned out of range. */
  function CharAt(s: string, i: int): Option<char> {
    if 0 <= i < |s| then Some(s[i]) else None
  }
}
