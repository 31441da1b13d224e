/**
 * Hierarchical tags (`src/apis/filter/parse-parent-children-tag.ts`): the tag
 * `hello/i/am` stands also for its ancestors `hello/i` and `hello`.
 */
module ParentChildrenTag {
  import opened Wrappers
  import opened JsString
  import opened Seqs

  /** The tag followed by its ancestors, each one the previous cut at its last `/`. */
  function Chain(t: string): seq<string>
    decreases |t|
  {
    if '/' in t then [t] + Chain(t[..LastIndexOf(t, '/')]) else [t]
  }

  /** `a` is a prefix of `b`. */
  predicate IsPrefix(a: string, b: string) {
    |a| <= |b| && b[..|a|] == a
  }

  /** `a` is `t` itself or the part of `t` before one of its `/`s. */
  predicate Ancestor(a: string, t: string) {
    IsPrefix(a, t) && (|a| == |t| || t[|a|] == '/')
  }

  /** The chain has one entry more than the tag has `/`s, starts with the tag and ends in a `/`-free entry. */
  lemma {:induction false} ChainShape(t: string)
    ensures |Chain(t)| == Count(t, '/') + 1
    ensures Chain(t)[0] == t
    ensures '/' !in Chain(t)[|Chain(t)| - 1]
    ensures forall i :: 0 <= i < |Chain(t)| - 1 ==>
      '/' in Chain(t)[i] && Chain(t)[i + 1] == Chain(t)[i][..LastIndexOf(Chain(t)[i], '/')]
    decreases |t|
  {
    if '/' in t {
      var i := LastIndexOf(t, '/');
      var p := t[..i];
      ChainShape(p);
      CountCut(t, i);
      assert forall k :: 1 <= k < |Chain(t)| ==> Chain(t)[k] == Chain(p)[k - 1];
    } else {
      CountZero(t, '/');
    }
  }

  /** Cutting at the last `/` removes exactly one `/`. */
  lemma CountCut(t: string, i: int)
    requires 0 <= i < |t| && t[i] == '/' && '/' !in t[i + 1..]
    ensures Count(t, '/') == Count(t[..i], '/') + 1
  {
    assert t == t[..i] + ([t[i]] + t[i + 1..]);
    CountAppend(t[..i], [t[i]] + t[i + 1..], '/');
    CountZero(t[i + 1..], '/');
    assert ([t[i]] + t[i + 1..])[1..] == t[i + 1..];
  }

  lemma {:induction false} CountAppend(a: string, b: string, c: char)
    ensures Count(a + b, c) == Count(a, c) + Count(b, c)
    decreases |a|
  {
    if |a| > 0 {
      assert (a + b)[1..] == a[1..] + b;
      CountAppend(a[1..], b, c);
    } else {
      assert a + b == b;
    }
  }

  /** The chain holds exactly the ancestors of the tag, the tag included. */
  lemma {:induction false} ChainMembers(t: string)
    ensures forall a :: a in Chain(t) <==> Ancestor(a, t)
    decreases |t|
  {
    if '/' in t {
      var i := LastIndexOf(t, '/');
      var p := t[..i];
      ChainMembers(p);
      forall a
        ensures a in Chain(t) <==> Ancestor(a, t)
      {
        if a == t {
        } else if Ancestor(a, p) {
          assert t[..|a|] == p[..|a|];
          if |a| < |p| {
            assert t[|a|] == p[|a|];
          }
        } else if Ancestor(a, t) {
          assert |a| <= i;
          assert p[..|a|] == t[..|a|];
          if |a| < |p| {
            assert p[|a|] == t[|a|];
          }
          assert Ancestor(a, p);
        }
      }
    } else {
      forall a
        ensures a in Chain(t) <==> Ancestor(a, t)
      {
        assert t[..|t|] == t;
      }
    }
  }

  /** `parseTag(tag, tagList)`: the returned list is the caller's list after the pushes. */
  method ParseTag(tag: string, tagList: seq<string>) returns (r: seq<string>)
    ensures Trim(tag) == "" ==> r == tagList
    ensures Trim(tag) != "" ==> r == tagList + Chain(Trim(tag))
  {
    var t := Trim(tag);
    if |t| == 0 {
      return tagList;
    }
    ghost var chain := Chain(t);
    r := tagList + [t];
    while '/' in t
      invariant r + Chain(t)[1..] == tagList + chain
      decreases |t|
    {
      var i := LastIndexOf(t, '/');
      SubstringSlice(t, 0, i);
      ChainStep(t);
      var rest := Chain(t[..i])[1..];
      assert r + ([t[..i]] + rest) == r + [t[..i]] + rest;
      t := Substring(t, 0, i);
      r := r + [t];
    }
  }

  /** Past its first entry, the chain of a tag with a `/` is the chain of its parent. */
  lemma ChainStep(t: string)
    requires '/' in t
    ensures Chain(t)[1..] == [t[..LastIndexOf(t, '/')]] + Chain(t[..LastIndexOf(t, '/')])[1..]
  {
    var p := t[..LastIndexOf(t, '/')];
    assert Chain(t)[1..] == Chain(p);
    assert Chain(p) == [p] + Chain(p)[1..];
  }

  /** One entry of `parseTagWithParentInfo`: the last segment, the whole tag, and its parent. */
  datatype TagWithParentInfo = TagWithParentInfo(tag: string, fullTag: string, parent: Option<string>)

  /** The entry pushed for one tag of the chain. */
  function Entry(a: string): TagWithParentInfo {
    if '/' in a then
      var i := LastIndexOf(a, '/');
      TagWithParentInfo(a[i + 1..], a, Some(a[..i]))
    else TagWithParentInfo(a, a, None)
  }

  /**
   * An entry is its full tag split at the last `/` into a parent and a
   * `/`-free last segment; a tag without `/` is a root with no parent.
   */
  lemma EntryShape(a: string)
    ensures Entry(a).fullTag == a && '/' !in Entry(a).tag
    ensures '/' in a ==> Entry(a).parent == Some(a[..LastIndexOf(a, '/')]) && a == Entry(a).parent.value + "/" + Entry(a).tag
    ensures '/' !in a ==> Entry(a).parent.None? && Entry(a).tag == a
  {
    if '/' in a {
      var i := LastIndexOf(a, '/');
      assert a == a[..i] + "/" + a[i + 1..];
    }
  }

  /** The entries of `parseTagWithParentInfo`: one per tag of the chain. */
  function WithParents(t: string): (r: seq<TagWithParentInfo>)
    ensures |r| == |Chain(t)|
  {
    seq(|Chain(t)|, k requires 0 <= k < |Chain(t)| => Entry(Chain(t)[k]))
  }

  lemma WithParentsUnfold(t: string)
    requires '/' in t
    ensures WithParents(t) == [Entry(t)] + WithParents(t[..LastIndexOf(t, '/')])
  {
    var p := t[..LastIndexOf(t, '/')];
    var c := Chain(t);
    var w := WithParents(t);
    var wp := WithParents(p);
    assert c == [t] + Chain(p);
    assert w[0] == Entry(t);
    forall k | 1 <= k < |w|
      ensures w[k] == wp[k - 1]
    {
      assert c[k] == Chain(p)[k - 1];
    }
    assert w == [Entry(t)] + wp;
  }

  lemma WithParentsRoot(t: string)
    requires '/' !in t
    ensures WithParents(t) == [TagWithParentInfo(t, t, None)]
  {
  }

  /** The `i`-th entry describes the `i`-th tag of the chain. */
  lemma WithParentsFullTags(t: string)
    ensures forall i :: 0 <= i < |WithParents(t)| ==> WithParents(t)[i].fullTag == Chain(t)[i]
  {
    forall i | 0 <= i < |Chain(t)|
      ensures Entry(Chain(t)[i]).fullTag == Chain(t)[i]
    {
      EntryShape(Chain(t)[i]);
    }
  }

  /**
   * Every entry but the last is its parent plus `/` plus a `/`-free last
   * segment, and its parent is the next entry's full tag; the last entry, the
   * root, has no parent and is its own tag.
   */
  lemma WithParentsLinks(t: string)
    ensures forall i :: 0 <= i < |WithParents(t)| - 1 ==>
      var e := WithParents(t)[i];
      e.parent.Some? && e.fullTag == e.parent.value + "/" + e.tag && '/' !in e.tag &&
      WithParents(t)[i + 1].fullTag == e.parent.value
    ensures var e := WithParents(t)[|WithParents(t)| - 1]; e.parent.None? && e.tag == e.fullTag
  {
    var c := Chain(t);
    var w := WithParents(t);
    ChainShape(t);
    forall i | 0 <= i < |w| - 1
      ensures w[i].parent.Some? && w[i].fullTag == w[i].parent.value + "/" + w[i].tag && '/' !in w[i].tag
      ensures w[i + 1].fullTag == w[i].parent.value
    {
      EntryShape(c[i]);
      EntryShape(c[i + 1]);
      assert w[i] == Entry(c[i]) && w[i + 1] == Entry(c[i + 1]);
    }
    EntryShape(c[|c| - 1]);
  }

  /** `parseTagWithParentInfo(tag)` */
  method ParseTagWithParentInfo(tag: string) returns (result: seq<TagWithParentInfo>)
    ensures Trim(tag) == "" ==> result == []
    ensures Trim(tag) != "" ==> result == WithParents(Trim(tag))
  {
    result := [];
    var t := Trim(tag);
    if |t| == 0 {
      return result;
    }
    while '/' in t
      invariant result + WithParents(t) == WithParents(Trim(tag))
      decreases |t|
    {
      var index := LastIndexOf(t, '/');
      SubstringSlice(t, index + 1, |t|);
      SubstringSlice(t, 0, index);
      var selfTag := Substring(t, index + 1, |t|);
      var parentTag := Substring(t, 0, index);
      assert Entry(t) == TagWithParentInfo(selfTag, t, Some(parentTag));
      WithParentsUnfold(t);
      assert result + [Entry(t)] + WithParents(parentTag) == result + WithParents(t);
      result := result + [TagWithParentInfo(selfTag, t, Some(parentTag))];
      t := parentTag;
    }
    WithParentsRoot(t);
    result := result + [TagWithParentInfo(t, t, None)];
  }

  /** `hello/i/am` stands for `hello/i/am`, `hello/i` and `hello`. */
  lemma HelloIAm()
    ensures Chain("hello/i/am") == ["hello/i/am", "hello/i", "hello"]
  {
    assert LastIndexOf("hello/i/am", '/') == 7;
    assert "hello/i/am"[..7] == "hello/i";
    assert LastIndexOf("hello/i", '/') == 5;
    assert "hello/i"[..5] == "hello";
    assert '/' !in "hello";
  }

  /** What `parseTag(tag, [])` collects for one tag. */
  function Expansion(tag: string): seq<string> {
    if Trim(tag) == "" then [] else Chain(Trim(tag))
  }

  /** The expansions of the tags one after the other. */
  function ExpandedTags(tags: seq<string>): seq<string>
    decreases |tags|
  {
    if |tags| == 0 then [] else ExpandedTags(tags[..|tags| - 1]) + Expansion(tags[|tags| - 1])
  }

  /** `x` is what `parseTag` collects for the tag `t`: `t` trimmed, or one of its ancestors. */
  predicate ExpandsTo(t: string, x: string) {
    Trim(t) != "" && Ancestor(x, Trim(t))
  }

  lemma ExpansionMembers(t: string)
    ensures forall x :: x in Expansion(t) <==> ExpandsTo(t, x)
  {
    if Trim(t) != "" {
      ChainMembers(Trim(t));
    }
  }

  /**
   * The expanded tags are exactly the non-blank tags, trimmed, and each of
   * their ancestors: an event tagged `a/b/c` also carries `a/b` and `a`.
   */
  lemma {:induction false} ExpandedTagsMembers(tags: seq<string>)
    ensures forall x :: x in ExpandedTags(tags) <==> exists i :: 0 <= i < |tags| && ExpandsTo(tags[i], x)
    decreases |tags|
  {
    if |tags| > 0 {
      var init := tags[..|tags| - 1];
      var last := tags[|tags| - 1];
      ExpandedTagsMembers(init);
      ExpansionMembers(last);
      assert ExpandedTags(tags) == ExpandedTags(init) + Expansion(last);
      forall x
        ensures x in ExpandedTags(tags) <==> exists i :: 0 <= i < |tags| && ExpandsTo(tags[i], x)
      {
        ExistsSplit(tags, init, t => ExpandsTo(t, x));
      }
    }
  }

  lemma ExpandedStep(tags: seq<string>, i: nat)
    requires i < |tags|
    ensures ExpandedTags(tags[..i + 1]) == ExpandedTags(tags[..i]) + Expansion(tags[i])
  {
    assert tags[..i + 1][..i] == tags[..i];
  }

  /** `tags.forEach(tag => parseTag(tag, filetags))` on an empty `filetags`. */
  method CollectTags(tags: seq<string>) returns (filetags: seq<string>)
    ensures filetags == ExpandedTags(tags)
  {
    filetags := [];
    for i := 0 to |tags|
      invariant filetags == ExpandedTags(tags[..i])
    {
      filetags := ParseTag(tags[i], filetags);
      ExpandedStep(tags, i);
    }
    assert tags[..|tags|] == tags;
  }
}
