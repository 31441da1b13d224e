/**
 * `Array.prototype.filter` with a plain predicate and with a callback that may
 * throw, and what "the result is a subsequence of the input" means.
 */
module Seqs {
  import opened Wrappers

  /** `s.filter(p)` */
  function Filter<T>(s: seq<T>, p: T -> bool): (r: seq<T>)
    ensures |r| <= |s|
    ensures forall i :: 0 <= i < |r| ==> r[i] in s && p(r[i])
    decreases |s|
  {
    if |s| == 0 then []
    else
      var init := Filter(s[..|s| - 1], p);
      if p(s[|s| - 1]) then init + [s[|s| - 1]] else init
  }

  /** The filter keeps exactly the elements that satisfy the predicate. */
  lemma {:induction false} FilterMembers<T>(s: seq<T>, p: T -> bool)
    ensures forall x :: x in Filter(s, p) <==> x in s && p(x)
    decreases |s|
  {
    if |s| > 0 {
      var init := s[..|s| - 1];
      FilterMembers(init, p);
      assert s == init + [s[|s| - 1]];
    }
  }

  /** `idx` lists, in increasing order, the positions of `b` that make up `a`. */
  ghost predicate EmbeddedAt<T>(a: seq<T>, b: seq<T>, idx: seq<nat>) {
    |idx| == |a| &&
    (forall i :: 0 <= i < |idx| ==> idx[i] < |b| && a[i] == b[idx[i]]) &&
    (forall i, j :: 0 <= i < j < |idx| ==> idx[i] < idx[j])
  }

  /** `a` is `b` with some elements deleted and the rest in their original order. */
  ghost predicate IsSubsequence<T>(a: seq<T>, b: seq<T>) {
    exists idx :: EmbeddedAt(a, b, idx)
  }

  /** The positions that `Filter` keeps. */
  function KeptPositions<T>(s: seq<T>, p: T -> bool): (idx: seq<nat>)
    ensures EmbeddedAt(Filter(s, p), s, idx)
    decreases |s|
  {
    if |s| == 0 then []
    else
      var init := KeptPositions(s[..|s| - 1], p);
      if p(s[|s| - 1]) then init + [|s| - 1] else init
  }

  /** Filtering keeps order and adds nothing. */
  lemma FilterIsSubsequence<T>(s: seq<T>, p: T -> bool)
    ensures IsSubsequence(Filter(s, p), s)
  {
    var idx := KeptPositions(s, p);
  }

  lemma SubsequenceRefl<T>(s: seq<T>)
    ensures IsSubsequence(s, s)
  {
    var idx := seq(|s|, i => i);
    assert EmbeddedAt(s, s, idx);
  }

  /** Being a subsequence is transitive. */
  lemma SubsequenceTrans<T>(a: seq<T>, b: seq<T>, c: seq<T>)
    requires IsSubsequence(a, b) && IsSubsequence(b, c)
    ensures IsSubsequence(a, c)
  {
    var f :| EmbeddedAt(a, b, f);
    var g :| EmbeddedAt(b, c, g);
    var h := seq(|f|, i requires 0 <= i < |f| => g[f[i]]);
    assert EmbeddedAt(a, c, h);
  }

  /** Filters with predicates that agree on the elements give the same result. */
  lemma {:induction false} FilterExt<T>(s: seq<T>, p: T -> bool, q: T -> bool)
    requires forall x :: x in s ==> p(x) == q(x)
    ensures Filter(s, p) == Filter(s, q)
    decreases |s|
  {
    if |s| > 0 {
      FilterExt(s[..|s| - 1], p, q);
    }
  }

  /** Filtering twice is filtering once by the conjunction. */
  lemma {:induction false} FilterFilter<T>(s: seq<T>, p: T -> bool, q: T -> bool, pq: T -> bool)
    requires forall x :: pq(x) == (p(x) && q(x))
    ensures Filter(Filter(s, p), q) == Filter(s, pq)
    decreases |s|
  {
    if |s| > 0 {
      var init := s[..|s| - 1];
      FilterFilter(init, p, q, pq);
      if p(s[|s| - 1]) {
        var f := Filter(init, p) + [s[|s| - 1]];
        assert f[..|f| - 1] == Filter(init, p);
      }
    }
  }

  lemma {:induction false} FilterAll<T>(s: seq<T>, p: T -> bool)
    requires forall x :: x in s ==> p(x)
    ensures Filter(s, p) == s
    decreases |s|
  {
    if |s| > 0 {
      FilterAll(s[..|s| - 1], p);
    }
  }

  /** A filter that no element passes is empty. */
  lemma {:induction false} FilterNone<T>(s: seq<T>, p: T -> bool)
    requires forall x :: x in s ==> !p(x)
    ensures Filter(s, p) == []
    decreases |s|
  {
    if |s| > 0 {
      FilterNone(s[..|s| - 1], p);
      assert s[|s| - 1] in s;
    }
  }

  /**
   * `s.filter(p)` where the callback `p` may throw: the first element (in order)
   * whose callback throws aborts the whole filter.
   */
  function TryFilter<T, E>(s: seq<T>, p: T -> Result<bool, E>): Result<seq<T>, E>
    decreases |s|
  {
    if |s| == 0 then Ok([])
    else
      match TryFilter(s[..|s| - 1], p)
      case Err(e) => Err(e)
      case Ok(init) =>
        match p(s[|s| - 1])
        case Err(e) => Err(e)
        case Ok(keep) => Ok(if keep then init + [s[|s| - 1]] else init)
  }

  /** The plain predicate "the callback returned true". */
  function Accepts<T, E>(p: T -> Result<bool, E>): T -> bool {
    x => p(x) == Ok(true)
  }

  /**
   * When no callback throws, the fallible filter returns the plain filter by
   * "returned true"; when it returns normally, no callback threw.
   */
  lemma {:induction false} TryFilterOk<T, E>(s: seq<T>, p: T -> Result<bool, E>)
    ensures TryFilter(s, p).Ok? <==> forall x :: x in s ==> p(x).Ok?
    ensures TryFilter(s, p).Ok? ==> TryFilter(s, p).value == Filter(s, Accepts(p))
    decreases |s|
  {
    if |s| > 0 {
      var init := s[..|s| - 1];
      TryFilterOk(init, p);
      assert s == init + [s[|s| - 1]];
      assert forall x :: x in s <==> x in init || x == s[|s| - 1];
    }
  }

  /** Filtering one more element: the prefix's outcome, extended by the element's callback. */
  lemma TryFilterStep<T, E>(s: seq<T>, i: nat, p: T -> Result<bool, E>)
    requires i < |s|
    ensures TryFilter(s[..i + 1], p) ==
      match TryFilter(s[..i], p)
      case Err(e) => Err(e)
      case Ok(init) =>
        match p(s[i])
        case Err(e) => Err(e)
        case Ok(keep) => Ok(if keep then init + [s[i]] else init)
  {
    assert s[..i + 1][..i] == s[..i];
  }

  /** Once a prefix throws, the whole filter throws the same error. */
  lemma {:induction false} TryFilterPrefixErr<T, E>(s: seq<T>, k: nat, p: T -> Result<bool, E>)
    requires k <= |s| && TryFilter(s[..k], p).Err?
    ensures TryFilter(s, p) == TryFilter(s[..k], p)
    decreases |s| - k
  {
    if k == |s| {
      assert s[..k] == s;
    } else {
      var init := s[..|s| - 1];
      assert init[..k] == s[..k];
      TryFilterPrefixErr(init, k, p);
    }
  }

  /** A thrown error is the error of the first element whose callback throws. */
  lemma {:induction false} TryFilterErr<T, E>(s: seq<T>, p: T -> Result<bool, E>)
    requires TryFilter(s, p).Err?
    ensures exists i :: 0 <= i < |s| && p(s[i]) == Err(TryFilter(s, p).error) &&
                        forall j :: 0 <= j < i ==> p(s[j]).Ok?
    decreases |s|
  {
    var init := s[..|s| - 1];
    if TryFilter(init, p).Err? {
      TryFilterErr(init, p);
      var i :| 0 <= i < |init| && p(init[i]) == Err(TryFilter(init, p).error) &&
               forall j :: 0 <= j < i ==> p(init[j]).Ok?;
      assert s[i] == init[i];
      assert forall j :: 0 <= j < i ==> s[j] == init[j];
    } else {
      TryFilterOk(init, p);
      var i := |s| - 1;
      assert forall j :: 0 <= j < i ==> s[j] in init;
    }
  }

  /** `s.map(f)` */
  function Map<T, U>(s: seq<T>, f: T -> U): (r: seq<U>)
    ensures |r| == |s|
  {
    seq(|s|, i requires 0 <= i < |s| => f(s[i]))
  }

  /** The mapped sequence holds exactly the images of the elements. */
  lemma MapMembers<T, U>(s: seq<T>, f: T -> U)
    ensures forall y :: y in Map(s, f) <==> exists x :: x in s && f(x) == y
  {
    forall y | exists x :: x in s && f(x) == y
      ensures y in Map(s, f)
    {
      var x :| x in s && f(x) == y;
      var i :| 0 <= i < |s| && s[i] == x;
      assert Map(s, f)[i] == y;
    }
  }

  /** Some element satisfies `p` iff one before the last does or the last one does. */
  lemma ExistsSplit<T>(s: seq<T>, init: seq<T>, p: T -> bool)
    requires |s| > 0 && init == s[..|s| - 1]
    ensures (exists i :: 0 <= i < |s| && p(s[i])) <==> (exists i :: 0 <= i < |init| && p(init[i])) || p(s[|s| - 1])
  {
    if exists i :: 0 <= i < |s| && p(s[i]) {
      var i :| 0 <= i < |s| && p(s[i]);
      if i < |init| {
        assert init[i] == s[i];
      }
    }
    if exists i :: 0 <= i < |init| && p(init[i]) {
      var i :| 0 <= i < |init| && p(init[i]);
      assert s[i] == init[i];
    }
  }

  /** `[].concat(...ss)`: the pieces one after the other. */
  function Flatten<T>(ss: seq<seq<T>>): seq<T>
    decreases |ss|
  {
    if |ss| == 0 then [] else Flatten(ss[..|ss| - 1]) + ss[|ss| - 1]
  }

  /** Every element of a flattening comes from one of its pieces, and conversely. */
  lemma {:induction false} FlattenMembers<T>(ss: seq<seq<T>>)
    ensures forall x :: x in Flatten(ss) <==> exists i :: 0 <= i < |ss| && x in ss[i]
    decreases |ss|
  {
    if |ss| > 0 {
      FlattenMembers(ss[..|ss| - 1]);
      forall x
        ensures x in Flatten(ss) <==> exists i :: 0 <= i < |ss| && x in ss[i]
      {
        if x in ss[|ss| - 1] {
          assert x in Flatten(ss);
        }
        if x in Flatten(ss[..|ss| - 1]) {
          var i :| 0 <= i < |ss| - 1 && x in ss[..|ss| - 1][i];
          assert x in ss[i];
        }
        if exists i :: 0 <= i < |ss| && x in ss[i] {
          var i :| 0 <= i < |ss| && x in ss[i];
          if i < |ss| - 1 {
            assert x in ss[..|ss| - 1][i];
          }
        }
      }
    }
  }

  /** No element occurs twice. */
  predicate Distinct<T(==)>(s: seq<T>) {
    forall i, j :: 0 <= i < j < |s| ==> s[i] != s[j]
  }

  /** Filtering a sequence without repetitions gives one without repetitions. */
  lemma {:induction false} FilterDistinct<T>(s: seq<T>, p: T -> bool)
    requires Distinct(s)
    ensures Distinct(Filter(s, p))
    decreases |s|
  {
    if |s| > 0 {
      var init := s[..|s| - 1];
      FilterDistinct(init, p);
      FilterMembers(init, p);
      assert s[|s| - 1] !in init;
    }
  }
}
