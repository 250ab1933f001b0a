/**
 * Order-preserving filtering of lists, as in Python's
 * `[x for x in xs if p(x)]`, and what "order-preserving subsequence" means.
 */
module Seqs {

  /** The elements of `s` that satisfy `p`, in their original order. */
  function Filter<T>(s: seq<T>, p: T -> bool): seq<T>
    decreases |s|
  {
    if s == [] then []
    else Filter(s[..|s| - 1], p) + (if p(s[|s| - 1]) then [s[|s| - 1]] else [])
  }

  /** The positions in `s` of the elements `Filter(s, p)` keeps. */
  function FilterIndices<T>(s: seq<T>, p: T -> bool): seq<int>
    decreases |s|
  {
    if s == [] then []
    else FilterIndices(s[..|s| - 1], p) + (if p(s[|s| - 1]) then [|s| - 1] else [])
  }

  /** `idx` is a strictly increasing list of positions of `b` that spells out `a`. */
  ghost predicate Embeds<T>(a: seq<T>, b: seq<T>, idx: seq<int>)
  {
    && |idx| == |a|
    && (forall k :: 0 <= k < |idx| ==> 0 <= idx[k] < |b| && a[k] == b[idx[k]])
    && (forall k, l :: 0 <= k < l < |idx| ==> idx[k] < idx[l])
  }

  /** `a` is obtained from `b` by deleting elements, keeping the order of the rest. */
  ghost predicate IsSubsequence<T>(a: seq<T>, b: seq<T>)
  {
    exists idx :: Embeds(a, b, idx)
  }

  /** An element is kept exactly when it occurs in the input and satisfies the predicate. */
  lemma {:induction false} FilterMembers<T>(s: seq<T>, p: T -> bool, x: T)
    ensures x in Filter(s, p) <==> x in s && p(x)
    decreases |s|
  {
    if s != [] {
      var init, last := s[..|s| - 1], s[|s| - 1];
      assert s == init + [last];
      FilterMembers(init, p, x);
    }
  }

  /** Everything a filter keeps satisfies the predicate. */
  lemma {:induction false} FilterSatisfies<T>(s: seq<T>, p: T -> bool)
    ensures forall k :: 0 <= k < |Filter(s, p)| ==> p(Filter(s, p)[k])
    decreases |s|
  {
    if s != [] {
      FilterSatisfies(s[..|s| - 1], p);
    }
  }

  /** The kept positions embed the filtered list into the input. */
  lemma {:induction false} FilterEmbeds<T>(s: seq<T>, p: T -> bool)
    ensures Embeds(Filter(s, p), s, FilterIndices(s, p))
    decreases |s|
  {
    if s != [] {
      var init := s[..|s| - 1];
      FilterEmbeds(init, p);
      var a, idx := Filter(init, p), FilterIndices(init, p);
      assert forall k :: 0 <= k < |idx| ==> 0 <= idx[k] < |init| && s[idx[k]] == init[idx[k]];
    }
  }

  /** Embeddings compose: a subsequence of a subsequence is a subsequence. */
  lemma EmbedsCompose<T>(a: seq<T>, b: seq<T>, c: seq<T>, i1: seq<int>, i2: seq<int>)
    requires Embeds(a, b, i1) && Embeds(b, c, i2)
    ensures IsSubsequence(a, c)
  {
    var idx := seq(|i1|, k requires 0 <= k < |i1| => i2[i1[k]]);
    assert Embeds(a, c, idx);
  }

  /** Filtering twice yields an order-preserving subsequence of the original list. */
  lemma FilterTwiceIsSubsequence<T>(s: seq<T>, p: T -> bool, q: T -> bool)
    ensures IsSubsequence(Filter(Filter(s, p), q), s)
  {
    FilterEmbeds(s, p);
    FilterEmbeds(Filter(s, p), q);
    EmbedsCompose(Filter(Filter(s, p), q), Filter(s, p), s, FilterIndices(Filter(s, p), q), FilterIndices(s, p));
  }
}
