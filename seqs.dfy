/** Order-preserving filtering of sequences, the shape of JavaScript's
    `Array.prototype.filter`, with the facts the filter engine and the
    grouping helper rely on: membership, order (subsequence) and sizes. */
module Seqs {

  /** The elements of `s` that satisfy `p`, in their order in `s`. */
  function Filter<T(!new)>(s: seq<T>, p: T -> bool): (r: seq<T>)
    ensures |r| <= |s|
    ensures forall x :: x in r <==> x in s && p(x)
    decreases |s|
  {
    if s == [] then []
    else
      var init := s[..|s| - 1];
      assert s == init + [s[|s| - 1]];
      if p(s[|s| - 1]) then Filter(init, p) + [s[|s| - 1]] else Filter(init, p)
  }

  /** `Filter` keeps every occurrence of a satisfying element and none of the others. */
  lemma {:induction false} FilterMultiset<T(!new)>(s: seq<T>, p: T -> bool)
    ensures forall x :: multiset(Filter(s, p))[x] == if p(x) then multiset(s)[x] else 0
    decreases |s|
  {
    if s != [] {
      var init := s[..|s| - 1];
      var last := s[|s| - 1];
      assert s == init + [last];
      FilterMultiset(init, p);
      assert multiset(s) == multiset(init) + multiset{last};
    }
  }

  /** `idx` picks the elements of `a` out of `b` at strictly increasing positions. */
  ghost predicate Embeds<T>(a: seq<T>, b: seq<T>, idx: seq<nat>)
  {
    && |idx| == |a|
    && (forall i :: 0 <= i < |idx| ==> idx[i] < |b| && a[i] == b[idx[i]])
    && (forall i, j :: 0 <= i < j < |idx| ==> idx[i] < idx[j])
  }

  /** `a` is `b` with some elements deleted and the rest kept in order. */
  ghost predicate IsSubseq<T>(a: seq<T>, b: seq<T>)
  {
    exists idx :: Embeds(a, b, idx)
  }

  /** The positions of `s` that `Filter` keeps, which show that it keeps order. */
  lemma {:induction false} FilterEmbedding<T(!new)>(s: seq<T>, p: T -> bool) returns (idx: seq<nat>)
    ensures Embeds(Filter(s, p), s, idx)
    ensures forall i :: 0 <= i < |idx| ==> p(s[idx[i]])
    decreases |s|
  {
    if s == [] {
      idx := [];
    } else {
      var n := |s| - 1;
      var init := s[..n];
      var prev := FilterEmbedding(init, p);
      if p(s[n]) {
        idx := prev + [n];
      } else {
        idx := prev;
      }
    }
  }

  lemma FilterIsSubseq<T(!new)>(s: seq<T>, p: T -> bool)
    ensures IsSubseq(Filter(s, p), s)
  {
    var idx := FilterEmbedding(s, p);
  }

  /** Filtering twice with two predicates that no element of `s` satisfies together:
      the two results never hold more than `s`, and exactly `s`'s length when every
      element satisfies one of them. */
  lemma {:induction false} DisjointFilterSizes<T(!new)>(s: seq<T>, p: T -> bool, q: T -> bool)
    requires forall x :: x in s ==> !(p(x) && q(x))
    ensures |Filter(s, p)| + |Filter(s, q)| <= |s|
    ensures (forall x :: x in s ==> p(x) || q(x)) ==> |Filter(s, p)| + |Filter(s, q)| == |s|
    decreases |s|
  {
    if s != [] {
      var init := s[..|s| - 1];
      assert forall x :: x in init ==> x in s;
      DisjointFilterSizes(init, p, q);
    }
  }

  /** Nothing is kept when no element satisfies the predicate. */
  lemma FilterNone<T(!new)>(s: seq<T>, p: T -> bool)
    requires forall x :: x in s ==> !p(x)
    ensures Filter(s, p) == []
  {
    if Filter(s, p) != [] {
      assert Filter(s, p)[0] in Filter(s, p);
    }
  }

  /** Filtering an extended sequence filters the extension on its own. */
  lemma FilterSnoc<T(!new)>(s: seq<T>, x: T, p: T -> bool)
    ensures Filter(s + [x], p) == if p(x) then Filter(s, p) + [x] else Filter(s, p)
  {
    assert (s + [x])[..|s + [x]| - 1] == s;
  }

  lemma AppendAssoc<T>(a: seq<T>, b: seq<T>, c: seq<T>)
    ensures a + (b + c) == (a + b) + c
  {
  }

  lemma ConsSnoc<T>(x: T, s: seq<T>, y: T)
    ensures [x] + (s + [y]) == ([x] + s) + [y]
  {
  }

  /** Filtering a sequence with a new first element filters that element on its own. */
  lemma {:induction false} FilterCons<T(!new)>(x: T, s: seq<T>, p: T -> bool)
    ensures Filter([x] + s, p) == (if p(x) then [x] else []) + Filter(s, p)
    decreases |s|
  {
    var head := if p(x) then [x] else [];
    if s == [] {
      assert [x] + s == [] + [x];
      FilterSnoc([], x, p);
    } else {
      var init := s[..|s| - 1];
      var last := s[|s| - 1];
      var tail := if p(last) then [last] else [];
      assert s == init + [last];
      ConsSnoc(x, init, last);
      FilterCons(x, init, p);
      FilterSnoc([x] + init, last, p);
      FilterSnoc(init, last, p);
      Regroup(Filter([x] + s, p), Filter([x] + init, p), Filter(init, p), Filter(s, p), head, tail);
    }
  }

  lemma Regroup<T>(whole: seq<T>, front: seq<T>, mid: seq<T>, rest: seq<T>, head: seq<T>, tail: seq<T>)
    requires whole == front + tail && front == head + mid && rest == mid + tail
    ensures whole == head + rest
  {
  }
}
