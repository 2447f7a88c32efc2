/** Facts about sequence concatenation that the box-tree proofs use at
    each step; stated once, so that no proof needs to rediscover them. */
module Seqs {

  lemma ConcatAssoc<T>(a: seq<T>, b: seq<T>, c: seq<T>)
    ensures a + b + c == a + (b + c)
  {
  }

  /** The middle part of a concatenation, cut out again. */
  lemma SliceOfConcat<T>(p: seq<T>, x: seq<T>, q: seq<T>)
    ensures (p + x + q)[|p|..|p| + |x|] == x
  {
  }

  /** The run `x`, cut out again from `head + (before + x + rest)`. */
  lemma SliceOfNested<T>(whole: seq<T>, head: seq<T>, before: seq<T>, x: seq<T>, rest: seq<T>, start: nat)
    requires whole == head + (before + x + rest) && start == |head| + |before|
    ensures start + |x| <= |whole|
    ensures whole[start..start + |x|] == x
  {
    ConcatAssoc(head, before + x, rest);
    ConcatAssoc(head, before, x);
    SliceOfConcat(head + before, x, rest);
  }

  /** Two sequences that agree from `i` on agree at `i` and from `i + 1` on. */
  lemma SuffixStep<T>(a: seq<T>, b: seq<T>, i: nat)
    requires i < |a| == |b| && a[i..] == b[i..]
    ensures a[i] == b[i] && a[i + 1..] == b[i + 1..]
  {
    assert a[i] == a[i..][0] && b[i] == b[i..][0];
    assert a[i + 1..] == a[i..][1..] && b[i + 1..] == b[i..][1..];
  }
}
