/** Sequence operations the particle store is built from: swap-with-last removal,
    the rotation it causes in the part of a sequence not yet walked, and runs of
    consecutive numbers used as record identities. */
module Sequences {

  /** Removal of slot `i` by overwriting it with the last element and dropping the last
      slot (or, when `i` is the last slot, by dropping it). */
  function SwapRemove<T>(s: seq<T>, i: nat): (r: seq<T>)
    requires i < |s|
    ensures |r| == |s| - 1
    ensures i < |s| - 1 ==> r[i] == s[|s| - 1]
    ensures forall k :: 0 <= k < |r| && k != i ==> r[k] == s[k]
  {
    if i == |s| - 1 then s[..i] else s[..i] + [s[|s| - 1]] + s[i + 1..|s| - 1]
  }

  /** Swap-removal is what the two in-place steps produce: overwrite slot `i` with the last
      element, then drop the last slot; at the last slot only the drop. */
  lemma SwapRemoveInPlace<T>(s: seq<T>, i: nat)
    requires i < |s|
    ensures i == |s| - 1 ==> SwapRemove(s, i) == s[..|s| - 1]
    ensures i < |s| - 1 ==> SwapRemove(s, i) == s[i := s[|s| - 1]][..|s| - 1]
  {
  }

  /** Moves the last element to the front. */
  function RotateRight<T>(s: seq<T>): seq<T>
  {
    if s == [] then [] else [s[|s| - 1]] + s[..|s| - 1]
  }

  /** After a swap-removal at `i`, the slots from `i` on hold exactly what the slots after
      `i` held before, with the old last element brought to the front. */
  lemma SwapRemoveSuffix<T>(s: seq<T>, i: nat)
    requires i < |s|
    ensures SwapRemove(s, i)[i..] == RotateRight(s[i + 1..])
  {
    if i < |s| - 1 {
      var t := s[i + 1..];
      assert t[|t| - 1] == s[|s| - 1];
      assert t[..|t| - 1] == s[i + 1..|s| - 1];
    }
  }

  /** Rotation keeps the elements and their multiplicities. */
  lemma RotateRightMultiset<T>(s: seq<T>)
    ensures multiset(RotateRight(s)) == multiset(s)
  {
    if s != [] {
      assert s == s[..|s| - 1] + [s[|s| - 1]];
    }
  }

  /** Swap-removal keeps every element but the removed one, each as often as before. */
  lemma SwapRemoveMultiset<T>(s: seq<T>, i: nat)
    requires i < |s|
    ensures multiset(SwapRemove(s, i)) + multiset{s[i]} == multiset(s)
  {
    var r, pre, tail := SwapRemove(s, i), s[..i], s[i + 1..];
    SwapRemoveSuffix(s, i);
    RotateRightMultiset(tail);
    assert r == pre + r[i..];
    assert s == pre + [s[i]] + tail;
    calc {
      multiset(r) + multiset{s[i]};
      multiset(pre) + multiset(RotateRight(tail)) + multiset{s[i]};
      multiset(pre) + multiset{s[i]} + multiset(tail);
      multiset(pre + [s[i]] + tail);
    }
  }

  /** Swap-removal keeps distinct elements distinct. */
  lemma SwapRemoveDistinct<T>(s: seq<T>, i: nat)
    requires i < |s|
    requires forall j, k :: 0 <= j < k < |s| ==> s[j] != s[k]
    ensures forall j, k :: 0 <= j < k < |s| - 1 ==> SwapRemove(s, i)[j] != SwapRemove(s, i)[k]
  {
    var r := SwapRemove(s, i);
    forall j, k | 0 <= j < k < |r|
      ensures r[j] != r[k]
    {
      var j' := if j == i then |s| - 1 else j;
      var k' := if k == i then |s| - 1 else k;
      assert r[j] == s[j'] && r[k] == s[k'];
    }
  }

  /** The identities `lo`, `lo + 1`, ..., `hi - 1`, in order. */
  function Range(lo: nat, hi: nat): seq<nat>
    requires lo <= hi
  {
    seq(hi - lo, k requires 0 <= k < hi - lo => lo + k)
  }

  /** Two adjacent runs join into one. */
  lemma RangeConcat(a: nat, b: nat, c: nat)
    requires a <= b <= c
    ensures Range(a, b) + Range(b, c) == Range(a, c)
  {
    var l, r := Range(a, b), Range(b, c);
    assert |l + r| == c - a;
    forall k | 0 <= k < c - a
      ensures (l + r)[k] == a + k
    {
      if k < b - a { assert (l + r)[k] == l[k]; } else { assert (l + r)[k] == r[k - (b - a)]; }
    }
  }
}
