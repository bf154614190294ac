/** Sums of a natural-valued measure over a sequence, and the facts about them that
    do not depend on what is being summed. */
module Sums {

  /** The sum of `f` over the elements of `s`, added up from the front, the way a loop
      that walks `s` accumulates it. */
  function SumBy<T>(s: seq<T>, f: T --> nat): nat
    requires forall i :: 0 <= i < |s| ==> f.requires(s[i])
  {
    if s == [] then 0 else SumBy(s[..|s| - 1], f) + f(s[|s| - 1])
  }

  /** Summing over a concatenation is summing over each part. */
  lemma {:induction false} SumByAppend<T>(s: seq<T>, t: seq<T>, f: T --> nat)
    requires forall i :: 0 <= i < |s| ==> f.requires(s[i])
    requires forall i :: 0 <= i < |t| ==> f.requires(t[i])
    ensures forall i :: 0 <= i < |s + t| ==> f.requires((s + t)[i])
    ensures SumBy(s + t, f) == SumBy(s, f) + SumBy(t, f)
  {
    assert forall i :: 0 <= i < |s + t| ==> f.requires((s + t)[i]) by {
      forall i | 0 <= i < |s + t| ensures f.requires((s + t)[i]) {
        if i < |s| { assert (s + t)[i] == s[i]; } else { assert (s + t)[i] == t[i - |s|]; }
      }
    }
    if t == [] {
      assert s + t == s;
    } else {
      var t' := t[..|t| - 1];
      SumByAppend(s, t', f);
      assert (s + t)[..|s + t| - 1] == s + t';
    }
  }

  /** The sum does not depend on the order of the elements. */
  lemma {:induction false} SumByPermutation<T>(s: seq<T>, t: seq<T>, f: T --> nat)
    requires multiset(s) == multiset(t)
    requires forall i :: 0 <= i < |s| ==> f.requires(s[i])
    requires forall i :: 0 <= i < |t| ==> f.requires(t[i])
    ensures SumBy(s, f) == SumBy(t, f)
    decreases |s|
  {
    if s == [] {
      assert |t| == |multiset(t)| == 0;
    } else {
      var x := s[|s| - 1];
      var s' := s[..|s| - 1];
      assert s == s' + [x];
      assert x in multiset(t);
      var j :| 0 <= j < |t| && t[j] == x;
      var left, right := t[..j], t[j + 1..];
      assert t == left + [x] + right;
      CancelOne(s', left, x, right);
      SumByPermutation(s', left + right, f);
      SumOfMiddle(left, x, right, f);
    }
  }

  /** Removing the same element from two permutations of each other leaves permutations. */
  lemma CancelOne<T>(s: seq<T>, left: seq<T>, x: T, right: seq<T>)
    requires multiset(s + [x]) == multiset(left + [x] + right)
    ensures multiset(s) == multiset(left + right)
  {
    var a, b := multiset(left + right), multiset(s);
    assert multiset(left + [x] + right) == a + multiset{x};
    assert multiset(s + [x]) == b + multiset{x};
    forall y ensures a[y] == b[y] {
      assert (a + multiset{x})[y] == (b + multiset{x})[y];
    }
  }

  /** Taking one element out of the middle of a sequence takes its measure off the sum. */
  lemma SumOfMiddle<T>(left: seq<T>, x: T, right: seq<T>, f: T --> nat)
    requires forall i :: 0 <= i < |left| ==> f.requires(left[i])
    requires f.requires(x)
    requires forall i :: 0 <= i < |right| ==> f.requires(right[i])
    ensures forall i :: 0 <= i < |left + [x] + right| ==> f.requires((left + [x] + right)[i])
    ensures SumBy(left + [x] + right, f) == SumBy(left + right, f) + f(x)
  {
    SumByAppend(left, [x], f);
    SumByAppend(left + [x], right, f);
    SumByAppend(left, right, f);
    assert [x][..0] == [];
  }
}
