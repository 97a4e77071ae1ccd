/** Order-preserving selection and element-wise mapping over sequences, the shapes of
    `Array.prototype.filter` and `Array.prototype.map` that the backend and the
    study list rely on. Both are defined from the back so that a loop that pushes
    one element at a time matches them step by step. */
module Seqs {

  function Init<T>(s: seq<T>): seq<T>
    requires s != []
  {
    s[..|s| - 1]
  }

  function Last<T>(s: seq<T>): T
    requires s != []
  {
    s[|s| - 1]
  }

  /** The elements of `s` that satisfy `keep`, in their original order. */
  function Filter<T>(s: seq<T>, keep: T -> bool): seq<T>
  {
    if s == [] then []
    else Filter(Init(s), keep) + (if keep(Last(s)) then [Last(s)] else [])
  }

  /** `f` applied to every element of `s`. */
  function Map<T, U>(s: seq<T>, f: T -> U): (r: seq<U>)
    ensures |r| == |s|
  {
    if s == [] then [] else Map(Init(s), f) + [f(Last(s))]
  }

  /** `sub` is obtained from `s` by deleting elements, keeping the order of the rest. */
  predicate IsSubsequence<T(==)>(sub: seq<T>, s: seq<T>)
  {
    if sub == [] then true
    else if s == [] then false
    else if Last(sub) == Last(s) then IsSubsequence(Init(sub), Init(s))
    else IsSubsequence(sub, Init(s))
  }

  lemma FilterAppend<T>(s: seq<T>, x: T, keep: T -> bool)
    ensures Filter(s + [x], keep) == Filter(s, keep) + (if keep(x) then [x] else [])
  {
    assert Init(s + [x]) == s;
  }

  lemma MapAppend<T, U>(s: seq<T>, x: T, f: T -> U)
    ensures Map(s + [x], f) == Map(s, f) + [f(x)]
  {
    assert Init(s + [x]) == s;
  }

  lemma {:induction false} MapAt<T, U>(s: seq<T>, f: T -> U, i: int)
    requires 0 <= i < |s|
    ensures Map(s, f)[i] == f(s[i])
  {
    if i < |s| - 1 {
      MapAt(Init(s), f, i);
    }
  }

  /** A subsequence of `Init(s)` is a subsequence of `s`. */
  lemma {:induction false} SubsequenceExtend<T>(sub: seq<T>, s: seq<T>)
    requires s != [] && IsSubsequence(sub, Init(s))
    ensures IsSubsequence(sub, s)
  {
    if sub != [] && Last(sub) == Last(s) {
      SubsequenceDropLast(sub, Init(s));
    }
  }

  /** Dropping the last element of a subsequence keeps it a subsequence. */
  lemma {:induction false} SubsequenceDropLast<T>(sub: seq<T>, s: seq<T>)
    requires sub != [] && IsSubsequence(sub, s)
    ensures IsSubsequence(Init(sub), s)
  {
    if Init(sub) == [] {
    } else if Last(sub) == Last(s) {
      SubsequenceExtend(Init(sub), s);
    } else {
      SubsequenceDropLast(sub, Init(s));
      SubsequenceExtend(Init(sub), s);
    }
  }

  /** Whatever is filtered out, what remains keeps the input's order. */
  lemma {:induction false} FilterIsSubsequence<T>(s: seq<T>, keep: T -> bool)
    ensures IsSubsequence(Filter(s, keep), s)
  {
    if s != [] {
      FilterIsSubsequence(Init(s), keep);
      if keep(Last(s)) {
        assert Init(Filter(s, keep)) == Filter(Init(s), keep);
      } else {
        assert Filter(s, keep) == Filter(Init(s), keep);
        SubsequenceExtend(Filter(s, keep), s);
      }
    }
  }

  /** An element is selected exactly when it occurs in the input and passes the test. */
  lemma {:induction false} FilterMembership<T>(s: seq<T>, keep: T -> bool)
    ensures forall x :: x in Filter(s, keep) <==> x in s && keep(x)
  {
    if s != [] {
      FilterMembership(Init(s), keep);
      assert s == Init(s) + [Last(s)];
    }
  }

  /** Selecting by a test and by its negation splits the input without loss. */
  lemma {:induction false} FilterPartition<T>(s: seq<T>, keep: T -> bool, drop: T -> bool)
    requires forall x :: drop(x) == !keep(x)
    ensures |Filter(s, keep)| + |Filter(s, drop)| == |s|
  {
    if s != [] {
      FilterPartition(Init(s), keep, drop);
    }
  }

  /** A test that every element passes keeps the whole input. */
  lemma {:induction false} FilterKeepsAll<T>(s: seq<T>, keep: T -> bool)
    requires forall i :: 0 <= i < |s| ==> keep(s[i])
    ensures Filter(s, keep) == s
  {
    if s != [] {
      assert forall i :: 0 <= i < |Init(s)| ==> Init(s)[i] == s[i];
      FilterKeepsAll(Init(s), keep);
      assert keep(s[|s| - 1]);
      assert s == Init(s) + [Last(s)];
    }
  }

  /** A stronger test selects no more than a weaker one. */
  lemma {:induction false} FilterNarrower<T>(s: seq<T>, narrow: T -> bool, wide: T -> bool)
    requires forall x :: narrow(x) ==> wide(x)
    ensures |Filter(s, narrow)| <= |Filter(s, wide)|
  {
    if s != [] {
      FilterNarrower(Init(s), narrow, wide);
    }
  }

  /** Selection never lengthens a sequence. */
  lemma {:induction false} FilterShorter<T>(s: seq<T>, keep: T -> bool)
    ensures |Filter(s, keep)| <= |s|
  {
    if s != [] {
      FilterShorter(Init(s), keep);
    }
  }

  /** Two tests that agree everywhere select the same elements. */
  lemma {:induction false} FilterSameTest<T>(s: seq<T>, p: T -> bool, q: T -> bool)
    requires forall x :: p(x) == q(x)
    ensures Filter(s, p) == Filter(s, q)
  {
    if s != [] {
      FilterSameTest(Init(s), p, q);
    }
  }

  /** `findIndex(p)`: the first position whose element passes `p`, or -1. */
  function FirstIndex<T>(s: seq<T>, p: T -> bool): (k: int)
    ensures -1 <= k < |s|
    ensures 0 <= k ==> p(s[k])
    ensures forall j :: 0 <= j < |s| && (k == -1 || j < k) ==> !p(s[j])
  {
    if s == [] then -1
    else if p(s[0]) then 0
    else
      var k := FirstIndex(s[1..], p);
      if k == -1 then -1 else k + 1
  }

  /** The scan `findIndex` performs, front to back. */
  method FindFirst<T>(s: seq<T>, p: T -> bool) returns (k: int)
    ensures k == FirstIndex(s, p)
  {
    k := 0;
    while k < |s|
      invariant 0 <= k <= |s|
      invariant forall j :: 0 <= j < k ==> !p(s[j])
    {
      if p(s[k]) {
        return;
      }
      k := k + 1;
    }
    k := -1;
  }
}
