// Small helpers shared by the grade and GPA modules: an Option type,
// JavaScript's Math.ceil on reals, credit-weighted sums and list filtering.
module Util {

  datatype Option<T> = None | Some(value: T)

  /** Math.ceil: the least integer not below x. */
  function Ceil(x: real): (r: int)
    ensures x <= r as real < x + 1.0
  {
    -((-x).Floor)
  }

  /** Sum of f over a list, accumulated from the front as a forEach loop does. */
  function SumOf<T>(s: seq<T>, f: T -> real): real
  {
    if s == [] then 0.0 else SumOf(s[..|s| - 1], f) + f(s[|s| - 1])
  }

  lemma {:induction false} SumOfConcat<T>(a: seq<T>, b: seq<T>, f: T -> real)
    ensures SumOf(a + b, f) == SumOf(a, f) + SumOf(b, f)
  {
    if b == [] {
      assert a + b == a;
    } else {
      SumOfConcat(a, b[..|b| - 1], f);
      assert (a + b)[..|a + b| - 1] == a + b[..|b| - 1];
    }
  }

  /** A sum does not depend on the order of the list. */
  lemma {:induction false} SumOfPermutation<T>(a: seq<T>, b: seq<T>, f: T -> real)
    requires multiset(a) == multiset(b)
    ensures SumOf(a, f) == SumOf(b, f)
  {
    if a == [] {
      assert |multiset(b)| == 0;
    } else {
      var n := |a| - 1;
      var x := a[n];
      assert a == a[..n] + [x];
      assert x in multiset(b);
      var j :| 0 <= j < |b| && b[j] == x;
      var rest := b[..j] + b[j + 1..];
      assert b == b[..j] + [x] + b[j + 1..];
      assert multiset(a[..n]) == multiset(rest) by {
        assert multiset(a) == multiset(a[..n]) + multiset{x};
        assert multiset(b) == multiset(b[..j] + [x]) + multiset(b[j + 1..]);
        assert multiset(b[..j] + [x]) == multiset(b[..j]) + multiset{x};
        assert multiset(rest) == multiset(b[..j]) + multiset(b[j + 1..]);
        assert multiset(a[..n]) == multiset(a) - multiset{x};
        assert multiset(rest) == multiset(b) - multiset{x};
      }
      SumOfPermutation(a[..n], rest, f);
      SumOfConcat(b[..j] + [x], b[j + 1..], f);
      SumOfConcat(b[..j], [x], f);
      SumOfConcat(b[..j], b[j + 1..], f);
      assert [x][..0] == [];
    }
  }

  /** If every term lies between 0 and k times its weight, so does the sum. */
  lemma {:induction false} SumOfBounded<T>(s: seq<T>, f: T -> real, w: T -> real, k: real)
    requires forall x :: x in s ==> 0.0 <= f(x) <= k * w(x)
    ensures 0.0 <= SumOf(s, f) <= k * SumOf(s, w)
  {
    if s != [] {
      SumOfBounded(s[..|s| - 1], f, w, k);
      assert s[|s| - 1] in s;
    }
  }

  /** A sum of positive terms over a non-empty list is positive. */
  lemma {:induction false} SumOfPositive<T>(s: seq<T>, w: T -> real)
    requires s != []
    requires forall x :: x in s ==> w(x) > 0.0
    ensures SumOf(s, w) > 0.0
  {
    assert s[|s| - 1] in s;
    if |s| > 1 {
      SumOfPositive(s[..|s| - 1], w);
    } else {
      assert s[..|s| - 1] == [];
    }
  }

  /** Array.prototype.filter: the elements that pass the test, in their order. */
  function Filter<T>(s: seq<T>, keep: T -> bool): (r: seq<T>)
    ensures |r| <= |s|
    ensures forall i :: 0 <= i < |r| ==> r[i] in s && keep(r[i])
    ensures forall i :: 0 <= i < |s| && keep(s[i]) ==> s[i] in r
  {
    if s == [] then [] else (if keep(s[0]) then [s[0]] else []) + Filter(s[1..], keep)
  }

  lemma {:induction false} FilterConcat<T>(a: seq<T>, b: seq<T>, keep: T -> bool)
    ensures Filter(a + b, keep) == Filter(a, keep) + Filter(b, keep)
  {
    if a != [] {
      FilterConcat(a[1..], b, keep);
      assert (a + b)[1..] == a[1..] + b;
    } else {
      assert a + b == b;
    }
  }

  /** Filtering keeps a list whose every element passes. */
  lemma {:induction false} FilterAllKept<T>(s: seq<T>, keep: T -> bool)
    requires forall x :: x in s ==> keep(x)
    ensures Filter(s, keep) == s
  {
    if s != [] {
      assert s[0] in s;
      FilterAllKept(s[1..], keep);
      assert s == [s[0]] + s[1..];
    }
  }

  /** Filtering a list whose last element alone fails the test drops just
      that element. */
  lemma FilterDropsLast<T>(s: seq<T>, keep: T -> bool)
    requires s != []
    requires forall i :: 0 <= i < |s| - 1 ==> keep(s[i])
    requires !keep(s[|s| - 1])
    ensures Filter(s, keep) == s[..|s| - 1]
  {
    var init, last := s[..|s| - 1], s[|s| - 1];
    assert s == init + [last];
    forall x | x in init
      ensures keep(x)
    {
      var i :| 0 <= i < |init| && init[i] == x;
    }
    FilterAllKept(init, keep);
    assert Filter([last], keep) == [] + Filter([last][1..], keep);
    assert [last][1..] == [];
    FilterConcat(init, [last], keep);
  }

  /** Filtering two lists of equal length with tests that agree position by
      position keeps the same positions of both: the results have equal
      length and their entries at each index come from one common index. */
  lemma {:induction false} FilterParallel<A, B>(a: seq<A>, b: seq<B>, keepA: A -> bool, keepB: B -> bool)
    requires |a| == |b|
    requires forall i :: 0 <= i < |a| ==> (keepA(a[i]) <==> keepB(b[i]))
    ensures |Filter(a, keepA)| == |Filter(b, keepB)|
    ensures forall i :: 0 <= i < |Filter(a, keepA)| ==>
              exists j :: 0 <= j < |a| && Filter(a, keepA)[i] == a[j] && Filter(b, keepB)[i] == b[j]
  {
    if a != [] {
      forall i | 0 <= i < |a| - 1
        ensures keepA(a[1..][i]) <==> keepB(b[1..][i])
      {
        assert a[1..][i] == a[i + 1] && b[1..][i] == b[i + 1];
      }
      FilterParallel(a[1..], b[1..], keepA, keepB);
      FilterParallelStep(a, b, keepA, keepB);
    }
  }

  /** The step of FilterParallel: the heads are kept or dropped together. */
  lemma FilterParallelStep<A, B>(a: seq<A>, b: seq<B>, keepA: A -> bool, keepB: B -> bool)
    requires a != [] && |a| == |b|
    requires keepA(a[0]) <==> keepB(b[0])
    requires |Filter(a[1..], keepA)| == |Filter(b[1..], keepB)|
    requires forall i :: 0 <= i < |Filter(a[1..], keepA)| ==>
               exists j :: 0 <= j < |a[1..]| && Filter(a[1..], keepA)[i] == a[1..][j] && Filter(b[1..], keepB)[i] == b[1..][j]
    ensures |Filter(a, keepA)| == |Filter(b, keepB)|
    ensures forall i :: 0 <= i < |Filter(a, keepA)| ==>
              exists j :: 0 <= j < |a| && Filter(a, keepA)[i] == a[j] && Filter(b, keepB)[i] == b[j]
  {
    var fa, fb := Filter(a[1..], keepA), Filter(b[1..], keepB);
    var headA: seq<A> := if keepA(a[0]) then [a[0]] else [];
    var headB: seq<B> := if keepB(b[0]) then [b[0]] else [];
    assert Filter(a, keepA) == headA + fa;
    assert Filter(b, keepB) == headB + fb;
    var k := |headA|;
    forall i | 0 <= i < |Filter(a, keepA)|
      ensures exists j :: 0 <= j < |a| && Filter(a, keepA)[i] == a[j] && Filter(b, keepB)[i] == b[j]
    {
      if i < k {
        assert (headA + fa)[i] == a[0] && (headB + fb)[i] == b[0];
      } else {
        assert (headA + fa)[i] == fa[i - k] && (headB + fb)[i] == fb[i - k];
        var j :| 0 <= j < |a[1..]| && fa[i - k] == a[1..][j] && fb[i - k] == b[1..][j];
        assert a[1..][j] == a[j + 1] && b[1..][j] == b[j + 1];
      }
    }
  }

  /** Filtering keeps the order of the list: a rank that increases along the
      list still increases along the filtered list. */
  lemma {:induction false} FilterKeepsOrder<T>(s: seq<T>, keep: T -> bool, rank: T -> nat)
    requires forall i, j :: 0 <= i < j < |s| ==> rank(s[i]) < rank(s[j])
    ensures forall i, j :: 0 <= i < j < |Filter(s, keep)| ==> rank(Filter(s, keep)[i]) < rank(Filter(s, keep)[j])
  {
    if s != [] {
      var rest := Filter(s[1..], keep);
      forall i, j | 0 <= i < j < |s[1..]|
        ensures rank(s[1..][i]) < rank(s[1..][j])
      {
        assert s[1..][i] == s[i + 1] && s[1..][j] == s[j + 1];
      }
      FilterKeepsOrder(s[1..], keep, rank);
      forall j | 0 <= j < |rest|
        ensures rank(s[0]) < rank(rest[j])
      {
        var k :| 0 <= k < |s[1..]| && s[1..][k] == rest[j];
        assert s[1..][k] == s[k + 1];
      }
    }
  }
}
