/** Sizes of finite sets, and sums over them. */
module Counting {

  /** The numbers below `n`. */
  ghost function UpTo(n: nat): (all: set<nat>)
    ensures forall j: nat :: j in all <==> j < n
    ensures |all| == n
  {
    if n == 0 then {} else UpTo(n - 1) + {n - 1}
  }

  /** No element occurs twice. */
  ghost predicate Distinct<T>(s: seq<T>) {
    forall i, j :: 0 <= i < j < |s| ==> s[i] != s[j]
  }

  ghost function Elements<T>(s: seq<T>): set<T> {
    set x | x in s
  }

  lemma {:induction false} SubsetSize<T>(a: set<T>, b: set<T>)
    requires a <= b
    ensures |a| <= |b|
    ensures |a| == |b| ==> a == b
  {
    if a != {} {
      var x :| x in a;
      SubsetSize(a - {x}, b - {x});
    } else if b != {} {
      var x :| x in b;
      assert |b| == |b - {x}| + 1;
    }
  }

  lemma BelowSize(a: set<nat>, n: nat)
    requires forall x :: x in a ==> x < n
    ensures |a| <= n
  {
    SubsetSize(a, UpTo(n));
  }

  lemma {:induction false} DistinctSize<T>(s: seq<T>)
    requires forall i, j :: 0 <= i < j < |s| ==> s[i] != s[j]
    ensures |Elements(s)| == |s|
  {
    if s != [] {
      var init, last := s[..|s| - 1], s[|s| - 1];
      DistinctSize(init);
      assert s == init + [last];
      assert Elements(s) == Elements(init) + {last};
      assert last !in Elements(init);
    }
  }

  lemma DistinctAppend<T>(a: seq<T>, b: seq<T>)
    requires Distinct(a) && Distinct(b) && forall x :: x in a ==> x !in b
    ensures Distinct(a + b)
  {
    forall i, j | 0 <= i < j < |a + b|
      ensures (a + b)[i] != (a + b)[j]
    {
      if i < |a| <= j {
        assert a[i] in a && b[j - |a|] in b;
      }
    }
  }

  /** The sum of `f` over the elements of a set. */
  ghost function SumOf<T>(P: set<T>, f: T -> int): int {
    if P == {} then 0 else
      var x :| x in P;
      f(x) + SumOf(P - {x}, f)
  }

  lemma {:induction false} SumRemove<T>(P: set<T>, f: T -> int, x: T)
    requires x in P
    ensures SumOf(P, f) == f(x) + SumOf(P - {x}, f)
    decreases P
  {
    var y :| y in P && SumOf(P, f) == f(y) + SumOf(P - {y}, f);
    if y != x {
      SumRemove(P - {y}, f, x);
      SumRemove(P - {x}, f, y);
      assert P - {y} - {x} == P - {x} - {y};
    }
  }

  lemma SumAdd<T>(P: set<T>, f: T -> int, x: T)
    requires x !in P
    ensures SumOf(P + {x}, f) == SumOf(P, f) + f(x)
  {
    SumRemove(P + {x}, f, x);
    assert P + {x} - {x} == P;
  }
}
