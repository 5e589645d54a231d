/**
 Enumerating all groups of a GROUP BY by a loop nest of dynamic depth. A group is a tuple of positions, one per
 column; `sizes` holds the number of distinct values of each column.
 */
module GroupEnumeration {
  import opened Arithmetic
  import opened Counting

  ghost function Product(sizes: seq<nat>): nat {
    if sizes == [] then 1 else Product(sizes[..|sizes| - 1]) * sizes[|sizes| - 1]
  }

  /** The number whose mixed-radix digits, most significant first, are `g`. */
  ghost function Rank(g: seq<nat>, sizes: seq<nat>): nat
    requires |g| == |sizes|
  {
    if g == [] then 0 else
      var n := |g| - 1;
      Rank(g[..n], sizes[..n]) * sizes[n] + g[n]
  }

  ghost predicate InRange(g: seq<nat>, sizes: seq<nat>) {
    |g| == |sizes| && forall k :: 0 <= k < |g| ==> g[k] < sizes[k]
  }

  lemma {:induction false} RankBelow(g: seq<nat>, sizes: seq<nat>)
    requires InRange(g, sizes)
    ensures Rank(g, sizes) < Product(sizes)
  {
    if g != [] {
      var n := |g| - 1;
      var r, p := Rank(g[..n], sizes[..n]), Product(sizes[..n]);
      RankBelow(g[..n], sizes[..n]);
      Multiples(r + 1, p, sizes[n]);
    }
  }

  /** Different groups have different ranks. */
  lemma {:induction false} RankUnique(a: seq<nat>, b: seq<nat>, sizes: seq<nat>)
    requires InRange(a, sizes) && InRange(b, sizes) && Rank(a, sizes) == Rank(b, sizes)
    ensures a == b
  {
    if a != [] {
      var n := |a| - 1;
      SameDigits(Rank(a[..n], sizes[..n]), a[n], Rank(b[..n], sizes[..n]), b[n], sizes[n]);
      RankUnique(a[..n], b[..n], sizes[..n]);
      assert a == a[..n] + [a[n]] && b == b[..n] + [b[n]];
    }
  }

  lemma SameDigits(q: nat, r: nat, q': nat, r': nat, m: nat)
    requires r < m && r' < m && q * m + r == q' * m + r'
    ensures q == q' && r == r'
  {
    if q < q' {
      Multiples(q + 1, q', m);
    } else if q' < q {
      Multiples(q' + 1, q, m);
    }
  }

  lemma {:induction false} RankLast(g: seq<nat>, sizes: seq<nat>)
    requires |g| == |sizes| > 0
    ensures Rank(g[|g| - 1 := g[|g| - 1] + 1], sizes) == Rank(g, sizes) + 1
  {
    var n := |g| - 1;
    assert g[n := g[n] + 1][..n] == g[..n];
  }

  /** Carrying a full digit over to its neighbour does not change the rank. */
  lemma {:induction false} RankCarry(g: seq<nat>, sizes: seq<nat>, i: nat)
    requires |g| == |sizes| && 0 < i < |g| && g[i] == sizes[i]
    ensures Rank(g[i := 0][i - 1 := g[i - 1] + 1], sizes) == Rank(g, sizes)
    decreases |g|
  {
    var n, h := |g| - 1, g[i := 0][i - 1 := g[i - 1] + 1];
    if i < n {
      RankCarry(g[..n], sizes[..n], i);
      assert h[..n] == g[..n][i := 0][i - 1 := g[..n][i - 1] + 1];
    } else {
      assert h[..n] == g[..n][n - 1 := g[..n][n - 1] + 1];
      RankLast(g[..n], sizes[..n]);
      var r := Rank(g[..n], sizes[..n]);
      assert (r + 1) * sizes[n] == r * sizes[n] + sizes[n];
    }
  }

  lemma {:induction false} RankFull(g: seq<nat>, sizes: seq<nat>)
    requires |g| == |sizes| > 0 && g[0] == sizes[0] && forall k :: 0 < k < |g| ==> g[k] == 0
    ensures Rank(g, sizes) == Product(sizes)
    decreases |g|
  {
    var n := |g| - 1;
    if n > 0 {
      RankFull(g[..n], sizes[..n]);
    } else {
      assert g[..0] == [] && sizes[..0] == [];
      assert Product(sizes[..0]) == 1;
    }
  }

  /** Step to the next group, carrying from the last column; `exit` tells that there is none. */
  method Increment(g: array<nat>, sizes: seq<nat>) returns (exit: bool)
    requires g.Length == |sizes| > 0 && InRange(g[..], sizes)
    modifies g
    ensures !exit ==> InRange(g[..], sizes) && Rank(g[..], sizes) == old(Rank(g[..], sizes)) + 1
    ensures exit ==> old(Rank(g[..], sizes)) + 1 == Product(sizes)
  {
    hide Rank, Product;
    exit := false;
    var n := g.Length;
    RankLast(g[..], sizes);
    g[n - 1] := g[n - 1] + 1;
    assert g[..] == old(g[..])[n - 1 := old(g[..])[n - 1] + 1];
    var index: nat := n - 1;
    while g[index] == sizes[index]
      invariant index < n && g[index] <= sizes[index] && Rank(g[..], sizes) == old(Rank(g[..], sizes)) + 1
      invariant forall k :: 0 <= k < index ==> g[k] < sizes[k]
      invariant forall k :: index < k < n ==> g[k] == 0 && sizes[k] > 0
      decreases index
    {
      if index == 0 {
        exit := true;
        RankFull(g[..], sizes);
        return;
      }
      RankCarry(g[..], sizes, index);
      ghost var was := g[..];
      g[index] := 0;
      index := index - 1;
      g[index] := g[index] + 1;
      assert g[..] == was[index + 1 := 0][index := was[index] + 1];
    }
  }

  // ---------- Keys ----------

  function Power(k: nat): (p: nat)
    ensures p > 0
  {
    if k == 0 then 1 else 10 * Power(k - 1)
  }

  /** The key of a group: its positions as digits of powers of ten, the first column lowest. */
  function Key(g: seq<nat>, n: nat): nat
    requires n <= |g|
  {
    if n == 0 then 0 else Key(g, n - 1) + g[n - 1] * Power(n - 1)
  }

  method ComputeKey(g: seq<nat>) returns (key: nat)
    ensures key == Key(g, |g|)
  {
    key := 0;
    for k := 0 to |g|
      invariant key == Key(g, k)
    {
      key := key + g[k] * Power(k);
    }
  }

  /** Every column fits below the next column that has more than one value. */
  ghost predicate KeysFit(sizes: seq<nat>) {
    forall k, j :: 0 <= k < j < |sizes| && sizes[j] > 1 ==> sizes[k] <= Power(j - k)
  }

  lemma {:induction false} PowerSum(a: nat, b: nat)
    ensures Power(a + b) == Power(a) * Power(b)
  {
    if a > 0 {
      PowerSum(a - 1, b);
    }
  }

  /** The digits before a column with several values stay below its power of ten. */
  lemma {:induction false} KeyBelow(g: seq<nat>, sizes: seq<nat>, n: nat, j: nat)
    requires InRange(g, sizes) && KeysFit(sizes) && n <= j < |g| && sizes[j] > 1
    ensures Key(g, n) < Power(j)
    decreases n
  {
    hide Power;
    if n > 0 {
      var k := n - 1;
      if g[k] == 0 {
        KeyBelow(g, sizes, k, j);
      } else {
        KeyBelow(g, sizes, k, k);
        PowerSum(j - k, k);
        assert sizes[k] <= Power(j - k);
        TopDigit(Key(g, k), g[k], Power(k), Power(j - k));
      }
    }
  }

  lemma TopDigit(low: nat, digit: nat, p: nat, q: nat)
    requires low < p && digit < q
    ensures low + digit * p < q * p
  {
    Multiples(digit + 1, q, p);
  }

  lemma {:induction false} KeysDiffer(a: seq<nat>, b: seq<nat>, sizes: seq<nat>, n: nat)
    requires InRange(a, sizes) && InRange(b, sizes) && KeysFit(sizes) && n <= |a| && Key(a, n) == Key(b, n)
    ensures a[..n] == b[..n]
  {
    if n > 0 {
      var k := n - 1;
      if a[k] != b[k] {
        KeyBelow(a, sizes, k, k);
        KeyBelow(b, sizes, k, k);
        SameDigits(a[k], Key(a, k), b[k], Key(b, k), Power(k));
        assert false;
      }
      KeysDiffer(a, b, sizes, k);
      assert a[..n] == a[..k] + [a[k]] && b[..n] == b[..k] + [b[k]];
    }
  }

  ghost predicate KeysInjective(sizes: seq<nat>) {
    forall a, b :: InRange(a, sizes) && InRange(b, sizes) && Key(a, |a|) == Key(b, |b|) ==> a == b
  }

  ghost function OneHot(n: nat, k: nat, v: nat): seq<nat> {
    seq(n, i => if i == k then v else 0)
  }

  lemma {:induction false} OneHotKey(n: nat, k: nat, v: nat, m: nat)
    requires m <= n
    ensures Key(OneHot(n, k, v), m) == if k < m then v * Power(k) else 0
  {
    if m > 0 {
      OneHotKey(n, k, v, m - 1);
    }
  }

  /** Two groups never share a key exactly when every column fits below the next one with several values. */
  lemma KeysInjectiveIff(sizes: seq<nat>)
    requires forall k :: 0 <= k < |sizes| ==> sizes[k] > 0
    ensures KeysInjective(sizes) <==> KeysFit(sizes)
  {
    if KeysFit(sizes) {
      forall a, b | InRange(a, sizes) && InRange(b, sizes) && Key(a, |a|) == Key(b, |b|)
        ensures a == b
      {
        KeysDiffer(a, b, sizes, |a|);
        assert a[..|a|] == a && b[..|b|] == b;
      }
    } else {
      var n := |sizes|;
      var k, j :| 0 <= k < j < n && sizes[j] > 1 && sizes[k] > Power(j - k);
      var a, b := OneHot(n, k, Power(j - k)), OneHot(n, j, 1);
      OneHotKey(n, k, Power(j - k), n);
      OneHotKey(n, j, 1, n);
      PowerSum(j - k, k);
      assert InRange(a, sizes) && InRange(b, sizes);
      assert a[j] != b[j];
    }
  }

  /** The usual case: all columns but the last have at most ten values. */
  lemma TenValuesFit(sizes: seq<nat>)
    requires forall k :: 0 <= k < |sizes| - 1 ==> sizes[k] <= 10
    ensures KeysFit(sizes)
  {
    forall k, j | 0 <= k < j < |sizes| && sizes[j] > 1
      ensures sizes[k] <= Power(j - k)
    {
      PowerSum(1, j - k - 1);
      Multiples(1, Power(j - k - 1), 10);
    }
  }

  /** With an eleventh value in a column and a second one in the next, two groups share a key. */
  lemma ElevenValuesCollide(sizes: seq<nat>, k: nat) returns (a: seq<nat>, b: seq<nat>)
    requires k + 1 < |sizes| && sizes[k] >= 11 && sizes[k + 1] >= 2 && forall i :: 0 <= i < |sizes| ==> sizes[i] > 0
    ensures InRange(a, sizes) && InRange(b, sizes) && a[k] == 10 && b[k] == 0 && Key(a, |a|) == Key(b, |b|)
  {
    var n := |sizes|;
    a, b := OneHot(n, k, 10), OneHot(n, k + 1, 1);
    OneHotKey(n, k, 10, n);
    OneHotKey(n, k + 1, 1, n);
  }

  // ---------- Enumeration and scan ----------

  /** All groups in order of rank, and for each key the number of the last group that has it. */
  ghost predicate Enumerated(sizes: seq<nat>, groups: seq<seq<nat>>, index: map<nat, nat>) {
    && (forall i :: 0 <= i < |groups| ==> InRange(groups[i], sizes) && Rank(groups[i], sizes) == i)
    && (forall i :: 0 <= i < |groups| ==> var key := Key(groups[i], |sizes|); key in index && i <= index[key] < |groups| && Key(groups[index[key]], |sizes|) == key)
  }

  method Enumerate(sizes: seq<nat>) returns (groups: seq<seq<nat>>, index: map<nat, nat>)
    requires forall k :: 0 <= k < |sizes| ==> sizes[k] > 0
    ensures |groups| == Product(sizes) && Enumerated(sizes, groups, index)
  {
    hide Product, Enumerated, Key;
    var n := |sizes|;
    var g := new nat[n](_ => 0);
    groups, index := [], map[];
    StartsAtZero(g[..], sizes);
    ghost var total := Product(sizes);
    var exit := false;
    RankBelow(g[..], sizes);
    while !exit
      invariant Enumerated(sizes, groups, index) && |groups| <= total
      invariant !exit ==> InRange(g[..], sizes) && Rank(g[..], sizes) == |groups| < total
      invariant exit ==> |groups| == total
      decreases total - |groups|, !exit
    {
      var key := ComputeKey(g[..]);
      NextGroup(sizes, groups, index, g[..], key);
      groups, index := groups + [g[..]], index[key := |groups|];
      if n == 0 {
        OneGroup(sizes);
        return;
      }
      exit := Increment(g, sizes);
      if !exit {
        RankBelow(g[..], sizes);
      }
    }
  }

  lemma StartsAtZero(g: seq<nat>, sizes: seq<nat>)
    requires |g| == |sizes| && forall k :: 0 <= k < |g| ==> g[k] == 0 < sizes[k]
    ensures InRange(g, sizes) && Rank(g, sizes) == 0 && Enumerated(sizes, [], map[])
  {
    ZeroRank(g, sizes);
  }

  lemma {:induction false} ZeroRank(g: seq<nat>, sizes: seq<nat>)
    requires |g| == |sizes| && forall k :: 0 <= k < |g| ==> g[k] == 0
    ensures Rank(g, sizes) == 0
  {
    if g != [] {
      ZeroRank(g[..|g| - 1], sizes[..|g| - 1]);
    }
  }

  lemma OneGroup(sizes: seq<nat>)
    requires sizes == []
    ensures Product(sizes) == 1
  {
  }

  lemma NextGroup(sizes: seq<nat>, groups: seq<seq<nat>>, index: map<nat, nat>, g: seq<nat>, key: nat)
    requires Enumerated(sizes, groups, index) && InRange(g, sizes) && Rank(g, sizes) == |groups| && key == Key(g, |g|)
    ensures Enumerated(sizes, groups + [g], index[key := |groups|])
  {
    hide Rank, Key;
  }

  /** Every group is enumerated exactly once. */
  lemma EnumerationIsComplete(sizes: seq<nat>, groups: seq<seq<nat>>, index: map<nat, nat>, g: seq<nat>, i: nat)
    requires Enumerated(sizes, groups, index) && |groups| == Product(sizes) && InRange(g, sizes)
    ensures i < |groups| && groups[i] == g <==> i == Rank(g, sizes)
  {
    hide Key;
    RankBelow(g, sizes);
    RankUnique(g, groups[Rank(g, sizes)], sizes);
  }

  /** With keys that fit, the index finds each group's own number. */
  lemma IndexFindsGroup(sizes: seq<nat>, groups: seq<seq<nat>>, index: map<nat, nat>, g: seq<nat>)
    requires Enumerated(sizes, groups, index) && |groups| == Product(sizes) && InRange(g, sizes) && KeysFit(sizes)
    ensures Key(g, |g|) in index && index[Key(g, |g|)] == Rank(g, sizes)
  {
    hide Rank, Key, KeysFit;
    RankBelow(g, sizes);
    var i, key := Rank(g, sizes), Key(g, |g|);
    RankUnique(g, groups[i], sizes);
    var j := index[key];
    KeysDiffer(g, groups[j], sizes, |g|);
    assert g[..|g|] == g && groups[j][..|g|] == groups[j];
  }

  /** Otherwise it misses some group. */
  lemma IndexRightIff(sizes: seq<nat>, groups: seq<seq<nat>>, index: map<nat, nat>)
    requires Enumerated(sizes, groups, index) && |groups| == Product(sizes) && forall k :: 0 <= k < |sizes| ==> sizes[k] > 0
    ensures KeysFit(sizes) <==> forall g :: InRange(g, sizes) ==> Key(g, |g|) in index && index[Key(g, |g|)] == Rank(g, sizes)
  {
    hide Rank, Key, KeysFit, Enumerated;
    if KeysFit(sizes) {
      forall g | InRange(g, sizes)
        ensures Key(g, |g|) in index && index[Key(g, |g|)] == Rank(g, sizes)
      {
        IndexFindsGroup(sizes, groups, index, g);
      }
    } else {
      KeysInjectiveIff(sizes);
      var a, b :| InRange(a, sizes) && InRange(b, sizes) && Key(a, |a|) == Key(b, |b|) && a != b;
      if Rank(a, sizes) == Rank(b, sizes) {
        RankUnique(a, b, sizes);
      }
    }
  }

  /** The value of a row; 0 where there is none. */
  ghost function ValueAt(rows: seq<(seq<nat>, int)>): nat -> int {
    (r: nat) => if r < |rows| then rows[r].1 else 0
  }

  /** Those of the first `n` rows whose key the index sends to group number `i`. */
  ghost function LedTo(index: map<nat, nat>, rows: seq<(seq<nat>, int)>, i: nat, n: nat): set<nat>
    requires n <= |rows|
  {
    set r | 0 <= r < n && Key(rows[r].0, |rows[r].0|) in index && index[Key(rows[r].0, |rows[r].0|)] == i
  }

  /** The rows of group `g`. */
  ghost function RowsOf(rows: seq<(seq<nat>, int)>, g: seq<nat>): set<nat> {
    set r | 0 <= r < |rows| && rows[r].0 == g
  }

  /** With keys that fit, the rows led to a group are its own. */
  lemma LedRight(sizes: seq<nat>, groups: seq<seq<nat>>, index: map<nat, nat>, rows: seq<(seq<nat>, int)>, i: nat)
    requires Enumerated(sizes, groups, index) && |groups| == Product(sizes) && KeysFit(sizes) && i < |groups|
    requires forall r :: 0 <= r < |rows| ==> InRange(rows[r].0, sizes)
    ensures LedTo(index, rows, i, |rows|) == RowsOf(rows, groups[i])
  {
    hide Rank, Key, KeysFit, Product, Enumerated;
    forall r | 0 <= r < |rows|
      ensures r in LedTo(index, rows, i, |rows|) <==> r in RowsOf(rows, groups[i])
    {
      IndexFindsGroup(sizes, groups, index, rows[r].0);
      EnumerationIsComplete(sizes, groups, index, rows[r].0, i);
    }
  }

  lemma LedNext(index: map<nat, nat>, rows: seq<(seq<nat>, int)>, i: nat, r: nat)
    requires r < |rows| && Key(rows[r].0, |rows[r].0|) in index
    ensures SumOf(LedTo(index, rows, i, r + 1), ValueAt(rows)) ==
            SumOf(LedTo(index, rows, i, r), ValueAt(rows)) + (if index[Key(rows[r].0, |rows[r].0|)] == i then rows[r].1 else 0)
  {
    hide Key;
    if index[Key(rows[r].0, |rows[r].0|)] == i {
      SumAdd(LedTo(index, rows, i, r), ValueAt(rows), r);
      assert LedTo(index, rows, i, r + 1) == LedTo(index, rows, i, r) + {r};
    } else {
      assert LedTo(index, rows, i, r + 1) == LedTo(index, rows, i, r);
    }
  }

  lemma KeyKnown(sizes: seq<nat>, groups: seq<seq<nat>>, index: map<nat, nat>, g: seq<nat>)
    requires Enumerated(sizes, groups, index) && |groups| == Product(sizes) && InRange(g, sizes)
    ensures Key(g, |g|) in index && index[Key(g, |g|)] < |groups|
  {
    hide Rank, Key;
    RankBelow(g, sizes);
    RankUnique(g, groups[Rank(g, sizes)], sizes);
  }

  /** Add the rows of a block to the totals their keys lead to: with keys that fit, those of their groups. */
  method BlockScan(sizes: seq<nat>, groups: seq<seq<nat>>, index: map<nat, nat>, rows: seq<(seq<nat>, int)>, totals: array<int>)
    requires Enumerated(sizes, groups, index) && |groups| == Product(sizes) && totals.Length == |groups|
    requires forall r :: 0 <= r < |rows| ==> InRange(rows[r].0, sizes)
    modifies totals
    ensures forall i :: 0 <= i < |groups| ==> totals[i] == old(totals[i]) + SumOf(LedTo(index, rows, i, |rows|), ValueAt(rows))
    ensures KeysFit(sizes) ==> forall i :: 0 <= i < |groups| ==> totals[i] == old(totals[i]) + SumOf(RowsOf(rows, groups[i]), ValueAt(rows))
  {
    hide Rank, Key, KeysFit, Product, Enumerated, SumOf, ValueAt;
    forall i: nat
      ensures SumOf(LedTo(index, rows, i, 0), ValueAt(rows)) == 0
    {
      NoSum(LedTo(index, rows, i, 0), ValueAt(rows));
    }
    for r := 0 to |rows|
      invariant forall i :: 0 <= i < |groups| ==> totals[i] == old(totals[i]) + SumOf(LedTo(index, rows, i, r), ValueAt(rows))
    {
      var (g, value) := rows[r];
      var key := ComputeKey(g);
      KeyKnown(sizes, groups, index, g);
      totals[index[key]] := totals[index[key]] + value;
      forall i: nat | i < |groups|
        ensures SumOf(LedTo(index, rows, i, r + 1), ValueAt(rows)) ==
                SumOf(LedTo(index, rows, i, r), ValueAt(rows)) + (if index[key] == i then value else 0)
      {
        LedNext(index, rows, i, r);
      }
    }
    if KeysFit(sizes) {
      forall i | 0 <= i < |groups|
        ensures totals[i] == old(totals[i]) + SumOf(RowsOf(rows, groups[i]), ValueAt(rows))
      {
        LedRight(sizes, groups, index, rows, i);
      }
    }
  }

  lemma NoSum(P: set<nat>, f: nat -> int)
    requires P == {}
    ensures SumOf(P, f) == 0
  {
  }
}
