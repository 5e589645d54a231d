/** Columns cut into chunks. */
module Chunked {

  /** The rows of a chunked column in order, and where each chunk starts. */
  ghost function Flat<T>(column: seq<seq<T>>): seq<T> {
    if column == [] then [] else Flat(column[..|column| - 1]) + column[|column| - 1]
  }

  ghost function Start(lengths: seq<nat>, i: nat): nat
    requires i <= |lengths|
  {
    if i == 0 then 0 else Start(lengths, i - 1) + lengths[i - 1]
  }

  method ChunkOffsets(lengths: seq<nat>) returns (offsets: seq<nat>)
    requires |lengths| > 0
    ensures |offsets| == |lengths| && forall i :: 0 <= i < |lengths| ==> offsets[i] == Start(lengths, i)
  {
    offsets := [0];
    for i := 1 to |lengths|
      invariant |offsets| == i && forall k :: 0 <= k < i ==> offsets[k] == Start(lengths, k)
    {
      offsets := offsets + [offsets[i - 1] + lengths[i - 1]];
    }
  }

  lemma {:induction false} FlatAt<T>(column: seq<seq<T>>, lengths: seq<nat>, i: nat, x: nat)
    requires |column| == |lengths| && (forall k :: 0 <= k < |column| ==> |column[k]| == lengths[k]) && i < |column| && x < lengths[i]
    ensures |Flat(column)| == Start(lengths, |lengths|)
    ensures Start(lengths, i) + x < |Flat(column)| && Flat(column)[Start(lengths, i) + x] == column[i][x]
    decreases |column|
  {
    var n := |column| - 1;
    FlatLength(column, lengths);
    FlatLength(column[..n], lengths[..n]);
    StartPrefix(lengths, n, n);
    if i < n {
      FlatAt(column[..n], lengths[..n], i, x);
      StartPrefix(lengths, n, i);
    }
  }

  lemma {:induction false} FlatLength<T>(column: seq<seq<T>>, lengths: seq<nat>)
    requires |column| == |lengths| && forall k :: 0 <= k < |column| ==> |column[k]| == lengths[k]
    ensures |Flat(column)| == Start(lengths, |lengths|)
    decreases |column|
  {
    if column != [] {
      var n := |column| - 1;
      FlatLength(column[..n], lengths[..n]);
      StartPrefix(lengths, n, n);
    }
  }

  lemma {:induction false} StartPrefix(lengths: seq<nat>, n: nat, i: nat)
    requires i <= n <= |lengths|
    ensures Start(lengths[..n], i) == Start(lengths, i)
  {
    if i > 0 {
      StartPrefix(lengths, n, i - 1);
    }
  }

  /** The chunk that holds row `r`. */
  ghost predicate InChunkNumber(lengths: seq<nat>, i: nat, r: nat) {
    i < |lengths| && Start(lengths, i) <= r < Start(lengths, i) + lengths[i]
  }

  lemma NextStart(lengths: seq<nat>, i: nat)
    requires i < |lengths|
    ensures Start(lengths, i + 1) == Start(lengths, i) + lengths[i]
  {
  }

  lemma {:induction false} StartsRise(lengths: seq<nat>, i: nat, k: nat)
    requires i <= k <= |lengths|
    ensures Start(lengths, i) <= Start(lengths, k)
    decreases k - i
  {
    if i < k {
      StartsRise(lengths, i, k - 1);
    }
  }

  /** No row is in two chunks. */
  lemma OneChunk(lengths: seq<nat>, i: nat, k: nat, r: nat)
    requires InChunkNumber(lengths, i, r) && InChunkNumber(lengths, k, r)
    ensures i == k
  {
    hide Start;
    if k < i {
      StartsRise(lengths, k + 1, i);
      NextStart(lengths, k);
    } else if i < k {
      StartsRise(lengths, i + 1, k);
      NextStart(lengths, i);
    }
  }
}
