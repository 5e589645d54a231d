/**
 Fetching rows of a chunked column by row number. The row numbers are cut into slices that are handled by
 separate tasks; each finds the chunk of a row by binary search, or is told it.
 */
module Gather {
  import opened Arithmetic
  import opened Chunked
  import opened StringColumn
  import FilterJoin

  // ---------- Slices ----------

  function NumSlices(n: nat, L: nat): nat
    requires L > 0
  {
    n / L + 1
  }

  /** What `Slice(offset, length)` of an array does: the length is cut off at the end of the array. */
  function Slice<T>(s: seq<T>, offset: nat, length: nat): seq<T>
    requires offset <= |s|
  {
    if length <= |s| - offset then s[offset..offset + length] else s[offset..]
  }

  lemma SliceStarts(n: nat, L: nat, i: nat)
    requires L > 0 && i < NumSlices(n, L)
    ensures i * L <= n && n - (i - 1) * L >= 0
    ensures i == n / L ==> n - i * L < L && n - i * L <= n - (i - 1) * L
    ensures i < n / L ==> (i + 1) * L <= n
  {
    var q := n / L;
    assert q * L <= n < q * L + L;
    Multiples(i, q, L);
    if i < q {
      Multiples(i + 1, q, L);
    }
  }

  /** Slice number `i`: the last one asks for more than is left. */
  function SliceOf<T>(s: seq<T>, L: nat, i: nat): seq<T>
    requires L > 0 && i < NumSlices(|s|, L)
  {
    SliceStarts(|s|, L, i);
    Slice(s, i * L, if i == NumSlices(|s|, L) - 1 then |s| - (i - 1) * L else L)
  }

  function End(n: nat, L: nat, k: nat): nat {
    if k * L <= n then k * L else n
  }

  lemma SliceIs<T>(s: seq<T>, L: nat, i: nat)
    requires L > 0 && i < NumSlices(|s|, L)
    ensures i * L <= |s| && End(|s|, L, i) == i * L <= End(|s|, L, i + 1)
    ensures SliceOf(s, L, i) == s[i * L..End(|s|, L, i + 1)]
  {
    SliceStarts(|s|, L, i);
    assert (i + 1) * L == i * L + L && (i - 1) * L == i * L - L;
  }

  lemma AllSliced(n: nat, L: nat)
    requires L > 0
    ensures End(n, L, NumSlices(n, L)) == n
  {
    assert n < (n / L + 1) * L;
  }

  ghost function Slices<T>(s: seq<T>, L: nat, k: nat): seq<seq<T>>
    requires L > 0 && k <= NumSlices(|s|, L)
  {
    seq(k, i requires 0 <= i < k => SliceOf(s, L, i))
  }

  lemma FlatAppend<T>(column: seq<seq<T>>, chunk: seq<T>)
    ensures Flat(column + [chunk]) == Flat(column) + chunk
  {
    assert (column + [chunk])[..|column|] == column;
  }

  /** The slices are the array, also when its length is a multiple of the slice length. */
  lemma {:induction false} SlicesCover<T>(s: seq<T>, L: nat, k: nat)
    requires L > 0 && k <= NumSlices(|s|, L)
    ensures Flat(Slices(s, L, k)) == s[..End(|s|, L, k)]
    ensures k == NumSlices(|s|, L) ==> Flat(Slices(s, L, k)) == s
  {
    hide SliceOf, End, Flat, NumSlices;
    EndWithin(|s|, L, k);
    if k == 0 {
      EndZero(|s|, L);
      NoChunks(Slices(s, L, 0));
    } else {
      SlicesCover(s, L, k - 1);
      SliceIs(s, L, k - 1);
      assert Slices(s, L, k) == Slices(s, L, k - 1) + [SliceOf(s, L, k - 1)];
      FlatAppend(Slices(s, L, k - 1), SliceOf(s, L, k - 1));
    }
    if k == NumSlices(|s|, L) {
      AllSliced(|s|, L);
      assert s[..|s|] == s;
    }
  }

  lemma EndZero(n: nat, L: nat)
    ensures End(n, L, 0) == 0
  {
  }

  // ---------- Finding the chunk ----------

  /** The starts of all chunks, and the total length. */
  ghost predicate Offsets(lengths: seq<nat>, offsets: seq<nat>) {
    |offsets| == |lengths| + 1 && forall i :: 0 <= i <= |lengths| ==> offsets[i] == Start(lengths, i)
  }

  method AllOffsets(lengths: seq<nat>) returns (offsets: seq<nat>)
    requires |lengths| > 0
    ensures Offsets(lengths, offsets)
  {
    offsets := ChunkOffsets(lengths);
    var n := |lengths|;
    offsets := offsets + [offsets[n - 1] + lengths[n - 1]];
  }

  /** The first position whose offset is above `x`. */
  method UpperBound(offsets: seq<nat>, x: nat) returns (p: nat)
    requires forall i, j :: 0 <= i < j < |offsets| ==> offsets[i] <= offsets[j]
    ensures p <= |offsets| && (forall i :: 0 <= i < p ==> offsets[i] <= x) && (forall i :: p <= i < |offsets| ==> offsets[i] > x)
  {
    p := 0;
    var count := |offsets|;
    while count > 0
      invariant 0 <= count && p + count <= |offsets|
      invariant (forall i :: 0 <= i < p ==> offsets[i] <= x) && (forall i :: p + count <= i < |offsets| ==> offsets[i] > x)
    {
      var half := count / 2;
      if offsets[p + half] <= x {
        p, count := p + half + 1, count - half - 1;
      } else {
        count := half;
      }
    }
  }

  lemma OffsetsRise(lengths: seq<nat>, offsets: seq<nat>)
    requires Offsets(lengths, offsets)
    ensures forall i, j :: 0 <= i < j < |offsets| ==> offsets[i] <= offsets[j]
  {
    hide Start;
    forall i, j | 0 <= i < j < |offsets|
      ensures offsets[i] <= offsets[j]
    {
      StartsRise(lengths, i, j);
    }
  }

  /** The search ends one past the chunk that holds the row; empty chunks are stepped over. */
  method ChunkFor(lengths: seq<nat>, offsets: seq<nat>, r: nat) returns (i: nat)
    requires Offsets(lengths, offsets) && r < Start(lengths, |lengths|)
    ensures InChunkNumber(lengths, i, r)
  {
    hide Start;
    OffsetsRise(lengths, offsets);
    var p := UpperBound(offsets, r);
    assert p > 0 by { assert offsets[0] == Start(lengths, 0); FirstStart(lengths); }
    assert p < |offsets| by { assert offsets[|lengths|] == Start(lengths, |lengths|); }
    i := p - 1;
    NextStart(lengths, i);
  }

  lemma FirstStart(lengths: seq<nat>)
    ensures Start(lengths, 0) == 0
  {
  }

  ghost predicate Shaped<T>(values: seq<seq<T>>, lengths: seq<nat>) {
    |values| == |lengths| && forall i :: 0 <= i < |values| ==> |values[i]| == lengths[i]
  }

  lemma RowAt<T>(values: seq<seq<T>>, lengths: seq<nat>, i: nat, r: nat)
    requires Shaped(values, lengths) && InChunkNumber(lengths, i, r)
    ensures r < |Flat(values)| && Flat(values)[r] == values[i][r - Start(lengths, i)]
  {
    FlatAt(values, lengths, i, r - Start(lengths, i));
  }

  // ---------- Gathering ----------

  /** Indexing the whole column. */
  ghost function Gathered<T>(flat: seq<T>, indices: seq<nat>): seq<T>
    requires forall i :: 0 <= i < |indices| ==> indices[i] < |flat|
  {
    seq(|indices|, i requires 0 <= i < |indices| => flat[indices[i]])
  }

  /** Where each row lies, if it is known. */
  datatype Located = Unknown | Known(chunks: seq<nat>)

  ghost predicate LocatedRight(lengths: seq<nat>, indices: seq<nat>, located: Located) {
    located.Known? ==> |located.chunks| == |indices| && forall i :: 0 <= i < |indices| ==> InChunkNumber(lengths, located.chunks[i], indices[i])
  }

  /** One slice, with or without given chunk numbers. */
  method GatherSlice<T>(values: seq<seq<T>>, lengths: seq<nat>, offsets: seq<nat>, indices: seq<nat>, located: Located) returns (out: seq<T>)
    requires Shaped(values, lengths) && Offsets(lengths, offsets) && LocatedRight(lengths, indices, located)
    requires forall i :: 0 <= i < |indices| ==> indices[i] < |Flat(values)|
    ensures out == Gathered(Flat(values), indices)
  {
    hide Flat, Start, Offsets, InChunkNumber;
    out := [];
    FlatLength(values, lengths);
    for i := 0 to |indices|
      invariant |out| == i && forall k :: 0 <= k < i ==> out[k] == Flat(values)[indices[k]]
    {
      var j;
      if located.Unknown? {
        j := ChunkFor(lengths, offsets, indices[i]);
      } else {
        j := located.chunks[i];
      }
      Inside(lengths, offsets, j, indices[i]);
      RowAt(values, lengths, j, indices[i]);
      out := out + [values[j][indices[i] - offsets[j]]];
    }
  }

  lemma Inside(lengths: seq<nat>, offsets: seq<nat>, j: nat, r: nat)
    requires Offsets(lengths, offsets) && InChunkNumber(lengths, j, r)
    ensures j < |lengths| && j < |offsets| && offsets[j] == Start(lengths, j) <= r < offsets[j] + lengths[j]
  {
  }

  function LocatedSlice(located: Located, L: nat, i: nat): Located
    requires L > 0 && (located.Known? ==> i < NumSlices(|located.chunks|, L))
  {
    if located.Unknown? then Unknown else Known(SliceOf<nat>(located.chunks, L, i))
  }

  /** Gather all slices. Their concatenation is the column indexed by the row numbers in order. */
  method ApplyIndices<T>(values: seq<seq<T>>, lengths: seq<nat>, indices: seq<nat>, located: Located, L: nat) returns (out: seq<seq<T>>)
    requires L > 0 && |values| > 0 && Shaped(values, lengths) && LocatedRight(lengths, indices, located)
    requires forall i :: 0 <= i < |indices| ==> indices[i] < |Flat(values)|
    ensures |out| == NumSlices(|indices|, L) && Flat(out) == Gathered(Flat(values), indices)
  {
    hide Flat, SliceOf, End, Offsets, InChunkNumber, Shaped;
    ShapedLength(values, lengths);
    var offsets := AllOffsets(lengths);
    out := [];
    ghost var flat := Flat(values);
    ghost var n := |indices|;
    assert Flat(out) == [] && End(n, L, 0) == 0 by { NoChunks<T>(out); EndZero(n, L); }
    for i := 0 to NumSlices(|indices|, L)
      invariant |out| == i && 0 <= End(n, L, i) <= n
      invariant Flat(out) == Gathered(flat, indices[..End(n, L, i)])
    {
      SliceLocated(lengths, indices, located, L, i);
      SliceBelow(indices, L, i, |flat|);
      var part := GatherSlice(values, lengths, offsets, SliceOf<nat>(indices, L, i), LocatedSlice(located, L, i));
      FlatAppend(out, part);
      GatheredAppend(flat, indices[..End(n, L, i)], SliceOf<nat>(indices, L, i));
      out := out + [part];
    }
    AllSliced(n, L);
    assert indices[..n] == indices;
  }

  lemma ShapedLength<T>(values: seq<seq<T>>, lengths: seq<nat>)
    requires Shaped(values, lengths)
    ensures |values| == |lengths|
  {
  }

  lemma NoChunks<T>(out: seq<seq<T>>)
    requires out == []
    ensures Flat(out) == []
  {
  }

  lemma EndWithin(n: nat, L: nat, k: nat)
    ensures End(n, L, k) <= n
  {
  }

  lemma GatheredAppend<T>(flat: seq<T>, a: seq<nat>, b: seq<nat>)
    requires (forall i :: 0 <= i < |a| ==> a[i] < |flat|) && (forall i :: 0 <= i < |b| ==> b[i] < |flat|)
    ensures forall i :: 0 <= i < |a + b| ==> (a + b)[i] < |flat|
    ensures Gathered(flat, a + b) == Gathered(flat, a) + Gathered(flat, b)
  {
  }

  lemma SliceBelow(s: seq<nat>, L: nat, i: nat, bound: nat)
    requires L > 0 && i < NumSlices(|s|, L) && forall k :: 0 <= k < |s| ==> s[k] < bound
    ensures forall k :: 0 <= k < |SliceOf<nat>(s, L, i)| ==> SliceOf<nat>(s, L, i)[k] < bound
    ensures End(|s|, L, i) <= End(|s|, L, i + 1) <= |s| && s[..End(|s|, L, i + 1)] == s[..End(|s|, L, i)] + SliceOf<nat>(s, L, i)
  {
    hide SliceOf, NumSlices;
    EndWithin(|s|, L, i + 1);
    SliceIs<nat>(s, L, i);
  }

  lemma SliceLocated(lengths: seq<nat>, indices: seq<nat>, located: Located, L: nat, i: nat)
    requires L > 0 && i < NumSlices(|indices|, L) && LocatedRight(lengths, indices, located)
    ensures located.Known? ==> |located.chunks| == |indices|
    ensures LocatedRight(lengths, SliceOf<nat>(indices, L, i), LocatedSlice(located, L, i))
  {
    hide SliceOf, InChunkNumber;
    SliceIs<nat>(indices, L, i);
    if located.Known? {
      SliceIs<nat>(located.chunks, L, i);
    }
  }

  /** The chunk numbers a filter join stores can be used exactly if no output row lies in a chunk numbered 65536 or more. */
  lemma JoinOutputLocated(lengths: seq<nat>, fact: seq<nat>, chunks: seq<nat>)
    requires FilterJoin.Tagged(lengths, fact, chunks)
    ensures LocatedRight(lengths, fact, Known(chunks)) <==>
            forall p, i: nat :: 0 <= p < |fact| && InChunkNumber(lengths, i, fact[p]) ==> i < 0x1_0000
  {
    hide InChunkNumber;
    if forall p, i: nat :: 0 <= p < |fact| && InChunkNumber(lengths, i, fact[p]) ==> i < 0x1_0000 {
      forall p | 0 <= p < |fact|
        ensures InChunkNumber(lengths, chunks[p], fact[p])
      {
        assert FilterJoin.Tag(lengths, fact[p], chunks[p]);
      }
    }
    if LocatedRight(lengths, fact, Known(chunks)) {
      forall p, i: nat | 0 <= p < |fact| && InChunkNumber(lengths, i, fact[p])
        ensures i < 0x1_0000
      {
        assert FilterJoin.Tag(lengths, fact[p], chunks[p]);
        OneChunk(lengths, i, chunks[p], fact[p]);
      }
    }
  }

  // ---------- Strings ----------

  ghost function DecodedAll(values: seq<Strings>): seq<seq<seq<bv8>>>
    requires forall k :: 0 <= k < |values| ==> WellFormed(values[k])
  {
    seq(|values|, k requires 0 <= k < |values| => Decoded(values[k]))
  }

  /** One slice of a string column: the strings are copied end to end and new offsets recorded. */
  method GatherStrings(values: seq<Strings>, lengths: seq<nat>, offsets: seq<nat>, indices: seq<nat>) returns (out: Strings)
    requires forall k :: 0 <= k < |values| ==> WellFormed(values[k])
    requires Shaped(DecodedAll(values), lengths) && Offsets(lengths, offsets)
    requires forall i :: 0 <= i < |indices| ==> indices[i] < |Flat(DecodedAll(values))|
    ensures WellFormed(out) && Decoded(out) == Gathered(Flat(DecodedAll(values)), indices)
  {
    hide Flat, Start, Offsets, InChunkNumber, Decoded;
    ghost var flat := Flat(DecodedAll(values));
    var starts, offset, bytes := [], 0, [];
    FlatLength(DecodedAll(values), lengths);
    assert starts + [offset] == [0];
    NoStrings(Strings([0], []));
    for i := 0 to |indices|
      invariant |starts| == i && offset == |bytes| && WellFormed(Strings(starts + [offset], bytes))
      invariant |Decoded(Strings(starts + [offset], bytes))| == i
      invariant forall k :: 0 <= k < i ==> Decoded(Strings(starts + [offset], bytes))[k] == flat[indices[k]]
    {
      var j := ChunkFor(lengths, offsets, indices[i]);
      Inside(lengths, offsets, j, indices[i]);
      RowAt(DecodedAll(values), lengths, j, indices[i]);
      var index := indices[i] - offsets[j];
      StringIs(values[j], index);
      var from, size := values[j].offsets[index], values[j].offsets[index + 1] - values[j].offsets[index];
      var text := values[j].bytes[from..from + size];
      AppendString(Strings(starts + [offset], bytes), text);
      starts := starts + [offset];
      offset := offset + size;
      bytes := bytes + text;
    }
    out := Strings(starts + [offset], bytes);
  }

  /** Gather all slices of a string column: decoded and concatenated, they are the strings at the row numbers in order. */
  method ApplyIndicesToStrings(values: seq<Strings>, lengths: seq<nat>, indices: seq<nat>, L: nat) returns (out: seq<Strings>)
    requires L > 0 && |values| > 0 && forall k :: 0 <= k < |values| ==> WellFormed(values[k])
    requires Shaped(DecodedAll(values), lengths)
    requires forall i :: 0 <= i < |indices| ==> indices[i] < |Flat(DecodedAll(values))|
    ensures |out| == NumSlices(|indices|, L) && forall k :: 0 <= k < |out| ==> WellFormed(out[k])
    ensures Flat(DecodedAll(out)) == Gathered(Flat(DecodedAll(values)), indices)
  {
    hide Flat, SliceOf, End, Offsets, InChunkNumber, Shaped, WellFormed, Decoded;
    ShapedLength(DecodedAll(values), lengths);
    var offsets := AllOffsets(lengths);
    out := [];
    ghost var flat := Flat(DecodedAll(values));
    ghost var n := |indices|;
    NoChunks(DecodedAll(out));
    EndZero(n, L);
    for i := 0 to NumSlices(|indices|, L)
      invariant |out| == i && 0 <= End(n, L, i) <= n && forall k :: 0 <= k < |out| ==> WellFormed(out[k])
      invariant Flat(DecodedAll(out)) == Gathered(flat, indices[..End(n, L, i)])
    {
      SliceBelow(indices, L, i, |flat|);
      var part := GatherStrings(values, lengths, offsets, SliceOf<nat>(indices, L, i));
      assert DecodedAll(out + [part]) == DecodedAll(out) + [Decoded(part)];
      FlatAppend(DecodedAll(out), Decoded(part));
      GatheredAppend(flat, indices[..End(n, L, i)], SliceOf<nat>(indices, L, i));
      out := out + [part];
    }
    AllSliced(n, L);
    assert indices[..n] == indices;
  }
}
