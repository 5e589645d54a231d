/**
 The fused filter join: a fact table is joined with several dimension tables at once. Each chunk of the fact
 table is probed against one dimension after the other; rows without a match are swapped behind the end of
 the index arrays, which are then cut off.
 */
module FilterJoin {
  import opened Arithmetic
  import opened BloomFilter
  import opened Chunked
  import opened Counting

  /** The foreign keys of one chunk of the fact table, one column per dimension. */
  type Columns = seq<seq<int>>

  /** For each dimension, the row each primary key is found at. Keys are unique. */
  type Tables = seq<map<int, nat>>

  ghost predicate Uniform(columns: Columns, len: nat) {
    forall j :: 0 <= j < |columns| ==> |columns[j]| == len
  }

  /** The dimension row that fact row `r` of the chunk starting at `offset` matches in dimension `j`, if any. */
  ghost predicate HasPartner(columns: Columns, tables: Tables, offset: nat, j: nat, r: nat) {
    j < |columns| && j < |tables| && offset <= r < offset + |columns[j]| && columns[j][r - offset] in tables[j]
  }

  ghost function Partner(columns: Columns, tables: Tables, offset: nat, j: nat, r: nat): nat {
    if HasPartner(columns, tables, offset, j, r) then tables[j][columns[j][r - offset]] else 0
  }

  /** Row `r` belongs to the chunk and matches in the first `k` dimensions. */
  ghost predicate Passes(columns: Columns, tables: Tables, offset: nat, len: nat, k: nat, r: nat) {
    offset <= r < offset + len && forall j :: 0 <= j < k ==> HasPartner(columns, tables, offset, j, r)
  }

  /** `rows` lists, each once, the rows that match in the first `k` dimensions. */
  ghost predicate Lists(columns: Columns, tables: Tables, offset: nat, len: nat, k: nat, rows: seq<nat>) {
    Distinct(rows) && forall r: nat :: r in rows <==> Passes(columns, tables, offset, len, k, r)
  }

  // ---------- The first dimension ----------

  /** Probe every row of the chunk. */
  method ProbeFirst(filter: BloomFilter, table: map<int, nat>, keys: seq<int>, offset: nat, ghost columns: Columns, ghost tables: Tables)
    returns (fact: array<nat>, dim: array<nat>, n: nat)
    requires filter.Valid() && table.Keys <= filter.inserted
    requires |columns| > 0 && |tables| > 0 && columns[0] == keys && tables[0] == table
    ensures fresh(fact) && fresh(dim) && fact != dim && n <= fact.Length && n <= dim.Length
    ensures Lists(columns, tables, offset, |keys|, 1, fact[..n])
    ensures forall p :: 0 <= p < n ==> dim[p] == Partner(columns, tables, offset, 0, fact[p])
  {
    fact, dim := new nat[|keys|], new nat[|keys|];
    n := 0;
    for row := 0 to |keys|
      invariant n <= row
      invariant Distinct(fact[..n]) && forall r: nat :: r in fact[..n] <==> r < offset + row && Passes(columns, tables, offset, |keys|, 1, r)
      invariant forall p :: 0 <= p < n ==> dim[p] == Partner(columns, tables, offset, 0, fact[p])
    {
      var found := Lookup(filter, table, keys[row]);
      ghost var before := fact[..n];
      if found {
        fact[n] := row + offset;
        dim[n] := table[keys[row]];
        n := n + 1;
        assert fact[..n] == before + [row + offset];
      }
      assert Passes(columns, tables, offset, |keys|, 1, row + offset) <==> keys[row] in table by {
        assert HasPartner(columns, tables, offset, 0, row + offset) <==> keys[row] in table;
      }
    }
  }

  // ---------- The other dimensions ----------

  function Swapped(s: seq<nat>, i: nat, j: nat): seq<nat>
    requires i < |s| && j < |s|
  {
    s[i := s[j]][j := s[i]]
  }

  lemma SwapKeeps(s: seq<nat>, i: nat, j: nat)
    requires i < |s| && j < |s|
    ensures Distinct(s) ==> Distinct(Swapped(s, i, j))
    ensures forall r :: r in Swapped(s, i, j) <==> r in s
  {
    var t := Swapped(s, i, j);
    forall r | r in s
      ensures r in t
    {
      var p :| 0 <= p < |s| && s[p] == r;
      assert t[if p == i then j else if p == j then i else p] == r;
    }
  }

  /** The index arrays are all different. */
  ghost predicate Separate(fact: array<nat>, prev: seq<array<nat>>) {
    fact !in prev && forall k, l :: 0 <= k < l < |prev| ==> prev[k] != prev[l]
  }

  ghost function Objects(fact: array<nat>, prev: seq<array<nat>>): set<object> {
    {fact} + set k | 0 <= k < |prev| :: prev[k]
  }

  /** Exchange two positions in all index arrays. */
  method SwapOut(fact: array<nat>, prev: seq<array<nat>>, i: nat, last: nat)
    requires i < fact.Length && last < fact.Length && Separate(fact, prev)
    requires forall k :: 0 <= k < |prev| ==> i < prev[k].Length && last < prev[k].Length
    modifies Objects(fact, prev)
    ensures fact[..] == Swapped(old(fact[..]), i, last)
    ensures forall k :: 0 <= k < |prev| ==> prev[k][..] == Swapped(old(prev[k][..]), i, last)
  {
    for k := 0 to |prev|
      invariant fact[..] == old(fact[..])
      invariant forall l :: 0 <= l < k ==> prev[l][..] == Swapped(old(prev[l][..]), i, last)
      invariant forall l :: k <= l < |prev| ==> prev[l][..] == old(prev[l][..])
    {
      prev[k][i], prev[k][last] := prev[k][last], prev[k][i];
    }
    fact[i], fact[last] := fact[last], fact[i];
  }

  /** The dimension arrays hold, position by position, the partners of the fact rows. */
  ghost predicate Aligned(columns: Columns, tables: Tables, offset: nat, rows: seq<nat>, dims: seq<seq<nat>>) {
    && (forall j :: 0 <= j < |dims| ==> |rows| <= |dims[j]|)
    && (forall j, p :: 0 <= j < |dims| && 0 <= p < |rows| ==> dims[j][p] == Partner(columns, tables, offset, j, rows[p]))
  }

  /** What is known while dimension `k` is being probed: positions before `i` match, positions from `end` on do not. */
  ghost predicate Sifting(columns: Columns, tables: Tables, offset: nat, len: nat, k: nat, rows: seq<nat>, i: nat, end: nat) {
    && Lists(columns, tables, offset, len, k, rows) && i <= end <= |rows|
    && (forall p :: 0 <= p < i ==> HasPartner(columns, tables, offset, k, rows[p]))
    && (forall p :: end <= p < |rows| ==> !HasPartner(columns, tables, offset, k, rows[p]))
  }

  lemma SwapSifts(columns: Columns, tables: Tables, offset: nat, len: nat, k: nat, rows: seq<nat>, i: nat, end: nat)
    requires Sifting(columns, tables, offset, len, k, rows, i, end) && i < end && !HasPartner(columns, tables, offset, k, rows[i])
    ensures Sifting(columns, tables, offset, len, k, Swapped(rows, i, end - 1), i, end - 1)
  {
    hide HasPartner, Passes;
    SwapKeeps(rows, i, end - 1);
  }

  lemma SwapAligns(columns: Columns, tables: Tables, offset: nat, rows: seq<nat>, dims: seq<seq<nat>>, dims': seq<seq<nat>>, i: nat, j: nat)
    requires Aligned(columns, tables, offset, rows, dims) && i < |rows| && j < |rows| && |dims'| == |dims|
    requires forall k :: 0 <= k < |dims| ==> dims'[k] == Swapped(dims[k], i, j)
    ensures Aligned(columns, tables, offset, Swapped(rows, i, j), dims')
  {
    hide Partner;
  }

  /** Once everything is sifted, the rows in front are the ones that also match in dimension `k`. */
  lemma Sifted(columns: Columns, tables: Tables, offset: nat, len: nat, k: nat, rows: seq<nat>, end: nat)
    requires Sifting(columns, tables, offset, len, k, rows, end, end)
    ensures Lists(columns, tables, offset, len, k + 1, rows[..end])
  {
    hide HasPartner;
    forall r: nat
      ensures r in rows[..end] <==> Passes(columns, tables, offset, len, k + 1, r)
    {
      if r in rows[..end] {
        var p :| 0 <= p < end && rows[p] == r;
        assert r in rows;
      }
      if Passes(columns, tables, offset, len, k + 1, r) {
        assert Passes(columns, tables, offset, len, k, r);
        var p :| 0 <= p < |rows| && rows[p] == r;
        assert p < end;
        assert rows[..end][p] == r;
      }
    }
  }

  ghost function Contents(arrays: seq<array<nat>>): (s: seq<seq<nat>>)
    reads arrays
    ensures |s| == |arrays| && forall k :: 0 <= k < |s| ==> s[k] == arrays[k][..]
  {
    seq(|arrays|, k reads arrays requires 0 <= k < |arrays| => arrays[k][..])
  }

  /** Move the row at position `i` out of the part that is still open. */
  method DropRow(fact: array<nat>, prev: seq<array<nat>>, ghost n: nat, i: nat, last: nat,
                 ghost columns: Columns, ghost tables: Tables, ghost offset: nat, ghost len: nat)
    requires i <= last < n <= fact.Length && Separate(fact, prev)
    requires Sifting(columns, tables, offset, len, |prev|, fact[..n], i, last + 1)
    requires Aligned(columns, tables, offset, fact[..n], Contents(prev)) && !HasPartner(columns, tables, offset, |prev|, fact[i])
    modifies Objects(fact, prev)
    ensures Sifting(columns, tables, offset, len, |prev|, fact[..n], i, last)
    ensures Aligned(columns, tables, offset, fact[..n], Contents(prev))
    ensures forall p :: 0 <= p < i ==> fact[p] == old(fact[p])
  {
    hide Partner, HasPartner, Sifting, Aligned;
    ghost var rows, dims := fact[..n], Contents(prev);
    Lengths(columns, tables, offset, rows, dims);
    SwapSifts(columns, tables, offset, len, |prev|, rows, i, last + 1);
    SwapOut(fact, prev, i, last);
    assert fact[..n] == Swapped(rows, i, last);
    SwapAligns(columns, tables, offset, rows, dims, Contents(prev), i, last);
  }

  /** The new dimension's array is filled for the first `i` rows. */
  ghost predicate Filled(columns: Columns, tables: Tables, offset: nat, k: nat, rows: seq<nat>, dim: seq<nat>, i: nat) {
    i <= |rows| && i <= |dim| && forall p :: 0 <= p < i ==> dim[p] == Partner(columns, tables, offset, k, rows[p])
  }

  /** A key is looked up only if the Bloom filter lets it through; no match is lost that way. */
  method Lookup(filter: BloomFilter, table: map<int, nat>, key: int) returns (found: bool)
    requires filter.Valid() && table.Keys <= filter.inserted
    ensures found <==> key in table
  {
    found := filter.Probe(key);
    if found {
      found := key in table;
    }
  }

  /** Probe the row at position `i`: keep it and store its partner, or drop it. */
  method ProbeRow(filter: BloomFilter, table: map<int, nat>, keys: seq<int>, offset: nat, fact: array<nat>, prev: seq<array<nat>>, dim: array<nat>,
                  ghost n: nat, i: nat, last: nat, ghost columns: Columns, ghost tables: Tables)
    returns (kept: bool)
    requires filter.Valid() && table.Keys <= filter.inserted && i <= last < n <= fact.Length && n == dim.Length
    requires Separate(fact, prev) && dim !in Objects(fact, prev)
    requires |columns| > |prev| && |tables| > |prev| && columns[|prev|] == keys && tables[|prev|] == table
    requires Sifting(columns, tables, offset, |keys|, |prev|, fact[..n], i, last + 1)
    requires Aligned(columns, tables, offset, fact[..n], Contents(prev)) && Filled(columns, tables, offset, |prev|, fact[..n], dim[..], i)
    modifies Objects(fact, prev), dim
    ensures kept ==> Sifting(columns, tables, offset, |keys|, |prev|, fact[..n], i + 1, last + 1)
    ensures kept ==> Filled(columns, tables, offset, |prev|, fact[..n], dim[..], i + 1)
    ensures !kept ==> Sifting(columns, tables, offset, |keys|, |prev|, fact[..n], i, last)
    ensures !kept ==> Filled(columns, tables, offset, |prev|, fact[..n], dim[..], i)
    ensures Aligned(columns, tables, offset, fact[..n], Contents(prev))
  {
    hide Partner, HasPartner, Sifting, Aligned, Separate, filter.Valid;
    InChunk(columns, tables, offset, |keys|, |prev|, fact[..n], i, last + 1);
    var key := keys[fact[i] - offset];
    kept := Lookup(filter, table, key);
    if kept {
      KeepRow(columns, tables, offset, |keys|, |prev|, fact[..n], i, last + 1);
      ghost var dims := Contents(prev);
      dim[i] := table[key];
      assert Contents(prev) == dims;
    } else {
      DropRow(fact, prev, n, i, last, columns, tables, offset, |keys|);
    }
  }

  /** Probe the rows that are left, moving the ones without a match behind the end of all arrays. */
  method ProbeNext(filter: BloomFilter, table: map<int, nat>, keys: seq<int>, offset: nat, fact: array<nat>, prev: seq<array<nat>>, n: nat,
                   ghost columns: Columns, ghost tables: Tables)
    returns (dim: array<nat>, end: nat)
    requires filter.Valid() && table.Keys <= filter.inserted && n <= fact.Length
    requires Separate(fact, prev) && filter.bytes as object !in Objects(fact, prev)
    requires |columns| > |prev| && |tables| > |prev| && columns[|prev|] == keys && tables[|prev|] == table
    requires Lists(columns, tables, offset, |keys|, |prev|, fact[..n]) && Aligned(columns, tables, offset, fact[..n], Contents(prev))
    modifies Objects(fact, prev)
    ensures fresh(dim) && dim as object !in Objects(fact, prev) && end <= n && end <= dim.Length
    ensures Lists(columns, tables, offset, |keys|, |prev| + 1, fact[..end])
    ensures Aligned(columns, tables, offset, fact[..end], Contents(prev + [dim]))
  {
    hide Sifting, Lists, Aligned, Contents, filter.Valid, Separate, Filled;
    dim := new nat[n];
    var i, last := 0, n - 1;
    SiftingStarts(columns, tables, offset, |keys|, |prev|, fact[..n], dim[..]);
    while i <= last
      invariant 0 <= i <= last + 1 <= n && filter.Valid()
      invariant Sifting(columns, tables, offset, |keys|, |prev|, fact[..n], i, last + 1)
      invariant Aligned(columns, tables, offset, fact[..n], Contents(prev))
      invariant Filled(columns, tables, offset, |prev|, fact[..n], dim[..], i)
      decreases last + 1 - i
    {
      var kept := ProbeRow(filter, table, keys, offset, fact, prev, dim, n, i, last, columns, tables);
      if kept {
        i := i + 1;
      } else {
        last := last - 1;
      }
    }
    end := last + 1;
    Sifted(columns, tables, offset, |keys|, |prev|, fact[..n], end);
    assert fact[..n][..end] == fact[..end];
    AlignsOneMore(columns, tables, offset, fact[..n], end, Contents(prev), dim[..]);
    ContentsGrow(prev, dim);
  }

  lemma Lengths(columns: Columns, tables: Tables, offset: nat, rows: seq<nat>, dims: seq<seq<nat>>)
    requires Aligned(columns, tables, offset, rows, dims)
    ensures forall j :: 0 <= j < |dims| ==> |rows| <= |dims[j]|
  {
  }

  lemma AlignsOneMore(columns: Columns, tables: Tables, offset: nat, rows: seq<nat>, end: nat, dims: seq<seq<nat>>, dim: seq<nat>)
    requires Aligned(columns, tables, offset, rows, dims) && Filled(columns, tables, offset, |dims|, rows, dim, end)
    ensures end <= |rows|
    ensures Aligned(columns, tables, offset, rows[..end], dims + [dim])
  {
    hide Partner;
  }

  lemma ContentsGrow(arrays: seq<array<nat>>, a: array<nat>)
    ensures Contents(arrays + [a]) == Contents(arrays) + [a[..]]
  {
  }

  lemma SiftingStarts(columns: Columns, tables: Tables, offset: nat, len: nat, k: nat, rows: seq<nat>, dim: seq<nat>)
    requires Lists(columns, tables, offset, len, k, rows)
    ensures Sifting(columns, tables, offset, len, k, rows, 0, |rows|) && Filled(columns, tables, offset, k, rows, dim, 0)
  {
  }

  lemma InChunk(columns: Columns, tables: Tables, offset: nat, len: nat, k: nat, rows: seq<nat>, i: nat, end: nat)
    requires Sifting(columns, tables, offset, len, k, rows, i, end) && i < end && k < |columns| && k < |tables| && |columns[k]| == len
    ensures offset <= rows[i] < offset + len
    ensures HasPartner(columns, tables, offset, k, rows[i]) <==> columns[k][rows[i] - offset] in tables[k]
    ensures HasPartner(columns, tables, offset, k, rows[i]) ==> Partner(columns, tables, offset, k, rows[i]) == tables[k][columns[k][rows[i] - offset]]
  {
    assert rows[i] in rows;
  }

  lemma KeepRow(columns: Columns, tables: Tables, offset: nat, len: nat, k: nat, rows: seq<nat>, i: nat, end: nat)
    requires Sifting(columns, tables, offset, len, k, rows, i, end) && i < end && HasPartner(columns, tables, offset, k, rows[i])
    ensures Sifting(columns, tables, offset, len, k, rows, i + 1, end)
  {
  }

  // ---------- One chunk, all dimensions ----------

  ghost predicate Ready(filters: seq<BloomFilter>, tables: Tables)
    reads filters, set j | 0 <= j < |filters| :: filters[j].bytes
  {
    |filters| == |tables| && forall j :: 0 <= j < |filters| ==> filters[j].Valid() && tables[j].Keys <= filters[j].inserted
  }

  /** The outcome of a chunk: the rows matching in all dimensions, and their partners. */
  ghost predicate ChunkJoined(columns: Columns, tables: Tables, offset: nat, len: nat, rows: seq<nat>, dims: seq<seq<nat>>) {
    && Lists(columns, tables, offset, len, |tables|, rows) && Aligned(columns, tables, offset, rows, dims)
    && |dims| == |tables| && forall j :: 0 <= j < |dims| ==> |dims[j]| == |rows|
  }

  /** Probe the dimensions one after the other, with one index array per dimension. */
  method ProbeAll(filters: seq<BloomFilter>, tables: Tables, columns: Columns, offset: nat, ghost len: nat)
    returns (fact: array<nat>, arrays: seq<array<nat>>, n: nat)
    requires Ready(filters, tables) && |columns| == |tables| > 0 && Uniform(columns, len)
    ensures |arrays| == |tables| && n <= fact.Length && forall o :: o in Objects(fact, arrays) ==> fresh(o)
    ensures Lists(columns, tables, offset, len, |tables|, fact[..n]) && Aligned(columns, tables, offset, fact[..n], Contents(arrays))
  {
    hide Lists, Aligned, Ready, Separate, Contents, filters[0].Valid, Objects;
    ReadyAt(filters, tables, 0);
    var dim: array<nat>;
    fact, dim, n := ProbeFirst(filters[0], tables[0], columns[0], offset, columns, tables);
    arrays := [dim];
    FirstAligned(columns, tables, offset, fact, n, dim);
    ObjectsFirst(fact, dim);
    for k := 1 to |tables|
      invariant |arrays| == k && n <= fact.Length && Separate(fact, arrays)
      invariant forall o :: o in Objects(fact, arrays) ==> fresh(o)
      invariant Ready(filters, tables)
      invariant Lists(columns, tables, offset, len, k, fact[..n]) && Aligned(columns, tables, offset, fact[..n], Contents(arrays))
    {
      ReadyAt(filters, tables, k);
      var next;
      next, n := ProbeNext(filters[k], tables[k], columns[k], offset, fact, arrays, n, columns, tables);
      ObjectsGrow(fact, arrays, next);
      arrays := arrays + [next];
    }
  }

  lemma ObjectsFirst(fact: array<nat>, dim: array<nat>)
    ensures Objects(fact, [dim]) == {fact, dim}
  {
    assert [dim][0] in Objects(fact, [dim]);
  }

  lemma ObjectsGrow(fact: array<nat>, arrays: seq<array<nat>>, next: array<nat>)
    requires Separate(fact, arrays) && next as object !in Objects(fact, arrays)
    ensures Objects(fact, arrays + [next]) == Objects(fact, arrays) + {next} && Separate(fact, arrays + [next])
  {
    var more := arrays + [next];
    forall k | 0 <= k < |more|
      ensures more[k] in Objects(fact, arrays) + {next}
      ensures k < |arrays| ==> more[k] as object != next
    {
      assert k < |arrays| ==> more[k] == arrays[k];
    }
    assert more[|arrays|] in Objects(fact, more);
    forall k | 0 <= k < |arrays|
      ensures arrays[k] in Objects(fact, more)
    {
      assert more[k] == arrays[k];
    }
  }

  method JoinChunk(filters: seq<BloomFilter>, tables: Tables, columns: Columns, offset: nat, ghost len: nat) returns (rows: seq<nat>, dims: seq<seq<nat>>)
    requires Ready(filters, tables) && |columns| == |tables| > 0 && Uniform(columns, len)
    ensures ChunkJoined(columns, tables, offset, len, rows, dims)
  {
    hide Lists, Aligned, Ready;
    var fact, arrays, n := ProbeAll(filters, tables, columns, offset, len);
    rows := fact[..n];
    Lengths(columns, tables, offset, rows, Contents(arrays));
    dims := [];
    for j := 0 to |arrays|
      invariant |dims| == j && forall l :: 0 <= l < j ==> dims[l] == arrays[l][..n]
    {
      dims := dims + [arrays[j][..n]];
    }
    CutAligned(columns, tables, offset, rows, Contents(arrays), dims);
  }

  lemma ReadyAt(filters: seq<BloomFilter>, tables: Tables, k: nat)
    requires Ready(filters, tables) && k < |tables|
    ensures |filters| == |tables| && filters[k].Valid() && tables[k].Keys <= filters[k].inserted
  {
  }

  lemma FirstAligned(columns: Columns, tables: Tables, offset: nat, fact: array<nat>, n: nat, dim: array<nat>)
    requires n <= fact.Length && n <= dim.Length && fact != dim
    requires forall p :: 0 <= p < n ==> dim[p] == Partner(columns, tables, offset, 0, fact[p])
    ensures Aligned(columns, tables, offset, fact[..n], Contents([dim])) && Separate(fact, [dim])
  {
    hide Partner;
  }

  lemma CutAligned(columns: Columns, tables: Tables, offset: nat, rows: seq<nat>, arrays: seq<seq<nat>>, dims: seq<seq<nat>>)
    requires Aligned(columns, tables, offset, rows, arrays) && |dims| == |arrays|
    requires forall j :: 0 <= j < |arrays| ==> |rows| <= |arrays[j]| && dims[j] == arrays[j][..|rows|]
    ensures Aligned(columns, tables, offset, rows, dims)
  {
    hide Partner;
  }

  // ---------- All chunks ----------

  /** The fact table's foreign-key columns, all cut into chunks at the same rows. */
  ghost predicate Rectangular(columns: seq<seq<seq<int>>>, lengths: seq<nat>) {
    forall j :: 0 <= j < |columns| ==> |columns[j]| == |lengths| && forall i :: 0 <= i < |lengths| ==> |columns[j][i]| == lengths[i]
  }

  ghost function ChunkOf(columns: seq<seq<seq<int>>>, i: nat): Columns
    requires forall j :: 0 <= j < |columns| ==> i < |columns[j]|
  {
    seq(|columns|, j requires 0 <= j < |columns| => columns[j][i])
  }

  /** Row `r` of the fact table has a partner in every dimension. */
  ghost predicate StarPasses(flat: seq<seq<int>>, tables: Tables, r: nat) {
    forall j :: 0 <= j < |tables| && j < |flat| ==> r < |flat[j]| && flat[j][r] in tables[j]
  }

  ghost function FlatColumns(columns: seq<seq<seq<int>>>): (flat: seq<seq<int>>)
    ensures |flat| == |columns| && forall j :: 0 <= j < |flat| ==> flat[j] == Flat(columns[j])
  {
    seq(|columns|, j requires 0 <= j < |columns| => Flat(columns[j]))
  }

  /** The star join of the first `rows` fact rows: every fact row with a partner in each dimension, once, with its partners. */
  ghost predicate StarJoin(flat: seq<seq<int>>, tables: Tables, rows: nat, fact: seq<nat>, dims: seq<seq<nat>>) {
    && Distinct(fact) && (forall r: nat :: r in fact <==> r < rows && StarPasses(flat, tables, r))
    && |dims| == |tables| == |flat| && (forall j :: 0 <= j < |dims| ==> |dims[j]| == |fact|)
    && (forall j, p :: 0 <= j < |dims| && 0 <= p < |fact| ==>
          fact[p] < |flat[j]| && flat[j][fact[p]] in tables[j] && dims[j][p] == tables[j][flat[j][fact[p]]])
  }

  /** Inside a chunk, looking a row up in the chunk or in the flat column is the same. */
  lemma ChunkIsFlat(columns: seq<seq<seq<int>>>, lengths: seq<nat>, tables: Tables, i: nat, r: nat, j: nat)
    requires Rectangular(columns, lengths) && |columns| == |tables| && i < |lengths| && j < |columns|
    requires Start(lengths, i) <= r < Start(lengths, i) + lengths[i]
    ensures r < |Flat(columns[j])|
    ensures HasPartner(ChunkOf(columns, i), tables, Start(lengths, i), j, r) <==> Flat(columns[j])[r] in tables[j]
    ensures Flat(columns[j])[r] in tables[j] ==>
              Partner(ChunkOf(columns, i), tables, Start(lengths, i), j, r) == tables[j][Flat(columns[j])[r]]
  {
    hide Flat, Start;
    FlatAt(columns[j], lengths, i, r - Start(lengths, i));
    assert ChunkOf(columns, i)[j] == columns[j][i];
  }

  lemma ChunkPasses(columns: seq<seq<seq<int>>>, lengths: seq<nat>, tables: Tables, i: nat, r: nat)
    requires Rectangular(columns, lengths) && |columns| == |tables| && i < |lengths|
    ensures Passes(ChunkOf(columns, i), tables, Start(lengths, i), lengths[i], |tables|, r)
       <==> Start(lengths, i) <= r < Start(lengths, i) + lengths[i] && StarPasses(FlatColumns(columns), tables, r)
  {
    hide Flat, HasPartner, Start;
    if Start(lengths, i) <= r < Start(lengths, i) + lengths[i] {
      var flat := FlatColumns(columns);
      forall j | 0 <= j < |tables|
        ensures HasPartner(ChunkOf(columns, i), tables, Start(lengths, i), j, r) <==> r < |flat[j]| && flat[j][r] in tables[j]
      {
        ChunkIsFlat(columns, lengths, tables, i, r, j);
      }
    }
  }

  /** Appending the outcome of the next chunk. */
  function AppendEach(a: seq<seq<nat>>, b: seq<seq<nat>>): (c: seq<seq<nat>>)
    requires |a| == |b|
    ensures |c| == |a| && forall j :: 0 <= j < |a| ==> c[j] == a[j] + b[j]
  {
    seq(|a|, j requires 0 <= j < |a| => a[j] + b[j])
  }

  lemma AppendChunk(columns: seq<seq<seq<int>>>, lengths: seq<nat>, tables: Tables, i: nat, fact: seq<nat>, dims: seq<seq<nat>>,
                    rows: seq<nat>, more: seq<seq<nat>>)
    requires Rectangular(columns, lengths) && |columns| == |tables| && i < |lengths|
    requires StarJoin(FlatColumns(columns), tables, Start(lengths, i), fact, dims)
    requires ChunkJoined(ChunkOf(columns, i), tables, Start(lengths, i), lengths[i], rows, more)
    ensures |dims| == |more| && StarJoin(FlatColumns(columns), tables, Start(lengths, i + 1), fact + rows, AppendEach(dims, more))
  {
    hide Passes, StarPasses, HasPartner, Partner, Flat;
    var off, flat, all := Start(lengths, i), FlatColumns(columns), fact + rows;
    forall r: nat
      ensures r in all <==> r < Start(lengths, i + 1) && StarPasses(flat, tables, r)
      ensures r in rows ==> off <= r < off + lengths[i]
    {
      ChunkPasses(columns, lengths, tables, i, r);
    }
    forall p, q | 0 <= p < q < |all|
      ensures all[p] != all[q]
    {
      if p < |fact| <= q {
        assert all[p] in fact && all[q] in rows;
      }
    }
    forall j, p | 0 <= j < |tables| && |fact| <= p < |all|
      ensures all[p] < |flat[j]| && flat[j][all[p]] in tables[j] && AppendEach(dims, more)[j][p] == tables[j][flat[j][all[p]]]
    {
      var r := rows[p - |fact|];
      assert r in rows;
      ChunkPasses(columns, lengths, tables, i, r);
      ChunkIsFlat(columns, lengths, tables, i, r, j);
      PassesAll(ChunkOf(columns, i), tables, off, lengths[i], r, j);
      assert more[j][p - |fact|] == Partner(ChunkOf(columns, i), tables, off, j, r);
    }
  }

  lemma PassesAll(columns: Columns, tables: Tables, offset: nat, len: nat, r: nat, j: nat)
    requires Passes(columns, tables, offset, len, |tables|, r) && j < |tables|
    ensures HasPartner(columns, tables, offset, j, r)
  {
  }

  /** The chunk number stored for each output row; stored in 16 bits. */
  ghost predicate Tagged(lengths: seq<nat>, fact: seq<nat>, chunks: seq<nat>) {
    |chunks| == |fact| && forall p :: 0 <= p < |fact| ==> Tag(lengths, fact[p], chunks[p])
  }

  ghost predicate Tag(lengths: seq<nat>, r: nat, tag: nat) {
    exists i: nat :: InChunkNumber(lengths, i, r) && tag == i % 0x1_0000
  }

  function Select(columns: seq<seq<seq<int>>>, i: nat): (c: Columns)
    requires forall j :: 0 <= j < |columns| ==> i < |columns[j]|
    ensures c == ChunkOf(columns, i)
  {
    seq(|columns|, j requires 0 <= j < |columns| => columns[j][i])
  }

  /**
   Join all chunks, batch by batch, and concatenate. Filter `j` is paired with dimension `j`: the filters are never
   reordered between batches, since without hit counters all of them report the same hit rate.
   */
  method JoinAll(filters: seq<BloomFilter>, tables: Tables, columns: seq<seq<seq<int>>>, lengths: seq<nat>, size: nat)
    returns (fact: seq<nat>, chunks: seq<nat>, dims: seq<seq<nat>>)
    requires Ready(filters, tables) && |columns| == |tables| > 0 && Rectangular(columns, lengths) && |lengths| > 0 && size > 0
    ensures StarJoin(FlatColumns(columns), tables, |Flat(columns[0])|, fact, dims)
    ensures Tagged(lengths, fact, chunks)
  {
    hide StarJoin, ChunkJoined, Tagged, Start, Flat, filters[0].Valid, BatchLast;
    var offsets := ChunkOffsets(lengths);
    fact, chunks, dims := [], [], seq(|tables|, _ => []);
    NothingJoined(columns, lengths, tables, dims);
    ghost var done := 0;
    BatchStarts(|lengths|, size, 0);
    for b := 0 to BatchCount(|lengths|, size)
      invariant done == BatchStart(|lengths|, size, b) <= |lengths|
      invariant StarJoin(FlatColumns(columns), tables, Start(lengths, done), fact, dims) && Tagged(lengths, fact, chunks)
    {
      BatchStarts(|lengths|, size, b);
      for i: nat := b * size to BatchLast(|lengths|, size, b) + 1
        invariant i <= |lengths|
        invariant StarJoin(FlatColumns(columns), tables, Start(lengths, i), fact, dims) && Tagged(lengths, fact, chunks)
      {
        var rows, more := JoinChunk(filters, tables, Select(columns, i), offsets[i], lengths[i]);
        AppendChunk(columns, lengths, tables, i, fact, dims, rows, more);
        TagChunk(columns, lengths, tables, i, fact, chunks, rows, more);
        fact, chunks, dims := fact + rows, chunks + seq(|rows|, _ => i % 0x1_0000), AppendEach(dims, more);
      }
      done := BatchStart(|lengths|, size, b + 1);
    }
    BatchEnds(|lengths|, size);
    FlatLength(columns[0], lengths);
  }

  lemma NothingJoined(columns: seq<seq<seq<int>>>, lengths: seq<nat>, tables: Tables, dims: seq<seq<nat>>)
    requires |columns| == |tables| == |dims| && forall j :: 0 <= j < |dims| ==> dims[j] == []
    ensures StarJoin(FlatColumns(columns), tables, Start(lengths, 0), [], dims) && Tagged(lengths, [], [])
  {
    hide Flat;
  }

  lemma TagChunk(columns: seq<seq<seq<int>>>, lengths: seq<nat>, tables: Tables, i: nat, fact: seq<nat>, chunks: seq<nat>, rows: seq<nat>, more: seq<seq<nat>>)
    requires Rectangular(columns, lengths) && |columns| == |tables| && i < |lengths| && Tagged(lengths, fact, chunks)
    requires ChunkJoined(ChunkOf(columns, i), tables, Start(lengths, i), lengths[i], rows, more)
    ensures Tagged(lengths, fact + rows, chunks + seq(|rows|, _ => i % 0x1_0000))
  {
    hide HasPartner, Start, Aligned, Tag, Distinct, ChunkOf;
    var all, tags := fact + rows, chunks + seq(|rows|, _ => i % 0x1_0000);
    forall p | 0 <= p < |all|
      ensures Tag(lengths, all[p], tags[p])
    {
      if p < |fact| {
        assert all[p] == fact[p] && tags[p] == chunks[p];
      } else {
        assert all[p] in rows;
        assert Passes(ChunkOf(columns, i), tables, Start(lengths, i), lengths[i], |tables|, all[p]);
        TagOf(lengths, i, all[p]);
      }
    }
  }

  lemma TagOf(lengths: seq<nat>, i: nat, r: nat)
    requires InChunkNumber(lengths, i, r)
    ensures Tag(lengths, r, i % 0x1_0000)
  {
  }

  /** A row is in one chunk only, so with at most 65536 chunks the stored number is the row's chunk. */
  lemma TagsAreExact(lengths: seq<nat>, fact: seq<nat>, chunks: seq<nat>, p: nat, i: nat)
    requires Tagged(lengths, fact, chunks) && |lengths| <= 0x1_0000 && p < |fact| && InChunkNumber(lengths, i, fact[p])
    ensures chunks[p] == i
  {
    hide InChunkNumber;
    assert Tag(lengths, fact[p], chunks[p]);
    var k: nat :| InChunkNumber(lengths, k, fact[p]) && chunks[p] == k % 0x1_0000;
    OneChunk(lengths, i, k, fact[p]);
    InRange(lengths, i, fact[p]);
  }

  lemma InRange(lengths: seq<nat>, i: nat, r: nat)
    requires InChunkNumber(lengths, i, r)
    ensures i < |lengths|
  {
  }

  // ---------- Batches ----------

  function BatchCount(chunks: nat, size: nat): nat
    requires size > 0
  {
    chunks / size + 1
  }

  /** The last chunk of batch `b`, which begins at chunk `b * size`. */
  function BatchLast(chunks: nat, size: nat, b: nat): int {
    if b * size + size - 1 < chunks then b * size + size - 1 else chunks - 1
  }

  /** The chunks probed before batch `b`. */
  ghost function BatchStart(chunks: nat, size: nat, b: nat): nat {
    if b * size <= chunks then b * size else chunks
  }

  /** A batch begins where the one before ended, and may be empty. */
  lemma BatchStarts(chunks: nat, size: nat, b: nat)
    requires size > 0 && b < BatchCount(chunks, size)
    ensures BatchStart(chunks, size, b) == b * size <= BatchLast(chunks, size, b) + 1 == BatchStart(chunks, size, b + 1) <= chunks
    ensures BatchStart(chunks, size, 0) == 0
  {
    DivideAt(chunks, size, chunks / size);
    Multiples(b, chunks / size, size);
    assert (b + 1) * size == b * size + size;
  }

  lemma BatchEnds(chunks: nat, size: nat)
    requires size > 0
    ensures BatchStart(chunks, size, BatchCount(chunks, size)) == chunks
  {
    DivideAt(chunks, size, chunks / size);
    assert (chunks / size + 1) * size == (chunks / size) * size + size;
  }

  /** Every chunk is probed in exactly one batch, also when the last batch is empty. */
  lemma BatchesCover(chunks: nat, size: nat, c: nat, b: nat)
    requires size > 0 && c < chunks
    ensures b < BatchCount(chunks, size) && b * size <= c <= BatchLast(chunks, size, b) <==> b == c / size
  {
    DivideAt(c, size, b);
    DivideAt(chunks, size, c / size);
    DivideAt(c, size, c / size);
    Quotients(c, chunks, size);
  }

  lemma Quotients(c: nat, d: nat, size: nat)
    requires size > 0 && c <= d
    ensures c / size <= d / size
  {
    DivideAt(c, size, c / size);
    DivideAt(d, size, d / size);
    var q, q' := c / size, d / size;
    if q > q' {
      Multiples(q' + 1, q, size);
    }
  }
}
