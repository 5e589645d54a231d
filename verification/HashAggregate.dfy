/**
 Two-phase hash aggregation. Consecutive ranges of chunks are aggregated into local maps by separate tasks,
 and the local maps are then merged in task order.
 */
module HashAggregate {
  import opened Arithmetic
  import opened Counting

  // ---------- Splitting the chunks ----------

  function SuggestedTasks(threads: nat, chunks: nat): nat {
    if chunks < threads then chunks else threads
  }

  /** The range of chunks of a task, as [start, end). */
  function ChunkRange(task: nat, threads: nat, chunks: nat): (int, int)
    requires threads > 0
  {
    if task >= chunks then (-1, -1) else
      var M, m, full := (chunks + threads - 1) / threads, chunks / threads, chunks % threads;
      var start := if task < full then M * task else M * full + m * (task - full);
      var end := if task < full then M * (task + 1) else M * full + m * (task + 1 - full);
      (if start < 0 then 0 else start, if end > chunks then chunks else end)
  }

  /** The first `chunks % threads` tasks get one chunk more than the others. */
  lemma RangeSizes(threads: nat, chunks: nat)
    requires threads > 0
    ensures chunks == (chunks / threads) * threads + chunks % threads && 0 <= chunks % threads < threads
    ensures (chunks + threads - 1) / threads == chunks / threads + (if chunks % threads == 0 then 0 else 1)
  {
    var m, full := chunks / threads, chunks % threads;
    assert chunks == m * threads + full;
    if full == 0 {
      DivideAt(chunks + threads - 1, threads, m);
    } else {
      assert chunks + threads - 1 == (m + 1) * threads + (full - 1);
      DivideAt(chunks + threads - 1, threads, m + 1);
    }
  }

  /** Where the range of a task starts, in closed form. */
  function Boundary(task: nat, threads: nat, chunks: nat): nat
    requires threads > 0
  {
    (chunks / threads) * task + (if task < chunks % threads then task else chunks % threads)
  }

  /** The ranges of the suggested tasks follow each other without a gap, none is empty, and they cover all chunks. */
  lemma RangesCover(task: nat, threads: nat, chunks: nat)
    requires threads > 0 && task < SuggestedTasks(threads, chunks)
    ensures ChunkRange(task, threads, chunks) == (Boundary(task, threads, chunks), Boundary(task + 1, threads, chunks))
    ensures Boundary(task, threads, chunks) < Boundary(task + 1, threads, chunks) <= chunks
    ensures Boundary(0, threads, chunks) == 0 && Boundary(SuggestedTasks(threads, chunks), threads, chunks) == chunks
  {
    hide ChunkRange;
    RangeStart(task, threads, chunks);
    BoundaryBelow(task + 1, threads, chunks);
    BoundaryRises(task, threads, chunks);
    BoundaryEnds(threads, chunks);
  }

  /** The ranges differ by at most one chunk: the first `chunks % threads` tasks get one more. */
  lemma RangesBalanced(task: nat, threads: nat, chunks: nat)
    requires threads > 0 && task < SuggestedTasks(threads, chunks)
    ensures var (start, end) := ChunkRange(task, threads, chunks);
            end - start == chunks / threads + (if task < chunks % threads then 1 else 0)
  {
    hide ChunkRange;
    RangesCover(task, threads, chunks);
    var m := chunks / threads;
    assert m * (task + 1) == m * task + m;
  }

  lemma BoundaryRises(task: nat, threads: nat, chunks: nat)
    requires threads > 0 && task < threads && task < chunks
    ensures Boundary(task, threads, chunks) < Boundary(task + 1, threads, chunks)
  {
    var m, full := chunks / threads, chunks % threads;
    RangeSizes(threads, chunks);
    assert m * (task + 1) == m * task + m;
    DivideAt(chunks, threads, 0);
  }

  lemma BoundaryEnds(threads: nat, chunks: nat)
    requires threads > 0
    ensures Boundary(0, threads, chunks) == 0 && Boundary(SuggestedTasks(threads, chunks), threads, chunks) == chunks
  {
    RangeSizes(threads, chunks);
    if chunks < threads {
      DivideAt(chunks, threads, 0);
    } else {
      BoundaryBelow(threads, threads, chunks);
    }
  }

  lemma BoundaryBelow(task: nat, threads: nat, chunks: nat)
    requires threads > 0 && task <= threads
    ensures Boundary(task, threads, chunks) <= chunks
    ensures task == threads ==> Boundary(task, threads, chunks) == chunks
  {
    RangeSizes(threads, chunks);
    Multiples(task, threads, chunks / threads);
    assert (chunks / threads) * task == task * (chunks / threads);
  }

  lemma RangeStart(task: nat, threads: nat, chunks: nat)
    requires threads > 0 && task < chunks && task < threads
    ensures ChunkRange(task, threads, chunks) == (Boundary(task, threads, chunks), Boundary(task + 1, threads, chunks))
  {
    var m, full := chunks / threads, chunks % threads;
    var M := (chunks + threads - 1) / threads;
    RangeSizes(threads, chunks);
    BoundaryBelow(task + 1, threads, chunks);
    if task < full {
      assert M == m + 1;
      assert M * task == m * task + task && M * (task + 1) == m * (task + 1) + (task + 1);
    } else {
      assert M * full == m * full + full by { if full > 0 { assert M == m + 1; } }
      assert m * (task - full) == m * task - m * full;
      assert m * (task + 1 - full) == m * (task + 1) - m * full;
    }
  }

  // ---------- What is aggregated ----------

  datatype Kernel = Sum | Count

  /** A row: whether the filter keeps it, the hash of its group, and the aggregated value. */
  datatype Row = Row(keep: bool, key: nat, value: int)

  /** A kept row with its position. */
  datatype Entry = Entry(key: nat, value: int, chunk: nat, row: nat)

  function EntryOf(kernel: Kernel, r: Row, chunk: nat, row: nat): Entry {
    Entry(r.key, if kernel == Count then 1 else r.value, chunk, row)
  }

  /** The kept rows of a chunk, up to row `n`. */
  function ChunkEntries(kernel: Kernel, rows: seq<Row>, chunk: nat, n: nat): seq<Entry>
    requires n <= |rows|
  {
    if n == 0 then [] else
      ChunkEntries(kernel, rows, chunk, n - 1) + (if rows[n - 1].keep then [EntryOf(kernel, rows[n - 1], chunk, n - 1)] else [])
  }

  /** The kept rows of the chunks in [start, end), in order. */
  function Entries(kernel: Kernel, chunks: seq<seq<Row>>, start: nat, end: nat): seq<Entry>
    requires start <= end <= |chunks|
    decreases end
  {
    if start == end then [] else
      Entries(kernel, chunks, start, end - 1) + ChunkEntries(kernel, chunks[end - 1], end - 1, |chunks[end - 1]|)
  }

  lemma {:induction false} EntriesJoin(kernel: Kernel, chunks: seq<seq<Row>>, a: nat, b: nat, c: nat)
    requires a <= b <= c <= |chunks|
    ensures Entries(kernel, chunks, a, c) == Entries(kernel, chunks, a, b) + Entries(kernel, chunks, b, c)
    decreases c
  {
    if b < c {
      EntriesJoin(kernel, chunks, a, b, c - 1);
    }
  }

  ghost predicate Occurs(es: seq<Entry>, key: nat) {
    exists i :: 0 <= i < |es| && es[i].key == key
  }

  ghost function Total(es: seq<Entry>, key: nat): int {
    if es == [] then 0 else
      var e := es[|es| - 1];
      Total(es[..|es| - 1], key) + (if e.key == key then e.value else 0)
  }

  /** `e` is the first entry with its key. */
  ghost predicate IsFirst(es: seq<Entry>, key: nat, position: (nat, nat)) {
    exists i :: 0 <= i < |es| && es[i].key == key && (es[i].chunk, es[i].row) == position && forall j :: 0 <= j < i ==> es[j].key != key
  }

  /** The totals of all keys that occur. */
  ghost predicate Totals(es: seq<Entry>, values: map<nat, int>) {
    forall k: nat :: (k in values <==> Occurs(es, k)) && (k in values ==> values[k] == Total(es, k))
  }

  /** The first position of every key that occurs. */
  ghost predicate Firsts(es: seq<Entry>, tuples: map<nat, (nat, nat)>) {
    forall k: nat :: (k in tuples <==> Occurs(es, k)) && (k in tuples ==> IsFirst(es, k, tuples[k]))
  }

  lemma {:induction false} TotalAppend(a: seq<Entry>, b: seq<Entry>, key: nat)
    ensures Total(a + b, key) == Total(a, key) + Total(b, key)
    decreases |b|
  {
    if b == [] {
      assert a + b == a;
    } else {
      assert (a + b)[..|a + b| - 1] == a + b[..|b| - 1];
      TotalAppend(a, b[..|b| - 1], key);
    }
  }

  lemma OccursAppend(a: seq<Entry>, b: seq<Entry>, key: nat)
    ensures Occurs(a + b, key) <==> Occurs(a, key) || Occurs(b, key)
  {
    if Occurs(a, key) {
      var i :| 0 <= i < |a| && a[i].key == key;
      assert (a + b)[i].key == key;
    }
    if Occurs(b, key) {
      var i :| 0 <= i < |b| && b[i].key == key;
      assert (a + b)[|a| + i].key == key;
    }
  }

  lemma {:induction false} TotalAbsent(es: seq<Entry>, key: nat)
    requires !Occurs(es, key)
    ensures Total(es, key) == 0
  {
    if es != [] {
      var n := |es| - 1;
      assert es[n].key != key;
      assert forall i :: 0 <= i < n ==> es[..n][i] == es[i];
      TotalAbsent(es[..n], key);
    }
  }

  lemma FirstAppend(a: seq<Entry>, b: seq<Entry>, key: nat, position: (nat, nat))
    ensures IsFirst(a, key, position) ==> IsFirst(a + b, key, position)
    ensures !Occurs(a, key) && IsFirst(b, key, position) ==> IsFirst(a + b, key, position)
  {
    if IsFirst(a, key, position) {
      var i :| 0 <= i < |a| && a[i].key == key && (a[i].chunk, a[i].row) == position && forall j :: 0 <= j < i ==> a[j].key != key;
      assert (a + b)[i] == a[i];
    }
    if !Occurs(a, key) && IsFirst(b, key, position) {
      var i :| 0 <= i < |b| && b[i].key == key && (b[i].chunk, b[i].row) == position && forall j :: 0 <= j < i ==> b[j].key != key;
      assert (a + b)[|a| + i] == b[i];
    }
  }

  // ---------- The rows of a group ----------

  /** The kept rows of a key, by chunk and row. */
  ghost function Group(chunks: seq<seq<Row>>, key: nat): set<(nat, nat)> {
    set c: nat, i: nat | c < |chunks| && i < |chunks[c]| && chunks[c][i].keep && chunks[c][i].key == key :: (c, i)
  }

  /** The value at a position; 0 where there is none. */
  ghost function ValueAt(chunks: seq<seq<Row>>): ((nat, nat)) -> int {
    (p: (nat, nat)) => if p.0 < |chunks| && p.1 < |chunks[p.0]| then chunks[p.0][p.1].value else 0
  }

  /** What a kernel makes of the rows at a set of positions: their number, or the sum of their values. */
  ghost function Aggregated(kernel: Kernel, chunks: seq<seq<Row>>, P: set<(nat, nat)>): int {
    match kernel
    case Count => |P|
    case Sum => SumOf(P, ValueAt(chunks))
  }

  predicate Before(p: (nat, nat), q: (nat, nat)) {
    p.0 < q.0 || (p.0 == q.0 && p.1 < q.1)
  }

  /** `p` is the first of the positions, in order of chunk and row. */
  ghost predicate Leads(P: set<(nat, nat)>, p: (nat, nat)) {
    p in P && forall q :: q in P && q != p ==> Before(p, q)
  }

  lemma AggregatedGrows(kernel: Kernel, chunks: seq<seq<Row>>, P: set<(nat, nat)>, p: (nat, nat))
    requires p.0 < |chunks| && p.1 < |chunks[p.0]| && p !in P
    ensures Aggregated(kernel, chunks, P + {p}) == Aggregated(kernel, chunks, P) + (if kernel.Count? then 1 else chunks[p.0][p.1].value)
  {
    SumAdd(P, ValueAt(chunks), p);
  }

  /** The rows of a key that come before row `i` of chunk `c`. */
  ghost function GroupBefore(chunks: seq<seq<Row>>, key: nat, c: nat, i: nat): set<(nat, nat)> {
    set p | p in Group(chunks, key) && Before(p, (c, i))
  }

  /** The entries `es` stand for the rows of `key` at the positions `P`. */
  ghost predicate Represents(kernel: Kernel, chunks: seq<seq<Row>>, key: nat, es: seq<Entry>, P: set<(nat, nat)>) {
    && (Occurs(es, key) <==> P != {})
    && Total(es, key) == Aggregated(kernel, chunks, P)
    && forall p :: IsFirst(es, key, p) ==> Leads(P, p)
  }

  lemma FirstOfAppend(es: seq<Entry>, e: Entry, key: nat, p: (nat, nat))
    requires IsFirst(es + [e], key, p)
    ensures IsFirst(es, key, p) || (!Occurs(es, key) && e.key == key && p == (e.chunk, e.row))
  {
    var es' := es + [e];
    var i :| 0 <= i < |es'| && es'[i].key == key && (es'[i].chunk, es'[i].row) == p && forall j :: 0 <= j < i ==> es'[j].key != key;
    if i < |es| {
      assert es[i] == es'[i];
      assert forall j :: 0 <= j < i ==> es[j] == es'[j];
    } else {
      assert forall j :: 0 <= j < |es| ==> es[j] == es'[j];
    }
  }

  lemma RepresentRow(kernel: Kernel, chunks: seq<seq<Row>>, key: nat, es: seq<Entry>, P: set<(nat, nat)>, c: nat, i: nat)
    requires c < |chunks| && i < |chunks[c]| && chunks[c][i].key == key
    requires (forall p :: p in P ==> Before(p, (c, i)))
    requires Represents(kernel, chunks, key, es, P)
    ensures Represents(kernel, chunks, key, es + [EntryOf(kernel, chunks[c][i], c, i)], P + {(c, i)})
  {
    hide Occurs, IsFirst, Total;
    var e := EntryOf(kernel, chunks[c][i], c, i);
    OccursAppend(es, [e], key);
    TotalAppend(es, [e], key);
    Single(e, key);
    AggregatedGrows(kernel, chunks, P, (c, i));
    forall p | IsFirst(es + [e], key, p)
      ensures Leads(P + {(c, i)}, p)
    {
      FirstOfAppend(es, e, key, p);
    }
  }

  lemma RepresentOther(kernel: Kernel, chunks: seq<seq<Row>>, key: nat, es: seq<Entry>, P: set<(nat, nat)>, e: Entry)
    requires e.key != key && Represents(kernel, chunks, key, es, P)
    ensures Represents(kernel, chunks, key, es + [e], P)
  {
    hide Occurs, IsFirst, Total, Aggregated, Leads;
    OccursAppend(es, [e], key);
    TotalAppend(es, [e], key);
    Single(e, key);
    forall p | IsFirst(es + [e], key, p)
      ensures Leads(P, p)
    {
      FirstOfAppend(es, e, key, p);
    }
  }

  /** Row by row through a chunk. */
  lemma {:induction false} RepresentChunk(kernel: Kernel, chunks: seq<seq<Row>>, key: nat, c: nat, i: nat, es: seq<Entry>)
    requires c < |chunks| && i <= |chunks[c]| && Represents(kernel, chunks, key, es, GroupBefore(chunks, key, c, 0))
    ensures Represents(kernel, chunks, key, es + ChunkEntries(kernel, chunks[c], c, i), GroupBefore(chunks, key, c, i))
    decreases i
  {
    hide Represents;
    if i == 0 {
      assert es + [] == es;
    } else {
      RepresentChunk(kernel, chunks, key, c, i - 1, es);
      var before := es + ChunkEntries(kernel, chunks[c], c, i - 1);
      var P, r := GroupBefore(chunks, key, c, i - 1), chunks[c][i - 1];
      if r.keep {
        var e := EntryOf(kernel, r, c, i - 1);
        assert es + ChunkEntries(kernel, chunks[c], c, i) == before + [e];
        if r.key == key {
          assert GroupBefore(chunks, key, c, i) == P + {(c, i - 1)};
          RepresentRow(kernel, chunks, key, before, P, c, i - 1);
        } else {
          assert GroupBefore(chunks, key, c, i) == P;
          RepresentOther(kernel, chunks, key, before, P, e);
        }
      } else {
        assert es + ChunkEntries(kernel, chunks[c], c, i) == before;
        assert GroupBefore(chunks, key, c, i) == P;
      }
    }
  }

  /** Chunk by chunk through a table. */
  lemma {:induction false} RepresentChunks(kernel: Kernel, chunks: seq<seq<Row>>, key: nat, n: nat)
    requires n <= |chunks|
    ensures Represents(kernel, chunks, key, Entries(kernel, chunks, 0, n), GroupBefore(chunks, key, n, 0))
    decreases n
  {
    if n == 0 {
      assert GroupBefore(chunks, key, 0, 0) == {};
    } else {
      hide Represents, ChunkEntries;
      RepresentChunks(kernel, chunks, key, n - 1);
      RepresentChunk(kernel, chunks, key, n - 1, |chunks[n - 1]|, Entries(kernel, chunks, 0, n - 1));
      assert GroupBefore(chunks, key, n - 1, |chunks[n - 1]|) == GroupBefore(chunks, key, n, 0);
    }
  }

  lemma GroupIsAll(chunks: seq<seq<Row>>, key: nat)
    ensures GroupBefore(chunks, key, |chunks|, 0) == Group(chunks, key)
  {
  }

  /** The totals and first entries of all kept rows are what the kernel makes of each group, and each group's first row. */
  lemma EntriesRight(kernel: Kernel, chunks: seq<seq<Row>>, values: map<nat, int>, tuples: map<nat, (nat, nat)>, key: nat)
    requires Totals(Entries(kernel, chunks, 0, |chunks|), values) && Firsts(Entries(kernel, chunks, 0, |chunks|), tuples)
    ensures key in values <==> Group(chunks, key) != {}
    ensures key in tuples <==> Group(chunks, key) != {}
    ensures key in values ==> values[key] == Aggregated(kernel, chunks, Group(chunks, key))
    ensures key in tuples ==> Leads(Group(chunks, key), tuples[key])
  {
    hide Occurs, IsFirst, Total, Entries, Group, Leads, Aggregated, GroupBefore;
    GroupIsAll(chunks, key);
    RepresentChunks(kernel, chunks, key, |chunks|);
  }

  /** The number of a chunk shows only in positions. */
  lemma {:induction false} ChunkNumber(kernel: Kernel, rows: seq<Row>, c: nat, d: nat, n: nat, key: nat)
    requires n <= |rows|
    ensures var a, b := ChunkEntries(kernel, rows, c, n), ChunkEntries(kernel, rows, d, n);
            && |a| == |b| && (forall i :: 0 <= i < |a| ==> b[i] == a[i].(chunk := d)) && (forall i :: 0 <= i < |a| ==> a[i].chunk == c)
            && Total(a, key) == Total(b, key) && (Occurs(a, key) <==> Occurs(b, key))
            && forall p: nat :: IsFirst(a, key, (c, p)) ==> IsFirst(b, key, (d, p))
  {
    if n > 0 {
      ChunkNumber(kernel, rows, c, d, n - 1, key);
    }
    SameTotals(ChunkEntries(kernel, rows, c, n), ChunkEntries(kernel, rows, d, n), d, key);
    SameKeys(ChunkEntries(kernel, rows, c, n), ChunkEntries(kernel, rows, d, n), d, key);
  }

  lemma {:induction false} SameTotals(a: seq<Entry>, b: seq<Entry>, d: nat, key: nat)
    requires |a| == |b| && forall i :: 0 <= i < |a| ==> b[i] == a[i].(chunk := d)
    ensures Total(a, key) == Total(b, key)
  {
    if a != [] {
      SameTotals(a[..|a| - 1], b[..|a| - 1], d, key);
    }
  }

  lemma SameKeys(a: seq<Entry>, b: seq<Entry>, d: nat, key: nat)
    requires |a| == |b| && forall i :: 0 <= i < |a| ==> b[i] == a[i].(chunk := d)
    ensures Occurs(a, key) <==> Occurs(b, key)
    ensures forall c: nat, p: nat :: IsFirst(a, key, (c, p)) ==> IsFirst(b, key, (d, p))
  {
    if Occurs(a, key) {
      var i :| 0 <= i < |a| && a[i].key == key;
      assert b[i].key == key;
    }
    forall c: nat, p: nat | IsFirst(a, key, (c, p))
      ensures IsFirst(b, key, (d, p))
    {
      var i :| 0 <= i < |a| && a[i].key == key && (a[i].chunk, a[i].row) == (c, p) && forall j :: 0 <= j < i ==> a[j].key != key;
      assert b[i].key == key && (b[i].chunk, b[i].row) == (d, p);
    }
  }

  /** What one chunk adds to maps of the rows before it. */
  lemma ChunkGain(kernel: Kernel, rows: seq<Row>, chunk: nat, es: seq<Entry>, key: nat)
    ensures var P, a := Group([rows], key), ChunkEntries(kernel, rows, chunk, |rows|);
            && (Occurs(es + a, key) <==> Occurs(es, key) || P != {})
            && Total(es + a, key) == Total(es, key) + Aggregated(kernel, [rows], P)
            && (forall p :: IsFirst(es + a, key, p) ==> IsFirst(es, key, p) || (!Occurs(es, key) && p.0 == chunk && Leads(P, (0, p.1))))
  {
    hide Occurs, IsFirst, Total, Group, Leads, Aggregated, GroupBefore, ChunkEntries, EntryOf;
    var a, b := ChunkEntries(kernel, rows, chunk, |rows|), ChunkEntries(kernel, rows, 0, |rows|);
    GroupIsAll([rows], key);
    RepresentChunks(kernel, [rows], key, 1);
    OnlyChunk(kernel, rows);
    ChunkNumber(kernel, rows, chunk, 0, |rows|, key);
    OccursAppend(es, a, key);
    TotalAppend(es, a, key);
    forall p | IsFirst(es + a, key, p)
      ensures IsFirst(es, key, p) || (!Occurs(es, key) && p.0 == chunk && Leads(Group([rows], key), (0, p.1)))
    {
      FirstOfJoin(es, a, key, p);
      if !IsFirst(es, key, p) {
        FirstChunk(a, chunk, key, p);
        assert IsFirst(a, key, (chunk, p.1));
      }
    }
  }

  lemma OnlyChunk(kernel: Kernel, rows: seq<Row>)
    ensures Entries(kernel, [rows], 0, 1) == ChunkEntries(kernel, rows, 0, |rows|)
  {
    hide ChunkEntries;
    assert Entries(kernel, [rows], 0, 0) == [];
    assert [rows][0] == rows;
  }

  lemma FirstChunk(a: seq<Entry>, chunk: nat, key: nat, p: (nat, nat))
    requires IsFirst(a, key, p) && forall i :: 0 <= i < |a| ==> a[i].chunk == chunk
    ensures p.0 == chunk
  {
  }

  lemma FirstOfJoin(a: seq<Entry>, b: seq<Entry>, key: nat, p: (nat, nat))
    requires IsFirst(a + b, key, p)
    ensures IsFirst(a, key, p) || (!Occurs(a, key) && IsFirst(b, key, p))
  {
    var es := a + b;
    var i :| 0 <= i < |es| && es[i].key == key && (es[i].chunk, es[i].row) == p && forall j :: 0 <= j < i ==> es[j].key != key;
    if i < |a| {
      assert a[i] == es[i];
      assert forall j :: 0 <= j < i ==> a[j] == es[j];
    } else {
      assert b[i - |a|] == es[i];
      assert forall j :: 0 <= j < |a| ==> a[j] == es[j];
      assert forall j :: 0 <= j < i - |a| ==> b[j] == es[|a| + j];
    }
  }

  lemma FirstUnique(es: seq<Entry>, key: nat, p: (nat, nat), q: (nat, nat))
    requires IsFirst(es, key, p) && IsFirst(es, key, q)
    ensures p == q
  {
  }

  /** The same for the maps themselves. */
  lemma ChunkAdded(kernel: Kernel, rows: seq<Row>, chunk: nat, es: seq<Entry>, values: map<nat, int>, tuples: map<nat, (nat, nat)>,
                   values': map<nat, int>, tuples': map<nat, (nat, nat)>, key: nat)
    requires Totals(es, values) && Firsts(es, tuples)
    requires Totals(es + ChunkEntries(kernel, rows, chunk, |rows|), values') && Firsts(es + ChunkEntries(kernel, rows, chunk, |rows|), tuples')
    ensures var P := Group([rows], key);
            && (key in values' <==> key in values || P != {}) && (key in tuples' <==> key in tuples || P != {})
            && (key in values' ==> values'[key] == (if key in values then values[key] else 0) + Aggregated(kernel, [rows], P))
            && (key in tuples ==> tuples'[key] == tuples[key])
            && (key in tuples' && key !in tuples ==> tuples'[key].0 == chunk && Leads(P, (0, tuples'[key].1)))
  {
    hide Occurs, IsFirst, Total, Group, Leads, Aggregated, ChunkEntries;
    ChunkGain(kernel, rows, chunk, es, key);
    if !Occurs(es, key) {
      TotalAbsent(es, key);
      if key in tuples' {
        NoFirst(es, key, tuples'[key]);
      }
    } else {
      FirstUnique(es, key, tuples[key], tuples'[key]);
    }
  }

  lemma NoFirst(es: seq<Entry>, key: nat, p: (nat, nat))
    requires !Occurs(es, key)
    ensures !IsFirst(es, key, p)
  {
  }

  // ---------- First phase ----------

  /** Add one entry to a pair of maps. */
  lemma AddEntry(es: seq<Entry>, values: map<nat, int>, tuples: map<nat, (nat, nat)>, e: Entry)
    requires Totals(es, values) && Firsts(es, tuples)
    ensures Totals(es + [e], values[e.key := (if e.key in values then e.value + values[e.key] else e.value)])
    ensures Firsts(es + [e], if e.key in tuples then tuples else tuples[e.key := (e.chunk, e.row)])
  {
    hide Occurs, IsFirst, Total;
    var values' := values[e.key := (if e.key in values then e.value + values[e.key] else e.value)];
    var tuples' := if e.key in tuples then tuples else tuples[e.key := (e.chunk, e.row)];
    forall k: nat
      ensures (k in values' <==> Occurs(es + [e], k)) && (k in values' ==> values'[k] == Total(es + [e], k))
      ensures (k in tuples' <==> Occurs(es + [e], k)) && (k in tuples' ==> IsFirst(es + [e], k, tuples'[k]))
    {
      OccursAppend(es, [e], k);
      TotalAppend(es, [e], k);
      Single(e, k);
      if !Occurs(es, k) {
        TotalAbsent(es, k);
      }
      if k in tuples {
        FirstAppend(es, [e], k, tuples[k]);
      } else {
        FirstAppend(es, [e], k, (e.chunk, e.row));
      }
    }
  }

  lemma Single(e: Entry, k: nat)
    ensures Occurs([e], k) <==> e.key == k
    ensures Total([e], k) == if e.key == k then e.value else 0
    ensures e.key == k ==> IsFirst([e], k, (e.chunk, e.row))
  {
    assert [e][0] == e;
    assert Total([e][..0], k) == 0;
  }

  /** The maps a task of the first phase works on. */
  class LocalMaps {
    var values: map<nat, int>
    var tuples: map<nat, (nat, nat)>

    constructor ()
      ensures values == map[] && tuples == map[]
    {
      values, tuples := map[], map[];
    }

    method AggregateChunk(kernel: Kernel, rows: seq<Row>, chunk: nat, ghost es: seq<Entry>)
      requires Totals(es, values) && Firsts(es, tuples)
      modifies this
      ensures Totals(es + ChunkEntries(kernel, rows, chunk, |rows|), values)
      ensures Firsts(es + ChunkEntries(kernel, rows, chunk, |rows|), tuples)
      ensures forall k: nat :: (k in values <==> k in old(values) || Group([rows], k) != {})
                               && (k in tuples <==> k in old(tuples) || Group([rows], k) != {})
      ensures forall k: nat :: k in values ==> values[k] == (if k in old(values) then old(values)[k] else 0) + Aggregated(kernel, [rows], Group([rows], k))
      ensures forall k: nat :: k in old(tuples) ==> tuples[k] == old(tuples)[k]
      ensures forall k: nat :: k in tuples && k !in old(tuples) ==> tuples[k].0 == chunk && Leads(Group([rows], k), (0, tuples[k].1))
    {
      hide Totals, Firsts, Group, Leads, Aggregated;
      assert es + ChunkEntries(kernel, rows, chunk, 0) == es;
      for i := 0 to |rows|
        invariant Totals(es + ChunkEntries(kernel, rows, chunk, i), values)
        invariant Firsts(es + ChunkEntries(kernel, rows, chunk, i), tuples)
      {
        ghost var before := ChunkEntries(kernel, rows, chunk, i);
        if !rows[i].keep {
          assert ChunkEntries(kernel, rows, chunk, i + 1) == before;
          continue;
        }
        var key, value := rows[i].key, if kernel == Count then 1 else rows[i].value;
        ghost var e := EntryOf(kernel, rows[i], chunk, i);
        AddEntry(es + before, values, tuples, e);
        assert es + ChunkEntries(kernel, rows, chunk, i + 1) == es + before + [e];
        values := values[key := if key in values then value + values[key] else value];
        if key !in tuples {
          tuples := tuples[key := (chunk, i)];
        }
      }
      forall k: nat
        ensures (k in values <==> k in old(values) || Group([rows], k) != {}) && (k in tuples <==> k in old(tuples) || Group([rows], k) != {})
        ensures k in values ==> values[k] == (if k in old(values) then old(values)[k] else 0) + Aggregated(kernel, [rows], Group([rows], k))
        ensures k in old(tuples) ==> tuples[k] == old(tuples)[k]
        ensures k in tuples && k !in old(tuples) ==> tuples[k].0 == chunk && Leads(Group([rows], k), (0, tuples[k].1))
      {
        ChunkAdded(kernel, rows, chunk, es, old(values), old(tuples), values, tuples, k);
      }
    }

    method AggregateChunks(kernel: Kernel, chunks: seq<seq<Row>>, start: nat, end: nat)
      requires values == map[] && tuples == map[] && start <= end <= |chunks|
      modifies this
      ensures Totals(Entries(kernel, chunks, start, end), values) && Firsts(Entries(kernel, chunks, start, end), tuples)
    {
      hide ChunkEntries;
      NothingYet();
      for i := start to end
        invariant Totals(Entries(kernel, chunks, start, i), values) && Firsts(Entries(kernel, chunks, start, i), tuples)
      {
        AggregateChunk(kernel, chunks[i], i, Entries(kernel, chunks, start, i));
      }
    }
  }

  lemma NothingYet()
    ensures Totals([], map[]) && Firsts([], map[])
  {
  }

  // ---------- Second phase ----------

  ghost function Merged(a: map<nat, int>, b: map<nat, int>): map<nat, int> {
    map k | k in a.Keys + b.Keys :: (if k in a then a[k] else 0) + (if k in b then b[k] else 0)
  }

  method MergeValues(big: map<nat, int>, local: map<nat, int>) returns (r: map<nat, int>)
    ensures r == Merged(big, local)
  {
    r := big;
    var todo := local.Keys;
    while todo != {}
      invariant todo <= local.Keys
      invariant r == Merged(big, local - todo)
      decreases |todo|
    {
      var k :| k in todo;
      MergeOne(big, local, todo, k);
      r := r[k := if k in r then local[k] + r[k] else local[k]];
      todo := todo - {k};
    }
    assert local - todo == local;
  }

  lemma MergeOne(big: map<nat, int>, local: map<nat, int>, todo: set<nat>, k: nat)
    requires k in todo && k in local
    ensures var r := Merged(big, local - todo);
            Merged(big, local - (todo - {k})) == r[k := if k in r then local[k] + r[k] else local[k]]
  {
    var r := Merged(big, local - todo);
    var r' := Merged(big, local - (todo - {k}));
    assert r'.Keys == r.Keys + {k};
  }

  method MergeTuples(big: map<nat, (nat, nat)>, local: map<nat, (nat, nat)>) returns (r: map<nat, (nat, nat)>)
    ensures r == local + big
  {
    r := big;
    var todo := local.Keys;
    while todo != {}
      invariant todo <= local.Keys
      invariant r == (local - todo) + big
      decreases |todo|
    {
      var k :| k in todo;
      if k !in r {
        r := r[k := local[k]];
      }
      todo := todo - {k};
    }
    assert local - todo == local;
  }

  /** Merging the maps of two consecutive ranges gives the maps of the joint range. */
  lemma MergeRight(a: seq<Entry>, b: seq<Entry>, va: map<nat, int>, vb: map<nat, int>, ta: map<nat, (nat, nat)>, tb: map<nat, (nat, nat)>)
    requires Totals(a, va) && Totals(b, vb) && Firsts(a, ta) && Firsts(b, tb)
    ensures Totals(a + b, Merged(va, vb)) && Firsts(a + b, tb + ta)
  {
    hide Occurs, IsFirst, Total;
    var v, t := Merged(va, vb), tb + ta;
    forall k: nat
      ensures (k in v <==> Occurs(a + b, k)) && (k in v ==> v[k] == Total(a + b, k))
      ensures (k in t <==> Occurs(a + b, k)) && (k in t ==> IsFirst(a + b, k, t[k]))
    {
      OccursAppend(a, b, k);
      TotalAppend(a, b, k);
      if !Occurs(a, k) {
        TotalAbsent(a, k);
      }
      if !Occurs(b, k) {
        TotalAbsent(b, k);
      }
      if k in t {
        FirstAppend(a, b, k, t[k]);
      }
    }
  }

  /** Both phases: the result is the one of a single pass over all kept rows. */
  method Aggregate(kernel: Kernel, chunks: seq<seq<Row>>, threads: nat) returns (values: map<nat, int>, tuples: map<nat, (nat, nat)>)
    requires threads > 0
    ensures Totals(Entries(kernel, chunks, 0, |chunks|), values) && Firsts(Entries(kernel, chunks, 0, |chunks|), tuples)
    ensures forall k: nat :: (k in values <==> Group(chunks, k) != {}) && (k in tuples <==> Group(chunks, k) != {})
    ensures kernel == Count ==> forall k: nat :: k in values ==> values[k] == |Group(chunks, k)|
    ensures kernel == Sum ==> forall k: nat :: k in values ==> values[k] == SumOf(Group(chunks, k), ValueAt(chunks))
    ensures forall k: nat :: k in tuples ==> tuples[k] in Group(chunks, k) && forall p :: p in Group(chunks, k) && p != tuples[k] ==> Before(tuples[k], p)
  {
    hide Group, ValueAt, SumOf;
    hide Totals, Firsts, ChunkRange, Boundary, Entries, SuggestedTasks;
    values, tuples := map[], map[];
    var tasks := SuggestedTasks(threads, |chunks|);
    BoundaryEnds(threads, |chunks|);
    NoEntries(kernel, chunks);
    NothingYet();
    for tid := 0 to tasks
      invariant 0 <= Boundary(tid, threads, |chunks|) <= |chunks|
      invariant Totals(Entries(kernel, chunks, 0, Boundary(tid, threads, |chunks|)), values)
      invariant Firsts(Entries(kernel, chunks, 0, Boundary(tid, threads, |chunks|)), tuples)
    {
      RangesCover(tid, threads, |chunks|);
      var (start, end) := ChunkRange(tid, threads, |chunks|);
      var local := new LocalMaps();
      local.AggregateChunks(kernel, chunks, start, end);
      MergeRight(Entries(kernel, chunks, 0, start), Entries(kernel, chunks, start, end), values, local.values, tuples, local.tuples);
      EntriesJoin(kernel, chunks, 0, start, end);
      values := MergeValues(values, local.values);
      tuples := MergeTuples(tuples, local.tuples);
    }
    forall k: nat
      ensures (k in values <==> Group(chunks, k) != {}) && (k in tuples <==> Group(chunks, k) != {})
      ensures k in values ==> values[k] == Aggregated(kernel, chunks, Group(chunks, k))
      ensures k in tuples ==> Leads(Group(chunks, k), tuples[k])
    {
      EntriesRight(kernel, chunks, values, tuples, k);
    }
  }

  lemma NoEntries(kernel: Kernel, chunks: seq<seq<Row>>)
    ensures Entries(kernel, chunks, 0, 0) == []
  {
  }
}
