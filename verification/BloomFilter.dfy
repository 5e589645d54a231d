/** The Bloom filter used for look-ahead filtering. */
module BloomFilter {
  import opened Arithmetic

  const NUM_HASHES := 3

  function Bit(b: bv8, k: nat): bool
    requires k < 8
  {
    (b >> k) & 1 == 1
  }

  function WithBit(b: bv8, k: nat): bv8
    requires k < 8
  {
    b | (1 << k)
  }

  /** Setting one bit leaves the others alone. */
  lemma SetBit(b: bv8, j: nat, k: nat)
    requires j < 8 && k < 8
    ensures Bit(WithBit(b, j), k) <==> j == k || Bit(b, k)
  {
    hide Bit, WithBit;
    if j == k {
      SetOwnBit(b, j);
    } else {
      SetOtherBit(b, j, k);
    }
  }

  lemma SetOwnBit(b: bv8, j: nat)
    requires j < 8
    ensures Bit(WithBit(b, j), j)
  {
  }

  lemma SetOtherBit(b: bv8, j: nat, k: nat)
    requires j < 8 && k < 8 && j != k
    ensures Bit(WithBit(b, j), k) <==> Bit(b, k)
  {
    assert ((b | (1 << j)) >> k) & 1 == ((b >> k) & 1) | (((1 << j) >> k) & 1);
    assert (((1 as bv8) << j) >> k) & 1 == 0;
  }

  lemma NoBit(k: nat)
    requires k < 8
    ensures !Bit(0, k)
  {
  }

  /** The hash function and its three seeds are parameters: the repository draws the seeds at random. */
  datatype Hashing = Hashing(hash: (int, nat) -> nat, seeds: seq<nat>, cells: nat)

  /** The cell of value `v` under hash function number `k`. */
  function Index(h: Hashing, v: int, k: nat): nat
    requires k < |h.seeds|
  {
    Reduce(h.hash(v, h.seeds[k]) % 0x1_0000_0000, h.cells)
  }

  /** Each cell is the 32-bit hash under its own seed, scaled to the number of cells. */
  lemma IndexScales(h: Hashing, v: int, k: nat)
    requires k < |h.seeds|
    ensures var x := h.hash(v, h.seeds[k]) % 0x1_0000_0000;
            Index(h, v, k) * 0x1_0000_0000 <= x * h.cells < (Index(h, v, k) + 1) * 0x1_0000_0000
    ensures h.cells > 0 ==> Index(h, v, k) < h.cells
  {
    ReduceScales(h.hash(v, h.seeds[k]) % 0x1_0000_0000, h.cells);
    ReduceInRange(h.hash(v, h.seeds[k]) % 0x1_0000_0000, h.cells);
  }

  lemma IndexFits(h: Hashing, v: int, k: nat)
    requires k < |h.seeds|
    ensures Index(h, v, k) / 8 < h.cells / 8 + 1
  {
    ReduceInRange(h.hash(v, h.seeds[k]) % 0x1_0000_0000, h.cells);
  }

  /** Some value of `inserted`, under one of the first `n` hash functions, falls on cell `i`. */
  ghost predicate Marks(h: Hashing, v: int, n: nat, i: nat)
    requires n <= |h.seeds|
  {
    exists k :: 0 <= k < n && Index(h, v, k) == i
  }

  ghost predicate Marked(h: Hashing, inserted: set<int>, i: nat) {
    exists v :: v in inserted && Marks(h, v, |h.seeds|, i)
  }

  lemma MarkedGrows(h: Hashing, inserted: set<int>, v: int, j: nat)
    ensures Marked(h, inserted + {v}, j) <==> Marked(h, inserted, j) || Marks(h, v, |h.seeds|, j)
  {
    if Marks(h, v, |h.seeds|, j) {
      assert v in inserted + {v};
    }
    if Marked(h, inserted, j) {
      var u :| u in inserted && Marks(h, u, |h.seeds|, j);
      assert u in inserted + {v};
    }
  }

  class BloomFilter {
    const h: Hashing
    const bytes: array<bv8>
    ghost var inserted: set<int>

    /** A cell is set exactly when some inserted value falls on it. */
    ghost predicate Valid()
      reads this, bytes
    {
      && |h.seeds| == NUM_HASHES && bytes.Length == h.cells / 8 + 1
      && forall i: nat {:trigger Cell(i)} :: i / 8 < bytes.Length ==> (Cell(i) <==> Marked(h, inserted, i))
    }

    predicate Cell(i: nat)
      reads bytes
    {
      i / 8 < bytes.Length && Bit(bytes[i / 8], i % 8)
    }

    constructor (hash: (int, nat) -> nat, seeds: seq<nat>, values: nat)
      requires |seeds| == NUM_HASHES
      ensures Valid() && inserted == {} && fresh(bytes) && h == Hashing(hash, seeds, values * 100)
    {
      h := Hashing(hash, seeds, values * 100);
      var n := values * 100 / 8 + 1;
      bytes := new bv8[n](_ => 0);
      inserted := {};
      new;
      hide Bit;
      forall i: nat | i / 8 < bytes.Length
        ensures !Cell(i)
      {
        NoBit(i % 8);
      }
    }

    method SetCell(i: nat)
      requires i / 8 < bytes.Length
      modifies bytes
      ensures forall j: nat :: j / 8 < bytes.Length ==> (Cell(j) <==> i == j || old(Cell(j)))
    {
      hide Bit, WithBit;
      bytes[i / 8] := WithBit(bytes[i / 8], i % 8);
      forall j: nat | j / 8 < bytes.Length
        ensures Cell(j) <==> i == j || old(Cell(j))
      {
        SetBit(old(bytes[i / 8]), i % 8, j % 8);
      }
    }

    method Insert(v: int)
      requires Valid()
      modifies this`inserted, bytes
      ensures Valid() && inserted == old(inserted) + {v}
    {
      hide Index, Cell;
      for k := 0 to NUM_HASHES
        invariant inserted == old(inserted)
        invariant forall j: nat :: j / 8 < bytes.Length ==> (Cell(j) <==> Marks(h, v, k, j) || old(Cell(j)))
      {
        IndexFits(h, v, k);
        SetCell(Index(h, v, k));
      }
      forall j: nat
        ensures Marked(h, inserted + {v}, j) <==> Marked(h, inserted, j) || Marks(h, v, NUM_HASHES, j)
      {
        MarkedGrows(h, inserted, v, j);
      }
      inserted := inserted + {v};
    }

    /** True exactly for the values all of whose cells are set; in particular for every inserted value. */
    method Probe(v: int) returns (maybe: bool)
      requires Valid()
      ensures maybe <==> forall k :: 0 <= k < NUM_HASHES ==> Marked(h, inserted, Index(h, v, k))
      ensures v in inserted ==> maybe
    {
      hide Index, Cell;
      maybe := true;
      for i := 0 to NUM_HASHES
        invariant forall k :: 0 <= k < i ==> Marked(h, inserted, Index(h, v, k))
      {
        IndexFits(h, v, i);
        if !Cell(Index(h, v, i)) {
          assert Marks(h, v, NUM_HASHES, Index(h, v, i));
          return false;
        }
      }
    }
  }

  /** The values of the kept rows; without a row filter all rows are kept. */
  ghost function Kept(keys: seq<int>, keep: seq<bool>): set<int>
    requires |keys| == |keep|
  {
    set i | 0 <= i < |keys| && keep[i] :: keys[i]
  }

  /** Build the filter of a dimension table from its kept primary keys. */
  method BuildFilter(hash: (int, nat) -> nat, seeds: seq<nat>, keys: seq<int>, keep: seq<bool>, size: nat) returns (filter: BloomFilter)
    requires |seeds| == NUM_HASHES && |keys| == |keep|
    ensures fresh(filter) && fresh(filter.bytes) && filter.Valid() && filter.inserted == Kept(keys, keep)
    ensures filter.h == Hashing(hash, seeds, size * 100)
  {
    filter := new BloomFilter(hash, seeds, size);
    for i := 0 to |keys|
      invariant filter.Valid() && fresh(filter) && fresh(filter.bytes) && filter.h == Hashing(hash, seeds, size * 100)
      invariant filter.inserted == Kept(keys[..i], keep[..i])
    {
      assert keys[..i + 1] == keys[..i] + [keys[i]] && keep[..i + 1] == keep[..i] + [keep[i]];
      KeptGrows(keys[..i], keep[..i], keys[i], keep[i]);
      if keep[i] {
        filter.Insert(keys[i]);
      }
    }
    assert keys[..|keys|] == keys && keep[..|keys|] == keep;
  }

  lemma KeptGrows(keys: seq<int>, keep: seq<bool>, key: int, kept: bool)
    requires |keys| == |keep|
    ensures Kept(keys + [key], keep + [kept]) == Kept(keys, keep) + (if kept then {key} else {})
  {
    var n, keys', keep' := |keys|, keys + [key], keep + [kept];
    assert keys'[n] == key && keep'[n] == kept;
    forall x | x in Kept(keys, keep)
      ensures x in Kept(keys', keep')
    {
      var i :| 0 <= i < n && keep[i] && keys[i] == x;
      assert keep'[i] && keys'[i] == x;
    }
    if kept {
      assert keys'[n] in Kept(keys', keep');
    }
  }
}
