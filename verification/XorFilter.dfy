/**
 The 8-bit XOR filter: hashing, membership, and the two populate routines.
 The routines are stated for every hash function into three blocks and every sequence of seeds;
 `XOR8_HASH` is the hash the repository uses.
 */
module XorFilter {
  import opened XorPeeling
  import opened XorPopulate
  import opened Arithmetic

  const XOR_MAX_ITERATIONS: nat := 100

  // ---------- Hashing ----------

  /** `mix` hashes a key under a seed, `place` reduces a hash to a position in a block, `fingerprint` fingerprints it. */
  datatype Hasher = Hasher(mix: (bv64, bv64) -> bv64, place: (nat, nat, bv64) -> nat, fingerprint: bv64 -> bv64)
  {
    ghost predicate Valid(blockLength: nat) {
      forall b: nat, h: bv64 :: b < 3 ==> place(blockLength, b, h) < blockLength
    }
  }

  function Murmur64(k: bv64): bv64 {
    var h1 := k ^ (k >> 33);
    var h2 := h1 * 0xff51afd7ed558ccd;
    var h3 := h2 ^ (h2 >> 33);
    var h4 := h3 * 0xc4ceb9fe1a85ec53;
    h4 ^ (h4 >> 33)
  }

  function Low32(x: bv64): nat {
    ((x & 0xFFFF_FFFF) as bv32) as nat
  }

  function Place(blockLength: nat, b: nat, h: bv64): nat {
    Reduce(Low32(if b == 0 then h else if b == 1 then h.RotateLeft(21) else h.RotateLeft(42)), blockLength)
  }

  const XOR8_HASH: Hasher := Hasher(
    (key, seed) => Murmur64(key + seed),
    (n, b, h) => Place(n, b, h),
    h => h ^ (h >> 32))

  lemma Low32Bound(x: bv64)
    ensures Low32(x) < 0x1_0000_0000
  {

  }

  lemma Xor8HashValid(blockLength: nat)
    requires 0 < blockLength
    ensures XOR8_HASH.Valid(blockLength)
  {
    forall b: nat, h: bv64 | b < 3
      ensures XOR8_HASH.place(blockLength, b, h) < blockLength
    {
      var x := if b == 0 then h else if b == 1 then h.RotateLeft(21) else h.RotateLeft(42);
      Low32Bound(x);
      ReduceInRange(Low32(x), blockLength);
    }
  }

  // ---------- Slots and write buffers of a filter ----------

  /** Write buffers per block. */
  function Buffers(n: nat): nat {
    (n + SLOT_SIZE - 1) / SLOT_SIZE
  }

  function BufferIndex(n: nat, s: nat): nat {
    if s < n then s / SLOT_SIZE
    else if s < 2 * n then Buffers(n) + (s - n) / SLOT_SIZE
    else 2 * Buffers(n) + (s - 2 * n) / SLOT_SIZE
  }

  function Xor64(a: bv64, b: bv64): bv64 { a ^ b }

  function Geometry(H: Hasher, n: nat): Layout {
    Layout(0, (a, b) => Xor64(a, b), n, (b, h) => H.place(n, b, h), 3 * Buffers(n), s => BufferIndex(n, s))
  }

  lemma BufferIndexInRange(n: nat, x: nat)
    requires x < n
    ensures x / SLOT_SIZE < Buffers(n)
  {
  }

  lemma XorCancels(a: bv64, b: bv64)
    ensures Xor64(a, 0) == a && Xor64(0, a) == a && Xor64(Xor64(a, b), b) == a
  {
  }

  lemma XorExchanges(a: bv64, b: bv64, c: bv64)
    ensures Xor64(Xor64(a, b), c) == Xor64(Xor64(a, c), b)
  {
    hide Xor64;
    XorIs(a, b);
    XorIs(a ^ b, c);
    XorIs(a, c);
    XorIs(a ^ c, b);
    BitsExchange(a, b, c);
  }

  lemma XorIs(a: bv64, b: bv64)
    ensures Xor64(a, b) == a ^ b
  {
  }

  lemma BitsExchange(a: bv64, b: bv64, c: bv64)
    ensures (a ^ b) ^ c == (a ^ c) ^ b
  {
  }

  lemma GeometryValid(H: Hasher, n: nat)
    requires 0 < n && H.Valid(n)
    ensures Geometry(H, n).Valid()
  {
    GeometryGroups(H, n);
    GeometryXor(H, n);
  }

  lemma GeometryGroups(H: Hasher, n: nat)
    requires 0 < n
    ensures var L := Geometry(H, n); forall s: nat :: s < 3 * n ==> L.group(s) < L.groups
  {
    var L := Geometry(H, n);
    forall s: nat | s < 3 * n
      ensures L.group(s) < L.groups
    {
      BufferIndexInRange(n, if s < n then s else if s < 2 * n then s - n else s - 2 * n);
    }
  }

  lemma GeometryXorIs(H: Hasher, n: nat, a: bv64, b: bv64)
    ensures Geometry(H, n).xor(a, b) == Xor64(a, b) && Geometry(H, n).zero == 0
  {
    hide Xor64;
  }

  lemma GeometryXor(H: Hasher, n: nat)
    ensures var L := Geometry(H, n);
            && (forall a: bv64 :: L.xor(a, L.zero) == a && L.xor(L.zero, a) == a)
            && (forall a: bv64, b: bv64 :: L.xor(L.xor(a, b), b) == a)
            && (forall a: bv64, b: bv64, c: bv64 {:trigger L.Swap(a, b, c)} :: L.xor(L.xor(a, b), c) == L.xor(L.xor(a, c), b))
  {
    hide Geometry, Xor64;
    var L := Geometry(H, n);
    forall a: bv64
      ensures L.xor(a, L.zero) == a && L.xor(L.zero, a) == a
    {
      GeometryXorIs(H, n, a, 0);
      GeometryXorIs(H, n, 0, a);
      XorCancels(a, 0);
    }
    forall a: bv64, b: bv64
      ensures L.xor(L.xor(a, b), b) == a
    {
      GeometryXorIs(H, n, a, b);
      GeometryXorIs(H, n, Xor64(a, b), b);
      XorCancels(a, b);
    }
    forall a: bv64, b: bv64, c: bv64
      ensures L.xor(L.xor(a, b), c) == L.xor(L.xor(a, c), b)
    {
      GeometryXorIs(H, n, a, b);
      GeometryXorIs(H, n, a, c);
      GeometryXorIs(H, n, Xor64(a, b), c);
      GeometryXorIs(H, n, Xor64(a, c), b);
      XorExchanges(a, b, c);
    }
  }

  lemma GeometrySpread(H: Hasher, n: nat)
    requires 0 < n && H.Valid(n)
    ensures Spread(Geometry(H, n), Buffers(n))
  {
    var L := Geometry(H, n);
    forall s: nat, b: nat | s < L.Slots() && InBlock(L, s, b)
      ensures GroupBase(Buffers(n), b) <= L.group(s) < GroupBase(Buffers(n), b) + Buffers(n)
    {
      BufferIndexInRange(n, s - L.Base(b));
    }
  }

  // ---------- Membership ----------

  function Low8(x: bv64): bv8 {
    (x & 0xFF) as bv8
  }

  function Sum3(a: bv8, b: bv8, c: bv8): bv8 { a ^ b ^ c }

  /** What is stored to complete a fingerprint, computed in 64 bits and truncated on the store. */
  function Completing(v: bv64, a: bv8, b: bv8): bv8 { Low8(v ^ ((a as bv64) ^ (b as bv64))) }

  /** The three cells that a hash selects add up to its fingerprint. */
  predicate Matches(H: Hasher, n: nat, fp: seq<bv8>, h: bv64)
    requires |fp| == 3 * n && H.place(n, 0, h) < n && H.place(n, 1, h) < n && H.place(n, 2, h) < n
  {
    Low8(H.fingerprint(h)) == Sum3(fp[H.place(n, 0, h)], fp[H.place(n, 1, h) + n], fp[H.place(n, 2, h) + 2 * n])
  }

  /** Truncating after the 64-bit exclusive-or completes the sum of bytes, whatever the position. */
  lemma CompletingSolves(x: bv64, a: bv8, b: bv8)
    ensures Sum3(Completing(x, a, b), a, b) == Low8(x)
    ensures Sum3(a, Completing(x, a, b), b) == Low8(x)
    ensures Sum3(a, b, Completing(x, a, b)) == Low8(x)
  {
  }

  lemma PlacesInRange(H: Hasher, n: nat, h: bv64)
    requires H.Valid(n)
    ensures H.place(n, 0, h) < n && H.place(n, 1, h) < n && H.place(n, 2, h) < n
  {
  }

  /** Every hash from position `k` of the stack on matches. */
  ghost predicate SolvedFrom(H: Hasher, n: nat, fp: seq<bv8>, stack: seq<Entry>, k: nat)
    requires |fp| == 3 * n && H.Valid(n)
  {
    forall l :: k <= l < |stack| ==> Matches(H, n, fp, stack[l].hash)
  }

  /** The value stored for a stack entry, given the cells as they are. */
  function CellValue(H: Hasher, n: nat, fp: seq<bv8>, e: Entry): bv8
    requires |fp| == 3 * n && H.place(n, 0, e.hash) < n && H.place(n, 1, e.hash) < n && H.place(n, 2, e.hash) < n
  {
    var c0 := fp[H.place(n, 0, e.hash)];
    var c1 := fp[H.place(n, 1, e.hash) + n];
    var c2 := fp[H.place(n, 2, e.hash) + 2 * n];
    var v := H.fingerprint(e.hash);
    if e.index < n then Completing(v, c1, c2)
    else if e.index < 2 * n then Completing(v, c0, c2)
    else Completing(v, c0, c1)
  }

  lemma StoreMatches(H: Hasher, n: nat, fp: seq<bv8>, e: Entry)
    requires |fp| == 3 * n && H.Valid(n) && 0 < n && e.index < 3 * n
    requires Geometry(H, n).Touches(e.hash, e.index)
    ensures Matches(H, n, fp[e.index := CellValue(H, n, fp, e)], e.hash)
  {
    hide Low8, Sum3, Completing;
    var c0 := fp[H.place(n, 0, e.hash)];
    var c1 := fp[H.place(n, 1, e.hash) + n];
    var c2 := fp[H.place(n, 2, e.hash) + 2 * n];
    if e.index < n {
      CompletingSolves(H.fingerprint(e.hash), c1, c2);
    } else if e.index < 2 * n {
      CompletingSolves(H.fingerprint(e.hash), c0, c2);
    } else {
      CompletingSolves(H.fingerprint(e.hash), c0, c1);
    }
  }

  lemma StoreKeeps(H: Hasher, n: nat, fp: seq<bv8>, s: nat, v: bv8, h: bv64)
    requires |fp| == 3 * n && H.Valid(n) && s < 3 * n && !Geometry(H, n).Touches(h, s)
    ensures Matches(H, n, fp[s := v], h) == Matches(H, n, fp, h)
  {
  }

  /** Storing in reverse peel order never disturbs an equation that already holds. */
  lemma StoreStep(H: Hasher, n: nat, hs: seq<bv64>, stack: seq<Entry>, fp: seq<bv8>, k: nat)
    requires |fp| == 3 * n && H.Valid(n) && 0 < n && k < |stack|
    requires Solvable(Geometry(H, n), hs, stack) && SolvedFrom(H, n, fp, stack, k + 1)
    ensures stack[k].index < 3 * n
    ensures SolvedFrom(H, n, fp[stack[k].index := CellValue(H, n, fp, stack[k])], stack, k)
  {
    var L := Geometry(H, n);
    assert stack[k].index < L.Slots();
    StoreMatches(H, n, fp, stack[k]);
    var fp' := fp[stack[k].index := CellValue(H, n, fp, stack[k])];
    forall l | k <= l < |stack|
      ensures Matches(H, n, fp', stack[l].hash)
    {
      if l != k {
        assert !L.Touches(stack[l].hash, stack[k].index);
        StoreKeeps(H, n, fp, stack[k].index, CellValue(H, n, fp, stack[k]), stack[l].hash);
      }
    }
  }

  // ---------- Populating ----------

  function Hashes(H: Hasher, keys: seq<bv64>, seed: bv64): (hs: seq<bv64>)
    ensures |hs| == |keys| && forall i :: 0 <= i < |hs| ==> hs[i] == H.mix(keys[i], seed)
  {
    seq(|keys|, i requires 0 <= i < |keys| => H.mix(keys[i], seed))
  }

  /** Under this seed, the hashes of the keys can be peeled completely. */
  ghost predicate Accepts(H: Hasher, n: nat, keys: seq<bv64>, seed: bv64) {
    Peelable(Geometry(H, n), Hashes(H, keys, seed))
  }

  /** The first attempt from `k` on whose seed is accepted; the attempt limit if there is none. */
  ghost function FirstAccepted(H: Hasher, n: nat, keys: seq<bv64>, seeds: nat -> bv64, k: nat): nat
    decreases XOR_MAX_ITERATIONS - k
  {
    if k >= XOR_MAX_ITERATIONS then XOR_MAX_ITERATIONS
    else if Accepts(H, n, keys, seeds(k)) then k
    else FirstAccepted(H, n, keys, seeds, k + 1)
  }

  class Xor8 {
    const H: Hasher
    const blockLength: nat
    const fingerprints: array<bv8>
    var seed: bv64

    ghost predicate Valid() {
      0 < blockLength && fingerprints.Length == 3 * blockLength && H.Valid(blockLength)
    }

    constructor (H: Hasher, blockLength: nat)
      requires 0 < blockLength && H.Valid(blockLength)
      ensures Valid() && this.H == H && this.blockLength == blockLength && fresh(fingerprints)
    {
      this.H := H;
      this.blockLength := blockLength;
      fingerprints := new bv8[3 * blockLength];
      seed := 0;
    }

    /** The cell a key selects in block `b`. */
    function Cell(key: bv64, b: nat): (c: nat)
      requires Valid() && b < 3
      reads this
      ensures if b == 0 then c < blockLength else if b == 1 then blockLength <= c < 2 * blockLength else 2 * blockLength <= c < 3 * blockLength
    {
      PlacesInRange(H, blockLength, H.mix(key, seed));
      H.place(blockLength, b, H.mix(key, seed)) + (if b == 0 then 0 else if b == 1 then blockLength else 2 * blockLength)
    }

    /** Is the key in the set, up to false positives? */
    predicate Contain(key: bv64)
      requires Valid()
      reads this, fingerprints
    {
      Matches(H, blockLength, fingerprints[..], H.mix(key, seed))
    }

    /** Fill the fingerprints in reverse peel order. */
    method Assign(stack: seq<Entry>, ghost hs: seq<bv64>)
      requires Valid() && Solvable(Geometry(H, blockLength), hs, stack)
      modifies fingerprints
      ensures SolvedFrom(H, blockLength, fingerprints[..], stack, 0)
    {
      hide Solvable, SolvedFrom, CellValue, Matches;
      var n := blockLength;
      ghost var fp := fingerprints[..];
      NothingToSolve(H, n, fp, stack);
      for k := |stack| downto 0
        invariant SolvedFrom(H, n, fingerprints[..], stack, k)
      {
        var e := stack[k];
        StoreStep(H, n, hs, stack, fingerprints[..], k);
        PlacesInRange(H, n, e.hash);
        ghost var before := fingerprints[..];
        var v := CellValue(H, n, fingerprints[..], e);
        fingerprints[e.index] := v;
        assert fingerprints[..] == before[e.index := v];
      }
    }

    /** With every stack entry solved, no key is reported missing. */
    lemma AllContained(keys: seq<bv64>, stack: seq<Entry>)
      requires Valid() && SolvedFrom(H, blockLength, fingerprints[..], stack, 0)
      requires Solvable(Geometry(H, blockLength), Hashes(H, keys, seed), stack)
      ensures forall i :: 0 <= i < |keys| ==> Contain(keys[i])
    {
      hide Matches;
      forall i | 0 <= i < |keys|
        ensures Contain(keys[i])
      {
        var h := Hashes(H, keys, seed)[i];
        assert Stacked(stack, h);
        var k :| 0 <= k < |stack| && stack[k].hash == h;
        assert Matches(H, blockLength, fingerprints[..], stack[k].hash);
      }
    }

    /** Construct the filter, updating the slot tables at once. */
    method PopulatePlain(keys: seq<bv64>, seeds: nat -> bv64) returns (ok: bool)
      requires Valid()
      modifies this, fingerprints
      ensures seed == seeds(FirstAccepted(H, blockLength, keys, seeds, 0))
      ensures ok <==> FirstAccepted(H, blockLength, keys, seeds, 0) < XOR_MAX_ITERATIONS
      ensures ok ==> forall i :: 0 <= i < |keys| ==> Contain(keys[i])
      ensures !ok ==> fingerprints[..] == old(fingerprints[..])
    {
      hide Peelable, Solvable, NoneBuffered, GreatestCore;
      var L := Geometry(H, blockLength);
      GeometryValid(H, blockLength);
      var table := new PeelTable(L);
      seed := seeds(0);
      for i := 0 to XOR_MAX_ITERATIONS
        invariant seed == seeds(i) && fingerprints[..] == old(fingerprints[..])
        invariant FirstAccepted(H, blockLength, keys, seeds, 0) == FirstAccepted(H, blockLength, keys, seeds, i)
        invariant table.L == L && |table.pend| == L.groups && NoneBuffered(table.pend) && fresh(table)
      {
        var hs := Hashes(H, keys, seed);
        var peeled := table.PeelPlain(hs);
        if peeled {
          Assign(table.stack, hs);
          AllContained(keys, table.stack);
          return true;
        }
        seed := seeds(i + 1);
      }
      return false;
    }

    /** Construct the filter through write buffers. */
    method PopulateBuffered(keys: seq<bv64>, seeds: nat -> bv64) returns (ok: bool)
      requires Valid()
      modifies this, fingerprints
      ensures seed == seeds(FirstAccepted(H, blockLength, keys, seeds, 0))
      ensures ok <==> FirstAccepted(H, blockLength, keys, seeds, 0) < XOR_MAX_ITERATIONS
      ensures ok ==> forall i :: 0 <= i < |keys| ==> Contain(keys[i])
      ensures !ok ==> fingerprints[..] == old(fingerprints[..])
    {
      hide Peelable, Solvable, NoneBuffered, GreatestCore, Spread;
      var L := Geometry(H, blockLength);
      GeometryValid(H, blockLength);
      GeometrySpread(H, blockLength);
      var table := new PeelTable(L);
      seed := seeds(0);
      for i := 0 to XOR_MAX_ITERATIONS
        invariant seed == seeds(i) && fingerprints[..] == old(fingerprints[..])
        invariant FirstAccepted(H, blockLength, keys, seeds, 0) == FirstAccepted(H, blockLength, keys, seeds, i)
        invariant table.L == L && |table.pend| == L.groups && NoneBuffered(table.pend) && fresh(table)
      {
        var hs := Hashes(H, keys, seed);
        var peeled := table.PeelBuffered(hs, Buffers(blockLength));
        if peeled {
          Assign(table.stack, hs);
          AllContained(keys, table.stack);
          return true;
        }
        seed := seeds(i + 1);
      }
      return false;
    }
  }

  lemma NothingToSolve(H: Hasher, n: nat, fp: seq<bv8>, stack: seq<Entry>)
    requires |fp| == 3 * n && H.Valid(n)
    ensures SolvedFrom(H, n, fp, stack, |stack|)
  {
  }

  // ---------- What a query depends on ----------

  /** Two filters that hash alike. */
  ghost predicate Alike(f: Xor8, g: Xor8)
    reads f, g
  {
    f.Valid() && g.Valid() && f.H == g.H && f.blockLength == g.blockLength && f.seed == g.seed
  }

  lemma AlikeCells(f: Xor8, g: Xor8, key: bv64, b: nat)
    requires Alike(f, g) && b < 3
    ensures f.Cell(key, b) == g.Cell(key, b)
  {
  }

  lemma Sum3Turns(a: bv8, b: bv8, c: bv8)
    ensures Sum3(b, a, c) == Sum3(a, b, c) && Sum3(b, c, a) == Sum3(a, b, c)
  {
  }

  lemma Sum3Returns(a: bv8, b: bv8, c: bv8)
    ensures Sum3(Sum3(a, b, c), b, c) == a
  {
  }

  /** Changing one of three bytes changes their sum. */
  lemma OneByteDecides(a: bv8, b: bv8, c: bv8, d: bv8)
    ensures Sum3(a, b, c) == Sum3(d, b, c) ==> a == d
    ensures Sum3(b, a, c) == Sum3(b, d, c) ==> a == d
    ensures Sum3(b, c, a) == Sum3(b, c, d) ==> a == d
  {
    hide Sum3;
    Sum3Turns(a, b, c);
    Sum3Turns(d, b, c);
    Sum3Returns(a, b, c);
    Sum3Returns(d, b, c);
  }

  /** The answer depends on nothing but the three cells the key selects. */
  lemma SameCellsSameAnswer(f: Xor8, g: Xor8, key: bv64)
    requires Alike(f, g)
    requires forall b :: 0 <= b < 3 ==> f.fingerprints[f.Cell(key, b)] == g.fingerprints[f.Cell(key, b)]
    ensures f.Contain(key) == g.Contain(key)
  {
    hide Sum3, Low8;
    assert f.fingerprints[f.Cell(key, 0)] == g.fingerprints[f.Cell(key, 0)];
    assert f.fingerprints[f.Cell(key, 1)] == g.fingerprints[f.Cell(key, 1)];
    assert f.fingerprints[f.Cell(key, 2)] == g.fingerprints[f.Cell(key, 2)];
  }

  /** Two filters that differ in exactly one of the three cells never both contain the key. */
  lemma OneCellApart(f: Xor8, g: Xor8, key: bv64, b: nat)
    requires Alike(f, g) && b < 3
    requires forall d :: 0 <= d < 3 ==> (f.fingerprints[f.Cell(key, d)] == g.fingerprints[f.Cell(key, d)] <==> d != b)
    ensures !(f.Contain(key) && g.Contain(key))
  {
    hide Sum3, Low8;
    var c0, c1, c2 := f.Cell(key, 0), f.Cell(key, 1), f.Cell(key, 2);
    var x, y := f.fingerprints[..], g.fingerprints[..];
    assert f.fingerprints[f.Cell(key, 0)] == g.fingerprints[f.Cell(key, 0)] <==> 0 != b;
    assert f.fingerprints[f.Cell(key, 1)] == g.fingerprints[f.Cell(key, 1)] <==> 1 != b;
    assert f.fingerprints[f.Cell(key, 2)] == g.fingerprints[f.Cell(key, 2)] <==> 2 != b;
    if b == 0 {
      OneByteDecides(x[c0], x[c1], x[c2], y[c0]);
    } else if b == 1 {
      OneByteDecides(x[c1], x[c0], x[c2], y[c1]);
    } else {
      OneByteDecides(x[c2], x[c0], x[c1], y[c2]);
    }
  }

  /** With the other two cells as they are, exactly one byte in the cell of block `b` makes the filter contain the key. */
  lemma OneByteAccepted(f: Xor8, key: bv64, b: nat) returns (v: bv8)
    requires f.Valid() && b < 3
    ensures forall g: Xor8 :: Alike(f, g) && (forall d :: 0 <= d < 3 && d != b ==> g.fingerprints[f.Cell(key, d)] == f.fingerprints[f.Cell(key, d)])
                         ==> (g.Contain(key) <==> g.fingerprints[f.Cell(key, b)] == v)
    ensures f.Contain(key) <==> f.fingerprints[f.Cell(key, b)] == v
  {
    hide Sum3, Low8, Completing;
    var c0, c1, c2 := f.Cell(key, 0), f.Cell(key, 1), f.Cell(key, 2);
    var x := f.fingerprints[..];
    var p := f.H.fingerprint(f.H.mix(key, f.seed));
    var a, c := if b == 0 then x[c1] else x[c0], if b == 2 then x[c1] else x[c2];
    v := Completing(p, a, c);
    CompletingSolves(p, a, c);
    forall g: Xor8 | Alike(f, g) && (forall d :: 0 <= d < 3 && d != b ==> g.fingerprints[f.Cell(key, d)] == f.fingerprints[f.Cell(key, d)])
      ensures g.Contain(key) <==> g.fingerprints[f.Cell(key, b)] == v
    {
      assert 0 != b ==> g.fingerprints[f.Cell(key, 0)] == f.fingerprints[f.Cell(key, 0)];
      assert 1 != b ==> g.fingerprints[f.Cell(key, 1)] == f.fingerprints[f.Cell(key, 1)];
      assert 2 != b ==> g.fingerprints[f.Cell(key, 2)] == f.fingerprints[f.Cell(key, 2)];
      OneByteDecides(g.fingerprints[f.Cell(key, b)], a, c, v);
    }
    assert Alike(f, f);
  }

  /** Where the repository's hash of key 1 points in three blocks of a thousand cells. */
  lemma PlaceExample()
    ensures XOR8_HASH.mix(1, 0) == 0xb456bcfc34c2cb2c
    ensures XOR8_HASH.place(1000, 0, 0xb456bcfc34c2cb2c) == 206
    ensures XOR8_HASH.place(1000, 1, 0xb456bcfc34c2cb2c) == 396
    ensures XOR8_HASH.place(1000, 2, 0xb456bcfc34c2cb2c) == 355
  {
    assert Murmur64(1) == 0xb456bcfc34c2cb2c;
  }

  /** Under the repository's hash, an empty filter of three cells reports key 1 missing and key 0, falsely, present. */
  lemma EmptyFilterExample(f: Xor8)
    requires f.Valid() && f.H == XOR8_HASH && f.blockLength == 1 && f.seed == 0 && f.fingerprints[..] == [0, 0, 0]
    ensures !f.Contain(1) && f.Contain(0)
  {
    assert Murmur64(1) == 0xb456bcfc34c2cb2c;
    assert Murmur64(0) == 0;
    assert f.H.mix(1, 0) == 0xb456bcfc34c2cb2c;
    assert f.H.mix(0, 0) == 0;
    assert f.H.fingerprint(0xb456bcfc34c2cb2c) == 0xb456bcfc809477d0;
  }

  /** A seed is accepted only if the keys are pairwise distinct. */
  lemma AcceptedKeysDistinct(H: Hasher, n: nat, keys: seq<bv64>, seed: bv64, i: nat, j: nat)
    requires Accepts(H, n, keys, seed) && i < j < |keys|
    ensures keys[i] != keys[j]
  {
    if keys[i] == keys[j] {
      EqualHashesBlock(Geometry(H, n), Hashes(H, keys, seed), i, j);
    }
  }

  lemma {:induction false} FirstAcceptedAccepts(H: Hasher, n: nat, keys: seq<bv64>, seeds: nat -> bv64, k: nat)
    requires k <= XOR_MAX_ITERATIONS
    ensures var r := FirstAccepted(H, n, keys, seeds, k);
            && k <= r <= XOR_MAX_ITERATIONS
            && (r < XOR_MAX_ITERATIONS ==> Accepts(H, n, keys, seeds(r)))
            && forall i :: k <= i < r ==> !Accepts(H, n, keys, seeds(i))
    decreases XOR_MAX_ITERATIONS - k
  {
    if k < XOR_MAX_ITERATIONS && !Accepts(H, n, keys, seeds(k)) {
      FirstAcceptedAccepts(H, n, keys, seeds, k + 1);
    }
  }
}
