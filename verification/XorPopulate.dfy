/**
 The two ways the repository peels: `PeelPlain` updates the slot tables at once, `PeelBuffered`
 collects updates in write buffers and applies them late. Both keep the invariant of `XorPeeling`,
 and both answer the same question: do the hashes contain a 2-core?
 */
module XorPopulate {
  import opened Counting
  import opened XorPeeling

  /** Entries per write buffer: 1 << insignificantbits with 18 insignificant bits. */
  const SLOT_SIZE: nat := 262144

  /**
   The three queues hold exactly the waiting slots, each once and in the queue of its block.
   `hand` is the slot that was just taken out of a queue, if any.
   */
  ghost predicate QueueOk(L: Layout, queue: seq<seq<Entry>>, wait: map<nat, bv64>, hand: set<nat>) {
    && |queue| == 3
    && hand <= wait.Keys
    && (forall b, k :: 0 <= b < 3 && 0 <= k < |queue[b]| ==>
          && queue[b][k].index in wait && wait[queue[b][k].index] == queue[b][k].hash
          && InBlock(L, queue[b][k].index, b) && queue[b][k].index !in hand)
    && (forall b, k, l :: 0 <= b < 3 && 0 <= k < l < |queue[b]| ==> queue[b][k].index != queue[b][l].index)
    && |wait| == |hand| + |queue[0]| + |queue[1]| + |queue[2]|
  }

  ghost predicate Bounded(pend: seq<seq<Entry>>) {
    forall g :: 0 <= g < |pend| ==> |pend[g]| < SLOT_SIZE
  }

  ghost predicate BoundedBut(pend: seq<seq<Entry>>, g: nat) {
    forall x :: 0 <= x < |pend| && x != g ==> |pend[x]| < SLOT_SIZE
  }

  /** Where the write buffers of block `b` start, with `m` buffers per block. */
  function GroupBase(m: nat, b: nat): nat {
    if b == 0 then 0 else if b == 1 then m else 2 * m
  }

  /** Each block has its own `m` write buffers. */
  ghost predicate Spread(L: Layout, m: nat) {
    && 0 < m && L.groups == 3 * m
    && forall s: nat, b: nat :: s < L.Slots() && InBlock(L, s, b) ==> GroupBase(m, b) <= L.group(s) < GroupBase(m, b) + m
  }

  lemma SpreadGroups(L: Layout, m: nat, g: nat, b: nat)
    requires L.Valid() && Spread(L, m) && b < 3 && GroupBase(m, b) <= g < GroupBase(m, b) + m
    ensures GroupOf(L, g, b)
  {
    forall s: nat | s < L.Slots() && L.group(s) == g
      ensures InBlock(L, s, b)
    {
      var c: nat := if s < L.blockLength then 0 else if s < 2 * L.blockLength then 1 else 2;
      assert InBlock(L, s, c);
    }
  }

  /** Group `g` of write buffers belongs to block `b`. */
  ghost predicate GroupOf(L: Layout, g: nat, b: nat) {
    forall s: nat :: s < L.Slots() && L.group(s) == g ==> InBlock(L, s, b)
  }

  lemma QueuePush(L: Layout, queue: seq<seq<Entry>>, wait: map<nat, bv64>, hand: set<nat>, b: nat, e: Entry)
    requires QueueOk(L, queue, wait, hand) && InBlock(L, e.index, b) && e.index !in wait
    ensures QueueOk(L, queue[b := queue[b] + [e]], wait[e.index := e.hash], hand)
  {
    assert wait[e.index := e.hash].Keys == wait.Keys + {e.index};
  }

  lemma QueuePop(L: Layout, queue: seq<seq<Entry>>, wait: map<nat, bv64>, b: nat)
    requires QueueOk(L, queue, wait, {}) && b < 3 && queue[b] != []
    ensures var e := queue[b][|queue[b]| - 1];
            && QueueOk(L, queue[b := queue[b][..|queue[b]| - 1]], wait, {e.index})
            && e.index in wait && wait[e.index] == e.hash && InBlock(L, e.index, b)
  {
  }

  lemma QueueDrop(L: Layout, queue: seq<seq<Entry>>, wait: map<nat, bv64>, s: nat)
    requires QueueOk(L, queue, wait, {s})
    ensures QueueOk(L, queue, wait - {s}, {})
  {
    assert (wait - {s}).Keys == wait.Keys - {s};
  }

  /** A queue never outgrows the part of the backing array reserved for its block. */
  lemma QueueFits(L: Layout, queue: seq<seq<Entry>>, wait: map<nat, bv64>, hand: set<nat>, b: nat)
    requires QueueOk(L, queue, wait, hand) && b < 3
    ensures |queue[b]| <= L.blockLength
  {
    var q := queue[b];
    var places := PlacesSize(L, q, b);
    BelowSize(places, L.blockLength);
  }

  lemma {:induction false} PlacesSize(L: Layout, q: seq<Entry>, b: nat) returns (places: set<nat>)
    requires forall k :: 0 <= k < |q| ==> InBlock(L, q[k].index, b)
    requires forall k, l :: 0 <= k < l < |q| ==> q[k].index != q[l].index
    ensures |places| == |q|
    ensures forall x :: x in places ==> x < L.blockLength
    ensures forall x :: x in places ==> exists k :: 0 <= k < |q| && q[k].index == L.Base(b) + x
  {
    if q == [] {
      places := {};
    } else {
      var rest := PlacesSize(L, q[..|q| - 1], b);
      var x: nat := q[|q| - 1].index - L.Base(b);
      assert x !in rest;
      places := rest + {x};
    }
  }

  lemma Sizes(L: Layout, hs: seq<bv64>, t: Tab, queue: seq<seq<Entry>>, hand: set<nat>)
    requires Inv(L, hs, t) && QueueOk(L, queue, t.wait, hand)
    ensures L.Valid() && Sized(L, t) && |queue| == 3
  {
  }

  class PeelTable {
    const L: Layout
    var count: seq<nat>
    var mask: seq<bv64>
    var queue: seq<seq<Entry>>
    var stack: seq<Entry>
    var pend: seq<seq<Entry>>
    ghost var hs: seq<bv64>
    ghost var t: Tab

    ghost predicate Mirrors()
      reads this
    {
      t.count == count && t.mask == mask && t.stack == stack && t.pend == pend
    }

    ghost predicate Sound(hand: set<nat>)
      reads this
    {
      Mirrors() && Inv(L, hs, t) && QueueOk(L, queue, t.wait, hand)
    }

    ghost predicate Good(hand: set<nat>)
      reads this
    {
      Sound(hand) && Bounded(pend)
    }

    /** Lower the count of one slot; a slot that is left with one key is queued. */
    method Settle(b: nat, e: Entry, ghost hand: set<nat>)
      requires Sound(hand) && t.owed != [] && t.owed[0] == e && InBlock(L, e.index, b)
      modifies this
      ensures old(e.index < |count| == |mask| && count[e.index] > 0)
      ensures Sound(hand) && t == Settled(L, old(t)) && hs == old(hs)
      ensures forall c :: 0 <= c < 3 ==> |queue[c]| >= |old(queue[c])|
    {
      hide Inv, QueueOk;
      Sizes(L, hs, t, queue, hand);
      SettleKeeps(L, hs, t);
      var s := e.index;
      var m := L.xor(mask[s], e.hash);
      if count[s] == 2 {
        QueuePush(L, queue, t.wait, hand, b, Entry(m, s));
        queue := queue[b := queue[b] + [Entry(m, s)]];
      }
      t := Settled(L, t);
      count := count[s := count[s] - 1];
      mask := mask[s := m];
    }

    /** Apply the decrements collected in one write buffer, front to back, and leave it empty. */
    method FlushDecrements(b: nat, g: nat, ghost hand: set<nat>)
      requires Sound(hand) && BoundedBut(pend, g) && g < |pend| && GroupOf(L, g, b)
      modifies this
      ensures Good(hand) && hs == old(hs) && pend == old(pend)[g := []]
      ensures t.owed == old(t.owed) && t.live == old(t.live) && t.order == old(t.order) && t.done == old(t.done)
      ensures t.stack == old(t.stack)
      ensures forall s :: s in old(t.wait) ==> s in t.wait && t.wait[s] == old(t.wait[s])
      ensures forall c :: 0 <= c < 3 ==> |queue[c]| >= |old(queue[c])|
    {
      hide Inv, QueueOk;
      Sizes(L, hs, t, queue, hand);
      while pend[g] != []
        invariant Sound(hand) && hs == old(hs) && |queue| == 3
        invariant |pend| == |old(pend)| && pend == old(pend)[g := pend[g]]
        invariant t.owed == old(t.owed) && t.live == old(t.live) && t.order == old(t.order) && t.done == old(t.done)
        invariant t.stack == old(t.stack)
        invariant forall s :: s in old(t.wait) ==> s in t.wait && t.wait[s] == old(t.wait[s])
        invariant forall c :: 0 <= c < 3 ==> |queue[c]| >= |old(queue[c])|
        decreases |pend[g]|
      {
        var e := pend[g][0];
        ghost var before := t;
        BufferedEntry(L, hs, t, g, b);
        RecallKeeps(L, hs, t, g);
        t := Recalled(t, g);
        pend := pend[g := pend[g][1..]];
        Settle(b, e, hand);
        Sizes(L, hs, t, queue, hand);
        SettledFrame(L, hs, before, g);
      }
    }

    constructor (L: Layout)
      requires L.Valid()
      ensures this.L == L && |pend| == L.groups && NoneBuffered(pend)
    {
      this.L := L;
      count, mask, queue, stack := [], [], [[], [], []], [];
      pend := seq(L.groups, _ => []);
    }

    ghost predicate ScannedTo(upto: nat)
      reads this
    {
      Mirrors() && Scanned(L, hs, t, queue, upto)
    }

    /** Count the `i`-th key in its three slots. */
    method CountKey(h: bv64, ghost i: nat)
      requires i < |hs| && hs[i] == h && Filling(L, hs, i, count, mask, pend, [])
      modifies this`count, this`mask
      ensures Filling(L, hs, i + 1, count, mask, pend, [])
    {
      hide Filling;
      var es := KeyEntries(L, h);
      FillingNextKey(L, hs, i, count, mask, pend);
      assert es[0..] == es;
      for b := 0 to 3
        invariant Filling(L, hs, i + 1, count, mask, pend, es[b..])
      {
        FillingCount(L, hs, i + 1, count, mask, pend, es[b..]);
        var s := L.Slot(b, h);
        count := count[s := count[s] + 1];
        mask := mask[s := L.xor(mask[s], h)];
        assert es[b..][1..] == es[b + 1..];
      }
      assert es[3..] == [];
    }

    /** Clear the tables and count every key in its three slots. */
    method FillPlain(hashes: seq<bv64>)
      requires L.Valid() && |pend| == L.groups && NoneBuffered(pend)
      modifies this
      ensures hs == hashes && pend == old(pend) && ScannedTo(0)
    {
      hide Filling, NoneBuffered, Scanned;
      hs := hashes;
      count, mask := seq(L.Slots(), _ => 0), seq(L.Slots(), _ => L.zero);
      FillingStarts(L, hs, count, mask, pend);
      for i := 0 to |hashes|
        invariant hs == hashes && pend == old(pend)
        invariant Filling(L, hs, i, count, mask, pend, [])
      {
        CountKey(hashes[i], i);
      }
      queue, stack := [[], [], []], [];
      t := Unscanned(hs, count, mask, pend);
      FillingEnds(L, hs, count, mask, pend);
    }

    /** Queue the slots of block `b` that hold exactly one key. */
    method ScanBlock(b: nat)
      requires b < 3 && ScannedTo(L.Base(b))
      modifies this
      ensures hs == old(hs) && pend == old(pend) && ScannedTo(L.Base(b) + L.blockLength)
    {
      hide Scanned;
      for i := 0 to L.blockLength
        invariant hs == old(hs) && pend == old(pend) && ScannedTo(L.Base(b) + i)
      {
        ScanStep(L, hs, t, queue, b, i);
        ScanSizes(L, hs, t, queue, L.Base(b) + i);
        var s := L.Base(b) + i;
        if count[s] == 1 {
          queue := queue[b := queue[b] + [Entry(mask[s], s)]];
          t := t.(wait := t.wait[s := mask[s]]);
        }
      }
    }

    /** Scan the three blocks; peeling can start. */
    method Scan()
      requires ScannedTo(0)
      modifies this
      ensures hs == old(hs) && Good({}) && t.owed == [] && pend == old(pend) && NoneBuffered(pend) && |queue| == 3
    {
      hide Inv, QueueOk, NoneBuffered, Scanned, Bounded;
      ScanBlock(0);
      ScanBlock(1);
      ScanBlock(2);
      ScanEnds(L, hs, t, queue);
      ScanSizes(L, hs, t, queue, L.Slots());
    }

    /** Peel the hashes, applying every update at once; true if everything was peeled. */
    method PeelPlain(hashes: seq<bv64>) returns (ok: bool)
      requires L.Valid() && |pend| == L.groups && NoneBuffered(pend)
      modifies this
      ensures hs == hashes && |pend| == L.groups && NoneBuffered(pend)
      ensures ok <==> Peelable(L, hashes)
      ensures GreatestCore(L, hashes, t.live)
      ensures ok ==> Solvable(L, hashes, stack)
    {
      hide Inv, QueueOk, NoneBuffered, Scanned, Bounded, GreatestCore, Solvable, Peelable;
      FillPlain(hashes);
      Scan();
      DoneBelow(L, hs, t);
      while |queue[0]| + |queue[1]| + |queue[2]| > 0
        invariant hs == hashes && Good({}) && t.owed == [] && NoneBuffered(pend) && |queue| == 3
        invariant |t.done| <= L.Slots()
        decreases L.Slots() - |t.done|
      {
        DrainPlain(0);
        Sizes(L, hs, t, queue, {});
        DrainPlain(1);
        Sizes(L, hs, t, queue, {});
        DrainPlain(2);
        Sizes(L, hs, t, queue, {});
        DoneBelow(L, hs, t);
      }
      NobodyWaits(L, hs, t, queue);
      Conclusion(L, hs, t);
      Shape(L, hs, t);
      ok := |stack| == |hashes|;
    }

    // ---------- Buffered updates ----------

    /** Apply the increments collected in one write buffer, and leave it empty. */
    method FlushIncrements(g: nat, ghost i: nat, ghost owed: seq<Entry>)
      requires g < |pend| && FillingFull(L, hs, i, count, mask, pend, owed, g)
      modifies this`count, this`mask, this`pend
      ensures Filling(L, hs, i, count, mask, pend, owed) && pend == old(pend)[g := []]
    {
      hide FillingFull, Filling;
      while pend[g] != []
        invariant |pend| == |old(pend)| && pend == old(pend)[g := pend[g]]
        invariant FillingFull(L, hs, i, count, mask, pend, owed, g)
        decreases |pend[g]|
      {
        var e := pend[g][0];
        FillingRecount(L, hs, i, count, mask, pend, owed, g);
        count := count[e.index := count[e.index] + 1];
        mask := mask[e.index := L.xor(mask[e.index], e.hash)];
        pend := pend[g := pend[g][1..]];
      }
      FillingEmptied(L, hs, i, count, mask, pend, owed, g);
    }

    /** Put one increment into its write buffer; a full buffer is emptied. */
    method BufferIncrement(e: Entry, ghost i: nat, ghost owed: seq<Entry>)
      requires Filling(L, hs, i, count, mask, pend, [e] + owed)
      modifies this`count, this`mask, this`pend
      ensures Filling(L, hs, i, count, mask, pend, owed)
    {
      hide Filling, FillingFull;
      FillingDefer(L, hs, i, count, mask, pend, [e] + owed);
      assert ([e] + owed)[1..] == owed;
      var g := L.group(e.index);
      pend := pend[g := pend[g] + [e]];
      if |pend[g]| == SLOT_SIZE {
        FlushIncrements(g, i, owed);
      }
    }

    method BufferKey(h: bv64, ghost i: nat)
      requires i < |hs| && hs[i] == h && Filling(L, hs, i, count, mask, pend, [])
      modifies this`count, this`mask, this`pend
      ensures Filling(L, hs, i + 1, count, mask, pend, [])
    {
      hide Filling;
      var es := KeyEntries(L, h);
      FillingNextKey(L, hs, i, count, mask, pend);
      assert es == [es[0]] + [es[1], es[2]] && [es[1], es[2]] == [es[1]] + [es[2]] && [es[2]] == [es[2]] + [];
      BufferIncrement(es[0], i + 1, [es[1], es[2]]);
      BufferIncrement(es[1], i + 1, [es[2]]);
      BufferIncrement(es[2], i + 1, []);
    }

    /** Clear the tables and count every key through the write buffers, which end up empty. */
    method FillBuffered(hashes: seq<bv64>)
      requires L.Valid() && |pend| == L.groups && NoneBuffered(pend)
      modifies this
      ensures hs == hashes && |pend| == |old(pend)| && ScannedTo(0)
    {
      hide Filling, FillingFull, NoneBuffered, Scanned;
      hs := hashes;
      count, mask := seq(L.Slots(), _ => 0), seq(L.Slots(), _ => L.zero);
      FillingStarts(L, hs, count, mask, pend);
      for i := 0 to |hashes|
        invariant hs == hashes && |pend| == |old(pend)|
        invariant Filling(L, hs, i, count, mask, pend, [])
      {
        BufferKey(hashes[i], i);
        FillingSizes(L, hs, i + 1, count, mask, pend, []);
      }
      FlushAllIncrements();
      queue, stack := [[], [], []], [];
      t := Unscanned(hs, count, mask, pend);
      FillingEnds(L, hs, count, mask, pend);
    }

    /** Empty every write buffer after counting. */
    method FlushAllIncrements()
      requires Filling(L, hs, |hs|, count, mask, pend, [])
      modifies this`count, this`mask, this`pend
      ensures Filling(L, hs, |hs|, count, mask, pend, []) && |pend| == |old(pend)| && NoneBuffered(pend)
    {
      hide Filling, FillingFull;
      for g := 0 to |pend|
        invariant |pend| == |old(pend)| && forall x :: 0 <= x < g ==> pend[x] == []
        invariant Filling(L, hs, |hs|, count, mask, pend, [])
      {
        FillingMayFill(L, hs, |hs|, count, mask, pend, [], g);
        FlushIncrements(g, |hs|, []);
      }
    }

    /** Put one decrement into its write buffer; a full buffer is emptied. */
    method DecrementBuffered(b: nat, e: Entry, m: nat)
      requires Good({}) && t.owed != [] && t.owed[0] == e && InBlock(L, e.index, b) && Spread(L, m)
      modifies this
      ensures Good({}) && hs == old(hs) && t.owed == old(t.owed)[1..]
      ensures t.done == old(t.done) && t.stack == old(t.stack)
      ensures forall c :: 0 <= c < 3 ==> |queue[c]| >= |old(queue[c])|
    {
      hide Inv, QueueOk, Spread;
      Sizes(L, hs, t, queue, {});
      DeferKeeps(L, hs, t);
      EntryGroup(L, hs, t, m, b);
      var g := L.group(e.index);
      BoundedPush(pend, g, e);
      t := Deferred(L, t);
      pend := pend[g := pend[g] + [e]];
      if |pend[g]| == SLOT_SIZE {
        FlushDecrements(b, g, {});
      }
    }

    /** One round over the three queues, as the buffered routine orders it. */
    method RoundBuffered(size: nat, m: nat)
      requires Good({}) && t.owed == [] && size == |hs| && Spread(L, m)
      requires |queue[0]| + |queue[1]| + |queue[2]| > 0
      modifies this
      ensures Good({}) && t.owed == [] && hs == old(hs)
      ensures |old(t.done)| < |t.done|
      ensures |queue[0]| + |queue[1]| + |queue[2]| == 0 ==> |stack| >= size || NoneBuffered(pend)
    {
      hide Inv, QueueOk, Bounded, Spread, NoneBuffered;
      Sizes(L, hs, t, queue, {});
      DrainBuffered(0, m);
      Sizes(L, hs, t, queue, {});
      if |queue[1]| == 0 {
        FlushOne(1, m);
        Sizes(L, hs, t, queue, {});
      }
      DrainBuffered(1, m);
      Sizes(L, hs, t, queue, {});
      if |queue[2]| == 0 {
        FlushOne(2, m);
        Sizes(L, hs, t, queue, {});
      }
      DrainBuffered(2, m);
      Sizes(L, hs, t, queue, {});
      if |queue[0]| == 0 {
        FlushOne(0, m);
        Sizes(L, hs, t, queue, {});
      }
      if |queue[0]| + |queue[1]| + |queue[2]| == 0 && |stack| < size {
        FlushEverything(m);
      }
    }

    method FlushEverything(m: nat)
      requires Good({}) && t.owed == [] && Spread(L, m)
      modifies this
      ensures Good({}) && t.owed == [] && hs == old(hs) && t.done == old(t.done) && t.stack == old(t.stack)
      ensures NoneBuffered(pend)
    {
      hide Inv, QueueOk;
      Sizes(L, hs, t, queue, {});
      FlushBlock(0, m);
      FlushBlock(1, m);
      FlushBlock(2, m);
      Sizes(L, hs, t, queue, {});
    }

    /**
     Peel the hashes through the write buffers; true if everything was peeled. After a failed attempt
     all write buffers are empty again, so the next attempt starts clean.
     */
    method PeelBuffered(hashes: seq<bv64>, m: nat) returns (ok: bool)
      requires L.Valid() && |pend| == L.groups && NoneBuffered(pend) && Spread(L, m)
      modifies this
      ensures hs == hashes && |pend| == L.groups && (!ok ==> NoneBuffered(pend))
      ensures ok <==> Peelable(L, hashes)
      ensures GreatestCore(L, hashes, t.live)
      ensures ok ==> Solvable(L, hashes, stack)
    {
      hide Inv, QueueOk, NoneBuffered, Scanned, Bounded, GreatestCore, Solvable, Peelable, Spread;
      FillBuffered(hashes);
      Scan();
      DoneBelow(L, hs, t);
      while |queue[0]| + |queue[1]| + |queue[2]| > 0
        invariant hs == hashes && Good({}) && t.owed == [] && |queue| == 3 && |t.done| <= L.Slots()
        invariant |queue[0]| + |queue[1]| + |queue[2]| == 0 ==> |stack| >= |hashes| || NoneBuffered(pend)
        decreases L.Slots() - |t.done|
      {
        RoundBuffered(|hashes|, m);
        Sizes(L, hs, t, queue, {});
        DoneBelow(L, hs, t);
      }
      NobodyWaits(L, hs, t, queue);
      Shape(L, hs, t);
      Conclusion(L, hs, t);
      ok := |stack| == |hashes|;
    }

    /** Peel the key that is alone in the slot at hand: push it and note its two other decrements. */
    method PushPeeled(b: nat, e: Entry)
      requires Good({e.index}) && t.owed == [] && b < 3 && InBlock(L, e.index, b)
      requires e.index in t.wait && t.wait[e.index] == e.hash
      requires t.pend[L.group(e.index)] == [] && count[e.index] != 0
      modifies this
      ensures Good({}) && hs == old(hs) && queue == old(queue) && pend == old(pend)
      ensures var o := Others(L, e.hash, b); t.owed == [Entry(e.hash, o.0), Entry(e.hash, o.1)]
      ensures stack == old(stack) + [e]
      ensures t.done == old(t.done) + {e.index} && e.index !in old(t.done)
    {
      hide Inv, QueueOk, Bounded;
      HandedOut(L, hs, t, e, b);
      QueueDrop(L, queue, t.wait, e.index);
      ghost var j :| Inv(L, hs, Peeled(L, t, e.index, b, j)) && j in t.live;
      t := Peeled(L, t, e.index, b, j);
      stack := stack + [e];
    }

    /** Drop the slot at hand: its key was peeled elsewhere. */
    method SkipStale(b: nat, e: Entry)
      requires Good({e.index}) && t.owed == [] && b < 3 && InBlock(L, e.index, b)
      requires e.index in t.wait && t.wait[e.index] == e.hash
      requires t.pend[L.group(e.index)] == [] && count[e.index] == 0
      modifies this
      ensures Good({}) && hs == old(hs) && queue == old(queue) && pend == old(pend) && stack == old(stack)
      ensures t.owed == [] && t.done == old(t.done) + {e.index} && e.index !in old(t.done)
    {
      hide Inv, QueueOk, Bounded;
      HandedOut(L, hs, t, e, b);
      QueueDrop(L, queue, t.wait, e.index);
      t := Skipped(t, e.index);
    }

    /** Take one slot out of queue `b` and peel its key, if it still has one. */
    method TakePlain(b: nat)
      requires Good({}) && t.owed == [] && NoneBuffered(pend) && b < 3 && queue[b] != []
      modifies this
      ensures Good({}) && t.owed == [] && NoneBuffered(pend) && hs == old(hs)
      ensures exists s :: s !in old(t.done) && t.done == old(t.done) + {s}
      ensures forall c :: 0 <= c < 3 && c != b ==> |queue[c]| >= |old(queue[c])|
    {
      hide Inv, QueueOk, Bounded, NoneBuffered;
      Sizes(L, hs, t, queue, {});
      var e := queue[b][|queue[b]| - 1];
      QueuePop(L, queue, t.wait, b);
      queue := queue[b := queue[b][..|queue[b]| - 1]];
      NothingIn(L, hs, t, e.index);
      if count[e.index] == 0 {
        SkipStale(b, e);
      } else {
        PushPeeled(b, e);
        var o, c := Others(L, e.hash, b), OtherBlocks(b);
        OthersInBlocks(L, e.hash, b);
        Settle(c.0, Entry(e.hash, o.0), {});
        Settle(c.1, Entry(e.hash, o.1), {});
      }
      Sizes(L, hs, t, queue, {});
    }

    /** Take one slot out of queue `b`, bring it up to date, and peel its key if it still has one. */
    method TakeBuffered(b: nat, m: nat)
      requires Good({}) && t.owed == [] && b < 3 && queue[b] != [] && Spread(L, m)
      modifies this
      ensures Good({}) && t.owed == [] && hs == old(hs)
      ensures exists s :: s !in old(t.done) && t.done == old(t.done) + {s}
      ensures forall c :: 0 <= c < 3 && c != b ==> |queue[c]| >= |old(queue[c])|
    {
      hide Inv, QueueOk, Bounded, Spread;
      Sizes(L, hs, t, queue, {});
      var e := queue[b][|queue[b]| - 1];
      QueuePop(L, queue, t.wait, b);
      queue := queue[b := queue[b][..|queue[b]| - 1]];
      HandGroup(L, hs, t, m, b, e.index);
      BoundedIsBut(pend, L.group(e.index));
      FlushDecrements(b, L.group(e.index), {e.index});
      BoundedFlush(old(pend), L.group(e.index));
      Sizes(L, hs, t, queue, {e.index});
      if count[e.index] == 0 {
        SkipStale(b, e);
      } else {
        PushPeeled(b, e);
        var o, c := Others(L, e.hash, b), OtherBlocks(b);
        OthersInBlocks(L, e.hash, b);
        DecrementBuffered(c.0, Entry(e.hash, o.0), m);
        DecrementBuffered(c.1, Entry(e.hash, o.1), m);
      }
      Sizes(L, hs, t, queue, {});
    }

    /** Empty queue `b`, buffering the decrements it causes. */
    method DrainBuffered(b: nat, m: nat)
      requires Good({}) && t.owed == [] && b < 3 && Spread(L, m)
      modifies this
      ensures Good({}) && t.owed == [] && hs == old(hs)
      ensures queue[b] == []
      ensures |old(t.done)| <= |t.done| && (old(queue[b]) != [] ==> |old(t.done)| < |t.done|)
      ensures forall c :: 0 <= c < 3 && c != b ==> |queue[c]| >= |old(queue[c])|
    {
      hide Inv, QueueOk, Bounded, Spread;
      Sizes(L, hs, t, queue, {});
      while queue[b] != []
        invariant Good({}) && t.owed == [] && hs == old(hs) && |queue| == 3
        invariant |old(t.done)| < |t.done| || (queue == old(queue) && t.done == old(t.done))
        invariant forall c :: 0 <= c < 3 && c != b ==> |queue[c]| >= |old(queue[c])|
        decreases L.Slots() - |t.done|
      {
        TakeBuffered(b, m);
        Sizes(L, hs, t, queue, {});
        DoneBelow(L, hs, t);
      }
    }

    /** Empty the fullest write buffer of block `b`. */
    method FlushOne(b: nat, m: nat)
      requires Good({}) && t.owed == [] && b < 3 && Spread(L, m)
      modifies this
      ensures Good({}) && t.owed == [] && hs == old(hs) && t.done == old(t.done)
      ensures forall c :: 0 <= c < 3 ==> |queue[c]| >= |old(queue[c])|
    {
      hide Inv, QueueOk;
      Sizes(L, hs, t, queue, {});
      var best := GroupBase(m, b);
      for g := GroupBase(m, b) + 1 to GroupBase(m, b) + m
        invariant GroupBase(m, b) <= best < GroupBase(m, b) + m
      {
        if |pend[g]| > |pend[best]| {
          best := g;
        }
      }
      SpreadGroups(L, m, best, b);
      FlushDecrements(b, best, {});
      Sizes(L, hs, t, queue, {});
    }

    /** Empty all write buffers of block `b`. */
    method FlushBlock(b: nat, m: nat)
      requires Good({}) && t.owed == [] && b < 3 && Spread(L, m)
      modifies this
      ensures Good({}) && t.owed == [] && hs == old(hs) && t.done == old(t.done) && t.stack == old(t.stack)
      ensures |pend| == |old(pend)|
      ensures forall g :: GroupBase(m, b) <= g < GroupBase(m, b) + m && g < |pend| ==> pend[g] == []
      ensures forall g :: 0 <= g < |pend| && old(pend[g]) == [] ==> pend[g] == []
    {
      hide Inv, QueueOk;
      Sizes(L, hs, t, queue, {});
      for g := GroupBase(m, b) to GroupBase(m, b) + m
        invariant Good({}) && t.owed == [] && hs == old(hs) && t.done == old(t.done) && t.stack == old(t.stack)
        invariant |pend| == |old(pend)|
        invariant forall x :: GroupBase(m, b) <= x < g ==> pend[x] == []
        invariant forall x :: 0 <= x < |pend| && old(pend[x]) == [] ==> pend[x] == []
      {
        SpreadGroups(L, m, g, b);
        FlushDecrements(b, g, {});
      }
    }

    /** Empty queue `b`, applying every decrement at once. */
    method DrainPlain(b: nat)
      requires Good({}) && t.owed == [] && NoneBuffered(pend) && b < 3
      modifies this
      ensures Good({}) && t.owed == [] && NoneBuffered(pend) && hs == old(hs)
      ensures queue[b] == []
      ensures |old(t.done)| <= |t.done| && (old(queue[b]) != [] ==> |old(t.done)| < |t.done|)
      ensures forall c :: 0 <= c < 3 && c != b ==> |queue[c]| >= |old(queue[c])|
    {
      hide Inv, QueueOk, Bounded, NoneBuffered;
      Sizes(L, hs, t, queue, {});
      while queue[b] != []
        invariant Good({}) && t.owed == [] && NoneBuffered(pend) && hs == old(hs) && |queue| == 3
        invariant |old(t.done)| < |t.done| || (queue == old(queue) && t.done == old(t.done))
        invariant forall c :: 0 <= c < 3 && c != b ==> |queue[c]| >= |old(queue[c])|
        decreases L.Slots() - |t.done|
      {
        TakePlain(b);
        Sizes(L, hs, t, queue, {});
        DoneBelow(L, hs, t);
      }
    }
  }

  /** The tables of the first `i` keys, with `owed` increments still to be made and none buffered or some. */
  ghost predicate Filling(L: Layout, hs: seq<bv64>, i: nat, count: seq<nat>, mask: seq<bv64>,
                          pend: seq<seq<Entry>>, owed: seq<Entry>)
  {
    && L.Valid() && |count| == |mask| == L.Slots() && |pend| == L.groups && i <= |hs|
    && EntriesOk(L, [], owed) && BuffersOk(L, [], pend) && Bounded(pend)
    && Tally(L, hs, i, count, mask, pend, owed)
  }

  lemma FillingSizes(L: Layout, hs: seq<bv64>, i: nat, count: seq<nat>, mask: seq<bv64>,
                     pend: seq<seq<Entry>>, owed: seq<Entry>)
    requires Filling(L, hs, i, count, mask, pend, owed)
    ensures |count| == |mask| == L.Slots() && |pend| == L.groups
  {
  }

  lemma FillingStarts(L: Layout, hs: seq<bv64>, count: seq<nat>, mask: seq<bv64>, pend: seq<seq<Entry>>)
    requires L.Valid() && |count| == |mask| == L.Slots() && |pend| == L.groups && NoneBuffered(pend)
    requires forall s :: 0 <= s < L.Slots() ==> count[s] == 0 && mask[s] == L.zero
    ensures Filling(L, hs, 0, count, mask, pend, [])
  {
    forall s: nat | s < L.Slots()
      ensures count[s] + CountIn(pend[L.group(s)], s) + CountIn([], s) == Load(L, hs, UpTo(|hs|), s, 0)
      ensures L.xor(L.xor(mask[s], XorIn(L, pend[L.group(s)], s)), XorIn(L, [], s)) == Mask(L, hs, UpTo(|hs|), s, 0)
    {
      assert pend[L.group(s)] == [];
    }
  }

  lemma FillingNextKey(L: Layout, hs: seq<bv64>, i: nat, count: seq<nat>, mask: seq<bv64>, pend: seq<seq<Entry>>)
    requires Filling(L, hs, i, count, mask, pend, []) && i < |hs|
    ensures Filling(L, hs, i + 1, count, mask, pend, KeyEntries(L, hs[i]))
  {
    TallyNextKey(L, hs, i, count, mask, pend);
  }

  lemma FillingCount(L: Layout, hs: seq<bv64>, i: nat, count: seq<nat>, mask: seq<bv64>,
                     pend: seq<seq<Entry>>, owed: seq<Entry>)
    requires Filling(L, hs, i, count, mask, pend, owed) && owed != []
    ensures owed[0].index < |count| == |mask|
    ensures var s := owed[0].index;
            Filling(L, hs, i, count[s := count[s] + 1], mask[s := L.xor(mask[s], owed[0].hash)], pend, owed[1..])
  {
    TallyCount(L, hs, i, count, mask, pend, owed);
  }

  /** Like `Filling`, but write buffer `g` may be full. */
  ghost predicate FillingFull(L: Layout, hs: seq<bv64>, i: nat, count: seq<nat>, mask: seq<bv64>,
                              pend: seq<seq<Entry>>, owed: seq<Entry>, g: nat)
  {
    && L.Valid() && |count| == |mask| == L.Slots() && |pend| == L.groups && i <= |hs|
    && EntriesOk(L, [], owed) && BuffersOk(L, [], pend)
    && (forall x :: 0 <= x < |pend| && x != g ==> |pend[x]| < SLOT_SIZE)
    && Tally(L, hs, i, count, mask, pend, owed)
  }

  lemma FillingDefer(L: Layout, hs: seq<bv64>, i: nat, count: seq<nat>, mask: seq<bv64>,
                     pend: seq<seq<Entry>>, owed: seq<Entry>)
    requires Filling(L, hs, i, count, mask, pend, owed) && owed != []
    ensures L.group(owed[0].index) < |pend|
    ensures var g := L.group(owed[0].index);
            var pend' := pend[g := pend[g] + [owed[0]]];
            && FillingFull(L, hs, i, count, mask, pend', owed[1..], g)
            && |pend'[g]| <= SLOT_SIZE
            && (|pend'[g]| < SLOT_SIZE ==> Filling(L, hs, i, count, mask, pend', owed[1..]))
  {
    TallyDefer(L, hs, i, count, mask, pend, owed);
    RestOk(L, [], owed);
    BufferGrows(L, [], pend, owed[0]);
  }

  lemma FillingMayFill(L: Layout, hs: seq<bv64>, i: nat, count: seq<nat>, mask: seq<bv64>,
                       pend: seq<seq<Entry>>, owed: seq<Entry>, g: nat)
    requires Filling(L, hs, i, count, mask, pend, owed)
    ensures FillingFull(L, hs, i, count, mask, pend, owed, g)
  {
  }

  lemma FillingRecount(L: Layout, hs: seq<bv64>, i: nat, count: seq<nat>, mask: seq<bv64>,
                       pend: seq<seq<Entry>>, owed: seq<Entry>, g: nat)
    requires FillingFull(L, hs, i, count, mask, pend, owed, g) && g < |pend| && pend[g] != []
    ensures pend[g][0].index < |count| == |mask|
    ensures var e := pend[g][0];
            FillingFull(L, hs, i, count[e.index := count[e.index] + 1], mask[e.index := L.xor(mask[e.index], e.hash)],
                        pend[g := pend[g][1..]], owed, g)
  {
    var e := pend[g][0];
    BufferShrinks(L, [], pend, g);
    TallyRecall(L, hs, i, count, mask, pend, owed, g);
    TallyCount(L, hs, i, count, mask, pend[g := pend[g][1..]], [e] + owed);
    assert ([e] + owed)[1..] == owed;
  }

  lemma FillingEmptied(L: Layout, hs: seq<bv64>, i: nat, count: seq<nat>, mask: seq<bv64>,
                       pend: seq<seq<Entry>>, owed: seq<Entry>, g: nat)
    requires FillingFull(L, hs, i, count, mask, pend, owed, g) && g < |pend| && |pend[g]| < SLOT_SIZE
    ensures Filling(L, hs, i, count, mask, pend, owed)
  {
  }

  /** Before the initial scan has passed slot `upto`. */
  ghost predicate Scanned(L: Layout, hs: seq<bv64>, t: Tab, queue: seq<seq<Entry>>, upto: nat) {
    && Filling(L, hs, |hs|, t.count, t.mask, t.pend, []) && NoneBuffered(t.pend)
    && t.stack == [] && t.owed == [] && t.order == [] && t.done == {} && t.live == UpTo(|hs|)
    && QueueOk(L, queue, t.wait, {})
    && (forall s :: s in t.wait ==> s < upto && s < L.Slots() && t.count[s] == 1 && t.mask[s] == t.wait[s])
    && Complete(t.count, t.wait, [], upto)
  }

  ghost function Unscanned(hs: seq<bv64>, count: seq<nat>, mask: seq<bv64>, pend: seq<seq<Entry>>): Tab {
    Tab(count, mask, map[], [], pend, [], UpTo(|hs|), [], {})
  }

  lemma FillingEnds(L: Layout, hs: seq<bv64>, count: seq<nat>, mask: seq<bv64>, pend: seq<seq<Entry>>)
    requires Filling(L, hs, |hs|, count, mask, pend, []) && NoneBuffered(pend)
    ensures Scanned(L, hs, Unscanned(hs, count, mask, pend), [[], [], []], 0)
  {
  }

  lemma ScanSizes(L: Layout, hs: seq<bv64>, t: Tab, queue: seq<seq<Entry>>, upto: nat)
    requires Scanned(L, hs, t, queue, upto)
    ensures L.Valid() && Sized(L, t) && |queue| == 3 && QueueOk(L, queue, t.wait, {}) && Bounded(t.pend)
    ensures t.owed == [] && NoneBuffered(t.pend)
  {
  }

  lemma ScanStep(L: Layout, hs: seq<bv64>, t: Tab, queue: seq<seq<Entry>>, b: nat, i: nat)
    requires Scanned(L, hs, t, queue, L.Base(b) + i) && b < 3 && i < L.blockLength
    ensures L.Base(b) + i < |t.count| == |t.mask|
    ensures var s := L.Base(b) + i;
            if t.count[s] == 1 then Scanned(L, hs, t.(wait := t.wait[s := t.mask[s]]), queue[b := queue[b] + [Entry(t.mask[s], s)]], s + 1)
            else Scanned(L, hs, t, queue, s + 1)
  {
    hide Filling, NoneBuffered, QueueOk;
    FillingSizes(L, hs, |hs|, t.count, t.mask, t.pend, []);
    var s := L.Base(b) + i;
    if t.count[s] == 1 {
      QueuePush(L, queue, t.wait, {}, b, Entry(t.mask[s], s));
    }
  }

  /** After the scan, the tables are in order and peeling can start. */
  lemma ScanEnds(L: Layout, hs: seq<bv64>, t: Tab, queue: seq<seq<Entry>>)
    requires Scanned(L, hs, t, queue, L.Slots())
    ensures Inv(L, hs, t)
  {
    TallyBalances(L, hs, t.count, t.mask, t.pend);
    assert WaitOk(t.count, t.mask, t.wait, t.done);
    assert OrderOk(hs, t.stack, t.order, t.live);
  }

  lemma NobodyWaits(L: Layout, hs: seq<bv64>, t: Tab, queue: seq<seq<Entry>>)
    requires QueueOk(L, queue, t.wait, {}) && |queue[0]| + |queue[1]| + |queue[2]| == 0
    ensures t.wait == map[]
  {
    assert t.wait.Keys == {};
  }

  /** The keys that no order of peeling can remove: a 2-core that contains all others. */
  ghost predicate GreatestCore(L: Layout, hs: seq<bv64>, rest: set<nat>) {
    TwoCore(L, hs, rest) && forall core :: TwoCore(L, hs, core) ==> core <= rest
  }

  /** There is only one such set, so any two ways of peeling leave the same keys behind. */
  lemma SameKeysRemain(L: Layout, hs: seq<bv64>, rest1: set<nat>, rest2: set<nat>)
    requires GreatestCore(L, hs, rest1) && GreatestCore(L, hs, rest2)
    ensures rest1 == rest2
  {
    hide TwoCore;
    assert rest1 <= rest2 && rest2 <= rest1;
  }

  /** The stack lists every hash, and the slot of an entry is touched by no later entry. */
  ghost predicate Solvable(L: Layout, hs: seq<bv64>, stack: seq<Entry>) {
    && (forall k :: 0 <= k < |stack| ==> stack[k].index < L.Slots() && L.Touches(stack[k].hash, stack[k].index))
    && (forall k, l :: 0 <= k < l < |stack| ==> !L.Touches(stack[l].hash, stack[k].index))
    && (forall j :: 0 <= j < |hs| ==> Stacked(stack, hs[j]))
  }

  ghost predicate Stacked(stack: seq<Entry>, h: bv64) {
    exists k :: 0 <= k < |stack| && stack[k].hash == h
  }

  lemma Conclusion(L: Layout, hs: seq<bv64>, t: Tab)
    requires Inv(L, hs, t)
    requires |t.stack| < |hs| ==> t.wait == map[] && t.owed == [] && NoneBuffered(t.pend)
    ensures |t.stack| == |hs| <==> Peelable(L, hs)
    ensures GreatestCore(L, hs, t.live)
    ensures |t.stack| == |hs| ==> Solvable(L, hs, t.stack)
  {
    PeeledIffPeelable(L, hs, t);
    if |t.stack| == |hs| {
      AllStacked(hs, t.stack, t.order, t.live);
    } else {
      RestIsCore(L, hs, t);
    }
  }

  lemma AllStacked(hs: seq<bv64>, stack: seq<Entry>, order: seq<nat>, live: set<nat>)
    requires OrderOk(hs, stack, order, live) && |stack| == |hs|
    ensures live == {}
    ensures forall j :: 0 <= j < |hs| ==> Stacked(stack, hs[j])
  {
    forall j | 0 <= j < |hs|
      ensures Stacked(stack, hs[j])
    {
      assert j in order;
      var k :| 0 <= k < |order| && order[k] == j;
      assert stack[k].hash == hs[j];
    }
  }

  lemma NothingIn(L: Layout, hs: seq<bv64>, t: Tab, s: nat)
    requires Inv(L, hs, t) && NoneBuffered(t.pend) && s in t.wait
    ensures L.group(s) < |t.pend| && t.pend[L.group(s)] == []
  {
  }

  lemma BufferedEntry(L: Layout, hs: seq<bv64>, t: Tab, g: nat, b: nat)
    requires Inv(L, hs, t) && g < |t.pend| && t.pend[g] != [] && GroupOf(L, g, b)
    ensures InBlock(L, t.pend[g][0].index, b)
  {
    BufferShrinks(L, t.stack, t.pend, g);
  }

  /** Applying a recalled decrement restores what was owed and keeps every waiting slot. */
  lemma SettledFrame(L: Layout, hs: seq<bv64>, t: Tab, g: nat)
    requires Inv(L, hs, t) && g < |t.pend| && t.pend[g] != []
    ensures var r := Recalled(t, g);
            && r.owed != [] && r.owed[0].index < |r.count| == |r.mask| && r.count[r.owed[0].index] > 0
            && var t' := Settled(L, r);
            && t'.owed == t.owed
            && (forall s :: s in t.wait ==> s in t'.wait && t'.wait[s] == t.wait[s])
  {
    hide Inv;
    RecallKeeps(L, hs, t, g);
    SettleKeeps(L, hs, Recalled(t, g));
    Shape(L, hs, t);
  }

  lemma Shape(L: Layout, hs: seq<bv64>, t: Tab)
    requires Inv(L, hs, t)
    ensures L.Valid() && Sized(L, t) && |t.stack| + |t.live| == |hs|
  {
  }

  lemma EntryGroup(L: Layout, hs: seq<bv64>, t: Tab, m: nat, b: nat)
    requires Inv(L, hs, t) && t.owed != [] && InBlock(L, t.owed[0].index, b) && Spread(L, m)
    ensures L.group(t.owed[0].index) < |t.pend| && GroupOf(L, L.group(t.owed[0].index), b)
  {
    RestOk(L, t.stack, t.owed);
    SpreadGroups(L, m, L.group(t.owed[0].index), b);
  }

  lemma HandGroup(L: Layout, hs: seq<bv64>, t: Tab, m: nat, b: nat, s: nat)
    requires Inv(L, hs, t) && s in t.wait && InBlock(L, s, b) && Spread(L, m)
    ensures L.group(s) < |t.pend| && GroupOf(L, L.group(s), b)
  {
    SpreadGroups(L, m, L.group(s), b);
  }

  lemma BoundedIsBut(pend: seq<seq<Entry>>, g: nat)
    requires Bounded(pend)
    ensures BoundedBut(pend, g)
  {
  }

  lemma BoundedFlush(pend: seq<seq<Entry>>, g: nat)
    requires Bounded(pend) && g < |pend|
    ensures Bounded(pend[g := []])
  {
  }

  lemma BoundedPush(pend: seq<seq<Entry>>, g: nat, e: Entry)
    requires Bounded(pend) && g < |pend|
    ensures |pend[g] + [e]| < SLOT_SIZE ==> Bounded(pend[g := pend[g] + [e]])
    ensures |pend[g] + [e]| <= SLOT_SIZE
  {
  }

  lemma DoneBelow(L: Layout, hs: seq<bv64>, t: Tab)
    requires Inv(L, hs, t)
    ensures |t.done| <= L.Slots()
  {
    BelowSize(t.done, L.Slots());
  }

  /** In which blocks the two remaining decrements of a peel happen. */
  function OtherBlocks(b: nat): (nat, nat) {
    if b == 0 then (1, 2) else if b == 1 then (0, 2) else (0, 1)
  }

  lemma OthersInBlocks(L: Layout, h: bv64, b: nat)
    requires L.Valid() && b < 3
    ensures InBlock(L, Others(L, h, b).0, OtherBlocks(b).0) && InBlock(L, Others(L, h, b).1, OtherBlocks(b).1)
  {
  }

  /** What is left of `Good` when a slot is in hand and up to date. */
  lemma HandedOut(L: Layout, hs: seq<bv64>, t: Tab, e: Entry, b: nat)
    requires Inv(L, hs, t) && e.index in t.wait && t.wait[e.index] == e.hash && InBlock(L, e.index, b)
    requires t.owed == [] && t.pend[L.group(e.index)] == []
    ensures e.index < |t.count| && t.count[e.index] <= 1 && e.index !in t.done
    ensures t.count[e.index] == 0 ==> Inv(L, hs, Skipped(t, e.index))
    ensures t.count[e.index] == 1 ==>
              exists j :: Inv(L, hs, Peeled(L, t, e.index, b, j)) && j in t.live
  {
    if t.count[e.index] == 0 {
      SkipKeeps(L, hs, t, e.index);
    } else {
      var j := WaitingKey(L, hs, t, e.index);
      PeelKeeps(L, hs, t, e.index, b, j);
    }
  }
}
