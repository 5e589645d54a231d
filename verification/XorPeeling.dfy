/**
 The algebra behind the construction of an XOR filter, independent of how the work is scheduled.

 Every key hash lands in three slots, one per block. Peeling repeatedly removes a key that is alone
 in some slot. The tables kept by the populate routines (a count and an XOR mask per slot, queues of
 slots that hold one key, a stack of peeled keys, and decrements that are still to be applied) are
 described here as a value, `Tab`, together with the invariant `Inv` that every step keeps.
 */
module XorPeeling {
  import opened Counting

  /** A key hash together with a slot: an element of a queue, of the stack, or of a write buffer. */
  datatype Entry = Entry(hash: bv64, index: nat)

  /**
   Where hashes go and how masks combine. `xor` is exclusive-or, of which only the three laws in
   `Valid` are used. `place(b, h)` is the position of hash `h` inside block `b`; blocks are laid out
   one after the other. `group(s)` is the write buffer that collects the updates of slot `s`.
   */
  datatype Layout = Layout(zero: bv64, xor: (bv64, bv64) -> bv64,
                                       blockLength: nat, place: (nat, bv64) -> nat,
                                       groups: nat, group: nat -> nat)
  {
    ghost predicate Valid() {
      && 0 < blockLength
      && (forall b: nat, h: bv64 :: b < 3 ==> place(b, h) < blockLength)
      && (forall s: nat :: s < 3 * blockLength ==> group(s) < groups)
      && (forall a: bv64 :: xor(a, zero) == a && xor(zero, a) == a)
      && (forall a: bv64, b: bv64 :: xor(xor(a, b), b) == a)
      && (forall a: bv64, b: bv64, c: bv64 {:trigger Swap(a, b, c)} :: Swap(a, b, c) ==> xor(xor(a, b), c) == xor(xor(a, c), b))
    }

    /** Mentioning `Swap(a, b, c)` in a proof brings in the exchange law for these three words. */
    ghost predicate Swap(a: bv64, b: bv64, c: bv64) { true }

    function Base(b: nat): nat {
      if b == 0 then 0 else if b == 1 then blockLength else 2 * blockLength
    }

    function Slot(b: nat, h: bv64): nat {
      Base(b) + place(b, h)
    }

    predicate Touches(h: bv64, s: nat) {
      s == Slot(0, h) || s == Slot(1, h) || s == Slot(2, h)
    }

    function Slots(): nat { 3 * blockLength }
  }

  // ---------- Sums over the keys that are still in place ----------

  /** How many of the first `k` keys are live and touch slot `s`. */
  ghost function Load(L: Layout, hs: seq<bv64>, live: set<nat>, s: nat, k: nat): nat
    requires k <= |hs|
  {
    if k == 0 then 0
    else Load(L, hs, live, s, k - 1) + (if k - 1 in live && L.Touches(hs[k - 1], s) then 1 else 0)
  }

  /** The XOR of the hashes counted by `Load`. */
  ghost function Mask(L: Layout, hs: seq<bv64>, live: set<nat>, s: nat, k: nat): bv64
    requires k <= |hs|
  {
    if k == 0 then L.zero
    else L.xor(Mask(L, hs, live, s, k - 1), if k - 1 in live && L.Touches(hs[k - 1], s) then hs[k - 1] else L.zero)
  }

  lemma LoadWithout(L: Layout, hs: seq<bv64>, live: set<nat>, s: nat, k: nat, j: nat)
    requires L.Valid() && k <= |hs| && j in live && j < |hs|
    ensures Load(L, hs, live - {j}, s, k) == Load(L, hs, live, s, k) - (if j < k && L.Touches(hs[j], s) then 1 else 0)
    ensures Mask(L, hs, live - {j}, s, k) == L.xor(Mask(L, hs, live, s, k), if j < k && L.Touches(hs[j], s) then hs[j] else L.zero)
  {
    hide Load, Mask;
    CountWithout(L, hs, live, s, k, j);
    MaskWithout(L, hs, live, s, k, j);
  }

  lemma {:induction false} CountWithout(L: Layout, hs: seq<bv64>, live: set<nat>, s: nat, k: nat, j: nat)
    requires k <= |hs| && j in live && j < |hs|
    ensures Load(L, hs, live - {j}, s, k) == Load(L, hs, live, s, k) - (if j < k && L.Touches(hs[j], s) then 1 else 0)
  {
    if k > 0 {
      CountWithout(L, hs, live, s, k - 1, j);
      assert k - 1 in live - {j} <==> k - 1 in live && k - 1 != j;
    }
  }

  lemma {:induction false} MaskWithout(L: Layout, hs: seq<bv64>, live: set<nat>, s: nat, k: nat, j: nat)
    requires L.Valid() && k <= |hs| && j in live && j < |hs|
    ensures Mask(L, hs, live - {j}, s, k) == L.xor(Mask(L, hs, live, s, k), if j < k && L.Touches(hs[j], s) then hs[j] else L.zero)
  {
    if k > 0 {
      MaskWithout(L, hs, live, s, k - 1, j);
      assert k - 1 in live - {j} <==> k - 1 in live && k - 1 != j;
      if j < k - 1 && L.Touches(hs[j], s) {
        assert L.Swap(Mask(L, hs, live, s, k - 1), hs[j], hs[k - 1]);
      }
    }
  }

  lemma {:induction false} LoadNone(L: Layout, hs: seq<bv64>, live: set<nat>, s: nat, k: nat)
    requires L.Valid() && k <= |hs|
    requires forall j :: j in live && j < k ==> !L.Touches(hs[j], s)
    ensures Load(L, hs, live, s, k) == 0
    ensures Mask(L, hs, live, s, k) == L.zero
  {
    if k > 0 {
      LoadNone(L, hs, live, s, k - 1);
    }
  }

  /** A load of at least one has a witness. */
  lemma {:induction false} LoadSome(L: Layout, hs: seq<bv64>, live: set<nat>, s: nat, k: nat) returns (j: nat)
    requires k <= |hs|
    requires Load(L, hs, live, s, k) > 0
    ensures j in live && j < k && L.Touches(hs[j], s)
  {
    if k - 1 in live && L.Touches(hs[k - 1], s) {
      j := k - 1;
    } else {
      j := LoadSome(L, hs, live, s, k - 1);
    }
  }

  /** A load of exactly one determines the key: its hash is the mask, and nobody else is there. */
  lemma {:induction false} LoadOne(L: Layout, hs: seq<bv64>, live: set<nat>, s: nat, k: nat) returns (j: nat)
    requires L.Valid() && k <= |hs|
    requires Load(L, hs, live, s, k) == 1
    ensures j in live && j < k && L.Touches(hs[j], s)
    ensures Mask(L, hs, live, s, k) == hs[j]
    ensures forall i :: i in live && i < k && L.Touches(hs[i], s) ==> i == j
  {
    j := LoadSome(L, hs, live, s, k);
    LoadWithout(L, hs, live, s, k, j);
    forall i | i in live && i < k && L.Touches(hs[i], s)
      ensures i == j
    {
      if i != j {
        LoadWithout(L, hs, live - {j}, s, k, i);
        assert false;
      }
    }
    LoadNone(L, hs, live - {j}, s, k);
    var m := Mask(L, hs, live, s, k);
    assert m == L.xor(L.xor(m, hs[j]), hs[j]);
  }

  // ---------- Sums over lists of entries ----------

  /** How many entries of `es` are for slot `s`. */
  ghost function CountIn(es: seq<Entry>, s: nat): nat {
    if es == [] then 0
    else CountIn(es[..|es| - 1], s) + (if es[|es| - 1].index == s then 1 else 0)
  }

  /** The XOR of the hashes of the entries of `es` for slot `s`. */
  ghost function XorIn(L: Layout, es: seq<Entry>, s: nat): bv64 {
    if es == [] then L.zero
    else L.xor(XorIn(L, es[..|es| - 1], s), if es[|es| - 1].index == s then es[|es| - 1].hash else L.zero)
  }

  lemma AppendEntry(L: Layout, es: seq<Entry>, e: Entry, s: nat)
    ensures CountIn(es + [e], s) == CountIn(es, s) + (if e.index == s then 1 else 0)
    ensures XorIn(L, es + [e], s) == L.xor(XorIn(L, es, s), if e.index == s then e.hash else L.zero)
  {
    assert (es + [e])[..|es|] == es;
  }

  lemma {:induction false} PrependEntry(L: Layout, e: Entry, es: seq<Entry>, s: nat)
    requires L.Valid()
    ensures CountIn([e] + es, s) == CountIn(es, s) + (if e.index == s then 1 else 0)
    ensures XorIn(L, [e] + es, s) == L.xor(XorIn(L, es, s), if e.index == s then e.hash else L.zero)
  {
    if es == [] {
      assert [e] + es == [] + [e];
      AppendEntry(L, [], e, s);
    } else {
      var init, last := es[..|es| - 1], es[|es| - 1];
      assert [e] + es == ([e] + init) + [last];
      AppendEntry(L, [e] + init, last, s);
      PrependEntry(L, e, init, s);
      assert L.Swap(XorIn(L, init, s), e.hash, last.hash);
    }
  }

  lemma {:induction false} NoEntry(L: Layout, es: seq<Entry>, s: nat)
    requires L.Valid()
    requires forall k :: 0 <= k < |es| ==> es[k].index != s
    ensures CountIn(es, s) == 0 && XorIn(L, es, s) == L.zero
  {
    if es != [] {
      NoEntry(L, es[..|es| - 1], s);
    }
  }

  lemma {:induction false} EntryCounted(es: seq<Entry>, k: nat)
    requires k < |es|
    ensures CountIn(es, es[k].index) >= 1
  {
    if k < |es| - 1 {
      EntryCounted(es[..|es| - 1], k);
    }
  }

  // ---------- Exclusive-or bookkeeping ----------

  lemma XorRegroups(L: Layout, a: bv64, b: bv64, c: bv64)
    requires L.Valid()
    ensures L.xor(a, b) == L.xor(b, a)
    ensures L.xor(L.xor(a, b), c) == L.xor(a, L.xor(b, c))
  {
    var z := L.zero;
    assert L.Swap(z, a, b);
    assert L.Swap(b, a, c);
    assert L.Swap(z, L.xor(b, c), a);
  }

  lemma SumSettles(L: Layout, a: bv64, o: bv64, h: bv64)
    requires L.Valid()
    ensures L.xor(L.xor(a, L.xor(o, h)), h) == L.xor(a, o)
  {
    XorRegroups(L, a, o, h);
  }

  lemma SumDefers(L: Layout, a: bv64, p: bv64, o: bv64, h: bv64)
    requires L.Valid()
    ensures L.xor(L.xor(a, L.xor(p, h)), o) == L.xor(L.xor(a, p), L.xor(o, h))
  {
    XorRegroups(L, a, p, h);
    XorRegroups(L, L.xor(a, p), o, h);
    assert L.Swap(L.xor(a, p), h, o);
  }

  /** An entry can move between the back or front of one list and the front of another. */
  lemma EntryMoves(L: Layout, a: bv64, e: Entry, p: seq<Entry>, o: seq<Entry>, s: nat)
    requires L.Valid()
    ensures CountIn(p + [e], s) + CountIn(o, s) == CountIn(p, s) + CountIn([e] + o, s)
    ensures CountIn([e] + p, s) + CountIn(o, s) == CountIn(p, s) + CountIn([e] + o, s)
    ensures L.xor(L.xor(a, XorIn(L, p + [e], s)), XorIn(L, o, s)) == L.xor(L.xor(a, XorIn(L, p, s)), XorIn(L, [e] + o, s))
    ensures L.xor(L.xor(a, XorIn(L, [e] + p, s)), XorIn(L, o, s)) == L.xor(L.xor(a, XorIn(L, p, s)), XorIn(L, [e] + o, s))
  {
    AppendEntry(L, p, e, s);
    PrependEntry(L, e, p, s);
    PrependEntry(L, e, o, s);
    if e.index == s {
      SumDefers(L, a, XorIn(L, p, s), XorIn(L, o, s), e.hash);
    }
  }

  lemma SumPeels(L: Layout, m: bv64, s: bv64, p: bv64, h: bv64)
    requires L.Valid()
    ensures L.xor(L.xor(L.xor(L.xor(m, h), s), p), h) == L.xor(L.xor(m, s), p)
  {
    assert L.Swap(m, h, s);
    assert L.Swap(L.xor(m, s), h, p);
  }

  // ---------- The tables and their invariant ----------

  /**
   `count` and `mask` are the per-slot sets. `wait` is what the three queues hold, as a map from slot
   to hash. `stack` holds the peeled keys, `order` says which key each of them is, and `live` are the
   keys not peeled yet. `pend` are the write buffers, one per group; `owed` are decrements that the
   current peel still has to issue. `done` are the slots that have left their queue.
   */
  datatype Tab = Tab(
    count: seq<nat>, mask: seq<bv64>, wait: map<nat, bv64>, stack: seq<Entry>,
    pend: seq<seq<Entry>>, owed: seq<Entry>, live: set<nat>, order: seq<nat>, done: set<nat>)

  ghost predicate Sized(L: Layout, t: Tab) {
    && |t.count| == |t.mask| == L.Slots()
    && |t.pend| == L.groups
    && |t.order| == |t.stack|
  }

  /** What slot `s` counts: keys in place, the key peeled here, and decrements not applied yet. */
  ghost function ExactCount(L: Layout, hs: seq<bv64>, live: set<nat>, stack: seq<Entry>,
                            pend: seq<Entry>, owed: seq<Entry>, s: nat): nat
  {
    Load(L, hs, live, s, |hs|) + CountIn(stack, s) + CountIn(pend, s) + CountIn(owed, s)
  }

  ghost function ExactMask(L: Layout, hs: seq<bv64>, live: set<nat>, stack: seq<Entry>,
                           pend: seq<Entry>, owed: seq<Entry>, s: nat): bv64
  {
    L.xor(L.xor(L.xor(Mask(L, hs, live, s, |hs|), XorIn(L, stack, s)), XorIn(L, pend, s)), XorIn(L, owed, s))
  }

  ghost predicate Balanced(L: Layout, hs: seq<bv64>, count: seq<nat>, mask: seq<bv64>, live: set<nat>,
                           stack: seq<Entry>, pend: seq<seq<Entry>>, owed: seq<Entry>)
    requires L.Valid() && |count| == |mask| == L.Slots() && |pend| == L.groups
  {
    forall s: nat :: s < L.Slots() ==>
      && count[s] == ExactCount(L, hs, live, stack, pend[L.group(s)], owed, s)
      && mask[s] == ExactMask(L, hs, live, stack, pend[L.group(s)], owed, s)
  }

  ghost predicate StackFree(stack: seq<Entry>, s: nat) {
    forall k :: 0 <= k < |stack| ==> stack[k].index != s
  }

  ghost predicate EntriesOk(L: Layout, stack: seq<Entry>, es: seq<Entry>) {
    forall k :: 0 <= k < |es| ==> es[k].index < L.Slots() && StackFree(stack, es[k].index)
  }

  ghost predicate BuffersOk(L: Layout, stack: seq<Entry>, pend: seq<seq<Entry>>) {
    && (forall g :: 0 <= g < |pend| ==> EntriesOk(L, stack, pend[g]))
    && (forall g, k :: 0 <= g < |pend| && 0 <= k < |pend[g]| ==> L.group(pend[g][k].index) == g)
  }

  /** A waiting slot holds at most one key; if it holds one, the hash recorded for it is that key's. */
  ghost predicate WaitOk(count: seq<nat>, mask: seq<bv64>, wait: map<nat, bv64>, done: set<nat>)
    requires |count| == |mask|
  {
    && (forall s: nat :: s in wait ==>
          s < |count| && s !in done && count[s] <= 1 && (count[s] == 1 ==> mask[s] == wait[s]))
    && (forall s: nat :: s in done ==> s < |count| && count[s] <= 1)
  }

  ghost predicate StackDone(stack: seq<Entry>, done: set<nat>) {
    forall k :: 0 <= k < |stack| ==> stack[k].index in done
  }

  /** Every slot below `upto` that holds one entry is waiting or has been used to peel. */
  ghost predicate Complete(count: seq<nat>, wait: map<nat, bv64>, stack: seq<Entry>, upto: nat)
  {
    forall s: nat :: s < upto && s < |count| && count[s] == 1 ==> s in wait || !StackFree(stack, s)
  }

  /** Each peeled key touches the slot it was peeled at; no later key and no live key does. */
  ghost predicate StackOk(L: Layout, hs: seq<bv64>, stack: seq<Entry>, live: set<nat>)
  {
    && (forall k :: 0 <= k < |stack| ==> stack[k].index < L.Slots() && L.Touches(stack[k].hash, stack[k].index))
    && (forall k, l :: 0 <= k < l < |stack| ==> !L.Touches(stack[l].hash, stack[k].index))
    && (forall k, j :: 0 <= k < |stack| && j in live && j < |hs| ==> !L.Touches(hs[j], stack[k].index))
  }

  /** `order` and `live` split the keys. */
  ghost predicate OrderOk(hs: seq<bv64>, stack: seq<Entry>, order: seq<nat>, live: set<nat>)
  {
    && |order| == |stack|
    && (forall k :: 0 <= k < |order| ==> order[k] < |hs| && order[k] !in live && stack[k].hash == hs[order[k]])
    && (forall k, l :: 0 <= k < l < |order| ==> order[k] != order[l])
    && (forall j :: j in live ==> j < |hs|)
    && (forall j: nat :: j < |hs| && j !in live ==> j in order)
    && |live| + |order| == |hs|
  }

  ghost predicate Inv(L: Layout, hs: seq<bv64>, t: Tab) {
    && L.Valid()
    && Sized(L, t)
    && Balanced(L, hs, t.count, t.mask, t.live, t.stack, t.pend, t.owed)
    && EntriesOk(L, t.stack, t.owed)
    && BuffersOk(L, t.stack, t.pend)
    && WaitOk(t.count, t.mask, t.wait, t.done)
    && StackDone(t.stack, t.done)
    && Complete(t.count, t.wait, t.stack, |t.count|)
    && StackOk(L, hs, t.stack, t.live)
    && OrderOk(hs, t.stack, t.order, t.live)
  }

  // ---------- The steps ----------

  /** Apply the first owed decrement; a slot that drops to one entry starts waiting. */
  ghost function Settled(L: Layout, t: Tab): Tab
    requires t.owed != [] && t.owed[0].index < |t.count| == |t.mask| && t.count[t.owed[0].index] > 0
  {
    var s := t.owed[0].index;
    var c := t.count[s] - 1;
    var m := L.xor(t.mask[s], t.owed[0].hash);
    t.(count := t.count[s := c], mask := t.mask[s := m], owed := t.owed[1..],
       wait := if c == 1 then t.wait[s := m] else t.wait)
  }

  /** An owed decrement always finds something to take away. */
  lemma SettleBalances(L: Layout, hs: seq<bv64>, t: Tab)
    requires L.Valid() && Sized(L, t) && t.owed != [] && t.owed[0].index < L.Slots()
    requires Balanced(L, hs, t.count, t.mask, t.live, t.stack, t.pend, t.owed)
    ensures t.count[t.owed[0].index] > 0
    ensures var t' := Settled(L, t); Balanced(L, hs, t'.count, t'.mask, t.live, t.stack, t.pend, t'.owed)
  {
    EntryCounted(t.owed, 0);
    var t', e, rest := Settled(L, t), t.owed[0], t.owed[1..];
    assert t.owed == [e] + rest;
    forall x: nat | x < L.Slots()
      ensures t'.count[x] == ExactCount(L, hs, t.live, t.stack, t.pend[L.group(x)], rest, x)
      ensures t'.mask[x] == ExactMask(L, hs, t.live, t.stack, t.pend[L.group(x)], rest, x)
    {
      PrependEntry(L, e, rest, x);
      if x == e.index {
        var a := L.xor(L.xor(Mask(L, hs, t.live, x, |hs|), XorIn(L, t.stack, x)), XorIn(L, t.pend[L.group(x)], x));
        SumSettles(L, a, XorIn(L, rest, x), e.hash);
      }
    }
  }

  lemma SettleKeeps(L: Layout, hs: seq<bv64>, t: Tab)
    requires Inv(L, hs, t) && t.owed != []
    ensures t.owed[0].index < L.Slots() && t.count[t.owed[0].index] > 0
    ensures Inv(L, hs, Settled(L, t))
    ensures t.count[t.owed[0].index] == 2 ==> t.owed[0].index !in t.wait && t.owed[0].index !in t.done
  {
    SettleBalances(L, hs, t);
    RestOk(L, t.stack, t.owed);
    SettleWaits(L, t);
    SettleCompletes(L, t);
  }

  lemma RestOk(L: Layout, stack: seq<Entry>, es: seq<Entry>)
    requires EntriesOk(L, stack, es) && es != []
    ensures EntriesOk(L, stack, es[1..])
    ensures es[0].index < L.Slots() && StackFree(stack, es[0].index)
  {
  }

  lemma SettleWaits(L: Layout, t: Tab)
    requires t.owed != [] && t.owed[0].index < |t.count| == |t.mask| && t.count[t.owed[0].index] > 0
    requires WaitOk(t.count, t.mask, t.wait, t.done)
    ensures var t' := Settled(L, t); WaitOk(t'.count, t'.mask, t'.wait, t'.done)
  {
  }

  lemma SettleCompletes(L: Layout, t: Tab)
    requires t.owed != [] && t.owed[0].index < |t.count| == |t.mask| && t.count[t.owed[0].index] > 0
    requires Complete(t.count, t.wait, t.stack, |t.count|)
    ensures var t' := Settled(L, t); Complete(t'.count, t'.wait, t'.stack, |t'.count|)
  {
  }

  /** Move the first owed decrement to its write buffer. */
  ghost function Deferred(L: Layout, t: Tab): Tab
    requires t.owed != [] && L.group(t.owed[0].index) < |t.pend|
  {
    var g := L.group(t.owed[0].index);
    t.(owed := t.owed[1..], pend := t.pend[g := t.pend[g] + [t.owed[0]]])
  }

  lemma DeferKeeps(L: Layout, hs: seq<bv64>, t: Tab)
    requires Inv(L, hs, t) && t.owed != []
    ensures L.group(t.owed[0].index) < |t.pend|
    ensures Inv(L, hs, Deferred(L, t))
  {
    RestOk(L, t.stack, t.owed);
    DeferBalances(L, hs, t);
    BufferGrows(L, t.stack, t.pend, t.owed[0]);
  }

  lemma BufferGrows(L: Layout, stack: seq<Entry>, pend: seq<seq<Entry>>, e: Entry)
    requires BuffersOk(L, stack, pend) && L.group(e.index) < |pend|
    requires e.index < L.Slots() && StackFree(stack, e.index)
    ensures BuffersOk(L, stack, pend[L.group(e.index) := pend[L.group(e.index)] + [e]])
  {
    assert EntriesOk(L, stack, pend[L.group(e.index)]);
  }

  lemma BufferShrinks(L: Layout, stack: seq<Entry>, pend: seq<seq<Entry>>, g: nat)
    requires BuffersOk(L, stack, pend) && g < |pend| && pend[g] != []
    ensures BuffersOk(L, stack, pend[g := pend[g][1..]])
    ensures var e := pend[g][0]; e.index < L.Slots() && L.group(e.index) == g && StackFree(stack, e.index)
  {
    assert EntriesOk(L, stack, pend[g]);
  }

  lemma DeferBalances(L: Layout, hs: seq<bv64>, t: Tab)
    requires L.Valid() && Sized(L, t) && t.owed != [] && t.owed[0].index < L.Slots()
    requires Balanced(L, hs, t.count, t.mask, t.live, t.stack, t.pend, t.owed)
    ensures L.group(t.owed[0].index) < |t.pend|
    ensures var t' := Deferred(L, t); Balanced(L, hs, t.count, t.mask, t.live, t.stack, t'.pend, t'.owed)
  {
    var t', e, rest := Deferred(L, t), t.owed[0], t.owed[1..];
    var g := L.group(e.index);
    assert t.owed == [e] + rest;
    forall x: nat | x < L.Slots()
      ensures t.count[x] == ExactCount(L, hs, t.live, t.stack, t'.pend[L.group(x)], rest, x)
      ensures t.mask[x] == ExactMask(L, hs, t.live, t.stack, t'.pend[L.group(x)], rest, x)
    {
      var a := L.xor(Mask(L, hs, t.live, x, |hs|), XorIn(L, t.stack, x));
      if L.group(x) == g {
        EntryMoves(L, a, e, t.pend[g], rest, x);
      } else {
        PrependEntry(L, e, rest, x);
      }
    }
  }

  /** Take the first decrement out of a write buffer, to be applied next. */
  ghost function Recalled(t: Tab, g: nat): Tab
    requires g < |t.pend| && t.pend[g] != []
  {
    t.(owed := [t.pend[g][0]] + t.owed, pend := t.pend[g := t.pend[g][1..]])
  }

  lemma RecallKeeps(L: Layout, hs: seq<bv64>, t: Tab, g: nat)
    requires Inv(L, hs, t) && g < |t.pend| && t.pend[g] != []
    ensures Inv(L, hs, Recalled(t, g))
  {
    BufferShrinks(L, t.stack, t.pend, g);
    RecallBalances(L, hs, t, g);
    OwedGrows(L, t.stack, t.pend[g][0], t.owed);
  }

  lemma OwedGrows(L: Layout, stack: seq<Entry>, e: Entry, es: seq<Entry>)
    requires EntriesOk(L, stack, es)
    requires e.index < L.Slots() && StackFree(stack, e.index)
    ensures EntriesOk(L, stack, [e] + es)
  {
  }

  lemma RecallBalances(L: Layout, hs: seq<bv64>, t: Tab, g: nat)
    requires L.Valid() && Sized(L, t) && g < |t.pend| && t.pend[g] != []
    requires t.pend[g][0].index < L.Slots() && L.group(t.pend[g][0].index) == g
    requires Balanced(L, hs, t.count, t.mask, t.live, t.stack, t.pend, t.owed)
    ensures var t' := Recalled(t, g); Balanced(L, hs, t.count, t.mask, t.live, t.stack, t'.pend, t'.owed)
  {
    var t', e, rest := Recalled(t, g), t.pend[g][0], t.pend[g][1..];
    assert t.pend[g] == [e] + rest;
    forall x: nat | x < L.Slots()
      ensures t.count[x] == ExactCount(L, hs, t.live, t.stack, t'.pend[L.group(x)], t'.owed, x)
      ensures t.mask[x] == ExactMask(L, hs, t.live, t.stack, t'.pend[L.group(x)], t'.owed, x)
    {
      var a := L.xor(Mask(L, hs, t.live, x, |hs|), XorIn(L, t.stack, x));
      if L.group(x) == g {
        EntryMoves(L, a, e, rest, t.owed, x);
      } else {
        PrependEntry(L, e, t.owed, x);
      }
    }
  }

  /** A waiting slot whose key was peeled elsewhere leaves its queue without effect. */
  ghost function Skipped(t: Tab, s: nat): Tab {
    t.(wait := t.wait - {s}, done := t.done + {s})
  }

  lemma SkipKeeps(L: Layout, hs: seq<bv64>, t: Tab, s: nat)
    requires Inv(L, hs, t) && s in t.wait && t.count[s] == 0
    ensures Inv(L, hs, Skipped(t, s))
  {
    LeaveQueue(t.count, t.mask, t.wait, t.done, s);
    SkipCompletes(t, s);
    assert StackDone(t.stack, t.done + {s});
  }

  lemma LeaveQueue(count: seq<nat>, mask: seq<bv64>, wait: map<nat, bv64>, done: set<nat>, s: nat)
    requires |count| == |mask| && WaitOk(count, mask, wait, done) && s in wait
    ensures WaitOk(count, mask, wait - {s}, done + {s})
  {
  }

  lemma SkipCompletes(t: Tab, s: nat)
    requires Complete(t.count, t.wait, t.stack, |t.count|) && s < |t.count| && t.count[s] == 0
    ensures Complete(t.count, t.wait - {s}, t.stack, |t.count|)
  {
  }

  /** The two other slots of hash `h`, in block order, given the block of the slot it is peeled at. */
  function Others(L: Layout, h: bv64, b: nat): (nat, nat) {
    if b == 0 then (L.Slot(1, h), L.Slot(2, h))
    else if b == 1 then (L.Slot(0, h), L.Slot(2, h))
    else (L.Slot(0, h), L.Slot(1, h))
  }

  /** Peel key `j`, which is alone in slot `s` of block `b`: its two other decrements become owed. */
  ghost function Peeled(L: Layout, t: Tab, s: nat, b: nat, j: nat): Tab
    requires s in t.wait
  {
    var h := t.wait[s];
    var o := Others(L, h, b);
    t.(wait := t.wait - {s}, done := t.done + {s}, stack := t.stack + [Entry(h, s)], order := t.order + [j],
       live := t.live - {j}, owed := [Entry(h, o.0), Entry(h, o.1)])
  }

  ghost predicate InBlock(L: Layout, s: nat, b: nat) {
    b < 3 && L.Base(b) <= s < L.Base(b) + L.blockLength
  }

  /** The key that a waiting, up-to-date slot with one entry stands for. */
  lemma WaitingKey(L: Layout, hs: seq<bv64>, t: Tab, s: nat) returns (j: nat)
    requires Inv(L, hs, t) && s in t.wait && t.count[s] == 1
    requires t.owed == [] && t.pend[L.group(s)] == []
    ensures j in t.live && j < |hs| && t.wait[s] == hs[j] && L.Touches(hs[j], s)
    ensures forall i :: i in t.live && i < |hs| && L.Touches(hs[i], s) ==> i == j
    ensures StackFree(t.stack, s)
  {
    assert StackFree(t.stack, s);
    NoEntry(L, t.stack, s);
    j := LoadOne(L, hs, t.live, s, |hs|);
  }

  lemma OneSlotPerBlock(L: Layout, h: bv64, s: nat, b: nat, x: nat)
    requires L.Valid() && L.Touches(h, s) && InBlock(L, s, b)
    ensures var o := Others(L, h, b);
            && s != o.0 && s != o.1 && o.0 != o.1
            && o.0 < L.Slots() && o.1 < L.Slots()
            && (L.Touches(h, x) <==> x == s || x == o.0 || x == o.1)
  {
  }

  lemma PeelBalances(L: Layout, hs: seq<bv64>, t: Tab, s: nat, b: nat, j: nat)
    requires L.Valid() && Sized(L, t) && s in t.wait && InBlock(L, s, b)
    requires Balanced(L, hs, t.count, t.mask, t.live, t.stack, t.pend, [])
    requires j in t.live && j < |hs| && t.wait[s] == hs[j] && L.Touches(hs[j], s)
    requires StackFree(t.stack, s)
    ensures var t' := Peeled(L, t, s, b, j); Balanced(L, hs, t.count, t.mask, t'.live, t'.stack, t.pend, t'.owed)
  {
    var t', h := Peeled(L, t, s, b, j), t.wait[s];
    forall x: nat | x < L.Slots()
      ensures t.count[x] == ExactCount(L, hs, t'.live, t'.stack, t.pend[L.group(x)], t'.owed, x)
      ensures t.mask[x] == ExactMask(L, hs, t'.live, t'.stack, t.pend[L.group(x)], t'.owed, x)
    {
      PeelBalancesAt(L, hs, t.live, t.stack, t.pend[L.group(x)], h, s, b, j, x);
    }
  }

  lemma PeelBalancesAt(L: Layout, hs: seq<bv64>, live: set<nat>, stack: seq<Entry>, pend: seq<Entry>,
                       h: bv64, s: nat, b: nat, j: nat, x: nat)
    requires L.Valid() && InBlock(L, s, b)
    requires j in live && j < |hs| && h == hs[j] && L.Touches(h, s) && StackFree(stack, s)
    ensures var o := Others(L, h, b);
            var owed := [Entry(h, o.0), Entry(h, o.1)];
            && ExactCount(L, hs, live - {j}, stack + [Entry(h, s)], pend, owed, x) == ExactCount(L, hs, live, stack, pend, [], x)
            && ExactMask(L, hs, live - {j}, stack + [Entry(h, s)], pend, owed, x) == ExactMask(L, hs, live, stack, pend, [], x)
  {
    var o := Others(L, h, b);
    OneSlotPerBlock(L, h, s, b, x);
    LoadWithout(L, hs, live, x, |hs|, j);
    AppendEntry(L, stack, Entry(h, s), x);
    assert [Entry(h, o.0), Entry(h, o.1)] == [Entry(h, o.0)] + [Entry(h, o.1)];
    AppendEntry(L, [Entry(h, o.0)], Entry(h, o.1), x);
    assert [Entry(h, o.0)] == [] + [Entry(h, o.0)];
    AppendEntry(L, [], Entry(h, o.0), x);
    var m, p := Mask(L, hs, live, x, |hs|), XorIn(L, pend, x);
    if x == s {
      NoEntry(L, stack, s);
    } else {
      SumPeels(L, m, XorIn(L, stack, x), p, h);
    }
  }

  lemma PeelKeeps(L: Layout, hs: seq<bv64>, t: Tab, s: nat, b: nat, j: nat)
    requires Inv(L, hs, t) && s in t.wait && InBlock(L, s, b)
    requires t.owed == [] && t.pend[L.group(s)] == []
    requires j in t.live && j < |hs| && t.wait[s] == hs[j] && L.Touches(hs[j], s)
    requires forall i :: i in t.live && i < |hs| && L.Touches(hs[i], s) ==> i == j
    requires StackFree(t.stack, s)
    ensures Inv(L, hs, Peeled(L, t, s, b, j))
  {
    var t', h := Peeled(L, t, s, b, j), t.wait[s];
    PeelBalances(L, hs, t, s, b, j);
    LeaveQueue(t.count, t.mask, t.wait, t.done, s);
    PeelEntriesOk(L, hs, t.stack, t.live, h, s, b, j);
    PeelBuffersOk(L, t.stack, t.pend, h, s);
    PeelCompletes(t.count, t.wait, t.stack, h, s);
    PeelStackOk(L, hs, t.stack, t.live, h, s, j);
    PeelOrderOk(hs, t.stack, t.order, t.live, h, s, j);
    PeelStackDone(t.stack, t.done, h, s);
  }

  lemma PeelStackDone(stack: seq<Entry>, done: set<nat>, h: bv64, s: nat)
    requires StackDone(stack, done)
    ensures StackDone(stack + [Entry(h, s)], done + {s})
  {
  }

  lemma PeelEntriesOk(L: Layout, hs: seq<bv64>, stack: seq<Entry>, live: set<nat>, h: bv64, s: nat, b: nat, j: nat)
    requires L.Valid() && InBlock(L, s, b) && StackOk(L, hs, stack, live)
    requires j in live && j < |hs| && h == hs[j] && L.Touches(h, s)
    ensures var o := Others(L, h, b); EntriesOk(L, stack + [Entry(h, s)], [Entry(h, o.0), Entry(h, o.1)])
  {
    var o := Others(L, h, b);
    OneSlotPerBlock(L, h, s, b, o.0);
    OneSlotPerBlock(L, h, s, b, o.1);
    assert StackFree(stack + [Entry(h, s)], o.0);
    assert StackFree(stack + [Entry(h, s)], o.1);
  }

  lemma PeelBuffersOk(L: Layout, stack: seq<Entry>, pend: seq<seq<Entry>>, h: bv64, s: nat)
    requires BuffersOk(L, stack, pend) && L.group(s) < |pend| && pend[L.group(s)] == []
    ensures BuffersOk(L, stack + [Entry(h, s)], pend)
  {
    forall g | 0 <= g < |pend|
      ensures EntriesOk(L, stack + [Entry(h, s)], pend[g])
    {
      assert EntriesOk(L, stack, pend[g]);
    }
  }

  lemma PeelCompletes(count: seq<nat>, wait: map<nat, bv64>, stack: seq<Entry>, h: bv64, s: nat)
    requires Complete(count, wait, stack, |count|)
    ensures Complete(count, wait - {s}, stack + [Entry(h, s)], |count|)
  {
    var stack' := stack + [Entry(h, s)];
    forall x: nat | x < |count| && count[x] == 1
      ensures x in wait - {s} || !StackFree(stack', x)
    {
      if x == s {
        assert stack'[|stack|].index == x;
      } else if x !in wait {
        var k :| 0 <= k < |stack| && stack[k].index == x;
        assert stack'[k].index == x;
      }
    }
  }

  lemma PeelStackOk(L: Layout, hs: seq<bv64>, stack: seq<Entry>, live: set<nat>, h: bv64, s: nat, j: nat)
    requires StackOk(L, hs, stack, live) && s < L.Slots()
    requires j in live && j < |hs| && h == hs[j] && L.Touches(h, s)
    requires forall i :: i in live && i < |hs| && L.Touches(hs[i], s) ==> i == j
    ensures StackOk(L, hs, stack + [Entry(h, s)], live - {j})
  {
  }

  lemma PeelOrderOk(hs: seq<bv64>, stack: seq<Entry>, order: seq<nat>, live: set<nat>, h: bv64, s: nat, j: nat)
    requires OrderOk(hs, stack, order, live)
    requires j in live && j < |hs| && h == hs[j]
    ensures OrderOk(hs, stack + [Entry(h, s)], order + [j], live - {j})
  {
    var order' := order + [j];
    forall i: nat | i < |hs| && i !in live - {j}
      ensures i in order'
    {
      if i == j {
        assert order'[|order|] == j;
      } else {
        assert i in order;
      }
    }
  }

  // ---------- What peeling computes ----------

  /**
   A 2-core: a set of keys in which every slot of every member is shared with another member.
   No key of a 2-core can ever be alone in a slot while the rest of the core is in place.
   */
  ghost predicate TwoCore(L: Layout, hs: seq<bv64>, core: set<nat>) {
    && (forall j :: j in core ==> j < |hs|)
    && forall j: nat, s: nat {:trigger SharedIn(L, hs, core, j, s)} :: j in core && j < |hs| && L.Touches(hs[j], s) ==> SharedIn(L, hs, core, j, s)
  }

  ghost predicate SharedIn(L: Layout, hs: seq<bv64>, core: set<nat>, j: nat, s: nat) {
    exists i: nat :: i in core && i < |hs| && i != j && L.Touches(hs[i], s)
  }

  /** The hashes can be peeled completely: no 2-core other than the empty one. */
  ghost predicate Peelable(L: Layout, hs: seq<bv64>) {
    forall core: set<nat> :: TwoCore(L, hs, core) ==> core == {}
  }

  /** Whoever else touches the slot of the `k`-th peeled key was peeled before it. */
  lemma NobodyElse(L: Layout, hs: seq<bv64>, t: Tab, k: nat, i: nat)
    requires StackOk(L, hs, t.stack, t.live) && OrderOk(hs, t.stack, t.order, t.live)
    requires k < |t.stack| && i < |hs| && i != t.order[k] && L.Touches(hs[i], t.stack[k].index)
    ensures exists l :: 0 <= l < k && t.order[l] == i
  {
    assert i !in t.live;
    var l :| 0 <= l < |t.order| && t.order[l] == i;
    assert t.stack[l].hash == hs[i];
  }

  /** Peeling never takes a key out of a 2-core. */
  lemma {:induction false} CoreSurvives(L: Layout, hs: seq<bv64>, t: Tab, core: set<nat>, k: nat)
    requires StackOk(L, hs, t.stack, t.live) && OrderOk(hs, t.stack, t.order, t.live)
    requires TwoCore(L, hs, core) && k <= |t.order|
    ensures forall i :: 0 <= i < k ==> t.order[i] !in core
  {
    if k > 0 {
      CoreSurvives(L, hs, t, core, k - 1);
      var j, s := t.order[k - 1], t.stack[k - 1].index;
      if j in core {
        assert SharedIn(L, hs, core, j, s);
        var i: nat :| i in core && i < |hs| && i != j && L.Touches(hs[i], s);
        NobodyElse(L, hs, t, k - 1, i);
        assert false;
      }
    }
  }

  /** When no slot waits and no decrement is outstanding, what is left is a 2-core. */
  lemma RestIsCore(L: Layout, hs: seq<bv64>, t: Tab)
    requires Inv(L, hs, t) && t.wait == map[] && t.owed == []
    requires forall g :: 0 <= g < |t.pend| ==> t.pend[g] == []
    ensures TwoCore(L, hs, t.live)
  {
    forall j: nat, s: nat | j in t.live && j < |hs| && L.Touches(hs[j], s)
      ensures SharedIn(L, hs, t.live, j, s)
    {
      assert StackFree(t.stack, s);
      NoEntry(L, t.stack, s);
      assert t.count[s] == Load(L, hs, t.live, s, |hs|);
      LoadWithout(L, hs, t.live, s, |hs|, j);
      assert t.count[s] != 1;
      var i := LoadSome(L, hs, t.live - {j}, s, |hs|);
    }
  }

  /** Keys with equal hashes form a 2-core, so they block construction. */
  lemma EqualHashesBlock(L: Layout, hs: seq<bv64>, i: nat, j: nat)
    requires i < j < |hs| && hs[i] == hs[j]
    ensures !Peelable(L, hs)
  {
    var core: set<nat> := {i, j};
    forall k: nat, s: nat | k in core && k < |hs| && L.Touches(hs[k], s)
      ensures SharedIn(L, hs, core, k, s)
    {
      var other := if k == i then j else i;
      assert other in core && L.Touches(hs[other], s);
    }
    assert TwoCore(L, hs, core);
    assert i in core;
  }

  /** A run that ended: it peeled everything exactly when the hashes are peelable. */
  lemma PeeledIffPeelable(L: Layout, hs: seq<bv64>, t: Tab)
    requires Inv(L, hs, t)
    requires |t.stack| < |hs| ==> t.wait == map[] && t.owed == [] && forall g :: 0 <= g < |t.pend| ==> t.pend[g] == []
    ensures |t.stack| <= |hs|
    ensures |t.stack| == |hs| <==> Peelable(L, hs)
    ensures |t.stack| < |hs| ==> TwoCore(L, hs, t.live)
    ensures forall core :: TwoCore(L, hs, core) ==> core <= t.live
  {
    forall core | TwoCore(L, hs, core)
      ensures core <= t.live
    {
      CoreSurvives(L, hs, t, core, |t.order|);
    }
    if |t.stack| < |hs| {
      RestIsCore(L, hs, t);
      assert t.live != {};
    } else {
      assert t.live == {};
    }
  }

  // ---------- Filling the tables ----------

  /** With increments still buffered or owed, the tables describe the first `i` keys. */
  ghost predicate Tally(L: Layout, hs: seq<bv64>, i: nat, count: seq<nat>, mask: seq<bv64>,
                        pend: seq<seq<Entry>>, owed: seq<Entry>)
    requires L.Valid() && |count| == |mask| == L.Slots() && |pend| == L.groups && i <= |hs|
  {
    forall s: nat :: s < L.Slots() ==>
      && count[s] + CountIn(pend[L.group(s)], s) + CountIn(owed, s) == Load(L, hs, UpTo(|hs|), s, i)
      && L.xor(L.xor(mask[s], XorIn(L, pend[L.group(s)], s)), XorIn(L, owed, s)) == Mask(L, hs, UpTo(|hs|), s, i)
  }

  function KeyEntries(L: Layout, h: bv64): seq<Entry> {
    [Entry(h, L.Slot(0, h)), Entry(h, L.Slot(1, h)), Entry(h, L.Slot(2, h))]
  }

  lemma KeyEntriesSum(L: Layout, h: bv64, x: nat)
    requires L.Valid()
    ensures CountIn(KeyEntries(L, h), x) == if L.Touches(h, x) then 1 else 0
    ensures XorIn(L, KeyEntries(L, h), x) == if L.Touches(h, x) then h else L.zero
  {
    var es := KeyEntries(L, h);
    assert es[..1] == [] + [es[0]] && es[..2] == es[..1] + [es[1]] && es == es[..2] + [es[2]];
    AppendEntry(L, [], es[0], x);
    AppendEntry(L, es[..1], es[1], x);
    AppendEntry(L, es[..2], es[2], x);
  }

  lemma TallyNextKey(L: Layout, hs: seq<bv64>, i: nat, count: seq<nat>, mask: seq<bv64>, pend: seq<seq<Entry>>)
    requires L.Valid() && |count| == |mask| == L.Slots() && |pend| == L.groups && i < |hs|
    requires Tally(L, hs, i, count, mask, pend, [])
    ensures Tally(L, hs, i + 1, count, mask, pend, KeyEntries(L, hs[i]))
  {
    forall s: nat | s < L.Slots()
      ensures count[s] + CountIn(pend[L.group(s)], s) + CountIn(KeyEntries(L, hs[i]), s) == Load(L, hs, UpTo(|hs|), s, i + 1)
      ensures L.xor(L.xor(mask[s], XorIn(L, pend[L.group(s)], s)), XorIn(L, KeyEntries(L, hs[i]), s))
           == Mask(L, hs, UpTo(|hs|), s, i + 1)
    {
      KeyEntriesSum(L, hs[i], s);
      var x := L.xor(mask[s], XorIn(L, pend[L.group(s)], s));
      assert L.xor(x, L.zero) == x == Mask(L, hs, UpTo(|hs|), s, i);
      assert i in UpTo(|hs|);
    }
  }

  /** Apply the first owed increment. */
  lemma TallyCount(L: Layout, hs: seq<bv64>, i: nat, count: seq<nat>, mask: seq<bv64>,
                   pend: seq<seq<Entry>>, owed: seq<Entry>)
    requires L.Valid() && |count| == |mask| == L.Slots() && |pend| == L.groups && i <= |hs|
    requires owed != [] && owed[0].index < L.Slots()
    requires Tally(L, hs, i, count, mask, pend, owed)
    ensures var s := owed[0].index;
            Tally(L, hs, i, count[s := count[s] + 1], mask[s := L.xor(mask[s], owed[0].hash)], pend, owed[1..])
  {
    var e, rest := owed[0], owed[1..];
    assert owed == [e] + rest;
    var count', mask' := count[e.index := count[e.index] + 1], mask[e.index := L.xor(mask[e.index], e.hash)];
    forall s: nat | s < L.Slots()
      ensures count'[s] + CountIn(pend[L.group(s)], s) + CountIn(rest, s) == Load(L, hs, UpTo(|hs|), s, i)
      ensures L.xor(L.xor(mask'[s], XorIn(L, pend[L.group(s)], s)), XorIn(L, rest, s)) == Mask(L, hs, UpTo(|hs|), s, i)
    {
      PrependEntry(L, e, rest, s);
      if s == e.index {
        var p, o := XorIn(L, pend[L.group(s)], s), XorIn(L, rest, s);
        assert L.Swap(mask[s], e.hash, p);
        assert L.Swap(L.xor(mask[s], p), e.hash, o);
        XorRegroups(L, L.xor(mask[s], p), o, e.hash);
      }
    }
  }

  /** Move the first owed increment to its write buffer. */
  lemma TallyDefer(L: Layout, hs: seq<bv64>, i: nat, count: seq<nat>, mask: seq<bv64>,
                   pend: seq<seq<Entry>>, owed: seq<Entry>)
    requires L.Valid() && |count| == |mask| == L.Slots() && |pend| == L.groups && i <= |hs|
    requires owed != [] && owed[0].index < L.Slots()
    requires Tally(L, hs, i, count, mask, pend, owed)
    ensures var g := L.group(owed[0].index);
            Tally(L, hs, i, count, mask, pend[g := pend[g] + [owed[0]]], owed[1..])
  {
    var e, rest := owed[0], owed[1..];
    assert owed == [e] + rest;
    var g := L.group(e.index);
    var pend' := pend[g := pend[g] + [e]];
    forall s: nat | s < L.Slots()
      ensures count[s] + CountIn(pend'[L.group(s)], s) + CountIn(rest, s) == Load(L, hs, UpTo(|hs|), s, i)
      ensures L.xor(L.xor(mask[s], XorIn(L, pend'[L.group(s)], s)), XorIn(L, rest, s)) == Mask(L, hs, UpTo(|hs|), s, i)
    {
      if L.group(s) == g {
        EntryMoves(L, mask[s], e, pend[g], rest, s);
      } else {
        PrependEntry(L, e, rest, s);
      }
    }
  }

  /** Take the first increment out of a write buffer, to be applied next. */
  lemma TallyRecall(L: Layout, hs: seq<bv64>, i: nat, count: seq<nat>, mask: seq<bv64>,
                    pend: seq<seq<Entry>>, owed: seq<Entry>, g: nat)
    requires L.Valid() && |count| == |mask| == L.Slots() && |pend| == L.groups && i <= |hs|
    requires g < |pend| && pend[g] != [] && pend[g][0].index < L.Slots() && L.group(pend[g][0].index) == g
    requires Tally(L, hs, i, count, mask, pend, owed)
    ensures Tally(L, hs, i, count, mask, pend[g := pend[g][1..]], [pend[g][0]] + owed)
  {
    var e, rest := pend[g][0], pend[g][1..];
    assert pend[g] == [e] + rest;
    var pend', owed' := pend[g := rest], [e] + owed;
    forall s: nat | s < L.Slots()
      ensures count[s] + CountIn(pend'[L.group(s)], s) + CountIn(owed', s) == Load(L, hs, UpTo(|hs|), s, i)
      ensures L.xor(L.xor(mask[s], XorIn(L, pend'[L.group(s)], s)), XorIn(L, owed', s)) == Mask(L, hs, UpTo(|hs|), s, i)
    {
      if L.group(s) == g {
        EntryMoves(L, mask[s], e, rest, owed, s);
      } else {
        PrependEntry(L, e, owed, s);
      }
    }
  }

  ghost predicate NoneBuffered(pend: seq<seq<Entry>>) {
    forall g :: 0 <= g < |pend| ==> pend[g] == []
  }

  /** Full tables with nothing buffered are the start of a peel, apart from the initial scan. */
  lemma TallyBalances(L: Layout, hs: seq<bv64>, count: seq<nat>, mask: seq<bv64>, pend: seq<seq<Entry>>)
    requires L.Valid() && |count| == |mask| == L.Slots() && |pend| == L.groups && NoneBuffered(pend)
    requires Tally(L, hs, |hs|, count, mask, pend, [])
    ensures Balanced(L, hs, count, mask, UpTo(|hs|), [], pend, [])
    ensures BuffersOk(L, [], pend)
  {
    forall s: nat | s < L.Slots()
      ensures count[s] == ExactCount(L, hs, UpTo(|hs|), [], pend[L.group(s)], [], s)
      ensures mask[s] == ExactMask(L, hs, UpTo(|hs|), [], pend[L.group(s)], [], s)
    {
      assert pend[L.group(s)] == [];
    }
  }
}
