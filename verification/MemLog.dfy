/**
 The transaction log: for every table a linked list of pending records, kept in an array indexed by table
 number that grows on demand. A commit replays the lists of the mapped tables and empties them.
 */
module MemLog {
  import opened Counting

  datatype Change = Insert(row: int, data: seq<bv8>) | Update(row: int, data: seq<bv8>) | Delete(row: int)

  class Record {
    const change: Change
    var next: Record?

    constructor (change: Change)
      ensures this.change == change && next == null
    {
      this.change := change;
      next := null;
    }
  }

  datatype RecordList = RecordList(head: Record?, tail: Record?, size: int)

  const NOTHING := RecordList(null, null, 0)

  /** A nil-terminated chain from head to tail through exactly the records of `chain`. */
  ghost predicate Links(list: RecordList, chain: seq<Record>)
    reads chain
  {
    && list.size == |chain|
    && (if chain == [] then list.head == null && list.tail == null
        else list.head == chain[0] && list.tail == chain[|chain| - 1])
    && forall k :: 0 <= k < |chain| ==> chain[k].next == if k + 1 < |chain| then chain[k + 1] else null
  }

  /** No record is in two places. */
  ghost predicate Apart(chains: seq<seq<Record>>) {
    && (forall t, k, l :: 0 <= t < |chains| && 0 <= k < l < |chains[t]| ==> chains[t][k] != chains[t][l])
    && (forall t, u, k, l :: 0 <= t < u < |chains| && 0 <= k < |chains[t]| && 0 <= l < |chains[u]| ==> chains[t][k] != chains[u][l])
  }

  ghost predicate Holds(chains: seq<seq<Record>>, r: Record) {
    exists t :: 0 <= t < |chains| && r in chains[t]
  }

  ghost function Changes(chain: seq<Record>): seq<Change> {
    seq(|chain|, k requires 0 <= k < |chain| => chain[k].change)
  }

  /** What a commit applies: table by table, the changes of the mapped tables in the order of insertion. */
  ghost function Replay(chains: seq<seq<Record>>, mapped: set<nat>, n: nat): seq<(nat, Change)>
    requires n <= |chains|
  {
    if n == 0 then [] else
      Replay(chains, mapped, n - 1) + (if n - 1 in mapped then Tagged(n - 1, Changes(chains[n - 1])) else [])
  }

  ghost function Tagged(t: nat, changes: seq<Change>): seq<(nat, Change)> {
    seq(|changes|, k requires 0 <= k < |changes| => (t, changes[k]))
  }

  /** The changes made to table `t` among `changes`, in order. */
  ghost function Of(changes: seq<(nat, Change)>, t: nat): seq<Change> {
    if changes == [] then [] else
      var last := changes[|changes| - 1];
      Of(changes[..|changes| - 1], t) + (if last.0 == t then [last.1] else [])
  }

  ghost function Pending(chains: seq<seq<Record>>, t: nat): seq<Change> {
    if t < |chains| then Changes(chains[t]) else []
  }

  /** Nothing is lost, doubled or reordered: for every table, what was logged is what was settled, then what is pending. */
  ghost predicate Conserved(logged: seq<(nat, Change)>, settled: seq<(nat, Change)>, chains: seq<seq<Record>>) {
    forall t: nat :: Of(logged, t) == Of(settled, t) + Pending(chains, t)
  }

  lemma {:induction false} OfAppend(a: seq<(nat, Change)>, b: seq<(nat, Change)>, t: nat)
    ensures Of(a + b, t) == Of(a, t) + Of(b, t)
    decreases |b|
  {
    if b == [] {
      assert a + b == a;
    } else {
      assert (a + b)[..|a + b| - 1] == a + b[..|b| - 1];
      OfAppend(a, b[..|b| - 1], t);
    }
  }

  lemma {:induction false} OfTagged(u: nat, changes: seq<Change>, t: nat)
    ensures Of(Tagged(u, changes), t) == if u == t then changes else []
    decreases |changes|
  {
    if changes != [] {
      var n := |changes| - 1;
      OfTagged(u, changes[..n], t);
      assert Tagged(u, changes)[..n] == Tagged(u, changes[..n]);
    }
  }

  /** The changes concern tables below `n`, in order of the tables' numbers. */
  ghost predicate ByTable(applied: seq<(nat, Change)>, n: nat) {
    && (forall i :: 0 <= i < |applied| ==> applied[i].0 < n)
    && forall i, j :: 0 <= i < j < |applied| ==> applied[i].0 <= applied[j].0
  }

  lemma ByTableAppend(applied: seq<(nat, Change)>, t: nat, changes: seq<Change>)
    requires ByTable(applied, t)
    ensures ByTable(applied, t + 1) && ByTable(applied + Tagged(t, changes), t + 1)
  {
  }

  /** A commit goes through the tables in order of their numbers. */
  lemma {:induction false} ReplaySorted(chains: seq<seq<Record>>, mapped: set<nat>, n: nat)
    requires n <= |chains|
    ensures ByTable(Replay(chains, mapped, n), n)
  {
    if n > 0 {
      hide ByTable, Tagged, Changes;
      ReplaySorted(chains, mapped, n - 1);
      ByTableAppend(Replay(chains, mapped, n - 1), n - 1, Changes(chains[n - 1]));
      assert Replay(chains, mapped, n - 1) + [] == Replay(chains, mapped, n - 1);
    }
  }

  /** A commit replays exactly the pending changes of the mapped tables. */
  lemma {:induction false} OfReplay(chains: seq<seq<Record>>, mapped: set<nat>, n: nat, t: nat)
    requires n <= |chains|
    ensures Of(Replay(chains, mapped, n), t) == if t < n && t in mapped then Changes(chains[t]) else []
  {
    hide Tagged, Changes;
    if n > 0 {
      OfReplay(chains, mapped, n - 1, t);
      OfTagged(n - 1, Changes(chains[n - 1]), t);
      OfAppend(Replay(chains, mapped, n - 1), if n - 1 in mapped then Tagged(n - 1, Changes(chains[n - 1])) else [], t);
    }
  }

  lemma InsertConserves(logged: seq<(nat, Change)>, settled: seq<(nat, Change)>, chains: seq<seq<Record>>, chains': seq<seq<Record>>,
                        t: nat, record: Record)
    requires Conserved(logged, settled, chains) && |chains| <= |chains'| && t < |chains'|
    requires forall u :: 0 <= u < |chains'| ==>
               chains'[u] == (if u < |chains| then chains[u] else []) + (if u == t then [record] else [])
    ensures Conserved(logged + [(t, record.change)], settled, chains')
  {
    hide Of, Changes;
    forall u: nat
      ensures Of(logged + [(t, record.change)], u) == Of(settled, u) + Pending(chains', u)
    {
      OfAppend(logged, [(t, record.change)], u);
      OfSingle(t, record.change, u);
      NoChanges();
      var base := if u < |chains| then chains[u] else [];
      if u == t {
        ChangesAppend(base, record);
      } else if u < |chains'| {
        assert chains'[u] == base;
      }
      assert Of(logged, u) == Of(settled, u) + Pending(chains, u);
    }
  }

  lemma NoChanges()
    ensures Changes([]) == []
  {
  }

  lemma OfSingle(t: nat, c: Change, u: nat)
    ensures Of([(t, c)], u) == if u == t then [c] else []
  {
    assert Of([(t, c)][..0], u) == [];
  }

  lemma ChangesAppend(chain: seq<Record>, record: Record)
    ensures Changes(chain + [record]) == Changes(chain) + [record.change]
  {
  }

  lemma CommitConserves(logged: seq<(nat, Change)>, settled: seq<(nat, Change)>, chains: seq<seq<Record>>, chains': seq<seq<Record>>, mapped: set<nat>)
    requires Conserved(logged, settled, chains) && |chains'| == |chains|
    requires forall t :: 0 <= t < |chains| ==> chains'[t] == if t in mapped then [] else chains[t]
    ensures Conserved(logged, settled + Replay(chains, mapped, |chains|), chains')
  {
    hide Of, Changes, Replay;
    NoChanges();
    forall t: nat
      ensures Of(logged, t) == Of(settled + Replay(chains, mapped, |chains|), t) + Pending(chains', t)
    {
      OfReplay(chains, mapped, |chains|, t);
      OfAppend(settled, Replay(chains, mapped, |chains|), t);
      assert Of(logged, t) == Of(settled, t) + Pending(chains, t);
    }
  }

  /** The settled changes with the given fate, in order. */
  ghost function Chosen(settled: seq<(nat, Change)>, replayed: seq<bool>, fate: bool): seq<(nat, Change)>
    requires |settled| == |replayed|
  {
    if settled == [] then [] else
      var n := |settled| - 1;
      Chosen(settled[..n], replayed[..n], fate) + (if replayed[n] == fate then [settled[n]] else [])
  }

  lemma {:induction false} ChosenAppend(a: seq<(nat, Change)>, ra: seq<bool>, b: seq<(nat, Change)>, rb: seq<bool>, fate: bool)
    requires |a| == |ra| && |b| == |rb|
    ensures Chosen(a + b, ra + rb, fate) == Chosen(a, ra, fate) + Chosen(b, rb, fate)
    decreases |b|
  {
    if b == [] {
      assert a + b == a && ra + rb == ra;
    } else {
      var n := |b| - 1;
      assert (a + b)[..|a + b| - 1] == a + b[..n] && (ra + rb)[..|a + b| - 1] == ra + rb[..n];
      ChosenAppend(a, ra, b[..n], rb[..n], fate);
    }
  }

  lemma {:induction false} ChosenAll(a: seq<(nat, Change)>, fate: bool)
    ensures Chosen(a, seq(|a|, _ => fate), fate) == a && Chosen(a, seq(|a|, _ => fate), !fate) == []
    decreases |a|
  {
    if a != [] {
      var n := |a| - 1;
      ChosenAll(a[..n], fate);
      assert seq(|a|, _ => fate)[..n] == seq(n, _ => fate);
      assert a == a[..n] + [a[n]];
    }
  }

  /** Every settled change was replayed or dropped, and none was both. */
  lemma {:induction false} SettledSplits(settled: seq<(nat, Change)>, replayed: seq<bool>, t: nat)
    requires |settled| == |replayed|
    ensures multiset(Of(settled, t)) == multiset(Of(Chosen(settled, replayed, true), t)) + multiset(Of(Chosen(settled, replayed, false), t))
    decreases |settled|
  {
    if settled != [] {
      var n := |settled| - 1;
      var front, fates, last := settled[..n], replayed[..n], settled[n];
      assert settled == front + [last];
      hide Of;
      SettledSplits(front, fates, t);
      OfAppend(front, [last], t);
      var f := replayed[n];
      OfAppend(Chosen(front, fates, f), [last], t);
      assert Chosen(settled, replayed, f) == Chosen(front, fates, f) + [last];
      assert Chosen(settled, replayed, !f) == Chosen(front, fates, !f);
    } else {
      assert Of([], t) == [];
    }
  }

  /** For every table, the logged changes are the replayed, the dropped and the pending ones. */
  lemma LoggedIsAccountedFor(logged: seq<(nat, Change)>, settled: seq<(nat, Change)>, replayed: seq<bool>, chains: seq<seq<Record>>, t: nat)
    requires Conserved(logged, settled, chains) && |settled| == |replayed|
    ensures multiset(Of(logged, t)) == multiset(Of(Chosen(settled, replayed, true), t))
                                     + multiset(Of(Chosen(settled, replayed, false), t)) + multiset(Pending(chains, t))
  {
    hide Of, Chosen, Pending;
    SettledSplits(settled, replayed, t);
    assert Of(logged, t) == Of(settled, t) + Pending(chains, t);
  }

  class MemLog {
    var lists: seq<RecordList>
    ghost var chains: seq<seq<Record>>
    ghost var records: set<Record>
    ghost var logged: seq<(nat, Change)>
    ghost var settled: seq<(nat, Change)>
    ghost var replayed: seq<bool>

    /** `settled` lists the changes that have left the log, `replayed` tells which of them were replayed and not dropped. */
    ghost predicate Valid()
      reads this, records
    {
      Sound() && Conserved(logged, settled, chains) && |settled| == |replayed|
    }

    ghost function Replayed(): seq<(nat, Change)>
      requires |settled| == |replayed|
      reads this
    {
      Chosen(settled, replayed, true)
    }

    ghost function Dropped(): seq<(nat, Change)>
      requires |settled| == |replayed|
      reads this
    {
      Chosen(settled, replayed, false)
    }

    /** The lists are sound chains, apart from each other. */
    ghost predicate Sound()
      reads this, records
    {
      && |lists| == |chains| > 0 && Apart(chains)
      && (forall t, k :: 0 <= t < |chains| && 0 <= k < |chains[t]| ==> chains[t][k] in records)
      && (forall t :: 0 <= t < |chains| ==> Links(lists[t], chains[t]))
    }

    constructor (size: nat)
      requires size > 0
      ensures Valid() && logged == settled == [] && |chains| == size && forall t :: 0 <= t < size ==> chains[t] == []
    {
      lists := seq(size, _ => NOTHING);
      chains := seq(size, _ => []);
      records := {};
      logged, settled, replayed := [], [], [];
    }

    /** Make room for table `t`; existing lists stay. */
    method Grow(t: nat)
      requires Valid()
      modifies this`lists, this`chains
      ensures Valid() && t < |chains| && |old(chains)| <= |chains| && lists[..|old(lists)|] == old(lists)
      ensures |chains| == if t < |old(chains)| then |old(chains)| else 2 * t
      ensures forall u :: 0 <= u < |chains| ==> chains[u] == if u < |old(chains)| then old(chains)[u] else []
    {
      hide Changes, Of;
      NoChanges();
      if t >= |lists| {
        var more := 2 * t - |lists|;
        lists := lists + seq(more, _ => NOTHING);
        chains := chains + seq(more, _ => []);
      }
    }

    /** Append a record to the list of table `t`. */
    method InsertRecord(record: Record, t: nat)
      requires Valid() && record.next == null && !Holds(chains, record)
      modifies this, records
      ensures Valid() && records == old(records) + {record} && logged == old(logged) + [(t, record.change)]
      ensures settled == old(settled) && replayed == old(replayed)
      ensures |chains| == if t < |old(chains)| then |old(chains)| else 2 * t
      ensures forall u :: 0 <= u < |chains| ==>
                chains[u] == (if u < |old(chains)| then old(chains)[u] else []) + (if u == t then [record] else [])
    {
      hide Apart, Holds, Conserved, Links;
      Grow(t);
      ghost var before := chains;
      assert !Holds(before, record) by { GrownHolds(old(chains), before, record); }
      AppendRecord(record, t);
      InsertConserves(logged, settled, before, chains, t, record);
      logged := logged + [(t, record.change)];
    }

    method AppendRecord(record: Record, t: nat)
      requires Sound() && t < |lists| && record.next == null && !Holds(chains, record)
      modifies this`lists, this`chains, this`records, records
      ensures Sound() && records == old(records) + {record} && chains == old(chains)[t := old(chains)[t] + [record]]
    {
      hide Apart, Holds;
      ghost var before := chains;
      var list := lists[t];
      if list.tail != null {
        list.tail.next := record;
      }
      lists := lists[t := RecordList(if list.head == null then record else list.head, record, list.size + 1)];
      chains := before[t := before[t] + [record]];
      records := records + {record};
      ApartAppend(before, t, record);
      forall u | 0 <= u < |chains|
        ensures Links(lists[u], chains[u])
      {
        NotElsewhere(before, t, u, record);
      }
    }

    /** Walk a list from its head and apply its changes. */
    method ReplayList(t: nat) returns (applied: seq<(nat, Change)>)
      requires Sound() && t < |lists|
      ensures applied == Tagged(t, Changes(chains[t]))
    {
      hide Apart;
      var head := lists[t].head;
      applied := [];
      ghost var k, chain := 0, chains[t];
      assert Links(lists[t], chain);
      while head != null
        invariant 0 <= k <= |chain| && head == (if k < |chain| then chain[k] else null)
        invariant applied == Tagged(t, Changes(chain[..k]))
        decreases |chain| - k
      {
        assert Links(lists[t], chain) && head == chain[k];
        NextOf(lists[t], chain, k);
        applied := applied + [(t, head.change)];
        ChangesStep(chain, k);
        TaggedStep(t, Changes(chain[..k]), head.change);
        head := head.next;
        k := k + 1;
      }
      assert chain[..k] == chain;
    }

    method EmptyList(t: nat)
      requires Sound() && t < |lists|
      modifies this`lists, this`chains
      ensures Sound() && chains == old(chains)[t := []] && |lists| == |old(lists)|
    {
      hide Apart;
      ApartShrink(chains, t);
      lists := lists[t := NOTHING];
      chains := chains[t := []];
    }

    /** Replay and empty the lists of the mapped tables; other lists keep their records. */
    method UpdateDb(mapped: set<nat>) returns (applied: seq<(nat, Change)>)
      requires Valid()
      modifies this`lists, this`chains, this`settled, this`replayed
      ensures Valid() && |chains| == |old(chains)| && settled == old(settled) + applied
      ensures Replayed() == old(Replayed()) + applied && Dropped() == old(Dropped())
      ensures applied == Replay(old(chains), mapped, |old(chains)|) && ByTable(applied, |chains|)
      ensures forall t: nat :: Of(applied, t) == if t < |chains| && t in mapped then Changes(old(chains)[t]) else []
      ensures forall t :: 0 <= t < |chains| ==> chains[t] == if t in mapped then [] else old(chains)[t]
    {
      hide Conserved, Replay, ByTable, Of, Changes;
      ghost var was := chains;
      applied := ReplayAll(mapped);
      CommitConserves(logged, settled, was, chains, mapped);
      ReplaySorted(was, mapped, |was|);
      forall t: nat
        ensures Of(applied, t) == if t < |was| && t in mapped then Changes(was[t]) else []
      {
        OfReplay(was, mapped, |was|, t);
      }
      Settle(applied, true);
    }

    method ReplayAll(mapped: set<nat>) returns (applied: seq<(nat, Change)>)
      requires Sound()
      modifies this`lists, this`chains
      ensures Sound() && |chains| == |old(chains)|
      ensures applied == Replay(old(chains), mapped, |old(chains)|)
      ensures forall t :: 0 <= t < |chains| ==> chains[t] == if t in mapped then [] else old(chains)[t]
    {
      hide Apart, Links, Tagged, Changes;
      applied := [];
      ghost var was := chains;
      for t := 0 to |lists|
        invariant Sound() && |chains| == |was| == |lists| == |old(lists)|
        invariant applied == Replay(was, mapped, t)
        invariant forall u :: 0 <= u < |was| ==> chains[u] == if u < t && u in mapped then [] else was[u]
      {
        if t !in mapped {
          continue;
        }
        var part := ReplayList(t);
        applied := applied + part;
        EmptyList(t);
      }
    }

    /** Note the fate of changes that leave the log. */
    ghost method Settle(changes: seq<(nat, Change)>, fate: bool)
      requires |settled| == |replayed|
      modifies this`settled, this`replayed
      ensures |settled| == |replayed| && settled == old(settled) + changes
      ensures Chosen(settled, replayed, fate) == old(Chosen(settled, replayed, fate)) + changes
      ensures Chosen(settled, replayed, !fate) == old(Chosen(settled, replayed, !fate))
    {
      hide Chosen;
      var fates := seq(|changes|, _ => fate);
      ChosenAll(changes, fate);
      ChosenAppend(settled, replayed, changes, fates, fate);
      ChosenAppend(settled, replayed, changes, fates, !fate);
      settled, replayed := settled + changes, replayed + fates;
    }

    /** Drop everything pending, as a rollback does. */
    method Clear()
      requires Valid()
      modifies this`lists, this`chains, this`settled, this`replayed
      ensures Valid() && |chains| == |old(chains)| && forall t :: 0 <= t < |chains| ==> chains[t] == []
      ensures Replayed() == old(Replayed()) && forall t: nat :: Of(Dropped(), t) == Of(old(Dropped()), t) + Pending(old(chains), t)
    {
      hide Apart, Links, Of, Changes, Conserved, Chosen, Replay;
      ghost var was, n := chains, |chains|;
      for t := 0 to |lists|
        invariant Sound() && |chains| == |lists| == n == |old(lists)| && settled == old(settled) && replayed == old(replayed)
        invariant forall u :: 0 <= u < n ==> chains[u] == if u < t then [] else was[u]
      {
        EmptyList(t);
      }
      ghost var everything := UpTo(n);
      CommitConserves(logged, settled, was, chains, everything);
      ghost var dropped := Replay(was, everything, n);
      ghost var before := Dropped();
      Settle(dropped, false);
      forall t: nat
        ensures Of(Dropped(), t) == Of(before, t) + Pending(was, t)
      {
        OfReplay(was, everything, n, t);
        OfAppend(before, dropped, t);
      }
    }

    /** The list of a table, unless its number is beyond the array. */
    method GetRecords(t: nat) returns (found: bool, list: RecordList)
      requires Valid()
      ensures found <==> t < |chains|
      ensures if found then Links(list, chains[t]) else list == NOTHING
    {
      found := t < |lists|;
      list := if found then lists[t] else NOTHING;
    }
  }

  lemma NextOf(list: RecordList, chain: seq<Record>, k: nat)
    requires Links(list, chain) && k < |chain|
    ensures chain[k].next == if k + 1 < |chain| then chain[k + 1] else null
  {
  }

  lemma ChangesStep(chain: seq<Record>, k: nat)
    requires k < |chain|
    ensures Changes(chain[..k + 1]) == Changes(chain[..k]) + [chain[k].change]
  {
  }

  lemma TaggedStep(t: nat, changes: seq<Change>, c: Change)
    ensures Tagged(t, changes + [c]) == Tagged(t, changes) + [(t, c)]
  {
  }

  lemma ApartShrink(chains: seq<seq<Record>>, t: nat)
    requires Apart(chains) && t < |chains|
    ensures Apart(chains[t := []])
  {
  }

  lemma GrownHolds(chains: seq<seq<Record>>, more: seq<seq<Record>>, record: Record)
    requires !Holds(chains, record) && |chains| <= |more|
    requires forall u :: 0 <= u < |more| ==> more[u] == if u < |chains| then chains[u] else []
    ensures !Holds(more, record)
  {
  }

  lemma ApartAppend(chains: seq<seq<Record>>, t: nat, record: Record)
    requires Apart(chains) && t < |chains| && !Holds(chains, record)
    ensures Apart(chains[t := chains[t] + [record]])
  {
    forall u, k | 0 <= u < |chains| && 0 <= k < |chains[u]|
      ensures chains[u][k] != record
    {
      assert chains[u][k] in chains[u];
    }
  }

  /** The last record of list `t` and the new record are in no other list, nor earlier in list `t`. */
  lemma NotElsewhere(chains: seq<seq<Record>>, t: nat, u: nat, record: Record)
    requires Apart(chains) && t < |chains| && u < |chains| && !Holds(chains, record)
    ensures record !in chains[u]
    ensures u != t && chains[t] != [] ==> chains[t][|chains[t]| - 1] !in chains[u]
    ensures forall k :: 0 <= k < |chains[t]| - 1 ==> chains[t][k] != chains[t][|chains[t]| - 1]
  {
  }
}
