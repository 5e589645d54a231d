/**
 Building graphs on a scheduler: an operator plan, and a chain of tasks. Operators of a plan are known by
 their position; `dependents` maps a producer to the operators that consume its output.
 */
module ExecutionPlan {
  import opened Counting
  import opened TaskGraph
  import opened SchedulerMachine
  import opened Wrappers
  import opened Scheduler
  import opened PlanOrder

  /** An operator carries the number it got when it was added to its plan. */
  datatype Operator = Operator(index: nat, name: string)

  ghost function LinksOf(dependents: map<nat, set<nat>>): set<(nat, nat)> {
    set p, q | p in dependents && q in dependents[p] :: (p, q)
  }

  ghost function Shifted(links: set<(nat, nat)>, shift: nat): set<(nat, nat)> {
    set l | l in links :: (l.0 + shift, l.1 + shift)
  }

  /** The links made for operators: entry to task, task to its continuation, continuation to exit. */
  ghost function OperatorEdges(enter: NodeId, exit: NodeId, tasks: seq<NodeId>, conts: seq<NodeId>): set<Edge>
    requires |tasks| == |conts|
  {
    if tasks == [] then {} else
      var k := |tasks| - 1;
      OperatorEdges(enter, exit, tasks[..k], conts[..k]) + {(enter, tasks[k]), (tasks[k], conts[k]), (conts[k], exit)}
  }

  lemma {:induction false} OperatorEdgeIn(enter: NodeId, exit: NodeId, tasks: seq<NodeId>, conts: seq<NodeId>, e: Edge)
    requires |tasks| == |conts|
    ensures e in OperatorEdges(enter, exit, tasks, conts) <==>
            exists k :: 0 <= k < |tasks| && (e == (enter, tasks[k]) || e == (tasks[k], conts[k]) || e == (conts[k], exit))
  {
    if tasks != [] {
      var k := |tasks| - 1;
      OperatorEdgeIn(enter, exit, tasks[..k], conts[..k], e);
      if e == (enter, tasks[k]) || e == (tasks[k], conts[k]) || e == (conts[k], exit) {
      } else if k0 :| 0 <= k0 < |tasks| && (e == (enter, tasks[k0]) || e == (tasks[k0], conts[k0]) || e == (conts[k0], exit)) {
        assert tasks[..k][k0] == tasks[k0] && conts[..k][k0] == conts[k0];
      }
    }
  }

  lemma OperatorEdgesGrow(enter: NodeId, exit: NodeId, tasks: seq<NodeId>, conts: seq<NodeId>, t: NodeId, c: NodeId)
    requires |tasks| == |conts|
    ensures OperatorEdges(enter, exit, tasks + [t], conts + [c])
         == OperatorEdges(enter, exit, tasks, conts) + {(enter, t), (t, c), (c, exit)}
  {
    assert (tasks + [t])[..|tasks|] == tasks && (conts + [c])[..|tasks|] == conts;
  }

  /** The links from producers to consumers. */
  ghost function LinkEdges(tasks: seq<NodeId>, conts: seq<NodeId>, links: set<(nat, nat)>): set<Edge>
    requires forall l :: l in links ==> l.0 < |conts| && l.1 < |tasks|
  {
    set l | l in links :: (conts[l.0], tasks[l.1])
  }

  /** Everything a plan leaves in the graph before it starts. */
  ghost function PlanEdges(enter: NodeId, exit: NodeId, closing: NodeId, continuation: Option<NodeId>,
                           tasks: seq<NodeId>, conts: seq<NodeId>, links: set<(nat, nat)>): set<Edge>
    requires |tasks| == |conts| && forall l :: l in links ==> l.0 < |conts| && l.1 < |tasks|
  {
    OperatorEdges(enter, exit, tasks, conts) + LinkEdges(tasks, conts, links) + TaskEdges(Some(exit), closing, continuation)
  }

  /** The edges of a plan are the ones its ordering theorems speak about. */
  lemma PlanEdgesLink(all: set<Edge>, enter: NodeId, exit: NodeId, closing: NodeId, continuation: Option<NodeId>,
                      tasks: seq<NodeId>, conts: seq<NodeId>, links: set<(nat, nat)>)
    requires |tasks| == |conts| && forall l :: l in links ==> l.0 < |conts| && l.1 < |tasks|
    requires PlanEdges(enter, exit, closing, continuation, tasks, conts, links) <= all
    ensures PlanLinked(all, tasks, conts, links, exit, closing)
  {
    forall k | 0 <= k < |tasks|
      ensures (tasks[k], conts[k]) in all && (conts[k], exit) in all
    {
      OperatorEdgeIn(enter, exit, tasks, conts, (tasks[k], conts[k]));
      OperatorEdgeIn(enter, exit, tasks, conts, (conts[k], exit));
    }
    forall l | l in links
      ensures (conts[l.0], tasks[l.1]) in all
    {
      assert (conts[l.0], tasks[l.1]) in LinkEdges(tasks, conts, links);
    }
    assert (exit, closing) in TaskEdges(Some(exit), closing, continuation);
  }

  /** Not yet handed out when the task counter and the continuation counter stood at `t` and `c`. */
  ghost predicate Fresh(t: nat, c: nat, x: NodeId) {
    if x.Task? then t <= x.id else c <= x.id
  }

  /** Handed out after the counters stood at `t` and `c`, and before they stood at `t'` and `c'`. */
  ghost predicate Between(t: nat, c: nat, t': nat, c': nat, x: NodeId) {
    Fresh(t, c, x) && !Fresh(t', c', x)
  }

  /** The nodes of the operators are new and pairwise different. */
  ghost predicate Minted(t: nat, c: nat, t': nat, c': nat, tasks: seq<NodeId>, conts: seq<NodeId>) {
    && |tasks| == |conts| && Distinct(tasks) && Distinct(conts)
    && (forall k :: 0 <= k < |tasks| ==> tasks[k].Task? && Between(t, c, t', c', tasks[k]))
    && (forall k :: 0 <= k < |conts| ==> conts[k].Continuation? && Between(t, c, t', c', conts[k]))
  }

  lemma MintedGrows(t: nat, c: nat, t': nat, c': nat, tasks: seq<NodeId>, conts: seq<NodeId>, t'': nat, c'': nat, x: NodeId, y: NodeId)
    requires Minted(t, c, t', c', tasks, conts) && t <= t' <= t'' && c <= c' <= c''
    requires x.Task? && y.Continuation? && Between(t', c', t'', c'', x) && Between(t', c', t'', c'', y)
    ensures Minted(t, c, t'', c'', tasks + [x], conts + [y])
  {
  }

  /** Operators nobody feeds. */
  ghost predicate Source(links: set<(nat, nat)>, q: nat) {
    forall l :: l in links ==> l.1 != q
  }

  /** Of the first `n` operators, `k` is the last one with its number. */
  ghost predicate IsLast(operators: seq<Operator>, n: nat, k: nat)
    requires k < n <= |operators|
  {
    forall m :: k < m < n ==> operators[m].index != operators[k].index
  }

  /** Links between numbers, as links between the positions of the operators that hold these numbers last. */
  ghost function Resolved(operators: seq<Operator>, links: set<(nat, nat)>): (r: set<(nat, nat)>)
    ensures forall l :: l in r ==> l.0 < |operators| && l.1 < |operators|
  {
    var n := |operators|;
    set i, j | 0 <= i < n && 0 <= j < n && IsLast(operators, n, i) && IsLast(operators, n, j)
               && (operators[i].index, operators[j].index) in links :: (i, j)
  }

  /** Some operator has number `i`. */
  ghost predicate Held(operators: seq<Operator>, i: nat) {
    exists k :: 0 <= k < |operators| && operators[k].index == i
  }

  lemma {:induction false} LastHolder(operators: seq<Operator>, n: nat, i: nat) returns (k: nat)
    requires n <= |operators| && exists j :: 0 <= j < n && operators[j].index == i
    ensures k < n && operators[k].index == i && IsLast(operators, n, k)
    decreases n
  {
    if operators[n - 1].index == i {
      k := n - 1;
    } else {
      k := LastHolder(operators, n - 1, i);
    }
  }

  /** With operators that know their positions, numbers are positions. */
  lemma NumberedResolves(operators: seq<Operator>, links: set<(nat, nat)>)
    requires forall k :: 0 <= k < |operators| ==> operators[k].index == k
    requires forall l :: l in links ==> l.0 < |operators| && l.1 < |operators|
    ensures Resolved(operators, links) == links
    ensures forall l :: l in links ==> Held(operators, l.0) && Held(operators, l.1)
  {
    forall l | l in links
      ensures l in Resolved(operators, links) && Held(operators, l.0) && Held(operators, l.1)
    {
      assert operators[l.0].index == l.0 && operators[l.1].index == l.1;
    }
  }

  /** The nodes stored under the operators' numbers: each number keeps the last one stored. */
  ghost predicate Stored(operators: seq<Operator>, n: nat, nodes: seq<NodeId>, slots: seq<NodeId>) {
    && n <= |operators| && |nodes| == n && |slots| == |operators|
    && forall k :: 0 <= k < n && operators[k].index < |slots| && IsLast(operators, n, k) ==> slots[operators[k].index] == nodes[k]
  }

  lemma StoreOne(operators: seq<Operator>, n: nat, nodes: seq<NodeId>, slots: seq<NodeId>, x: NodeId)
    requires Stored(operators, n, nodes, slots) && n < |operators| && operators[n].index < |operators|
    ensures Stored(operators, n + 1, nodes + [x], slots[operators[n].index := x])
  {
  }

  /** Linking through the slots links the operators that hold the numbers. */
  lemma ResolvedEdges(operators: seq<Operator>, links: set<(nat, nat)>, tasks: seq<NodeId>, conts: seq<NodeId>,
                      slotTasks: seq<NodeId>, slotConts: seq<NodeId>)
    requires forall k :: 0 <= k < |operators| ==> operators[k].index < |operators|
    requires Stored(operators, |operators|, tasks, slotTasks) && Stored(operators, |operators|, conts, slotConts)
    requires forall l :: l in links ==> Held(operators, l.0) && Held(operators, l.1)
    ensures forall l :: l in links ==> l.0 < |slotConts| && l.1 < |slotTasks| && slotConts[l.0] in conts && slotTasks[l.1] in tasks
    ensures LinkEdges(slotTasks, slotConts, links) == LinkEdges(tasks, conts, Resolved(operators, links))
  {
    hide Resolved, Held, Stored, IsLast;
    StoredSizes(operators, tasks, slotTasks);
    StoredSizes(operators, conts, slotConts);
    var r := Resolved(operators, links);
    forall l | l in links
      ensures l.0 < |slotConts| && l.1 < |slotTasks| && slotConts[l.0] in conts && slotTasks[l.1] in tasks
      ensures (slotConts[l.0], slotTasks[l.1]) in LinkEdges(tasks, conts, r)
    {
      var i, j := ResolveLink(operators, links, l, tasks, conts, slotTasks, slotConts);
      assert (i, j) in r;
    }
    forall e | e in LinkEdges(tasks, conts, r)
      ensures e in LinkEdges(slotTasks, slotConts, links)
    {
      var m :| m in r && e == (conts[m.0], tasks[m.1]);
      var l := NumbersOf(operators, links, m, tasks, conts, slotTasks, slotConts);
    }
  }

  lemma ResolveLink(operators: seq<Operator>, links: set<(nat, nat)>, l: (nat, nat), tasks: seq<NodeId>, conts: seq<NodeId>,
                    slotTasks: seq<NodeId>, slotConts: seq<NodeId>) returns (i: nat, j: nat)
    requires l in links && Held(operators, l.0) && Held(operators, l.1)
    requires forall k :: 0 <= k < |operators| ==> operators[k].index < |operators|
    requires Stored(operators, |operators|, tasks, slotTasks) && Stored(operators, |operators|, conts, slotConts)
    ensures (i, j) in Resolved(operators, links) && l.0 < |slotConts| && l.1 < |slotTasks|
    ensures i < |conts| && j < |tasks| && slotConts[l.0] == conts[i] && slotTasks[l.1] == tasks[j]
  {
    i := LastHolder(operators, |operators|, l.0);
    j := LastHolder(operators, |operators|, l.1);
  }

  lemma NumbersOf(operators: seq<Operator>, links: set<(nat, nat)>, m: (nat, nat), tasks: seq<NodeId>, conts: seq<NodeId>,
                  slotTasks: seq<NodeId>, slotConts: seq<NodeId>) returns (l: (nat, nat))
    requires m in Resolved(operators, links)
    requires forall k :: 0 <= k < |operators| ==> operators[k].index < |operators|
    requires Stored(operators, |operators|, tasks, slotTasks) && Stored(operators, |operators|, conts, slotConts)
    ensures l in links && l.0 < |slotConts| && l.1 < |slotTasks|
    ensures m.0 < |conts| && m.1 < |tasks| && slotConts[l.0] == conts[m.0] && slotTasks[l.1] == tasks[m.1]
  {
    l := (operators[m.0].index, operators[m.1].index);
  }

  class ExecutionPlan {
    var operators: seq<Operator>
    var dependents: map<nat, set<nat>>

    constructor ()
      ensures operators == [] && dependents == map[] && Numbered()
    {
      operators, dependents := [], map[];
    }

    /** Every operator knows its position. */
    ghost predicate Numbered()
      reads this
    {
      forall k :: 0 <= k < |operators| ==> operators[k].index == k
    }

    /** Numbers lie within the plan, and links only mention numbers that some operator has. */
    ghost predicate Resolvable()
      reads this
    {
      && (forall k :: 0 <= k < |operators| ==> operators[k].index < |operators|)
      && (forall p :: p in dependents ==> p < |operators|)
      && (forall l :: l in LinksOf(dependents) ==> Held(operators, l.0) && Held(operators, l.1))
    }

    /** Links only mention positions of the plan. */
    ghost predicate Closed()
      reads this
    {
      forall l :: l in LinksOf(dependents) ==> l.0 < |operators| && l.1 < |operators|
    }

    method AddOperator(name: string) returns (k: nat)
      modifies this`operators
      ensures k == |old(operators)| && operators == old(operators) + [Operator(k, name)]
      ensures old(Numbered()) ==> Numbered()
      ensures old(Closed()) ==> Closed()
    {
      k := |operators|;
      operators := operators + [Operator(k, name)];
    }

    method CreateLink(p: nat, q: nat)
      modifies this`dependents
      ensures LinksOf(dependents) == old(LinksOf(dependents)) + {(p, q)}
    {
      var had := if p in dependents then dependents[p] else {};
      dependents := dependents[p := had + {q}];
    }

    /**
     Append another plan. Its links are shifted to the new positions, unless it has no operators, in which
     case they are dropped. Its operators keep their old numbers, so the result is numbered only if there
     was nothing to append or nothing before.
     */
    method Merge(plan: ExecutionPlan)
      requires plan != this
      modifies this`operators, this`dependents
      ensures operators == old(operators) + plan.operators
      ensures LinksOf(dependents) ==
              old(LinksOf(dependents)) + (if plan.operators == [] then {} else Shifted(LinksOf(plan.dependents), |old(operators)|))
      ensures old(Closed()) && plan.Closed() ==> Closed()
      ensures old(Numbered()) && plan.Numbered() ==> (Numbered() <==> old(operators) == [] || plan.operators == [])
    {
      var n := |operators|;
      operators := operators + plan.operators;
      assert plan.operators != [] ==> operators[n] == plan.operators[0];
      ghost var was := LinksOf(dependents);
      var i := 0;
      while i < |plan.operators|
        invariant 0 <= i <= |plan.operators|
        invariant LinksOf(dependents) == was + (if i == 0 then {} else Shifted(LinksOf(plan.dependents), n))
        modifies this`dependents
      {
        ghost var before := LinksOf(dependents);
        MergeOnce(plan, n);
        assert LinksOf(dependents) == was + Shifted(LinksOf(plan.dependents), n);
        i := i + 1;
      }
      assert forall l :: l in Shifted(LinksOf(plan.dependents), n) ==> exists m :: m in LinksOf(plan.dependents) && l == (m.0 + n, m.1 + n);
    }

    method MergeOnce(plan: ExecutionPlan, n: nat)
      requires plan != this
      modifies this`dependents
      ensures LinksOf(dependents) == old(LinksOf(dependents)) + Shifted(LinksOf(plan.dependents), n)
    {
      var producers := plan.dependents.Keys;
      ghost var was := LinksOf(dependents);
      ghost var seen: set<(nat, nat)> := {};
      while producers != {}
        invariant producers <= plan.dependents.Keys
        invariant seen == set l | l in LinksOf(plan.dependents) && l.0 !in producers
        invariant LinksOf(dependents) == was + Shifted(seen, n)
        decreases |producers|
      {
        var p :| p in producers;
        MergeProducer(p, plan.dependents[p], n);
        ghost var more := set q | q in plan.dependents[p] :: (p, q);
        assert Shifted(seen + more, n) == Shifted(seen, n) + Shifted(more, n);
        seen := seen + more;
        producers := producers - {p};
      }
      assert seen == LinksOf(plan.dependents);
    }

    method MergeProducer(p: nat, consumers: set<nat>, n: nat)
      modifies this`dependents
      ensures LinksOf(dependents) == old(LinksOf(dependents)) + Shifted(set q | q in consumers :: (p, q), n)
    {
      hide LinksOf;
      var todo := consumers;
      ghost var seen: set<(nat, nat)> := {};
      while todo != {}
        invariant todo <= consumers && seen == set q | q in consumers - todo :: (p, q)
        invariant LinksOf(dependents) == old(LinksOf(dependents)) + Shifted(seen, n)
        decreases |todo|
      {
        var q :| q in todo;
        CreateLink(p + n, q + n);
        assert Shifted(seen + {(p, q)}, n) == Shifted(seen, n) + {(p + n, q + n)};
        seen := seen + {(p, q)};
        todo := todo - {q};
      }
      assert seen == set q | q in consumers :: (p, q);
    }

    /** One task and one continuation for an operator, held back by `enter` and awaited by `exit`. */
    method SetUpOperator(s: Scheduler, enter: NodeId, exit: NodeId) returns (t: NodeId, c: NodeId)
      requires s.Valid() && s.Allocated(enter) && s.Allocated(exit) && enter.Continuation? && exit.Continuation?
      modifies s`nodes, s`pool, s`queue, s`nextTask, s`nextContinuation
      ensures s.Valid() && t.Task? && c.Continuation?
      ensures Between(old(s.nextTask), old(s.nextContinuation), s.nextTask, s.nextContinuation, t)
      ensures Between(old(s.nextTask), old(s.nextContinuation), s.nextTask, s.nextContinuation, c)
      ensures s.nextTask >= old(s.nextTask) && s.nextContinuation >= old(s.nextContinuation)
      ensures s.queue == old(s.queue) && s.pool == old(s.pool) + {t}
      ensures EdgesOf(s.nodes) == old(EdgesOf(s.nodes)) + {(enter, t), (t, c), (c, exit)}
    {
      hide EdgesOf, WithLink, Consistent, InPool;
      c := s.AllocateContinuation();
      t := s.AddTask(Some(enter), Some(c));
      s.AddLink(c, exit);
    }

    /** Set up all operators; their nodes are also stored under their numbers. */
    method AddOperators(s: Scheduler, enter: NodeId, exit: NodeId)
      returns (tasks: seq<NodeId>, conts: seq<NodeId>, slotTasks: seq<NodeId>, slotConts: seq<NodeId>)
      requires s.Valid() && s.Allocated(enter) && s.Allocated(exit) && enter.Continuation? && exit.Continuation?
      requires forall k :: 0 <= k < |operators| ==> operators[k].index < |operators|
      modifies s`nodes, s`pool, s`queue, s`nextTask, s`nextContinuation
      ensures s.Valid() && |tasks| == |operators|
      ensures Minted(old(s.nextTask), old(s.nextContinuation), s.nextTask, s.nextContinuation, tasks, conts)
      ensures s.nextTask >= old(s.nextTask) && s.nextContinuation >= old(s.nextContinuation)
      ensures s.queue == old(s.queue) && s.pool == old(s.pool) + SetOf(tasks)
      ensures EdgesOf(s.nodes) == old(EdgesOf(s.nodes)) + OperatorEdges(enter, exit, tasks, conts)
      ensures Stored(operators, |operators|, tasks, slotTasks) && Stored(operators, |operators|, conts, slotConts)
    {
      hide EdgesOf, WithLink, Consistent, InPool, Minted, SetOf, OperatorEdges, Stored;
      var n := |operators|;
      tasks, conts := [], [];
      slotTasks, slotConts := seq(n, _ => Task(0)), seq(n, _ => Continuation(0));
      NothingYet(s.nextTask, s.nextContinuation, enter, exit, operators, slotTasks);
      NothingYet(s.nextTask, s.nextContinuation, enter, exit, operators, slotConts);
      ghost var t0, c0 := s.nextTask, s.nextContinuation;
      for k := 0 to n
        invariant s.Valid() && |tasks| == |conts| == k && |slotTasks| == |slotConts| == n
        invariant Minted(t0, c0, s.nextTask, s.nextContinuation, tasks, conts)
        invariant s.nextTask >= t0 && s.nextContinuation >= c0
        invariant s.queue == old(s.queue) && s.pool == old(s.pool) + SetOf(tasks)
        invariant EdgesOf(s.nodes) == old(EdgesOf(s.nodes)) + OperatorEdges(enter, exit, tasks, conts)
        invariant Stored(operators, k, tasks, slotTasks) && Stored(operators, k, conts, slotConts)
      {
        var op := operators[k];
        ghost var t1, c1 := s.nextTask, s.nextContinuation;
        var t, c := SetUpOperator(s, enter, exit);
        SetOfOneMore(tasks, t);
        MintedGrows(t0, c0, t1, c1, tasks, conts, s.nextTask, s.nextContinuation, t, c);
        OperatorEdgesGrow(enter, exit, tasks, conts, t, c);
        StoreOne(operators, k, tasks, slotTasks, t);
        StoreOne(operators, k, conts, slotConts, c);
        tasks, conts := tasks + [t], conts + [c];
        slotTasks, slotConts := slotTasks[op.index := t], slotConts[op.index := c];
      }
    }

    method LinkProducer(s: Scheduler, p: NodeId, slotTasks: seq<NodeId>, consumers: set<nat>)
      requires s.Valid() && (consumers != {} ==> s.Allocated(p))
      requires forall q :: q in consumers ==> q < |slotTasks| && s.Allocated(slotTasks[q]) && slotTasks[q] in s.pool
      modifies s`nodes
      ensures s.Valid() && EdgesOf(s.nodes) == old(EdgesOf(s.nodes)) + set q | q in consumers :: (p, slotTasks[q])
    {
      hide EdgesOf, WithLink, Consistent, InPool;
      var todo := consumers;
      while todo != {}
        invariant s.Valid() && todo <= consumers
        invariant EdgesOf(s.nodes) == old(EdgesOf(s.nodes)) + set q | q in consumers - todo :: (p, slotTasks[q])
        decreases |todo|
      {
        var q :| q in todo;
        s.AddLink(p, slotTasks[q]);
        todo := todo - {q};
      }
    }

    /** Every consumer waits for the continuation of each of its producers. */
    method LinkOperators(s: Scheduler, slotTasks: seq<NodeId>, slotConts: seq<NodeId>)
      requires s.Valid() && |slotTasks| == |slotConts| && forall p :: p in dependents ==> p < |slotConts|
      requires forall l :: l in LinksOf(dependents) ==> l.0 < |slotConts| && l.1 < |slotTasks|
      requires forall l :: l in LinksOf(dependents) ==> s.Allocated(slotConts[l.0]) && s.Allocated(slotTasks[l.1]) && slotTasks[l.1] in s.pool
      modifies s`nodes
      ensures s.Valid() && EdgesOf(s.nodes) == old(EdgesOf(s.nodes)) + LinkEdges(slotTasks, slotConts, LinksOf(dependents))
    {
      hide EdgesOf, WithLink, Consistent, InPool, LinksOf, LinkEdges;
      var producers := dependents.Keys;
      ghost var n, seen: set<(nat, nat)> := |slotTasks|, {};
      LinksKnown(dependents, n);
      NoLinks(slotTasks, slotConts);
      assert dependents - producers == map[];
      while producers != {}
        invariant s.Valid() && producers <= dependents.Keys
        invariant seen == LinksOf(dependents - producers)
        invariant forall l :: l in seen ==> l.0 < n && l.1 < n
        invariant EdgesOf(s.nodes) == old(EdgesOf(s.nodes)) + LinkEdges(slotTasks, slotConts, seen)
        decreases |producers|
      {
        var p :| p in producers;
        LinksHave(dependents, p);
        assert dependents[p] != {} ==> s.Allocated(slotConts[p]) by {
          if dependents[p] != {} {
            var q :| q in dependents[p];
            assert (p, q) in LinksOf(dependents);
          }
        }
        LinkProducer(s, slotConts[p], slotTasks, dependents[p]);
        LinksGrow(slotTasks, slotConts, seen, dependents, producers, p);
        producers := producers - {p};
        seen := seen + set q | q in dependents[p] :: (p, q);
      }
      assert dependents - producers == dependents;
    }

    /** Everything but the start: the graph of the plan, held back by `enter`. */
    method Prepare(s: Scheduler, continuation: Option<NodeId>)
      returns (enter: NodeId, exit: NodeId, tasks: seq<NodeId>, conts: seq<NodeId>, closing: NodeId)
      requires s.Valid() && Resolvable()
      requires continuation.Some? ==> s.Allocated(continuation.value) && (continuation.value.Task? ==> continuation.value in s.pool)
      modifies s`nodes, s`pool, s`queue, s`nextTask, s`nextContinuation
      ensures s.Valid() && |tasks| == |operators|
      ensures NewPlan(old(s.nextTask), old(s.nextContinuation), enter, exit, tasks, conts, closing)
      ensures EdgesOf(s.nodes) == old(EdgesOf(s.nodes)) + PlanEdges(enter, exit, closing, continuation, tasks, conts, Resolved(operators, LinksOf(dependents)))
      ensures s.queue == old(s.queue) && s.pool == old(s.pool) + SetOf(tasks) + {closing}
    {
      hide EdgesOf, WithLink, Consistent, InPool, OperatorEdges, LinkEdges, LinksOf, Minted, NewPlan, SetOf, Resolved, Held, Stored;
      ghost var t0, c0 := s.nextTask, s.nextContinuation;
      enter := s.AllocateContinuation();
      exit := s.AllocateContinuation();
      ghost var t1, c1 := s.nextTask, s.nextContinuation;
      var slotTasks, slotConts;
      tasks, conts, slotTasks, slotConts := AddOperators(s, enter, exit);
      MintedAllocated(t1, c1, s, tasks, conts);
      StoredSizes(operators, tasks, slotTasks);
      StoredSizes(operators, conts, slotConts);
      ResolvedEdges(operators, LinksOf(dependents), tasks, conts, slotTasks, slotConts);
      LinkOperators(s, slotTasks, slotConts);
      ghost var t2, c2 := s.nextTask, s.nextContinuation;
      closing := s.AddTask(Some(exit), continuation);
      MintedNew(t0, c0, t1, c1, t2, c2, enter, exit, tasks, conts, closing);
    }

    /**
     Translate the plan into the scheduler's graph and start it. Exactly the operators nobody feeds become
     ready; everything else waits, the closing task for all continuations.
     */
    method Execute(s: Scheduler, continuation: Option<NodeId>)
      returns (enter: NodeId, exit: NodeId, tasks: seq<NodeId>, conts: seq<NodeId>, closing: NodeId, ghost ready: seq<NodeId>)
      requires s.Valid() && Resolvable()
      requires continuation.Some? ==> s.Allocated(continuation.value) && (continuation.value.Task? ==> continuation.value in s.pool)
      modifies s`nodes, s`pool, s`queue, s`nextTask, s`nextContinuation
      ensures s.Valid() && |tasks| == |operators|
      ensures NewPlan(old(s.nextTask), old(s.nextContinuation), enter, exit, tasks, conts, closing)
      ensures EdgesOf(s.nodes) == old(EdgesOf(s.nodes))
           + Surviving(PlanEdges(enter, exit, closing, continuation, tasks, conts, Resolved(operators, LinksOf(dependents))), {enter})
      ensures s.queue == old(s.queue) + ready && s.pool == old(s.pool) + SetOf(tasks) + {closing} - SetOf(ready)
      ensures Distinct(ready) && forall x :: x in ready <==> exists q :: 0 <= q < |tasks| && Source(Resolved(operators, LinksOf(dependents)), q) && x == tasks[q]
      ensures Numbered() && Closed() ==> Resolved(operators, LinksOf(dependents)) == LinksOf(dependents)
    {
      hide EdgesOf, Consistent, InPool, PlanEdges, LinksOf, Resolved, FireEffect, Into, Surviving, SetOf, Source;
      ghost var t0, c0, E0 := s.nextTask, s.nextContinuation, EdgesOf(s.nodes);
      OldEdges(s);
      enter, exit, tasks, conts, closing := Prepare(s, continuation);
      ghost var links, before := Resolved(operators, LinksOf(dependents)), s.nodes;
      if Numbered() && Closed() {
        NumberedResolves(operators, LinksOf(dependents));
      }
      NothingEnters(t0, c0, E0, enter, exit, closing, continuation, tasks, conts, links);
      EntryCount(before, enter);
      ghost var fired;
      fired, ready := s.ProcessDependents(enter);
      if enter in before {
        EnterFires(t0, c0, E0, enter, exit, closing, continuation, tasks, conts, links, before, s.nodes, fired, ready);
      } else {
        NotEntered(t0, c0, E0, enter, exit, closing, continuation, tasks, conts, links, before);
      }
    }
  }

  lemma NothingYet(t: nat, c: nat, enter: NodeId, exit: NodeId, operators: seq<Operator>, slots: seq<NodeId>)
    requires |slots| == |operators|
    ensures Minted(t, c, t, c, [], []) && SetOf([]) == {} && OperatorEdges(enter, exit, [], []) == {} && Stored(operators, 0, [], slots)
  {
  }

  lemma StoredSizes(operators: seq<Operator>, nodes: seq<NodeId>, slots: seq<NodeId>)
    requires Stored(operators, |operators|, nodes, slots)
    ensures |slots| == |operators| == |nodes|
  {
  }

  lemma SetOfOneMore(s: seq<NodeId>, x: NodeId)
    ensures SetOf(s + [x]) == SetOf(s) + {x}
  {
    SetOfAppend(s, [x]);
  }

  lemma LinksHave(dependents: map<nat, set<nat>>, p: nat)
    requires p in dependents
    ensures forall q :: q in dependents[p] ==> (p, q) in LinksOf(dependents)
  {
  }

  lemma LinksKnown(dependents: map<nat, set<nat>>, n: nat)
    requires forall l :: l in LinksOf(dependents) ==> l.0 < n && l.1 < n
    ensures forall p, q :: p in dependents && q in dependents[p] ==> p < n && q < n
  {
    forall p, q | p in dependents && q in dependents[p]
      ensures p < n && q < n
    {
      assert (p, q) in LinksOf(dependents);
    }
  }

  lemma NoLinks(tasks: seq<NodeId>, conts: seq<NodeId>)
    ensures LinkEdges(tasks, conts, {}) == {} && LinksOf(map[]) == {}
  {
  }

  lemma LinksGrow(tasks: seq<NodeId>, conts: seq<NodeId>, seen: set<(nat, nat)>, dependents: map<nat, set<nat>>,
                  producers: set<nat>, p: nat)
    requires p in producers && p in dependents && p < |conts| && forall q :: q in dependents[p] ==> q < |tasks|
    requires forall l :: l in seen ==> l.0 < |conts| && l.1 < |tasks|
    requires seen == LinksOf(dependents - producers)
    ensures var more := set q | q in dependents[p] :: (p, q);
            && seen + more == LinksOf(dependents - (producers - {p}))
            && LinkEdges(tasks, conts, seen + more) == LinkEdges(tasks, conts, seen) + set q | q in dependents[p] :: (conts[p], tasks[q])
  {
    var more := set q | q in dependents[p] :: (p, q);
    forall q | q in dependents[p]
      ensures (conts[p], tasks[q]) in LinkEdges(tasks, conts, seen + more)
    {
      assert (p, q) in seen + more;
    }
    var rest := dependents - (producers - {p});
    forall l
      ensures l in seen + more <==> l in LinksOf(rest)
    {
      assert l in LinksOf(rest) <==> l.0 in rest && l.1 in rest[l.0];
    }
  }

  /** All nodes of a plan are new, and no two of them are the same. */
  ghost predicate NewPlan(t: nat, c: nat, enter: NodeId, exit: NodeId, tasks: seq<NodeId>, conts: seq<NodeId>, closing: NodeId) {
    && enter.Continuation? && exit.Continuation? && closing.Task? && enter != exit
    && Fresh(t, c, enter) && Fresh(t, c, exit) && Fresh(t, c, closing)
    && |tasks| == |conts| && Distinct(tasks) && Distinct(conts)
    && (forall k :: 0 <= k < |tasks| ==> tasks[k].Task? && Fresh(t, c, tasks[k]) && tasks[k] != closing)
    && (forall k :: 0 <= k < |conts| ==> conts[k].Continuation? && Fresh(t, c, conts[k]) && conts[k] != enter && conts[k] != exit)
  }

  lemma MintedNew(t0: nat, c0: nat, t1: nat, c1: nat, t2: nat, c2: nat, enter: NodeId, exit: NodeId,
                  tasks: seq<NodeId>, conts: seq<NodeId>, closing: NodeId)
    requires Minted(t1, c1, t2, c2, tasks, conts) && t0 <= t1 <= t2 && c0 <= c1
    requires enter.Continuation? && exit.Continuation? && enter != exit && Between(t0, c0, t1, c1, enter) && Between(t0, c0, t1, c1, exit)
    requires closing.Task? && t2 <= closing.id
    ensures NewPlan(t0, c0, enter, exit, tasks, conts, closing)
  {
  }

  lemma MintedAllocated(t: nat, c: nat, s: Scheduler, tasks: seq<NodeId>, conts: seq<NodeId>)
    requires Minted(t, c, s.nextTask, s.nextContinuation, tasks, conts)
    ensures |tasks| == |conts| && forall x :: x in tasks || x in conts ==> s.Allocated(x)
    ensures forall x :: x in tasks ==> x in SetOf(tasks)
  {
  }

  /** None of the edges touches a node handed out later. */
  ghost predicate Plain(t: nat, c: nat, E: set<Edge>) {
    forall e :: e in E ==> !Fresh(t, c, e.0) && !Fresh(t, c, e.1)
  }

  lemma OldEdges(s: Scheduler)
    requires s.Valid()
    ensures Plain(s.nextTask, s.nextContinuation, EdgesOf(s.nodes))
  {
  }

  lemma EntryCount(nodes: Nodes, enter: NodeId)
    requires Consistent(nodes) && Into(EdgesOf(nodes), enter) == {}
    ensures enter in nodes ==> nodes[enter].count == 0
  {
    hide EdgesOf, Into;
  }

  /** Where an edge of a started plan can lead, and from where. */
  lemma PlanEdgeIn(enter: NodeId, exit: NodeId, closing: NodeId, continuation: Option<NodeId>,
                   tasks: seq<NodeId>, conts: seq<NodeId>, links: set<(nat, nat)>, e: Edge)
    requires |tasks| == |conts| && forall l :: l in links ==> l.0 < |conts| && l.1 < |tasks|
    ensures e in PlanEdges(enter, exit, closing, continuation, tasks, conts, links) <==>
            || (exists k :: 0 <= k < |tasks| && (e == (enter, tasks[k]) || e == (tasks[k], conts[k]) || e == (conts[k], exit)))
            || (exists l :: l in links && e == (conts[l.0], tasks[l.1]))
            || e == (exit, closing) || (continuation.Some? && e == (closing, continuation.value))
  {
    hide OperatorEdges;
    OperatorEdgeIn(enter, exit, tasks, conts, e);
  }

  lemma NothingEnters(t: nat, c: nat, E0: set<Edge>, enter: NodeId, exit: NodeId, closing: NodeId, continuation: Option<NodeId>,
                      tasks: seq<NodeId>, conts: seq<NodeId>, links: set<(nat, nat)>)
    requires NewPlan(t, c, enter, exit, tasks, conts, closing) && Plain(t, c, E0)
    requires continuation.Some? ==> !Fresh(t, c, continuation.value)
    requires forall l :: l in links ==> l.0 < |conts| && l.1 < |tasks|
    ensures Into(E0 + PlanEdges(enter, exit, closing, continuation, tasks, conts, links), enter) == {}
  {
    hide PlanEdges;
    forall e | e in E0 + PlanEdges(enter, exit, closing, continuation, tasks, conts, links)
      ensures e.1 != enter
    {
      PlanEdgeIn(enter, exit, closing, continuation, tasks, conts, links, e);
    }
  }

  /** `enter` leads to the operators' tasks and nowhere else. */
  lemma FromEnter(t: nat, c: nat, E0: set<Edge>, enter: NodeId, exit: NodeId, closing: NodeId, continuation: Option<NodeId>,
                  tasks: seq<NodeId>, conts: seq<NodeId>, links: set<(nat, nat)>, x: NodeId)
    requires NewPlan(t, c, enter, exit, tasks, conts, closing) && Plain(t, c, E0)
    requires continuation.Some? ==> !Fresh(t, c, continuation.value)
    requires forall l :: l in links ==> l.0 < |conts| && l.1 < |tasks|
    ensures (enter, x) in E0 + PlanEdges(enter, exit, closing, continuation, tasks, conts, links) <==> x in tasks
  {
    hide PlanEdges;
    PlanEdgeIn(enter, exit, closing, continuation, tasks, conts, links, (enter, x));
  }

  /** An operator's task waits for `enter` and for its producers. */
  lemma IntoTask(t: nat, c: nat, E0: set<Edge>, enter: NodeId, exit: NodeId, closing: NodeId, continuation: Option<NodeId>,
                 tasks: seq<NodeId>, conts: seq<NodeId>, links: set<(nat, nat)>, q: nat)
    requires NewPlan(t, c, enter, exit, tasks, conts, closing) && Plain(t, c, E0) && q < |tasks|
    requires continuation.Some? ==> !Fresh(t, c, continuation.value)
    requires forall l :: l in links ==> l.0 < |conts| && l.1 < |tasks|
    ensures var E := E0 + PlanEdges(enter, exit, closing, continuation, tasks, conts, links);
            enter in Into(E, tasks[q]) && (Into(E, tasks[q]) <= {enter} <==> Source(links, q))
  {
    hide PlanEdges;
    var E := E0 + PlanEdges(enter, exit, closing, continuation, tasks, conts, links);
    FromEnter(t, c, E0, enter, exit, closing, continuation, tasks, conts, links, tasks[q]);
    assert (enter, tasks[q]) in E;
    if Source(links, q) {
      forall m | m in Into(E, tasks[q])
        ensures m == enter
      {
        PlanEdgeIn(enter, exit, closing, continuation, tasks, conts, links, (m, tasks[q]));
        if l :| l in links && (m, tasks[q]) == (conts[l.0], tasks[l.1]) {
          assert false;
        }
      }
    } else {
      var l :| l in links && l.1 == q;
      PlanEdgeIn(enter, exit, closing, continuation, tasks, conts, links, (conts[l.0], tasks[l.1]));
      assert (conts[l.0], tasks[q]) in E;
      assert conts[l.0] in Into(E, tasks[q]);
    }
  }

  /** Firing `enter` fires nothing else, and releases exactly the operators nobody feeds. */
  lemma EnterFires(t: nat, c: nat, E0: set<Edge>, enter: NodeId, exit: NodeId, closing: NodeId, continuation: Option<NodeId>,
                   tasks: seq<NodeId>, conts: seq<NodeId>, links: set<(nat, nat)>,
                   nodes: Nodes, nodes': Nodes, fired: seq<NodeId>, ready: seq<NodeId>)
    requires NewPlan(t, c, enter, exit, tasks, conts, closing) && Plain(t, c, E0)
    requires continuation.Some? ==> !Fresh(t, c, continuation.value)
    requires forall l :: l in links ==> l.0 < |conts| && l.1 < |tasks|
    requires EdgesOf(nodes) == E0 + PlanEdges(enter, exit, closing, continuation, tasks, conts, links) && Consistent(nodes)
    requires FireEffect(nodes, EdgesOf(nodes), enter, nodes', fired, ready)
    ensures fired == [enter]
    ensures Distinct(ready) && forall x :: x in ready <==> exists q :: 0 <= q < |tasks| && Source(links, q) && x == tasks[q]
    ensures EdgesOf(nodes') == E0 + Surviving(PlanEdges(enter, exit, closing, continuation, tasks, conts, links), {enter})
  {
    hide PlanEdges, NewPlan, Plain, EdgesOf, Into, Counted, Source, Surviving;
    var E := EdgesOf(nodes);
    if |fired| > 1 {
      assert fired[..1] == [enter] && SetOf([enter]) == {enter};
      var x := fired[1];
      IntoOnly(E, enter, x);
      FromEnter(t, c, E0, enter, exit, closing, continuation, tasks, conts, links, x);
      TasksAreTasks(t, c, enter, exit, tasks, conts, closing);
      assert false;
    }
    assert fired == [enter] && SetOf(fired) == {enter};
    forall x
      ensures x in ready <==> exists q :: 0 <= q < |tasks| && Source(links, q) && x == tasks[q]
    {
      ReadyIff(t, c, E0, enter, exit, closing, continuation, tasks, conts, links, nodes, x);
    }
    SurvivingEdges(nodes, nodes', {enter});
    TasksAreTasks(t, c, enter, exit, tasks, conts, closing);
    PlainSurvives(t, c, E0, enter, exit, tasks, conts, closing, PlanEdges(enter, exit, closing, continuation, tasks, conts, links));
  }

  /** An entry that was never linked holds nothing back: the plan is empty. */
  lemma NotEntered(t: nat, c: nat, E0: set<Edge>, enter: NodeId, exit: NodeId, closing: NodeId, continuation: Option<NodeId>,
                   tasks: seq<NodeId>, conts: seq<NodeId>, links: set<(nat, nat)>, nodes: Nodes)
    requires NewPlan(t, c, enter, exit, tasks, conts, closing) && Plain(t, c, E0)
    requires continuation.Some? ==> !Fresh(t, c, continuation.value)
    requires forall l :: l in links ==> l.0 < |conts| && l.1 < |tasks|
    requires EdgesOf(nodes) == E0 + PlanEdges(enter, exit, closing, continuation, tasks, conts, links) && enter !in nodes
    ensures tasks == []
    ensures var P := PlanEdges(enter, exit, closing, continuation, tasks, conts, links); Surviving(P, {enter}) == P
  {
    hide PlanEdges;
    if tasks != [] {
      FromEnter(t, c, E0, enter, exit, closing, continuation, tasks, conts, links, tasks[0]);
      assert false;
    }
    var P := PlanEdges(enter, exit, closing, continuation, tasks, conts, links);
    assert forall e :: e in P ==> e in EdgesOf(nodes);
  }

  /**
   With the edges of the plan, edges that were there before, and whatever operators spawn on their continuations,
   the plan is linked and private as the theorem about its end needs it.
   */
  lemma PlanEdgesPrivate(t: nat, c: nat, E0: set<Edge>, spawned: set<Edge>, enter: NodeId, exit: NodeId, closing: NodeId,
                         continuation: Option<NodeId>, tasks: seq<NodeId>, conts: seq<NodeId>, links: set<(nat, nat)>)
    requires NewPlan(t, c, enter, exit, tasks, conts, closing) && Plain(t, c, E0)
    requires continuation.Some? ==> !Fresh(t, c, continuation.value)
    requires forall l :: l in links ==> l.0 < |conts| && l.1 < |tasks|
    requires forall e :: e in spawned ==> e.1 in conts
    ensures var all := E0 + PlanEdges(enter, exit, closing, continuation, tasks, conts, links) + spawned;
            && PlanLinked(all, tasks, conts, links, exit, closing) && PlanPrivate(all, enter, tasks, conts, links, exit, closing)
            && forall k :: 0 <= k < |tasks| ==> (enter, tasks[k]) in all
  {
    hide PlanEdges, PlanLinked;
    var P := PlanEdges(enter, exit, closing, continuation, tasks, conts, links);
    var all := E0 + P + spawned;
    PlanEdgesLink(all, enter, exit, closing, continuation, tasks, conts, links);
    forall e | e in all
      ensures forall q :: 0 <= q < |tasks| && e.1 == tasks[q] ==> e.0 == enter || Producer(tasks, conts, links, e.0, q)
      ensures e.1 == exit ==> e.0 in conts
      ensures e.1 == closing ==> e.0 == exit
    {
      EdgeInto(t, c, E0, spawned, enter, exit, closing, continuation, tasks, conts, links, e);
    }
    forall k | 0 <= k < |tasks|
      ensures (enter, tasks[k]) in all
    {
      FromEnter(t, c, E0, enter, exit, closing, continuation, tasks, conts, links, tasks[k]);
    }
  }

  lemma EdgeInto(t: nat, c: nat, E0: set<Edge>, spawned: set<Edge>, enter: NodeId, exit: NodeId, closing: NodeId,
                 continuation: Option<NodeId>, tasks: seq<NodeId>, conts: seq<NodeId>, links: set<(nat, nat)>, e: Edge)
    requires NewPlan(t, c, enter, exit, tasks, conts, closing) && Plain(t, c, E0)
    requires continuation.Some? ==> !Fresh(t, c, continuation.value)
    requires forall l :: l in links ==> l.0 < |conts| && l.1 < |tasks|
    requires forall e :: e in spawned ==> e.1 in conts
    requires e in E0 + PlanEdges(enter, exit, closing, continuation, tasks, conts, links) + spawned
    ensures forall q :: 0 <= q < |tasks| && e.1 == tasks[q] ==> e.0 == enter || Producer(tasks, conts, links, e.0, q)
    ensures e.1 == exit ==> e.0 in conts
    ensures e.1 == closing ==> e.0 == exit
  {
    hide PlanEdges;
    PlanEdgeIn(enter, exit, closing, continuation, tasks, conts, links, e);
    if e in E0 || e in spawned {
    } else if l :| l in links && e == (conts[l.0], tasks[l.1]) {
      forall q | 0 <= q < |tasks| && e.1 == tasks[q]
        ensures Producer(tasks, conts, links, e.0, q)
      {
        assert q == l.1 && (l.0, q) in links;
      }
    }
  }

  /** The closing task is held by `exit`, which waits for one continuation per operator. A plan without
      operators therefore leaves `exit` with nothing to wait for and nobody to fire it: the closing task stays. */
  lemma ExitWaits(t: nat, c: nat, E0: set<Edge>, enter: NodeId, exit: NodeId, closing: NodeId, continuation: Option<NodeId>,
                  tasks: seq<NodeId>, conts: seq<NodeId>, links: set<(nat, nat)>, nodes: Nodes)
    requires NewPlan(t, c, enter, exit, tasks, conts, closing) && Plain(t, c, E0)
    requires continuation.Some? ==> !Fresh(t, c, continuation.value)
    requires forall l :: l in links ==> l.0 < |conts| && l.1 < |tasks|
    requires EdgesOf(nodes) == E0 + Surviving(PlanEdges(enter, exit, closing, continuation, tasks, conts, links), {enter})
    requires Consistent(nodes)
    ensures Into(EdgesOf(nodes), closing) == {exit} && Into(EdgesOf(nodes), exit) == SetOf(conts)
    ensures exit in nodes && (nodes[exit].count == 0 <==> tasks == [])
  {
    hide PlanEdges, EdgesOf, Counted;
    var E, P := EdgesOf(nodes), PlanEdges(enter, exit, closing, continuation, tasks, conts, links);
    forall m
      ensures m in Into(E, closing) <==> m == exit
    {
      PlanEdgeIn(enter, exit, closing, continuation, tasks, conts, links, (m, closing));
      assert m in Into(E, closing) <==> (m, closing) in E;
    }
    forall m
      ensures m in Into(E, exit) <==> m in SetOf(conts)
    {
      PlanEdgeIn(enter, exit, closing, continuation, tasks, conts, links, (m, exit));
      assert m in Into(E, exit) <==> (m, exit) in E;
    }
    PlanEdgeIn(enter, exit, closing, continuation, tasks, conts, links, (exit, closing));
    ExitKnown(nodes, exit, closing);
    assert conts != [] ==> conts[0] in SetOf(conts);
  }

  lemma ExitKnown(nodes: Nodes, exit: NodeId, closing: NodeId)
    requires Consistent(nodes) && (exit, closing) in EdgesOf(nodes)
    ensures exit in nodes && nodes[exit].count == |Into(EdgesOf(nodes), exit)|
  {
  }

  lemma IntoOnly(E: set<Edge>, n: NodeId, x: NodeId)
    requires Into(E, x) != {} && Into(E, x) <= {n}
    ensures (n, x) in E
  {
    var m :| m in Into(E, x);
  }

  lemma TasksAreTasks(t: nat, c: nat, enter: NodeId, exit: NodeId, tasks: seq<NodeId>, conts: seq<NodeId>, closing: NodeId)
    requires NewPlan(t, c, enter, exit, tasks, conts, closing)
    ensures |tasks| == |conts| && forall x :: x in tasks ==> x.Task?
  {
  }

  lemma PlainSurvives(t: nat, c: nat, E0: set<Edge>, enter: NodeId, exit: NodeId, tasks: seq<NodeId>, conts: seq<NodeId>,
                      closing: NodeId, P: set<Edge>)
    requires NewPlan(t, c, enter, exit, tasks, conts, closing) && Plain(t, c, E0)
    ensures Surviving(E0 + P, {enter}) == E0 + Surviving(P, {enter})
  {
  }

  lemma ReadyIff(t: nat, c: nat, E0: set<Edge>, enter: NodeId, exit: NodeId, closing: NodeId, continuation: Option<NodeId>,
                 tasks: seq<NodeId>, conts: seq<NodeId>, links: set<(nat, nat)>, nodes: Nodes, x: NodeId)
    requires NewPlan(t, c, enter, exit, tasks, conts, closing) && Plain(t, c, E0)
    requires continuation.Some? ==> !Fresh(t, c, continuation.value)
    requires forall l :: l in links ==> l.0 < |conts| && l.1 < |tasks|
    requires EdgesOf(nodes) == E0 + PlanEdges(enter, exit, closing, continuation, tasks, conts, links) && Consistent(nodes)
    ensures (x.Task? && x in nodes && x != enter && Into(EdgesOf(nodes), x) != {} && Into(EdgesOf(nodes), x) <= {enter})
       <==> exists q :: 0 <= q < |tasks| && Source(links, q) && x == tasks[q]
  {
    hide PlanEdges, Plain, EdgesOf, Into, Source, Counted;
    var E := EdgesOf(nodes);
    if q :| 0 <= q < |tasks| && Source(links, q) && x == tasks[q] {
      IntoTask(t, c, E0, enter, exit, closing, continuation, tasks, conts, links, q);
      FromEnter(t, c, E0, enter, exit, closing, continuation, tasks, conts, links, x);
      WaiterKnown(nodes, enter, x);
    }
    if Into(E, x) != {} && Into(E, x) <= {enter} {
      IntoOnly(E, enter, x);
      FromEnter(t, c, E0, enter, exit, closing, continuation, tasks, conts, links, x);
      var q :| 0 <= q < |tasks| && tasks[q] == x;
      IntoTask(t, c, E0, enter, exit, closing, continuation, tasks, conts, links, q);
    }
  }

  // ---------- Chains ----------

  ghost function ChainEdges(tasks: seq<NodeId>, conts: seq<NodeId>, continuation: Option<NodeId>): set<Edge>
    requires |tasks| == |conts| + 1
  {
    if conts == [] then TaskEdges(None, tasks[0], continuation)
    else {(tasks[0], conts[0]), (conts[0], tasks[1])} + ChainEdges(tasks[1..], conts[1..], continuation)
  }

  /** The edges of a chain are the ones its ordering theorem speaks about. */
  lemma {:induction false} ChainEdgesLink(all: set<Edge>, tasks: seq<NodeId>, conts: seq<NodeId>, continuation: Option<NodeId>)
    requires |tasks| == |conts| + 1 && ChainEdges(tasks, conts, continuation) <= all
    ensures ChainLinked(all, tasks, conts)
    ensures continuation.Some? ==> (tasks[|tasks| - 1], continuation.value) in all
  {
    if conts != [] {
      ChainEdgesLink(all, tasks[1..], conts[1..], continuation);
      forall k | 0 <= k < |conts|
        ensures (tasks[k], conts[k]) in all && (conts[k], tasks[k + 1]) in all
      {
        assert k > 0 ==> tasks[1..][k - 1] == tasks[k] && conts[1..][k - 1] == conts[k] && tasks[1..][k] == tasks[k + 1];
      }
    }
  }

  /** The nodes of a chain are new; they were handed out from the last to the first, below `t'` and `c'`. */
  ghost predicate NewChain(t: nat, c: nat, t': nat, c': nat, tasks: seq<NodeId>, conts: seq<NodeId>) {
    && (forall k :: 0 <= k < |tasks| ==> tasks[k].Task? && t <= tasks[k].id < t')
    && (forall k :: 0 <= k < |conts| ==> conts[k].Continuation? && c <= conts[k].id < c')
    && (forall j, k :: 0 <= j < k < |tasks| ==> tasks[j].id > tasks[k].id)
    && (forall j, k :: 0 <= j < k < |conts| ==> conts[j].id > conts[k].id)
  }

  lemma ChainGrows(t: nat, c: nat, t': nat, c': nat, tasks: seq<NodeId>, conts: seq<NodeId>, x: NodeId, d: NodeId, continuation: Option<NodeId>)
    requires NewChain(t, c, t', c', tasks, conts) && |tasks| == |conts| + 1
    requires x.Task? && d.Continuation? && t <= t' == x.id && c <= c' <= d.id
    ensures NewChain(t, c, t' + 1, d.id + 1, [x] + tasks, [d] + conts)
    ensures ChainEdges([x] + tasks, [d] + conts, continuation)
         == ChainEdges(tasks, conts, continuation) + {(d, tasks[0])} + TaskEdges(None, x, Some(d))
    ensures SetOf([x] + tasks) == SetOf(tasks) + {x} && ([x] + tasks)[1..] == tasks
  {
    SetOfAppend([x], tasks);
    assert ([d] + conts)[1..] == conts;
  }

  lemma ChainStarts(t: nat, c: nat, x: NodeId, continuation: Option<NodeId>)
    requires x.Task? && t == x.id
    ensures NewChain(t, c, t + 1, c, [x], []) && ChainEdges([x], [], continuation) == TaskEdges(None, x, continuation)
    ensures SetOf([x]) == {x} && SetOf([]) == {} && [x][1..] == []
  {
  }

  /** Add one task of a chain: the first task of the chain is ready, any other waits for a new continuation. */
  method ChainStep(s: Scheduler, first: bool, dependent: Option<NodeId>) returns (t: NodeId, dependency: Option<NodeId>)
    requires s.Valid()
    requires dependent.Some? ==> s.Allocated(dependent.value) && (dependent.value.Task? ==> dependent.value in s.pool)
    modifies s`nodes, s`pool, s`queue, s`nextTask, s`nextContinuation
    ensures s.Valid() && t == Task(old(s.nextTask)) && s.nextTask == t.id + 1
    ensures if first then dependency.None? && s.nextContinuation == old(s.nextContinuation)
            else dependency == Some(Continuation(old(s.nextContinuation))) && s.nextContinuation == old(s.nextContinuation) + 1
    ensures EdgesOf(s.nodes) == old(EdgesOf(s.nodes)) + TaskEdges(dependency, t, dependent)
    ensures s.queue == old(s.queue) + (if first then [t] else [])
    ensures s.pool == old(s.pool) + (if first then {} else {t})
  {
    hide EdgesOf, WithLink, Consistent, InPool;
    dependency := None;
    if !first {
      var c := s.AllocateContinuation();
      dependency := Some(c);
    }
    t := s.AddTask(dependency, dependent);
  }

  /**
   Spawn `n` tasks that run one after the other and then release `continuation`. They are added from the
   last to the first, so the chain is complete before its first task becomes ready.
   */
  method RunChain(s: Scheduler, n: nat, continuation: Option<NodeId>) returns (tasks: seq<NodeId>, conts: seq<NodeId>)
    requires s.Valid()
    requires continuation.Some? ==> s.Allocated(continuation.value) && (continuation.value.Task? ==> continuation.value in s.pool)
    modifies s`nodes, s`pool, s`queue, s`nextTask, s`nextContinuation
    ensures s.Valid() && |tasks| == n && NewChain(old(s.nextTask), old(s.nextContinuation), s.nextTask, s.nextContinuation, tasks, conts)
    ensures n == 0 ==> EdgesOf(s.nodes) == old(EdgesOf(s.nodes)) && s.queue == old(s.queue) && s.pool == old(s.pool)
    ensures n > 0 ==> |conts| == n - 1 && EdgesOf(s.nodes) == old(EdgesOf(s.nodes)) + ChainEdges(tasks, conts, continuation)
    ensures n > 0 ==> s.queue == old(s.queue) + [tasks[0]] && s.pool == old(s.pool) + SetOf(tasks[1..])
  {
    hide EdgesOf, Consistent, InPool, NewChain, ChainEdges, SetOf;
    ghost var t0, c0, E0 := s.nextTask, s.nextContinuation, EdgesOf(s.nodes);
    var dependent := continuation;
    tasks, conts := [], [];
    assert NewChain(t0, c0, t0, c0, [], []) by { NoChain(t0, c0); }
    for i := 0 to n
      invariant 0 < i < n ==> c0 < s.nextContinuation && dependent == Some(Continuation(s.nextContinuation - 1))
      invariant s.Valid() && |tasks| == i && NewChain(t0, c0, s.nextTask, s.nextContinuation - (if 0 < i < n then 1 else 0), tasks, conts)
      invariant t0 <= s.nextTask && c0 <= s.nextContinuation && |conts| == (if i == 0 then 0 else i - 1)
      invariant i == 0 ==> dependent == continuation && EdgesOf(s.nodes) == E0 && s.pool == old(s.pool) && s.nextContinuation == c0 && s.nextTask == t0
      invariant 0 < i < n ==> EdgesOf(s.nodes) == E0 + ChainEdges(tasks, conts, continuation) + {(dependent.value, tasks[0])}
      invariant 0 < i == n ==> EdgesOf(s.nodes) == E0 + ChainEdges(tasks, conts, continuation)
      invariant s.queue == old(s.queue) + (if 0 < i == n then [tasks[0]] else [])
      invariant 0 < i ==> s.pool == old(s.pool) + SetOf(if i < n then tasks else tasks[1..])
    {
      ghost var t1, c1 := s.nextTask, s.nextContinuation;
      var t, dependency := ChainStep(s, i == n - 1, dependent);
      if i == 0 {
        ChainStarts(t1, c1, t, continuation);
        tasks := [t];
      } else {
        ChainGrows(t0, c0, t1, c1 - 1, tasks, conts, t, dependent.value, continuation);
        tasks, conts := [t] + tasks, [dependent.value] + conts;
      }
      dependent := dependency;
    }
  }

  lemma NoChain(t: nat, c: nat)
    ensures NewChain(t, c, t, c, [], [])
  {
  }
}
