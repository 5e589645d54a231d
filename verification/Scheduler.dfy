/**
 The scheduler object: the graph, the pool of deferred tasks, the ready queue and the idle workers,
 with the operations clients and the message loop perform on them.
 */
module Scheduler {
  import opened Counting
  import opened TaskGraph
  import opened SchedulerMachine
  import opened Wrappers

  function Lesser(a: nat, b: nat): (c: nat)
    ensures c <= a && c <= b && (c == a || c == b)
  {
    if a <= b then a else b
  }

  /** The links a new task comes with. */
  ghost function TaskEdges(dependency: Option<NodeId>, t: NodeId, dependent: Option<NodeId>): set<Edge> {
    (if dependency.Some? then {(dependency.value, t)} else {}) + (if dependent.Some? then {(t, dependent.value)} else {})
  }

  class Scheduler {
    var nodes: Nodes
    var pool: set<NodeId>
    var queue: seq<NodeId>
    var idle: seq<nat>
    var sent: seq<(nat, NodeId)>
    var nextTask: nat
    var nextContinuation: nat

    /** Identifiers in use lie below the counters, counts are exact, and whoever waits is in the pool. */
    ghost predicate Valid()
      reads this
    {
      && Consistent(nodes)
      && InPool(nodes, EdgesOf(nodes), pool)
      && (forall x :: x in nodes || x in pool ==> Allocated(x))
    }

    ghost predicate Allocated(x: NodeId)
      reads this
    {
      if x.Task? then x.id < nextTask else x.id < nextContinuation
    }

    constructor (workers: nat)
      ensures Valid() && nodes == map[] && pool == {} && queue == [] && sent == [] && |idle| == workers
      ensures forall i :: 0 <= i < workers ==> idle[i] == i
    {
      nodes, pool, queue, sent := map[], {}, [], [];
      idle := seq(workers, i => i);
      nextTask, nextContinuation := 1, 1;
      new;
      assert EdgesOf(nodes) == {};
    }

    method AllocateContinuation() returns (c: NodeId)
      requires Valid()
      modifies this`nextContinuation
      ensures Valid() && c.Continuation? && !old(Allocated(c)) && Allocated(c)
      ensures nextContinuation == old(nextContinuation) + 1
    {
      c := Continuation(nextContinuation);
      nextContinuation := nextContinuation + 1;
    }

    /** Record a link between two nodes, creating them if needed. */
    method AddLinkUnsafe(d: NodeId, x: NodeId)
      modifies this`nodes
      ensures nodes == WithLink(old(nodes), d, x)
    {
      if d !in nodes {
        nodes := nodes[d := Node({}, 0)];
      }
      if x !in nodes[d].dependents {
        nodes := nodes[d := nodes[d].(dependents := nodes[d].dependents + {x})];
        if x !in nodes {
          nodes := nodes[x := Node({}, 0)];
        }
        nodes := nodes[x := nodes[x].(count := nodes[x].count + 1)];
      }
    }

    /**
     Fire `n`. `E` are the edges still to be served and `busy` the nodes in the middle of being fired.
     Terminates on every graph: each recursive call has one edge less to serve.
     */
    method ProcessDependentsUnsafe(n: NodeId, ghost E: set<Edge>, ghost busy: set<NodeId>)
      returns (ghost fired: seq<NodeId>, ghost tasks: seq<NodeId>)
      requires Counted(nodes, E) && n in nodes && Into(E, n) == {}
      requires Untouched(nodes, E, busy) && n !in busy
      requires InPool(nodes, E, pool)
      modifies this`nodes, this`pool, this`queue
      ensures FireEffect(old(nodes), E, n, nodes, fired, tasks)
      ensures queue == old(queue) + tasks && pool == old(pool) - SetOf(tasks)
      decreases E
    {
      hide Counted, Untouched, Into, Midway, FireEffect;
      var todo := nodes[n].dependents;
      ghost var served: set<NodeId> := {};
      ghost var F := E;
      fired, tasks := [n], [];
      MidwayStarts(nodes, E, n, busy);
      while todo != {}
        invariant Midway(old(nodes), E, n, busy, served, fired, tasks, nodes, F)
        invariant served + todo == old(nodes[n].dependents) && served !! todo
        invariant queue == old(queue) + tasks && pool == old(pool) - SetOf(tasks)
        decreases |todo|
      {
        var x :| x in todo;
        todo := todo - {x};
        ghost var before := nodes;
        Unserved(old(nodes), E, n, busy, served, fired, tasks, nodes, F, x, old(pool));
        nodes := nodes[x := nodes[x].(count := nodes[x].count - 1)];
        if nodes[x].count == 0 {
          if x.Task? {
            ServeTask(old(nodes), E, n, busy, served, fired, tasks, before, F, x);
            assert x in pool;
            pool := pool - {x};
            queue := queue + [x];
            tasks := tasks + [x];
            F := F - {(n, x)};
          } else {
            PooledStill(old(nodes), E, n, busy, served, fired, tasks, before, F, x, old(pool));
            ghost var fired2, tasks2 := ProcessDependentsUnsafe(x, F - {(n, x)}, busy + {n});
            ServeContinuation(old(nodes), E, n, busy, served, fired, tasks, before, F, x, nodes, fired2, tasks2);
            SetOfAppend(tasks, tasks2);
            fired, tasks := fired + fired2, tasks + tasks2;
            F := Surviving(F - {(n, x)}, SetOf(fired2));
          }
        } else {
          ServeLeaves(old(nodes), E, n, busy, served, fired, tasks, before, F, x);
          F := F - {(n, x)};
        }
        served := served + {x};
      }
      MidwayEnds(old(nodes), E, n, busy, served, fired, tasks, nodes, F);
      nodes := nodes - {n};
    }

    /** Link two nodes; the dependent must not have been released yet. */
    method AddLink(d: NodeId, x: NodeId)
      requires Valid() && Allocated(d) && Allocated(x) && (x.Task? ==> x in pool)
      modifies this`nodes
      ensures Valid() && nodes == WithLink(old(nodes), d, x)
      ensures EdgesOf(nodes) == old(EdgesOf(nodes)) + {(d, x)}
    {
      hide WithLink, InPool, Consistent;
      LinkKeepsConsistent(nodes, d, x);
      LinkAddsEdge(nodes, d, x);
      LinkInPool(nodes, d, x, pool);
      AddLinkUnsafe(d, x);
    }

    /**
     Add a task. Without a dependency it is ready at once; with one it goes to the pool until released.
     Its dependent, if any, will wait for it.
     */
    method AddTask(dependency: Option<NodeId>, dependent: Option<NodeId>) returns (t: NodeId)
      requires Valid()
      requires dependent.Some? ==> Allocated(dependent.value) && (dependent.value.Task? ==> dependent.value in pool)
      requires dependency.Some? ==> Allocated(dependency.value)
      modifies this`nodes, this`pool, this`queue, this`nextTask
      ensures Valid() && t.Task? && !old(Allocated(t)) && Allocated(t) && nextTask == old(nextTask) + 1
      ensures dependency.None? ==> nodes == Depend(old(nodes), t, dependent) && queue == old(queue) + [t] && pool == old(pool)
      ensures dependency.Some? ==> nodes == WithLink(Depend(old(nodes), t, dependent), dependency.value, t)
      ensures dependency.Some? ==> queue == old(queue) && pool == old(pool) + {t}
      ensures EdgesOf(nodes) == old(EdgesOf(nodes)) + TaskEdges(dependency, t, dependent)
    {
      hide WithLink, InPool, Consistent, EdgesOf;
      t := Task(nextTask);
      nextTask := nextTask + 1;
      if dependent.Some? {
        AddLink(t, dependent.value);
      }
      if dependency.None? {
        queue := queue + [t];
      } else {
        PoolGrows(nodes, EdgesOf(nodes), pool, t);
        pool := pool + {t};
        AddLink(dependency.value, t);
      }
    }

    /** Fire a node, if it was ever linked to anything. */
    method ProcessDependents(n: NodeId) returns (ghost fired: seq<NodeId>, ghost tasks: seq<NodeId>)
      requires Valid() && (n in nodes ==> nodes[n].count == 0)
      modifies this`nodes, this`pool, this`queue
      ensures Valid()
      ensures n in old(nodes) ==> FireEffect(old(nodes), EdgesOf(old(nodes)), n, nodes, fired, tasks)
      ensures n !in old(nodes) ==> nodes == old(nodes) && tasks == []
      ensures queue == old(queue) + tasks && pool == old(pool) - SetOf(tasks)
    {
      hide InPool, FireEffect, Counted;
      fired, tasks := [], [];
      if n in nodes {
        CountZero(nodes, n);
        AllOpen(nodes);
        fired, tasks := ProcessDependentsUnsafe(n, EdgesOf(nodes), {});
        FireKeepsPool(old(nodes), n, nodes, fired, tasks, old(pool));
      }
    }

    /** Hand ready tasks, oldest first, to the idle workers on top of the stack until one of the two runs out. */
    method ProcessTaskQueue()
      modifies this`queue, this`idle, this`sent
      ensures var k := Lesser(|old(queue)|, |old(idle)|);
              && queue == old(queue)[k..] && idle == old(idle)[..|old(idle)| - k]
              && |sent| == |old(sent)| + k && sent[..|old(sent)|] == old(sent)
              && forall i :: 0 <= i < k ==> sent[|old(sent)| + i] == (old(idle)[|old(idle)| - 1 - i], old(queue)[i])
    {
      ghost var j: nat := 0;
      while idle != [] && queue != []
        invariant j <= |old(queue)| && j <= |old(idle)|
        invariant queue == old(queue)[j..] && idle == old(idle)[..|old(idle)| - j]
        invariant |sent| == |old(sent)| + j && sent[..|old(sent)|] == old(sent)
        invariant forall i :: 0 <= i < j ==> sent[|old(sent)| + i] == (old(idle)[|old(idle)| - 1 - i], old(queue)[i])
        decreases |idle|
      {
        var task, worker := queue[0], idle[|idle| - 1];
        queue := queue[1..];
        idle := idle[..|idle| - 1];
        sent := sent + [(worker, task)];
        j := j + 1;
      }
    }
  }

  lemma LinkInPool(nodes: Nodes, d: NodeId, x: NodeId, pool: set<NodeId>)
    requires Consistent(nodes) && InPool(nodes, EdgesOf(nodes), pool) && (x.Task? ==> x in pool)
    ensures InPool(WithLink(nodes, d, x), EdgesOf(WithLink(nodes, d, x)), pool)
  {
    hide WithLink, EdgesOf, Into, Consistent;
    LinkAddsEdge(nodes, d, x);
    forall y | y in WithLink(nodes, d, x) && y.Task? && Into(EdgesOf(WithLink(nodes, d, x)), y) != {}
      ensures y in pool
    {
      IntoGrows(EdgesOf(nodes), (d, x), y);
      if y !in nodes {
        NoEdgeInto(nodes, y);
      }
    }
  }

  lemma PoolGrows(nodes: Nodes, E: set<Edge>, pool: set<NodeId>, t: NodeId)
    requires InPool(nodes, E, pool)
    ensures InPool(nodes, E, pool + {t})
  {
  }

  lemma AllOpen(nodes: Nodes)
    ensures Untouched(nodes, EdgesOf(nodes), {})
  {
  }

  lemma FireKeepsPool(nodes: Nodes, n: NodeId, nodes': Nodes, fired: seq<NodeId>, tasks: seq<NodeId>, pool: set<NodeId>)
    requires FireEffect(nodes, EdgesOf(nodes), n, nodes', fired, tasks) && InPool(nodes, EdgesOf(nodes), pool)
    ensures Consistent(nodes') && InPool(nodes', EdgesOf(nodes'), pool - SetOf(tasks))
    ensures nodes'.Keys <= nodes.Keys
  {
    hide EdgesOf, Into, Counted, FiringOrder, FiringComplete, TaskGraph.Released, Surviving;
    SurvivingEdges(nodes, nodes', SetOf(fired));
    forall y | y in nodes' && y.Task? && Into(EdgesOf(nodes'), y) != {}
      ensures y in pool - SetOf(tasks)
    {
      IntoReleased(nodes, EdgesOf(nodes), fired, tasks, y);
    }
  }

  // ---------- The object performs the steps of the machine ----------

  /** The object's graph and pool are those of a machine state. */
  ghost predicate Mirrors(nodes: Nodes, pool: set<NodeId>, s: State) {
    nodes == s.nodes && forall t :: t in pool <==> t in s.stage && s.stage[t].Pooled?
  }

  /** Firing a continuation as the object does is a step of the machine: every task it releases was in the pool. */
  lemma FireIsAStep(nodes: Nodes, pool: set<NodeId>, s: State, c: NodeId, nodes': Nodes, fired: seq<NodeId>, tasks: seq<NodeId>)
    requires Mirrors(nodes, pool, s) && InPool(nodes, EdgesOf(nodes), pool) && c.Continuation? && c in nodes && nodes[c].count == 0
    requires FireEffect(nodes, EdgesOf(nodes), c, nodes', fired, tasks)
    ensures var s' := s.(nodes := nodes', finished := s.finished + SetOf(fired), stage := Restaged(s.stage, tasks, Handing));
            ClientNext(s, Fire(c, fired, tasks), s') && Mirrors(nodes', pool - SetOf(tasks), s')
  {
    hide FireEffect, InPool, EdgesOf;
    ReleasedFromPool(nodes, pool, c, nodes', fired, tasks);
  }

  /** So is what the object does for a completed task, linked or not, in the message loop. */
  lemma CompletionIsAStep(W: nat, nodes: Nodes, pool: set<NodeId>, s: State, w: nat, t: NodeId, nodes': Nodes, fired: seq<NodeId>, tasks: seq<NodeId>)
    requires Mirrors(nodes, pool, s) && InPool(nodes, EdgesOf(nodes), pool)
    requires s.pc.Waiting? && s.msgs != [] && s.msgs[0] == Completion(w, t) && t in s.stage && s.stage[t].Running?
    requires if t in nodes then FireEffect(nodes, EdgesOf(nodes), t, nodes', fired, tasks) else nodes' == nodes && fired == [t] && tasks == []
    ensures var s' := s.(msgs := s.msgs[1..], nodes := nodes', finished := s.finished + SetOf(fired),
                         stage := Restaged(s.stage, tasks, Own)[t := Done], busy := s.busy - {w}, pc := Enqueuing(w));
            Next(W, s, Complete(w, t, fired, tasks), s') && Mirrors(nodes', pool - SetOf(tasks), s')
  {
    hide FireEffect, InPool, EdgesOf;
    if t in nodes {
      ReleasedFromPool(nodes, pool, t, nodes', fired, tasks);
    }
  }

  lemma ReleasedFromPool(nodes: Nodes, pool: set<NodeId>, n: NodeId, nodes': Nodes, fired: seq<NodeId>, tasks: seq<NodeId>)
    requires InPool(nodes, EdgesOf(nodes), pool) && FireEffect(nodes, EdgesOf(nodes), n, nodes', fired, tasks)
    ensures forall t :: t in tasks ==> t in pool
  {
    hide EdgesOf, Into, FiringOrder, FiringComplete, Counted;
  }

  /** A deferred task is two steps of the machine: its links, then its entry in the pool. */
  lemma DeferredIsTwoSteps(nodes: Nodes, pool: set<NodeId>, s: State, t: NodeId, d: NodeId, dependent: Option<NodeId>)
    requires Mirrors(nodes, pool, s) && t.Task? && t !in s.stage && MayHold(s, d) && (dependent.Some? ==> MayWait(s, dependent.value))
    ensures var nodes' := WithLink(Depend(nodes, t, dependent), d, t);
            var s1 := s.(nodes := nodes', all := DependEdge(s.all, t, dependent) + {(d, t)}, stage := s.stage[t := Registering]);
            var s2 := s1.(stage := s1.stage[t := Pooled]);
            && ClientNext(s, AddDeferred(t, d, dependent), s1) && ClientNext(s1, Register(t), s2)
            && Mirrors(nodes', pool + {t}, s2)
  {
    hide WithLink;
  }

  ghost predicate Executes(busy: map<nat, Job>, w: nat, t: NodeId) {
    w in busy && busy[w] == Executing(t)
  }

  /** The `i`-th worker from the top of the stack executes the `i`-th ready task, for the first `k`; the others go on. */
  ghost predicate Employed(queue: seq<NodeId>, idle: seq<nat>, k: nat, busy: map<nat, Job>, busy': map<nat, Job>)
    requires k <= |queue| && k <= |idle|
  {
    && (forall i :: 0 <= i < k ==> Executes(busy', idle[|idle| - 1 - i], queue[i]))
    && (forall w :: w !in idle[|idle| - k..] ==> (w in busy' <==> w in busy) && (w in busy ==> busy'[w] == busy[w]))
  }

  ghost predicate Started(queue: seq<NodeId>, idle: seq<nat>, k: nat, stage: map<NodeId, Stage>, stage': map<NodeId, Stage>)
    requires k <= |queue| && k <= |idle|
  {
    && (forall i :: 0 <= i < k ==> queue[i] in stage' && stage'[queue[i]] == Running(idle[|idle| - 1 - i]))
    && (forall t :: t !in queue[..k] ==> (t in stage' <==> t in stage) && (t in stage ==> stage'[t] == stage[t]))
  }

  /** `s'` is `s` after its first `k` ready tasks went to the `k` workers on top of its stack. */
  ghost predicate HandedOut(s: State, k: nat, s': State)
    requires k <= |s.queue| && k <= |s.idle|
  {
    && s' == s.(queue := s.queue[k..], idle := s.idle[..|s.idle| - k], log := s.log + s.queue[..k], busy := s'.busy, stage := s'.stage)
    && Employed(s.queue, s.idle, k, s.busy, s'.busy) && Started(s.queue, s.idle, k, s.stage, s'.stage)
  }

  lemma EmployOne(queue: seq<NodeId>, idle: seq<nat>, k: nat, busy: map<nat, Job>, busy': map<nat, Job>)
    requires k < |queue| && k < |idle| && Distinct(idle) && Employed(queue, idle, k, busy, busy')
    ensures Employed(queue, idle, k + 1, busy, busy'[idle[|idle| - 1 - k] := Executing(queue[k])])
  {
    var v := idle[|idle| - 1 - k];
    var busy'' := busy'[v := Executing(queue[k])];
    assert idle[|idle| - (k + 1)..] == [v] + idle[|idle| - k..];
    forall i | 0 <= i < k + 1
      ensures Executes(busy'', idle[|idle| - 1 - i], queue[i])
    {
      assert i < k ==> idle[|idle| - 1 - i] != v && Executes(busy', idle[|idle| - 1 - i], queue[i]);
    }
    forall w | w !in idle[|idle| - (k + 1)..]
      ensures (w in busy'' <==> w in busy) && (w in busy ==> busy''[w] == busy[w])
    {
      assert w != v && w !in idle[|idle| - k..];
    }
  }

  lemma StartOne(queue: seq<NodeId>, idle: seq<nat>, k: nat, stage: map<NodeId, Stage>, stage': map<NodeId, Stage>)
    requires k < |queue| && k < |idle| && Distinct(queue) && Started(queue, idle, k, stage, stage')
    ensures Started(queue, idle, k + 1, stage, stage'[queue[k] := Running(idle[|idle| - 1 - k])])
  {
    assert queue[..k + 1] == queue[..k] + [queue[k]];
  }

  lemma HandOutOne(W: nat, s: State, k: nat, r: State) returns (s': State)
    requires k < |s.queue| && k < |s.idle| && s.pc.Dispatching? && Distinct(s.queue) && Distinct(s.idle)
    requires HandedOut(s, k, r)
    ensures Next(W, r, Dispatch, s') && HandedOut(s, k + 1, s')
  {
    hide Employed, Started, Distinct;
    var w, t := r.idle[|r.idle| - 1], r.queue[0];
    assert w == s.idle[|s.idle| - 1 - k] && t == s.queue[k];
    s' := r.(idle := r.idle[..|r.idle| - 1], queue := r.queue[1..], busy := r.busy[w := Executing(t)],
             stage := r.stage[t := Running(w)], log := r.log + [t]);
    EmployOne(s.queue, s.idle, k, s.busy, r.busy);
    StartOne(s.queue, s.idle, k, s.stage, r.stage);
    assert r.log + [t] == s.log + s.queue[..k + 1];
  }

  lemma HandOutNone(s: State)
    ensures HandedOut(s, 0, s)
  {
    assert s.log + s.queue[..0] == s.log;
    assert s.idle[..|s.idle|] == s.idle;
  }

  lemma {:induction false} HandOutMany(W: nat, s: State, k: nat) returns (states: seq<State>)
    requires k <= |s.queue| && k <= |s.idle| && s.pc.Dispatching? && Distinct(s.queue) && Distinct(s.idle)
    ensures |states| == k + 1 && states[0] == s && HandedOut(s, k, states[k])
    ensures forall i :: 0 <= i < k ==> Next(W, states[i], Dispatch, states[i + 1])
  {
    hide HandedOut, Next, Distinct;
    if k == 0 {
      states := [s];
      HandOutNone(s);
    } else {
      var before := HandOutMany(W, s, k - 1);
      var s' := HandOutOne(W, s, k - 1, before[k - 1]);
      states := before + [s'];
    }
  }

  /**
   The dispatch loop of the object is, from every machine state with its queue and its idle workers, as many
   `Dispatch` steps as it hands out tasks, followed by `EndDispatch`; the machine then has its queue and idle workers,
   and each worker executes the task it was sent.
   */
  lemma DispatchIsSteps(W: nat, s: State, queue: seq<NodeId>, idle: seq<nat>, given: seq<(nat, NodeId)>) returns (states: seq<State>)
    requires Inv(W, s) && s.pc.Dispatching?
    requires var k := Lesser(|s.queue|, |s.idle|);
             && queue == s.queue[k..] && idle == s.idle[..|s.idle| - k] && |given| == k
             && forall i :: 0 <= i < k ==> given[i] == (s.idle[|s.idle| - 1 - i], s.queue[i])
    ensures |states| == |given| + 2 && states[0] == s
    ensures forall i :: 0 <= i < |given| ==> Next(W, states[i], Dispatch, states[i + 1])
    ensures Next(W, states[|given|], EndDispatch, states[|given| + 1])
    ensures var s' := states[|given| + 1];
            && s'.queue == queue && s'.idle == idle && s'.pc == Deciding && s'.nodes == s.nodes && s'.msgs == s.msgs
            && s'.log == s.log + s.queue[..|given|]
            && forall i :: 0 <= i < |given| ==> Executes(s'.busy, given[i].0, given[i].1)
  {
    assert Distinct(s.queue) && Distinct(s.idle);
    hide Inv, Distinct, Started, HandedOut, Employed;
    var k := |given|;
    var before := HandOutMany(W, s, k);
    HandedOutFields(s, k, before[k]);
    states := before + [before[k].(pc := Deciding)];
  }

  lemma HandedOutFields(s: State, k: nat, s': State)
    requires k <= |s.queue| && k <= |s.idle| && HandedOut(s, k, s')
    ensures s' == s.(queue := s.queue[k..], idle := s.idle[..|s.idle| - k], log := s.log + s.queue[..k], busy := s'.busy, stage := s'.stage)
    ensures forall i :: 0 <= i < k ==> Executes(s'.busy, s.idle[|s.idle| - 1 - i], s.queue[i])
  {
  }
}
