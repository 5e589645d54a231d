/**
 What the scheduler guarantees to the clients that build graphs on it: operator plans and task chains.
 Everything here speaks about arbitrary runs, in which any other client may interleave.
 */
module PlanOrder {
  import opened Counting
  import opened TaskGraph
  import opened SchedulerMachine
  import opened Wrappers

  // ---------- The obligations of a client are met ----------

  /** While a node that `x` waits for is unfinished, `x` may still be linked to. */
  lemma SpawnAllowed(W: nat, s: State, d: NodeId, x: NodeId)
    requires Inv(W, s) && (d, x) in s.all && d !in s.finished
    ensures MayWait(s, x)
  {
    hide HeldInv, DoneInv, QueueInv, LogInv, WorkerInv, MsgInv, OwnInv, LoopInv;
    if IsReleased(s.stage, s.finished, x) {
      DirectDependency(W, s, d, x);
    }
    WaiterKnown(s.nodes, d, x);
  }

  lemma WaiterKnown(nodes: Nodes, d: NodeId, x: NodeId)
    requires Consistent(nodes)
    ensures (d, x) in EdgesOf(nodes) ==> x in nodes
  {
  }

  /** A continuation nobody links to finishes only by being fired itself. */
  lemma StepHoldsEntry(W: nat, s: State, a: Action, s': State, c: NodeId)
    requires Inv(W, s) && Next(W, s, a, s') && c.Continuation? && c !in s.finished
    requires forall e :: e in s.all ==> e.1 != c
    requires !(a.Fire? && a.entry == c)
    ensures c !in s'.finished
  {
    hide WithLink, FireEffect, HeldInv, DoneInv, QueueInv, LogInv, WorkerInv, MsgInv, OwnInv, LoopInv;
    if a.Fire? {
      EntryUnfired(s, a.entry, a.fired, a.tasks, s'.nodes, c);
    } else if a.Complete? {
      CompletesTask(W, s, a.worker, a.task);
      EntryUnfired(s, a.task, a.fired, a.tasks, s'.nodes, c);
    }
  }

  lemma CompletesTask(W: nat, s: State, w: nat, t: NodeId)
    requires Inv(W, s) && s.msgs != [] && s.msgs[0] == Completion(w, t)
    ensures t.Task?
  {
    hide GraphInv, HeldInv;
  }

  lemma EntryUnfired(s: State, n: NodeId, fired: seq<NodeId>, tasks: seq<NodeId>, nodes': Nodes, c: NodeId)
    requires Fires(s, n, fired, tasks, nodes') && n != c
    requires GraphInv(s.nodes, s.all, s.finished, s.stage) && forall e :: e in s.all ==> e.1 != c
    ensures c !in SetOf(fired)
  {
    hide FiringComplete, TaskGraph.Released, Counted;
    assert Into(EdgesOf(s.nodes), c) == {};
  }

  lemma {:induction false} EntryHolds(W: nat, states: seq<State>, actions: seq<Action>, c: NodeId, i: nat, j: nat)
    requires 0 < W && Run(W, states, actions) && i <= j < |states| && c.Continuation? && c !in states[i].finished
    requires forall e :: e in states[j].all ==> e.1 != c
    requires forall k :: i <= k < j ==> !(actions[k].Fire? && actions[k].entry == c)
    ensures c !in states[j].finished
    decreases j - i
  {
    hide Inv, Next, Init;
    if i < j {
      RunLater(W, states, actions, j - 1, j);
      RunKeeps(W, states, actions, j - 1);
      EntryHolds(W, states, actions, c, i, j - 1);
      StepHoldsEntry(W, states[j - 1], actions[j - 1], states[j], c);
    }
  }

  /**
   From the moment a task is deferred on a private entry continuation until that continuation is fired,
   whatever else happens: it may be linked to, and no firing of anything else releases it. So the gap
   between linking a deferred task and storing it in the pool is harmless.
   */
  lemma DeferredIsSafe(W: nat, states: seq<State>, actions: seq<Action>, entry: NodeId, t: NodeId, i: nat, j: nat,
                       n: NodeId, fired: seq<NodeId>, tasks: seq<NodeId>, nodes': Nodes)
    requires 0 < W && Run(W, states, actions) && i <= j < |states| && entry.Continuation? && entry !in states[i].finished
    requires (entry, t) in states[i].all && forall e :: e in states[j].all ==> e.1 != entry
    requires forall k :: i <= k < j ==> !(actions[k].Fire? && actions[k].entry == entry)
    ensures MayWait(states[j], t)
    ensures n in states[j].nodes && n != entry && FireEffect(states[j].nodes, EdgesOf(states[j].nodes), n, nodes', fired, tasks)
            ==> t !in tasks
  {
    hide Next, Init, FireEffect, HeldInv, DoneInv, QueueInv, LogInv, WorkerInv, MsgInv, OwnInv, LoopInv;
    var s := states[j];
    RunLater(W, states, actions, i, j);
    RunKeeps(W, states, actions, j);
    EntryHolds(W, states, actions, entry, i, j);
    SpawnAllowed(W, s, entry, t);
    if n in s.nodes && n != entry && FireEffect(s.nodes, EdgesOf(s.nodes), n, nodes', fired, tasks) {
      HeldBack(s, entry, t, n, fired, tasks, nodes');
    }
  }

  lemma HeldBack(s: State, entry: NodeId, t: NodeId, n: NodeId, fired: seq<NodeId>, tasks: seq<NodeId>, nodes': Nodes)
    requires GraphInv(s.nodes, s.all, s.finished, s.stage) && entry !in s.finished && (entry, t) in s.all && n != entry
    requires (forall e :: e in s.all ==> e.1 != entry)
    requires FireEffect(s.nodes, EdgesOf(s.nodes), n, nodes', fired, tasks)
    ensures t !in tasks
  {
    hide FiringComplete, Counted;
    assert Into(EdgesOf(s.nodes), entry) == {};
    assert entry !in SetOf(fired);
    IntoWithout(EdgesOf(s.nodes), entry, t, t);
  }

  /**
   Whatever a firing releases was waiting, and everything it waited for fires with it. So the only way to release a task
   that is not in the pool yet is to fire all its dependencies while it is being added.
   */
  lemma ReleasedWereWaiting(W: nat, s: State, n: NodeId, fired: seq<NodeId>, tasks: seq<NodeId>, nodes': Nodes, t: NodeId)
    requires Inv(W, s) && n in s.nodes && FireEffect(s.nodes, EdgesOf(s.nodes), n, nodes', fired, tasks) && t in tasks
    ensures t in s.stage && (s.stage[t].Pooled? || s.stage[t].Registering?)
    ensures forall d :: (d, t) in EdgesOf(s.nodes) ==> d in fired
  {
    hide HeldInv, DoneInv, QueueInv, LogInv, WorkerInv, MsgInv, OwnInv, LoopInv, FiringOrder, FiringComplete, Counted;
    forall d | (d, t) in EdgesOf(s.nodes)
      ensures d in fired
    {
      IntoWithout(EdgesOf(s.nodes), d, t, t);
    }
    assert !IsReleased(s.stage, s.finished, t);
  }

  // ---------- Nothing runs too early ----------

  /** If `x` is released at moment `i`, whatever it ever waits for directly has finished by then. */
  lemma DirectlyBefore(W: nat, states: seq<State>, actions: seq<Action>, i: nat, j: nat, d: NodeId, x: NodeId)
    requires 0 < W && Run(W, states, actions) && i <= j < |states|
    requires (d, x) in states[j].all && IsReleased(states[i].stage, states[i].finished, x)
    ensures d in states[i].finished && IsReleased(states[i].stage, states[i].finished, d)
  {
    hide Inv, IsReleased, Next, Init;
    RunKeeps(W, states, actions, i);
    ReleasedOnlyAfterAllDependencies(W, states, actions, i, j, [d, x]);
    FinishedIsReleased(W, states[i], d);
  }

  /** The links an operator plan adds: `tasks[k]` runs operator `k`, `conts[k]` ends it. */
  ghost predicate PlanLinked(all: set<Edge>, tasks: seq<NodeId>, conts: seq<NodeId>, links: set<(nat, nat)>, exit: NodeId, closing: NodeId) {
    && |tasks| == |conts|
    && (forall k :: 0 <= k < |tasks| ==> (tasks[k], conts[k]) in all)
    && (forall k :: 0 <= k < |tasks| ==> (conts[k], exit) in all)
    && (forall l :: l in links ==> l.0 < |tasks| && l.1 < |tasks| && (conts[l.0], tasks[l.1]) in all)
    && (exit, closing) in all
  }

  /** Operators linked one after the other. */
  ghost predicate Pipeline(links: set<(nat, nat)>, n: nat, ops: seq<nat>) {
    |ops| > 0 && (forall k :: 0 <= k < |ops| ==> ops[k] < n) && forall k :: 0 <= k < |ops| - 1 ==> (ops[k], ops[k + 1]) in links
  }

  /** Operator `k`, and everything ever spawned on its continuation, has finished. */
  ghost predicate OperatorDone(all: set<Edge>, finished: set<NodeId>, task: NodeId, cont: NodeId) {
    task in finished && cont in finished && forall e :: e in all && e.1 == cont ==> e.0 in finished
  }

  lemma OperatorEnds(W: nat, states: seq<State>, actions: seq<Action>, i: nat, j: nat, task: NodeId, cont: NodeId)
    requires 0 < W && Run(W, states, actions) && i <= j < |states|
    requires (task, cont) in states[j].all && cont in states[i].finished && cont.Continuation?
    ensures OperatorDone(states[j].all, states[i].finished, task, cont)
  {
    hide Run;
    forall e | e in states[j].all && e.1 == cont
      ensures e.0 in states[i].finished
    {
      DirectlyBefore(W, states, actions, i, j, e.0, cont);
    }
    DirectlyBefore(W, states, actions, i, j, task, cont);
  }

  /** No operator starts before every operator upstream of it, with all spawned subtasks, has finished. */
  lemma {:induction false} ConsumerWaits(W: nat, states: seq<State>, actions: seq<Action>, i: nat, j: nat,
                                         tasks: seq<NodeId>, conts: seq<NodeId>, links: set<(nat, nat)>,
                                         exit: NodeId, closing: NodeId, ops: seq<nat>)
    requires 0 < W && Run(W, states, actions) && i <= j < |states|
    requires PlanLinked(states[j].all, tasks, conts, links, exit, closing) && Pipeline(links, |tasks|, ops) && |ops| > 1
    requires forall k :: 0 <= k < |conts| ==> conts[k].Continuation?
    requires IsReleased(states[i].stage, states[i].finished, tasks[ops[|ops| - 1]])
    ensures OperatorDone(states[j].all, states[i].finished, tasks[ops[0]], conts[ops[0]])
    decreases |ops|
  {
    hide Run, IsReleased, OperatorDone;
    var p, q := ops[|ops| - 2], ops[|ops| - 1];
    assert (p, q) in links;
    DirectlyBefore(W, states, actions, i, j, conts[p], tasks[q]);
    if |ops| == 2 {
      OperatorEnds(W, states, actions, i, j, tasks[p], conts[p]);
    } else {
      DirectlyBefore(W, states, actions, i, j, tasks[p], conts[p]);
      ConsumerWaits(W, states, actions, i, j, tasks, conts, links, exit, closing, ops[..|ops| - 1]);
    }
  }

  /** The closing task starts only after every operator, with all spawned subtasks, has finished. */
  lemma ClosingWaits(W: nat, states: seq<State>, actions: seq<Action>, i: nat, j: nat,
                     tasks: seq<NodeId>, conts: seq<NodeId>, links: set<(nat, nat)>, exit: NodeId, closing: NodeId, k: nat)
    requires 0 < W && Run(W, states, actions) && i <= j < |states|
    requires PlanLinked(states[j].all, tasks, conts, links, exit, closing)
    requires k < |conts| && conts[k].Continuation?
    requires IsReleased(states[i].stage, states[i].finished, closing)
    ensures OperatorDone(states[j].all, states[i].finished, tasks[k], conts[k])
  {
    hide Run, IsReleased;
    DirectlyBefore(W, states, actions, i, j, exit, closing);
    DirectlyBefore(W, states, actions, i, j, conts[k], exit);
    OperatorEnds(W, states, actions, i, j, tasks[k], conts[k]);
  }

  /** The links of a chain: a task is followed by a continuation, which releases the next task. */
  ghost predicate ChainLinked(all: set<Edge>, tasks: seq<NodeId>, conts: seq<NodeId>) {
    && |tasks| == |conts| + 1
    && forall k :: 0 <= k < |conts| ==> (tasks[k], conts[k]) in all && (conts[k], tasks[k + 1]) in all
  }

  /** A chain runs in order: a task starts only after every earlier one, with all it spawned, has finished. */
  lemma {:induction false} ChainOrder(W: nat, states: seq<State>, actions: seq<Action>, i: nat, j: nat,
                                      tasks: seq<NodeId>, conts: seq<NodeId>, p: nat, q: nat)
    requires 0 < W && Run(W, states, actions) && i <= j < |states|
    requires ChainLinked(states[j].all, tasks, conts) && p < q < |tasks|
    requires forall k :: 0 <= k < |conts| ==> conts[k].Continuation?
    requires IsReleased(states[i].stage, states[i].finished, tasks[q])
    ensures OperatorDone(states[j].all, states[i].finished, tasks[p], conts[p])
    decreases q
  {
    hide Run, IsReleased, OperatorDone;
    assert (conts[q - 1], tasks[q - 1 + 1]) in states[j].all;
    DirectlyBefore(W, states, actions, i, j, conts[q - 1], tasks[q]);
    if p == q - 1 {
      OperatorEnds(W, states, actions, i, j, tasks[p], conts[p]);
    } else {
      DirectlyBefore(W, states, actions, i, j, tasks[q - 1], conts[q - 1]);
      ChainOrder(W, states, actions, i, j, tasks, conts, p, q - 1);
    }
  }

  // ---------- Nothing is forgotten ----------

  /** Tasks that something was ever linked to were added. */
  ghost predicate Known(all: set<Edge>, stage: map<NodeId, Stage>) {
    forall e :: e in all && e.1.Task? ==> e.1 in stage
  }

  lemma StepKnown(W: nat, s: State, a: Action, s': State)
    requires Next(W, s, a, s') && Known(s.all, s.stage)
    ensures Known(s'.all, s'.stage)
  {
    hide WithLink, Fires, Depend, IsReleased;
  }

  /** A continuation that something was ever linked to stays unfired only while one of its dependencies is unfinished. */
  ghost predicate Freed(nodes: Nodes, all: set<Edge>, finished: set<NodeId>) {
    forall e :: e in all && e.1.Continuation? && e.1 !in finished ==> Into(EdgesOf(nodes), e.1) != {}
  }

  lemma LinkFreed(nodes: Nodes, all: set<Edge>, finished: set<NodeId>, d: NodeId, x: NodeId)
    requires Freed(nodes, all, finished) && Consistent(nodes)
    ensures Freed(WithLink(nodes, d, x), all + {(d, x)}, finished) && Consistent(WithLink(nodes, d, x))
  {
    hide WithLink, EdgesOf, Into, Consistent;
    LinkAddsEdge(nodes, d, x);
    LinkKeepsConsistent(nodes, d, x);
    forall e | e in all + {(d, x)} && e.1.Continuation? && e.1 !in finished
      ensures Into(EdgesOf(WithLink(nodes, d, x)), e.1) != {}
    {
      IntoGrows(EdgesOf(nodes), (d, x), e.1);
    }
  }

  lemma DependFreed(nodes: Nodes, all: set<Edge>, finished: set<NodeId>, t: NodeId, dependent: Option<NodeId>)
    requires Freed(nodes, all, finished) && Consistent(nodes)
    ensures Freed(Depend(nodes, t, dependent), DependEdge(all, t, dependent), finished) && Consistent(Depend(nodes, t, dependent))
  {
    hide WithLink, Freed, Consistent;
    if dependent.Some? {
      LinkFreed(nodes, all, finished, t, dependent.value);
    }
  }

  lemma FireFreed(s: State, n: NodeId, fired: seq<NodeId>, tasks: seq<NodeId>, nodes': Nodes)
    requires Freed(s.nodes, s.all, s.finished) && Consistent(s.nodes) && Fires(s, n, fired, tasks, nodes')
    ensures Freed(nodes', s.all, s.finished + SetOf(fired))
  {
    hide FireEffect, EdgesOf, Into, Counted, SetOf;
    if n in s.nodes {
      forall e | e in s.all && e.1.Continuation? && e.1 !in s.finished + SetOf(fired)
        ensures Into(EdgesOf(nodes'), e.1) != {}
      {
        FireFreedAt(s.nodes, n, nodes', fired, tasks, e.1);
      }
    }
  }

  lemma FireFreedAt(nodes: Nodes, n: NodeId, nodes': Nodes, fired: seq<NodeId>, tasks: seq<NodeId>, x: NodeId)
    requires Consistent(nodes) && FireEffect(nodes, EdgesOf(nodes), n, nodes', fired, tasks)
    requires x.Continuation? && x !in SetOf(fired) && Into(EdgesOf(nodes), x) != {}
    ensures Into(EdgesOf(nodes'), x) != {}
  {
    hide FiringOrder, TaskGraph.Released, EdgesOf, Into, Counted;
    SurvivingEdges(nodes, nodes', SetOf(fired));
    HeldIsNode(nodes, x);
    IntoSurviving(EdgesOf(nodes), SetOf(fired), x);
    assert !(Into(EdgesOf(nodes), x) <= SetOf(fired));
    var m :| m in Into(EdgesOf(nodes), x) && m !in SetOf(fired);
    assert m in Into(EdgesOf(nodes), x) - SetOf(fired);
  }

  lemma HeldIsNode(nodes: Nodes, x: NodeId)
    requires Consistent(nodes) && Into(EdgesOf(nodes), x) != {}
    ensures x in nodes
  {
    var m :| m in Into(EdgesOf(nodes), x);
  }

  lemma StepFreed(W: nat, s: State, a: Action, s': State)
    requires Inv(W, s) && Next(W, s, a, s') && Freed(s.nodes, s.all, s.finished)
    ensures Freed(s'.nodes, s'.all, s'.finished)
  {
    hide Freed, WithLink, Fires, HeldInv, DoneInv, QueueInv, LogInv, WorkerInv, MsgInv, OwnInv, LoopInv, EdgesOf, Into, Counted;
    match a
    case AddImmediate(t, dependent) => DependFreed(s.nodes, s.all, s.finished, t, dependent);
    case AddDeferred(t, d, dependent) =>
      DependFreed(s.nodes, s.all, s.finished, t, dependent);
      LinkFreed(Depend(s.nodes, t, dependent), DependEdge(s.all, t, dependent), s.finished, d, t);
    case AddLink(d, x) => LinkFreed(s.nodes, s.all, s.finished, d, x);
    case Fire(c, fired, tasks) => FireFreed(s, c, fired, tasks, s'.nodes);
    case Complete(w, t, fired, tasks) => FireFreed(s, t, fired, tasks, s'.nodes);
    case _ =>
  }

  lemma {:induction false} RunFreed(W: nat, states: seq<State>, actions: seq<Action>, k: nat)
    requires 0 < W && Run(W, states, actions) && k < |states|
    ensures Freed(states[k].nodes, states[k].all, states[k].finished) && Known(states[k].all, states[k].stage)
  {
    hide Inv, Next, Freed, Known;
    if k == 0 {
      assert states[0].all == {} by { assert Init(W, states[0]); }
      NothingLinked(states[0].nodes, states[0].finished, states[0].stage);
    } else {
      hide Init;
      RunFreed(W, states, actions, k - 1);
      RunKeeps(W, states, actions, k - 1);
      assert Next(W, states[k - 1], actions[k - 1], states[k - 1 + 1]);
      StepFreed(W, states[k - 1], actions[k - 1], states[k]);
      StepKnown(W, states[k - 1], actions[k - 1], states[k]);
    }
  }

  lemma NothingLinked(nodes: Nodes, finished: set<NodeId>, stage: map<NodeId, Stage>)
    ensures Freed(nodes, {}, finished) && Known({}, stage)
  {
  }

  /** All released tasks have finished: no worker, queue or thread holds one. */
  ghost predicate Quiescent(s: State) {
    forall t :: t in s.stage ==> Unreleased(s.stage[t]) || s.stage[t].Done?
  }

  /** What every state of a run satisfies. */
  ghost predicate Reached(W: nat, s: State) {
    Inv(W, s) && Freed(s.nodes, s.all, s.finished) && Known(s.all, s.stage)
  }

  lemma RunReaches(W: nat, states: seq<State>, actions: seq<Action>, k: nat)
    requires 0 < W && Run(W, states, actions) && k < |states|
    ensures Reached(W, states[k])
  {
    hide Inv, Freed, Known, Run;
    RunKeeps(W, states, actions, k);
    RunFreed(W, states, actions, k);
  }

  /** Whoever is not finished at rest, and was ever linked to, waits for something unfinished. */
  lemma StillHeld(W: nat, s: State, d: NodeId, x: NodeId) returns (h: NodeId)
    requires Reached(W, s) && Quiescent(s) && (d, x) in s.all && x !in s.finished
    ensures (h, x) in s.all && h !in s.finished
  {
    hide QueueInv, LogInv, WorkerInv, MsgInv, OwnInv, LoopInv, EdgesOf, Into, Consistent;
    assert Into(EdgesOf(s.nodes), x) != {} by { assert (d, x).1 == x; }
    h := SomeHolder(s.nodes, x);
  }

  lemma SomeHolder(nodes: Nodes, x: NodeId) returns (d: NodeId)
    requires Consistent(nodes) && Into(EdgesOf(nodes), x) != {}
    ensures (d, x) in EdgesOf(nodes) && d in nodes
  {
    d :| d in Into(EdgesOf(nodes), x);
  }

  /** Links only lead upwards: the graph is acyclic. */
  ghost predicate Ranked(all: set<Edge>, rank: NodeId -> nat) {
    forall e :: e in all ==> rank(e.0) < rank(e.1)
  }

  /** A continuation nothing was ever linked to, and that its client has not fired. */
  ghost predicate UnfiredEntry(s: State, c: NodeId) {
    c.Continuation? && c !in s.finished && forall e :: e in s.all ==> e.1 != c
  }

  /** A chain of links from `c` to `x`. */
  ghost predicate Reaches(all: set<Edge>, c: NodeId, x: NodeId, path: seq<NodeId>) {
    Path(all, path) && path[0] == c && path[|path| - 1] == x
  }

  /**
   In an acyclic graph at rest, any unfinished node is held back, through links made at some time, by an entry
   that its client has not fired. Firing all entries therefore runs everything.
   */
  lemma {:induction false} NothingIsForgotten(W: nat, s: State, rank: NodeId -> nat, x: NodeId) returns (c: NodeId, path: seq<NodeId>)
    requires Reached(W, s) && Quiescent(s) && Ranked(s.all, rank) && x !in s.finished && (x.Task? ==> x in s.stage)
    ensures UnfiredEntry(s, c) && Reaches(s.all, c, x, path)
    decreases rank(x)
  {
    hide Reached, Quiescent;
    if e :| e in s.all && e.1 == x {
      var h := StillHeld(W, s, e.0, x);
      assert rank((h, x).0) < rank((h, x).1);
      HolderAdded(W, s, h, x);
      c, path := NothingIsForgotten(W, s, rank, h);
      path := path + [x];
    } else {
      UnheldIsEntry(W, s, x);
      c, path := x, [x];
    }
  }

  /** An unfinished holder is a continuation or an added task. */
  lemma HolderAdded(W: nat, s: State, h: NodeId, x: NodeId)
    requires Reached(W, s) && (h, x) in s.all && h !in s.finished
    ensures h.Task? ==> h in s.stage
  {
    hide HeldInv, DoneInv, QueueInv, LogInv, WorkerInv, MsgInv, OwnInv, LoopInv, Into;
  }

  lemma UnheldIsEntry(W: nat, s: State, x: NodeId)
    requires Reached(W, s) && Quiescent(s) && x !in s.finished && (x.Task? ==> x in s.stage) && forall e :: e in s.all ==> e.1 != x
    ensures UnfiredEntry(s, x)
  {
    hide QueueInv, LogInv, WorkerInv, MsgInv, OwnInv, LoopInv, EdgesOf, Into, Freed, Known;
    if x.Task? {
      assert Unreleased(s.stage[x]);
      var h := SomeHolder(s.nodes, x);
      assert false;
    }
  }

  /** Once every entry has been fired, rest means that all tasks are done. */
  lemma RestMeansDone(W: nat, s: State, rank: NodeId -> nat, t: NodeId)
    requires Reached(W, s) && Quiescent(s) && Ranked(s.all, rank) && t in s.stage
    requires forall e :: e in s.all ==> !UnfiredEntry(s, e.0)
    ensures t in s.finished
  {
    hide Reached, Quiescent, UnfiredEntry;
    if t !in s.finished {
      var c, path := NothingIsForgotten(W, s, rank, t);
      FirstOnPath(W, s, t, c, path);
    }
  }

  lemma FirstOnPath(W: nat, s: State, t: NodeId, c: NodeId, path: seq<NodeId>)
    requires Reached(W, s) && t in s.stage && UnfiredEntry(s, c) && Reaches(s.all, c, t, path)
    ensures exists e :: e in s.all && e.0 == c
  {
    hide GraphInv, HeldInv, QueueInv, LogInv, WorkerInv, MsgInv, OwnInv, LoopInv, Freed, Known;
    if |path| == 1 {
      assert false;
    }
    assert (path[0], path[0 + 1]) in s.all;
  }

  // ---------- Plans come to their end ----------

  /** Everything that anybody ever links into the plan's nodes: the plan's own links, and tasks spawned on operators. */
  ghost predicate PlanPrivate(all: set<Edge>, enter: NodeId, tasks: seq<NodeId>, conts: seq<NodeId>, links: set<(nat, nat)>, exit: NodeId, closing: NodeId)
    requires |tasks| == |conts|
  {
    && (forall e, q :: e in all && 0 <= q < |tasks| && e.1 == tasks[q] ==> e.0 == enter || Producer(tasks, conts, links, e.0, q))
    && (forall e :: e in all && e.1 == exit ==> e.0 in conts)
    && (forall e :: e in all && e.1 == closing ==> e.0 == exit)
  }

  ghost predicate Producer(tasks: seq<NodeId>, conts: seq<NodeId>, links: set<(nat, nat)>, d: NodeId, q: nat)
    requires |tasks| == |conts|
  {
    exists p :: 0 <= p < |tasks| && (p, q) in links && d == conts[p]
  }

  /** What operators spawned on their continuations has finished. */
  ghost predicate SpawnedDone(all: set<Edge>, finished: set<NodeId>, tasks: seq<NodeId>, conts: seq<NodeId>)
    requires |tasks| == |conts|
  {
    forall e, k :: e in all && 0 <= k < |conts| && e.1 == conts[k] && e.0 != tasks[k] ==> e.0 in finished
  }

  /** Some operator feeds itself through others. */
  ghost predicate Cyclic(links: set<(nat, nat)>, n: nat) {
    exists ops :: Pipeline(links, n, ops) && |ops| > 1 && ops[0] == ops[|ops| - 1]
  }

  /** At rest, an unfinished operator has an unfinished producer. */
  lemma UnfinishedProducer(W: nat, s: State, enter: NodeId, tasks: seq<NodeId>, conts: seq<NodeId>, links: set<(nat, nat)>,
                           exit: NodeId, closing: NodeId, q: nat) returns (p: nat)
    requires Reached(W, s) && Quiescent(s) && PlanLinked(s.all, tasks, conts, links, exit, closing)
    requires PlanPrivate(s.all, enter, tasks, conts, links, exit, closing) && SpawnedDone(s.all, s.finished, tasks, conts)
    requires enter in s.finished && q < |tasks| && conts[q] !in s.finished && (enter, tasks[q]) in s.all
    ensures p < |tasks| && (p, q) in links && conts[p] !in s.finished
  {
    hide Reached, Quiescent;
    var h := StillHeld(W, s, tasks[q], conts[q]);
    assert h == tasks[q];
    var d := StillHeld(W, s, enter, tasks[q]);
    assert (d, tasks[q]).1 == tasks[q];
    assert Producer(tasks, conts, links, d, q);
    p :| 0 <= p < |tasks| && (p, q) in links && d == conts[p];
  }

  /** So there are pipelines of any length to an unfinished operator. */
  lemma {:induction false} LongPipeline(W: nat, s: State, enter: NodeId, tasks: seq<NodeId>, conts: seq<NodeId>, links: set<(nat, nat)>,
                                        exit: NodeId, closing: NodeId, q: nat, m: nat) returns (ops: seq<nat>)
    requires Reached(W, s) && Quiescent(s) && PlanLinked(s.all, tasks, conts, links, exit, closing)
    requires PlanPrivate(s.all, enter, tasks, conts, links, exit, closing) && SpawnedDone(s.all, s.finished, tasks, conts)
    requires enter in s.finished && q < |tasks| && conts[q] !in s.finished
    requires forall k :: 0 <= k < |tasks| ==> (enter, tasks[k]) in s.all
    ensures Pipeline(links, |tasks|, ops) && |ops| == m + 1 && conts[ops[0]] !in s.finished
    decreases m
  {
    hide Reached, Quiescent, PlanLinked, PlanPrivate, SpawnedDone;
    PlanSizes(s.all, tasks, conts, links, exit, closing);
    if m == 0 {
      ops := [q];
    } else {
      var rest := LongPipeline(W, s, enter, tasks, conts, links, exit, closing, q, m - 1);
      var p := UnfinishedProducer(W, s, enter, tasks, conts, links, exit, closing, rest[0]);
      ops := [p] + rest;
      forall k | 0 <= k < |ops| - 1
        ensures (ops[k], ops[k + 1]) in links
      {
        assert k > 0 ==> (rest[k - 1], rest[k - 1 + 1]) in links;
      }
    }
  }

  lemma PlanSizes(all: set<Edge>, tasks: seq<NodeId>, conts: seq<NodeId>, links: set<(nat, nat)>, exit: NodeId, closing: NodeId)
    requires PlanLinked(all, tasks, conts, links, exit, closing)
    ensures |tasks| == |conts|
  {
  }

  /** A pipeline longer than the plan meets some operator twice. */
  lemma LongMeansCyclic(links: set<(nat, nat)>, n: nat, ops: seq<nat>)
    requires Pipeline(links, n, ops) && |ops| > n
    ensures Cyclic(links, n)
  {
    if forall i, j :: 0 <= i < j < |ops| ==> ops[i] != ops[j] {
      DistinctSize(ops);
      BelowSize(Elements(ops), n);
      assert false;
    }
    var i, j :| 0 <= i < j < |ops| && ops[i] == ops[j];
    var round := ops[i..j + 1];
    forall k | 0 <= k < |round| - 1
      ensures (round[k], round[k + 1]) in links
    {
      assert (ops[i + k], ops[i + k + 1]) in links;
    }
    assert Pipeline(links, n, round) && round[0] == round[|round| - 1];
  }

  /** At rest, a started plan with acyclic links has finished all its operators. */
  lemma OperatorsFinish(W: nat, s: State, enter: NodeId, tasks: seq<NodeId>, conts: seq<NodeId>, links: set<(nat, nat)>,
                        exit: NodeId, closing: NodeId, q: nat)
    requires Reached(W, s) && Quiescent(s) && PlanLinked(s.all, tasks, conts, links, exit, closing)
    requires PlanPrivate(s.all, enter, tasks, conts, links, exit, closing) && SpawnedDone(s.all, s.finished, tasks, conts)
    requires enter in s.finished && q < |tasks| && !Cyclic(links, |tasks|)
    requires forall k :: 0 <= k < |tasks| ==> (enter, tasks[k]) in s.all
    ensures conts[q] in s.finished
  {
    hide Reached, Quiescent, PlanPrivate, SpawnedDone, Pipeline, Cyclic;
    if conts[q] !in s.finished {
      var ops := LongPipeline(W, s, enter, tasks, conts, links, exit, closing, q, |tasks|);
      LongMeansCyclic(links, |tasks|, ops);
    }
  }

  /** At rest, a started plan with operators and acyclic links has run its closing task. */
  lemma PlanFinishes(W: nat, s: State, enter: NodeId, tasks: seq<NodeId>, conts: seq<NodeId>, links: set<(nat, nat)>, exit: NodeId, closing: NodeId)
    requires Reached(W, s) && Quiescent(s) && PlanLinked(s.all, tasks, conts, links, exit, closing)
    requires PlanPrivate(s.all, enter, tasks, conts, links, exit, closing) && SpawnedDone(s.all, s.finished, tasks, conts)
    requires enter in s.finished && tasks != [] && !Cyclic(links, |tasks|)
    requires forall k :: 0 <= k < |tasks| ==> (enter, tasks[k]) in s.all
    ensures closing in s.finished
  {
    hide Reached, Quiescent, Cyclic;
    forall k | 0 <= k < |conts|
      ensures conts[k] in s.finished
    {
      OperatorsFinish(W, s, enter, tasks, conts, links, exit, closing, k);
    }
    if exit !in s.finished {
      var h := StillHeld(W, s, conts[0], exit);
      assert false;
    }
    if closing !in s.finished {
      var h := StillHeld(W, s, exit, closing);
      assert false;
    }
  }

  /** An operator that feeds itself never starts. */
  lemma CyclicOperator(W: nat, states: seq<State>, actions: seq<Action>, i: nat, tasks: seq<NodeId>, conts: seq<NodeId>, links: set<(nat, nat)>,
                       exit: NodeId, closing: NodeId, ops: seq<nat>)
    requires 0 < W && Run(W, states, actions) && i < |states|
    requires PlanLinked(states[i].all, tasks, conts, links, exit, closing)
    requires Pipeline(links, |tasks|, ops) && |ops| > 1 && ops[0] == ops[|ops| - 1]
    requires forall k :: 0 <= k < |tasks| ==> tasks[k].Task? && conts[k].Continuation?
    ensures tasks[ops[0]] !in states[i].finished
  {
    hide Run, Inv;
    var s := states[i];
    RunKeeps(W, states, actions, i);
    if tasks[ops[0]] in s.finished {
      FinishedIsReleased(W, s, tasks[ops[0]]);
      var path := PipelinePath(s.all, tasks, conts, links, exit, closing, ops);
      CycleNeverRuns(W, states, actions, i, i, path);
    }
  }

  /** A pipeline of operators is a chain of links between their tasks. */
  lemma {:induction false} PipelinePath(all: set<Edge>, tasks: seq<NodeId>, conts: seq<NodeId>, links: set<(nat, nat)>,
                                        exit: NodeId, closing: NodeId, ops: seq<nat>) returns (path: seq<NodeId>)
    requires PlanLinked(all, tasks, conts, links, exit, closing) && Pipeline(links, |tasks|, ops)
    ensures Path(all, path) && path[0] == tasks[ops[0]] && path[|path| - 1] == tasks[ops[|ops| - 1]] && (|ops| > 1 ==> |path| > 1)
    decreases |ops|
  {
    if |ops| == 1 {
      path := [tasks[ops[0]]];
    } else {
      var n := |ops| - 1;
      var rest := PipelinePath(all, tasks, conts, links, exit, closing, ops[..n]);
      var p, q := ops[n - 1], ops[n - 1 + 1];
      assert (p, q) in links;
      path := rest + [conts[p], tasks[q]];
    }
  }

  /** A plan without operators never starts its closing task, as long as nobody fires its exit. */
  lemma EmptyPlanNeverCloses(W: nat, states: seq<State>, actions: seq<Action>, i: nat, j: nat, exit: NodeId, closing: NodeId)
    requires 0 < W && Run(W, states, actions) && i <= j < |states| && exit.Continuation? && closing.Task?
    requires (exit, closing) in states[i].all && exit !in states[i].finished
    requires forall e :: e in states[j].all ==> e.1 != exit
    requires forall k :: i <= k < j ==> !(actions[k].Fire? && actions[k].entry == exit)
    ensures !IsReleased(states[j].stage, states[j].finished, closing)
  {
    hide Inv, Next, Init;
    RunLater(W, states, actions, i, j);
    RunKeeps(W, states, actions, j);
    EntryHolds(W, states, actions, exit, i, j);
    SpawnAllowed(W, states[j], exit, closing);
  }

  /**
   At rest, a started plan has run its closing task exactly if it has operators and none of them feeds itself.
   Everything the operators spawned must be finished, and nobody else may touch the plan's nodes.
   */
  lemma ClosingRunsIff(W: nat, states: seq<State>, actions: seq<Action>, i: nat, j: nat, enter: NodeId, tasks: seq<NodeId>, conts: seq<NodeId>,
                       links: set<(nat, nat)>, exit: NodeId, closing: NodeId)
    requires 0 < W && Run(W, states, actions) && i <= j < |states| && Quiescent(states[j])
    requires PlanLinked(states[i].all, tasks, conts, links, exit, closing) && exit !in states[i].finished
    requires PlanPrivate(states[j].all, enter, tasks, conts, links, exit, closing) && SpawnedDone(states[j].all, states[j].finished, tasks, conts)
    requires enter in states[j].finished && exit.Continuation? && closing.Task?
    requires forall k :: 0 <= k < |tasks| ==> (enter, tasks[k]) in states[j].all && tasks[k].Task? && conts[k].Continuation?
    requires forall k :: i <= k < j ==> !(actions[k].Fire? && actions[k].entry == exit)
    ensures closing in states[j].finished <==> tasks != [] && !Cyclic(links, |tasks|)
  {
    hide Run, Quiescent, SpawnedDone;
    var s := states[j];
    RunReaches(W, states, actions, j);
    RunLater(W, states, actions, i, j);
    assert PlanLinked(s.all, tasks, conts, links, exit, closing);
    if tasks == [] {
      EmptyPlanNeverCloses(W, states, actions, i, j, exit, closing);
      NotReleasedNotFinished(W, s, closing);
    } else if Cyclic(links, |tasks|) {
      var ops :| Pipeline(links, |tasks|, ops) && |ops| > 1 && ops[0] == ops[|ops| - 1];
      CyclicOperator(W, states, actions, j, tasks, conts, links, exit, closing, ops);
      if closing in s.finished {
        FinishedIsReleased(W, s, closing);
        ClosingWaits(W, states, actions, j, j, tasks, conts, links, exit, closing, ops[0]);
      }
    } else {
      PlanFinishes(W, s, enter, tasks, conts, links, exit, closing);
    }
  }

  lemma NotReleasedNotFinished(W: nat, s: State, x: NodeId)
    requires Inv(W, s) && !IsReleased(s.stage, s.finished, x)
    ensures x !in s.finished
  {
    hide Inv, IsReleased;
    if x in s.finished {
      FinishedIsReleased(W, s, x);
    }
  }

  /** The other side of acyclicity: a task that waits for itself through some chain is never released. */
  lemma {:induction false} CycleNeverRuns(W: nat, states: seq<State>, actions: seq<Action>, i: nat, j: nat, path: seq<NodeId>)
    requires 0 < W && Run(W, states, actions) && i <= j < |states|
    requires Path(states[j].all, path) && |path| > 1 && path[0] == path[|path| - 1] && path[0].Task?
    ensures !IsReleased(states[i].stage, states[i].finished, path[0])
    decreases i
  {
    hide Inv, Next, Init;
    var t := path[0];
    if i == 0 {
      assert states[0].stage == map[] by { assert Init(W, states[0]); EmptyStart(W, states[0]); }
    } else {
      CycleNeverRuns(W, states, actions, i - 1, j, path);
      if IsReleased(states[i].stage, states[i].finished, t) {
        ReleasedOnlyAfterAllDependencies(W, states, actions, i, j, path);
        RunKeeps(W, states, actions, i - 1);
        JustReleased(W, states[i - 1], actions[i - 1], states[i], t);
      }
    }
  }

  lemma EmptyStart(W: nat, s: State)
    requires Init(W, s)
    ensures s.stage == map[]
  {
  }

  /** The step that releases a task does not also finish it. */
  lemma JustReleased(W: nat, s: State, a: Action, s': State, t: NodeId)
    requires Inv(W, s) && Next(W, s, a, s') && t.Task? && !IsReleased(s.stage, s.finished, t)
    requires IsReleased(s'.stage, s'.finished, t)
    ensures t !in s'.finished
  {
    hide GraphInv, HeldInv, LogInv, WorkerInv, MsgInv, OwnInv, LoopInv, ClientNext, LoopNext;
    StepKeeps(W, s, a, s') by { hide Inv; }
    if a.Complete? {
      CompletesRunning(W, s, a.worker, a.task);
    }
    StageAfter(W, s, a, s', t) by { hide Inv; }
  }

  lemma CompletesRunning(W: nat, s: State, w: nat, t: NodeId)
    requires Inv(W, s)
    ensures s.msgs != [] && s.msgs[0] == Completion(w, t) ==> t in s.stage && s.stage[t].Running?
  {
    hide GraphInv, HeldInv;
  }

  lemma StageAfter(W: nat, s: State, a: Action, s': State, t: NodeId)
    requires Next(W, s, a, s') && QueueInv(s.stage, s.queue) && t.Task? && (t in s.stage ==> Unreleased(s.stage[t]))
    requires a.Complete? && s.msgs != [] && s.msgs[0] == Completion(a.worker, a.task) ==>
               a.task in s.stage && s.stage[a.task].Running?
    ensures t in s'.stage ==> !s'.stage[t].Done?
  {
    hide FireEffect, WithLink;
  }
}
