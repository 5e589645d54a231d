/**
 The scheduler as a state machine. Client threads and running tasks add tasks and links and fire
 continuations; workers report completions; the scheduler thread dispatches, waits for messages and
 handles them. Every atomic action of the repository (a critical section or a queue operation) is one
 step, so a run is an arbitrary interleaving.
 */
module SchedulerMachine {
  import opened Counting
  import opened TaskGraph
  import opened Wrappers

  /** Where a task is. `Registering` is the gap inside a deferred addTask; `Handing` and `Own` are the gaps
      between releasing a task and appending it to the queue, by a client or by the scheduler thread. */
  datatype Stage = Registering | Pooled | Handing | Own | Queued | Running(worker: nat) | Done

  datatype Message = Join | NewTask | Completion(worker: nat, task: NodeId)

  /** A busy worker is executing a task or has reported it. */
  datatype Job = Executing(task: NodeId) | Reported(task: NodeId)

  /** Where the scheduler thread is in its loop. */
  datatype Pc = Dispatching | Deciding | Waiting | Enqueuing(worker: nat) | Stopped

  /**
   `all` (every link ever made), `finished` (tasks whose completion was processed and continuations that
   fired) and `log` (every dispatch, in order) record history. `owed` counts new-task messages that some
   thread is about to push.
   */
  datatype State = State(
    nodes: Nodes, all: set<Edge>, finished: set<NodeId>, stage: map<NodeId, Stage>,
    queue: seq<NodeId>, owed: nat, msgs: seq<Message>,
    idle: seq<nat>, busy: map<nat, Job>, halt: bool, pc: Pc, log: seq<NodeId>)

  predicate Unreleased(st: Stage) { st.Registering? || st.Pooled? }

  /** A released task has been handed out for execution; a released continuation has fired. */
  ghost predicate IsReleased(stage: map<NodeId, Stage>, finished: set<NodeId>, x: NodeId) {
    if x.Task? then x in stage && !Unreleased(stage[x]) else x in finished
  }

  // ---------- The steps ----------

  /** Links may only be made to something that has not been released. */
  ghost predicate MayWait(s: State, x: NodeId) {
    if x.Task? then x in s.stage && Unreleased(s.stage[x]) else x !in s.finished
  }

  /** Links may only be made from something that has not finished. */
  ghost predicate MayHold(s: State, d: NodeId) {
    d !in s.finished && (d.Task? ==> d in s.stage)
  }

  function Restaged(stage: map<NodeId, Stage>, tasks: seq<NodeId>, st: Stage): map<NodeId, Stage> {
    map t | t in stage :: if t in tasks then st else stage[t]
  }

  datatype Action =
    | AddImmediate(task: NodeId, dependent: Option<NodeId>)
    | AddDeferred(task: NodeId, dependency: NodeId, dependent: Option<NodeId>)
    | Register(task: NodeId)
    | AddLink(holder: NodeId, waiter: NodeId)
    | Fire(entry: NodeId, fired: seq<NodeId>, tasks: seq<NodeId>)
    | Enqueue(task: NodeId)
    | Notify
    | RequestJoin
    | Report(worker: nat)
    | Dispatch
    | EndDispatch
    | Decide
    | Receive
    | Complete(worker: nat, task: NodeId, fired: seq<NodeId>, tasks: seq<NodeId>)
    | EnqueueOwn(task: NodeId)
    | FreeWorker

  /** What `addTask` records for its dependent, if it has one. */
  function Depend(nodes: Nodes, t: NodeId, dependent: Option<NodeId>): Nodes {
    if dependent.Some? then WithLink(nodes, t, dependent.value) else nodes
  }

  function DependEdge(all: set<Edge>, t: NodeId, dependent: Option<NodeId>): set<Edge> {
    if dependent.Some? then all + {(t, dependent.value)} else all
  }

  /** Firing of `n`: a node that was never linked has nothing to fire. */
  ghost predicate Fires(s: State, n: NodeId, fired: seq<NodeId>, tasks: seq<NodeId>, nodes': Nodes) {
    && (if n in s.nodes then FireEffect(s.nodes, EdgesOf(s.nodes), n, nodes', fired, tasks)
        else nodes' == s.nodes && fired == [n] && tasks == [])
    && forall t :: t in tasks ==> t in s.stage && s.stage[t].Pooled?
  }

  ghost predicate ClientNext(s: State, a: Action, s': State)
    requires a.AddImmediate? || a.AddDeferred? || a.Register? || a.AddLink? || a.Fire? || a.Enqueue? || a.Notify? || a.RequestJoin?
  {
    match a
    case AddImmediate(t, dependent) =>
      && t.Task? && t !in s.stage && (dependent.Some? ==> MayWait(s, dependent.value))
      && s' == s.(nodes := Depend(s.nodes, t, dependent), all := DependEdge(s.all, t, dependent), stage := s.stage[t := Handing])
    case AddDeferred(t, d, dependent) =>
      && t.Task? && t !in s.stage && MayHold(s, d) && (dependent.Some? ==> MayWait(s, dependent.value))
      && s' == s.(nodes := WithLink(Depend(s.nodes, t, dependent), d, t),
                  all := DependEdge(s.all, t, dependent) + {(d, t)}, stage := s.stage[t := Registering])
    case Register(t) =>
      && t in s.stage && s.stage[t].Registering?
      && s' == s.(stage := s.stage[t := Pooled])
    case AddLink(d, x) =>
      && MayHold(s, d) && MayWait(s, x)
      && s' == s.(nodes := WithLink(s.nodes, d, x), all := s.all + {(d, x)})
    case Fire(c, fired, tasks) =>
      && c.Continuation? && c in s.nodes && s.nodes[c].count == 0
      && Fires(s, c, fired, tasks, s'.nodes)
      && s' == s.(nodes := s'.nodes, finished := s.finished + SetOf(fired), stage := Restaged(s.stage, tasks, Handing))
    case Enqueue(t) =>
      && t in s.stage && s.stage[t].Handing?
      && s' == s.(stage := s.stage[t := Queued], queue := s.queue + [t], owed := s.owed + 1)
    case Notify =>
      && s.owed > 0 && s' == s.(owed := s.owed - 1, msgs := s.msgs + [NewTask])
    case RequestJoin =>
      s' == s.(msgs := s.msgs + [Join])
  }

  ghost predicate LoopNext(W: nat, s: State, a: Action, s': State)
    requires a.Report? || a.Dispatch? || a.EndDispatch? || a.Decide? || a.Receive? || a.Complete? || a.EnqueueOwn? || a.FreeWorker?
  {
    match a
    case Report(w) =>
      && w in s.busy && s.busy[w].Executing?
      && s' == s.(busy := s.busy[w := Reported(s.busy[w].task)], msgs := s.msgs + [Completion(w, s.busy[w].task)])
    case Dispatch =>
      && s.pc.Dispatching? && s.idle != [] && s.queue != []
      && var w, t := s.idle[|s.idle| - 1], s.queue[0];
      && s' == s.(idle := s.idle[..|s.idle| - 1], queue := s.queue[1..], busy := s.busy[w := Executing(t)],
                  stage := s.stage[t := Running(w)], log := s.log + [t])
    case EndDispatch =>
      && s.pc.Dispatching? && (s.idle == [] || s.queue == [])
      && s' == s.(pc := Deciding)
    case Decide =>
      && s.pc.Deciding?
      && s' == s.(pc := if s.halt && |s.idle| == W && s.queue == [] then Stopped else Waiting)
    case Receive =>
      && s.pc.Waiting? && s.msgs != [] && !s.msgs[0].Completion?
      && s' == s.(msgs := s.msgs[1..], halt := s.halt || s.msgs[0].Join?, pc := Dispatching)
    case Complete(w, t, fired, tasks) =>
      && s.pc.Waiting? && s.msgs != [] && s.msgs[0] == Completion(w, t)
      && Fires(s, t, fired, tasks, s'.nodes)
      && s' == s.(msgs := s.msgs[1..], nodes := s'.nodes, finished := s.finished + SetOf(fired),
                  stage := Restaged(s.stage, tasks, Own)[t := Done], busy := s.busy - {w}, pc := Enqueuing(w))
    case EnqueueOwn(t) =>
      && t in s.stage && s.stage[t].Own?
      && s' == s.(stage := s.stage[t := Queued], queue := s.queue + [t], owed := s.owed + 1)
    case FreeWorker =>
      && s.pc.Enqueuing? && (forall t :: t in s.stage ==> !s.stage[t].Own?)
      && s' == s.(idle := s.idle + [s.pc.worker], pc := Dispatching)
  }

  ghost predicate Next(W: nat, s: State, a: Action, s': State) {
    if a.Report? || a.Dispatch? || a.EndDispatch? || a.Decide? || a.Receive? || a.Complete? || a.EnqueueOwn? || a.FreeWorker?
    then LoopNext(W, s, a, s')
    else ClientNext(s, a, s')
  }

  ghost predicate Init(W: nat, s: State) {
    && s.nodes == map[] && s.all == {} && s.finished == {} && s.stage == map[] && s.queue == [] && s.owed == 0
    && s.msgs == [] && |s.idle| == W && (forall i :: 0 <= i < W ==> s.idle[i] == i)
    && s.busy == map[] && !s.halt && s.pc == Dispatching && s.log == []
  }

  // ---------- The invariant ----------

  /** The graph and its history agree, and nothing released still waits for anything. */
  ghost predicate GraphInv(nodes: Nodes, all: set<Edge>, finished: set<NodeId>, stage: map<NodeId, Stage>) {
    && Consistent(nodes)
    && (forall x :: x in nodes ==> x !in finished && (x.Task? ==> x in stage))
    && (forall e :: e in EdgesOf(nodes) ==> e in all)
    && (forall e :: e in all ==> e.0 in finished || e in EdgesOf(nodes))
    && (forall x :: IsReleased(stage, finished, x) ==> Into(EdgesOf(nodes), x) == {})
  }

  /** A task that has not been released waits for something. */
  ghost predicate HeldInv(nodes: Nodes, stage: map<NodeId, Stage>) {
    forall t :: t in stage && Unreleased(stage[t]) ==> t in nodes && Into(EdgesOf(nodes), t) != {}
  }

  ghost predicate DoneInv(finished: set<NodeId>, stage: map<NodeId, Stage>) {
    && (forall t :: t in stage ==> t.Task? && (stage[t].Done? <==> t in finished))
    && (forall x :: x in finished && x.Task? ==> x in stage)
  }

  ghost predicate QueueInv(stage: map<NodeId, Stage>, queue: seq<NodeId>) {
    Distinct(queue) && forall t :: t in queue <==> t in stage && stage[t].Queued?
  }

  ghost predicate LogInv(stage: map<NodeId, Stage>, log: seq<NodeId>) {
    Distinct(log) && forall t :: t in log <==> t in stage && (stage[t].Running? || stage[t].Done?)
  }

  ghost predicate WorkerInv(W: nat, stage: map<NodeId, Stage>, idle: seq<nat>, busy: map<nat, Job>, pc: Pc) {
    && (forall i, j :: 0 <= i < j < |idle| ==> idle[i] != idle[j])
    && (forall w: nat :: w in idle <==> w < W && w !in busy && pc != Enqueuing(w))
    && (forall w :: w in busy ==> w < W && busy[w].task in stage && stage[busy[w].task] == Running(w))
    && (pc.Enqueuing? ==> pc.worker < W && pc.worker !in busy)
    && (forall t :: t in stage && stage[t].Running? ==> stage[t].worker in busy && busy[stage[t].worker].task == t)
  }

  ghost predicate MsgInv(msgs: seq<Message>, busy: map<nat, Job>) {
    && (forall k :: 0 <= k < |msgs| && msgs[k].Completion? ==> msgs[k].worker in busy && busy[msgs[k].worker] == Reported(msgs[k].task))
    && (forall k, l :: 0 <= k < l < |msgs| && msgs[k].Completion? && msgs[l].Completion? ==> msgs[k].worker != msgs[l].worker)
    && (forall w :: w in busy && busy[w].Reported? ==> Completion(w, busy[w].task) in msgs)
  }

  ghost predicate OwnInv(stage: map<NodeId, Stage>, pc: Pc) {
    forall t :: t in stage && stage[t].Own? ==> pc.Enqueuing?
  }

  /** A new-task message is in the mailbox or about to be. */
  ghost predicate WakeUp(owed: nat, msgs: seq<Message>) {
    owed > 0 || NewTask in msgs
  }

  ghost predicate LoopInv(W: nat, idle: seq<nat>, queue: seq<NodeId>, owed: nat, msgs: seq<Message>, halt: bool, pc: Pc) {
    && ((pc.Deciding? || pc.Waiting?) && idle != [] && queue != [] ==> WakeUp(owed, msgs))
    && (pc.Waiting? && halt && |idle| == W ==> WakeUp(owed, msgs))
  }

  ghost predicate Inv(W: nat, s: State) {
    && 0 < W
    && GraphInv(s.nodes, s.all, s.finished, s.stage)
    && HeldInv(s.nodes, s.stage)
    && DoneInv(s.finished, s.stage)
    && QueueInv(s.stage, s.queue)
    && LogInv(s.stage, s.log)
    && WorkerInv(W, s.stage, s.idle, s.busy, s.pc)
    && MsgInv(s.msgs, s.busy)
    && OwnInv(s.stage, s.pc)
    && LoopInv(W, s.idle, s.queue, s.owed, s.msgs, s.halt, s.pc)
  }

  lemma InitInv(W: nat, s: State)
    requires 0 < W && Init(W, s)
    ensures Inv(W, s)
  {
    assert EdgesOf(s.nodes) == {};
    forall w: nat
      ensures w in s.idle <==> w < W
    {
      if w < W {
        assert s.idle[w] == w;
      }
    }
  }

  // ---------- Steps of the graph ----------

  lemma IntoGrows(E: set<Edge>, e: Edge, y: NodeId)
    ensures Into(E, y) <= Into(E + {e}, y)
    ensures y != e.1 ==> Into(E + {e}, y) == Into(E, y)
    ensures e.0 in Into(E + {e}, e.1)
  {
    assert e in E + {e};
  }

  lemma LinkKeepsGraph(nodes: Nodes, all: set<Edge>, finished: set<NodeId>, stage: map<NodeId, Stage>, d: NodeId, x: NodeId)
    requires GraphInv(nodes, all, finished, stage)
    requires d !in finished && (d.Task? ==> d in stage)
    requires x !in finished && !IsReleased(stage, finished, x) && (x.Task? ==> x in stage)
    ensures GraphInv(WithLink(nodes, d, x), all + {(d, x)}, finished, stage)
  {
    hide WithLink, EdgesOf, Into, Consistent, IsReleased;
    LinkAddsEdge(nodes, d, x);
    LinkKeepsConsistent(nodes, d, x);
    forall y | IsReleased(stage, finished, y)
      ensures Into(EdgesOf(WithLink(nodes, d, x)), y) == {}
    {
      IntoGrows(EdgesOf(nodes), (d, x), y);
    }
  }

  lemma LinkKeepsHeld(nodes: Nodes, stage: map<NodeId, Stage>, d: NodeId, x: NodeId)
    requires HeldInv(nodes, stage) && Consistent(nodes)
    ensures HeldInv(WithLink(nodes, d, x), stage)
    ensures x in WithLink(nodes, d, x) && Into(EdgesOf(WithLink(nodes, d, x)), x) != {}
  {
    hide WithLink, EdgesOf, Into, Consistent;
    LinkAddsEdge(nodes, d, x);
    IntoGrows(EdgesOf(nodes), (d, x), x);
    forall t | t in stage && Unreleased(stage[t])
      ensures Into(EdgesOf(WithLink(nodes, d, x)), t) != {}
    {
      IntoGrows(EdgesOf(nodes), (d, x), t);
    }
  }

  /** A fresh task can take any stage: nothing in the graph mentions it. */
  lemma FreshKeepsGraph(nodes: Nodes, all: set<Edge>, finished: set<NodeId>, stage: map<NodeId, Stage>, t: NodeId, st: Stage)
    requires GraphInv(nodes, all, finished, stage) && t.Task? && t !in stage
    ensures GraphInv(nodes, all, finished, stage[t := st])
  {
    hide EdgesOf;
    NoEdgeInto(nodes, t);
  }

  lemma SurvivingEdges(nodes: Nodes, nodes': Nodes, G: set<NodeId>)
    requires nodes'.Keys == nodes.Keys - G && forall x :: x in nodes' ==> nodes'[x].dependents == nodes[x].dependents
    ensures EdgesOf(nodes') == Surviving(EdgesOf(nodes), G)
  {
    forall e: Edge
      ensures e in EdgesOf(nodes') <==> e in Surviving(EdgesOf(nodes), G)
    {
      EdgeIn(nodes', e.0, e.1);
      EdgeIn(nodes, e.0, e.1);
    }
  }

  lemma IntoFired(E: set<Edge>, n: NodeId, fired: seq<NodeId>, x: NodeId)
    requires FiringOrder(E, n, fired) && Into(E, n) == {} && x in SetOf(fired)
    ensures Into(Surviving(E, SetOf(fired)), x) == {}
    ensures x != n ==> x.Continuation?
  {
    IntoSurviving(E, SetOf(fired), x);
    var i :| 0 <= i < |fired| && fired[i] == x;
    OrderAt(E, n, fired, i);
    assert SetOf(fired[..i]) <= SetOf(fired);
  }

  lemma IntoReleased(nodes: Nodes, E: set<Edge>, fired: seq<NodeId>, tasks: seq<NodeId>, x: NodeId)
    requires TaskGraph.Released(nodes, E, SetOf(fired), tasks)
    ensures Into(Surviving(E, SetOf(fired)), x) <= Into(E, x)
    ensures x in tasks ==> Into(Surviving(E, SetOf(fired)), x) == {}
    ensures x.Task? && x in nodes && x !in SetOf(fired) && Into(E, x) != {} && x !in tasks ==> Into(Surviving(E, SetOf(fired)), x) != {}
  {
    IntoSurviving(E, SetOf(fired), x);
    if Into(E, x) - SetOf(fired) == {} {
      forall m | m in Into(E, x)
        ensures m in SetOf(fired)
      {
        assert m in SetOf(fired) || m in Into(E, x) - SetOf(fired);
      }
    }
  }

  /** Firing keeps the graph and its history in agreement, and everything it releases waits for nothing. */
  lemma FireKeepsGraph(nodes: Nodes, all: set<Edge>, finished: set<NodeId>, stage: map<NodeId, Stage>, n: NodeId,
                       nodes': Nodes, fired: seq<NodeId>, tasks: seq<NodeId>, stage': map<NodeId, Stage>)
    requires GraphInv(nodes, all, finished, stage) && Into(EdgesOf(nodes), n) == {}
    requires FireEffect(nodes, EdgesOf(nodes), n, nodes', fired, tasks)
    requires stage'.Keys == stage.Keys
    requires forall t :: t in stage && t !in tasks && t != n ==> Unreleased(stage'[t]) == Unreleased(stage[t])
    ensures GraphInv(nodes', all, finished + SetOf(fired), stage')
  {
    hide EdgesOf, Into, Counted, FiringOrder, FiringComplete, Released, Surviving, SetOf;
    var E, G := EdgesOf(nodes), SetOf(fired);
    SurvivingEdges(nodes, nodes', G);
    FirstFired(E, n, fired);
    forall x | IsReleased(stage', finished + G, x)
      ensures Into(EdgesOf(nodes'), x) == {}
    {
      IntoReleased(nodes, E, fired, tasks, x);
      if x in G {
        IntoFired(E, n, fired, x);
      }
    }
    forall e | e in all
      ensures e.0 in finished + G || e in EdgesOf(nodes')
    {
      SurvivingAt(E, G, e);
    }
    forall e | e in EdgesOf(nodes')
      ensures e in all
    {
      SurvivingAt(E, G, e);
    }
  }

  lemma SurvivingAt(E: set<Edge>, G: set<NodeId>, e: Edge)
    ensures e in Surviving(E, G) <==> e in E && e.0 !in G
  {
  }

  lemma FireKeepsHeld(nodes: Nodes, stage: map<NodeId, Stage>, n: NodeId,
                      nodes': Nodes, fired: seq<NodeId>, tasks: seq<NodeId>, stage': map<NodeId, Stage>)
    requires HeldInv(nodes, stage) && Into(EdgesOf(nodes), n) == {}
    requires FireEffect(nodes, EdgesOf(nodes), n, nodes', fired, tasks)
    requires stage'.Keys == stage.Keys && forall t :: t in stage ==> t.Task?
    requires forall t :: t in stage && Unreleased(stage'[t]) ==> t !in tasks && t != n && Unreleased(stage[t])
    ensures HeldInv(nodes', stage')
  {
    hide EdgesOf, Into, Counted, FiringOrder, FiringComplete, Released, Surviving, SetOf;
    var E, G := EdgesOf(nodes), SetOf(fired);
    SurvivingEdges(nodes, nodes', G);
    forall t | t in stage && Unreleased(stage'[t])
      ensures t in nodes' && Into(EdgesOf(nodes'), t) != {}
    {
      if t in G {
        IntoFired(E, n, fired, t);
      }
      IntoReleased(nodes, E, fired, tasks, t);
    }
  }

  // ---------- Moving a task between stages ----------

  predicate Quiet(st: Stage) { Unreleased(st) || st.Handing? || st.Own? }

  /** Stages before the queue do not concern the queue, the log or the workers. */
  lemma QuietMove(W: nat, finished: set<NodeId>, stage: map<NodeId, Stage>, queue: seq<NodeId>, log: seq<NodeId>,
                  idle: seq<nat>, busy: map<nat, Job>, pc: Pc, t: NodeId, st: Stage)
    requires DoneInv(finished, stage) && QueueInv(stage, queue) && LogInv(stage, log) && WorkerInv(W, stage, idle, busy, pc)
    requires t.Task? && Quiet(st) && (t in stage ==> Quiet(stage[t]))
    ensures DoneInv(finished, stage[t := st]) && QueueInv(stage[t := st], queue) && LogInv(stage[t := st], log)
    ensures WorkerInv(W, stage[t := st], idle, busy, pc)
  {
    assert DoneInv(finished, stage[t := st]) by { hide QueueInv, LogInv, WorkerInv; }
    assert QueueInv(stage[t := st], queue) by { hide DoneInv, LogInv, WorkerInv; }
    assert LogInv(stage[t := st], log) by { hide DoneInv, QueueInv, WorkerInv; }
    assert WorkerInv(W, stage[t := st], idle, busy, pc) by { hide DoneInv, QueueInv, LogInv; }
  }

  lemma OwnMove(stage: map<NodeId, Stage>, pc: Pc, t: NodeId, st: Stage)
    requires OwnInv(stage, pc) && !st.Own?
    ensures OwnInv(stage[t := st], pc)
  {
  }

  /** Moving on among released stages, or among unreleased ones, does not concern the graph. */
  lemma SameSideMove(nodes: Nodes, all: set<Edge>, finished: set<NodeId>, stage: map<NodeId, Stage>, t: NodeId, st: Stage)
    requires GraphInv(nodes, all, finished, stage) && HeldInv(nodes, stage)
    requires t in stage && Unreleased(st) == Unreleased(stage[t])
    ensures GraphInv(nodes, all, finished, stage[t := st]) && HeldInv(nodes, stage[t := st])
  {
    hide EdgesOf, Into, Consistent;
    assert forall x :: IsReleased(stage[t := st], finished, x) ==> IsReleased(stage, finished, x);
  }

  // ---------- Every step keeps the invariant ----------

  lemma GraphConsistent(nodes: Nodes, all: set<Edge>, finished: set<NodeId>, stage: map<NodeId, Stage>)
    requires GraphInv(nodes, all, finished, stage)
    ensures Consistent(nodes)
  {
  }

  lemma FreshUnfinished(s: State, t: NodeId)
    requires DoneInv(s.finished, s.stage) && t.Task? && t !in s.stage
    ensures t !in s.finished
  {
  }

  lemma WaiterOk(s: State, x: NodeId, t: NodeId, st: Stage)
    requires MayWait(s, x) && t !in s.stage && DoneInv(s.finished, s.stage)
    ensures x != t || x.Continuation?
    ensures x !in s.finished && !IsReleased(s.stage[t := st], s.finished, x) && (x.Task? ==> x in s.stage)
  {
  }

  lemma AddImmediateKeeps(W: nat, s: State, t: NodeId, dependent: Option<NodeId>, s': State)
    requires Inv(W, s) && ClientNext(s, AddImmediate(t, dependent), s')
    ensures Inv(W, s')
  {
    hide GraphInv, HeldInv, DoneInv, QueueInv, LogInv, WorkerInv, MsgInv, OwnInv, LoopInv, WithLink, MayWait;
    QuietMove(W, s.finished, s.stage, s.queue, s.log, s.idle, s.busy, s.pc, t, Handing);
    OwnMove(s.stage, s.pc, t, Handing);
    FreshKeepsGraph(s.nodes, s.all, s.finished, s.stage, t, Handing);
    FreshHeld(s.nodes, s.stage, t, Handing);
    if dependent.Some? {
      FreshUnfinished(s, t);
      WaiterOk(s, dependent.value, t, Handing);
      LinkKeepsGraph(s.nodes, s.all, s.finished, s'.stage, t, dependent.value);
      GraphConsistent(s.nodes, s.all, s.finished, s.stage);
      LinkKeepsHeld(s.nodes, s'.stage, t, dependent.value);
    }
  }

  lemma FreshHeld(nodes: Nodes, stage: map<NodeId, Stage>, t: NodeId, st: Stage)
    requires HeldInv(nodes, stage) && !Unreleased(st)
    ensures HeldInv(nodes, stage[t := st])
  {
  }

  lemma AddDeferredKeeps(W: nat, s: State, t: NodeId, d: NodeId, dependent: Option<NodeId>, s': State)
    requires Inv(W, s) && ClientNext(s, AddDeferred(t, d, dependent), s')
    ensures Inv(W, s')
  {
    hide GraphInv, HeldInv, DoneInv, QueueInv, LogInv, WorkerInv, MsgInv, OwnInv, LoopInv, WithLink, MayWait;
    var stage' := s.stage[t := Registering];
    var nodes1, all1 := Depend(s.nodes, t, dependent), DependEdge(s.all, t, dependent);
    QuietMove(W, s.finished, s.stage, s.queue, s.log, s.idle, s.busy, s.pc, t, Registering);
    OwnMove(s.stage, s.pc, t, Registering);
    FreshUnfinished(s, t);
    FreshKeepsGraph(s.nodes, s.all, s.finished, s.stage, t, Registering);
    if dependent.Some? {
      WaiterOk(s, dependent.value, t, Registering);
      LinkKeepsGraph(s.nodes, s.all, s.finished, stage', t, dependent.value);
      GraphConsistent(s.nodes, s.all, s.finished, s.stage);
      LinkKeepsHeld(s.nodes, s.stage, t, dependent.value);
    }
    DeferredHeld(nodes1, all1, s.finished, s.stage, t, d);
  }

  lemma DeferredHeld(nodes1: Nodes, all1: set<Edge>, finished: set<NodeId>, stage: map<NodeId, Stage>, t: NodeId, d: NodeId)
    requires GraphInv(nodes1, all1, finished, stage[t := Registering]) && HeldInv(nodes1, stage)
    requires t.Task? && t !in stage && t !in finished && d !in finished && (d.Task? ==> d in stage)
    ensures GraphInv(WithLink(nodes1, d, t), all1 + {(d, t)}, finished, stage[t := Registering])
    ensures HeldInv(WithLink(nodes1, d, t), stage[t := Registering])
  {
    hide GraphInv, WithLink, Into, EdgesOf;
    LinkKeepsGraph(nodes1, all1, finished, stage[t := Registering], d, t);
    GraphConsistent(nodes1, all1, finished, stage[t := Registering]);
    LinkKeepsHeld(nodes1, stage, d, t);
  }

  lemma RegisterKeeps(W: nat, s: State, t: NodeId, s': State)
    requires Inv(W, s) && ClientNext(s, Register(t), s')
    ensures Inv(W, s')
  {
    hide GraphInv, HeldInv, QueueInv, LogInv, WorkerInv, MsgInv, OwnInv, LoopInv;
    assert t.Task? by { assert t in s.stage; }
    QuietMove(W, s.finished, s.stage, s.queue, s.log, s.idle, s.busy, s.pc, t, Pooled);
    OwnMove(s.stage, s.pc, t, Pooled);
    SameSideMove(s.nodes, s.all, s.finished, s.stage, t, Pooled);
  }

  lemma AddLinkKeeps(W: nat, s: State, d: NodeId, x: NodeId, s': State)
    requires Inv(W, s) && ClientNext(s, AddLink(d, x), s')
    ensures Inv(W, s')
  {
    hide GraphInv, HeldInv, QueueInv, LogInv, WorkerInv, MsgInv, OwnInv, LoopInv, WithLink;
    LinkKeepsGraph(s.nodes, s.all, s.finished, s.stage, d, x);
    GraphConsistent(s.nodes, s.all, s.finished, s.stage);
    LinkKeepsHeld(s.nodes, s.stage, d, x);
  }

  /** A task is appended to the queue, and its queue entry is its only one. */
  lemma EnqueueKeeps(W: nat, s: State, t: NodeId, s': State)
    requires Inv(W, s) && t in s.stage && (s.stage[t].Handing? || s.stage[t].Own?)
    requires s' == s.(stage := s.stage[t := Queued], queue := s.queue + [t], owed := s.owed + 1)
    ensures Inv(W, s') && t !in s.queue
  {
    hide GraphInv, HeldInv, MsgInv, LoopInv, OwnInv;
    SameSideMove(s.nodes, s.all, s.finished, s.stage, t, Queued);
    OwnMove(s.stage, s.pc, t, Queued);
    EnqueueQueue(s.stage, s.queue, t);
    assert LogInv(s'.stage, s'.log) by { hide QueueInv, DoneInv, WorkerInv; }
    assert WorkerInv(W, s'.stage, s'.idle, s'.busy, s'.pc) by { hide QueueInv, DoneInv, LogInv; }
    assert DoneInv(s'.finished, s'.stage) by { hide QueueInv, WorkerInv, LogInv; }
    EnqueueLoop(W, s.idle, s.queue, s.owed, s.msgs, s.halt, s.pc, t);
  }

  lemma EnqueueLoop(W: nat, idle: seq<nat>, queue: seq<NodeId>, owed: nat, msgs: seq<Message>, halt: bool, pc: Pc, t: NodeId)
    requires LoopInv(W, idle, queue, owed, msgs, halt, pc)
    ensures LoopInv(W, idle, queue + [t], owed + 1, msgs, halt, pc)
  {
  }

  lemma EnqueueQueue(stage: map<NodeId, Stage>, queue: seq<NodeId>, t: NodeId)
    requires QueueInv(stage, queue) && t in stage && !stage[t].Queued?
    ensures t !in queue && QueueInv(stage[t := Queued], queue + [t])
  {
    forall x
      ensures x in queue + [t] <==> x in queue || x == t
    {
      assert (queue + [t])[|queue|] == t;
    }
  }

  lemma MessageKeeps(W: nat, s: State, m: Message, owed: nat, s': State)
    requires Inv(W, s) && !m.Completion? && (owed == s.owed || m == NewTask)
    requires s' == s.(owed := owed, msgs := s.msgs + [m])
    ensures Inv(W, s')
  {
    forall x
      ensures x in s'.msgs <==> x in s.msgs || x == m
    {
      assert s'.msgs[|s.msgs|] == m;
    }
  }

  lemma QuietRestage(W: nat, finished: set<NodeId>, stage: map<NodeId, Stage>, queue: seq<NodeId>, log: seq<NodeId>,
                     idle: seq<nat>, busy: map<nat, Job>, pc: Pc, tasks: seq<NodeId>, st: Stage)
    requires DoneInv(finished, stage) && QueueInv(stage, queue) && LogInv(stage, log) && WorkerInv(W, stage, idle, busy, pc)
    requires Quiet(st) && forall t :: t in tasks ==> t in stage && Quiet(stage[t])
    ensures var stage' := Restaged(stage, tasks, st);
            && DoneInv(finished, stage') && QueueInv(stage', queue) && LogInv(stage', log) && WorkerInv(W, stage', idle, busy, pc)
  {
    var stage' := Restaged(stage, tasks, st);
    assert DoneInv(finished, stage') by { hide QueueInv, LogInv, WorkerInv; }
    assert QueueInv(stage', queue) by { hide DoneInv, LogInv, WorkerInv; }
    assert LogInv(stage', log) by { hide DoneInv, QueueInv, WorkerInv; }
    assert WorkerInv(W, stage', idle, busy, pc) by { hide DoneInv, QueueInv, LogInv; }
  }

  /** A node with count zero waits for nothing. */
  lemma CountZero(nodes: Nodes, n: NodeId)
    requires Consistent(nodes) && n in nodes && nodes[n].count == 0
    ensures Into(EdgesOf(nodes), n) == {}
  {
  }

  lemma FireKeeps(W: nat, s: State, c: NodeId, fired: seq<NodeId>, tasks: seq<NodeId>, s': State)
    requires Inv(W, s) && ClientNext(s, Fire(c, fired, tasks), s')
    ensures Inv(W, s')
  {
    hide GraphInv, HeldInv, DoneInv, QueueInv, LogInv, WorkerInv, MsgInv, OwnInv, LoopInv, FireEffect;
    GraphConsistent(s.nodes, s.all, s.finished, s.stage);
    CountZero(s.nodes, c);
    QuietRestage(W, s.finished, s.stage, s.queue, s.log, s.idle, s.busy, s.pc, tasks, Handing);
    FireKeepsGraph(s.nodes, s.all, s.finished, s.stage, c, s'.nodes, fired, tasks, s'.stage);
    TasksOnly(s.finished, s.stage);
    FireKeepsHeld(s.nodes, s.stage, c, s'.nodes, fired, tasks, s'.stage);
    FiredContinuations(s.nodes, c, s'.nodes, fired, tasks);
    DoneGrows(s.finished, s'.stage, SetOf(fired));
    OwnRestage(s.stage, s.pc, tasks, Handing);
  }

  lemma TasksOnly(finished: set<NodeId>, stage: map<NodeId, Stage>)
    requires DoneInv(finished, stage)
    ensures forall t :: t in stage ==> t.Task?
  {
  }

  lemma FiredContinuations(nodes: Nodes, n: NodeId, nodes': Nodes, fired: seq<NodeId>, tasks: seq<NodeId>)
    requires FireEffect(nodes, EdgesOf(nodes), n, nodes', fired, tasks) && Into(EdgesOf(nodes), n) == {}
    ensures n in SetOf(fired) && forall x :: x in SetOf(fired) && x != n ==> x.Continuation?
  {
    FirstFired(EdgesOf(nodes), n, fired);
    forall x | x in SetOf(fired) && x != n
      ensures x.Continuation?
    {
      IntoFired(EdgesOf(nodes), n, fired, x);
    }
  }

  lemma DoneGrows(finished: set<NodeId>, stage: map<NodeId, Stage>, G: set<NodeId>)
    requires DoneInv(finished, stage) && forall x :: x in G ==> x.Continuation?
    ensures DoneInv(finished + G, stage)
  {
  }

  lemma OwnRestage(stage: map<NodeId, Stage>, pc: Pc, tasks: seq<NodeId>, st: Stage)
    requires OwnInv(stage, pc) && (!st.Own? || pc.Enqueuing?)
    ensures OwnInv(Restaged(stage, tasks, st), pc)
  {
  }

  lemma OwnEnqueuing(stage: map<NodeId, Stage>, w: nat)
    ensures OwnInv(stage, Enqueuing(w))
  {
  }

  lemma ReportKeeps(W: nat, s: State, w: nat, s': State)
    requires Inv(W, s) && LoopNext(W, s, Report(w), s')
    ensures Inv(W, s')
  {
    hide GraphInv, HeldInv, DoneInv, QueueInv, LogInv, OwnInv;
    assert WorkerInv(W, s'.stage, s'.idle, s'.busy, s'.pc) by { hide MsgInv, LoopInv; }
    ReportMessage(s.msgs, s.busy, w);
    assert forall x :: x in s.msgs ==> x in s'.msgs;
  }

  lemma ReportMessage(msgs: seq<Message>, busy: map<nat, Job>, w: nat)
    requires MsgInv(msgs, busy) && w in busy && busy[w].Executing?
    ensures MsgInv(msgs + [Completion(w, busy[w].task)], busy[w := Reported(busy[w].task)])
  {
    var msgs', busy' := msgs + [Completion(w, busy[w].task)], busy[w := Reported(busy[w].task)];
    forall v | v in busy' && busy'[v].Reported?
      ensures Completion(v, busy'[v].task) in msgs'
    {
      assert msgs'[|msgs|] == Completion(w, busy[w].task);
    }
  }

  lemma DispatchKeeps(W: nat, s: State, s': State)
    requires Inv(W, s) && LoopNext(W, s, Dispatch, s')
    ensures Inv(W, s') && s.queue[0] !in s.log
  {
    hide GraphInv, HeldInv, DoneInv, QueueInv, LogInv, WorkerInv, MsgInv, OwnInv;
    var w, t := s.idle[|s.idle| - 1], s.queue[0];
    QueuedAt(s.stage, s.queue);
    SameSideMove(s.nodes, s.all, s.finished, s.stage, t, Running(w));
    OwnMove(s.stage, s.pc, t, Running(w));
    DispatchDone(s.finished, s.stage, t, w);
    DispatchQueue(s.stage, s.queue, w);
    DispatchLog(s.stage, s.log, t, w);
    DispatchWorker(W, s.stage, s.idle, s.busy, s.pc, t);
    DispatchMessages(W, s.stage, s.idle, s.busy, s.pc, s.msgs, t);
  }

  lemma QueuedAt(stage: map<NodeId, Stage>, queue: seq<NodeId>)
    requires QueueInv(stage, queue) && queue != []
    ensures queue[0] in stage && stage[queue[0]].Queued?
  {
    assert queue[0] in queue;
  }

  lemma DispatchDone(finished: set<NodeId>, stage: map<NodeId, Stage>, t: NodeId, w: nat)
    requires DoneInv(finished, stage) && t in stage && stage[t].Queued?
    ensures DoneInv(finished, stage[t := Running(w)])
  {
  }

  lemma DispatchMessages(W: nat, stage: map<NodeId, Stage>, idle: seq<nat>, busy: map<nat, Job>, pc: Pc, msgs: seq<Message>, t: NodeId)
    requires WorkerInv(W, stage, idle, busy, pc) && idle != [] && MsgInv(msgs, busy)
    ensures MsgInv(msgs, busy[idle[|idle| - 1] := Executing(t)])
  {
    assert idle[|idle| - 1] in idle;
  }

  lemma DispatchQueue(stage: map<NodeId, Stage>, queue: seq<NodeId>, w: nat)
    requires QueueInv(stage, queue) && queue != []
    ensures QueueInv(stage[queue[0] := Running(w)], queue[1..])
  {
    forall x
      ensures x in queue[1..] <==> x in queue && x != queue[0]
    {
      if x in queue && x != queue[0] {
        var i :| 0 <= i < |queue| && queue[i] == x;
        assert queue[1..][i - 1] == x;
      }
    }
  }

  lemma DispatchLog(stage: map<NodeId, Stage>, log: seq<NodeId>, t: NodeId, w: nat)
    requires LogInv(stage, log) && t in stage && stage[t].Queued?
    ensures LogInv(stage[t := Running(w)], log + [t]) && t !in log
  {
    forall x
      ensures x in log + [t] <==> x in log || x == t
    {
      assert (log + [t])[|log|] == t;
    }
  }

  lemma DispatchWorker(W: nat, stage: map<NodeId, Stage>, idle: seq<nat>, busy: map<nat, Job>, pc: Pc, t: NodeId)
    requires WorkerInv(W, stage, idle, busy, pc) && idle != [] && t in stage && stage[t].Queued? && pc.Dispatching?
    ensures var w := idle[|idle| - 1];
            WorkerInv(W, stage[t := Running(w)], idle[..|idle| - 1], busy[w := Executing(t)], pc)
  {
    var w := idle[|idle| - 1];
    var idle', stage', busy' := idle[..|idle| - 1], stage[t := Running(w)], busy[w := Executing(t)];
    assert w in idle;
    assert w < W && w !in busy;
    forall v: nat
      ensures v in idle' <==> v < W && v !in busy' && pc != Enqueuing(v)
    {
      LastIdle(idle, v);
    }
    forall x | x in stage' && stage'[x].Running?
      ensures stage'[x].worker in busy' && busy'[stage'[x].worker].task == x
    {
      if x != t {
        assert stage[x].worker in busy;
      }
    }
  }

  lemma LastIdle(idle: seq<nat>, v: nat)
    requires idle != [] && forall i, j :: 0 <= i < j < |idle| ==> idle[i] != idle[j]
    ensures v in idle[..|idle| - 1] <==> v in idle && v != idle[|idle| - 1]
  {
    if v in idle && v != idle[|idle| - 1] {
      var i :| 0 <= i < |idle| && idle[i] == v;
      assert idle[..|idle| - 1][i] == v;
    }
  }

  lemma EndDispatchKeeps(W: nat, s: State, s': State)
    requires Inv(W, s) && LoopNext(W, s, EndDispatch, s')
    ensures Inv(W, s')
  {
    hide GraphInv, HeldInv, DoneInv, QueueInv, LogInv, MsgInv;
  }

  lemma DecideKeeps(W: nat, s: State, s': State)
    requires Inv(W, s) && LoopNext(W, s, Decide, s')
    ensures Inv(W, s')
  {
    hide GraphInv, HeldInv, DoneInv, QueueInv, LogInv, MsgInv;
  }

  lemma ReceiveKeeps(W: nat, s: State, s': State)
    requires Inv(W, s) && LoopNext(W, s, Receive, s')
    ensures Inv(W, s')
  {
    hide GraphInv, HeldInv, DoneInv, QueueInv, LogInv;
    assert MsgInv(s'.msgs, s'.busy) by {
      forall x | x in s.msgs && x != s.msgs[0]
        ensures x in s'.msgs
      {
        var i :| 0 <= i < |s.msgs| && s.msgs[i] == x;
        assert s'.msgs[i - 1] == x;
      }
    }
  }

  lemma FreeWorkerKeeps(W: nat, s: State, s': State)
    requires Inv(W, s) && LoopNext(W, s, FreeWorker, s')
    ensures Inv(W, s')
  {
    hide GraphInv, HeldInv, DoneInv, QueueInv, LogInv, MsgInv;
    forall v: nat
      ensures v in s'.idle <==> v in s.idle || v == s.pc.worker
    {
      assert s'.idle[|s.idle|] == s.pc.worker;
    }
  }

  lemma CompleteKeeps(W: nat, s: State, w: nat, t: NodeId, fired: seq<NodeId>, tasks: seq<NodeId>, s': State)
    requires Inv(W, s) && LoopNext(W, s, Complete(w, t, fired, tasks), s')
    ensures Inv(W, s')
  {
    hide GraphInv, HeldInv, DoneInv, QueueInv, LogInv, WorkerInv, MsgInv, OwnInv, FireEffect;
    CompletedRuns(W, s.msgs, s.stage, s.idle, s.busy, s.pc);
    var stage1 := Restaged(s.stage, tasks, Own);
    QuietRestage(W, s.finished, s.stage, s.queue, s.log, s.idle, s.busy, s.pc, tasks, Own);
    CompleteStages(W, s.finished, stage1, s.queue, s.log, s.idle, s.busy, s.pc, w, t);
    CompleteMessage(s.msgs, s.busy, w);
    TasksOnly(s.finished, s.stage);
    OwnEnqueuing(s'.stage, w);
    CompleteGraph(s, t, fired, tasks, s'.nodes, s'.stage);
  }

  /** The completion at the head of the mailbox is of a running task. */
  lemma CompletedRuns(W: nat, msgs: seq<Message>, stage: map<NodeId, Stage>, idle: seq<nat>, busy: map<nat, Job>, pc: Pc)
    requires MsgInv(msgs, busy) && WorkerInv(W, stage, idle, busy, pc) && msgs != [] && msgs[0].Completion?
    ensures var w, t := msgs[0].worker, msgs[0].task;
            w in busy && busy[w] == Reported(t) && t in stage && stage[t] == Running(w)
  {
  }

  lemma CompleteStages(W: nat, finished: set<NodeId>, stage: map<NodeId, Stage>, queue: seq<NodeId>, log: seq<NodeId>,
                       idle: seq<nat>, busy: map<nat, Job>, pc: Pc, w: nat, t: NodeId)
    requires DoneInv(finished, stage) && QueueInv(stage, queue) && LogInv(stage, log) && WorkerInv(W, stage, idle, busy, pc)
    requires pc.Waiting? && w in busy && busy[w].task == t && t in stage && stage[t] == Running(w)
    ensures var stage' := stage[t := Done];
            && DoneInv(finished + {t}, stage') && QueueInv(stage', queue) && LogInv(stage', log)
            && WorkerInv(W, stage', idle, busy - {w}, Enqueuing(w))
  {
    var stage' := stage[t := Done];
    assert DoneInv(finished + {t}, stage') by { hide QueueInv, LogInv, WorkerInv; }
    assert QueueInv(stage', queue) by { hide DoneInv, LogInv, WorkerInv; }
    assert LogInv(stage', log) by { hide DoneInv, QueueInv, WorkerInv; }
    assert WorkerInv(W, stage', idle, busy - {w}, Enqueuing(w)) by { hide DoneInv, QueueInv, LogInv; }
  }

  lemma CompleteMessage(msgs: seq<Message>, busy: map<nat, Job>, w: nat)
    requires MsgInv(msgs, busy) && msgs != [] && msgs[0].Completion? && msgs[0].worker == w
    ensures MsgInv(msgs[1..], busy - {w})
  {
    forall v | v in busy - {w} && busy[v].Reported?
      ensures Completion(v, busy[v].task) in msgs[1..]
    {
      var i :| 0 <= i < |msgs| && msgs[i] == Completion(v, busy[v].task);
      assert msgs[1..][i - 1] == msgs[i];
    }
  }

  lemma CompleteGraph(s: State, t: NodeId, fired: seq<NodeId>, tasks: seq<NodeId>, nodes': Nodes, stage': map<NodeId, Stage>)
    requires GraphInv(s.nodes, s.all, s.finished, s.stage) && HeldInv(s.nodes, s.stage) && DoneInv(s.finished, s.stage)
    requires Fires(s, t, fired, tasks, nodes') && t in s.stage && s.stage[t].Running? && t.Task?
    requires stage' == Restaged(s.stage, tasks, Own)[t := Done]
    requires DoneInv(s.finished + {t}, stage')
    ensures GraphInv(nodes', s.all, s.finished + SetOf(fired), stage') && HeldInv(nodes', stage')
    ensures DoneInv(s.finished + SetOf(fired), stage')
  {
    hide FireEffect, GraphInv, HeldInv, Into, EdgesOf;
    ReleasedFree(s.nodes, s.all, s.finished, s.stage, t);
    if t in s.nodes {
      FireKeepsGraph(s.nodes, s.all, s.finished, s.stage, t, nodes', fired, tasks, stage');
      FireKeepsHeld(s.nodes, s.stage, t, nodes', fired, tasks, stage');
      FiredContinuations(s.nodes, t, nodes', fired, tasks);
      DoneGrows(s.finished + {t}, stage', SetOf(fired) - {t});
      assert s.finished + {t} + (SetOf(fired) - {t}) == s.finished + SetOf(fired);
    } else {
      assert SetOf([t]) == {t};
      LonelyDone(s.nodes, s.all, s.finished, s.stage, t, stage');
    }
  }

  lemma ReleasedFree(nodes: Nodes, all: set<Edge>, finished: set<NodeId>, stage: map<NodeId, Stage>, t: NodeId)
    requires GraphInv(nodes, all, finished, stage) && IsReleased(stage, finished, t)
    ensures Into(EdgesOf(nodes), t) == {}
  {
  }

  lemma LonelyDone(nodes: Nodes, all: set<Edge>, finished: set<NodeId>, stage: map<NodeId, Stage>, t: NodeId, stage': map<NodeId, Stage>)
    requires GraphInv(nodes, all, finished, stage) && HeldInv(nodes, stage) && t !in nodes && t in stage && !Unreleased(stage[t])
    requires stage'.Keys == stage.Keys && forall x :: x in stage ==> Unreleased(stage'[x]) == Unreleased(stage[x])
    requires t.Task?
    ensures GraphInv(nodes, all, finished + {t}, stage') && HeldInv(nodes, stage')
  {
    hide EdgesOf, Into, Consistent;
    forall x | IsReleased(stage', finished + {t}, x)
      ensures Into(EdgesOf(nodes), x) == {}
    {
      assert IsReleased(stage, finished, x);
    }
  }

  // ---------- Runs ----------

  lemma StepKeeps(W: nat, s: State, a: Action, s': State)
    requires Inv(W, s) && Next(W, s, a, s')
    ensures Inv(W, s')
  {
    hide Inv, ClientNext, LoopNext;
    match a {
      case AddImmediate(t, d) => AddImmediateKeeps(W, s, t, d, s');
      case AddDeferred(t, d, x) => AddDeferredKeeps(W, s, t, d, x, s');
      case Register(t) => RegisterKeeps(W, s, t, s');
      case AddLink(d, x) => AddLinkKeeps(W, s, d, x, s');
      case Fire(c, f, ts) => FireKeeps(W, s, c, f, ts, s');
      case Enqueue(t) => EnqueueStep(W, s, a, s');
      case Notify => MessageStep(W, s, a, s');
      case RequestJoin => MessageStep(W, s, a, s');
      case Report(w) => ReportKeeps(W, s, w, s');
      case Dispatch => DispatchKeeps(W, s, s');
      case EndDispatch => EndDispatchKeeps(W, s, s');
      case Decide => DecideKeeps(W, s, s');
      case Receive => ReceiveKeeps(W, s, s');
      case Complete(w, t, f, ts) => CompleteKeeps(W, s, w, t, f, ts, s');
      case EnqueueOwn(t) => EnqueueStep(W, s, a, s');
      case FreeWorker => FreeWorkerKeeps(W, s, s');
    }
  }

  lemma EnqueueStep(W: nat, s: State, a: Action, s': State)
    requires Inv(W, s) && Next(W, s, a, s') && (a.Enqueue? || a.EnqueueOwn?)
    ensures Inv(W, s')
  {
    hide Inv;
    EnqueueKeeps(W, s, a.task, s');
  }

  lemma MessageStep(W: nat, s: State, a: Action, s': State)
    requires Inv(W, s) && Next(W, s, a, s') && (a.Notify? || a.RequestJoin?)
    ensures Inv(W, s')
  {
    hide Inv;
    MessageKeeps(W, s, if a.Notify? then NewTask else Join, s'.owed, s');
  }

  /** States visited one after the other, starting from an empty scheduler with `W` workers. */
  ghost predicate Run(W: nat, states: seq<State>, actions: seq<Action>) {
    && |states| == |actions| + 1 && Init(W, states[0])
    && forall i :: 0 <= i < |actions| ==> Next(W, states[i], actions[i], states[i + 1])
  }

  lemma {:induction false} RunKeeps(W: nat, states: seq<State>, actions: seq<Action>, k: nat)
    requires 0 < W && Run(W, states, actions) && k < |states|
    ensures Inv(W, states[k])
  {
    hide Inv, Next, Init;
    if k == 0 {
      InitInv(W, states[0]);
    } else {
      RunKeeps(W, states, actions, k - 1);
      StepKeeps(W, states[k - 1], actions[k - 1], states[k]);
    }
  }

  /** A chain of links, each from a node to one that waits for it. */
  ghost predicate Path(all: set<Edge>, path: seq<NodeId>) {
    |path| > 0 && forall i :: 0 <= i < |path| - 1 ==> (path[i], path[i + 1]) in all
  }

  lemma FinishedIsReleased(W: nat, s: State, x: NodeId)
    requires Inv(W, s) && x in s.finished
    ensures IsReleased(s.stage, s.finished, x)
  {
  }

  lemma DirectDependency(W: nat, s: State, d: NodeId, x: NodeId)
    requires Inv(W, s) && (d, x) in s.all && IsReleased(s.stage, s.finished, x)
    ensures d in s.finished
  {
    hide Into, EdgesOf, Consistent;
    EdgeArrives(EdgesOf(s.nodes), d, x);
  }

  lemma EdgeArrives(E: set<Edge>, d: NodeId, x: NodeId)
    ensures (d, x) in E ==> Into(E, x) != {}
  {
    if (d, x) in E {
      IntoWithout(E, d, x, x);
    }
  }

  /** Whatever reaches a released node, through any chain of links ever made, has finished. */
  lemma {:induction false} EverythingBeforeHasFinished(W: nat, s: State, path: seq<NodeId>)
    requires Inv(W, s) && Path(s.all, path) && |path| > 1 && IsReleased(s.stage, s.finished, path[|path| - 1])
    ensures path[0] in s.finished
    decreases |path|
  {
    hide Inv, IsReleased;
    DirectDependency(W, s, path[|path| - 2], path[|path| - 1]);
    if |path| > 2 {
      FinishedIsReleased(W, s, path[|path| - 2]);
      EverythingBeforeHasFinished(W, s, path[..|path| - 1]);
    }
  }

  /** How history grows: nothing is taken back, and whatever has been released gets no further link. */
  ghost predicate Later(s: State, s': State) {
    && s.finished <= s'.finished && s.all <= s'.all && s.log <= s'.log
    && (forall t :: t in s.stage ==> t in s'.stage)
    && (forall x :: IsReleased(s.stage, s.finished, x) ==> IsReleased(s'.stage, s'.finished, x))
    && (forall e :: e in s'.all && IsReleased(s.stage, s.finished, e.1) ==> e in s.all)
  }

  lemma ClientLater(s: State, a: Action, s': State)
    requires DoneInv(s.finished, s.stage)
    requires a.AddImmediate? || a.AddDeferred? || a.Register? || a.AddLink? || a.Fire? || a.Enqueue? || a.Notify? || a.RequestJoin?
    requires ClientNext(s, a, s')
    ensures Later(s, s')
  {
    hide WithLink, FireEffect;
  }

  lemma LoopLater(W: nat, s: State, a: Action, s': State)
    requires QueueInv(s.stage, s.queue)
    requires a.Report? || a.Dispatch? || a.EndDispatch? || a.Decide? || a.Receive? || a.Complete? || a.EnqueueOwn? || a.FreeWorker?
    requires LoopNext(W, s, a, s')
    ensures Later(s, s')
  {
    if a.Complete? {
      CompleteLater(W, s, a, s');
    } else if a.Dispatch? {
      DispatchLater(W, s, s');
    }
  }

  lemma CompleteLater(W: nat, s: State, a: Action, s': State)
    requires a.Complete? && LoopNext(W, s, a, s')
    ensures Later(s, s')
  {
    hide FireEffect;
  }

  lemma DispatchLater(W: nat, s: State, s': State)
    requires QueueInv(s.stage, s.queue) && LoopNext(W, s, Dispatch, s')
    ensures Later(s, s')
  {
    assert s.queue[0] in s.queue;
  }

  lemma LaterTransitive(a: State, b: State, c: State)
    requires Later(a, b) && Later(b, c)
    ensures Later(a, c)
  {
  }

  lemma {:induction false} RunLater(W: nat, states: seq<State>, actions: seq<Action>, i: nat, j: nat)
    requires 0 < W && Run(W, states, actions) && i <= j < |states|
    ensures Later(states[i], states[j])
    decreases j - i
  {
    hide Inv, Next, Later, Init;
    if i < j {
      RunLater(W, states, actions, i, j - 1);
      RunKeeps(W, states, actions, j - 1);
      assert Next(W, states[j - 1], actions[j - 1], states[j - 1 + 1]);
      StepLater(W, states[j - 1], actions[j - 1], states[j]);
      LaterTransitive(states[i], states[j - 1], states[j]);
    } else {
      LaterReflexive(states[i]);
    }
  }

  lemma LaterReflexive(s: State)
    ensures Later(s, s)
  {
  }

  lemma StepLater(W: nat, s: State, a: Action, s': State)
    requires Inv(W, s) && Next(W, s, a, s')
    ensures Later(s, s')
  {
    hide Later, GraphInv, HeldInv, LogInv, WorkerInv, MsgInv, OwnInv, LoopInv, ClientNext, LoopNext;
    if a.Report? || a.Dispatch? || a.EndDispatch? || a.Decide? || a.Receive? || a.Complete? || a.EnqueueOwn? || a.FreeWorker? {
      LoopLater(W, s, a, s');
    } else {
      ClientLater(s, a, s');
    }
  }

  /**
   Over a whole run: if `x` has been released by moment `i`, then everything that reaches it through links
   made at any time, before or after, had finished by moment `i`.
   */
  lemma ReleasedOnlyAfterAllDependencies(W: nat, states: seq<State>, actions: seq<Action>, i: nat, j: nat, path: seq<NodeId>)
    requires 0 < W && Run(W, states, actions) && i <= j < |states|
    requires |path| > 1 && Path(states[j].all, path)
    requires IsReleased(states[i].stage, states[i].finished, path[|path| - 1])
    ensures path[0] in states[i].finished
  {
    RunKeeps(W, states, actions, i);
    RunLater(W, states, actions, i, j);
    PathIsOld(W, states[i], states[j], path);
    EverythingBeforeHasFinished(W, states[i], path);
  }

  /** A path to a released node cannot have gained links since. */
  lemma {:induction false} PathIsOld(W: nat, s: State, s': State, path: seq<NodeId>)
    requires Inv(W, s) && Later(s, s') && |path| > 0 && Path(s'.all, path)
    requires IsReleased(s.stage, s.finished, path[|path| - 1])
    ensures Path(s.all, path)
    decreases |path|
  {
    hide Inv, IsReleased;
    if |path| > 1 {
      var d, x := path[|path| - 2], path[|path| - 1];
      assert (d, x) in s'.all;
      assert (d, x) in s.all by { LinkIsOld(s, s', d, x); }
      DirectDependency(W, s, d, x);
      FinishedIsReleased(W, s, d);
      PathIsOld(W, s, s', path[..|path| - 1]);
      forall k | 0 <= k < |path| - 1
        ensures (path[k], path[k + 1]) in s.all
      {
        assert k < |path| - 2 ==> path[..|path| - 1][k] == path[k] && path[..|path| - 1][k + 1] == path[k + 1];
      }
    }
  }

  lemma LinkIsOld(s: State, s': State, d: NodeId, x: NodeId)
    requires Later(s, s') && (d, x) in s'.all && IsReleased(s.stage, s.finished, x)
    ensures (d, x) in s.all
  {
  }

  /** Each task is dispatched at most once in a run, and only after being released. */
  lemma DispatchedOnce(W: nat, states: seq<State>, actions: seq<Action>, k: nat)
    requires 0 < W && Run(W, states, actions) && k < |states|
    ensures Distinct(states[k].log)
    ensures forall t :: t in states[k].log ==> IsReleased(states[k].stage, states[k].finished, t)
    ensures Distinct(states[k].queue) && forall t :: t in states[k].queue ==> t !in states[k].log
  {
    RunKeeps(W, states, actions, k);
  }

  /** The tasks put into the queue, in order, by clients and by the scheduler thread. */
  ghost function Enqueued(actions: seq<Action>): seq<NodeId> {
    if actions == [] then [] else
      var a := actions[|actions| - 1];
      Enqueued(actions[..|actions| - 1]) + (if a.Enqueue? || a.EnqueueOwn? then [a.task] else [])
  }

  lemma StepIsFifo(W: nat, s: State, a: Action, s': State)
    requires Next(W, s, a, s')
    ensures s'.log + s'.queue == s.log + s.queue + (if a.Enqueue? || a.EnqueueOwn? then [a.task] else [])
  {
    if !a.Enqueue? && !a.EnqueueOwn? && !a.Dispatch? {
      QueueUntouched(W, s, a, s') by { hide Next; }
    }
  }

  lemma QueueUntouched(W: nat, s: State, a: Action, s': State)
    requires Next(W, s, a, s') && !a.Enqueue? && !a.EnqueueOwn? && !a.Dispatch?
    ensures s'.queue == s.queue && s'.log == s.log
  {
    hide FireEffect, WithLink;
  }

  /** Tasks are dispatched first in, first out, and none is lost: the dispatched tasks followed by the queue are the tasks
      ever queued, in order. */
  lemma {:induction false} QueueIsFifo(W: nat, states: seq<State>, actions: seq<Action>, k: nat)
    requires Run(W, states, actions) && k < |states|
    ensures states[k].log + states[k].queue == Enqueued(actions[..k])
    decreases k
  {
    hide Next;
    if k > 0 {
      QueueIsFifo(W, states, actions, k - 1);
      assert Next(W, states[k - 1], actions[k - 1], states[k - 1 + 1]);
      StepIsFifo(W, states[k - 1], actions[k - 1], states[k]);
      assert actions[..k][..k - 1] == actions[..k - 1];
    }
  }

  /** Idle and busy workers (and the one being returned) partition the pool. */
  lemma WorkersPartition(W: nat, states: seq<State>, actions: seq<Action>, k: nat, w: nat)
    requires 0 < W && Run(W, states, actions) && k < |states| && w < W
    ensures var s := states[k];
            && (w in s.idle ==> w !in s.busy && s.pc != Enqueuing(w))
            && (w !in s.idle && w !in s.busy ==> s.pc == Enqueuing(w))
            && (forall v :: v in s.busy && w in s.busy && v != w ==> s.busy[v].task != s.busy[w].task)
  {
    RunKeeps(W, states, actions, k);
  }

  /** The loop blocks only while a worker is executing, or when there is nothing to do and no stop request; never
      with a ready task and an idle worker. */
  lemma NeverStuck(W: nat, states: seq<State>, actions: seq<Action>, k: nat)
    requires 0 < W && Run(W, states, actions) && k < |states|
    requires states[k].pc.Waiting? && states[k].msgs == [] && states[k].owed == 0
    ensures var s := states[k];
            || (exists w :: w in s.busy && s.busy[w].Executing?)
            || (s.queue == [] && !s.halt)
    ensures states[k].idle == [] || states[k].queue == []
  {
    RunKeeps(W, states, actions, k);
    var s := states[k];
    if s.busy == map[] {
      AllIdle(W, s.stage, s.idle, s.busy, s.pc);
    } else {
      var w :| w in s.busy;
      assert s.busy[w].Executing?;
    }
  }

  /** A stop request waits in the mailbox or has been taken note of. */
  ghost predicate StopPending(s: State) {
    s.halt || Join in s.msgs
  }

  lemma StopStaysPending(W: nat, s: State, a: Action, s': State)
    requires Next(W, s, a, s') && (StopPending(s) || a.RequestJoin?)
    ensures StopPending(s')
  {
    hide FireEffect, WithLink;
  }

  /** From a stop request on, it is in the mailbox or has been taken note of. */
  lemma {:induction false} StopRequested(W: nat, states: seq<State>, actions: seq<Action>, i: nat, j: nat)
    requires Run(W, states, actions) && i < j < |states| && actions[i].RequestJoin?
    ensures states[j].halt || Join in states[j].msgs
    decreases j
  {
    hide Next;
    assert Next(W, states[j - 1], actions[j - 1], states[j - 1 + 1]);
    if i < j - 1 {
      StopRequested(W, states, actions, i, j - 1);
    }
    StopStaysPending(W, states[j - 1], actions[j - 1], states[j]);
  }

  /** A stop request is honoured: after it, the loop blocks only while a worker is executing. */
  lemma StopHonoured(W: nat, states: seq<State>, actions: seq<Action>, i: nat, j: nat)
    requires 0 < W && Run(W, states, actions) && i < j < |states| && actions[i].RequestJoin?
    requires states[j].pc.Waiting? && states[j].msgs == [] && states[j].owed == 0
    ensures exists w :: w in states[j].busy && states[j].busy[w].Executing?
  {
    StopRequested(W, states, actions, i, j);
    NeverStuck(W, states, actions, j);
  }

  /** Having noted a stop request, the loop decides to stop exactly if no task is ready and no worker is busy. */
  lemma StopsWhenIdle(W: nat, states: seq<State>, actions: seq<Action>, k: nat)
    requires 0 < W && Run(W, states, actions) && k < |actions| && actions[k].Decide? && states[k].halt
    ensures states[k + 1].pc.Stopped? <==> states[k].queue == [] && states[k].busy == map[]
    ensures !states[k + 1].pc.Stopped? ==> states[k + 1].pc.Waiting?
  {
    RunKeeps(W, states, actions, k);
    assert Next(W, states[k], actions[k], states[k + 1]);
    var s := states[k];
    if s.busy == map[] {
      AllIdle(W, s.stage, s.idle, s.busy, s.pc);
    } else if |s.idle| == W {
      NobodyBusy(W, s.stage, s.idle, s.busy, s.pc);
    }
  }

  lemma AllIdle(W: nat, stage: map<NodeId, Stage>, idle: seq<nat>, busy: map<nat, Job>, pc: Pc)
    requires WorkerInv(W, stage, idle, busy, pc) && busy == map[] && !pc.Enqueuing?
    ensures |idle| == W
  {
    DistinctSize(idle);
    assert Elements(idle) == UpTo(W);
  }

  /** When the loop stops, every task that was ever queued has run and its completion has been processed. */
  lemma StopsClean(W: nat, states: seq<State>, actions: seq<Action>, k: nat)
    requires 0 < W && Run(W, states, actions) && 0 < k < |states|
    requires states[k - 1].pc.Deciding? && states[k].pc.Stopped?
    ensures var s := states[k];
            && s.halt && s.queue == [] && s.busy == map[] && |s.idle| == W
            && (forall t :: t in s.stage ==> Unreleased(s.stage[t]) || s.stage[t].Handing? || s.stage[t].Done?)
            && (forall t :: t in s.log ==> t in s.finished)
            && (forall m :: m in s.msgs ==> !m.Completion?)
  {
    RunKeeps(W, states, actions, k - 1);
    RunKeeps(W, states, actions, k);
    assert Next(W, states[k - 1], actions[k - 1], states[k]);
    var s := states[k];
    assert s.halt && s.queue == [] && |s.idle| == W by { hide Inv; Stopping(W, states[k - 1], actions[k - 1], s); }
    NobodyBusy(W, s.stage, s.idle, s.busy, s.pc);
    StoppedStages(W, s);
  }

  lemma Stopping(W: nat, s: State, a: Action, s': State)
    requires Next(W, s, a, s') && s.pc.Deciding? && s'.pc.Stopped?
    ensures s'.halt && s'.queue == [] && |s'.idle| == W && a == Decide
  {
    hide FireEffect, WithLink;
  }

  lemma NobodyBusy(W: nat, stage: map<NodeId, Stage>, idle: seq<nat>, busy: map<nat, Job>, pc: Pc)
    requires WorkerInv(W, stage, idle, busy, pc) && |idle| == W
    ensures busy == map[]
  {
    DistinctSize(idle);
    forall w | w in busy
      ensures false
    {
      assert w !in Elements(idle);
      assert Elements(idle) <= UpTo(W) - {w};
      SubsetSize(Elements(idle), UpTo(W) - {w});
    }
  }

  lemma StoppedStages(W: nat, s: State)
    requires Inv(W, s) && s.pc.Stopped? && s.queue == [] && s.busy == map[]
    ensures forall t :: t in s.stage ==> Unreleased(s.stage[t]) || s.stage[t].Handing? || s.stage[t].Done?
    ensures forall t :: t in s.log ==> t in s.finished
    ensures forall m :: m in s.msgs ==> !m.Completion?
  {
    hide GraphInv, HeldInv;
    forall t | t in s.stage
      ensures Unreleased(s.stage[t]) || s.stage[t].Handing? || s.stage[t].Done?
    {
      assert t !in s.queue;
    }
  }
}
