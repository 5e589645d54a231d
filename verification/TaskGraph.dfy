/**
 The scheduler's dependency graph: nodes with a set of dependents and a count of dependencies.
 Firing a node takes one dependency away from each of its dependents; a continuation that is left
 with none fires in turn, a task that is left with none is released to the queue.
 */
module TaskGraph {
  import opened Counting

  /** Tasks run on workers; continuations only order them. The repository tells them apart by the top bit. */
  datatype NodeId = Task(id: nat) | Continuation(id: nat)

  datatype Node = Node(dependents: set<NodeId>, count: nat)

  type Nodes = map<NodeId, Node>
  type Edge = (NodeId, NodeId)

  /** The nodes with an edge of `E` to `x`. */
  ghost function Into(E: set<Edge>, x: NodeId): set<NodeId> {
    set e | e in E && e.1 == x :: e.0
  }

  /** All edges recorded in the graph. */
  ghost function EdgesOf(nodes: Nodes): set<Edge> {
    set m, x | m in nodes && x in nodes[m].dependents :: (m, x)
  }

  /** The edges of `E` are recorded in the graph, and every count is the number of edges of `E` arriving. */
  ghost predicate Counted(nodes: Nodes, E: set<Edge>) {
    && (forall e :: e in E ==> e.0 in nodes && e.1 in nodes && e.1 in nodes[e.0].dependents)
    && (forall x :: x in nodes ==> nodes[x].count == |Into(E, x)|)
  }

  /** Between two operations every recorded edge counts. */
  ghost predicate Consistent(nodes: Nodes) {
    Counted(nodes, EdgesOf(nodes))
  }

  ghost function SetOf(s: seq<NodeId>): set<NodeId> {
    set x | x in s
  }

  /** The edges that leave none of the nodes in `fired`. */
  ghost function Surviving(E: set<Edge>, fired: set<NodeId>): set<Edge> {
    set e | e in E && e.0 !in fired
  }

  /**
   `fired` lists, in firing order, a node and the continuations its firing sets off: each of them has
   at least one dependency, all of them fired earlier.
   */
  ghost predicate FiringOrder(E: set<Edge>, n: NodeId, fired: seq<NodeId>) {
    && 0 < |fired| && fired[0] == n && Distinct(fired)
    && forall i :: 0 < i < |fired| ==>
         fired[i].Continuation? && Into(E, fired[i]) != {} && Into(E, fired[i]) <= SetOf(fired[..i])
  }

  /** Firing goes on until no further continuation is freed. */
  ghost predicate FiringComplete(nodes: Nodes, E: set<Edge>, fired: set<NodeId>) {
    forall x :: x in nodes && x.Continuation? && x !in fired && Into(E, x) != {} ==> !(Into(E, x) <= fired)
  }

  /** The tasks whose last dependency was among the fired nodes. */
  ghost predicate Released(nodes: Nodes, E: set<Edge>, fired: set<NodeId>, tasks: seq<NodeId>) {
    && Distinct(tasks)
    && forall x :: x in tasks <==> x.Task? && x in nodes && x !in fired && Into(E, x) != {} && Into(E, x) <= fired
  }

  /** The whole effect of firing `n` in a graph with edges `E`. */
  ghost predicate FireEffect(nodes: Nodes, E: set<Edge>, n: NodeId, nodes': Nodes, fired: seq<NodeId>, tasks: seq<NodeId>) {
    && FiringOrder(E, n, fired)
    && FiringComplete(nodes, E, SetOf(fired))
    && Released(nodes, E, SetOf(fired), tasks)
    && SetOf(fired) <= nodes.Keys
    && nodes'.Keys == nodes.Keys - SetOf(fired)
    && (forall x :: x in nodes' ==> nodes'[x].dependents == nodes[x].dependents)
    && Counted(nodes', Surviving(E, SetOf(fired)))
  }

  /** What fires does not depend on the order in which dependents are visited. */
  lemma FiringUnique(nodes: Nodes, E: set<Edge>, n: NodeId, nodes1: Nodes, fired1: seq<NodeId>, tasks1: seq<NodeId>,
                     nodes2: Nodes, fired2: seq<NodeId>, tasks2: seq<NodeId>)
    requires FireEffect(nodes, E, n, nodes1, fired1, tasks1) && FireEffect(nodes, E, n, nodes2, fired2, tasks2)
    ensures SetOf(fired1) == SetOf(fired2) && nodes1 == nodes2 && SetOf(tasks1) == SetOf(tasks2)
  {
    hide Into;
    FiringLeast(nodes, E, n, fired1, fired2, |fired1|);
    FiringLeast(nodes, E, n, fired2, fired1, |fired2|);
    assert fired1[..|fired1|] == fired1 && fired2[..|fired2|] == fired2;
    assert forall x :: x in tasks1 <==> x in tasks2;
  }

  lemma {:induction false} FiringLeast(nodes: Nodes, E: set<Edge>, n: NodeId, fired1: seq<NodeId>, fired2: seq<NodeId>, k: nat)
    requires FiringOrder(E, n, fired1) && FiringOrder(E, n, fired2) && FiringComplete(nodes, E, SetOf(fired2))
    requires k <= |fired1| && SetOf(fired1) <= nodes.Keys
    ensures SetOf(fired1[..k]) <= SetOf(fired2)
  {
    hide FiringOrder, FiringComplete, Into, SetOf;
    Listed(fired1[..k]);
    if k > 0 {
      FiringLeast(nodes, E, n, fired1, fired2, k - 1);
      var f := fired1[k - 1];
      assert fired1[..k] == fired1[..k - 1] + [f];
      SetOfAppend(fired1[..k - 1], [f]);
      OrderAt(E, n, fired1, k - 1);
      if k == 1 {
        FirstFired(E, n, fired2);
      } else {
        FreedFires(nodes, E, fired2, f, SetOf(fired1[..k - 1]));
      }
      Listed([f]);
    }
  }

  lemma Listed(s: seq<NodeId>)
    ensures |s| == 0 ==> SetOf(s) == {}
    ensures |s| == 1 ==> SetOf(s) == {s[0]}
  {
  }

  lemma OrderAt(E: set<Edge>, n: NodeId, fired: seq<NodeId>, i: nat)
    requires FiringOrder(E, n, fired) && i < |fired|
    ensures fired[i] in SetOf(fired) && fired[0] == n
    ensures 0 < i ==> fired[i].Continuation? && Into(E, fired[i]) != {} && Into(E, fired[i]) <= SetOf(fired[..i])
  {
  }

  lemma FreedFires(nodes: Nodes, E: set<Edge>, fired: seq<NodeId>, f: NodeId, before: set<NodeId>)
    requires FiringComplete(nodes, E, SetOf(fired)) && f in nodes && f.Continuation?
    requires Into(E, f) != {} && Into(E, f) <= before <= SetOf(fired)
    ensures f in SetOf(fired)
  {
  }

  // ---------- Adding a link ----------

  /** Record that `x` depends on `d`; nodes come into being when first mentioned, and a link counts once. */
  function WithLink(nodes: Nodes, d: NodeId, x: NodeId): Nodes {
    var n1 := if d in nodes then nodes else nodes[d := Node({}, 0)];
    if x in n1[d].dependents then n1
    else
      var n2 := n1[d := n1[d].(dependents := n1[d].dependents + {x})];
      var nx := if x in n2 then n2[x] else Node({}, 0);
      n2[x := nx.(count := nx.count + 1)]
  }

  lemma EdgeIn(nodes: Nodes, m: NodeId, y: NodeId)
    ensures (m, y) in EdgesOf(nodes) <==> m in nodes && y in nodes[m].dependents
  {
  }

  /** What a link changes at a node. */
  lemma LinkAt(nodes: Nodes, d: NodeId, x: NodeId, m: NodeId)
    ensures m in WithLink(nodes, d, x) <==> m in nodes || m == d || (m == x && !(d in nodes && x in nodes[d].dependents))
    ensures m in WithLink(nodes, d, x) ==>
              && WithLink(nodes, d, x)[m].dependents == (if m in nodes then nodes[m].dependents else {}) + (if m == d then {x} else {})
              && WithLink(nodes, d, x)[m].count == (if m in nodes then nodes[m].count else 0)
                   + (if m == x && !(d in nodes && x in nodes[d].dependents) then 1 else 0)
  {
  }

  lemma LinkAddsEdge(nodes: Nodes, d: NodeId, x: NodeId)
    requires Consistent(nodes)
    ensures EdgesOf(WithLink(nodes, d, x)) == EdgesOf(nodes) + {(d, x)}
    ensures WithLink(nodes, d, x).Keys == nodes.Keys + {d, x}
  {
    hide WithLink, EdgesOf, Counted;
    var n' := WithLink(nodes, d, x);
    forall e: Edge
      ensures e in EdgesOf(n') <==> e in EdgesOf(nodes) + {(d, x)}
    {
      EdgeIn(n', e.0, e.1);
      EdgeIn(nodes, e.0, e.1);
      LinkAt(nodes, d, x, e.0);
    }
    forall m
      ensures m in n' <==> m in nodes.Keys + {d, x}
    {
      LinkAt(nodes, d, x, m);
      EdgeIn(nodes, d, x);
      EdgeEnds(nodes, d, x);
    }
  }

  lemma EdgeEnds(nodes: Nodes, d: NodeId, x: NodeId)
    requires Consistent(nodes)
    ensures (d, x) in EdgesOf(nodes) ==> d in nodes && x in nodes
  {
  }

  lemma LinkKeepsConsistent(nodes: Nodes, d: NodeId, x: NodeId)
    requires Consistent(nodes)
    ensures Consistent(WithLink(nodes, d, x))
  {
    hide WithLink, EdgesOf, Into;
    var n' := WithLink(nodes, d, x);
    LinkAddsEdge(nodes, d, x);
    forall y | y in n'
      ensures n'[y].count == |Into(EdgesOf(n'), y)|
    {
      LinkCounts(nodes, d, x, y);
    }
    forall e | e in EdgesOf(n')
      ensures e.0 in n' && e.1 in n' && e.1 in n'[e.0].dependents
    {
      EdgeIn(n', e.0, e.1);
    }
  }

  lemma LinkCounts(nodes: Nodes, d: NodeId, x: NodeId, y: NodeId)
    requires Consistent(nodes) && y in WithLink(nodes, d, x)
    ensures WithLink(nodes, d, x)[y].count == |Into(EdgesOf(nodes) + {(d, x)}, y)|
  {
    hide WithLink, EdgesOf, Into;
    var E := EdgesOf(nodes);
    LinkAt(nodes, d, x, y);
    EdgeIn(nodes, d, x);
    if y !in nodes {
      NoEdgeInto(nodes, y);
    }
    if (d, x) in E {
      assert E + {(d, x)} == E;
    } else {
      IntoWith(E, d, x, y);
    }
  }

  lemma NoEdgeInto(nodes: Nodes, y: NodeId)
    requires Consistent(nodes) && y !in nodes
    ensures Into(EdgesOf(nodes), y) == {}
  {
  }

  lemma IntoWith(E: set<Edge>, d: NodeId, x: NodeId, y: NodeId)
    requires (d, x) !in E
    ensures Into(E + {(d, x)}, y) == if y == x then Into(E, y) + {d} else Into(E, y)
    ensures d !in Into(E, x)
  {
    forall m
      ensures m in Into(E + {(d, x)}, y) <==> m in Into(E, y) || (y == x && m == d)
    {
      assert m in Into(E, y) <==> (m, y) in E;
      assert m in Into(E + {(d, x)}, y) <==> (m, y) in E + {(d, x)};
    }
    assert d in Into(E, x) <==> (d, x) in E;
  }

  // ---------- Inside a firing ----------

  /** What is left of `E` while `n` fires: `gone` have fired completely, `n` has served `served`. */
  ghost function Partly(E: set<Edge>, gone: set<NodeId>, n: NodeId, served: set<NodeId>): set<Edge> {
    set e | e in E && e.0 !in gone && !(e.0 == n && e.1 in served)
  }

  lemma IntoPartly(E: set<Edge>, gone: set<NodeId>, n: NodeId, served: set<NodeId>, x: NodeId)
    ensures Into(Partly(E, gone, n, served), x) == Into(E, x) - gone - (if x in served then {n} else {})
  {
    var F := Partly(E, gone, n, served);
    forall m
      ensures m in Into(F, x) <==> m in Into(E, x) && m !in gone && !(x in served && m == n)
    {
      assert m in Into(E, x) <==> (m, x) in E;
      assert m in Into(F, x) <==> (m, x) in F;
    }
  }

  lemma IntoSurviving(E: set<Edge>, fired: set<NodeId>, x: NodeId)
    ensures Into(Surviving(E, fired), x) == Into(E, x) - fired
  {
    forall m
      ensures m in Into(Surviving(E, fired), x) <==> m in Into(E, x) && m !in fired
    {
      assert m in Into(E, x) <==> (m, x) in E;
      assert m in Into(Surviving(E, fired), x) <==> (m, x) in Surviving(E, fired);
    }
  }

  lemma IntoWithout(E: set<Edge>, n: NodeId, x: NodeId, y: NodeId)
    requires (n, x) in E
    ensures Into(E - {(n, x)}, y) == if y == x then Into(E, y) - {n} else Into(E, y)
    ensures n in Into(E, x)
  {
    forall m
      ensures m in Into(E - {(n, x)}, y) <==> m in Into(E, y) && !(y == x && m == n)
    {
      assert m in Into(E, y) <==> (m, y) in E;
      assert m in Into(E - {(n, x)}, y) <==> (m, y) in E - {(n, x)};
    }
    assert n in Into(E, x) <==> (n, x) in E;
  }

  /** No edge of a node outside `busy` has been used up; nodes in `busy` have no open dependency. */
  ghost predicate Untouched(nodes: Nodes, E: set<Edge>, busy: set<NodeId>) {
    && (forall m, x :: m in nodes && m !in busy && x in nodes[m].dependents ==> (m, x) in E)
    && (forall b :: b in busy ==> Into(E, b) == {})
  }

  ghost predicate InPool(nodes: Nodes, E: set<Edge>, pool: set<NodeId>) {
    forall x :: x in nodes && x.Task? && Into(E, x) != {} ==> x in pool
  }

  /** Continuations still in the graph keep an open dependency; freed tasks are exactly `tasks`. */
  ghost predicate Settled(nodes0: Nodes, E: set<Edge>, n: NodeId, fired: set<NodeId>, tasks: seq<NodeId>, F: set<Edge>) {
    && (forall x :: x in nodes0 && x.Continuation? && x !in fired && Into(E, x) != {} ==> Into(F, x) != {})
    && Distinct(tasks)
    && (forall x :: x in tasks <==> x.Task? && x in nodes0 && x !in fired && Into(E, x) != {} && Into(F, x) == {})
  }

  /** The state of the loop over the dependents of `n`. */
  ghost predicate Midway(nodes0: Nodes, E: set<Edge>, n: NodeId, busy: set<NodeId>, served: set<NodeId>,
                         fired: seq<NodeId>, tasks: seq<NodeId>, nodes: Nodes, F: set<Edge>)
  {
    && FiringOrder(E, n, fired)
    && SetOf(fired) <= nodes0.Keys
    && F == Partly(E, SetOf(fired) - {n}, n, served)
    && nodes.Keys == nodes0.Keys - (SetOf(fired) - {n})
    && (forall x :: x in nodes ==> nodes[x].dependents == nodes0[x].dependents)
    && Counted(nodes, F)
    && Settled(nodes0, E, n, SetOf(fired), tasks, F)
    && Untouched(nodes, F, busy + {n})
  }

  lemma MidwayStarts(nodes: Nodes, E: set<Edge>, n: NodeId, busy: set<NodeId>)
    requires Counted(nodes, E) && n in nodes && Into(E, n) == {} && Untouched(nodes, E, busy)
    ensures Midway(nodes, E, n, busy, {}, [n], [], nodes, E)
  {
    assert SetOf([n]) == {n};
    assert Partly(E, {}, n, {}) == E;
  }

  lemma MidwayEnds(nodes0: Nodes, E: set<Edge>, n: NodeId, busy: set<NodeId>, served: set<NodeId>,
                   fired: seq<NodeId>, tasks: seq<NodeId>, nodes: Nodes, F: set<Edge>)
    requires Midway(nodes0, E, n, busy, served, fired, tasks, nodes, F)
    requires Counted(nodes0, E) && n in nodes0 && Into(E, n) == {} && served == nodes0[n].dependents
    ensures FireEffect(nodes0, E, n, nodes - {n}, fired, tasks)
  {
    hide Settled, Untouched, FiringComplete, Released, Counted, FiringOrder, Surviving, Partly, Into;
    var G := SetOf(fired);
    FirstFired(E, n, fired);
    AllServed(nodes0, E, n, G);
    SettledReleases(nodes0, E, n, G, tasks);
    CountedWithout(nodes, E, G, n);
  }

  lemma FirstFired(E: set<Edge>, n: NodeId, fired: seq<NodeId>)
    requires FiringOrder(E, n, fired)
    ensures n in SetOf(fired)
  {
    assert fired[0] in fired;
  }

  lemma AllServed(nodes0: Nodes, E: set<Edge>, n: NodeId, G: set<NodeId>)
    requires Counted(nodes0, E) && n in nodes0 && n in G
    ensures Partly(E, G - {n}, n, nodes0[n].dependents) == Surviving(E, G)
  {
  }

  lemma SettledReleases(nodes0: Nodes, E: set<Edge>, n: NodeId, G: set<NodeId>, tasks: seq<NodeId>)
    requires Settled(nodes0, E, n, G, tasks, Surviving(E, G))
    ensures FiringComplete(nodes0, E, G) && Released(nodes0, E, G, tasks)
  {
    forall x
      ensures Into(Surviving(E, G), x) == Into(E, x) - G
    {
      IntoSurviving(E, G, x);
    }
    forall x
      ensures Into(E, x) <= G <==> Into(Surviving(E, G), x) == {}
    {
      if Into(E, x) - G == {} {
        forall m | m in Into(E, x)
          ensures m in G
        {
          assert m in G || m in Into(E, x) - G;
        }
      }
    }
  }

  lemma CountedWithout(nodes: Nodes, E: set<Edge>, G: set<NodeId>, n: NodeId)
    requires Counted(nodes, Surviving(E, G)) && Into(E, n) == {} && n in G
    ensures Counted(nodes - {n}, Surviving(E, G))
  {
    forall e | e in Surviving(E, G)
      ensures e.1 != n
    {
      assert e.0 in Into(E, e.1);
    }
  }

  /** Taking the dependency on `n` away from `x`. */
  ghost function Lowered(nodes: Nodes, x: NodeId): Nodes
    requires x in nodes && nodes[x].count > 0
  {
    nodes[x := nodes[x].(count := nodes[x].count - 1)]
  }

  lemma LowerCounts(nodes: Nodes, F: set<Edge>, n: NodeId, x: NodeId)
    requires Counted(nodes, F) && (n, x) in F
    ensures x in nodes && nodes[x].count > 0
    ensures Counted(Lowered(nodes, x), F - {(n, x)})
    ensures Lowered(nodes, x)[x].count == 0 <==> Into(F - {(n, x)}, x) == {}
  {
    IntoWithout(F, n, x, x);
    forall y | y in nodes
      ensures Lowered(nodes, x)[y].count == |Into(F - {(n, x)}, y)|
    {
      IntoWithout(F, n, x, y);
    }
  }

  // The three ways one dependent is served.

  lemma ServeLeaves(nodes0: Nodes, E: set<Edge>, n: NodeId, busy: set<NodeId>, served: set<NodeId>,
                    fired: seq<NodeId>, tasks: seq<NodeId>, nodes: Nodes, F: set<Edge>, x: NodeId)
    requires Midway(nodes0, E, n, busy, served, fired, tasks, nodes, F)
    requires n !in busy && x in nodes0 && x !in served && (n, x) in F && Into(F - {(n, x)}, x) != {}
    ensures x in nodes && nodes[x].count > 0
    ensures Midway(nodes0, E, n, busy, served + {x}, fired, tasks, Lowered(nodes, x), F - {(n, x)})
  {
    hide Settled, Untouched, Counted, FiringOrder;
    LowerCounts(nodes, F, n, x);
    ServedEdge(E, SetOf(fired) - {n}, n, served, x);
    SettledStays(nodes0, E, n, SetOf(fired), tasks, F, x);
    UntouchedServes(nodes, F, busy, n, x);
  }

  lemma ServedEdge(E: set<Edge>, gone: set<NodeId>, n: NodeId, served: set<NodeId>, x: NodeId)
    ensures Partly(E, gone, n, served + {x}) == Partly(E, gone, n, served) - {(n, x)}
  {
  }

  lemma SettledStays(nodes0: Nodes, E: set<Edge>, n: NodeId, G: set<NodeId>, tasks: seq<NodeId>, F: set<Edge>, x: NodeId)
    requires Settled(nodes0, E, n, G, tasks, F) && (n, x) in F && Into(F - {(n, x)}, x) != {}
    ensures Settled(nodes0, E, n, G, tasks, F - {(n, x)})
  {
    forall y
      ensures Into(F, y) == {} <==> Into(F - {(n, x)}, y) == {}
    {
      IntoWithout(F, n, x, y);
    }
  }

  lemma UntouchedServes(nodes: Nodes, F: set<Edge>, busy: set<NodeId>, n: NodeId, x: NodeId)
    requires Untouched(nodes, F, busy + {n}) && (n, x) in F && x in nodes && nodes[x].count > 0
    ensures Untouched(Lowered(nodes, x), F - {(n, x)}, busy + {n})
  {
    forall b | b in busy + {n}
      ensures Into(F - {(n, x)}, b) == {}
    {
      IntoWithout(F, n, x, b);
    }
  }

  lemma ServeTask(nodes0: Nodes, E: set<Edge>, n: NodeId, busy: set<NodeId>, served: set<NodeId>,
                  fired: seq<NodeId>, tasks: seq<NodeId>, nodes: Nodes, F: set<Edge>, x: NodeId)
    requires Midway(nodes0, E, n, busy, served, fired, tasks, nodes, F)
    requires n !in busy && x in nodes0 && x !in served && (n, x) in F && Into(F - {(n, x)}, x) == {} && x.Task?
    ensures x in nodes && nodes[x].count > 0 && x !in tasks
    ensures Midway(nodes0, E, n, busy, served + {x}, fired, tasks + [x], Lowered(nodes, x), F - {(n, x)})
  {
    hide Settled, Untouched, Counted, FiringOrder;
    LowerCounts(nodes, F, n, x);
    ServedEdge(E, SetOf(fired) - {n}, n, served, x);
    NotSelf(nodes, F, busy, n, x);
    assert x !in SetOf(fired) by { NotFired(nodes0, E, n, fired, nodes, x); }
    SettledTask(nodes0, E, n, SetOf(fired), tasks, F, x);
    UntouchedServes(nodes, F, busy, n, x);
  }

  lemma NotSelf(nodes: Nodes, F: set<Edge>, busy: set<NodeId>, n: NodeId, x: NodeId)
    requires Untouched(nodes, F, busy + {n}) && (n, x) in F
    ensures x != n && x !in busy && Into(F, n) == {}
  {
    IntoWithout(F, n, x, x);
  }

  lemma NotFired(nodes0: Nodes, E: set<Edge>, n: NodeId, fired: seq<NodeId>, nodes: Nodes, x: NodeId)
    requires FiringOrder(E, n, fired) && x != n
    requires x in nodes && nodes.Keys == nodes0.Keys - (SetOf(fired) - {n})
    ensures x !in SetOf(fired)
  {
  }

  lemma SettledTask(nodes0: Nodes, E: set<Edge>, n: NodeId, G: set<NodeId>, tasks: seq<NodeId>, F: set<Edge>, x: NodeId)
    requires Settled(nodes0, E, n, G, tasks, F) && (n, x) in F && Into(F - {(n, x)}, x) == {} && F <= E
    requires x.Task? && x in nodes0 && x !in G
    ensures x !in tasks
    ensures Settled(nodes0, E, n, G, tasks + [x], F - {(n, x)})
  {
    forall y
      ensures y != x ==> (Into(F, y) == {} <==> Into(F - {(n, x)}, y) == {})
    {
      IntoWithout(F, n, x, y);
    }
    IntoWithout(F, n, x, x);
    assert n in Into(E, x);
  }

  lemma ServeContinuation(nodes0: Nodes, E: set<Edge>, n: NodeId, busy: set<NodeId>, served: set<NodeId>,
                          fired: seq<NodeId>, tasks: seq<NodeId>, nodes: Nodes, F: set<Edge>, x: NodeId,
                          nodes2: Nodes, fired2: seq<NodeId>, tasks2: seq<NodeId>)
    requires Midway(nodes0, E, n, busy, served, fired, tasks, nodes, F)
    requires n !in busy && x !in served && (n, x) in F && Into(F - {(n, x)}, x) == {} && x.Continuation?
    requires x in nodes && nodes[x].count > 0
    requires FireEffect(Lowered(nodes, x), F - {(n, x)}, x, nodes2, fired2, tasks2)
    ensures Midway(nodes0, E, n, busy, served + {x}, fired + fired2, tasks + tasks2, nodes2, Surviving(F - {(n, x)}, SetOf(fired2)))
  {
    hide Settled, Untouched, Counted, FiringOrder, FiringComplete, Released, Into, Partly, Surviving;
    var F1, G, G2 := F - {(n, x)}, SetOf(fired), SetOf(fired2);
    SetOfAppend(fired, fired2);
    ServedEdge(E, G - {n}, n, served, x);
    UntouchedServes(nodes, F, busy, n, x);
    NotSelf(nodes, F, busy, n, x);
    PartlySubset(E, G - {n}, n, served);
    NotAgain(Lowered(nodes, x), F1, busy, n, x, fired2);
    OrderExtends(E, n, fired, served, F, x, fired2, nodes0, nodes);
    FirstFired(E, n, fired);
    assert (G - {n}) + G2 == (G + G2) - {n};
    SurvivingPartly(E, G - {n}, n, served + {x}, G2);
    SettledCascade(nodes0, E, n, G, tasks, F, x, Lowered(nodes, x), fired2, tasks2);
    UntouchedCascade(Lowered(nodes, x), F1, busy + {n}, nodes2, G2);
  }

  lemma PartlySubset(E: set<Edge>, gone: set<NodeId>, n: NodeId, served: set<NodeId>)
    ensures Partly(E, gone, n, served) <= E
  {
  }

  lemma SetOfAppend(a: seq<NodeId>, b: seq<NodeId>)
    ensures SetOf(a + b) == SetOf(a) + SetOf(b)
  {
  }

  /** A cascade below `n` does not come back to `n` or to a node that is waiting further up. */
  lemma NotAgain(nodes: Nodes, F1: set<Edge>, busy: set<NodeId>, n: NodeId, x: NodeId, fired2: seq<NodeId>)
    requires Untouched(nodes, F1, busy + {n}) && FiringOrder(F1, x, fired2) && x != n && x !in busy
    ensures n !in SetOf(fired2) && SetOf(fired2) !! busy
  {
    forall i | 0 <= i < |fired2|
      ensures fired2[i] != n && fired2[i] !in busy
    {
    }
  }

  lemma OrderExtends(E: set<Edge>, n: NodeId, fired: seq<NodeId>, served: set<NodeId>, F: set<Edge>, x: NodeId,
                     fired2: seq<NodeId>, nodes0: Nodes, nodes: Nodes)
    requires FiringOrder(E, n, fired) && F == Partly(E, SetOf(fired) - {n}, n, served) && (n, x) in F && F <= E
    requires FiringOrder(F - {(n, x)}, x, fired2) && x.Continuation? && Into(F - {(n, x)}, x) == {}
    requires nodes.Keys == nodes0.Keys - (SetOf(fired) - {n}) && SetOf(fired2) <= nodes.Keys && n !in SetOf(fired2)
    ensures FiringOrder(E, n, fired + fired2)
  {
    hide Into, Partly;
    var all := fired + fired2;
    forall i | 0 < i < |all|
      ensures all[i].Continuation? && Into(E, all[i]) != {} && Into(E, all[i]) <= SetOf(all[..i])
    {
      if i < |fired| {
        assert all[..i] == fired[..i] && all[i] == fired[i];
      } else {
        assert all[..i] == fired + fired2[..i - |fired|] && all[i] == fired2[i - |fired|];
        OrderExtendsAt(E, n, fired, served, F, x, fired2, i - |fired|);
      }
    }
    NoRepeats(fired, fired2, n, nodes0.Keys, nodes.Keys);
  }

  lemma NoRepeats(fired: seq<NodeId>, fired2: seq<NodeId>, n: NodeId, keys0: set<NodeId>, keys: set<NodeId>)
    requires Distinct(fired) && Distinct(fired2)
    requires keys == keys0 - (SetOf(fired) - {n}) && SetOf(fired2) <= keys && n !in SetOf(fired2)
    ensures Distinct(fired + fired2)
  {
    var all := fired + fired2;
    forall i, j | 0 <= i < j < |all|
      ensures all[i] != all[j]
    {
      if i < |fired| <= j {
        assert all[j] in SetOf(fired2);
        assert all[i] in SetOf(fired);
      }
    }
  }

  lemma OrderExtendsAt(E: set<Edge>, n: NodeId, fired: seq<NodeId>, served: set<NodeId>, F: set<Edge>, x: NodeId,
                       fired2: seq<NodeId>, j: nat)
    requires FiringOrder(E, n, fired) && F == Partly(E, SetOf(fired) - {n}, n, served) && (n, x) in F && F <= E
    requires FiringOrder(F - {(n, x)}, x, fired2) && x.Continuation? && Into(F - {(n, x)}, x) == {} && j < |fired2|
    ensures var y := fired2[j];
            y.Continuation? && Into(E, y) != {} && Into(E, y) <= SetOf(fired + fired2[..j])
  {
    hide Into, Partly;
    var y := fired2[j];
    SetOfAppend(fired, fired2[..j]);
    ServedEdge(E, SetOf(fired) - {n}, n, served, x);
    IntoPartly(E, SetOf(fired) - {n}, n, served + {x}, y);
    FirstFired(E, n, fired);
    IntoWithout(E, n, x, x);
    assert Into(F - {(n, x)}, y) <= SetOf(fired2[..j]);
    forall m | m in Into(E, y)
      ensures m in SetOf(fired) + SetOf(fired2[..j])
    {
      assert m in SetOf(fired) || m in Into(F - {(n, x)}, y);
    }
  }

  lemma SurvivingPartly(E: set<Edge>, gone: set<NodeId>, n: NodeId, served: set<NodeId>, G2: set<NodeId>)
    ensures Surviving(Partly(E, gone, n, served), G2) == Partly(E, gone + G2, n, served)
  {
  }

  lemma UntouchedCascade(nodes: Nodes, F1: set<Edge>, busy: set<NodeId>, nodes2: Nodes, G2: set<NodeId>)
    requires Untouched(nodes, F1, busy) && nodes2.Keys == nodes.Keys - G2
    requires forall x :: x in nodes2 ==> nodes2[x].dependents == nodes[x].dependents
    ensures Untouched(nodes2, Surviving(F1, G2), busy)
  {
    forall b | b in busy
      ensures Into(Surviving(F1, G2), b) == {}
    {
      IntoSurviving(F1, G2, b);
    }
  }

  lemma SettledCascade(nodes0: Nodes, E: set<Edge>, n: NodeId, G: set<NodeId>, tasks: seq<NodeId>, F: set<Edge>, x: NodeId,
                       nodes1: Nodes, fired2: seq<NodeId>, tasks2: seq<NodeId>)
    requires Settled(nodes0, E, n, G, tasks, F) && (n, x) in F && Into(F - {(n, x)}, x) == {} && F <= E && x.Continuation?
    requires nodes1.Keys == nodes0.Keys - (G - {n}) && n in G && Into(F, n) == {}
    requires FiringOrder(F - {(n, x)}, x, fired2)
    requires FiringComplete(nodes1, F - {(n, x)}, SetOf(fired2)) && Released(nodes1, F - {(n, x)}, SetOf(fired2), tasks2)
    ensures Settled(nodes0, E, n, G + SetOf(fired2), tasks + tasks2, Surviving(F - {(n, x)}, SetOf(fired2)))
  {
    hide Into, Surviving, FiringOrder;
    var F1, G2 := F - {(n, x)}, SetOf(fired2);
    var F2 := Surviving(F1, G2);
    CascadeContinuations(F1, x, fired2);
    forall y
      ensures y in nodes0 && y.Continuation? && y !in G + G2 && Into(E, y) != {} ==> Into(F2, y) != {}
      ensures y in tasks + tasks2 <==>
        y.Task? && y in nodes0 && y !in G + G2 && Into(E, y) != {} && Into(F2, y) == {}
      ensures y in tasks ==> y !in tasks2
    {
      IntoWithout(F, n, x, x);
      IntoCascade(E, F, n, x, G2, y);
    }
    DistinctAppend(tasks, tasks2);
  }

  lemma CascadeContinuations(F1: set<Edge>, x: NodeId, fired2: seq<NodeId>)
    requires FiringOrder(F1, x, fired2) && x.Continuation?
    ensures x in SetOf(fired2) && forall y :: y in SetOf(fired2) ==> y.Continuation?
  {
    FirstFired(F1, x, fired2);
  }

  lemma IntoCascade(E: set<Edge>, F: set<Edge>, n: NodeId, x: NodeId, G2: set<NodeId>, y: NodeId)
    requires (n, x) in F && F <= E
    ensures var F1 := F - {(n, x)};
            && (y != x ==> Into(F1, y) == Into(F, y))
            && Into(F1, y) <= Into(E, y)
            && (Into(Surviving(F1, G2), y) == {} <==> Into(F1, y) <= G2)
  {
    var F1 := F - {(n, x)};
    IntoSurviving(F1, G2, y);
    IntoWithout(F, n, x, y);
    if Into(F1, y) - G2 == {} {
      forall m | m in Into(F1, y)
        ensures m in G2
      {
        assert m in G2 || m in Into(F1, y) - G2;
      }
    }
  }

  lemma Unserved(nodes0: Nodes, E: set<Edge>, n: NodeId, busy: set<NodeId>, served: set<NodeId>,
                 fired: seq<NodeId>, tasks: seq<NodeId>, nodes: Nodes, F: set<Edge>, x: NodeId, pool: set<NodeId>)
    requires Midway(nodes0, E, n, busy, served, fired, tasks, nodes, F)
    requires Counted(nodes0, E) && Untouched(nodes0, E, busy) && n !in busy && InPool(nodes0, E, pool)
    requires n in nodes0 && x in nodes0[n].dependents && x !in served
    ensures (n, x) in F && x in nodes && x in nodes0 && nodes[x].count > 0 && x != n && x !in busy
    ensures F - {(n, x)} < E
    ensures Counted(Lowered(nodes, x), F - {(n, x)}) && Untouched(Lowered(nodes, x), F - {(n, x)}, busy + {n})
    ensures Lowered(nodes, x)[x].count == 0 <==> Into(F - {(n, x)}, x) == {}
    ensures x.Task? ==> x in pool
  {
    hide Settled, FiringOrder, Counted, Into, Untouched;
    EdgeOpen(nodes0, E, n, busy, x);
    PartlySubset(E, SetOf(fired) - {n}, n, served);
    LowerCounts(nodes, F, n, x);
    NotSelf(nodes, F, busy, n, x);
    UntouchedServes(nodes, F, busy, n, x);
  }

  lemma EdgeOpen(nodes0: Nodes, E: set<Edge>, n: NodeId, busy: set<NodeId>, x: NodeId)
    requires Counted(nodes0, E) && Untouched(nodes0, E, busy) && n !in busy && n in nodes0 && x in nodes0[n].dependents
    ensures (n, x) in E && x in nodes0 && Into(E, x) != {}
  {
    IntoWithout(E, n, x, x);
  }

  /** The tasks that may still be released are in the pool. */
  lemma PooledStill(nodes0: Nodes, E: set<Edge>, n: NodeId, busy: set<NodeId>, served: set<NodeId>,
                    fired: seq<NodeId>, tasks: seq<NodeId>, nodes: Nodes, F: set<Edge>, x: NodeId, pool: set<NodeId>)
    requires Midway(nodes0, E, n, busy, served, fired, tasks, nodes, F)
    requires (n, x) in F && x in nodes && nodes[x].count > 0 && InPool(nodes0, E, pool)
    ensures InPool(Lowered(nodes, x), F - {(n, x)}, pool - SetOf(tasks))
  {
    hide FiringOrder, Counted, Into, Untouched;
    PartlySubset(E, SetOf(fired) - {n}, n, served);
    forall y | y in nodes && y.Task? && Into(F - {(n, x)}, y) != {}
      ensures y in pool - SetOf(tasks)
    {
      IntoShrinks(F, E, n, x, y);
    }
  }

  lemma IntoShrinks(F: set<Edge>, E: set<Edge>, n: NodeId, x: NodeId, y: NodeId)
    requires F <= E
    ensures Into(F - {(n, x)}, y) <= Into(F, y) <= Into(E, y)
  {
  }
}
