/** A disjoint-set forest with path compression and union by rank. */
module DisjointSet {
  import opened Connectivity

  datatype Node = Node(rank: nat, parent: nat)

  /**
   `root` and `depth` describe the forest: parents lead to roots, and `depth` falls on the way up. It is what
   makes climbing terminate; ranks cannot be used, because compressing a path may lower the rank of a root.
   */
  ghost predicate Shape(nodes: seq<Node>, root: seq<nat>, depth: seq<nat>) {
    && |nodes| == |root| == |depth|
    && (forall i :: 0 <= i < |nodes| ==> nodes[i].parent < |nodes| && root[i] < |nodes|)
    && (forall i :: 0 <= i < |nodes| ==> nodes[root[i]].parent == root[i] && depth[root[i]] <= depth[i])
    && (forall i :: 0 <= i < |nodes| && nodes[i].parent == i ==> root[i] == i)
    && (forall i :: 0 <= i < |nodes| && nodes[i].parent != i ==> root[nodes[i].parent] == root[i] && depth[nodes[i].parent] < depth[i])
  }

  /** Two elements share a root exactly when a chain of merges links them. */
  ghost predicate Tracks<T(!new)>(position: map<T, nat>, root: seq<nat>, links: set<(T, T)>) {
    && (forall a :: a in position ==> position[a] < |root|)
    && (forall a, b :: a in position && b in position && position[a] == position[b] ==> a == b)
    && (forall l :: l in links ==> l.0 in position && l.1 in position)
    && (forall a, b :: a in position && b in position ==> (root[position[a]] == root[position[b]] <==> Connected(links, a, b)))
  }

  /** The highest rank below the root on the way up from `i`. */
  ghost function PathRank(nodes: seq<Node>, root: seq<nat>, depth: seq<nat>, i: nat): nat
    requires Shape(nodes, root, depth) && i < |nodes|
    decreases depth[i]
  {
    if nodes[i].parent == i then 0
    else
      Max(nodes[i].rank, PathRank(nodes, root, depth, nodes[i].parent))
  }

  function Max(a: nat, b: nat): nat {
    if a > b then a else b
  }

  /** The nodes on the way up from `i`, the root included. */
  ghost function WayUp(nodes: seq<Node>, root: seq<nat>, depth: seq<nat>, i: nat): set<nat>
    requires Shape(nodes, root, depth) && i < |nodes|
    decreases depth[i]
  {
    if nodes[i].parent == i then {i} else {i} + WayUp(nodes, root, depth, nodes[i].parent)
  }

  lemma WayStep(nodes: seq<Node>, root: seq<nat>, depth: seq<nat>, i: nat)
    requires Shape(nodes, root, depth) && i < |nodes|
    ensures i != root[i] ==> WayUp(nodes, root, depth, i) == {i} + WayUp(nodes, root, depth, nodes[i].parent)
    ensures i == root[i] ==> WayUp(nodes, root, depth, i) == {i}
  {
  }

  lemma Climb(nodes: seq<Node>, root: seq<nat>, depth: seq<nat>, i: nat)
    requires Shape(nodes, root, depth) && i < |nodes| && i != root[i]
    ensures nodes[i].parent < |nodes| && root[nodes[i].parent] == root[i] && depth[nodes[i].parent] < depth[i]
    ensures PathRank(nodes, root, depth, i) == Max(nodes[i].rank, PathRank(nodes, root, depth, nodes[i].parent))
  {
  }

  lemma RootRank(nodes: seq<Node>, root: seq<nat>, depth: seq<nat>, i: nat)
    requires Shape(nodes, root, depth) && i < |nodes|
    ensures root[i] < |nodes| && nodes[root[i]].parent == root[i] && PathRank(nodes, root, depth, root[i]) == 0
  {
  }

  lemma RootsAreRoots(nodes: seq<Node>, root: seq<nat>, depth: seq<nat>, i: nat)
    requires Shape(nodes, root, depth) && i < |nodes|
    ensures root[i] < |nodes| && root[root[i]] == root[i]
  {
  }

  /** The path rank depends on the nodes of the same tree only. */
  lemma {:induction false} PathRankFrame(nodes: seq<Node>, nodes': seq<Node>, root: seq<nat>, depth: seq<nat>, i: nat)
    requires Shape(nodes, root, depth) && Shape(nodes', root, depth) && i < |nodes|
    requires forall j :: 0 <= j < |nodes| && root[j] == root[i] ==> nodes'[j] == nodes[j]
    ensures PathRank(nodes', root, depth, i) == PathRank(nodes, root, depth, i)
    decreases depth[i]
  {
    if nodes[i].parent != i {
      PathRankFrame(nodes, nodes', root, depth, nodes[i].parent);
    }
  }

  lemma CompressKeepsShape(nodes: seq<Node>, root: seq<nat>, depth: seq<nat>, i: nat)
    requires Shape(nodes, root, depth) && i < |nodes| && i != root[i]
    ensures Shape(nodes[i := nodes[i].(parent := root[i])], root, depth)
  {
    assert root[root[i]] == root[i];
  }

  lemma RankKeepsShape(nodes: seq<Node>, root: seq<nat>, depth: seq<nat>, i: nat, rank: nat)
    requires Shape(nodes, root, depth) && i < |nodes|
    ensures Shape(nodes[i := nodes[i].(rank := rank)], root, depth)
  {
  }

  /** The roots after the tree of `from` is hung below `to`. */
  ghost function Rerooted(root: seq<nat>, from: nat, to: nat): seq<nat> {
    seq(|root|, i requires 0 <= i < |root| => if root[i] == from then to else root[i])
  }

  ghost function Lowered(root: seq<nat>, depth: seq<nat>, from: nat, to: nat): seq<nat>
    requires |root| == |depth| && to < |depth|
  {
    seq(|root|, i requires 0 <= i < |root| => if root[i] == from then depth[i] + depth[to] + 1 else depth[i])
  }

  lemma HangKeepsShape(nodes: seq<Node>, root: seq<nat>, depth: seq<nat>, from: nat, to: nat, rank: nat)
    requires Shape(nodes, root, depth) && from < |nodes| && to < |nodes| && from != to
    requires nodes[from].parent == from && nodes[to].parent == to
    ensures Shape(nodes[from := nodes[from].(parent := to)][to := Node(rank, to)],
                  Rerooted(root, from, to), Lowered(root, depth, from, to))
  {
  }

  lemma MergeTracks<T(!new)>(position: map<T, nat>, root: seq<nat>, links: set<(T, T)>, a: T, b: T, from: nat, to: nat)
    requires Tracks(position, root, links) && a in position && b in position
    requires {from, to} == {root[position[a]], root[position[b]]} && from != to
    ensures Tracks(position, Rerooted(root, from, to), links + {(a, b)})
  {
    hide Connected;
    var root' := Rerooted(root, from, to);
    forall x, y | x in position && y in position
      ensures root'[position[x]] == root'[position[y]] <==> Connected(links + {(a, b)}, x, y)
    {
      LinkConnects(links, a, b, x, y);
      Backwards(links, x, a);
      Backwards(links, x, b);
      Backwards(links, a, x);
      Backwards(links, b, x);
    }
  }

  lemma SameTracks<T(!new)>(position: map<T, nat>, root: seq<nat>, links: set<(T, T)>, a: T, b: T)
    requires Tracks(position, root, links) && a in position && b in position && root[position[a]] == root[position[b]]
    ensures Tracks(position, root, links + {(a, b)})
  {
    hide Connected;
    forall x, y | x in position && y in position
      ensures Connected(links + {(a, b)}, x, y) <==> Connected(links, x, y)
    {
      LinkConnects(links, a, b, x, y);
    }
  }

  lemma NewTracks<T(!new)>(position: map<T, nat>, root: seq<nat>, links: set<(T, T)>, x: T)
    requires Tracks(position, root, links) && x !in position && forall i :: 0 <= i < |root| ==> root[i] < |root|
    ensures Tracks(position[x := |root|], root + [|root|], links)
  {
    hide Connected;
    forall b
      ensures Connected(links, x, b) <==> x == b
      ensures Connected(links, b, x) <==> x == b
    {
      Isolated(links, x, b);
      Backwards(links, x, b);
      Backwards(links, b, x);
    }
  }

  class DisjointSetForest<T(==, !new)> {
    var nodes: seq<Node>
    var position: map<T, nat>
    ghost var links: set<(T, T)>
    ghost var root: seq<nat>
    ghost var depth: seq<nat>

    ghost predicate Valid()
      reads this
    {
      Shape(nodes, root, depth) && Tracks(position, root, links)
    }

    /** The representative `Find` answers with. */
    ghost function Rep(a: T): nat
      requires Valid() && a in position
      reads this
    {
      root[position[a]]
    }

    constructor ()
      ensures Valid() && position == map[] && nodes == [] && links == {}
    {
      nodes, position := [], map[];
      links, root, depth := {}, [], [];
      new;
      hide Shape, Tracks;
      EmptyForest(position, links);
    }

    method MakeSet(x: T)
      requires Valid()
      modifies this
      ensures Valid() && links == old(links)
      ensures position == if x in old(position) then old(position) else old(position)[x := |old(nodes)|]
      ensures |nodes| == if x in old(position) then |old(nodes)| else |old(nodes)| + 1
      ensures forall a :: a in old(position) ==> Rep(a) == old(Rep(a))
      ensures x !in old(position) ==> Rep(x) == position[x]
    {
      hide Connected;
      if x !in position {
        NewTracks(position, root, links, x);
        root, depth := root + [|nodes|], depth + [0];
        position := position[x := |nodes|];
        nodes := nodes + [Node(0, |nodes|)];
      }
    }

    /**
     Follow parents to the root, then hang every node on the way directly below it. No representative
     changes; the root's rank becomes one more than the highest on the way, which may be less than it was.
     */
    method Find(x: T) returns (r: nat)
      requires Valid() && x in position
      modifies this`nodes
      ensures Valid() && r == Rep(x) && r < |nodes| == |old(nodes)| && nodes[r].parent == r
      ensures forall i :: 0 <= i < |nodes| ==> nodes[i].parent == if i in WayUp(old(nodes), root, depth, position[x]) then r else old(nodes[i].parent)
      ensures nodes[r].rank == 1 + PathRank(old(nodes), root, depth, position[x])
      ensures forall i :: 0 <= i < |nodes| && i != r ==> nodes[i].rank == old(nodes[i].rank)
      ensures forall i :: 0 <= i < |nodes| && root[i] != r ==> nodes[i] == old(nodes[i])
    {
      hide Tracks;
      Positions(position, root, links);
      var start := position[x];
      r := start;
      while nodes[r].parent != r
        invariant r < |nodes| && root[r] == root[start]
        decreases depth[r]
      {
        r := nodes[r].parent;
      }
      CompressPath(start, r);
    }

    method CompressPath(leaf: nat, top: nat)
      requires Shape(nodes, root, depth) && leaf < |nodes| && top == root[leaf]
      modifies this`nodes
      ensures Shape(nodes, root, depth) && |nodes| == |old(nodes)|
      ensures nodes[top] == Node(1 + PathRank(old(nodes), root, depth, leaf), top)
      ensures forall i :: 0 <= i < |nodes| ==> nodes[i].parent == if i in WayUp(old(nodes), root, depth, leaf) then top else old(nodes[i].parent)
      ensures forall i :: 0 <= i < |nodes| && i != top ==> nodes[i].rank == old(nodes[i].rank)
      ensures forall i :: 0 <= i < |nodes| && root[i] != top ==> nodes[i] == old(nodes[i])
    {
      hide Shape, PathRank, WayUp;
      var at: nat, most: nat := leaf, 0;
      ghost var done: set<nat> := {};
      SameLength(nodes, root, depth);
      ghost var was := nodes;
      while at != top
        invariant at < |nodes| == |was| && root[at] == top && Shape(nodes, root, depth)
        invariant forall i :: 0 <= i < |nodes| && depth[i] <= depth[at] ==> nodes[i] == was[i]
        invariant forall i :: 0 <= i < |nodes| ==> nodes[i].rank == was[i].rank
        invariant forall i :: 0 <= i < |nodes| && root[i] != top ==> nodes[i] == was[i]
        invariant PathRank(was, root, depth, leaf) == Max(most, PathRank(was, root, depth, at))
        invariant WayUp(was, root, depth, leaf) == done + WayUp(was, root, depth, at)
        invariant forall i :: 0 <= i < |nodes| ==> nodes[i].parent == if i in done then top else was[i].parent
        decreases depth[at]
      {
        WayStep(was, root, depth, at);
        Climb(was, root, depth, at);
        CompressKeepsShape(nodes, root, depth, at);
        most := Max(most, nodes[at].rank);
        var parent := nodes[at].parent;
        nodes := nodes[at := nodes[at].(parent := top)];
        done := done + {at};
        at := parent;
      }
      RootRank(was, root, depth, leaf);
      RootsAreRoots(was, root, depth, leaf);
      WayStep(was, root, depth, at);
      RankKeepsShape(nodes, root, depth, top, most + 1);
      nodes := nodes[top := nodes[top].(rank := most + 1)];
    }

    /** Join the sets of two elements. The root above the higher path stays; if both are equally high, the second one
        stays and its rank grows. */
    method Merge(a: T, b: T)
      requires Valid() && a in position && b in position
      modifies this`nodes, this`links, this`root, this`depth
      ensures Valid() && links == old(links) + {(a, b)} && |nodes| == |old(nodes)|
      ensures Rep(a) == Rep(b) && (Rep(a) == old(Rep(a)) || Rep(a) == old(Rep(b)))
      ensures root == Rerooted(Rerooted(old(root), old(Rep(a)), Rep(a)), old(Rep(b)), Rep(a))
      ensures old(Rep(a)) != old(Rep(b)) ==>
                var ra, rb := old(PathRank(nodes, root, depth, position[a])), old(PathRank(nodes, root, depth, position[b]));
                && Rep(a) == (if ra > rb then old(Rep(a)) else old(Rep(b)))
                && nodes[Rep(a)].rank == (if ra == rb then rb + 2 else Max(ra, rb) + 1)
      ensures forall x :: x in position ==>
                Rep(x) == if old(Rep(x)) == old(Rep(a)) || old(Rep(x)) == old(Rep(b)) then Rep(a) else old(Rep(x))
    {
      hide Shape, Tracks, PathRank, WayUp;
      Positions(position, root, links);
      SameLength(nodes, root, depth);
      RootRank(nodes, root, depth, position[b]);
      ghost var was := nodes;
      var r1 := Find(a);
      ghost var mid := nodes;
      var r2 := Find(b);
      if r1 != r2 {
        PathRankFrame(was, mid, root, depth, position[b]);
      }
      Positions(position, root, links);
      SameLength(nodes, root, depth);
      RootRank(nodes, root, depth, position[a]);
      if r1 != r2 {
        if nodes[r1].rank > nodes[r2].rank {
          Hang(a, b, r2, r1, nodes[r1].rank);
        } else if nodes[r1].rank < nodes[r2].rank {
          Hang(a, b, r1, r2, nodes[r2].rank);
        } else {
          Hang(a, b, r1, r2, nodes[r2].rank + 1);
        }
      } else {
        SameTracks(position, root, links, a, b);
        links := links + {(a, b)};
      }
    }

    method Hang(ghost a: T, ghost b: T, from: nat, to: nat, rank: nat)
      requires Valid() && a in position && b in position && from < |nodes| && to < |nodes| && from != to
      requires {from, to} == {Rep(a), Rep(b)} && nodes[from].parent == from && nodes[to].parent == to
      modifies this`nodes, this`links, this`root, this`depth
      ensures Valid() && links == old(links) + {(a, b)} && |nodes| == |old(nodes)|
      ensures root == Rerooted(old(root), from, to) && nodes[to].rank == rank
    {
      hide Connected, Shape, Tracks;
      MergeTracks(position, root, links, a, b, from, to);
      SameLength(nodes, root, depth);
      HangKeepsShape(nodes, root, depth, from, to, rank);
      nodes := nodes[from := nodes[from].(parent := to)];
      nodes := nodes[to := Node(rank, to)];
      root, depth := Rerooted(root, from, to), Lowered(root, depth, from, to);
      links := links + {(a, b)};
    }

    method IsConnected(a: T, b: T) returns (connected: bool)
      requires Valid() && a in position && b in position
      modifies this`nodes
      ensures Valid() && (connected <==> Connected(links, a, b))
    {
      hide Connected;
      var r1 := Find(a);
      var r2 := Find(b);
      connected := r1 == r2;
    }
  }

  lemma EmptyForest<T(!new)>(position: map<T, nat>, links: set<(T, T)>)
    requires position.Keys == {} && links == {}
    ensures Shape([], [], []) && Tracks(position, [], links)
  {
    hide Connected;
    var none: seq<nat> := [];
    assert forall a :: a !in position;
    assert Tracks(position, none, links) by { hide Shape; }
    assert Shape([], none, none) by { hide Tracks; }
  }

  lemma SameLength(nodes: seq<Node>, root: seq<nat>, depth: seq<nat>)
    requires Shape(nodes, root, depth)
    ensures |nodes| == |root| == |depth|
  {
  }

  lemma Positions<T(!new)>(position: map<T, nat>, root: seq<nat>, links: set<(T, T)>)
    requires Tracks(position, root, links)
    ensures forall x :: x in position ==> position[x] < |root|
  {
  }
}
