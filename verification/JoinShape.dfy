/**
 The shape of a query's join graph. Tables are nodes and join predicates edges; the graph keeps, for each
 table, the list of predicates that mention it.
 */
module JoinShape {
  import opened Counting

  type Table = string

  datatype JoinPredicate = JoinPredicate(left: Table, leftColumn: string, right: Table, rightColumn: string)

  /** The predicates that mention `t`, in order; a predicate within one table is listed twice. */
  function Incident(preds: seq<JoinPredicate>, t: Table): seq<JoinPredicate> {
    if preds == [] then [] else
      var p := preds[|preds| - 1];
      Incident(preds[..|preds| - 1], t) + (if p.right == t then [p] else []) + (if p.left == t then [p] else [])
  }

  ghost function LeftAt(S: set<JoinPredicate>, t: Table): set<JoinPredicate> {
    set p | p in S && p.left == t
  }

  ghost function RightAt(S: set<JoinPredicate>, t: Table): set<JoinPredicate> {
    set p | p in S && p.right == t
  }

  lemma {:induction false} IncidentIn(preds: seq<JoinPredicate>, t: Table, p: JoinPredicate)
    ensures p in Incident(preds, t) <==> p in preds && (p.left == t || p.right == t)
  {
    if preds != [] {
      var n := |preds| - 1;
      IncidentIn(preds[..n], t, p);
      assert preds == preds[..n] + [preds[n]];
    }
  }

  /** The length of a table's list counts both ends of every predicate. */
  lemma {:induction false} IncidentSize(preds: seq<JoinPredicate>, t: Table)
    requires Distinct(preds)
    ensures |Incident(preds, t)| == |LeftAt(Elements(preds), t)| + |RightAt(Elements(preds), t)|
  {
    hide Elements, LeftAt, RightAt;
    if preds == [] {
      NothingAt(t);
    } else {
      var n := |preds| - 1;
      IncidentSize(preds[..n], t);
      assert preds == preds[..n] + [preds[n]];
      OneMoreAt(preds[..n], preds[n], t);
    }
  }

  lemma NothingAt(t: Table)
    ensures LeftAt(Elements([]), t) == {} && RightAt(Elements([]), t) == {}
  {
  }

  lemma OneMoreAt(preds: seq<JoinPredicate>, p: JoinPredicate, t: Table)
    requires p !in preds
    ensures |LeftAt(Elements(preds + [p]), t)| == |LeftAt(Elements(preds), t)| + (if p.left == t then 1 else 0)
    ensures |RightAt(Elements(preds + [p]), t)| == |RightAt(Elements(preds), t)| + (if p.right == t then 1 else 0)
  {
    var S := Elements(preds);
    assert Elements(preds + [p]) == S + {p} && p !in S;
    LeftGrows(S, p, t);
    RightGrows(S, p, t);
  }

  lemma LeftGrows(S: set<JoinPredicate>, p: JoinPredicate, t: Table)
    requires p !in S
    ensures |LeftAt(S + {p}, t)| == |LeftAt(S, t)| + (if p.left == t then 1 else 0)
  {
    assert LeftAt(S + {p}, t) == LeftAt(S, t) + (if p.left == t then {p} else {});
  }

  lemma RightGrows(S: set<JoinPredicate>, p: JoinPredicate, t: Table)
    requires p !in S
    ensures |RightAt(S + {p}, t)| == |RightAt(S, t)| + (if p.right == t then 1 else 0)
  {
    assert RightAt(S + {p}, t) == RightAt(S, t) + (if p.right == t then {p} else {});
  }

  // ---------- Simple paths ----------

  /** `p` joins `a` and `b`. */
  predicate Joins(p: JoinPredicate, a: Table, b: Table) {
    (p.left == a && p.right == b) || (p.left == b && p.right == a)
  }

  /** `walk` leads through `tables`, one predicate per step. */
  ghost predicate Leads(walk: seq<JoinPredicate>, tables: seq<Table>) {
    |tables| == |walk| + 1 && forall i :: 0 <= i < |walk| ==> Joins(walk[i], tables[i], tables[i + 1])
  }

  /** `walk` is an arrangement of `preds` as a path that visits no table twice. */
  ghost predicate PathOf(preds: seq<JoinPredicate>, walk: seq<JoinPredicate>, tables: seq<Table>) {
    && |walk| == |preds| && Elements(walk) == Elements(preds) && Distinct(walk)
    && Leads(walk, tables) && Distinct(tables)
  }

  ghost predicate SimplePath(preds: seq<JoinPredicate>) {
    exists walk, tables :: PathOf(preds, walk, tables)
  }

  function Reversed<T>(s: seq<T>): (r: seq<T>)
    ensures |r| == |s| && forall i :: 0 <= i < |s| ==> r[i] == s[|s| - 1 - i]
  {
    seq(|s|, i requires 0 <= i < |s| => s[|s| - 1 - i])
  }

  /** A path can be walked from either end. */
  lemma PathBackwards(preds: seq<JoinPredicate>, walk: seq<JoinPredicate>, tables: seq<Table>)
    requires PathOf(preds, walk, tables)
    ensures PathOf(preds, Reversed(walk), Reversed(tables))
  {
    var w, t := Reversed(walk), Reversed(tables);
    forall p
      ensures p in w <==> p in walk
    {
      if p in walk {
        var i :| 0 <= i < |walk| && walk[i] == p;
        assert w[|walk| - 1 - i] == p;
      }
    }
    forall i | 0 <= i < |w|
      ensures Joins(w[i], t[i], t[i + 1])
    {
      assert Joins(walk[|walk| - 1 - i], tables[|walk| - 1 - i], tables[|walk| - 1 - i + 1]);
    }
  }

  /** On a path, the predicates that mention its `k`-th table are the ones before and after it. */
  lemma PathIncident(walk: seq<JoinPredicate>, tables: seq<Table>, k: nat, p: JoinPredicate)
    requires Leads(walk, tables) && Distinct(tables) && k < |tables|
    requires p in walk && (p.left == tables[k] || p.right == tables[k])
    ensures (k > 0 && p == walk[k - 1]) || (k < |walk| && p == walk[k])
    ensures p.left != p.right
  {
    var i :| 0 <= i < |walk| && walk[i] == p;
    assert Joins(walk[i], tables[i], tables[i + 1]);
  }

  lemma PathIncidentSets(preds: seq<JoinPredicate>, walk: seq<JoinPredicate>, tables: seq<Table>, k: nat)
    requires PathOf(preds, walk, tables) && k < |tables|
    ensures var S, t := Elements(preds), tables[k];
            var around := (if k > 0 then {walk[k - 1]} else {}) + (if k < |walk| then {walk[k]} else {});
            && LeftAt(S, t) !! RightAt(S, t) && LeftAt(S, t) + RightAt(S, t) == around
  {
    var S, t := Elements(preds), tables[k];
    forall p | p in LeftAt(S, t) || p in RightAt(S, t)
      ensures (k > 0 && p == walk[k - 1]) || (k < |walk| && p == walk[k])
      ensures p.left != p.right
    {
      assert p in Elements(walk);
      PathIncident(walk, tables, k, p);
    }
    if k > 0 {
      assert Joins(walk[k - 1], tables[k - 1], tables[k - 1 + 1]) && walk[k - 1] in Elements(walk);
    }
    if k < |walk| {
      assert Joins(walk[k], tables[k], tables[k + 1]) && walk[k] in Elements(walk);
    }
  }

  /** Inner tables of a path are mentioned twice, its ends once. */
  lemma PathDegree(preds: seq<JoinPredicate>, walk: seq<JoinPredicate>, tables: seq<Table>, k: nat)
    requires Distinct(preds) && PathOf(preds, walk, tables) && k < |tables|
    ensures |Incident(preds, tables[k])| == (if k > 0 then 1 else 0) + (if k < |walk| then 1 else 0)
  {
    var S, t := Elements(preds), tables[k];
    IncidentSize(preds, t);
    PathIncidentSets(preds, walk, tables, k);
    assert |LeftAt(S, t) + RightAt(S, t)| == |LeftAt(S, t)| + |RightAt(S, t)|;
    if 0 < k < |walk| {
      assert walk[k - 1] != walk[k];
    }
  }

  // ---------- Walking ----------

  ghost predicate Mentions(preds: seq<JoinPredicate>, p: JoinPredicate, t: Table) {
    p in preds && (p.left == t || p.right == t)
  }

  /** Every set of predicates mentioning `t` is counted, and one within the table twice. */
  lemma AtLeast(preds: seq<JoinPredicate>, t: Table, A: set<JoinPredicate>)
    requires Distinct(preds) && forall p :: p in A ==> Mentions(preds, p, t)
    ensures |A| <= |Incident(preds, t)|
    ensures (exists p :: p in A && p.left == p.right) ==> |A| < |Incident(preds, t)|
  {
    IncidentSize(preds, t);
    var L, R := LeftAt(Elements(preds), t), RightAt(Elements(preds), t);
    SubsetSize(A, L + R);
    UnionSize(L, R);
    if p :| p in A && p.left == p.right {
      assert p in L * R;
    }
  }

  lemma UnionSize(a: set<JoinPredicate>, b: set<JoinPredicate>)
    ensures |a + b| + |a * b| == |a| + |b|
  {
  }

  /** A walk in progress: it has made |walk| steps and stands at the last of `tables`. */
  ghost predicate Walking(preds: seq<JoinPredicate>, walk: seq<JoinPredicate>, tables: seq<Table>) {
    && Leads(walk, tables) && Distinct(tables[..|walk|]) && Elements(walk) <= Elements(preds)
    && |Incident(preds, tables[0])| == 1
    && (forall i :: 0 < i < |tables| ==> |Incident(preds, tables[i])| <= 2)
    && (forall i :: 0 <= i < |walk| - 1 ==> walk[i] != walk[i + 1])
  }

  lemma WalkDistinct(preds: seq<JoinPredicate>, walk: seq<JoinPredicate>, tables: seq<Table>)
    requires Walking(preds, walk, tables)
    ensures Distinct(walk)
  {
    hide Incident, Elements;
    forall i, j | 0 <= i < j < |walk|
      ensures walk[i] != walk[j]
    {
      assert Joins(walk[i], tables[i], tables[i + 1]) && Joins(walk[j], tables[j], tables[j + 1]);
      var seen := tables[..|walk|];
      assert seen[i] == tables[i] && seen[j] == tables[j] && tables[i] != tables[j];
      if i + 1 < j {
        assert seen[i + 1] == tables[i + 1] && tables[i + 1] != tables[j];
      }
    }
  }

  lemma WalkMentions(preds: seq<JoinPredicate>, walk: seq<JoinPredicate>, tables: seq<Table>, i: nat)
    requires Walking(preds, walk, tables) && i < |walk|
    ensures Mentions(preds, walk[i], tables[i]) && Mentions(preds, walk[i], tables[i + 1])
  {
    hide Incident;
    assert walk[i] in Elements(walk);
    assert Joins(walk[i], tables[i], tables[i + 1]);
  }

  /** The table a walk arrives at was not visited before. */
  lemma ArrivesNew(preds: seq<JoinPredicate>, walk: seq<JoinPredicate>, tables: seq<Table>, i: nat)
    requires Walking(preds, walk, tables) && Distinct(preds) && i < |walk|
    ensures tables[i] != tables[|walk|]
  {
    hide Incident, Walking;
    WalkDistinct(preds, walk, tables);
    var n := |walk|;
    WalkShape(preds, walk, tables, i);
    if tables[i] == tables[n] {
      var t, last := tables[i], walk[n - 1];
      WalkMentions(preds, walk, tables, n - 1);
      WalkMentions(preds, walk, tables, i);
      if i > 0 {
        WalkMentions(preds, walk, tables, i - 1);
        if i < n - 1 {
          AtLeast(preds, t, {walk[i - 1], walk[i], last});
        } else {
          AtLeast(preds, t, {walk[i - 1], last});
        }
      } else {
        AtLeast(preds, t, {walk[0], last});
      }
    }
  }

  lemma WalkShape(preds: seq<JoinPredicate>, walk: seq<JoinPredicate>, tables: seq<Table>, i: nat)
    requires Walking(preds, walk, tables) && i < |walk|
    ensures |tables| == |walk| + 1 && |Incident(preds, tables[i])| <= (if i == 0 then 1 else 2)
    ensures tables[i] == tables[|walk|] && i == |walk| - 1 ==> walk[i].left == walk[i].right
  {
    assert Joins(walk[i], tables[i], tables[i + 1]);
  }

  /** A walk with as many steps as there are predicates is a path through all of them. */
  lemma WalkComplete(preds: seq<JoinPredicate>, walk: seq<JoinPredicate>, tables: seq<Table>)
    requires Walking(preds, walk, tables) && Distinct(preds) && |walk| == |preds|
    ensures PathOf(preds, walk, tables)
  {
    hide Incident;
    WalkDistinct(preds, walk, tables);
    DistinctSize(walk);
    DistinctSize(preds);
    SubsetSize(Elements(walk), Elements(preds));
    forall i, j | 0 <= i < j < |tables|
      ensures tables[i] != tables[j]
    {
      if j == |walk| {
        ArrivesNew(preds, walk, tables, i);
      } else {
        assert tables[..|walk|][i] != tables[..|walk|][j];
      }
    }
  }

  /** A path has its ends at the tables mentioned once, so it can be walked from any of them. */
  lemma PathFrom(preds: seq<JoinPredicate>, start: Table) returns (walk: seq<JoinPredicate>, tables: seq<Table>)
    requires SimplePath(preds) && Distinct(preds) && |Incident(preds, start)| == 1
    ensures PathOf(preds, walk, tables) && tables[0] == start
  {
    hide Incident;
    walk, tables :| PathOf(preds, walk, tables);
    var p := FirstIncident(preds, start);
    var k := TableOnPath(preds, walk, tables, p, start);
    PathDegree(preds, walk, tables, k);
    if k > 0 {
      PathBackwards(preds, walk, tables);
      walk, tables := Reversed(walk), Reversed(tables);
    }
  }

  lemma FirstIncident(preds: seq<JoinPredicate>, t: Table) returns (p: JoinPredicate)
    requires |Incident(preds, t)| > 0
    ensures Mentions(preds, p, t)
  {
    p := Incident(preds, t)[0];
    IncidentIn(preds, t, p);
  }

  lemma TableOnPath(preds: seq<JoinPredicate>, walk: seq<JoinPredicate>, tables: seq<Table>, p: JoinPredicate, t: Table) returns (k: nat)
    requires PathOf(preds, walk, tables) && Mentions(preds, p, t)
    ensures k < |tables| && tables[k] == t
  {
    assert p in Elements(walk);
    var i :| 0 <= i < |walk| && walk[i] == p;
    assert Joins(walk[i], tables[i], tables[i + 1]);
    k := if tables[i] == t then i else i + 1;
  }

  // ---------- The resolver ----------

  datatype JoinType = Star | Linear | Other

  /** Exactly the mentioned tables have a list, and it is the right one. */
  ghost predicate GraphOf(graph: map<Table, seq<JoinPredicate>>, preds: seq<JoinPredicate>) {
    forall t :: ListAt(graph, t) == Incident(preds, t) && (t in graph <==> Incident(preds, t) != [])
  }

  function ListAt(graph: map<Table, seq<JoinPredicate>>, t: Table): seq<JoinPredicate> {
    if t in graph then graph[t] else []
  }

  lemma IncidentGrows(preds: seq<JoinPredicate>, p: JoinPredicate, t: Table)
    ensures Incident(preds + [p], t) == Incident(preds, t) + (if p.right == t then [p] else []) + (if p.left == t then [p] else [])
  {
    assert (preds + [p])[..|preds|] == preds;
  }

  lemma TablesKnown(graph: map<Table, seq<JoinPredicate>>, preds: seq<JoinPredicate>, p: JoinPredicate, t: Table)
    requires GraphOf(graph, preds) && Mentions(preds, p, t)
    ensures t in graph && graph[t] == Incident(preds, t)
  {
    IncidentIn(preds, t, p);
    assert ListAt(graph, t) == Incident(preds, t);
  }

  /** Some table's list is as long as the list of predicates. */
  ghost predicate IsStar(graph: map<Table, seq<JoinPredicate>>, preds: seq<JoinPredicate>) {
    exists t :: t in graph && |graph[t]| == |preds|
  }

  class SelectResolver {
    var predicates: seq<JoinPredicate>
    var graph: map<Table, seq<JoinPredicate>>
    var joinType: JoinType

    constructor ()
      ensures predicates == [] && graph == map[] && GraphOf(graph, predicates)
    {
      predicates, graph, joinType := [], map[], Other;
    }

    method Record(t: Table, p: JoinPredicate)
      modifies this`graph
      ensures t in graph && forall u :: (u in graph <==> u in old(graph) || u == t) && ListAt(graph, u) == ListAt(old(graph), u) + (if u == t then [p] else [])
    {
      graph := graph[t := ListAt(graph, t) + [p]];
    }

    /** Record an equality between two columns; the larger table goes left. */
    method AddPredicate(l: Table, lc: string, r: Table, rc: string, rows: Table -> nat)
      requires GraphOf(graph, predicates)
      modifies this`predicates, this`graph
      ensures GraphOf(graph, predicates)
      ensures predicates == old(predicates) + [if rows(l) < rows(r) then JoinPredicate(r, rc, l, lc) else JoinPredicate(l, lc, r, rc)]
    {
      hide Incident;
      var p := if rows(l) < rows(r) then JoinPredicate(r, rc, l, lc) else JoinPredicate(l, lc, r, rc);
      ghost var was := predicates;
      ghost var before := graph;
      Record(p.right, p);
      predicates := predicates + [p];
      Record(p.left, p);
      forall t
        ensures ListAt(graph, t) == Incident(predicates, t) && (t in graph <==> Incident(predicates, t) != [])
      {
        IncidentGrows(was, p, t);
        assert ListAt(before, t) == Incident(was, t) && (t in before <==> Incident(was, t) != []);
      }
    }

    /** Is some table in as many list entries as there are predicates? */
    method FindStar() returns (star: bool)
      ensures star <==> IsStar(graph, predicates)
    {
      var todo := graph.Keys;
      while todo != {}
        invariant todo <= graph.Keys && forall t :: t in graph && t !in todo ==> |graph[t]| != |predicates|
        decreases |todo|
      {
        var t :| t in todo;
        if |graph[t]| == |predicates| {
          return true;
        }
        todo := todo - {t};
      }
      return false;
    }

    /** Some table mentioned once, if there is one; which one depends on the order of the map. */
    method FindStart() returns (found: bool, start: Table)
      ensures found ==> start in graph && |graph[start]| == 1
      ensures !found ==> forall t :: t in graph ==> |graph[t]| != 1
    {
      var todo := graph.Keys;
      found, start := false, "";
      while todo != {}
        invariant todo <= graph.Keys && (found ==> start in graph && |graph[start]| == 1)
        invariant !found ==> forall t :: t in graph && t !in todo ==> |graph[t]| != 1
        decreases |todo|
      {
        var t :| t in todo;
        if |graph[t]| == 1 {
          found, start := true, t;
        }
        todo := todo - {t};
      }
    }

    /**
     Walk from `start` as long as there is exactly one way on. Succeeds exactly when the predicates form a simple
     path, and then lists them along it.
     */
    method WalkFrom(start: Table) returns (ok: bool, walk: seq<JoinPredicate>)
      requires GraphOf(graph, predicates) && Distinct(predicates) && start in graph && |graph[start]| == 1
      ensures ok <==> SimplePath(predicates)
      ensures ok ==> exists tables :: PathOf(predicates, walk, tables)
    {
      hide Incident, GraphOf, SimplePath, PathOf, Walking, Distinct;
      GraphAt(graph, predicates, start);
      var cur, table := graph[start][0], start;
      ghost var path, w, ts := SimplePath(predicates), [], [];
      if path {
        w, ts := PathFrom(predicates, start);
      }
      var visited: set<Table> := {};
      walk := [];
      ghost var tables := [start];
      StartsWalking(predicates, start, cur, path, w, ts);
      while |walk| < |predicates|
        invariant |walk| <= |predicates| && |tables| == |walk| + 1 && tables[0] == start
        invariant Walking(predicates, walk, tables) && visited == TableSet(tables[..|walk|])
        invariant |walk| < |predicates| ==> table == tables[|walk|] && Mentions(predicates, cur, table)
        invariant |walk| < |predicates| && walk != [] ==> cur != walk[|walk| - 1]
        invariant path ==> PathOf(predicates, w, ts) && Along(w, ts, walk, tables)
        invariant path && |walk| < |predicates| ==> |walk| < |w| && cur == w[|walk|]
        decreases |predicates| - |walk|
      {
        if path {
          FollowsPath(predicates, w, ts, walk, tables, cur);
        }
        if table in visited {
          return false, walk;
        }
        visited := visited + {table};
        var next := if cur.left == table then cur.right else cur.left;
        TablesKnown(graph, predicates, cur, next);
        var list := graph[next];
        if |list| > 2 {
          return false, walk;
        }
        Advances(predicates, walk, tables, cur, next);
        walk, tables := walk + [cur], tables + [next];
        var found, other := FindOther(list, cur);
        GraphAt(graph, predicates, next);
        if !found && |walk| < |predicates| {
          return false, walk;
        }
        if found {
          cur, table := other, next;
        }
      }
      WalkComplete(predicates, walk, tables);
      PathExists(predicates, walk, tables);
      ok := true;
    }

    /** Classify the join graph; a linear one gets its predicates listed along the path. */
    method CheckJoinSupport() returns (ok: bool)
      requires GraphOf(graph, predicates) && Distinct(predicates)
      modifies this`predicates, this`joinType
      ensures var preds := old(predicates);
              if IsStar(graph, preds) then ok && joinType == Star && predicates == preds
              else if preds != [] && SimplePath(preds) then ok && joinType == Linear && exists tables :: PathOf(preds, predicates, tables)
              else !ok && joinType == Other && predicates == preds
    {
      hide Incident, GraphOf, SimplePath, PathOf, Distinct, IsStar;
      joinType := Other;
      var star := FindStar();
      if star {
        joinType := Star;
        return true;
      }
      var found, start := FindStart();
      if !found {
        NoEnds(graph, predicates);
        return false;
      }
      StartKnown(graph, predicates, start);
      var walk;
      ok, walk := WalkFrom(start);
      if ok {
        ghost var preds := predicates;
        ghost var tables :| PathOf(preds, walk, tables);
        predicates := walk;
        joinType := Linear;
        assert PathOf(preds, predicates, tables);
      }
    }
  }

  lemma PathExists(preds: seq<JoinPredicate>, walk: seq<JoinPredicate>, tables: seq<Table>)
    requires PathOf(preds, walk, tables)
    ensures SimplePath(preds)
  {
  }

  /** Without a table mentioned once there is no path. */
  lemma NoEnds(graph: map<Table, seq<JoinPredicate>>, preds: seq<JoinPredicate>)
    requires GraphOf(graph, preds) && Distinct(preds) && forall t :: t in graph ==> |graph[t]| != 1
    ensures preds == [] || !SimplePath(preds)
  {
    hide Incident;
    if preds != [] && SimplePath(preds) {
      var walk, tables :| PathOf(preds, walk, tables);
      PathDegree(preds, walk, tables, 0);
      assert false;
    }
  }

  lemma StartKnown(graph: map<Table, seq<JoinPredicate>>, preds: seq<JoinPredicate>, start: Table)
    requires GraphOf(graph, preds) && start in graph
    ensures preds != []
  {
    assert Incident(preds, start) != [];
  }

  /** One more step keeps the walk going. */
  lemma Advances(preds: seq<JoinPredicate>, walk: seq<JoinPredicate>, tables: seq<Table>, cur: JoinPredicate, next: Table)
    requires Walking(preds, walk, tables) && tables[|walk|] !in TableSet(tables[..|walk|]) && Mentions(preds, cur, tables[|walk|])
    requires walk != [] ==> cur != walk[|walk| - 1]
    requires next == (if cur.left == tables[|walk|] then cur.right else cur.left) && |Incident(preds, next)| <= 2
    ensures Walking(preds, walk + [cur], tables + [next])
    ensures TableSet((tables + [next])[..|walk| + 1]) == TableSet(tables[..|walk|]) + {tables[|walk|]}
  {
    hide Incident;
    var k := |walk|;
    var walk', tables' := walk + [cur], tables + [next];
    assert tables'[..k + 1] == tables == tables[..k] + [tables[k]];
    forall i | 0 <= i < |walk'|
      ensures Joins(walk'[i], tables'[i], tables'[i + 1])
    {
      if i < k {
        assert Joins(walk[i], tables[i], tables[i + 1]);
      }
    }
    var seen := tables'[..k + 1];
    forall i, j | 0 <= i < j < |seen|
      ensures seen[i] != seen[j]
    {
      if j < k {
        assert tables[..k][i] != tables[..k][j];
      } else {
        assert tables[..k][i] in TableSet(tables[..k]);
      }
    }
    forall i | 0 <= i < |walk'| - 1
      ensures walk'[i] != walk'[i + 1]
    {
      assert i < k - 1 ==> walk[i] != walk[i + 1];
    }
    assert Elements(walk') == Elements(walk) + {cur};
  }

  /** On a path, the walk never fails: the table is new, the next one is mentioned at most twice, and the
      only way on is the path's next predicate. */
  lemma FollowsPath(preds: seq<JoinPredicate>, w: seq<JoinPredicate>, ts: seq<Table>, walk: seq<JoinPredicate>, tables: seq<Table>, cur: JoinPredicate)
    requires PathOf(preds, w, ts) && Distinct(preds) && Along(w, ts, walk, tables) && |tables| == |walk| + 1 && |walk| < |w| && cur == w[|walk|]
    ensures |w| == |preds| && tables[|walk|] !in TableSet(tables[..|walk|])
    ensures var next := if cur.left == tables[|walk|] then cur.right else cur.left;
            && |Incident(preds, next)| <= 2 && Along(w, ts, walk + [cur], tables + [next])
            && (|walk| + 1 < |w| ==> w[|walk| + 1] in Incident(preds, next) && w[|walk| + 1] != cur)
            && (forall q :: Mentions(preds, q, next) && q != cur ==> |walk| + 1 < |w| && q == w[|walk| + 1])
  {
    hide Incident;
    var k := |walk|;
    var next := if cur.left == tables[k] then cur.right else cur.left;
    assert Joins(w[k], ts[k], ts[k + 1]) && tables[k] == ts[k];
    assert ts[k] != ts[k + 1];
    assert next == ts[k + 1];
    PathDegree(preds, w, ts, k + 1);
    if k + 1 < |w| {
      assert Joins(w[k + 1], ts[k + 1], ts[k + 1 + 1]);
      assert w[k + 1] in Elements(preds) by { assert w[k + 1] in Elements(w); }
      IncidentIn(preds, next, w[k + 1]);
    }
    forall q | Mentions(preds, q, next) && q != cur
      ensures k + 1 < |w| && q == w[k + 1]
    {
      assert q in Elements(preds);
      assert q in w;
      PathIncident(w, ts, k + 1, q);
    }
  }

  ghost function TableSet(tables: seq<Table>): set<Table> {
    set t | t in tables
  }

  /** The walk so far follows the path. */
  ghost predicate Along(w: seq<JoinPredicate>, ts: seq<Table>, walk: seq<JoinPredicate>, tables: seq<Table>) {
    walk <= w && tables <= ts
  }

  lemma GraphAt(graph: map<Table, seq<JoinPredicate>>, preds: seq<JoinPredicate>, t: Table)
    requires GraphOf(graph, preds) && t in graph
    ensures graph[t] == Incident(preds, t) && forall p :: p in graph[t] ==> Mentions(preds, p, t)
  {
    assert ListAt(graph, t) == Incident(preds, t);
    forall p | p in graph[t]
      ensures Mentions(preds, p, t)
    {
      IncidentIn(preds, t, p);
    }
  }

  lemma StartsWalking(preds: seq<JoinPredicate>, start: Table, cur: JoinPredicate, path: bool, w: seq<JoinPredicate>, ts: seq<Table>)
    requires |Incident(preds, start)| == 1 && Mentions(preds, cur, start) && Distinct(preds)
    requires path ==> PathOf(preds, w, ts) && ts[0] == start
    ensures Walking(preds, [], [start]) && TableSet([start][..0]) == {}
    ensures path ==> Along(w, ts, [], [start]) && |w| == |preds| > 0 && cur == w[0]
  {
    hide Incident;
    if path {
      assert cur in Elements(preds);
      assert cur in w;
      PathIncident(w, ts, 0, cur);
    }
  }

  method FindOther(list: seq<JoinPredicate>, p: JoinPredicate) returns (found: bool, other: JoinPredicate)
    ensures found ==> other in list && other != p
    ensures !found ==> forall q :: q in list ==> q == p
  {
    found, other := false, p;
    for i := 0 to |list|
      invariant forall k :: 0 <= k < i ==> list[k] == p
    {
      if list[i] != p {
        return true, list[i];
      }
    }
  }

  /** Every predicate mentions `t`. */
  ghost predicate Hub(preds: seq<JoinPredicate>, t: Table) {
    forall p :: p in preds ==> Mentions(preds, p, t)
  }

  ghost function Inside(preds: seq<JoinPredicate>, t: Table): set<JoinPredicate> {
    set p | p in preds && p.left == t && p.right == t
  }

  ghost function Outside(preds: seq<JoinPredicate>, t: Table): set<JoinPredicate> {
    set p | p in preds && p.left != t && p.right != t
  }

  /** A table's list has one entry per predicate, one more for each predicate inside the table, one less for each elsewhere. */
  lemma IncidentCount(preds: seq<JoinPredicate>, t: Table)
    requires Distinct(preds)
    ensures |Incident(preds, t)| + |Outside(preds, t)| == |preds| + |Inside(preds, t)|
  {
    hide Incident;
    IncidentSize(preds, t);
    DistinctSize(preds);
    var S, L, R := Elements(preds), LeftAt(Elements(preds), t), RightAt(Elements(preds), t);
    UnionSize(L, R);
    assert L * R == Inside(preds, t);
    assert L + R == S - Outside(preds, t);
    assert Outside(preds, t) <= S;
  }

  lemma HubIff(preds: seq<JoinPredicate>, t: Table)
    ensures Hub(preds, t) <==> Outside(preds, t) == {}
  {
    if Outside(preds, t) == {} {
      forall p | p in preds
        ensures Mentions(preds, p, t)
      {
        assert p !in Outside(preds, t);
      }
    }
  }

  /** The list of `t` is taken for a star exactly if as many predicates lie inside `t` as elsewhere. */
  lemma StarIff(graph: map<Table, seq<JoinPredicate>>, preds: seq<JoinPredicate>)
    requires GraphOf(graph, preds) && Distinct(preds) && preds != []
    ensures IsStar(graph, preds) <==> exists t :: |Inside(preds, t)| == |Outside(preds, t)|
  {
    hide Incident, Distinct, GraphOf, Inside, Outside;
    if IsStar(graph, preds) {
      var t :| t in graph && |graph[t]| == |preds|;
      GraphAt(graph, preds, t);
      IncidentCount(preds, t);
    }
    if t :| |Inside(preds, t)| == |Outside(preds, t)| {
      IncidentCount(preds, t);
      var p := FirstIncident(preds, t);
      TablesKnown(graph, preds, p, t);
    }
  }

  /** Where a hub exists, no predicate lies inside any other table. */
  lemma OtherTables(preds: seq<JoinPredicate>, h: Table, t: Table)
    requires Hub(preds, h) && t != h
    ensures Inside(preds, t) == {}
  {
  }

  /** `t` is counted as what it is: as a star if it is a hub, and not otherwise. */
  ghost predicate CountedRight(preds: seq<JoinPredicate>, t: Table) {
    if Hub(preds, t) then Inside(preds, t) == {} else |Inside(preds, t)| != |Outside(preds, t)|
  }

  /**
   The answer "star" is right exactly if every table is counted right: no predicate lies inside a hub, and no other
   table has as many predicates inside as elsewhere.
   */
  lemma StarRightIff(graph: map<Table, seq<JoinPredicate>>, preds: seq<JoinPredicate>)
    requires GraphOf(graph, preds) && Distinct(preds) && preds != []
    ensures (IsStar(graph, preds) <==> exists t :: Hub(preds, t)) <==> forall t :: CountedRight(preds, t)
  {
    hide GraphOf, Distinct, Inside, Outside, Hub, IsStar;
    StarIff(graph, preds);
    if h :| Hub(preds, h) {
      HubIff(preds, h);
      forall t | t != h
        ensures CountedRight(preds, t)
      {
        OtherTables(preds, h, t);
        HubIff(preds, t);
      }
      if Inside(preds, h) == {} {
        assert |Inside(preds, h)| == |Outside(preds, h)|;
      } else {
        TwoHubs(graph, preds, h);
        assert !CountedRight(preds, h);
      }
    } else if IsStar(graph, preds) {
      var t :| |Inside(preds, t)| == |Outside(preds, t)|;
      assert !CountedRight(preds, t);
    } else {
      assert forall t :: CountedRight(preds, t);
    }
  }

  /** With a hub that has a predicate inside, no table is taken for a star. */
  lemma TwoHubs(graph: map<Table, seq<JoinPredicate>>, preds: seq<JoinPredicate>, h: Table)
    requires GraphOf(graph, preds) && Distinct(preds) && preds != [] && Hub(preds, h) && Inside(preds, h) != {}
    ensures !IsStar(graph, preds)
  {
    hide GraphOf, Distinct, IsStar;
    StarIff(graph, preds);
    forall t
      ensures |Inside(preds, t)| != |Outside(preds, t)|
    {
      HubIff(preds, h);
      if t != h {
        OtherTables(preds, h, t);
        var p :| p in Inside(preds, h);
        assert p in Outside(preds, t);
      }
    }
  }

  /** A predicate inside one table and one elsewhere pass for a star, though no table is in both. */
  lemma StarMiscount(graph: map<Table, seq<JoinPredicate>>, p: JoinPredicate, q: JoinPredicate)
    requires GraphOf(graph, [p, q]) && p.left == p.right && q.left != p.left && q.right != p.left
    ensures IsStar(graph, [p, q]) && !exists t :: Hub([p, q], t)
  {
    IncidentGrows([p], q, p.left);
    IncidentGrows([], p, p.left);
    assert [p] + [q] == [p, q] && [] + [p] == [p];
    hide Incident;
    var preds := [p, q];
    IncidentIn(preds, p.left, p);
    TablesKnown(graph, preds, p, p.left);
    forall t
      ensures !Hub(preds, t)
    {
      assert p in preds && q in preds;
    }
  }
}
