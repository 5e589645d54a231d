/**
 What a list of joins computes. A row of a join's result picks one row of each table it covers, so a
 relation is a set of maps from tables to row numbers.
 */
module JoinMeaning {
  import opened Connectivity
  import opened Counting

  type Table = nat
  type Assignment = map<Table, nat>
  type Relation = iset<Assignment>

  datatype JoinPredicate = JoinPredicate(left: Table, right: Table)

  /** `rows` is the size of each table; `matches(p, i, j)` tells whether predicate number `p` accepts row `i` of its
      left and row `j` of its right table. */
  datatype Database = Database(rows: Table -> nat, matches: (nat, nat, nat) -> bool)

  ghost predicate Holds(db: Database, preds: seq<JoinPredicate>, p: nat, f: Assignment) {
    p < |preds| && preds[p].left in f && preds[p].right in f && db.matches(p, f[preds[p].left], f[preds[p].right])
  }

  /** The cross product of `tables` filtered by the predicates numbered `P`. */
  ghost function Filtered(db: Database, preds: seq<JoinPredicate>, tables: set<Table>, P: set<nat>): Relation {
    iset f: Assignment | f.Keys == tables && (forall t :: t in f ==> f[t] < db.rows(t)) && forall p :: p in P ==> Holds(db, preds, p, f)
  }

  /** A join reads a base table or the result of the join made for some predicate. */
  datatype Source = Base(table: Table) | Output(pred: nat)
  datatype Join = Join(pred: nat, left: Source, right: Source)

  /** All combinations of a left and a right row that the predicate accepts. */
  ghost function Combine(db: Database, preds: seq<JoinPredicate>, p: nat, L: Relation, R: Relation): Relation {
    iset f, g | f in L && g in R && Holds(db, preds, p, f + g) :: f + g
  }

  ghost function Value(db: Database, preds: seq<JoinPredicate>, env: map<nat, Relation>, s: Source): Relation {
    match s
    case Base(t) => Filtered(db, preds, {t}, {})
    case Output(p) => if p in env then env[p] else iset{}
  }

  /** Run the joins in list order. */
  ghost function Evaluate(db: Database, preds: seq<JoinPredicate>, ops: seq<Join>): map<nat, Relation> {
    if ops == [] then map[] else
      var env, op := Evaluate(db, preds, ops[..|ops| - 1]), ops[|ops| - 1];
      env[op.pred := Combine(db, preds, op.pred, Value(db, preds, env, op.left), Value(db, preds, env, op.right))]
  }

  ghost function Preds(ops: seq<Join>): set<nat> {
    set i | 0 <= i < |ops| :: ops[i].pred
  }

  ghost predicate Available(ops: seq<Join>, k: nat, s: Source)
    requires k <= |ops|
  {
    s.Output? ==> s.pred in Preds(ops[..k])
  }

  /** One join per predicate, and each reads base tables or joins that come earlier in the list. */
  ghost predicate Ordered(ops: seq<Join>) {
    && (forall i, j :: 0 <= i < j < |ops| ==> ops[i].pred != ops[j].pred)
    && (forall k :: 0 <= k < |ops| ==> Available(ops, k, ops[k].left) && Available(ops, k, ops[k].right))
  }

  /** `meaning` gives each join the value it should have. */
  ghost predicate Explains(db: Database, preds: seq<JoinPredicate>, meaning: map<nat, Relation>, ops: seq<Join>) {
    forall k :: 0 <= k < |ops| ==>
      && ops[k].pred in meaning
      && meaning[ops[k].pred] == Combine(db, preds, ops[k].pred, Value(db, preds, meaning, ops[k].left), Value(db, preds, meaning, ops[k].right))
  }

  lemma PredsPrefix(ops: seq<Join>, k: nat)
    requires k < |ops|
    ensures Preds(ops[..k + 1]) == Preds(ops[..k]) + {ops[k].pred}
  {
    assert ops[..k + 1] == ops[..k] + [ops[k]];
    PredsAppend(ops[..k], [ops[k]]);
    assert Preds([ops[k]]) == {ops[k].pred} by { assert [ops[k]][0].pred in Preds([ops[k]]); }
  }

  lemma PredsAppend(a: seq<Join>, b: seq<Join>)
    ensures Preds(a + b) == Preds(a) + Preds(b)
  {
    var ab := a + b;
    forall p | p in Preds(a) + Preds(b)
      ensures p in Preds(ab)
    {
      if p in Preds(a) {
        var i :| 0 <= i < |a| && a[i].pred == p;
        assert ab[i].pred in Preds(ab);
      } else {
        var i :| 0 <= i < |b| && b[i].pred == p;
        assert ab[|a| + i].pred in Preds(ab);
      }
    }
  }

  /** Running an ordered list gives every join its meaning. */
  lemma {:induction false} EvaluateExplained(db: Database, preds: seq<JoinPredicate>, meaning: map<nat, Relation>, ops: seq<Join>, k: nat)
    requires Ordered(ops) && Explains(db, preds, meaning, ops) && k <= |ops|
    ensures var env := Evaluate(db, preds, ops[..k]);
            env.Keys == Preds(ops[..k]) && forall p :: p in env ==> p in meaning && env[p] == meaning[p]
  {
    hide Combine, Filtered, Preds;
    if k == 0 {
      assert ops[..k] == [];
      assert Preds([]) == {} by { NoPreds(); }
    } else {
      EvaluateExplained(db, preds, meaning, ops, k - 1);
      assert ops[..k][..k - 1] == ops[..k - 1];
      PredsPrefix(ops, k - 1);
      assert Available(ops, k - 1, ops[k - 1].left) && Available(ops, k - 1, ops[k - 1].right);
    }
  }

  lemma NoPreds()
    ensures Preds([]) == {}
  {
  }

  /** The meaning of a join of two filtered products of separate tables. */
  lemma JoinFilters(db: Database, preds: seq<JoinPredicate>, p: nat, T1: set<Table>, P1: set<nat>, T2: set<Table>, P2: set<nat>)
    requires p < |preds| && preds[p].left in T1 && preds[p].right in T2 && T1 !! T2
    requires forall q :: q in P1 ==> q < |preds| && preds[q].left in T1 && preds[q].right in T1
    requires forall q :: q in P2 ==> q < |preds| && preds[q].left in T2 && preds[q].right in T2
    ensures Combine(db, preds, p, Filtered(db, preds, T1, P1), Filtered(db, preds, T2, P2)) == Filtered(db, preds, T1 + T2, P1 + P2 + {p})
  {
    var L, R := Filtered(db, preds, T1, P1), Filtered(db, preds, T2, P2);
    var all := Filtered(db, preds, T1 + T2, P1 + P2 + {p});
    forall h
      ensures h in Combine(db, preds, p, L, R) <==> h in all
    {
      if h in Combine(db, preds, p, L, R) {
        var f, g :| f in L && g in R && Holds(db, preds, p, f + g) && h == f + g;
        Glued(db, preds, p, T1, P1, T2, P2, f, g);
      }
      if h in all {
        Split(db, preds, p, T1, P1, T2, P2, h);
      }
    }
  }

  lemma Glued(db: Database, preds: seq<JoinPredicate>, p: nat, T1: set<Table>, P1: set<nat>, T2: set<Table>, P2: set<nat>,
              f: Assignment, g: Assignment)
    requires T1 !! T2 && f in Filtered(db, preds, T1, P1) && g in Filtered(db, preds, T2, P2) && Holds(db, preds, p, f + g)
    requires forall q :: q in P1 ==> q < |preds| && preds[q].left in T1 && preds[q].right in T1
    requires forall q :: q in P2 ==> q < |preds| && preds[q].left in T2 && preds[q].right in T2
    ensures f + g in Filtered(db, preds, T1 + T2, P1 + P2 + {p})
  {
    forall q | q in P1 + P2
      ensures Holds(db, preds, q, f + g)
    {
      if q in P1 {
        assert Holds(db, preds, q, f);
      } else {
        assert Holds(db, preds, q, g);
      }
    }
  }

  lemma Split(db: Database, preds: seq<JoinPredicate>, p: nat, T1: set<Table>, P1: set<nat>, T2: set<Table>, P2: set<nat>, h: Assignment)
    requires p < |preds| && T1 !! T2 && h in Filtered(db, preds, T1 + T2, P1 + P2 + {p})
    requires forall q :: q in P1 ==> q < |preds| && preds[q].left in T1 && preds[q].right in T1
    requires forall q :: q in P2 ==> q < |preds| && preds[q].left in T2 && preds[q].right in T2
    ensures h in Combine(db, preds, p, Filtered(db, preds, T1, P1), Filtered(db, preds, T2, P2))
  {
    var f := map t | t in h && t in T1 :: h[t];
    var g := map t | t in h && t in T2 :: h[t];
    assert f.Keys == T1 && g.Keys == T2;
    assert f + g == h;
    forall q | q in P1 ensures Holds(db, preds, q, f) { assert Holds(db, preds, q, h); }
    forall q | q in P2 ensures Holds(db, preds, q, g) { assert Holds(db, preds, q, h); }
    assert f in Filtered(db, preds, T1, P1) && g in Filtered(db, preds, T2, P2);
  }

  // ---------- Cycles ----------

  ghost function Links(preds: seq<JoinPredicate>, S: set<nat>): set<(Table, Table)> {
    set p | p in S && p < |preds| :: (preds[p].left, preds[p].right)
  }

  ghost function All(preds: seq<JoinPredicate>): set<nat> {
    UpTo(|preds|)
  }

  /** The tables of some predicate are connected without it, or are the same. */
  ghost predicate Closes(preds: seq<JoinPredicate>, S: set<nat>, p: nat)
    requires p < |preds|
  {
    Connected(Links(preds, S - {p}), preds[p].left, preds[p].right)
  }

  ghost predicate HasCycle(preds: seq<JoinPredicate>) {
    exists p :: 0 <= p < |preds| && Closes(preds, All(preds), p)
  }

  ghost predicate NoCycleIn(preds: seq<JoinPredicate>, S: set<nat>) {
    forall p :: p in S && p < |preds| ==> !Closes(preds, S, p)
  }

  lemma LinksGrow(preds: seq<JoinPredicate>, S: set<nat>, q: nat)
    requires q < |preds|
    ensures Links(preds, S + {q}) == Links(preds, S) + {(preds[q].left, preds[q].right)}
  {
  }

  /** A predicate between two unconnected groups closes no cycle. */
  lemma BridgeKeeps(preds: seq<JoinPredicate>, S: set<nat>, q: nat)
    requires NoCycleIn(preds, S) && q < |preds| && q !in S && !Connected(Links(preds, S), preds[q].left, preds[q].right)
    ensures NoCycleIn(preds, S + {q})
  {
    hide Connected;
    forall p | p in S + {q} && p < |preds|
      ensures !Closes(preds, S + {q}, p)
    {
      if p == q {
        assert S + {q} - {q} == S;
      } else {
        BridgeKeepsAt(preds, S, q, p);
      }
    }
  }

  lemma BridgeKeepsAt(preds: seq<JoinPredicate>, S: set<nat>, q: nat, p: nat)
    requires q < |preds| && q !in S && p in S && p < |preds| && !Closes(preds, S, p)
    requires !Connected(Links(preds, S), preds[q].left, preds[q].right)
    ensures !Closes(preds, S + {q}, p)
  {
    hide Connected, Links;
    var a, b, u, v := preds[p].left, preds[p].right, preds[q].left, preds[q].right;
    var rest, all := Links(preds, S - {p}), Links(preds, S);
    assert S + {q} - {p} == S - {p} + {q};
    LinksGrow(preds, S - {p}, q);
    assert S - {p} + {p} == S;
    LinksGrow(preds, S - {p}, p);
    LinkConnects(rest, u, v, a, b);
    if Connected(rest + {(u, v)}, a, b) {
      OneLink(all, a, b);
      OneLink(all, b, a);
      Backwards(rest, a, u);
      Backwards(rest, v, b);
      Backwards(rest, a, v);
      Backwards(rest, u, b);
      if Connected(rest, a, u) && Connected(rest, v, b) {
        Crossing(rest, all, u, a, b, v);
      } else {
        Crossing(rest, all, u, b, a, v);
      }
    }
  }

  lemma CycleFound(preds: seq<JoinPredicate>, S: set<nat>, p: nat)
    requires S <= All(preds) && p < |preds| && p !in S && Connected(Links(preds, S), preds[p].left, preds[p].right)
    ensures HasCycle(preds)
  {
    MoreLinks(Links(preds, S), Links(preds, All(preds) - {p}), preds[p].left, preds[p].right);
    assert Closes(preds, All(preds), p);
  }
}
