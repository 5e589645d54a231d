/** Greedy join ordering: repeatedly take the cheapest remaining join predicate and join the two groups of tables it links. */
module ReorderJoins {
  import opened Connectivity
  import opened Counting
  import opened DisjointSet
  import opened JoinMeaning
  import opened Wrappers

  /** The operators of a plan in list order, and the join whose output is the plan's result. */
  datatype Plan = Plan(ops: seq<Join>, result: Option<nat>)

  /** `Unsupported` is the exception for join graphs with a cycle; without predicates there is no plan. */
  datatype Outcome = Unsupported | NoPlan | Planned(plan: Plan)

  // ---------- Numbering tables ----------

  function Seen(order: seq<Table>, t: Table): seq<Table> {
    if t in order then order else order + [t]
  }

  /** The tables of the first `k` predicates in order of appearance. */
  function Tables(preds: seq<JoinPredicate>, k: nat): seq<Table>
    requires k <= |preds|
  {
    if k == 0 then [] else Seen(Seen(Tables(preds, k - 1), preds[k - 1].left), preds[k - 1].right)
  }

  /** `ids` and `names` number the tables of `order` by position. */
  ghost predicate Numbers(order: seq<Table>, ids: map<Table, nat>, names: map<nat, Table>) {
    && Listed(order, ids) && Placed(order, ids) && Named(order, names) && Distinct(order) && |ids| == |order|
  }

  ghost predicate Listed(order: seq<Table>, ids: map<Table, nat>) {
    forall t :: t in ids <==> t in order
  }

  ghost predicate Placed(order: seq<Table>, ids: map<Table, nat>) {
    forall t :: t in ids ==> ids[t] < |order| && order[ids[t]] == t
  }

  ghost predicate Named(order: seq<Table>, names: map<nat, Table>) {
    forall i {:trigger names[i]} {:trigger i in names} :: 0 <= i < |order| ==> i in names && names[i] == order[i]
  }

  method NumberTable(order: seq<Table>, t: Table, ids: map<Table, nat>, names: map<nat, Table>)
    returns (ids': map<Table, nat>, names': map<nat, Table>)
    requires Numbers(order, ids, names)
    ensures Numbers(Seen(order, t), ids', names')
  {
    hide Distinct, Placed, Named;
    ids', names' := ids, names;
    if t !in ids {
      NumbersGrow(order, t, ids, names);
      ids' := ids[t := |ids|];
      names' := names[ids'[t] := t];
    }
  }

  lemma NumbersGrow(order: seq<Table>, t: Table, ids: map<Table, nat>, names: map<nat, Table>)
    requires Numbers(order, ids, names) && t !in ids
    ensures Seen(order, t) == order + [t] && Numbers(order + [t], ids[t := |ids|], names[|ids| := t])
  {
    hide Listed, Placed, Named, Distinct;
    var ids', names', order' := ids[t := |ids|], names[|ids| := t], order + [t];
    assert t !in order && Listed(order', ids') by { ListedGrows(order, t, ids); }
    assert Placed(order', ids') by { PlacedGrows(order, t, ids); }
    assert Named(order', names') by { NamedGrows(order, t, names); }
    assert Distinct(order') by { NoRepeatsGrows(order, t); }
    assert ids'.Keys == ids.Keys + {t};
  }

  lemma ListedGrows(order: seq<Table>, t: Table, ids: map<Table, nat>)
    requires Listed(order, ids) && t !in ids
    ensures t !in order && Listed(order + [t], ids[t := |ids|])
  {
  }

  lemma PlacedGrows(order: seq<Table>, t: Table, ids: map<Table, nat>)
    requires Placed(order, ids) && |ids| == |order|
    ensures Placed(order + [t], ids[t := |ids|])
  {
  }

  lemma NamedGrows(order: seq<Table>, t: Table, names: map<nat, Table>)
    requires Named(order, names)
    ensures Named(order + [t], names[|order| := t])
  {
  }

  lemma NoRepeatsGrows(order: seq<Table>, t: Table)
    requires Distinct(order) && t !in order
    ensures Distinct(order + [t])
  {
  }

  method NumberTables(preds: seq<JoinPredicate>) returns (ids: map<Table, nat>, names: map<nat, Table>)
    ensures Numbers(Tables(preds, |preds|), ids, names)
  {
    hide Numbers;
    ids, names := map[], map[];
    assert Numbers([], ids, names) by { NumbersNothing(ids, names); }
    for k := 0 to |preds|
      invariant Numbers(Tables(preds, k), ids, names)
    {
      ids, names := NumberTable(Tables(preds, k), preds[k].left, ids, names);
      ids, names := NumberTable(Seen(Tables(preds, k), preds[k].left), preds[k].right, ids, names);
    }
  }

  lemma NumbersNothing(ids: map<Table, nat>, names: map<nat, Table>)
    requires ids == map[]
    ensures Numbers([], ids, names)
  {
  }

  lemma SeenGrows(order: seq<Table>, t: Table)
    ensures order <= Seen(order, t) && t in Seen(order, t)
  {
  }

  lemma Longer(a: seq<Table>, b: seq<Table>, c: seq<Table>)
    requires a <= b <= c
    ensures a <= c
  {
    assert c[..|a|] == b[..|a|];
  }

  lemma TablesStep(preds: seq<JoinPredicate>, k: nat)
    requires 0 < k <= |preds|
    ensures Tables(preds, k) == Seen(Seen(Tables(preds, k - 1), preds[k - 1].left), preds[k - 1].right)
    ensures Tables(preds, k - 1) <= Tables(preds, k)
  {
    hide Seen;
    var a, b := Tables(preds, k - 1), Seen(Tables(preds, k - 1), preds[k - 1].left);
    SeenGrows(a, preds[k - 1].left);
    SeenGrows(b, preds[k - 1].right);
    Longer(a, b, Tables(preds, k));
  }

  lemma {:induction false} TablesGrow(preds: seq<JoinPredicate>, j: nat, k: nat)
    requires j <= k <= |preds|
    ensures Tables(preds, j) <= Tables(preds, k)
    decreases k - j
  {
    hide Tables;
    if j < k {
      TablesGrow(preds, j, k - 1);
      TablesStep(preds, k);
      Longer(Tables(preds, j), Tables(preds, k - 1), Tables(preds, k));
    }
  }

  lemma TablesHave(preds: seq<JoinPredicate>, p: nat)
    requires p < |preds|
    ensures preds[p].left in Tables(preds, |preds|) && preds[p].right in Tables(preds, |preds|)
  {
    TablesGrow(preds, p + 1, |preds|);
    var t := Tables(preds, p + 1);
    assert preds[p].left in t && preds[p].right in t;
  }

  /** The forest holds the singletons of the first `n` numbers, each at its own position. */
  ghost predicate Singletons(position: map<nat, nat>, root: seq<nat>, n: nat) {
    && (forall i: nat :: i in position <==> i < n) && (forall i :: i in position ==> position[i] == i)
    && |root| == n && forall i :: 0 <= i < n ==> root[i] == i
  }

  method MakeTable(forest: DisjointSetForest<nat>, ghost order: seq<Table>, ghost t: Table, i: nat)
    requires forest.Valid() && Singletons(forest.position, forest.root, |order|)
    requires i < |Seen(order, t)| && Seen(order, t)[i] == t && Distinct(Seen(order, t))
    modifies forest
    ensures forest.Valid() && Singletons(forest.position, forest.root, |Seen(order, t)|) && forest.links == old(forest.links)
  {
    hide Tracks, Shape;
    SameLength(forest.nodes, forest.root, forest.depth);
    assert i < |order| <==> t in order;
    ghost var n := |order|;
    forest.MakeSet(i);
    SameLength(forest.nodes, forest.root, forest.depth);
    forall j | 0 <= j < |forest.root|
      ensures forest.root[j] == j
    {
      if j < n {
        assert forest.Rep(j) == j;
      }
    }
  }

  // ---------- Groups and their plans ----------

  ghost predicate PlanOk(db: Database, preds: seq<JoinPredicate>, plan: Plan, T: set<Table>, P: set<nat>, meaning: map<nat, Relation>) {
    && plan.result.Some? && plan.result.value in P && Preds(plan.ops) == P
    && Ordered(plan.ops) && Explains(db, preds, meaning, plan.ops)
    && plan.result.value in meaning && meaning[plan.result.value] == Filtered(db, preds, T, P)
  }

  /** A group without a plan is a single table; any other group's plan computes its filtered product. */
  ghost predicate GroupOk(db: Database, preds: seq<JoinPredicate>, plan: Option<Plan>, T: set<Table>, P: set<nat>, meaning: map<nat, Relation>) {
    if plan.None? then P == {} && |T| == 1 else PlanOk(db, preds, plan.value, T, P, meaning)
  }

  function OpsOf(plan: Option<Plan>): seq<Join> {
    if plan.None? then [] else plan.value.ops
  }

  /** What a join reads from a group: the group's result, or its only table. */
  function Input(plan: Option<Plan>, t: Table): Source
    requires plan.Some? ==> plan.value.result.Some?
  {
    if plan.None? then Base(t) else Output(plan.value.result.value)
  }

  lemma OnlyMember(T: set<Table>, t: Table)
    requires |T| == 1 && t in T
    ensures T == {t}
  {
    assert |T - {t}| == 0;
  }

  lemma InputMeans(db: Database, preds: seq<JoinPredicate>, plan: Option<Plan>, T: set<Table>, P: set<nat>, meaning: map<nat, Relation>, t: Table)
    requires GroupOk(db, preds, plan, T, P, meaning) && t in T
    ensures plan.Some? ==> plan.value.result.Some?
    ensures Value(db, preds, meaning, Input(plan, t)) == Filtered(db, preds, T, P)
    ensures Input(plan, t).Output? ==> Input(plan, t).pred in Preds(OpsOf(plan))
    ensures Preds(OpsOf(plan)) == P && Ordered(OpsOf(plan)) && Explains(db, preds, meaning, OpsOf(plan))
  {
    hide Combine, Filtered;
    if plan.None? {
      OnlyMember(T, t);
    }
  }

  lemma OrderedAppend(a: seq<Join>, b: seq<Join>)
    requires Ordered(a) && Ordered(b) && Preds(a) !! Preds(b)
    ensures Ordered(a + b)
  {
    var ab := a + b;
    hide Preds, Available;
    forall k | 0 <= k < |ab|
      ensures Available(ab, k, ab[k].left) && Available(ab, k, ab[k].right)
    {
      if k < |a| {
        assert ab[..k] == a[..k];
        AvailableIn(a, k, ab, k, a[k].left);
        AvailableIn(a, k, ab, k, a[k].right);
      } else {
        assert ab[..k] == a + b[..k - |a|];
        PredsAppend(a, b[..k - |a|]);
        AvailableIn(b, k - |a|, ab, k, b[k - |a|].left);
        AvailableIn(b, k - |a|, ab, k, b[k - |a|].right);
      }
    }
    forall i, j | 0 <= i < j < |ab|
      ensures ab[i].pred != ab[j].pred
    {
      if i < |a| <= j {
        PredIn(a, i);
        PredIn(b, j - |a|);
      }
    }
  }

  lemma AvailableIn(a: seq<Join>, i: nat, b: seq<Join>, j: nat, s: Source)
    requires i <= |a| && j <= |b| && Available(a, i, s) && Preds(a[..i]) <= Preds(b[..j])
    ensures Available(b, j, s)
  {
  }

  lemma PredIn(ops: seq<Join>, i: nat)
    requires i < |ops|
    ensures ops[i].pred in Preds(ops)
  {
  }

  lemma OrderedAdd(ops: seq<Join>, op: Join)
    requires Ordered(ops) && op.pred !in Preds(ops)
    requires (op.left.Output? ==> op.left.pred in Preds(ops)) && (op.right.Output? ==> op.right.pred in Preds(ops))
    ensures Ordered(ops + [op]) && Preds(ops + [op]) == Preds(ops) + {op.pred}
  {
    var all := ops + [op];
    hide Preds;
    forall k | 0 <= k < |all|
      ensures Available(all, k, all[k].left) && Available(all, k, all[k].right)
    {
      if k < |ops| {
        assert all[..k] == ops[..k];
        assert Available(ops, k, ops[k].left) && Available(ops, k, ops[k].right);
      } else {
        assert all[..k] == ops;
      }
    }
    forall i | 0 <= i < |ops|
      ensures ops[i].pred != op.pred
    {
      PredIn(ops, i);
    }
    assert all[..|ops|] == ops && all[..|ops| + 1] == all;
    PredsPrefix(all, |ops|);
  }

  /** Joins explained by a meaning stay explained when another join gets its meaning. */
  lemma ExplainsGrows(db: Database, preds: seq<JoinPredicate>, meaning: map<nat, Relation>, ops: seq<Join>, p: nat, R: Relation)
    requires Explains(db, preds, meaning, ops) && Ordered(ops) && p !in Preds(ops)
    ensures Explains(db, preds, meaning[p := R], ops)
  {
    hide Combine, Filtered, Preds;
    forall k | 0 <= k < |ops|
      ensures ops[k].pred != p
      ensures Value(db, preds, meaning[p := R], ops[k].left) == Value(db, preds, meaning, ops[k].left)
      ensures Value(db, preds, meaning[p := R], ops[k].right) == Value(db, preds, meaning, ops[k].right)
    {
      PredIn(ops, k);
      assert Available(ops, k, ops[k].left) && Available(ops, k, ops[k].right);
      PrefixPreds(ops, k);
    }
  }

  lemma PrefixPreds(ops: seq<Join>, k: nat)
    requires k <= |ops|
    ensures Preds(ops[..k]) <= Preds(ops)
  {
  }

  lemma GroupGrows(db: Database, preds: seq<JoinPredicate>, plan: Option<Plan>, T: set<Table>, P: set<nat>, meaning: map<nat, Relation>,
                   p: nat, R: Relation)
    requires GroupOk(db, preds, plan, T, P, meaning) && p !in P
    ensures GroupOk(db, preds, plan, T, P, meaning[p := R])
  {
    hide Explains, Ordered, Filtered;
    if plan.Some? {
      ExplainsGrows(db, preds, meaning, plan.value.ops, p, R);
    }
  }

  /** The plan built for two groups: the left group's joins, the right group's joins, and the new join. */
  function JoinedPlan(l: Option<Plan>, r: Option<Plan>, p: nat, left: Source, right: Source): Plan {
    Plan(OpsOf(l) + (OpsOf(r) + [Join(p, left, right)]), Some(p))
  }

  lemma JoinedOk(db: Database, preds: seq<JoinPredicate>, l: Option<Plan>, r: Option<Plan>, p: nat,
                 T1: set<Table>, P1: set<nat>, T2: set<Table>, P2: set<nat>, meaning: map<nat, Relation>)
    requires GroupOk(db, preds, l, T1, P1, meaning) && GroupOk(db, preds, r, T2, P2, meaning)
    requires p < |preds| && preds[p].left in T1 && preds[p].right in T2 && T1 !! T2 && P1 !! P2 && p !in P1 && p !in P2
    requires forall q :: q in P1 ==> q < |preds| && preds[q].left in T1 && preds[q].right in T1
    requires forall q :: q in P2 ==> q < |preds| && preds[q].left in T2 && preds[q].right in T2
    requires (l.Some? ==> l.value.result.Some?) && (r.Some? ==> r.value.result.Some?)
    ensures PlanOk(db, preds, JoinedPlan(l, r, p, Input(l, preds[p].left), Input(r, preds[p].right)), T1 + T2, P1 + P2 + {p},
                   meaning[p := Filtered(db, preds, T1 + T2, P1 + P2 + {p})])
  {
    hide Explains, Ordered, Filtered, Combine, Preds, GroupOk, Value, Input;
    var left, right := Input(l, preds[p].left), Input(r, preds[p].right);
    InputMeans(db, preds, l, T1, P1, meaning, preds[p].left);
    InputMeans(db, preds, r, T2, P2, meaning, preds[p].right);
    JoinFilters(db, preds, p, T1, P1, T2, P2);
    var a, b, op := OpsOf(l), OpsOf(r), Join(p, left, right);
    OrderedAppend(a, b);
    PredsAppend(a, b);
    OrderedAdd(a + b, op);
    assert a + (b + [op]) == a + b + [op];
    ExplainsJoin(db, preds, meaning, a, b, op, Filtered(db, preds, T1 + T2, P1 + P2 + {p}));
  }

  lemma ExplainsJoin(db: Database, preds: seq<JoinPredicate>, meaning: map<nat, Relation>, a: seq<Join>, b: seq<Join>, op: Join, R: Relation)
    requires Explains(db, preds, meaning, a) && Explains(db, preds, meaning, b) && Ordered(a) && Ordered(b)
    requires op.pred !in Preds(a) && op.pred !in Preds(b)
    requires (op.left.Output? ==> op.left.pred != op.pred) && (op.right.Output? ==> op.right.pred != op.pred)
    requires R == Combine(db, preds, op.pred, Value(db, preds, meaning, op.left), Value(db, preds, meaning, op.right))
    ensures Explains(db, preds, meaning[op.pred := R], a + b + [op])
  {
    hide Combine, Filtered, Ordered, Preds;
    ExplainsGrows(db, preds, meaning, a, op.pred, R);
    ExplainsGrows(db, preds, meaning, b, op.pred, R);
    var m := meaning[op.pred := R];
    assert Value(db, preds, m, op.left) == Value(db, preds, meaning, op.left);
    assert Value(db, preds, m, op.right) == Value(db, preds, meaning, op.right);
  }

  // ---------- Groups of tables ----------

  ghost function GroupOf(ids: map<Table, nat>, root: seq<nat>, t: Table): int {
    if t in ids && ids[t] < |root| then root[ids[t]] else -1
  }

  ghost function Members(ids: map<Table, nat>, root: seq<nat>, g: nat): set<Table> {
    set t | t in ids && GroupOf(ids, root, t) == g
  }

  ghost function PredsIn(preds: seq<JoinPredicate>, ids: map<Table, nat>, root: seq<nat>, S: set<nat>, g: nat): set<nat> {
    set p | p in S && p < |preds| && GroupOf(ids, root, preds[p].left) == g
  }

  ghost predicate GroupsOk(db: Database, preds: seq<JoinPredicate>, ids: map<Table, nat>, root: seq<nat>, S: set<nat>,
                           plans: seq<Option<Plan>>, meaning: map<nat, Relation>) {
    && |plans| == |root|
    && forall g :: 0 <= g < |root| && root[g] == g ==>
         GroupOk(db, preds, plans[g], Members(ids, root, g), PredsIn(preds, ids, root, S, g), meaning)
  }

  /** All tables of the predicates are numbered. */
  ghost predicate Covers(preds: seq<JoinPredicate>, ids: map<Table, nat>) {
    forall p :: 0 <= p < |preds| ==> preds[p].left in ids && preds[p].right in ids
  }

  /** Both tables of a processed predicate are in one group. */
  lemma SameGroup(preds: seq<JoinPredicate>, ids: map<Table, nat>, root: seq<nat>, S: set<nat>, p: nat)
    requires Tracks(ids, root, Links(preds, S)) && Covers(preds, ids) && p in S && p < |preds|
    ensures GroupOf(ids, root, preds[p].left) == GroupOf(ids, root, preds[p].right) >= 0
  {
    hide Connected;
    OneLink(Links(preds, S), preds[p].left, preds[p].right);
  }

  lemma Inside(preds: seq<JoinPredicate>, ids: map<Table, nat>, root: seq<nat>, S: set<nat>, g: nat)
    requires Tracks(ids, root, Links(preds, S)) && Covers(preds, ids)
    ensures forall q :: q in PredsIn(preds, ids, root, S, g) ==>
              q < |preds| && preds[q].left in Members(ids, root, g) && preds[q].right in Members(ids, root, g)
  {
    hide Tracks;
    forall q | q in PredsIn(preds, ids, root, S, g)
      ensures q < |preds| && preds[q].left in Members(ids, root, g) && preds[q].right in Members(ids, root, g)
    {
      SameGroup(preds, ids, root, S, q);
    }
  }

  /** How groups change when the groups `g1` and `g2` of predicate `p` become one. */
  lemma Regroup(preds: seq<JoinPredicate>, ids: map<Table, nat>, root: seq<nat>, root': seq<nat>, S: set<nat>, p: nat, g1: nat, g2: nat, to: nat)
    requires p < |preds| && GroupOf(ids, root, preds[p].left) == g1 && GroupOf(ids, root, preds[p].right) == g2
    requires to in {g1, g2} && |root'| == |root|
    requires forall i :: 0 <= i < |root| ==> root'[i] == if root[i] == g1 || root[i] == g2 then to else root[i]
    ensures Members(ids, root', to) == Members(ids, root, g1) + Members(ids, root, g2)
    ensures PredsIn(preds, ids, root', S + {p}, to) == PredsIn(preds, ids, root, S, g1) + PredsIn(preds, ids, root, S, g2) + {p}
    ensures forall g :: g != g1 && g != g2 ==> Members(ids, root', g) == Members(ids, root, g)
    ensures forall g :: g != g1 && g != g2 ==> PredsIn(preds, ids, root', S + {p}, g) == PredsIn(preds, ids, root, S, g)
  {
    forall t
      ensures GroupOf(ids, root', t) == if GroupOf(ids, root, t) == g1 || GroupOf(ids, root, t) == g2 then to else GroupOf(ids, root, t)
    {
    }
    hide GroupOf;
  }

  ghost predicate Rooted(root: seq<nat>) {
    forall i :: 0 <= i < |root| ==> root[i] < |root| && root[root[i]] == root[i]
  }

  lemma GroupsJoin(db: Database, preds: seq<JoinPredicate>, ids: map<Table, nat>, root: seq<nat>, root': seq<nat>, S: set<nat>,
                   plans: seq<Option<Plan>>, plans': seq<Option<Plan>>, meaning: map<nat, Relation>, p: nat, g1: nat, g2: nat, to: nat)
    requires GroupsOk(db, preds, ids, root, S, plans, meaning) && Tracks(ids, root, Links(preds, S)) && Covers(preds, ids) && Rooted(root)
    requires p < |preds| && p !in S && GroupOf(ids, root, preds[p].left) == g1 && GroupOf(ids, root, preds[p].right) == g2 && g1 != g2
    requires to in {g1, g2} && |root'| == |root| == |plans'| && g1 < |root| && g2 < |root|
    requires forall i :: 0 <= i < |root| ==> root'[i] == if root[i] == g1 || root[i] == g2 then to else root[i]
    requires (plans[g1].Some? ==> plans[g1].value.result.Some?) && (plans[g2].Some? ==> plans[g2].value.result.Some?)
    requires plans'[to] == Some(JoinedPlan(plans[g1], plans[g2], p, Input(plans[g1], preds[p].left), Input(plans[g2], preds[p].right)))
    requires forall g :: 0 <= g < |root| && g != g1 && g != g2 ==> plans'[g] == plans[g]
    ensures var R := Filtered(db, preds, Members(ids, root', to), PredsIn(preds, ids, root', S + {p}, to));
            GroupsOk(db, preds, ids, root', S + {p}, plans', meaning[p := R])
  {
    hide GroupOk, Members, PredsIn, Filtered, Tracks, JoinedPlan, Input, Covers;
    var T1, T2 := Members(ids, root, g1), Members(ids, root, g2);
    var P1, P2 := PredsIn(preds, ids, root, S, g1), PredsIn(preds, ids, root, S, g2);
    var R := Filtered(db, preds, Members(ids, root', to), PredsIn(preds, ids, root', S + {p}, to));
    Regroup(preds, ids, root, root', S, p, g1, g2, to);
    assert root[g1] == g1 && root[g2] == g2;
    Inside(preds, ids, root, S, g1);
    Inside(preds, ids, root, S, g2);
    Apart(preds, ids, root, S, p, g1, g2);
    JoinedOk(db, preds, plans[g1], plans[g2], p, T1, P1, T2, P2, meaning);
    forall g | 0 <= g < |root'| && root'[g] == g
      ensures GroupOk(db, preds, plans'[g], Members(ids, root', g), PredsIn(preds, ids, root', S + {p}, g), meaning[p := R])
    {
      if g == to {
        SomeGroup(db, preds, plans'[to], T1 + T2, P1 + P2 + {p}, meaning[p := R]);
      } else {
        assert g != g1 && g != g2;
        NotIn(preds, ids, root, S, p, g);
        GroupGrows(db, preds, plans[g], Members(ids, root, g), PredsIn(preds, ids, root, S, g), meaning, p, R);
      }
    }
  }

  lemma SomeGroup(db: Database, preds: seq<JoinPredicate>, plan: Option<Plan>, T: set<Table>, P: set<nat>, meaning: map<nat, Relation>)
    requires plan.Some? && PlanOk(db, preds, plan.value, T, P, meaning)
    ensures GroupOk(db, preds, plan, T, P, meaning)
  {
  }

  lemma NotIn(preds: seq<JoinPredicate>, ids: map<Table, nat>, root: seq<nat>, S: set<nat>, p: nat, g: nat)
    requires p !in S
    ensures p !in PredsIn(preds, ids, root, S, g)
  {
  }

  lemma Apart(preds: seq<JoinPredicate>, ids: map<Table, nat>, root: seq<nat>, S: set<nat>, p: nat, g1: nat, g2: nat)
    requires p < |preds| && p !in S && GroupOf(ids, root, preds[p].left) == g1 && GroupOf(ids, root, preds[p].right) == g2 && g1 != g2
    ensures Members(ids, root, g1) !! Members(ids, root, g2)
    ensures PredsIn(preds, ids, root, S, g1) !! PredsIn(preds, ids, root, S, g2)
    ensures p !in PredsIn(preds, ids, root, S, g1) && p !in PredsIn(preds, ids, root, S, g2)
    ensures preds[p].left in Members(ids, root, g1) && preds[p].right in Members(ids, root, g2)
  {
  }

  lemma GroupsStart(db: Database, preds: seq<JoinPredicate>, order: seq<Table>, ids: map<Table, nat>, names: map<nat, Table>, root: seq<nat>, plans: seq<Option<Plan>>)
    requires Numbers(order, ids, names) && |root| == |plans| == |order|
    requires forall i :: 0 <= i < |order| ==> root[i] == i && plans[i] == None
    ensures GroupsOk(db, preds, ids, root, {}, plans, map[])
  {
    hide Named, Distinct;
    forall g | 0 <= g < |root|
      ensures |Members(ids, root, g)| == 1
    {
      assert order[g] in ids;
      hide Listed;
      assert Members(ids, root, g) == {order[g]} by { SingleMember(order, ids, names, root, g); }
    }
  }

  lemma SingleMember(order: seq<Table>, ids: map<Table, nat>, names: map<nat, Table>, root: seq<nat>, g: nat)
    requires Numbers(order, ids, names) && |root| == |order| && g < |order| && forall i :: 0 <= i < |order| ==> root[i] == i
    ensures Members(ids, root, g) == {order[g]}
  {
    hide Named;
    assert order[g] in ids;
    assert order[ids[order[g]]] == order[g];
  }

  // ---------- The algorithm ----------

  function Cost(rows: Table -> nat, p: JoinPredicate): nat {
    (rows(p.left) * rows(p.right)) % 0x1_0000_0000_0000_0000
  }

  /** The rows that `q` combines are not fewer than those of `p`, if neither product overflows 64 bits; with overflow the
      remainders compare this way. */
  ghost predicate Rises(rows: Table -> nat, p: JoinPredicate, q: JoinPredicate) {
    var a, b := rows(p.left) * rows(p.right), rows(q.left) * rows(q.right);
    && (a < 0x1_0000_0000_0000_0000 && b < 0x1_0000_0000_0000_0000 ==> a <= b)
    && a % 0x1_0000_0000_0000_0000 <= b % 0x1_0000_0000_0000_0000
  }

  lemma CostsRise(rows: Table -> nat, p: JoinPredicate, q: JoinPredicate)
    requires Cost(rows, p) <= Cost(rows, q)
    ensures Rises(rows, p, q)
  {
    var a, b := rows(p.left) * rows(p.right), rows(q.left) * rows(q.right);
    assert a < 0x1_0000_0000_0000_0000 ==> a % 0x1_0000_0000_0000_0000 == a;
    assert b < 0x1_0000_0000_0000_0000 ==> b % 0x1_0000_0000_0000_0000 == b;
  }

  /** Along the order, the products of the row counts rise. */
  lemma ProductsRise(rows: Table -> nat, preds: seq<JoinPredicate>, order: seq<nat>)
    requires CheapestFirst(rows, preds, order)
    ensures forall i, j :: 0 <= i < j < |order| && order[i] < |preds| && order[j] < |preds| ==> Rises(rows, preds[order[i]], preds[order[j]])
  {
    hide Cost, Rises;
    forall i, j | 0 <= i < j < |order| && order[i] < |preds| && order[j] < |preds|
      ensures Rises(rows, preds[order[i]], preds[order[j]])
    {
      CostsRise(rows, preds[order[i]], preds[order[j]]);
    }
  }

  /** The product of two tables of 2^32 rows wraps round to 0, so their join comes before that of two single rows. */
  lemma WrapExample(rows: Table -> nat, order: seq<nat>)
    requires rows(0) == rows(1) == 0x1_0000_0000 && rows(2) == rows(3) == 1
    requires CheapestFirst(rows, [JoinPredicate(0, 1), JoinPredicate(2, 3)], order)
    ensures order == [0, 1] && rows(0) * rows(1) > rows(2) * rows(3)
  {
    var preds := [JoinPredicate(0, 1), JoinPredicate(2, 3)];
    assert Cost(rows, preds[0]) == 0 && Cost(rows, preds[1]) == 1;
    hide Cost;
    assert 0 in order && 1 in order;
    DistinctSize(order);
    assert Elements(order) == {0, 1};
    assert order[0] in order && order[1] in order;
  }

  ghost function TablesOf(preds: seq<JoinPredicate>): set<Table> {
    set t | t in Tables(preds, |preds|)
  }

  /** The tables that the predicates connect to `t`. */
  ghost function Component(preds: seq<JoinPredicate>, t: Table): set<Table> {
    set u | u in Tables(preds, |preds|) && Connected(Links(preds, All(preds)), u, t)
  }

  ghost function ComponentPreds(preds: seq<JoinPredicate>, t: Table): set<nat> {
    set p | p in All(preds) && Connected(Links(preds, All(preds)), preds[p].left, t)
  }

  /** `order` lists every predicate once, cheapest first. */
  ghost predicate CheapestFirst(rows: Table -> nat, preds: seq<JoinPredicate>, order: seq<nat>) {
    && (forall p :: p in order <==> 0 <= p < |preds|)
    && (forall i, j :: 0 <= i < j < |order| ==> order[i] != order[j])
    && (forall i, j :: 0 <= i < j < |order| && order[i] < |preds| && order[j] < |preds| ==> Cost(rows, preds[order[i]]) <= Cost(rows, preds[order[j]]))
  }

  /** Run on `db`, the joins compute `tables` filtered by the predicates `P`, as the value of join `last`. */
  ghost predicate Computes(db: Database, preds: seq<JoinPredicate>, ops: seq<Join>, last: nat, tables: set<Table>, P: set<nat>) {
    && last in Evaluate(db, preds, ops)
    && Evaluate(db, preds, ops)[last] == Filtered(db, preds, tables, P)
  }

  /** What a plan must do: one join per predicate of the last one's component, in a runnable order, computing
      the product of the component's tables filtered by its predicates, on every database. */
  ghost predicate PlanCorrect(preds: seq<JoinPredicate>, plan: Plan, last: nat)
    requires last < |preds|
  {
    var t := preds[last].left;
    && plan.result == Some(last) && Ordered(plan.ops) && Preds(plan.ops) == ComponentPreds(preds, t)
    && forall db :: Computes(db, preds, plan.ops, last, Component(preds, t), ComponentPreds(preds, t))
  }

  ghost predicate Identity(position: map<nat, nat>, n: nat) {
    (forall i: nat :: i in position <==> i < n) && forall i :: i in position ==> position[i] == i
  }

  lemma TracksStart(order: seq<Table>, ids: map<Table, nat>, names: map<nat, Table>, root: seq<nat>, preds: seq<JoinPredicate>)
    requires Numbers(order, ids, names) && |root| == |order| && forall i :: 0 <= i < |order| ==> root[i] == i
    ensures Tracks(ids, root, Links(preds, {}))
  {
    hide Connected, Named, Distinct, Listed;
    var none := Links(preds, {});
    assert none == {};
    forall a, b | a in ids && b in ids
      ensures ids[a] == ids[b] ==> a == b
      ensures root[ids[a]] == root[ids[b]] <==> Connected(none, a, b)
    {
      Isolated(none, a, b);
      assert order[ids[a]] == a && order[ids[b]] == b;
    }
  }

  lemma ShapeRooted(nodes: seq<Node>, root: seq<nat>, depth: seq<nat>)
    requires Shape(nodes, root, depth)
    ensures Rooted(root)
  {
  }

  lemma RerootTwice(root: seq<nat>, g1: nat, g2: nat, from: nat, to: nat)
    requires {from, to} == {g1, g2} && from != to
    ensures Rerooted(Rerooted(root, g1, to), g2, to) == Rerooted(root, from, to)
    ensures forall i :: 0 <= i < |root| ==> Rerooted(root, from, to)[i] == if root[i] == g1 || root[i] == g2 then to else root[i]
  {
  }

  lemma TablesCovered(preds: seq<JoinPredicate>, ids: map<Table, nat>, names: map<nat, Table>)
    requires Numbers(Tables(preds, |preds|), ids, names)
    ensures Covers(preds, ids) && ids.Keys == TablesOf(preds)
  {
    hide Numbers, Tables;
    forall p | 0 <= p < |preds|
      ensures preds[p].left in ids && preds[p].right in ids
    {
      TableKnown(preds, ids, names, p);
    }
    KeysAreTables(Tables(preds, |preds|), ids, names);
  }

  lemma TableKnown(preds: seq<JoinPredicate>, ids: map<Table, nat>, names: map<nat, Table>, p: nat)
    requires Numbers(Tables(preds, |preds|), ids, names) && p < |preds|
    ensures preds[p].left in ids && preds[p].right in ids
  {
    hide Numbers, Tables;
    TablesHave(preds, p);
    KeysAreTables(Tables(preds, |preds|), ids, names);
  }

  lemma KeysAreTables(order: seq<Table>, ids: map<Table, nat>, names: map<nat, Table>)
    requires Numbers(order, ids, names)
    ensures ids.Keys == set t | t in order
  {
    hide Listed, Placed, Named, Distinct;
    ListedKeys(order, ids);
  }

  lemma ListedKeys(order: seq<Table>, ids: map<Table, nat>)
    requires Listed(order, ids)
    ensures ids.Keys == set t | t in order
  {
  }

  lemma IdsBelow(order: seq<Table>, ids: map<Table, nat>, names: map<nat, Table>, t: Table)
    requires Numbers(order, ids, names) && t in ids
    ensures ids[t] < |order| && order[ids[t]] == t && ids[t] in names && names[ids[t]] == t
  {
    hide Distinct, Listed;
  }

  /** What each join computes, by the tables and predicates it covers. */
  type Cover = map<nat, (set<Table>, set<nat>)>

  ghost function Meaning(db: Database, preds: seq<JoinPredicate>, cover: Cover): map<nat, Relation> {
    map p | p in cover :: Filtered(db, preds, cover[p].0, cover[p].1)
  }

  lemma MeaningGrows(db: Database, preds: seq<JoinPredicate>, cover: Cover, p: nat, T: set<Table>, P: set<nat>)
    ensures Meaning(db, preds, cover[p := (T, P)]) == Meaning(db, preds, cover)[p := Filtered(db, preds, T, P)]
  {
    hide Filtered;
  }

  /** The groups' plans are right on every database. */
  ghost predicate GroupsRight(preds: seq<JoinPredicate>, ids: map<Table, nat>, root: seq<nat>, S: set<nat>, plans: seq<Option<Plan>>, cover: Cover) {
    forall db :: GroupsOk(db, preds, ids, root, S, plans, Meaning(db, preds, cover))
  }

  lemma Finish(preds: seq<JoinPredicate>, ids: map<Table, nat>, root: seq<nat>, plans: seq<Option<Plan>>, cover: Cover, last: nat, g: nat)
    requires Tracks(ids, root, Links(preds, All(preds))) && GroupsRight(preds, ids, root, All(preds), plans, cover) && Covers(preds, ids)
    requires last < |preds| && g < |root| == |plans| && GroupOf(ids, root, preds[last].left) == g && root[g] == g && ids.Keys == TablesOf(preds)
    requires plans[g].Some? && plans[g].value.result == Some(last)
    ensures PlanCorrect(preds, plans[g].value, last)
  {
    hide Tracks, GroupsOk, Meaning, Links, All, Evaluate, Ordered, Preds, Filtered, Component, ComponentPreds, Tables;
    var plan, t := plans[g].value, preds[last].left;
    forall db
      ensures Computes(db, preds, plan.ops, last, Component(preds, t), ComponentPreds(preds, t))
    {
      FinishOn(db, preds, ids, root, plans, Meaning(db, preds, cover), last, g);
    }
    FinishOn(AnyDatabase(), preds, ids, root, plans, Meaning(AnyDatabase(), preds, cover), last, g);
  }

  ghost function AnyDatabase(): Database {
    Database(t => 1, (p, i, j) => true)
  }

  lemma FinishOn(db: Database, preds: seq<JoinPredicate>, ids: map<Table, nat>, root: seq<nat>, plans: seq<Option<Plan>>,
                 meaning: map<nat, Relation>, last: nat, g: nat)
    requires Tracks(ids, root, Links(preds, All(preds))) && GroupsOk(db, preds, ids, root, All(preds), plans, meaning) && Covers(preds, ids)
    requires last < |preds| && g < |root| && GroupOf(ids, root, preds[last].left) == g && root[g] == g && ids.Keys == TablesOf(preds)
    requires plans[g].Some? && plans[g].value.result == Some(last)
    ensures var plan, t := plans[g].value, preds[last].left;
            && Ordered(plan.ops) && Preds(plan.ops) == ComponentPreds(preds, t)
            && Computes(db, preds, plan.ops, last, Component(preds, t), ComponentPreds(preds, t))
  {
    hide Combine, Filtered, Evaluate, Ordered, Explains, Connected, Links, All, Preds;
    var plan, t := plans[g].value, preds[last].left;
    assert PlanOk(db, preds, plan, Members(ids, root, g), PredsIn(preds, ids, root, All(preds), g), meaning);
    EvaluateExplained(db, preds, meaning, plan.ops, |plan.ops|);
    assert plan.ops[..|plan.ops|] == plan.ops;
    assert Members(ids, root, g) == Component(preds, t);
    assert PredsIn(preds, ids, root, All(preds), g) == ComponentPreds(preds, t) by { AllBelow(preds); }
  }

  lemma AllBelow(preds: seq<JoinPredicate>)
    ensures forall p :: p in All(preds) <==> 0 <= p < |preds|
  {
  }

  // ---------- Whole queries ----------

  /** The plan answers the query: on every database it computes the product of all tables filtered by all predicates. */
  ghost predicate Answers(preds: seq<JoinPredicate>, plan: Plan) {
    plan.result.Some? && forall db :: Computes(db, preds, plan.ops, plan.result.value, TablesOf(preds), All(preds))
  }

  /** The predicates connect every two tables of the query. */
  ghost predicate AllConnected(preds: seq<JoinPredicate>) {
    forall u, v :: u in TablesOf(preds) && v in TablesOf(preds) ==> Connected(Links(preds, All(preds)), u, v)
  }

  lemma OneComponent(preds: seq<JoinPredicate>, t: Table)
    requires AllConnected(preds) && t in TablesOf(preds)
    ensures Component(preds, t) == TablesOf(preds) && ComponentPreds(preds, t) == All(preds)
  {
    hide Connected, Links, All, Tables;
    AllBelow(preds);
    forall p | p in All(preds)
      ensures Connected(Links(preds, All(preds)), preds[p].left, t)
    {
      TablesHave(preds, p);
      assert preds[p].left in TablesOf(preds);
    }
  }

  /** The tables of a filtered product can be read off it, if every table has a row and everything matches. */
  lemma ProductShowsTables(preds: seq<JoinPredicate>, T1: set<Table>, P1: set<nat>, T2: set<Table>, P2: set<nat>)
    requires forall p :: p in P1 ==> p < |preds| && preds[p].left in T1 && preds[p].right in T1
    requires Filtered(AnyDatabase(), preds, T1, P1) == Filtered(AnyDatabase(), preds, T2, P2)
    ensures T1 == T2
  {
    var f: Assignment := map t | t in T1 :: 0;
    assert f.Keys == T1;
    assert f in Filtered(AnyDatabase(), preds, T1, P1);
    assert f in Filtered(AnyDatabase(), preds, T2, P2);
  }

  lemma ComponentClosed(preds: seq<JoinPredicate>, t: Table)
    ensures forall p :: p in ComponentPreds(preds, t) ==>
              p < |preds| && preds[p].left in Component(preds, t) && preds[p].right in Component(preds, t)
  {
    hide Connected, Tables;
    var links := Links(preds, All(preds));
    forall p | p in ComponentPreds(preds, t)
      ensures p < |preds| && preds[p].left in Component(preds, t) && preds[p].right in Component(preds, t)
    {
      TablesHave(preds, p);
      assert (preds[p].left, preds[p].right) in links;
      OneLink(links, preds[p].right, preds[p].left);
      Joined(links, preds[p].right, preds[p].left, t);
    }
  }

  /** A plan answers the whole query exactly if the join graph is connected; otherwise tables and predicates are lost. */
  lemma AnswersIffConnected(preds: seq<JoinPredicate>, plan: Plan, last: nat)
    requires last < |preds| && PlanCorrect(preds, plan, last)
    ensures Answers(preds, plan) <==> AllConnected(preds)
  {
    hide Connected, Links, All, Tables, Evaluate, Filtered, Ordered, Preds;
    var t := preds[last].left;
    TablesHave(preds, last);
    if AllConnected(preds) {
      OneComponent(preds, t);
    }
    if Answers(preds, plan) {
      var db := AnyDatabase();
      assert Computes(db, preds, plan.ops, last, TablesOf(preds), All(preds));
      assert Computes(db, preds, plan.ops, last, Component(preds, t), ComponentPreds(preds, t));
      ComponentClosed(preds, t);
      ProductShowsTables(preds, Component(preds, t), ComponentPreds(preds, t), TablesOf(preds), All(preds));
      var links := Links(preds, All(preds));
      forall u, v | u in TablesOf(preds) && v in TablesOf(preds)
        ensures Connected(links, u, v)
      {
        assert u in Component(preds, t) && v in Component(preds, t);
        Backwards(links, v, t);
        Joined(links, u, t, v);
      }
    }
  }

  /** Two predicates on four tables: no cycle, and no plan answers the query. */
  lemma TwoComponents(plan: Plan, last: nat)
    requires last < 2 && PlanCorrect([JoinPredicate(0, 1), JoinPredicate(2, 3)], plan, last)
    ensures var preds := [JoinPredicate(0, 1), JoinPredicate(2, 3)]; !HasCycle(preds) && !Answers(preds, plan)
  {
    var preds := [JoinPredicate(0, 1), JoinPredicate(2, 3)];
    hide Connected, PlanCorrect, Answers, Tables;
    assert !AllConnected(preds) by {
      TablesHave(preds, 0);
      TablesHave(preds, 1);
      var links := Links(preds, All(preds));
      if Connected(links, 0, 2) {
        StaysInside(links, {0, 1}, 0, 2);
      }
    }
    AnswersIffConnected(preds, plan, last);
    forall p | 0 <= p < |preds|
      ensures !Closes(preds, All(preds), p)
    {
      Isolated(Links(preds, All(preds) - {p}), preds[p].left, preds[p].right);
    }
  }

  /** The forest of table numbers, one singleton each, in order of appearance. */
  method MakeForest(preds: seq<JoinPredicate>, ids: map<Table, nat>, ghost names: map<nat, Table>) returns (forest: DisjointSetForest<nat>)
    requires Numbers(Tables(preds, |preds|), ids, names)
    ensures fresh(forest) && forest.Valid() && Singletons(forest.position, forest.root, |Tables(preds, |preds|)|)
  {
    hide Shape, Tracks, Numbers, Singletons, Tables, Seen, Distinct;
    forest := new DisjointSetForest<nat>();
    SameLength(forest.nodes, forest.root, forest.depth);
    NoTables(preds, forest.position, forest.root);
    for k := 0 to |preds|
      invariant forest.Valid() && Singletons(forest.position, forest.root, |Tables(preds, k)|) && fresh(forest)
    {
      TableAt(preds, k, ids, names);
      var left, right := ids[preds[k].left], ids[preds[k].right];
      MakeTable(forest, Tables(preds, k), preds[k].left, left);
      MakeTable(forest, Seen(Tables(preds, k), preds[k].left), preds[k].right, right);
    }
  }

  lemma NoTables(preds: seq<JoinPredicate>, position: map<nat, nat>, root: seq<nat>)
    requires position == map[] && root == []
    ensures Tables(preds, 0) == [] && Singletons(position, root, 0)
  {
  }

  lemma TableAt(preds: seq<JoinPredicate>, k: nat, ids: map<Table, nat>, names: map<nat, Table>)
    requires Numbers(Tables(preds, |preds|), ids, names) && k < |preds|
    ensures preds[k].left in ids && preds[k].right in ids
    ensures var order := Seen(Tables(preds, k), preds[k].left);
            && ids[preds[k].left] < |order| && order[ids[preds[k].left]] == preds[k].left && Distinct(order)
            && var more := Seen(order, preds[k].right);
            && ids[preds[k].right] < |more| && more[ids[preds[k].right]] == preds[k].right && Distinct(more)
            && more == Tables(preds, k + 1)
  {
    hide Tables, Numbers, Seen, Distinct;
    TablesStep(preds, k + 1);
    TablesGrow(preds, k + 1, |preds|);
    var all, order := Tables(preds, |preds|), Seen(Tables(preds, k), preds[k].left);
    SeenGrows(Tables(preds, k), preds[k].left);
    SeenGrows(order, preds[k].right);
    Longer(order, Tables(preds, k + 1), all);
    Within(order, all, ids, names, preds[k].left);
    Within(Tables(preds, k + 1), all, ids, names, preds[k].right);
  }

  lemma Within(part: seq<Table>, all: seq<Table>, ids: map<Table, nat>, names: map<nat, Table>, t: Table)
    requires Numbers(all, ids, names) && part <= all && t in part
    ensures t in ids && ids[t] < |part| && part[ids[t]] == t && Distinct(part)
  {
    hide Named;
    var i :| 0 <= i < |part| && part[i] == t;
    assert all[i] == t;
    assert t in ids;
    assert ids[t] == i by { hide Listed; assert all[ids[t]] == t; }
    forall a, b | 0 <= a < b < |part|
      ensures part[a] != part[b]
    {
      assert all[a] != all[b];
    }
  }

  /** What holds after the predicates in `S` have been processed. */
  ghost predicate Progress(preds: seq<JoinPredicate>, ids: map<Table, nat>, root: seq<nat>, S: set<nat>,
                           plans: seq<Option<Plan>>, cover: Cover) {
    && Tracks(ids, root, Links(preds, S)) && GroupsRight(preds, ids, root, S, plans, cover)
    && Covers(preds, ids) && NoCycleIn(preds, S) && S <= All(preds)
  }

  /** Each group with a plan has a result to read. */
  lemma InputReady(preds: seq<JoinPredicate>, ids: map<Table, nat>, root: seq<nat>, S: set<nat>,
                   plans: seq<Option<Plan>>, cover: Cover, g: nat)
    requires Progress(preds, ids, root, S, plans, cover) && g < |root| && root[g] == g
    ensures |plans| == |root| && (plans[g].Some? ==> plans[g].value.result.Some?)
  {
    hide Members, PredsIn, Tracks, NoCycleIn, Covers, Explains, Ordered, Filtered, Meaning;
    var db := AnyDatabase();
    assert GroupsOk(db, preds, ids, root, S, plans, Meaning(db, preds, cover));
  }

  lemma SameOrLinked(preds: seq<JoinPredicate>, ids: map<Table, nat>, root: seq<nat>, S: set<nat>,
                     plans: seq<Option<Plan>>, cover: Cover, a: Table, b: Table)
    requires Progress(preds, ids, root, S, plans, cover) && a in ids && b in ids
    ensures ids[a] < |root| && ids[b] < |root|
    ensures root[ids[a]] == root[ids[b]] <==> Connected(Links(preds, S), a, b)
  {
    hide Connected, GroupsRight;
  }

  lemma ProgressStep(preds: seq<JoinPredicate>, ids: map<Table, nat>, root: seq<nat>, root': seq<nat>, S: set<nat>,
                     plans: seq<Option<Plan>>, plans': seq<Option<Plan>>, cover: Cover, p: nat, g1: nat, g2: nat, to: nat)
    returns (cover': Cover)
    requires Progress(preds, ids, root, S, plans, cover) && Rooted(root)
    requires p < |preds| && p !in S && preds[p].left in ids && preds[p].right in ids
    requires GroupOf(ids, root, preds[p].left) == g1 && GroupOf(ids, root, preds[p].right) == g2 && g1 != g2
    requires to in {g1, g2} && |root'| == |root| == |plans'| == |plans| && g1 < |root| && g2 < |root|
    requires root' == Rerooted(Rerooted(root, g1, to), g2, to)
    requires (plans[g1].Some? ==> plans[g1].value.result.Some?) && (plans[g2].Some? ==> plans[g2].value.result.Some?)
    requires plans'[to] == Some(JoinedPlan(plans[g1], plans[g2], p, Input(plans[g1], preds[p].left), Input(plans[g2], preds[p].right)))
    requires forall g :: 0 <= g < |root| && g != g1 && g != g2 ==> plans'[g] == plans[g]
    ensures Progress(preds, ids, root', S + {p}, plans', cover')
  {
    hide GroupsOk, Tracks, Covers, NoCycleIn, Links, JoinedPlan, Connected, Input, Filtered, Members, PredsIn, Meaning;
    var from := if to == g1 then g2 else g1;
    SameOrLinked(preds, ids, root, S, plans, cover, preds[p].left, preds[p].right);
    BridgeKeeps(preds, S, p);
    RerootTwice(root, g1, g2, from, to);
    MergeTracks(ids, root, Links(preds, S), preds[p].left, preds[p].right, from, to);
    LinksGrow(preds, S, p);
    var T, P := Members(ids, root', to), PredsIn(preds, ids, root', S + {p}, to);
    cover' := cover[p := (T, P)];
    forall db
      ensures GroupsOk(db, preds, ids, root', S + {p}, plans', Meaning(db, preds, cover'))
    {
      GroupsJoin(db, preds, ids, root, root', S, plans, plans', Meaning(db, preds, cover), p, g1, g2, to);
      MeaningGrows(db, preds, cover, p, T, P);
    }
    AllBelow(preds);
  }

  // ---------- The plan follows the order ----------

  /** Predicate `q` lies in the group that the predicates `S` form around table `t`. */
  ghost predicate Touches(preds: seq<JoinPredicate>, S: set<nat>, q: nat, t: Table) {
    q < |preds| && Connected(Links(preds, S), preds[q].left, t)
  }

  /** No predicate of `order` in [from, to) touches the group that those before `j` form around `t`. */
  ghost predicate NoneTouches(preds: seq<JoinPredicate>, order: seq<nat>, j: nat, t: Table, from: nat, to: nat)
    requires from <= to <= j <= |order|
  {
    forall k :: from <= k < to ==> !Touches(preds, Elements(order[..j]), order[k], t)
  }

  /** What the `j`-th join reads for table `t`: the table itself if no earlier predicate touches its group, else the output
      of the latest one that does. */
  ghost predicate ReadsLatest(preds: seq<JoinPredicate>, order: seq<nat>, j: nat, t: Table, s: Source)
    requires j <= |order|
  {
    match s
    case Base(u) => u == t && NoneTouches(preds, order, j, t, 0, j)
    case Output(q) =>
      exists i :: 0 <= i < j && order[i] == q && Touches(preds, Elements(order[..j]), order[i], t) && NoneTouches(preds, order, j, t, i + 1, j)
  }

  /** Every join reads the base tables or the latest outputs, as of its turn in `order`. */
  ghost predicate FollowsOrder(preds: seq<JoinPredicate>, order: seq<nat>, ops: seq<Join>) {
    forall m, j :: 0 <= m < |ops| && 0 <= j < |order| && order[j] < |preds| && ops[m].pred == order[j] ==>
      && ReadsLatest(preds, order, j, preds[order[j]].left, ops[m].left)
      && ReadsLatest(preds, order, j, preds[order[j]].right, ops[m].right)
  }

  /** Taking an input off a stack of outputs: a base table leaves it alone, an output must be on top. */
  ghost function Popping(stack: seq<nat>, s: Source): Option<seq<nat>> {
    match s
    case Base(_) => Some(stack)
    case Output(q) => if stack != [] && stack[|stack| - 1] == q then Some(stack[..|stack| - 1]) else None
  }

  /** One join on a stack of outputs: the right input comes off first, then the left one, and the output goes on. */
  ghost function Stacking(stack: seq<nat>, op: Join): Option<seq<nat>> {
    match Popping(stack, op.right)
    case None => None
    case Some(less) => (match Popping(less, op.left) case None => None case Some(rest) => Some(rest + [op.pred]))
  }

  ghost function StackRun(ops: seq<Join>, stack: seq<nat>): Option<seq<nat>> {
    if ops == [] then Some(stack) else
      match StackRun(ops[..|ops| - 1], stack)
      case None => None
      case Some(more) => Stacking(more, ops[|ops| - 1])
  }

  /** The list is a join tree in postfix form: each join follows its left inputs' joins and then its right inputs' joins. */
  ghost predicate InPostfix(ops: seq<Join>, result: nat) {
    forall stack :: StackRun(ops, stack) == Some(stack + [result])
  }

  lemma {:induction false} StackRunAppend(a: seq<Join>, b: seq<Join>, stack: seq<nat>)
    requires StackRun(a, stack).Some?
    ensures StackRun(a + b, stack) == StackRun(b, StackRun(a, stack).value)
    decreases |b|
  {
    hide Stacking;
    if b == [] {
      assert a + b == a;
    } else {
      assert (a + b)[..|a + b| - 1] == a + b[..|b| - 1];
      StackRunAppend(a, b[..|b| - 1], stack);
    }
  }

  ghost function Raised(plan: Option<Plan>, stack: seq<nat>): seq<nat>
    requires plan.Some? ==> plan.value.result.Some?
  {
    if plan.None? then stack else stack + [plan.value.result.value]
  }

  lemma GroupRaises(plan: Option<Plan>, stack: seq<nat>, t: Table)
    requires plan.Some? ==> plan.value.result.Some? && InPostfix(plan.value.ops, plan.value.result.value)
    ensures StackRun(OpsOf(plan), stack) == Some(Raised(plan, stack)) && Popping(Raised(plan, stack), Input(plan, t)) == Some(stack)
  {
    if plan.Some? {
      assert Raised(plan, stack)[..|stack|] == stack;
    }
  }

  /** Left joins, right joins, new join: the joined list is in postfix form again. */
  lemma JoinedPostfix(l: Option<Plan>, r: Option<Plan>, p: nat, t: Table, u: Table)
    requires l.Some? ==> l.value.result.Some? && InPostfix(l.value.ops, l.value.result.value)
    requires r.Some? ==> r.value.result.Some? && InPostfix(r.value.ops, r.value.result.value)
    ensures InPostfix(JoinedPlan(l, r, p, Input(l, t), Input(r, u)).ops, p)
  {
    hide Popping, Raised, Input, InPostfix;
    var a, b, op := OpsOf(l), OpsOf(r), Join(p, Input(l, t), Input(r, u));
    forall stack
      ensures StackRun(a + (b + [op]), stack) == Some(stack + [p])
    {
      GroupRaises(l, stack, t);
      GroupRaises(r, Raised(l, stack), u);
      StackRunAppend(a, b + [op], stack);
      StackRunAppend(b, [op], Raised(l, stack));
      var top := Raised(r, Raised(l, stack));
      assert StackRun([op][..0], top) == Some(top);
      assert StackRun([op], top) == Stacking(top, op);
    }
    PostfixIs(a + (b + [op]), p);
  }

  lemma PostfixIs(ops: seq<Join>, p: nat)
    requires forall stack :: StackRun(ops, stack) == Some(stack + [p])
    ensures InPostfix(ops, p)
  {
  }

  ghost function PredGroup(preds: seq<JoinPredicate>, ids: map<Table, nat>, root: seq<nat>, q: nat): int {
    if q < |preds| then GroupOf(ids, root, preds[q].left) else -1
  }

  ghost predicate NoneFrom(preds: seq<JoinPredicate>, ids: map<Table, nat>, root: seq<nat>, order: seq<nat>, g: nat, from: nat) {
    forall k :: from <= k < |order| ==> PredGroup(preds, ids, root, order[k]) != g
  }

  /** `q` is the latest predicate of `order` in group `g`. */
  ghost predicate Latest(preds: seq<JoinPredicate>, ids: map<Table, nat>, root: seq<nat>, order: seq<nat>, g: nat, q: nat) {
    exists i :: 0 <= i < |order| && order[i] == q && PredGroup(preds, ids, root, order[i]) == g && NoneFrom(preds, ids, root, order, g, i + 1)
  }

  /** A group without a plan has no predicate yet; any other group's plan follows the order and ends with its latest predicate. */
  ghost predicate GroupInStep(preds: seq<JoinPredicate>, ids: map<Table, nat>, root: seq<nat>, order: seq<nat>, plan: Option<Plan>, g: nat) {
    if plan.None? then NoneFrom(preds, ids, root, order, g, 0) else
      && FollowsOrder(preds, order, plan.value.ops) && Preds(plan.value.ops) <= Elements(order)
      && plan.value.result.Some? && Latest(preds, ids, root, order, g, plan.value.result.value)
      && InPostfix(plan.value.ops, plan.value.result.value)
  }

  ghost predicate InStep(preds: seq<JoinPredicate>, ids: map<Table, nat>, root: seq<nat>, order: seq<nat>, plans: seq<Option<Plan>>) {
    |plans| == |root| && forall g :: 0 <= g < |root| && root[g] == g ==> GroupInStep(preds, ids, root, order, plans[g], g)
  }

  lemma ReadsKept(preds: seq<JoinPredicate>, order: seq<nat>, p: nat, j: nat, t: Table, s: Source)
    requires j <= |order| && ReadsLatest(preds, order, j, t, s)
    ensures ReadsLatest(preds, order + [p], j, t, s)
  {
    hide Touches, Elements;
    assert (order + [p])[..j] == order[..j];
    if s.Output? {
      var i :| 0 <= i < j && order[i] == s.pred && Touches(preds, Elements(order[..j]), order[i], t) && NoneTouches(preds, order, j, t, i + 1, j);
      assert (order + [p])[i] == s.pred && NoneTouches(preds, order + [p], j, t, i + 1, j);
    }
  }

  lemma FollowsKept(preds: seq<JoinPredicate>, order: seq<nat>, p: nat, ops: seq<Join>)
    requires FollowsOrder(preds, order, ops) && Preds(ops) <= Elements(order) && p !in order
    ensures FollowsOrder(preds, order + [p], ops) && Preds(ops) <= Elements(order + [p])
  {
    hide ReadsLatest, Preds;
    var order' := order + [p];
    forall m, j | 0 <= m < |ops| && 0 <= j < |order'| && order'[j] < |preds| && ops[m].pred == order'[j]
      ensures ReadsLatest(preds, order', j, preds[order'[j]].left, ops[m].left) && ReadsLatest(preds, order', j, preds[order'[j]].right, ops[m].right)
    {
      PredIn(ops, m);
      assert ops[m].pred in order;
      assert order'[j] == order[j];
      ReadsKept(preds, order, p, j, preds[order[j]].left, ops[m].left);
      ReadsKept(preds, order, p, j, preds[order[j]].right, ops[m].right);
    }
  }

  lemma FollowsAppend(preds: seq<JoinPredicate>, order: seq<nat>, a: seq<Join>, b: seq<Join>)
    requires FollowsOrder(preds, order, a) && FollowsOrder(preds, order, b)
    ensures FollowsOrder(preds, order, a + b)
  {
    hide ReadsLatest;
  }

  lemma FollowsLast(preds: seq<JoinPredicate>, order: seq<nat>, op: Join)
    requires op.pred < |preds| && op.pred !in order
    requires ReadsLatest(preds, order + [op.pred], |order|, preds[op.pred].left, op.left)
    requires ReadsLatest(preds, order + [op.pred], |order|, preds[op.pred].right, op.right)
    ensures FollowsOrder(preds, order + [op.pred], [op]) && Preds([op]) == {op.pred}
  {
    hide ReadsLatest;
    assert [op][0].pred in Preds([op]);
  }

  /** Being in the group of a table and touching it are the same. */
  lemma GroupIsTouch(preds: seq<JoinPredicate>, ids: map<Table, nat>, root: seq<nat>, order: seq<nat>,
                     plans: seq<Option<Plan>>, cover: Cover, t: Table, q: nat)
    requires Progress(preds, ids, root, Elements(order), plans, cover) && t in ids && ids[t] < |root|
    ensures q in order ==> (PredGroup(preds, ids, root, q) == GroupOf(ids, root, t) <==> Touches(preds, Elements(order), q, t))
  {
    hide Connected, GroupsRight, Tracks;
    if q in order {
      assert q in Elements(order);
      AllBelow(preds);
      SameOrLinked(preds, ids, root, Elements(order), plans, cover, preds[q].left, t);
    }
  }

  /** The next join reads from a group what it should. */
  lemma InputFollows(preds: seq<JoinPredicate>, ids: map<Table, nat>, root: seq<nat>, order: seq<nat>,
                     plans: seq<Option<Plan>>, cover: Cover, plan: Option<Plan>, g: nat, t: Table, p: nat)
    requires Progress(preds, ids, root, Elements(order), plans, cover) && t in ids && ids[t] < |root| && GroupOf(ids, root, t) == g
    requires GroupInStep(preds, ids, root, order, plan, g)
    ensures plan.Some? ==> plan.value.result.Some?
    ensures ReadsLatest(preds, order + [p], |order|, t, Input(plan, t))
  {
    hide InPostfix, Progress, FollowsOrder, Elements, Touches, PredGroup, GroupOf;
    var order' := order + [p];
    assert order'[..|order|] == order;
    forall k | 0 <= k < |order|
      ensures PredGroup(preds, ids, root, order[k]) == g <==> Touches(preds, Elements(order), order'[k], t)
    {
      assert order'[k] == order[k] && order[k] in order;
      GroupIsTouch(preds, ids, root, order, plans, cover, t, order[k]);
    }
    if plan.Some? {
      var i :| 0 <= i < |order| && order[i] == plan.value.result.value && PredGroup(preds, ids, root, order[i]) == g
               && NoneFrom(preds, ids, root, order, g, i + 1);
      assert order'[i] == order[i] && NoneTouches(preds, order', |order|, t, i + 1, |order|);
    }
  }

  lemma JoinedInStep(preds: seq<JoinPredicate>, ids: map<Table, nat>, root': seq<nat>, order: seq<nat>,
                     l: Option<Plan>, r: Option<Plan>, p: nat, left: Source, right: Source, to: nat)
    requires (l.Some? ==> FollowsOrder(preds, order, l.value.ops) && Preds(l.value.ops) <= Elements(order))
    requires (r.Some? ==> FollowsOrder(preds, order, r.value.ops) && Preds(r.value.ops) <= Elements(order))
    requires p < |preds| && p !in order && PredGroup(preds, ids, root', p) == to && InPostfix(JoinedPlan(l, r, p, left, right).ops, p)
    requires ReadsLatest(preds, order + [p], |order|, preds[p].left, left) && ReadsLatest(preds, order + [p], |order|, preds[p].right, right)
    ensures GroupInStep(preds, ids, root', order + [p], Some(JoinedPlan(l, r, p, left, right)), to)
  {
    hide FollowsOrder, ReadsLatest, PredGroup, Preds, InPostfix;
    var order', a, b, op := order + [p], OpsOf(l), OpsOf(r), Join(p, left, right);
    NothingFollows(preds, order);
    FollowsKept(preds, order, p, a);
    FollowsKept(preds, order, p, b);
    FollowsLast(preds, order, op);
    FollowsAppend(preds, order', b, [op]);
    FollowsAppend(preds, order', a, b + [op]);
    PredsAppend(b, [op]);
    PredsAppend(a, b + [op]);
    assert p in order';
    assert order'[|order|] == p && NoneFrom(preds, ids, root', order', to, |order| + 1);
  }

  lemma NothingFollows(preds: seq<JoinPredicate>, order: seq<nat>)
    ensures FollowsOrder(preds, order, []) && Preds([]) <= Elements(order)
  {
  }

  /** A group that predicate `p` does not join stays in step. */
  lemma OtherInStep(preds: seq<JoinPredicate>, ids: map<Table, nat>, root: seq<nat>, root': seq<nat>, order: seq<nat>, plan: Option<Plan>, g: nat, p: nat)
    requires GroupInStep(preds, ids, root, order, plan, g) && p !in order
    requires forall q: nat :: PredGroup(preds, ids, root', q) == g <==> PredGroup(preds, ids, root, q) == g
    requires PredGroup(preds, ids, root, p) != g
    ensures GroupInStep(preds, ids, root', order + [p], plan, g)
  {
    hide FollowsOrder, PredGroup, Preds, Elements, InPostfix;
    var order' := order + [p];
    if plan.Some? {
      FollowsKept(preds, order, p, plan.value.ops);
      var i :| 0 <= i < |order| && order[i] == plan.value.result.value && PredGroup(preds, ids, root, order[i]) == g
               && NoneFrom(preds, ids, root, order, g, i + 1);
      assert order'[i] == order[i] && NoneFrom(preds, ids, root', order', g, i + 1);
    }
  }

  lemma PredsRegroup(preds: seq<JoinPredicate>, ids: map<Table, nat>, root: seq<nat>, root': seq<nat>, g1: nat, g2: nat, to: nat, q: nat)
    requires |root'| == |root| && forall i :: 0 <= i < |root| ==> root'[i] == if root[i] == g1 || root[i] == g2 then to else root[i]
    ensures var g := PredGroup(preds, ids, root, q); PredGroup(preds, ids, root', q) == if g == g1 || g == g2 then to else g
  {
  }

  /** Joining the two groups of the next predicate keeps all groups in step with the order. */
  lemma InStepKept(preds: seq<JoinPredicate>, ids: map<Table, nat>, root: seq<nat>, root': seq<nat>, order: seq<nat>,
                   plans: seq<Option<Plan>>, plans': seq<Option<Plan>>, cover: Cover, p: nat, g1: nat, g2: nat, to: nat)
    requires Progress(preds, ids, root, Elements(order), plans, cover) && InStep(preds, ids, root, order, plans) && Rooted(root)
    requires p < |preds| && p !in order && preds[p].left in ids && preds[p].right in ids
    requires GroupOf(ids, root, preds[p].left) == g1 && GroupOf(ids, root, preds[p].right) == g2 && g1 != g2
    requires to in {g1, g2} && |root'| == |root| == |plans'| == |plans| && g1 < |root| && g2 < |root|
    requires root' == Rerooted(Rerooted(root, g1, to), g2, to)
    requires (plans[g1].Some? ==> plans[g1].value.result.Some?) && (plans[g2].Some? ==> plans[g2].value.result.Some?)
    requires plans'[to] == Some(JoinedPlan(plans[g1], plans[g2], p, Input(plans[g1], preds[p].left), Input(plans[g2], preds[p].right)))
    requires forall g :: 0 <= g < |root| && g != g1 && g != g2 ==> plans'[g] == plans[g]
    ensures InStep(preds, ids, root', order + [p], plans')
  {
    assert root[g1] == g1 && root[g2] == g2;
    hide InPostfix, Progress, GroupInStep, JoinedPlan, Input, Elements, ReadsLatest, PredGroup, Rerooted;
    RerootTwice(root, g1, g2, if to == g1 then g2 else g1, to);
    forall q: nat
      ensures var g := PredGroup(preds, ids, root, q); PredGroup(preds, ids, root', q) == if g == g1 || g == g2 then to else g
    {
      PredsRegroup(preds, ids, root, root', g1, g2, to, q);
    }
    assert PredGroup(preds, ids, root, p) == g1 by { PredGroupIs(preds, ids, root, p); }
    forall g | 0 <= g < |root'| && root'[g] == g
      ensures GroupInStep(preds, ids, root', order + [p], plans'[g], g)
    {
      if g == to {
        InputFollows(preds, ids, root, order, plans, cover, plans[g1], g1, preds[p].left, p);
        InputFollows(preds, ids, root, order, plans, cover, plans[g2], g2, preds[p].right, p);
        PlanInStep(preds, ids, root, order, plans[g1], g1);
        PlanInStep(preds, ids, root, order, plans[g2], g2);
        JoinedPostfix(plans[g1], plans[g2], p, preds[p].left, preds[p].right);
        JoinedInStep(preds, ids, root', order, plans[g1], plans[g2], p, Input(plans[g1], preds[p].left), Input(plans[g2], preds[p].right), to);
      } else {
        OtherInStep(preds, ids, root, root', order, plans[g], g, p);
      }
    }
  }

  lemma PredGroupIs(preds: seq<JoinPredicate>, ids: map<Table, nat>, root: seq<nat>, p: nat)
    requires p < |preds|
    ensures PredGroup(preds, ids, root, p) == GroupOf(ids, root, preds[p].left)
  {
  }

  lemma PlanInStep(preds: seq<JoinPredicate>, ids: map<Table, nat>, root: seq<nat>, order: seq<nat>, plan: Option<Plan>, g: nat)
    requires GroupInStep(preds, ids, root, order, plan, g)
    ensures plan.Some? ==> FollowsOrder(preds, order, plan.value.ops) && Preds(plan.value.ops) <= Elements(order)
    ensures plan.Some? ==> plan.value.result.Some? && InPostfix(plan.value.ops, plan.value.result.value)
  {
  }

  lemma InStepStarts(preds: seq<JoinPredicate>, ids: map<Table, nat>, root: seq<nat>, plans: seq<Option<Plan>>)
    requires |root| == |plans| && forall i :: 0 <= i < |plans| ==> plans[i] == None
    ensures InStep(preds, ids, root, [], plans)
  {
  }

  lemma InStepEnds(preds: seq<JoinPredicate>, ids: map<Table, nat>, root: seq<nat>, order: seq<nat>, plans: seq<Option<Plan>>, g: nat)
    requires InStep(preds, ids, root, order, plans) && g < |root| == |plans| && root[g] == g && plans[g].Some?
    ensures FollowsOrder(preds, order, plans[g].value.ops)
    ensures plans[g].value.result.Some? && InPostfix(plans[g].value.ops, plans[g].value.result.value)
  {
    hide FollowsOrder, InPostfix;
  }

  /** Join the groups of predicate `p`. */
  method JoinGroups(preds: seq<JoinPredicate>, ghost ids: map<Table, nat>, names: map<nat, Table>, forest: DisjointSetForest<nat>,
                    plans: seq<Option<Plan>>, ghost order: seq<nat>, ghost cover: Cover,
                    p: nat, left: nat, right: nat, g1: nat, g2: nat)
    returns (plans': seq<Option<Plan>>, merged: nat, ghost cover': Cover)
    requires forest.Valid() && Identity(forest.position, |forest.root|)
    requires Progress(preds, ids, forest.root, Elements(order), plans, cover) && InStep(preds, ids, forest.root, order, plans)
    requires p < |preds| && p !in order
    requires preds[p].left in ids && ids[preds[p].left] == left < |forest.root| && left in names && names[left] == preds[p].left
    requires preds[p].right in ids && ids[preds[p].right] == right < |forest.root| && right in names && names[right] == preds[p].right
    requires g1 == forest.root[left] && g2 == forest.root[right] && g1 != g2
    modifies forest
    ensures forest.Valid() && Identity(forest.position, |forest.root|) && |forest.root| == |old(forest.root)|
    ensures Progress(preds, ids, forest.root, Elements(order + [p]), plans', cover') && InStep(preds, ids, forest.root, order + [p], plans')
    ensures merged < |forest.root| && forest.root[merged] == merged && GroupOf(ids, forest.root, preds[p].left) == merged
    ensures |plans'| == |forest.root| && plans'[merged].Some? && plans'[merged].value.result == Some(p)
  {
    hide Shape, Tracks, Progress, InStep, Elements;
    ElementsGrow(order, p);
    NotAnElement(order, p);
    ghost var root := forest.root;
    ShapeRooted(forest.nodes, root, forest.depth);
    InputReady(preds, ids, root, Elements(order), plans, cover, g1);
    InputReady(preds, ids, root, Elements(order), plans, cover, g2);
    var l, r := Input(plans[g1], names[left]), Input(plans[g2], names[right]);
    var plan := JoinedPlan(plans[g1], plans[g2], p, l, r);
    plans' := plans[g1 := Some(plan)];
    plans' := plans'[g2 := None];
    forest.Merge(left, right);
    SameLength(forest.nodes, forest.root, forest.depth);
    ShapeRooted(forest.nodes, forest.root, forest.depth);
    merged := forest.Find(left);
    plans' := plans'[merged := Some(plan)];
    cover' := ProgressStep(preds, ids, root, forest.root, Elements(order), plans, plans', cover, p, g1, g2, merged);
    InStepKept(preds, ids, root, forest.root, order, plans, plans', cover, p, g1, g2, merged);
  }

  lemma {:induction false} CheapestExists(rows: Table -> nat, preds: seq<JoinPredicate>, queue: set<nat>) returns (p: nat)
    requires queue != {} && forall q :: q in queue ==> q < |preds|
    ensures p in queue && forall q :: q in queue ==> Cost(rows, preds[p]) <= Cost(rows, preds[q])
  {
    hide Cost;
    p :| p in queue;
    if queue != {p} {
      var best := CheapestExists(rows, preds, queue - {p});
      if Cost(rows, preds[best]) <= Cost(rows, preds[p]) {
        p := best;
      }
    }
  }

  /** The order so far: sorted by cost, disjoint from the queue, and not above it. */
  ghost predicate Popped(rows: Table -> nat, preds: seq<JoinPredicate>, order: seq<nat>, queue: set<nat>) {
    && (forall p :: p in order || p in queue <==> 0 <= p < |preds|)
    && (forall p :: p in order ==> p !in queue)
    && (forall i, j :: 0 <= i < j < |order| ==> order[i] != order[j])
    && (forall i, j :: 0 <= i < j < |order| && order[i] < |preds| && order[j] < |preds| ==> Cost(rows, preds[order[i]]) <= Cost(rows, preds[order[j]]))
    && (forall i, q :: 0 <= i < |order| && order[i] < |preds| && q in queue && q < |preds| ==> Cost(rows, preds[order[i]]) <= Cost(rows, preds[q]))
  }

  lemma Pop(rows: Table -> nat, preds: seq<JoinPredicate>, order: seq<nat>, queue: set<nat>, p: nat)
    requires Popped(rows, preds, order, queue) && p in queue && p < |preds|
    requires forall q :: q in queue && q < |preds| ==> Cost(rows, preds[p]) <= Cost(rows, preds[q])
    ensures Popped(rows, preds, order + [p], queue - {p})
  {
    hide Cost;
    var order' := order + [p];
    assert forall q :: q in order' <==> q in order || q == p;
  }

  lemma QueueBelow(rows: Table -> nat, preds: seq<JoinPredicate>, order: seq<nat>, queue: set<nat>)
    requires Popped(rows, preds, order, queue)
    ensures forall q :: q in queue ==> q < |preds| && q !in order
    ensures forall q :: q in order ==> q < |preds|
    ensures queue == {} ==> CheapestFirst(rows, preds, order)
  {
    hide Cost;
  }

  lemma Started(rows: Table -> nat, preds: seq<JoinPredicate>, ids: map<Table, nat>, names: map<nat, Table>,
                root: seq<nat>, plans: seq<Option<Plan>>)
    requires Numbers(Tables(preds, |preds|), ids, names) && |root| == |plans| == |Tables(preds, |preds|)|
    requires forall i :: 0 <= i < |root| ==> root[i] == i && plans[i] == None
    ensures Progress(preds, ids, root, {}, plans, map[]) && Popped(rows, preds, [], All(preds))
  {
    hide Numbers, GroupsOk, Tracks, Covers, Tables, Cost;
    TracksStart(Tables(preds, |preds|), ids, names, root, preds);
    forall db
      ensures GroupsOk(db, preds, ids, root, {}, plans, Meaning(db, preds, map[]))
    {
      GroupsStart(db, preds, Tables(preds, |preds|), ids, names, root, plans);
      assert Meaning(db, preds, map[]) == map[];
    }
    TablesCovered(preds, ids, names);
    AllBelow(preds);
  }

  lemma Ended(rows: Table -> nat, preds: seq<JoinPredicate>, ids: map<Table, nat>, names: map<nat, Table>, root: seq<nat>,
              plans: seq<Option<Plan>>, cover: Cover, order: seq<nat>, g: nat)
    requires Numbers(Tables(preds, |preds|), ids, names)
    requires Progress(preds, ids, root, Elements(order), plans, cover) && Popped(rows, preds, order, {}) && order != []
    requires order[|order| - 1] < |preds| && g < |root| == |plans| && root[g] == g && GroupOf(ids, root, preds[order[|order| - 1]].left) == g
    requires plans[g].Some? && plans[g].value.result == Some(order[|order| - 1])
    ensures PlanCorrect(preds, plans[g].value, order[|order| - 1]) && !HasCycle(preds)
  {
    hide Numbers, GroupsOk, Tracks, Covers, Tables, Cost, PlanCorrect, Closes;
    AllBelow(preds);
    assert Elements(order) == All(preds);
    TablesCovered(preds, ids, names);
    Finish(preds, ids, root, plans, cover, order[|order| - 1], g);
  }

  lemma CycleCase(preds: seq<JoinPredicate>, ids: map<Table, nat>, root: seq<nat>, S: set<nat>,
                  plans: seq<Option<Plan>>, cover: Cover, p: nat)
    requires Progress(preds, ids, root, S, plans, cover) && p < |preds| && p !in S
    requires preds[p].left in ids && preds[p].right in ids && ids[preds[p].left] < |root| && ids[preds[p].right] < |root|
    requires root[ids[preds[p].left]] == root[ids[preds[p].right]]
    ensures HasCycle(preds)
  {
    hide Connected, GroupsOk, HasCycle;
    SameOrLinked(preds, ids, root, S, plans, cover, preds[p].left, preds[p].right);
    CycleFound(preds, S, p);
  }

  lemma ElementsGrow(order: seq<nat>, p: nat)
    ensures Elements(order + [p]) == Elements(order) + {p}
  {
  }

  /** One round of the loop: a predicate within one group is an error, any other joins two groups. */
  method JoinNext(preds: seq<JoinPredicate>, ids: map<Table, nat>, names: map<nat, Table>, forest: DisjointSetForest<nat>,
                  plans: seq<Option<Plan>>, ghost order: seq<nat>, ghost cover: Cover, p: nat)
    returns (cyclic: bool, plans': seq<Option<Plan>>, merged: nat, ghost cover': Cover)
    requires forest.Valid() && Identity(forest.position, |forest.root|)
    requires Progress(preds, ids, forest.root, Elements(order), plans, cover) && InStep(preds, ids, forest.root, order, plans)
    requires p < |preds| && p !in order
    requires preds[p].left in ids && ids[preds[p].left] < |forest.root| && ids[preds[p].left] in names && names[ids[preds[p].left]] == preds[p].left
    requires preds[p].right in ids && ids[preds[p].right] < |forest.root| && ids[preds[p].right] in names && names[ids[preds[p].right]] == preds[p].right
    modifies forest
    ensures forest.Valid() && Identity(forest.position, |forest.root|) && |forest.root| == |old(forest.root)|
    ensures cyclic ==> HasCycle(preds)
    ensures !cyclic ==> Progress(preds, ids, forest.root, Elements(order + [p]), plans', cover') && InStep(preds, ids, forest.root, order + [p], plans')
    ensures !cyclic ==> Completed(preds, ids, forest.root, plans', p, merged)
  {
    hide Shape, Tracks, Progress, HasCycle, InStep, Elements;
    NotAnElement(order, p);
    var left, right := ids[preds[p].left], ids[preds[p].right];
    var g1 := forest.Find(left);
    var g2 := forest.Find(right);
    cyclic, plans', merged, cover' := g1 == g2, plans, 0, cover;
    if cyclic {
      CycleCase(preds, ids, forest.root, Elements(order), plans, cover, p);
    } else {
      plans', merged, cover' := JoinGroups(preds, ids, names, forest, plans, order, cover, p, left, right, g1, g2);
    }
  }

  /** The greedy loop, on numbered tables. */
  method JoinAll(preds: seq<JoinPredicate>, rows: Table -> nat, ids: map<Table, nat>, names: map<nat, Table>,
                 forest: DisjointSetForest<nat>) returns (r: Outcome, ghost order: seq<nat>)
    requires Numbers(Tables(preds, |preds|), ids, names)
    requires forest.Valid() && Singletons(forest.position, forest.root, |Tables(preds, |preds|)|)
    modifies forest
    ensures r.NoPlan? <==> preds == []
    ensures r.Unsupported? <==> HasCycle(preds)
    ensures r.Planned? ==> CheapestFirst(rows, preds, order)
    ensures r.Planned? ==> forall i, j :: 0 <= i < j < |order| && order[i] < |preds| && order[j] < |preds| ==> Rises(rows, preds[order[i]], preds[order[j]])
    ensures r.Planned? ==> FollowsOrder(preds, order, r.plan.ops)
    ensures r.Planned? ==> order != [] && order[|order| - 1] < |preds| && PlanCorrect(preds, r.plan, order[|order| - 1])
    ensures r.Planned? ==> InPostfix(r.plan.ops, order[|order| - 1])
  {
    hide Shape, Tracks, Progress, Popped, Numbers, HasCycle, PlanCorrect, CheapestFirst, Tables, Elements, Cost, Rises, FollowsOrder, InPostfix, InStep, Completed, Identity, Singletons, All, GroupOf;
    var plans := NoPlansYet(|ids|);
    var queue := EnqueueAll(preds);
    var final: Option<nat> := None;
    order := [];
    ghost var cover: Cover := map[];
    ghost var n := |forest.root|;
    AllIdentity(forest.position, forest.root, ids, names, Tables(preds, |preds|));
    Started(rows, preds, ids, names, forest.root, plans);
    NoElements();
    InStepStarts(preds, ids, forest.root, plans);
    while queue != {}
      invariant forest.Valid() && Identity(forest.position, |forest.root|) && |forest.root| == n
      invariant Progress(preds, ids, forest.root, Elements(order), plans, cover) && Popped(rows, preds, order, queue)
      invariant InStep(preds, ids, forest.root, order, plans)
      invariant order == [] <==> final == None
      invariant final.Some? ==> order[|order| - 1] < |preds| && Completed(preds, ids, forest.root, plans, order[|order| - 1], final.value)
      decreases |queue|
    {
      QueueBelow(rows, preds, order, queue);
      var p := PopCheapest(rows, preds, queue);
      Located(preds, ids, names, p);
      Pop(rows, preds, order, queue, p);
      queue := queue - {p};
      var cyclic, merged;
      cyclic, plans, merged, cover := JoinNext(preds, ids, names, forest, plans, order, cover, p);
      if cyclic {
        r := Unsupported;
        assert preds != [];
        return;
      }
      final := Some(merged);
      order := order + [p];
    }
    QueueBelow(rows, preds, order, queue);
    r := NoPlan;
    if final == None {
      NoPredicates(rows, preds);
    } else {
      LastPlan(preds, ids, forest.root, plans, order[|order| - 1], final.value);
      r := Planned(plans[final.value].value);
      Ended(rows, preds, ids, names, forest.root, plans, cover, order, final.value);
      InStepEnds(preds, ids, forest.root, order, plans, final.value);
      ProductsRise(rows, preds, order);
    }
  }

  function NoPlansYet(n: nat): (plans: seq<Option<Plan>>)
    ensures |plans| == n && forall i :: 0 <= i < n ==> plans[i] == None
  {
    seq(n, _ => None)
  }

  method EnqueueAll(preds: seq<JoinPredicate>) returns (queue: set<nat>)
    ensures queue == All(preds)
  {
    queue := {};
    for k := 0 to |preds|
      invariant queue == UpTo(k)
    {
      queue := queue + {k};
    }
  }

  /** Group `g` holds the plan finished by predicate `p`. */
  ghost predicate Completed(preds: seq<JoinPredicate>, ids: map<Table, nat>, root: seq<nat>, plans: seq<Option<Plan>>, p: nat, g: nat)
    requires p < |preds|
  {
    && g < |root| == |plans| && root[g] == g && GroupOf(ids, root, preds[p].left) == g
    && plans[g].Some? && plans[g].value.result == Some(p)
  }

  lemma LastPlan(preds: seq<JoinPredicate>, ids: map<Table, nat>, root: seq<nat>, plans: seq<Option<Plan>>, p: nat, g: nat)
    requires p < |preds| && Completed(preds, ids, root, plans, p, g)
    ensures g < |root| == |plans| && root[g] == g && GroupOf(ids, root, preds[p].left) == g
    ensures plans[g].Some? && plans[g].value.result == Some(p)
  {
  }

  /** The queue hands out a cheapest predicate; which one among equals is not determined. */
  method PopCheapest(rows: Table -> nat, preds: seq<JoinPredicate>, queue: set<nat>) returns (p: nat)
    requires queue != {} && forall q :: q in queue ==> q < |preds|
    ensures p in queue && forall q :: q in queue ==> Cost(rows, preds[p]) <= Cost(rows, preds[q])
  {
    hide Cost;
    ghost var best := CheapestExists(rows, preds, queue);
    p :| p in queue && forall q :: q in queue ==> Cost(rows, preds[p]) <= Cost(rows, preds[q]);
  }

  lemma AllIdentity(position: map<nat, nat>, root: seq<nat>, ids: map<Table, nat>, names: map<nat, Table>, order: seq<Table>)
    requires Singletons(position, root, |order|) && Numbers(order, ids, names)
    ensures Identity(position, |root|) && |ids| == |order| == |root| && forall i :: 0 <= i < |root| ==> root[i] == i
  {
    hide Listed, Placed, Named, Distinct;
  }

  lemma NoElements()
    ensures Elements<nat>([]) == {}
  {
  }

  lemma NotAnElement(order: seq<nat>, p: nat)
    requires p !in order
    ensures p !in Elements(order)
  {
  }

  lemma Located(preds: seq<JoinPredicate>, ids: map<Table, nat>, names: map<nat, Table>, p: nat)
    requires Numbers(Tables(preds, |preds|), ids, names) && p < |preds|
    ensures preds[p].left in ids && preds[p].right in ids
    ensures ids[preds[p].left] < |Tables(preds, |preds|)| && ids[preds[p].left] in names && names[ids[preds[p].left]] == preds[p].left
    ensures ids[preds[p].right] < |Tables(preds, |preds|)| && ids[preds[p].right] in names && names[ids[preds[p].right]] == preds[p].right
  {
    hide Numbers, Tables;
    TablesCovered(preds, ids, names);
    IdsBelow(Tables(preds, |preds|), ids, names, preds[p].left);
    IdsBelow(Tables(preds, |preds|), ids, names, preds[p].right);
  }

  lemma NoPredicates(rows: Table -> nat, preds: seq<JoinPredicate>)
    requires Popped(rows, preds, [], {})
    ensures preds == [] && !HasCycle(preds)
  {
    hide Cost;
    var order: seq<nat>, queue: set<nat> := [], {};
    assert !(0 in order || 0 in queue);
  }

  /**
   Order the joins of a query. Fails exactly when the join graph has a cycle (two predicates between the same
   tables and a predicate within one table included). Otherwise the plan is correct for the connected component
   of the most expensive predicate, and it answers the query exactly if the join graph is connected.
   */
  method ApplyJoinReordering(preds: seq<JoinPredicate>, rows: Table -> nat) returns (r: Outcome, ghost order: seq<nat>)
    ensures r.NoPlan? <==> preds == []
    ensures r.Unsupported? <==> HasCycle(preds)
    ensures r.Planned? ==> CheapestFirst(rows, preds, order)
    ensures r.Planned? ==> forall i, j :: 0 <= i < j < |order| && order[i] < |preds| && order[j] < |preds| ==> Rises(rows, preds[order[i]], preds[order[j]])
    ensures r.Planned? ==> FollowsOrder(preds, order, r.plan.ops)
    ensures r.Planned? ==> order != [] && order[|order| - 1] < |preds| && PlanCorrect(preds, r.plan, order[|order| - 1])
    ensures r.Planned? ==> InPostfix(r.plan.ops, order[|order| - 1])
    ensures r.Planned? ==> (Answers(preds, r.plan) <==> AllConnected(preds))
  {
    hide Shape, Tracks, Numbers, HasCycle, PlanCorrect, CheapestFirst, Tables, Answers, AllConnected, Rises, FollowsOrder, InPostfix;
    var ids, names := NumberTables(preds);
    var forest := MakeForest(preds, ids, names);
    r, order := JoinAll(preds, rows, ids, names, forest);
    if r.Planned? {
      AnswersIffConnected(preds, r.plan, order[|order| - 1]);
    }
  }
}
