/**
 Arithmetic expressions over columns: their meaning row by row, their postfix form, and the machine that
 evaluates it. The machine works on buffers, some of which are the input columns, and reuses the buffer of
 the left operand whenever one of the operands is an intermediate result.
 */
module ExpressionModel {

  datatype Expr = Column(buffer: nat) | Binary(op: int, left: Expr, right: Expr)

  const PLUS := 105
  const MINUS := 106
  const STAR := 107
  const SLASH := 108

  predicate Supported(op: int) {
    op == PLUS || op == MINUS || op == STAR || op == SLASH
  }

  datatype Error = TypeMismatch | NoArithmetic | UnknownOperator | Malformed
  datatype Result<T> = Success(value: T) | Failure(error: Error)

  /** A chunk of a column: its type and its rows. */
  datatype Buffer = Buffer(kind: nat, rows: seq<int>)

  /** `arith(op, a, b)` is the arithmetic of the element type; `numeric` tells which types have one. */
  datatype Config = Config(arith: (int, int, int) -> int, numeric: nat -> bool, length: nat)

  // ---------- Meaning ----------

  /** The columns an expression reads. */
  ghost function Columns(e: Expr): set<nat> {
    match e
    case Column(c) => {c}
    case Binary(_, l, r) => Columns(l) + Columns(r)
  }

  ghost function Value(cfg: Config, e: Expr, mem: seq<Buffer>, row: nat): int
    requires forall c :: c in Columns(e) ==> c < |mem| && row < |mem[c].rows|
  {
    match e
    case Column(c) => mem[c].rows[row]
    case Binary(op, l, r) => cfg.arith(op, Value(cfg, l, mem, row), Value(cfg, r, mem, row))
  }

  /** The type of the result, or the first error met from left to right. */
  function Check(cfg: Config, e: Expr, mem: seq<Buffer>): Result<nat> {
    match e
    case Column(c) => if c < |mem| then Success(mem[c].kind) else Failure(Malformed)
    case Binary(op, l, r) =>
      var lt := Check(cfg, l, mem);
      if lt.Failure? then lt else
        var rt := Check(cfg, r, mem);
        if rt.Failure? then rt
        else if lt.value != rt.value then Failure(TypeMismatch)
        else if !cfg.numeric(lt.value) then Failure(NoArithmetic)
        else if !Supported(op) then Failure(UnknownOperator)
        else lt
  }

  /** The operator codes an expression uses. */
  ghost function Operators(e: Expr): set<int> {
    match e
    case Column(_) => {}
    case Binary(op, l, r) => Operators(l) + Operators(r) + {op}
  }

  /** All columns of an expression have one type. */
  ghost predicate OneKind(e: Expr, mem: seq<Buffer>, kind: nat) {
    forall c :: c in Columns(e) ==> c < |mem| && mem[c].kind == kind
  }

  /** An expression passes exactly if its columns have one type, which has an arithmetic, and its operators are + - * and /. */
  lemma {:induction false} PassesIff(cfg: Config, e: Expr, mem: seq<Buffer>, kind: nat)
    ensures Check(cfg, e, mem) == Success(kind) <==>
            OneKind(e, mem, kind) && (e.Binary? ==> cfg.numeric(kind) && Operators(e) <= {105, 106, 107, 108})
  {
    match e
    case Column(c) =>
      assert c in Columns(e);
    case Binary(op, l, r) =>
      PassesIff(cfg, l, mem, kind);
      PassesIff(cfg, r, mem, kind);
      assert OneKind(e, mem, kind) <==> OneKind(l, mem, kind) && OneKind(r, mem, kind);
      assert Operators(e) <= {105, 106, 107, 108} <==> Operators(l) <= {105, 106, 107, 108} && Operators(r) <= {105, 106, 107, 108} && op in {105, 106, 107, 108};
  }

  // ---------- Postfix form and machine ----------

  datatype Elem = Operand(buffer: nat) | Operator(op: int)

  function Postfix(e: Expr): seq<Elem> {
    match e
    case Column(c) => [Operand(c)]
    case Binary(op, l, r) => Postfix(l) + Postfix(r) + [Operator(op)]
  }

  /** A stack entry refers to a buffer and knows whether it holds an intermediate result. */
  datatype Slot = Slot(isResult: bool, buffer: nat)
  datatype State = State(mem: seq<Buffer>, stack: seq<Slot>)

  function Combine(cfg: Config, op: int, a: seq<int>, b: seq<int>): seq<int>
    requires |a| == |b|
  {
    seq(|a|, i requires 0 <= i < |a| => cfg.arith(op, a[i], b[i]))
  }

  function Step(cfg: Config, elem: Elem, s: State): Result<State> {
    match elem
    case Operand(c) =>
      if c < |s.mem| then Success(s.(stack := s.stack + [Slot(false, c)])) else Failure(Malformed)
    case Operator(op) =>
      var n := |s.stack|;
      if n < 2 then Failure(Malformed) else
        var l, r := s.stack[n - 2], s.stack[n - 1];
        if l.buffer >= |s.mem| || r.buffer >= |s.mem| then Failure(Malformed) else
          var a, b := s.mem[l.buffer], s.mem[r.buffer];
          if a.kind != b.kind then Failure(TypeMismatch)
          else if !cfg.numeric(a.kind) then Failure(NoArithmetic)
          else if !Supported(op) then Failure(UnknownOperator)
          else if |a.rows| != |b.rows| then Failure(Malformed)
          else
            var result := Buffer(a.kind, Combine(cfg, op, a.rows, b.rows));
            if !l.isResult && !r.isResult
            then Success(State(s.mem + [result], s.stack[..n - 2] + [Slot(true, |s.mem|)]))
            else Success(State(s.mem[l.buffer := result], s.stack[..n - 2] + [Slot(true, l.buffer)]))
  }

  function Run(cfg: Config, code: seq<Elem>, s: State): Result<State> {
    if code == [] then Success(s) else
      var next := Step(cfg, code[0], s);
      if next.Failure? then next else Run(cfg, code[1..], next.value)
  }

  lemma {:induction false} RunAppend(cfg: Config, a: seq<Elem>, b: seq<Elem>, s: State)
    ensures Run(cfg, a + b, s) == (var m := Run(cfg, a, s); if m.Failure? then m else Run(cfg, b, m.value))
    decreases |a|
  {
    if a == [] {
      assert a + b == b;
    } else {
      assert (a + b)[1..] == a[1..] + b;
      var next := Step(cfg, a[0], s);
      if next.Success? {
        RunAppend(cfg, a[1..], b, next.value);
      }
    }
  }

  lemma RunOne(cfg: Config, elem: Elem, s: State)
    ensures Run(cfg, [elem], s) == Step(cfg, elem, s)
  {
    var next := Step(cfg, elem, s);
    if next.Success? {
      assert Run(cfg, [elem][1..], next.value) == next;
    }
  }

  lemma RunBinary(cfg: Config, op: int, l: Expr, r: Expr, s: State)
    ensures Run(cfg, Postfix(Binary(op, l, r)), s) ==
            (var m1 := Run(cfg, Postfix(l), s);
             if m1.Failure? then m1 else
               var m2 := Run(cfg, Postfix(r), m1.value);
               if m2.Failure? then m2 else Step(cfg, Operator(op), m2.value))
  {
    RunAppend(cfg, Postfix(l) + Postfix(r), [Operator(op)], s);
    RunAppend(cfg, Postfix(l), Postfix(r), s);
    var m := Run(cfg, Postfix(l) + Postfix(r), s);
    if m.Success? {
      RunOne(cfg, Operator(op), m.value);
    }
  }

  // ---------- Which columns are overwritten ----------

  /** The columns that stand on the left of a compound operand: their buffers receive its result. */
  ghost function Overwritten(e: Expr): set<nat> {
    match e
    case Column(_) => {}
    case Binary(_, l, r) => Overwritten(l) + Overwritten(r) + (if l.Column? && r.Binary? then {l.buffer} else {})
  }

  /** No operator has a bare column on the left and a compound operand on the right. */
  ghost predicate Regular(e: Expr) {
    e.Binary? ==> Regular(e.left) && Regular(e.right) && !(e.left.Column? && e.right.Binary?)
  }

  /** No column is read after it was overwritten. */
  ghost predicate ReadsClean(e: Expr) {
    e.Binary? ==>
      && ReadsClean(e.left) && ReadsClean(e.right)
      && Overwritten(e.left) !! Columns(e.right)
      && (e.left.Column? ==> e.left.buffer !in Overwritten(e.right))
  }

  lemma {:induction false} RegularIff(e: Expr)
    ensures Regular(e) <==> Overwritten(e) == {}
    ensures Overwritten(e) <= Columns(e)
    ensures Regular(e) ==> ReadsClean(e)
  {
    if e.Binary? {
      RegularIff(e.left);
      RegularIff(e.right);
    }
  }

  // ---------- Correctness ----------

  /** Columns of the expression hold rows of the common length and still have their original contents. */
  ghost predicate Clean(cfg: Config, e: Expr, input: seq<Buffer>, mem: seq<Buffer>) {
    |input| <= |mem| && forall c :: c in Columns(e) ==> c < |input| && mem[c] == input[c] && |input[c].rows| == cfg.length
  }

  ghost function Rows(cfg: Config, e: Expr, input: seq<Buffer>): seq<int>
    requires Clean(cfg, e, input, input)
  {
    seq(cfg.length, i requires 0 <= i < cfg.length => Value(cfg, e, input, i))
  }

  /** Where the result of `e` ends up when it is evaluated with `mem`: its own column, an overwritten column, or a new buffer. */
  ghost predicate Placed(e: Expr, mem: seq<Buffer>, mem': seq<Buffer>, b: nat) {
    b < |mem'| && (if Home(e) >= 0 then b == Home(e) else |mem| <= b)
  }

  /** The column whose buffer receives the result, or -1 for a new buffer. */
  ghost function Home(e: Expr): int {
    match e
    case Column(c) => c
    case Binary(_, l, r) => if l.Binary? then Home(l) else if r.Binary? then l.buffer else -1
  }

  lemma {:induction false} HomeIsOverwritten(e: Expr)
    ensures e.Binary? && Home(e) >= 0 ==> Home(e) in Overwritten(e)
  {
    if e.Binary? {
      HomeIsOverwritten(e.left);
    }
  }

  /** What evaluating `e` does to memory: only overwritten columns change, new buffers are added. */
  ghost predicate Changes(e: Expr, mem: seq<Buffer>, mem': seq<Buffer>) {
    |mem| <= |mem'| && forall i :: 0 <= i < |mem| && i !in Overwritten(e) ==> mem'[i] == mem[i]
  }

  /** The run of an expression ends with its value on top of the old stack. */
  ghost predicate Evaluated(cfg: Config, e: Expr, input: seq<Buffer>, s: State, s': State)
    requires Clean(cfg, e, input, input)
  {
    && |s'.stack| == |s.stack| + 1 && s'.stack[..|s.stack|] == s.stack && Changes(e, s.mem, s'.mem)
    && var top := s'.stack[|s.stack|];
    && top.isResult == e.Binary? && Placed(e, s.mem, s'.mem, top.buffer)
    && s'.mem[top.buffer].rows == Rows(cfg, e, input)
    && Success(s'.mem[top.buffer].kind) == Check(cfg, e, input)
  }

  /**
   If no column is read after being overwritten, running the postfix form leaves the expression's value on the
   stack, or fails with the expression's own error.
   */
  lemma {:induction false} RunsRight(cfg: Config, e: Expr, input: seq<Buffer>, s: State)
    requires ReadsClean(e) && Clean(cfg, e, input, s.mem)
    ensures var m := Run(cfg, Postfix(e), s);
            match Check(cfg, e, input)
            case Failure(x) => m == Failure(x)
            case Success(_) => m.Success? && Evaluated(cfg, e, input, s, m.value)
    decreases e
  {
    match e
    case Column(c) =>
      RunOne(cfg, Operand(c), s);
      assert Rows(cfg, e, input) == input[c].rows;
    case Binary(op, l, r) =>
      hide Run, Step, Evaluated, Postfix;
      RunBinary(cfg, op, l, r, s);
      RunsRight(cfg, l, input, s);
      if Check(cfg, l, input).Success? {
        var s1 := Run(cfg, Postfix(l), s).value;
        StillClean(cfg, op, l, r, input, s, s1);
        RunsRight(cfg, r, input, s1);
        if Check(cfg, r, input).Success? {
          var s2 := Run(cfg, Postfix(r), s1).value;
          StepRight(cfg, op, l, r, input, s, s1, s2);
        }
      }
  }

  lemma StillClean(cfg: Config, op: int, l: Expr, r: Expr, input: seq<Buffer>, s: State, s1: State)
    requires ReadsClean(Binary(op, l, r)) && Clean(cfg, Binary(op, l, r), input, s.mem)
    requires Evaluated(cfg, l, input, s, s1)
    ensures Clean(cfg, r, input, s1.mem)
  {
    hide Rows, Placed, Check;
    forall c | c in Columns(r)
      ensures c < |input| && s1.mem[c] == input[c] && |input[c].rows| == cfg.length
    {
      assert c in Columns(Binary(op, l, r));
    }
  }

  lemma StepRight(cfg: Config, op: int, l: Expr, r: Expr, input: seq<Buffer>, s: State, s1: State, s2: State)
    requires ReadsClean(Binary(op, l, r)) && Clean(cfg, Binary(op, l, r), input, s.mem)
    requires Evaluated(cfg, l, input, s, s1) && Evaluated(cfg, r, input, s1, s2)
    ensures var m := Step(cfg, Operator(op), s2);
            match Check(cfg, Binary(op, l, r), input)
            case Failure(x) => m == Failure(x)
            case Success(_) => m.Success? && Evaluated(cfg, Binary(op, l, r), input, s, m.value)
  {
    hide Rows, Value, ReadsClean, Clean;
    var n := |s.stack|;
    var a, b := s1.stack[n], s2.stack[n + 1];
    assert s2.stack[n] == a && s2.stack[..n] == s.stack by {
      assert s2.stack[..n + 1] == s1.stack;
      assert s1.stack[..n] == s.stack;
      assert s2.stack[..n] == s2.stack[..n + 1][..n];
    }
    LeftIntact(cfg, op, l, r, input, s, s1, s2);
    ColumnsKnown(cfg, op, l, r, input, s);
    RowsCombine(cfg, op, l, r, input);
    var m := Step(cfg, Operator(op), s2);
    if m.Success? {
      assert m.value.stack[..n] == s.stack;
      RegularIff(l);
      RegularIff(r);
      HomeIsOverwritten(l);
    }
  }

  /** The left operand survives the evaluation of the right one. */
  lemma LeftIntact(cfg: Config, op: int, l: Expr, r: Expr, input: seq<Buffer>, s: State, s1: State, s2: State)
    requires ReadsClean(Binary(op, l, r)) && Clean(cfg, Binary(op, l, r), input, s.mem)
    requires Evaluated(cfg, l, input, s, s1) && Evaluated(cfg, r, input, s1, s2)
    ensures s2.mem[s1.stack[|s.stack|].buffer] == s1.mem[s1.stack[|s.stack|].buffer]
  {
    hide Rows, Check;
    var b := s1.stack[|s.stack|].buffer;
    RegularIff(r);
    RegularIff(l);
    HomeIsOverwritten(l);
    if b in Overwritten(r) {
      assert false;
    }
  }

  lemma ColumnsKnown(cfg: Config, op: int, l: Expr, r: Expr, input: seq<Buffer>, s: State)
    requires Clean(cfg, Binary(op, l, r), input, s.mem)
    ensures forall c :: c in Columns(l) || c in Columns(r) ==> c < |s.mem|
    ensures Clean(cfg, Binary(op, l, r), input, input)
  {
    assert Columns(Binary(op, l, r)) == Columns(l) + Columns(r);
  }

  lemma RowsCombine(cfg: Config, op: int, l: Expr, r: Expr, input: seq<Buffer>)
    requires Clean(cfg, Binary(op, l, r), input, input)
    ensures Clean(cfg, l, input, input) && Clean(cfg, r, input, input)
    ensures |Rows(cfg, l, input)| == |Rows(cfg, r, input)| == cfg.length
    ensures Rows(cfg, Binary(op, l, r), input) == Combine(cfg, op, Rows(cfg, l, input), Rows(cfg, r, input))
  {
  }

  /** A whole evaluation: the value of the expression, its own error, and untouched inputs if the expression is regular. */
  lemma EvaluationIsRight(cfg: Config, e: Expr, input: seq<Buffer>)
    requires ReadsClean(e) && Clean(cfg, e, input, input)
    ensures var m := Run(cfg, Postfix(e), State(input, []));
            match Check(cfg, e, input)
            case Failure(x) => m == Failure(x)
            case Success(k) =>
              && m.Success? && |m.value.stack| == 1 && m.value.stack[0].buffer < |m.value.mem|
              && m.value.mem[m.value.stack[0].buffer] == Buffer(k, Rows(cfg, e, input))
              && (Regular(e) ==> input <= m.value.mem)
              && (Regular(e) && e.Binary? ==> m.value.stack[0].buffer >= |input|)
  {
    hide Run, Postfix;
    RunsRight(cfg, e, input, State(input, []));
    RegularIff(e);
    HomeIsOverwritten(e);
    if Check(cfg, e, input).Success? && Regular(e) {
      var mem := Run(cfg, Postfix(e), State(input, [])).value.mem;
      assert mem[..|input|] == input;
    }
  }

  /** One operator between two of `n` columns. */
  ghost predicate BetweenColumns(e: Expr, n: nat) {
    e.Binary? && e.left.Column? && e.right.Column? && e.left.buffer < n && e.right.buffer < n
  }

  /** Between two columns, the codes 105 to 108 combine values of one type with an arithmetic row by row; all else is an error. */
  lemma OperatorsExactly(cfg: Config, e: Expr, input: seq<Buffer>)
    requires BetweenColumns(e, |input|) && |input[e.left.buffer].rows| == |input[e.right.buffer].rows| == cfg.length
    ensures ReadsClean(e) && Regular(e) && Clean(cfg, e, input, input)
    ensures var a, b := input[e.left.buffer], input[e.right.buffer];
            if a.kind != b.kind then Check(cfg, e, input) == Failure(TypeMismatch)
            else if !cfg.numeric(a.kind) then Check(cfg, e, input) == Failure(NoArithmetic)
            else if e.op in {105, 106, 107, 108} then
              && Check(cfg, e, input) == Success(a.kind) && |Rows(cfg, e, input)| == cfg.length
              && forall i :: 0 <= i < cfg.length ==> Rows(cfg, e, input)[i] == cfg.arith(e.op, a.rows[i], b.rows[i])
            else Check(cfg, e, input) == Failure(UnknownOperator)
  {
    assert Columns(e) == {e.left.buffer, e.right.buffer};
    RowsCombine(cfg, e.op, e.left, e.right, input);
  }

  /** Results on the stack are in pairwise different buffers, none of them one of the first `n`. */
  ghost predicate Apart(s: State, n: nat) {
    && (forall i :: 0 <= i < |s.stack| ==> s.stack[i].buffer < |s.mem| && (s.stack[i].isResult ==> s.stack[i].buffer >= n))
    && (forall i, j :: 0 <= i < j < |s.stack| && s.stack[i].isResult && s.stack[j].isResult ==> s.stack[i].buffer != s.stack[j].buffer)
  }

  lemma EvaluatedApart(cfg: Config, e: Expr, input: seq<Buffer>, s: State, s': State)
    requires Regular(e) && Clean(cfg, e, input, s.mem) && Evaluated(cfg, e, input, s, s') && Apart(s, |input|)
    ensures Apart(s', |input|)
  {
    hide Rows, Check;
    RegularIff(e);
    HomeIsOverwritten(e);
    assert forall i :: 0 <= i < |s.stack| ==> s'.stack[i] == s'.stack[..|s.stack|][i];
  }

  /** After any number of steps of a regular expression, the results on the stack are apart from each other and from the inputs. */
  lemma {:induction false} ResultsApart(cfg: Config, e: Expr, input: seq<Buffer>, s: State, k: nat)
    requires Regular(e) && Clean(cfg, e, input, s.mem) && Apart(s, |input|) && k <= |Postfix(e)|
    ensures var m := Run(cfg, Postfix(e)[..k], s); m.Success? ==> Apart(m.value, |input|)
    decreases e
  {
    RegularIff(e);
    if k == |Postfix(e)| {
      assert Postfix(e)[..k] == Postfix(e);
      RunsRight(cfg, e, input, s) by { hide Run, Postfix, Evaluated; }
      if Run(cfg, Postfix(e), s).Success? {
        EvaluatedApart(cfg, e, input, s, Run(cfg, Postfix(e), s).value) by { hide Run, Postfix, Evaluated; }
      }
    } else if e.Column? {
      assert Postfix(e)[..k] == [];
    } else {
      PartApart(cfg, e, input, s, k);
    }
  }

  lemma PartApart(cfg: Config, e: Expr, input: seq<Buffer>, s: State, k: nat)
    requires e.Binary? && Regular(e) && Clean(cfg, e, input, s.mem) && Apart(s, |input|) && k < |Postfix(e)|
    ensures var m := Run(cfg, Postfix(e)[..k], s); m.Success? ==> Apart(m.value, |input|)
    decreases e, 0
  {
    var l, r := e.left, e.right;
    RegularIff(e);
    Halves(cfg, e.op, l, r, input, s);
    if k <= |Postfix(l)| {
      assert Postfix(e)[..k] == Postfix(l)[..k];
      ResultsApart(cfg, l, input, s, k) by { hide Run, Postfix; }
    } else {
      var j := k - |Postfix(l)|;
      assert Postfix(e)[..k] == Postfix(l) + Postfix(r)[..j];
      hide Run, Postfix, Evaluated, Apart, Check;
      RunAppend(cfg, Postfix(l), Postfix(r)[..j], s);
      RunsRight(cfg, l, input, s);
      var m := Run(cfg, Postfix(l), s);
      if m.Success? {
        EvaluatedApart(cfg, l, input, s, m.value);
        StillClean(cfg, e.op, l, r, input, s, m.value);
        ResultsApart(cfg, r, input, m.value, j);
      }
    }
  }

  lemma Halves(cfg: Config, op: int, l: Expr, r: Expr, input: seq<Buffer>, s: State)
    requires Clean(cfg, Binary(op, l, r), input, s.mem)
    ensures Clean(cfg, l, input, s.mem) && Clean(cfg, r, input, s.mem)
  {
    assert Columns(Binary(op, l, r)) == Columns(l) + Columns(r);
  }

  // ---------- Exactness ----------

  /** On numbers from 2 on, the operator grows: it exceeds its left operand and rises strictly with both operands. */
  ghost predicate GrowingOp(cfg: Config, op: int) {
    && (forall x, y :: 2 <= x && 2 <= y ==> cfg.arith(op, x, y) > x)
    && (forall x, y, x', y' :: 2 <= x <= x' && 2 <= y <= y' ==> cfg.arith(op, x, y) <= cfg.arith(op, x', y'))
    && (forall x, y, x', y' :: 2 <= x <= x' && 2 <= y <= y' && (x < x' || y < y') ==> cfg.arith(op, x, y) < cfg.arith(op, x', y'))
  }

  ghost predicate Growing(cfg: Config, e: Expr) {
    e.Binary? ==> GrowingOp(cfg, e.op) && Growing(cfg, e.left) && Growing(cfg, e.right)
  }

  /** All buffers have the common length, which is not 0, and start with a number from 2 on. */
  ghost predicate Big(cfg: Config, mem: seq<Buffer>) {
    0 < cfg.length && forall i :: 0 <= i < |mem| ==> |mem[i].rows| == cfg.length && mem[i].rows[0] >= 2
  }

  /** The number at the start of buffer `c`. */
  ghost function First(mem: seq<Buffer>, c: nat): int {
    if c < |mem| && |mem[c].rows| > 0 then mem[c].rows[0] else 0
  }

  /** Some column of the expression has been overwritten before. */
  ghost predicate Dirty(e: Expr, input: seq<Buffer>, mem: seq<Buffer>) {
    exists c :: c in Columns(e) && c < |mem| && First(mem, c) > First(input, c)
  }

  /** Since `from`, buffers kept their types and their numbers did not fall. */
  ghost predicate Grown(cfg: Config, from: seq<Buffer>, mem: seq<Buffer>) {
    && |from| <= |mem| && Big(cfg, mem)
    && forall i :: 0 <= i < |from| ==> mem[i].kind == from[i].kind && First(mem, i) >= First(from, i)
  }

  /** What a run with growing operators does: overwritten columns rise, and the result is at least the value, more if
      anything was read after being overwritten. */
  ghost predicate Outgrown(cfg: Config, e: Expr, input: seq<Buffer>, s: State, s': State)
    requires Clean(cfg, e, input, input) && 0 < cfg.length
  {
    && |s'.stack| == |s.stack| + 1 && s'.stack[..|s.stack|] == s.stack && Grown(cfg, s.mem, s'.mem)
    && (forall c :: c in Overwritten(e) ==> First(s'.mem, c) > First(s.mem, c))
    && var top := s'.stack[|s.stack|];
    && top.isResult == e.Binary? && top.buffer < |s'.mem| && (e.Column? ==> top.buffer == e.buffer)
    && Success(s'.mem[top.buffer].kind) == Check(cfg, e, input)
    && First(s'.mem, top.buffer) >= Value(cfg, e, input, 0) >= 2
    && (!ReadsClean(e) || Dirty(e, input, s.mem) ==> First(s'.mem, top.buffer) > Value(cfg, e, input, 0))
  }

  lemma {:induction false} RunOutgrows(cfg: Config, e: Expr, input: seq<Buffer>, s: State)
    requires Growing(cfg, e) && Legal(cfg, e, input) && Big(cfg, input) && Grown(cfg, input, s.mem)
    ensures var m := Run(cfg, Postfix(e), s); m.Success? && Outgrown(cfg, e, input, s, m.value)
    decreases e
  {
    match e
    case Column(c) =>
      RunOne(cfg, Operand(c), s);
      assert c in Columns(e);
    case Binary(op, l, r) =>
      LegalParts(cfg, op, l, r, input);
      hide Run, Step, Postfix, Outgrown, Grown, Big, Legal, Check, Value, Clean, GrowingOp;
      RunBinary(cfg, op, l, r, s);
      RunOutgrows(cfg, l, input, s);
      var s1 := Run(cfg, Postfix(l), s).value;
      GrownFurther(cfg, l, input, s, s1);
      RunOutgrows(cfg, r, input, s1);
      var s2 := Run(cfg, Postfix(r), s1).value;
      StepOutgrows(cfg, op, l, r, input, s, s1, s2);
  }

  lemma LegalParts(cfg: Config, op: int, l: Expr, r: Expr, input: seq<Buffer>)
    requires Legal(cfg, Binary(op, l, r), input)
    ensures Legal(cfg, l, input) && Legal(cfg, r, input) && Check(cfg, l, input) == Check(cfg, r, input) == Check(cfg, Binary(op, l, r), input)
    ensures Supported(op) && cfg.numeric(Check(cfg, l, input).value)
  {
    assert Columns(Binary(op, l, r)) == Columns(l) + Columns(r);
  }

  lemma GrownFurther(cfg: Config, e: Expr, input: seq<Buffer>, s: State, s': State)
    requires Legal(cfg, e, input) && 0 < cfg.length && Grown(cfg, input, s.mem) && Outgrown(cfg, e, input, s, s')
    ensures Grown(cfg, input, s'.mem)
  {
    hide ReadsClean, Dirty, Overwritten, Check, Value, Columns;
  }

  lemma StepOutgrows(cfg: Config, op: int, l: Expr, r: Expr, input: seq<Buffer>, s: State, s1: State, s2: State)
    requires var e := Binary(op, l, r);
             Legal(cfg, e, input) && Legal(cfg, l, input) && Legal(cfg, r, input) && GrowingOp(cfg, op) && Big(cfg, input) && Grown(cfg, input, s.mem)
    requires Outgrown(cfg, l, input, s, s1) && Outgrown(cfg, r, input, s1, s2)
    ensures var m := Step(cfg, Operator(op), s2); m.Success? && Outgrown(cfg, Binary(op, l, r), input, s, m.value)
  {
    var e, k := Binary(op, l, r), |s.stack|;
    LegalParts(cfg, op, l, r, input);
    assert Value(cfg, e, input, 0) == cfg.arith(op, Value(cfg, l, input, 0), Value(cfg, r, input, 0));
    hide ReadsClean, Dirty, Overwritten, Columns, Value, Check, Clean, GrowingOp, Step;
    var a, b := s1.stack[k], s2.stack[k + 1];
    TwoOnTop(s.stack, s1.stack, s2.stack);
    var x, y := First(s2.mem, a.buffer), First(s2.mem, b.buffer);
    Bigger(cfg, op, Value(cfg, l, input, 0), Value(cfg, r, input, 0), x, y);
    hide Big, First;
    GrownSince(cfg, s.mem, s1.mem, s2.mem);
    StepGrows(cfg, op, s2, s.stack, a, b);
    var s3 := Step(cfg, Operator(op), s2).value;
    GrownSince(cfg, s.mem, s2.mem, s3.mem);
    OverwrittenRises(cfg, op, l, r, input, s, s1, s2, s3);
    if !ReadsClean(e) || Dirty(e, input, s.mem) {
      DirtyShows(cfg, op, l, r, input, s, s1, s2);
    }
  }

  lemma TwoOnTop(below: seq<Slot>, one: seq<Slot>, two: seq<Slot>)
    requires |one| == |below| + 1 && one[..|below|] == below && |two| == |one| + 1 && two[..|one|] == one
    ensures two == below + [one[|below|], two[|below| + 1]]
  {
  }

  lemma GrownSince(cfg: Config, a: seq<Buffer>, b: seq<Buffer>, c: seq<Buffer>)
    requires Grown(cfg, a, b) && Grown(cfg, b, c)
    ensures Grown(cfg, a, c)
  {
    hide Big, First;
  }

  /** One operator with a growing result: its place gets a bigger number, nothing else changes. */
  lemma StepGrows(cfg: Config, op: int, s: State, below: seq<Slot>, a: Slot, b: Slot)
    requires s.stack == below + [a, b] && Big(cfg, s.mem) && a.buffer < |s.mem| && b.buffer < |s.mem| && Supported(op)
    requires s.mem[a.buffer].kind == s.mem[b.buffer].kind && cfg.numeric(s.mem[a.buffer].kind)
    requires cfg.arith(op, First(s.mem, a.buffer), First(s.mem, b.buffer)) > First(s.mem, a.buffer)
    ensures var m := Step(cfg, Operator(op), s);
            && m.Success? && |m.value.stack| == |below| + 1 && m.value.stack[..|below|] == below && Grown(cfg, s.mem, m.value.mem)
            && var top := m.value.stack[|below|];
            && top.isResult && top.buffer < |m.value.mem| && m.value.mem[top.buffer].kind == s.mem[a.buffer].kind
            && First(m.value.mem, top.buffer) == cfg.arith(op, First(s.mem, a.buffer), First(s.mem, b.buffer))
            && (b.isResult ==> top.buffer == a.buffer)
  {
    var n := |s.stack|;
    assert s.stack[n - 2] == a && s.stack[n - 1] == b && s.stack[..n - 2] == below;
  }

  /** What growing says about an operator applied to numbers that are at least the right ones. */
  lemma Bigger(cfg: Config, op: int, x: int, y: int, x': int, y': int)
    requires GrowingOp(cfg, op) && 2 <= x <= x' && 2 <= y <= y'
    ensures 2 <= cfg.arith(op, x, y) <= cfg.arith(op, x', y') && cfg.arith(op, x', y') > x'
    ensures x < x' || y < y' ==> cfg.arith(op, x, y) < cfg.arith(op, x', y')
  {
  }

  lemma OverwrittenRises(cfg: Config, op: int, l: Expr, r: Expr, input: seq<Buffer>, s: State, s1: State, s2: State, s3: State)
    requires Legal(cfg, l, input) && Legal(cfg, r, input) && Legal(cfg, Binary(op, l, r), input) && 0 < cfg.length && Grown(cfg, input, s.mem)
    requires Outgrown(cfg, l, input, s, s1) && Outgrown(cfg, r, input, s1, s2)
    requires |s2.mem| <= |s3.mem| && (forall i :: 0 <= i < |s2.mem| ==> First(s3.mem, i) >= First(s2.mem, i))
    requires l.Column? && r.Binary? ==> First(s3.mem, l.buffer) > First(s2.mem, l.buffer)
    ensures forall c :: c in Overwritten(Binary(op, l, r)) ==> First(s3.mem, c) > First(s.mem, c)
  {
    hide ReadsClean, Dirty, Value, Check, Big, First;
    RegularIff(Binary(op, l, r));
    forall c | c in Overwritten(Binary(op, l, r))
      ensures First(s3.mem, c) > First(s.mem, c)
    {
      assert c in Columns(Binary(op, l, r));
      assert c < |s.mem|;
      assert c in Overwritten(l) || c in Overwritten(r) || (l.Column? && r.Binary? && c == l.buffer);
    }
  }

  /** If a column is read after being overwritten, one of the operands is too big. */
  lemma DirtyShows(cfg: Config, op: int, l: Expr, r: Expr, input: seq<Buffer>, s: State, s1: State, s2: State)
    requires Legal(cfg, l, input) && Legal(cfg, r, input) && Legal(cfg, Binary(op, l, r), input) && 0 < cfg.length && Grown(cfg, input, s.mem)
    requires Outgrown(cfg, l, input, s, s1) && Outgrown(cfg, r, input, s1, s2)
    requires !ReadsClean(Binary(op, l, r)) || Dirty(Binary(op, l, r), input, s.mem)
    ensures var k := |s.stack|;
            || First(s2.mem, s1.stack[k].buffer) > Value(cfg, l, input, 0)
            || First(s2.mem, s2.stack[k + 1].buffer) > Value(cfg, r, input, 0)
  {
    hide Check, Value, Big, First;
    var e := Binary(op, l, r);
    if Dirty(e, input, s.mem) {
      var c :| c in Columns(e) && c < |s.mem| && First(s.mem, c) > First(input, c);
      if c in Columns(l) {
        assert Dirty(l, input, s.mem);
      } else {
        assert First(s1.mem, c) > First(input, c);
        assert Dirty(r, input, s1.mem);
      }
    } else if !(Overwritten(l) !! Columns(r)) {
      var c :| c in Overwritten(l) && c in Columns(r);
      assert c in Columns(e);
      assert c < |input|;
      assert First(s.mem, c) >= First(input, c);
      assert Dirty(r, input, s1.mem);
    } else if l.Column? && l.buffer in Overwritten(r) {
      assert l.buffer in Columns(e);
      ColumnValue(cfg, l, input);
    }
  }

  lemma ColumnValue(cfg: Config, e: Expr, input: seq<Buffer>)
    requires e.Column? && Legal(cfg, e, input) && 0 < cfg.length
    ensures e.buffer < |input| && Value(cfg, e, input, 0) == First(input, e.buffer)
  {
    assert e.buffer in Columns(e);
  }

  ghost predicate Legal(cfg: Config, e: Expr, input: seq<Buffer>) {
    Clean(cfg, e, input, input) && Check(cfg, e, input).Success?
  }

  /** The machine leaves the value of the expression on top of the stack. */
  ghost predicate GivesValue(cfg: Config, e: Expr, input: seq<Buffer>)
    requires Clean(cfg, e, input, input)
  {
    var m := Run(cfg, Postfix(e), State(input, []));
    m.Success? && |m.value.stack| == 1 && m.value.stack[0].buffer < |m.value.mem|
    && m.value.mem[m.value.stack[0].buffer].rows == Rows(cfg, e, input)
  }

  /** The machine leaves all input columns as they were. */
  ghost predicate KeepsInput(cfg: Config, e: Expr, input: seq<Buffer>) {
    var m := Run(cfg, Postfix(e), State(input, []));
    m.Success? && input <= m.value.mem
  }

  /**
   With growing operators and numbers from 2 on, on every single input: the value is right exactly if no column is
   read after being overwritten, and the inputs survive exactly if no bare column stands left of a compound operand.
   */
  lemma GrowingIsExact(cfg: Config, e: Expr, input: seq<Buffer>)
    requires Growing(cfg, e) && Legal(cfg, e, input) && Big(cfg, input)
    ensures GivesValue(cfg, e, input) <==> ReadsClean(e)
    ensures KeepsInput(cfg, e, input) <==> Regular(e)
  {
    hide Run, Postfix, Growing, Check;
    RegularIff(e);
    if ReadsClean(e) {
      EvaluationIsRight(cfg, e, input);
    }
    RunOutgrows(cfg, e, input, State(input, []));
    var mem := Run(cfg, Postfix(e), State(input, [])).value.mem;
    assert Rows(cfg, e, input)[0] == Value(cfg, e, input, 0);
    if !Regular(e) {
      var c :| c in Overwritten(e);
      assert c in Columns(e);
      assert First(mem, c) > First(input, c);
      assert mem[c] != input[c];
    }
  }

  /** Sums and products. */
  ghost predicate SumsAndProducts(e: Expr) {
    e.Binary? ==> (e.op == PLUS || e.op == STAR) && SumsAndProducts(e.left) && SumsAndProducts(e.right)
  }

  ghost predicate IntegerArithmetic(cfg: Config) {
    (forall x, y :: cfg.arith(PLUS, x, y) == x + y) && (forall x, y :: cfg.arith(STAR, x, y) == x * y)
  }

  lemma PlusGrows(cfg: Config)
    requires IntegerArithmetic(cfg)
    ensures GrowingOp(cfg, PLUS)
  {
  }

  lemma StarGrows(cfg: Config)
    requires IntegerArithmetic(cfg)
    ensures GrowingOp(cfg, STAR)
  {
    forall x, y | 2 <= x && 2 <= y
      ensures x * y > x
    {
      ProductRises(x, 1, x, y);
    }
    forall x, y, x', y' | 2 <= x <= x' && 2 <= y <= y'
      ensures x * y <= x' * y' && (x < x' || y < y' ==> x * y < x' * y')
    {
      ProductRises(x, y, x', y');
    }
  }

  lemma ProductRises(x: int, y: int, x': int, y': int)
    requires 1 <= x <= x' && 1 <= y <= y'
    ensures x * y <= x' * y' && (x < x' || y < y' ==> x * y < x' * y')
  {
    FactorRises(x, x', y);
    FactorRises(y, y', x');
    assert y * x' == x' * y && y' * x' == x' * y';
  }

  lemma FactorRises(a: int, b: int, c: int)
    requires 1 <= a <= b && 1 <= c
    ensures a * c <= b * c && (a < b ==> a * c < b * c)
  {
  }

  lemma {:induction false} SumsAndProductsGrow(cfg: Config, e: Expr)
    requires IntegerArithmetic(cfg) && SumsAndProducts(e)
    ensures Growing(cfg, e)
  {
    hide GrowingOp;
    if e.Binary? {
      PlusGrows(cfg);
      StarGrows(cfg);
      SumsAndProductsGrow(cfg, e.left);
      SumsAndProductsGrow(cfg, e.right);
    }
  }

  lemma {:induction false} SumAndProductCodes(e: Expr)
    requires SumsAndProducts(e)
    ensures Operators(e) <= {105, 107}
  {
    if e.Binary? {
      SumAndProductCodes(e.left);
      SumAndProductCodes(e.right);
    }
  }

  /** Sums and products of columns of one type with an arithmetic are evaluated. */
  lemma SumsAndProductsLegal(cfg: Config, e: Expr, input: seq<Buffer>, kind: nat)
    requires SumsAndProducts(e) && OneKind(e, input, kind) && cfg.numeric(kind)
    requires forall i :: 0 <= i < |input| ==> |input[i].rows| == cfg.length
    ensures Legal(cfg, e, input)
  {
    SumAndProductCodes(e);
    PassesIff(cfg, e, input, kind);
  }

  /** Integer sums and products of numbers from 2 on are right, and leave their inputs alone, exactly under the two conditions. */
  lemma IntegersAreExact(cfg: Config, e: Expr, input: seq<Buffer>, kind: nat)
    requires IntegerArithmetic(cfg) && SumsAndProducts(e) && OneKind(e, input, kind) && cfg.numeric(kind) && Big(cfg, input)
    ensures Clean(cfg, e, input, input)
    ensures GivesValue(cfg, e, input) <==> ReadsClean(e)
    ensures KeepsInput(cfg, e, input) <==> Regular(e)
  {
    SumsAndProductsGrow(cfg, e);
    SumsAndProductsLegal(cfg, e, input, kind);
    hide Growing, SumsAndProducts, Legal, Big, GivesValue, KeepsInput;
    GrowingIsExact(cfg, e, input);
  }

  /**
   With differences the conditions are not needed on every input: a + (b - b) never changes `a` though it overwrites it
   with itself, and (a + (b - b)) + a is always right though it reads `a` afterwards.
   */
  lemma CancelExample(cfg: Config, input: seq<Buffer>)
    requires (forall x, y :: cfg.arith(PLUS, x, y) == x + y) && (forall x, y :: cfg.arith(MINUS, x, y) == x - y)
    requires |input| == 2 && Legal(cfg, Binary(PLUS, Binary(PLUS, Column(0), Binary(MINUS, Column(1), Column(1))), Column(0)), input)
    ensures var l := Binary(PLUS, Column(0), Binary(MINUS, Column(1), Column(1)));
            var e := Binary(PLUS, l, Column(0));
            && !Regular(l) && Legal(cfg, l, input) && KeepsInput(cfg, l, input)
            && !ReadsClean(e) && GivesValue(cfg, e, input)
  {
    var r := Binary(MINUS, Column(1), Column(1));
    var l := Binary(PLUS, Column(0), r);
    var e := Binary(PLUS, l, Column(0));
    assert Columns(r) == {1};
    assert Columns(l) == {0, 1};
    assert 0 in Overwritten(l) && ReadsClean(l) && Home(l) == 0 && Overwritten(l) == {0};
    LegalParts(cfg, PLUS, l, Column(0), input);
    CancelledRows(cfg, input);
    var s0 := State(input, []);
    RunsRight(cfg, l, input, s0) by { hide Run, Postfix, Evaluated, Check; }
    hide Run, Postfix, Check, Rows, Legal;
    var s1 := Run(cfg, Postfix(l), s0).value;
    assert s1.mem[0] == input[0] && s1.mem[1] == input[1] && s1.stack == [Slot(true, 0)];
    assert s1.mem[..2] == input;
    RunBinary(cfg, PLUS, l, Column(0), s0);
    RunColumn(cfg, 0, s1);
    SumsUp(cfg, input, s1);
  }

  lemma CancelledRows(cfg: Config, input: seq<Buffer>)
    requires (forall x, y :: cfg.arith(PLUS, x, y) == x + y) && (forall x, y :: cfg.arith(MINUS, x, y) == x - y) && |input| == 2
    requires |input[0].rows| == |input[1].rows| == cfg.length
    ensures var l := Binary(PLUS, Column(0), Binary(MINUS, Column(1), Column(1)));
            && Clean(cfg, l, input, input) && Rows(cfg, l, input) == input[0].rows
            && Clean(cfg, Binary(PLUS, l, Column(0)), input, input)
            && Rows(cfg, Binary(PLUS, l, Column(0)), input) == Combine(cfg, PLUS, input[0].rows, input[0].rows)
  {
    var r := Binary(MINUS, Column(1), Column(1));
    var l := Binary(PLUS, Column(0), r);
    assert Columns(r) == {1} && Columns(l) == {0, 1} && Columns(Binary(PLUS, l, Column(0))) == {0, 1};
    forall i: nat | i < cfg.length
      ensures Value(cfg, l, input, i) == input[0].rows[i]
    {
      assert Value(cfg, r, input, i) == 0;
    }
    RowsCombine(cfg, PLUS, l, Column(0), input);
    assert Rows(cfg, Column(0), input) == input[0].rows;
  }

  /** The last addition of the example. */
  lemma SumsUp(cfg: Config, input: seq<Buffer>, s: State)
    requires |input| == 2 && |s.mem| >= 2 && s.mem[0] == input[0] && s.stack == [Slot(true, 0)] && cfg.numeric(input[0].kind)
    ensures var m := Step(cfg, Operator(PLUS), State(s.mem, s.stack + [Slot(false, 0)]));
            m == Success(State(s.mem[0 := Buffer(input[0].kind, Combine(cfg, PLUS, input[0].rows, input[0].rows))], [Slot(true, 0)]))
  {
    var stack := s.stack + [Slot(false, 0)];
    assert stack[0] == Slot(true, 0) && stack[1] == Slot(false, 0) && stack[..0] + [Slot(true, 0)] == [Slot(true, 0)];
  }

  /** An arithmetic in which every operator grows, and an input for it. */
  ghost function Adding(): Config {
    Config((op: int, a: int, b: int) => a + b, (kind: nat) => true, 1)
  }

  ghost function Twos(n: nat): seq<Buffer> {
    seq(n, _ => Buffer(0, [2]))
  }

  ghost function Bound(e: Expr): (n: nat)
    ensures forall c :: c in Columns(e) ==> c < n
  {
    match e
    case Column(c) => c + 1
    case Binary(_, l, r) => Bound(l) + Bound(r)
  }

  lemma {:induction false} TwosLegal(e: Expr, n: nat)
    requires Operators(e) <= {105, 106, 107, 108} && forall c :: c in Columns(e) ==> c < n
    ensures Clean(Adding(), e, Twos(n), Twos(n)) && Check(Adding(), e, Twos(n)) == Success(0) && Growing(Adding(), e)
  {
    match e
    case Column(c) => assert c in Columns(e);
    case Binary(op, l, r) =>
      assert forall c :: c in Columns(l) || c in Columns(r) ==> c in Columns(e);
      TwosLegal(l, n);
      TwosLegal(r, n);
  }

  /** Over all arithmetics and inputs, clean reads are exactly what makes the value right. */
  lemma ValueRightExactlyWhenReadsClean(e: Expr)
    requires Operators(e) <= {105, 106, 107, 108}
    ensures ReadsClean(e) <==> forall cfg, input :: Legal(cfg, e, input) ==> GivesValue(cfg, e, input)
  {
    hide Run, Postfix, Growing;
    if ReadsClean(e) {
      forall cfg, input | Legal(cfg, e, input)
        ensures GivesValue(cfg, e, input)
      {
        EvaluationIsRight(cfg, e, input);
      }
    } else {
      TwosLegal(e, Bound(e));
      GrowingIsExact(Adding(), e, Twos(Bound(e)));
      assert Legal(Adding(), e, Twos(Bound(e)));
    }
  }

  /** Over all arithmetics and inputs, regularity is exactly what keeps the inputs. */
  lemma InputKeptExactlyWhenRegular(e: Expr)
    requires Operators(e) <= {105, 106, 107, 108}
    ensures Regular(e) <==> forall cfg, input :: Legal(cfg, e, input) ==> KeepsInput(cfg, e, input)
  {
    hide Run, Postfix, Growing;
    RegularIff(e);
    if Regular(e) {
      forall cfg, input | Legal(cfg, e, input)
        ensures KeepsInput(cfg, e, input)
      {
        EvaluationIsRight(cfg, e, input);
      }
    } else {
      TwosLegal(e, Bound(e));
      GrowingIsExact(Adding(), e, Twos(Bound(e)));
      assert Legal(Adding(), e, Twos(Bound(e)));
    }
  }

  lemma StepAdd(cfg: Config, mem: seq<Buffer>, below: seq<Slot>, l: Slot, r: Slot, x: int, y: int, mem': seq<Buffer>, b: nat)
    requires cfg.numeric(0) && l.buffer < |mem| && r.buffer < |mem|
    requires mem[l.buffer] == Buffer(0, [x]) && mem[r.buffer] == Buffer(0, [y])
    requires b == if !l.isResult && !r.isResult then |mem| else l.buffer
    requires mem' == var sum := Buffer(0, [cfg.arith(PLUS, x, y)]); if b == |mem| then mem + [sum] else mem[b := sum]
    ensures Step(cfg, Operator(PLUS), State(mem, below + [l, r])) == Success(State(mem', below + [Slot(true, b)]))
  {
    var stack := below + [l, r];
    assert stack[|stack| - 2] == l && stack[|stack| - 1] == r && stack[..|stack| - 2] == below;
    assert Combine(cfg, PLUS, [x], [y]) == [cfg.arith(PLUS, x, y)];
  }

  /** (a + (b + c)) + a for a = 1, b = 10, c = 100 comes out as 222 instead of 112: `a` was overwritten by 111. */
  lemma SpoiledExample()
    ensures var a, b, c := Column(0), Column(1), Column(2);
            var e := Binary(PLUS, Binary(PLUS, a, Binary(PLUS, b, c)), a);
            var cfg := Config((op: int, x: int, y: int) => x + y, (kind: nat) => true, 1);
            var input := [Buffer(0, [1]), Buffer(0, [10]), Buffer(0, [100])];
            && Clean(cfg, e, input, input) && Rows(cfg, e, input) == [112]
            && Run(cfg, Postfix(e), State(input, [])) ==
               Success(State([Buffer(0, [222]), Buffer(0, [10]), Buffer(0, [100]), Buffer(0, [110])], [Slot(true, 0)]))
  {
    hide Run, Step, Rows, Value, Check, Postfix, Clean;
    var a, b, c := Column(0), Column(1), Column(2);
    var l := Binary(PLUS, a, Binary(PLUS, b, c));
    var cfg := Config((op: int, x: int, y: int) => x + y, (kind: nat) => true, 1);
    var A, B, C, BC, ABC, AABC := Buffer(0, [1]), Buffer(0, [10]), Buffer(0, [100]), Buffer(0, [110]), Buffer(0, [111]), Buffer(0, [222]);
    SumOfThree(cfg, [A, B, C]);
    var s0, s5 := State([A, B, C], []), State([ABC, B, C, BC], [Slot(true, 0)]);
    SpoiledColumn(cfg, A, B, C, BC, ABC);
    RunBinary(cfg, PLUS, l, a, s0);
    RunColumn(cfg, 0, s5);
    assert [Slot(true, 0)] + [Slot(false, 0)] == [] + [Slot(true, 0), Slot(false, 0)] && [] + [Slot(true, 0)] == [Slot(true, 0)];
    StepAdd(cfg, s5.mem, [], Slot(true, 0), Slot(false, 0), 111, 111, [AABC, B, C, BC], 0);
  }

  lemma RunColumn(cfg: Config, c: nat, s: State)
    requires c < |s.mem|
    ensures Run(cfg, Postfix(Column(c)), s) == Success(State(s.mem, s.stack + [Slot(false, c)]))
  {
    RunOne(cfg, Operand(c), s);
  }

  lemma SpoiledColumn(cfg: Config, A: Buffer, B: Buffer, C: Buffer, BC: Buffer, ABC: Buffer)
    requires cfg.numeric(0) && cfg.arith(PLUS, 10, 100) == 110 && cfg.arith(PLUS, 1, 110) == 111
    requires A == Buffer(0, [1]) && B == Buffer(0, [10]) && C == Buffer(0, [100]) && BC == Buffer(0, [110]) && ABC == Buffer(0, [111])
    ensures Run(cfg, Postfix(Binary(PLUS, Column(0), Binary(PLUS, Column(1), Column(2)))), State([A, B, C], []))
         == Success(State([ABC, B, C, BC], [Slot(true, 0)]))
  {
    hide Run, Step, Postfix;
    var a0, b0, c0 := Slot(false, 0), Slot(false, 1), Slot(false, 2);
    var s1, s2 := State([A, B, C], [a0]), State([A, B, C], [a0, b0]);
    RunBinary(cfg, PLUS, Column(0), Binary(PLUS, Column(1), Column(2)), State([A, B, C], []));
    RunColumn(cfg, 0, State([A, B, C], []));
    assert [] + [a0] == [a0] && [a0] + [b0] == [a0, b0] && [a0, b0] + [c0] == [a0] + [b0, c0];
    RunBinary(cfg, PLUS, Column(1), Column(2), s1);
    RunColumn(cfg, 1, s1);
    RunColumn(cfg, 2, s2);
    StepAdd(cfg, [A, B, C], [a0], b0, c0, 10, 100, [A, B, C, BC], 3);
    assert [a0] + [Slot(true, 3)] == [] + [a0, Slot(true, 3)];
    StepAdd(cfg, [A, B, C, BC], [], a0, Slot(true, 3), 1, 110, [ABC, B, C, BC], 0);
    assert [] + [Slot(true, 0)] == [Slot(true, 0)];
  }

  lemma SumOfThree(cfg: Config, input: seq<Buffer>)
    requires cfg.length == 1 && |input| == 3 && forall x, y :: cfg.arith(PLUS, x, y) == x + y
    requires input[0].rows == [1] && input[1].rows == [10] && input[2].rows == [100]
    ensures var e := Binary(PLUS, Binary(PLUS, Column(0), Binary(PLUS, Column(1), Column(2))), Column(0));
            Clean(cfg, e, input, input) && Rows(cfg, e, input) == [112]
  {
    var bc := Binary(PLUS, Column(1), Column(2));
    var abc := Binary(PLUS, Column(0), bc);
    assert Columns(bc) == {1, 2};
    assert Columns(abc) == {0, 1, 2};
    assert Value(cfg, bc, input, 0) == 110;
    assert Value(cfg, abc, input, 0) == 111;
  }
}
