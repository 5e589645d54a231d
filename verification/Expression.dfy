/** The expression evaluator on real buffers. */
module Expression {
  import opened ExpressionModel

  ghost predicate Separate(heap: seq<array<int>>) {
    forall i, j :: 0 <= i < j < |heap| ==> heap[i] != heap[j]
  }

  /** The contents of the buffers, as the machine sees them. */
  ghost function Contents(heap: seq<array<int>>, kinds: seq<nat>): (mem: seq<Buffer>)
    requires |heap| == |kinds|
    reads heap
    ensures |mem| == |heap| && forall i :: 0 <= i < |mem| ==> mem[i] == Buffer(kinds[i], heap[i][..])
  {
    seq(|heap|, i requires 0 <= i < |heap| reads heap => Buffer(kinds[i], heap[i][..]))
  }

  /** Combine two buffers row by row into a third, which may be one of the two. */
  method ExecuteBlock(cfg: Config, op: int, result: array<int>, left: array<int>, right: array<int>)
    requires left.Length == right.Length == result.Length
    modifies result
    ensures result[..] == Combine(cfg, op, old(left[..]), old(right[..]))
  {
    for row := 0 to left.Length
      invariant forall i :: 0 <= i < row ==> result[i] == cfg.arith(op, old(left[i]), old(right[i]))
      invariant forall i :: row <= i < left.Length ==> result[i] == old(result[i]) && left[i] == old(left[i]) && right[i] == old(right[i])
    {
      result[row] := cfg.arith(op, left[row], right[row]);
    }
  }

  lemma RunUnfolds(cfg: Config, code: seq<Elem>, i: nat, s: State)
    requires i < |code|
    ensures Run(cfg, code[i..], s) == (var next := Step(cfg, code[i], s); if next.Failure? then next else Run(cfg, code[i + 1..], next.value))
  {
    assert code[i..][0] == code[i] && code[i..][1..] == code[i + 1..];
  }

  class Expression {
    var postfix: seq<Elem>

    constructor ()
      ensures postfix == []
    {
      postfix := [];
    }

    /** Append the postfix form of `e`. */
    method ConvertPostfix(e: Expr)
      modifies this`postfix
      ensures postfix == old(postfix) + Postfix(e)
    {
      match e
      case Column(c) =>
        postfix := postfix + [Operand(c)];
      case Binary(op, l, r) =>
        ConvertPostfix(l);
        ConvertPostfix(r);
        postfix := postfix + [Operator(op)];
    }

    /** Apply an operator to the two entries on top of the stack. */
    method Operate(cfg: Config, op: int, heap: seq<array<int>>, kinds: seq<nat>, stack: seq<Slot>)
      returns (r: Result<seq<Slot>>, heap': seq<array<int>>, kinds': seq<nat>)
      requires |heap| == |kinds| && Separate(heap) && forall i :: 0 <= i < |heap| ==> heap[i].Length == cfg.length
      modifies heap
      ensures |heap'| == |kinds'| && heap <= heap' && Separate(heap') && forall i :: |heap| <= i < |heap'| ==> fresh(heap'[i])
      ensures forall i :: 0 <= i < |heap'| ==> heap'[i].Length == cfg.length
      ensures var m := Step(cfg, Operator(op), State(old(Contents(heap, kinds)), stack));
              match r
              case Failure(x) => m == Failure(x)
              case Success(st) => m == Success(State(Contents(heap', kinds'), st))
      ensures r.Success? <==>
              && |stack| >= 2 && stack[|stack| - 2].buffer < |heap| && stack[|stack| - 1].buffer < |heap|
              && kinds[stack[|stack| - 2].buffer] == kinds[stack[|stack| - 1].buffer] && cfg.numeric(kinds[stack[|stack| - 1].buffer])
              && op in {105, 106, 107, 108}
    {
      heap', kinds' := heap, kinds;
      var n := |stack|;
      if n < 2 || stack[n - 2].buffer >= |heap| || stack[n - 1].buffer >= |heap| {
        return Failure(Malformed), heap', kinds';
      }
      var l, right := stack[n - 2], stack[n - 1];
      if kinds[l.buffer] != kinds[right.buffer] {
        return Failure(TypeMismatch), heap', kinds';
      }
      if !cfg.numeric(kinds[l.buffer]) {
        return Failure(NoArithmetic), heap', kinds';
      }
      if !Supported(op) {
        return Failure(UnknownOperator), heap', kinds';
      }
      ghost var mem := Contents(heap, kinds);
      if !l.isResult && !right.isResult {
        var result := new int[cfg.length](_ => 0);
        ExecuteBlock(cfg, op, result, heap[l.buffer], heap[right.buffer]);
        heap', kinds' := heap + [result], kinds + [kinds[l.buffer]];
        r := Success(stack[..n - 2] + [Slot(true, |heap|)]);
        assert Contents(heap', kinds') == mem + [Buffer(kinds[l.buffer], result[..])];
      } else {
        ExecuteBlock(cfg, op, heap[l.buffer], heap[l.buffer], heap[right.buffer]);
        r := Success(stack[..n - 2] + [Slot(true, l.buffer)]);
        assert Contents(heap', kinds') == mem[l.buffer := Buffer(kinds[l.buffer], heap[l.buffer][..])];
      }
    }

    /** Evaluate the postfix form on a chunk of every column. The answer is the number of the result buffer in `heap`. */
    method Evaluate(cfg: Config, columns: seq<array<int>>, columnKinds: seq<nat>) returns (r: Result<nat>, heap: seq<array<int>>)
      requires |columns| == |columnKinds| && Separate(columns) && forall i :: 0 <= i < |columns| ==> columns[i].Length == cfg.length
      modifies columns
      ensures columns <= heap && forall k :: |columns| <= k < |heap| ==> fresh(heap[k])
      ensures var m := Run(cfg, postfix, State(old(Contents(columns, columnKinds)), []));
              match r
              case Failure(x) => m == Failure(x) || (m.Success? && m.value.stack == [] && x == Malformed)
              case Success(b) =>
                && m.Success? && m.value.stack != [] && b == m.value.stack[|m.value.stack| - 1].buffer < |heap| == |m.value.mem|
                && forall i :: 0 <= i < |heap| ==> heap[i][..] == m.value.mem[i].rows
    {
      hide Run, Step;
      heap := columns;
      var kinds, stack := columnKinds, [];
      ghost var goal := Run(cfg, postfix, State(Contents(columns, columnKinds), []));
      assert postfix[0..] == postfix;
      for i := 0 to |postfix|
        invariant |heap| == |kinds| && columns <= heap && Separate(heap)
        invariant forall k :: |columns| <= k < |heap| ==> fresh(heap[k])
        invariant forall k :: 0 <= k < |heap| ==> heap[k].Length == cfg.length
        invariant Run(cfg, postfix[i..], State(Contents(heap, kinds), stack)) == goal
        invariant forall k :: 0 <= k < |stack| ==> stack[k].buffer < |heap|
      {
        RunUnfolds(cfg, postfix, i, State(Contents(heap, kinds), stack));
        match postfix[i]
        case Operand(c) =>
          StepOperand(cfg, c, State(Contents(heap, kinds), stack));
          if c >= |heap| {
            return Failure(Malformed), heap;
          }
          stack := stack + [Slot(false, c)];
        case Operator(op) =>
          var next;
          StepBuffers(cfg, op, State(Contents(heap, kinds), stack));
          next, heap, kinds := Operate(cfg, op, heap, kinds, stack);
          if next.Failure? {
            return Failure(next.error), heap;
          }
          stack := next.value;
      }
      assert postfix[|postfix|..] == [];
      RunNothing(cfg, State(Contents(heap, kinds), stack));
      r := if stack == [] then Failure(Malformed) else Success(stack[|stack| - 1].buffer);
    }
  }

  lemma StepOperand(cfg: Config, c: nat, s: State)
    ensures Step(cfg, Operand(c), s) == if c < |s.mem| then Success(s.(stack := s.stack + [Slot(false, c)])) else Failure(Malformed)
  {
  }

  lemma StepBuffers(cfg: Config, op: int, s: State)
    requires forall k :: 0 <= k < |s.stack| ==> s.stack[k].buffer < |s.mem|
    ensures var m := Step(cfg, Operator(op), s);
            m.Success? ==> |m.value.mem| >= |s.mem| && forall k :: 0 <= k < |m.value.stack| ==> m.value.stack[k].buffer < |m.value.mem|
  {
  }

  lemma RunNothing(cfg: Config, s: State)
    ensures Run(cfg, [], s) == Success(s)
  {
  }

  /**
   Compile and evaluate. If no column is read after being overwritten, the outcome is the value of the expression row by
   row, or its error; a regular expression leaves its columns alone and its result in a new buffer.
   */
  method Compute(cfg: Config, e: Expr, columns: seq<array<int>>, kinds: seq<nat>) returns (r: Result<nat>, heap: seq<array<int>>)
    requires |columns| == |kinds| && Separate(columns) && forall i :: 0 <= i < |columns| ==> columns[i].Length == cfg.length
    requires forall c :: c in Columns(e) ==> c < |columns|
    modifies columns
    ensures Clean(cfg, e, old(Contents(columns, kinds)), old(Contents(columns, kinds)))
    ensures var m := Run(cfg, Postfix(e), State(old(Contents(columns, kinds)), []));
            match r
            case Failure(x) => m == Failure(x) || (m.Success? && m.value.stack == [] && x == Malformed)
            case Success(b) =>
              && m.Success? && m.value.stack != [] && b == m.value.stack[|m.value.stack| - 1].buffer < |heap| == |m.value.mem|
              && forall i :: 0 <= i < |heap| ==> heap[i][..] == m.value.mem[i].rows
    ensures ReadsClean(e) ==>
              var input := old(Contents(columns, kinds));
              match Check(cfg, e, input)
              case Failure(x) => r == Failure(x)
              case Success(_) => r.Success? && r.value < |heap| && heap[r.value][..] == Rows(cfg, e, input)
    ensures BetweenColumns(e, |columns|) ==>
              var a, b := e.left.buffer, e.right.buffer;
              if kinds[a] != kinds[b] then r == Failure(TypeMismatch)
              else if !cfg.numeric(kinds[a]) then r == Failure(NoArithmetic)
              else if e.op in {105, 106, 107, 108} then
                && r.Success? && r.value < |heap| && heap[r.value].Length == cfg.length
                && forall i :: 0 <= i < cfg.length ==> heap[r.value][i] == cfg.arith(e.op, old(columns[a][i]), old(columns[b][i]))
              else r == Failure(UnknownOperator)
    ensures r.Success? && Regular(e) ==> forall i :: 0 <= i < |columns| ==> columns[i][..] == old(columns[i][..])
    ensures r.Success? && Regular(e) && e.Binary? ==> fresh(heap[r.value])
  {
    hide Run, Check, Rows, ReadsClean, Regular;
    ghost var input := Contents(columns, kinds);
    RegularIff(e);
    if BetweenColumns(e, |columns|) {
      OperatorsExactly(cfg, e, input);
    }
    if ReadsClean(e) {
      EvaluationIsRight(cfg, e, input);
    }
    var x := new Expression();
    x.ConvertPostfix(e);
    assert x.postfix == Postfix(e);
    r, heap := x.Evaluate(cfg, columns, kinds);
    if r.Success? && Regular(e) {
      ghost var mem := Run(cfg, Postfix(e), State(input, [])).value.mem;
      forall i | 0 <= i < |columns|
        ensures columns[i][..] == old(columns[i][..])
      {
        assert heap[i] == columns[i] && mem[i] == input[i];
      }
    }
  }
}
