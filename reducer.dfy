/**
 * The reducer of `evaluateInput`: four passes over the operand list
 * `numList` and the operator list `opsList`, one per operator, in the fixed
 * order `*`, `/`, `+`, `-`. A pass repeatedly takes the leftmost
 * occurrence of its operator, removes it and its right-hand operand, and
 * puts the combined value in the left-hand operand's slot.
 */
module Reducer {
  import opened Symbols

  /** An operand: a number, or the non-finite value a division by zero leaves behind. */
  datatype Value = Num(x: real) | DivByZero

  /** `lhs op rhs`. Once a division by zero has happened the value stays non-finite. */
  function Combine(op: Op, lhs: Value, rhs: Value): Value {
    if lhs.DivByZero? || rhs.DivByZero? then DivByZero
    else match op
      case Mul => Num(lhs.x * rhs.x)
      case Div => if rhs.x == 0.0 then DivByZero else Num(lhs.x / rhs.x)
      case Add => Num(lhs.x + rhs.x)
      case Sub => Num(lhs.x - rhs.x)
  }

  /** The two lists; `ops[i]` stands between `nums[i]` and `nums[i + 1]`. */
  datatype Expr = Expr(nums: seq<Value>, ops: seq<Op>) {
    predicate WellFormed() {
      |nums| == |ops| + 1
    }
  }

  /** The position of the leftmost `op` in `ops` (`indexOf`). */
  function IndexOf(ops: seq<Op>, op: Op): (i: nat)
    requires op in ops
    ensures i < |ops| && ops[i] == op
    ensures op !in ops[..i]
  {
    if ops[0] == op then 0
    else
      var j := IndexOf(ops[1..], op);
      assert ops[1..][..j] == ops[1..j + 1];
      1 + j
  }

  /**
   * One iteration of a pass at position `i`: the operator at `i` is spliced
   * out, the operand at `i + 1` is spliced out, and the operand at `i`
   * becomes the combination of the two.
   */
  function StepAt(e: Expr, i: nat): (r: Expr)
    requires e.WellFormed() && i < |e.ops|
    ensures r.WellFormed() && |r.ops| == |e.ops| - 1
    ensures forall k | 0 <= k < i :: r.ops[k] == e.ops[k]
    ensures forall k | i <= k < |r.ops| :: r.ops[k] == e.ops[k + 1]
    ensures forall k | 0 <= k < i :: r.nums[k] == e.nums[k]
    ensures r.nums[i] == Combine(e.ops[i], e.nums[i], e.nums[i + 1])
    ensures forall k | i < k < |r.nums| :: r.nums[k] == e.nums[k + 1]
  {
    Expr(e.nums[..i] + [Combine(e.ops[i], e.nums[i], e.nums[i + 1])] + e.nums[i + 2..],
         e.ops[..i] + e.ops[i + 1..])
  }

  /** A whole pass for `op`: step at the leftmost `op` until none is left. */
  function Pass(op: Op, e: Expr): (r: Expr)
    requires e.WellFormed()
    ensures r.WellFormed()
    ensures op !in r.ops
    ensures |r.ops| <= |e.ops|
    decreases |e.ops|
  {
    if op !in e.ops then e else Pass(op, StepAt(e, IndexOf(e.ops, op)))
  }

  /** The four passes in the order `evaluateInput` runs them. */
  function ReduceAll(e: Expr): Expr
    requires e.WellFormed()
  {
    Pass(Sub, Pass(Add, Pass(Div, Pass(Mul, e))))
  }

  // ---------------------------------------------------------------------
  // An independent description of a pass: one left-to-right scan
  // ---------------------------------------------------------------------

  /** `((acc op xs[0]) op xs[1]) ...` */
  function FoldLeft(op: Op, acc: Value, xs: seq<Value>): Value
    decreases |xs|
  {
    if xs == [] then acc else FoldLeft(op, Combine(op, acc, xs[0]), xs[1..])
  }

  /**
   * Scans the expression `acc ops[0] rest[0] ops[1] rest[1] ...` once from
   * the left, folding every maximal run joined by `op` into one operand and
   * copying every other operator through.
   */
  function Collapse(op: Op, acc: Value, rest: seq<Value>, ops: seq<Op>): (r: Expr)
    requires |rest| == |ops|
    ensures r.WellFormed()
    decreases |ops|
  {
    if ops == [] then Expr([acc], [])
    else if ops[0] == op then Collapse(op, Combine(op, acc, rest[0]), rest[1..], ops[1..])
    else
      var tail := Collapse(op, rest[0], rest[1..], ops[1..]);
      Expr([acc] + tail.nums, [ops[0]] + tail.ops)
  }

  /** `ops` with every `op` taken out, the others kept in order. */
  function Without(ops: seq<Op>, op: Op): (r: seq<Op>)
    decreases |ops|
  {
    if ops == [] then [] else (if ops[0] == op then [] else [ops[0]]) + Without(ops[1..], op)
  }

  // ---------------------------------------------------------------------
  // Lemmas
  // ---------------------------------------------------------------------

  lemma {:induction false} CollapseUntouched(op: Op, acc: Value, rest: seq<Value>, ops: seq<Op>)
    requires |rest| == |ops| && op !in ops
    ensures Collapse(op, acc, rest, ops) == Expr([acc] + rest, ops)
    decreases |ops|
  {
    if ops != [] {
      assert op !in ops[1..];
      CollapseUntouched(op, rest[0], rest[1..], ops[1..]);
      assert [rest[0]] + rest[1..] == rest;
      assert [ops[0]] + ops[1..] == ops;
    }
  }

  /** A step behind the first operator leaves the first operand and operator in front. */
  lemma {:induction false} StepAtBehindFirst(acc: Value, rest: seq<Value>, ops: seq<Op>, i: nat)
    requires |rest| == |ops| && 0 < i < |ops|
    ensures var s' := StepAt(Expr(rest, ops[1..]), i - 1);
      StepAt(Expr([acc] + rest, ops), i) == Expr([acc] + s'.nums, [ops[0]] + s'.ops)
  {
    var s := StepAt(Expr([acc] + rest, ops), i);
    var s' := StepAt(Expr(rest, ops[1..]), i - 1);
    assert s.nums == [acc] + s'.nums by {
      forall k | 0 <= k < |s.nums| ensures s.nums[k] == ([acc] + s'.nums)[k] {
        if k > 0 {
          assert ([acc] + s'.nums)[k] == s'.nums[k - 1];
        }
      }
    }
    assert s.ops == [ops[0]] + s'.ops by {
      forall k | 0 <= k < |s.ops| ensures s.ops[k] == ([ops[0]] + s'.ops)[k] {
        if k > 0 {
          assert ([ops[0]] + s'.ops)[k] == s'.ops[k - 1];
        }
      }
    }
  }

  /** Stepping at the leftmost `op` does not change what the scan computes. */
  lemma {:induction false} CollapseStepFirst(op: Op, acc: Value, rest: seq<Value>, ops: seq<Op>, i: nat)
    requires |rest| == |ops| && i < |ops| && ops[i] == op && op !in ops[..i]
    ensures var s := StepAt(Expr([acc] + rest, ops), i);
      Collapse(op, s.nums[0], s.nums[1..], s.ops) == Collapse(op, acc, rest, ops)
    decreases i
  {
    var s := StepAt(Expr([acc] + rest, ops), i);
    if i == 0 {
      StepAtFront(acc, rest, ops);
      assert s.nums[1..] == rest[1..];
    } else {
      assert ops[0] == ops[..i][0];
      var s' := StepAt(Expr(rest, ops[1..]), i - 1);
      assert ops[1..][..i - 1] == ops[1..i];
      CollapseStepFirst(op, rest[0], rest[1..], ops[1..], i - 1);
      assert [rest[0]] + rest[1..] == rest;
      StepAtBehindFirst(acc, rest, ops, i);
      assert s.nums[0] == acc && s.nums[1..] == s'.nums;
      CollapseKeeps(op, acc, s'.nums, s.ops);
      CollapseKeeps(op, acc, rest, ops);
    }
  }

  /** A step at the front combines the first two operands. */
  lemma StepAtFront(acc: Value, rest: seq<Value>, ops: seq<Op>)
    requires |rest| == |ops| > 0
    ensures StepAt(Expr([acc] + rest, ops), 0) == Expr([Combine(ops[0], acc, rest[0])] + rest[1..], ops[1..])
  {
    assert ([acc] + rest)[2..] == rest[1..];
  }

  /** The scan copies an operator that is not its own, and starts afresh behind it. */
  lemma CollapseKeeps(op: Op, acc: Value, rest: seq<Value>, ops: seq<Op>)
    requires |rest| == |ops| > 0 && ops[0] != op
    ensures var tail := Collapse(op, rest[0], rest[1..], ops[1..]);
      Collapse(op, acc, rest, ops) == Expr([acc] + tail.nums, [ops[0]] + tail.ops)
  {
  }

  /** A pass computes the same as the single left-to-right scan. */
  lemma {:induction false} PassIsCollapse(op: Op, e: Expr)
    requires e.WellFormed()
    ensures Pass(op, e) == Collapse(op, e.nums[0], e.nums[1..], e.ops)
    decreases |e.ops|
  {
    assert [e.nums[0]] + e.nums[1..] == e.nums;
    if op !in e.ops {
      CollapseUntouched(op, e.nums[0], e.nums[1..], e.ops);
    } else {
      var i := IndexOf(e.ops, op);
      var s := StepAt(e, i);
      PassIsCollapse(op, s);
      CollapseStepFirst(op, e.nums[0], e.nums[1..], e.ops, i);
    }
  }

  lemma {:induction false} CollapseOps(op: Op, acc: Value, rest: seq<Value>, ops: seq<Op>)
    requires |rest| == |ops|
    ensures Collapse(op, acc, rest, ops).ops == Without(ops, op)
    decreases |ops|
  {
    if ops != [] {
      if ops[0] == op {
        CollapseOps(op, Combine(op, acc, rest[0]), rest[1..], ops[1..]);
      } else {
        CollapseOps(op, rest[0], rest[1..], ops[1..]);
      }
    }
  }

  /** A pass removes every occurrence of its operator and keeps the other operators, in order. */
  lemma PassKeepsOtherOperators(op: Op, e: Expr)
    requires e.WellFormed()
    ensures Pass(op, e).ops == Without(e.ops, op)
  {
    PassIsCollapse(op, e);
    CollapseOps(op, e.nums[0], e.nums[1..], e.ops);
  }

  lemma {:induction false} WithoutKeepsAbsence(ops: seq<Op>, op: Op, other: Op)
    requires other !in ops
    ensures other !in Without(ops, op)
    decreases |ops|
  {
    if ops != [] {
      assert other !in ops[1..];
      WithoutKeepsAbsence(ops[1..], op, other);
    }
  }

  lemma {:induction false} CollapseSame(op: Op, acc: Value, rest: seq<Value>, ops: seq<Op>)
    requires |rest| == |ops|
    requires forall k | 0 <= k < |ops| :: ops[k] == op
    ensures Collapse(op, acc, rest, ops) == Expr([FoldLeft(op, acc, rest)], [])
    decreases |ops|
  {
    if ops != [] {
      CollapseSame(op, Combine(op, acc, rest[0]), rest[1..], ops[1..]);
    }
  }

  /** When every operator is the pass's operator, the pass is a left fold over the operands. */
  lemma PassLeftFold(op: Op, e: Expr)
    requires e.WellFormed()
    requires forall k | 0 <= k < |e.ops| :: e.ops[k] == op
    ensures Pass(op, e) == Expr([FoldLeft(op, e.nums[0], e.nums[1..])], [])
  {
    PassIsCollapse(op, e);
    CollapseSame(op, e.nums[0], e.nums[1..], e.ops);
  }

  /** The four passes leave no operator and exactly one operand, the result. */
  lemma FullReduction(e: Expr)
    requires e.WellFormed()
    ensures ReduceAll(e).ops == [] && |ReduceAll(e).nums| == 1
  {
    var e1 := Pass(Mul, e);
    var e2 := Pass(Div, e1);
    var e3 := Pass(Add, e2);
    var e4 := Pass(Sub, e3);
    PassKeepsOtherOperators(Div, e1);
    PassKeepsOtherOperators(Add, e2);
    PassKeepsOtherOperators(Sub, e3);
    WithoutKeepsAbsence(e1.ops, Div, Mul);
    WithoutKeepsAbsence(e2.ops, Add, Mul);
    WithoutKeepsAbsence(e2.ops, Add, Div);
    WithoutKeepsAbsence(e3.ops, Sub, Mul);
    WithoutKeepsAbsence(e3.ops, Sub, Div);
    WithoutKeepsAbsence(e3.ops, Sub, Add);
    NothingElseLeft(e4.ops);
  }

  /** Every operator is one of the four. */
  lemma NothingElseLeft(ops: seq<Op>)
    ensures ops == [] || Mul in ops || Div in ops || Add in ops || Sub in ops
  {
    if ops != [] {
      match ops[0]
      case Mul => assert Mul in ops;
      case Div => assert Div in ops;
      case Add => assert Add in ops;
      case Sub => assert Sub in ops;
    }
  }

  /** The splices `handle*` performs are one step at the spliced position. */
  lemma SpliceIsStep(nums: seq<Value>, ops: seq<Op>, i: nat)
    requires |nums| == |ops| + 1 && i < |ops|
    ensures var spliced := nums[..i + 1] + nums[i + 2..];
      Expr(spliced[i := Combine(ops[i], nums[i], nums[i + 1])], ops[..i] + ops[i + 1..])
        == StepAt(Expr(nums, ops), i)
  {
    var spliced := nums[..i + 1] + nums[i + 2..];
    var r := StepAt(Expr(nums, ops), i);
    assert spliced[i := Combine(ops[i], nums[i], nums[i + 1])] == r.nums;
  }

  // ---------------------------------------------------------------------
  // The pass order on short lists
  // ---------------------------------------------------------------------

  lemma StepAtTwo(a: Value, b: Value, op: Op)
    ensures StepAt(Expr([a, b], [op]), 0) == Expr([Combine(op, a, b)], [])
  {
    assert [a, b][2..] == [];
  }

  lemma StepAtThreeFirst(a: Value, b: Value, c: Value, o1: Op, o2: Op)
    ensures StepAt(Expr([a, b, c], [o1, o2]), 0) == Expr([Combine(o1, a, b), c], [o2])
  {
    assert [a, b, c][2..] == [c];
    assert [o1, o2][1..] == [o2];
  }

  lemma StepAtThreeSecond(a: Value, b: Value, c: Value, o1: Op, o2: Op)
    ensures StepAt(Expr([a, b, c], [o1, o2]), 1) == Expr([a, Combine(o2, b, c)], [o1])
  {
    assert [a, b, c][..1] == [a];
    assert [a, b, c][3..] == [];
    assert [o1, o2][..1] == [o1];
    assert [o1, o2][2..] == [];
  }

  lemma PassSkips(op: Op, e: Expr)
    requires e.WellFormed() && op !in e.ops
    ensures Pass(op, e) == e
  {
  }

  lemma PassStep(op: Op, e: Expr, r: Expr)
    requires e.WellFormed() && op in e.ops && StepAt(e, IndexOf(e.ops, op)) == r
    ensures Pass(op, e) == Pass(op, r)
  {
  }

  /** A pass whose first step removes its only operator. */
  lemma PassOnce(op: Op, e: Expr, r: Expr)
    requires e.WellFormed() && op in e.ops
    requires StepAt(e, IndexOf(e.ops, op)) == r && op !in r.ops
    ensures Pass(op, e) == r
  {
  }

  /** `8 / 2 * 4`: the multiplication goes first, 8 / (2 * 4) = 1. */
  lemma MultiplicationPassFirst()
    ensures ReduceAll(Expr([Num(8.0), Num(2.0), Num(4.0)], [Div, Mul])) == Expr([Num(1.0)], [])
  {
    var x := Expr([Num(8.0), Num(2.0), Num(4.0)], [Div, Mul]);
    var x1 := Expr([Num(8.0), Num(8.0)], [Div]);
    StepAtThreeSecond(Num(8.0), Num(2.0), Num(4.0), Div, Mul);
    assert IndexOf(x.ops, Mul) == 1;
    PassOnce(Mul, x, x1);
    StepAtTwo(Num(8.0), Num(8.0), Div);
    PassOnce(Div, x1, Expr([Num(1.0)], []));
  }

  /** `10 - 2 + 3`: the addition goes first, 10 - (2 + 3) = 5. */
  lemma AdditionPassFirst()
    ensures ReduceAll(Expr([Num(10.0), Num(2.0), Num(3.0)], [Sub, Add])) == Expr([Num(5.0)], [])
  {
    var x := Expr([Num(10.0), Num(2.0), Num(3.0)], [Sub, Add]);
    var x1 := Expr([Num(10.0), Num(5.0)], [Sub]);
    StepAtThreeSecond(Num(10.0), Num(2.0), Num(3.0), Sub, Add);
    assert IndexOf(x.ops, Add) == 1;
    PassOnce(Add, x, x1);
    StepAtTwo(Num(10.0), Num(5.0), Sub);
    PassOnce(Sub, x1, Expr([Num(5.0)], []));
  }

  /** `2 + 3 * 4` = 2 + (3 * 4) = 14. */
  lemma MultiplicationBeforeAdditionPass()
    ensures ReduceAll(Expr([Num(2.0), Num(3.0), Num(4.0)], [Add, Mul])) == Expr([Num(14.0)], [])
  {
    var x := Expr([Num(2.0), Num(3.0), Num(4.0)], [Add, Mul]);
    var x1 := Expr([Num(2.0), Num(12.0)], [Add]);
    StepAtThreeSecond(Num(2.0), Num(3.0), Num(4.0), Add, Mul);
    assert IndexOf(x.ops, Mul) == 1;
    PassOnce(Mul, x, x1);
    StepAtTwo(Num(2.0), Num(12.0), Add);
    PassOnce(Add, x1, Expr([Num(14.0)], []));
  }

  /** `9 - 2 - 3`: within one pass the leftmost operator goes first, (9 - 2) - 3 = 4. */
  lemma SubtractionPassLeftToRight()
    ensures ReduceAll(Expr([Num(9.0), Num(2.0), Num(3.0)], [Sub, Sub])) == Expr([Num(4.0)], [])
  {
    var x := Expr([Num(9.0), Num(2.0), Num(3.0)], [Sub, Sub]);
    var x1 := Expr([Num(7.0), Num(3.0)], [Sub]);
    var x2 := Expr([Num(4.0)], []);
    PassSkips(Mul, x);
    PassSkips(Div, x);
    PassSkips(Add, x);
    StepAtThreeFirst(Num(9.0), Num(2.0), Num(3.0), Sub, Sub);
    assert IndexOf(x.ops, Sub) == 0;
    PassStep(Sub, x, x1);
    StepAtTwo(Num(7.0), Num(3.0), Sub);
    assert IndexOf(x1.ops, Sub) == 0;
    PassOnce(Sub, x1, x2);
  }

  // ---------------------------------------------------------------------
  // The lists as the evaluator mutates them
  // ---------------------------------------------------------------------

  class Lists {
    var numList: seq<Value>
    var opsList: seq<Op>

    constructor (nums: seq<Value>, ops: seq<Op>)
      ensures numList == nums && opsList == ops
    {
      numList := nums;
      opsList := ops;
    }

    /** `handleMultiplications`, `handleDivisions`, `handleAdditions` and `handleSubtractions`, for `op`. */
    method HandlePass(op: Op)
      requires |numList| == |opsList| + 1
      modifies this
      ensures |numList| == |opsList| + 1 && op !in opsList
      ensures Expr(numList, opsList) == Pass(op, old(Expr(numList, opsList)))
    {
      while op in opsList
        invariant |numList| == |opsList| + 1
        invariant Pass(op, Expr(numList, opsList)) == Pass(op, old(Expr(numList, opsList)))
        decreases |opsList|
      {
        ghost var before := Expr(numList, opsList);
        var opIndex := IndexOf(opsList, op);
        opsList := opsList[..opIndex] + opsList[opIndex + 1..];
        var rhs := numList[opIndex + 1];
        var lhs := numList[opIndex];
        numList := numList[..opIndex + 1] + numList[opIndex + 2..];
        numList := numList[opIndex := Combine(op, lhs, rhs)];
        SpliceIsStep(before.nums, before.ops, opIndex);
      }
    }

    /** The pass sequence of `evaluateInput`: `*`, then `/`, then `+`, then `-`. */
    method Reduce()
      requires |numList| == |opsList| + 1
      modifies this
      ensures Expr(numList, opsList) == ReduceAll(old(Expr(numList, opsList)))
      ensures opsList == [] && |numList| == 1
    {
      ghost var start := Expr(numList, opsList);
      HandlePass(Mul);
      HandlePass(Div);
      HandlePass(Add);
      HandlePass(Sub);
      FullReduction(start);
    }
  }
}
