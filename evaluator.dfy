/**
 * `evaluateInput`: tokenize the display text, return a lone operand as it
 * is, otherwise run the four reducer passes and return the one operand
 * left. Result formatting is not part of this model.
 */
module Evaluator {
  import opened Symbols
  import opened Tokenizer
  import opened Reducer

  /**
   * What an evaluation gives back. `Unreduced` is the first operand text,
   * returned without reduction; `DivisionByZero` stands for the source's
   * infinite results; `Thrown` is an input on which the source raises a
   * TypeError (a scan that finds nothing is `null`); `Malformed` covers the
   * remaining inputs whose two lists do not fit together, for which the
   * source computes NaN or ignores operands.
   */
  datatype EvalResult = Unreduced(operand: string) | Reduced(value: real) | DivisionByZero | Thrown | Malformed

  /** The operand texts read as numbers (`parseFloat`). */
  function Values(tokens: seq<string>): seq<Value> {
    seq(|tokens|, k requires 0 <= k < |tokens| => Num(ParseFloat(tokens[k])))
  }

  function Outcome(v: Value): EvalResult {
    match v
    case Num(x) => Reduced(x)
    case DivByZero => DivisionByZero
  }

  /** What `evaluateInput` computes for the display text `s`. */
  function Evaluation(s: string): EvalResult {
    var numList := Operands(s);
    if |numList| == 0 then Thrown
    else if !ContainsOperatorChar(s) then Unreduced(numList[0])
    else
      var opsList := Operators(s);
      if |opsList| == 0 then
        // the operator scan is `null` unless it caught a point after a digit
        if PointAfterDigit(s) then Unreduced(numList[0]) else Thrown
      else if |numList| != |opsList| + 1 then Malformed
      else
        var final := ReduceAll(Expr(Values(numList), opsList));
        FullReduction(Expr(Values(numList), opsList));
        Outcome(final.nums[0])
  }

  /** `evaluateInput`, building the two lists and reducing them in place. */
  method EvaluateInput(s: string) returns (result: EvalResult)
    ensures result == Evaluation(s)
    ensures result.Reduced? || result.DivisionByZero? ==>
      ContainsOperatorChar(s) && |Operands(s)| == |Operators(s)| + 1
    ensures result.Unreduced? ==>
      (!ContainsOperatorChar(s) || Operators(s) == []) && result.operand == Operands(s)[0]
    ensures result.Thrown? ==> Operands(s) == [] || (ContainsOperatorChar(s) && Operators(s) == [])
  {
    var numList := Operands(s);
    if |numList| == 0 {
      return Thrown;
    }
    if !ContainsOperatorChar(s) {
      return Unreduced(numList[0]);
    }
    var opsList := Operators(s);
    if |opsList| == 0 {
      if PointAfterDigit(s) {
        return Unreduced(numList[0]);
      }
      return Thrown;
    }
    if |numList| != |opsList| + 1 {
      return Malformed;
    }
    var lists := new Lists(Values(numList), opsList);
    lists.Reduce();
    result := Outcome(lists.numList[0]);
  }

  // ---------------------------------------------------------------------
  // Lemmas
  // ---------------------------------------------------------------------

  function LiteralValues(e: Expression): seq<Value>
    requires ValidExpression(e)
  {
    seq(|e.rest| + 1, k requires 0 <= k < |e.rest| + 1 =>
      Num(LiteralValue(if k == 0 then e.first else e.rest[k - 1].operand)))
  }

  /**
   * A well-formed expression with at least one operator evaluates to the
   * single value the four passes leave of its numbers and operators.
   */
  lemma EvaluationOfExpression(e: Expression)
    requires ValidExpression(e) && e.rest != []
    ensures ReduceAll(Expr(LiteralValues(e), TermOps(e.rest))).ops == []
    ensures |ReduceAll(Expr(LiteralValues(e), TermOps(e.rest))).nums| == 1
    ensures Evaluation(Render(e)) == Outcome(ReduceAll(Expr(LiteralValues(e), TermOps(e.rest))).nums[0])
  {
    var s := Render(e);
    TokenizeRender(e);
    var texts := [Text(e.first)] + TermTexts(e.rest);
    assert Values(texts) == LiteralValues(e) by {
      forall k | 0 <= k < |texts| ensures Values(texts)[k] == LiteralValues(e)[k] {
        if k == 0 {
          ParseFloatText(e.first);
        } else {
          TermTextAt(e.rest, k - 1);
          assert ValidLiteral(e.rest[k - 1].operand);
          ParseFloatText(e.rest[k - 1].operand);
        }
      }
    }
    FullReduction(Expr(LiteralValues(e), TermOps(e.rest)));
  }

  lemma {:induction false} TermTextAt(rest: seq<Term>, k: nat)
    requires k < |rest|
    ensures TermTexts(rest)[k] == Text(rest[k].operand)
    decreases k
  {
    if k > 0 {
      TermTextAt(rest[1..], k - 1);
    }
  }

  /**
   * A number typed on its own is returned as its text, unreduced (so
   * evaluating a shown answer again gives it back). A negative whole number
   * throws: its `-` sends it to the operator scan, which finds nothing. A
   * negative decimal does not, because that scan catches its point.
   */
  lemma SingleOperand(l: Literal)
    requires ValidLiteral(l)
    ensures Evaluation(Text(l)) == if l.negative && l.fraction == "" then Thrown else Unreduced(Text(l))
  {
    var s := Text(l);
    TokenizeRender(Expression(l, []));
    assert Render(Expression(l, [])) == s;
    if l.negative {
      if l.fraction == "" {
        assert s == "-" + l.whole;
        forall k | 1 <= k < |s| ensures s[k] != '.' {
          assert s[k] == l.whole[k - 1];
        }
      } else {
        var k := |l.whole| + 1;
        assert s == "-" + l.whole + ("." + l.fraction);
        assert s[k - 1] == l.whole[|l.whole| - 1] && s[k] == '.';
        assert PointAfterDigit(s);
      }
    }
  }

  // ---------------------------------------------------------------------
  // The pass order on examples
  // ---------------------------------------------------------------------

  function Digit(c: char): Literal {
    Literal(false, [c], "")
  }

  lemma DigitValueOf(c: char)
    requires IsDigit(c)
    ensures ValidLiteral(Digit(c)) && LiteralValue(Digit(c)) == DigitValue(c) as real
  {
    assert [c][..0] == [];
    assert WholeValue([c]) == DigitValue(c);
    assert FractionValue("") == 0.0;
  }

  /** Evaluating a concrete expression, given its text, its values and the outcome of the passes. */
  lemma EvaluatesTo(e: Expression, s: string, nums: seq<Value>, final: Value)
    requires ValidExpression(e) && e.rest != []
    requires Render(e) == s && LiteralValues(e) == nums
    requires ReduceAll(Expr(nums, TermOps(e.rest))) == Expr([final], [])
    ensures Evaluation(s) == Outcome(final)
  {
    EvaluationOfExpression(e);
  }

  /** `"8/2*4"` multiplies first: 8 / (2 * 4) = 1. */
  lemma MultiplicationBeforeDivision()
    ensures Evaluation("8/2*4") == Reduced(1.0)
  {
    var e := Expression(Digit('8'), [Term(Div, Digit('2')), Term(Mul, Digit('4'))]);
    var nums := [Num(8.0), Num(2.0), Num(4.0)];
    assert Render(e) == "8/2*4";
    assert LiteralValues(e) == nums by {
      DigitValueOf('8');
      DigitValueOf('2');
      DigitValueOf('4');
    }
    assert TermOps(e.rest) == [Div, Mul];
    MultiplicationPassFirst();
    EvaluatesTo(e, "8/2*4", nums, Num(1.0));
  }

  /** `"10-2+3"` adds first: 10 - (2 + 3) = 5. */
  lemma AdditionBeforeSubtraction()
    ensures Evaluation("10-2+3") == Reduced(5.0)
  {
    var ten := Literal(false, "10", "");
    var e := Expression(ten, [Term(Sub, Digit('2')), Term(Add, Digit('3'))]);
    var nums := [Num(10.0), Num(2.0), Num(3.0)];
    assert Render(e) == "10-2+3";
    assert LiteralValues(e) == nums by {
      assert ValidLiteral(ten) && LiteralValue(ten) == 10.0 by {
        assert "10"[..1] == "1";
        assert "1"[..0] == "";
      }
      DigitValueOf('2');
      DigitValueOf('3');
    }
    assert TermOps(e.rest) == [Sub, Add];
    AdditionPassFirst();
    EvaluatesTo(e, "10-2+3", nums, Num(5.0));
  }

  /** `"2+3*4"`: 2 + (3 * 4) = 14. */
  lemma MultiplicationBeforeAddition()
    ensures Evaluation("2+3*4") == Reduced(14.0)
  {
    var e := Expression(Digit('2'), [Term(Add, Digit('3')), Term(Mul, Digit('4'))]);
    var nums := [Num(2.0), Num(3.0), Num(4.0)];
    assert Render(e) == "2+3*4";
    assert LiteralValues(e) == nums by {
      DigitValueOf('2');
      DigitValueOf('3');
      DigitValueOf('4');
    }
    assert TermOps(e.rest) == [Add, Mul];
    MultiplicationBeforeAdditionPass();
    EvaluatesTo(e, "2+3*4", nums, Num(14.0));
  }

  /** `"9-2-3"`: one operator is reduced left to right, (9 - 2) - 3 = 4. */
  lemma SubtractionLeftToRight()
    ensures Evaluation("9-2-3") == Reduced(4.0)
  {
    var e := Expression(Digit('9'), [Term(Sub, Digit('2')), Term(Sub, Digit('3'))]);
    var nums := [Num(9.0), Num(2.0), Num(3.0)];
    assert Render(e) == "9-2-3";
    assert LiteralValues(e) == nums by {
      DigitValueOf('9');
      DigitValueOf('2');
      DigitValueOf('3');
    }
    assert TermOps(e.rest) == [Sub, Sub];
    SubtractionPassLeftToRight();
    EvaluatesTo(e, "9-2-3", nums, Num(4.0));
  }

  /** `"-5+3"`: the leading `-` is the sign of the first operand. */
  lemma LeadingNegativeOperand()
    ensures Evaluation("-5+3") == Reduced(-2.0)
  {
    var e := Expression(Literal(true, "5", ""), [Term(Add, Digit('3'))]);
    var nums := [Num(-5.0), Num(3.0)];
    assert Render(e) == "-5+3";
    assert LiteralValues(e) == nums by {
      DigitValueOf('5');
      DigitValueOf('3');
      assert "5"[..0] == "";
      assert WholeValue("5") == 5;
      assert LiteralValue(e.first) == -5.0;
      assert LiteralValues(e)[0] == Num(-5.0);
      assert LiteralValues(e)[1] == Num(3.0);
    }
    assert ReduceAll(Expr(nums, TermOps(e.rest))) == Expr([Num(-2.0)], []) by {
      assert TermOps(e.rest) == [Add];
      StepAtTwo(Num(-5.0), Num(3.0), Add);
      PassOnce(Add, Expr(nums, [Add]), Expr([Num(-2.0)], []));
    }
    EvaluatesTo(e, "-5+3", nums, Num(-2.0));
  }

  /** `"1.5*2"`: decimal operands. */
  lemma DecimalOperand()
    ensures Evaluation("1.5*2") == Reduced(3.0)
  {
    var onePointFive := Literal(false, "1", "5");
    var e := Expression(onePointFive, [Term(Mul, Digit('2'))]);
    var nums := [Num(1.5), Num(2.0)];
    assert Render(e) == "1.5*2";
    assert LiteralValues(e) == nums by {
      assert ValidLiteral(onePointFive) && LiteralValue(onePointFive) == 1.5 by {
        assert "1"[..0] == "";
        assert "5"[1..] == "";
        assert WholeValue("1") == 1;
        assert FractionValue("5") == 0.5;
      }
      DigitValueOf('2');
      assert LiteralValues(e)[0] == Num(1.5);
      assert LiteralValues(e)[1] == Num(2.0);
    }
    assert ReduceAll(Expr(nums, TermOps(e.rest))) == Expr([Num(3.0)], []) by {
      assert TermOps(e.rest) == [Mul];
      StepAtTwo(Num(1.5), Num(2.0), Mul);
      PassOnce(Mul, Expr(nums, [Mul]), Expr([Num(3.0)], []));
    }
    EvaluatesTo(e, "1.5*2", nums, Num(3.0));
  }

  /** `"4/0"` is a division by zero. */
  lemma DivisionByZeroExample()
    ensures Evaluation("4/0") == DivisionByZero
  {
    var e := Expression(Digit('4'), [Term(Div, Digit('0'))]);
    var nums := [Num(4.0), Num(0.0)];
    assert Render(e) == "4/0";
    assert LiteralValues(e) == nums by {
      DigitValueOf('4');
      DigitValueOf('0');
    }
    assert ReduceAll(Expr(nums, TermOps(e.rest))) == Expr([DivByZero], []) by {
      assert TermOps(e.rest) == [Div];
      StepAtTwo(Num(4.0), Num(0.0), Div);
      PassOnce(Div, Expr(nums, [Div]), Expr([DivByZero], []));
    }
    EvaluatesTo(e, "4/0", nums, DivByZero);
  }

  /** `"7"` is returned as it is. */
  lemma SingleDigitExample()
    ensures Evaluation("7") == Unreduced("7")
  {
    SingleOperand(Digit('7'));
    assert Text(Digit('7')) == "7";
  }

  /** `"-1.5"`, a lone negative decimal, is returned as it is. */
  lemma NegativeDecimalExample()
    ensures Evaluation("-1.5") == Unreduced("-1.5")
  {
    SingleOperand(Literal(true, "1", "5"));
    assert Text(Literal(true, "1", "5")) == "-1.5";
  }

  /** `"-5"` throws: the operator scan of `"5"` is `null`. */
  lemma NegativeWholeExample()
    ensures Evaluation("-5") == Thrown
  {
    SingleOperand(Literal(true, "5", ""));
    assert Text(Literal(true, "5", "")) == "-5";
  }

  /**
   * `"5.+3"`: the `+` follows a point, not a digit, so the operator scan
   * catches only the point, and the first operand comes back as typed.
   */
  lemma PointBeforeOperatorExample()
    ensures Evaluation("5.+3") == Unreduced("5.")
  {
    var s := "5.+3";
    assert IsOperatorChar(s[2]) && ContainsOperatorChar(s);
    assert IsDigit(s[0]) && s[1] == '.' && PointAfterDigit(s);
    assert Operators(s) == [];
    var t := "+" + s;
    assert t[1..] == s && DigitRun(s) == 1;
    assert s[2..] == "+3" && DigitRun("+3") == 0;
    assert NumberLength(s) == 2 && t[1..3] == "5.";
    assert Operands(s)[0] == "5.";
  }

  /** An empty display throws: the operand scan of `"+"` is `null`. */
  lemma EmptyInputExample()
    ensures Evaluation("") == Thrown
  {
    assert Operands("") == [];
  }

  /** `"5+"`: a trailing operator leaves one operand too few. */
  lemma TrailingOperatorExample()
    ensures Evaluation("5+") == Malformed
  {
    assert ContainsOperatorChar("5+") by {
      assert IsOperatorChar("5+"[1]);
    }
    assert Operators("5+") == [Add];
    assert ("+" + "5+")[1..] == "5+";
    assert NumberLength("5+") == 1;
    assert ("+" + "5+")[1..2] == "5";
    assert ("+" + "5+")[2..] == "+";
    assert ScanOperands("+") == [];
    assert Operands("5+") == ["5"];
  }
}
