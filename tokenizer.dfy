/**
 * The tokenizer of `evaluateInput`: it splits the typed expression into
 * the operand texts (`numList`) and the operators (`opsList`), and reads an
 * operand text as a number the way `parseFloat` does.
 */
module Tokenizer {
  import opened Symbols

  // ---------------------------------------------------------------------
  // Operands
  // ---------------------------------------------------------------------

  /**
   * The length of the number `-?digits(.digits*)?` that `u` starts with,
   * or 0 when no number starts there. A `-` belongs to the number only
   * when a digit follows it.
   */
  function NumberLength(u: string): (n: nat)
    ensures n <= |u|
  {
    if |u| > 0 && u[0] == '-' then
      var m := UnsignedLength(u[1..]);
      if m == 0 then 0 else m + 1
    else UnsignedLength(u)
  }

  /** The length of the unsigned number `digits(.digits*)?` that `v` starts with, or 0. */
  function UnsignedLength(v: string): (m: nat)
    ensures m <= |v|
  {
    var w := DigitRun(v);
    if w == 0 then 0
    else if w < |v| && v[w] == '.' then w + 1 + DigitRun(v[w + 1..])
    else w
  }


  /**
   * Scans `t` from the left for a delimiter (one of `+ - * /`) followed by
   * a number, and collects those numbers, without the delimiter, in order.
   * Matches do not overlap: scanning resumes after the number.
   */
  function ScanOperands(t: string): seq<string>
    decreases |t|
  {
    if |t| < 2 then []
    else if IsOperatorChar(t[0]) then
      var n := NumberLength(t[1..]);
      if n > 0 then [t[1..1 + n]] + ScanOperands(t[1 + n..]) else ScanOperands(t[1..])
    else ScanOperands(t[1..])
  }

  /** The operand list: the input is prefixed with `+` so that the first number has a delimiter too. */
  function Operands(s: string): seq<string> {
    ScanOperands("+" + s)
  }

  // ---------------------------------------------------------------------
  // Operators
  // ---------------------------------------------------------------------

  /** Every operator character that directly follows a digit, in order. */
  function OperatorsAfterDigits(s: string): seq<Op>
    decreases |s|
  {
    if |s| < 2 then [] else OperatorBetween(s[0], s[1]) + OperatorsAfterDigits(s[1..])
  }

  /** The operator `b` stands for when it directly follows the digit `a`, if any. */
  function OperatorBetween(a: char, b: char): seq<Op> {
    if IsDigit(a) && IsOperatorChar(b) then [OpOf(b)] else []
  }

  /** The operator list; a leading `-` is cut off first, as the sign of the first operand. */
  function Operators(s: string): seq<Op> {
    if |s| > 0 && s[0] == '-' then OperatorsAfterDigits(s[1..]) else OperatorsAfterDigits(s)
  }

  predicate ContainsOperatorChar(s: string) {
    exists k | 0 <= k < |s| :: IsOperatorChar(s[k])
  }

  /**
   * Whether a point directly follows a digit. The lookbehind class `[*+-/]`
   * is the character range from `*` to `/`, so the source's operator scan
   * collects such a point as well; when that point is all it finds, the scan
   * is not empty and nothing throws.
   */
  predicate PointAfterDigit(s: string) {
    exists k | 1 <= k < |s| :: IsDigit(s[k - 1]) && s[k] == '.'
  }

  // ---------------------------------------------------------------------
  // Reading an operand as a number
  // ---------------------------------------------------------------------

  function DigitValue(c: char): nat
    requires IsDigit(c)
  {
    (c as int - '0' as int) as nat
  }

  /** The value of a digit string read as a whole number, most significant digit first. */
  function WholeValue(d: string): nat
    requires AllDigits(d)
    decreases |d|
  {
    if |d| == 0 then 0 else 10 * WholeValue(d[..|d| - 1]) + DigitValue(d[|d| - 1])
  }

  /** The value of the digits after a decimal point. */
  function FractionValue(d: string): real
    requires AllDigits(d)
    decreases |d|
  {
    if |d| == 0 then 0.0 else (DigitValue(d[0]) as real + FractionValue(d[1..])) / 10.0
  }

  /**
   * The longest prefix of `tok` of the form `-?digits(.digits*)?`, read as
   * a number; the rest of `tok` is ignored. Operand texts always start with
   * a number, so the not-a-number case of `parseFloat` does not arise.
   */
  function ParseFloat(tok: string): real {
    if |tok| > 0 && tok[0] == '-' then -UnsignedValue(tok[1..]) else UnsignedValue(tok)
  }

  /** The value of the unsigned number `digits(.digits*)?` that `v` starts with. */
  function UnsignedValue(v: string): real {
    var w := DigitRun(v);
    DigitRunIsMaximal(v);
    var rest := v[w..];
    var fraction := if |rest| > 0 && rest[0] == '.' then DigitRunIsMaximal(rest[1..]); rest[1..][..DigitRun(rest[1..])] else "";
    WholeValue(v[..w]) as real + FractionValue(fraction)
  }


  // ---------------------------------------------------------------------
  // Well-formed expressions as the keypad types them
  // ---------------------------------------------------------------------

  /** A number as typed: an optional sign, digits, and digits after a point (none: no point). */
  datatype Literal = Literal(negative: bool, whole: string, fraction: string)

  predicate ValidLiteral(l: Literal) {
    |l.whole| > 0 && AllDigits(l.whole) && AllDigits(l.fraction)
  }

  function Text(l: Literal): string {
    (if l.negative then "-" else "") + l.whole + (if l.fraction == "" then "" else "." + l.fraction)
  }

  function LiteralValue(l: Literal): real
    requires ValidLiteral(l)
  {
    var magnitude := WholeValue(l.whole) as real + FractionValue(l.fraction);
    if l.negative then -magnitude else magnitude
  }

  /** An operator followed by its right-hand number. */
  datatype Term = Term(op: Op, operand: Literal)

  /** `first op1 n1 op2 n2 ...`, each number possibly negative. */
  datatype Expression = Expression(first: Literal, rest: seq<Term>)

  predicate ValidTerms(rest: seq<Term>) {
    forall k | 0 <= k < |rest| :: ValidLiteral(rest[k].operand)
  }

  predicate ValidExpression(e: Expression) {
    ValidLiteral(e.first) && ValidTerms(e.rest)
  }

  function RenderTerms(rest: seq<Term>): string
    decreases |rest|
  {
    if rest == [] then "" else [CharOf(rest[0].op)] + Text(rest[0].operand) + RenderTerms(rest[1..])
  }

  /** The display text of an expression. */
  function Render(e: Expression): string {
    Text(e.first) + RenderTerms(e.rest)
  }

  function TermTexts(rest: seq<Term>): (r: seq<string>)
    ensures |r| == |rest|
    decreases |rest|
  {
    if rest == [] then [] else [Text(rest[0].operand)] + TermTexts(rest[1..])
  }

  function TermOps(rest: seq<Term>): (r: seq<Op>)
    ensures |r| == |rest|
    ensures forall k | 0 <= k < |rest| :: r[k] == rest[k].op
    decreases |rest|
  {
    if rest == [] then [] else [rest[0].op] + TermOps(rest[1..])
  }

  // ---------------------------------------------------------------------
  // Lemmas
  // ---------------------------------------------------------------------

  lemma {:induction false} TextShape(l: Literal)
    requires ValidLiteral(l)
    ensures NumberShaped(Text(l))
    ensures IsDigit(Text(l)[0]) || Text(l)[0] == '-'
  {
  }

  /** The number at the start of `Text(l) + rest` is exactly `Text(l)` when an operator or nothing follows. */
  lemma {:induction false} NumberLengthOfText(l: Literal, rest: string)
    requires ValidLiteral(l)
    requires |rest| == 0 || IsOperatorChar(rest[0])
    ensures NumberLength(Text(l) + rest) == |Text(l)|
  {
    var sgn: string := if l.negative then "-" else "";
    var body := if l.fraction == "" then l.whole + rest else l.whole + ("." + l.fraction + rest);
    assert Text(l) + rest == sgn + body by {
      if l.fraction == "" {
        assert Text(l) == sgn + l.whole;
      } else {
        assert Text(l) == sgn + l.whole + ("." + l.fraction);
      }
    }
    assert UnsignedLength(body) == |Text(l)| - |sgn| by {
      if l.fraction == "" {
        UnsignedLengthWhole(l.whole, rest);
      } else {
        UnsignedLengthPoint(l.whole, l.fraction, rest);
      }
    }
    assert body[0] == l.whole[0];
    SignedLength(body);
    if l.negative {
      assert Text(l) + rest == "-" + body;
    } else {
      assert Text(l) + rest == body;
    }
  }

  lemma {:induction false} UnsignedLengthWhole(whole: string, rest: string)
    requires |whole| > 0 && AllDigits(whole)
    requires |rest| == 0 || IsOperatorChar(rest[0])
    ensures UnsignedLength(whole + rest) == |whole|
  {
    var v := whole + rest;
    DigitRunOf(whole, rest);
    if |whole| < |v| {
      assert v[|whole|] == rest[0];
    }
  }

  lemma {:induction false} UnsignedLengthPoint(whole: string, fraction: string, rest: string)
    requires |whole| > 0 && AllDigits(whole) && AllDigits(fraction)
    requires |rest| == 0 || IsOperatorChar(rest[0])
    ensures UnsignedLength(whole + ("." + fraction + rest)) == |whole| + 1 + |fraction|
  {
    var tail := "." + fraction + rest;
    var v := whole + tail;
    DigitRunOf(whole, tail);
    assert v[|whole|] == '.';
    assert v[|whole| + 1..] == fraction + rest;
    DigitRunOf(fraction, rest);
  }

  /** A number that starts with a digit; a sign in front of it lengthens it by one. */
  lemma {:induction false} SignedLength(v: string)
    requires |v| > 0 && IsDigit(v[0])
    ensures UnsignedLength(v) > 0
    ensures NumberLength(v) == UnsignedLength(v)
    ensures NumberLength("-" + v) == UnsignedLength(v) + 1
  {
    assert ("-" + v)[1..] == v;
    assert DigitRun(v) > 0;
  }

  /** The scan reads a delimiter and the literal after it as one operand. */
  lemma {:induction false} ScanLiteral(c: char, l: Literal, rest: string)
    requires IsOperatorChar(c) && ValidLiteral(l)
    requires |rest| == 0 || IsOperatorChar(rest[0])
    ensures ScanOperands([c] + Text(l) + rest) == [Text(l)] + ScanOperands(rest)
  {
    var t := [c] + Text(l) + rest;
    assert t[1..] == Text(l) + rest;
    NumberLengthOfText(l, rest);
    TextShape(l);
    assert t[1..1 + |Text(l)|] == Text(l);
    assert t[1 + |Text(l)|..] == rest;
  }

  lemma {:induction false} ScanTerms(rest: seq<Term>)
    requires ValidTerms(rest)
    ensures ScanOperands(RenderTerms(rest)) == TermTexts(rest)
    decreases |rest|
  {
    if rest != [] {
      var tail := RenderTerms(rest[1..]);
      ValidTermsTail(rest);
      assert |tail| == 0 || IsOperatorChar(tail[0]);
      ScanLiteral(CharOf(rest[0].op), rest[0].operand, tail);
      ScanTerms(rest[1..]);
    }
  }

  /** Splitting a string splits its operators, plus the one that may sit on the seam. */
  lemma {:induction false} OperatorsAfterDigitsConcat(x: string, y: string)
    requires |x| > 0 && |y| > 0
    ensures OperatorsAfterDigits(x + y) ==
      OperatorsAfterDigits(x) + OperatorBetween(x[|x| - 1], y[0]) + OperatorsAfterDigits(y)
    decreases |x|
  {
    var seam := OperatorBetween(x[|x| - 1], y[0]);
    var xy := x + y;
    assert xy[0] == x[0];
    if |x| == 1 {
      assert xy[1] == y[0];
      assert xy[1..] == y;
      assert OperatorsAfterDigits(xy) == seam + OperatorsAfterDigits(y);
    } else {
      var a := OperatorsAfterDigits(x[1..]);
      var b := OperatorsAfterDigits(y);
      assert x[1..][|x| - 2] == x[|x| - 1];
      OperatorsAfterDigitsConcat(x[1..], y);
      assert xy[1..] == x[1..] + y;
      assert xy[1] == x[1];
      assert OperatorsAfterDigits(xy) == OperatorBetween(x[0], x[1]) + (a + seam + b);
      assert OperatorsAfterDigits(x) == OperatorBetween(x[0], x[1]) + a;
    }
  }



  lemma {:induction false} NoOperatorsAfterFirst(s: string)
    requires forall k | 1 <= k < |s| :: !IsOperatorChar(s[k])
    ensures OperatorsAfterDigits(s) == []
    decreases |s|
  {
    if |s| >= 2 {
      NoOperatorsAfterFirst(s[1..]);
    }
  }

  /** What the operator scan needs to know of a number's text. */
  predicate NumberShaped(t: string) {
    && |t| > 0
    && IsDigit(t[|t| - 1])
    && forall k | 1 <= k < |t| :: !IsOperatorChar(t[k])
  }

  /** Past a number, an operator character counts as an operator and the scan starts afresh. */
  lemma {:induction false} OperatorAfterNumber(t: string, c: char, z: string)
    requires NumberShaped(t) && IsOperatorChar(c)
    ensures OperatorsAfterDigits(t + ([c] + z)) == [OpOf(c)] + OperatorsAfterDigits(z)
  {
    NoOperatorsAfterFirst(t);
    OperatorsAfterDigitsConcat(t, [c] + z);
    assert ([c] + z)[0] == c;
    assert ([c] + z)[1..] == z;
    assert OperatorsAfterDigits([c] + z) == OperatorsAfterDigits(z);
  }

  lemma ValidTermsTail(rest: seq<Term>)
    requires ValidTerms(rest) && rest != []
    ensures ValidLiteral(rest[0].operand) && ValidTerms(rest[1..])
  {
    forall k | 0 <= k < |rest[1..]| ensures ValidLiteral(rest[1..][k].operand) {
      assert rest[1..][k] == rest[k + 1];
    }
  }

  lemma {:induction false} OperatorsOfTerms(t: string, rest: seq<Term>)
    requires NumberShaped(t) && ValidTerms(rest)
    ensures OperatorsAfterDigits(t + RenderTerms(rest)) == TermOps(rest)
    decreases |rest|
  {
    if rest == [] {
      NoOperatorsAfterFirst(t);
      assert t + RenderTerms(rest) == t;
    } else {
      ValidTermsTail(rest);
      var c := CharOf(rest[0].op);
      var next := Text(rest[0].operand);
      var z := next + RenderTerms(rest[1..]);
      RenderTermsCons(rest);
      OperatorAfterNumber(t, c, z);
      TextShape(rest[0].operand);
      OperatorsOfTerms(next, rest[1..]);
      assert TermOps(rest) == [rest[0].op] + TermOps(rest[1..]);
    }
  }

  lemma RenderTermsCons(rest: seq<Term>)
    requires rest != []
    ensures RenderTerms(rest) == [CharOf(rest[0].op)] + (Text(rest[0].operand) + RenderTerms(rest[1..]))
  {
  }


  /**
   * Tokenizing a well-formed expression gives back its numbers and its
   * operators: the sign of a negative number, whether at the start or
   * right after an operator, stays with the number and is not an operator.
   */
  lemma {:induction false} TokenizeRender(e: Expression)
    requires ValidExpression(e)
    ensures Operands(Render(e)) == [Text(e.first)] + TermTexts(e.rest)
    ensures Operators(Render(e)) == TermOps(e.rest)
    ensures ContainsOperatorChar(Render(e)) <==> (e.rest != [] || e.first.negative)
  {
    TokenizeOperands(e);
    TokenizeOperators(e);
    RenderHasOperator(e);
  }

  lemma {:induction false} TokenizeOperands(e: Expression)
    requires ValidExpression(e)
    ensures Operands(Render(e)) == [Text(e.first)] + TermTexts(e.rest)
  {
    var tail := RenderTerms(e.rest);
    assert "+" + Render(e) == ['+'] + Text(e.first) + tail;
    assert |tail| == 0 || IsOperatorChar(tail[0]);
    ScanLiteral('+', e.first, tail);
    ScanTerms(e.rest);
  }

  lemma {:induction false} TokenizeOperators(e: Expression)
    requires ValidExpression(e)
    ensures Operators(Render(e)) == TermOps(e.rest)
  {
    var s := Render(e);
    TextShape(e.first);
    OperatorsOfTerms(Text(e.first), e.rest);
    if |s| > 0 && s[0] == '-' {
      assert s[0] == Text(e.first)[0];
      assert |Text(e.first)| >= 2;
      assert !IsDigit(s[0]);
      assert OperatorsAfterDigits(s) == OperatorsAfterDigits(s[1..]);
    }
  }

  lemma {:induction false} RenderHasOperator(e: Expression)
    requires ValidExpression(e)
    ensures ContainsOperatorChar(Render(e)) <==> (e.rest != [] || e.first.negative)
  {
    var s := Render(e);
    var t := Text(e.first);
    TextShape(e.first);
    if e.rest != [] {
      assert s[|t|] == CharOf(e.rest[0].op);
    } else {
      assert s == t;
      if e.first.negative {
        assert IsOperatorChar(s[0]);
      } else {
        assert IsDigit(s[0]);
      }
    }
  }


  /**
   * A leading `-` is the sign of the first operand: the operands are those
   * of the rest with the sign on the first one, and the operators are the same.
   */
  lemma {:induction false} LeadingMinus(t: string)
    requires |t| > 0 && IsDigit(t[0])
    ensures |Operands(t)| > 0
    ensures Operands("-" + t) == ["-" + Operands(t)[0]] + Operands(t)[1..]
    ensures Operators("-" + t) == Operators(t)
  {
    var n := NumberLength(t);
    var u := "-" + t;
    SignedLength(t);
    FirstOperand(t);
    FirstOperand(u);
    assert u[n + 1..] == t[n..];
    assert u[..n + 1] == "-" + t[..n];
    assert u[1..] == t;
  }

  /** The first operand is the number the text starts with. */
  lemma {:induction false} FirstOperand(t: string)
    requires NumberLength(t) > 0
    ensures var n := NumberLength(t);
      Operands(t) == [t[..n]] + ScanOperands(t[n..])
  {
    var n := NumberLength(t);
    var p := "+" + t;
    assert p[1..] == t;
    ScanAtDelimiter(p);
    assert p[1..1 + n] == t[..n];
    assert p[1 + n..] == t[n..];
  }

  /** A delimiter followed by a number yields that number as the next operand. */
  lemma ScanAtDelimiter(t: string)
    requires |t| >= 2 && IsOperatorChar(t[0]) && NumberLength(t[1..]) > 0
    ensures var n := NumberLength(t[1..]);
      ScanOperands(t) == [t[1..1 + n]] + ScanOperands(t[1 + n..])
  {
  }





  /** A `-` typed right after an operator adds no operator of its own: it is the sign of the next number. */
  lemma {:induction false} MinusAfterOperator(x: string, c: char, y: string)
    requires |x| > 0 && IsDigit(x[|x| - 1])
    requires IsOperatorChar(c)
    requires |y| > 0 && IsDigit(y[0])
    ensures OperatorsAfterDigits(x + [c, '-'] + y) == OperatorsAfterDigits(x) + [OpOf(c)] + OperatorsAfterDigits(y)
  {
    assert x + [c, '-'] + y == x + ([c] + (['-'] + y));
    OperatorsAfterDigitsConcat(x, [c] + (['-'] + y));
    var w := ['-'] + y;
    assert ([c] + w)[1..] == w;
    assert OperatorsAfterDigits([c] + w) == OperatorsAfterDigits(w);
    assert w[1..] == y;
    assert OperatorsAfterDigits(w) == OperatorsAfterDigits(y);
  }

  /** Reading a literal's text gives the literal's value. */
  lemma {:induction false} ParseFloatText(l: Literal)
    requires ValidLiteral(l)
    ensures ParseFloat(Text(l)) == LiteralValue(l)
  {
    var point: string := if l.fraction == "" then "" else "." + l.fraction;
    var body := l.whole + point;
    assert Text(l) == (if l.negative then "-" else "") + body;
    UnsignedValueOf(l.whole, l.fraction, point);
    assert body[0] == l.whole[0];
    ParseFloatSigned(l.negative, body);
  }

  lemma {:induction false} ParseFloatSigned(negative: bool, body: string)
    requires |body| > 0 && IsDigit(body[0])
    ensures ParseFloat((if negative then "-" else "") + body) ==
      if negative then -UnsignedValue(body) else UnsignedValue(body)
  {
    if negative {
      assert ("-" + body)[1..] == body;
    } else {
      assert "" + body == body;
    }
  }

  lemma {:induction false} UnsignedValueOf(whole: string, fraction: string, point: string)
    requires |whole| > 0 && AllDigits(whole) && AllDigits(fraction)
    requires point == if fraction == "" then "" else "." + fraction
    ensures UnsignedValue(whole + point) == WholeValue(whole) as real + FractionValue(fraction)
  {
    var v := whole + point;
    assert DigitRun(v) == |whole| by {
      DigitRunOf(whole, point);
    }
    assert v[..|whole|] == whole;
    var after := v[|whole|..];
    assert after == point;
    assert (if |after| > 0 && after[0] == '.' then after[1..][..DigitRun(after[1..])] else "") == fraction by {
      if fraction != "" {
        assert after[1..] == fraction;
        DigitRunOf(fraction, "");
        assert fraction + "" == fraction;
      }
    }
  }
}
