/**
 * The keypad handlers: the display text (`screen.textContent`) and the
 * flag `answerIsGiven` as the two fields of a calculator object, each
 * handler a method. The pressed button's text is passed in as `key`.
 */
module Keypad {
  import opened Symbols
  import opened Evaluator

  /** The display is full at this many characters (`screenIsFull`). */
  const DisplayWidth: nat := 13

  datatype Option<T> = None | Some(value: T)

  /** An alert shown instead of an answer. */
  datatype Alert = NoAlert | CheckOperatorSequence | CheckDivisionByZero

  predicate EndsWithOperator(s: string) {
    |s| > 0 && IsOperatorChar(s[|s| - 1])
  }

  /** The display ends in two operator characters (`/[\/\-+*]{2}$/`). */
  predicate EndsWithTwoOperators(s: string) {
    |s| >= 2 && IsOperatorChar(s[|s| - 1]) && IsOperatorChar(s[|s| - 2])
  }

  /** `changeSign` on a display that is neither full nor a shown answer. */
  function ToggleSign(s: string): (r: string)
    ensures |r| == |s| + 1 || |r| == |s| - 1
  {
    if |s| > 0 && s[0] == '-' then s[1..] else "-" + s
  }

  /** Toggling twice restores the display, unless it starts with `--`. */
  lemma ToggleSignTwice(s: string)
    requires !(|s| >= 2 && s[0] == '-' && s[1] == '-')
    ensures ToggleSign(ToggleSign(s)) == s
  {
    if |s| > 0 && s[0] == '-' {
      assert "-" + s[1..] == s;
    } else {
      assert ("-" + s)[1..] == s;
    }
  }

  /** An operator key on a display that is not full (`enterNum`, operator branch). */
  function AfterOperatorKey(s: string, key: char): (r: string)
    requires IsOperatorChar(key)
    ensures r == s || r == s + [key]
  {
    if !EndsWithOperator(s) || (key == '-' && !EndsWithTwoOperators(s)) then s + [key] else s
  }

  /** No three operator characters stand in a row. */
  predicate NoTripleOperator(s: string) {
    forall i | 0 <= i < |s| - 2 :: !(IsOperatorChar(s[i]) && IsOperatorChar(s[i + 1]) && IsOperatorChar(s[i + 2]))
  }

  /**
   * Operator entry never puts three operators in a row, and an operator
   * follows another only when it is a `-`.
   */
  lemma {:induction false} OperatorKeyRuns(s: string, key: char)
    requires IsOperatorChar(key) && NoTripleOperator(s)
    ensures NoTripleOperator(AfterOperatorKey(s, key))
    ensures AfterOperatorKey(s, key) != s && EndsWithOperator(s) ==> key == '-'
  {
    var r := AfterOperatorKey(s, key);
    if r != s {
      forall i | 0 <= i < |r| - 2
        ensures !(IsOperatorChar(r[i]) && IsOperatorChar(r[i + 1]) && IsOperatorChar(r[i + 2]))
      {
        if i + 2 < |s| {
          assert r[i] == s[i] && r[i + 1] == s[i + 1] && r[i + 2] == s[i + 2];
        } else {
          assert r[i] == s[|s| - 2] && r[i + 1] == s[|s| - 1];
        }
      }
    }
  }

  /** Appending a character that is not an operator keeps operator runs as they were. */
  lemma {:induction false} AppendNonOperator(s: string, c: char)
    requires !IsOperatorChar(c) && NoTripleOperator(s)
    ensures NoTripleOperator(s + [c])
  {
    var r := s + [c];
    forall i | 0 <= i < |r| - 2
      ensures !(IsOperatorChar(r[i]) && IsOperatorChar(r[i + 1]) && IsOperatorChar(r[i + 2]))
    {
      if i + 2 < |s| {
        assert r[i] == s[i] && r[i + 1] == s[i + 1] && r[i + 2] == s[i + 2];
      } else {
        assert r[i + 2] == c;
      }
    }
  }

  // ---------------------------------------------------------------------
  // The last number on the display
  // ---------------------------------------------------------------------

  /** `m` is `digits` or `digits.digits`. */
  predicate IsDecimal(m: string) {
    && |m| > 0 && IsDigit(m[0]) && IsDigit(m[|m| - 1])
    && (forall k | 0 <= k < |m| :: IsDigit(m[k]) || m[k] == '.')
    && (forall i, j | 0 <= i < j < |m| :: !(m[i] == '.' && m[j] == '.'))
  }

  /** The number of digits `s` ends with. */
  function TrailingDigits(s: string): (k: nat)
    ensures k <= |s|
    decreases |s|
  {
    if |s| == 0 || !IsDigit(s[|s| - 1]) then 0 else 1 + TrailingDigits(s[..|s| - 1])
  }

  /** The trailing run is all digits, and it is maximal. */
  lemma {:induction false} TrailingDigitsIsMaximal(s: string)
    ensures AllDigits(s[|s| - TrailingDigits(s)..])
    ensures TrailingDigits(s) == |s| || !IsDigit(s[|s| - TrailingDigits(s) - 1])
    decreases |s|
  {
    if |s| > 0 && IsDigit(s[|s| - 1]) {
      var init := s[..|s| - 1];
      TrailingDigitsIsMaximal(init);
      var k := TrailingDigits(init);
      var digits := init[|init| - k..];
      var run := s[|s| - 1 - k..];
      forall j | 0 <= j < k + 1 ensures IsDigit(run[j]) {
        if j < k {
          assert run[j] == digits[j];
        }
      }
      if k < |init| {
        assert s[|s| - 1 - k - 1] == init[|init| - k - 1];
      }
    }
  }

  /** The match of `/\d+(?:\.\d+)?$/` against the display, if any. */
  function LastNumber(s: string): Option<string> {
    var k := TrailingDigits(s);
    if k == 0 then None
    else
      var p := |s| - k;
      if p >= 2 && s[p - 1] == '.' && IsDigit(s[p - 2]) then
        var k2 := TrailingDigits(s[..p - 1]);
        Some(s[p - 1 - k2..])
      else Some(s[p..])
  }

  /** A point may be typed when the display ends in a number that has no point yet. */
  predicate CanTakePoint(s: string) {
    var last := LastNumber(s);
    last.Some? && '.' !in last.value
  }

  lemma DecimalOfDigits(a: string)
    requires |a| > 0 && AllDigits(a)
    ensures IsDecimal(a)
  {
  }

  lemma {:induction false} DecimalWithPoint(a: string, b: string)
    requires |a| > 0 && |b| > 0 && AllDigits(a) && AllDigits(b)
    ensures IsDecimal(a + "." + b)
  {
    var m := a + "." + b;
    forall k | 0 <= k < |m| ensures (IsDigit(m[k]) || m[k] == '.') && (m[k] == '.' ==> k == |a|) {
      if k < |a| {
        assert m[k] == a[k];
      } else if k > |a| {
        assert m[k] == b[k - |a| - 1];
      }
    }
    assert m[|m| - 1] == b[|b| - 1];
  }

  lemma NotDecimalAt(m: string, j: nat)
    requires j < |m| && !IsDigit(m[j]) && m[j] != '.'
    ensures !IsDecimal(m)
  {
  }

  lemma NotDecimalTwoPoints(m: string, i: nat, j: nat)
    requires i < j < |m| && m[i] == '.' && m[j] == '.'
    ensures !IsDecimal(m)
  {
  }

  /** With no digit at the end, no suffix is a number. */
  lemma {:induction false} NoTrailingNumber(s: string)
    requires TrailingDigits(s) == 0
    ensures forall p | 0 <= p <= |s| :: !IsDecimal(s[p..])
  {
    forall p | 0 <= p <= |s| ensures !IsDecimal(s[p..]) {
      if p < |s| {
        assert s[p..][|s| - p - 1] == s[|s| - 1];
      }
    }
  }

  /** Trailing digits not preceded by `digit.` are the whole match. */
  lemma {:induction false} WholeNumberMatch(s: string, p: nat)
    requires 0 < TrailingDigits(s) && p == |s| - TrailingDigits(s)
    requires !(p >= 2 && s[p - 1] == '.' && IsDigit(s[p - 2]))
    ensures IsDecimal(s[p..])
    ensures forall q | 0 <= q < p :: !IsDecimal(s[q..])
  {
    TrailingDigitsIsMaximal(s);
    DecimalOfDigits(s[p..]);
    forall q | 0 <= q < p ensures !IsDecimal(s[q..]) {
      var t := s[q..];
      assert t[p - 1 - q] == s[p - 1];
      if s[p - 1] != '.' {
        NotDecimalAt(t, p - 1 - q);
      } else if q == p - 1 {
        assert !IsDigit(t[0]);
      } else {
        assert t[p - 2 - q] == s[p - 2];
        if s[p - 2] == '.' {
          NotDecimalTwoPoints(t, p - 2 - q, p - 1 - q);
        } else {
          NotDecimalAt(t, p - 2 - q);
        }
      }
    }
  }

  /** Trailing digits preceded by `digits.` form a number together with them. */
  lemma {:induction false} FractionalNumberShape(s: string, p: nat, start: nat)
    requires 0 < TrailingDigits(s) && p == |s| - TrailingDigits(s)
    requires p >= 2 && s[p - 1] == '.' && IsDigit(s[p - 2])
    requires start == p - 1 - TrailingDigits(s[..p - 1])
    ensures IsDecimal(s[start..])
  {
    var init := s[..p - 1];
    TrailingDigitsIsMaximal(s);
    TrailingDigitsIsMaximal(init);
    assert init[|init| - 1] == s[p - 2];
    var a := init[start..];
    var b := s[p..];
    assert s[start..] == a + "." + b;
    DecimalWithPoint(a, b);
  }

  /** No longer suffix than `digits.digits` is a number. */
  lemma {:induction false} FractionalNumberLeftmost(s: string, p: nat, start: nat)
    requires 0 < TrailingDigits(s) && p == |s| - TrailingDigits(s)
    requires p >= 2 && s[p - 1] == '.' && IsDigit(s[p - 2])
    requires start == p - 1 - TrailingDigits(s[..p - 1])
    ensures forall q | 0 <= q < start :: !IsDecimal(s[q..])
  {
    var init := s[..p - 1];
    TrailingDigitsIsMaximal(init);
    forall q | 0 <= q < start ensures !IsDecimal(s[q..]) {
      var t := s[q..];
      var c := start - 1;
      assert init[c] == s[c];
      assert t[c - q] == s[c];
      assert t[p - 1 - q] == s[p - 1];
      if s[c] == '.' {
        NotDecimalTwoPoints(t, c - q, p - 1 - q);
      } else {
        NotDecimalAt(t, c - q);
      }
    }
  }

  /**
   * `LastNumber` is the regular expression's match: the longest suffix of
   * the display of the form `digits` or `digits.digits`, and nothing when
   * no suffix has that form.
   */
  lemma {:induction false} LastNumberMatches(s: string)
    ensures LastNumber(s).None? <==> forall p | 0 <= p <= |s| :: !IsDecimal(s[p..])
    ensures LastNumber(s).Some? ==>
      var m := LastNumber(s).value;
      && |m| <= |s| && m == s[|s| - |m|..] && IsDecimal(m)
      && forall p | 0 <= p < |s| - |m| :: !IsDecimal(s[p..])
  {
    var k := TrailingDigits(s);
    if k == 0 {
      NoTrailingNumber(s);
    } else {
      var start := LastNumberStart(s);
      assert LastNumber(s) == Some(s[start..]);
      assert |s[start..]| == |s| - start;
    }
  }

  /** Where the match starts when the display ends in a digit. */
  lemma {:induction false} LastNumberStart(s: string) returns (start: nat)
    requires TrailingDigits(s) > 0
    ensures start <= |s| && LastNumber(s) == Some(s[start..])
    ensures IsDecimal(s[start..])
    ensures forall q | 0 <= q < start :: !IsDecimal(s[q..])
  {
    var p := |s| - TrailingDigits(s);
    if p >= 2 && s[p - 1] == '.' && IsDigit(s[p - 2]) {
      start := p - 1 - TrailingDigits(s[..p - 1]);
      FractionalNumberShape(s, p, start);
      FractionalNumberLeftmost(s, p, start);
    } else {
      start := p;
      WholeNumberMatch(s, p);
    }
  }

  /** A cleared display `0` takes a point. */
  lemma ZeroTakesPoint()
    ensures LastNumber("0") == Some("0")
    ensures CanTakePoint("0")
  {
    assert "0"[..0] == "";
    assert TrailingDigits("") == 0;
    assert TrailingDigits("0") == 1;
    assert "0"[0..] == "0";
  }

  /**
   * What `getAnswer` alerts for an evaluation result; a result of 0 is falsy
   * and reads as an error. An evaluation that throws ends `getAnswer` before
   * any alert.
   */
  function AlertFor(r: EvalResult): Alert {
    match r
    case Unreduced(_) => NoAlert
    case Reduced(v) => if v == 0.0 then CheckOperatorSequence else NoAlert
    case DivisionByZero => CheckDivisionByZero
    case Thrown => NoAlert
    case Malformed => CheckOperatorSequence
  }

  /** The text `getAnswer` puts on the display; `render` is the number-to-text conversion. */
  function Shown(r: EvalResult, render: real -> string): string
    requires r.Unreduced? || r.Reduced?
  {
    if r.Unreduced? then r.operand else render(r.value)
  }

  class Calculator {
    var screen: string
    var answerIsGiven: bool

    constructor ()
      ensures screen == "0" && !answerIsGiven
    {
      screen := "0";
      answerIsGiven := false;
    }

    predicate ScreenIsFull()
      reads this
    {
      |screen| == DisplayWidth
    }

    /** The display holds no more characters than it can show. */
    ghost predicate WithinWidth()
      reads this
    {
      |screen| <= DisplayWidth
    }

    /** `clearScreen`. */
    method ClearScreen()
      modifies this
      ensures screen == "0" && !answerIsGiven
    {
      screen := "0";
      answerIsGiven := false;
    }

    /** `clearBack`: drop the last character, or clear a shown answer. */
    method ClearBack()
      modifies this
      ensures !answerIsGiven
      ensures screen == if old(answerIsGiven) || |old(screen)| <= 1 then "0" else old(screen)[..|old(screen)| - 1]
      ensures old(WithinWidth()) ==> WithinWidth()
    {
      if answerIsGiven {
        ClearScreen();
        answerIsGiven := false;
        return;
      }
      var screenContent := screen;
      if |screenContent| > 1 {
        screen := screen[..|screen| - 1];
      } else {
        screen := "0";
      }
    }

    /** `changeSign`: toggle a `-` in front of the display, or clear a shown answer. */
    method ChangeSign()
      modifies this
      ensures old(ScreenIsFull()) ==> screen == old(screen) && answerIsGiven == old(answerIsGiven)
      ensures !old(ScreenIsFull()) ==> !answerIsGiven
      ensures !old(ScreenIsFull()) ==>
        screen == if old(answerIsGiven) then "0" else ToggleSign(old(screen))
      ensures old(WithinWidth()) ==> WithinWidth()
    {
      if ScreenIsFull() {
        return;
      }
      if answerIsGiven {
        ClearScreen();
        answerIsGiven := false;
        return;
      }
      var screenContent := screen;
      screen := ToggleSign(screenContent);
    }

    /** `enterNum`: a digit, an operator or the point pressed. */
    method EnterNum(key: char)
      modifies this
      ensures old(ScreenIsFull()) ==> screen == old(screen) && answerIsGiven == old(answerIsGiven)
      ensures !old(ScreenIsFull()) ==> !answerIsGiven
      ensures !old(ScreenIsFull()) && IsDigit(key) ==>
        screen == if old(answerIsGiven) || old(screen) == "0" then [key] else old(screen) + [key]
      ensures !old(ScreenIsFull()) && IsOperatorChar(key) ==>
        screen == AfterOperatorKey(old(screen), key)
      ensures old(NoTripleOperator(screen)) ==> NoTripleOperator(screen)
      ensures !old(ScreenIsFull()) && !IsDigit(key) && !IsOperatorChar(key) ==>
        screen == if old(answerIsGiven) then "0" + [key]
                  else if CanTakePoint(old(screen)) then old(screen) + [key] else old(screen)
      ensures old(WithinWidth()) ==> WithinWidth()
    {
      if ScreenIsFull() {
        return;
      }
      var screenContent := screen;
      if IsDigit(key) {
        if answerIsGiven {
          screenContent := "0";
          answerIsGiven := false;
        }
        if screenContent != "0" && NoTripleOperator(screenContent) {
          AppendNonOperator(screenContent, key);
        }
        screen := if screenContent == "0" then [key] else screenContent + [key];
      } else if IsOperatorChar(key) {
        if NoTripleOperator(screenContent) {
          OperatorKeyRuns(screenContent, key);
        }
        answerIsGiven := false;
        if !EndsWithOperator(screenContent) {
          screen := screenContent + [key];
        } else if key == '-' && !EndsWithTwoOperators(screenContent) {
          screen := screenContent + [key];
        }
      } else {
        if answerIsGiven {
          screenContent := "0";
          answerIsGiven := false;
          ZeroTakesPoint();
        }
        // Without a number at the end the source throws before changing
        // anything; the display stays as it is.
        var lastInput := LastNumber(screenContent);
        if lastInput.Some? && '.' !in lastInput.value {
          if NoTripleOperator(screenContent) {
            AppendNonOperator(screenContent, key);
          }
          screen := screenContent + [key];
        }
      }
    }

    /**
     * `getAnswer`: evaluate the display and show the result, or alert. An
     * evaluation that throws leaves everything as it was, with no alert.
     */
    method GetAnswer(render: real -> string) returns (alert: Alert)
      modifies this
      ensures alert == AlertFor(Evaluation(old(screen)))
      ensures alert != NoAlert || Evaluation(old(screen)).Thrown? ==>
        screen == old(screen) && answerIsGiven == old(answerIsGiven)
      ensures alert == NoAlert && !Evaluation(old(screen)).Thrown? ==>
        answerIsGiven && screen == Shown(Evaluation(old(screen)), render)
    {
      var result := EvaluateInput(screen);
      alert := AlertFor(result);
      if alert != NoAlert || result.Thrown? {
        return;
      }
      screen := Shown(result, render);
      answerIsGiven := true;
    }
  }
}
