# Web calculator: a verified model of the evaluator and the keypad

The calculator in `script.js` keeps two pieces of state: the display text
and a flag that says whether the display shows an answer. Keypad handlers
edit that text. The `=` handler passes it to `evaluateInput`, which works in
three steps:

1. Tokenize the text into an operand list `numList` and an operator list
   `opsList`.
2. Reduce the two lists in place with four passes: all `*`, then all `/`,
   then all `+`, then all `-`.
3. Return the one operand that is left.

This project models that core in Dafny and proves what it does.

- `symbols.dfy` (module `Symbols`): the keypad characters, the four
  operators, and the digit-run scan that the patterns `\d+` use.
- `tokenizer.dfy` (module `Tokenizer`): the tokenizer as an explicit
  left-to-right scanner, plus `parseFloat` over exact reals. A well-formed
  expression (`Expression`, a first number followed by operator/number
  terms) is rendered to text and tokenized back, and the result is proved
  to be its numbers and its operators.
- `reducer.dfy` (module `Reducer`): the four `handle*` passes.
  - `Lists` is a class whose `seq` fields the `while` loop of `HandlePass`
    splices in place, as the source does.
  - The loop is proved against the function `Pass`.
  - `Pass` is proved equal to an independent one-scan definition
    (`Collapse`), to a left fold when all operators are equal, and to full
    reduction when run in the source's order.
- `evaluator.dfy` (module `Evaluator`): `evaluateInput` as a specification
  function, `Evaluation`, and as a method that builds a `Lists` object and
  reduces it. It also holds concrete evaluations that show the pass order.
- `keypad.dfy` (module `Keypad`): the class `Calculator`, with the display
  string and the `answerIsGiven` flag as fields. Its methods are
  `clearScreen`, `clearBack`, `changeSign`, `enterNum` and `getAnswer`.

The pressed button's text is an argument of `EnterNum`. The conversion of a
result number to text is an argument of `GetAnswer`. `GetAnswer` returns the
alert that the source would show. When `evaluateInput` throws a TypeError
(a regular-expression scan that finds nothing gives `null`), `getAnswer`
stops before any alert, and the model gives no alert and leaves the state
unchanged.

The doc comment of `evaluateInput` (script.js:141-143) says it evaluates
the expression "taking operators precedence into consideration". The code
does not give the usual precedence, where `*` and `/` bind alike and are
applied left to right, and so are `+` and `-`. It runs the `/` pass after
the whole `*` pass, and the `-` pass after the whole `+` pass. This model
follows the code:

- `"8/2*4"` evaluates to 1, not 16.
- `"10-2+3"` evaluates to 5, not 11.
- The two groupings coincide when no `*` comes after a `/` within a run of
  `*` and `/`, and no `+` comes after a `-` anywhere in the input
  (`"2+3*4"` is 14, `"9-2-3"` is 4).

## Model

| member | source | states |
|---|---|---|
| Symbols.CharOf | script.js:103 | every operator has a key character, and reading that character gives the operator back |
| Symbols.DigitRunIsMaximal | script.js:150 | the digit run at the start of a string is all digits and is followed by the end or by a non-digit (greedy `\d+`) |
| Symbols.DigitRunOf | script.js:150 | a digit string followed by the end or by a non-digit is read as one run of exactly its length |
| Tokenizer.NumberLengthOfText | script.js:150 | the operand pattern, applied to a number's text followed by an operator or by the end, matches exactly that text |
| Tokenizer.ScanLiteral | script.js:150-151 | a delimiter followed by a number yields that number, without the delimiter, as the next operand, and the scan resumes after it |
| Tokenizer.ScanTerms | script.js:150-152 | scanning the text of `op number op number ...` yields the numbers in order |
| Tokenizer.FirstOperand | script.js:150-151 | the `+` put in front of the input makes the number at the start of the input the first operand |
| Tokenizer.OperatorsAfterDigitsConcat | script.js:159-160 | the lookbehind operator scan of `x + y` is the scan of `x`, then the operator on the seam if `x` ends in a digit, then the scan of `y` |
| Tokenizer.OperatorAfterNumber | script.js:159-160 | after a number, an operator character is collected as an operator and the scan starts afresh behind it |
| Tokenizer.OperatorsOfTerms | script.js:159-160 | scanning `number op number op ...` for operators after digits yields exactly the operators, in order |
| Tokenizer.TokenizeOperands | script.js:149-152 | the operand list of an expression's text is the texts of its numbers, in order, signs included |
| Tokenizer.TokenizeOperators | script.js:157-160 | the operator list of an expression's text is its operators, in order; a leading `-` and a `-` right after an operator are signs, not operators |
| Tokenizer.RenderHasOperator | script.js:157 | an expression's text contains an operator character exactly when it has an operator or its first number is negative |
| Tokenizer.TokenizeRender | script.js:149-160 | tokenizing the text of any well-formed expression gives back its numbers and its operators |
| Tokenizer.LeadingMinus | script.js:158-159 | a leading `-` attaches to the first operand and leaves the operator list unchanged |
| Tokenizer.MinusAfterOperator | script.js:159-160 | a `-` typed right after an operator adds no operator; only the operator before it counts |
| Tokenizer.UnsignedValueOf | script.js:199 | `parseFloat` of `digits` or `digits.digits` is the whole part plus the fraction |
| Tokenizer.ParseFloatText | script.js:199 | `parseFloat` of a number's text is that number's value |
| Reducer.IndexOf | script.js:241 | `indexOf` gives a position holding the operator with no earlier occurrence of it |
| Reducer.StepAt | script.js:241-246 | one step at i: operators and operands before i unchanged, operand i is the combination of operands i and i+1 by operator i, everything after shifted down by one, the length invariant kept |
| Reducer.SpliceIsStep | script.js:242-246 | the source's two splices and its overwrite of the left-hand slot give exactly one step at the spliced index |
| Reducer.Pass | script.js:239-248 | a pass keeps the length invariant, ends with its operator absent and never lengthens the operator list |
| Reducer.PassIsCollapse | script.js:239-248 | a pass equals one left-to-right scan that folds every run joined by the pass's operator into one operand |
| Reducer.PassKeepsOtherOperators | script.js:240-242 | a pass removes exactly its own operator and keeps the other operators in their order |
| Reducer.PassLeftFold | script.js:193-199 | if every operator is the pass's operator, the pass leaves one operand, the left fold ((n0 op n1) op n2) ... |
| Reducer.FullReduction | script.js:164-173 | the four passes in the order `*`, `/`, `+`, `-` leave no operator and exactly one operand |
| Reducer.MultiplicationPassFirst | script.js:164-167 | the lists of `8 / 2 * 4` reduce to 1: the `*` pass runs before the `/` pass |
| Reducer.AdditionPassFirst | script.js:168-171 | the lists of `10 - 2 + 3` reduce to 5: the `+` pass runs before the `-` pass |
| Reducer.MultiplicationBeforeAdditionPass | script.js:164-169 | the lists of `2 + 3 * 4` reduce to 14 |
| Reducer.SubtractionPassLeftToRight | script.js:192-200 | the lists of `9 - 2 - 3` reduce to 4: within one pass the leftmost operator goes first |
| Reducer.Lists.HandlePass | script.js:239-248 | the in-place `while` loop leaves the lists equal to the pass applied to the old lists, with the length invariant and the operator absent |
| Reducer.Lists.Reduce | script.js:164-171 | the four in-place passes leave one operand and no operator, equal to the four passes applied to the old lists |
| Evaluator.EvaluateInput | script.js:146-173 | the method computes `Evaluation`. A number or a division by zero comes back only when the input has an operator character and one more operand than operators. The first operand comes back unreduced only when there is no operator character or the operator scan finds no operator. A throw happens only when there is no operand, or there is an operator character but no operator after a digit. |
| Evaluator.EvaluationOfExpression | script.js:149-173 | evaluating a well-formed expression's text gives the one operand the four passes leave of its values and operators |
| Evaluator.SingleOperand | script.js:150-162 | a number typed alone comes back unreduced, as its text. The exception is a negative whole number: its operator scan is `null`, and the input throws. A negative decimal comes back as typed. |
| Evaluator.MultiplicationBeforeDivision | script.js:164-167 | `"8/2*4"` evaluates to 1 |
| Evaluator.AdditionBeforeSubtraction | script.js:168-171 | `"10-2+3"` evaluates to 5 |
| Evaluator.MultiplicationBeforeAddition | script.js:164-169 | `"2+3*4"` evaluates to 14 |
| Evaluator.SubtractionLeftToRight | script.js:192-200 | `"9-2-3"` evaluates to 4 |
| Evaluator.LeadingNegativeOperand | script.js:158-159 | `"-5+3"` evaluates to -2 |
| Evaluator.DecimalOperand | script.js:150 | `"1.5*2"` evaluates to 3 |
| Evaluator.DivisionByZeroExample | script.js:223-231 | `"4/0"` is a division by zero |
| Evaluator.SingleDigitExample | script.js:161-162 | `"7"` comes back unreduced as `"7"` |
| Evaluator.TrailingOperatorExample | script.js:208-216 | `"5+"` has one operand too few and is rejected |
| Evaluator.NegativeDecimalExample | script.js:157-162 | `"-1.5"` comes back as typed, because the operator scan catches its point |
| Evaluator.NegativeWholeExample | script.js:157-159 | `"-5"` throws, because the operator scan of `"5"` is `null` |
| Evaluator.EmptyInputExample | script.js:150 | an empty input throws, because the operand scan of `"+"` is `null` |
| Evaluator.PointBeforeOperatorExample | script.js:150-162 | `"5.+3"` comes back as `5.`, because the operator scan catches only the point after the `5` |
| Keypad.ToggleSignTwice | script.js:49-50 | toggling the sign twice restores the display, unless it starts with `--` |
| Keypad.OperatorKeyRuns | script.js:119-126 | operator entry never puts three operators in a row, and an operator is added behind another only when it is `-` |
| Keypad.TrailingDigitsIsMaximal | script.js:132 | the digits counted at the end of the display are all digits and are preceded by the start or by a non-digit |
| Keypad.LastNumberMatches | script.js:132 | the last number found is the match of `/\d+(?:\.\d+)?$/`: the longest suffix of the form `digits` or `digits.digits`, and there is none exactly when no suffix has that form |
| Keypad.ZeroTakesPoint | script.js:128-136 | a display reset to `0` ends in the number `0` and takes a point |
| Keypad.Calculator.constructor | script.js:2 | a new calculator shows `0` and no answer |
| Keypad.Calculator.ClearScreen | script.js:9-12 | the display becomes `0` and no answer is shown |
| Keypad.Calculator.ClearBack | script.js:18-31 | a shown answer is cleared to `0`; otherwise the last character is dropped, and a display of one character becomes `0`; the width cap is kept |
| Keypad.Calculator.ChangeSign | script.js:36-51 | a full display stays unchanged; a shown answer becomes `0`; otherwise a leading `-` is removed or one is added; the width cap is kept |
| Keypad.Calculator.EnterNum | script.js:92-138 | a full display stays unchanged. A digit replaces `0` or a shown answer, otherwise it is appended. An operator is appended only after a non-operator, or as a `-` after a single operator. A point is appended only when the display ends in a number without a point, and a shown answer becomes `0.`. The width cap is kept, and so is the absence of three operators in a row. |
| Keypad.Calculator.GetAnswer | script.js:70-86 | a malformed input and a result of 0 give the operator-sequence alert, and a division by zero gives the division alert. An input on which the evaluation throws gives no alert. In all of these cases the state is unchanged. Otherwise the result is shown and marked as an answer. |

## Left out

- Browser I/O is not modelled: the DOM, the `addEventListener` wiring and the `alert` calls (script.js:1, 54-64, 76, 81). `GetAnswer` returns the alert instead of showing it.
- Result formatting is not modelled (script.js:173-184). It depends on JavaScript's number-to-text conversion and on `toFixed` rounding, so `GetAnswer` takes the conversion as a parameter.
- Numbers are exact reals. Floating-point rounding is not modelled, and neither is overflow to infinity for huge operands.
- Keypad.AlertFor: every non-finite result counts as a division by zero. In the source, a division by zero that turns into NaN gets the operator-sequence alert instead. That happens for `0/0`, and when infinities cancel in the `+` or `-` pass, as in `"1/0-1/0"`.
- The tokenizer recognises exactly `+ - * /` as delimiters and operators. The source's patterns `[+-/*(]` and `[*+-/]` are character ranges that also match `,`, `.` and `(`, and it then filters out `.,` pairs. That a point after a digit keeps the operator scan from being `null` is modelled (`PointAfterDigit`). A `,` or `(` acting as delimiter or operator is not, and neither is a point left as an extra entry of the operator list. That entry matches no pass, so it changes no result.
- Evaluator.EvaluateInput: when the operand count differs from the operator count plus one, the source computes NaN or ignores the extra operands. The model reports every such input as `Malformed`.
- Reducer.Lists.Reduce: requires the length invariant that script.js:164-171 does not need. The source also runs the four passes on lists that break it: `"5+"` reaches them with one operand and gives NaN. The evaluator never calls the method on such lists, because it reports them as `Malformed` first.
- Reducer.Lists.HandlePass: requires the length invariant. The source also runs a pass on lists that break it; the evaluator never calls the method on such lists, because it reports them as `Malformed` first.
- Keypad.Calculator.EnterNum: a point typed where the display does not end in a number makes the source throw. The model leaves the state unchanged, which is the state the exception leaves behind.
- Keypad.Calculator.EnterNum: any key that is neither a digit nor an operator takes the point branch, as the source's final `else` does.
- The page's markup is not part of this model. The display is assumed to start as `0`, the value `clearScreen` writes.
