/** Characters of the calculator's keypad and the four binary operators. */
module Symbols {

  /** The four operators, in the order the reducer's passes handle them. */
  datatype Op = Mul | Div | Add | Sub

  predicate IsDigit(c: char) {
    '0' <= c <= '9'
  }

  /** The operator keys `+ - * /`. */
  predicate IsOperatorChar(c: char) {
    c == '+' || c == '-' || c == '*' || c == '/'
  }

  function OpOf(c: char): Op
    requires IsOperatorChar(c)
  {
    if c == '*' then Mul else if c == '/' then Div else if c == '+' then Add else Sub
  }

  function CharOf(op: Op): (c: char)
    ensures IsOperatorChar(c) && OpOf(c) == op
  {
    match op
    case Mul => '*'
    case Div => '/'
    case Add => '+'
    case Sub => '-'
  }

  predicate AllDigits(s: string) {
    forall k | 0 <= k < |s| :: IsDigit(s[k])
  }

  /** The length of the longest run of digits that `s` starts with. */
  function DigitRun(s: string): (n: nat)
    ensures n <= |s|
  {
    if |s| == 0 || !IsDigit(s[0]) then 0 else 1 + DigitRun(s[1..])
  }

  /** The run is all digits, and it is maximal. */
  lemma {:induction false} DigitRunIsMaximal(s: string)
    ensures AllDigits(s[..DigitRun(s)])
    ensures DigitRun(s) == |s| || !IsDigit(s[DigitRun(s)])
  {
    if |s| > 0 && IsDigit(s[0]) {
      DigitRunIsMaximal(s[1..]);
      var n := DigitRun(s[1..]);
      var run := s[..n + 1];
      forall k | 0 <= k < n + 1 ensures IsDigit(run[k]) {
        if k > 0 {
          assert run[k] == s[1..][..n][k - 1];
        }
      }
    }
  }

  /** A run of digits followed by an end or by a non-digit is read whole. */
  lemma {:induction false} DigitRunOf(d: string, rest: string)
    requires AllDigits(d)
    requires |rest| == 0 || !IsDigit(rest[0])
    ensures DigitRun(d + rest) == |d|
  {
    if |d| > 0 {
      assert (d + rest)[1..] == d[1..] + rest;
      DigitRunOf(d[1..], rest);
    } else {
      assert d + rest == rest;
    }
  }
}
