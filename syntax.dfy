/**
 * The trees the calculator grammar builds, and a canonical printer for them.
 *
 * The grammar's captures give three node shapes, `{left, operator, right}`,
 * `{variable}` and `{value}`; a line that assigns is wrapped as
 * `{assignment: {variable, expression}}`.  Parentheses leave no node.
 */
module Syntax {
  import opened Lexical

  datatype Operator = Plus | Minus | Times | Divide | Modulo

  /** `match('[+-]')`, the operators of `low_precedence` */
  predicate IsLowOperatorChar(c: char) { c == '+' || c == '-' }

  /** the operators `*`, `/` and `%` of `high_precedence` */
  predicate IsHighOperatorChar(c: char) { c == '*' || c == '/' || c == '%' }

  predicate IsOperatorChar(c: char) { IsLowOperatorChar(c) || IsHighOperatorChar(c) }

  predicate IsLow(op: Operator) { op == Plus || op == Minus }

  /** The operator a captured `:operator` character stands for. */
  function OperatorOf(c: char): Operator
    requires IsOperatorChar(c)
  {
    match c
    case '+' => Plus
    case '-' => Minus
    case '*' => Times
    case '/' => Divide
    case '%' => Modulo
  }

  /** The character of an operator: OperatorOf inverts it, and it keeps the precedence level. */
  function Symbol(op: Operator): (c: char)
    ensures IsOperatorChar(c) && OperatorOf(c) == op
    ensures IsLowOperatorChar(c) <==> IsLow(op)
  {
    match op
    case Plus => '+'
    case Minus => '-'
    case Times => '*'
    case Divide => '/'
    case Modulo => '%'
  }

  datatype Expr =
    | BinOp(left: Expr, operator: Operator, right: Expr)
    | Variable(variable: string)
    | Value(value: string)

  datatype Instruction =
    | Assignment(variable: string, expression: Expr)
    | Expression(expr: Expr)

  /** The text `variable` accepts: a letter, then letters or digits. */
  predicate IsIdentifier(t: string) {
    |t| > 0 && IsLetter(t[0]) && forall k :: 1 <= k < |t| ==> IsAlnum(t[k])
  }

  /** The text `value` accepts: digits, then optionally a dot and digits. */
  predicate IsNumeral(t: string) {
    var p := Span(t, 0, IsDigit);
    0 < p && (p == |t| || (t[p] == '.' && p + 1 < |t| && AllDigits(t[p + 1..])))
  }

  /** Every name is an identifier and every number a numeral. */
  predicate WellFormed(e: Expr) {
    match e
    case BinOp(l, _, r) => WellFormed(l) && WellFormed(r)
    case Variable(x) => IsIdentifier(x)
    case Value(t) => IsNumeral(t)
  }

  predicate WellFormedInstruction(i: Instruction) {
    match i
    case Assignment(x, e) => IsIdentifier(x) && WellFormed(e)
    case Expression(e) => WellFormed(e)
  }

  /*
   * The canonical text of a tree, with no blanks and the fewest parentheses:
   * an operand is parenthesised only where the grammar would otherwise
   * attach it differently (a left operand of its own level or lower, a right
   * operand of a lower level).
   */

  function PrintLow(e: Expr): string
    decreases e, 2
  {
    if e.BinOp? && IsLow(e.operator) then
      PrintHigh(e.left) + [Symbol(e.operator)] + PrintLow(e.right)
    else
      PrintHigh(e)
  }

  function PrintHigh(e: Expr): string
    decreases e, 1
  {
    if e.BinOp? && !IsLow(e.operator) then
      PrintAtom(e.left) + [Symbol(e.operator)] + PrintHigh(e.right)
    else
      PrintAtom(e)
  }

  function PrintAtom(e: Expr): string
    decreases e, 0
  {
    match e
    case Variable(x) => x
    case Value(t) => t
    case BinOp(l, op, r) =>
      "(" + (if IsLow(op) then PrintHigh(l) + [Symbol(op)] + PrintLow(r)
             else PrintAtom(l) + [Symbol(op)] + PrintHigh(r)) + ")"
  }

  function Print(i: Instruction): string {
    match i
    case Assignment(x, e) => x + "=" + PrintLow(e)
    case Expression(e) => PrintLow(e)
  }
}
