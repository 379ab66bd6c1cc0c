/**
 * How the grammar attaches operands, read off the round trip: `* / %` bind
 * tighter than `+ -`, parentheses override that, and operators of one level
 * group to the right, so `x op y op z` has `x` on the left and `y op z` on
 * the right.
 */
module Grouping {
  import opened Wrappers
  import opened Syntax
  import opened ReplParser
  import opened ParserRoundTrip

  lemma Regroup(a: string, c: char, b: string, d: char, z: string)
    ensures a + [c] + b + [d] + z == a + [c] + (b + [d] + z)
  {
    assert a + [c] + b + [d] + z == (a + [c]) + (b + [d] + z);
  }

  /** `x + y - z` is `x + (y - z)`. */
  lemma LowGroupsRight(x: Expr, op1: Operator, y: Expr, op2: Operator, z: Expr)
    requires IsLow(op1) && IsLow(op2) && WellFormed(x) && WellFormed(y) && WellFormed(z)
    ensures Parse(PrintHigh(x) + [Symbol(op1)] + PrintHigh(y) + [Symbol(op2)] + PrintLow(z))
         == Some(Expression(BinOp(x, op1, BinOp(y, op2, z))))
  {
    var r := BinOp(y, op2, z);
    var e := BinOp(x, op1, r);
    ParseRoundTrip(Expression(e));
    assert PrintLow(r) == PrintHigh(y) + [Symbol(op2)] + PrintLow(z);
    assert PrintLow(e) == PrintHigh(x) + [Symbol(op1)] + PrintLow(r);
    Regroup(PrintHigh(x), Symbol(op1), PrintHigh(y), Symbol(op2), PrintLow(z));
  }

  /** `x * y / z` is `x * (y / z)`. */
  lemma HighGroupsRight(x: Expr, op1: Operator, y: Expr, op2: Operator, z: Expr)
    requires !IsLow(op1) && !IsLow(op2) && WellFormed(x) && WellFormed(y) && WellFormed(z)
    ensures Parse(PrintAtom(x) + [Symbol(op1)] + PrintAtom(y) + [Symbol(op2)] + PrintHigh(z))
         == Some(Expression(BinOp(x, op1, BinOp(y, op2, z))))
  {
    var r := BinOp(y, op2, z);
    var e := BinOp(x, op1, r);
    ParseRoundTrip(Expression(e));
    assert PrintHigh(r) == PrintAtom(y) + [Symbol(op2)] + PrintHigh(z);
    assert PrintLow(e) == PrintHigh(e) == PrintAtom(x) + [Symbol(op1)] + PrintHigh(r);
    Regroup(PrintAtom(x), Symbol(op1), PrintAtom(y), Symbol(op2), PrintHigh(z));
  }

  /** `x * y + z` is `(x * y) + z`. */
  lemma HighBindsTighterLeft(x: Expr, hop: Operator, y: Expr, lop: Operator, z: Expr)
    requires !IsLow(hop) && IsLow(lop) && WellFormed(x) && WellFormed(y) && WellFormed(z)
    ensures Parse(PrintAtom(x) + [Symbol(hop)] + PrintHigh(y) + [Symbol(lop)] + PrintLow(z))
         == Some(Expression(BinOp(BinOp(x, hop, y), lop, z)))
  {
    var e := BinOp(BinOp(x, hop, y), lop, z);
    ParseRoundTrip(Expression(e));
    assert PrintLow(e) == (PrintAtom(x) + [Symbol(hop)] + PrintHigh(y)) + [Symbol(lop)] + PrintLow(z);
  }

  /** `x + y * z` is `x + (y * z)`. */
  lemma HighBindsTighterRight(x: Expr, lop: Operator, y: Expr, hop: Operator, z: Expr)
    requires IsLow(lop) && !IsLow(hop) && WellFormed(x) && WellFormed(y) && WellFormed(z)
    ensures Parse(PrintHigh(x) + [Symbol(lop)] + PrintAtom(y) + [Symbol(hop)] + PrintHigh(z))
         == Some(Expression(BinOp(x, lop, BinOp(y, hop, z))))
  {
    var r := BinOp(y, hop, z);
    var e := BinOp(x, lop, r);
    ParseRoundTrip(Expression(e));
    assert PrintLow(r) == PrintHigh(r) == PrintAtom(y) + [Symbol(hop)] + PrintHigh(z);
    assert PrintLow(e) == PrintHigh(x) + [Symbol(lop)] + PrintLow(r);
    Regroup(PrintHigh(x), Symbol(lop), PrintAtom(y), Symbol(hop), PrintHigh(z));
  }

  /** `(x + y) * z` keeps the sum as the left operand of the product. */
  lemma ParenthesesOverride(x: Expr, lop: Operator, y: Expr, hop: Operator, z: Expr)
    requires IsLow(lop) && !IsLow(hop) && WellFormed(x) && WellFormed(y) && WellFormed(z)
    ensures Parse("(" + PrintHigh(x) + [Symbol(lop)] + PrintLow(y) + ")" + [Symbol(hop)] + PrintHigh(z))
         == Some(Expression(BinOp(BinOp(x, lop, y), hop, z)))
  {
    var s := BinOp(x, lop, y);
    var e := BinOp(s, hop, z);
    ParseRoundTrip(Expression(e));
    assert PrintAtom(s) == "(" + PrintHigh(x) + [Symbol(lop)] + PrintLow(y) + ")";
    assert PrintLow(e) == PrintHigh(e) == PrintAtom(s) + [Symbol(hop)] + PrintHigh(z);
  }
}
