/**
 * The parser reads back every well-formed tree from its canonical text.
 * Because Parse is a function, this fixes the tree of every such text, which
 * is how precedence, parentheses and right grouping are stated below.
 */
module ParserRoundTrip {
  import opened Wrappers
  import opened Lexical
  import opened Syntax
  import opened ReplParser

  /** t occurs in s at position i. */
  predicate Occurs(s: string, i: nat, t: string) {
    i + |t| <= |s| && forall k :: 0 <= k < |t| ==> s[i + k] == t[k]
  }

  lemma OccursSplit(s: string, i: nat, a: string, b: string)
    requires Occurs(s, i, a + b)
    ensures Occurs(s, i, a) && Occurs(s, i + |a|, b)
  {
    forall k | 0 <= k < |a| ensures s[i + k] == a[k] {
      assert (a + b)[k] == a[k];
    }
    forall k | 0 <= k < |b| ensures s[i + |a| + k] == b[k] {
      assert (a + b)[|a| + k] == b[k];
    }
  }

  lemma OccursSlice(s: string, i: nat, t: string)
    requires Occurs(s, i, t)
    ensures s[i..i + |t|] == t
  {
    forall k | 0 <= k < |t| ensures s[i..i + |t|][k] == t[k] {
      assert s[i..i + |t|][k] == s[i + k];
    }
  }

  lemma OccursAround(s: string, i: nat, a: string, c: char, b: string)
    requires Occurs(s, i, a + [c] + b)
    ensures Occurs(s, i, a) && s[i + |a|] == c && Occurs(s, i + |a| + 1, b)
  {
    OccursSplit(s, i, a + [c], b);
    OccursSplit(s, i, a, [c]);
    assert s[i + |a| + 0] == [c][0];
  }

  /** An operator text `a c b` splits into its operands around the operator. */
  lemma OperatorText(s: string, i: nat, a: string, c: char, b: string)
    requires Occurs(s, i, a + [c] + b) && IsOperatorChar(c) && Plain(b)
    ensures Occurs(s, i, a) && s[i + |a|] == c && FollowsAtom(s, i + |a|)
    ensures i + |a| + 1 < |s| && Occurs(s, i + |a| + 1, b) && !IsBlank(s[i + |a| + 1])
    ensures |a + [c] + b| == |a| + 1 + |b|
  {
    OccursAround(s, i, a, c, b);
    OccursAt(s, i + |a| + 1, b, 0);
  }

  lemma OccursAt(s: string, i: nat, t: string, k: nat)
    requires Occurs(s, i, t) && k < |t|
    ensures s[i + k] == t[k]
  {
  }

  /** What may follow a printed low_precedence: the end of the line or `)`. */
  predicate FollowsLow(s: string, k: nat) {
    k <= |s| && (k == |s| || s[k] == ')')
  }

  /** What may follow a printed high_precedence: also a `+` or `-`. */
  predicate FollowsHigh(s: string, k: nat) {
    k <= |s| && (k == |s| || s[k] == ')' || IsLowOperatorChar(s[k]))
  }

  /** What may follow a printed atom: also a `*`, `/` or `%`. */
  predicate FollowsAtom(s: string, k: nat) {
    k <= |s| && (k == |s| || s[k] == ')' || IsOperatorChar(s[k]))
  }

  predicate PlainChar(c: char) { !IsBlank(c) && c != '=' }

  /** Canonical texts are non-empty and hold no blank and no `=`. */
  predicate Plain(t: string) {
    |t| > 0 && forall k :: 0 <= k < |t| ==> PlainChar(t[k])
  }

  lemma PlainJoin(a: string, c: char, b: string)
    requires Plain(a) && Plain(b) && IsOperatorChar(c)
    ensures Plain(a + [c] + b)
  {
    var t := a + [c] + b;
    forall k | 0 <= k < |t| ensures PlainChar(t[k]) {
      if k < |a| {
        assert t[k] == a[k];
      } else if k > |a| {
        assert t[k] == b[k - |a| - 1];
      }
    }
  }

  lemma IdentifierPlain(x: string)
    requires IsIdentifier(x)
    ensures Plain(x)
  {
    forall k | 0 <= k < |x| ensures PlainChar(x[k]) {
      assert k == 0 || IsAlnum(x[k]);
    }
  }

  lemma NumeralPlain(t: string)
    requires IsNumeral(t)
    ensures Plain(t)
  {
    var p := Span(t, 0, IsDigit);
    forall k | 0 <= k < |t| ensures PlainChar(t[k]) {
      if p < k {
        assert t[p + 1..][k - p - 1] == t[k];
      }
    }
  }

  lemma {:induction false} PrintedPlain(e: Expr)
    requires WellFormed(e)
    ensures Plain(PrintLow(e)) && Plain(PrintHigh(e)) && Plain(PrintAtom(e))
  {
    match e
    case Variable(x) =>
      assert PrintLow(e) == PrintHigh(e) == PrintAtom(e) == x;
      IdentifierPlain(x);
    case Value(t) =>
      assert PrintLow(e) == PrintHigh(e) == PrintAtom(e) == t;
      NumeralPlain(t);
    case BinOp(l, op, r) =>
      PrintedPlain(l);
      PrintedPlain(r);
      PlainJoin(PrintHigh(l), Symbol(op), PrintLow(r));
      PlainJoin(PrintAtom(l), Symbol(op), PrintHigh(r));
      PlainWrapped(PrintLow(e));
      ParenthesisedText(e);
  }

  lemma PlainWrapped(t: string)
    requires Plain(t)
    ensures Plain("(" + t + ")")
  {
    var w := "(" + t + ")";
    forall k | 0 <= k < |w| ensures PlainChar(w[k]) {
      if 0 < k < |w| - 1 {
        assert w[k] == t[k - 1];
      }
    }
  }

  lemma VariableAt(x: string, s: string, i: nat)
    requires IsIdentifier(x) && Occurs(s, i, x)
    requires i + |x| == |s| || !IsAlnum(s[i + |x|])
    ensures ParseVariable(s, i) == Some(Parsed(Variable(x), i + |x|))
  {
    forall k | i + 1 <= k < i + |x| ensures IsAlnum(s[k]) {
      OccursAt(s, i, x, k - i);
    }
    SpanExact(s, i + 1, i + |x|, IsAlnum);
    OccursSlice(s, i, x);
  }

  /** A numeral's leading digits, and the digits after its dot when it has one. */
  lemma NumeralParts(t: string)
    requires IsNumeral(t)
    ensures 0 < Span(t, 0, IsDigit) <= |t|
    ensures Span(t, 0, IsDigit) < |t| ==>
      var p := Span(t, 0, IsDigit);
      t[p] == '.' && p + 1 < |t| && forall k :: p + 1 <= k < |t| ==> IsDigit(t[k])
  {
    var p := Span(t, 0, IsDigit);
    if p < |t| {
      forall k | p + 1 <= k < |t| ensures IsDigit(t[k]) {
        assert t[p + 1..][k - p - 1] == t[k];
      }
    }
  }

  lemma ValueAt(t: string, s: string, i: nat)
    requires IsNumeral(t) && Occurs(s, i, t)
    requires i + |t| == |s| || (!IsDigit(s[i + |t|]) && s[i + |t|] != '.')
    ensures ParseValue(s, i) == Some(Parsed(Value(t), i + |t|))
  {
    var p := Span(t, 0, IsDigit);
    NumeralParts(t);
    forall k | i <= k < i + p ensures IsDigit(s[k]) {
      OccursAt(s, i, t, k - i);
    }
    if p < |t| {
      OccursAt(s, i, t, p);
      OccursAt(s, i, t, p + 1);
      forall k | i + p + 2 <= k < i + |t| ensures IsDigit(s[k]) {
        OccursAt(s, i, t, k - i);
      }
      SpanExact(s, i + p + 2, i + |t|, IsDigit);
    }
    SpanExact(s, i + 1, i + p, IsDigit);
    OccursSlice(s, i, t);
  }

  lemma {:induction false} AtomAt(e: Expr, s: string, i: nat)
    requires WellFormed(e) && Occurs(s, i, PrintAtom(e)) && FollowsAtom(s, i + |PrintAtom(e)|)
    ensures ParseAtom(s, i) == Some(Parsed(e, i + |PrintAtom(e)|))
    decreases |PrintAtom(e)|, 2
  {
    match e
    case Variable(x) =>
      OccursAt(s, i, x, 0);
      assert ParseParenthesis(s, i) == None;
      VariableAt(x, s, i);
    case Value(t) =>
      OccursAt(s, i, t, 0);
      assert ParseParenthesis(s, i) == None;
      assert ParseVariable(s, i) == None;
      ValueAt(t, s, i);
    case BinOp(_, _, _) =>
      ParenthesisAt(e, s, i);
  }

  lemma {:induction false} ParenthesisAt(e: Expr, s: string, i: nat)
    requires e.BinOp? && WellFormed(e) && Occurs(s, i, PrintAtom(e)) && FollowsAtom(s, i + |PrintAtom(e)|)
    ensures ParseParenthesis(s, i) == Some(Parsed(e, i + |PrintAtom(e)|))
    decreases |PrintAtom(e)|, 1
  {
    var inner := PrintLow(e);
    ParenthesisedText(e);
    PrintedPlain(e);
    WrappedText(s, i, inner);
    ParenthesisInner(e, s, i);
  }

  /** A parenthesised text splits into `(`, the text inside, and `)`. */
  lemma WrappedText(s: string, i: nat, t: string)
    requires Occurs(s, i, "(" + t + ")") && Plain(t)
    ensures i + 1 < |s| && s[i] == '(' && !IsBlank(s[i + 1]) && Occurs(s, i + 1, t)
    ensures i + 1 + |t| < |s| && s[i + 1 + |t|] == ')' && FollowsLow(s, i + 1 + |t|)
    ensures |"(" + t + ")"| == |t| + 2
  {
    OccursSplit(s, i, "(" + t, ")");
    OccursSplit(s, i, "(", t);
    OccursAt(s, i, "(", 0);
    OccursAt(s, i + 1 + |t|, ")", 0);
    OccursAt(s, i + 1, t, 0);
  }

  /** The expression inside parentheses, at its place in the line. */
  lemma {:induction false} ParenthesisInner(e: Expr, s: string, i: nat)
    requires WellFormed(e) && i + 1 < |s| && s[i] == '(' && !IsBlank(s[i + 1])
    requires Occurs(s, i + 1, PrintLow(e))
    requires i + 1 + |PrintLow(e)| < |s| && s[i + 1 + |PrintLow(e)|] == ')'
    ensures ParseParenthesis(s, i) == Some(Parsed(e, i + 2 + |PrintLow(e)|))
    decreases |PrintLow(e)| + 2, 0
  {
    LowAt(e, s, i + 1);
    ParenthesisStep(s, i, e, i + 1 + |PrintLow(e)|);
  }

  /** An operator node's atom text is its low_precedence text in parentheses. */
  lemma ParenthesisedText(e: Expr)
    requires e.BinOp?
    ensures PrintAtom(e) == "(" + PrintLow(e) + ")"
  {
    if IsLow(e.operator) {
      assert PrintLow(e) == PrintHigh(e.left) + [Symbol(e.operator)] + PrintLow(e.right);
    } else {
      assert PrintLow(e) == PrintHigh(e) == PrintAtom(e.left) + [Symbol(e.operator)] + PrintHigh(e.right);
    }
  }

  /** parenthesis: `(`, a low_precedence, `)`. */
  lemma ParenthesisStep(s: string, i: nat, e: Expr, k: nat)
    requires i + 1 < |s| && s[i] == '(' && !IsBlank(s[i + 1])
    requires ParseLowPrecedence(s, i + 1) == Some(Parsed(e, k))
    requires k < |s| && s[k] == ')'
    ensures ParseParenthesis(s, i) == Some(Parsed(e, k + 1))
  {
    assert Wp(s, i + 1) == i + 1 && Wp(s, k) == k;
  }

  /** One step of high_precedence: an atom, an operator of its level, the rest. */
  lemma HighStep(s: string, i: nat, l: Expr, op: Operator, r: Expr, j: nat, k: nat)
    requires i <= |s| && !IsLow(op)
    requires ParseAtom(s, i) == Some(Parsed(l, j))
    requires j + 1 < |s| && s[j] == Symbol(op) && !IsBlank(s[j + 1])
    requires ParseHighPrecedence(s, j + 1) == Some(Parsed(r, k))
    ensures ParseHighPrecedence(s, i) == Some(Parsed(BinOp(l, op, r), k))
  {
    assert Wp(s, j) == j && Wp(s, j + 1) == j + 1;
  }

  /** high_precedence stops after an atom that no operator of its level follows. */
  lemma HighStop(s: string, i: nat, e: Expr, j: nat)
    requires i <= |s|
    requires ParseAtom(s, i) == Some(Parsed(e, j)) && FollowsHigh(s, j)
    ensures ParseHighPrecedence(s, i) == Some(Parsed(e, j))
  {
    assert Wp(s, j) == j;
  }

  /** One step of low_precedence: a high_precedence, an operator of its level, the rest. */
  lemma LowStep(s: string, i: nat, h: Expr, op: Operator, r: Expr, j: nat, k: nat)
    requires i <= |s| && IsLow(op)
    requires ParseHighPrecedence(s, i) == Some(Parsed(h, j))
    requires j + 1 < |s| && s[j] == Symbol(op) && !IsBlank(s[j + 1])
    requires ParseLowPrecedence(s, j + 1) == Some(Parsed(r, k))
    ensures ParseLowPrecedence(s, i) == Some(Parsed(BinOp(h, op, r), k))
  {
    assert Wp(s, j) == j && Wp(s, j + 1) == j + 1;
  }

  /** low_precedence stops after a high_precedence that no `+` or `-` follows. */
  lemma LowStop(s: string, i: nat, e: Expr, j: nat)
    requires i <= |s|
    requires ParseHighPrecedence(s, i) == Some(Parsed(e, j)) && FollowsLow(s, j)
    ensures ParseLowPrecedence(s, i) == Some(Parsed(e, j))
  {
    assert Wp(s, j) == j;
  }

  lemma {:induction false} HighAt(e: Expr, s: string, i: nat)
    requires WellFormed(e) && Occurs(s, i, PrintHigh(e)) && FollowsHigh(s, i + |PrintHigh(e)|)
    ensures ParseHighPrecedence(s, i) == Some(Parsed(e, i + |PrintHigh(e)|))
    decreases |PrintHigh(e)|, 4
  {
    if e.BinOp? && !IsLow(e.operator) {
      HighAtOperator(e, s, i);
    } else {
      assert PrintHigh(e) == PrintAtom(e);
      AtomAt(e, s, i);
      HighStop(s, i, e, i + |PrintHigh(e)|);
    }
  }

  lemma {:induction false} HighAtOperator(e: Expr, s: string, i: nat)
    requires e.BinOp? && !IsLow(e.operator)
    requires WellFormed(e) && Occurs(s, i, PrintHigh(e)) && FollowsHigh(s, i + |PrintHigh(e)|)
    ensures ParseHighPrecedence(s, i) == Some(Parsed(e, i + |PrintHigh(e)|))
    decreases |PrintHigh(e)|, 3
  {
    var BinOp(l, op, r) := e;
    var a, c, b := PrintAtom(l), Symbol(op), PrintHigh(r);
    assert PrintHigh(e) == a + [c] + b;
    PrintedPlain(r);
    OperatorText(s, i, a, c, b);
    HighOperands(l, op, r, s, i);
  }

  /** The operands of a high_precedence operator, each at its place in the line. */
  lemma {:induction false} HighOperands(l: Expr, op: Operator, r: Expr, s: string, i: nat)
    requires !IsLow(op) && WellFormed(l) && WellFormed(r)
    requires Occurs(s, i, PrintAtom(l)) && FollowsAtom(s, i + |PrintAtom(l)|)
    requires i + |PrintAtom(l)| + 1 < |s|
    requires s[i + |PrintAtom(l)|] == Symbol(op) && !IsBlank(s[i + |PrintAtom(l)| + 1])
    requires Occurs(s, i + |PrintAtom(l)| + 1, PrintHigh(r))
    requires FollowsHigh(s, i + |PrintAtom(l)| + 1 + |PrintHigh(r)|)
    ensures ParseHighPrecedence(s, i) == Some(Parsed(BinOp(l, op, r), i + |PrintAtom(l)| + 1 + |PrintHigh(r)|))
    decreases |PrintAtom(l)| + 1 + |PrintHigh(r)|, 2
  {
    var j := i + |PrintAtom(l)|;
    AtomAt(l, s, i);
    HighAt(r, s, j + 1);
    HighStep(s, i, l, op, r, j, j + 1 + |PrintHigh(r)|);
  }

  lemma {:induction false} LowAt(e: Expr, s: string, i: nat)
    requires WellFormed(e) && Occurs(s, i, PrintLow(e)) && FollowsLow(s, i + |PrintLow(e)|)
    ensures ParseLowPrecedence(s, i) == Some(Parsed(e, i + |PrintLow(e)|))
    decreases |PrintLow(e)|, 7
  {
    if e.BinOp? && IsLow(e.operator) {
      LowAtOperator(e, s, i);
    } else {
      assert PrintLow(e) == PrintHigh(e);
      HighAt(e, s, i);
      LowStop(s, i, e, i + |PrintLow(e)|);
    }
  }

  lemma {:induction false} LowAtOperator(e: Expr, s: string, i: nat)
    requires e.BinOp? && IsLow(e.operator)
    requires WellFormed(e) && Occurs(s, i, PrintLow(e)) && FollowsLow(s, i + |PrintLow(e)|)
    ensures ParseLowPrecedence(s, i) == Some(Parsed(e, i + |PrintLow(e)|))
    decreases |PrintLow(e)|, 6
  {
    var BinOp(l, op, r) := e;
    var h, c, b := PrintHigh(l), Symbol(op), PrintLow(r);
    assert PrintLow(e) == h + [c] + b;
    PrintedPlain(r);
    OperatorText(s, i, h, c, b);
    LowOperands(l, op, r, s, i);
  }

  /** The operands of a low_precedence operator, each at its place in the line. */
  lemma {:induction false} LowOperands(l: Expr, op: Operator, r: Expr, s: string, i: nat)
    requires IsLow(op) && WellFormed(l) && WellFormed(r)
    requires Occurs(s, i, PrintHigh(l)) && FollowsHigh(s, i + |PrintHigh(l)|)
    requires i + |PrintHigh(l)| + 1 < |s|
    requires s[i + |PrintHigh(l)|] == Symbol(op) && !IsBlank(s[i + |PrintHigh(l)| + 1])
    requires Occurs(s, i + |PrintHigh(l)| + 1, PrintLow(r))
    requires FollowsLow(s, i + |PrintHigh(l)| + 1 + |PrintLow(r)|)
    ensures ParseLowPrecedence(s, i) == Some(Parsed(BinOp(l, op, r), i + |PrintHigh(l)| + 1 + |PrintLow(r)|))
    decreases |PrintHigh(l)| + 1 + |PrintLow(r)|, 5
  {
    var j := i + |PrintHigh(l)|;
    HighAt(l, s, i);
    LowAt(r, s, j + 1);
    LowStep(s, i, l, op, r, j, j + 1 + |PrintLow(r)|);
  }

  /** assignment: a variable, `=`, a low_precedence. */
  lemma AssignmentStep(s: string, x: string, e: Expr, j: nat, k: nat)
    requires ParseVariable(s, 0) == Some(Parsed(Variable(x), j))
    requires j + 1 < |s| && s[j] == '=' && !IsBlank(s[j + 1])
    requires ParseLowPrecedence(s, j + 1) == Some(Parsed(e, k))
    ensures ParseAssignment(s, 0) == Some(ParsedLine(Assignment(x, e), k))
  {
    assert Wp(s, j) == j && Wp(s, j + 1) == j + 1;
  }

  /** The root rule: an assignment that spans the line is what the line parses to. */
  lemma AssignmentSpans(s: string, ins: Instruction)
    requires ParseAssignment(s, 0) == Some(ParsedLine(ins, |s|))
    ensures Parse(s) == Some(ins)
  {
  }

  /** The text of an assignment splits into its name, `=`, and its expression. */
  lemma AssignmentText(x: string, t: string)
    requires Plain(t)
    ensures Occurs(x + "=" + t, 0, x) && (x + "=" + t)[|x|] == '='
    ensures Occurs(x + "=" + t, |x| + 1, t) && !IsBlank((x + "=" + t)[|x| + 1])
    ensures |x + "=" + t| == |x| + 1 + |t|
  {
    var s := x + "=" + t;
    OccursSplit(s, 0, x + "=", t);
    OccursSplit(s, 0, x, "=");
    OccursAt(s, |x|, "=", 0);
    OccursAt(s, |x| + 1, t, 0);
  }

  /** A line with no blank and no `=` is not an assignment. */
  lemma NoAssignment(s: string)
    requires forall k :: 0 <= k < |s| ==> PlainChar(s[k])
    ensures ParseAssignment(s, 0) == None
  {
    var v := ParseVariable(s, 0);
    if v.Some? && v.value.end < |s| {
      assert PlainChar(s[v.value.end]);
    }
  }

  lemma AssignmentLine(x: string, e: Expr)
    requires IsIdentifier(x) && WellFormed(e)
    ensures Parse(x + "=" + PrintLow(e)) == Some(Assignment(x, e))
  {
    var t := PrintLow(e);
    var s := x + "=" + t;
    PrintedPlain(e);
    AssignmentText(x, t);
    VariableAt(x, s, 0);
    LowAt(e, s, |x| + 1);
    AssignmentStep(s, x, e, |x|, |s|);
    AssignmentSpans(s, Assignment(x, e));
  }

  lemma ExpressionLine(e: Expr)
    requires WellFormed(e)
    ensures Parse(PrintLow(e)) == Some(Expression(e))
  {
    var s := PrintLow(e);
    assert Occurs(s, 0, s);
    PrintedPlain(e);
    NoAssignment(s);
    LowAt(e, s, 0);
  }

  /** Parse reads every well-formed instruction back from its canonical text. */
  lemma ParseRoundTrip(ins: Instruction)
    requires WellFormedInstruction(ins)
    ensures Parse(Print(ins)) == Some(ins)
  {
    match ins
    case Assignment(x, e) => AssignmentLine(x, e);
    case Expression(e) => ExpressionLine(e);
  }
}
