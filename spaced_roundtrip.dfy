/**
 * The blanks `wp?` allows.  A second printer puts one blank at every place
 * the grammar has `wp?`: on both sides of `=` and of each operator, after
 * `(` and before `)`.  The parser reads every well-formed tree back from that
 * text too, so one space at every `wp?` place at once changes no tree.  The
 * Gap step lemmas take each `wp?` place on its own, with a blank, space or
 * tab, or none.
 */
module SpacedRoundTrip {
  import opened Wrappers
  import opened Lexical
  import opened Syntax
  import opened ReplParser
  import opened ParserRoundTrip

  function SpacedLow(e: Expr): string
    decreases e, 2
  {
    if e.BinOp? && IsLow(e.operator) then
      SpacedHigh(e.left) + [' ', Symbol(e.operator), ' '] + SpacedLow(e.right)
    else
      SpacedHigh(e)
  }

  function SpacedHigh(e: Expr): string
    decreases e, 1
  {
    if e.BinOp? && !IsLow(e.operator) then
      SpacedAtom(e.left) + [' ', Symbol(e.operator), ' '] + SpacedHigh(e.right)
    else
      SpacedAtom(e)
  }

  function SpacedAtom(e: Expr): string
    decreases e, 0
  {
    match e
    case Variable(x) => x
    case Value(t) => t
    case BinOp(l, op, r) =>
      "( " + (if IsLow(op) then SpacedHigh(l) + [' ', Symbol(op), ' '] + SpacedLow(r)
              else SpacedAtom(l) + [' ', Symbol(op), ' '] + SpacedHigh(r)) + " )"
  }

  /** The text of an instruction with one blank at every `wp?` place. */
  function SpacedPrint(i: Instruction): string {
    match i
    case Assignment(x, e) => x + " = " + SpacedLow(e)
    case Expression(e) => SpacedLow(e)
  }

  /** What may follow a spaced low_precedence: the end of the line, or a blank and `)`. */
  predicate SpacedFollowsLow(s: string, k: nat) {
    k <= |s| && (k == |s| || (k + 1 < |s| && IsBlank(s[k]) && s[k + 1] == ')'))
  }

  /** What may follow a spaced high_precedence: also a blank and `+` or `-`. */
  predicate SpacedFollowsHigh(s: string, k: nat) {
    k <= |s| && (k == |s| || (k + 1 < |s| && IsBlank(s[k]) && (s[k + 1] == ')' || IsLowOperatorChar(s[k + 1]))))
  }

  /** What may follow a spaced atom: also a blank and `*`, `/` or `%`. */
  predicate SpacedFollowsAtom(s: string, k: nat) {
    k <= |s| && (k == |s| || (k + 1 < |s| && IsBlank(s[k]) && (s[k + 1] == ')' || IsOperatorChar(s[k + 1]))))
  }

  predicate NoEquals(t: string) {
    forall k :: 0 <= k < |t| ==> t[k] != '='
  }

  lemma NoEqualsJoin(a: string, m: string, b: string)
    requires NoEquals(a) && NoEquals(m) && NoEquals(b)
    ensures NoEquals(a + m + b)
  {
    var t := a + m + b;
    forall k | 0 <= k < |t| ensures t[k] != '=' {
      if k < |a| {
        assert t[k] == a[k];
      } else if k < |a| + |m| {
        assert t[k] == m[k - |a|];
      } else {
        assert t[k] == b[k - |a| - |m|];
      }
    }
  }

  lemma {:induction false} SpacedNoEquals(e: Expr)
    requires WellFormed(e)
    ensures NoEquals(SpacedLow(e)) && NoEquals(SpacedHigh(e)) && NoEquals(SpacedAtom(e))
  {
    match e
    case Variable(x) =>
      assert SpacedLow(e) == SpacedHigh(e) == SpacedAtom(e) == x;
      IdentifierPlain(x);
    case Value(t) =>
      assert SpacedLow(e) == SpacedHigh(e) == SpacedAtom(e) == t;
      NumeralPlain(t);
    case BinOp(l, op, r) =>
      SpacedNoEquals(l);
      SpacedNoEquals(r);
      var m := [' ', Symbol(op), ' '];
      assert NoEquals(m) by {
        assert m[1] == Symbol(op);
      }
      assert NoEquals("( ") && NoEquals(" )");
      NoEqualsJoin(SpacedHigh(l), m, SpacedLow(r));
      NoEqualsJoin(SpacedAtom(l), m, SpacedHigh(r));
      SpacedParenthesised(e);
      NoEqualsJoin("( ", SpacedLow(e), " )");
  }

  /** An operator node's spaced atom text is its spaced low_precedence text in spaced parentheses. */
  lemma SpacedParenthesised(e: Expr)
    requires e.BinOp?
    ensures SpacedAtom(e) == "( " + SpacedLow(e) + " )"
  {
    if IsLow(e.operator) {
      assert SpacedLow(e) == SpacedHigh(e.left) + [' ', Symbol(e.operator), ' '] + SpacedLow(e.right);
    } else {
      assert SpacedLow(e) == SpacedHigh(e) == SpacedAtom(e.left) + [' ', Symbol(e.operator), ' '] + SpacedHigh(e.right);
    }
  }

  /** A spaced operator text `a c b` splits into its operands around ` c `. */
  lemma SpacedOperatorText(s: string, i: nat, a: string, c: char, b: string)
    requires Occurs(s, i, a + [' ', c, ' '] + b) && IsOperatorChar(c)
    ensures Occurs(s, i, a) && i + |a| + 2 < |s|
    ensures s[i + |a|] == ' ' && s[i + |a| + 1] == c && s[i + |a| + 2] == ' '
    ensures SpacedFollowsAtom(s, i + |a|) && Occurs(s, i + |a| + 3, b)
    ensures |a + [' ', c, ' '] + b| == |a| + 3 + |b|
  {
    var m := [' ', c, ' '];
    OccursSplit(s, i, a + m, b);
    OccursSplit(s, i, a, m);
    OccursAt(s, i + |a|, m, 0);
    OccursAt(s, i + |a|, m, 1);
    OccursAt(s, i + |a|, m, 2);
  }

  /** A spaced parenthesised text splits into `( `, the text inside, and ` )`. */
  lemma SpacedWrappedText(s: string, i: nat, t: string)
    requires Occurs(s, i, "( " + t + " )")
    ensures i + 1 < |s| && s[i] == '(' && s[i + 1] == ' ' && Occurs(s, i + 2, t)
    ensures i + 3 + |t| < |s| && s[i + 2 + |t|] == ' ' && s[i + 3 + |t|] == ')'
    ensures SpacedFollowsLow(s, i + 2 + |t|)
    ensures |"( " + t + " )"| == |t| + 4
  {
    OccursSplit(s, i, "( " + t, " )");
    OccursSplit(s, i, "( ", t);
    OccursAt(s, i, "( ", 0);
    OccursAt(s, i, "( ", 1);
    OccursAt(s, i + 2 + |t|, " )", 0);
    OccursAt(s, i + 2 + |t|, " )", 1);
  }

  /** parenthesis with a blank after `(` and before `)`. */
  lemma SpacedParenthesisStep(s: string, i: nat, e: Expr, k: nat)
    requires i + 1 < |s| && s[i] == '(' && IsBlank(s[i + 1])
    requires ParseLowPrecedence(s, i + 2) == Some(Parsed(e, k))
    requires k + 1 < |s| && IsBlank(s[k]) && s[k + 1] == ')'
    ensures ParseParenthesis(s, i) == Some(Parsed(e, k + 2))
  {
    assert Wp(s, i + 1) == i + 2 && Wp(s, k) == k + 1;
  }

  /** high_precedence with one blank on each side of its operator. */
  lemma SpacedHighStep(s: string, i: nat, l: Expr, op: Operator, r: Expr, j: nat, k: nat)
    requires i <= |s| && !IsLow(op)
    requires ParseAtom(s, i) == Some(Parsed(l, j))
    requires j + 2 < |s| && IsBlank(s[j]) && s[j + 1] == Symbol(op) && IsBlank(s[j + 2])
    requires ParseHighPrecedence(s, j + 3) == Some(Parsed(r, k))
    ensures ParseHighPrecedence(s, i) == Some(Parsed(BinOp(l, op, r), k))
  {
    assert Wp(s, j) == j + 1 && Wp(s, j + 2) == j + 3;
  }

  /** low_precedence with one blank on each side of its operator. */
  lemma SpacedLowStep(s: string, i: nat, h: Expr, op: Operator, r: Expr, j: nat, k: nat)
    requires i <= |s| && IsLow(op)
    requires ParseHighPrecedence(s, i) == Some(Parsed(h, j))
    requires j + 2 < |s| && IsBlank(s[j]) && s[j + 1] == Symbol(op) && IsBlank(s[j + 2])
    requires ParseLowPrecedence(s, j + 3) == Some(Parsed(r, k))
    ensures ParseLowPrecedence(s, i) == Some(Parsed(BinOp(h, op, r), k))
  {
    assert Wp(s, j) == j + 1 && Wp(s, j + 2) == j + 3;
  }

  /** high_precedence stops after an atom when a blank is followed by no operator of its level. */
  lemma SpacedHighStop(s: string, i: nat, e: Expr, j: nat)
    requires i <= |s|
    requires ParseAtom(s, i) == Some(Parsed(e, j)) && SpacedFollowsHigh(s, j)
    ensures ParseHighPrecedence(s, i) == Some(Parsed(e, j))
  {
  }

  /** low_precedence stops when a blank is followed by no `+` or `-`. */
  lemma SpacedLowStop(s: string, i: nat, e: Expr, j: nat)
    requires i <= |s|
    requires ParseHighPrecedence(s, i) == Some(Parsed(e, j)) && SpacedFollowsLow(s, j)
    ensures ParseLowPrecedence(s, i) == Some(Parsed(e, j))
  {
  }

  /** A whole-line assignment with one blank on each side of `=`. */
  lemma SpacedAssignmentStep(s: string, x: string, e: Expr, j: nat)
    requires ParseVariable(s, 0) == Some(Parsed(Variable(x), j))
    requires j + 2 < |s| && IsBlank(s[j]) && s[j + 1] == '=' && IsBlank(s[j + 2])
    requires ParseLowPrecedence(s, j + 3) == Some(Parsed(e, |s|))
    ensures Parse(s) == Some(Assignment(x, e))
  {
    assert Wp(s, j) == j + 1 && Wp(s, j + 2) == j + 3;
  }

  /**
   * The steps with each `wp?` place chosen on its own: m is where the optional
   * blank before the operator, `=` or `)` ends, and the next rule starts where
   * the one after it ends.  Each place may hold a blank, space or tab, or none.
   */
  lemma GapParenthesisStep(s: string, i: nat, e: Expr, k: nat)
    requires i < |s| && s[i] == '('
    requires ParseLowPrecedence(s, Wp(s, i + 1)) == Some(Parsed(e, k))
    requires Wp(s, k) < |s| && s[Wp(s, k)] == ')'
    ensures ParseParenthesis(s, i) == Some(Parsed(e, Wp(s, k) + 1))
  {
  }

  lemma GapHighStep(s: string, i: nat, l: Expr, op: Operator, r: Expr, j: nat, k: nat)
    requires i <= |s| && !IsLow(op)
    requires ParseAtom(s, i) == Some(Parsed(l, j))
    requires Wp(s, j) < |s| && s[Wp(s, j)] == Symbol(op)
    requires ParseHighPrecedence(s, Wp(s, Wp(s, j) + 1)) == Some(Parsed(r, k))
    ensures ParseHighPrecedence(s, i) == Some(Parsed(BinOp(l, op, r), k))
  {
  }

  lemma GapLowStep(s: string, i: nat, h: Expr, op: Operator, r: Expr, j: nat, k: nat)
    requires i <= |s| && IsLow(op)
    requires ParseHighPrecedence(s, i) == Some(Parsed(h, j))
    requires Wp(s, j) < |s| && s[Wp(s, j)] == Symbol(op)
    requires ParseLowPrecedence(s, Wp(s, Wp(s, j) + 1)) == Some(Parsed(r, k))
    ensures ParseLowPrecedence(s, i) == Some(Parsed(BinOp(h, op, r), k))
  {
  }

  /** high_precedence stops after an atom when, past an optional blank, there is no `*`, `/` or `%`. */
  lemma GapHighStop(s: string, i: nat, e: Expr, j: nat)
    requires i <= |s|
    requires ParseAtom(s, i) == Some(Parsed(e, j))
    requires Wp(s, j) == |s| || !IsHighOperatorChar(s[Wp(s, j)])
    ensures ParseHighPrecedence(s, i) == Some(Parsed(e, j))
  {
  }

  /** low_precedence stops when, past an optional blank, there is no `+` or `-`. */
  lemma GapLowStop(s: string, i: nat, e: Expr, j: nat)
    requires i <= |s|
    requires ParseHighPrecedence(s, i) == Some(Parsed(e, j))
    requires Wp(s, j) == |s| || !IsLowOperatorChar(s[Wp(s, j)])
    ensures ParseLowPrecedence(s, i) == Some(Parsed(e, j))
  {
  }

  lemma GapAssignmentStep(s: string, x: string, e: Expr, j: nat)
    requires ParseVariable(s, 0) == Some(Parsed(Variable(x), j))
    requires Wp(s, j) < |s| && s[Wp(s, j)] == '='
    requires ParseLowPrecedence(s, Wp(s, Wp(s, j) + 1)) == Some(Parsed(e, |s|))
    ensures Parse(s) == Some(Assignment(x, e))
  {
  }

  /** `1 +2`: a blank before the operator only. */
  lemma OneSidedBlankAt(s: string)
    requires |s| == 4 && s[0] == '1' && s[1] == ' ' && s[2] == '+' && s[3] == '2'
    ensures Parse(s) == Some(Expression(BinOp(Value("1"), Plus, Value("2"))))
  {
    assert IsNumeral("1") && IsNumeral("2");
    ValueAt("2", s, 3);
    HighStop(s, 3, Value("2"), 4);
    LowStop(s, 3, Value("2"), 4);
    ValueAt("1", s, 0);
    GapHighStop(s, 0, Value("1"), 1);
    assert Wp(s, 1) == 2 && Wp(s, 3) == 3;
    GapLowStep(s, 0, Value("1"), Plus, Value("2"), 1, 4);
    NoEqualsNoAssignment(s);
  }

  lemma {:induction false} SpacedAtomAt(e: Expr, s: string, i: nat)
    requires WellFormed(e) && Occurs(s, i, SpacedAtom(e)) && SpacedFollowsAtom(s, i + |SpacedAtom(e)|)
    ensures ParseAtom(s, i) == Some(Parsed(e, i + |SpacedAtom(e)|))
    decreases |SpacedAtom(e)|, 2
  {
    match e
    case Variable(x) =>
      OccursAt(s, i, x, 0);
      assert ParseParenthesis(s, i) == None;
      VariableAt(x, s, i);
    case Value(t) =>
      OccursAt(s, i, t, 0);
      assert ParseParenthesis(s, i) == None;
      assert ParseVariable(s, i) == None;
      ValueAt(t, s, i);
    case BinOp(_, _, _) =>
      SpacedParenthesisAt(e, s, i);
  }

  lemma {:induction false} SpacedParenthesisAt(e: Expr, s: string, i: nat)
    requires e.BinOp? && WellFormed(e) && Occurs(s, i, SpacedAtom(e)) && SpacedFollowsAtom(s, i + |SpacedAtom(e)|)
    ensures ParseParenthesis(s, i) == Some(Parsed(e, i + |SpacedAtom(e)|))
    decreases |SpacedAtom(e)|, 1
  {
    SpacedParenthesised(e);
    SpacedWrappedText(s, i, SpacedLow(e));
    SpacedParenthesisInner(e, s, i);
  }

  /** The expression inside spaced parentheses, at its place in the line. */
  lemma {:induction false} SpacedParenthesisInner(e: Expr, s: string, i: nat)
    requires WellFormed(e) && i + 1 < |s| && s[i] == '(' && s[i + 1] == ' '
    requires Occurs(s, i + 2, SpacedLow(e))
    requires i + 3 + |SpacedLow(e)| < |s| && s[i + 2 + |SpacedLow(e)|] == ' ' && s[i + 3 + |SpacedLow(e)|] == ')'
    ensures ParseParenthesis(s, i) == Some(Parsed(e, i + 4 + |SpacedLow(e)|))
    decreases |SpacedLow(e)| + 4, 0
  {
    SpacedLowAt(e, s, i + 2);
    SpacedParenthesisStep(s, i, e, i + 2 + |SpacedLow(e)|);
  }

  lemma {:induction false} SpacedHighAt(e: Expr, s: string, i: nat)
    requires WellFormed(e) && Occurs(s, i, SpacedHigh(e)) && SpacedFollowsHigh(s, i + |SpacedHigh(e)|)
    ensures ParseHighPrecedence(s, i) == Some(Parsed(e, i + |SpacedHigh(e)|))
    decreases |SpacedHigh(e)|, 4
  {
    if e.BinOp? && !IsLow(e.operator) {
      SpacedHighAtOperator(e, s, i);
    } else {
      assert SpacedHigh(e) == SpacedAtom(e);
      SpacedAtomAt(e, s, i);
      SpacedHighStop(s, i, e, i + |SpacedHigh(e)|);
    }
  }

  lemma {:induction false} SpacedHighAtOperator(e: Expr, s: string, i: nat)
    requires e.BinOp? && !IsLow(e.operator)
    requires WellFormed(e) && Occurs(s, i, SpacedHigh(e)) && SpacedFollowsHigh(s, i + |SpacedHigh(e)|)
    ensures ParseHighPrecedence(s, i) == Some(Parsed(e, i + |SpacedHigh(e)|))
    decreases |SpacedHigh(e)|, 3
  {
    var BinOp(l, op, r) := e;
    var a, c, b := SpacedAtom(l), Symbol(op), SpacedHigh(r);
    assert SpacedHigh(e) == a + [' ', c, ' '] + b;
    SpacedOperatorText(s, i, a, c, b);
    SpacedHighOperands(l, op, r, s, i, i + |a|, i + |SpacedHigh(e)|);
  }

  /** The operands of a spaced high_precedence operator, each at its place in the line. */
  lemma {:induction false} SpacedHighOperands(l: Expr, op: Operator, r: Expr, s: string, i: nat, j: nat, k: nat)
    requires !IsLow(op) && WellFormed(l) && WellFormed(r)
    requires j == i + |SpacedAtom(l)| && k == j + 3 + |SpacedHigh(r)|
    requires Occurs(s, i, SpacedAtom(l)) && j + 2 < |s|
    requires s[j] == ' ' && s[j + 1] == Symbol(op) && s[j + 2] == ' '
    requires Occurs(s, j + 3, SpacedHigh(r)) && SpacedFollowsHigh(s, k)
    ensures ParseHighPrecedence(s, i) == Some(Parsed(BinOp(l, op, r), k))
    decreases |SpacedAtom(l)| + 3 + |SpacedHigh(r)|, 2
  {
    SpacedAtomAt(l, s, i);
    SpacedHighAt(r, s, j + 3);
    SpacedHighStep(s, i, l, op, r, j, k);
  }

  lemma {:induction false} SpacedLowAt(e: Expr, s: string, i: nat)
    requires WellFormed(e) && Occurs(s, i, SpacedLow(e)) && SpacedFollowsLow(s, i + |SpacedLow(e)|)
    ensures ParseLowPrecedence(s, i) == Some(Parsed(e, i + |SpacedLow(e)|))
    decreases |SpacedLow(e)|, 7
  {
    if e.BinOp? && IsLow(e.operator) {
      SpacedLowAtOperator(e, s, i);
    } else {
      assert SpacedLow(e) == SpacedHigh(e);
      SpacedHighAt(e, s, i);
      SpacedLowStop(s, i, e, i + |SpacedLow(e)|);
    }
  }

  lemma {:induction false} SpacedLowAtOperator(e: Expr, s: string, i: nat)
    requires e.BinOp? && IsLow(e.operator)
    requires WellFormed(e) && Occurs(s, i, SpacedLow(e)) && SpacedFollowsLow(s, i + |SpacedLow(e)|)
    ensures ParseLowPrecedence(s, i) == Some(Parsed(e, i + |SpacedLow(e)|))
    decreases |SpacedLow(e)|, 6
  {
    var BinOp(l, op, r) := e;
    var h, c, b := SpacedHigh(l), Symbol(op), SpacedLow(r);
    assert SpacedLow(e) == h + [' ', c, ' '] + b;
    SpacedOperatorText(s, i, h, c, b);
    SpacedLowOperands(l, op, r, s, i, i + |h|, i + |SpacedLow(e)|);
  }

  /** The operands of a spaced low_precedence operator, each at its place in the line. */
  lemma {:induction false} SpacedLowOperands(l: Expr, op: Operator, r: Expr, s: string, i: nat, j: nat, k: nat)
    requires IsLow(op) && WellFormed(l) && WellFormed(r)
    requires j == i + |SpacedHigh(l)| && k == j + 3 + |SpacedLow(r)|
    requires Occurs(s, i, SpacedHigh(l)) && j + 2 < |s|
    requires s[j] == ' ' && s[j + 1] == Symbol(op) && s[j + 2] == ' '
    requires Occurs(s, j + 3, SpacedLow(r)) && SpacedFollowsLow(s, k)
    ensures ParseLowPrecedence(s, i) == Some(Parsed(BinOp(l, op, r), k))
    decreases |SpacedHigh(l)| + 3 + |SpacedLow(r)|, 5
  {
    assert SpacedFollowsHigh(s, j);
    SpacedHighAt(l, s, i);
    SpacedLowAt(r, s, j + 3);
    SpacedLowStep(s, i, l, op, r, j, k);
  }

  /** A line with no `=` is not an assignment. */
  lemma NoEqualsNoAssignment(s: string)
    requires NoEquals(s)
    ensures ParseAssignment(s, 0) == None
  {
    var v := ParseVariable(s, 0);
    if v.Some? {
      var j := Wp(s, v.value.end);
      if j < |s| {
        assert s[j] != '=';
      }
    }
  }

  /** The text of a spaced assignment splits into its name, ` = `, and its expression. */
  lemma SpacedAssignmentText(x: string, t: string)
    ensures Occurs(x + " = " + t, 0, x) && |x + " = " + t| == |x| + 3 + |t|
    ensures (x + " = " + t)[|x|] == ' ' && (x + " = " + t)[|x| + 1] == '=' && (x + " = " + t)[|x| + 2] == ' '
    ensures Occurs(x + " = " + t, |x| + 3, t)
  {
    var s := x + " = " + t;
    OccursSplit(s, 0, x + " = ", t);
    OccursSplit(s, 0, x, " = ");
    OccursAt(s, |x|, " = ", 0);
    OccursAt(s, |x|, " = ", 1);
    OccursAt(s, |x|, " = ", 2);
  }

  /** A line made of a name, ` = `, and a well-formed expression's spaced text. */
  lemma SpacedAssignmentAt(s: string, x: string, e: Expr)
    requires IsIdentifier(x) && WellFormed(e)
    requires Occurs(s, 0, x) && |s| == |x| + 3 + |SpacedLow(e)|
    requires s[|x|] == ' ' && s[|x| + 1] == '=' && s[|x| + 2] == ' '
    requires Occurs(s, |x| + 3, SpacedLow(e))
    ensures Parse(s) == Some(Assignment(x, e))
  {
    VariableAt(x, s, 0);
    SpacedLowAt(e, s, |x| + 3);
    SpacedAssignmentStep(s, x, e, |x|);
  }

  lemma SpacedAssignmentLine(x: string, e: Expr)
    requires IsIdentifier(x) && WellFormed(e)
    ensures Parse(x + " = " + SpacedLow(e)) == Some(Assignment(x, e))
  {
    SpacedAssignmentText(x, SpacedLow(e));
    SpacedAssignmentAt(x + " = " + SpacedLow(e), x, e);
  }

  lemma SpacedExpressionLine(e: Expr)
    requires WellFormed(e)
    ensures Parse(SpacedLow(e)) == Some(Expression(e))
  {
    var s := SpacedLow(e);
    assert Occurs(s, 0, s);
    SpacedNoEquals(e);
    NoEqualsNoAssignment(s);
    SpacedLowAt(e, s, 0);
  }

  /** Parse reads every well-formed instruction back from its fully spaced text. */
  lemma SpacedParseRoundTrip(ins: Instruction)
    requires WellFormedInstruction(ins)
    ensures Parse(SpacedPrint(ins)) == Some(ins)
  {
    match ins
    case Assignment(x, e) => SpacedAssignmentLine(x, e);
    case Expression(e) => SpacedExpressionLine(e);
  }

  /** A blank at every `wp?` place gives the same tree as no blank at all. */
  lemma BlanksKeepTree(ins: Instruction)
    requires WellFormedInstruction(ins)
    ensures Parse(SpacedPrint(ins)) == Parse(Print(ins)) == Some(ins)
  {
    SpacedParseRoundTrip(ins);
    ParseRoundTrip(ins);
  }
}
