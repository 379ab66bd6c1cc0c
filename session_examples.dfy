/**
 * The session's documented examples, each from a fresh session: a single
 * number, a sum, an assignment read back, a stray parenthesis, a product
 * with a parenthesised sum, and chains of one operator level.
 */
module SessionExamples {
  import opened Wrappers
  import opened Lexical
  import opened Syntax
  import opened ReplParser
  import opened ParserRoundTrip
  import opened SpacedRoundTrip
  import opened Evaluation
  import opened ParserShape
  import opened Session

  /** A number of digits alone: well formed, printed as itself at every level, read as its value. */
  lemma Digits(t: string, n: nat)
    requires |t| > 0 && AllDigits(t) && DigitsValue(t) == n
    ensures WellFormed(Value(t)) && PrintLow(Value(t)) == PrintHigh(Value(t)) == PrintAtom(Value(t)) == t
    ensures ToF(t) == n as real
  {
    SpanExact(t, 0, |t|, IsDigit);
    ToFWhole(t);
  }

  /** A line printed from an expression runs as that expression, on the variables as they are. */
  lemma RunsExpression(vars: Variables, line: string, e: Expr, host: FloatOps)
    requires WellFormed(e) && PrintLow(e) == line
    ensures RunLine(vars, line, host) == Step(Evaluate(e, vars, host), vars)
  {
    ParseRoundTrip(Expression(e));
  }

  lemma SingleNumber(vars: Variables, host: FloatOps)
    ensures RunLine(vars, "1", host) == Step(Returned(Some(1.0)), vars)
  {
    Digits("1", 1);
    RunsExpression(vars, "1", Value("1"), host);
  }

  lemma SmallSum(vars: Variables, host: FloatOps)
    ensures RunLine(vars, "1+2", host) == Step(Returned(Some(3.0)), vars)
  {
    Digits("1", 1);
    Digits("2", 2);
    var e := BinOp(Value("1"), Plus, Value("2"));
    assert PrintLow(e) == "1" + "+" + "2" == "1+2";
    RunsExpression(vars, "1+2", e, host);
    assert Evaluate(e, vars, host) == Returned(Some(1.0 + 2.0));
  }

  lemma AssignOne(vars: Variables, host: FloatOps)
    ensures RunLine(vars, "a=1", host) == Step(Returned(Some(1.0)), vars["a" := Some(1.0)])
  {
    Digits("1", 1);
    ParseRoundTrip(Assignment("a", Value("1")));
    assert Print(Assignment("a", Value("1"))) == "a" + "=" + "1" == "a=1";
  }

  lemma ReadA(vars: Variables, host: FloatOps)
    ensures RunLine(vars, "a", host) == Step(Returned(Lookup(vars, "a")), vars)
  {
    NameLineReads(vars, "a", host);
  }

  lemma StrayParenthesis(vars: Variables, host: FloatOps)
    ensures RunLine(vars, ")", host) == Step(Raised(UnbalancedParens), vars)
  {
    StrayCloseRejected();
  }

  lemma ProductOfSum(vars: Variables, host: FloatOps)
    ensures RunLine(vars, "2*(1+1)", host) == Step(Returned(Some(4.0)), vars)
  {
    Digits("1", 1);
    Digits("2", 2);
    var inner := BinOp(Value("1"), Plus, Value("1"));
    var e := BinOp(Value("2"), Times, inner);
    assert PrintAtom(inner) == "(" + ("1" + "+" + "1") + ")" == "(1+1)";
    assert PrintHigh(inner) == PrintAtom(inner);
    assert PrintLow(e) == PrintHigh(e) == "2" + "*" + "(1+1)" == "2*(1+1)";
    RunsExpression(vars, "2*(1+1)", e, host);
    assert Evaluate(inner, vars, host) == Returned(Some(2.0));
    assert Evaluate(e, vars, host) == Returned(Some(2.0 * 2.0));
  }

  lemma ChainedSum(vars: Variables, host: FloatOps)
    ensures RunLine(vars, "1+1+1", host) == Step(Returned(Some(3.0)), vars)
  {
    Digits("1", 1);
    var inner := BinOp(Value("1"), Plus, Value("1"));
    var e := BinOp(Value("1"), Plus, inner);
    assert PrintLow(inner) == "1" + "+" + "1" == "1+1";
    assert PrintLow(e) == "1" + "+" + "1+1" == "1+1+1";
    RunsExpression(vars, "1+1+1", e, host);
    assert Evaluate(inner, vars, host) == Returned(Some(2.0));
    assert Evaluate(e, vars, host) == Returned(Some(1.0 + 2.0));
  }

  /** Right grouping: `10-5-2` is `10-(5-2)`, which is 7. */
  lemma ChainedDifference(vars: Variables, host: FloatOps)
    ensures RunLine(vars, "10-5-2", host) == Step(Returned(Some(7.0)), vars)
  {
    Digits("10", 10);
    Digits("5", 5);
    Digits("2", 2);
    var inner := BinOp(Value("5"), Minus, Value("2"));
    var e := BinOp(Value("10"), Minus, inner);
    assert PrintLow(inner) == "5" + "-" + "2" == "5-2";
    assert PrintLow(e) == "10" + "-" + "5-2" == "10-5-2";
    RunsExpression(vars, "10-5-2", e, host);
    assert Evaluate(inner, vars, host) == Returned(Some(3.0));
    assert Evaluate(e, vars, host) == Returned(Some(10.0 - 3.0));
  }

  /** `a = 2 * 3` read through its characters, each blank accepted in its place. */
  lemma SpacedLineAt(s: string)
    requires |s| == 9 && s[0] == 'a' && s[1] == ' ' && s[2] == '=' && s[3] == ' '
    requires s[4] == '2' && s[5] == ' ' && s[6] == '*' && s[7] == ' ' && s[8] == '3'
    ensures Parse(s) == Some(Assignment("a", BinOp(Value("2"), Times, Value("3"))))
  {
    Digits("2", 2);
    Digits("3", 3);
    ValueAt("3", s, 8);
    HighStop(s, 8, Value("3"), 9);
    ValueAt("2", s, 4);
    SpacedHighStep(s, 4, Value("2"), Times, Value("3"), 5, 9);
    LowStop(s, 4, BinOp(Value("2"), Times, Value("3")), 9);
    assert Occurs(s, 0, "a");
    VariableAt("a", s, 0);
    SpacedAssignmentStep(s, "a", BinOp(Value("2"), Times, Value("3")), 1);
  }

  lemma SpacedLine()
    ensures Parse("a = 2 * 3") == Some(Assignment("a", BinOp(Value("2"), Times, Value("3"))))
  {
    SpacedLineAt("a = 2 * 3");
  }

  lemma SmallProduct(vars: Variables, host: FloatOps)
    ensures Evaluate(BinOp(Value("2"), Times, Value("3")), vars, host) == Returned(Some(6.0))
  {
    Digits("2", 2);
    Digits("3", 3);
  }

  /** `a = 2 * 3` returns 6 and stores it. */
  lemma SpacedAssignment(vars: Variables, host: FloatOps)
    ensures RunLine(vars, "a = 2 * 3", host) == Step(Returned(Some(6.0)), vars["a" := Some(6.0)])
  {
    SpacedLine();
    SmallProduct(vars, host);
  }

  /** The examples run on the session object, each on a fresh session. */
  method Examples(host: FloatOps)
    returns (one: Outcome, sum: Outcome, read: Outcome, stray: Outcome, product: Outcome, chain: Outcome)
    ensures one == Returned(Some(1.0)) && sum == Returned(Some(3.0)) && read == Returned(Some(1.0))
    ensures stray == Raised(UnbalancedParens)
    ensures product == Returned(Some(4.0)) && chain == Returned(Some(3.0))
  {
    var r := new Repl(host);
    SingleNumber(r.variables, host);
    one := r.Run("1");

    r := new Repl(host);
    SmallSum(r.variables, host);
    sum := r.Run("1+2");

    r := new Repl(host);
    AssignOne(r.variables, host);
    var _ := r.Run("a=1");
    ReadA(r.variables, host);
    read := r.Run("a");

    r := new Repl(host);
    StrayParenthesis(r.variables, host);
    stray := r.Run(")");

    r := new Repl(host);
    ProductOfSum(r.variables, host);
    product := r.Run("2*(1+1)");

    r := new Repl(host);
    ChainedSum(r.variables, host);
    chain := r.Run("1+1+1");
  }
}
