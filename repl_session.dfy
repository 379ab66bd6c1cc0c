/**
 * `REPL`: a session that owns the variables hash.  `run` parses a line,
 * turns any parse failure into UnbalancedParens, and then either evaluates
 * the expression or evaluates the right-hand side of an assignment and
 * stores it.  The store happens only after evaluation has finished, so a
 * line that raises changes nothing.
 */
module Session {
  import opened Wrappers
  import opened Lexical
  import opened Syntax
  import opened ReplParser
  import opened ParserShape
  import opened ParserRoundTrip
  import opened Evaluation

  /** What one `run` returns, and the variables after it. */
  datatype Step = Step(output: Outcome, variables: Variables)

  /** `run(line)` on the variables vars. */
  function RunLine(vars: Variables, line: string, host: FloatOps): (r: Step)
    ensures r.output.Raised? ==> r.variables == vars
    ensures vars.Keys <= r.variables.Keys
  {
    match Parse(line)
    case None => Step(Raised(UnbalancedParens), vars)
    case Some(Expression(e)) => Step(Evaluate(e, vars, host), vars)
    case Some(Assignment(x, e)) =>
      var o := Evaluate(e, vars, host);
      if o.Raised? then Step(o, vars) else Step(o, vars[x := o.value])
  }

  class Repl {
    var variables: Variables
    const host: FloatOps

    /** `initialize`: no variable is defined yet. */
    constructor(host: FloatOps)
      ensures variables == map[] && this.host == host
    {
      variables := map[];
      this.host := host;
    }

    method Run(line: string) returns (out: Outcome)
      modifies this
      ensures Step(out, variables) == RunLine(old(variables), line, host)
    {
      var tree := Parse(line);
      if tree.None? {
        out := Raised(UnbalancedParens);
        return;
      }
      match tree.value
      case Assignment(x, e) =>
        out := Evaluate(e, variables, host);
        if out.Returned? {
          variables := variables[x := out.value];
        }
      case Expression(e) =>
        out := Evaluate(e, variables, host);
    }
  }

  /** A line that raises leaves every variable as it was. */
  lemma RaisingLineKeepsVariables(vars: Variables, line: string, host: FloatOps)
    requires RunLine(vars, line, host).output.Raised?
    ensures RunLine(vars, line, host).variables == vars
  {
  }

  /** Every line that is not shaped like an accepted line raises UnbalancedParens, before anything is evaluated. */
  lemma UnshapedLineRaises(vars: Variables, line: string, host: FloatOps)
    requires !Shaped(line, 0, |line|)
    ensures RunLine(vars, line, host) == Step(Raised(UnbalancedParens), vars)
  {
    if Parse(line).Some? {
      AcceptedShape(line);
    }
  }

  /** UnbalancedParens is raised exactly by the lines that do not parse. */
  lemma UnbalancedParensExactly(vars: Variables, line: string, host: FloatOps)
    ensures RunLine(vars, line, host).output == Raised(UnbalancedParens) <==> Parse(line).None?
  {
    match Parse(line)
    case None =>
    case Some(ins) =>
      var e := if ins.Assignment? then ins.expression else ins.expr;
      RaisesOnlyNilErrors(e, vars, host);
  }

  /** A line that is not an assignment never changes the variables. */
  lemma BareLineKeepsVariables(vars: Variables, line: string, host: FloatOps)
    requires Parse(line).None? || Parse(line).value.Expression?
    ensures RunLine(vars, line, host).variables == vars
  {
  }

  /** Running the same bare line twice in a row gives the same result twice. */
  lemma BareLineRepeats(vars: Variables, line: string, host: FloatOps)
    requires Parse(line).None? || Parse(line).value.Expression?
    ensures RunLine(RunLine(vars, line, host).variables, line, host) == RunLine(vars, line, host)
  {
    BareLineKeepsVariables(vars, line, host);
  }

  /**
   * An assignment returns the value of its right-hand side, evaluated with
   * the variables as they were; when that succeeds it binds the name to it
   * and leaves every other name as it was, and when it raises nothing is
   * stored.
   */
  lemma AssignmentStores(vars: Variables, line: string, host: FloatOps, x: string, e: Expr)
    requires Parse(line) == Some(Assignment(x, e))
    ensures RunLine(vars, line, host).output == Evaluate(e, vars, host)
    ensures Evaluate(e, vars, host).Returned? ==>
      Lookup(RunLine(vars, line, host).variables, x) == Evaluate(e, vars, host).value
    ensures Evaluate(e, vars, host).Raised? ==> RunLine(vars, line, host).variables == vars
    ensures forall y :: y != x ==> Lookup(RunLine(vars, line, host).variables, y) == Lookup(vars, y)
  {
  }

  /** A line holding only a name is a read of that name, not an assignment. */
  lemma NameLineReads(vars: Variables, x: string, host: FloatOps)
    requires IsIdentifier(x)
    ensures RunLine(vars, x, host) == Step(Returned(Lookup(vars, x)), vars)
  {
    ParseRoundTrip(Expression(Variable(x)));
    assert PrintLow(Variable(x)) == PrintHigh(Variable(x)) == PrintAtom(Variable(x)) == x;
  }

  /** After `x=e` has stored a value, the line `x` returns it. */
  lemma AssignThenRead(vars: Variables, x: string, e: Expr, host: FloatOps)
    requires IsIdentifier(x) && WellFormed(e)
    requires Evaluate(e, vars, host).Returned?
    ensures RunLine(RunLine(vars, x + "=" + PrintLow(e), host).variables, x, host).output
         == Evaluate(e, vars, host)
  {
    ParseRoundTrip(Assignment(x, e));
    NameLineReads(RunLine(vars, x + "=" + PrintLow(e), host).variables, x, host);
  }

  /** A name that was never assigned reads as nil, not as 0 and not as an error. */
  lemma UnassignedReadsNil(vars: Variables, x: string, host: FloatOps)
    requires IsIdentifier(x) && x !in vars
    ensures RunLine(vars, x, host).output == Returned(None)
  {
    NameLineReads(vars, x, host);
  }
}
