/**
 * `REPL#evaluate`: a post-order walk of the tree.  Numbers are reals; `+`,
 * `-` and `*` are exact, while `/` and `%` on Floats (rounding, division by
 * zero, the sign of a remainder) are left to the host, a parameter.  A
 * variable that was never assigned reads as nil (None), the default of the
 * variables hash.  nil on the left of an operator has no such method
 * (NoMethodError); a number cannot be combined with nil on its right
 * (TypeError).  As in any method call, the receiver is evaluated first,
 * then the argument, then the operator is sent.
 */
module Evaluation {
  import opened Wrappers
  import opened Lexical
  import opened Syntax

  /** The exceptions a line can raise. */
  datatype Error = UnbalancedParens | NoMethodError | TypeError

  /** What running a line gives back: a value (possibly nil), or an exception. */
  datatype Outcome = Returned(value: Option<real>) | Raised(error: Error)

  /** Float division and remainder, as the host computes them. */
  datatype FloatOps = FloatOps(quotient: (real, real) -> real, remainder: (real, real) -> real)

  type Variables = map<string, Option<real>>

  /** `@variables[x]`: the stored value, or nil when x was never assigned. */
  function Lookup(vars: Variables, x: string): (v: Option<real>)
    ensures v.Some? ==> x in vars && vars[x] == v
  {
    if x in vars then vars[x] else None
  }

  /** `send(operator, y)` on the Float x. */
  function Apply(op: Operator, x: real, y: real, host: FloatOps): real {
    match op
    case Plus => x + y
    case Minus => x - y
    case Times => x * y
    case Divide => host.quotient(x, y)
    case Modulo => host.remainder(x, y)
  }

  /** Digits read after a decimal point: a fraction at least zero and below one. */
  function Decimal(f: string): (r: real)
    requires AllDigits(f)
    ensures 0.0 <= r < 1.0
  {
    FractionBelowOne(DigitsValue(f), Pow10(|f|));
    DigitsValue(f) as real / Pow10(|f|) as real
  }

  /**
   * `to_f` of a number's text: the value of its leading digits plus, when a
   * dot and digits follow, those digits as a decimal fraction.
   */
  function ToF(t: string): (r: real)
    ensures r >= 0.0
  {
    var p := Span(t, 0, IsDigit);
    var whole := DigitsValue(t[..p]) as real;
    if p + 1 < |t| && t[p] == '.' && IsDigit(t[p + 1]) then
      var q := Span(t, p + 1, IsDigit);
      whole + Decimal(t[p + 1..q])
    else
      whole
  }

  /** nil comes back only from reading a single name that holds no number. */
  function Evaluate(e: Expr, vars: Variables, host: FloatOps): (o: Outcome)
    ensures o == Returned(None) <==> e.Variable? && Lookup(vars, e.variable).None?
  {
    match e
    case Value(t) => Returned(Some(ToF(t)))
    case Variable(x) => Returned(Lookup(vars, x))
    case BinOp(l, op, r) =>
      var a := Evaluate(l, vars, host);
      if a.Raised? then a
      else
        var b := Evaluate(r, vars, host);
        if b.Raised? then b
        else if a.value.None? then Raised(NoMethodError)
        else if b.value.None? then Raised(TypeError)
        else Returned(Some(Apply(op, a.value.value, b.value.value, host)))
  }

  /** The names a tree reads. */
  function FreeVars(e: Expr): set<string> {
    match e
    case BinOp(l, _, r) => FreeVars(l) + FreeVars(r)
    case Variable(x) => {x}
    case Value(_) => {}
  }

  /** Every name the tree reads holds a number. */
  predicate Bound(e: Expr, vars: Variables) {
    forall x :: x in FreeVars(e) ==> Lookup(vars, x).Some?
  }

  /** A tree evaluates to a number exactly when every name it reads holds one. */
  lemma {:induction false} EvaluatesToNumber(e: Expr, vars: Variables, host: FloatOps)
    ensures Evaluate(e, vars, host).Returned? && Evaluate(e, vars, host).value.Some? <==> Bound(e, vars)
  {
    match e
    case Value(_) =>
    case Variable(x) =>
      assert x in FreeVars(e);
    case BinOp(l, op, r) =>
      EvaluatesToNumber(l, vars, host);
      EvaluatesToNumber(r, vars, host);
  }

  /** An exception comes only from an operator whose operands read a name without a number. */
  lemma {:induction false} RaisesExactly(e: Expr, vars: Variables, host: FloatOps)
    ensures Evaluate(e, vars, host).Raised? <==> e.BinOp? && !Bound(e, vars)
  {
    match e
    case Value(_) =>
    case Variable(_) =>
    case BinOp(l, op, r) =>
      EvaluatesToNumber(l, vars, host);
      EvaluatesToNumber(r, vars, host);
  }

  /** Evaluation raises only the two errors of nil operands, never a parse error. */
  lemma {:induction false} RaisesOnlyNilErrors(e: Expr, vars: Variables, host: FloatOps)
    ensures Evaluate(e, vars, host).Raised? ==> Evaluate(e, vars, host).error in {NoMethodError, TypeError}
  {
    match e
    case Value(_) =>
    case Variable(_) =>
    case BinOp(l, op, r) =>
      RaisesOnlyNilErrors(l, vars, host);
      RaisesOnlyNilErrors(r, vars, host);
  }

  /** The outcome depends on the variables only through the names the tree reads. */
  lemma {:induction false} EvaluateLocal(e: Expr, v: Variables, w: Variables, host: FloatOps)
    requires forall x :: x in FreeVars(e) ==> Lookup(v, x) == Lookup(w, x)
    ensures Evaluate(e, v, host) == Evaluate(e, w, host)
  {
    match e
    case Value(_) =>
    case Variable(x) =>
      assert x in FreeVars(e);
    case BinOp(l, op, r) =>
      EvaluateLocal(l, v, w, host);
      EvaluateLocal(r, v, w, host);
  }

  /** The arithmetic meaning of a tree when every name has a number. */
  function Denote(e: Expr, env: string -> real, host: FloatOps): real {
    match e
    case BinOp(l, op, r) => Apply(op, Denote(l, env, host), Denote(r, env, host), host)
    case Variable(x) => env(x)
    case Value(t) => ToF(t)
  }

  /** Where every name the tree reads holds a number, evaluation gives the tree's arithmetic meaning. */
  lemma {:induction false} EvaluateDenotes(e: Expr, vars: Variables, env: string -> real, host: FloatOps)
    requires forall x :: x in FreeVars(e) ==> Lookup(vars, x) == Some(env(x))
    ensures Evaluate(e, vars, host) == Returned(Some(Denote(e, env, host)))
  {
    match e
    case Value(_) =>
    case Variable(x) =>
      assert x in FreeVars(e);
    case BinOp(l, op, r) =>
      EvaluateDenotes(l, vars, env, host);
      EvaluateDenotes(r, vars, env, host);
  }

  /** A number without a fraction reads as the integer its digits spell. */
  lemma ToFWhole(t: string)
    requires |t| > 0 && AllDigits(t)
    ensures ToF(t) == DigitsValue(t) as real
  {
    SpanExact(t, 0, |t|, IsDigit);
    assert t[..|t|] == t;
  }

  /** The decimal text of a natural number reads back as that number. */
  lemma ToFNatural(n: nat)
    ensures ToF(NatText(n)) == n as real
  {
    ToFWhole(NatText(n));
  }

  /** A text split at a dot into two digit runs reads as the first run plus the second over its power of ten. */
  lemma ToFSplit(t: string, p: nat)
    requires 0 < p && p + 1 < |t| && t[p] == '.'
    requires forall k :: 0 <= k < p ==> IsDigit(t[k])
    requires forall k :: p + 1 <= k < |t| ==> IsDigit(t[k])
    ensures ToF(t) == DigitsValue(t[..p]) as real + Decimal(t[p + 1..|t|])
  {
    SpanExact(t, 0, p, IsDigit);
    assert IsDigit(t[p + 1]);
    SpanExact(t, p + 1, |t|, IsDigit);
  }

  /** The text `w.f` of two digit runs: its dot, its digits and its two runs in place. */
  lemma DottedText(w: string, f: string, t: string)
    requires AllDigits(w) && AllDigits(f) && t == w + "." + f
    ensures |t| == |w| + 1 + |f| && t[|w|] == '.'
    ensures forall k :: 0 <= k < |w| ==> IsDigit(t[k])
    ensures forall k :: |w| + 1 <= k < |t| ==> IsDigit(t[k])
    ensures t[..|w|] == w && t[|w| + 1..|t|] == f
  {
    assert forall k :: 0 <= k < |w| ==> t[k] == w[k];
    assert forall k :: |w| + 1 <= k < |t| ==> t[k] == f[k - |w| - 1];
    assert t[..|w|] == w;
    assert t[|w| + 1..|t|] == f;
  }

  /** A number with a fraction reads as its whole part plus its fraction digits over the matching power of ten. */
  lemma ToFFraction(w: string, f: string)
    requires |w| > 0 && AllDigits(w) && |f| > 0 && AllDigits(f)
    ensures ToF(w + "." + f) == DigitsValue(w) as real + DigitsValue(f) as real / Pow10(|f|) as real
  {
    var t := w + "." + f;
    DottedText(w, f, t);
    ToFSplit(t, |w|);
    assert Decimal(f) == DigitsValue(f) as real / Pow10(|f|) as real;
  }

  /** `1.5` reads as 1.5. */
  lemma ToFOneAndAHalf()
    ensures ToF("1.5") == 1.5
  {
    ToFFraction("1", "5");
    assert "1" + "." + "5" == "1.5";
    assert DigitsValue("1") == 1 && DigitsValue("5") == 5 && Pow10(1) == 10;
  }

  lemma FractionBelowOne(a: nat, b: nat)
    requires a < b
    ensures 0.0 <= a as real / b as real < 1.0
  {
    var x := a as real / b as real;
    assert x * b as real == a as real;
  }

  /** A numeral's value lies between its whole part and the next integer. */
  lemma ToFBounds(t: string)
    requires IsNumeral(t)
    ensures var w := DigitsValue(t[..Span(t, 0, IsDigit)]) as real; w <= ToF(t) < w + 1.0
  {
  }
}
