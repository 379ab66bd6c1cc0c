/**
 * The calculator grammar as a recursive-descent PEG over the characters of
 * one line.  Each rule is a function from a start position to the tree it
 * captures and the position after it, or None when the rule fails.
 *
 * Ordered choice `A >> rest | A` is written by running A once: A is
 * deterministic, so when `rest` fails the second alternative would produce
 * exactly the result A already produced.  `repeat` is greedy (Span) and
 * `maybe` takes its argument when it matches (Wp, the fraction of a value).
 */
module ReplParser {
  import opened Wrappers
  import opened Lexical
  import opened Syntax

  datatype Parsed = Parsed(tree: Expr, end: nat)

  datatype ParsedLine = ParsedLine(instruction: Instruction, end: nat)

  /** rule `wp?`: one optional space or tab. */
  function Wp(s: string, i: nat): (j: nat)
    requires i <= |s|
    ensures i <= j <= |s| && j <= i + 1
    ensures j == i + 1 <==> i < |s| && IsBlank(s[i])
  {
    if i < |s| && IsBlank(s[i]) then i + 1 else i
  }

  /** rule `variable`: a letter, then letters or digits, taken greedily. */
  function ParseVariable(s: string, i: nat): (r: Option<Parsed>)
    requires i <= |s|
    ensures r.Some? ==> i < r.value.end <= |s| && r.value.tree == Variable(s[i..r.value.end])
  {
    if i < |s| && IsLetter(s[i]) then
      var j := Span(s, i + 1, IsAlnum);
      Some(Parsed(Variable(s[i..j]), j))
    else
      None
  }

  /** rule `value`: digits, then optionally `.` and digits. */
  function ParseValue(s: string, i: nat): (r: Option<Parsed>)
    requires i <= |s|
    ensures r.Some? ==> i < r.value.end <= |s| && r.value.tree == Value(s[i..r.value.end])
  {
    if i < |s| && IsDigit(s[i]) then
      var j := Span(s, i + 1, IsDigit);
      var k := if j + 1 < |s| && s[j] == '.' && IsDigit(s[j + 1]) then Span(s, j + 2, IsDigit) else j;
      Some(Parsed(Value(s[i..k]), k))
    else
      None
  }

  /** rule `parenthesis`: `(`, wp?, low_precedence, wp?, `)`; the parentheses add no node. */
  function ParseParenthesis(s: string, i: nat): (r: Option<Parsed>)
    requires i <= |s|
    ensures r.Some? ==> i < r.value.end <= |s|
    decreases |s| - i, 0
  {
    if i < |s| && s[i] == '(' then
      match ParseLowPrecedence(s, Wp(s, i + 1))
      case None => None
      case Some(p) =>
        var k := Wp(s, p.end);
        if k < |s| && s[k] == ')' then Some(Parsed(p.tree, k + 1)) else None
    else
      None
  }

  /** rule `atom`: parenthesis | variable | value. */
  function ParseAtom(s: string, i: nat): (r: Option<Parsed>)
    requires i <= |s|
    ensures r.Some? ==> i < r.value.end <= |s|
    decreases |s| - i, 1
  {
    var p := ParseParenthesis(s, i);
    if p.Some? then p
    else
      var v := ParseVariable(s, i);
      if v.Some? then v else ParseValue(s, i)
  }

  /** rule `high_precedence`: atom, wp?, one of `*` `/` `%`, wp?, high_precedence | atom. */
  function ParseHighPrecedence(s: string, i: nat): (r: Option<Parsed>)
    requires i <= |s|
    ensures r.Some? ==> i < r.value.end <= |s|
    decreases |s| - i, 2
  {
    match ParseAtom(s, i)
    case None => None
    case Some(a) =>
      var j := Wp(s, a.end);
      if j < |s| && IsHighOperatorChar(s[j]) then
        match ParseHighPrecedence(s, Wp(s, j + 1))
        case Some(b) => Some(Parsed(BinOp(a.tree, OperatorOf(s[j]), b.tree), b.end))
        case None => Some(a)
      else
        Some(a)
  }

  /** rule `low_precedence`: high_precedence, wp?, `[+-]`, wp?, low_precedence | high_precedence. */
  function ParseLowPrecedence(s: string, i: nat): (r: Option<Parsed>)
    requires i <= |s|
    ensures r.Some? ==> i < r.value.end <= |s|
    decreases |s| - i, 3
  {
    match ParseHighPrecedence(s, i)
    case None => None
    case Some(h) =>
      var j := Wp(s, h.end);
      if j < |s| && IsLowOperatorChar(s[j]) then
        match ParseLowPrecedence(s, Wp(s, j + 1))
        case Some(b) => Some(Parsed(BinOp(h.tree, OperatorOf(s[j]), b.tree), b.end))
        case None => Some(h)
      else
        Some(h)
  }

  /** rule `assignment`: variable, wp?, `=`, wp?, low_precedence captured as the expression. */
  function ParseAssignment(s: string, i: nat): (r: Option<ParsedLine>)
    requires i <= |s|
    ensures r.Some? ==> i < r.value.end <= |s| && r.value.instruction.Assignment?
  {
    match ParseVariable(s, i)
    case None => None
    case Some(v) =>
      var j := Wp(s, v.end);
      if j < |s| && s[j] == '=' then
        match ParseLowPrecedence(s, Wp(s, j + 1))
        case None => None
        case Some(e) => Some(ParsedLine(Assignment(v.tree.variable, e.tree), e.end))
      else
        None
  }

  /** rule `instruction`, the root: assignment is tried first, then low_precedence. */
  function ParseInstruction(s: string): (r: Option<ParsedLine>)
    ensures r.Some? ==> 0 < r.value.end <= |s|
  {
    var a := ParseAssignment(s, 0);
    if a.Some? then a
    else
      match ParseLowPrecedence(s, 0)
      case None => None
      case Some(e) => Some(ParsedLine(Expression(e.tree), e.end))
  }

  /** `parse`: the root rule must consume the whole line; there is no retry after it. */
  function Parse(s: string): (r: Option<Instruction>)
    ensures r.Some? ==> |s| > 0
  {
    match ParseInstruction(s)
    case None => None
    case Some(l) => if l.end == |s| then Some(l.instruction) else None
  }
}
