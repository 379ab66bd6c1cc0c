/**
 * What every line the grammar accepts looks like: it uses only the
 * grammar's characters, a blank stands alone and only where `wp?` is tried,
 * it starts with `(` or a name or number and ends with `)` or a name or
 * number, its parentheses balance, and its tree is well formed.  Every
 * other line fails to parse, which `run` reports as UnbalancedParens.
 */
module ParserShape {
  import opened Wrappers
  import opened Lexical
  import opened Syntax
  import opened ReplParser

  /** The characters that sit between two operands: an operator or `=`. */
  predicate IsInfix(c: char) { IsOperatorChar(c) || c == '=' }

  /** Every character any rule of the grammar matches. */
  predicate InAlphabet(c: char) {
    IsAlnum(c) || IsBlank(c) || IsInfix(c) || c == '(' || c == ')' || c == '.'
  }

  /** A `wp?` may come right after these ... */
  predicate Opener(c: char) { c == '(' || IsInfix(c) }

  /** ... or right before these. */
  predicate Closer(c: char) { c == ')' || IsInfix(c) }

  predicate Starts(c: char) { c == '(' || IsAlnum(c) }

  predicate Ends(c: char) { c == ')' || IsAlnum(c) }

  /** The character at k is one the grammar matches. */
  predicate Legal(s: string, k: nat)
    requires k < |s|
  {
    InAlphabet(s[k])
  }

  /** A blank at k stands alone, next to a place where `wp?` is tried. */
  predicate BlankPlaced(s: string, k: nat)
    requires 0 < k < |s| - 1
  {
    IsBlank(s[k]) ==> !IsBlank(s[k + 1]) && (Opener(s[k - 1]) || Closer(s[k + 1]))
  }

  /** s[i..j] is a tidy piece of text: see the module comment. */
  predicate Tidy(s: string, i: nat, j: nat) {
    i < j <= |s| && Starts(s[i]) && Ends(s[j - 1]) &&
    (forall k :: i <= k < j ==> Legal(s, k)) &&
    (forall k :: i < k < j - 1 ==> BlankPlaced(s, k))
  }

  function Delta(c: char): int {
    if c == '(' then 1 else if c == ')' then -1 else 0
  }

  /** Open parentheses minus closed ones in s[i..j]. */
  function Depth(s: string, i: nat, j: nat): int
    requires i <= j <= |s|
    decreases j - i
  {
    if i == j then 0 else Depth(s, i, j - 1) + Delta(s[j - 1])
  }

  /** s[i..j] closes every parenthesis it opens and never closes one it did not open. */
  predicate Balanced(s: string, i: nat, j: nat)
    requires i <= j <= |s|
  {
    Depth(s, i, j) == 0 && forall m :: i <= m <= j ==> Depth(s, i, m) >= 0
  }

  predicate Shaped(s: string, i: nat, j: nat) {
    Tidy(s, i, j) && Balanced(s, i, j)
  }

  lemma {:induction false} DepthSplit(s: string, i: nat, m: nat, j: nat)
    requires i <= m <= j <= |s|
    ensures Depth(s, i, j) == Depth(s, i, m) + Depth(s, m, j)
    decreases j - m
  {
    if m < j {
      DepthSplit(s, i, m, j - 1);
    }
  }

  lemma BalancedJoin(s: string, i: nat, m: nat, j: nat)
    requires i <= m <= j <= |s| && Balanced(s, i, m) && Balanced(s, m, j)
    ensures Balanced(s, i, j)
  {
    forall n | m <= n <= j ensures Depth(s, i, n) == Depth(s, m, n) {
      DepthSplit(s, i, m, n);
    }
  }

  lemma {:induction false} FlatDepth(s: string, i: nat, j: nat)
    requires i <= j <= |s| && forall k :: i <= k < j ==> s[k] != '(' && s[k] != ')'
    ensures Depth(s, i, j) == 0
    decreases j - i
  {
    if i < j {
      FlatDepth(s, i, j - 1);
    }
  }

  /** A piece without parentheses is balanced. */
  lemma BalancedFlat(s: string, i: nat, j: nat)
    requires i <= j <= |s| && forall k :: i <= k < j ==> s[k] != '(' && s[k] != ')'
    ensures Balanced(s, i, j)
  {
    forall m | i <= m <= j ensures Depth(s, i, m) == 0 {
      FlatDepth(s, i, m);
    }
  }

  /** A balanced piece in parentheses is balanced. */
  lemma BalancedWrap(s: string, i: nat, j: nat)
    requires i + 2 <= j <= |s| && s[i] == '(' && s[j - 1] == ')' && Balanced(s, i + 1, j - 1)
    ensures Balanced(s, i, j)
  {
    forall m | i + 1 <= m <= j ensures Depth(s, i, m) == 1 + Depth(s, i + 1, m) {
      DepthSplit(s, i, i + 1, m);
    }
    assert Depth(s, i, j) == Depth(s, i, j - 1) - 1;
  }

  /** The blanks `wp?` may leave between two tidy pieces and a middle character. */
  lemma TidyAround(s: string, i: nat, m: nat, j: nat, q: nat, n: nat)
    requires Tidy(s, i, m) && m <= j <= m + 1 && j < |s| && (j == m + 1 ==> IsBlank(s[m]))
    requires IsInfix(s[j])
    requires j + 1 <= q <= j + 2 && (q == j + 2 ==> j + 1 < |s| && IsBlank(s[j + 1]))
    requires Tidy(s, q, n)
    ensures Tidy(s, i, n)
  {
    forall k | i <= k < n ensures Legal(s, k) {
      if k < m {
        assert Legal(s, k);
      } else if q <= k {
        assert Legal(s, k);
      }
    }
    forall k | i < k < n - 1 ensures BlankPlaced(s, k) {
      if k < m - 1 {
        assert BlankPlaced(s, k);
      } else if k == m - 1 {
        assert Ends(s[k]);
      } else if k == m {
        assert IsBlank(s[k]) ==> j == m + 1 && Closer(s[k + 1]) && !IsBlank(s[k + 1]);
      } else if k == j {
        assert IsInfix(s[k]);
      } else if k == j + 1 {
        assert IsBlank(s[k]) ==> Opener(s[k - 1]) && k + 1 == q && Starts(s[k + 1]);
      } else if k == q {
        assert Starts(s[k]);
      } else {
        assert BlankPlaced(s, k);
      }
    }
  }

  /** Two shaped pieces joined by an operator or `=` make a shaped piece. */
  lemma ShapedAround(s: string, i: nat, m: nat, j: nat, q: nat, n: nat)
    requires Shaped(s, i, m) && m <= j <= m + 1 && j < |s| && (j == m + 1 ==> IsBlank(s[m]))
    requires IsInfix(s[j])
    requires j + 1 <= q <= j + 2 && (q == j + 2 ==> j + 1 < |s| && IsBlank(s[j + 1]))
    requires Shaped(s, q, n)
    ensures Shaped(s, i, n)
  {
    TidyAround(s, i, m, j, q, n);
    BalancedFlat(s, m, q);
    BalancedJoin(s, i, m, q);
    BalancedJoin(s, i, q, n);
  }

  lemma TidyParenthesis(s: string, i: nat, q: nat, m: nat, k: nat)
    requires i < |s| && s[i] == '('
    requires i + 1 <= q <= i + 2 && (q == i + 2 ==> i + 1 < |s| && IsBlank(s[i + 1]))
    requires Tidy(s, q, m)
    requires m <= k <= m + 1 && k < |s| && (k == m + 1 ==> IsBlank(s[m])) && s[k] == ')'
    ensures Tidy(s, i, k + 1)
  {
    forall p | i <= p < k + 1 ensures Legal(s, p) {
      if q <= p < m {
        assert Legal(s, p);
      }
    }
    forall p | i < p < k ensures BlankPlaced(s, p) {
      if p < q {
        assert IsBlank(s[p]) ==> p == i + 1 && Opener(s[p - 1]) && Starts(s[p + 1]);
      } else if p == q {
        assert Starts(s[p]);
      } else if p < m - 1 {
        assert BlankPlaced(s, p);
      } else if p == m - 1 {
        assert Ends(s[p]);
      } else {
        assert IsBlank(s[p]) ==> p == m && k == m + 1 && Closer(s[p + 1]);
      }
    }
  }

  /** `(`, a shaped piece with a blank allowed at each side, `)`. */
  lemma ShapedParenthesis(s: string, i: nat, q: nat, m: nat, k: nat)
    requires i < |s| && s[i] == '('
    requires i + 1 <= q <= i + 2 && (q == i + 2 ==> i + 1 < |s| && IsBlank(s[i + 1]))
    requires Shaped(s, q, m)
    requires m <= k <= m + 1 && k < |s| && (k == m + 1 ==> IsBlank(s[m])) && s[k] == ')'
    ensures Shaped(s, i, k + 1)
  {
    TidyParenthesis(s, i, q, m, k);
    BalancedFlat(s, i + 1, q);
    BalancedFlat(s, m, k);
    BalancedJoin(s, i + 1, q, m);
    BalancedJoin(s, i + 1, m, k);
    BalancedWrap(s, i, k + 1);
  }

  /** A run of letters, digits and dots that starts and ends tidily. */
  lemma ShapedRun(s: string, i: nat, j: nat)
    requires i < j <= |s| && Starts(s[i]) && Ends(s[j - 1])
    requires forall k :: i <= k < j ==> IsAlnum(s[k]) || s[k] == '.'
    ensures Shaped(s, i, j)
  {
    forall k | i <= k < j ensures Legal(s, k) {
    }
    BalancedFlat(s, i, j);
  }

  lemma VariableShape(s: string, i: nat)
    requires i <= |s| && ParseVariable(s, i).Some?
    ensures Shaped(s, i, ParseVariable(s, i).value.end)
    ensures WellFormed(ParseVariable(s, i).value.tree)
  {
    var j := ParseVariable(s, i).value.end;
    var x := s[i..j];
    ShapedRun(s, i, j);
    assert IsIdentifier(x) by {
      forall k | 1 <= k < |x| ensures IsAlnum(x[k]) {
        assert x[k] == s[i + k];
      }
    }
  }

  /** The text value matches is a numeral. */
  lemma NumeralText(s: string, i: nat, j: nat, k: nat)
    requires i < j <= k <= |s|
    requires forall p :: i <= p < j ==> IsDigit(s[p])
    requires j == |s| || !IsDigit(s[j])
    requires j < k ==> s[j] == '.' && j + 1 < k && forall p :: j + 1 <= p < k ==> IsDigit(s[p])
    ensures IsNumeral(s[i..k])
  {
    var t := s[i..k];
    forall p | 0 <= p < j - i ensures IsDigit(t[p]) {
      assert t[p] == s[i + p];
    }
    assert j - i == |t| || t[j - i] == s[j];
    SpanExact(t, 0, j - i, IsDigit);
    if j < k {
      var f := t[j - i + 1..];
      forall p | 0 <= p < |f| ensures IsDigit(f[p]) {
        assert f[p] == t[j - i + 1 + p] == s[j + 1 + p];
      }
    }
  }

  lemma ValueShape(s: string, i: nat)
    requires i <= |s| && ParseValue(s, i).Some?
    ensures Shaped(s, i, ParseValue(s, i).value.end)
    ensures WellFormed(ParseValue(s, i).value.tree)
  {
    var j := Span(s, i + 1, IsDigit);
    var k := ParseValue(s, i).value.end;
    NumeralText(s, i, j, k);
    ShapedRun(s, i, k);
  }

  /** The rules' pieces, by induction over the rules in the order they call each other. */
  lemma {:induction false} ParenthesisShape(s: string, i: nat)
    requires i <= |s| && ParseParenthesis(s, i).Some?
    ensures Shaped(s, i, ParseParenthesis(s, i).value.end)
    ensures WellFormed(ParseParenthesis(s, i).value.tree)
    decreases |s| - i, 0
  {
    var q := Wp(s, i + 1);
    var p := ParseLowPrecedence(s, q).value;
    LowShape(s, q);
    ShapedParenthesis(s, i, q, p.end, Wp(s, p.end));
  }

  lemma {:induction false} AtomShape(s: string, i: nat)
    requires i <= |s| && ParseAtom(s, i).Some?
    ensures Shaped(s, i, ParseAtom(s, i).value.end)
    ensures WellFormed(ParseAtom(s, i).value.tree)
    decreases |s| - i, 1
  {
    if ParseParenthesis(s, i).Some? {
      ParenthesisShape(s, i);
    } else if ParseVariable(s, i).Some? {
      VariableShape(s, i);
    } else {
      ValueShape(s, i);
    }
  }

  /** high_precedence after an atom: the node it builds when an operator and a right operand follow. */
  lemma HighUnfold(s: string, i: nat, a: Parsed, j: nat)
    requires i <= |s| && ParseAtom(s, i) == Some(a)
    requires j == Wp(s, a.end) && j < |s| && IsHighOperatorChar(s[j])
    requires ParseHighPrecedence(s, Wp(s, j + 1)).Some?
    ensures ParseHighPrecedence(s, i) == Some(Parsed(
      BinOp(a.tree, OperatorOf(s[j]), ParseHighPrecedence(s, Wp(s, j + 1)).value.tree),
      ParseHighPrecedence(s, Wp(s, j + 1)).value.end))
  {
  }

  /** high_precedence after an atom: the atom alone when no operator and right operand follow. */
  lemma HighAlone(s: string, i: nat, a: Parsed)
    requires i <= |s| && ParseAtom(s, i) == Some(a)
    requires var j := Wp(s, a.end); !(j < |s| && IsHighOperatorChar(s[j]) && ParseHighPrecedence(s, Wp(s, j + 1)).Some?)
    ensures ParseHighPrecedence(s, i) == Some(a)
  {
  }

  lemma {:induction false} HighShape(s: string, i: nat)
    requires i <= |s| && ParseHighPrecedence(s, i).Some?
    ensures Shaped(s, i, ParseHighPrecedence(s, i).value.end)
    ensures WellFormed(ParseHighPrecedence(s, i).value.tree)
    decreases |s| - i, 2
  {
    assert ParseAtom(s, i).Some?;
    var a := ParseAtom(s, i).value;
    AtomShape(s, i);
    var j := Wp(s, a.end);
    if j < |s| && IsHighOperatorChar(s[j]) && ParseHighPrecedence(s, Wp(s, j + 1)).Some? {
      HighOperatorShape(s, i, a, j);
    } else {
      HighAlone(s, i, a);
    }
  }

  lemma {:induction false} HighOperatorShape(s: string, i: nat, a: Parsed, j: nat)
    requires i <= |s| && ParseAtom(s, i) == Some(a) && Shaped(s, i, a.end) && WellFormed(a.tree)
    requires j == Wp(s, a.end) && j < |s| && IsHighOperatorChar(s[j])
    requires ParseHighPrecedence(s, Wp(s, j + 1)).Some?
    ensures Shaped(s, i, ParseHighPrecedence(s, i).value.end)
    ensures WellFormed(ParseHighPrecedence(s, i).value.tree)
    decreases |s| - i, 1
  {
    var q := Wp(s, j + 1);
    HighShape(s, q);
    HighUnfold(s, i, a, j);
    ShapedAround(s, i, a.end, j, q, ParseHighPrecedence(s, q).value.end);
  }

  /** low_precedence after a high_precedence: the node it builds when an operator and a right operand follow. */
  lemma LowUnfold(s: string, i: nat, h: Parsed, j: nat)
    requires i <= |s| && ParseHighPrecedence(s, i) == Some(h)
    requires j == Wp(s, h.end) && j < |s| && IsLowOperatorChar(s[j])
    requires ParseLowPrecedence(s, Wp(s, j + 1)).Some?
    ensures ParseLowPrecedence(s, i) == Some(Parsed(
      BinOp(h.tree, OperatorOf(s[j]), ParseLowPrecedence(s, Wp(s, j + 1)).value.tree),
      ParseLowPrecedence(s, Wp(s, j + 1)).value.end))
  {
  }

  /** low_precedence after a high_precedence: that alone when no operator and right operand follow. */
  lemma LowAlone(s: string, i: nat, h: Parsed)
    requires i <= |s| && ParseHighPrecedence(s, i) == Some(h)
    requires var j := Wp(s, h.end); !(j < |s| && IsLowOperatorChar(s[j]) && ParseLowPrecedence(s, Wp(s, j + 1)).Some?)
    ensures ParseLowPrecedence(s, i) == Some(h)
  {
  }

  lemma {:induction false} LowShape(s: string, i: nat)
    requires i <= |s| && ParseLowPrecedence(s, i).Some?
    ensures Shaped(s, i, ParseLowPrecedence(s, i).value.end)
    ensures WellFormed(ParseLowPrecedence(s, i).value.tree)
    decreases |s| - i, 4
  {
    assert ParseHighPrecedence(s, i).Some?;
    var h := ParseHighPrecedence(s, i).value;
    HighShape(s, i);
    var j := Wp(s, h.end);
    if j < |s| && IsLowOperatorChar(s[j]) && ParseLowPrecedence(s, Wp(s, j + 1)).Some? {
      LowOperatorShape(s, i, h, j);
    } else {
      LowAlone(s, i, h);
    }
  }

  lemma {:induction false} LowOperatorShape(s: string, i: nat, h: Parsed, j: nat)
    requires i <= |s| && ParseHighPrecedence(s, i) == Some(h) && Shaped(s, i, h.end) && WellFormed(h.tree)
    requires j == Wp(s, h.end) && j < |s| && IsLowOperatorChar(s[j])
    requires ParseLowPrecedence(s, Wp(s, j + 1)).Some?
    ensures Shaped(s, i, ParseLowPrecedence(s, i).value.end)
    ensures WellFormed(ParseLowPrecedence(s, i).value.tree)
    decreases |s| - i, 3
  {
    var q := Wp(s, j + 1);
    LowShape(s, q);
    LowUnfold(s, i, h, j);
    ShapedAround(s, i, h.end, j, q, ParseLowPrecedence(s, q).value.end);
  }

  lemma AssignmentShape(s: string)
    requires ParseAssignment(s, 0).Some?
    ensures Shaped(s, 0, ParseAssignment(s, 0).value.end)
    ensures WellFormedInstruction(ParseAssignment(s, 0).value.instruction)
  {
    var v := ParseVariable(s, 0).value;
    VariableShape(s, 0);
    var j := Wp(s, v.end);
    var q := Wp(s, j + 1);
    LowShape(s, q);
    ShapedAround(s, 0, v.end, j, q, ParseLowPrecedence(s, q).value.end);
  }

  /** Every line the grammar accepts is shaped, and its tree is well formed. */
  lemma AcceptedShape(s: string)
    requires Parse(s).Some?
    ensures Shaped(s, 0, |s|)
    ensures WellFormedInstruction(Parse(s).value)
  {
    if ParseAssignment(s, 0).Some? {
      AssignmentShape(s);
    } else {
      LowShape(s, 0);
    }
  }

  /**
   * The accepted lines in plain terms: not empty, no blank at either end,
   * no two blanks in a row, every blank beside `(`, `)`, `=` or an
   * operator, nothing outside the grammar's characters, and parentheses
   * that balance.
   */
  lemma AcceptedLine(s: string)
    requires Parse(s).Some?
    ensures |s| > 0 && !IsBlank(s[0]) && !IsBlank(s[|s| - 1])
    ensures forall k :: 0 <= k < |s| ==> InAlphabet(s[k])
    ensures forall k :: 0 <= k < |s| - 1 && IsBlank(s[k]) ==>
      !IsBlank(s[k + 1]) && (Opener(s[k - 1]) || Closer(s[k + 1]))
    ensures Balanced(s, 0, |s|)
  {
    AcceptedShape(s);
    forall k | 0 <= k < |s| ensures InAlphabet(s[k]) {
      assert Legal(s, k);
    }
    forall k | 0 <= k < |s| - 1 && IsBlank(s[k])
      ensures !IsBlank(s[k + 1]) && (Opener(s[k - 1]) || Closer(s[k + 1]))
    {
      assert BlankPlaced(s, k);
    }
  }

  /** Two blanks in a row make a line fail. */
  lemma DoubleBlankRejected(s: string, k: nat)
    requires k + 1 < |s| && IsBlank(s[k]) && IsBlank(s[k + 1])
    ensures Parse(s) == None
  {
    if Parse(s).Some? {
      AcceptedLine(s);
    }
  }

  /** A blank at either end of a line makes it fail. */
  lemma EdgeBlankRejected(s: string)
    requires |s| > 0 && (IsBlank(s[0]) || IsBlank(s[|s| - 1]))
    ensures Parse(s) == None
  {
    if Parse(s).Some? {
      AcceptedLine(s);
    }
  }

  /** A character no rule matches makes a line fail. */
  lemma IllegalCharacterRejected(s: string, k: nat)
    requires k < |s| && !InAlphabet(s[k])
    ensures Parse(s) == None
  {
    if Parse(s).Some? {
      AcceptedLine(s);
    }
  }

  /** Parentheses that do not balance make a line fail. */
  lemma UnbalancedRejected(s: string)
    requires !Balanced(s, 0, |s|)
    ensures Parse(s) == None
  {
    if Parse(s).Some? {
      AcceptedLine(s);
    }
  }

  /** A line whose last character is neither a letter, a digit nor `)` fails: an operator, `=`, `(`, `.`, a blank or any other. */
  lemma DanglingEndRejected(s: string)
    requires |s| > 0 && !Ends(s[|s| - 1])
    ensures Parse(s) == None
  {
    if Parse(s).Some? {
      AcceptedShape(s);
    }
  }

  /** A stray `)`. */
  lemma StrayCloseRejected()
    ensures Parse(")") == None
  {
    assert Depth(")", 0, 1) == -1;
    UnbalancedRejected(")");
  }

  /** An unclosed `(`. */
  lemma UnclosedOpenRejected()
    ensures Parse("(1+1") == None
  {
    assert Depth("(1+1", 0, 4) == 1;
    UnbalancedRejected("(1+1");
  }

  /** A character outside the grammar. */
  lemma AmpersandRejected()
    ensures Parse("&a") == None
  {
    IllegalCharacterRejected("&a", 0);
  }

  /** A trailing operator. */
  lemma TrailingOperatorRejected()
    ensures Parse("1+") == None
  {
    DanglingEndRejected("1+");
  }

  /** A leading blank. */
  lemma LeadingBlankRejected()
    ensures Parse(" 1") == None
  {
    EdgeBlankRejected(" 1");
  }

  /** Two blanks before an operator. */
  lemma TwoBlanksRejected()
    ensures Parse("1  +2") == None
  {
    DoubleBlankRejected("1  +2", 1);
  }

  /** The empty line. */
  lemma EmptyLineRejected()
    ensures Parse("") == None
  {
    if Parse("").Some? {
      AcceptedLine("");
    }
  }
}
