# repl.rb in Dafny

A model of the calculator in `repl.rb`. It has two parts. `REPLParser` is a
Parslet PEG grammar with an assignment rule, two operator levels, parentheses,
names and decimal numbers. `REPL` is a session: it owns a hash of variables,
parses each line, and either evaluates an expression or evaluates the
right-hand side of an assignment and stores the result.

The files follow the program's structure:

- `lexical.dfy` holds the character classes, the greedy `repeat` (Span) and the value of a digit string.
- `syntax.dfy` holds the tree the grammar captures (`Expr`, `Instruction`), what a well-formed tree is, and a canonical printer.
- `repl_parser.dfy` holds one function per grammar rule, from a start position to `Option<Parsed>`.
  - Ordered choice `A >> rest | A` runs A once. A is deterministic, so the second alternative would give what A already gave.
  - `parse` must consume the whole line.
- `parser_roundtrip.dfy` proves that every well-formed tree, once printed, parses back to itself.
- `spaced_roundtrip.dfy` proves the same for a printer that puts one blank at every `wp?` place, so such blanks change no tree.
- `parser_shape.dfy` proves what every accepted line looks like: its alphabet, where a blank may stand, and balanced parentheses. From that it derives the lines that raise.
- `grouping.dfy` covers precedence, parentheses and grouping to the right.
- `evaluation.dfy` covers `evaluate`: reals, nil as `None`, and the errors nil causes at an operator.
- `repl_session.dfy` holds the `REPL` object (class `Repl`, with `variables` as a map field), and `RunLine`, the meaning of one `run`, together with its lemmas.
- `session_examples.dfy` has the examples of `spec/repl_spec.rb` and a spaced assignment.
- `interactive.dfy` holds the script's stdin loop and the finding about it.

Behaviours of `repl.rb` a reader might not expect:

- **Parse errors.** The code has no separate lexical, syntax or undefined-variable errors. Every line the grammar does not accept raises `UnbalancedParens` (`run` rescues every parse failure), whatever is wrong with it.
- **Unassigned names.** A name never assigned reads as nil, the hash's default. It is not an error.
  - nil as the left operand of an operator raises NoMethodError.
  - A number with nil on its right raises TypeError.
  - `x=y`, with y unset, stores nil.
- **Blanks.** At most one blank (space or tab) is allowed at each place the grammar has `wp?`: around `=`, around an operator, after `(` and before `)`. There are no runs of blanks, and no blank at either end of the line. One space at every `wp?` place at once changes no tree (`SpacedRoundTrip.BlanksKeepTree`). Each `wp?` place may hold a blank, space or tab, or none, independently of the others: the Gap step lemmas (`SpacedRoundTrip.GapLowStep` and its siblings) build the same node either way, and `SpacedRoundTrip.OneSidedBlankAt` reads `1 +2` as `1+2`. No single lemma covers every line with blanks at only some places.
- **Grouping.** Operators of one level group to the right, so `10-5-2` is 7.
- **Return value.** An assignment returns the value it stores.

## Model

| member | source | states |
|---|---|---|
| Lexical.Span | repl.rb:38 | `repeat` is greedy: every character taken is in the class, and the next one is not, or the line has ended |
| ReplParser.Wp | repl.rb:15 | `wp?` takes at most one character, and takes one exactly when it is a space or a tab |
| ReplParser.ParseVariable | repl.rb:37-39 | a match is non-empty, lies within the line and captures exactly the text it consumed |
| ReplParser.ParseValue | repl.rb:41-44 | a match is non-empty, lies within the line and captures exactly the text it consumed |
| ReplParser.ParseParenthesis | repl.rb:33-35 | a match consumes at least the `(` and stays within the line |
| ReplParser.ParseAtom | repl.rb:31 | a match consumes at least one character and stays within the line |
| ReplParser.ParseHighPrecedence | repl.rb:24-29 | a match consumes at least one character and stays within the line |
| ReplParser.ParseLowPrecedence | repl.rb:17-22 | a match consumes at least one character and stays within the line |
| ReplParser.ParseAssignment | repl.rb:11-13 | a match is an assignment, consumes at least the name and stays within the line |
| ReplParser.Parse | repl.rb:5-9 | the root rule must consume the whole line, so only a non-empty line parses. What the accepted lines and their trees are is stated by ParserShape.AcceptedShape, ParserRoundTrip.ParseRoundTrip and Session.UnbalancedParensExactly |
| ReplParser.ParseInstruction | repl.rb:5-9 | a match consumes at least one character and stays within the line |
| ParserRoundTrip.VariableAt | repl.rb:37-39 | an identifier followed by a non-alphanumeric character or the end of the line is read as that name, entirely |
| ParserRoundTrip.ValueAt | repl.rb:41-44 | a numeral followed by neither a digit nor a dot is read as that number, entirely |
| ParserRoundTrip.AtomAt | repl.rb:31 | the printed atom of a well-formed tree is read back as that tree when something that stops an atom follows |
| ParserRoundTrip.ParenthesisAt | repl.rb:33-35 | a parenthesised operator tree is read back as the tree itself; the parentheses add no node |
| ParserRoundTrip.HighAt | repl.rb:24-29 | the printed product level of a tree is read back as that tree |
| ParserRoundTrip.LowAt | repl.rb:17-22 | the printed sum level of a tree is read back as that tree |
| ParserRoundTrip.AssignmentLine | repl.rb:7-13 | `x=e` is read as the assignment of e to x |
| ParserRoundTrip.NoAssignment | repl.rb:7-13 | a line of names, numbers, operators and parentheses only, with no blank and no `=`, is no assignment |
| ParserRoundTrip.ExpressionLine | repl.rb:7-9 | a printed expression is read as that expression, after the assignment rule fails |
| ParserRoundTrip.ParseRoundTrip | repl.rb:4-45 | every well-formed instruction, printed, parses back to itself |
| SpacedRoundTrip.SpacedParenthesisStep | repl.rb:33-35 | a blank after `(` and a blank before `)` are accepted, and the parenthesis ends after the `)` |
| SpacedRoundTrip.SpacedHighStep | repl.rb:24-27 | one blank on each side of `*`, `/` or `%` is accepted, with the same tree as without |
| SpacedRoundTrip.SpacedLowStep | repl.rb:17-20 | one blank on each side of `+` or `-` is accepted, with the same tree as without |
| SpacedRoundTrip.SpacedHighStop | repl.rb:24-29 | an atom followed by a blank and a `)`, `+` or `-`, or by the end of the line, is the whole high_precedence |
| SpacedRoundTrip.SpacedLowStop | repl.rb:17-22 | a high_precedence followed by a blank and `)`, or by the end of the line, is the whole low_precedence |
| SpacedRoundTrip.SpacedAssignmentStep | repl.rb:11-13 | one blank on each side of `=` is accepted in a whole-line assignment |
| SpacedRoundTrip.GapParenthesisStep | repl.rb:33-35 | `(`, an optional blank, a low_precedence, an optional blank and `)` make the parenthesis, each blank chosen on its own |
| SpacedRoundTrip.GapHighStep | repl.rb:24-27 | an atom, an optional blank, `*`, `/` or `%`, an optional blank and a high_precedence make the node, each blank chosen on its own |
| SpacedRoundTrip.GapLowStep | repl.rb:17-20 | the same at the `+ -` level |
| SpacedRoundTrip.GapHighStop | repl.rb:24-29 | an atom not followed, past an optional blank, by `*`, `/` or `%` is the whole high_precedence |
| SpacedRoundTrip.GapLowStop | repl.rb:17-22 | a high_precedence not followed, past an optional blank, by `+` or `-` is the whole low_precedence |
| SpacedRoundTrip.GapAssignmentStep | repl.rb:11-13 | a name, an optional blank, `=`, an optional blank and a low_precedence filling the line make the assignment |
| SpacedRoundTrip.OneSidedBlankAt | repl.rb:17-20 | `1 +2`, with a blank before the operator only, parses as `1+2` |
| SpacedRoundTrip.SpacedParenthesised | repl.rb:31-35 | an operator node's spaced atom text is its spaced expression between `( ` and ` )` |
| SpacedRoundTrip.SpacedNoEquals | repl.rb:37-44 | the spaced text of a well-formed expression has no `=` |
| SpacedRoundTrip.NoEqualsNoAssignment | repl.rb:11-13 | a line with no `=` is no assignment |
| SpacedRoundTrip.SpacedAtomAt | repl.rb:31 | a well-formed atom's spaced text, followed by the end of the line or by a blank and `)` or an operator, is read as that atom |
| SpacedRoundTrip.SpacedParenthesisAt | repl.rb:33-35 | a spaced parenthesised operator node is read as that node |
| SpacedRoundTrip.SpacedParenthesisInner | repl.rb:33-35 | the spaced expression between `( ` and ` )` is read as the parenthesis, including both blanks |
| SpacedRoundTrip.SpacedHighAt | repl.rb:24-29 | a well-formed expression's spaced high_precedence text is read as that expression |
| SpacedRoundTrip.SpacedHighAtOperator | repl.rb:24-27 | the same for a `*`, `/` or `%` node |
| SpacedRoundTrip.SpacedHighOperands | repl.rb:25-27 | the same, given each operand at its place in the line |
| SpacedRoundTrip.SpacedLowAt | repl.rb:17-22 | a well-formed expression's spaced low_precedence text is read as that expression |
| SpacedRoundTrip.SpacedLowAtOperator | repl.rb:17-20 | the same for a `+` or `-` node |
| SpacedRoundTrip.SpacedLowOperands | repl.rb:18-20 | the same, given each operand at its place in the line |
| SpacedRoundTrip.SpacedAssignmentText | repl.rb:12 | a spaced assignment text is its name, ` = `, and its expression, each in its place |
| SpacedRoundTrip.SpacedAssignmentAt | repl.rb:11-13 | a name, ` = ` and a spaced expression text make the whole line that assignment |
| SpacedRoundTrip.SpacedAssignmentLine | repl.rb:7-13 | `x = e`, spaced, parses as the assignment of e to x |
| SpacedRoundTrip.SpacedExpressionLine | repl.rb:7-9 | a spaced expression is read as that expression, after the assignment rule fails |
| SpacedRoundTrip.SpacedParseRoundTrip | repl.rb:4-45 | every well-formed instruction, printed with one blank at every `wp?` place, parses back to itself |
| SpacedRoundTrip.BlanksKeepTree | repl.rb:15 | the spaced and the unspaced text of a well-formed instruction parse to the same tree, the instruction itself |
| ParserShape.VariableShape | repl.rb:37-39 | what the variable rule consumes is a tidy, balanced stretch, and the name it captures is an identifier |
| ParserShape.ValueShape | repl.rb:41-44 | what the value rule consumes is a tidy stretch, and the text it captures is a numeral |
| ParserShape.ParenthesisShape | repl.rb:33-35 | what the parenthesis rule consumes is tidy and balanced, and its tree is well formed |
| ParserShape.AtomShape | repl.rb:31 | what the atom rule consumes is tidy and balanced, and its tree is well formed |
| ParserShape.HighShape | repl.rb:24-29 | what the high_precedence rule consumes is tidy and balanced, and its tree is well formed |
| ParserShape.LowShape | repl.rb:17-22 | what the low_precedence rule consumes is tidy and balanced, and its tree is well formed |
| ParserShape.AssignmentShape | repl.rb:11-13 | what the assignment rule consumes is tidy and balanced, and its instruction is well formed |
| ParserShape.AcceptedShape | repl.rb:4-45 | every accepted line is tidy and balanced, and its tree is well formed |
| ParserShape.AcceptedLine | repl.rb:12-34 | an accepted line is non-empty and has no blank at either end. Each character is a letter, digit, `.`, operator, `=`, parenthesis or blank. A blank is never followed by another, and stands only after `(`, `=` or an operator, or before `)`, `=` or an operator. Parentheses balance |
| ParserShape.DoubleBlankRejected | repl.rb:15 | two blanks in a row anywhere make the line fail to parse |
| ParserShape.EdgeBlankRejected | repl.rb:7-13 | a blank at the start or end of the line makes it fail to parse |
| ParserShape.IllegalCharacterRejected | repl.rb:4-45 | a character outside the grammar's alphabet makes the line fail to parse |
| ParserShape.UnbalancedRejected | repl.rb:33-35 | a line whose parentheses do not balance fails to parse |
| ParserShape.DanglingEndRejected | repl.rb:17-29 | a line that does not end in a name, digit or `)` fails to parse |
| ParserShape.StrayCloseRejected | spec/repl_spec.rb:84-88 | `)` alone does not parse |
| ParserShape.UnclosedOpenRejected | repl.rb:33-35 | `(1+1` does not parse |
| ParserShape.AmpersandRejected | repl.rb:37-44 | `&a` does not parse |
| ParserShape.TrailingOperatorRejected | repl.rb:17-22 | `1+` does not parse |
| ParserShape.LeadingBlankRejected | repl.rb:7-13 | ` 1` does not parse |
| ParserShape.TwoBlanksRejected | repl.rb:18-19 | `1  +2` does not parse |
| ParserShape.EmptyLineRejected | repl.rb:7-9 | the empty line does not parse |
| Grouping.LowGroupsRight | repl.rb:17-22 | `x op y op z` at the `+ -` level is `x op (y op z)` |
| Grouping.HighGroupsRight | repl.rb:24-29 | `x op y op z` at the `* / %` level is `x op (y op z)` |
| Grouping.HighBindsTighterLeft | repl.rb:17-29 | `x * y + z` is `(x * y) + z` |
| Grouping.HighBindsTighterRight | repl.rb:17-29 | `x + y * z` is `x + (y * z)` |
| Grouping.ParenthesesOverride | repl.rb:31-35 | `(x + y) * z` keeps the sum as the product's left operand |
| Evaluation.Lookup | repl.rb:76 | a number is read only from a name that was assigned it; an unassigned name reads as nil, the hash's default (Session.UnassignedReadsNil) |
| Evaluation.Apply | repl.rb:75 | `send(operator, y)` on two Floats: `+ - *` are the real operations and `/ %` are the host's. Its meaning inside evaluation is stated by Evaluation.EvaluateDenotes |
| Evaluation.ToF | repl.rb:77 | `to_f` of a captured number is never negative. Its value is stated by Evaluation.ToFWhole for a whole number and Evaluation.ToFFraction for one with a fraction |
| Evaluation.Evaluate | repl.rb:73-80 | the result is nil exactly when the tree is a single name that holds no number |
| Evaluation.EvaluatesToNumber | repl.rb:73-80 | a tree evaluates to a number exactly when every name it reads holds a number |
| Evaluation.RaisesExactly | repl.rb:73-80 | evaluation raises exactly when the tree has an operator and reads a name that holds no number |
| Evaluation.RaisesOnlyNilErrors | repl.rb:75 | the only exceptions evaluation raises are NoMethodError and TypeError |
| Evaluation.EvaluateLocal | repl.rb:76 | the outcome depends on the variables only through the names the tree reads |
| Evaluation.EvaluateDenotes | repl.rb:73-80 | when every name read holds a number, evaluation agrees with the arithmetic meaning of the tree |
| Evaluation.ToFWhole | repl.rb:77 | a number without a fraction reads as the integer its digits spell |
| Evaluation.ToFNatural | repl.rb:77 | the decimal text of every natural number reads back as that number, so `'1'` is 1.0 |
| Evaluation.Decimal | repl.rb:77 | the digits after the dot read as a fraction at least zero and below one |
| Evaluation.ToFSplit | repl.rb:77 | a text made of digits, a dot and digits reads as the first run's value plus the second run as a decimal fraction |
| Evaluation.ToFFraction | repl.rb:77 | `w.f` reads as the value of w plus the value of f over ten to the number of digits of f |
| Evaluation.ToFOneAndAHalf | repl.rb:77 | `1.5` reads as 1.5 |
| Evaluation.ToFBounds | repl.rb:77 | a numeral's value lies at or above its whole part and below the whole part plus one |
| Session.RunLine | repl.rb:55-69 | one `run`: a line that raises leaves the variables as they were, and no name is ever removed. Session.AssignmentStores, Session.BareLineKeepsVariables and Session.UnbalancedParensExactly state the rest |
| Session.Repl.constructor | repl.rb:51-53 | a new session has no variables |
| Session.Repl.Run | repl.rb:55-69 | the output and the new variables are exactly those of `RunLine` on the old variables |
| Session.RaisingLineKeepsVariables | repl.rb:63-65 | a line that raises changes no variable |
| Session.UnshapedLineRaises | repl.rb:56-61 | a line that is not tidy and balanced raises UnbalancedParens before anything is evaluated, with the variables unchanged |
| Session.UnbalancedParensExactly | repl.rb:56-61 | a line raises UnbalancedParens exactly when it does not parse |
| Session.BareLineKeepsVariables | repl.rb:66-67 | an expression line, or a line that does not parse, changes no variable |
| Session.BareLineRepeats | repl.rb:66-67 | running the same bare line twice in a row gives the same output and state as running it once |
| Session.AssignmentStores | repl.rb:63-65 | an assignment returns the value of its right-hand side. When that evaluation succeeds the name is bound to it, and when it raises nothing is stored. Other names are untouched either way |
| Session.NameLineReads | repl.rb:7-9 | a line holding only a name is read as that name, not taken as an assignment |
| Session.AssignThenRead | repl.rb:63-65 | after `x=e` stores a value, the line `x` returns it |
| Session.UnassignedReadsNil | repl.rb:52 | a name never assigned reads as nil |
| SessionExamples.SingleNumber | spec/repl_spec.rb:64-68 | `1` returns 1.0 |
| SessionExamples.SmallSum | spec/repl_spec.rb:70-74 | `1+2` returns 3.0 |
| SessionExamples.AssignOne | spec/repl_spec.rb:76-77 | `a=1` returns 1.0 and binds a to it |
| SessionExamples.ReadA | spec/repl_spec.rb:79-81 | `a` returns what a holds |
| SessionExamples.StrayParenthesis | spec/repl_spec.rb:84-88 | `)` raises UnbalancedParens and changes nothing |
| SessionExamples.ProductOfSum | spec/repl_spec.rb:90-94 | `2*(1+1)` returns 4.0 |
| SessionExamples.ChainedSum | spec/repl_spec.rb:96-100 | `1+1+1` returns 3.0 |
| SessionExamples.ChainedDifference | repl.rb:17-22 | `10-5-2` groups as `10-(5-2)` and returns 7.0 |
| SessionExamples.SpacedLine | repl.rb:12-29 | `a = 2 * 3` parses as the assignment of `2*3` to a |
| SessionExamples.SpacedAssignment | repl.rb:63-65 | `a = 2 * 3` returns 6.0 and binds a to it |
| SessionExamples.Examples | spec/repl_spec.rb:61-100 | the examples give the same outputs when run on fresh `Repl` objects |
| Interactive.Transcript | repl.rb:83-88 | the loop's outputs, one per line. Every output before the last is a value. The loop stops early only at a line that raised |
| Interactive.Terminated | repl.rb:86 | the lines as `STDIN.readline` returns them: one per line typed, each with its trailing newline |
| Interactive.Chomp | repl.rb:86 | the corrected read, Ruby's `chomp`: the result is the line less at most one trailing `\r\n`, `\n` or `\r`. A final `\n` not after `\r` is always removed, and a line ending in neither is kept as it is |
| Interactive.Chomped | repl.rb:86 | every line read, chomped, in the same order |
| Interactive.ChompedTerminated | repl.rb:86 | chomping the lines as `readline` returns them gives back the lines typed, when none ends in a carriage return |
| Interactive.ReadLinesRaise | repl.rb:86 | fed the lines as `readline` returns them, with the newline, the loop stops at the first line with UnbalancedParens |
| Interactive.ChompedLinesRun | repl.rb:83-88 | with the terminator chomped, the loop over the lines read gives exactly the outputs of the lines typed |
| Interactive.FinalVariables | repl.rb:83-88 | the variables after the loop, up to and including the first line that raised. A name once defined stays defined |
| Interactive.BareLinesKeepVariables | repl.rb:66-67 | lines that each fail to parse or are bare expressions leave every variable as it was |
| Interactive.Serve | repl.rb:83-88 | the corrected loop on a session: its outputs are the transcript of the chomped lines, and the session ends with their final variables |

## Left out

- The terminal I/O of the script's loop (`puts`, reading standard input, EOF) is not modelled. The loop is modelled over a given sequence of lines, and its outputs are returned rather than printed.
- Parslet's interface is not modelled: parse trees as hashes of slices, `.as` labels, and the text of `ParseFailed`. The model keeps only what `run` and `evaluate` read from the tree.
- Floating point is not modelled. Numbers are exact reals, so `+`, `-` and `*` do not round.
- Division and remainder are not computed. `/` and `%` are parameters (`FloatOps`), so Ruby's Float rules are left to the host: Infinity and NaN on division by zero, rounding, and the sign of a remainder.
- `to_f` is modelled only on text the value rule captures (digits with an optional fraction), the only text `evaluate` gives it.
- The `raise tree.inspect` branch of `evaluate` (repl.rb:78) is not modelled. The parser never builds a tree that reaches it, and `Expr` has no such case.
- Exception messages and backtraces are not modelled. Errors are the constructors `UnbalancedParens`, `NoMethodError` and `TypeError`.
- The `Lexer` and `Operator` tests of `spec/repl_spec.rb` (lines 10-59) test classes that are not part of this model.

## Findings

| source | as written | input that shows it | evidently intended | confidence | as-written member | corrected member |
|---|---|---|---|---|---|---|
| repl.rb:86 | each line from `STDIN.readline` goes to `run` with its trailing newline. A newline is outside the grammar, so `run` raises UnbalancedParens, which the loop does not rescue, and the program ends | typing `1+2` and Enter | the line is run without its terminator (`chomp`), so `1+2` prints 3.0 and the session goes on | not executed | Interactive.ReadLinesRaise | Interactive.ChompedLinesRun |
