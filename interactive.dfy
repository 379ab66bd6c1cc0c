/**
 * The script's own loop: one session, and for each line read from standard
 * input the value `run` returns is printed.  The exception a line raises is
 * not rescued there, so it ends the program after the outputs before it.
 *
 * `STDIN.readline` keeps the line's terminator.  A newline is outside the
 * grammar's alphabet, so every line read that way raises UnbalancedParens and
 * the first line ends the program.  Removing the terminator first, as
 * Ruby's `chomp` does, gives each line the meaning it has when `run` is
 * called on it directly.
 */
module Interactive {
  import opened Wrappers
  import opened Syntax
  import opened ReplParser
  import opened ParserShape
  import opened Evaluation
  import opened Session

  /**
   * The outputs of running the lines in order on one session, up to and
   * including the first exception, which ends the loop.
   */
  function Transcript(vars: Variables, lines: seq<string>, host: FloatOps): (out: seq<Outcome>)
    ensures |out| <= |lines|
    ensures forall k :: 0 <= k < |out| - 1 ==> out[k].Returned?
    ensures |out| < |lines| ==> |out| > 0 && out[|out| - 1].Raised?
    ensures |lines| > 0 ==> |out| > 0 && out[0] == RunLine(vars, lines[0], host).output
    decreases |lines|
  {
    if |lines| == 0 then []
    else
      var step := RunLine(vars, lines[0], host);
      if step.output.Raised? then [step.output]
      else [step.output] + Transcript(step.variables, lines[1..], host)
  }

  /** The loop from line i on: line i runs, and the loop goes on after it only when it did not raise. */
  lemma TranscriptFrom(vars: Variables, lines: seq<string>, i: nat, host: FloatOps)
    requires i < |lines|
    ensures var step := RunLine(vars, lines[i], host);
      Transcript(vars, lines[i..], host)
      == if step.output.Raised? then [step.output] else [step.output] + Transcript(step.variables, lines[i + 1..], host)
  {
    assert lines[i..][0] == lines[i];
    assert lines[i..][1..] == lines[i + 1..];
  }

  /**
   * The variables after running the lines in order on one session, up to and
   * including the first exception.  A name once defined stays defined.
   */
  function FinalVariables(vars: Variables, lines: seq<string>, host: FloatOps): (after: Variables)
    ensures vars.Keys <= after.Keys
    decreases |lines|
  {
    if |lines| == 0 then vars
    else
      var step := RunLine(vars, lines[0], host);
      if step.output.Raised? then step.variables
      else FinalVariables(step.variables, lines[1..], host)
  }

  /** The variables from line i on: line i runs, and the loop goes on after it only when it did not raise. */
  lemma FinalVariablesFrom(vars: Variables, lines: seq<string>, i: nat, host: FloatOps)
    requires i < |lines|
    ensures var step := RunLine(vars, lines[i], host);
      FinalVariables(vars, lines[i..], host)
      == if step.output.Raised? then step.variables else FinalVariables(step.variables, lines[i + 1..], host)
  {
    assert lines[i..][0] == lines[i];
    assert lines[i..][1..] == lines[i + 1..];
  }

  /** Lines that are each unparsable or a bare expression leave every variable as it was. */
  lemma {:induction false} BareLinesKeepVariables(vars: Variables, lines: seq<string>, host: FloatOps)
    requires forall k :: 0 <= k < |lines| ==> Parse(lines[k]).None? || Parse(lines[k]).value.Expression?
    ensures FinalVariables(vars, lines, host) == vars
    decreases |lines|
  {
    if |lines| > 0 {
      BareLineKeepsVariables(vars, lines[0], host);
      var step := RunLine(vars, lines[0], host);
      if !step.output.Raised? {
        assert forall k :: 0 <= k < |lines[1..]| ==> lines[1..][k] == lines[k + 1];
        BareLinesKeepVariables(vars, lines[1..], host);
      }
    }
  }

  lemma Append(a: seq<Outcome>, b: seq<Outcome>, c: seq<Outcome>)
    ensures a + b + c == a + (b + c)
  {
  }

  /** The lines as `STDIN.readline` returns them, each with its newline. */
  function Terminated(lines: seq<string>): (input: seq<string>)
    ensures |input| == |lines|
    ensures forall k :: 0 <= k < |lines| ==> input[k] == lines[k] + "\n"
  {
    seq(|lines|, k requires 0 <= k < |lines| => lines[k] + "\n")
  }

  /** As the loop is written: the first line read raises, so nothing is ever printed. */
  lemma ReadLinesRaise(vars: Variables, lines: seq<string>, host: FloatOps)
    requires |lines| > 0
    ensures Transcript(vars, Terminated(lines), host) == [Raised(UnbalancedParens)]
  {
    var first := Terminated(lines)[0];
    assert first[|first| - 1] == '\n';
    IllegalCharacterRejected(first, |first| - 1);
  }

  /** Ruby's `chomp`: one trailing `\r\n`, `\n` or `\r` is removed. */
  function Chomp(t: string): (r: string)
    ensures r == t || r + "\n" == t || r + "\r" == t || r + "\r\n" == t
    ensures |t| > 0 && t[|t| - 1] == '\n' && (|t| == 1 || t[|t| - 2] != '\r') ==> r + "\n" == t
    ensures (|t| == 0 || (t[|t| - 1] != '\n' && t[|t| - 1] != '\r')) ==> r == t
  {
    if |t| >= 2 && t[|t| - 2..] == "\r\n" then t[..|t| - 2]
    else if |t| >= 1 && (t[|t| - 1] == '\n' || t[|t| - 1] == '\r') then t[..|t| - 1]
    else t
  }

  function Chomped(input: seq<string>): (lines: seq<string>)
    ensures |lines| == |input|
    ensures forall k :: 0 <= k < |input| ==> lines[k] == Chomp(input[k])
  {
    seq(|input|, k requires 0 <= k < |input| => Chomp(input[k]))
  }

  predicate EndsInReturn(line: string) {
    |line| > 0 && line[|line| - 1] == '\r'
  }

  /** Chomping undoes the newline `readline` keeps, for lines that do not end in a carriage return. */
  lemma ChompedTerminated(lines: seq<string>)
    requires forall k :: 0 <= k < |lines| ==> !EndsInReturn(lines[k])
    ensures Chomped(Terminated(lines)) == lines
  {
    var input := Terminated(lines);
    forall k | 0 <= k < |lines| ensures Chomped(input)[k] == lines[k] {
      var t := input[k];
      assert t == lines[k] + "\n";
      assert t[|t| - 1] == '\n';
      assert |t| == 1 || t[|t| - 2] == lines[k][|lines[k]| - 1];
      assert Chomp(t) + "\n" == lines[k] + "\n";
      assert Chomp(t) == (Chomp(t) + "\n")[..|Chomp(t)|];
    }
  }

  /**
   * With the terminator removed, the loop over the lines read runs exactly
   * the lines typed, as `run` would on each of them by itself.
   */
  lemma ChompedLinesRun(vars: Variables, lines: seq<string>, host: FloatOps)
    requires forall k :: 0 <= k < |lines| ==> !EndsInReturn(lines[k])
    ensures Transcript(vars, Chomped(Terminated(lines)), host) == Transcript(vars, lines, host)
  {
    ChompedTerminated(lines);
  }

  /**
   * The loop with the terminator removed, on a session: each line read is
   * chomped and run, and the outputs are collected until a line raises.
   * The session is left with the variables of the lines run.
   */
  method Serve(r: Repl, input: seq<string>) returns (shown: seq<Outcome>)
    modifies r
    ensures shown == Transcript(old(r.variables), Chomped(input), r.host)
    ensures r.variables == FinalVariables(old(r.variables), Chomped(input), r.host)
  {
    ghost var lines := Chomped(input);
    shown := [];
    var i := 0;
    while i < |input|
      invariant 0 <= i <= |input|
      invariant shown + Transcript(r.variables, lines[i..], r.host) == Transcript(old(r.variables), lines, r.host)
      invariant FinalVariables(r.variables, lines[i..], r.host) == FinalVariables(old(r.variables), lines, r.host)
      decreases |input| - i
    {
      ghost var before := r.variables;
      TranscriptFrom(before, lines, i, r.host);
      FinalVariablesFrom(before, lines, i, r.host);
      var out := r.Run(Chomp(input[i]));
      ghost var step := RunLine(before, lines[i], r.host);
      assert out == step.output && r.variables == step.variables;
      ghost var rest := Transcript(r.variables, lines[i + 1..], r.host);
      if out.Raised? {
        shown := shown + [out];
        return;
      }
      Append(shown, [out], rest);
      shown := shown + [out];
      i := i + 1;
    }
    assert lines[i..] == [];
  }
}
