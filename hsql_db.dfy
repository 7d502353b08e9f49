/** HsqlDB.loadSqlFile: splits an SQL script into ';'-terminated commands,
    skips "--" comments and executes the rest in order, a failing statement
    being logged and passed over. Executing is recorded as an attempt. */
module HsqlDB {
  import opened Wrappers
  import opened Errors
  import opened JavaLang

  const COMMENT_PREFIX: string := "--"

  /** One statement.execute call and whether it threw an SQLException
      (which is logged). */
  datatype Attempt = Attempt(command: string, failed: bool)

  /** Where the text after the command at the first ';' (at pos) resumes,
      less two: past the ';' for a statement; for a comment, just past the
      first newline of the remaining text, or past the ';' when there is
      none. */
  function TargetPos(commands: string, pos: nat, comment: bool): (t: int)
    requires pos < |commands|
    ensures -1 <= t < |commands|
  {
    if comment && IndexOf(commands, '\n') > -1 then IndexOf(commands, '\n') - 1 else pos
  }

  /** The command at the first ';': the text up to and including it,
      trimmed. */
  function CommandAt(commands: string, pos: nat): string
    requires pos < |commands|
  {
    Trim(commands[..pos + 1])
  }

  /** What the loop does with the command at the first ';': the attempt it
      makes (none for a comment) and the target position it moves to. */
  datatype Step = Step(attempts: seq<Attempt>, target: int)

  /** The first pass of the loop, on text that holds a ';'. */
  function First(commands: string, fails: set<string>): (s: Step)
    requires IndexOf(commands, ';') >= 0
    ensures -1 <= s.target < |commands| && |s.attempts| <= 1
  {
    var pos := IndexOf(commands, ';');
    var cmd := CommandAt(commands, pos);
    var comment := StartsWith(cmd, COMMENT_PREFIX);
    Step(if comment then [] else [Attempt(cmd, cmd in fails)], TargetPos(commands, pos, comment))
  }

  /** The attempts loadSqlFile makes on the remaining text, and the
      exception that ends it: substring(targetPos + 2) throws when the ';'
      it skips is the last char. */
  function Script(commands: string, fails: set<string>): (r: (seq<Attempt>, Option<Error>))
    decreases |commands|
  {
    if IndexOf(commands, ';') == -1 then ([], None)
    else
      var step := First(commands, fails);
      if step.target + 2 > |commands| then (step.attempts, Some(IndexOutOfBounds(step.target + 2)))
      else
        var rest := Script(commands[step.target + 2..], fails);
        (step.attempts + rest.0, rest.1)
  }

  /** A pass whose target position leaves fewer than two chars ends the
      script with the exception, after its own attempt. */
  lemma ScriptThrows(commands: string, fails: set<string>)
    requires IndexOf(commands, ';') >= 0 && First(commands, fails).target + 2 > |commands|
    ensures var step := First(commands, fails);
      Script(commands, fails) == (step.attempts, Some(IndexOutOfBounds(step.target + 2)))
  {
  }

  /** Otherwise the script goes on with the text two chars past the target
      position. */
  lemma ScriptResumes(commands: string, fails: set<string>)
    requires IndexOf(commands, ';') >= 0 && First(commands, fails).target + 2 <= |commands|
    ensures var step := First(commands, fails);
      var rest := Script(commands[step.target + 2..], fails);
      Script(commands, fails) == (step.attempts + rest.0, rest.1)
  {
  }

  /** A script with no ';' left runs nothing: trailing text without a ';'
      is never executed. */
  lemma NoSemicolonRunsNothing(commands: string, fails: set<string>)
    requires ';' !in commands
    ensures Script(commands, fails) == ([], None)
  {
  }

  /** On a statement the first pass makes its attempt and targets its ';'. */
  lemma FirstOfStatement(commands: string, fails: set<string>, pos: int)
    requires IndexOf(commands, ';') == pos >= 0
    requires !StartsWith(CommandAt(commands, pos), COMMENT_PREFIX)
    ensures var cmd := CommandAt(commands, pos);
      First(commands, fails) == Step([Attempt(cmd, cmd in fails)], pos)
  {
  }

  /** The first command: a statement is executed and the rest resumes two
      chars after its ';'. */
  lemma StatementStep(commands: string, fails: set<string>, pos: nat)
    requires IndexOf(commands, ';') == pos && pos + 2 <= |commands|
    requires !StartsWith(CommandAt(commands, pos), COMMENT_PREFIX)
    ensures var cmd := CommandAt(commands, pos);
      var rest := Script(commands[pos + 2..], fails);
      Script(commands, fails) == ([Attempt(cmd, cmd in fails)] + rest.0, rest.1)
  {
    FirstOfStatement(commands, fails, pos);
    ScriptResumes(commands, fails);
  }

  /** A comment is not executed; the rest resumes after the first newline. */
  lemma CommentStep(commands: string, fails: set<string>, pos: int, newline: int)
    requires IndexOf(commands, ';') == pos >= 0 && IndexOf(commands, '\n') == newline >= 0
    requires StartsWith(CommandAt(commands, pos), COMMENT_PREFIX)
    ensures Script(commands, fails) == Script(commands[newline + 1..], fails)
  {
    assert [] + Script(commands[newline + 1..], fails).0 == Script(commands[newline + 1..], fails).0;
  }

  /** Whether a statement fails changes nothing in the first pass but the
      failed flag of its attempt. */
  lemma FirstIgnoresFailures(commands: string, fails: set<string>, fails': set<string>)
    requires IndexOf(commands, ';') >= 0
    ensures First(commands, fails).target == First(commands, fails').target
    ensures |First(commands, fails).attempts| == |First(commands, fails').attempts|
    ensures forall i :: 0 <= i < |First(commands, fails).attempts| ==>
      First(commands, fails).attempts[i].command == First(commands, fails').attempts[i].command
  {
    var pos := IndexOf(commands, ';');
    var cmd := CommandAt(commands, pos);
    var comment := StartsWith(cmd, COMMENT_PREFIX);
    assert First(commands, fails) == Step(if comment then [] else [Attempt(cmd, cmd in fails)], TargetPos(commands, pos, comment));
    assert First(commands, fails') == Step(if comment then [] else [Attempt(cmd, cmd in fails')], TargetPos(commands, pos, comment));
  }

  /** Whether a statement fails changes nothing but its own attempt: the
      same commands run, in the same order, and the script ends the same
      way. */
  lemma {:induction false} FailuresAreSkipped(commands: string, fails: set<string>, fails': set<string>)
    ensures |Script(commands, fails).0| == |Script(commands, fails').0|
    ensures forall i :: 0 <= i < |Script(commands, fails).0| ==>
      Script(commands, fails).0[i].command == Script(commands, fails').0[i].command
    ensures Script(commands, fails).1 == Script(commands, fails').1
    decreases |commands|
  {
    if IndexOf(commands, ';') != -1 {
      FirstIgnoresFailures(commands, fails, fails');
      var target := First(commands, fails).target;
      if target + 2 <= |commands| {
        FailuresAreSkipped(commands[target + 2..], fails, fails');
      }
    }
  }

  /** A ';' that is the last char is trimmed away by nothing. */
  lemma TrimOfStatement(s: string)
    requires |s| > 0 && s[|s| - 1] == ';' && ';' !in s[..|s| - 1]
    ensures var t := Trim(s); |t| > 0 && t[|t| - 1] == ';' && ';' !in t[..|t| - 1]
  {
    var l := TrimLeft(s);
    assert |l| > 0;
    TrimRightOfClean(l);
    assert l[..|l| - 1] == s[|s| - |l|..|s| - 1];
    forall i | 0 <= i < |l| - 1 ensures l[i] != ';' {
      assert l[i] == s[..|s| - 1][|s| - |l| + i];
    }
  }

  /** A command the first pass executes ends with its one ';' and is not a
      comment. */
  predicate IsStatement(command: string)
  {
    && |command| > 0 && command[|command| - 1] == ';' && ';' !in command[..|command| - 1]
    && !StartsWith(command, COMMENT_PREFIX)
  }

  /** The command at the first ';' ends with that ';' and holds no other. */
  lemma CommandEndsAtSemicolon(commands: string, pos: int)
    requires IndexOf(commands, ';') == pos >= 0
    ensures var cmd := CommandAt(commands, pos);
      |cmd| > 0 && cmd[|cmd| - 1] == ';' && ';' !in cmd[..|cmd| - 1]
  {
    var s := commands[..pos + 1];
    assert s[..pos] == commands[..pos];
    TrimOfStatement(s);
  }

  /** The first pass executes at most one command, a statement, marked
      failed exactly when it throws. */
  lemma FirstIsStatement(commands: string, fails: set<string>)
    requires IndexOf(commands, ';') >= 0
    ensures forall a :: a in First(commands, fails).attempts ==> IsStatement(a.command) && (a.failed <==> a.command in fails)
  {
    var pos := IndexOf(commands, ';');
    var cmd := CommandAt(commands, pos);
    if !StartsWith(cmd, COMMENT_PREFIX) {
      CommandEndsAtSemicolon(commands, pos);
      assert First(commands, fails).attempts == [Attempt(cmd, cmd in fails)];
    }
  }

  /** Every executed command ends with its one ';' and is not a comment, and
      its attempt is marked failed exactly when it throws. */
  lemma {:induction false} AttemptsAreStatements(commands: string, fails: set<string>)
    ensures forall a :: a in Script(commands, fails).0 ==> IsStatement(a.command) && (a.failed <==> a.command in fails)
    decreases |commands|
  {
    if IndexOf(commands, ';') != -1 {
      FirstIsStatement(commands, fails);
      var target := First(commands, fails).target;
      if target + 2 <= |commands| {
        AttemptsAreStatements(commands[target + 2..], fails);
      }
    }
  }

  /** As written, a script whose first ';' is its last char executes that
      statement and then throws StringIndexOutOfBoundsException. */
  lemma LastSemicolonThrows(commands: string, fails: set<string>)
    requires |commands| > 0 && IndexOf(commands, ';') == |commands| - 1
    requires !StartsWith(CommandAt(commands, |commands| - 1), COMMENT_PREFIX)
    ensures var cmd := CommandAt(commands, |commands| - 1);
      Script(commands, fails) == ([Attempt(cmd, cmd in fails)], Some(IndexOutOfBounds(|commands| + 1)))
  {
    FirstOfStatement(commands, fails, |commands| - 1);
    ScriptThrows(commands, fails);
  }

  /** The smallest such script: "x;" runs x; and then throws. */
  lemma LastSemicolonExample()
    ensures Script("x;", {}) == ([Attempt("x;", false)], Some(IndexOutOfBounds(3)))
  {
    assert IndexOf("x;", ';') == 1;
    assert CommandAt("x;", 1) == "x;" by {
      assert "x;"[..2] == "x;";
      TrimRightOfClean("x;");
    }
    LastSemicolonThrows("x;", {});
  }

  /** The loop as evidently intended: the text resumes two chars after the
      ';' or at the end of the text, whichever comes first. */
  function ScriptBounded(commands: string, fails: set<string>): (r: seq<Attempt>)
    decreases |commands|
  {
    if IndexOf(commands, ';') == -1 then []
    else
      var step := First(commands, fails);
      var next := if step.target + 2 > |commands| then |commands| else step.target + 2;
      step.attempts + ScriptBounded(commands[next..], fails)
  }

  /** The bounded loop makes exactly the attempts of the loop as written,
      and finishes where the loop as written throws. */
  lemma {:induction false} BoundedAgrees(commands: string, fails: set<string>)
    ensures ScriptBounded(commands, fails) == Script(commands, fails).0
    decreases |commands|
  {
    if IndexOf(commands, ';') != -1 {
      var step := First(commands, fails);
      if step.target + 2 > |commands| {
        assert commands[|commands|..] == [];
        assert ScriptBounded([], fails) == [];
        assert ScriptBounded(commands, fails) == step.attempts + [];
      } else {
        BoundedAgrees(commands[step.target + 2..], fails);
      }
    }
  }

  /** The first pass of the loop, as the loop body computes it. */
  lemma FirstPass(commands: string, fails: set<string>, pos: int, comment: bool, done: seq<Attempt>, target: int)
    requires pos == IndexOf(commands, ';') >= 0
    requires comment == StartsWith(CommandAt(commands, pos), COMMENT_PREFIX)
    requires done == if comment then [] else [Attempt(CommandAt(commands, pos), CommandAt(commands, pos) in fails)]
    requires target == TargetPos(commands, pos, comment)
    ensures First(commands, fails) == Step(done, target)
  {
  }

  /** One pass of the loop keeps its invariant: what has been attempted
      followed by what the rest of the text will attempt is the whole
      script. */
  lemma {:induction false} Advance(total: (seq<Attempt>, Option<Error>), commands: string, fails: set<string>, before: seq<Attempt>,
                done: seq<Attempt>, target: int)
    requires IndexOf(commands, ';') >= 0 && First(commands, fails).attempts == done && First(commands, fails).target == target
    requires total == (before + Script(commands, fails).0, Script(commands, fails).1)
    ensures target + 2 > |commands| ==> total == (before + done, Some(IndexOutOfBounds(target + 2)))
    ensures target + 2 <= |commands| ==>
      var rest := Script(commands[target + 2..], fails);
      total == ((before + done) + rest.0, rest.1)
  {
    if target + 2 > |commands| {
      ScriptThrows(commands, fails);
    } else {
      ScriptResumes(commands, fails);
      var rest := Script(commands[target + 2..], fails);
      assert before + (done + rest.0) == (before + done) + rest.0;
    }
  }

  /** loadSqlFile's loop: finds the first ';', executes the trimmed command
      unless it is a comment, and cuts the text two chars past the target
      position; fails holds the statements that throw an SQLException. */
  method LoadSqlFile(contents: string, fails: set<string>) returns (attempts: seq<Attempt>, error: Option<Error>)
    ensures (attempts, error) == Script(contents, fails)
  {
    var commands := contents;
    attempts := [];
    ghost var total := Script(contents, fails);
    assert [] + total.0 == total.0;
    var targetPos := IndexOf(commands, ';');
    while targetPos > -1
      invariant targetPos == IndexOf(commands, ';')
      invariant total == (attempts + Script(commands, fails).0, Script(commands, fails).1)
      decreases |commands|
    {
      ghost var before := attempts;
      var cmd := CommandAt(commands, targetPos);
      var pos := targetPos;
      var comment := StartsWith(cmd, COMMENT_PREFIX);
      if comment {
        var lineend := IndexOf(commands, '\n');
        if lineend > -1 {
          targetPos := lineend - 1;
        }
      } else {
        attempts := attempts + [Attempt(cmd, cmd in fails)];
      }
      ghost var done := if comment then [] else [Attempt(cmd, cmd in fails)];
      assert attempts == before + done;
      FirstPass(commands, fails, pos, comment, done, targetPos);
      Advance(total, commands, fails, before, done, targetPos);
      if targetPos + 2 > |commands| {
        return attempts, Some(IndexOutOfBounds(targetPos + 2));
      }
      commands := commands[targetPos + 2..];
      targetPos := IndexOf(commands, ';');
    }
    assert attempts + [] == attempts;
    error := None;
  }
}
