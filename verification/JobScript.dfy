/**
 The shell script a job runs, and what it prints.

 A substep's commands are not interpreted: what they print and their exit status are an
 `Outcome`. `printf`, the sub-shell, the saved status and the early exit mean what a POSIX
 shell makes of them.
 */
module JobScript {
  import opened SubstepMarkers
  import Decimal

  datatype Substep = Substep(name: string, commands: seq<string>)

  datatype JobSpec = JobSpec(commands: seq<string>, substeps: seq<Substep>)

  // ---------------------------------------------------------------------------
  // The script
  // ---------------------------------------------------------------------------

  datatype Stmt =
    | PrintLine(text: string)
    | SubShell(commands: seq<string>)
    | SaveStatus
    | PrintStatus(text: string)
    | ExitUnlessZero

  function Block(s: Substep): seq<Stmt> {
    [PrintLine(StartLine(s.name)), SubShell(s.commands), SaveStatus,
     PrintStatus(FINISH_PREFIX + EncodeName(s.name)), ExitUnlessZero]
  }

  function Program(substeps: seq<Substep>): seq<Stmt> {
    if substeps == [] then [] else Block(substeps[0]) + Program(substeps[1..])
  }

  function Quoted(text: string): string { "'" + text + "'" }

  function Render(s: Stmt): string {
    match s
    case PrintLine(text) => "printf '%s\\n' " + Quoted(text) + "\n"
    case SubShell(commands) => Before(["(", "set -e"] + commands, ")\n")
    case SaveStatus => "status=$?\n"
    case PrintStatus(text) => "printf '%s|%s\\n' " + Quoted(text) + " \"$status\"\n"
    case ExitUnlessZero => "if [ \"$status\" -ne 0 ]; then\n  exit \"$status\"\nfi\n"
  }

  function RenderAll(stmts: seq<Stmt>): string {
    if stmts == [] then "" else Render(stmts[0]) + RenderAll(stmts[1..])
  }

  // ---------------------------------------------------------------------------
  // What it prints
  // ---------------------------------------------------------------------------

  /** What a sub-shell prints, an unfinished last line apart, and its exit status. */
  datatype Outcome = Outcome(lines: seq<string>, tail: string, status: int)

  /** `last` is the status of the last command, `saved` the variable the script keeps it in. */
  function Output(stmts: seq<Stmt>, outcomes: seq<Outcome>, last: int, saved: int): string
    decreases |stmts|, 0
  {
    if stmts == [] then "" else OutputFrom(stmts[0], stmts[1..], outcomes, last, saved)
  }

  function OutputFrom(stmt: Stmt, rest: seq<Stmt>, outcomes: seq<Outcome>, last: int, saved: int): string
    decreases |rest|, 1
  {
    match stmt
    case PrintLine(text) => text + "\n" + Output(rest, outcomes, 0, saved)
    case SubShell(_) =>
      if outcomes == [] then ""
      else Before(outcomes[0].lines, outcomes[0].tail + Output(rest, outcomes[1..], outcomes[0].status, saved))
    case SaveStatus => Output(rest, outcomes, 0, last)
    case PrintStatus(text) => text + "|" + Decimal.Print(saved) + "\n" + Output(rest, outcomes, 0, saved)
    case ExitUnlessZero => if saved != 0 then "" else Output(rest, outcomes, 0, saved)
  }

  /** A substep that was run to its end. */
  datatype Section = Section(name: string, body: seq<string>, tail: string, code: int)

  /** The substeps that are run: up to the first that fails. */
  function Sections(substeps: seq<Substep>, outcomes: seq<Outcome>): seq<Section>
    requires |substeps| <= |outcomes|
  {
    if substeps == [] then []
    else
      var o := outcomes[0];
      [Section(substeps[0].name, o.lines, o.tail, o.status)] +
      if o.status != 0 then [] else Sections(substeps[1..], outcomes[1..])
  }

  function SectionLines(sec: Section): seq<string> {
    [StartLine(sec.name)] + sec.body + [sec.tail + FinishLine(sec.name, sec.code)]
  }

  function AllLines(secs: seq<Section>): seq<string> {
    if secs == [] then [] else SectionLines(secs[0]) + AllLines(secs[1..])
  }

  lemma FirstStmt(stmt: Stmt, rest: seq<Stmt>, outcomes: seq<Outcome>, last: int, saved: int)
    ensures Output([stmt] + rest, outcomes, last, saved) == OutputFrom(stmt, rest, outcomes, last, saved)
  {
    assert ([stmt] + rest)[1..] == rest;
  }

  lemma FinishText(name: string, code: int)
    ensures FINISH_PREFIX + EncodeName(name) + "|" + Decimal.Print(code) == FinishLine(name, code)
  {
  }

  lemma BlockTail(s: Substep, rest: seq<Stmt>, outcomes: seq<Outcome>, last: int, saved: int)
    ensures Output([SaveStatus, PrintStatus(FINISH_PREFIX + EncodeName(s.name)), ExitUnlessZero] + rest,
                   outcomes, last, saved) ==
            FinishLine(s.name, last) + "\n" + if last != 0 then "" else Output(rest, outcomes, 0, last)
  {
    var finish := PrintStatus(FINISH_PREFIX + EncodeName(s.name));
    var q := [ExitUnlessZero] + rest;
    assert [SaveStatus, finish, ExitUnlessZero] + rest == [SaveStatus] + ([finish] + q);
    FirstStmt(SaveStatus, [finish] + q, outcomes, last, saved);
    FirstStmt(finish, q, outcomes, 0, last);
    FirstStmt(ExitUnlessZero, rest, outcomes, 0, last);
    FinishText(s.name, last);
  }

  lemma BlockOutput(s: Substep, rest: seq<Stmt>, outcomes: seq<Outcome>, last: int, saved: int)
    requires outcomes != []
    ensures var o := outcomes[0];
            Output(Block(s) + rest, outcomes, last, saved) ==
            StartLine(s.name) + "\n" + Before(o.lines, o.tail + (FinishLine(s.name, o.status) + "\n" +
              if o.status != 0 then "" else Output(rest, outcomes[1..], 0, o.status)))
  {
    var q := [SaveStatus, PrintStatus(FINISH_PREFIX + EncodeName(s.name)), ExitUnlessZero] + rest;
    assert Block(s) + rest == [PrintLine(StartLine(s.name))] + ([SubShell(s.commands)] + q);
    FirstStmt(PrintLine(StartLine(s.name)), [SubShell(s.commands)] + q, outcomes, last, saved);
    FirstStmt(SubShell(s.commands), q, outcomes, 0, saved);
    BlockTail(s, rest, outcomes[1..], outcomes[0].status, saved);
  }

  lemma SectionText(sec: Section, text: string)
    ensures Before(SectionLines(sec), text) ==
            StartLine(sec.name) + "\n" + Before(sec.body, sec.tail + (FinishLine(sec.name, sec.code) + "\n" + text))
  {
    var a, b := [StartLine(sec.name)], [sec.tail + FinishLine(sec.name, sec.code)];
    BeforeBefore(a + sec.body, b, text);
    BeforeBefore(a, sec.body, Before(b, text));
    assert b[1..] == [] && a[1..] == [];
    assert b[0] + "\n" + text == sec.tail + (FinishLine(sec.name, sec.code) + "\n" + text);
  }

  /** The script prints the lines of the substeps it runs, and nothing else. */
  lemma {:induction false} ProgramOutput(substeps: seq<Substep>, outcomes: seq<Outcome>, last: int, saved: int)
    requires |substeps| <= |outcomes|
    ensures Output(Program(substeps), outcomes, last, saved) == JoinLines(AllLines(Sections(substeps, outcomes)))
  {
    if substeps != [] {
      var o, secs := outcomes[0], Sections(substeps, outcomes);
      BlockOutput(substeps[0], Program(substeps[1..]), outcomes, last, saved);
      if o.status == 0 {
        ProgramOutput(substeps[1..], outcomes[1..], 0, o.status);
      }
      SectionText(secs[0], JoinLines(AllLines(secs[1..])));
      BeforeBefore(SectionLines(secs[0]), AllLines(secs[1..]), "");
    }
  }

  // ---------------------------------------------------------------------------
  // Building the script
  // ---------------------------------------------------------------------------

  lemma {:induction false} RenderAppend(a: seq<Stmt>, b: seq<Stmt>)
    ensures RenderAll(a + b) == RenderAll(a) + RenderAll(b)
  {
    if a == [] {
      assert a + b == b;
    } else {
      assert (a + b)[1..] == a[1..] + b;
      RenderAppend(a[1..], b);
    }
  }

  lemma RenderCons(s: Stmt, rest: seq<Stmt>)
    ensures RenderAll([s] + rest) == Render(s) + RenderAll(rest)
  {
    assert ([s] + rest)[1..] == rest;
  }

  lemma FromTheLeft(a: string, b: string, c: string, d: string, e: string)
    ensures a + (b + (c + (d + (e + "")))) == a + b + c + d + e
  {
  }

  lemma RenderThree(c: Stmt, d: Stmt, e: Stmt)
    ensures RenderAll([c, d, e]) == Render(c) + (Render(d) + (Render(e) + ""))
  {
    RenderCons(e, []);
    RenderCons(d, [e]);
    RenderCons(c, [d, e]);
    assert [c, d, e] == [c] + [d, e] && [d, e] == [d] + [e] && [e] == [e] + [];
  }

  lemma RenderFive(a: Stmt, b: Stmt, c: Stmt, d: Stmt, e: Stmt)
    ensures RenderAll([a, b, c, d, e]) == Render(a) + Render(b) + Render(c) + Render(d) + Render(e)
  {
    RenderThree(c, d, e);
    RenderCons(b, [c, d, e]);
    RenderCons(a, [b, c, d, e]);
    assert [a, b, c, d, e] == [a] + [b, c, d, e] && [b, c, d, e] == [b] + [c, d, e];
    FromTheLeft(Render(a), Render(b), Render(c), Render(d), Render(e));
  }

  lemma RenderBlock(s: Substep)
    ensures RenderAll(Block(s)) ==
            Render(PrintLine(StartLine(s.name))) + Render(SubShell(s.commands)) + Render(SaveStatus) +
            Render(PrintStatus(FINISH_PREFIX + EncodeName(s.name))) + Render(ExitUnlessZero)
  {
    RenderFive(PrintLine(StartLine(s.name)), SubShell(s.commands), SaveStatus,
               PrintStatus(FINISH_PREFIX + EncodeName(s.name)), ExitUnlessZero);
  }

  lemma {:induction false} ProgramAppend(a: seq<Substep>, b: seq<Substep>)
    ensures Program(a + b) == Program(a) + Program(b)
  {
    if a == [] {
      assert a + b == b;
    } else {
      assert (a + b)[1..] == a[1..] + b;
      ProgramAppend(a[1..], b);
    }
  }

  /** Append each command and a line end. */
  method PushCommands(script0: string, commands: seq<string>) returns (script: string)
    ensures script == script0 + JoinLines(commands)
  {
    script := script0;
    assert JoinLines(commands[..0]) == "";
    for i := 0 to |commands|
      invariant script == script0 + JoinLines(commands[..i])
    {
      assert commands[..i + 1] == commands[..i] + [commands[i]];
      BeforeBefore(commands[..i], [commands[i]], "");
      BeforeAppends(commands[..i], JoinLines([commands[i]]));
      assert JoinLines([commands[i]]) == commands[i] + "\n";
      script := script + commands[i] + "\n";
    }
    assert commands[..|commands|] == commands;
  }

  lemma QuoteText(a: string, prefix: string, encoded: string, z: string)
    ensures a + "'" + prefix + encoded + ("'" + z) == a + Quoted(prefix + encoded) + z
  {
  }

  lemma StartText(name: string)
    ensures "printf '%s\\n' '" + START_PREFIX + EncodeName(name) + "'\n" == Render(PrintLine(StartLine(name)))
  {
    QuoteText("printf '%s\\n' ", START_PREFIX, EncodeName(name), "\n");
    assert "printf '%s\\n' " + "'" == "printf '%s\\n' '";
    assert "'" + "\n" == "'\n";
  }

  lemma FinishStatement(name: string)
    ensures "printf '%s|%s\\n' '" + FINISH_PREFIX + EncodeName(name) + "' \"$status\"\n" ==
            Render(PrintStatus(FINISH_PREFIX + EncodeName(name)))
  {
    QuoteText("printf '%s|%s\\n' ", FINISH_PREFIX, EncodeName(name), " \"$status\"\n");
    assert "printf '%s|%s\\n' " + "'" == "printf '%s|%s\\n' '";
    assert "'" + " \"$status\"\n" == "' \"$status\"\n";
  }

  lemma SubShellText(commands: seq<string>)
    ensures "(\nset -e\n" + JoinLines(commands) + ")\n" == Render(SubShell(commands))
  {
    var tail := Before(commands, ")\n");
    BeforeAppends(commands, ")\n");
    assert ["(", "set -e"] + commands == ["("] + (["set -e"] + commands);
    BeforeBefore(["("], ["set -e"] + commands, ")\n");
    BeforeBefore(["set -e"], commands, ")\n");
    BeforeOne("set -e", tail);
    BeforeOne("(", "set -e" + "\n" + tail);
  }

  lemma BeforeOne(l: string, text: string)
    ensures Before([l], text) == l + "\n" + text
  {
    assert [l][1..] == [];
  }

  lemma Regroup(script: string, a: string, b: string, c: string, d: string, e: string)
    ensures script + a + b + c + d + e == script + (a + b + c + d + e)
  {
  }

  method PushSubstep(script0: string, s: Substep) returns (script: string)
    ensures script == script0 + RenderAll(Block(s))
  {
    var encoded := EncodeName(s.name);
    var start := "printf '%s\\n' '" + START_PREFIX + encoded + "'\n";
    script := script0 + start;
    var body := PushCommands("(\nset -e\n", s.commands);
    body := body + ")\n";
    script := script + body;
    script := script + "status=$?\n";
    var finish := "printf '%s|%s\\n' '" + FINISH_PREFIX + encoded + "' \"$status\"\n";
    script := script + finish;
    script := script + "if [ \"$status\" -ne 0 ]; then\n  exit \"$status\"\nfi\n";
    StartText(s.name);
    SubShellText(s.commands);
    FinishStatement(s.name);
    Regroup(script0, start, body, Render(SaveStatus), finish, Render(ExitUnlessZero));
    RenderBlock(s);
  }

  lemma ProgramNext(substeps: seq<Substep>, i: nat)
    requires i < |substeps|
    ensures RenderAll(Program(substeps[..i + 1])) == RenderAll(Program(substeps[..i])) + RenderAll(Block(substeps[i]))
  {
    var s := substeps[i];
    assert substeps[..i + 1] == substeps[..i] + [s];
    ProgramAppend(substeps[..i], [s]);
    assert [s][1..] == [] && Program([s]) == Block(s) + [] == Block(s);
    RenderAppend(Program(substeps[..i]), Block(s));
  }

  method PushSubsteps(substeps: seq<Substep>) returns (script: string)
    ensures script == RenderAll(Program(substeps))
  {
    script := "";
    for i := 0 to |substeps|
      invariant script == RenderAll(Program(substeps[..i]))
    {
      ProgramNext(substeps, i);
      script := PushSubstep(script, substeps[i]);
    }
    assert substeps[..|substeps|] == substeps;
  }

  /** `build_job_script` */
  method BuildJobScript(spec: JobSpec) returns (script: string)
    ensures script == if spec.substeps == [] then "set -e\n" + JoinLines(spec.commands)
                      else RenderAll(Program(spec.substeps))
  {
    if spec.substeps == [] {
      script := PushCommands("set -e\n", spec.commands);
    } else {
      script := PushSubsteps(spec.substeps);
    }
  }

  /** What a shell reads between the first two quotes of a text. */
  function Unquote(s: string): string {
    PositionIsFirst(s, '\'');
    if Position(s, '\'') == |s| then ""
    else
      var rest := s[Position(s, '\'') + 1..];
      PositionIsFirst(rest, '\'');
      rest[..Position(rest, '\'')]
  }

  /** The quoted marker texts reach `printf` unchanged, whatever the substep's name. */
  lemma MarkersSurviveQuoting(name: string, rest: string)
    ensures Unquote(Quoted(StartLine(name)) + rest) == StartLine(name)
    ensures Unquote(Quoted(FINISH_PREFIX + EncodeName(name)) + rest) == FINISH_PREFIX + EncodeName(name)
  {
    PrefixesAreSolid();
    EncodedNameIsSolid(name);
    UnquoteQuoted(START_PREFIX + EncodeName(name), rest);
    UnquoteQuoted(FINISH_PREFIX + EncodeName(name), rest);
  }

  lemma UnquoteQuoted(text: string, rest: string)
    requires IsSolid(text)
    ensures Unquote(Quoted(text) + rest) == text
  {
    var s := Quoted(text) + rest;
    assert s == "" + ['\''] + (text + ['\''] + rest);
    PositionAfter("", '\'', text + ['\''] + rest);
    assert s[1..] == text + ['\''] + rest;
    PositionAfter(text, '\'', rest);
  }
}
