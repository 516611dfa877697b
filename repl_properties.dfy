/** What the read loop guarantees over a whole session. */
module ReplProperties {
  import opened Tokens
  import opened Commands
  import opened Repl

  /** The loop's code does what the line's tokens ask for: a blank line does nothing,
      `exit` stops, `cd` changes directory and never launches anything, and only a
      name other than `cd` and `exit` reaches `spawn`. */
  lemma StepFollowsClassify(s: Session, line: string, home: Option<string>, os: Os)
    ensures match Classify(line, home)
      case Skip => Step(s, line, home, os) == s.(read := s.read + 1)
      case Exit => Step(s, line, home, os) == s.(read := s.read + 1, status := Exited)
      case Cd(target) =>
        Step(s, line, home, os) == Apply(s.(read := s.read + 1), ChangeDirectory(target, s.cwd, s.calls, os))
      case External(command, args) =>
        Step(s, line, home, os) == Apply(s.(read := s.read + 1), ExecuteExternal(command, args, s.cwd, s.calls, os))
  {
    var p := Parse(line);
    var t := Split(line);
    if p.Invocation? {
      assert t[0] == p.command && t[1..] == p.args;
    }
  }

  /** A blank or whitespace-only line makes no system call and writes nothing. */
  lemma BlankLineIsNoOp(s: Session, line: string, home: Option<string>, os: Os)
    requires IsBlank(line)
    ensures Step(s, line, home, os) == s.(read := s.read + 1)
  {
    StepFollowsClassify(s, line, home, os);
  }

  /** A failed `cd` prints `cd: <message>`, keeps the directory and the loop goes on. */
  lemma CdFailureKeepsDirectory(s: Session, line: string, home: Option<string>, os: Os, dir: string)
    requires Classify(line, home) == Cd(Some(dir))
    requires os.chdir(s.calls, s.cwd, dir).ChdirFailed?
    ensures var s' := Step(s, line, home, os);
      && s'.cwd == s.cwd && s'.status == s.status
      && s'.out == s.out + [Puts("cd: " + os.chdir(s.calls, s.cwd, dir).chdirError.message)]
      && s'.calls == s.calls + [Chdir(dir, os.chdir(s.calls, s.cwd, dir))]
  {
    StepFollowsClassify(s, line, home, os);
  }

  /** `cd` with no argument targets HOME; with arguments it targets the first and
      ignores the others. */
  lemma CdTarget(line: string, ts: seq<string>, home: Option<string>)
    requires Split(line) == ["cd"] + ts
    ensures Classify(line, home) == Cd(if ts == [] then home else Some(ts[0]))
  {
    var t := Split(line);
    assert t[0] == "cd" && t[1..] == ts;
  }

  /** Every token other than a builtin name is a command, and the remaining tokens are
      its arguments in order; `|` and any other token get no special treatment. */
  lemma ExternalCommandLine(command: string, args: seq<string>, home: Option<string>)
    requires IsWord(command) && !IsBuiltinName(command)
    requires forall k :: 0 <= k < |args| ==> IsWord(args[k])
    ensures Classify(Join([command] + args), home) == External(command, args)
  {
    SplitJoin([command] + args);
    var t := Split(Join([command] + args));
    assert t[0] == command && t[1..] == args;
  }

  lemma PipeIsAnOrdinaryToken(home: Option<string>)
    ensures Classify("ls | wc", home) == External("ls", ["|", "wc"])
  {
    assert Join(["wc"]) == "wc";
    assert ["|", "wc"][1..] == ["wc"];
    assert Join(["|", "wc"]) == "| wc";
    assert (["ls"] + ["|", "wc"])[1..] == ["|", "wc"];
    assert "ls | wc" == Join(["ls"] + ["|", "wc"]);
    assert IsWord("ls") by { assert "ls"[0] == 'l' && "ls"[1] == 's'; }
    assert IsWord("|") by { assert "|"[0] == '|'; }
    assert IsWord("wc") by { assert "wc"[0] == 'w' && "wc"[1] == 'c'; }
    ExternalCommandLine("ls", ["|", "wc"], home);
  }

  /** Lines are handled one at a time and in order: feeding `a` then `b` is feeding `a + b`. */
  lemma {:induction false} FeedAppend(s: Session, a: seq<string>, b: seq<string>, home: Option<string>, os: Os)
    ensures Feed(s, a + b, home, os) == Feed(Feed(s, a, home, os), b, home, os)
    decreases |a|
  {
    if s.status != Running || a == [] {
      assert a == [] ==> a + b == b;
    } else {
      assert (a + b)[0] == a[0] && (a + b)[1..] == a[1..] + b;
      FeedAppend(Step(s.(out := s.out + [Prompt]), a[0], home, os), a[1..], b, home, os);
    }
  }

  /** A line whose first token is `exit`. */
  predicate IsExitLine(line: string) {
    var t := Split(line); t != [] && t[0] == "exit"
  }

  lemma StepStatus(s: Session, line: string, home: Option<string>, os: Os)
    requires s.status == Running
    ensures Step(s, line, home, os).read == s.read + 1
    ensures Step(s, line, home, os).status == if IsExitLine(line) then Exited else Running
  {
    StepFollowsClassify(s, line, home, os);
  }

  /** After `exit` no later line is read or acted on. */
  lemma ExitIgnoresRest(a: seq<string>, line: string, b: seq<string>, home: Option<string>, cwd: string, os: Os)
    requires IsExitLine(line)
    ensures Run(a + [line] + b, home, cwd, os) == Run(a + [line], home, cwd, os)
    ensures Run(a + [line], home, cwd, os).status == Exited
  {
    var s := Feed(Start(cwd), a, home, os);
    FeedStops(Start(cwd), a, home, os);
    FeedAppend(Start(cwd), a + [line], b, home, os);
    FeedAppend(Start(cwd), a, [line], home, os);
    if s.status == Running {
      StepStatus(s.(out := s.out + [Prompt]), line, home, os);
      assert [line][1..] == [];
    }
  }

  /** The index of the first `exit` line, or the number of lines when there is none. */
  function FirstExit(lines: seq<string>): (r: nat)
    ensures r <= |lines|
    ensures r < |lines| ==> IsExitLine(lines[r])
    ensures forall j :: 0 <= j < r ==> !IsExitLine(lines[j])
  {
    if lines == [] then 0
    else if IsExitLine(lines[0]) then 0
    else
      var k := FirstExit(lines[1..]);
      assert forall j :: 1 <= j < k + 1 ==> lines[j] == lines[1..][j - 1];
      k + 1
  }

  lemma {:induction false} FeedStops(s: Session, lines: seq<string>, home: Option<string>, os: Os)
    requires s.status == Running
    ensures Feed(s, lines, home, os).status == if FirstExit(lines) < |lines| then Exited else Running
    ensures Feed(s, lines, home, os).read == s.read + if FirstExit(lines) < |lines| then FirstExit(lines) + 1 else |lines|
    decreases |lines|
  {
    if lines != [] {
      var p := s.(out := s.out + [Prompt]);
      StepStatus(p, lines[0], home, os);
      if !IsExitLine(lines[0]) {
        FeedStops(Step(p, lines[0], home, os), lines[1..], home, os);
      }
    }
  }

  /** The session ends at the first `exit` line, having read exactly up to it, or at
      end of input, having read every line. */
  lemma RunStopsAtFirstExit(lines: seq<string>, home: Option<string>, cwd: string, os: Os)
    ensures var r := Run(lines, home, cwd, os);
      && (r.status == Exited <==> FirstExit(lines) < |lines|)
      && (r.status == EndOfInput <==> FirstExit(lines) == |lines|)
      && r.read == if r.status == Exited then FirstExit(lines) + 1 else |lines|
  {
    FeedStops(Start(cwd), lines, home, os);
  }

  /** End of input on the first read: one prompt and nothing else. */
  lemma EmptyInput(home: Option<string>, cwd: string, os: Os)
    ensures Run([], home, cwd, os) == Session(cwd, EndOfInput, [Prompt], [], 0)
  {
  }

  function CountPrompts(out: seq<string>): nat {
    if out == [] then 0
    else CountPrompts(out[..|out| - 1]) + (if out[|out| - 1] == Prompt then 1 else 0)
  }

  /** Every message a command writes ends in a newline, so it is never the prompt. */
  predicate AllLines(out: seq<string>) {
    forall k :: 0 <= k < |out| ==> |out[k]| > 0 && out[k][|out[k]| - 1] == '\n'
  }

  lemma {:induction false} CountPromptsAppendLines(out: seq<string>, lines: seq<string>)
    requires AllLines(lines)
    ensures CountPrompts(out + lines) == CountPrompts(out)
    decreases |lines|
  {
    if lines == [] {
      assert out + lines == out;
    } else {
      var init := lines[..|lines| - 1];
      var last := lines[|lines| - 1];
      assert last != Prompt by {
        assert last[|last| - 1] == '\n';
        assert Prompt[|Prompt| - 1] == ' ';
      }
      assert (out + lines)[..|out + lines| - 1] == out + init;
      assert (out + lines)[|out + lines| - 1] == lines[|lines| - 1];
      CountPromptsAppendLines(out, init);
    }
  }

  lemma CdWritesLines(target: Option<string>, cwd: string, past: seq<SysCall>, os: Os)
    ensures AllLines(ChangeDirectory(target, cwd, past, os).out)
  {
  }

  lemma LaunchWritesLines(command: string, args: seq<string>, cwd: string, past: seq<SysCall>, os: Os)
    ensures AllLines(ExecuteExternal(command, args, cwd, past, os).out)
  {
  }

  lemma ApplyWritesLines(s: Session, e: Effect)
    requires AllLines(e.out)
    ensures s.out <= Apply(s, e).out && AllLines(Apply(s, e).out[|s.out|..])
  {
    assert Apply(s, e).out[|s.out|..] == e.out;
  }

  lemma StepWritesLines(s: Session, line: string, home: Option<string>, os: Os)
    ensures var s' := Step(s, line, home, os);
      s.out <= s'.out && AllLines(s'.out[|s.out|..])
  {
    var s1 := s.(read := s.read + 1);
    match Parse(line)
    case Blank =>
      assert s.out[|s.out|..] == [];
    case Invocation(command, args) =>
      match ExecuteBuiltin(command, args, home, s.cwd, s.calls, os)
      case Terminated =>
        assert s.out[|s.out|..] == [];
      case Handled(e) =>
        CdWritesLines(if |args| == 0 then home else Some(args[0]), s.cwd, s.calls, os);
        ApplyWritesLines(s1, e);
      case NotBuiltin =>
        LaunchWritesLines(command, args, s.cwd, s.calls, os);
        ApplyWritesLines(s1, ExecuteExternal(command, args, s.cwd, s.calls, os));
  }

  lemma {:induction false} FeedCountsPrompts(s: Session, lines: seq<string>, home: Option<string>, os: Os)
    requires CountPrompts(s.out) == s.read
    ensures CountPrompts(Feed(s, lines, home, os).out) == Feed(s, lines, home, os).read
    decreases |lines|
  {
    if s.status == Running && lines != [] {
      var p := s.(out := s.out + [Prompt]);
      assert (s.out + [Prompt])[..|s.out|] == s.out;
      var s' := Step(p, lines[0], home, os);
      StepWritesLines(p, lines[0], home, os);
      assert s'.out == p.out + s'.out[|p.out|..];
      CountPromptsAppendLines(p.out, s'.out[|p.out|..]);
      StepStatus(p, lines[0], home, os);
      FeedCountsPrompts(s', lines[1..], home, os);
    }
  }

  /** One prompt is printed before every read, the read that meets end of input included. */
  lemma PromptBeforeEveryRead(lines: seq<string>, home: Option<string>, cwd: string, os: Os)
    ensures var r := Run(lines, home, cwd, os);
      CountPrompts(r.out) == r.read + (if r.status == EndOfInput then 1 else 0)
  {
    FeedCountsPrompts(Start(cwd), lines, home, os);
    FeedStops(Start(cwd), lines, home, os);
    var f := Feed(Start(cwd), lines, home, os);
    if f.status == Running {
      assert (f.out + [Prompt])[..|f.out|] == f.out;
    }
  }

  /** The discipline of the system-call log: no builtin name is ever spawned, every
      successful spawn is followed at once by a wait for its pid, and every wait is for
      the pid of the spawn just before it, so each child is waited for exactly once. */
  predicate WellFormedLog(calls: seq<SysCall>) {
    && (forall i :: 0 <= i < |calls| && calls[i].Spawn? ==> !IsBuiltinName(calls[i].command))
    && (forall i :: 0 <= i < |calls| && calls[i].Spawn? && calls[i].spawnResult.Spawned? ==>
          i + 1 < |calls| && calls[i + 1].Wait? && calls[i + 1].waited == calls[i].spawnResult.pid)
    && (forall i :: 0 <= i < |calls| && calls[i].Wait? ==>
          0 < i && calls[i - 1].Spawn? && calls[i - 1].spawnResult.Spawned? && calls[i - 1].spawnResult.pid == calls[i].waited)
  }

  lemma LogAppend(a: seq<SysCall>, b: seq<SysCall>)
    requires WellFormedLog(a) && WellFormedLog(b)
    ensures WellFormedLog(a + b)
  {
    var c := a + b;
    forall i | 0 <= i < |c| && c[i].Spawn? && c[i].spawnResult.Spawned?
      ensures i + 1 < |c| && c[i + 1].Wait? && c[i + 1].waited == c[i].spawnResult.pid
    {
      if i < |a| { assert c[i] == a[i] && c[i + 1] == a[i + 1]; }
      else { assert c[i] == b[i - |a|] && c[i + 1] == b[i + 1 - |a|]; }
    }
    forall i | 0 <= i < |c| && c[i].Wait?
      ensures 0 < i && c[i - 1].Spawn? && c[i - 1].spawnResult.Spawned? && c[i - 1].spawnResult.pid == c[i].waited
    {
      if i < |a| { assert c[i] == a[i] && c[i - 1] == a[i - 1]; }
      else { assert c[i] == b[i - |a|] && c[i - 1] == b[i - 1 - |a|]; }
    }
    forall i | 0 <= i < |c| && c[i].Spawn?
      ensures !IsBuiltinName(c[i].command)
    {
      if i < |a| { assert c[i] == a[i]; } else { assert c[i] == b[i - |a|]; }
    }
  }

  lemma StepKeepsLog(s: Session, line: string, home: Option<string>, os: Os)
    requires WellFormedLog(s.calls)
    ensures WellFormedLog(Step(s, line, home, os).calls)
  {
    match Parse(line)
    case Blank =>
    case Invocation(command, args) =>
      match ExecuteBuiltin(command, args, home, s.cwd, s.calls, os)
      case Terminated =>
      case Handled(e) =>
        LogAppend(s.calls, e.calls);
      case NotBuiltin =>
        LogAppend(s.calls, ExecuteExternal(command, args, s.cwd, s.calls, os).calls);
  }

  lemma {:induction false} FeedKeepsLog(s: Session, lines: seq<string>, home: Option<string>, os: Os)
    requires WellFormedLog(s.calls)
    ensures WellFormedLog(Feed(s, lines, home, os).calls)
    decreases |lines|
  {
    if s.status == Running && lines != [] {
      StepKeepsLog(s.(out := s.out + [Prompt]), lines[0], home, os);
      FeedKeepsLog(Step(s.(out := s.out + [Prompt]), lines[0], home, os), lines[1..], home, os);
    }
  }

  lemma RunLogWellFormed(lines: seq<string>, home: Option<string>, cwd: string, os: Os)
    ensures WellFormedLog(Run(lines, home, cwd, os).calls)
  {
    FeedKeepsLog(Start(cwd), lines, home, os);
  }
}
