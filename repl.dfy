/** The read loop of the shell: print the prompt, read a line, stop at end of input,
    split the line, skip it when blank, run it as a builtin if it is one and as an
    external program otherwise. Input is a sequence of lines; what `gets` returns
    after the last one is `nil`. */
module Repl {
  import opened Tokens
  import opened Commands

  const Prompt := "> "

  datatype Status = Running | Exited | EndOfInput

  /** The state the loop carries: the current directory, whether it is still running,
      everything written to standard output, the system calls made and the number of
      lines read. */
  datatype Session = Session(cwd: string, status: Status, out: seq<string>, calls: seq<SysCall>, read: nat)

  function Start(cwd: string): Session {
    Session(cwd, Running, [], [], 0)
  }

  /** A line after `parts = input.chomp.split; command = parts[0]; args = parts[1..-1]`. */
  datatype Parsed = Blank | Invocation(command: string, args: seq<string>)

  function Parse(line: string): (r: Parsed)
    ensures r.Blank? <==> IsBlank(line)
    ensures r.Invocation? ==> [r.command] + r.args == Split(line)
    ensures r.Invocation? ==> IsWord(r.command) && forall k :: 0 <= k < |r.args| ==> IsWord(r.args[k])
  {
    var parts := Split(Chomp(line));
    ChompKeepsTokens(line);
    SplitEmptyIffBlank(line);
    if |parts| == 0 || parts[0] == "" then Blank
    else assert parts == [parts[0]] + parts[1..]; Invocation(parts[0], parts[1..])
  }

  /** What a line asks the shell to do, read off its tokens. This is the reference the
      loop's code is compared with in StepFollowsClassify. */
  datatype Action = Skip | Cd(target: Option<string>) | Exit | External(command: string, args: seq<string>)

  function Classify(line: string, home: Option<string>): (r: Action)
    ensures r.Skip? <==> IsBlank(line)
    ensures r.External? ==> !IsBuiltinName(r.command) && [r.command] + r.args == Split(line)
  {
    SplitEmptyIffBlank(line);
    var t := Split(line);
    if t == [] then Skip
    else if t[0] == "cd" then Cd(if |t| == 1 then home else Some(t[1]))
    else if t[0] == "exit" then Exit
    else assert t == [t[0]] + t[1..]; External(t[0], t[1..])
  }

  function Apply(s: Session, e: Effect): Session {
    s.(cwd := e.cwd, out := s.out + e.out, calls := s.calls + e.calls)
  }

  /** One pass of the loop body after the prompt is printed and `line` is read. */
  function Step(s: Session, line: string, home: Option<string>, os: Os): (r: Session)
    ensures r.read == s.read + 1
    ensures s.out <= r.out && s.calls <= r.calls
    ensures r.status == s.status || r.status == Exited
    ensures r.status != s.status ==> r.out == s.out && r.calls == s.calls && r.cwd == s.cwd
    ensures r.cwd != s.cwd ==>
      |r.calls| == |s.calls| + 1 && r.calls[|s.calls|].Chdir? && r.calls[|s.calls|].chdirResult == Changed(r.cwd)
  {
    var s' := s.(read := s.read + 1);
    match Parse(line)
    case Blank => s'
    case Invocation(command, args) =>
      match ExecuteBuiltin(command, args, home, s.cwd, s.calls, os)
      case Terminated => s'.(status := Exited)
      case Handled(e) => Apply(s', e)
      case NotBuiltin => Apply(s', ExecuteExternal(command, args, s.cwd, s.calls, os))
  }

  /** The loop over `lines` while it is running, without the final read. */
  function Feed(s: Session, lines: seq<string>, home: Option<string>, os: Os): (r: Session)
    ensures s.status != Running ==> r == s
    ensures s.out <= r.out && s.calls <= r.calls
    ensures s.read <= r.read <= s.read + |lines|
    ensures s.status == Running ==> r.status != EndOfInput
    ensures s.status == Running && r.status == Exited ==> |r.out| > 0 && r.out[|r.out| - 1] == Prompt
    decreases |lines|
  {
    if s.status != Running || lines == [] then s
    else
      var p := s.(out := s.out + [Prompt]);
      var q := Step(p, lines[0], home, os);
      var r := Feed(q, lines[1..], home, os);
      assert s.out <= p.out <= q.out <= r.out && s.calls <= q.calls <= r.calls;
      assert r.status == Exited && q.status == Exited ==> r.out == q.out == p.out;
      r
  }

  /** The read that finds no more input: one more prompt, then `gets` gives `nil`. */
  function Finish(s: Session): (r: Session)
    ensures r.status != Running
    ensures r.cwd == s.cwd && r.calls == s.calls && r.read == s.read
    ensures s.out <= r.out && |r.out| <= |s.out| + 1
    ensures s.status == Running || (|s.out| > 0 && s.out[|s.out| - 1] == Prompt) ==>
      |r.out| > 0 && r.out[|r.out| - 1] == Prompt
  {
    if s.status == Running then s.(out := s.out + [Prompt], status := EndOfInput) else s
  }

  /** The whole session of the shell over the input `lines`. */
  function Run(lines: seq<string>, home: Option<string>, cwd: string, os: Os): (r: Session)
    ensures r.status == Exited || r.status == EndOfInput
    ensures r.read <= |lines|
    ensures |r.out| > 0 && r.out[|r.out| - 1] == Prompt
  {
    var s0 := Start(cwd);
    assert s0.status == Running && s0.read == 0;
    var f := Feed(s0, lines, home, os);
    assert f.status != EndOfInput && f.read <= |lines|;
    Finish(f)
  }

  /** The body of the loop for one line read: split it, skip it when blank (`next`),
      run it as a builtin and go on when that returns true (`next`), stop on `exit`,
      and launch it otherwise. */
  method Eval(s: Session, line: string, home: Option<string>, os: Os) returns (t: Session)
    ensures t == Step(s, line, home, os)
  {
    t := s.(read := s.read + 1);
    var parsed := Parse(line);
    if parsed.Blank? {
      return;
    }
    var command, args := parsed.command, parsed.args;
    var builtin := ExecuteBuiltin(command, args, home, t.cwd, t.calls, os);
    if builtin.Terminated? {
      t := t.(status := Exited);
      return;
    }
    if builtin.Handled? {
      t := Apply(t, builtin.effect);
      return;
    }
    var effect := ExecuteExternal(command, args, t.cwd, t.calls, os);
    t := Apply(t, effect);
  }

  /** The loop as the shell runs it: prompt, read, stop at end of input or on `exit`. */
  method Repl(lines: seq<string>, home: Option<string>, cwd: string, os: Os) returns (s: Session)
    ensures s == Run(lines, home, cwd, os)
  {
    s := Start(cwd);
    var i := 0;
    while true
      invariant 0 <= i <= |lines| && s.status == Running
      invariant Run(lines, home, cwd, os) == Finish(Feed(s, lines[i..], home, os))
      decreases |lines| - i
    {
      s := s.(out := s.out + [Prompt]);
      if i == |lines| {
        s := s.(status := EndOfInput);
        break;
      }
      var line := lines[i];
      assert lines[i..][0] == line && lines[i..][1..] == lines[i + 1..];
      i := i + 1;
      s := Eval(s, line, home, os);
      if s.status == Exited {
        break;
      }
    }
  }
}
