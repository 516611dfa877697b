/** The two command runners of the shell, `execute_builtin` and `execute_external`.
    Every operating-system call (`Dir.chdir`, `spawn`, `Process.wait`) is answered by
    an oracle that sees the log of the calls made before it, so that the answers may
    change over time the way a real file system and process table do. */
module Commands {

  datatype Option<T> = None | Some(value: T)

  type Pid = nat

  /** A Ruby `SystemCallError`, reduced to what the shell looks at: whether it is
      `Errno::ENOENT`, and its message. */
  datatype Errno = ENOENT(message: string) | OtherError(message: string)

  datatype ChdirResult = Changed(dir: string) | ChdirFailed(chdirError: Errno)
  datatype SpawnResult = Spawned(pid: Pid) | SpawnFailed(spawnError: Errno)
  datatype WaitResult = Reaped | WaitFailed(waitError: Errno)

  /** One call into the operating system together with its answer. */
  datatype SysCall =
    | Chdir(target: string, chdirResult: ChdirResult)
    | Spawn(command: string, args: seq<string>, spawnResult: SpawnResult)
    | Wait(waited: Pid, waitResult: WaitResult)

  /** The operating system: each call is answered from the earlier calls and the call's
      own arguments; `chdir` and `spawn` also see the current directory. */
  datatype Os = Os(
    chdir: (seq<SysCall>, string, string) -> ChdirResult,
    spawn: (seq<SysCall>, string, string, seq<string>) -> SpawnResult,
    wait: (seq<SysCall>, Pid) -> WaitResult)

  /** What running one command did: the directory afterwards, the text written and
      the system calls made. */
  datatype Effect = Effect(cwd: string, out: seq<string>, calls: seq<SysCall>)

  /** The value of `execute_builtin`: `false`, `true`, or the process ends (`exit`). */
  datatype BuiltinOutcome = NotBuiltin | Handled(effect: Effect) | Terminated

  /** The text `puts` writes: the string and a newline, unless it already ends in one. */
  function Puts(text: string): (r: string)
    ensures text <= r && |r| <= |text| + 1
    ensures |r| > 0 && r[|r| - 1] == '\n'
    ensures |text| > 0 && text[|text| - 1] == '\n' ==> r == text
  {
    if |text| > 0 && text[|text| - 1] == '\n' then text else text + "\n"
  }

  /** The message of the `TypeError` that `Dir.chdir(nil)` raises when HOME is unset. */
  const NilPathMessage := "no implicit conversion of nil into String"

  predicate IsBuiltinName(command: string) {
    command == "cd" || command == "exit"
  }

  /** Whether the calls of a `cd` succeeded in entering a directory. */
  predicate EnteredDirectory(calls: seq<SysCall>) {
    |calls| == 1 && calls[0].Chdir? && calls[0].chdirResult.Changed?
  }

  /** The `cd` branch of `execute_builtin`: `Dir.chdir(dir)`, and on any error
      `puts "cd: #{e.message}"`. A missing HOME reaches `Dir.chdir` as `nil`, which
      Ruby rejects with a `TypeError` before any system call is made. */
  function ChangeDirectory(target: Option<string>, cwd: string, past: seq<SysCall>, os: Os): (r: Effect)
    ensures target.Some? ==> r.calls == [Chdir(target.value, os.chdir(past, cwd, target.value))]
    ensures target.None? ==> r.calls == []
    ensures r.out == [] <==> EnteredDirectory(r.calls)
    ensures EnteredDirectory(r.calls) ==> r.cwd == r.calls[0].chdirResult.dir
    ensures !EnteredDirectory(r.calls) ==> r.cwd == cwd && |r.out| == 1
    ensures target.None? ==> r.out == [Puts("cd: " + NilPathMessage)]
    ensures target.Some? && r.calls[0].chdirResult.ChdirFailed? ==>
      r.out == [Puts("cd: " + r.calls[0].chdirResult.chdirError.message)]
  {
    match target
    case None => Effect(cwd, [Puts("cd: " + NilPathMessage)], [])
    case Some(dir) =>
      var result := os.chdir(past, cwd, dir);
      match result
      case Changed(entered) => Effect(entered, [], [Chdir(dir, result)])
      case ChdirFailed(e) => Effect(cwd, [Puts("cd: " + e.message)], [Chdir(dir, result)])
  }

  /** `execute_builtin(command, args)`: `cd` goes to `args[0]`, or to HOME when there
      are no arguments, and is handled whether or not the change succeeds; `exit`
      ends the process; any other name is not a builtin. */
  function ExecuteBuiltin(command: string, args: seq<string>, home: Option<string>,
                          cwd: string, past: seq<SysCall>, os: Os): (r: BuiltinOutcome)
    ensures r.NotBuiltin? <==> !IsBuiltinName(command)
    ensures r.Terminated? <==> command == "exit"
    ensures r.Handled? <==> command == "cd"
    ensures r.Handled? ==> forall k :: 0 <= k < |r.effect.calls| ==> r.effect.calls[k].Chdir?
    ensures r.Handled? && |args| > 0 ==> r.effect.calls == [Chdir(args[0], os.chdir(past, cwd, args[0]))]
    ensures r.Handled? && |args| == 0 && home.Some? ==> r.effect.calls == [Chdir(home.value, os.chdir(past, cwd, home.value))]
  {
    if command == "cd" then
      var target := if |args| == 0 then home else Some(args[0]);
      Handled(ChangeDirectory(target, cwd, past, os))
    else if command == "exit" then
      Terminated
    else
      NotBuiltin
  }

  /** `cd` looks at its first argument only. */
  lemma CdIgnoresExtraArguments(dir: string, rest: seq<string>, home: Option<string>,
                                cwd: string, past: seq<SysCall>, os: Os)
    ensures ExecuteBuiltin("cd", [dir] + rest, home, cwd, past, os) == ExecuteBuiltin("cd", [dir], home, cwd, past, os)
  {
  }

  /** `cd` alone behaves as `cd $HOME`. */
  lemma CdAloneGoesHome(home: string, cwd: string, past: seq<SysCall>, os: Os)
    ensures ExecuteBuiltin("cd", [], Some(home), cwd, past, os) == ExecuteBuiltin("cd", [home], Some(home), cwd, past, os)
  {
  }

  /** The message a failed launch prints: the `rescue Errno::ENOENT` clause, then the catch-all. */
  function LaunchMessage(command: string, e: Errno): (r: string)
    ensures e.ENOENT? ==> r == Puts(command + ": command not found")
    ensures e.OtherError? ==> r == Puts("Error: " + e.message)
  {
    match e
    case ENOENT(_) => Puts(command + ": command not found")
    case OtherError(message) => Puts("Error: " + message)
  }

  /** `execute_external(command, args)`: `spawn` the program, wait for that pid once,
      and turn any error of either call into one line of output. */
  function ExecuteExternal(command: string, args: seq<string>, cwd: string, past: seq<SysCall>, os: Os): (r: Effect)
    ensures r.cwd == cwd
    ensures 1 <= |r.calls| <= 2 && r.calls[0] == Spawn(command, args, os.spawn(past, cwd, command, args))
    ensures |r.calls| == 2 <==> r.calls[0].spawnResult.Spawned?
    ensures |r.calls| == 2 ==> r.calls[1] == Wait(r.calls[0].spawnResult.pid, os.wait(past + [r.calls[0]], r.calls[0].spawnResult.pid))
    ensures |r.out| <= 1
    ensures r.out == [] <==> |r.calls| == 2 && r.calls[1].waitResult.Reaped?
    ensures r.calls[0].spawnResult.SpawnFailed? ==> r.out == [LaunchMessage(command, r.calls[0].spawnResult.spawnError)]
    ensures |r.calls| == 2 && r.calls[1].waitResult.WaitFailed? ==> r.out == [LaunchMessage(command, r.calls[1].waitResult.waitError)]
  {
    var launched := os.spawn(past, cwd, command, args);
    var spawnCall := Spawn(command, args, launched);
    match launched
    case SpawnFailed(e) => Effect(cwd, [LaunchMessage(command, e)], [spawnCall])
    case Spawned(pid) =>
      var waited := os.wait(past + [spawnCall], pid);
      var calls := [spawnCall, Wait(pid, waited)];
      match waited
      case Reaped => Effect(cwd, [], calls)
      case WaitFailed(e) => Effect(cwd, [LaunchMessage(command, e)], calls)
  }
}
