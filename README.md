# kazsh shell core, modelled in Dafny

kazsh is a small Ruby read-eval loop. It prints the prompt `> `, reads a line, and
splits it on whitespace into a command and its arguments. It skips blank lines and
runs the builtins `cd` and `exit` in the shell itself. Every other command is
started with `spawn`, and the shell waits for it once. This project models that
loop, minus the operating system, and proves what it promises.

- `tokens.dfy` (module `Tokens`) models `input.chomp.split`.
  - `Chomp` drops one trailing `"\r\n"`, `"\n"` or `"\r"`.
  - `Split` splits on runs of ASCII whitespace.
  - Lemmas show that split tokens are non-empty and free of whitespace, that
    characters other than whitespace are kept in order, and that a line yields no
    token exactly when it is blank.
  - Further lemmas show that splitting at a whitespace character splits the result,
    that splitting a space-joined list of tokens gives the tokens back, and that
    chomping does not change the tokens.
- `commands.dfy` (module `Commands`) models `execute_builtin` and `execute_external`
  as functions over answers from the operating system.
  - Each system call (`Dir.chdir`, `spawn`, `Process.wait`) is answered by an oracle
    in the `Os` value.
  - Every oracle sees the log of earlier calls and the call's own arguments, so its
    answers may change over time. The `chdir` and `spawn` oracles also see the
    current directory.
  - Every call and its answer is recorded as a `SysCall`.
  - Output is kept as the exact strings written. A message passes through `Puts`,
    which adds the newline `puts` adds.
- `repl.dfy` (module `Repl`) models the loop.
  - `Repl.Repl` is a method with a `while` loop. Its state is the current
    directory, a running/exited/end-of-input status, the output transcript, the
    system-call log and the number of lines read.
  - It is proved equal to the specification function `Run`. `Run` is built from
    `Step` (one loop body), `Feed` (the lines in order) and `Finish` (the final
    prompt and the `nil` read).
- `repl_properties.dfy` (module `ReplProperties`) proves properties of `Run` and
  `Step`.
  - `Step` does what an independent `Classify` of the line's tokens says it should.
  - Lines are handled in order.
  - `exit` stops the loop, and no later line is read.
  - A prompt is printed before every read.
  - No builtin name ever reaches `spawn`, and each spawned pid is waited for exactly
    once, right after its spawn.

The shell has no pipeline support. A `|` on the line is one more whitespace-separated
token, so `ls | wc` runs `ls` with the arguments `|` and `wc`.

Two details follow Ruby's own semantics.

- When HOME is unset, `cd` passes `nil` to `Dir.chdir`. Ruby raises a `TypeError` for
  that before any system call, the rescue clause prints
  `cd: no implicit conversion of nil into String`, and the loop goes on.
- `rescue Errno::ENOENT` covers both `spawn` and `Process.wait`, so an ENOENT from
  either prints `<command>: command not found`. Any other error from either prints
  `Error: <message>`.

## Model

| member | source | states |
|---|---|---|
| Tokens.Chomp | shell.rb:43 | the result is a prefix of the line, at most two characters shorter, and what it drops is whitespace |
| Tokens.Split | shell.rb:43 | every token of `split` is non-empty and contains no whitespace |
| Tokens.SplitAtSpace | shell.rb:43 | whitespace separates: the tokens of `a + [c] + b` for a whitespace `c` are those of `a` followed by those of `b` |
| Tokens.SplitFromWord | shell.rb:43 | a run of non-whitespace characters extends the token in progress instead of starting a new one |
| Tokens.SplitJoin | shell.rb:43 | splitting single-space-joined tokens gives back exactly those tokens in order (round trip) |
| Tokens.SplitKeepsCharacters | shell.rb:43 | the tokens concatenated are the line's non-whitespace characters, in their original order |
| Tokens.SplitEmptyIffBlank | shell.rb:43-48 | a line has no tokens if and only if it is empty or whitespace only |
| Tokens.ChompKeepsTokens | shell.rb:43 | removing the line terminator does not change the tokens |
| Commands.Puts | shell.rb:12 | the text `puts` writes starts with the message and ends in exactly one added or existing newline |
| Commands.ChangeDirectory | shell.rb:8-14 | `chdir` is called once with the target (no call when HOME is nil); output is empty exactly when the directory was entered; the directory becomes the one entered, otherwise stays; a failure prints exactly `cd: <message>` |
| Commands.ExecuteBuiltin | shell.rb:3-20 | `false` exactly for names other than `cd` and `exit`; `exit` exactly terminates; `cd` is always handled, makes only `chdir` calls, targets `args[0]` or HOME with no arguments |
| Commands.CdIgnoresExtraArguments | shell.rb:7 | `cd d x y` behaves exactly as `cd d` |
| Commands.CdAloneGoesHome | shell.rb:7 | `cd` with no argument behaves exactly as `cd $HOME` |
| Commands.LaunchMessage | shell.rb:26-29 | ENOENT prints `<command>: command not found`, any other error prints `Error: <message>` |
| Commands.ExecuteExternal | shell.rb:22-30 | spawns once with the command and its arguments; waits exactly when the spawn succeeded, on that pid, once; prints nothing exactly when the wait reaped the child, else one classified message; the directory is unchanged |
| Repl.Parse | shell.rb:43-48 | a line is skipped exactly when it is blank; otherwise the command is the first token and the arguments are the remaining tokens in order, all non-empty and whitespace-free |
| Repl.Classify | shell.rb:43-52 | the reference reading of a line: skip exactly for blank lines; an external command is never a builtin name and is the line's tokens |
| Repl.Step | shell.rb:43-56 | one loop pass over a read line: counts one more line read; only appends to the transcript and to the call log; either keeps the status or stops on `exit`, and stopping writes nothing, calls nothing and keeps the directory; the directory changes only through one successful `chdir` whose answer is the new directory |
| Repl.Feed | shell.rb:33-57 | the loop over the lines in order: a stopped session stays as it is; the transcript and call log only grow; at most one line is read per line given; a running session never reaches end of input inside it, and one that stops on `exit` has a prompt as its last output |
| Repl.Finish | shell.rb:39-40 | the read that meets `nil`: the session is over afterwards; directory, calls and lines read are unchanged; at most one prompt is added, and the output ends in a prompt whenever the session was still running or its output already ended in one |
| Repl.Run | shell.rb:33-57 | a whole session ends either exited or at end of input, reads no more lines than it is given, and its output always ends with the prompt |
| Repl.Eval | shell.rb:43-56 | one pass of the loop body over a read line, with its `next` and `exit` exits, yields exactly `Step` of the line |
| Repl.Repl | shell.rb:33-57 | the loop (prompt, read, stop at `nil` or on `exit`) ends in exactly the state `Run` gives: directory, status, transcript, system calls and lines read |
| ReplProperties.StepFollowsClassify | shell.rb:43-56 | one pass of the loop does what `Classify` says: blank makes no call and writes nothing, `exit` stops, `cd` runs only the directory change, any other name only the external launch |
| ReplProperties.BlankLineIsNoOp | shell.rb:48 | a blank line changes nothing but the count of lines read |
| ReplProperties.CdFailureKeepsDirectory | shell.rb:11-14 | a failed `cd` keeps the directory, prints exactly `cd: <message>`, records its one `chdir` call and the loop keeps running |
| ReplProperties.CdTarget | shell.rb:7 | a line whose tokens are `cd` alone targets HOME; one whose tokens are `cd a b …` targets `a` and ignores the rest |
| ReplProperties.ExternalCommandLine | shell.rb:43-45 | any line of words whose first word is not a builtin name launches that word with the remaining words as arguments, in order |
| ReplProperties.PipeIsAnOrdinaryToken | shell.rb:43-45 | `ls \| wc` launches `ls` with the arguments `\|` and `wc` |
| ReplProperties.FeedAppend | shell.rb:33-57 | lines are handled strictly one after another: running `a + b` is running `a` and then `b` from the resulting state |
| ReplProperties.StepStatus | shell.rb:15-16 | one line moves the count of lines read by one, and the loop stops exactly on an `exit` line |
| ReplProperties.ExitIgnoresRest | shell.rb:15-16 | once an `exit` line is read, the lines after it change nothing and the session ends as exited |
| ReplProperties.FirstExit | shell.rb:15-16 | the index found is the first `exit` line, or the number of lines when there is none |
| ReplProperties.FeedStops | shell.rb:33-57 | from a running state the loop stops exactly at the first `exit` line, having read up to and including it, or reads every line |
| ReplProperties.RunStopsAtFirstExit | shell.rb:39-40 | a session ends exited if and only if some line is `exit`, and ends at end of input otherwise, having read every line |
| ReplProperties.EmptyInput | shell.rb:39-40 | end of input on the first read leaves one prompt, no call and no line read |
| ReplProperties.CountPromptsAppendLines | shell.rb:35 | messages, which end in a newline, are never counted as prompts |
| ReplProperties.StepWritesLines | shell.rb:12 | one pass of the loop only appends to the transcript, and every appended piece is a newline-terminated message |
| ReplProperties.FeedCountsPrompts | shell.rb:35-39 | while running, the transcript holds one prompt per line read |
| ReplProperties.PromptBeforeEveryRead | shell.rb:35-40 | the transcript holds exactly one prompt per read, counting the read that meets end of input |
| ReplProperties.LogAppend | shell.rb:24-25 | the system-call log discipline is preserved by concatenating two logs that keep it |
| ReplProperties.StepKeepsLog | shell.rb:51-56 | one pass of the loop keeps the system-call log discipline |
| ReplProperties.FeedKeepsLog | shell.rb:33-57 | the loop over any input keeps the system-call log discipline |
| ReplProperties.RunLogWellFormed | shell.rb:17-25 | over a whole session, no builtin name is spawned, and every successful spawn is followed at once by the one wait for its pid |

## Left out

- The operating system is left out. `Dir.chdir`, `spawn`, `Process.wait`,
  `ENV['HOME']`, `gets` and `print`/`puts` are replaced by oracle answers, the input
  line sequence and the output transcript.
  - The oracle answers from the history of calls. It does not see what the launched
    programs do to the file system.
  - `$stdout.flush` has no counterpart.
- `exit` is modelled as the end of the session. What `Kernel#exit` does further, such
  as raising `SystemExit` and running at-exit handlers, is not modelled.
- Exception classes are reduced to ENOENT versus any other error. An exception that
  is not a `StandardError` would escape the `rescue` clauses; this is not modelled.
- With no arguments, `spawn(command)` hands a lone command string that contains shell
  metacharacters to `/bin/sh`. The model does not distinguish that route; the spawn
  oracle decides its outcome.
- Whitespace is the six ASCII characters space, tab, newline, vertical tab, form feed
  and carriage return. Ruby's encoding-dependent rules are not modelled.
- The children run concurrently with nothing but the shell's wait. Their concurrency
  and exit statuses are not part of the model.
