# A Dafny model of the PA-2 shell's orchestration logic

This project models the decision logic of a small interactive Unix shell (`shell.cpp`):
the background reaper, the `cd` built-in, the marshalling of an argument vector for
`execvp`, the stream wiring of a single command and of each pipeline stage, the shell's
pipe/fork/close/wait schedule for a pipeline, and the per-line dispatch of the main loop.
Every operating-system call is replaced by an input. Examples: the `waitpid(WNOHANG)`
answers, the results of `fork` and `pipe`, the set of directories `chdir` can enter, the
set of working directories the system lets `getcwd` resolve, the `HOME` variable, the files `open`
succeeds on, and the programs `execvp` can run.

Modules (one file each):

- `Base` (`base.dfy`): `Option`, `Pid` (a positive process id), and the failure status 2.
- `Command` (`command.dfy`): the command descriptor `Cmd`. It also holds the vocabulary for
  standard-stream sources and sinks, the file-system oracle, and the way a forked child ends.
- `Reaper` (`reaper.dfy`): `reap_bg_processess`.
- `DirChange` (`cd.dfy`): `handle_cd`.
- `Argv` (`argv.dfy`): `vec_to_char`, and the null-terminated scan `execvp` performs.
- `SingleCommand` (`single.dfy`): both sides of `exec_single_command`.
- `Pipeline` (`pipeline.dfy`): the child side of `exec_piped_commands`.
- `PipeParent` (`parent.dfy`): the parent side of `exec_piped_commands`. It is a method
  that records a trace of events and tracks the set of pipe endpoints the shell holds.
- `Dispatch` (`dispatch.dfy`): the dispatch part of `main`, and one loop iteration.

Behaviour of the code worth knowing, which the model follows:

- The reaper removes a pid only when `waitpid` returned a value greater than 0. A result of
  -1 ("no such child") keeps the pid in `bg_pids` for good. It is not treated as already
  reaped.
- A pipeline honours an input file only at stage 0 and an output file only at the last
  stage. An output file on stage 0, or an input file on a later stage, is ignored. It does
  not override the pipe.
- A foreground single command whose wait status is above 1 ends the shell with that status.
  A child that fails to open a file or to exec exits with 2, which makes its wait status
  above 1, so such a failure ends the shell too.
- A line whose tokenizer produces no commands and no error goes to the pipeline runner with
  zero stages. It forks nothing and waits for nothing.
- After its argument-count check and before it looks at its target, `cd` calls `getcwd`
  into a 1024-byte buffer. So it fails in a working directory whose UTF-8 path needs more
  than 1023 bytes, even when its target is absolute. It fails the same way in a directory that was removed or cannot be read.
- End of input makes `getline` yield an empty line, which is skipped. The loop does not end.

## Model

| member | source | states |
|---|---|---|
| `Reaper.Reap` | shell.cpp:25-36 | The erase-while-iterating loop checks every tracked pid exactly once, in list order. It leaves exactly the reference survivors, in order. |
| `Reaper.Survivors` | shell.cpp:26-35 | A pass never leaves more pids than it started with. |
| `Reaper.SurvivorsAreTracked` | shell.cpp:26-35 | The pids left after a pass are a subset of the tracked pids: every one was tracked before it, and the reaper never adds a pid. |
| `Reaper.SurvivorsKeepOrder` | shell.cpp:26-34 | The survivors are a subsequence of `bg_pids`, so the relative order is kept. |
| `Reaper.UnreapedStays` | shell.cpp:28-34 | A pid whose check returned 0 or -1 is still tracked after the pass. |
| `Reaper.ReapedLeaves` | shell.cpp:28-31 | When pids are distinct, a pid whose check returned a value above 0 is no longer tracked. |
| `Reaper.SurvivesIff` | shell.cpp:28-34 | When pids are distinct, a pid survives if and only if its WNOHANG result is at most 0. |
| `Reaper.QuietPassKeepsAll` | shell.cpp:25-36 | A pass in which no check reports an exit leaves the list unchanged. |
| `DirChange.HandleCd` | shell.cpp:39-89 | Each failure (too many arguments, getcwd, HOME unset, empty prev_dir, chdir) is reported exactly when its condition holds, and leaves cwd and prev_dir unchanged. getcwd fails exactly when the system cannot resolve the working directory, or when its UTF-8 path and NUL do not fit the 1024-byte buffer. On success prev_dir becomes the old cwd and cwd becomes the target. `cd -` swaps the two. |
| `DirChange.OverlongCwdFails` | shell.cpp:45-49 | Whatever the system would answer, a working directory whose UTF-8 path and NUL exceed 1024 bytes makes every `cd` with at most one argument fail at getcwd, leaving the state unchanged. |
| `DirChange.WideCwdFails` | shell.cpp:45-49 | A directory of 600 two-byte characters is shorter than 1024 characters, yet `cd` from it fails at getcwd in any environment, because its path takes 1200 bytes. |
| `DirChange.CdDashTwice` | shell.cpp:68-78 | Two successful `cd -` in a row restore the original (cwd, prev_dir). |
| `DirChange.CdThenBack` | shell.cpp:68-86 | `cd path` followed by `cd -` returns to the starting directory and remembers `path` as the previous directory. |
| `Argv.VecToChar` | shell.cpp:92-99 | The array has n+1 slots. Slots 0..n-1 hold the arguments in order and slot n is null, so a null-terminated scan reads back exactly the arguments. |
| `Argv.NullTerminatedRoundTrip` | shell.cpp:92-99 | Any slot array laid out as the arguments followed by a null reads back as exactly those arguments. |
| `SingleCommand.Child` | shell.cpp:109-136 | The child exits with 2 exactly when the input open, the output open or the exec fails. Otherwise it runs `args`. Its stdin is the input file if given, else inherited. Its stdout is the output file if given, else inherited. It never uses a pipe. The output file is truncated exactly when both opens succeed. |
| `SingleCommand.ExecReadsCommandArgs` | shell.cpp:132-133 | The argv the child execs is exactly what `execvp` reads back from the null-terminated array `vec_to_char(cmd->args)` builds. |
| `SingleCommand.Parent` | shell.cpp:103-147 | A failed fork ends the shell with 2. The shell blocks on the forked pid exactly when the command runs in the foreground. In the background the pid is appended and nothing is waited for. In the foreground the job list is untouched, and the shell ends exactly when the status is above 1, with that status. |
| `Pipeline.Child` | shell.cpp:177-218 | Stage i reads its input file only when i is 0, else pipe i-1 when i > 0, else inherited stdin. It writes pipe i when it is not the last stage. The last stage writes its output file if given, else inherited stdout. It exits with 2 exactly when a file it opens or its exec fails. Only the last stage creates or truncates a file. It does so exactly when its output file is given and both of its opens succeed, even if the exec then fails. |
| `Pipeline.StageExecReadsCommandArgs` | shell.cpp:214-215 | The argv stage i execs is exactly what `execvp` reads back from the array `vec_to_char(commands[i]->args)` builds. |
| `Pipeline.PipeTopology` | shell.cpp:179-211 | Pipe k is written only by stage k, and only when k < n-1. It is read only by stage k+1. |
| `Pipeline.InteriorIgnoresRedirection` | shell.cpp:179-211 | An interior stage reads pipe i-1 and writes pipe i, and opens no file, whatever redirections it carries. |
| `Pipeline.OneStageIsSingle` | shell.cpp:177-218 | A one-stage pipeline child behaves exactly like a single-command child. |
| `Pipeline.LastStageRedirectionWins` | shell.cpp:196-206 | In `a \| b > out`, the last stage writes `out`, not a pipe. |
| `PipeParent.SpawnStage` | shell.cpp:161-230 | One loop iteration succeeds exactly when its pipe (if any) and its fork succeed. After it, the shell holds only the read end of the pipe just made. |
| `PipeParent.PipeAndFork` | shell.cpp:161-175 | For every stage but the last, a pipe is created before the fork. Either call failing stops the shell. At the fork of stage i the shell holds exactly the read end of pipe i-1 and both ends of pipe i. |
| `PipeParent.CloseAfterFork` | shell.cpp:219-230 | Right after forking stage i, the shell closes the read end of pipe i-1 and the write end of pipe i. It keeps only the read end of pipe i, or nothing after the last stage. |
| `PipeParent.SpawnAll` | shell.cpp:159-231 | The forking loop gets through all n stages exactly when every pipe and fork call succeeds. Then `pids[k]` is what fork returned for stage k, the trace holds no wait, pipes 0..n-2 were made once each, stages were forked in order, and the shell ends holding no endpoint. |
| `PipeParent.FirstStagesSucceedIff` | shell.cpp:159-174 | The loop gets past the first k stages exactly when each of those stages' pipe (if any) and fork succeed. |
| `PipeParent.FailedStageStops` | shell.cpp:163-174 | One failed pipe or fork call at stage i means no later stage count can be reached: the shell exits at stage i. |
| `PipeParent.ForkSnapshotsAt` | shell.cpp:170-230 | For every fork of stage i in the trace, the endpoints held just after it are exactly the read end of pipe i-1 and both ends of pipe i. |
| `PipeParent.WaitsChangeNothing` | shell.cpp:237-240 | Waiting for children creates no pipe, closes no endpoint and forks nothing. |
| `PipeParent.WaitAll` | shell.cpp:237-240 | After spawning, the shell waits once for each pid, in fork order. Nothing else changes. |
| `PipeParent.Run` | shell.cpp:152-240 | The run completes exactly when every pipe and fork succeeds, and otherwise stops with 2 without waiting. On completion it made pipes 0..n-2 once each, forked stages 0..n-1 in order, and ended holding no endpoint with none closed twice. At each fork of stage i it held exactly the read end of pipe i-1 and both ends of pipe i. All n waits come after all forks. |
| `PipeParent.ForkedChildInheritsItsEnds` | shell.cpp:160-230 | When stage i is forked the shell holds exactly the pipe ends stage i's wiring names, plus the read end of pipe i for all but the last stage. That end is kept for stage i+1, and the child closes its copy. So every end the child uses is inherited. |
| `Dispatch.Classify` | shell.cpp:278-310 | Only the exact line "exit" exits. Empty lines and tokenizer errors skip. `cd` is taken only for a single command whose args[0] is "cd". One command runs alone, and every other count goes to the pipeline runner. Background comes from the last command's flag. |
| `Dispatch.Perform` | shell.cpp:293-326 | `cd` moves to the directory state that handle_cd computes and leaves the job list alone. No other action changes the directory state. A background command or pipeline adds exactly the one forked pid. Foreground work adds none. The shell stops exactly on one of these: exit (status 0); a failed fork of its own (status 2); a failed pipe or fork in a foreground pipeline (status 2); a foreground single command whose status is above 1 (that status). |
| `Dispatch.TokensIgnoredForExitAndEmpty` | shell.cpp:278-291 | For "exit" and the empty line, the tokenizer's result does not matter. |
| `Dispatch.OnlyLastFlagCounts` | shell.cpp:301-305 | Background flags on commands before the last have no effect on dispatch. |
| `Dispatch.Iterate` | shell.cpp:247-326 | Reaping comes before the line is read. "exit" stops with 0. A skipped line keeps only the reaper's effect. Any other line stops the shell exactly when its action does (a failed fork of the shell's own, a failed pipe or fork in a foreground pipeline, or a foreground status above 1), with that action's status. Otherwise the job list is the reaper's survivors, plus the forked pid exactly when the line is a background launch. The directory state changes only through `cd`, to the state handle_cd computes. |
| `Dispatch.BackgroundPipelineAddsOnePid` | shell.cpp:311-322 | A background pipeline of any length adds exactly the wrapper's pid to `bg_pids`. |
| `Dispatch.BackgroundLaunchesAgree` | shell.cpp:138-140 | A background single command and a background pipeline change the shell alike. A failed fork stops it with 2. Otherwise the one forked pid is appended (shell.cpp:311-321 for the pipeline's wrapper). |
| `Dispatch.ForegroundPipelineKeepsState` | shell.cpp:323-325 | A foreground pipeline whose pipes and forks succeed leaves the shell state unchanged. The stage statuses are discarded. |

## Left out

- Tokenizing (`Tokenizer.h` is not part of this model): its command list and error flag are inputs.
- Prompt rendering (time, user name, colours, current directory display) and reading the line: pure I/O.
- The real semantics of `fork`, `execvp`, `pipe`, `dup2`, `open`, `waitpid`, `chdir`, `getcwd` and `getenv`. Each is replaced by an oracle input. `chdir(p)` succeeding makes `p` itself the working directory, so relative paths are not resolved.
- The raw wait-status encoding: a status is an opaque integer. So is the value passed to `exit`, whose truncation to 8 bits is not modelled.
- Descriptor copies around a pipeline and at the top of the loop. The pipeline runner duplicates standard output (shell.cpp:157) and afterwards puts that copy onto standard input (shell.cpp:234-235). Only the loop's `dup2(original_stdin, STDIN_FILENO)` (shell.cpp:250) puts the real standard input back. None of this changes the modelled state.
- Argv.VecToChar: an argument or path holding a NUL character reaches the system through `c_str()` and is cut at that NUL. The model passes it whole, to `execvp`, `open`, `chdir` and the file-system oracle alike.
- Strings are sequences of Unicode characters, while the program's strings and paths are bytes. A path that is not valid UTF-8 cannot be represented, and paths are taken to be UTF-8 when the 1024-byte `getcwd` limit is measured.
- SingleCommand.Child: a command with no arguments makes `vec_to_char` build just a null, so `execvp` is called with a null program name. That is undefined behaviour; with glibc the child is killed by a signal. The model treats it as a failed exec (exit status 2).
- Pipeline.Child: the same holds for a pipeline stage with no arguments. It is treated as a failed exec with status 2, after any output file has been truncated.
- The child-side closing of inherited pipe ends, and the child's file descriptors in general. Only the parent's pipe endpoints are tracked.
- Leaking of the array built by `vec_to_char`: memory is not modelled.
- Timing and concurrency of children: which child finishes when is expressed only through the oracle answers.
- The internals of the wrapper process of a background pipeline: only its pid reaches the shell's state.
- Error messages written to standard error.
