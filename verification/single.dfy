/** `exec_single_command`: the forked child applies the command's own redirections and
    replaces its image; the shell either records the pid as a background job or waits. */
module SingleCommand {
  import opened Base
  import opened Command
  import Argv

  /** The child's standard input: the input file when one is given, else the shell's. */
  function Stdin(c: Cmd): Source
  {
    if c.inFile.Some? then InFile(c.inFile.value) else InheritIn
  }

  /** The child's standard output: the output file when one is given, else the shell's. */
  function Stdout(c: Cmd): Sink
  {
    if c.outFile.Some? then OutFile(c.outFile.value, OutFileMode) else InheritOut
  }

  /** What the forked child does: open the input file (exit 2 on failure), open the output
      file (exit 2 on failure), then `execvp` (exit 2 on failure). */
  function Child(c: Cmd, fs: FileSys): (r: ChildEnd)
    ensures r.Exited? <==>
      (c.inFile.Some? && c.inFile.value !in fs.readable) ||
      (c.outFile.Some? && c.outFile.value !in fs.writable) ||
      !CanExec(c.args, fs)
    ensures r.Exited? ==> r.status == FailStatus
    ensures r.Replaced? ==> r.argv == c.args
    // stdin: the input file if present, else inherited; never a pipe
    ensures r.Replaced? ==> (r.stdin == InheritIn <==> c.inFile.None?)
    ensures r.Replaced? ==> forall p :: r.stdin == InFile(p) <==> c.inFile == Some(p)
    ensures r.Replaced? ==> !r.stdin.PipeRead?
    // stdout: the output file if present, else inherited; never a pipe
    ensures r.Replaced? ==> (r.stdout == InheritOut <==> c.outFile.None?)
    ensures r.Replaced? ==> forall p :: r.stdout == OutFile(p, OutFileMode) <==> c.outFile == Some(p)
    ensures r.Replaced? && r.stdout.OutFile? ==> r.stdout.mode == OutFileMode
    ensures r.Replaced? ==> !r.stdout.PipeWrite?
    // the output file is created/truncated exactly when both opens succeed
    ensures Truncated(r).Some? <==>
      c.outFile.Some? && c.outFile.value in fs.writable &&
      (c.inFile.None? || c.inFile.value in fs.readable)
    ensures Truncated(r).Some? ==> Truncated(r) == c.outFile
  {
    if c.inFile.Some? && c.inFile.value !in fs.readable then Exited(FailStatus, None)
    else if c.outFile.Some? && c.outFile.value !in fs.writable then Exited(FailStatus, None)
    else if !CanExec(c.args, fs) then Exited(FailStatus, c.outFile)
    else Replaced(c.args, Stdin(c), Stdout(c))
  }

  /** The argument vector the child execs is the one `execvp` reads back from the array
      `vec_to_char(cmd->args)` builds. */
  lemma ExecReadsCommandArgs(c: Cmd, fs: FileSys, slots: seq<Argv.Slot>)
    requires Argv.NullTerminated(slots, c.args)
    ensures Child(c, fs).Replaced? ==> Argv.ArgvOf(slots) == Some(Child(c, fs).argv)
  {
    Argv.NullTerminatedRoundTrip(slots, c.args);
  }

  /** What the shell does next: it stops, or carries on with this background-pid list. In
      both cases `waited` is the pid the shell blocked on, if any. */
  datatype ParentEnd =
    | ShellExits(status: int, waited: Option<Pid>)
    | Resumes(bgPids: seq<Pid>, waited: Option<Pid>)

  /** The parent side. `fork` is what fork returned (None on failure), `waitStatus` the status
      `waitpid(pid, &status, 0)` stored for a foreground child (an opaque int). */
  function Parent(bgPids: seq<Pid>, isBackground: bool, fork: Option<Pid>, waitStatus: int): (r: ParentEnd)
    // the shell blocks on the child it forked exactly when that child runs in the foreground
    ensures r.waited == (if fork.Some? && !isBackground then fork else None)
    ensures fork.None? ==> r == ShellExits(FailStatus, None)
    // background: the new pid is appended, nothing is waited for
    ensures fork.Some? && isBackground ==> r == Resumes(bgPids + [fork.value], None)
    // foreground: the job list is untouched; the shell ends only on a status above 1
    ensures fork.Some? && !isBackground ==>
      (r.ShellExits? <==> waitStatus > 1) &&
      (r.ShellExits? ==> r.status == waitStatus) &&
      (r.Resumes? ==> r.bgPids == bgPids)
  {
    match fork
    case None => ShellExits(FailStatus, None)
    case Some(pid) =>
      if isBackground then Resumes(bgPids + [pid], None)
      else if waitStatus > 1 then ShellExits(waitStatus, fork)
      else Resumes(bgPids, fork)
  }
}
