/** The child side of `exec_piped_commands`: how stage `i` of an `n`-stage pipeline wires its
    standard streams. Pipe `k` connects stage `k` to stage `k + 1`. An input file is honoured
    only at stage 0 and an output file only at the last stage; interior redirections are
    ignored, and at the end stages a redirection takes the place of the inherited stream. */
module Pipeline {
  import opened Base
  import opened Command
  import SingleCommand
  import Argv

  /** Standard input of stage `i`. */
  function StageStdin(n: nat, i: nat, c: Cmd): Source
    requires i < n
  {
    if i == 0 && c.inFile.Some? then InFile(c.inFile.value)
    else if i > 0 then PipeRead(i - 1)
    else InheritIn
  }

  /** Standard output of stage `i`. */
  function StageStdout(n: nat, i: nat, c: Cmd): Sink
    requires i < n
  {
    if i == n - 1 then (if c.outFile.Some? then OutFile(c.outFile.value, OutFileMode) else InheritOut)
    else PipeWrite(i)
  }

  /** The input file stage `i` opens, if any. */
  function OpensIn(n: nat, i: nat, c: Cmd): Option<string>
  {
    if i == 0 then c.inFile else None
  }

  /** The output file stage `i` opens, if any. */
  function OpensOut(n: nat, i: nat, c: Cmd): Option<string>
  {
    if i + 1 == n then c.outFile else None
  }

  /** What the child forked for stage `i` does: open stage 0's input file, open the last
      stage's output file (each: exit 2 on failure), then `execvp` (exit 2 on failure). */
  function Child(cmds: seq<Cmd>, i: nat, fs: FileSys): (r: ChildEnd)
    requires i < |cmds|
    ensures r.Exited? <==>
      (i == 0 && cmds[i].inFile.Some? && cmds[i].inFile.value !in fs.readable) ||
      (i == |cmds| - 1 && cmds[i].outFile.Some? && cmds[i].outFile.value !in fs.writable) ||
      !CanExec(cmds[i].args, fs)
    ensures r.Exited? ==> r.status == FailStatus
    ensures r.Replaced? ==> r.argv == cmds[i].args
    // stdin: stage 0 reads its input file if it has one, later stages read pipe i-1
    ensures r.Replaced? ==> forall p :: r.stdin == InFile(p) <==> i == 0 && cmds[i].inFile == Some(p)
    ensures r.Replaced? ==> forall k :: r.stdin == PipeRead(k) <==> i > 0 && k == i - 1
    ensures r.Replaced? ==> (r.stdin == InheritIn <==> i == 0 && cmds[i].inFile.None?)
    // stdout: every stage but the last writes pipe i; the last writes its output file if any
    ensures r.Replaced? ==> forall k :: r.stdout == PipeWrite(k) <==> i < |cmds| - 1 && k == i
    ensures r.Replaced? ==> forall p :: r.stdout == OutFile(p, OutFileMode) <==> i == |cmds| - 1 && cmds[i].outFile == Some(p)
    ensures r.Replaced? && r.stdout.OutFile? ==> r.stdout.mode == OutFileMode
    ensures r.Replaced? ==> (r.stdout == InheritOut <==> i == |cmds| - 1 && cmds[i].outFile.None?)
    // only the last stage creates or truncates a file, and it does so exactly when its
    // opens succeed, whether or not the exec then fails
    ensures Truncated(r).Some? ==> i == |cmds| - 1 && Truncated(r) == cmds[i].outFile
    ensures Truncated(r).Some? <==>
      i == |cmds| - 1 && cmds[i].outFile.Some? && cmds[i].outFile.value in fs.writable &&
      (i != 0 || cmds[i].inFile.None? || cmds[i].inFile.value in fs.readable)
  {
    var n := |cmds|;
    var c := cmds[i];
    var inFile := OpensIn(n, i, c);
    var outFile := OpensOut(n, i, c);
    if inFile.Some? && inFile.value !in fs.readable then Exited(FailStatus, None)
    else if outFile.Some? && outFile.value !in fs.writable then Exited(FailStatus, None)
    else if !CanExec(c.args, fs) then Exited(FailStatus, outFile)
    else Replaced(c.args, StageStdin(n, i, c), StageStdout(n, i, c))
  }

  /** Pipe `k` is written by stage `k` alone and read by stage `k + 1` alone, whatever
      redirections the stages carry. */
  lemma PipeTopology(cmds: seq<Cmd>, i: nat, k: nat)
    requires i < |cmds|
    ensures StageStdout(|cmds|, i, cmds[i]) == PipeWrite(k) <==> i == k && k + 1 < |cmds|
    ensures StageStdin(|cmds|, i, cmds[i]) == PipeRead(k) <==> i == k + 1
  {
  }

  /** An interior stage ignores both of its redirections. */
  lemma InteriorIgnoresRedirection(n: nat, i: nat, c: Cmd, fs: FileSys)
    requires 0 < i < n - 1
    ensures StageStdin(n, i, c) == PipeRead(i - 1)
    ensures StageStdout(n, i, c) == PipeWrite(i)
    ensures OpensIn(n, i, c).None? && OpensOut(n, i, c).None?
  {
  }

  /** A one-stage pipeline behaves exactly like a single command. */
  lemma OneStageIsSingle(c: Cmd, fs: FileSys)
    ensures Child([c], 0, fs) == SingleCommand.Child(c, fs)
  {
  }

  /** In `a | b > out` the last stage writes the file, not a pipe. */
  lemma LastStageRedirectionWins(cmds: seq<Cmd>, path: string, fs: FileSys)
    requires |cmds| >= 2
    requires cmds[|cmds| - 1].outFile == Some(path)
    ensures var r := Child(cmds, |cmds| - 1, fs);
      r.Replaced? ==> r.stdout == OutFile(path, OutFileMode)
  {
  }

  /** The argument vector stage `i` execs is the one `execvp` reads back from the array
      `vec_to_char(commands[i]->args)` builds. */
  lemma StageExecReadsCommandArgs(cmds: seq<Cmd>, i: nat, fs: FileSys, slots: seq<Argv.Slot>)
    requires i < |cmds| && Argv.NullTerminated(slots, cmds[i].args)
    ensures Child(cmds, i, fs).Replaced? ==> Argv.ArgvOf(slots) == Some(Child(cmds, i, fs).argv)
  {
    Argv.NullTerminatedRoundTrip(slots, cmds[i].args);
  }
}
