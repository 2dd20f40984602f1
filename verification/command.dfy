/** The command descriptor produced by the tokenizer, and the vocabulary used to describe how
    a child process is wired and how it ends. */
module Command {
  import opened Base

  /** One external program invocation: its argument vector, optional `< in_file`,
      optional `> out_file`, and the trailing `&` flag. */
  datatype Cmd = Cmd(args: seq<string>, inFile: Option<string>, outFile: Option<string>, background: bool)

  /** Where a child's standard input comes from. */
  datatype Source = InheritIn | InFile(path: string) | PipeRead(pipe: nat)

  /** File mode used when an output redirection creates its file. */
  const OutFileMode: int := 0x1A4 // octal 0644

  /** Where a child's standard output goes. `OutFile` is opened write-only, created with
      `mode` if absent, truncated if present. */
  datatype Sink = InheritOut | OutFile(path: string, mode: int) | PipeWrite(pipe: nat)

  /** The file-system oracle a child consults: which paths `open` succeeds on for reading,
      which for writing (create/truncate), and which program names `execvp` can run. */
  datatype FileSys = FileSys(readable: set<string>, writable: set<string>, executable: set<string>)

  /** How a forked child ends up: it exits with a status before replacing its image (having
      possibly created/truncated an output file first), or it becomes the requested program
      with the given argument vector and standard streams. */
  datatype ChildEnd =
    | Exited(status: int, truncated: Option<string>)
    | Replaced(argv: seq<string>, stdin: Source, stdout: Sink)

  /** `execvp(args[0], args)` succeeds: there is a program name and the oracle can run it. */
  predicate CanExec(args: seq<string>, fs: FileSys)
  {
    |args| > 0 && args[0] in fs.executable
  }

  /** The output file a child created or truncated on its way, if any. */
  function Truncated(e: ChildEnd): Option<string>
  {
    match e
    case Exited(_, t) => t
    case Replaced(_, _, out) => if out.OutFile? then Some(out.path) else None
  }
}
