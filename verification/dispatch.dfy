/** One iteration of the shell's read-dispatch loop: reap background jobs, classify the input
    line, and apply the result to the shell state (working directory, `prev_dir`, `bg_pids`).
    Every operating-system answer the iteration depends on is an input. */
module Dispatch {
  import opened Base
  import opened Command
  import Reaper
  import DirChange
  import SingleCommand
  import PipeParent

  /** What the tokenizer produced for a line: its error flag and its command list. */
  datatype Tokens = Tokens(error: bool, commands: seq<Cmd>)

  /** What the loop does with a line. */
  datatype Action =
    | Exit
    | Skip
    | Cd(args: seq<string>)
    | Single(cmd: Cmd, background: bool)
    | Pipeline(cmds: seq<Cmd>, background: bool)

  /** The line is handed on to the tokenizer and, without an error, dispatched. */
  predicate Proceeds(line: string, tok: Tokens)
  {
    line != "exit" && line != "" && !tok.error
  }

  /** The line is a lone `cd` command. */
  predicate IsCd(cmds: seq<Cmd>)
  {
    |cmds| == 1 && |cmds[0].args| > 0 && cmds[0].args[0] == "cd"
  }

  /** The background flag of the last command, the only one consulted. */
  predicate LastIsBackground(cmds: seq<Cmd>)
  {
    |cmds| > 0 && cmds[|cmds| - 1].background
  }

  /** The dispatch part of the loop: exact "exit" stops, an empty line or a tokenizer error
      skips, a lone `cd` goes to the built-in, one command runs alone, and anything else
      (including an empty command list) goes through the pipeline runner. */
  function Classify(line: string, tok: Tokens): (a: Action)
    ensures a == Exit <==> line == "exit"
    ensures a == Skip <==> line != "exit" && (line == "" || tok.error)
    ensures a.Cd? <==> Proceeds(line, tok) && IsCd(tok.commands)
    ensures a.Cd? ==> a.args == tok.commands[0].args && |a.args| >= 1
    ensures a.Single? <==> Proceeds(line, tok) && |tok.commands| == 1 && !IsCd(tok.commands)
    ensures a.Single? ==> a.cmd == tok.commands[0]
    ensures a.Pipeline? <==> Proceeds(line, tok) && |tok.commands| != 1
    ensures a.Pipeline? ==> a.cmds == tok.commands
    ensures (a.Single? || a.Pipeline?) ==> a.background == LastIsBackground(tok.commands)
  {
    if line == "exit" then Exit
    else if line == "" then Skip
    else if tok.error then Skip
    else if IsCd(tok.commands) then Cd(tok.commands[0].args)
    else
      var background := LastIsBackground(tok.commands);
      if |tok.commands| == 1 then Single(tok.commands[0], background)
      else Pipeline(tok.commands, background)
  }

  /** The shell's own state: directory state and the ordered list of background pids. */
  datatype ShellState = ShellState(dir: DirChange.DirState, bgPids: seq<Pid>)

  /** The operating system's answers for one line: the environment `cd` consults, the result
      of the single fork the shell makes itself (a lone command, or the wrapper of a
      background pipeline), the foreground wait status, and the per-stage `pipe`/`fork`
      results of a foreground pipeline. */
  datatype World = World(
    env: DirChange.Env,
    fork: Option<Pid>,
    waitStatus: int,
    pipeOk: nat -> bool,
    stageFork: nat -> Option<Pid>)

  /** The loop either stops the shell with a status or continues with a new state. */
  datatype Outcome = Terminate(status: int) | Continue(state: ShellState)

  /** The shell forks once itself: for a lone command, or for the wrapper of a background
      pipeline. */
  predicate ForksItself(a: Action)
  {
    a.Single? || (a.Pipeline? && a.background)
  }

  /** The shell waits for a foreground single command it forked. */
  predicate WaitsForeground(a: Action, w: World)
  {
    a.Single? && !a.background && w.fork.Some?
  }

  /** A command or pipeline sent to the background. */
  predicate BackgroundLaunch(a: Action)
  {
    (a.Single? || a.Pipeline?) && a.background
  }

  /** Carrying out `a` ends the shell: on `exit`, on a failed fork of the shell's own, on a
      failed `pipe`/`fork` of a foreground pipeline, or on a foreground status above 1. */
  predicate Stops(a: Action, w: World)
  {
    || a.Exit?
    || (ForksItself(a) && w.fork.None?)
    || (a.Pipeline? && !a.background && !PipeParent.Survives(|a.cmds|, w.pipeOk, w.stageFork))
    || (WaitsForeground(a, w) && w.waitStatus > 1)
  }

  /** The status the shell ends with when it stops: 0 on `exit`, the child's status after a
      foreground wait, and 2 otherwise. */
  function StopStatus(a: Action, w: World): int
  {
    if a.Exit? then 0 else if WaitsForeground(a, w) then w.waitStatus else FailStatus
  }

  /** Carry out an action. */
  function Perform(st: ShellState, a: Action, w: World): (o: Outcome)
    requires a.Cd? ==> |a.args| >= 1
    // `cd` moves to the directory state `handle_cd` computes and never touches the job list
    ensures a.Cd? ==> o == Continue(st.(dir := DirChange.HandleCd(st.dir, a.args, w.env).state))
    // only `cd` touches the directory state
    ensures o.Continue? && !a.Cd? ==> o.state.dir == st.dir
    // a background command or pipeline adds exactly one pid: the one the shell forked
    ensures o.Continue? && BackgroundLaunch(a) ==>
      w.fork.Some? && o.state.bgPids == st.bgPids + [w.fork.value]
    // foreground work never adds a job
    ensures o.Continue? && !BackgroundLaunch(a) ==> o.state.bgPids == st.bgPids
    // the shell stops exactly when `Stops` says
    ensures o.Terminate? <==> Stops(a, w)
    // with status 0 on `exit`, the child's status after a foreground wait, and 2 otherwise
    ensures o.Terminate? && a.Exit? ==> o.status == 0
    ensures o.Terminate? && WaitsForeground(a, w) ==> o.status == w.waitStatus
    ensures o.Terminate? && !a.Exit? && !WaitsForeground(a, w) ==> o.status == FailStatus
  {
    match a
    case Exit => Terminate(0)
    case Skip => Continue(st)
    case Cd(args) => Continue(st.(dir := DirChange.HandleCd(st.dir, args, w.env).state))
    case Single(_, background) =>
      (match SingleCommand.Parent(st.bgPids, background, w.fork, w.waitStatus)
       case ShellExits(status, _) => Terminate(status)
       case Resumes(bg, _) => Continue(st.(bgPids := bg)))
    case Pipeline(cmds, background) =>
      if background then
        // the wrapper child runs the whole pipeline and exits 0; the shell tracks it alone
        match w.fork
        case None => Terminate(FailStatus)
        case Some(pid) => Continue(st.(bgPids := st.bgPids + [pid]))
      else if PipeParent.Survives(|cmds|, w.pipeOk, w.stageFork) then Continue(st)
      else Terminate(FailStatus)
  }

  /** One turn of the loop: reap (`reapResults[k]` answers the check of `bgPids[k]`), then
      dispatch the line. */
  function Iterate(st: ShellState, reapResults: seq<int>, line: string, tok: Tokens, w: World): (o: Outcome)
    requires |reapResults| == |st.bgPids|
    // reaping comes first, whatever the line: "exit" stops, a skipped line keeps only the reaping
    ensures line == "exit" ==> o == Terminate(0)
    ensures line != "exit" && (line == "" || tok.error) ==>
      o == Continue(st.(bgPids := Reaper.Survivors(st.bgPids, reapResults)))
    // the shell stops exactly when the classified line's action stops it, with its status
    ensures o.Terminate? <==> Stops(Classify(line, tok), w)
    ensures o.Terminate? ==> o.status == StopStatus(Classify(line, tok), w)
    // the job list is what the reaper kept, plus the forked pid exactly on a background launch
    ensures o.Continue? && BackgroundLaunch(Classify(line, tok)) ==> w.fork.Some?
    ensures o.Continue? ==>
      o.state.bgPids == Reaper.Survivors(st.bgPids, reapResults) +
        (if BackgroundLaunch(Classify(line, tok)) && w.fork.Some? then [w.fork.value] else [])
    // the directory state changes only through `cd`, to the state `handle_cd` computes
    ensures o.Continue? && !Classify(line, tok).Cd? ==> o.state.dir == st.dir
    ensures Classify(line, tok).Cd? ==>
      o.Continue? && o.state.dir == DirChange.HandleCd(st.dir, Classify(line, tok).args, w.env).state
  {
    var reaped := st.(bgPids := Reaper.Survivors(st.bgPids, reapResults));
    Perform(reaped, Classify(line, tok), w)
  }

  /** The tokenizer is not consulted for "exit" or an empty line. */
  lemma TokensIgnoredForExitAndEmpty(line: string, t1: Tokens, t2: Tokens)
    requires line == "exit" || line == ""
    ensures Classify(line, t1) == Classify(line, t2)
  {
  }

  /** Background flags on commands other than the last one have no effect. */
  lemma OnlyLastFlagCounts(line: string, t1: Tokens, t2: Tokens)
    requires t1.error == t2.error && |t1.commands| == |t2.commands|
    requires forall k :: 0 <= k < |t1.commands| ==>
      t1.commands[k].args == t2.commands[k].args &&
      t1.commands[k].inFile == t2.commands[k].inFile &&
      t1.commands[k].outFile == t2.commands[k].outFile
    requires LastIsBackground(t1.commands) == LastIsBackground(t2.commands)
    ensures Classify(line, t1).Pipeline? ==>
      Classify(line, t2).Pipeline? && Classify(line, t2).background == Classify(line, t1).background
    ensures Classify(line, t1).Single? ==>
      Classify(line, t2).Single? && Classify(line, t2).background == Classify(line, t1).background
  {
  }

  /** A background pipeline of any length adds exactly one pid, the wrapper's, to the job
      list, whatever the stages' own fork results. */
  lemma BackgroundPipelineAddsOnePid(st: ShellState, line: string, tok: Tokens, w: World, pid: Pid)
    requires Proceeds(line, tok) && |tok.commands| >= 2 && LastIsBackground(tok.commands)
    requires w.fork == Some(pid)
    ensures Perform(st, Classify(line, tok), w) == Continue(st.(bgPids := st.bgPids + [pid]))
  {
  }

  /** A foreground pipeline whose pipes and forks succeed leaves the state as it was; the
      stages' exit statuses never stop the shell. */
  lemma ForegroundPipelineKeepsState(st: ShellState, line: string, tok: Tokens, w: World)
    requires Proceeds(line, tok) && |tok.commands| != 1 && !LastIsBackground(tok.commands)
    requires PipeParent.Survives(|tok.commands|, w.pipeOk, w.stageFork)
    ensures Perform(st, Classify(line, tok), w) == Continue(st)
  {
  }

  /** Sending a lone command or a whole pipeline to the background affects the shell the same
      way: both stop with 2 when the shell's fork fails, and otherwise track the one pid. */
  lemma BackgroundLaunchesAgree(st: ShellState, cmd: Cmd, cmds: seq<Cmd>, w: World)
    ensures Perform(st, Single(cmd, true), w) == Perform(st, Pipeline(cmds, true), w)
  {
  }
}
