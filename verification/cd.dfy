/** The `cd` built-in: a small state machine over the current directory and the remembered
    previous directory (`prev_dir`, empty when unset). The operating system is replaced by an
    environment giving `HOME`, the directories `getcwd` can report and the directories
    `chdir` can enter. */
module DirChange {
  import opened Base

  /** Size in bytes of the buffer `getcwd` writes into; a path needing more bytes (with its
      terminating NUL) makes `getcwd` fail. */
  const CwdBufSize: int := 1024

  /** Bytes one character takes in UTF-8. */
  function Utf8Width(c: char): nat
  {
    if c as int < 0x80 then 1 else if c as int < 0x800 then 2 else if c as int < 0x1_0000 then 3 else 4
  }

  /** Bytes a path takes in UTF-8, without the terminating NUL. */
  function Utf8Length(s: string): nat
  {
    if s == [] then 0 else Utf8Length(s[..|s| - 1]) + Utf8Width(s[|s| - 1])
  }

  /** The path and its NUL fit the `getcwd` buffer. */
  predicate FitsCwdBuffer(dir: string)
  {
    Utf8Length(dir) + 1 <= CwdBufSize
  }

  /** The directory state: the process's working directory and `prev_dir`. */
  datatype DirState = DirState(cwd: string, prevDir: string)

  /** The environment `cd` consults: the `HOME` variable, the working directories the
      operating system lets `getcwd` resolve (it fails in every other one: a directory that
      was removed, or one on whose path a component cannot be read), and the directories
      `chdir` can enter (it fails on every other path). Entering a path makes it the working
      directory. */
  datatype Env = Env(home: Option<string>, reportable: set<string>, enterable: set<string>)

  /** Why `cd` reported failure, in the order the checks are made. */
  datatype CdError = TooManyArgs | GetcwdFailed | HomeUnset | OldpwdUnset | ChdirFailed

  /** The state after `cd` and the error it reported, if any. */
  datatype CdOutcome = CdOutcome(state: DirState, error: Option<CdError>)

  /** `getcwd` succeeds in the working directory. */
  predicate CwdKnown(st: DirState, env: Env)
  {
    st.cwd in env.reportable && FitsCwdBuffer(st.cwd)
  }

  /** `getcwd(cwd, 1024)`: the working directory, or None when the system cannot resolve
      it or it does not fit the 1024-byte buffer. */
  function GetCwd(st: DirState, env: Env): Option<string>
  {
    if CwdKnown(st, env) then Some(st.cwd) else None
  }

  /** `cd` or `cd ~`: go to `HOME`. */
  predicate HomeForm(args: seq<string>)
    requires |args| >= 1
  {
    |args| == 1 || args[1] == "~"
  }

  /** `cd -`: go back to the previous directory. */
  predicate DashForm(args: seq<string>)
    requires |args| >= 1
  {
    |args| >= 2 && args[1] == "-"
  }

  /** `handle_cd(args)` where `args[0]` is "cd". Checks, in order: argument count, `getcwd`,
      then the argument form; a successful change records the directory it left. */
  function HandleCd(st: DirState, args: seq<string>, env: Env): (r: CdOutcome)
    requires |args| >= 1
    // failure leaves the directory state untouched
    ensures r.error.Some? ==> r.state == st
    // the four reported failures, each exactly when its condition holds
    ensures r.error == Some(TooManyArgs) <==> |args| > 2
    ensures r.error == Some(GetcwdFailed) <==>
      |args| <= 2 && (st.cwd !in env.reportable || !FitsCwdBuffer(st.cwd))
    ensures r.error == Some(HomeUnset) <==>
      |args| <= 2 && CwdKnown(st, env) && HomeForm(args) && env.home.None?
    ensures r.error == Some(OldpwdUnset) <==>
      |args| <= 2 && CwdKnown(st, env) && DashForm(args) && st.prevDir == ""
    // success: the new directory is one chdir could enter, prev_dir is the one left
    ensures r.error.None? ==> r.state.prevDir == st.cwd && r.state.cwd in env.enterable
    ensures r.error.None? && HomeForm(args) ==> env.home == Some(r.state.cwd)
    ensures r.error.None? && DashForm(args) ==> r.state == DirState(st.prevDir, st.cwd)
    ensures r.error.None? && !HomeForm(args) && !DashForm(args) ==> r.state.cwd == args[1]
    // chdir failure: a target was determined but cannot be entered
    ensures r.error == Some(ChdirFailed) ==>
      (HomeForm(args) && env.home.Some? && env.home.value !in env.enterable) ||
      (DashForm(args) && st.prevDir != "" && st.prevDir !in env.enterable) ||
      (!HomeForm(args) && !DashForm(args) && args[1] !in env.enterable)
  {
    if |args| > 2 then CdOutcome(st, Some(TooManyArgs))
    else
      match GetCwd(st, env)
      case None => CdOutcome(st, Some(GetcwdFailed))
      case Some(current) =>
        if HomeForm(args) then
          match env.home
          case None => CdOutcome(st, Some(HomeUnset))
          case Some(home) => Chdir(st, current, home, env)
        else if args[1] == "-" then
          if st.prevDir == "" then CdOutcome(st, Some(OldpwdUnset))
          else Chdir(st, current, st.prevDir, env)
        else Chdir(st, current, args[1], env)
  }

  /** `chdir(target)` followed by `prev_dir = curr_dir` when it succeeds. */
  function Chdir(st: DirState, current: string, target: string, env: Env): CdOutcome
  {
    if target in env.enterable then CdOutcome(DirState(target, current), None)
    else CdOutcome(st, Some(ChdirFailed))
  }

  /** A directory `cd` can come back to with `cd -`: a non-empty path (as every path `getcwd`
      reports is), enterable, and one `getcwd` can report into its buffer. */
  predicate Revisitable(dir: string, env: Env)
  {
    dir != "" && dir in env.enterable && dir in env.reportable && FitsCwdBuffer(dir)
  }

  /** Two successful `cd -` in a row restore the original directory state (ping-pong). */
  lemma CdDashTwice(st: DirState, env: Env)
    requires Revisitable(st.cwd, env) && Revisitable(st.prevDir, env)
    ensures var once := HandleCd(st, ["cd", "-"], env);
      once.error.None? && once.state == DirState(st.prevDir, st.cwd) &&
      HandleCd(once.state, ["cd", "-"], env) == CdOutcome(st, None)
  {
    var dash := ["cd", "-"];
    assert !HomeForm(dash) && DashForm(dash);
    var once := HandleCd(st, dash, env);
    assert once.state == DirState(st.prevDir, st.cwd);
    assert GetCwd(once.state, env) == Some(st.prevDir);
  }

  /** `cd path` then `cd -` returns to where the shell was, and remembers `path` as previous. */
  lemma CdThenBack(st: DirState, path: string, env: Env)
    requires path != "~" && path != "-"
    requires Revisitable(st.cwd, env) && Revisitable(path, env)
    ensures var there := HandleCd(st, ["cd", path], env);
      there.error.None? && there.state == DirState(path, st.cwd) &&
      HandleCd(there.state, ["cd", "-"], env) == CdOutcome(DirState(st.cwd, path), None)
  {
    var go := ["cd", path];
    var dash := ["cd", "-"];
    assert !HomeForm(go) && !DashForm(go);
    assert !HomeForm(dash) && DashForm(dash);
    var there := HandleCd(st, go, env);
    assert there.state == DirState(path, st.cwd);
    assert GetCwd(there.state, env) == Some(path);
  }

  /** Whatever the operating system would answer, a working directory whose UTF-8 path does not fit
      the 1024-byte buffer makes every `cd` with at most one argument fail, unchanged. */
  lemma OverlongCwdFails(st: DirState, args: seq<string>, env: Env)
    requires 1 <= |args| <= 2 && !FitsCwdBuffer(st.cwd)
    ensures HandleCd(st, args, env) == CdOutcome(st, Some(GetcwdFailed))
  {
  }

  /** A run of `k` two-byte characters takes `2 * k` bytes. */
  lemma {:induction false} TwoByteRunLength(k: nat)
    ensures Utf8Length(seq(k, _ => 'é')) == 2 * k
  {
    if k > 0 {
      TwoByteRunLength(k - 1);
      assert seq(k, _ => 'é')[..k - 1] == seq(k - 1, _ => 'é');
    }
  }

  /** 600 characters can be fewer than 1024 yet need 1200 bytes: from such a directory `cd`
      fails at `getcwd`. */
  lemma WideCwdFails(target: string, env: Env)
    ensures HandleCd(DirState(seq(600, _ => 'é'), ""), ["cd", target], env).error == Some(GetcwdFailed)
  {
    TwoByteRunLength(600);
  }
}
