/** The parent side of `exec_piped_commands`: for each stage, create the stage's outgoing pipe
    (all but the last), fork, then close the previous pipe's read end and this pipe's write
    end; after every stage is forked, wait for each pid in order. The run is recorded as a
    trace of events, and the pipe endpoints the shell holds are tracked as a set. */
module PipeParent {
  import opened Base
  import opened Command
  import Pipeline

  /** One end of pipe `k`. */
  datatype End = ReadEnd(pipe: nat) | WriteEnd(pipe: nat)

  /** What the shell does, in order. */
  datatype Event = MakePipe(pipe: nat) | Fork(stage: nat, pid: Pid) | Close(end: End) | Wait(pid: Pid)

  /** The shell either forks every stage and waits for all of them, or stops with status 2
      when a `pipe` or `fork` call fails. */
  datatype Outcome = Completed(pids: seq<Pid>) | ShellExit(status: int)

  /** The effect of one event on the endpoints the shell holds; None for closing an endpoint
      it does not hold, or for creating a pipe one of whose ends it still holds. */
  function Apply(held: set<End>, e: Event): Option<set<End>>
  {
    match e
    case MakePipe(k) =>
      if ReadEnd(k) in held || WriteEnd(k) in held then None
      else Some(held + {ReadEnd(k), WriteEnd(k)})
    case Close(x) => if x in held then Some(held - {x}) else None
    case _ => Some(held)
  }

  /** The endpoints held after a trace, starting from none; None if some close was not
      matched by an open endpoint (a double close). */
  function Held(t: seq<Event>): Option<set<End>>
  {
    if t == [] then Some({})
    else
      match Held(t[..|t| - 1])
      case None => None
      case Some(h) => Apply(h, t[|t| - 1])
  }

  /** The pipes a trace creates, in creation order. */
  function PipesMade(t: seq<Event>): seq<nat>
  {
    if t == [] then []
    else PipesMade(t[..|t| - 1]) + (if t[|t| - 1].MakePipe? then [t[|t| - 1].pipe] else [])
  }

  /** The fork events of a trace, in order. */
  function Forks(t: seq<Event>): seq<Event>
  {
    if t == [] then []
    else Forks(t[..|t| - 1]) + (if t[|t| - 1].Fork? then [t[|t| - 1]] else [])
  }

  /** 0, 1, ..., n - 1. */
  function Range(n: int): seq<nat>
  {
    if n <= 0 then [] else Range(n - 1) + [n - 1]
  }

  /** Every `pipe` and `fork` call the loop makes succeeds. */
  predicate Survives(n: nat, pipeOk: nat -> bool, fork: nat -> Option<Pid>)
  {
    FirstStagesSucceed(n, n, pipeOk, fork)
  }

  /** One failed stage means the pipeline does not get past it. */
  lemma {:induction false} FailedStageStops(n: nat, i: nat, k: nat, pipeOk: nat -> bool, fork: nat -> Option<Pid>)
    requires i < k && !StageSucceeds(n, i, pipeOk, fork)
    ensures !FirstStagesSucceed(n, k, pipeOk, fork)
  {
    if i < k - 1 {
      FailedStageStops(n, i, k - 1, pipeOk, fork);
    }
  }

  /** The `pipe` call (all but the last stage) and the `fork` call of stage `i` succeed. */
  predicate StageSucceeds(n: nat, i: nat, pipeOk: nat -> bool, fork: nat -> Option<Pid>)
  {
    (i + 1 < n ==> pipeOk(i)) && fork(i).Some?
  }

  /** Stages `0 .. k - 1` of an `n`-stage pipeline all succeed. */
  predicate FirstStagesSucceed(n: nat, k: nat, pipeOk: nat -> bool, fork: nat -> Option<Pid>)
  {
    k == 0 || (FirstStagesSucceed(n, k - 1, pipeOk, fork) && StageSucceeds(n, k - 1, pipeOk, fork))
  }

  /** The first `k` stages succeed exactly when each of them does. */
  lemma {:induction false} FirstStagesSucceedIff(n: nat, k: nat, pipeOk: nat -> bool, fork: nat -> Option<Pid>)
    ensures FirstStagesSucceed(n, k, pipeOk, fork) <==>
      forall i: nat :: i < k ==> StageSucceeds(n, i, pipeOk, fork)
  {
    if k > 0 {
      FirstStagesSucceedIff(n, k - 1, pipeOk, fork);
    }
  }

  /** The endpoints the shell holds when it forks stage `i`: the read end of pipe `i - 1`
      (stage `i`'s input) and both ends of pipe `i` (its write end is stage `i`'s output; its
      read end is kept for stage `i + 1`, and the child closes its own copy). */
  function HeldAtFork(n: nat, i: nat): set<End>
  {
    (if i > 0 then {ReadEnd(i - 1)} else {}) + (if i + 1 < n then {ReadEnd(i), WriteEnd(i)} else {})
  }

  /** The endpoints held at the top of the loop before stage `i`. */
  function HeldBetween(n: nat, i: nat): set<End>
  {
    if 0 < i < n then {ReadEnd(i - 1)} else {}
  }

  /** Each time the trace forks stage `i`, the shell holds exactly `HeldAtFork(n, i)`: the
      read end of pipe `i - 1` and both ends of pipe `i` (checked on every prefix that ends
      in a fork). */
  predicate ForkSnapshots(n: nat, t: seq<Event>)
  {
    t == [] ||
    (ForkSnapshots(n, t[..|t| - 1]) &&
     (t[|t| - 1].Fork? ==> Held(t) == Some(HeldAtFork(n, t[|t| - 1].stage))))
  }

  /** The same, stated position by position. */
  lemma {:induction false} ForkSnapshotsAt(n: nat, t: seq<Event>, j: nat)
    requires ForkSnapshots(n, t)
    requires j < |t| && t[j].Fork?
    ensures Held(t[..j + 1]) == Some(HeldAtFork(n, t[j].stage))
    decreases |t|
  {
    if j + 1 < |t| {
      var t' := t[..|t| - 1];
      assert t'[..j + 1] == t[..j + 1] && t'[j] == t[j];
      ForkSnapshotsAt(n, t', j);
    } else {
      assert t[..j + 1] == t;
    }
  }

  /** Facts about extending a trace by one event. */
  lemma Extend(n: nat, t: seq<Event>, e: Event)
    ensures Held(t + [e]) == (match Held(t) case None => None case Some(h) => Apply(h, e))
    ensures PipesMade(t + [e]) == PipesMade(t) + (if e.MakePipe? then [e.pipe] else [])
    ensures Forks(t + [e]) == Forks(t) + (if e.Fork? then [e] else [])
    ensures NoWaits(t + [e]) <==> NoWaits(t) && !e.Wait?
    ensures ForkSnapshots(n, t) && (e.Fork? ==> Held(t + [e]) == Some(HeldAtFork(n, e.stage))) ==>
      ForkSnapshots(n, t + [e])
  {
    assert (t + [e])[..|t|] == t;
  }

  /** The trace contains no wait. */
  predicate NoWaits(t: seq<Event>)
  {
    t == [] || (NoWaits(t[..|t| - 1]) && !t[|t| - 1].Wait?)
  }

  /** The same, stated position by position. */
  lemma {:induction false} NoWaitsIff(t: seq<Event>)
    ensures NoWaits(t) <==> forall j :: 0 <= j < |t| ==> !t[j].Wait?
    decreases |t|
  {
    if t != [] {
      var front := t[..|t| - 1];
      NoWaitsIff(front);
      assert forall j :: 0 <= j < |front| ==> front[j] == t[j];
    }
  }

  /** The fork events of stages `0 .. |pids| - 1`, in stage order, with these pids. */
  function ForksOf(pids: seq<Pid>): (f: seq<Event>)
    ensures |f| == |pids|
  {
    if pids == [] then [] else ForksOf(pids[..|pids| - 1]) + [Fork(|pids| - 1, pids[|pids| - 1])]
  }

  /** Position `k` of `ForksOf(pids)` forks stage `k` with pid `pids[k]`. */
  lemma {:induction false} ForksOfAt(pids: seq<Pid>, k: nat)
    requires k < |pids|
    ensures ForksOf(pids)[k] == Fork(k, pids[k])
    decreases |pids|
  {
    if k + 1 < |pids| {
      var front := pids[..|pids| - 1];
      ForksOfAt(front, k);
    }
  }

  /** A spawning-phase trace that holds `held`, has made pipes `0 .. pipes - 1` and forked
      stages `0 .. |pids| - 1` with these pids. */
  predicate Shape(n: nat, t: seq<Event>, held: set<End>, pipes: int, pids: seq<Pid>)
  {
    && Held(t) == Some(held)
    && PipesMade(t) == Range(pipes)
    && Forks(t) == ForksOf(pids)
    && NoWaits(t)
    && ForkSnapshots(n, t)
  }

  /** Appending one legal spawning-phase event keeps the trace in shape. */
  lemma AppendEvent(n: nat, t: seq<Event>, held: set<End>, pipes: nat, pids: seq<Pid>, e: Event)
    requires Shape(n, t, held, pipes, pids)
    requires Apply(held, e).Some? && !e.Wait?
    requires e.MakePipe? ==> e.pipe == pipes
    requires e.Fork? ==> e.stage == |pids| && Apply(held, e) == Some(HeldAtFork(n, e.stage))
    ensures Shape(n, t + [e], Apply(held, e).value,
                  if e.MakePipe? then pipes + 1 else pipes,
                  if e.Fork? then pids + [e.pid] else pids)
  {
    Extend(n, t, e);
    if e.Fork? {
      assert (pids + [e.pid])[..|pids|] == pids;
    }
  }

  /** Creating the next pipe adds both of its ends. */
  lemma AppendPipe(n: nat, t: seq<Event>, held: set<End>, pipes: nat, pids: seq<Pid>)
    requires Shape(n, t, held, pipes, pids)
    requires ReadEnd(pipes) !in held && WriteEnd(pipes) !in held
    ensures Shape(n, t + [MakePipe(pipes)], held + {ReadEnd(pipes), WriteEnd(pipes)}, pipes + 1, pids)
  {
    AppendEvent(n, t, held, pipes, pids, MakePipe(pipes));
  }

  /** Forking the next stage while holding exactly that stage's ends. */
  lemma AppendFork(n: nat, t: seq<Event>, held: set<End>, pipes: nat, pids: seq<Pid>, pid: Pid)
    requires Shape(n, t, held, pipes, pids)
    requires held == HeldAtFork(n, |pids|)
    ensures Shape(n, t + [Fork(|pids|, pid)], held, pipes, pids + [pid])
  {
    AppendEvent(n, t, held, pipes, pids, Fork(|pids|, pid));
  }

  /** Closing a held end removes it. */
  lemma AppendClose(n: nat, t: seq<Event>, held: set<End>, pipes: nat, pids: seq<Pid>, x: End)
    requires Shape(n, t, held, pipes, pids)
    requires x in held
    ensures Shape(n, t + [Close(x)], held - {x}, pipes, pids)
  {
    AppendEvent(n, t, held, pipes, pids, Close(x));
  }

  /** What holds after the first `i` stages have been forked. */
  predicate Spawned(n: nat, i: nat, trace: seq<Event>, pids: seq<Pid>)
  {
    && i <= n
    && |pids| == i
    && Shape(n, trace, HeldBetween(n, i), if i < n then i else n - 1, pids)
  }

  /** One iteration of the spawning loop: `pipe` (all but the last stage), `fork`, then close
      the previous read end and this pipe's write end. `pipeOk` and `child` are the results
      of the `pipe` and `fork` calls; either failing stops the shell. */
  method SpawnStage(n: nat, i: nat, trace: seq<Event>, pids: seq<Pid>, pipeOk: bool, child: Option<Pid>)
    returns (trace': seq<Event>, pids': seq<Pid>, ok: bool)
    requires i < n && Spawned(n, i, trace, pids)
    ensures ok <==> (i + 1 < n ==> pipeOk) && child.Some?
    ensures ok ==> Spawned(n, i + 1, trace', pids') && pids' == pids + [child.value]
    ensures NoWaits(trace') && ForkSnapshots(n, trace')
  {
    ghost var pipes := if i + 1 < n then i + 1 else i;
    trace', pids', ok := PipeAndFork(n, i, trace, pids, pipeOk, child);
    if ok {
      trace' := CloseAfterFork(n, i, trace', pids', pipes);
    }
  }

  /** The first half of an iteration: `pipe` for all but the last stage, then `fork`. */
  method PipeAndFork(n: nat, i: nat, trace: seq<Event>, pids: seq<Pid>, pipeOk: bool, child: Option<Pid>)
    returns (trace': seq<Event>, pids': seq<Pid>, ok: bool)
    requires i < n && Spawned(n, i, trace, pids)
    ensures ok <==> (i + 1 < n ==> pipeOk) && child.Some?
    ensures ok ==> pids' == pids + [child.value]
    ensures ok ==> Shape(n, trace', HeldAtFork(n, i), if i + 1 < n then i + 1 else i, pids')
    ensures NoWaits(trace') && ForkSnapshots(n, trace')
  {
    trace' := trace;
    pids' := pids;
    var held := HeldBetween(n, i);
    ghost var pipes := i;
    if i + 1 < n {
      if !pipeOk {
        return trace', pids', false;
      }
      AppendPipe(n, trace', held, i, pids');
      trace' := trace' + [MakePipe(i)];
      held := held + {ReadEnd(i), WriteEnd(i)};
      pipes := i + 1;
    }
    assert held == HeldAtFork(n, i);
    if child.None? {
      return trace', pids', false;
    }
    AppendFork(n, trace', held, pipes, pids', child.value);
    trace' := trace' + [Fork(i, child.value)];
    pids' := pids' + [child.value];
    ok := true;
  }

  /** The second half of an iteration: the shell closes the previous pipe's read end (now
      owned by stage `i`) and this pipe's write end (owned by stage `i`), keeping only this
      pipe's read end for stage `i + 1`. */
  method CloseAfterFork(n: nat, i: nat, trace: seq<Event>, pids: seq<Pid>, ghost pipes: int)
    returns (trace': seq<Event>)
    requires i < n && |pids| == i + 1 && pipes == (if i + 1 < n then i + 1 else i)
    requires Shape(n, trace, HeldAtFork(n, i), pipes, pids)
    ensures Spawned(n, i + 1, trace', pids)
  {
    trace' := trace;
    var held := HeldAtFork(n, i);
    if i > 0 {
      AppendClose(n, trace', held, pipes, pids, ReadEnd(i - 1));
      trace' := trace' + [Close(ReadEnd(i - 1))];
      held := held - {ReadEnd(i - 1)};
    }
    if i + 1 < n {
      AppendClose(n, trace', held, pipes, pids, WriteEnd(i));
      trace' := trace' + [Close(WriteEnd(i))];
      held := held - {WriteEnd(i)};
    }
    assert held == HeldBetween(n, i + 1);
  }

  /** One blocking wait per pid, in order. */
  function WaitsFor(pids: seq<Pid>): (w: seq<Event>)
    ensures |w| == |pids|
  {
    if pids == [] then [] else WaitsFor(pids[..|pids| - 1]) + [Wait(pids[|pids| - 1])]
  }

  /** Position `k` of `WaitsFor(pids)` waits for `pids[k]`. */
  lemma {:induction false} WaitsForAt(pids: seq<Pid>, k: nat)
    requires k < |pids|
    ensures WaitsFor(pids)[k] == Wait(pids[k])
    decreases |pids|
  {
    if k + 1 < |pids| {
      WaitsForAt(pids[..|pids| - 1], k);
    }
  }

  /** Waiting changes neither the endpoints held, nor the pipes made, nor the forks. */
  lemma {:induction false} WaitsChangeNothing(n: nat, t: seq<Event>, pids: seq<Pid>)
    ensures Held(t + WaitsFor(pids)) == Held(t)
    ensures PipesMade(t + WaitsFor(pids)) == PipesMade(t)
    ensures Forks(t + WaitsFor(pids)) == Forks(t)
    ensures ForkSnapshots(n, t) ==> ForkSnapshots(n, t + WaitsFor(pids))
    decreases |pids|
  {
    if pids == [] {
      assert t + WaitsFor(pids) == t;
    } else {
      var front := pids[..|pids| - 1];
      var last := Wait(pids[|pids| - 1]);
      WaitsChangeNothing(n, t, front);
      Extend(n, t + WaitsFor(front), last);
      assert t + WaitsFor(pids) == (t + WaitsFor(front)) + [last];
    }
  }

  /** The waiting loop after every stage is forked: one blocking `waitpid` per pid, in fork
      order. The exit statuses are discarded. */
  method WaitAll(n: nat, spawnTrace: seq<Event>, pids: seq<Pid>) returns (trace: seq<Event>)
    ensures trace == spawnTrace + WaitsFor(pids)
    ensures Held(trace) == Held(spawnTrace)
    ensures PipesMade(trace) == PipesMade(spawnTrace) && Forks(trace) == Forks(spawnTrace)
    ensures ForkSnapshots(n, spawnTrace) ==> ForkSnapshots(n, trace)
  {
    trace := spawnTrace;
    var w := 0;
    while w < |pids|
      invariant 0 <= w <= |pids|
      invariant trace == spawnTrace + WaitsFor(pids[..w])
    {
      assert pids[..w + 1][..w] == pids[..w];
      trace := trace + [Wait(pids[w])];
      w := w + 1;
    }
    assert pids[..w] == pids;
    WaitsChangeNothing(n, spawnTrace, pids);
  }

  /** The shell's side of running an `n`-stage pipeline. `pipeOk(i)` says whether the `pipe`
      call of stage `i` succeeds; `fork(i)` is what fork returns for stage `i`. */
  method Run(n: nat, pipeOk: nat -> bool, fork: nat -> Option<Pid>) returns (trace: seq<Event>, r: Outcome)
    ensures r.Completed? <==> Survives(n, pipeOk, fork)
    ensures r.ShellExit? ==> r.status == FailStatus && NoWaits(trace)
    // exactly n - 1 pipes, each created once, and n forks, in stage order
    ensures r.Completed? ==> |r.pids| == n && forall i :: 0 <= i < n ==> fork(i) == Some(r.pids[i])
    ensures r.Completed? ==> PipesMade(trace) == Range(n - 1)
    ensures r.Completed? ==> Forks(trace) == ForksOf(r.pids)
    // every endpoint opened is closed exactly once: none is left held, none closed twice
    ensures r.Completed? ==> Held(trace) == Some({})
    // when stage i is forked the shell holds exactly the read end of pipe i - 1 and both ends
    // of pipe i
    ensures ForkSnapshots(n, trace)
    // the waits come last, one per pid in fork order, after all stages are forked
    ensures r.Completed? ==> |trace| >= n && NoWaits(trace[..|trace| - n])
    ensures r.Completed? ==> trace[|trace| - n..] == WaitsFor(r.pids)
  {
    var pids, ok;
    trace, pids, ok := SpawnAll(n, pipeOk, fork);
    if !ok {
      r := ShellExit(FailStatus);
      return;
    }
    PidsFromIff(fork, pids);
    var spawnTrace := trace;
    trace := WaitAll(n, spawnTrace, pids);
    assert trace[..|spawnTrace|] == spawnTrace && trace[|spawnTrace|..] == WaitsFor(pids);
    r := Completed(pids);
  }

  /** `pids[k]` is what `fork` returned for stage `k`, for every stage forked so far. */
  predicate PidsFrom(fork: nat -> Option<Pid>, pids: seq<Pid>)
  {
    pids == [] || (PidsFrom(fork, pids[..|pids| - 1]) && fork(|pids| - 1) == Some(pids[|pids| - 1]))
  }

  /** The same, stated stage by stage. */
  lemma {:induction false} PidsFromIff(fork: nat -> Option<Pid>, pids: seq<Pid>)
    ensures PidsFrom(fork, pids) <==> forall k :: 0 <= k < |pids| ==> fork(k) == Some(pids[k])
    decreases |pids|
  {
    if pids != [] {
      var front := pids[..|pids| - 1];
      PidsFromIff(fork, front);
      assert forall k :: 0 <= k < |front| ==> front[k] == pids[k];
    }
  }

  /** The spawning loop: every stage in order, stopping at the first failed `pipe`/`fork`. */
  method SpawnAll(n: nat, pipeOk: nat -> bool, fork: nat -> Option<Pid>)
    returns (trace: seq<Event>, pids: seq<Pid>, ok: bool)
    ensures ok <==> Survives(n, pipeOk, fork)
    ensures ok ==> Spawned(n, n, trace, pids) && PidsFrom(fork, pids)
    ensures NoWaits(trace) && ForkSnapshots(n, trace)
  {
    trace := [];
    pids := [];
    var i := 0;
    while i < n
      invariant Spawned(n, i, trace, pids)
      invariant PidsFrom(fork, pids)
      invariant FirstStagesSucceed(n, i, pipeOk, fork)
    {
      ghost var before := pids;
      trace, pids, ok := SpawnStage(n, i, trace, pids, pipeOk(i), fork(i));
      if !ok {
        FailedStageStops(n, i, n, pipeOk, fork);
        return;
      }
      assert pids[..i] == before;
      i := i + 1;
    }
    ok := true;
  }

  /** The pipe ends stage `i`'s wiring names: the pipe it reads and the pipe it writes. */
  function EndsNamed(n: nat, i: nat, c: Cmd): set<End>
    requires i < n
  {
    (match Pipeline.StageStdin(n, i, c) case PipeRead(k) => {ReadEnd(k)} case _ => {}) +
    (match Pipeline.StageStdout(n, i, c) case PipeWrite(k) => {WriteEnd(k)} case _ => {})
  }

  /** What the shell holds when it forks stage `i` is exactly the ends that stage's wiring
      names, plus, for all but the last stage, the read end of its outgoing pipe, which the
      child closes and the shell keeps for stage `i + 1`. So the child inherits every end it
      uses. */
  lemma ForkedChildInheritsItsEnds(cmds: seq<Cmd>, i: nat)
    requires i < |cmds|
    ensures HeldAtFork(|cmds|, i) ==
      EndsNamed(|cmds|, i, cmds[i]) + (if i + 1 < |cmds| then {ReadEnd(i)} else {})
    ensures EndsNamed(|cmds|, i, cmds[i]) <= HeldAtFork(|cmds|, i)
  {
  }
}
