/**
 Child processes under the controller thread, a termination thread per process and the reaper.

 A step is what happens between two points where another thread can get in.  spawn holds the
 process's state mutex from its first check to its end, and the reaper holds the process-table
 mutex while it marks a process terminated, so both show up in what the other threads must wait
 for.  Processes are numbered; pids are never used twice.
 */
module Processes {
  import opened Bytes
  import opened MemoryTracking

  datatype Phase = NotSpawned | Spawned | Terminating | Terminated

  datatype ExitStatus = NoExit | ForkFailed | NeverSpawned | Uninterruptable | FromOs(raw: int)

  datatype Stage = AwaitStop | AwaitTerm | AwaitKill

  /** The termination thread; Finished means it returned and has not been joined. */
  datatype Thread = NoThread | Started(fast: bool) | Waiting(stage: Stage) | Finished

  datatype Proc = Proc(phase: Phase, pid: nat, status: ExitStatus, reserved: u32, thread: Thread)

  /** Where the exit of a child stands. */
  datatype Life = Running | Zombie(exit: int) | Collected(exit: int) | Marking(exit: int) | Handled(exit: int)

  datatype Child = Child(owner: nat, life: Life)

  datatype Controller =
    | Idle
    | Forking(p: nat)             // in spawn, memory reserved, fork not yet called
    | Forked(p: nat, pid: nat)    // in spawn, fork returned, postFork_cb not yet called
    | Launching(p: nat, fast: bool)  // in terminate, state mutex released, thread not yet created
    | Joining(p: nat)             // in reset, waiting for the termination thread

  datatype Reaper =
    | Sleeping
    | Checking(todo: set<nat>)
    | Holding(pid: nat, raw: int, todo: set<nat>)      // waitpid has collected pid
    | Closing(pid: nat, p: nat, raw: int, todo: set<nat>)  // table mutex held, process not yet marked

  /** exits lists the pids whose exit has been processed, in order. */
  datatype State = State(
    procs: seq<Proc>,
    ctl: Controller,
    reaper: Reaper,
    children: map<nat, Child>,
    pidMap: map<nat, nat>,
    memory: Ledger,
    exits: seq<nat>,
    crashed: bool)

  /**
   maxAsked is the most that any spawn asks for.  resetStuck says whether anyone calls reset on a process
   given up as uninterruptable before the exit of its child has been handled.
   */
  datatype Config = Config(count: nat, available: u32, maxAsked: u32, resetStuck: bool)

  datatype Action =
    | PipeFails(p: nat)
    | SpawnBegins(p: nat, asked: u32)
    | ForkFails
    | ForkSucceeds(pid: nat)
    | PostFork
    | Terminate(p: nat, fast: bool)
    | LaunchThread
    | ResetBegins(p: nat)
    | ResetEnds
    | ThreadBegins(p: nat, stopSent: bool)
    | ThreadWakes(p: nat)
    | ThreadTimesOut(p: nat)
    | ChildDies(pid: nat, raw: int)
    | ReaperLists
    | ReaperSkips(pid: nat)
    | ReaperCollects(pid: nat)
    | ReaperHandles
    | ReaperMarks
    | ReaperSleeps

  predicate ByController(a: Action) { InSpawn(a) || InTerminate(a) }

  predicate InSpawn(a: Action) { a.PipeFails? || a.SpawnBegins? || a.ForkFails? || a.ForkSucceeds? || a.PostFork? }

  predicate InTerminate(a: Action) { a.Terminate? || a.LaunchThread? || a.ResetBegins? || a.ResetEnds? }

  predicate ByThread(a: Action) { a.ThreadBegins? || a.ThreadWakes? || a.ThreadTimesOut? }

  predicate ByReaper(a: Action) {
    a.ReaperLists? || a.ReaperSkips? || a.ReaperCollects? || a.ReaperHandles? || a.ReaperMarks? || a.ReaperSleeps?
  }

  function Fresh(): Proc { Proc(NotSpawned, 0, NoExit, 0, NoThread) }

  function Init(cfg: Config): State {
    State(seq(cfg.count, _ => Fresh()), Idle, Sleeping, map[], map[], Ledger(cfg.available, 0, 0), [], false)
  }

  /** The controller is inside spawn(p) and so holds its state mutex. */
  predicate StateLocked(s: State, p: nat) {
    (s.ctl.Forking? || s.ctl.Forked?) && s.ctl.p == p
  }

  /** Process p has had a child whose exit is still to be handled. */
  predicate Unhandled(children: map<nat, Child>, p: nat) {
    exists k :: k in children && children[k].owner == p && !children[k].life.Handled?
  }

  predicate Enabled(cfg: Config, s: State, a: Action) {
    match a
    case PipeFails(p) => s.ctl.Idle? && p < |s.procs|
    case SpawnBegins(p, asked) => s.ctl.Idle? && p < |s.procs| && asked <= cfg.maxAsked
    case ForkFails => s.ctl.Forking? && s.ctl.p < |s.procs|
    case ForkSucceeds(pid) => s.ctl.Forking? && s.ctl.p < |s.procs| && pid > 0 && pid !in s.children
    case PostFork => s.ctl.Forked? && !s.reaper.Closing?
    case Terminate(p, _) => s.ctl.Idle? && p < |s.procs|
    case LaunchThread => s.ctl.Launching? && s.ctl.p < |s.procs|
    case ResetBegins(p) =>
      && s.ctl.Idle? && p < |s.procs|
      && (s.procs[p].phase.Terminated? && Unhandled(s.children, p) ==> cfg.resetStuck)
    case ResetEnds => s.ctl.Joining? && s.ctl.p < |s.procs|
                      && (s.procs[s.ctl.p].thread.NoThread? || s.procs[s.ctl.p].thread.Finished?)
    case ThreadBegins(p, _) => p < |s.procs| && s.procs[p].thread.Started? && !StateLocked(s, p)
    case ThreadWakes(p) => p < |s.procs| && s.procs[p].thread.Waiting? && !StateLocked(s, p)
    case ThreadTimesOut(p) => p < |s.procs| && s.procs[p].thread.Waiting? && !StateLocked(s, p)
    case ChildDies(pid, _) => pid in s.children && s.children[pid].life.Running?
    case ReaperLists => s.reaper.Sleeping?
    case ReaperSkips(pid) =>
      && s.reaper.Checking? && pid in s.reaper.todo
      && !(pid in s.children && s.children[pid].life.Zombie?)
    case ReaperCollects(pid) =>
      && s.reaper.Checking? && pid in s.reaper.todo
      && pid in s.children && s.children[pid].life.Zombie?
    case ReaperHandles => s.reaper.Holding?
    case ReaperMarks => s.reaper.Closing? && s.reaper.p < |s.procs| && !StateLocked(s, s.reaper.p)
    case ReaperSleeps => s.reaper.Checking? && s.reaper.todo == {}
  }

  // ---------------------------------------------------------------- what the steps do to a process

  /** terminated_internal. */
  function TerminatedInternally(p: Proc, status: ExitStatus): Proc {
    if p.phase.Terminated? then p else p.(phase := Terminated, status := status, pid := 0)
  }

  /** terminate, up to where it releases the state mutex. */
  function AskedToTerminate(p: Proc): Proc {
    match p.phase
    case NotSpawned => TerminatedInternally(p, NeverSpawned)
    case Spawned => p.(phase := Terminating)
    case _ => p
  }

  /** terminationProc, up to its first wait. */
  function ThreadBegun(p: Proc, stopSent: bool): Proc
    requires p.thread.Started?
  {
    if !p.phase.Terminating? || p.pid == 0 then p.(thread := Finished)
    else if p.thread.fast then p.(thread := Waiting(AwaitKill))
    else if stopSent then p.(thread := Waiting(AwaitStop))
    else p.(thread := Waiting(AwaitTerm))
  }

  /** A wait that returned in time looks at the state again. */
  function ThreadWoken(p: Proc): Proc {
    if p.phase.Terminated? then p.(thread := Finished) else p
  }

  /** One that timed out does not; the last resort is to give the process up. */
  function ThreadTimedOut(p: Proc): Proc
    requires p.thread.Waiting?
  {
    match p.thread.stage
    case AwaitStop => p.(thread := Waiting(AwaitTerm))
    case AwaitTerm => p.(thread := Waiting(AwaitKill))
    case AwaitKill => TerminatedInternally(p, Uninterruptable).(thread := Finished)
  }

  /** exit_cb. */
  function Released(s: State, p: nat): State
    requires p < |s.procs|
  {
    s.(memory := ReleaseIn(s.memory, s.procs[p].reserved),
       procs := s.procs[p := s.procs[p].(reserved := 0)])
  }

  /** terminated, which calls exit_cb once more. */
  function MarkedTerminated(s: State, p: nat, raw: int): State
    requires p < |s.procs|
  {
    if s.procs[p].phase.Terminated? then s
    else
      var s1 := Released(s, p);
      s1.(procs := s1.procs[p := s1.procs[p].(phase := Terminated, status := FromOs(raw), pid := 0)])
  }

  function SetLife(s: State, pid: nat, life: Life): State
    requires pid in s.children
  {
    s.(children := s.children[pid := s.children[pid].(life := life)])
  }

  function With(s: State, p: nat, proc: Proc): State
    requires p < |s.procs|
  {
    s.(procs := s.procs[p := proc])
  }

  // ---------------------------------------------------------------- the steps

  function ControllerNext(cfg: Config, s: State, a: Action): State
    requires Enabled(cfg, s, a)
    requires ByController(a)
  {
    match a
    case PipeFails(p) =>
      if s.procs[p].phase.NotSpawned? then With(s, p, TerminatedInternally(s.procs[p], ForkFailed)) else s
    case SpawnBegins(p, asked) =>
      if s.procs[p].phase.NotSpawned?
      then
        var (memory, got) := ReserveUpTo(s.memory, asked);
        With(s, p, s.procs[p].(reserved := got)).(memory := memory, ctl := Forking(p))
      else s
    case ForkFails =>
      Released(With(s, s.ctl.p, TerminatedInternally(s.procs[s.ctl.p], ForkFailed)), s.ctl.p).(ctl := Idle)
    case ForkSucceeds(pid) =>
      With(s, s.ctl.p, s.procs[s.ctl.p].(pid := pid, phase := Spawned))
      .(ctl := Forked(s.ctl.p, pid), children := s.children[pid := Child(s.ctl.p, Running)])
    case PostFork => s.(pidMap := s.pidMap[s.ctl.pid := s.ctl.p], ctl := Idle)
    case Terminate(p, fast) =>
      With(s, p, AskedToTerminate(s.procs[p])).(ctl := if s.procs[p].phase.Spawned? then Launching(p, fast) else Idle)
    case LaunchThread =>
      // assigning over a thread that is still joinable ends the program
      With(s, s.ctl.p, s.procs[s.ctl.p].(thread := Started(s.ctl.fast)))
      .(ctl := Idle, crashed := s.crashed || !s.procs[s.ctl.p].thread.NoThread?)
    case ResetBegins(p) => if s.procs[p].phase.Terminated? then s.(ctl := Joining(p)) else s
    case ResetEnds =>
      With(s, s.ctl.p, s.procs[s.ctl.p].(phase := NotSpawned, thread := NoThread)).(ctl := Idle)
  }

  function ReaperNext(cfg: Config, s: State, a: Action): State
    requires Enabled(cfg, s, a)
    requires ByReaper(a)
  {
    match a
    case ReaperLists => s.(reaper := Checking(s.pidMap.Keys))
    case ReaperSkips(pid) => s.(reaper := Checking(s.reaper.todo - {pid}))
    case ReaperCollects(pid) =>
      SetLife(s, pid, Collected(s.children[pid].life.exit))
      .(reaper := Holding(pid, s.children[pid].life.exit, s.reaper.todo - {pid}))
    case ReaperHandles =>
      var pid := s.reaper.pid;
      if pid !in s.pidMap || s.pidMap[pid] >= |s.procs| || pid !in s.children
      then s.(reaper := Checking(s.reaper.todo))  // an unmanaged process
      else
        SetLife(Released(s, s.pidMap[pid]), pid, Marking(s.reaper.raw))
        .(pidMap := s.pidMap - {pid}, exits := s.exits + [pid],
          reaper := Closing(pid, s.pidMap[pid], s.reaper.raw, s.reaper.todo))
    case ReaperMarks =>
      var s1 := MarkedTerminated(s, s.reaper.p, s.reaper.raw).(reaper := Checking(s.reaper.todo));
      if s.reaper.pid in s.children then SetLife(s1, s.reaper.pid, Handled(s.reaper.raw)) else s1
    case ReaperSleeps => s.(reaper := Sleeping)
  }

  function Next(cfg: Config, s: State, a: Action): State
    requires Enabled(cfg, s, a)
  {
    match a
    case ThreadBegins(p, stopSent) => With(s, p, ThreadBegun(s.procs[p], stopSent))
    case ThreadWakes(p) => With(s, p, ThreadWoken(s.procs[p]))
    case ThreadTimesOut(p) => With(s, p, ThreadTimedOut(s.procs[p]))
    case ChildDies(pid, raw) => SetLife(s, pid, Zombie(raw))
    case ReaperLists | ReaperSkips(_) | ReaperCollects(_) | ReaperHandles | ReaperMarks | ReaperSleeps =>
      ReaperNext(cfg, s, a)
    case _ => ControllerNext(cfg, s, a)
  }

  ghost predicate IsRun(cfg: Config, trace: seq<State>, acts: seq<Action>) {
    && |trace| == |acts| + 1
    && trace[0] == Init(cfg)
    && (forall i :: 0 <= i < |acts| ==> Enabled(cfg, trace[i], acts[i]) && trace[i + 1] == Next(cfg, trace[i], acts[i]))
  }
}
